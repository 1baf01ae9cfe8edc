// The pipeline object: a grid of stage slots changed in place
// (akita/pipelining/pipeline.go), proved equal to the steps of the state machine.
module PipelineImpl {
  import opened Pipeline
  import opened PipelineRuns

  class PipelineImpl {
    const width: nat
    const numStage: nat
    const cyclePerStage: int
    const capacity: nat
    const stages: array2<Slot>
    var postPipelineBuf: seq<Elem>

    // The number of ticks, and what was accepted, pushed and consumed, are history.
    var ticks: nat
    ghost var accepted: seq<Elem>
    ghost var pushed: seq<Out>
    ghost var consumed: seq<Elem>

    constructor (width: nat, numStage: nat, cyclePerStage: int, capacity: nat)
      ensures Shape() && fresh(stages) && Init(View())
      ensures this.width == width && this.numStage == numStage
      ensures this.cyclePerStage == cyclePerStage && this.capacity == capacity
    {
      this.width, this.numStage, this.cyclePerStage, this.capacity := width, numStage, cyclePerStage, capacity;
      stages := new Slot[width, numStage]((i, j) => Empty);
      postPipelineBuf, ticks := [], 0;
      accepted, pushed, consumed := [], [], [];
    }

    ghost predicate Shape() {
      stages.Length0 == width && stages.Length1 == numStage
    }

    ghost function Lane(l: nat): (r: seq<Slot>)
      requires Shape() && l < width
      reads stages
      ensures |r| == numStage
    {
      seq(numStage, i requires 0 <= i < numStage reads stages => stages[l, i])
    }

    ghost function Lanes(): (r: seq<seq<Slot>>)
      requires Shape()
      reads stages
      ensures |r| == width
    {
      seq(width, l requires 0 <= l < width reads stages => Lane(l))
    }

    ghost function View(): Sys
      requires Shape()
      reads this, stages
    {
      Sys(numStage, cyclePerStage, capacity, Lanes(), postPipelineBuf, ticks, accepted, pushed, consumed)
    }

    method SetSlot(l: nat, i: nat, slot: Slot)
      requires Shape() && l < width && i < numStage
      modifies stages
      ensures Lane(l) == old(Lane(l))[i := slot] && Lanes() == old(Lanes())[l := Lane(l)]
    {
      stages[l, i] := slot;
      assert Lane(l) == old(Lane(l))[i := slot];
      forall k | 0 <= k < width && k != l ensures Lane(k) == old(Lane(k)) {
      }
    }

    method TryMoveToPostPipelineBuffer(l: nat) returns (succeed: bool)
      requires Shape() && l < width && numStage > 0 && Lane(l)[numStage - 1].Item?
      modifies this`postPipelineBuf, this`pushed, stages
      ensures succeed == (old(|postPipelineBuf|) < capacity)
      ensures Lane(l) == if succeed then old(Lane(l))[numStage - 1 := Empty] else old(Lane(l))
      ensures Lanes() == old(Lanes())[l := Lane(l)]
      ensures postPipelineBuf == if succeed then old(postPipelineBuf) + [old(Lane(l))[numStage - 1].elem]
              else old(postPipelineBuf)
      ensures pushed == if succeed then old(pushed) + [Out(old(Lane(l))[numStage - 1].elem, ticks + 1)] else old(pushed)
    {
      succeed := |postPipelineBuf| < capacity;
      if succeed {
        var elem := stages[l, numStage - 1].elem;
        postPipelineBuf := postPipelineBuf + [elem];
        pushed := pushed + [Out(elem, ticks + 1)];
        SetSlot(l, numStage - 1, Empty);
      }
    }

    method TryMoveToNextStage(l: nat, i: nat) returns (succeed: bool)
      requires Shape() && l < width && i + 1 < numStage && Lane(l)[i].Item?
      modifies stages
      ensures succeed == old(Lane(l))[i + 1].Empty?
      ensures Lane(l) ==
              if succeed then old(Lane(l))[i + 1 := Item(old(Lane(l))[i].elem, cyclePerStage - 1)][i := Empty]
              else old(Lane(l))
      ensures Lanes() == old(Lanes())[l := Lane(l)]
    {
      succeed := stages[l, i + 1].Empty?;
      if succeed {
        SetSlot(l, i + 1, Item(stages[l, i].elem, cyclePerStage - 1));
        SetSlot(l, i, Empty);
      }
    }

    // One stage of a lane but the last makes its step.
    method TickStage(l: nat, i: nat) returns (madeProgress: bool)
      requires Shape() && l < width && i + 1 < numStage
      modifies stages
      ensures Lane(l) == StepStage(old(Lane(l)), i, cyclePerStage) && Lanes() == old(Lanes())[l := Lane(l)]
      ensures madeProgress == (Lane(l) != old(Lane(l)))
    {
      var stage := stages[l, i];
      assert Lane(l)[i] == stage;
      if stage.Empty? {
        madeProgress := false;
      } else if stage.cycleLeft > 0 {
        SetSlot(l, i, stage.(cycleLeft := stage.cycleLeft - 1));
        assert Lane(l)[i] != stage;
        madeProgress := true;
      } else {
        madeProgress := TryMoveToNextStage(l, i);
        assert madeProgress ==> Lane(l)[i] != stage;
      }
    }

    // The last stage makes its step, into the buffer.
    method TickLastStage(l: nat) returns (madeProgress: bool)
      requires Shape() && l < width && numStage > 0
      modifies this`postPipelineBuf, this`pushed, stages
      ensures Lane(l) == StepLast(old(Lane(l)), old(|postPipelineBuf|) < capacity) &&
              Lanes() == old(Lanes())[l := Lane(l)]
      ensures madeProgress == (Lane(l) != old(Lane(l)))
      ensures if Leaves(old(Lane(l)), old(|postPipelineBuf|) < capacity) then
                && postPipelineBuf == old(postPipelineBuf) + [LastElem(old(Lane(l)), true)]
                && pushed == old(pushed) + [Out(LastElem(old(Lane(l)), true), ticks + 1)]
              else postPipelineBuf == old(postPipelineBuf) && pushed == old(pushed)
    {
      var stage := stages[l, numStage - 1];
      assert Lane(l)[numStage - 1] == stage;
      if stage.Empty? {
        madeProgress := false;
      } else if stage.cycleLeft > 0 {
        SetSlot(l, numStage - 1, stage.(cycleLeft := stage.cycleLeft - 1));
        assert Lane(l)[numStage - 1] != stage;
        madeProgress := true;
      } else {
        madeProgress := TryMoveToPostPipelineBuffer(l);
        assert madeProgress ==> Lane(l)[numStage - 1] != stage;
      }
    }

    // The stages of a lane before the last, from the back to the front.
    method TickStages(l: nat) returns (madeProgress: bool)
      requires Shape() && l < width && numStage > 0
      modifies stages
      ensures Lane(l) == StepDown(old(Lane(l)), numStage - 1, cyclePerStage) && Lanes() == old(Lanes())[l := Lane(l)]
      ensures madeProgress == (MovesDown(old(Lane(l)), numStage - 1, cyclePerStage) > 0)
    {
      hide StepStage;
      ghost var lane, lanes := Lane(l), Lanes();
      assert lanes[l] == lane;
      madeProgress := false;
      for i := numStage - 1 downto 0
        invariant StepDown(Lane(l), i, cyclePerStage) == StepDown(lane, numStage - 1, cyclePerStage)
        invariant madeProgress || MovesDown(Lane(l), i, cyclePerStage) > 0 <==>
                  MovesDown(lane, numStage - 1, cyclePerStage) > 0
        invariant Lanes() == lanes[l := Lane(l)]
      {
        var moved := TickStage(l, i);
        madeProgress := moved || madeProgress;
      }
    }

    method TickOneLane(l: nat) returns (madeProgress: bool)
      requires Shape() && l < width
      modifies this`postPipelineBuf, this`pushed, stages
      ensures View() == TickLane(old(View()), l)
      ensures madeProgress == (LaneMoves(old(Lane(l)), cyclePerStage, old(|postPipelineBuf|) < capacity) > 0)
    {
      hide StepDown, MovesDown, StepLast;
      if numStage == 0 {
        assert Lane(l) == [] && Lanes()[l := []] == Lanes();
        return false;
      }
      assert Lanes()[l] == Lane(l);
      var last := TickLastStage(l);
      var others := TickStages(l);
      madeProgress := others || last;
      assert Lanes() == old(Lanes())[l := Lane(l)];
    }

    // Moves the items of all lanes forward.
    method TickAll() returns (madeProgress: bool)
      requires Shape()
      modifies this`postPipelineBuf, this`pushed, this`ticks, stages
      ensures View() == Apply(old(View()), Tick)
      ensures madeProgress == (TickMoves(old(View()), width) > 0)
    {
      hide TickLane, LaneMoves;
      madeProgress := false;
      ghost var was := View();
      for l := 0 to width
        invariant View() == TickLanes(was, l) && ticks == was.ticks
        invariant madeProgress == (TickMoves(was, l) > 0)
      {
        assert Lane(l) == View().lanes[l];
        var moved := TickOneLane(l);
        madeProgress := moved || madeProgress;
      }
      ticks := ticks + 1;
    }

    method CanAcceptItem() returns (can: bool)
      requires Shape()
      ensures can == CanAccept(View())
      ensures can <==> if numStage == 0 then |postPipelineBuf| < capacity
                       else exists l :: 0 <= l < width && stages[l, 0].Empty?
    {
      if numStage == 0 {
        return |postPipelineBuf| < capacity;
      }
      for l := 0 to width
        invariant forall k :: 0 <= k < l ==> !Free(Lanes()[k])
        invariant forall k :: 0 <= k < l ==> stages[k, 0].Item?
      {
        assert Lanes()[l][0] == stages[l, 0];
        if stages[l, 0].Empty? {
          assert Free(Lanes()[l]);
          return true;
        }
      }
      can := false;
    }

    // The first lane with a free first stage.
    method FindFree() returns (l: nat)
      requires Shape() && exists k :: 0 <= k < width && Free(Lanes()[k])
      ensures l == FirstFree(Lanes())
    {
      ghost var lanes := Lanes();
      l := 0;
      FreeLane(lanes);
      while stages[l, 0].Item?
        invariant 0 <= l < width && HasFree(lanes[l..]) && numStage > 0
        invariant FirstFree(lanes) == l + FirstFree(lanes[l..])
        decreases width - l
      {
        assert lanes[l][0] == stages[l, 0] && lanes[l..][0] == lanes[l];
        LaterFree(lanes[l..]);
        assert lanes[l..][1..] == lanes[l + 1..];
        l := l + 1;
      }
      assert lanes[l][0] == stages[l, 0] && lanes[l..][0] == lanes[l];
    }

    // Puts an item into the first lane that has room. Without the premise it panics.
    method AcceptItem(id: nat)
      requires Shape() && CanAccept(View())
      modifies this`postPipelineBuf, this`pushed, this`accepted, stages
      ensures View() == Apply(old(View()), Accept(id))
    {
      hide FirstFree;
      if numStage == 0 {
        var e := Elem(id, ticks, 0);
        postPipelineBuf := postPipelineBuf + [e];
        accepted, pushed := accepted + [e], pushed + [Out(e, ticks)];
        return;
      }
      var l := FindFree();
      assert Lanes()[l] == Lane(l);
      var e := Elem(id, ticks, l);
      SetSlot(l, 0, Item(e, cyclePerStage - 1));
      accepted := accepted + [e];
    }

    // Discards the items in all stages.
    method Clear()
      requires Shape()
      modifies stages
      ensures forall l, i :: 0 <= l < width && 0 <= i < numStage ==> stages[l, i] == Empty
    {
      for l := 0 to width
        invariant forall k, i :: 0 <= k < l && 0 <= i < numStage ==> stages[k, i] == Empty
      {
        for i := 0 to numStage
          invariant forall k, j :: 0 <= k < l && 0 <= j < numStage ==> stages[k, j] == Empty
          invariant forall j :: 0 <= j < i ==> stages[l, j] == Empty
        {
          stages[l, i] := Empty;
        }
      }
    }
  }

  ghost predicate HasFree(lanes: seq<seq<Slot>>) {
    exists l :: 0 <= l < |lanes| && Free(lanes[l])
  }

  lemma FreeLane(lanes: seq<seq<Slot>>)
    requires exists k :: 0 <= k < |lanes| && Free(lanes[k])
    ensures HasFree(lanes) && lanes[0..] == lanes && |lanes| > 0
  {
  }

  lemma LaterFree(lanes: seq<seq<Slot>>)
    requires HasFree(lanes) && !Free(lanes[0])
    ensures HasFree(lanes[1..]) && FirstFree(lanes) == 1 + FirstFree(lanes[1..])
  {
    var l :| 0 <= l < |lanes| && Free(lanes[l]);
    assert lanes[1..][l - 1] == lanes[l];
  }
}
