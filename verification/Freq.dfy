// Frequencies and tick rounding, over exact reals (akita/sim/freq.go).
module Freq {

  // Virtual time, in seconds.
  type Time = real

  // A clock maps a time to the next tick, which is strictly later.
  ghost predicate Advances(next: Time -> Time) {
    forall t :: t < next(t)
  }

  // The nearest integer, halves rounded away from zero.
  function Round(x: real): int {
    if x < 0.0 then -((0.5 - x).Floor) else (x + 0.5).Floor
  }

  function Ceil(x: real): int {
    -((-x).Floor)
  }

  // The number of tenths of a cycle nearest to a time.
  function Tenths(f: real, now: Time): int {
    Round(now * 10.0 * f)
  }

  // The time at which a cycle starts.
  function TimeOfCycle(f: real, k: int): Time
    requires f > 0.0
  {
    k as real / f
  }

  function ThisTick(f: real, now: Time): Time
    requires f > 0.0
  {
    TimeOfCycle(f, Ceil(Tenths(f, now) as real / 10.0))
  }

  function NextTick(f: real, now: Time): Time
    requires f > 0.0
  {
    TimeOfCycle(f, (Tenths(f, now) as real / 10.0).Floor + 1)
  }

  function NCyclesLater(f: real, n: int, now: Time): Time
    requires f > 0.0
  {
    ThisTick(f, now + n as real / f)
  }

  // A time that falls exactly on a tick.
  ghost predicate WholeCycle(f: real, t: Time)
    requires f > 0.0
  {
    exists k: int :: t == TimeOfCycle(f, k)
  }

  lemma RoundIsNearest(x: real)
    ensures x - 0.5 <= Round(x) as real <= x + 0.5
  {
  }

  // The tenths are within half a tenth of the exact cycle count.
  lemma TenthsBounds(f: real, now: Time, x: real)
    requires x == now * f
    ensures 10.0 * x - 0.5 <= Tenths(f, now) as real <= 10.0 * x + 0.5
  {
    assert now * 10.0 * f == 10.0 * x;
    RoundIsNearest(10.0 * x);
  }

  lemma CountBounds(n: int)
    ensures n - 9 <= 10 * ((n as real / 10.0).Floor) <= n
    ensures n <= 10 * Ceil(n as real / 10.0) <= n + 9
  {
    assert (-(n as real / 10.0)) == (-n) as real / 10.0;
    var fl, ce := (n as real / 10.0).Floor, ((-n) as real / 10.0).Floor;
    assert fl as real <= n as real / 10.0 < fl as real + 1.0;
    assert ce as real <= (-n) as real / 10.0 < ce as real + 1.0;
    assert (10 * fl) as real <= n as real < (10 * fl + 10) as real;
    assert (10 * ce) as real <= (-n) as real < (10 * ce + 10) as real;
  }

  // Bounds on a cycle count carry over to bounds on its time.
  lemma CyclesToTime(f: real, now: Time, x: real, lo: real, k: int, hi: real)
    requires f > 0.0 && x == now * f
    requires x + lo <= k as real <= x + hi
    ensures now + lo / f <= TimeOfCycle(f, k) <= now + hi / f
  {
    assert x / f == now;
    DivideOrder(f, x + lo, k as real);
    DivideOrder(f, k as real, x + hi);
    assert (x + lo) / f == x / f + lo / f;
    assert (x + hi) / f == x / f + hi / f;
  }

  lemma DivideOrder(f: real, a: real, b: real)
    requires f > 0.0 && a <= b
    ensures a / f <= b / f
  {
  }

  // The next tick is a whole cycle, between 0.05 and 1.05 cycles after the input.
  lemma NextTickBounds(f: real, now: Time)
    requires f > 0.0
    ensures WholeCycle(f, NextTick(f, now))
    ensures now + 0.05 / f <= NextTick(f, now) <= now + 1.05 / f
    ensures now < NextTick(f, now)
  {
    var n, x := Tenths(f, now), now * f;
    TenthsBounds(f, now, x);
    CountBounds(n);
    CyclesToTime(f, now, x, 0.05, (n as real / 10.0).Floor + 1, 1.05);
    assert 0.05 / f > 0.0;
  }

  // This tick is a whole cycle, at most 0.05 cycles before and 0.95 cycles after the input.
  lemma ThisTickBounds(f: real, now: Time)
    requires f > 0.0
    ensures WholeCycle(f, ThisTick(f, now))
    ensures now - 0.05 / f <= ThisTick(f, now) <= now + 0.95 / f
  {
    var n, x := Tenths(f, now), now * f;
    TenthsBounds(f, now, x);
    CountBounds(n);
    CyclesToTime(f, now, x, -0.05, Ceil(n as real / 10.0), 0.95);
    assert (-0.05) / f == -(0.05 / f);
  }

  // On a whole cycle k, this tick is k itself and the next tick is k + 1.
  lemma TicksOnWholeCycle(f: real, k: int)
    requires f > 0.0
    ensures ThisTick(f, TimeOfCycle(f, k)) == TimeOfCycle(f, k)
    ensures NextTick(f, TimeOfCycle(f, k)) == TimeOfCycle(f, k + 1)
  {
    assert k as real / f * f == k as real;
    TenthsBounds(f, TimeOfCycle(f, k), k as real);
    CountBounds(Tenths(f, TimeOfCycle(f, k)));
  }

  // Rounding to this tick is idempotent, and counting cycles ends on a whole cycle.
  lemma ThisTickIdempotent(f: real, n: int, now: Time)
    requires f > 0.0
    ensures ThisTick(f, ThisTick(f, now)) == ThisTick(f, now)
    ensures WholeCycle(f, NCyclesLater(f, n, now))
  {
    ThisTickBounds(f, now + n as real / f);
    TicksOnWholeCycle(f, Ceil(Tenths(f, now) as real / 10.0));
  }

  // From a whole cycle, n cycles later is exactly n cycles later.
  lemma NCyclesLaterExact(f: real, k: int, n: int)
    requires f > 0.0
    ensures NCyclesLater(f, n, TimeOfCycle(f, k)) == TimeOfCycle(f, k + n)
  {
    assert k as real / f + n as real / f == (k + n) as real / f;
    TicksOnWholeCycle(f, k + n);
  }

  // Every positive frequency gives a clock.
  lemma FrequencyAdvances(f: real)
    requires f > 0.0
    ensures Advances(t => NextTick(f, t))
  {
    forall t ensures t < NextTick(f, t) {
      NextTickBounds(f, t);
    }
  }
}
