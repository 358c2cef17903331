/** The safe-zone countdown of shrinkZone (one call per second): pure integer
    arithmetic on the shrink timer, the advertised countdown and the radius. */
module Zone {
  import opened Entities

  datatype ZoneClock = ZoneClock(shrinkTimer: int, nextShrinkTime: int, radius: int)

  function Max(a: int, b: int): int { if a >= b then a else b }

  /** Whether this call of shrinkZone shrinks the zone (timer reaches 0 or less). */
  predicate ShrinksNow(z: ZoneClock)
  {
    z.shrinkTimer - 1 <= 0
  }

  /** One call of shrinkZone. */
  function ShrinkStep(z: ZoneClock): ZoneClock
  {
    var t := z.shrinkTimer - 1;
    if t <= 0 then ZoneClock(ShrinkPeriod, ShrinkPeriod, Max(MinRadius, z.radius - ShrinkSpeed))
    else ZoneClock(t, t, z.radius)
  }

  function ShrinkSteps(z: ZoneClock, n: nat): ZoneClock
  {
    if n == 0 then z else ShrinkStep(ShrinkSteps(z, n - 1))
  }

  predicate WellFormed(z: ZoneClock)
  {
    1 <= z.shrinkTimer <= ShrinkPeriod && z.nextShrinkTime == z.shrinkTimer && z.radius >= MinRadius
  }

  /** One step: the countdown is copied into nextShrinkTime; on a shrink both
      restart at 5 and the radius drops by 250 but not below 200. */
  lemma ShrinkStepEffect(z: ZoneClock)
    ensures ShrinkStep(z).nextShrinkTime == ShrinkStep(z).shrinkTimer
    ensures ShrinksNow(z) ==>
      (ShrinkStep(z).shrinkTimer == 5 && ShrinkStep(z).radius == (if z.radius - 250 >= 200 then z.radius - 250 else 200))
    ensures !ShrinksNow(z) ==> ShrinkStep(z).shrinkTimer == z.shrinkTimer - 1 && ShrinkStep(z).radius == z.radius
    ensures ShrinkStep(z).radius <= z.radius || ShrinkStep(z).radius == MinRadius
  {
  }

  /** The radius never grows once it is at least the floor, and stays at or above it. */
  lemma {:induction false} RadiusMonotone(z: ZoneClock, n: nat)
    requires z.radius >= MinRadius
    ensures MinRadius <= ShrinkSteps(z, n).radius <= z.radius
  {
    if n > 0 {
      RadiusMonotone(z, n - 1);
    }
  }

  /** The clock invariant the room relies on is kept by every step. */
  lemma {:induction false} WellFormedKept(z: ZoneClock, n: nat)
    requires WellFormed(z)
    ensures WellFormed(ShrinkSteps(z, n))
  {
    if n > 0 {
      WellFormedKept(z, n - 1);
    }
  }

  /** From timer t in 1..5, after t more calls the zone has shrunk exactly once
      and the countdown is back at 5. */
  lemma {:induction false} OneShrinkPerCycle(z: ZoneClock)
    requires 1 <= z.shrinkTimer <= ShrinkPeriod
    ensures ShrinkSteps(z, z.shrinkTimer) == ZoneClock(5, 5, Max(MinRadius, z.radius - ShrinkSpeed))
    decreases z.shrinkTimer
  {
    if z.shrinkTimer == 1 {
      assert ShrinkSteps(z, 1) == ShrinkStep(z);
    } else {
      var z' := ShrinkStep(z);
      assert z' == ZoneClock(z.shrinkTimer - 1, z.shrinkTimer - 1, z.radius);
      OneShrinkPerCycle(z');
      StepsShift(z, z.shrinkTimer - 1);
    }
  }

  lemma {:induction false} StepsShift(z: ZoneClock, n: nat)
    ensures ShrinkSteps(z, n + 1) == ShrinkSteps(ShrinkStep(z), n)
  {
    if n > 0 {
      StepsShift(z, n - 1);
    }
  }

  lemma {:induction false} StepsAdd(z: ZoneClock, m: nat, n: nat)
    ensures ShrinkSteps(z, m + n) == ShrinkSteps(ShrinkSteps(z, m), n)
    decreases n
  {
    if n > 0 {
      StepsAdd(z, m, n - 1);
    }
  }

  /** From a fresh countdown, every block of five calls takes 250 off the radius
      (clamped at 200): after 5c calls it is max(200, r - 250c). */
  lemma {:induction false} ShrinkSchedule(z: ZoneClock, c: nat)
    requires WellFormed(z) && z.shrinkTimer == ShrinkPeriod
    ensures ShrinkSteps(z, 5 * c) == ZoneClock(5, 5, Max(MinRadius, z.radius - ShrinkSpeed * c))
    decreases c
  {
    if c > 0 {
      ShrinkSchedule(z, c - 1);
      StepsAdd(z, 5 * (c - 1), 5);
      var w := ShrinkSteps(z, 5 * (c - 1));
      OneShrinkPerCycle(w);
      assert 5 * (c - 1) + 5 == 5 * c;
    }
  }

  /** How many weapons generateNewWeaponsInShrinkingZone adds for a new radius:
      max(1, floor(3 * min(1, radius / 1000))). */
  function WeaponsForRadius(radius: int): (n: nat)
    ensures 1 <= n <= 3
    ensures radius >= 1000 ==> n == 3
    ensures radius < 1000 ==> n == Max(1, (3 * radius) / 1000)
  {
    var factor: real := if (radius as real) / 1000.0 < 1.0 then (radius as real) / 1000.0 else 1.0;
    var f := (3.0 * factor).Floor;
    if f >= 1 then f else 1
  }
}
