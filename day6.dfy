/**
 * Day 6 (src/day6.rs): boat races.  Holding the button for t ms of a race of
 * `duration` ms leaves duration - t ms to travel at t mm/ms.  `Solve` finds,
 * by binary search over [0, duration / 2], the shortest hold that beats the
 * record; by symmetry the longest winning hold is duration minus it.
 */
module Day6 {
  /** `Race { duration_ms, record_mm }`. */
  datatype Race = Race(duration: nat, record: nat) {
    /**
     * `Race::distance`: the distance covered when holding t ms.  The u64
     * subtraction panics when t exceeds the duration.
     */
    function Distance(t: nat): (d: nat)
      requires t <= duration
      ensures d == 0 <==> t == 0 || t == duration
    {
      (duration - t) * t
    }

    /** `lo` is the answer the search promises: the least hold in [0, duration / 2]
        that beats the record, or duration / 2 when none of them does. */
    ghost predicate IsLeastWinningHold(lo: nat) {
      && lo <= duration / 2
      && (forall t :: 0 <= t < lo ==> Distance(t) <= record)
      && (lo == duration / 2 || Distance(lo) > record)
    }

    /**
     * `Race::solve`: binary search for the first hold that beats the record,
     * paired with the mirrored hold duration - first.
     */
    method Solve() returns (first: nat, second: nat)
      ensures IsLeastWinningHold(first)
      ensures second == duration - first
    {
      var bound: (nat, nat) := (0, duration / 2);
      while bound.0 != bound.1
        invariant bound.0 <= bound.1 <= duration / 2
        invariant forall t :: 0 <= t < bound.0 ==> Distance(t) <= record
        invariant bound.1 == duration / 2 || Distance(bound.1) > record
        decreases bound.1 - bound.0
      {
        var (low, high) := bound;
        var mid := (high + low) / 2;
        if Distance(mid) <= record {
          forall t | 0 <= t <= mid
            ensures Distance(t) <= record
          {
            DistanceMonotone(this, t, mid);
          }
          bound := (mid + 1, high);
        } else {
          bound := (low, mid);
        }
      }
      first, second := bound.0, duration - bound.0;
    }
  }

  /** Holding t ms and holding duration - t ms cover the same distance. */
  lemma DistanceSymmetric(race: Race, t: nat)
    requires t <= race.duration
    ensures race.Distance(race.duration - t) == race.Distance(t)
  {
  }

  /** One more ms of holding helps as long as t + 1 is at most half the duration, rounded up. */
  lemma DistanceStep(race: Race, t: nat)
    requires 2 * t + 1 <= race.duration
    ensures race.Distance(t) <= race.Distance(t + 1)
  {
    var d := race.duration;
    calc {
      race.Distance(t + 1);
    ==
      (d - t - 1) * (t + 1);
    ==
      (d - t) * t + (d - t - 1) - t;
    }
  }

  /** The distance is nondecreasing on [0, duration - duration / 2]. */
  lemma {:induction false} DistanceMonotone(race: Race, a: nat, b: nat)
    requires a <= b <= race.duration - race.duration / 2
    ensures race.Distance(a) <= race.Distance(b)
    decreases b - a
  {
    if a < b {
      DistanceStep(race, a);
      DistanceMonotone(race, a + 1, b);
    }
  }

  /**
   * When the first hold beats the record, the winning holds are exactly
   * first..duration - first: the pair `solve` returns bounds them on both sides.
   */
  lemma WinningHolds(race: Race, first: nat)
    requires race.IsLeastWinningHold(first) && race.Distance(first) > race.record
    ensures first <= race.duration - first
    ensures forall t :: 0 <= t <= race.duration ==>
              (race.Distance(t) > race.record <==> first <= t <= race.duration - first)
  {
    var d := race.duration;
    forall t | 0 <= t <= d
      ensures race.Distance(t) > race.record <==> first <= t <= d - first
    {
      DistanceSymmetric(race, t);
      if first <= t <= d / 2 {
        DistanceMonotone(race, first, t);
      } else if d / 2 < t <= d - first {
        DistanceMonotone(race, first, d - t);
      }
    }
  }

  /** When the search ends on a hold that does not beat the record, no hold does. */
  lemma NoWinningHold(race: Race, first: nat)
    requires race.IsLeastWinningHold(first) && race.Distance(first) <= race.record
    ensures forall t :: 0 <= t <= race.duration ==> race.Distance(t) <= race.record
  {
    var d := race.duration;
    forall t | 0 <= t <= d
      ensures race.Distance(t) <= race.record
    {
      DistanceSymmetric(race, t);
      if t <= d / 2 {
        DistanceMonotone(race, t, d / 2);
      } else {
        DistanceMonotone(race, d - t, d / 2);
      }
    }
  }

  /** The test case of `Race::distance`. */
  lemma DistanceExample()
    ensures Race(7, 9).Distance(3) == 12 && Race(7, 9).Distance(4) == 12
  {
  }

  /** The test cases of `Race::solve`. */
  method SolveExamples() {
    var first, second := Race(7, 9).Solve();
    assert Race(7, 9).Distance(2) == 10;
    assert first == 2 && second == 5;

    var race := Race(30, 200);
    first, second := race.Solve();
    assert race.Distance(10) == 200 && race.Distance(11) == 209;
    if first < 11 {
      DistanceMonotone(race, first, 10);
    }
    assert first == 11 && second == 19;
  }
}
