/**
 * Day 5, part one (src/bin/day5.rs): every seed is folded through the
 * almanac stages in list order, and the answer is the lowest location.
 */
module Day5Bin {
  import opened Day5

  /** The value a seed ends at after every stage of `maps`, applied left to right. */
  function Locate(maps: seq<IntervalMap>, seed: nat): nat {
    if maps == [] then seed else maps[|maps| - 1].Map(Locate(maps[..|maps| - 1], seed))
  }

  /** Running the stages of `first` and then those of `second` is running `first + second`. */
  lemma {:induction false} LocateAppend(first: seq<IntervalMap>, second: seq<IntervalMap>, seed: nat)
    ensures Locate(first + second, seed) == Locate(second, Locate(first, seed))
    decreases |second|
  {
    if second == [] {
      assert first + second == first;
    } else {
      var last := |second| - 1;
      assert (first + second)[..|first + second| - 1] == first + second[..last];
      LocateAppend(first, second[..last], seed);
    }
  }

  /** The first stage is applied first. */
  lemma LocateFirstStage(m: IntervalMap, rest: seq<IntervalMap>, seed: nat)
    ensures Locate([m] + rest, seed) == Locate(rest, m.Map(seed))
  {
    LocateAppend([m], rest, seed);
    assert [m][..0] == [];
  }

  /** With no stages every seed is its own location, so `part_one` is the smallest seed. */
  lemma LocateNoStages(seed: nat)
    ensures Locate([], seed) == seed
  {
  }

  /** The per-seed loop of `part_one`: `v = m.map(v)` for every stage in order. */
  method SeedLocation(seed: nat, maps: seq<IntervalMap>) returns (v: nat)
    ensures v == Locate(maps, seed)
  {
    v := seed;
    for i := 0 to |maps|
      invariant v == Locate(maps[..i], seed)
    {
      assert maps[..i + 1][..i] == maps[..i];
      v := maps[i].Map(v);
    }
    assert maps[..|maps|] == maps;
  }

  /**
   * `part_one`: the minimum over the seeds of their locations.  The source
   * panics on an empty seed list (`.min().unwrap()`).
   */
  method PartOne(seeds: seq<nat>, maps: seq<IntervalMap>) returns (lowest: nat)
    requires |seeds| > 0
    ensures exists k :: 0 <= k < |seeds| && lowest == Locate(maps, seeds[k])
    ensures forall k :: 0 <= k < |seeds| ==> lowest <= Locate(maps, seeds[k])
  {
    lowest := SeedLocation(seeds[0], maps);
    ghost var best := 0;
    for i := 1 to |seeds|
      invariant best < i && lowest == Locate(maps, seeds[best])
      invariant forall k :: 0 <= k < i ==> lowest <= Locate(maps, seeds[k])
    {
      var v := SeedLocation(seeds[i], maps);
      if v < lowest {
        lowest, best := v, i;
      }
    }
  }

  /** The worked almanac's first stage applied to the seeds 79, 14, 55 and 13. */
  method PartOneExample() {
    var soil := IntervalMap([Mapping(Interval(98, 2), 50), Mapping(Interval(50, 48), 52)]);
    assert soil.Map(79) == 81 && soil.Map(14) == 14 && soil.Map(55) == 57 && soil.Map(13) == 13 by {
      MapUsesFirstHolder(soil, 1, 79);
      MapUsesFirstHolder(soil, 1, 55);
    }
    assert [soil][..0] == [];
    var seeds := [79, 14, 55, 13];
    assert forall k :: 0 <= k < 3 ==> Locate([soil], seeds[k]) > 13;
    assert Locate([soil], seeds[3]) == 13;
    var lowest := PartOne(seeds, [soil]);
    assert lowest == 13;
  }
}
