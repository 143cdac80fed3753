/**
 * Day 5 (src/day5.rs): piecewise remapping of seed numbers.
 *
 * An `Interval(start, len)` is the half-open range start..start+len.  A
 * `Mapping` sends every value of its source interval to the block of the
 * same length that starts at `dst`.  An `IntervalMap` is one stage of the
 * almanac: the first mapping whose source holds a value remaps it, and a
 * value that no mapping holds passes through unchanged.  Mappings are kept
 * in input order; nothing sorts them or checks that they do not overlap.
 */
module Day5 {
  import opened Wrappers

  /** One past the largest Rust `u64`. */
  const U64_LIMIT: nat := 0x1_0000_0000_0000_0000

  /** `Interval(start, len)`: the values start, start + 1, ..., start + len - 1. */
  datatype Interval = Interval(start: nat, len: nat) {
    predicate Contains(v: nat) {
      start <= v && v < start + len
    }
  }

  /** The values an interval holds, below the bound `hi`. */
  ghost function HeldBelow(i: Interval, hi: nat): set<nat> {
    set v: nat | v < hi && i.Contains(v)
  }

  /** An interval holds exactly `len` values: start..start+len is half-open. */
  lemma {:induction false} IntervalHoldsLenValues(i: Interval)
    ensures |HeldBelow(i, i.start + i.len)| == i.len
    decreases i.len
  {
    if i.len > 0 {
      var shorter := Interval(i.start, i.len - 1);
      IntervalHoldsLenValues(shorter);
      var last := i.start + i.len - 1;
      assert HeldBelow(i, i.start + i.len) == HeldBelow(shorter, last) + {last};
      assert last !in HeldBelow(shorter, last);
    } else {
      assert HeldBelow(i, i.start + i.len) == {};
    }
  }

  /** The test case of `Interval::contains`. */
  lemma ContainsExample()
    ensures var a := Interval(10, 2);
            !a.Contains(9) && a.Contains(10) && a.Contains(11) && !a.Contains(12)
  {
  }

  /** `Mapping { source, dst }`: source value v goes to dst + (v - source.start). */
  datatype Mapping = Mapping(source: Interval, dst: nat) {
    /** `Mapping::map`; the source asserts that v lies in the source interval. */
    function Map(v: nat): (r: nat)
      requires source.Contains(v)
      ensures Destination().Contains(r)
      ensures r - dst == v - source.start
    {
      dst + (v - source.start)
    }

    /** The block the source interval is sent to: same length, starting at dst. */
    function Destination(): Interval {
      Interval(dst, source.len)
    }

    /** The inverse of `Map` on the destination block. */
    function Unmap(w: nat): (v: nat)
      requires Destination().Contains(w)
      ensures source.Contains(v)
    {
      source.start + (w - dst)
    }
  }

  /** `Map` is a bijection from the source interval onto the destination block. */
  lemma MapBijective(m: Mapping)
    ensures forall v :: m.source.Contains(v) ==> m.Unmap(m.Map(v)) == v
    ensures forall w :: m.Destination().Contains(w) ==> m.Map(m.Unmap(w)) == w
  {
  }

  /** Distinct source values go to distinct destination values. */
  lemma MapInjective(m: Mapping, v: nat, v': nat)
    requires m.source.Contains(v) && m.source.Contains(v') && v != v'
    ensures m.Map(v) != m.Map(v')
  {
  }

  /** A mapping whose destination block ends within u64 never yields a value past u64. */
  lemma MapStaysInU64(m: Mapping, v: nat)
    requires m.source.Contains(v) && m.dst + m.source.len <= U64_LIMIT
    ensures m.Map(v) < U64_LIMIT
  {
  }

  /** `Mapping::from((dst, src, len))`: the rule that sends src..src+len to dst..dst+len. */
  function FromTriple(triple: (nat, nat, nat)): (m: Mapping)
    ensures forall v: nat :: m.source.Contains(v) <==> triple.1 <= v < triple.1 + triple.2
    ensures m.Destination() == Interval(triple.0, triple.2)
    ensures triple.2 > 0 ==> m.Map(triple.1) == triple.0
    ensures triple.2 > 0 ==> m.Map(triple.1 + triple.2 - 1) == triple.0 + triple.2 - 1
  {
    Mapping(Interval(triple.1, triple.2), triple.0)
  }

  /** The test cases of `mapping` and `Mapping::map`: "50 98 2" sends 98 to 50 and 99 to 51. */
  lemma FromTripleExample()
    ensures FromTriple((50, 98, 2)) == Mapping(Interval(98, 2), 50)
    ensures FromTriple((50, 98, 2)).Map(98) == 50
    ensures FromTriple((50, 98, 2)).Map(99) == 51
  {
  }

  /**
   * `iter().find(|m| m.source.contains(n))`, as the index of the mapping found:
   * the first mapping whose source holds n, or None when no source does.
   */
  function FindContaining(mappings: seq<Mapping>, n: nat): (r: Option<nat>)
    ensures r.None? <==> forall i :: 0 <= i < |mappings| ==> !mappings[i].source.Contains(n)
    ensures r.Some? ==> r.value < |mappings| && mappings[r.value].source.Contains(n)
    ensures r.Some? ==> forall j :: 0 <= j < r.value ==> !mappings[j].source.Contains(n)
  {
    if mappings == [] then None
    else if mappings[0].source.Contains(n) then Some(0)
    else match FindContaining(mappings[1..], n)
      case None => None
      case Some(i) => Some(i + 1)
  }

  /** Mapping i holds n and no mapping before it does. */
  predicate FirstHolder(mappings: seq<Mapping>, i: nat, n: nat)
    requires i < |mappings|
  {
    mappings[i].source.Contains(n) && forall j :: 0 <= j < i ==> !mappings[j].source.Contains(n)
  }

  /** One almanac stage: an ordered list of mappings, not required to be sorted or disjoint. */
  datatype IntervalMap = IntervalMap(mappings: seq<Mapping>) {
    /**
     * `IntervalMap::map`: the value through the first mapping that holds it,
     * or the value itself when no mapping does.
     */
    function Map(n: nat): (r: nat)
      ensures (forall i :: 0 <= i < |mappings| ==> !mappings[i].source.Contains(n)) ==> r == n
    {
      match FindContaining(mappings, n)
      case Some(i) => mappings[i].Map(n)
      case None => n
    }

    /** No value lies in the sources of two different mappings. */
    ghost predicate SourcesDisjoint() {
      forall i, j, v :: 0 <= i < j < |mappings| && mappings[i].source.Contains(v) ==>
        !mappings[j].source.Contains(v)
    }
  }

  /** When mapping i is the first that holds n, it decides the result. */
  lemma MapUsesFirstHolder(im: IntervalMap, i: nat, n: nat)
    requires i < |im.mappings| && FirstHolder(im.mappings, i, n)
    ensures im.Map(n) == im.mappings[i].Map(n)
  {
    var found := FindContaining(im.mappings, n);
    assert found.Some?;
    assert found.value == i;
  }

  /**
   * When the sources do not overlap, the order of the mappings does not matter:
   * any mapping that holds n decides the result.
   */
  lemma {:induction false} DisjointMapUsesAnyHolder(im: IntervalMap, i: nat, n: nat)
    requires im.SourcesDisjoint()
    requires i < |im.mappings| && im.mappings[i].source.Contains(n)
    ensures im.Map(n) == im.mappings[i].Map(n)
  {
    var holder := im.mappings[i];
    forall j | 0 <= j < i
      ensures !im.mappings[j].source.Contains(n)
    {
      assert im.mappings[j].source.Contains(n) ==> !holder.source.Contains(n);
    }
    MapUsesFirstHolder(im, i, n);
  }

  /** The test case of `IntervalMap::map`. */
  lemma IntervalMapExample()
    ensures var rng := IntervalMap([FromTriple((50, 98, 2)), FromTriple((52, 50, 48))]);
            rng.Map(10) == 10 && rng.Map(50) == 52 && rng.Map(98) == 50
  {
    var rng := IntervalMap([FromTriple((50, 98, 2)), FromTriple((52, 50, 48))]);
    assert !rng.mappings[0].source.Contains(50) && rng.mappings[1].source.Contains(50);
  }

  /** With overlapping sources the mapping earlier in the list wins. */
  lemma OverlapEarlierWins()
    ensures IntervalMap([FromTriple((0, 5, 10)), FromTriple((100, 5, 10))]).Map(7) == 2
  {
    var rng := IntervalMap([FromTriple((0, 5, 10)), FromTriple((100, 5, 10))]);
    assert rng.mappings[0].source.Contains(7);
  }

  /**
   * `n.chunks_exact(2).map(|s| Interval(s[0], s[1]))`: consecutive pairs of
   * the seed list become (start, len) intervals; an odd last number is dropped.
   */
  function PairSeeds(ns: seq<nat>): (r: seq<Interval>)
    ensures |r| == |ns| / 2
    ensures forall i :: 0 <= i < |r| ==> r[i] == Interval(ns[2 * i], ns[2 * i + 1])
  {
    if |ns| < 2 then [] else [Interval(ns[0], ns[1])] + PairSeeds(ns[2..])
  }

  /** The numbers a list of intervals is written as, start then length. */
  function Unpair(rs: seq<Interval>): (ns: seq<nat>)
    ensures |ns| == 2 * |rs|
  {
    if rs == [] then [] else [rs[0].start, rs[0].len] + Unpair(rs[1..])
  }

  /** Pairing loses nothing but an odd trailing number. */
  lemma {:induction false} PairSeedsRoundTrip(ns: seq<nat>)
    ensures Unpair(PairSeeds(ns)) == ns[..|ns| - |ns| % 2]
  {
    if |ns| >= 2 {
      PairSeedsRoundTrip(ns[2..]);
      assert ns[2..][..|ns[2..]| - |ns[2..]| % 2] == ns[2..|ns| - |ns| % 2];
      assert ns[..|ns| - |ns| % 2] == [ns[0], ns[1]] + ns[2..|ns| - |ns| % 2];
    }
  }

  /** Every list of intervals is the pairing of its own numbers. */
  lemma {:induction false} UnpairRoundTrip(rs: seq<Interval>)
    ensures PairSeeds(Unpair(rs)) == rs
  {
    if rs != [] {
      UnpairRoundTrip(rs[1..]);
      assert Unpair(rs)[2..] == Unpair(rs[1..]);
    }
  }

  /** The test case of `seeds`: "1 2 3 4" pairs to (1, 2), (3, 4); an odd tail is dropped. */
  lemma PairSeedsExample()
    ensures PairSeeds([1, 2, 3, 4]) == [Interval(1, 2), Interval(3, 4)]
    ensures PairSeeds([1, 2, 3]) == [Interval(1, 2)]
  {
  }
}
