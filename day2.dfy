/**
 * Day 2 (src/day2.rs): games of cubes drawn from a bag.  A sample is the
 * number of red, green and blue cubes shown at once; a sample is possible
 * for a bag configuration when no colour exceeds the bag's count.
 */
module Day2 {
  /** `Sample { red, green, blue }`; the constructor is `Sample::new`. */
  datatype Sample = Sample(red: nat, green: nat, blue: nat) {
    /** `Sample::is_possible`: the bag `config` holds at least this many cubes of each colour. */
    predicate IsPossible(config: Sample) {
      red <= config.red && green <= config.green && blue <= config.blue
    }
  }

  /** `Game { id, samples }`. */
  datatype Game = Game(id: nat, samples: seq<Sample>)

  /** A parsed "N colour" item of a sample, as `(count, colour)`. */
  type ColorCount = (nat, string)

  /** Item i is the first item of colour `color`. */
  predicate FirstOfColor(counts: seq<ColorCount>, i: nat, color: string)
    requires i < |counts|
  {
    counts[i].1 == color && forall j :: 0 <= j < i ==> counts[j].1 != color
  }

  /**
   * `get_count`: the count of the first item of colour `color`, or 0
   * (`unwrap_or_default`) when no item has that colour.
   */
  function GetCount(color: string, counts: seq<ColorCount>): (n: nat)
    ensures (forall i :: 0 <= i < |counts| ==> counts[i].1 != color) ==> n == 0
    ensures forall i :: 0 <= i < |counts| && FirstOfColor(counts, i, color) ==> n == counts[i].0
  {
    if counts == [] then 0
    else if counts[0].1 == color then counts[0].0
    else GetCount(color, counts[1..])
  }

  /** `from_counts`: a sample from the items of one draw, each colour looked up by `GetCount`. */
  function FromCounts(counts: seq<ColorCount>): Sample {
    var red := GetCount("red", counts);
    var green := GetCount("green", counts);
    var blue := GetCount("blue", counts);
    Sample(red, green, blue)
  }

  /** No colour is named twice in the items of a draw. */
  predicate DistinctColors(counts: seq<ColorCount>) {
    forall i, j :: 0 <= i < j < |counts| ==> counts[i].1 != counts[j].1
  }

  /** With distinct colours, `GetCount` finds the one item of that colour wherever it is. */
  lemma GetCountDistinct(color: string, counts: seq<ColorCount>, n: nat)
    requires DistinctColors(counts) && (n, color) in counts
    ensures GetCount(color, counts) == n
  {
    var i :| 0 <= i < |counts| && counts[i] == (n, color);
    assert FirstOfColor(counts, i, color);
  }

  /** A colour that no item names counts 0. */
  lemma GetCountAbsent(color: string, counts: seq<ColorCount>)
    requires forall item :: item in counts ==> item.1 != color
    ensures GetCount(color, counts) == 0
  {
    assert forall i :: 0 <= i < |counts| ==> counts[i] in counts;
  }

  /**
   * The order in which a draw lists its colours does not matter when no colour
   * is named twice: two such lists with the same items give the same sample.
   */
  lemma FromCountsOrderFree(a: seq<ColorCount>, b: seq<ColorCount>)
    requires DistinctColors(a) && DistinctColors(b) && multiset(a) == multiset(b)
    ensures FromCounts(a) == FromCounts(b)
  {
    forall color | color in ["red", "green", "blue"]
      ensures GetCount(color, a) == GetCount(color, b)
    {
      assert forall item :: item in a <==> item in b by {
        forall item ensures item in a <==> item in b {
          assert item in a <==> item in multiset(a);
          assert item in b <==> item in multiset(b);
        }
      }
      if item :| item in a && item.1 == color {
        GetCountDistinct(color, a, item.0);
        GetCountDistinct(color, b, item.0);
      } else {
        GetCountAbsent(color, a);
        GetCountAbsent(color, b);
      }
    }
  }

  /** The test cases of `sample`: "4 red, 3 green, 1 blue" and "4 blue, 3 red". */
  lemma FromCountsExample()
    ensures FromCounts([(4, "red"), (3, "green"), (1, "blue")]) == Sample(4, 3, 1)
    ensures FromCounts([(4, "blue"), (3, "red")]) == Sample(3, 0, 4)
  {
  }
}
