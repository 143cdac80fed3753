/**
 * Day 4 (src/day4.rs): scratchcards.  A card counts how many of the numbers
 * it shows are among its winning numbers; its value doubles with every
 * match after the first.
 */
module Day4 {
  /** One more than the largest Rust `u16`. */
  const U16_LIMIT: nat := 0x1_0000

  /** `Card { id, winnings, numbers, matching }`. */
  datatype Card = Card(id: nat, winnings: seq<nat>, numbers: seq<nat>, matching: nat) {
    /**
     * `Card::value`: 0 without a match, otherwise 2^(matching - 1).  The
     * `u16` power overflows, and panics, from 17 matches on.
     */
    function Value(): (v: nat)
      requires matching <= 16
      ensures v == 0 <==> matching == 0
      ensures v < U16_LIMIT
    {
      if matching == 0 then 0 else Pow2Bound(matching - 1); Pow2(matching - 1)
    }
  }

  /** 2^e. */
  function Pow2(e: nat): (p: nat)
    ensures p >= 1
  {
    if e == 0 then 1 else 2 * Pow2(e - 1)
  }

  /** 2^e never decreases as e grows. */
  lemma {:induction false} Pow2Monotone(a: nat, b: nat)
    requires a <= b
    ensures Pow2(a) <= Pow2(b)
    decreases b
  {
    if a < b {
      Pow2Monotone(a, b - 1);
    }
  }

  /** 2^e fits in a u16 exactly when e < 16. */
  lemma Pow2Bound(e: nat)
    ensures e < 16 <==> Pow2(e) < U16_LIMIT
  {
    assert Pow2(15) == 32768 && Pow2(16) == U16_LIMIT;
    if e < 16 {
      Pow2Monotone(e, 15);
    } else {
      Pow2Monotone(16, e);
    }
  }

  /** Each further match doubles a card's value. */
  lemma ValueDoubles(c: Card)
    requires 1 <= c.matching < 16
    ensures c.(matching := c.matching + 1).Value() == 2 * c.Value()
  {
  }

  /** `numbers.iter().filter(|n| winnings.contains(n)).count()`. */
  function MatchCount(numbers: seq<nat>, winnings: seq<nat>): nat {
    if numbers == [] then 0
    else (if numbers[0] in winnings then 1 else 0) + MatchCount(numbers[1..], winnings)
  }

  /** Appending a number adds one exactly when it is a winning number. */
  lemma {:induction false} MatchCountSnoc(numbers: seq<nat>, n: nat, winnings: seq<nat>)
    ensures MatchCount(numbers + [n], winnings) == MatchCount(numbers, winnings) + if n in winnings then 1 else 0
  {
    if numbers != [] {
      assert (numbers + [n])[1..] == numbers[1..] + [n];
      MatchCountSnoc(numbers[1..], n, winnings);
    }
  }

  /** The positions of `numbers` whose number is a winning number. */
  ghost function MatchingPositions(numbers: seq<nat>, winnings: seq<nat>): set<nat> {
    set i: nat | i < |numbers| && numbers[i] in winnings
  }

  /** The count is the number of matching positions: a repeated number counts at each position. */
  lemma {:induction false} MatchCountPositions(numbers: seq<nat>, winnings: seq<nat>)
    ensures MatchCount(numbers, winnings) == |MatchingPositions(numbers, winnings)|
    ensures MatchCount(numbers, winnings) <= |numbers|
  {
    if numbers != [] {
      var prefix := numbers[..|numbers| - 1];
      var last := |numbers| - 1;
      MatchCountPositions(prefix, winnings);
      MatchCountSnoc(prefix, numbers[last], winnings);
      assert prefix + [numbers[last]] == numbers;
      if numbers[last] in winnings {
        assert MatchingPositions(numbers, winnings) == MatchingPositions(prefix, winnings) + {last};
      } else {
        assert MatchingPositions(numbers, winnings) == MatchingPositions(prefix, winnings);
      }
    } else {
      assert MatchingPositions(numbers, winnings) == {};
    }
  }

  /**
   * `Card::new`: the card keeps its id and both lists, and `matching` is the
   * number of matching positions, truncated to u16 by `as u16`.
   */
  function NewCard(id: nat, winnings: seq<nat>, numbers: seq<nat>): (c: Card)
    ensures c.id == id && c.winnings == winnings && c.numbers == numbers
    ensures c.matching == |MatchingPositions(numbers, winnings)| % U16_LIMIT
    ensures c.matching <= |numbers|
  {
    MatchCountPositions(numbers, winnings);
    var matching := MatchCount(numbers, winnings) % U16_LIMIT;
    Card(id, winnings, numbers, matching)
  }

  /** The matches of the test card: 83, 86, 17 and 48. */
  lemma MatchCountExample()
    ensures MatchCount([83, 86, 6, 31, 17, 9, 48, 53], [41, 48, 83, 86, 17]) == 4
  {
  }

  /** The test case of `card` and `Card::value`: four matches, value 8. */
  lemma CardExample()
    ensures NewCard(1, [41, 48, 83, 86, 17], [83, 86, 6, 31, 17, 9, 48, 53]).matching == 4
    ensures NewCard(1, [41, 48, 83, 86, 17], [83, 86, 6, 31, 17, 9, 48, 53]).Value() == 8
  {
    MatchCountExample();
  }
}
