/**
 * Day 2, part one (src/bin/day2.rs): the sum of the ids of the games whose
 * every sample is possible with a bag of 12 red, 13 green and 14 blue cubes.
 */
module Day2Bin {
  import opened Day2

  /** The bag of `part_one`. */
  const Config: Sample := Sample(12, 13, 14)

  /** `g.samples.iter().all(|&s| s.is_possible(&config))`. */
  predicate GamePossible(g: Game) {
    forall s :: s in g.samples ==> s.IsPossible(Config)
  }

  /** `part_one` over the parsed games: filter the possible games, sum their ids. */
  function PartOne(games: seq<Game>): (total: nat)
    ensures total <= SumIds(games)
    ensures (forall g :: g in games ==> GamePossible(g)) ==> total == SumIds(games)
  {
    if games == [] then 0
    else (if GamePossible(games[0]) then games[0].id else 0) + PartOne(games[1..])
  }

  /** The sum of the ids of all games. */
  function SumIds(games: seq<Game>): nat {
    if games == [] then 0 else games[0].id + SumIds(games[1..])
  }

  /** The games can be split anywhere: the total is the sum over the two parts. */
  lemma {:induction false} PartOneAppend(a: seq<Game>, b: seq<Game>)
    ensures PartOne(a + b) == PartOne(a) + PartOne(b)
  {
    if a != [] {
      assert (a + b)[1..] == a[1..] + b;
      PartOneAppend(a[1..], b);
    } else {
      assert a + b == b;
    }
  }

  /** A game with one impossible sample adds nothing, whatever its other samples are. */
  lemma ImpossibleGameAddsNothing(a: seq<Game>, g: Game, b: seq<Game>)
    requires exists s :: s in g.samples && !s.IsPossible(Config)
    ensures PartOne(a + [g] + b) == PartOne(a + b)
  {
    PartOneAppend(a + [g], b);
    PartOneAppend(a, [g]);
    PartOneAppend(a, b);
  }

  /** A game whose samples are all possible adds its id. */
  lemma PossibleGameAddsId(a: seq<Game>, g: Game, b: seq<Game>)
    requires forall s :: s in g.samples ==> s.IsPossible(Config)
    ensures PartOne(a + [g] + b) == PartOne(a + b) + g.id
  {
    PartOneAppend(a + [g], b);
    PartOneAppend(a, [g]);
    PartOneAppend(a, b);
  }

  /** The test case of `game`, and one game of the puzzle's example that is impossible. */
  lemma PartOneExample()
    ensures PartOne([Game(9, [Sample(13, 3, 11), Sample(13, 1, 6)])]) == 0
    ensures PartOne([Game(1, [Sample(4, 0, 3), Sample(1, 2, 6), Sample(0, 2, 0)])]) == 1
  {
    assert !Sample(13, 3, 11).IsPossible(Config);
  }
}
