/**
 * Day 3 (src/day3.rs): an engine schematic.  `SymbolMap.Parse` records the
 * position of every symbol (a char that is neither '.' nor a digit),
 * `SymbolMap.Query` selects the symbols inside a rectangle, and `Numbers`
 * finds every maximal run of digits of every line with its decimal value.
 * Positions are (row, column), both counted from 0.
 */
module Day3 {
  import opened Wrappers
  import opened Ascii

  /** A (row, column) position in the schematic. */
  type Position = (nat, nat)

  /** The chars the map records: neither '.' nor an ASCII digit. */
  predicate IsSymbol(a: char) {
    a != '.' && !IsAsciiDigit(a)
  }

  /** p comes before q in row-major order. */
  predicate Before(p: Position, q: Position) {
    p.0 < q.0 || (p.0 == q.0 && p.1 < q.1)
  }

  /** The positions are strictly increasing in row-major order. */
  predicate RowMajor(ps: seq<Position>) {
    forall i, j :: 0 <= i < j < |ps| ==> Before(ps[i], ps[j])
  }

  /** The symbols of row r, line l, from column c on, in column order. */
  function RowSymbols(r: nat, l: string, c: nat): (ps: seq<Position>)
    requires c <= |l|
    ensures forall p :: p in ps <==> p.0 == r && c <= p.1 < |l| && IsSymbol(l[p.1])
    ensures RowMajor(ps)
    decreases |l| - c
  {
    if c == |l| then []
    else (if IsSymbol(l[c]) then [(r, c)] else []) + RowSymbols(r, l, c + 1)
  }

  /** The symbols of the lines, the first of which is row r0, row after row. */
  function Rows(lines: seq<string>, r0: nat): (ps: seq<Position>)
    ensures forall p :: p in ps <==>
              r0 <= p.0 < r0 + |lines| && p.1 < |lines[p.0 - r0]| && IsSymbol(lines[p.0 - r0][p.1])
    ensures RowMajor(ps)
  {
    if lines == [] then []
    else
      var first := RowSymbols(r0, lines[0], 0);
      var rest := Rows(lines[1..], r0 + 1);
      assert forall p :: p in rest ==> p.0 > r0;
      assert forall i :: 0 <= i < |first| ==> first[i] in first;
      assert forall j :: 0 <= j < |rest| ==> rest[j] in rest;
      first + rest
  }

  /** `SymbolMap { symbols }`. */
  datatype SymbolMap = SymbolMap(symbols: seq<Position>) {
    /**
     * `SymbolMap::parse`: every position whose char is a symbol, and no
     * other, in row-major order.
     */
    static function Parse(lines: seq<string>): (m: SymbolMap)
      ensures forall p :: p in m.symbols <==> p.0 < |lines| && p.1 < |lines[p.0]| && IsSymbol(lines[p.0][p.1])
      ensures RowMajor(m.symbols)
    {
      SymbolMap(Rows(lines, 0))
    }

    /**
     * `SymbolMap::query`: the symbols in rows rows.0 to rows.1 and columns
     * columns.0 to columns.1, bounds included, in the map's order.
     */
    function Query(rows: (nat, nat), columns: (nat, nat)): (ps: seq<Position>)
      ensures forall p :: p in ps <==> p in symbols && InBox(p, rows, columns)
      ensures Subsequence(ps, symbols)
    {
      Select(symbols, rows, columns)
    }
  }

  /** p lies in the rectangle given by the inclusive row and column bounds. */
  predicate InBox(p: Position, rows: (nat, nat), columns: (nat, nat)) {
    rows.0 <= p.0 <= rows.1 && columns.0 <= p.1 <= columns.1
  }

  /** The positions of ps inside the rectangle, in order. */
  function Select(ps: seq<Position>, rows: (nat, nat), columns: (nat, nat)): (qs: seq<Position>)
    ensures forall p :: p in qs <==> p in ps && InBox(p, rows, columns)
    ensures Subsequence(qs, ps)
  {
    if ps == [] then []
    else if InBox(ps[0], rows, columns) then [ps[0]] + Select(ps[1..], rows, columns)
    else Select(ps[1..], rows, columns)
  }

  /** xs is ys with some elements left out and the order kept. */
  predicate Subsequence(xs: seq<Position>, ys: seq<Position>) {
    if xs == [] then true
    else if ys == [] then false
    else if xs[0] == ys[0] then Subsequence(xs[1..], ys[1..])
    else Subsequence(xs, ys[1..])
  }

  /** A subsequence of row-major positions is in row-major order too: `query` keeps the map's order. */
  lemma {:induction false} SubsequenceRowMajor(xs: seq<Position>, ys: seq<Position>)
    requires Subsequence(xs, ys) && RowMajor(ys)
    ensures RowMajor(xs)
    ensures forall i :: 0 <= i < |xs| ==> xs[i] in ys
  {
    if xs != [] && ys != [] {
      assert RowMajor(ys[1..]);
      if xs[0] == ys[0] {
        SubsequenceRowMajor(xs[1..], ys[1..]);
        forall j | 0 < j < |xs|
          ensures Before(xs[0], xs[j])
        {
          assert xs[j] == xs[1..][j - 1];
          var k :| 0 <= k < |ys[1..]| && ys[1..][k] == xs[j];
          assert ys[k + 1] == xs[j];
        }
      } else {
        SubsequenceRowMajor(xs, ys[1..]);
      }
    }
  }

  /** Every later element of a row-major sequence comes after its first. */
  lemma RowMajorHead(xs: seq<Position>, p: Position)
    requires RowMajor(xs) && p in xs
    ensures p == xs[0] || Before(xs[0], p)
  {
    var k :| 0 <= k < |xs| && xs[k] == p;
  }

  /** Dropping the first element of a row-major sequence drops that position only. */
  lemma RowMajorTail(xs: seq<Position>, p: Position)
    requires RowMajor(xs) && xs != []
    ensures p in xs[1..] <==> p in xs && p != xs[0]
  {
    if p in xs && p != xs[0] {
      var k :| 0 <= k < |xs| && xs[k] == p;
      assert xs[1..][k - 1] == p;
    }
    if p in xs[1..] {
      var k :| 0 <= k < |xs[1..]| && xs[1..][k] == p;
      assert xs[k + 1] == p;
    }
  }

  /** Two sequences holding the same positions are empty together. */
  lemma NonEmptyTogether(xs: seq<Position>, ys: seq<Position>)
    requires forall p :: p in xs <==> p in ys
    ensures xs == [] <==> ys == []
  {
    if xs != [] {
      assert xs[0] in xs;
    }
    if ys != [] {
      assert ys[0] in ys;
    }
  }

  /**
   * Two row-major sequences holding the same positions are equal: the
   * contract of `SymbolMap.Parse` determines the map.
   */
  lemma {:induction false} RowMajorUnique(xs: seq<Position>, ys: seq<Position>)
    requires RowMajor(xs) && RowMajor(ys)
    requires forall p :: p in xs <==> p in ys
    ensures xs == ys
    decreases |xs|
  {
    NonEmptyTogether(xs, ys);
    if xs != [] {
      RowMajorHead(xs, ys[0]);
      RowMajorHead(ys, xs[0]);
      assert xs[0] == ys[0];
      forall p
        ensures p in xs[1..] <==> p in ys[1..]
      {
        RowMajorTail(xs, p);
        RowMajorTail(ys, p);
      }
      RowMajorUnique(xs[1..], ys[1..]);
      assert xs == [xs[0]] + xs[1..];
      assert ys == [ys[0]] + ys[1..];
    }
  }

  /** The digit run l[first..last] of row `row`, with its decimal value. */
  datatype Number = Number(row: nat, first: nat, last: nat, value: nat)

  /** The decimal value of a string of ASCII digits (`str::parse::<u64>`). */
  function DecimalValue(s: string): (v: nat)
    requires forall i :: 0 <= i < |s| ==> IsAsciiDigit(s[i])
    ensures v < Pow10(|s|)
  {
    if s == [] then 0
    else 10 * DecimalValue(s[..|s| - 1]) + DigitValue(s[|s| - 1])
  }

  /** 10^n. */
  function Pow10(n: nat): (p: nat)
    ensures p >= 1
  {
    if n == 0 then 1 else 10 * Pow10(n - 1)
  }

  /** l[a..b] holds ASCII digits only. */
  predicate AllDigits(l: string, a: nat, b: nat)
    requires a <= b <= |l|
  {
    forall p :: a <= p < b ==> IsAsciiDigit(l[p])
  }

  /** l[a..b] holds no ASCII digit. */
  predicate NoDigits(l: string, a: nat, b: nat)
    requires a <= b <= |l|
  {
    forall p :: a <= p < b ==> !IsAsciiDigit(l[p])
  }

  /**
   * n is a maximal digit run of line l, row r: l[first..last] are digits, the
   * chars just before and just after (if any) are not, and the value is the
   * decimal number they spell.
   */
  predicate IsRun(l: string, r: nat, n: Number) {
    && n.row == r
    && n.first <= n.last < |l|
    && AllDigits(l, n.first, n.last + 1)
    && (n.first == 0 || !IsAsciiDigit(l[n.first - 1]))
    && (n.last + 1 == |l| || !IsAsciiDigit(l[n.last + 1]))
    && n.value == DecimalValue(l[n.first..n.last + 1])
  }

  /**
   * ns are the digit runs of line l, row r, that end before column b, left to
   * right: the last one is a maximal run with no digit after it up to b, and
   * the ones before it are the runs that end before its first column.
   */
  predicate RunsBefore(l: string, r: nat, ns: seq<Number>, b: nat)
    requires b <= |l|
    decreases |ns|
  {
    if ns == [] then NoDigits(l, 0, b)
    else
      var n := ns[|ns| - 1];
      && IsRun(l, r, n)
      && n.last < b
      && NoDigits(l, n.last + 1, b)
      && RunsBefore(l, r, ns[..|ns| - 1], n.first)
  }

  /** ns are all the digit runs of line l, row r, left to right. */
  predicate LineRuns(l: string, r: nat, ns: seq<Number>) {
    RunsBefore(l, r, ns, |l|)
  }

  /**
   * The scan of line l, row r, has read columns 0..c: with no run open the
   * runs found so far are those before c; with a run open at s they are those
   * before s, and l[s..c] is the open run's maximal-to-the-left digit prefix.
   */
  predicate Scanned(l: string, r: nat, ns: seq<Number>, start: Option<nat>, c: nat)
    requires c <= |l|
  {
    match start
    case None => (c == 0 || !IsAsciiDigit(l[c - 1])) && RunsBefore(l, r, ns, c)
    case Some(s) =>
      && s < c
      && AllDigits(l, s, c)
      && (s == 0 || !IsAsciiDigit(l[s - 1]))
      && RunsBefore(l, r, ns, s)
  }

  /** A non-digit with no run open: nothing new is found. */
  lemma SkipNonDigit(l: string, r: nat, ns: seq<Number>, c: nat)
    requires c < |l| && !IsAsciiDigit(l[c]) && Scanned(l, r, ns, None, c)
    ensures Scanned(l, r, ns, None, c + 1)
  {
  }

  /** A digit with no run open opens a run there. */
  lemma OpenRun(l: string, r: nat, ns: seq<Number>, c: nat)
    requires c < |l| && IsAsciiDigit(l[c]) && Scanned(l, r, ns, None, c)
    ensures Scanned(l, r, ns, Some(c), c + 1)
  {
  }

  /** A digit with a run open extends the run. */
  lemma ExtendRun(l: string, r: nat, ns: seq<Number>, s: nat, c: nat)
    requires c < |l| && IsAsciiDigit(l[c]) && Scanned(l, r, ns, Some(s), c)
    ensures Scanned(l, r, ns, Some(s), c + 1)
  {
  }

  /** Closing the maximal run l[s..e] after the runs that end before s. */
  lemma CloseRun(l: string, r: nat, ns: seq<Number>, s: nat, e: nat)
    requires s <= e < |l| && RunsBefore(l, r, ns, s)
    requires AllDigits(l, s, e + 1)
    requires s == 0 || !IsAsciiDigit(l[s - 1])
    requires e + 1 == |l| || !IsAsciiDigit(l[e + 1])
    ensures RunsBefore(l, r, ns + [Number(r, s, e, DecimalValue(l[s..e + 1]))], e + 1)
  {
    var ns' := ns + [Number(r, s, e, DecimalValue(l[s..e + 1]))];
    assert ns'[..|ns'| - 1] == ns;
  }

  /** A non-digit with a run open at s closes the run l[s..c]. */
  lemma CloseAtNonDigit(l: string, r: nat, ns: seq<Number>, s: nat, c: nat)
    requires c < |l| && !IsAsciiDigit(l[c]) && Scanned(l, r, ns, Some(s), c)
    ensures Scanned(l, r, ns + [Number(r, s, c - 1, DecimalValue(l[s..c]))], None, c + 1)
  {
    CloseRun(l, r, ns, s, c - 1);
  }

  /** At the end of the line an open run at s is closed as l[s..]. */
  lemma CloseAtEnd(l: string, r: nat, ns: seq<Number>, s: nat)
    requires Scanned(l, r, ns, Some(s), |l|)
    ensures LineRuns(l, r, ns + [Number(r, s, |l| - 1, DecimalValue(l[s..]))])
  {
    assert l[s..] == l[s..|l|];
    CloseRun(l, r, ns, s, |l| - 1);
  }

  /** The last column of a run holds a digit. */
  lemma RunEndsInDigit(l: string, r: nat, n: Number)
    requires IsRun(l, r, n)
    ensures IsAsciiDigit(l[n.last])
  {
  }

  /**
   * The runs before b are each a maximal run of row r ending before b, left
   * to right with at least one non-digit between two of them.
   */
  lemma {:induction false} RunsOrdered(l: string, r: nat, ns: seq<Number>, b: nat)
    requires b <= |l| && RunsBefore(l, r, ns, b)
    ensures forall k :: 0 <= k < |ns| ==> IsRun(l, r, ns[k]) && ns[k].last < b
    ensures forall i, j :: 0 <= i < j < |ns| ==> ns[i].last + 1 < ns[j].first
    decreases |ns|
  {
    if ns != [] {
      var n := ns[|ns| - 1];
      var front := ns[..|ns| - 1];
      RunsOrdered(l, r, front, n.first);
      assert forall k :: 0 <= k < |front| ==> ns[k] == front[k];
      if front != [] {
        var m := front[|front| - 1];
        assert m.last + 1 < n.first by {
          RunEndsInDigit(l, r, m);
          assert m.last < n.first;
          assert m.last + 1 != n.first;
        }
      }
    }
  }

  /** Column p lies inside one of the runs ns. */
  predicate Covered(ns: seq<Number>, p: nat) {
    exists k :: 0 <= k < |ns| && ns[k].first <= p <= ns[k].last
  }

  /** A column lies inside one of ns + [n] when it lies inside one of ns or inside n. */
  lemma CoveredAppend(ns: seq<Number>, n: Number, p: nat)
    ensures Covered(ns + [n], p) <==> Covered(ns, p) || n.first <= p <= n.last
  {
    var ns' := ns + [n];
    if Covered(ns', p) {
      var k :| 0 <= k < |ns'| && ns'[k].first <= p <= ns'[k].last;
      if k < |ns| {
        assert ns[k] == ns'[k];
      }
    }
    if Covered(ns, p) {
      var k :| 0 <= k < |ns| && ns[k].first <= p <= ns[k].last;
      assert ns'[k] == ns[k];
    }
    assert ns'[|ns|] == n;
  }

  /** Below b, a column holds a digit exactly when it lies inside one of the runs. */
  lemma {:induction false} RunsCover(l: string, r: nat, ns: seq<Number>, b: nat)
    requires b <= |l| && RunsBefore(l, r, ns, b)
    ensures forall p :: 0 <= p < b ==> (IsAsciiDigit(l[p]) <==> Covered(ns, p))
    decreases |ns|
  {
    if ns != [] {
      var n := ns[|ns| - 1];
      var front := ns[..|ns| - 1];
      assert ns == front + [n];
      RunsCover(l, r, front, n.first);
      forall p | 0 <= p < b
        ensures IsAsciiDigit(l[p]) <==> Covered(ns, p)
      {
        CoveredAppend(front, n, p);
        if p >= n.first {
          assert !Covered(front, p) by {
            RunsOrdered(l, r, front, n.first);
          }
        }
      }
    }
  }

  /** The runs before b are determined by the line: two such lists are equal. */
  lemma {:induction false} RunsUnique(l: string, r: nat, ns: seq<Number>, ms: seq<Number>, b: nat)
    requires b <= |l| && RunsBefore(l, r, ns, b) && RunsBefore(l, r, ms, b)
    ensures ns == ms
    decreases |ns|
  {
    if ns == [] && ms == [] {
    } else if ns == [] {
      RunEndsInDigit(l, r, ms[|ms| - 1]);
      assert false;
    } else if ms == [] {
      RunEndsInDigit(l, r, ns[|ns| - 1]);
      assert false;
    } else {
      var n := ns[|ns| - 1];
      var m := ms[|ms| - 1];
      RunEndsInDigit(l, r, n);
      RunEndsInDigit(l, r, m);
      assert n.last == m.last;
      assert m.first == 0 || !IsAsciiDigit(l[m.first - 1]);
      assert n.first == 0 || !IsAsciiDigit(l[n.first - 1]);
      assert n.first == m.first;
      RunsUnique(l, r, ns[..|ns| - 1], ms[..|ms| - 1], n.first);
      assert ns == ns[..|ns| - 1] + [n];
      assert ms == ms[..|ms| - 1] + [m];
    }
  }

  /**
   * The body of `numbers` for line l, row r: a scan of the chars that opens a
   * run at a digit following a non-digit and closes it at the next non-digit
   * or at the end of the line.
   */
  method LineNumbers(r: nat, l: string) returns (numbers: seq<Number>)
    ensures LineRuns(l, r, numbers)
  {
    numbers := [];
    var start: Option<nat> := None;
    for c := 0 to |l|
      // The runs closed before column c, and the run still open at c, if any.
      invariant Scanned(l, r, numbers, start, c) == true
    {
      if start.None? {
        if IsAsciiDigit(l[c]) {
          OpenRun(l, r, numbers, c);
          start := Some(c);
        } else {
          SkipNonDigit(l, r, numbers, c);
        }
      } else if !IsAsciiDigit(l[c]) {
        var startIx := start.value;
        CloseAtNonDigit(l, r, numbers, startIx, c);
        start := None;
        var num := DecimalValue(l[startIx..c]);
        numbers := numbers + [Number(r, startIx, c - 1, num)];
      } else {
        ExtendRun(l, r, numbers, start.value, c);
        continue;
      }
    }
    if start.Some? {
      var s := start.value;
      CloseAtEnd(l, r, numbers, s);
      var num := DecimalValue(l[s..]);
      numbers := numbers + [Number(r, s, |l| - 1, num)];
    }
  }

  /** The entries of ns found on row q, in their order in ns. */
  function RowEntries(ns: seq<Number>, q: nat): (es: seq<Number>)
    ensures forall k :: 0 <= k < |es| ==> es[k].row == q
  {
    if ns == [] then []
    else (if ns[0].row == q then [ns[0]] else []) + RowEntries(ns[1..], q)
  }

  /** Filtering a concatenation by row filters each part. */
  lemma {:induction false} RowEntriesAppend(xs: seq<Number>, ys: seq<Number>, q: nat)
    ensures RowEntries(xs + ys, q) == RowEntries(xs, q) + RowEntries(ys, q)
    decreases |xs|
  {
    if xs != [] {
      var head := if xs[0].row == q then [xs[0]] else [];
      assert (xs + ys)[0] == xs[0];
      assert (xs + ys)[1..] == xs[1..] + ys;
      calc {
        RowEntries(xs + ys, q);
        head + RowEntries(xs[1..] + ys, q);
        { RowEntriesAppend(xs[1..], ys, q); }
        head + (RowEntries(xs[1..], q) + RowEntries(ys, q));
        (head + RowEntries(xs[1..], q)) + RowEntries(ys, q);
        RowEntries(xs, q) + RowEntries(ys, q);
      }
    } else {
      assert xs + ys == ys;
    }
  }

  /** Entries all on row q are kept whole by the filter for q and dropped by any other. */
  lemma {:induction false} RowEntriesOneRow(ns: seq<Number>, r: nat, q: nat)
    requires forall k :: 0 <= k < |ns| ==> ns[k].row == r
    ensures RowEntries(ns, q) == if q == r then ns else []
    decreases |ns|
  {
    if ns != [] {
      RowEntriesOneRow(ns[1..], r, q);
      assert ns == [ns[0]] + ns[1..];
    }
  }

  /** Entries all on rows before r are dropped by the filter for any row from r on. */
  lemma {:induction false} RowEntriesEarlier(ns: seq<Number>, r: nat, q: nat)
    requires r <= q && forall k :: 0 <= k < |ns| ==> ns[k].row < r
    ensures RowEntries(ns, q) == []
    decreases |ns|
  {
    if ns != [] {
      RowEntriesEarlier(ns[1..], r, q);
    }
  }

  /**
   * `numbers`: for every row q of the input, the entries found on row q are
   * exactly the digit runs of line q, left to right; there are no others, and
   * the entries come row by row.
   */
  method Numbers(lines: seq<string>) returns (all: seq<Number>)
    ensures forall q :: 0 <= q < |lines| ==> LineRuns(lines[q], q, RowEntries(all, q))
    ensures forall k :: 0 <= k < |all| ==> all[k].row < |lines|
    ensures forall i, j :: 0 <= i < j < |all| ==> Before((all[i].row, all[i].first), (all[j].row, all[j].first))
  {
    all := [];
    for r := 0 to |lines|
      invariant forall q :: 0 <= q < r ==> LineRuns(lines[q], q, RowEntries(all, q))
      invariant forall k :: 0 <= k < |all| ==> all[k].row < r
      invariant forall i, j :: 0 <= i < j < |all| ==> Before((all[i].row, all[i].first), (all[j].row, all[j].first))
    {
      var numbers := LineNumbers(r, lines[r]);
      AppendLine(lines, all, numbers, r);
      all := all + numbers;
    }
  }

  /** Appending the runs of line r after the entries of rows 0..r keeps the loop's invariant. */
  lemma AppendLine(lines: seq<string>, all: seq<Number>, numbers: seq<Number>, r: nat)
    requires r < |lines| && LineRuns(lines[r], r, numbers)
    requires forall q :: 0 <= q < r ==> LineRuns(lines[q], q, RowEntries(all, q))
    requires forall k :: 0 <= k < |all| ==> all[k].row < r
    requires forall i, j :: 0 <= i < j < |all| ==> Before((all[i].row, all[i].first), (all[j].row, all[j].first))
    ensures forall q :: 0 <= q < r + 1 ==> LineRuns(lines[q], q, RowEntries(all + numbers, q))
    ensures forall k :: 0 <= k < |all + numbers| ==> (all + numbers)[k].row < r + 1
    ensures forall i, j :: 0 <= i < j < |all + numbers| ==>
              Before(((all + numbers)[i].row, (all + numbers)[i].first), ((all + numbers)[j].row, (all + numbers)[j].first))
  {
    RunsOrdered(lines[r], r, numbers, |lines[r]|);
    forall q | 0 <= q < r + 1
      ensures LineRuns(lines[q], q, RowEntries(all + numbers, q))
    {
      AppendLineRow(lines, all, numbers, r, q);
    }
    AppendLineOrder(all, numbers, r);
  }

  /** Row q of all + numbers, where numbers are the entries of row r and all those of earlier rows. */
  lemma AppendLineRow(lines: seq<string>, all: seq<Number>, numbers: seq<Number>, r: nat, q: nat)
    requires q <= r < |lines| && LineRuns(lines[r], r, numbers)
    requires forall k :: 0 <= k < |numbers| ==> numbers[k].row == r
    requires q < r ==> LineRuns(lines[q], q, RowEntries(all, q))
    requires forall k :: 0 <= k < |all| ==> all[k].row < r
    ensures LineRuns(lines[q], q, RowEntries(all + numbers, q))
  {
    RowEntriesAppend(all, numbers, q);
    RowEntriesOneRow(numbers, r, q);
    if q == r {
      RowEntriesEarlier(all, r, q);
      assert RowEntries(all + numbers, q) == numbers;
    } else {
      assert RowEntries(all + numbers, q) == RowEntries(all, q);
    }
  }

  /** Entries of row r placed after row-ordered entries of earlier rows keep the order. */
  lemma AppendLineOrder(all: seq<Number>, numbers: seq<Number>, r: nat)
    requires forall k :: 0 <= k < |numbers| ==> numbers[k].row == r
    requires forall i, j :: 0 <= i < j < |numbers| ==> numbers[i].last + 1 < numbers[j].first
    requires forall k :: 0 <= k < |numbers| ==> numbers[k].first <= numbers[k].last
    requires forall k :: 0 <= k < |all| ==> all[k].row < r
    requires forall i, j :: 0 <= i < j < |all| ==> Before((all[i].row, all[i].first), (all[j].row, all[j].first))
    ensures forall i, j :: 0 <= i < j < |all + numbers| ==>
              Before(((all + numbers)[i].row, (all + numbers)[i].first), ((all + numbers)[j].row, (all + numbers)[j].first))
  {
    var xs := all + numbers;
    forall i, j | 0 <= i < j < |xs|
      ensures Before((xs[i].row, xs[i].first), (xs[j].row, xs[j].first))
    {
      if j < |all| {
        assert xs[i] == all[i] && xs[j] == all[j];
      } else if i < |all| {
        assert xs[i] == all[i] && xs[j] == numbers[j - |all|];
      } else {
        assert xs[i] == numbers[i - |all|] && xs[j] == numbers[j - |all|];
      }
    }
  }

  /** The decimal values of the two runs of the sample's first line. */
  lemma SampleValues()
    ensures DecimalValue("467") == 467 && DecimalValue("114") == 114
  {
    assert "467"[..2] == "46" && "46"[..1] == "4" && "4"[..0] == "";
    assert "114"[..2] == "11" && "11"[..1] == "1" && "1"[..0] == "";
  }

  /** The digit stretches of the sample's first line. */
  lemma SampleSlices()
    ensures "467..114.."[0..3] == "467" && "467..114.."[5..8] == "114"
  {
    var l := "467..114..";
    assert l[0..3][0] == '4' && l[0..3][1] == '6' && l[0..3][2] == '7';
    assert l[5..8][0] == '1' && l[5..8][1] == '1' && l[5..8][2] == '4';
  }

  /** The first line of the sample schematic holds the runs 467 and 114, and no others. */
  lemma FirstLineRuns()
    ensures LineRuns("467..114..", 0, [Number(0, 0, 2, 467), Number(0, 5, 7, 114)])
  {
    var l := "467..114..";
    var first := Number(0, 0, 2, 467);
    var second := Number(0, 5, 7, 114);
    SampleValues();
    SampleSlices();
    assert l[3] == '.' && l[4] == '.' && l[8] == '.' && l[9] == '.';
    assert IsRun(l, 0, first);
    assert IsRun(l, 0, second);
    assert RunsBefore(l, 0, [first], 5) by {
      assert [first][..0] == [];
    }
    assert [first, second][..1] == [first];
  }

  /** `numbers` on that line yields exactly those two entries. */
  method LineNumbersExample() {
    var ns := LineNumbers(0, "467..114..");
    FirstLineRuns();
    RunsUnique("467..114..", 0, ns, [Number(0, 0, 2, 467), Number(0, 5, 7, 114)], 10);
    assert ns == [Number(0, 0, 2, 467), Number(0, 5, 7, 114)];
  }
}
