# Advent of Code 2023, days 1 to 6, in Dafny

This project models the puzzle logic of the Rust solvers for days 1 to 6 of
Advent of Code 2023 and proves properties of it. Each solver reads parsed
values. The text grammars, file loading and printing are not modelled.

- **Day 1**, modelled twice:
  - `Day1` covers `src/bin/day1.rs`. It finds the calibration digits of a line, written (`7`) or spelled (`seven`, `zero` included).
  - `Day1Chars` covers `src/main.rs`. It is the same scan but keeps the digits as chars and has no `zero`.
  - In both, `parse_line` is an imperative loop, proved equal to a recursive scan.
  - The scan keeps the last letter of every word, so chained words like `twone` give both digits. The exception is `five`, which is consumed whole (see Findings). The `Day1` scan is proved to read the digit at every position of every line in which `fiveight` does not occur. The `Day1Chars` scan is proved to do so on lines in which neither `fiveight` nor `zero` occurs.
- **Day 2** (`Day2`, `Day2Bin`): cube samples, the colour lookup `get_count`, and the sum of the ids of the games possible with 12 red, 13 green and 14 blue.
- **Day 3** (`Day3`): the engine schematic.
  - `SymbolMap::parse` records every char that is neither `.` nor a digit.
  - `query` filters the symbols by a rectangle.
  - `numbers` scans each line with an optional start marker. It is an imperative loop, proved to yield exactly the maximal digit runs of each line.
- **Day 4** (`Day4`): scratchcards. The number of matching positions, and the value `2^(matching-1)`.
- **Day 5** (`Day5`, `Day5Bin`): seed remapping. Half-open intervals, mappings, one almanac stage that uses the first mapping holding a value, seed pairing, and part one's fold over the stages followed by the minimum.
- **Day 6** (`Day6`): boat races. The distance, and the binary search `solve`, proved to return the least winning hold.

Two more modules hold shared pieces. `Ascii` has the ASCII digit predicate and digit value. `Wrappers` has `Option`.

Rust's unsigned integers are modelled as `nat`. Where a width matters it is
written out: the `as u16` truncation in `Card::new`, and the u16 bound of
`Card::value`. Otherwise bounds are stated as lemmas or listed below.

In day 5 the mappings of a stage stay in input order. Nothing sorts them or
checks them for overlap, and the first mapping holding a value wins
(`Day5.OverlapEarlierWins`).

## Model

| member | source | states |
|---|---|---|
| Day5.IntervalHoldsLenValues | src/day5.rs:11-18 | `Interval(start, len)` is half-open: it holds exactly `len` values below `start + len` |
| Day5.Interval.Contains | src/day5.rs:16-18 | `start <= v < start + len`; `IntervalHoldsLenValues` proves it holds exactly `len` values, and `FromTriple` states it for parsed mappings |
| Day5.ContainsExample | src/day5.rs:159-165 | `Interval(10, 2)` holds 10 and 11, not 9 or 12 |
| Day5.Mapping.Map | src/day5.rs:31-34 | requires `v` in the source (the source asserts it); the result lies in the same-length block starting at `dst`, at the same offset as `v` in the source |
| Day5.Mapping.Unmap | src/day5.rs:21-23 | the inverse of `Map` on the destination block lands in the source |
| Day5.MapBijective | src/day5.rs:21-23 | `Map` and `Unmap` are inverse bijections between the source and the destination block |
| Day5.MapInjective | src/day5.rs:33 | distinct source values map to distinct values |
| Day5.MapStaysInU64 | src/day5.rs:33 | when the destination block ends within u64, `dst + (v - start)` stays below 2^64 |
| Day5.FromTriple | src/day5.rs:37-45 | `(dst, src, len)` gives a mapping whose source holds exactly `src..src+len`, with destination `Interval(dst, len)`, sending `src` to `dst` and the last source value to the last destination value |
| Day5.FromTripleExample | src/day5.rs:168-172 | `(50, 98, 2)` is `Mapping(Interval(98, 2), 50)`; it maps 98 to 50 and 99 to 51 |
| Day5.FindContaining | src/day5.rs:54 | `iter().find`: None iff no source holds `n`; otherwise the index of the first mapping whose source holds `n` |
| Day5.IntervalMap.Map | src/day5.rs:53-60 | a value that no mapping holds passes through unchanged |
| Day5.MapUsesFirstHolder | src/day5.rs:54-56 | when mapping `i` is the first holding `n`, the stage returns mapping `i`'s image of `n` |
| Day5.DisjointMapUsesAnyHolder | src/day5.rs:53-60 | when no two sources overlap, any mapping holding `n` decides the result, so order does not matter |
| Day5.IntervalMapExample | src/day5.rs:175-182 | the two-mapping stage sends 10 to 10, 50 to 52 and 98 to 50 |
| Day5.OverlapEarlierWins | src/day5.rs:54 | with overlapping sources, the mapping earlier in the list wins |
| Day5.PairSeeds | src/day5.rs:77 | `chunks_exact(2)`: `|ns| / 2` intervals, the i-th being `Interval(ns[2i], ns[2i+1])` |
| Day5.Unpair | src/day5.rs:77 | the numbers a list of intervals is written as: two per interval |
| Day5.PairSeedsRoundTrip | src/day5.rs:77 | pairing and unpairing gives back the seed list minus an odd trailing number |
| Day5.UnpairRoundTrip | src/day5.rs:77 | every interval list is the pairing of its own numbers |
| Day5.PairSeedsExample | src/day5.rs:116-121 | `1 2 3 4` pairs to `(1, 2), (3, 4)`, and `1 2 3` to `(1, 2)` |
| Day5Bin.LocateAppend | src/bin/day5.rs:19-21 | running stages `a` then stages `b` is running `a + b`: the fold composes |
| Day5Bin.LocateFirstStage | src/bin/day5.rs:19-21 | the first stage in the list is applied first |
| Day5Bin.LocateNoStages | src/bin/day5.rs:19-22 | with no stages a seed is its own location |
| Day5Bin.Locate | src/bin/day5.rs:17-23 | the fold of the stages over one seed; `LocateAppend`, `LocateFirstStage` and `LocateNoStages` give its composition, order and identity, and `SeedLocation` is proved to compute it |
| Day5Bin.SeedLocation | src/bin/day5.rs:17-23 | the `for` loop over the stages computes the left fold of `IntervalMap.Map` in list order |
| Day5Bin.PartOne | src/bin/day5.rs:14-26 | requires a seed (`min().unwrap()`); the result is the location of some seed and no seed's location is lower |
| Day3.RowSymbols | src/day3.rs:24-34 | a line's symbols from column `c` on: exactly the columns whose char is neither `.` nor a digit, in column order |
| Day3.IsSymbol | src/day3.rs:27 | a char is recorded iff it is neither `.` nor an ASCII digit; `SymbolMap.Parse` states the map through it |
| Day3.Rows | src/day3.rs:19-36 | the symbols of consecutive lines, row after row, are exactly the symbol positions, in row-major order |
| Day3.SymbolMap.Parse | src/day3.rs:18-38 | a position is recorded iff its char is neither `.` nor an ASCII digit; the positions are in strictly increasing row-major order |
| Day3.RowMajorUnique | src/day3.rs:18-38 | two row-major position lists with the same elements are equal, so `Parse`'s contract determines the map |
| Day3.SymbolMap.Query | src/day3.rs:40-46 | a symbol is returned iff it lies in the rectangle, bounds included; the result is a subsequence of the map |
| Day3.Select | src/day3.rs:41-45 | the filter keeps exactly the positions in the rectangle, in order |
| Day3.InBox | src/day3.rs:43 | the inclusive row and column bounds of the query; `Select` and `SymbolMap.Query` state their results through it |
| Day3.SubsequenceRowMajor | src/day3.rs:40-46 | a subsequence of a row-major list is row-major and adds nothing, so `query` keeps the map's order |
| Day3.DecimalValue | src/day3.rs:65 | `str::parse` of a digit string: the value is below `10^len` |
| Day3.SkipNonDigit | src/day3.rs:58-61 | with no run open, a non-digit finds nothing new |
| Day3.OpenRun | src/day3.rs:58-61 | with no run open, a digit opens a run at its column |
| Day3.ExtendRun | src/day3.rs:69-71 | with a run open, a digit extends it |
| Day3.CloseRun | src/day3.rs:62-66 | appending the maximal run `l[s..e]`, with its decimal value, after the runs before `s` gives the runs before `e + 1` |
| Day3.CloseAtNonDigit | src/day3.rs:62-66 | with a run open at `s`, a non-digit at `c` closes the run `(r, (s, c - 1), value of l[s..c])` |
| Day3.CloseAtEnd | src/day3.rs:73-75 | a run still open at the end of the line closes as `(r, (s, len - 1), value of l[s..])` |
| Day3.LineNumbers | src/day3.rs:55-79 | the per-line loop returns exactly the runs of the line: each a maximal digit run with its value, left to right, no digit outside them |
| Day3.RunEndsInDigit | src/day3.rs:66 | the last column of a run holds a digit |
| Day3.RunsOrdered | src/day3.rs:55-79 | each entry is a maximal run of the line's row with `first <= last`, entries are left to right, and a non-digit separates two of them |
| Day3.RunsCover | src/day3.rs:55-79 | a column holds a digit iff it lies inside one of the runs |
| Day3.RunsUnique | src/day3.rs:55-79 | the line determines its runs: two lists meeting the contract are equal |
| Day3.CoveredAppend | src/day3.rs:66 | a column is covered by `ns + [n]` iff it is covered by `ns` or by `n` |
| Day3.RowEntries | src/day3.rs:53 | the entries of one row, in order |
| Day3.RowEntriesAppend | src/day3.rs:53 | filtering a concatenation by row filters each part |
| Day3.Numbers | src/day3.rs:49-82 | for each line `q`, the entries of row `q` are exactly that line's runs; every row is a line of the input; entries are ordered by row, then first column |
| Day3.AppendLine | src/day3.rs:53-81 | appending line `r`'s runs after the entries of rows `0..r` keeps the three properties of `Numbers` |
| Day3.FirstLineRuns | src/day3.rs:99-117 | the line `467..114..` has exactly the runs `(0, (0, 2), 467)` and `(0, (5, 7), 114)`, the test's first two entries |
| Day6.Race.Distance | src/day6.rs:18-20 | requires `t <= duration` (the u64 subtraction); the distance is 0 iff the hold is 0 or the whole race |
| Day6.Race.Solve | src/day6.rs:22-37 | the binary search returns the least hold in `[0, duration / 2]` that beats the record, or `duration / 2` when none does, with `second == duration - first` |
| Day6.DistanceSymmetric | src/day6.rs:36 | holding `t` and `duration - t` cover the same distance |
| Day6.DistanceStep | src/day6.rs:30-34 | below half the duration, one more ms of holding never loses distance |
| Day6.DistanceMonotone | src/day6.rs:30-34 | the distance is nondecreasing on `[0, duration - duration / 2]`, which the search relies on |
| Day6.WinningHolds | src/day6.rs:36 | when `first` wins, the winning holds are exactly `first..=duration - first`, both ends included |
| Day6.NoWinningHold | src/day6.rs:23-36 | when the search ends on a non-winning hold, no hold wins |
| Day6.DistanceExample | src/day6.rs:113-120 | for `Race(7, 9)`, `distance(3) == distance(4) == 12` |
| Day2.GetCount | src/day2.rs:41-47 | the count of the first item of that colour, or 0 when no item has it |
| Day2.GetCountDistinct | src/day2.rs:41-47 | with distinct colours, the count of the one item of that colour |
| Day2.GetCountAbsent | src/day2.rs:46 | an absent colour counts 0 (`unwrap_or_default`) |
| Day2.FromCounts | src/day2.rs:34-39 | a sample whose colours are looked up by `GetCount`; `FromCountsOrderFree` proves the order of the items does not matter, and `FromCountsExample` gives the test values |
| Day2.Sample.IsPossible | src/day2.rs:29-31 | each colour within the bag's count; `ImpossibleGameAddsNothing` and `PossibleGameAddsId` state how part one uses it |
| Day2.FromCountsOrderFree | src/day2.rs:34-39 | two draws with the same distinct-colour items, in any order, give the same sample |
| Day2.FromCountsExample | src/day2.rs:93-115 | `4 red, 3 green, 1 blue` is `(4, 3, 1)`; `4 blue, 3 red` is `(3, 0, 4)` |
| Day2Bin.PartOne | src/bin/day2.rs:9-17 | the total never exceeds the sum of all ids, and equals it when every game is possible |
| Day2Bin.GamePossible | src/bin/day2.rs:14 | every sample of the game is possible against `(12, 13, 14)`; `PossibleGameAddsId` and `ImpossibleGameAddsNothing` state its effect on the sum |
| Day2Bin.PartOneAppend | src/bin/day2.rs:14-16 | the filter-and-sum splits over concatenation |
| Day2Bin.ImpossibleGameAddsNothing | src/bin/day2.rs:14 | a game with any impossible sample adds nothing, whatever its other samples are |
| Day2Bin.PossibleGameAddsId | src/bin/day2.rs:14-15 | a game whose samples are all possible against `(12, 13, 14)` adds its id |
| Day2Bin.PartOneExample | src/day2.rs:131-144 | game 9 of the test is impossible and adds 0; a game within the bag adds its id |
| Day4.Card.Value | src/day4.rs:29-35 | requires `matching <= 16`; the value is 0 iff there is no match, and fits in a u16 |
| Day4.Pow2Monotone | src/day4.rs:33 | `2^a <= 2^b` for `a <= b` |
| Day4.Pow2Bound | src/day4.rs:33 | `2^e` fits in a u16 iff `e < 16` |
| Day4.ValueDoubles | src/day4.rs:33 | each further match doubles the value |
| Day4.MatchCountSnoc | src/day4.rs:20 | appending a number adds one to the count iff it is a winning number |
| Day4.MatchCount | src/day4.rs:20 | the number of positions of `numbers` holding a winning number, duplicates included, so at most `|numbers|` (`MatchCountPositions`) |
| Day4.MatchCountPositions | src/day4.rs:20 | the count is the number of positions of `numbers` holding a winning number, so at most `|numbers|` |
| Day4.NewCard | src/day4.rs:19-27 | `Card::new` keeps id and both lists; `matching` is the number of matching positions mod 2^16 (`as u16`), at most `|numbers|` |
| Day4.MatchCountExample | src/day4.rs:66-78 | the test card has 4 matches |
| Day4.CardExample | src/day4.rs:80-89 | the test card has `matching == 4` and value 8 |
| Ascii.DigitValue | src/bin/day1.rs:55 | `c as u32 - '0' as u32` of an ASCII digit is at most 9 |
| Ascii.IsAsciiDigit | src/bin/day1.rs:14 | `char::is_ascii_digit`: `'0'` to `'9'` |
| Day1.Spelling | src/bin/day1.rs:57-76 | the digit words are 3 to 5 letters long |
| Day1.StartsWith | src/bin/day1.rs:57-75 | `str::starts_with`: the string begins with the prefix; `SpellingsExclusive` proves at most one digit word begins a string |
| Day1.SpellingsExclusive | src/bin/day1.rs:57-76 | at most one digit word starts a string, so the order of the word tests does not matter |
| Day1.Consumed | src/bin/day1.rs:57-76 | a word match consumes at least two letters; it consumes all but the last letter exactly when the word is not `five`, and all of `five` |
| Day1.FindNextDigit | src/bin/day1.rs:51-80 | empty input gives `(None, None)`; a leading digit is read and one char dropped; a leading word is read as its digit and `Consumed(d)` chars dropped; any other char is dropped with no digit; a remainder is a strictly shorter suffix |
| Day1.ScanDigits | src/bin/day1.rs:35-48 | the scan reads at most one digit per char, each at most 9 |
| Day1.ScanAdvance | src/bin/day1.rs:41-46 | one more loop step keeps the collected digits a prefix of the scan |
| Day1.ParseLine | src/bin/day1.rs:35-48 | the `while` loop collects exactly the digits of the scan, in order |
| Day1.NoWordAfter | src/bin/day1.rs:57-76 | a char that begins no word and is no digit starts no word |
| Day1.ScanSkips | src/bin/day1.rs:77-78 | such a char is skipped with no digit |
| Day1.FindWord | src/bin/day1.rs:57-76 | a leading word yields its digit and leaves what follows its consumed letters |
| Day1.ScanWord | src/bin/day1.rs:57-76 | the scan reads a leading word's digit, then resumes after the consumed letters |
| Day1.ScanDigitsExample | src/bin/day1.rs:57-60 | `zerone` reads 0 then 1, the shared `o` counting for both |
| Day1.LineValue | src/bin/day1.rs:29 | `10 * first + last` is at most 99; its tens digit is the first digit and its units digit the last |
| Day1.DigitChars | src/bin/day1.rs:14 | the filter keeps only ASCII digits, at most one per char, and keeps nothing exactly when the line has no ASCII digit |
| Day1.DigitCharsFirst | src/bin/day1.rs:14-16 | the first ASCII digit of the line is the first char kept, which `digits.first()` reads |
| Day1.DigitCharsLast | src/bin/day1.rs:14-17 | the last ASCII digit of the line is the last char kept, which `digits.last()` reads |
| Day1.PartOneLine | src/bin/day1.rs:10-22 | a line whose first ASCII digit is at `i` and last at `k` adds `10 * value(l[i]) + value(l[k])` to part one |
| Day1.DigitValues | src/bin/day1.rs:15-20 | each ASCII digit is replaced by its value |
| Day1.PartOne | src/bin/day1.rs:10-22 | requires a digit on every line (`first().unwrap()`); each line adds at most 99 |
| Day1.PartTwo | src/bin/day1.rs:24-33 | requires a scanned digit on every line; each line adds at most 99 |
| Day1.ScanWithoutWords | src/bin/day1.rs:35-80 | on a line spelling no word, the scan reads exactly the ASCII digits |
| Day1.PartTwoWithoutWords | src/bin/day1.rs:10-33 | on lines without digit words, part two equals part one |
| Day1.WordAt | src/bin/day1.rs:57-76 | the first digit word starting a string among digits `e..9`; None iff there is none |
| Day1.FindNextDigitOverlapping | src/bin/day1.rs:50-80 | the step as the comment on the function intends: every word keeps its last letter, `five` included |
| Day1.ScanOverlapping | src/bin/day1.rs:35-50 | the `parse_line` loop with the step the comment at line 50 intends; `ScanOverlappingReadsEveryPosition` proves it reads the digit at every position, and `ScanAgreesAwayFromFiveEight` that it equals the scan as written away from `fiveight` |
| Day1.PrefixChars | src/bin/day1.rs:57-76 | a string starting with a word starts with the word's first two letters |
| Day1.InsideWordNoDigit | src/bin/day1.rs:50 | no digit is written or spelled strictly inside a word before its last letter |
| Day1.SkipEmptyPosition | src/bin/day1.rs:50 | a position holding no digit adds nothing to the intended reading |
| Day1.SkipEmptyPositions | src/bin/day1.rs:50 | a stretch of such positions adds nothing |
| Day1.ScanOverlappingReadsEveryPosition | src/bin/day1.rs:50-80 | the corrected scan reads the digit written or spelled at every position of the line, in order |
| Day1.FindWordOverlapping | src/bin/day1.rs:50-80 | the corrected step reads a leading word and keeps its last letter |
| Day1.ScanOverlappingWord | src/bin/day1.rs:50-80 | the corrected scan reads a leading word's digit, then resumes at the word's last letter |
| Day1.FiveEightAsWritten | src/bin/day1.rs:67-68 | after `fiveight`, the scan as written reads 5 where the line spells 5 then 8 |
| Day1.FiveEightLine | src/bin/day1.rs:67-68 | the line `fiveight` scans to `[5]` but spells `[5, 8]` |
| Day1.AllDigitsBelowTen | src/bin/day1.rs:50 | the intended reading holds digits 0 to 9 only |
| Day1.PartTwoIntended | src/bin/day1.rs:24-33 | part two over the corrected scan; each line adds at most 99 |
| Day1.PartTwoOneLine | src/bin/day1.rs:24-33 | part two of a single line is that line's value |
| Day1.PartTwoIntendedOneLine | src/bin/day1.rs:24-33 | the corrected part two of a single line is that line's value |
| Day1.FiveEightPartTwo | src/bin/day1.rs:67-68 | the line `fiveight` adds 55 to part two as written and 58 to the intended sum |
| Day1.FiveAloneSkipsItsE | src/bin/day1.rs:67-68 | after a `five` not followed by `ight`, the `e` the corrected step keeps starts no word, so the corrected scan also resumes after the four letters |
| Day1.StepsAgreeExceptFive | src/bin/day1.rs:51-80 | except on a leading `five`, one step as written and one corrected step are the same |
| Day1.CorrectedScanFollowsStep | src/bin/day1.rs:51-80 | where `fiveight` does not start, the corrected scan reads what one step as written reads and continues from the same remainder |
| Day1.ScanAgreesAwayFromFiveEight | src/bin/day1.rs:35-80 | on a line where `fiveight` occurs nowhere, the scan as written equals the corrected scan |
| Day1.ScanDigitsReadsEveryPosition | src/bin/day1.rs:35-80 | on a line where `fiveight` occurs nowhere, `parse_line` reads the digit written or spelled at every position, as the comment at line 50 asks; `five` is the only departure |
| Day1Chars.DigitChar | src/main.rs:22-38 | the char of digit `d` is an ASCII digit whose value is `d` |
| Day1Chars.DigitCharValue | src/main.rs:20 | reading an ASCII digit and writing it back gives the same char |
| Day1Chars.FindNextDigit | src/main.rs:16-42 | empty input gives `(None, None)`; a leading digit char is returned as is; a leading `one` to `nine` gives its digit char and drops the same letters as in `Day1`; any other char, the `z` of `zero` included, is dropped with no digit |
| Day1Chars.ScanDigits | src/main.rs:44-58 | the scan reads at most one ASCII digit char per char |
| Day1Chars.ScanAdvance | src/main.rs:50-55 | one more loop step keeps the collected chars a prefix of the scan |
| Day1Chars.ParseLine | src/main.rs:44-58 | the `while` loop collects exactly the digit chars of the scan, in order |
| Day1Chars.LineNumber | src/main.rs:65-68 | the two-char string of the first and last digit parses to at most 99, with the first digit as tens and the last as units |
| Day1Chars.PartTwo | src/main.rs:60-73 | requires a scanned digit on every line; each line adds at most 99 |
| Day1Chars.Chars | src/main.rs:20-38 | digit values written as chars, position by position |
| Day1Chars.StepsAgree | src/main.rs:16-42 | without a leading `zero`, one step here and one step of `Day1` read the same digit and leave the same rest |
| Day1Chars.NoZeroSuffix | src/main.rs:40 | a suffix of a line without `zero` has none either |
| Day1Chars.ScanAgreesWithoutZero | src/main.rs:44-58 | on a line without `zero`, this scan reads the chars of the digits `Day1` reads |
| Day1Chars.PartTwoAgreesWithoutZero | src/main.rs:60-73 | on lines without `zero`, both programs' part two give the same sum |
| Day1Chars.ScanReadsEveryPosition | src/main.rs:15-58 | on a line where neither `zero` nor `fiveight` occurs, `parse_line` reads, as chars, the digit written or spelled at every position |
| Day1Chars.FindWord | src/main.rs:21-38 | a leading word yields its digit char and leaves what follows its consumed letters |
| Day1Chars.ScanWord | src/main.rs:21-38 | the scan reads a leading word's digit char, then resumes after the consumed letters |
| Day1Chars.ScanDigitsExample | src/main.rs:85-89 | `twoneighthree` reads `2183`: the chained words all count |

## Left out

- Text parsing is not modelled: the nom grammars of days 2, 4, 5 and 6, the `.lines()` split, `include_str!` loading, and all `main`, `println!` and `print!` output. The model takes the parsed values: lines as `seq<string>`, games, cards, mappings and races.
- `part_two` of `src/bin/day5.rs` is not part of this model. It calls an interval-splitting `map_interval` and a `min` field that `src/day5.rs` does not define.
- `src/bin/day3.rs` is not part of this model. It merges the symbols of neighbouring lines and sums `part_numbers`. It relies on `parse_line`, `part_numbers` and a `symbols` field (src/bin/day3.rs:1, 9, 11), none of which `src/day3.rs` defines.
- `src/bin/day4.rs` and `src/bin/day6.rs` are not part of this model. They are drivers whose only logic is a sum of `value()` (day 4) and a product of `h - l + 1` over `solve()` (day 6).
- `part_one` of `src/main.rs` is the same text as `part_one` of `src/bin/day1.rs` and is modelled once, as `Day1.PartOne`.
- Strings are sequences of chars and the input is taken to be ASCII. Rust slices `&input[1..]`, `l[start_ix..c]` and `l[s..]` by byte while `chars().enumerate()` counts chars. Non-ASCII input, where the two differ or a slice would panic, is not modelled.
- Day5.Interval.Contains: `start + len` is not bounded to u64; the source's addition could overflow.
- Day5.Mapping.Map: `dst + (v - start)` is not bounded to u64 in general; `Day5.MapStaysInU64` gives the condition under which it fits.
- Day6.Race.Distance: `(duration - t) * t` is not bounded to u64; the source's product could overflow for durations of 2^33 or more.
- Day6.Race.Solve: `high + low` is unbounded; in the source it fits because both are at most `duration / 2`.
- Day3.DecimalValue: a run whose value is 2^64 or more overflows `u64`, and `parse().unwrap()` panics. The model returns the exact value.
- Day2.GetCount: counts are `nat`, not u32; the parse of an over-wide count is part of the grammar, which is not modelled.
- Day2Bin.PartOne: the u32 sum of ids is not bounded.
- Day1.PartOne: the u32 sum is not bounded. The same holds for Day1.PartTwo and Day1Chars.PartTwo.
- Day4.Card.Value: requires `matching <= 16`. From 17 matches on, the source's `2_u16.pow` overflows, which panics in a debug build; that case is not modelled.
- Day4.NewCard: ids and numbers are `nat`, not u16; only the `as u16` truncation of the count is written out.

## Findings

| source | as written | input that shows it | evidently intended | confidence | as-written member | corrected member |
|---|---|---|---|---|---|---|
| src/bin/day1.rs:67-68 (and src/main.rs:29-30) | a leading `five` drops 4 chars, so the `e` it shares with a following `eight` is lost; every other word keeps its last letter, and away from `fiveight` the scan reads every position (`Day1.ScanDigitsReadsEveryPosition`) | the line `fiveight` gives the digits `[5]`, so part two adds 55 | keep the last letter of `five` like every other word, as the comment at src/bin/day1.rs:50 asks: the line reads `[5, 8]` and adds 58 | not executed | Day1.FiveEightPartTwo | Day1.ScanOverlappingReadsEveryPosition |
