# Advent of Code 2020, days 1–12, in Dafny

This project models the puzzle solvers of a Go repository with one `main.go` per day. For each day it models the algorithm that sits behind the file reading and printing, and proves the solver's properties in Dafny. Input files are replaced with in-memory input: a sequence of lines, or records already in parsed form. Each day is one module in one file:

| file | module | day | what it models |
|---|---|---|---|
| `report.dfy` | `Report` | 1 | in-place sort, then pair and triplet searches for a total |
| `passwords.dfy` | `Passwords` | 2 | password policies: letter count in a range, exactly one of two positions |
| `toboggan.dfy` | `Toboggan` | 3 | a walk down a horizontally wrapping tree map |
| `passports.dfy` | `Passports` | 4 | passport field validators, key:value parsing, records grouped at blank lines |
| `boarding.dfy` | `Boarding` | 5 | binary space partitioning of boarding passes, seat ids, the missing seat |
| `customs.dfy` | `Customs` | 6 | per-group answer sets, their union and their intersection |
| `bags.dfy` | `Bags` | 7 | the bag containment graph: transitive containers, weighted contents |
| `handheld.dfy` | `Handheld` | 8 | the acc/jmp/nop console: run, loop detection, jmp↔nop repair |
| `xmas.dfy` | `Xmas` | 9 | the sliding-window sum check and the contiguous run search |
| `adapters.dfy` | `Adapters` | 10 | joltage hops and the backward count of adapter chains |
| `seating.dfy` | `Seating` | 11 | the seat-occupancy cellular automaton under two neighbour rules |
| `navigation.dfy` | `Navigation` | 12 | the ferry's heading state machine and the waypoint variant |
| `optional.dfy` | `Optional` | – | `Option`, standing for Go's extra `ok bool` / `error` results |
| `strconv.dfy` | `Strconv` | – | `strconv.Atoi`/`Itoa` and `strings.Split`/`Join` |
| `sets.dfy` | `Sets` | – | the cardinality of a subset, used by Day 6 and Day 11 |

The model takes the form of the Go code:

- Go structs that the code updates in place become classes. These are Day 11's seating map, Day 8's program and Day 12's ferry. Their methods state the new state as a function of the old one.
- Loops become methods with loop invariants. Each one is proved against a recursive or set-based specification function.
- Pure Go functions become Dafny functions.
- A Go map or struct that a function updates in place becomes an in/out value. This covers Day 7's result set and total, Day 4's passport and Day 6's answer group.
- Go's randomised map iteration becomes a choice `:|` of any remaining key. The proofs therefore hold for every iteration order. This applies to the Day 11 step, the occupied count, the Day 7 weighted count and the Day 6 common count.

The source comments disagree with the code in two places, and the model follows the code:

- Day 5:
  - The comment on `turnBitStringToNumber` says "XXYX" decodes to 7. It decodes to binary 1101, which is 13 (`Boarding.XxyxExample`).
  - The format `^([F,B]{7})([L,R]{3})$` also accepts commas, which the decoder then skips.
- Day 9: the comment on `findContiguousListThatAddTo` promises a slice that adds up to the sum. See "Findings".

## Model

| member | source | states |
|---|---|---|
| Report.SortedOf | Day1/main.go:66 | the result is sorted and is a permutation of the input (the contract of `sort.Ints`) |
| Report.InsertSorted | Day1/main.go:66 | inserting into a sorted list keeps it sorted and adds only the new element |
| Report.SortInts | Day1/main.go:66 | the array ends up as the sorted permutation of its old contents |
| Report.PairSearch | Day1/main.go:70-83 | found iff some positions i, k (possibly equal) add up to the total; on success the two numbers add up to it and are elements; (0, 0) on failure |
| Report.MiddleSearch | Day1/main.go:99-118 | the walk from the middle position finds a third number completing the partial sum whenever some element does; on a hit that number is an element. Completeness rests on the direction `getOffsetDirection` (lines 125-131) picks: downward when the partial sum with the middle number is at least the total, upward otherwise |
| Report.TripletSearch | Day1/main.go:95-122 | found iff some three positions add up to the total; on success the three numbers add up to it and are elements; (0, 0, 0) on failure |
| Report.GetPairWhichTotalsTo | Day1/main.go:64-84 | the caller's array is sorted in place into a permutation of its contents, then the complete pair search runs on it |
| Report.GetTripletWhichTotalsTo | Day1/main.go:88-123 | the caller's array is sorted in place into a permutation of its contents, then the complete triplet search runs on it |
| Passwords.OccurrencesIsMultiplicity | Day2/main.go:52-58 | the counted occurrences are the multiplicity of the letter in the password, 0 for a letter that is not one character, never more than the length |
| Passwords.IsValidForFirstMethod | Day2/main.go:52-61 | true iff the letter's number of occurrences lies in [min, max] |
| Passwords.SecondMethodExactlyOne | Day2/main.go:66-76 | false when the password is shorter than max; otherwise true iff exactly one of the checks of positions min and max (1-based) finds the letter; so min == max always gives false |
| Passwords.SecondMethodSymmetric | Day2/main.go:72-75 | swapping min and max does not change the second method's verdict |
| Passwords.ParsePasswordRecord | Day2/main.go:113-134 | fails iff the min or max group is not an integer; otherwise min and max are the `Atoi` values of those groups, and letter and password are copied unchanged |
| Passwords.ParseParts | Day2/main.go:113-134 | parsing the decimal groups of a record gives the record back |
| Passwords.EmptyBoundRejected | Day2/main.go:11 | an empty `\d*` group for min or max is rejected |
| Passwords.FirstPolicyExample | Day2/main.go:50-76 | `1-3 a: abcde` passes both methods |
| Passwords.ThirdPolicyExample | Day2/main.go:50-76 | `2-9 c: ccccccccc` passes the first method and fails the second |
| Toboggan.RowOfPosition | Day3/main.go:64 | the k-th examined position is on row k·yMov |
| Toboggan.ColumnInside | Day3/main.go:59-63 | with 0 ≤ xMov ≤ width the single subtraction keeps every column in 0..width-1 |
| Toboggan.WideMoveLeavesMap | Day3/main.go:59-63 | a move wider than the map is not reduced modulo the width (column 3 on a map 2 wide) |
| Toboggan.Examined | Day3/main.go:49-69 | at least one position, (0, 0), is examined, even on an empty map |
| Toboggan.ExaminedIsCeiling | Day3/main.go:64-69 | for yMov > 0 and height ≥ 1 the number of examined positions n is ceil(height / yMov): (n-1)·yMov < height ≤ n·yMov |
| Toboggan.TreesSeen | Day3/main.go:50-55 | the trees among n positions number at most n |
| Toboggan.CountEncounteredTrees | Day3/main.go:46-73 | the count is the number of examined positions holding a tree, and at most the number examined; a ride must not repeat forever |
| Toboggan.LoadMap | Day3/main.go:84-102 | the trees are exactly the (column, row) positions holding '#'; the height is the number of lines, the width the length of the last line |
| Passports.DocumentValidIffPresent | Day4/main.go:56-58 | `isDocumentValid` holds exactly when every field other than Cid is non-empty |
| Passports.HexColorExamples | Day4/main.go:93-97 | `validateAsHexColor` accepts "#123abc" and rejects "#123abz", "123abc" and the upper-case "#123ABC" |
| Passports.PassportIdExamples | Day4/main.go:111-115 | `validateAsNumberOfDigits(_, 9)` accepts "000000001" and rejects ten digits; a value it accepts reads as a number with `Atoi` |
| Passports.ValidateAsNumberInRange | Day4/main.go:71-77 | true iff the string is an Atoi integer within [min, max]; the empty string fails |
| Passports.ValidateAsNumberWithUnitInRange | Day4/main.go:81-90 | true iff the unit is a suffix and the text before it is an in-range integer; such a value is longer than the unit |
| Passports.UnitExamples | Day4/main.go:79-80 | "180cm" passes for cm 150..193; "10m" fails for both cm and in |
| Passports.ValidateAsColorCode | Day4/main.go:99-108 | true iff the value is one of amb, blu, brn, gry, grn, hzl, oth |
| Passports.AreDocumentRecordsValid | Day4/main.go:60-68 | true iff all seven field checks pass; then the document is also valid by `isDocumentValid` |
| Passports.RecordsValidImpliesPresent | Day4/main.go:56-68 | every field check rejects the empty string, so valid records are present records |
| Passports.CidIgnored | Day4/main.go:56-68 | the Cid field plays no part in either validity check |
| Passports.Capitalize | Day4/main.go:154 | the model keeps the length and every character after the first, and upper-cases an ASCII lower-case first letter; Go's `strings.Title` also upper-cases after separators, which no field key contains |
| Passports.Set | Day4/main.go:157 | setting a field gives it the value and leaves every other field unchanged |
| Passports.KeyNamesField | Day4/main.go:154 | each input key, capitalised, names its own field of the struct |
| Passports.SetField | Day4/main.go:152-159 | a key that names no field, once capitalised, leaves the passport unchanged |
| Passports.SetFieldOverwrites | Day4/main.go:145-160 | a later value for a key overwrites an earlier one |
| Passports.ParsePassportData | Day4/main.go:145-161 | the loop applies the items between single spaces in order, each only when it splits into exactly two parts on ':' |
| Passports.LoadStep | Day4/main.go:118-141 | a blank line closes the open passport and starts an empty one; any other line is parsed into the open passport |
| Passports.ParseFormat | Day4/main.go:145-160 | a passport written as `byr:… iyr:… … cid:…` on one line parses back, from an empty passport, to itself |
| Passports.LoadPassports | Day4/main.go:118-141 | k blank lines give k + 1 passports, the i-th parsed from the lines of the i-th group between blank lines |
| Boarding.BitString | Day5/main.go:93-101 | the collected bits are '0'/'1' only and no more than the letters |
| Boarding.BinaryValueBound | Day5/main.go:103 | n bits give a value below 2^n |
| Boarding.TurnBitStringToNumber | Day5/main.go:92-109 | succeeds iff some bit letter is present and the value fits ParseInt's 64-bit range; the number is then the value of the bits, most significant first; 0 on error |
| Boarding.PositionBound | Day5/main.go:68-87 | a code of at most n letters gives a position below 2^n, a parse error giving 0 |
| Boarding.GetRowPosition | Day5/main.go:68-76 | the row is the F/B code decoded, or 0 on a parse error |
| Boarding.GetColumnPosition | Day5/main.go:78-87 | the column is the L/R code decoded, or 0 on a parse error |
| Boarding.GetSeatId | Day5/main.go:64-66 | the seat id, row · 8 + column |
| Boarding.XxyxBits | Day5/main.go:93-101 | the letters of "XXYX", with X as one and Y as zero, give the bits "1101" |
| Boarding.ValueOf1101 | Day5/main.go:103 | the bits "1101" are the number 13 |
| Boarding.XxyxExample | Day5/main.go:89-91 | "XXYX" with X as one and Y as zero decodes to 13, not to the 7 the comment gives |
| Boarding.FormatExamples | Day5/main.go:12 | the pass format accepts "FBFBBFFRLR" and a line of ten commas, and rejects a line of nine letters and one with its halves swapped |
| Boarding.SeatIdRange | Day5/main.go:12 | every pass of the accepted format has a seat id in 0..1023 |
| Boarding.SeatIdInjective | Day5/main.go:64-66 | passes of exactly seven F/B and three L/R letters with equal seat ids are the same pass |
| Boarding.AcceptedLines | Day5/main.go:120-134 | the passes kept are no more than the lines; each comes from a line of the accepted format, split 7 + 3, and every such line's pass is kept |
| Boarding.LoadBoardingPasses | Day5/main.go:120-134 | the passes are one per line of the accepted format, in the order of the lines, duplicates kept; so each comes from such a line and every such line's pass is among them |
| Boarding.RepeatedLineExample | Day5/main.go:120-134 | a line given twice gives its pass twice |
| Boarding.HighestSeatId | Day5/main.go:28-36 | the taken set is every pass's id; the highest is their maximum, or 0 when there are none |
| Boarding.FindMySeat | Day5/main.go:44-55 | the largest id below the highest that is free with both neighbours taken, or 0 when there is none |
| Customs.ParseAnswers | Day6/main.go:88-101 | one more person, whose answers are the distinct letters of the line, also added to the unique answers, which stay the union of all persons' answers |
| Customs.CommonIsIntersection | Day6/main.go:42-57 | the answers of the first person that everybody gave are the intersection of all persons' answers |
| Customs.IsAnsweredByAll | Day6/main.go:48-52 | the inner scan is true iff every person gave the answer |
| Customs.GetCommonAnswerCount | Day6/main.go:44-57 | the count, in any iteration order, is the number of answers every person gave; a group must have a person |
| Customs.CommonAnswersBounds | Day6/main.go:44-57 | common answers ⊆ first person's ⊆ unique answers, with the sizes ordered likewise; with one person the common answers are that person's |
| Customs.ParsedGroupShape | Day6/main.go:88-101 | a group has one person per line and its unique answers are the union |
| Customs.LoadStep | Day6/main.go:61-84 | a blank line closes the open group and starts an empty one; any other line adds one person to the open group |
| Customs.LoadAnswers | Day6/main.go:61-84 | k blank lines give k + 1 groups, the i-th made of the lines of the i-th group between blank lines |
| Customs.LoadedGroupsHavePersons | Day6/main.go:74-81 | a loaded group has no person only when its lines are empty (two adjacent blank lines, or one at either end) |
| Bags.FirstRuleIsFirst | Day7/main.go:65-73 | none iff no rule has the colour; otherwise the rule at the least index with it |
| Bags.FindRuleByColor | Day7/main.go:65-73 | the scan returns the first rule of the colour, or none |
| Bags.AncestorHasLastEdge | Day7/main.go:42-49 | every transitive container is linked to the colour by a last containment edge |
| Bags.LastEdgeMakesAncestor | Day7/main.go:42-49 | a containment edge into the colour, from it or from one of its containers, makes a container |
| Bags.FindBagsThatCanContain | Day7/main.go:40-49 | on an acyclic rule graph, the result gains exactly the colours from which the target is reachable by one or more containment edges; an edge is a rule whose map has the colour as a key, whatever its count (`canContainBag`, lines 80-83) |
| Bags.WeightedSumPick | Day7/main.go:58-61 | the weighted sum over a rule's colours does not depend on the order they are taken in |
| Bags.InsideOfRule | Day7/main.go:57-60 | a colour with a rule holds the weighted sum over that rule's colours, each of lower rank |
| Bags.InsideOfSingle | Day7/main.go:57-60 | a rule holding one colour holds count × (1 + the bags inside that colour) |
| Bags.FindNumberOfBagsContainedIn | Day7/main.go:51-63 | on an acyclic rule graph, the total grows by multiplier × the bags inside the colour, in any iteration order; a colour without a rule adds nothing |
| Bags.CountStep | Day7/main.go:59-60 | one colour's weighted term moves from the remaining sum into the total |
| Bags.ExampleRanked | Day7/main.go:54-55 | the doc comment's rules (blue holds 3 red, red holds 2 green) are acyclic |
| Bags.ExampleRed | Day7/main.go:54-55 | red holds 2 bags |
| Bags.DocExample | Day7/main.go:54-55 | blue holds 3 red and 6 green, 9 bags in all |
| Handheld.RunFromOutcome | Day8/mian.go:115-140 | codes and arguments are kept; Success iff the index is at or past the end; an index below 0 is an explicit out-of-range exit; InfiniteLoop at an instruction reached a second time, before executing it |
| Handheld.RunFromStep | Day8/mian.go:118-138 | an instruction not yet executed is counted, executed, and the run goes on from the resulting state: acc adds its argument and advances by 1, jmp adds its argument to the index, nop advances by 1 |
| Handheld.Iterations | Day8/mian.go:116-139 | the loop iterates at most once per not-yet-executed instruction, plus once |
| Handheld.ResetCounts | Day8/mian.go:84-90 | every counter is zeroed; codes and arguments stay |
| Handheld.RunFromResetIsBounded | Day8/mian.go:118-128 | from a reset state the run ends within len + 1 iterations |
| Handheld.RunExecutesEachAtMostOnce | Day8/mian.go:122-128 | every instruction executes at most once; only the repeated one, on InfiniteLoop, has a count of 2 |
| Handheld.Flip | Day8/mian.go:36-51 | jmp and nop swap at one index; acc and all other instructions stay |
| Handheld.FlipAfterReset | Day8/mian.go:34-38 | resetting then flipping is flipping then resetting |
| Handheld.ParseInstruction | Day8/mian.go:144-159 | fails iff the digits are not an integer; the argument is their value, negated iff the sign is "-"; the counter is 0 |
| Handheld.ParseInstructionExample | Day8/mian.go:144-159 | `jmp -4` and `acc +12` parse to (jmp, -4) and (acc, 12) |
| Handheld.Program.constructor | Day8/mian.go:19-21 | a program loaded from instructions starts with accumulator and index 0 |
| Handheld.Program.Reset | Day8/mian.go:84-90 | the accumulator, index and every counter are zeroed; codes and arguments stay |
| Handheld.Program.Run | Day8/mian.go:115-140 | the loop ends in the state and with the exit code the run function gives |
| Handheld.FailedTrialKeepsProgram | Day8/mian.go:39-49 | a trial that does not succeed leaves the codes and arguments as they were |
| Handheld.TrialStateOfSameProgram | Day8/mian.go:34-36 | whether a trial succeeds, and the state it leaves, depend on the codes and arguments only, not on the counters |
| Handheld.Program.TryFlip | Day8/mian.go:36-50 | one trial flips a jmp/nop and runs; on success the state is that of the run; otherwise the code is restored and the accumulator, index and counters are those the failed run left |
| Handheld.Program.Repair | Day8/mian.go:34-52 | the first jmp/nop whose flip makes the run succeed is flipped for good, with the state of that run; with none, no flip succeeds, the codes and arguments are unchanged, and the state, whose accumulator `main` prints, is the one the last trial left: the failed run of a final jmp/nop, or the reset state after a final acc; an empty program is left as it was |
| Xmas.IsSumOfTwo | Day9/main.go:49-58 | true iff two elements with different values add up to the sum |
| Xmas.PairExamples | Day9/main.go:52 | [5, 5] does not make 10, though 5 occurs twice; [4, 6] does |
| Xmas.FindFirstInvalidNumber | Day9/main.go:38-45 | the value at the least position ≥ preamble that is no sum of two of the preamble numbers before it; (0, false) when there is none, in particular when preamble ≥ length |
| Xmas.FindRun | Day9/main.go:63-76 | the search stops at the first start with a run of at least two elements adding up to the sum, where no shorter run from that start already exceeded it; otherwise no start has one |
| Xmas.NoHitAfterOvershoot | Day9/main.go:71-73 | once the running total exceeds the sum, its start has no hit |
| Xmas.NoHitInPrefix | Day9/main.go:65-67 | a start whose every run stays below the sum has no hit |
| Xmas.FindContiguousListThatAddTo | Day9/main.go:62-77 | as written: on a hit over numbers[i..m) the slice returned is numbers[i..m-1]; empty and false when no start has a hit |
| Xmas.ShortRunExample | Day9/main.go:68-69 | on [1, 2, 3] with sum 3 the returned slice is [1], which does not add up to 3 |
| Xmas.FindContiguousRun | Day9/main.go:60-77 | corrected: the run returned has at least two elements and adds up to the sum |
| Adapters.OneAndThreeHopsBounded | Day10/main.go:47-53 | no position counts as both a 1-hop and a 3-hop, so together they are at most the number of positions |
| Adapters.CountIncreases | Day10/main.go:44-62 | ok iff no hop from 0 onward exceeds 3; the counts of hops of exactly 1 and 3 otherwise, with a sum of at most the length; (0, 0, false) otherwise |
| Adapters.HopExample | Day10/main.go:41-43 | [1, 3, 4, 7, 10] has 2 one-hops and 2 three-hops |
| Adapters.WindowSuffices | Day10/main.go:74-79 | for strictly increasing ratings, positions past the next three add no chains |
| Adapters.WindowSufficesClamped | Day10/main.go:74-79 | the window clamped to the end of the ratings counts all chains |
| Adapters.AddFollowing | Day10/main.go:82-88 | the inner loop adds to the current rating's count the counts of the following ratings in the window at most 3 above it; no other entry changes |
| Adapters.NextStep | Day10/main.go:71-89 | after one backward step every rating from the current position on holds its number of chains |
| Adapters.CountAdapterSequences | Day10/main.go:67-92 | 0 without a 0 rating; for strictly increasing ratings, the number of chains from 0 to the last rating with every gap at most 3 |
| Adapters.ChainExample | Day10/main.go:64-66 | [0, 1, 2, 3] has 4 chains |
| Seating.SeatKinds | Day11/main.go:62-68 | `isTakenSeat` implies `isSeat`; a seat that is not taken is 'L'; every other state is floor |
| Seating.NextState | Day11/main.go:81-93 | a non-seat keeps its state; a seat stays a seat and becomes '#' iff it sees no taken seat, or it is '#' and sees fewer than the threshold (4 adjacent, 5 in sight) |
| Seating.Step | Day11/main.go:78-100 | no coordinate is added or removed; non-seats are unchanged; seats stay seats |
| Seating.NeighbourCount | Day11/main.go:152-190 | at most 8 taken seats are counted around a cell |
| Seating.AheadShrinks | Day11/main.go:196-206 | each step along a line of sight leaves fewer coordinates of the map ahead, so the walk ends |
| Seating.FirstSeatFromWalk | Day11/main.go:194-207 | the walk passes present non-seats and reports the first seat, or nothing at the first absent coordinate |
| Seating.VisibleIsSeat | Day11/main.go:197-200 | what is seen along a line of sight is a seat of the map |
| Seating.AdjacencyAbsentLikeFloor | Day11/main.go:166-171 | for the adjacency rule an absent coordinate counts like floor |
| Seating.SightAbsentIsNotFloor | Day11/main.go:197-203 | for the line-of-sight rule they differ: the walk stops at an absent coordinate but looks through floor |
| Seating.TakenCellsBound | Day11/main.go:139-148 | the taken seats never outnumber the cells |
| Seating.Current | Day11/main.go:70-72 | the snapshot of the current states has the map's coordinates |
| Seating.CurrentIgnoresNextState | Day11/main.go:83-92 | writing a next state does not change the current states the step reads |
| Seating.SeatingMap.Load | Day11/main.go:218-227 | character x of line y is stored at (x, y), and no other coordinate is present |
| Seating.SeatingMap.CountAdjacentSeatsTaken | Day11/main.go:152-174 | the number of the eight adjacent coordinates present with a taken seat, in 0..8 |
| Seating.SeatingMap.GetVisibleObject | Day11/main.go:194-207 | the first seat along the vector, starting one step away, or none once the walk reaches an absent coordinate |
| Seating.SeatingMap.CountVisibleSeatsTaken | Day11/main.go:178-190 | the number of the eight lines of sight ending at a taken seat, in 0..8 |
| Seating.SeatingMap.SyncState | Day11/main.go:132-136 | every cell's next state becomes its current state |
| Seating.SeatingMap.ComputeNextState | Day11/main.go:81-93 | the switch of one cell gives the next state computed from the current states |
| Seating.SeatingMap.Simulate | Day11/main.go:78-100 | in any iteration order the new grid is the step of the old grid alone; the flag is true iff some cell changed; after no change a further step changes nothing |
| Seating.SeatingMap.RunSimulation | Day11/main.go:78-100 | one step under the adjacency rule; true iff some cell changed |
| Seating.SeatingMap.RunSimulationWithVectors | Day11/main.go:107-129 | one step under the line-of-sight rule; true iff some cell changed |
| Seating.SeatingMap.CountTakenSeats | Day11/main.go:139-148 | the number of cells whose state is '#', at most the number of cells |
| Seating.StepsFromFixedPoint | Day11/main.go:23-28 | once a step changes nothing, any number of further steps changes nothing |
| Seating.StepsAdd | Day11/main.go:23-28 | k steps after j steps are j + k steps |
| Seating.SeatingMap.RunUntilStable | Day11/main.go:23-28 | the grid is the loaded grid after some number of whole steps, at most the fuel; when the loop stops because a step reported no change, the grid is a fixed point of the rule; otherwise all the fuel was used |
| Navigation.TruncDiv | Day12/main.go:133 | Go's integer division by a positive divisor truncates toward zero: the remainder has the sign of the dividend and is smaller than the divisor in magnitude |
| Navigation.Turned | Day12/main.go:132-142 | the new direction ≡ direction + degrees/90 (mod 4); in 0..3 when that sum is ≥ -4, negative below |
| Navigation.Offset | Day12/main.go:99-106 | N, S, E, W move by the value on one axis; other actions do not move |
| Navigation.ForwardIsTranslation | Day12/main.go:117-128 | moving forward with heading North, East, South or West is the N, E, S or W translation by the distance; a heading outside 0..3 does not move |
| Navigation.Executed | Day12/main.go:97-114 | N/S/E/W translate and keep the heading; L turns by -value and R by +value and keep the position; F moves forward; other actions do nothing |
| Navigation.SailedAppend | Day12/main.go:90-94 | sailing a program in two halves is sailing it whole |
| Navigation.TranslationsKeepHeading | Day12/main.go:99-106 | a program of N/S/E/W only never changes the heading |
| Navigation.TurnExamples | Day12/main.go:107-110 | R90 from East faces South; L90 from North faces West; turning 450 degrees left from North leaves the range (-1) |
| Navigation.TowardWaypointCompose | Day12/main.go:146-149 | moving toward the waypoint x times and then y times is moving x + y times; moving 0 times stays |
| Navigation.WaypointExample | Day12/main.go:144-145 | a waypoint at 3 north, 5 west with multiplier 4 moves the ferry 12 north and 20 west |
| Navigation.WaypointStep | Day12/main.go:38-55 | N/S/E/W translate the waypoint; L and R rotate it by +value and -value; F moves the ferry toward it; the other one stays |
| Navigation.ManhattanDistance | Day12/main.go:31 | the distance is 0 only at the origin and is at least each coordinate's magnitude |
| Navigation.ParseInstruction | Day12/main.go:177-194 | on a non-empty line, succeeds iff the first character is one of NSEWLRF and the rest is an integer; the action is that character and the value is the `Atoi` value of the rest |
| Navigation.ParseFormatted | Day12/main.go:177-194 | an instruction written as its letter and decimal value parses back to itself |
| Navigation.Formatted | Day12/main.go:165-173 | a program is written as one non-empty line per instruction |
| Navigation.Loaded | Day12/main.go:165-173 | the loaded program has at most one instruction per line, all with valid actions |
| Navigation.LoadFormatted | Day12/main.go:165-173 | a program written one instruction per line loads back to itself |
| Navigation.LoadInstructions | Day12/main.go:165-173 | the loop keeps the lines that parse, in order |
| Navigation.Ferry.constructor | Day12/main.go:25-29 | the ferry starts at the origin facing East |
| Navigation.Ferry.MoveForward | Day12/main.go:117-128 | the position moves along the heading; the heading stays |
| Navigation.Ferry.Rotate | Day12/main.go:132-142 | the heading becomes the turned one; the position stays |
| Navigation.Ferry.ExecuteInstruction | Day12/main.go:97-114 | the ferry's new position and heading are those of the instruction's effect |
| Navigation.Ferry.SetSail | Day12/main.go:90-94 | the ferry ends where the program's instructions, applied in order, take it |
| Navigation.Ferry.MoveToWaypoint | Day12/main.go:146-149 | the ferry moves multiplier × the waypoint; the heading stays |
| Navigation.Ferry.SailByWaypoint | Day12/main.go:36-55 | from the origin with the waypoint at 1 north, 10 east, the ferry and waypoint end where the waypoint steps take them |
| Strconv.AtoiOfItoa | Day12/main.go:186 | `Atoi` reads back every integer's decimal text |
| Strconv.AtoiSyntax | Day4/main.go:72 | `Atoi` accepts only an optional sign followed by digits, never the empty string |
| Strconv.Split | Day4/main.go:146-147 | n separators give n + 1 pieces, none containing the separator |
| Strconv.JoinSplit | Day4/main.go:146 | joining the pieces of a split gives back the input |
| Strconv.SplitPrefixStep | Day4/main.go:146 | one more element either starts a new empty piece (the separator) or extends the last piece, leaving the others alone |
| Strconv.SplitJoin | Day4/main.go:146-147 | splitting a join of separator-free pieces gives back the pieces |

## Left out

- File and console input/output: working-directory lookup, file opening, line scanning, printing, skip messages and the final products and sums printed by every `main`. The model starts from the lines, or from records already parsed.
- Regular expressions: the model starts Day 2 and Day 8 from the captured groups. `parseBaggageRule` (Day 7) is not modelled, and rules are given already parsed. Day 4's hex, digit and Day 5's pass patterns are written as character predicates.
- Day 12's `position.rotate`: it uses `math.Sin`, `math.Cos` and `math.Round` on floats. The model passes the rotation in as a function parameter.
- Day 12's Manhattan distance converts through `math.Abs` on float64. The model computes it in integers.
- Day 1's `math.Floor(float64(len/2))` is integer division `len/2`.
- Report.SortInts: `sort.Ints` is specified by its contract (sorted, a permutation), not by its algorithm.
- Integer width: `strconv.Atoi` range errors and 64-bit overflow in sums and products are not modelled. Integers are unbounded, except for Day 5's `ParseInt`, whose 64-bit limit is modelled.
- Passports.Capitalize: only an ASCII lower-case first letter is upper-cased. Go's `strings.Title` also upper-cases every letter after a separator, so "a-b" becomes "A-B"; the keys that name fields are three letters with no separator, so field lookup is the same. Unicode title-casing, such as dotless 'ı' becoming 'I', is left out.
- Reflection: Day 4's `FieldByName`/`SetString` is modelled as an explicit map from key names to the eight string fields.
- Characters versus bytes: Go ranges over runes in several loops (Day 2, 3, 5, 6, 11) but indexes bytes in Day 2's second method and Day 12's parser. The model uses one index per character, which agrees for ASCII input.
- Seating.SeatingMap.RunUntilStable: Go loops until no change without a bound. The model takes a fuel bound; convergence of the automaton is not proved, so a run that uses all the fuel proves nothing about stability.
- Toboggan.CountEncounteredTrees: a movement with yMov ≤ 0 on a map the first step does not leave loops forever in Go. It is excluded by a precondition.
- Handheld.RunFrom, Handheld.Program.TryFlip, Handheld.Program.Repair: a jmp to a negative index panics in Go at the instruction lookup and ends `main`. The model returns an explicit out-of-range exit instead, so a trial that reaches a negative index counts as failed and the repair loop goes on to later flips: on [nop -5, jmp +0] Go panics in the first trial, while the model's Repair returns Some(1).
- Bags.FindBagsThatCanContain, Bags.FindNumberOfBagsContainedIn: the Go recursion keeps no visited set. It ends whenever no cycle is reachable from the colour it starts at, so with rules A holds B, B holds A and C holds D, `findBagsThatCanContain(D)` ends with {C}. The model requires more: a rank witnessing that the whole rule graph is acyclic.
- Customs.GetCommonAnswerCount: Go indexes `personAnswers[0]` and panics on a group without persons, which two adjacent blank lines produce. The model requires a person.
- Passwords.IsValidForSecondMethod: Go indexes positions min-1 and max-1 once the password is at least max long and panics out of range. The model requires 1 ≤ min ≤ length and max ≥ 1 in that case.
- Adapters.CountAdapterSequences: Go indexes the last rating and panics on an empty list. The model requires a rating.
- Navigation.ParseInstruction, Navigation.LoadInstructions: Go indexes the first byte of a line and panics on an empty line. The model requires non-empty lines.
- Aliasing: Go passes Day 7's result map and total, Day 4's passport and Day 6's answer group by reference. The model passes them in and returns the updated value, which is the same as long as no caller shares them.

## Findings

| source | as written | input that shows it | evidently intended | confidence | as-written member | corrected member |
|---|---|---|---|---|---|---|
| Day9/main.go:65-69 | on a hit, `numbers[i:i+j+1]` is returned, but the total includes `numbers[i+1+j]`, so the last element summed is dropped | numbers [1, 2, 3], sum 3: the total 1 + 2 hits and the slice returned is [1] | return `numbers[i:i+j+2]`, the run that adds up to the sum | not executed | Xmas.FindContiguousListThatAddTo, Xmas.ShortRunExample | Xmas.FindContiguousRun |
