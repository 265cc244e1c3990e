# Sudoku solver and game state, modelled in Dafny

This project models the logic core of a Sudoku web game written in
TypeScript:

- the human-style **solver** (`src/solver.ts`). It applies techniques from
  the cheapest to the dearest and records each as a step with its type and
  points. The techniques are: full house, hidden and naked singles, locked
  candidates (pointing and claiming), hidden and naked pairs, triples and
  quads, X-Wing, finned X-Wing / Sashimi, empty rectangle, XY-Wing,
  XYZ-Wing, W-Wing, Swordfish, Jellyfish and their finned variants;
- the **helpers** in `src/utils.ts`: the peers of a cell, the solved-puzzle
  test, the number test and the two shifted-key tables;
- the three **Redux reducers** of `src/redux/reducers.ts`: board, keys and
  general UI state;
- the **timer formatter** of `src/lib/formatter.ts`.

A board is a sequence of 81 `Cell` values, each with an id from `A1` to `I9`:

- the letter is the column and the digit the row;
- `bigNum` is the placed digit (`""` when empty);
- `cornerPencil` holds the candidates and `centerPencil` the centre marks.

The solver's elimination techniques share one pattern. A `board.map`
removes digits from the candidates of selected cells, and the technique
reports those cells. This is `Board.Apply` with a `Rule`. `Board.Fire`
returns a result exactly when some cell was selected, which is the source's
`somethingChanged` flag. Every technique is specified by a function over
the board in id order. The loops of the source are methods proved equal to
that function (`CheckNakedSingles`, `CheckXYwing`, …). Lemmas then state
what a result means: which cells changed, which digit was struck and why
the pattern holds.

`solve` itself is `Solver.Solve(Solver.FirstMove(Techniques.Attempter(place)), board, steps, fuel)`.
`Techniques.Attempter` runs one technique on a board, `Solver.FirstMove`
takes the first technique of the cost order that fires (`Steps.Order`),
and `Solver.Solve` records the move and goes on. The lemmas about `Solve`
hold for any way of choosing the move that keeps the cells.

Modules, one per concern:

| module | file | models |
|---|---|---|
| Lists | lists.dfy | filtering, sorting and deduplication of string lists (`sort()`, `filter((el, pos, arr) => …)`) |
| Grid | grid.dfy | ids, positions, columns, rows, boxes and peers |
| Board | board.dfy | cells, specs, the elimination `board.map` |
| Groups | groups.dfy | `getRowsBoxesColumns`, `getBoxIndexes`, `enumSets` |
| Search | search.dfy | the nested `for` loops returning the first result |
| Utils | utils.dfy | `utils.ts` |
| Singles | singles.dfy | `fillPossibleNums`, `isMissingOneNum`, full house, naked and hidden singles |
| Locked | locked.dfy | locked candidates, pointing and claiming |
| Subsets | subsets.dfy | hidden and naked pairs, triples and quads |
| Fish | fish.dfy | X-Wing, Swordfish, Jellyfish, finned and sashimi |
| Rectangle, RectangleShape | rectangle.dfy, rectangle_shape.dfy | `isEmptyRectangle`, `updateEmptyRectangle`, `checkEmptyRectangle` |
| Wings | wings.dfy | XY-Wing, XYZ-Wing, W-Wing |
| Steps | steps.dfy | the step table of `solve`: order, types, points |
| Solver | solve.dfy | `solve` |
| Techniques | techniques.dfy | the technique each step of `solve` calls |
| Reducers | reducers.dfy | `boardReducer`, `keysReducer`, `generalReducer` |
| Formatter | formatter.dfy | `formatTimer` |

Behaviour of the code that the model reproduces as written:

- `getRowsBoxesColumns` sorts its argument in place by id. Inside `solve`,
  `checkFullHouse` therefore sorts the working copy, so every later
  technique sees the board in id order. `solve` returns that sorted board,
  except when the puzzle was already solved on entry.
- In `checkXYwing`, the guard meant to reject three cells in one line
  filters with `arr[i - 1]`. Here `i` is the outer loop's index, not the
  position in the array. As a result, no XY-Wing is ever found with the
  first bivalue cell or the fifth or later as its pivot
  (`Wings.XyPivotBlocked`). The guard also compares columns twice, using
  `el[0]` for the "rows" as well.
- In the finned Jellyfish column branch, `rowDuplicates` already holds row
  digits, which are then indexed again. Every cell becomes a fin, so the
  branch never eliminates anything (`Fish.JellyfishColumnsNeverFire`).
- For a box with only two candidate cells in different rows and columns,
  `isEmptyRectangle` returns `[allCols[0], allRows[1], allCols[1], allRows[0]]`
  after both lists were sorted in place, and `checkEmptyRectangle` tries the
  pairs (`allCols[0]`, `allRows[0]`) and (`allCols[1]`, `allRows[1]`). Each
  pair covers both cells only when the cells lie on the box's anti-diagonal
  (such as A2 and B1). For two cells on the main diagonal (such as A1 and
  B2) the search strikes from a column and a row that miss one of the two
  cells (`RectangleShape.CornersMeaning`). Nothing was executed to confirm
  this.
- `updateEmptyRectangle` chooses the row band with `Number(erRow) < 3`.
  Rows 3 and 6 therefore fall into the next band (`Rectangle.RowBandQuirk`).
- In `boardReducer`, `filter` drops every cell with the id, while `find`
  takes only the first. A pencil toggle removes every copy of the digit.

## Model

| member | source | states |
|---|---|---|
| Grid.SlotBijective | src/solver.ts:26-42 | each of the 81 positions lies in exactly one column, one row and one box, at exactly one place |
| Grid.GroupMembersArePeers | src/utils.ts:13-32 | two different cells of one column, row or box are peers |
| Grid.PosOfRoundTrip | src/utils.ts:6-7 | an id is read back from its column letter and row digit |
| Board.Fire | src/solver.ts:354-372 | an elimination reports a result exactly when some cell was selected, and the result is the mapped board |
| Board.Apply | src/solver.ts:355-362 | the `board.map` of an elimination changes only candidates and only removes them |
| Board.Selected | src/solver.ts:360-361 | `affectedCells` are exactly the ids of the selected cells |
| Board.FireStrike | src/solver.ts:354-362 | a strike changes only selected, unfilled cells in its zone and removes exactly the struck digits from them |
| Board.StrikeRemovesExactly | src/solver.ts:355-361 | a candidate disappears exactly when its cell is selected and it is one of the struck digits |
| Board.KeepConfines | src/solver.ts:311-317 | a hidden-subset map changes only the subset's cells and leaves them with only the subset's digits |
| Board.StrikeChanges | src/solver.ts:354-372 | a strike that selects something removes a candidate; one that selects nothing returns the board unchanged |
| Board.KeepChanges | src/solver.ts:311-328 | the same for a hidden-subset map, when the cells list no candidate twice |
| Board.Without | src/solver.ts:361 | `filter((num) => !nums.includes(num))` keeps exactly the marks not struck |
| Groups.SortByIdIdentity | src/solver.ts:12-16 | the in-place sort by id leaves a board of 81 cells in id order unchanged |
| Groups.SortByIdIdempotent | src/solver.ts:12-16 | sorting a sorted board again changes nothing |
| Groups.IdsOfSort | src/solver.ts:12-16 | the ids after the sort are the sorted ids |
| Groups.LoopIndexIsSlot | src/solver.ts:33-35 | the three index expressions of the nested loop are the column, row and box slots |
| Groups.GetRowsBoxesColumns | src/solver.ts:11-49 | returns the nine rows, columns and boxes of the board sorted by id |
| Groups.FamiliesPartitionBoard | src/solver.ts:26-42 | on a board in id order each cell is in its own column, row and box at one place, and cells of a column share the letter and cells of a row the digit |
| Groups.BoxIndexes | src/solver.ts:57-63 | one box index per requested id |
| Groups.BoxIndexIsBox | src/solver.ts:57-63 | the index found is the box of the cell, or -1 for an id that is not on the board |
| Groups.EnumSets | src/solver.ts:71-95 | returns the box, row and column records of group `x` of the board sorted by id |
| Groups.EntriesMeaning | src/solver.ts:78-92 | the entries of a record are the digits with at least one candidate cell, ascending, each with exactly its candidate cells in group order |
| Groups.EntryIff | src/solver.ts:78-92 | an entry is in the record exactly when it is a digit with its nonempty list of candidate cells |
| Groups.CellsWith | src/solver.ts:81-89 | the listed ids are exactly the cells of the group holding the digit |
| Search.FindPair | src/solver.ts:344-345 | the pair loop `a < b` returns the first pair, in loop order, that yields a result |
| Search.FindTriple | src/solver.ts:391-393 | the same for triples `a < b < c` |
| Search.FindQuad | src/solver.ts:497-500 | the same for quads `a < b < c < d` |
| Search.FindInGrid | src/solver.ts:1248-1250 | the loop over groups and kinds returns the first group that yields a result |
| Search.FindFirst | src/solver.ts:1271-1273 | a loop over positions returns the first position that yields a result |
| Utils.FindRestrictedCells | src/utils.ts:5-37 | returns the 20 peers of the cell, each once and not the cell itself |
| Utils.RestrictedSymmetric | src/utils.ts:5-37 | a cell is a peer of another exactly when that one is a peer of it |
| Utils.RoundsDone | src/utils.ts:21-34 | the box loop and the line loop collect exactly the peers and the cell, each once |
| Utils.Bands | src/utils.ts:13-19 | the bands chosen are those of the cell's box |
| Utils.IsPussleSolved | src/utils.ts:69-93 | decides `PuzzleSolved`: every column, row and box, sorted and joined, spells `123456789` |
| Utils.PuzzleSolvedMeaning | src/utils.ts:74-92 | the puzzle is solved exactly when every one of the 27 groups passes |
| Utils.PuzzleSolvedIff | src/utils.ts:74-92 | on single digits or empty entries, solved means every group holds each digit exactly once, and every entry is filled |
| Utils.GroupSolvedIff | src/utils.ts:86-88 | a group passes exactly when its values are the digits 1 to 9, each once |
| Utils.KindsMeaning | src/utils.ts:81-88 | group `g` passes as a column, as a row and as a box |
| Utils.ValidNumberMeaning | src/utils.ts:1-3 | a valid number is, exactly, optional white space, an optional `+`, a decimal whole part worth more than 0, then nothing or a `.` followed only by zeros, then optional white space (so `" 5"`, `"+5"`, `"05"` and `"1.0"` are valid and `"1.5"`, `"0"`, `"-5"` and `""` are not) |
| Utils.ValidKeys | src/utils.ts:1-3 | a single key is a valid number exactly when it is a digit 1 to 9 |
| Utils.DecimalPositive | src/utils.ts:2 | a decimal string's value is positive exactly when some digit is not 0 |
| Utils.ConvertShiftNumberBijective | src/utils.ts:39-52 | the nine shifted keys map one to one onto the digits, and no other key maps |
| Utils.ConvertNumLockShiftBijective | src/utils.ts:54-67 | the nine NumLock keys map one to one onto the digits, and no other key maps |
| Singles.FillPossibleNums | src/solver.ts:1221-1234 | every cell is filled by the same rule from the whole board |
| Singles.FillPossibleNumsMeaning | src/solver.ts:1221-1234 | filled cells lose their candidates; empty ones get exactly the digits no peer holds, ascending, once each, and an empty centre |
| Singles.FillPossibleNumsIdempotent | src/solver.ts:1221-1234 | filling the candidates twice is filling them once |
| Singles.PeerNums | src/solver.ts:1223-1228 | the numbers seen are exactly the big numbers of the cell's peers |
| Singles.IsMissingOneNum | src/solver.ts:102-118 | returns `MissingOne` of the group |
| Singles.MissingOneFires | src/solver.ts:102-118 | there is an answer exactly when eight cells are filled |
| Singles.MissingOneMeaning | src/solver.ts:102-118 | on distinct digits, the answer is the empty cell and the one digit not placed |
| Singles.CheckFullHouse | src/solver.ts:1241-1262 | returns `FullHouse` of the board |
| Singles.FullHouseNone | src/solver.ts:1241-1262 | nothing is found exactly when no group of the sorted board has eight filled cells |
| Singles.FullHouseFound | src/solver.ts:1248-1258 | a result is the first group, in loop order, with eight filled cells |
| Singles.FullHousePlaces | src/solver.ts:1253-1256 | the missing digit is placed in the group's empty cell |
| Singles.CheckNakedSingles | src/solver.ts:1269-1282 | returns `NakedSingles` of the board |
| Singles.NakedSinglesNone | src/solver.ts:1269-1282 | nothing is found exactly when no empty cell has a single candidate |
| Singles.NakedSinglesFound | src/solver.ts:1271-1278 | the first empty cell with a single candidate gets it as its digit |
| Singles.SoleEntry | src/solver.ts:1299 | finds an entry with one cell, or there is none |
| Singles.HiddenSingleRow | src/solver.ts:1295-1312 | one pass of the outer loop returns the first of its box, row and column with a digit only one cell can take, or the search goes on with the next index |
| Singles.CheckHiddenSingles | src/solver.ts:1289-1316 | returns `HiddenSingles` of the board |
| Singles.HiddenSinglesNone | src/solver.ts:1289-1316 | nothing is found exactly when no digit has a single candidate cell in any group |
| Singles.HiddenSinglesFound | src/solver.ts:1293-1312 | a result comes from some group |
| Singles.HiddenSingleAtMeaning | src/solver.ts:1298-1310 | a group's result places a digit in its only candidate cell, labelled with the group |
| Locked.CheckLockedCandidatesPointing | src/solver.ts:1323-1373 | returns `LockedPointing` of the board |
| Locked.PointingNone | src/solver.ts:1323-1373 | nothing is found exactly when no digit confined to one line of a box strikes anything |
| Locked.PointingFound | src/solver.ts:1325-1370 | a result strikes a digit whose two or three cells in a box share a line, from the empty cells that see all of them |
| Locked.CandidateIff | src/solver.ts:1328-1329 | the candidates are the digits with two or three cells in the group |
| Locked.InOneLineMeaning | src/solver.ts:1336-1347 | cells are in one line exactly when they share a column or a row |
| Locked.CheckLockedCandidatesClaiming | src/solver.ts:1380-1429 | returns `LockedClaiming` of the board |
| Locked.ClaimingNone | src/solver.ts:1380-1429 | nothing is found exactly when no digit confined to one box within a row or column strikes anything |
| Locked.ClaimingFound | src/solver.ts:1382-1426 | a result strikes a digit whose two or three cells in a row or column share a box, from the empty cells that see all of them |
| Locked.InOneBoxMeaning | src/solver.ts:1396-1403 | cells are in one box exactly when their boxes agree |
| Subsets.CheckHiddenPairs | src/solver.ts:296-333 | the pair loop over the entries |
| Subsets.CheckHiddenTriples | src/solver.ts:386-429 | the triple loop over the entries |
| Subsets.CheckHiddenQuads | src/solver.ts:492-537 | the quad loop over the entries |
| Subsets.HiddenGroup | src/solver.ts:1443-1473 | the filtered record of one group, searched with the size's loop, gives that group's answer |
| Subsets.HiddenRow | src/solver.ts:1440-1475 | one pass of the outer loop returns the first of its box, row and column with a hidden subset, or the search goes on with the next index |
| Subsets.CheckHiddenSubsets | src/solver.ts:1437-1479 | returns `HiddenSubsets` of the board |
| Subsets.HiddenFound | src/solver.ts:1437-1479 | a result keeps only the subset's digits in the subset's cells, for k digits with two to k cells each in some group, confined to k cells together |
| Subsets.HiddenTryMeaning | src/solver.ts:301-317 | an attempt that fires was made on a hidden subset |
| Subsets.HiddenEntriesMeaning | src/solver.ts:1443-1448 | the filtered entries are digits with two to `amount` cells, ascending |
| Subsets.HiddenNone | src/solver.ts:1437-1479 | for sizes 2 to 4, nothing is found exactly when no box, row or column has a hidden subset of that size whose cells hold some other candidate (or, for pairs, three or more); other sizes never find anything |
| Subsets.CheckNakedPairs | src/solver.ts:341-378 | the pair loop over the cells with two marks |
| Subsets.CheckNakedTriples | src/solver.ts:437-484 | the triple loop |
| Subsets.CheckNakedQuads | src/solver.ts:545-596 | the quad loop |
| Subsets.CheckNakedSubsets | src/solver.ts:1487-1524 | returns `NakedSubsets` of the board |
| Subsets.NakedFound | src/solver.ts:1487-1524 | a result strikes the subset's k digits from the other peers of its k cells, which have two to k marks and k digits together |
| Subsets.NakedTryMeaning | src/solver.ts:346-349 | an attempt that fires was made on a naked subset |
| Subsets.NakedNone | src/solver.ts:1487-1524 | for sizes 2 to 4, when nothing is found no box, row or column has a naked subset of that size with a peer of all its cells still holding one of its digits; on a board without repeated cells the converse holds too |
| Fish.CheckFishes | src/solver.ts:1533-1592 | returns `Fishes` of the board |
| Fish.FilteredEnums | src/solver.ts:1539-1547 | the row and column entries of line `x` with at most `fAmount` cells |
| Fish.FishSwitch | src/solver.ts:1552-1590 | columns first, then rows, for each size |
| Fish.CheckXWing | src/solver.ts:605-774 | the pair loop per digit over the base sets |
| Fish.CheckSwordFish | src/solver.ts:783-987 | the triple loop per digit |
| Fish.CheckJellyFish | src/solver.ts:996-1215 | the quad loop per digit |
| Fish.FishSearchFound | src/solver.ts:1533-1592 | a result comes from k base sets of one digit in the rows or in the columns |
| Fish.FishSearchNone | src/solver.ts:1533-1592 | for sizes 2 to 4, nothing is found exactly when no choice of that many base sets of one digit, in the columns or in the rows, makes a fish that strikes something |
| Fish.FishInNone | src/solver.ts:1552-1590 | one direction of lines finds nothing exactly when no digit has that many base sets that make a fish that strikes something |
| Fish.FishAtDigitNone | src/solver.ts:605-1215 | the loop over base sets of one digit finds nothing exactly when no ascending choice of that many base sets strikes something |
| Fish.BaseSetsMeaning | src/solver.ts:1539-1550 | a base set lists exactly a line's cells holding its digit, at most `fAmount` of them |
| Fish.FishTryMeaning | src/solver.ts:614-770 | a fish strikes its digit only outside its base cells; a finned fish reports fins from those cells and strikes only cells that see every fin |
| Fish.PlainFishMeaning | src/solver.ts:614-774 | a plain fish spans k columns (rows) and strikes only inside them |
| Fish.FinnedFishMeaning | src/solver.ts:623-676 | a finned fish strikes only cells that see all its fins |
| Fish.JellyfishColumnsNeverFire | src/solver.ts:1036-1080 | the finned Jellyfish column branch never returns a result |
| Fish.EmptyZoneNeverFires | src/solver.ts:653-675 | a finned branch with no restricted cells finds nothing |
| Rectangle.IsEmptyRectangle | src/solver.ts:131-174 | returns `EmptyRectangle` of the box and digit |
| Rectangle.NoExtraCells | src/solver.ts:148-153 | decides that every candidate cell lies in the pointer's column or row |
| RectangleShape.RectangleCovers | src/solver.ts:131-174 | a `[col, row]` result covers the box's candidates with that column and row, and both hold some |
| RectangleShape.CornersMeaning | src/solver.ts:162-167 | a `[col1, row1, col2, row2]` result comes from exactly two candidate cells in different columns and rows; `col1 < col2` and `row2 < row1` are their columns and rows; the pairs (col1, row2) and (col2, row1) that the search tries each cover both cells exactly when the cells lie on the anti-diagonal |
| Rectangle.RowBandQuirk | src/solver.ts:195-197 | a row is in its own band except rows 3 and 6 |
| Rectangle.UpdateEmptyRectangle | src/solver.ts:184-288 | returns `UpdateEr` of the board sorted by id |
| Rectangle.UpdateErMeaning | src/solver.ts:184-288 | a result strikes the digit from one cell, seen by a strong link whose other end sees the rectangle, and reports the link as fins |
| Rectangle.UpdateErNone | src/solver.ts:184-288 | nothing is found exactly when no two-cell link in a row or column, aligned with the rectangle, forbids the digit at a cell that still holds it |
| Rectangle.StrikeAtMeaning | src/solver.ts:236-254 | one cell loses the digit and nothing else changes |
| Rectangle.CheckEmptyRectangle | src/solver.ts:1668-1705 | returns `EmptyRectangles` of the board |
| Rectangle.EmptyRectanglesFound | src/solver.ts:1668-1705 | a result comes from a box and digit with a rectangle, with the box's candidate cells as source cells |
| Rectangle.RectangleAtNone | src/solver.ts:1672-1702 | a box and digit give nothing exactly when they have no rectangle or its pointer's updates strike nothing |
| Rectangle.EmptyRectanglesNone | src/solver.ts:1668-1705 | nothing is found exactly when no box, for any digit, has a rectangle whose update strikes something |
| Rectangle.EmptyRectanglesMarksOnly | src/solver.ts:1668-1705 | an empty rectangle only removes candidates |
| Wings.CheckXYwing | src/solver.ts:1712-1784 | returns `XyWing` of the board |
| Wings.XyWingFound | src/solver.ts:1712-1784 | a result has a pivot, two pincers that see it, three digits in all, and strikes `z` from empty cells other than the pivot that see both pincers |
| Wings.XyTryNone | src/solver.ts:1726-1780 | one pivot and two pincers give nothing exactly when they are not an XY-Wing (pivot outside the second to fourth, no `z`, not three digits, or, on the second bivalue cell, a smallest column not shared) or the wing strikes nothing |
| Wings.SmallestSharedSorted | src/solver.ts:1742-1744 | the column guard of the second bivalue cell passes exactly when the smallest column letter belongs to two of the three cells |
| Wings.XyPivotNone | src/solver.ts:1716-1781 | a bivalue cell gives nothing exactly when no pair of its pincers makes a wing that strikes something |
| Wings.XyWingNone | src/solver.ts:1712-1784 | nothing is found exactly when no bivalue cell pivots a wing that strikes something |
| Wings.XyPivotBlocked | src/solver.ts:1742-1748 | the first bivalue cell and the fifth onwards are never a pivot |
| Wings.OuterGuard | src/solver.ts:1742-1748 | when the guard passes, by the outer index |
| Wings.Pincers | src/solver.ts:1719-1724 | the pincers are exactly the empty peers of the pivot with two candidates |
| Wings.PincerZ | src/solver.ts:1728-1731 | `z` is a candidate of the pincer other than the pivot digit it shares |
| Wings.CheckXYZwing | src/solver.ts:1791-1863 | returns `XyzWing` of the board |
| Wings.XyzWingFound | src/solver.ts:1791-1863 | a result has a pivot with three candidates, two pincers inside it, and strikes their common digit from cells that see all three |
| Wings.XyzTryNone | src/solver.ts:1806-1858 | one pivot and two pincers give nothing exactly when a pincer has a candidate outside the pivot's, no single number is common to the three, or the wing strikes nothing |
| Wings.XyzPivotNone | src/solver.ts:1794-1860 | a cell with three candidates gives nothing exactly when no pair of its pincers makes a wing that strikes something |
| Wings.XyzWingNone | src/solver.ts:1791-1863 | nothing is found exactly when no cell with three candidates pivots a wing that strikes something |
| Wings.TriplesCounted | src/solver.ts:1824-1828 | a value repeated three times in the sorted list occurs three times |
| Wings.CheckWwing | src/solver.ts:1870-1964 | returns `WWing` of the board |
| Wings.WSearchFound | src/solver.ts:1870-1964 | a result has two bivalue cells with the same two digits and a strong link on one, and strikes the other digit from cells that see both |
| Wings.StrongLinkMeaning | src/solver.ts:1891-1928 | a strong link is a digit of the pair with exactly two cells in a row or column, off the pair's lines, aligned with them |
| Wings.WLineNone | src/solver.ts:1883-1959 | a line gives nothing exactly when it has no strong link for the pair, or the pair's other number is held by no empty cell that sees both bivalue cells |
| Wings.WPairNone | src/solver.ts:1876-1961 | two bivalue cells give nothing exactly when they do not hold the same two numbers or no line fires for them |
| Wings.WSearchNone | src/solver.ts:1870-1964 | nothing is found exactly when no pair of bivalue cells, in list order, fires |
| Steps.Cost | src/solver.ts:1977-2104 | the least points a technique's step can carry |
| Steps.StepOf | src/solver.ts:1977-2104 | a step carries the technique's specs and points, never fewer than its cost |
| Steps.OrderByCost | src/solver.ts:1977-2104 | the techniques are tried in ascending cost |
| Steps.FirstFiringMeaning | src/solver.ts:1977-2106 | the first technique that fires is taken, and all before it found nothing; none fires exactly when every technique finds nothing |
| Steps.FirstFiringCheapest | src/solver.ts:1977-2106 | the technique taken fires, and every cheaper one finds nothing |
| Solver.FirstMoveKeeps | src/solver.ts:1977-2106 | when every technique keeps the cells of a board in id order, so does the move the chain of checks picks |
| Solver.SolveKeepsCells | src/solver.ts:1972-2107 | solving keeps the 81 cells |
| Solver.SolveKeepsOrder | src/solver.ts:1972-2107 | solving a board in id order gives a board in id order |
| Solver.SolveAppends | src/solver.ts:1972-2107 | solving only appends steps, one per round, each with its type's points |
| Solver.SolveStops | src/solver.ts:1972-2107 | solving stops early only on a solved puzzle or when no move is found on the board returned |
| Solver.BigNums | src/solver.ts:1974 | the big numbers of the board, cell by cell |
| Techniques.AttemptKeeps | src/solver.ts:1977-2104 | every technique keeps the cells of a board in id order |
| Techniques.SolverKeepsCells | src/solver.ts:1977-2104 | the solver's techniques all keep the cells, and so does the move the solver picks |
| Techniques.FullHouseKeeps | src/solver.ts:1241-1262 | a full house keeps the cells and fills an empty one |
| Techniques.HiddenSinglesKeeps | src/solver.ts:1289-1316 | a hidden single keeps the cells and, when filled cells carry no marks, fills an empty one |
| Techniques.NakedSinglesKeeps | src/solver.ts:1269-1282 | a naked single keeps the cells and, when no mark is empty, fills an empty one |
| Techniques.LockedKeeps | src/solver.ts:1323-1429 | locked candidates only remove candidates, and remove at least one |
| Techniques.SubsetsKeep | src/solver.ts:1437-1524 | subsets only remove candidates, and remove at least one (hidden subsets when no cell lists a candidate twice) |
| Techniques.FishesKeep | src/solver.ts:1533-1592 | fish only remove candidates, and remove at least one |
| Techniques.XyWingKeeps | src/solver.ts:1712-1784 | an XY-Wing only removes candidates, and removes at least one |
| Techniques.XyzWingKeeps | src/solver.ts:1791-1863 | an XYZ-Wing only removes candidates, and removes at least one |
| Techniques.WWingKeeps | src/solver.ts:1870-1964 | a W-Wing only removes candidates, and removes at least one |
| Techniques.AttemptProgress | src/solver.ts:1977-2104 | on a board with tidy marks, whatever technique fires fills an empty cell or removes a mark |
| Techniques.NextMoveProgress | src/solver.ts:1977-2106 | the move `solve` makes on a board with tidy marks fills an empty cell or removes a mark, so each round changes the board |
| Reducers.FindCell | src/redux/reducers.ts:60 | finds a cell exactly when one has the id |
| Reducers.OtherCells | src/redux/reducers.ts:59 | keeps exactly the cells with another id |
| Reducers.FirstWithId | src/redux/reducers.ts:60 | `find` returns the first cell with the id |
| Reducers.LockedCellUnchanged | src/redux/reducers.ts:70-106 | an edit of a locked cell leaves the board unchanged |
| Reducers.EditFrame | src/redux/reducers.ts:69-110 | an edit of an unlocked cell returns the other cells followed by the edited one |
| Reducers.EditedFoundNext | src/redux/reducers.ts:69-110 | after an edit, the cell is found last and the other cells are as before |
| Reducers.CornerPencilToggles | src/redux/reducers.ts:69-82 | a corner mark toggles: the digit flips, other marks and fields stay |
| Reducers.CenterPencilToggles | src/redux/reducers.ts:84-97 | a centre mark toggles the same way |
| Reducers.CornerPencilTwice | src/redux/reducers.ts:69-82 | toggling a corner mark twice restores the marks and keeps the other cells |
| Reducers.CenterPencilTwice | src/redux/reducers.ts:84-97 | toggling a centre mark twice restores the marks and keeps the other cells |
| Reducers.ToggleTwice | src/redux/reducers.ts:72-80 | toggling a digit twice restores which marks there are |
| Reducers.BigNumSets | src/redux/reducers.ts:99-103 | an invalid number changes nothing; a valid one becomes the cell's big number |
| Reducers.ClearEmpties | src/redux/reducers.ts:105-110 | clearing empties the big number and both marks, keeping id and lock |
| Reducers.MissingCell | src/redux/reducers.ts:69-110 | with no cell of the id, a pencil edit throws, and a big number or clear appends a cell with only those fields |
| Reducers.KeysMerge | src/redux/reducers.ts:49-56 | each flag given is set, the others kept; other actions change nothing; repeating changes nothing |
| Reducers.GeneralFields | src/redux/reducers.ts:34-47 | each action sets its field only, repeating changes nothing, and actions on different fields commute |
| Formatter.FormatTimerFields | src/lib/formatter.ts:1-14 | hours unpadded first, then two-digit minutes and seconds below 60, adding up to the seconds given |
| Formatter.ParseFormatTimer | src/lib/formatter.ts:1-14 | reading the text back gives the seconds, so different times show differently |
| Formatter.NatString | src/lib/formatter.ts:9-11 | `toString()` gives the decimal digits of the number, without leading zeros |
| Formatter.Pad2 | src/lib/formatter.ts:9-10 | a field below 60 in two digits, `0` prefixed below 10 |

## Left out

- `updateBoard` is not part of this model. Placing a digit is a parameter `place`. The lemmas about placements assume only that it writes the digit to the target cell and keeps the ids and the other big numbers (`Singles.IsPlacement`).
- `findRestrictedCells` with a list of ids, as `solver.ts` calls it, is not part of this model. It is modelled as the cells that are peers of every id in the list (`Board.SeenByAll`). The single-id version in `utils.ts` is modelled as written.
- Solver.Solve: has a fuel bound. When the fuel runs out, it returns the board sorted by id with the steps so far. Termination of the source depends on `updateBoard`, which is not part of this model.
- Techniques.Attempt: returns nothing on a board that does not have 81 cells. The source indexes such a board out of range.
- `checkTwoStringKite` is not called by `solve` and is not modelled.
- Display-only parts of the specs are not modelled. These are the fish `set` labels and the cell `error`/`color` fields. Group labels are kept as a kind and an index, not as the text `box: 3`.
- `undefined` entries read past the end of a list are modelled as the empty string. Likewise `undefined` fields of a missing target cell are modelled as `""`, not locked, and empty marks (`Reducers.MissingCell`).
- Utils.IsValidNumber: covers the decimal numerals `Number()` reads, with white space, a `+` and a zero fraction. It rejects inputs the source accepts through other `Number()` syntax: exponents (`"1e2"`, `"5.0e0"`), hexadecimal, octal and binary literals (`"0x1"`, `"0o7"`, `"0b1"`) and fractions that round to a whole double (`"1.0000000000000001"`). It accepts numerals too large for a double (above about 1.8 × 10^308), which the source turns into `Infinity` and rejects. Reducers.BigNumSets inherits this: for those inputs the model and the source disagree on whether SET_BIG_NUM writes the cell.
- Utils.ValidNumberMeaning: states the decimal grammar above, so it is weaker than `Number()` for the exponent, radix-prefix and rounding cases listed under Utils.IsValidNumber, which need floating point.
- Formatter.FormatTimerFields: covers whole, non-negative seconds only. Fractional and negative inputs to `formatTimer` are not modelled.
- Techniques.HiddenSinglesKeeps: proves the fill only when filled cells carry no marks. `enumSets` reads the corner marks and ignores `bigNum`, so a filled cell that still lists candidates can be the target of a hidden single.
- Subsets.NakedNone: proves the "if" direction only on a board without repeated cells. The search picks distinct positions, so two equal cells cannot be chosen together; every game board has distinct ids.
- Sorting is modelled as a function returning a sorted copy. The source sorts in place, and the model records where that in-place sort is visible (the board `solve` returns).
- Redux wiring, React components, the step explainer, timers, the keyboard and mouse handlers and the puzzle loader are user-interface code outside this model.
