/** Empty rectangles. In a box, the cells that can take a digit lie in one
    column and one row (the rectangle is "empty" elsewhere). A row elsewhere
    in which the digit has exactly two cells, one of them in that column,
    then forbids the digit where the other cell's column meets the
    rectangle's row; a column with two cells, one of them in the
    rectangle's row, does the same the other way round. The search sorts
    the board into id order first (`getRowsBoxesColumns`), so it strikes on
    `SortById(b)`. */
module Rectangle {
  import opened Lists
  import opened Grid
  import opened Board
  import opened Groups
  import opened Search

  // ---------------------------------------------------------------------
  // isEmptyRectangle
  // ---------------------------------------------------------------------

  /** What `isEmptyRectangle` returns when it finds a rectangle: the column
      and row it points at, `[col, row]`, or, for a box whose two candidate
      cells share neither row nor column, `[col1, row1, col2, row2]`. */
  datatype Pointer =
    | Lines(col: string, row: string)
    | Corners(col1: string, row1: string, col2: string, row2: string)

  function HoldsFn(num: string): Cell -> bool
  {
    (c: Cell) => num in c.cornerPencil
  }

  /** `box.filter((cell) => cell.cornerPencil.includes(num))`. */
  function Holding(box: seq<Cell>, num: string): (r: seq<Cell>)
    ensures |r| <= |box|
    ensures forall c :: c in r <==> c in box && num in c.cornerPencil
  {
    Filter(box, HoldsFn(num))
  }

  /** `arr[i]`, with "" for `undefined` past the end. */
  function At(xs: seq<string>, i: nat): (r: string)
    ensures i < |xs| ==> r == xs[i]
  {
    if i < |xs| then xs[i] else ""
  }

  function OffColumnFn(col: string): Cell -> bool
  {
    (c: Cell) => ColStr(c.id) != col
  }

  function OffRowFn(row: string): Cell -> bool
  {
    (c: Cell) => RowStr(c.id) != row
  }

  /** Every cell is in column `col` or in row `row`: the loop that rejects a
      cell outside both. */
  predicate Covered(cells: seq<Cell>, col: string, row: string)
  {
    forall k :: 0 <= k < |cells| ==> ColStr(cells[k].id) == col || RowStr(cells[k].id) == row
  }

  /** `isEmptyRectangle(box, num)`: the box's cells that can take `num`,
      then the pointer they make. */
  function EmptyRectangle(box: seq<Cell>, num: string): Option<Pointer>
  {
    PointerOf(Holding(box, num))
  }

  /** The pointer the candidate cells `cells` make. `allRows` and
      `allCols` are sorted in place before the last test reads them. */
  function PointerOf(cells: seq<Cell>): Option<Pointer>
  {
    var allRows := Sort(RowsOf(Ids(cells)));
    var allCols := Sort(ColsOf(Ids(cells)));
    var dupRows := Repeats(allRows);
    var dupCols := Repeats(allCols);
    if cells == [] then None
    else if |dupCols| > 1 || |dupRows| > 1 then None
    else if dupCols == [] && dupRows == [] && |cells| > 2 then None
    else if dupCols != [] && dupRows != [] then
      if Covered(cells, dupCols[0], dupRows[0]) then Some(Lines(dupCols[0], dupRows[0])) else None
    else if dupCols != [] && Filter(cells, OffColumnFn(Ch(dupCols[0], 0))) != [] then
      Some(Lines(dupCols[0], RowStr(Filter(cells, OffColumnFn(Ch(dupCols[0], 0)))[0].id)))
    else if dupRows != [] && Filter(cells, OffRowFn(Ch(dupRows[0], 0))) != [] then
      Some(Lines(ColStr(Filter(cells, OffRowFn(Ch(dupRows[0], 0)))[0].id), dupRows[0]))
    else if |Uniq(Sort(allCols + allRows))| == 4 then
      Some(Corners(At(allCols, 0), At(allRows, 1), At(allCols, 1), At(allRows, 0)))
    else None
  }

  method IsEmptyRectangle(box: seq<Cell>, num: string) returns (r: Option<Pointer>)
    ensures r == EmptyRectangle(box, num)
  {
    var filteredCells := Holding(box, num);
    if filteredCells == [] {
      return None;
    }
    var allRows := Sort(RowsOf(Ids(filteredCells)));
    var allCols := Sort(ColsOf(Ids(filteredCells)));
    var duplicateRows := Repeats(allRows);
    var duplicateCols := Repeats(allCols);
    if |duplicateCols| > 1 || |duplicateRows| > 1 {
      return None;
    }
    if duplicateCols == [] && duplicateRows == [] && |filteredCells| > 2 {
      return None;
    }
    if duplicateCols != [] && duplicateRows != [] {
      var covered := NoExtraCells(filteredCells, duplicateCols[0], duplicateRows[0]);
      return if covered then Some(Lines(duplicateCols[0], duplicateRows[0])) else None;
    }
    if duplicateCols != [] {
      var erRow := Filter(filteredCells, OffColumnFn(Ch(duplicateCols[0], 0)));
      if erRow != [] {
        return Some(Lines(duplicateCols[0], RowStr(erRow[0].id)));
      }
    }
    if duplicateRows != [] {
      var erCol := Filter(filteredCells, OffRowFn(Ch(duplicateRows[0], 0)));
      if erCol != [] {
        return Some(Lines(ColStr(erCol[0].id), duplicateRows[0]));
      }
    }
    if |Uniq(Sort(allCols + allRows))| == 4 {
      return Some(Corners(At(allCols, 0), At(allRows, 1), At(allCols, 1), At(allRows, 0)));
    }
    return None;
  }

  /** The loop that returns `false` on a cell outside both lines. */
  method NoExtraCells(cells: seq<Cell>, col: string, row: string) returns (covered: bool)
    ensures covered == Covered(cells, col, row)
  {
    for i := 0 to |cells|
      invariant Covered(cells[..i], col, row)
    {
      var id := cells[i].id;
      if ColStr(id) != col && RowStr(id) != row {
        return false;
      }
    }
    assert cells[..|cells|] == cells;
    return true;
  }

  // ---------------------------------------------------------------------
  // updateEmptyRectangle
  // ---------------------------------------------------------------------

  /** `columns.findIndex((col) => col === erCol)`: the letter's index, or
      -1. */
  function ColumnIndex(erCol: string): (i: int)
    ensures -1 <= i < 9
    ensures i >= 0 <==> IsColumnLetter(erCol)
    ensures i >= 0 ==> erCol == [('A' as int + i) as char]
  {
    if IsColumnLetter(erCol) then erCol[0] as int - 'A' as int else -1
  }

  predicate IsColumnLetter(s: string)
  {
    |s| == 1 && 'A' <= s[0] <= 'I'
  }

  /** `notNeededCols`: the band of three columns that holds `erCol`; a
      string that is no column letter (index -1) gets the first band. */
  function ColBand(erCol: string): (r: seq<string>)
    ensures |r| == 3
    ensures IsColumnLetter(erCol) ==> erCol in r
  {
    var colIndex := ColumnIndex(erCol);
    if colIndex < 3 then ["A", "B", "C"]
    else if colIndex < 6 then ["D", "E", "F"]
    else ["G", "H", "I"]
  }

  /** `Number(erRow)` for the one-character strings (or `undefined`, here
      "") a pointer holds: a decimal digit has its value, anything else is
      `NaN`. */
  function RowNumber(erRow: string): Option<nat>
  {
    if |erRow| == 1 && '0' <= erRow[0] <= '9' then Some(erRow[0] as nat - '0' as nat) else None
  }

  /** `notNeededRows`, chosen by `Number(erRow) < 3` and `< 6`. Rows are
      numbered from 1, so rows 3 and 6 land in the band after their own:
      the band holds the row for every row digit but "3" and "6". `NaN` is
      below neither bound and gets the last band. */
  function RowBand(erRow: string): (r: seq<string>)
    ensures |r| == 3
  {
    var v := RowNumber(erRow);
    if v.Some? && v.value < 3 then ["1", "2", "3"]
    else if v.Some? && v.value < 6 then ["4", "5", "6"]
    else ["7", "8", "9"]
  }

  /** The row filter: an entry for `n` with exactly two cells, whose row is
      outside `notNeededRows`, with a cell in column `erCol`. (The source
      reads `cellIds[0][1]` before it tests the length; entries are never
      empty, so the order does not matter.) */
  predicate RowLink(e: Entry, n: string, notNeededRows: seq<string>, erCol: string)
  {
    e.num == n && |e.ids| == 2 && RowStr(e.ids[0]) !in notNeededRows &&
    (ColStr(e.ids[0]) == erCol || ColStr(e.ids[1]) == erCol)
  }

  /** The column filter, the same with rows and columns exchanged. */
  predicate ColumnLink(e: Entry, n: string, notNeededCols: seq<string>, erRow: string)
  {
    e.num == n && |e.ids| == 2 && ColStr(e.ids[0]) !in notNeededCols &&
    (RowStr(e.ids[0]) == erRow || RowStr(e.ids[1]) == erRow)
  }

  function RowLinkFn(n: string, notNeededRows: seq<string>, erCol: string): Entry -> bool
  {
    (e: Entry) => RowLink(e, n, notNeededRows, erCol)
  }

  function ColumnLinkFn(n: string, notNeededCols: seq<string>, erRow: string): Entry -> bool
  {
    (e: Entry) => ColumnLink(e, n, notNeededCols, erRow)
  }

  /** `.map(([, cellIds]) => cellIds)`. */
  function IdLists(es: seq<Entry>): (r: seq<seq<string>>)
    ensures |r| == |es| && forall k :: 0 <= k < |es| ==> r[k] == es[k].ids
  {
    seq(|es|, k requires 0 <= k < |es| => es[k].ids)
  }

  /** `filteredRowEnum` of row `i`. */
  function RowLinks(s: Board, i: nat, n: string, erCol: string, erRow: string): seq<seq<string>>
    requires |s| == 81 && i < 9
  {
    IdLists(Filter(GroupEntries(s, RowKind, i), RowLinkFn(n, RowBand(erRow), erCol)))
  }

  /** `filteredColumnEnum` of column `i`. */
  function ColumnLinks(s: Board, i: nat, n: string, erCol: string, erRow: string): seq<seq<string>>
    requires |s| == 81 && i < 9
  {
    IdLists(Filter(GroupEntries(s, ColumnKind, i), ColumnLinkFn(n, ColBand(erCol), erRow)))
  }

  function NotInColumnFn(erCol: string): string -> bool
  {
    (id: string) => ColStr(id) != erCol
  }

  function NotInRowFn(erRow: string): string -> bool
  {
    (id: string) => RowStr(id) != erRow
  }

  /** The strike of `n` from one cell, reported with the link as fins. */
  function StrikeAt(s: Board, n: string, target: string, cellIds: seq<string>): (r: Option<Found>)
  {
    Fire(s, Strike(Among([target]), [], false, [n]), Specs([target], [n], [], cellIds, false, NoLabel))
  }

  /** One row link: `fin` is its cell outside column `erCol`, and the cell
      in `fin`'s column and row `erRow` loses `n`. */
  function RowLinkStrike(s: Board, n: string, erCol: string, erRow: string, cellIds: seq<string>): Option<Found>
  {
    var fins := Filter(cellIds, NotInColumnFn(erCol));
    if fins == [] then None else StrikeAt(s, n, Ch(fins[0], 0) + erRow, cellIds)
  }

  /** One column link: `fin` is its cell outside row `erRow`, and the cell
      in column `erCol` and `fin`'s row loses `n`. */
  function ColumnLinkStrike(s: Board, n: string, erCol: string, erRow: string, cellIds: seq<string>): Option<Found>
  {
    var fins := Filter(cellIds, NotInRowFn(erRow));
    if fins == [] then None else StrikeAt(s, n, erCol + Ch(fins[0], 1), cellIds)
  }

  function RowLinkStep(s: Board, n: string, erCol: string, erRow: string): seq<string> -> Option<Found>
  {
    (cellIds: seq<string>) => RowLinkStrike(s, n, erCol, erRow, cellIds)
  }

  function ColumnLinkStep(s: Board, n: string, erCol: string, erRow: string): seq<string> -> Option<Found>
  {
    (cellIds: seq<string>) => ColumnLinkStrike(s, n, erCol, erRow, cellIds)
  }

  /** Iteration `i`: the links of row `i` first, then those of column `i`. */
  function UpdateLine(s: Board, n: string, erCol: string, erRow: string, i: nat): Option<Found>
  {
    if |s| == 81 && i < 9 then
      var inRow := FirstOf(RowLinks(s, i, n, erCol, erRow), RowLinkStep(s, n, erCol, erRow));
      if inRow.Some? then inRow
      else FirstOf(ColumnLinks(s, i, n, erCol, erRow), ColumnLinkStep(s, n, erCol, erRow))
    else None
  }

  function UpdateLines(s: Board, n: string, erCol: string, erRow: string): nat -> Option<Found>
  {
    (i: nat) => UpdateLine(s, n, erCol, erRow, i)
  }

  /** `updateEmptyRectangle(board, n, erCol, erRow)` on a board in id
      order. */
  function UpdateEr(s: Board, n: string, erCol: string, erRow: string): Option<Found>
  {
    FirstFrom(9, UpdateLines(s, n, erCol, erRow), 0)
  }

  /** `updateEmptyRectangle`. Its `enumSets` calls sort the board in place,
      so it works on `SortById(board)`. */
  method UpdateEmptyRectangle(board: Board, n: string, erCol: string, erRow: string) returns (r: Option<Found>)
    requires |board| == 81
    ensures r == UpdateEr(SortById(board), n, erCol, erRow)
  {
    var s := SortById(board);
    ghost var lines := UpdateLines(s, n, erCol, erRow);
    var notNeededCols := ColBand(erCol);
    var notNeededRows := RowBand(erRow);
    for i: nat := 0 to 9
      invariant UpdateEr(s, n, erCol, erRow) == FirstFrom(9, lines, i)
    {
      var boxEnum, rowEnum, colEnum := EnumSets(board, i);
      var filteredRowEnum := IdLists(Filter(Entries(rowEnum), RowLinkFn(n, notNeededRows, erCol)));
      var filteredColumnEnum := IdLists(Filter(Entries(colEnum), ColumnLinkFn(n, notNeededCols, erRow)));
      assert filteredRowEnum == RowLinks(s, i, n, erCol, erRow);
      assert filteredColumnEnum == ColumnLinks(s, i, n, erCol, erRow);
      r := StrikeRowLinks(s, n, erCol, erRow, filteredRowEnum);
      if r.None? {
        r := StrikeColumnLinks(s, n, erCol, erRow, filteredColumnEnum);
      }
      assert lines(i) == UpdateLine(s, n, erCol, erRow, i) == r;
      if r.Some? {
        return;
      }
    }
    return None;
  }

  /** The loop over `filteredRowEnum`. */
  method StrikeRowLinks(s: Board, n: string, erCol: string, erRow: string, links: seq<seq<string>>) returns (r: Option<Found>)
    ensures r == FirstOf(links, RowLinkStep(s, n, erCol, erRow))
  {
    ghost var f := RowLinkStep(s, n, erCol, erRow);
    for c := 0 to |links|
      invariant FirstOf(links, f) == FirstOf(links[c..], f)
    {
      var cellIds := links[c];
      var fins := Filter(cellIds, NotInColumnFn(erCol));
      assert f(cellIds) == RowLinkStrike(s, n, erCol, erRow, cellIds);
      if fins != [] {
        var restrictedCell := Ch(fins[0], 0) + erRow;
        var rule := Strike(Among([restrictedCell]), [], false, [n]);
        var newBoard := Apply(s, rule);
        if Selected(s, rule) != [] {
          r := Some(Found(newBoard, Specs([restrictedCell], [n], [], cellIds, false, NoLabel)));
          assert FirstOf(links[c..], f) == r;
          return;
        }
      }
      FirstOfStep(links, f, c);
    }
    return None;
  }

  /** The loop over `filteredColumnEnum`. */
  method StrikeColumnLinks(s: Board, n: string, erCol: string, erRow: string, links: seq<seq<string>>) returns (r: Option<Found>)
    ensures r == FirstOf(links, ColumnLinkStep(s, n, erCol, erRow))
  {
    ghost var f := ColumnLinkStep(s, n, erCol, erRow);
    for c := 0 to |links|
      invariant FirstOf(links, f) == FirstOf(links[c..], f)
    {
      var cellIds := links[c];
      var fins := Filter(cellIds, NotInRowFn(erRow));
      assert f(cellIds) == ColumnLinkStrike(s, n, erCol, erRow, cellIds);
      if fins != [] {
        var restrictedCell := erCol + Ch(fins[0], 1);
        var rule := Strike(Among([restrictedCell]), [], false, [n]);
        var newBoard := Apply(s, rule);
        if Selected(s, rule) != [] {
          r := Some(Found(newBoard, Specs([restrictedCell], [n], [], cellIds, false, NoLabel)));
          assert FirstOf(links[c..], f) == r;
          return;
        }
      }
      FirstOfStep(links, f, c);
    }
    return None;
  }

  // ---------------------------------------------------------------------
  // checkEmptyRectangle
  // ---------------------------------------------------------------------

  /** The updates a pointer asks for: `[col, row]` once; for
      `[col1, row1, col2, row2]` the pair (col1, row2), then (col2, row1). */
  function PointerUpdate(s: Board, n: string, p: Pointer): Option<Found>
  {
    match p
    case Lines(col, row) => UpdateEr(s, n, col, row)
    case Corners(col1, row1, col2, row2) =>
      var first := UpdateEr(s, n, col1, row2);
      if first.Some? then first else UpdateEr(s, n, col2, row1)
  }

  /** `{ ...result, specs: { ...result.specs, sourceCells } }`. */
  function WithSources(r: Option<Found>, sourceCells: seq<string>): Option<Found>
  {
    if r.Some? then Some(r.value.(specs := r.value.specs.(sourceCells := sourceCells))) else None
  }

  /** Box `x` and the digit `c + 1`. */
  function RectangleAt(s: Board, x: nat, c: nat): Option<Found>
  {
    if |s| == 81 && x < 9 && c < 9 then
      var box := Group(s, BoxKind, x);
      var n := DigitStr(c + 1);
      match EmptyRectangle(box, n)
      case None => None
      case Some(p) => WithSources(PointerUpdate(s, n, p), Ids(Holding(box, n)))
    else None
  }

  function RectangleStep(s: Board): (nat, nat) -> Option<Found>
  {
    (x: nat, c: nat) => RectangleAt(s, x, c)
  }

  /** `checkEmptyRectangle(board)`: boxes in order, digits 1 to 9, the
      first rectangle whose update strikes something. */
  function EmptyRectangles(b: Board): Option<Found>
  {
    GridFrom(9, 9, RectangleStep(SortById(b)), 0, 0)
  }

  method CheckEmptyRectangle(board: Board) returns (r: Option<Found>)
    requires |board| == 81
    ensures r == EmptyRectangles(board)
  {
    var rows, columns, boxes := GetRowsBoxesColumns(board);
    var s := SortById(board);
    SortByIdIdempotent(board);
    ghost var f := RectangleStep(s);
    for i := 0 to 9
      invariant GridFrom(9, 9, f, 0, 0) == GridFrom(9, 9, f, i, 0)
    {
      for n: nat := 1 to 10
        invariant GridFrom(9, 9, f, 0, 0) == GridFrom(9, 9, f, i, n - 1)
      {
        r := RectangleTry(s, i, n, boxes[i]);
        assert f(i, n - 1) == r;
        if r.Some? {
          return;
        }
      }
    }
    return None;
  }

  /** One box and digit of the search. */
  method RectangleTry(s: Board, i: nat, n: nat, box: seq<Cell>) returns (r: Option<Found>)
    requires |s| == 81 && s == SortById(s) && i < 9 && 1 <= n <= 9 && box == Group(s, BoxKind, i)
    ensures r == RectangleAt(s, i, n - 1)
  {
    var num := DigitStr(n);
    RectangleAtUnfold(s, i, n - 1);
    var emptyRectangle := IsEmptyRectangle(box, num);
    if emptyRectangle.None? {
      return None;
    }
    var sourceCells := Ids(Holding(box, num));
    match emptyRectangle.value {
      case Lines(col, row) =>
        r := UpdateEmptyRectangle(s, num, col, row);
      case Corners(erCol1, erRow1, erCol2, erRow2) =>
        r := UpdateEmptyRectangle(s, num, erCol1, erRow2);
        if r.None? {
          r := UpdateEmptyRectangle(s, num, erCol2, erRow1);
        }
    }
    assert r == PointerUpdate(s, num, emptyRectangle.value);
    r := WithSources(r, sourceCells);
  }

  lemma RectangleAtUnfold(s: Board, x: nat, c: nat)
    requires |s| == 81 && x < 9 && c < 9
    ensures var box := Group(s, BoxKind, x);
      var n := DigitStr(c + 1);
      RectangleAt(s, x, c) ==
        if EmptyRectangle(box, n).None? then None
        else WithSources(PointerUpdate(s, n, EmptyRectangle(box, n).value), Ids(Holding(box, n)))
  {
  }

  // ---------------------------------------------------------------------
  // What a strike means
  // ---------------------------------------------------------------------

  /** The quirk of `Number(erRow) < 3`: the band chosen for a row digit
      holds that row except for rows 3 and 6. */
  lemma RowBandQuirk(d: nat)
    requires 1 <= d <= 9
    ensures DigitStr(d) in RowBand(DigitStr(d)) <==> d != 3 && d != 6
  {
    var r := DigitStr(d);
    assert RowNumber(r) == Some(d);
    if d == 3 {
      assert r != "4" && r != "5" && r != "6";
    } else if d == 6 {
      assert r != "7" && r != "8" && r != "9";
    } else if d < 3 {
      assert r == ["1", "2", "3"][d - 1];
    } else if d < 6 {
      assert r == ["4", "5", "6"][d - 4];
    } else {
      assert r == ["7", "8", "9"][d - 7];
    }
  }

  /** The new board loses `n` from the cell `target` and nothing else. */
  ghost predicate StrikesOnly(s: Board, r: Board, target: string, n: string)
  {
    OnlyMarksShrink(s, r) && RemovesSome(s, r) &&
    forall i :: 0 <= i < |s| ==>
      (r[i] != s[i] ==> s[i].id == target) &&
      forall m :: m in s[i].cornerPencil && m !in r[i].cornerPencil ==> m == n
  }

  lemma StrikeAtMeaning(s: Board, n: string, target: string, cellIds: seq<string>)
    ensures var f := StrikeAt(s, n, target, cellIds);
      f.Some? ==>
        StrikesOnly(s, f.value.board, target, n) &&
        f.value.specs == Specs([target], [n], [], cellIds, false, NoLabel)
  {
    FireStrike(s, Among([target]), [], false, [n], Specs([target], [n], [], cellIds, false, NoLabel));
  }

  /** Row `i` has `n` in exactly the two cells of `link`, whose row lies
      outside the band `RowBand(erRow)` and one of which is in column
      `erCol`; the struck cell is in the other one's column and in row
      `erRow`. */
  ghost predicate RowLinkFacts(s: Board, i: nat, n: string, erCol: string, erRow: string, link: seq<string>, target: string)
  {
    |s| == 81 && i < 9 && IsDigitStr(n) &&
    link == CellsWith(Group(s, RowKind, i), n) && |link| == 2 &&
    RowStr(link[0]) !in RowBand(erRow) && (ColStr(link[0]) == erCol || ColStr(link[1]) == erCol) &&
    exists fin :: fin in link && ColStr(fin) != erCol && target == Ch(fin, 0) + erRow
  }

  /** The same for column `i`, with rows and columns exchanged. */
  ghost predicate ColumnLinkFacts(s: Board, i: nat, n: string, erCol: string, erRow: string, link: seq<string>, target: string)
  {
    |s| == 81 && i < 9 && IsDigitStr(n) &&
    link == CellsWith(Group(s, ColumnKind, i), n) && |link| == 2 &&
    ColStr(link[0]) !in ColBand(erCol) && (RowStr(link[0]) == erRow || RowStr(link[1]) == erRow) &&
    exists fin :: fin in link && RowStr(fin) != erRow && target == erCol + Ch(fin, 1)
  }

  /** A result of `updateEmptyRectangle`: one cell loses `n`, reported as
      the affected cell, with the link that forbids it as fins. */
  ghost predicate ErStrike(s: Board, n: string, erCol: string, erRow: string, f: Found)
  {
    exists i: nat, link: seq<string>, target: string ::
      (RowLinkFacts(s, i, n, erCol, erRow, link, target) || ColumnLinkFacts(s, i, n, erCol, erRow, link, target)) &&
      Selected(s, Strike(Among([target]), [], false, [n])) != [] && StrikesOnly(s, f.board, target, n) &&
      f.specs.affectedCells == [target] && f.specs.affectedNumbers == [n] && f.specs.fins == link
  }

  lemma RowLinkMeaning(s: Board, i: nat, n: string, erCol: string, erRow: string, link: seq<string>)
    requires |s| == 81 && i < 9 && link in RowLinks(s, i, n, erCol, erRow)
    requires RowLinkStrike(s, n, erCol, erRow, link).Some?
    ensures ErStrike(s, n, erCol, erRow, RowLinkStrike(s, n, erCol, erRow, link).value)
  {
    var es := Filter(GroupEntries(s, RowKind, i), RowLinkFn(n, RowBand(erRow), erCol));
    var k :| 0 <= k < |es| && es[k].ids == link;
    var e := es[k];
    assert e in GroupEntries(s, RowKind, i) && RowLink(e, n, RowBand(erRow), erCol);
    EntryIff(Group(s, RowKind, i), e);
    var fins := Filter(link, NotInColumnFn(erCol));
    var target := Ch(fins[0], 0) + erRow;
    StrikeAtMeaning(s, n, target, link);
    assert fins[0] in fins;
    assert RowLinkFacts(s, i, n, erCol, erRow, link, target);
  }

  lemma ColumnLinkMeaning(s: Board, i: nat, n: string, erCol: string, erRow: string, link: seq<string>)
    requires |s| == 81 && i < 9 && link in ColumnLinks(s, i, n, erCol, erRow)
    requires ColumnLinkStrike(s, n, erCol, erRow, link).Some?
    ensures ErStrike(s, n, erCol, erRow, ColumnLinkStrike(s, n, erCol, erRow, link).value)
  {
    var es := Filter(GroupEntries(s, ColumnKind, i), ColumnLinkFn(n, ColBand(erCol), erRow));
    var k :| 0 <= k < |es| && es[k].ids == link;
    var e := es[k];
    assert e in GroupEntries(s, ColumnKind, i) && ColumnLink(e, n, ColBand(erCol), erRow);
    EntryIff(Group(s, ColumnKind, i), e);
    var fins := Filter(link, NotInRowFn(erRow));
    var target := erCol + Ch(fins[0], 1);
    StrikeAtMeaning(s, n, target, link);
    assert fins[0] in fins;
    assert ColumnLinkFacts(s, i, n, erCol, erRow, link, target);
  }

  /** Whatever `updateEmptyRectangle` returns strikes `n` from a single
      cell: the meeting point of the rectangle's row (column) with the
      column (row) of the far end of a two-cell link of `n`. */
  lemma UpdateErMeaning(s: Board, n: string, erCol: string, erRow: string)
    requires |s| == 81
    ensures UpdateEr(s, n, erCol, erRow).Some? ==> ErStrike(s, n, erCol, erRow, UpdateEr(s, n, erCol, erRow).value)
  {
    var lines := UpdateLines(s, n, erCol, erRow);
    FirstFromSome(9, lines, 0);
    if UpdateEr(s, n, erCol, erRow).Some? {
      var i: nat :| 0 <= i < 9 && lines(i) == UpdateEr(s, n, erCol, erRow);
      UpdateLineMeaning(s, n, erCol, erRow, i);
    }
  }

  lemma UpdateLineMeaning(s: Board, n: string, erCol: string, erRow: string, i: nat)
    requires |s| == 81 && i < 9 && UpdateLine(s, n, erCol, erRow, i).Some?
    ensures ErStrike(s, n, erCol, erRow, UpdateLine(s, n, erCol, erRow, i).value)
  {
    var rowLinks := RowLinks(s, i, n, erCol, erRow);
    var inRow := FirstOf(rowLinks, RowLinkStep(s, n, erCol, erRow));
    if inRow.Some? {
      FirstOfSome(rowLinks, RowLinkStep(s, n, erCol, erRow));
      var k :| 0 <= k < |rowLinks| && RowLinkStep(s, n, erCol, erRow)(rowLinks[k]) == inRow;
      RowLinkMeaning(s, i, n, erCol, erRow, rowLinks[k]);
    } else {
      var colLinks := ColumnLinks(s, i, n, erCol, erRow);
      var inCol := FirstOf(colLinks, ColumnLinkStep(s, n, erCol, erRow));
      FirstOfSome(colLinks, ColumnLinkStep(s, n, erCol, erRow));
      var k :| 0 <= k < |colLinks| && ColumnLinkStep(s, n, erCol, erRow)(colLinks[k]) == inCol;
      ColumnLinkMeaning(s, i, n, erCol, erRow, colLinks[k]);
    }
  }

  /** The strike a pointer's update performed: for `[col, row]` at that
      pair, for `[col1, row1, col2, row2]` at (col1, row2) or (col2, row1). */
  ghost predicate PointerStrikes(s: Board, n: string, p: Pointer, f: Found)
  {
    match p
    case Lines(col, row) => ErStrike(s, n, col, row, f)
    case Corners(col1, row1, col2, row2) => ErStrike(s, n, col1, row2, f) || ErStrike(s, n, col2, row1, f)
  }

  /** Box `x` has a rectangle for digit `d`, the result reports the box's
      candidate cells for `d` as source cells, and its strike is one the
      rectangle's update makes. */
  ghost predicate RectangleFound(s: Board, x: nat, d: nat, f: Found)
  {
    |s| == 81 && x < 9 && 1 <= d <= 9 &&
    var box := Group(s, BoxKind, x);
    var n := DigitStr(d);
    EmptyRectangle(box, n).Some? &&
    f.specs.sourceCells == Ids(Holding(box, n)) &&
    PointerStrikes(s, n, EmptyRectangle(box, n).value, f)
  }

  lemma ErStrikeSources(s: Board, n: string, erCol: string, erRow: string, f: Found, sourceCells: seq<string>)
    requires ErStrike(s, n, erCol, erRow, f)
    ensures ErStrike(s, n, erCol, erRow, f.(specs := f.specs.(sourceCells := sourceCells)))
  {
    var i: nat, link, target :|
      (RowLinkFacts(s, i, n, erCol, erRow, link, target) || ColumnLinkFacts(s, i, n, erCol, erRow, link, target)) &&
      Selected(s, Strike(Among([target]), [], false, [n])) != [] && StrikesOnly(s, f.board, target, n) &&
      f.specs.affectedCells == [target] && f.specs.affectedNumbers == [n] && f.specs.fins == link;
  }

  lemma RectangleAtMeaning(s: Board, x: nat, c: nat)
    requires RectangleAt(s, x, c).Some?
    ensures RectangleFound(s, x, c + 1, RectangleAt(s, x, c).value)
  {
    var box := Group(s, BoxKind, x);
    var n := DigitStr(c + 1);
    var p := EmptyRectangle(box, n).value;
    var sources := Ids(Holding(box, n));
    match p {
      case Lines(col, row) =>
        UpdateErMeaning(s, n, col, row);
        ErStrikeSources(s, n, col, row, UpdateEr(s, n, col, row).value, sources);
      case Corners(col1, row1, col2, row2) =>
        var first := UpdateEr(s, n, col1, row2);
        if first.Some? {
          UpdateErMeaning(s, n, col1, row2);
          ErStrikeSources(s, n, col1, row2, first.value, sources);
        } else {
          UpdateErMeaning(s, n, col2, row1);
          ErStrikeSources(s, n, col2, row1, UpdateEr(s, n, col2, row1).value, sources);
        }
    }
  }

  /** What `checkEmptyRectangle` returns comes from a rectangle in some box
      for some digit, and strikes that digit from one cell as the
      rectangle's update does. */
  lemma EmptyRectanglesFound(b: Board)
    requires |b| == 81
    ensures EmptyRectangles(b).Some? ==>
      exists x: nat, d: nat :: RectangleFound(SortById(b), x, d, EmptyRectangles(b).value)
  {
    var s := SortById(b);
    var f := RectangleStep(s);
    GridFromSome(9, 9, f, 0, 0);
    if EmptyRectangles(b).Some? {
      var x: nat, c: nat :| x < 9 && c < 9 && f(x, c) == EmptyRectangles(b);
      RectangleAtMeaning(s, x, c);
    }
  }

  /** The strike of a pointer only removes candidates, and removes one. */
  lemma PointerMarksOnly(s: Board, n: string, p: Pointer, f: Found)
    requires PointerStrikes(s, n, p, f)
    ensures OnlyMarksShrink(s, f.board) && RemovesSome(s, f.board)
  {
    var col, row :| ErStrike(s, n, col, row, f);
  }

  /** An empty rectangle only strikes candidates, and strikes at least one. */
  lemma EmptyRectanglesMarksOnly(b: Board)
    requires |b| == 81
    ensures EmptyRectangles(b).Some? ==> OnlyMarksShrink(SortById(b), EmptyRectangles(b).value.board)
    ensures EmptyRectangles(b).Some? ==> RemovesSome(SortById(b), EmptyRectangles(b).value.board)
  {
    EmptyRectanglesFound(b);
    if EmptyRectangles(b).Some? {
      var s := SortById(b);
      var f := EmptyRectangles(b).value;
      var x: nat, d: nat :| RectangleFound(s, x, d, f);
      PointerMarksOnly(s, DigitStr(d), EmptyRectangle(Group(s, BoxKind, x), DigitStr(d)).value, f);
    }
  }

  // ---------------------------------------------------------------------
  // When the search finds nothing
  // ---------------------------------------------------------------------

  /** Some two-cell link of `n` forbids `n` at a cell that still holds it:
      what `updateEmptyRectangle(board, n, erCol, erRow)` looks for. */
  ghost predicate ErFires(s: Board, n: string, erCol: string, erRow: string)
  {
    exists i: nat, link: seq<string>, target: string ::
      (RowLinkFacts(s, i, n, erCol, erRow, link, target) || ColumnLinkFacts(s, i, n, erCol, erRow, link, target)) &&
      Selected(s, Strike(Among([target]), [], false, [n])) != []
  }

  /** Of a two-cell link with one cell failing `p`, the filter keeps just
      the other cell. */
  lemma OnlyOther(link: seq<string>, p: string -> bool, fin: string)
    requires |link| == 2 && (!p(link[0]) || !p(link[1])) && fin in link && p(fin)
    ensures Filter(link, p) == [fin]
  {
    assert link == [link[0]] + [link[1]];
    assert link[1..] == [link[1]];
    assert link[2..] == [];
  }

  /** A row link that forbids `n` at a cell holding it makes its row's
      iteration strike. */
  lemma RowLinkHit(s: Board, i: nat, n: string, erCol: string, erRow: string, link: seq<string>, target: string)
    requires RowLinkFacts(s, i, n, erCol, erRow, link, target)
    requires Selected(s, Strike(Among([target]), [], false, [n])) != []
    ensures UpdateLine(s, n, erCol, erRow, i).Some?
  {
    var links := RowLinks(s, i, n, erCol, erRow);
    RowLinkListed(s, i, n, erCol, erRow, link, target);
    var k :| 0 <= k < |links| && links[k] == link;
    var fin :| fin in link && ColStr(fin) != erCol && target == Ch(fin, 0) + erRow;
    RowLinkStrikes(s, n, erCol, erRow, link, fin);
    RowLinksFire(s, i, n, erCol, erRow, k);
  }

  lemma RowLinkListed(s: Board, i: nat, n: string, erCol: string, erRow: string, link: seq<string>, target: string)
    requires RowLinkFacts(s, i, n, erCol, erRow, link, target)
    ensures link in RowLinks(s, i, n, erCol, erRow)
  {
    var e := Entry(n, link);
    EntryIff(Group(s, RowKind, i), e);
    assert RowLinkFn(n, RowBand(erRow), erCol)(e);
    var es := Filter(GroupEntries(s, RowKind, i), RowLinkFn(n, RowBand(erRow), erCol));
    assert e in es;
    var k :| 0 <= k < |es| && es[k] == e;
    assert RowLinks(s, i, n, erCol, erRow)[k] == link;
  }

  lemma RowLinksFire(s: Board, i: nat, n: string, erCol: string, erRow: string, k: nat)
    requires |s| == 81 && i < 9 && k < |RowLinks(s, i, n, erCol, erRow)|
    requires RowLinkStrike(s, n, erCol, erRow, RowLinks(s, i, n, erCol, erRow)[k]).Some?
    ensures UpdateLine(s, n, erCol, erRow, i).Some?
  {
    assert RowLinkStep(s, n, erCol, erRow)(RowLinks(s, i, n, erCol, erRow)[k]).Some?;
  }

  lemma RowLinkStrikes(s: Board, n: string, erCol: string, erRow: string, link: seq<string>, fin: string)
    requires |link| == 2 && (ColStr(link[0]) == erCol || ColStr(link[1]) == erCol)
    requires fin in link && ColStr(fin) != erCol
    requires Selected(s, Strike(Among([Ch(fin, 0) + erRow]), [], false, [n])) != []
    ensures RowLinkStrike(s, n, erCol, erRow, link).Some?
  {
    OnlyOther(link, NotInColumnFn(erCol), fin);
  }

  /** The same for a column link. */
  lemma ColumnLinkHit(s: Board, i: nat, n: string, erCol: string, erRow: string, link: seq<string>, target: string)
    requires ColumnLinkFacts(s, i, n, erCol, erRow, link, target)
    requires Selected(s, Strike(Among([target]), [], false, [n])) != []
    ensures UpdateLine(s, n, erCol, erRow, i).Some?
  {
    var links := ColumnLinks(s, i, n, erCol, erRow);
    ColumnLinkListed(s, i, n, erCol, erRow, link, target);
    var k :| 0 <= k < |links| && links[k] == link;
    var fin :| fin in link && RowStr(fin) != erRow && target == erCol + Ch(fin, 1);
    ColumnLinkStrikes(s, n, erCol, erRow, link, fin);
    ColumnLinksFire(s, i, n, erCol, erRow, k);
  }

  lemma ColumnLinkListed(s: Board, i: nat, n: string, erCol: string, erRow: string, link: seq<string>, target: string)
    requires ColumnLinkFacts(s, i, n, erCol, erRow, link, target)
    ensures link in ColumnLinks(s, i, n, erCol, erRow)
  {
    var e := Entry(n, link);
    EntryIff(Group(s, ColumnKind, i), e);
    assert ColumnLinkFn(n, ColBand(erCol), erRow)(e);
    var es := Filter(GroupEntries(s, ColumnKind, i), ColumnLinkFn(n, ColBand(erCol), erRow));
    assert e in es;
    var k :| 0 <= k < |es| && es[k] == e;
    assert ColumnLinks(s, i, n, erCol, erRow)[k] == link;
  }

  lemma ColumnLinksFire(s: Board, i: nat, n: string, erCol: string, erRow: string, k: nat)
    requires |s| == 81 && i < 9 && k < |ColumnLinks(s, i, n, erCol, erRow)|
    requires ColumnLinkStrike(s, n, erCol, erRow, ColumnLinks(s, i, n, erCol, erRow)[k]).Some?
    ensures UpdateLine(s, n, erCol, erRow, i).Some?
  {
    assert ColumnLinkStep(s, n, erCol, erRow)(ColumnLinks(s, i, n, erCol, erRow)[k]).Some?;
    if FirstOf(RowLinks(s, i, n, erCol, erRow), RowLinkStep(s, n, erCol, erRow)).None? {
      assert UpdateLine(s, n, erCol, erRow, i) == FirstOf(ColumnLinks(s, i, n, erCol, erRow), ColumnLinkStep(s, n, erCol, erRow));
    }
  }

  lemma ColumnLinkStrikes(s: Board, n: string, erCol: string, erRow: string, link: seq<string>, fin: string)
    requires |link| == 2 && (RowStr(link[0]) == erRow || RowStr(link[1]) == erRow)
    requires fin in link && RowStr(fin) != erRow
    requires Selected(s, Strike(Among([erCol + Ch(fin, 1)]), [], false, [n])) != []
    ensures ColumnLinkStrike(s, n, erCol, erRow, link).Some?
  {
    OnlyOther(link, NotInRowFn(erRow), fin);
  }

  /** `updateEmptyRectangle` finds nothing iff no two-cell link forbids `n`
      at a cell that still holds it. */
  lemma UpdateErNone(s: Board, n: string, erCol: string, erRow: string)
    requires |s| == 81
    ensures UpdateEr(s, n, erCol, erRow).None? <==> !ErFires(s, n, erCol, erRow)
  {
    if ErFires(s, n, erCol, erRow) {
      UpdateErHit(s, n, erCol, erRow);
    }
    if UpdateEr(s, n, erCol, erRow).Some? {
      UpdateErMeaning(s, n, erCol, erRow);
      ErStrikeFires(s, n, erCol, erRow, UpdateEr(s, n, erCol, erRow).value);
    }
  }

  lemma UpdateErHit(s: Board, n: string, erCol: string, erRow: string)
    requires |s| == 81 && ErFires(s, n, erCol, erRow)
    ensures UpdateEr(s, n, erCol, erRow).Some?
  {
    var i := ErFiresLine(s, n, erCol, erRow);
    LineFires(s, n, erCol, erRow, i);
  }

  lemma LineFires(s: Board, n: string, erCol: string, erRow: string, i: nat)
    requires i < 9 && UpdateLine(s, n, erCol, erRow, i).Some?
    ensures UpdateEr(s, n, erCol, erRow).Some?
  {
    FirstFromNone(9, UpdateLines(s, n, erCol, erRow), 0);
    assert UpdateLines(s, n, erCol, erRow)(i).Some?;
  }

  /** The iteration whose row or column holds the link. */
  lemma ErFiresLine(s: Board, n: string, erCol: string, erRow: string) returns (i: nat)
    requires ErFires(s, n, erCol, erRow)
    ensures i < 9 && UpdateLine(s, n, erCol, erRow, i).Some?
  {
    var link: seq<string>, target: string;
    i, link, target :|
      (RowLinkFacts(s, i, n, erCol, erRow, link, target) || ColumnLinkFacts(s, i, n, erCol, erRow, link, target)) &&
      Selected(s, Strike(Among([target]), [], false, [n])) != [];
    if RowLinkFacts(s, i, n, erCol, erRow, link, target) {
      RowLinkHit(s, i, n, erCol, erRow, link, target);
    } else {
      ColumnLinkHit(s, i, n, erCol, erRow, link, target);
    }
  }

  lemma ErStrikeFires(s: Board, n: string, erCol: string, erRow: string, f: Found)
    requires ErStrike(s, n, erCol, erRow, f)
    ensures ErFires(s, n, erCol, erRow)
  {
    var i: nat, link: seq<string>, target: string :|
      (RowLinkFacts(s, i, n, erCol, erRow, link, target) || ColumnLinkFacts(s, i, n, erCol, erRow, link, target)) &&
      Selected(s, Strike(Among([target]), [], false, [n])) != [] && StrikesOnly(s, f.board, target, n) &&
      f.specs.affectedCells == [target] && f.specs.affectedNumbers == [n] && f.specs.fins == link;
  }

  /** A pointer's update would strike: at its pair, or at one of its two
      crossings. */
  ghost predicate PointerFires(s: Board, n: string, p: Pointer)
  {
    match p
    case Lines(col, row) => ErFires(s, n, col, row)
    case Corners(col1, row1, col2, row2) => ErFires(s, n, col1, row2) || ErFires(s, n, col2, row1)
  }

  /** Box `x` has a rectangle for the digit `c + 1` whose update would
      strike. */
  ghost predicate RectangleFires(s: Board, x: nat, c: nat)
  {
    |s| == 81 && x < 9 && c < 9 &&
    var box := Group(s, BoxKind, x);
    var n := DigitStr(c + 1);
    EmptyRectangle(box, n).Some? && PointerFires(s, n, EmptyRectangle(box, n).value)
  }

  lemma RectangleAtNone(s: Board, x: nat, c: nat)
    ensures RectangleAt(s, x, c).None? <==> !RectangleFires(s, x, c)
  {
    if |s| == 81 && x < 9 && c < 9 {
      var box := Group(s, BoxKind, x);
      var n := DigitStr(c + 1);
      if EmptyRectangle(box, n).Some? {
        match EmptyRectangle(box, n).value {
          case Lines(col, row) =>
            UpdateErNone(s, n, col, row);
          case Corners(col1, row1, col2, row2) =>
            UpdateErNone(s, n, col1, row2);
            UpdateErNone(s, n, col2, row1);
        }
      }
    }
  }

  /** `checkEmptyRectangle` finds nothing iff no box has, for any digit, a
      rectangle whose update would strike. */
  lemma EmptyRectanglesNone(b: Board)
    ensures EmptyRectangles(b).None? <==>
      forall x: nat, c: nat :: x < 9 && c < 9 ==> !RectangleFires(SortById(b), x, c)
  {
    if EmptyRectangles(b).None? {
      RectanglesMiss(b);
    } else {
      RectanglesHit(b);
    }
  }

  lemma RectanglesMiss(b: Board)
    requires EmptyRectangles(b).None?
    ensures forall x: nat, c: nat :: x < 9 && c < 9 ==> !RectangleFires(SortById(b), x, c)
  {
    var s := SortById(b);
    GridNone(9, 9, RectangleStep(s));
    forall x: nat, c: nat | x < 9 && c < 9 ensures !RectangleFires(s, x, c) {
      assert RectangleStep(s)(x, c) == None;
      RectangleStepNone(s, x, c);
    }
  }

  lemma RectanglesHit(b: Board)
    requires EmptyRectangles(b).Some?
    ensures !forall x: nat, c: nat :: x < 9 && c < 9 ==> !RectangleFires(SortById(b), x, c)
  {
    var s := SortById(b);
    GridNone(9, 9, RectangleStep(s));
    var x: nat, c: nat :| x < 9 && c < 9 && RectangleStep(s)(x, c) != None;
    RectangleStepNone(s, x, c);
  }

  lemma RectangleStepNone(s: Board, x: nat, c: nat)
    ensures RectangleStep(s)(x, c).None? <==> !RectangleFires(s, x, c)
  {
    RectangleAtNone(s, x, c);
  }
}
