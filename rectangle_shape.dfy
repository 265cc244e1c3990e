/** What an empty-rectangle pointer means on a board in id order: the
    candidate cells of the box lie in the pointer's column and row. */
module RectangleShape {
  import opened Lists
  import opened Grid
  import opened Board
  import opened Groups
  import opened Rectangle

  /** On a board in id order, the cells of box `x` have a column letter of
      its column band and a row digit of its row band. */
  lemma BoxCellBands(s: Board, x: nat, c: Cell)
    requires WellFormed(s) && x < 9 && c in Group(s, BoxKind, x)
    ensures IsId(c.id)
    ensures (x / 3) * 3 <= c.id[0] as int - 'A' as int < (x / 3) * 3 + 3
    ensures (x % 3) * 3 <= c.id[1] as int - '1' as int < (x % 3) * 3 + 3
  {
    var g := Group(s, BoxKind, x);
    var k :| 0 <= k < 9 && g[k] == c;
    var p := Slot(BoxKind, x, k);
    IdOfIsId(p);
    BoxOfParts(p);
  }

  /** Four different characters do not fit in a band of three. */
  lemma NoFourInBand(c1: char, c2: char, c3: char, c4: char, lo: int)
    requires lo <= c1 as int < lo + 3 && lo <= c2 as int < lo + 3
    requires lo <= c3 as int < lo + 3 && lo <= c4 as int < lo + 3
    ensures c1 == c2 || c1 == c3 || c1 == c4 || c2 == c3 || c2 == c4 || c3 == c4
  {
  }

  /** The `k`-th entry of `RowsOf(Ids(cells))` is the row character. */
  lemma RowEntry(cells: seq<Cell>, k: nat)
    requires k < |cells| && |cells[k].id| >= 2
    ensures RowsOf(Ids(cells))[k] == [cells[k].id[1]]
  {
  }

  lemma ColumnEntry(cells: seq<Cell>, k: nat)
    requires k < |cells| && |cells[k].id| >= 2
    ensures ColsOf(Ids(cells))[k] == [cells[k].id[0]]
  {
  }

  /** Four cells of one box do not lie in four different rows. */
  lemma NoFourRows(s: Board, x: nat, cells: seq<Cell>, a: nat, b: nat, c: nat, d: nat)
    requires WellFormed(s) && x < 9
    requires a < |cells| && b < |cells| && c < |cells| && d < |cells|
    requires cells[a] in Group(s, BoxKind, x) && cells[b] in Group(s, BoxKind, x)
    requires cells[c] in Group(s, BoxKind, x) && cells[d] in Group(s, BoxKind, x)
    ensures a != b && a != c && a != d && b != c && b != d && c != d ==> !NoDup(RowsOf(Ids(cells)))
  {
    BoxCellBands(s, x, cells[a]);
    BoxCellBands(s, x, cells[b]);
    BoxCellBands(s, x, cells[c]);
    BoxCellBands(s, x, cells[d]);
    RowEntry(cells, a);
    RowEntry(cells, b);
    RowEntry(cells, c);
    RowEntry(cells, d);
    NoFourInBand(cells[a].id[1], cells[b].id[1], cells[c].id[1], cells[d].id[1], (x % 3) * 3 + '1' as int);
  }

  /** Four cells of one box do not lie in four different columns. */
  lemma NoFourColumns(s: Board, x: nat, cells: seq<Cell>, a: nat, b: nat, c: nat, d: nat)
    requires WellFormed(s) && x < 9
    requires a < |cells| && b < |cells| && c < |cells| && d < |cells|
    requires cells[a] in Group(s, BoxKind, x) && cells[b] in Group(s, BoxKind, x)
    requires cells[c] in Group(s, BoxKind, x) && cells[d] in Group(s, BoxKind, x)
    ensures a != b && a != c && a != d && b != c && b != d && c != d ==> !NoDup(ColsOf(Ids(cells)))
  {
    BoxCellBands(s, x, cells[a]);
    BoxCellBands(s, x, cells[b]);
    BoxCellBands(s, x, cells[c]);
    BoxCellBands(s, x, cells[d]);
    ColumnEntry(cells, a);
    ColumnEntry(cells, b);
    ColumnEntry(cells, c);
    ColumnEntry(cells, d);
    NoFourInBand(cells[a].id[0], cells[b].id[0], cells[c].id[0], cells[d].id[0], (x / 3) * 3 + 'A' as int);
  }

  /** The pointer's column and row each hold a candidate cell, and every
      candidate cell of the box lies in that column or that row. */
  ghost predicate PointsAt(cells: seq<Cell>, col: string, row: string)
  {
    cells != [] && Covered(cells, col, row) &&
    (exists k :: 0 <= k < |cells| && ColStr(cells[k].id) == col) &&
    (exists k :: 0 <= k < |cells| && RowStr(cells[k].id) == row)
  }

  /** On a board in id order, a `[col, row]` rectangle is what its name
      says: the box's candidates for the digit all lie in column `col` or
      row `row`, and both lines hold some of them. */
  lemma RectangleCovers(s: Board, x: nat, n: string)
    requires WellFormed(s) && x < 9
    ensures var box := Group(s, BoxKind, x);
      EmptyRectangle(box, n).Some? && EmptyRectangle(box, n).value.Lines? ==>
        PointsAt(Holding(box, n), EmptyRectangle(box, n).value.col, EmptyRectangle(box, n).value.row)
  {
    var box := Group(s, BoxKind, x);
    var cells := Holding(box, n);
    var cols := ColsOf(Ids(cells));
    var rows := RowsOf(Ids(cells));
    var dupRows := Repeats(Sort(rows));
    var dupCols := Repeats(Sort(cols));
    var r := EmptyRectangle(box, n);
    if r.Some? && r.value.Lines? {
      var col, row := r.value.col, r.value.row;
      assert forall k :: 0 <= k < |cells| ==> cells[k] in box;
      if dupCols != [] && dupRows != [] {
        var i, _ := RepeatedTwice(cols, dupCols[0]);
        var j, _ := RepeatedTwice(rows, dupRows[0]);
        assert ColStr(cells[i].id) == col && RowStr(cells[j].id) == row;
      } else if dupCols != [] && Filter(cells, OffColumnFn(Ch(dupCols[0], 0))) != [] {
        ColumnRectangleCovers(s, x, cells, dupCols[0]);
      } else {
        RowRectangleCovers(s, x, cells, dupRows[0]);
      }
    }
  }

  /** Two cells in column `col` and cells in pairwise different rows: every
      cell lies in `col` or in the row of a cell outside `col`. */
  lemma ColumnAndRow(s: Board, x: nat, cells: seq<Cell>, i: nat, j: nat, o: nat)
    requires WellFormed(s) && x < 9 && forall k :: 0 <= k < |cells| ==> cells[k] in Group(s, BoxKind, x)
    requires i < j < |cells| && o < |cells| && ColStr(cells[i].id) == ColStr(cells[j].id)
    requires ColStr(cells[o].id) != ColStr(cells[i].id) && NoDup(RowsOf(Ids(cells)))
    ensures Covered(cells, ColStr(cells[i].id), RowStr(cells[o].id))
  {
    forall k | 0 <= k < |cells|
      ensures ColStr(cells[k].id) == ColStr(cells[i].id) || RowStr(cells[k].id) == RowStr(cells[o].id)
    {
      if ColStr(cells[k].id) != ColStr(cells[i].id) && RowStr(cells[k].id) != RowStr(cells[o].id) {
        NoFourRows(s, x, cells, i, j, o, k);
      }
    }
  }

  /** Two cells in row `row` and cells in pairwise different columns: every
      cell lies in `row` or in the column of a cell outside `row`. */
  lemma RowAndColumn(s: Board, x: nat, cells: seq<Cell>, i: nat, j: nat, o: nat)
    requires WellFormed(s) && x < 9 && forall k :: 0 <= k < |cells| ==> cells[k] in Group(s, BoxKind, x)
    requires i < j < |cells| && o < |cells| && RowStr(cells[i].id) == RowStr(cells[j].id)
    requires RowStr(cells[o].id) != RowStr(cells[i].id) && NoDup(ColsOf(Ids(cells)))
    ensures Covered(cells, ColStr(cells[o].id), RowStr(cells[i].id))
  {
    forall k | 0 <= k < |cells|
      ensures ColStr(cells[k].id) == ColStr(cells[o].id) || RowStr(cells[k].id) == RowStr(cells[i].id)
    {
      if ColStr(cells[k].id) != ColStr(cells[o].id) && RowStr(cells[k].id) != RowStr(cells[i].id) {
        NoFourColumns(s, x, cells, i, j, o, k);
      }
    }
  }

  /** A column that repeats among candidates in pairwise different rows. */
  lemma ColumnRectangleCovers(s: Board, x: nat, cells: seq<Cell>, col: string)
    requires WellFormed(s) && x < 9 && forall k :: 0 <= k < |cells| ==> cells[k] in Group(s, BoxKind, x)
    requires col in Repeats(Sort(ColsOf(Ids(cells)))) && Repeats(Sort(RowsOf(Ids(cells)))) == []
    requires Filter(cells, OffColumnFn(col)) != []
    ensures Ch(col, 0) == col
    ensures PointsAt(cells, col, RowStr(Filter(cells, OffColumnFn(col))[0].id))
  {
    var i, j := RepeatedTwice(ColsOf(Ids(cells)), col);
    BoxCellBands(s, x, cells[i]);
    var off := Filter(cells, OffColumnFn(col));
    assert off[0] in off;
    var o :| 0 <= o < |cells| && cells[o] == off[0];
    NoRepeatsDistinct(RowsOf(Ids(cells)));
    ColumnAndRow(s, x, cells, i, j, o);
  }

  /** A row that repeats among candidates in pairwise different columns. */
  lemma RowRectangleCovers(s: Board, x: nat, cells: seq<Cell>, row: string)
    requires WellFormed(s) && x < 9 && forall k :: 0 <= k < |cells| ==> cells[k] in Group(s, BoxKind, x)
    requires row in Repeats(Sort(RowsOf(Ids(cells)))) && Repeats(Sort(ColsOf(Ids(cells)))) == []
    requires Filter(cells, OffRowFn(row)) != []
    ensures Ch(row, 0) == row
    ensures PointsAt(cells, ColStr(Filter(cells, OffRowFn(row))[0].id), row)
  {
    var i, j := RepeatedTwice(RowsOf(Ids(cells)), row);
    BoxCellBands(s, x, cells[i]);
    var off := Filter(cells, OffRowFn(row));
    assert off[0] in off;
    var o :| 0 <= o < |cells| && cells[o] == off[0];
    NoRepeatsDistinct(ColsOf(Ids(cells)));
    RowAndColumn(s, x, cells, i, j, o);
  }

  /** The two cells lie on the box's anti-diagonal: the one in the smaller
      column is in the larger row. */
  predicate AntiDiagonal(a: Cell, b: Cell)
  {
    Less(ColStr(a.id), ColStr(b.id)) <==> Less(RowStr(b.id), RowStr(a.id))
  }

  /** A `[col1, row1, col2, row2]` pointer comes from exactly two
      candidate cells in different columns and rows. `allCols` and
      `allRows` were sorted in place, so `col1 < col2` are the two columns
      and `row2 < row1` the two rows. The pairs the search then tries,
      (col1, row2) and (col2, row1), each cover both cells exactly when the
      cells lie on the box's anti-diagonal; for two cells on the main
      diagonal neither pair does. */
  lemma CornersMeaning(cells: seq<Cell>)
    ensures var r := PointerOf(cells);
      r.Some? && r.value.Corners? ==>
        |cells| == 2 &&
        ColStr(cells[0].id) != ColStr(cells[1].id) && RowStr(cells[0].id) != RowStr(cells[1].id) &&
        ((r.value.col1, r.value.col2) == (ColStr(cells[0].id), ColStr(cells[1].id)) ||
         (r.value.col1, r.value.col2) == (ColStr(cells[1].id), ColStr(cells[0].id))) &&
        ((r.value.row1, r.value.row2) == (RowStr(cells[0].id), RowStr(cells[1].id)) ||
         (r.value.row1, r.value.row2) == (RowStr(cells[1].id), RowStr(cells[0].id))) &&
        Less(r.value.col1, r.value.col2) && Less(r.value.row2, r.value.row1) &&
        (Covered(cells, r.value.col1, r.value.row2) <==> AntiDiagonal(cells[0], cells[1])) &&
        (Covered(cells, r.value.col2, r.value.row1) <==> AntiDiagonal(cells[0], cells[1]))
  {
    var r := PointerOf(cells);
    if r.Some? && r.value.Corners? {
      CornersCells(cells);
      CornersValue(cells);
      CornerPairs(cells, r.value);
    }
  }

  /** The columns and rows a `[col1, row1, col2, row2]` pointer reads. */
  lemma CornersValue(cells: seq<Cell>)
    ensures var r := PointerOf(cells);
      var cols, rows := Sort(ColsOf(Ids(cells))), Sort(RowsOf(Ids(cells)));
      r.Some? && r.value.Corners? ==> r.value == Corners(At(cols, 0), At(rows, 1), At(cols, 1), At(rows, 0))
  {
  }

  /** The pointer two cells in different columns and rows make, from their
      sorted columns and rows. */
  lemma CornerPairs(cells: seq<Cell>, p: Pointer)
    requires |cells| == 2
    requires ColStr(cells[0].id) != ColStr(cells[1].id) && RowStr(cells[0].id) != RowStr(cells[1].id)
    requires var cols, rows := Sort(ColsOf(Ids(cells))), Sort(RowsOf(Ids(cells)));
      p == Corners(At(cols, 0), At(rows, 1), At(cols, 1), At(rows, 0))
    ensures (p.col1, p.col2) == (ColStr(cells[0].id), ColStr(cells[1].id)) || (p.col1, p.col2) == (ColStr(cells[1].id), ColStr(cells[0].id))
    ensures (p.row1, p.row2) == (RowStr(cells[0].id), RowStr(cells[1].id)) || (p.row1, p.row2) == (RowStr(cells[1].id), RowStr(cells[0].id))
    ensures Less(p.col1, p.col2) && Less(p.row2, p.row1)
    ensures Covered(cells, p.col1, p.row2) <==> AntiDiagonal(cells[0], cells[1])
    ensures Covered(cells, p.col2, p.row1) <==> AntiDiagonal(cells[0], cells[1])
  {
    TwoLines(cells);
    CornerOfTwo(cells[0], cells[1], p);
  }

  lemma TwoLines(cells: seq<Cell>)
    requires |cells| == 2
    ensures cells == [cells[0], cells[1]]
    ensures ColsOf(Ids(cells)) == [ColStr(cells[0].id), ColStr(cells[1].id)]
    ensures RowsOf(Ids(cells)) == [RowStr(cells[0].id), RowStr(cells[1].id)]
  {
  }

  /** `CornerPairs` for the cells `a` and `b`. */
  lemma CornerOfTwo(a: Cell, b: Cell, p: Pointer)
    requires ColStr(a.id) != ColStr(b.id) && RowStr(a.id) != RowStr(b.id)
    requires var cols, rows := Sort([ColStr(a.id), ColStr(b.id)]), Sort([RowStr(a.id), RowStr(b.id)]);
      p == Corners(At(cols, 0), At(rows, 1), At(cols, 1), At(rows, 0))
    ensures (p.col1, p.col2) == (ColStr(a.id), ColStr(b.id)) || (p.col1, p.col2) == (ColStr(b.id), ColStr(a.id))
    ensures (p.row1, p.row2) == (RowStr(a.id), RowStr(b.id)) || (p.row1, p.row2) == (RowStr(b.id), RowStr(a.id))
    ensures Less(p.col1, p.col2) && Less(p.row2, p.row1)
    ensures Covered([a, b], p.col1, p.row2) <==> AntiDiagonal(a, b)
    ensures Covered([a, b], p.col2, p.row1) <==> AntiDiagonal(a, b)
  {
    SortedPair(ColStr(a.id), ColStr(b.id));
    SortedPair(RowStr(a.id), RowStr(b.id));
    CornerCover(a, b, p);
  }

  /** Two different strings sorted: the smaller first, strictly. */
  lemma SortedPair(x: string, y: string)
    requires x != y
    ensures var s := Sort([x, y]);
      ((At(s, 0), At(s, 1)) == (x, y) || (At(s, 0), At(s, 1)) == (y, x)) &&
      Less(At(s, 0), At(s, 1)) && !Less(At(s, 1), At(s, 0))
  {
    SortTwo(x, y);
    LessTotal(x, y);
    if Less(x, y) {
      LessAsymmetric(x, y);
    } else {
      LessAsymmetric(y, x);
    }
  }

  /** The corner pairs of two cells cover both exactly on the anti-diagonal. */
  lemma CornerCover(a: Cell, b: Cell, p: Pointer)
    requires p.Corners?
    requires (p.col1, p.col2) == (ColStr(a.id), ColStr(b.id)) || (p.col1, p.col2) == (ColStr(b.id), ColStr(a.id))
    requires (p.row1, p.row2) == (RowStr(a.id), RowStr(b.id)) || (p.row1, p.row2) == (RowStr(b.id), RowStr(a.id))
    requires Less(p.col1, p.col2) && !Less(p.col2, p.col1)
    requires Less(p.row2, p.row1) && !Less(p.row1, p.row2)
    ensures Covered([a, b], p.col1, p.row2) <==> AntiDiagonal(a, b)
    ensures Covered([a, b], p.col2, p.row1) <==> AntiDiagonal(a, b)
  {
    CoveredTwo(a, b, p.col1, p.row2);
    CoveredTwo(a, b, p.col2, p.row1);
  }

  lemma CoveredTwo(a: Cell, b: Cell, col: string, row: string)
    ensures Covered([a, b], col, row) <==>
      (ColStr(a.id) == col || RowStr(a.id) == row) && (ColStr(b.id) == col || RowStr(b.id) == row)
  {
    assert [a, b][0] == a && [a, b][1] == b;
  }

  /** A `[col1, row1, col2, row2]` pointer needs four different letters and
      digits among the candidate cells, which only two cells in different
      columns and rows give. */
  lemma CornersCells(cells: seq<Cell>)
    ensures var r := PointerOf(cells);
      r.Some? && r.value.Corners? ==>
        |cells| == 2 && ColStr(cells[0].id) != ColStr(cells[1].id) && RowStr(cells[0].id) != RowStr(cells[1].id)
  {
    var r := PointerOf(cells);
    if r.Some? && r.value.Corners? {
      var cols := ColsOf(Ids(cells));
      var rows := RowsOf(Ids(cells));
      var dupCols, dupRows := Repeats(Sort(cols)), Repeats(Sort(rows));
      if dupCols != [] {
        OnLine(cells, cols, OffColumnFn(Ch(dupCols[0], 0)), Ch(dupCols[0], 0));
      }
      if dupRows != [] {
        OnLine(cells, rows, OffRowFn(Ch(dupRows[0], 0)), Ch(dupRows[0], 0));
      }
      CornersReached(cols, rows);
    }
  }

  /** No cell is off line `v`: every cell's line is `v`. */
  lemma OnLine(cells: seq<Cell>, lines: seq<string>, off: Cell -> bool, v: string)
    requires |lines| == |cells|
    requires forall k :: 0 <= k < |cells| ==> (off(cells[k]) <==> lines[k] != v)
    requires Filter(cells, off) == []
    ensures forall k :: 0 <= k < |lines| ==> lines[k] == v
  {
    forall k | 0 <= k < |lines| ensures lines[k] == v {
      assert cells[k] in cells;
    }
  }

  /** The tests a `[col1, row1, col2, row2]` pointer has passed: at most one
      repeated column or row, every cell on a repeated line, at most two
      cells when nothing repeats, and four distinct letters and digits. */
  lemma CornersReached(cols: seq<string>, rows: seq<string>)
    requires |cols| == |rows| > 0
    requires |Repeats(Sort(cols))| <= 1 && |Repeats(Sort(rows))| <= 1
    requires Repeats(Sort(cols)) != [] ==> forall k :: 0 <= k < |cols| ==> cols[k] == Ch(Repeats(Sort(cols))[0], 0)
    requires Repeats(Sort(rows)) != [] ==> forall k :: 0 <= k < |rows| ==> rows[k] == Ch(Repeats(Sort(rows))[0], 0)
    requires Repeats(Sort(cols)) == [] && Repeats(Sort(rows)) == [] ==> |cols| <= 2
    requires |Uniq(Sort(Sort(cols) + Sort(rows)))| == 4
    ensures |cols| == 2 && cols[0] != cols[1] && rows[0] != rows[1]
  {
    var dupCols, dupRows := Repeats(Sort(cols)), Repeats(Sort(rows));
    if dupCols != [] {
      OneLine(cols, Ch(dupCols[0], 0));
      FewOnLine(cols, rows, Ch(dupCols[0], 0));
    } else if dupRows != [] {
      OneLine(rows, Ch(dupRows[0], 0));
      FewOnLine(rows, cols, Ch(dupRows[0], 0));
    } else {
      FewApart(cols, rows);
    }
  }

  /** One or two cells on a single line `v` show at most three distinct
      letters and digits. */
  lemma FewOnLine(lines: seq<string>, others: seq<string>, v: string)
    requires 0 < |lines| == |others| <= 2 && forall k :: 0 <= k < |lines| ==> lines[k] == v
    ensures |Uniq(Sort(Sort(lines) + Sort(others)))| <= 3
    ensures |Uniq(Sort(Sort(others) + Sort(lines)))| <= 3
  {
    var t := if |others| == 1 then [v, others[0]] else [v, others[0], others[1]];
    FewDistinct(lines, others, t);
    FewDistinct(others, lines, t);
  }

  /** One or two cells show four distinct letters and digits only when
      there are two of them in different columns and rows. */
  lemma FewApart(cols: seq<string>, rows: seq<string>)
    requires 0 < |cols| == |rows| <= 2
    requires |Uniq(Sort(Sort(cols) + Sort(rows)))| == 4
    ensures |cols| == 2 && cols[0] != cols[1] && rows[0] != rows[1]
  {
    if |cols| == 1 {
      assert false;
    } else {
      if cols[0] == cols[1] {
        FewDistinct(cols, rows, [cols[0], rows[0], rows[1]]);
      }
      if rows[0] == rows[1] {
        FewDistinct(cols, rows, [cols[0], cols[1], rows[0]]);
      }
    }
  }

  /** Lines that are all `v` repeat it at every position after the first,
      so at most one repeat means at most two lines. */
  lemma OneLine(lines: seq<string>, v: string)
    requires lines != [] && forall k :: 0 <= k < |lines| ==> lines[k] == v
    requires |Repeats(Sort(lines))| <= 1
    ensures |lines| <= 2
  {
    var sorted := Sort(lines);
    forall k | 0 <= k < |sorted| ensures sorted[k] == v {
      assert sorted[k] in multiset(sorted);
      assert sorted[k] in multiset(lines);
    }
    ConstantRepeats(sorted, v);
  }

  /** The letters and digits of the cells, all drawn from `t`, number at
      most `|t|` once sorted and made unique. */
  lemma FewDistinct(cols: seq<string>, rows: seq<string>, t: seq<string>)
    requires forall m :: m in cols ==> m in t
    requires forall m :: m in rows ==> m in t
    ensures |Uniq(Sort(Sort(cols) + Sort(rows)))| <= |t|
  {
    var all := Sort(cols) + Sort(rows);
    DistinctCount(all);
    SortElems(cols, false);
    SortElems(rows, false);
    SubsetCard(all, t);
  }
}
