/** The helpers in `utils.ts`: the peers of a cell, the solved-puzzle test,
    the number check used by the board reducer and the two keyboard
    translations. */
module Utils {
  import opened Lists
  import opened Grid
  import opened Groups

  // ---------------------------------------------------------------------
  // findRestrictedCells
  // ---------------------------------------------------------------------

  /** The column letter of column `c` as a one-character string. */
  function ColLetter(c: nat): (s: string)
    requires c < 9
    ensures |s| == 1
  {
    [('A' as int + c) as char]
  }

  /** An id is its column letter followed by its row digit. */
  lemma IdParts(p: nat)
    requires p < 81
    ensures IdOf(p) == ColLetter(ColOf(p)) + DigitStr(RowOf(p) + 1)
  {
  }

  /** `['A', 'B', ..., 'I']`. */
  const Columns: seq<string> := ["A", "B", "C", "D", "E", "F", "G", "H", "I"]

  /** The ids of box `BoxOf(p)`, the first `m` of them, in the order the
      source lists them (column band letters outer, row band digits inner). */
  function BoxIds(p: nat, m: nat): (r: seq<string>)
    requires p < 81 && m <= 9
    ensures |r| == m
  {
    seq(m, k requires 0 <= k < m => IdOf(Slot(BoxKind, BoxOf(p), k)))
  }

  lemma BoxIdsStep(p: nat, m: nat)
    requires p < 81 && m < 9
    ensures BoxIds(p, m + 1) == BoxIds(p, m) + [IdOf(Slot(BoxKind, BoxOf(p), m))]
  {
  }

  /** The cell the box loop adds at step (x, y) is the `x * 3 + y`-th cell of
      the box. */
  lemma BoxCellId(p: nat, x: nat, y: nat)
    requires p < 81 && x < 3 && y < 3
    ensures IdOf(Slot(BoxKind, BoxOf(p), x * 3 + y)) ==
      ColLetter(Band(ColOf(p)) + x) + DigitStr(Band(RowOf(p)) + y + 1)
  {
    var bx := BoxOf(p);
    var k := x * 3 + y;
    BoxOfParts(p);
    BoxSlot(bx, k);
    DivMod3(x, y);
    var q := Slot(BoxKind, bx, k);
    assert ColOf(q) == Band(ColOf(p)) + x;
    assert RowOf(q) == Band(RowOf(p)) + y;
    IdParts(q);
  }

  /** The box cells are distinct and are exactly the ids in the box of `p`. */
  lemma BoxIdsFacts(p: nat)
    requires p < 81
    ensures NoDup(BoxIds(p, 9))
    ensures forall id :: id in BoxIds(p, 9) <==> IsId(id) && BoxOf(PosOf(id)) == BoxOf(p)
  {
    var ids := BoxIds(p, 9);
    var bx := BoxOf(p);
    forall k, k' | 0 <= k < k' < 9 ensures ids[k] != ids[k'] {
      var a, b := Slot(BoxKind, bx, k), Slot(BoxKind, bx, k');
      BoxSlotInverse(bx, k);
      BoxSlotInverse(bx, k');
      IdOfIsId(a);
      IdOfIsId(b);
    }
    forall id ensures id in ids <==> IsId(id) && BoxOf(PosOf(id)) == bx {
      if id in ids {
        var k :| 0 <= k < 9 && ids[k] == id;
        IdOfIsId(Slot(BoxKind, bx, k));
      }
      if IsId(id) && BoxOf(PosOf(id)) == bx {
        var q := PosOf(id);
        SlotBijective(BoxKind, q);
        PosOfRoundTrip(id);
        assert ids[PlaceIn(BoxKind, q)] == id;
      }
    }
  }

  /** After `i` rounds of the second loop: the box, plus the first `i` cells
      of the row and of the column. */
  ghost predicate Collected(p: nat, i: nat, id: string)
    requires p < 81
  {
    IsId(id) &&
    var q := PosOf(id);
    BoxOf(q) == BoxOf(p) || (RowOf(q) == RowOf(p) && ColOf(q) < i) || (ColOf(q) == ColOf(p) && RowOf(q) < i)
  }

  /** How many of the bands 0 .. i-1 lie outside band `band` (counting one
      per index). */
  function Outside(i: nat, band: nat): nat
  {
    if i == 0 then 0 else Outside(i - 1, band) + (if (i - 1) / 3 != band then 1 else 0)
  }

  lemma OutsideAll(band: nat)
    requires band < 3
    ensures Outside(9, band) == 6
  {
    assert Outside(3, band) == if band == 0 then 0 else 3;
    assert Outside(6, band) == if band == 2 then 6 else 3;
  }

  /** Round `i` adds the row cell in column `i` exactly when column `i` is
      outside the box's column band, and the column cell in row `i` exactly
      when row `i` is outside the box's row band. */
  lemma RowCellNew(p: nat, i: nat)
    requires p < 81 && i < 9
    ensures Collected(p, i, IdOf(i * 9 + RowOf(p))) <==> i / 3 == ColOf(p) / 3
  {
    var c, r := ColOf(p), RowOf(p);
    var q := i * 9 + r;
    DivMod9(i, r);
    IdOfIsId(q);
    assert ColOf(q) == i && RowOf(q) == r;
    assert BoxOf(q) == BoxOf(p) <==> i / 3 == c / 3 by {
      BoxOfParts(p);
      BoxOfParts(q);
    }
  }

  lemma ColumnCellNew(p: nat, i: nat)
    requires p < 81 && i < 9
    ensures Collected(p, i, IdOf(ColOf(p) * 9 + i)) || IdOf(ColOf(p) * 9 + i) == IdOf(i * 9 + RowOf(p))
      <==> i / 3 == RowOf(p) / 3
  {
    ColumnCellCollected(p, i);
    ColumnCellSame(p, i);
  }

  lemma ColumnCellCollected(p: nat, i: nat)
    requires p < 81 && i < 9
    ensures Collected(p, i, IdOf(ColOf(p) * 9 + i)) <==> i / 3 == RowOf(p) / 3 || (i == RowOf(p) && ColOf(p) < i)
  {
    var c, r := ColOf(p), RowOf(p);
    var q := c * 9 + i;
    DivMod9(c, i);
    IdOfIsId(q);
    assert ColOf(q) == c && RowOf(q) == i;
    assert BoxOf(q) == BoxOf(p) <==> i / 3 == r / 3 by {
      BoxOfParts(p);
      BoxOfParts(q);
    }
  }

  lemma ColumnCellSame(p: nat, i: nat)
    requires p < 81 && i < 9
    ensures IdOf(ColOf(p) * 9 + i) == IdOf(i * 9 + RowOf(p)) ==> i == RowOf(p)
  {
    var c, r := ColOf(p), RowOf(p);
    if IdOf(c * 9 + i) == IdOf(i * 9 + r) {
      IdOfInjective(c * 9 + i, i * 9 + r);
      DivMod9(c, i);
      DivMod9(i, r);
    }
  }

  lemma CollectedStep(p: nat, i: nat, id: string)
    requires p < 81 && i < 9
    ensures Collected(p, i + 1, id) <==>
      Collected(p, i, id) || id == IdOf(i * 9 + RowOf(p)) || id == IdOf(ColOf(p) * 9 + i)
  {
    var q1, q2 := i * 9 + RowOf(p), ColOf(p) * 9 + i;
    DivMod9(i, RowOf(p));
    DivMod9(ColOf(p), i);
    IdOfIsId(q1);
    IdOfIsId(q2);
    if IsId(id) {
      var q := PosOf(id);
      PosOfRoundTrip(id);
      if RowOf(q) == RowOf(p) && ColOf(q) == i {
        assert q == q1;
      }
      if ColOf(q) == ColOf(p) && RowOf(q) == i {
        assert q == q2;
      }
    }
  }

  /** What the second loop keeps: distinct ids, exactly those collected,
      and as many as the bands outside the box allow. */
  ghost predicate RoundInv(p: nat, i: nat, cells: seq<string>)
    requires p < 81
  {
    NoDup(cells) && (forall id :: id in cells <==> Collected(p, i, id)) &&
    |cells| == 9 + Outside(i, ColOf(p) / 3) + Outside(i, RowOf(p) / 3)
  }

  /** The two ids round `i` builds: `columns[i] + row` and `column + (i + 1)`. */
  lemma RoundIds(cellId: string, i: nat)
    requires IsId(cellId) && i < 9
    ensures var p := PosOf(cellId);
      Columns[i] + DigitStr(cellId[1] as int - '0' as int) == IdOf(i * 9 + RowOf(p)) &&
      [cellId[0]] + DigitStr(i + 1) == IdOf(ColOf(p) * 9 + i)
  {
    var p := PosOf(cellId);
    PosOfRoundTrip(cellId);
    IdParts(p);
    IdParts(i * 9 + RowOf(p));
    IdParts(ColOf(p) * 9 + i);
    DivMod9(i, RowOf(p));
    DivMod9(ColOf(p), i);
  }

  lemma RoundStart(p: nat)
    requires p < 81
    ensures RoundInv(p, 0, BoxIds(p, 9))
  {
    BoxIdsFacts(p);
    var cells := BoxIds(p, 9);
    forall id ensures id in cells <==> Collected(p, 0, id) {
    }
  }

  lemma RoundStep(p: nat, i: nat, cells: seq<string>)
    requires p < 81 && i < 9 && RoundInv(p, i, cells)
    ensures var cell1, cell2 := IdOf(i * 9 + RowOf(p)), IdOf(ColOf(p) * 9 + i);
      var c1 := if cell1 !in cells then cells + [cell1] else cells;
      var c2 := if cell2 !in c1 then c1 + [cell2] else c1;
      RoundInv(p, i + 1, c2)
  {
    var cell1, cell2 := IdOf(i * 9 + RowOf(p)), IdOf(ColOf(p) * 9 + i);
    var c1 := if cell1 !in cells then cells + [cell1] else cells;
    var c2 := if cell2 !in c1 then c1 + [cell2] else c1;
    assert NoDup(c1) && |c1| == |cells| + (if i / 3 != ColOf(p) / 3 then 1 else 0) by {
      RowCellNew(p, i);
      if cell1 !in cells {
        NoDupSnoc(cells, cell1);
      }
    }
    assert NoDup(c2) && |c2| == |c1| + (if i / 3 != RowOf(p) / 3 then 1 else 0) by {
      ColumnCellNew(p, i);
      if cell2 !in c1 {
        NoDupSnoc(c1, cell2);
      }
    }
    assert forall id :: id in c2 <==> Collected(p, i + 1, id) by {
      forall id ensures id in c2 <==> Collected(p, i + 1, id) {
        CollectedStep(p, i, id);
      }
    }
  }


  /** `cells` after `i` rounds of the second loop. */
  function RoundCells(p: nat, i: nat): seq<string>
    requires p < 81 && i <= 9
  {
    if i == 0 then BoxIds(p, 9)
    else
      var cells := RoundCells(p, i - 1);
      var cell1, cell2 := IdOf((i - 1) * 9 + RowOf(p)), IdOf(ColOf(p) * 9 + (i - 1));
      var c1 := if cell1 !in cells then cells + [cell1] else cells;
      if cell2 !in c1 then c1 + [cell2] else c1
  }

  lemma {:induction false} RoundCellsInv(p: nat, i: nat)
    requires p < 81 && i <= 9
    ensures RoundInv(p, i, RoundCells(p, i))
  {
    if i == 0 {
      RoundStart(p);
    } else {
      RoundCellsInv(p, i - 1);
      RoundStep(p, i - 1, RoundCells(p, i - 1));
    }
  }

  /** After the last round the collected cells are the cell itself and its
      20 peers. */
  lemma RoundsDone(p: nat)
    requires p < 81
    ensures var r := Drop(RoundCells(p, 9), IdOf(p));
      NoDup(r) && |r| == 20 && IdOf(p) !in r &&
      forall id :: id in r <==> IsId(id) && Peer(p, PosOf(id))
  {
    var cells := RoundCells(p, 9);
    RoundCellsInv(p, 9);
    OutsideAll(ColOf(p) / 3);
    OutsideAll(RowOf(p) / 3);
    IdOfIsId(p);
    assert Collected(p, 9, IdOf(p));
    var r := Drop(cells, IdOf(p));
    forall id ensures id in r <==> IsId(id) && Peer(p, PosOf(id)) {
      if IsId(id) {
        PosOfRoundTrip(id);
      }
    }
  }

  /** `boxRows`, chosen from the row number `Number(cellId[1])`. */
  function BoxRowsFor(row: int): seq<string>
  {
    if row <= 3 then ["1", "2", "3"] else if row <= 6 then ["4", "5", "6"] else ["7", "8", "9"]
  }

  /** `boxColumns`, chosen from the column letter `cellId[0]`; no band
      matches a letter outside A-I. */
  function BoxColumnsFor(column: string): seq<string>
  {
    var boxColumns :=
      if column == "A" || column == "B" || column == "C" then ["A", "B", "C"]
      else if column == "D" || column == "E" || column == "F" then ["D", "E", "F"]
      else [];
    if column == "G" || column == "H" || column == "I" then ["G", "H", "I"] else boxColumns
  }

  /** The bands chosen are those of the cell's box. */
  lemma Bands(cellId: string)
    requires IsId(cellId)
    ensures var p := PosOf(cellId); var c, r := ColOf(p), RowOf(p);
      BoxRowsFor(cellId[1] as int - '0' as int) == [DigitStr((r / 3) * 3 + 1), DigitStr((r / 3) * 3 + 2), DigitStr((r / 3) * 3 + 3)] &&
      BoxColumnsFor([cellId[0]]) == [ColLetter((c / 3) * 3), ColLetter((c / 3) * 3 + 1), ColLetter((c / 3) * 3 + 2)]
  {
    var c, r := cellId[0] as int - 'A' as int, cellId[1] as int - '1' as int;
    DivMod9(c, r);
  }

  /** The box loop's step (x, y) adds the next cell of the box. */
  lemma BoxLoopStep(cellId: string, x: nat, y: nat)
    requires IsId(cellId) && x < 3 && y < 3
    ensures var p := PosOf(cellId);
      BoxIds(p, x * 3 + y) + [BoxColumnsFor([cellId[0]])[x] + BoxRowsFor(cellId[1] as int - '0' as int)[y]] ==
      BoxIds(p, x * 3 + y + 1)
  {
    var p := PosOf(cellId);
    BandPick(cellId, x, y);
    BoxCellId(p, x, y);
    BoxIdsStep(p, x * 3 + y);
  }

  lemma BandPick(cellId: string, x: nat, y: nat)
    requires IsId(cellId) && x < 3 && y < 3
    ensures var p := PosOf(cellId);
      BoxColumnsFor([cellId[0]])[x] == ColLetter(Band(ColOf(p)) + x) &&
      BoxRowsFor(cellId[1] as int - '0' as int)[y] == DigitStr(Band(RowOf(p)) + y + 1)
  {
    Bands(cellId);
  }

  /** `findRestrictedCells(cellId)`: the ids of the cells that share a row,
      a column or a box with `cellId`, without `cellId` itself. */
  method FindRestrictedCells(cellId: string) returns (cells: seq<string>)
    requires IsId(cellId)
    ensures NoDup(cells) && |cells| == 20 && cellId !in cells
    ensures forall id :: id in cells <==> IsId(id) && Peer(PosOf(cellId), PosOf(id))
  {
    ghost var p := PosOf(cellId);
    PosOfRoundTrip(cellId);
    var row := cellId[1] as int - '0' as int;
    var column := [cellId[0]];
    var boxRows := BoxRowsFor(row);
    var boxColumns := BoxColumnsFor(column);
    cells := [];

    for x := 0 to 3
      invariant cells == BoxIds(p, x * 3)
    {
      for y := 0 to 3
        invariant cells == BoxIds(p, x * 3 + y)
      {
        BoxLoopStep(cellId, x, y);
        cells := cells + [boxColumns[x] + boxRows[y]];
      }
    }

    for i := 0 to 9
      invariant cells == RoundCells(p, i)
    {
      var cell1 := Columns[i] + DigitStr(row);
      var cell2 := column + DigitStr(i + 1);
      RoundIds(cellId, i);
      if cell1 !in cells {
        cells := cells + [cell1];
      }
      if cell2 !in cells {
        cells := cells + [cell2];
      }
    }
    RoundsDone(p);
    cells := Drop(cells, cellId);
  }

  /** Being a peer is symmetric: `b` is among the cells restricted by `a`
      exactly when `a` is among those restricted by `b`. */
  lemma RestrictedSymmetric(a: string, b: string)
    requires IsId(a) && IsId(b)
    ensures Peer(PosOf(a), PosOf(b)) <==> Peer(PosOf(b), PosOf(a))
  {
    PeerSymmetric(PosOf(a), PosOf(b));
  }

  // ---------------------------------------------------------------------
  // isPussleSolved
  // ---------------------------------------------------------------------

  /** `pussle[k]`; an index past the end reads `undefined`, which `join`
      renders as "" (wherever `sort` puts it), so it is modelled as "". */
  function Elem(pussle: seq<string>, k: nat): string
  {
    if k < |pussle| then pussle[k] else ""
  }

  /** The values of group `x` of a kind, the first `m` of them. */
  function Values(pussle: seq<string>, kind: Kind, x: nat, m: nat): (r: seq<string>)
    requires x < 9 && m <= 9
    ensures |r| == m
  {
    seq(m, k requires 0 <= k < m => Elem(pussle, Slot(kind, x, k)))
  }

  const Digits: seq<string> := ["1", "2", "3", "4", "5", "6", "7", "8", "9"]

  /** The source's test of one group: sorted and joined, the values spell
      "123456789". */
  predicate GroupSolved(vals: seq<string>)
  {
    Join(Sort(vals)) == "123456789"
  }

  /** The first `c` kinds of group `g` (in `KindAt` order) pass the test. */
  predicate KindsSolved(pussle: seq<string>, g: nat, c: nat)
    requires g < 9 && c <= 3
  {
    c == 0 || (KindsSolved(pussle, g, c - 1) && GroupSolved(Values(pussle, KindAt(c - 1), g, 9)))
  }

  /** Column, row and box `g` all pass. */
  predicate GroupsSolved(pussle: seq<string>, g: nat)
    requires g < 9
  {
    KindsSolved(pussle, g, 3)
  }

  /** Groups 0 .. n-1 of every kind pass. */
  predicate SolvedBelow(pussle: seq<string>, n: nat)
    requires n <= 9
  {
    n == 0 || (SolvedBelow(pussle, n - 1) && GroupsSolved(pussle, n - 1))
  }

  /** What `isPussleSolved` decides: all 27 groups pass. */
  predicate PuzzleSolved(pussle: seq<string>)
  {
    SolvedBelow(pussle, 9)
  }

  lemma KindsMeaning(pussle: seq<string>, g: nat)
    requires g < 9
    ensures GroupsSolved(pussle, g) <==>
      GroupSolved(Values(pussle, ColumnKind, g, 9)) && GroupSolved(Values(pussle, RowKind, g, 9)) &&
      GroupSolved(Values(pussle, BoxKind, g, 9))
  {
    assert KindsSolved(pussle, g, 3) <==> KindsSolved(pussle, g, 2) && GroupSolved(Values(pussle, ColumnKind, g, 9));
    assert KindsSolved(pussle, g, 2) <==> KindsSolved(pussle, g, 1) && GroupSolved(Values(pussle, RowKind, g, 9));
    assert KindsSolved(pussle, g, 1) <==> GroupSolved(Values(pussle, BoxKind, g, 9));
  }

  lemma {:induction false} SolvedBelowMono(pussle: seq<string>, m: nat, n: nat)
    requires m <= n <= 9 && SolvedBelow(pussle, n)
    ensures SolvedBelow(pussle, m)
  {
    if m < n {
      SolvedBelowMono(pussle, m, n - 1);
    }
  }

  /** In a solved puzzle every column, row and box passes. */
  lemma SolvedGroupPasses(pussle: seq<string>, g: nat, kind: Kind)
    requires g < 9 && PuzzleSolved(pussle)
    ensures GroupSolved(Values(pussle, kind, g, 9))
  {
    SolvedBelowMono(pussle, g + 1, 9);
    KindsMeaning(pussle, g);
  }

  lemma {:induction false} AllPassBelow(pussle: seq<string>, n: nat)
    requires n <= 9
    requires forall g, kind :: 0 <= g < 9 ==> GroupSolved(Values(pussle, kind, g, 9))
    ensures SolvedBelow(pussle, n)
  {
    if n > 0 {
      AllPassBelow(pussle, n - 1);
      KindsMeaning(pussle, n - 1);
    }
  }

  /** The puzzle is solved exactly when every column, row and box passes. */
  lemma PuzzleSolvedMeaning(pussle: seq<string>)
    ensures PuzzleSolved(pussle) <==> forall g, kind :: 0 <= g < 9 ==> GroupSolved(Values(pussle, kind, g, 9))
  {
    if PuzzleSolved(pussle) {
      forall g, kind | 0 <= g < 9 ensures GroupSolved(Values(pussle, kind, g, 9)) {
        SolvedGroupPasses(pussle, g, kind);
      }
    } else if forall g, kind :: 0 <= g < 9 ==> GroupSolved(Values(pussle, kind, g, 9)) {
      AllPassBelow(pussle, 9);
    }
  }

  /** The first `m` values of column, row and box `g` are collected (the
      source names them `row`, `column` and `box`). */
  ghost predicate ValuesSoFar(pussle: seq<string>, g: nat, m: nat, row: seq<string>, column: seq<string>, box: seq<string>)
    requires g < 9 && m <= 9
  {
    row == Values(pussle, ColumnKind, g, m) && column == Values(pussle, RowKind, g, m) &&
    box == Values(pussle, BoxKind, g, m)
  }

  lemma ValuesStep(pussle: seq<string>, i: nat, x: nat, y: nat, z: nat, row: seq<string>, column: seq<string>, box: seq<string>)
    requires i < 3 && x < 3 && y < 3 && z < 3
    requires ValuesSoFar(pussle, i * 3 + x, y * 3 + z, row, column, box)
    ensures ValuesSoFar(pussle, i * 3 + x, y * 3 + z + 1,
      row + [Elem(pussle, (y * 3 + z) + (i * 3 + x) * 9)],
      column + [Elem(pussle, (i * 3 + x) + (y * 3 + z) * 9)],
      box + [Elem(pussle, i * 27 + x * 3 + y * 9 + z)])
  {
    LoopIndexIsSlot(i, x, y, z);
  }

  /** A group that fails the test makes the puzzle unsolved; one that
      passes extends the groups known to pass. */
  lemma GroupChecked(pussle: seq<string>, g: nat, row: seq<string>, column: seq<string>, box: seq<string>)
    requires g < 9 && SolvedBelow(pussle, g) && ValuesSoFar(pussle, g, 9, row, column, box)
    ensures !(GroupSolved(row) && GroupSolved(column) && GroupSolved(box)) ==> !PuzzleSolved(pussle)
    ensures GroupSolved(row) && GroupSolved(column) && GroupSolved(box) ==> SolvedBelow(pussle, g + 1)
  {
    KindsMeaning(pussle, g);
    if PuzzleSolved(pussle) {
      SolvedBelowMono(pussle, g + 1, 9);
    }
  }

  /** The inner two loops of `isPussleSolved`: the values of column, row
      and box `i * 3 + x`. */
  method CollectGroup(pussle: seq<string>, i: nat, x: nat) returns (row: seq<string>, column: seq<string>, box: seq<string>)
    requires i < 3 && x < 3
    ensures ValuesSoFar(pussle, i * 3 + x, 9, row, column, box)
  {
    row, column, box := [], [], [];
    for y := 0 to 3
      invariant ValuesSoFar(pussle, i * 3 + x, y * 3, row, column, box)
    {
      for z := 0 to 3
        invariant ValuesSoFar(pussle, i * 3 + x, y * 3 + z, row, column, box)
      {
        ValuesStep(pussle, i, x, y, z, row, column, box);
        row := row + [Elem(pussle, (y * 3 + z) + (i * 3 + x) * 9)];
        column := column + [Elem(pussle, (i * 3 + x) + (y * 3 + z) * 9)];
        box := box + [Elem(pussle, i * 27 + x * 3 + y * 9 + z)];
      }
    }
  }

  /** `isPussleSolved(pussle)`. The source's `row` walks the indexes that,
      in id order, form a column and its `column` those of a row; all 27
      groups are checked either way. */
  method IsPussleSolved(pussle: seq<string>) returns (solved: bool)
    ensures solved == PuzzleSolved(pussle)
  {
    ghost var checked := 0;
    for i := 0 to 3
      invariant checked == i * 3 && SolvedBelow(pussle, checked)
    {
      for x := 0 to 3
        invariant checked == i * 3 + x && SolvedBelow(pussle, checked)
      {
        var row, column, box := CollectGroup(pussle, i, x);
        GroupChecked(pussle, checked, row, column, box);
        if !GroupSolved(row) {
          return false;
        }
        if !GroupSolved(column) {
          return false;
        }
        if !GroupSolved(box) {
          return false;
        }
        checked := checked + 1;
      }
    }
    return true;
  }


  // What the test means on the values a board holds ("" or one digit).

  predicate IsValue(s: string)
  {
    s == "" || IsDigitStr(s)
  }

  /** Joining strings of at most one character: the result is no longer
      than the list, and as long only when every string has one character,
      the result then spelling them out. */
  lemma {:induction false} JoinShort(s: seq<string>)
    requires forall k :: 0 <= k < |s| ==> |s[k]| <= 1
    ensures |Join(s)| <= |s|
    ensures |Join(s)| == |s| ==> forall k :: 0 <= k < |s| ==> s[k] == [Join(s)[k]]
  {
    if s != [] {
      JoinShort(s[1..]);
      if |Join(s)| == |s| {
        assert |s[0]| == 1;
        forall k | 0 <= k < |s| ensures s[k] == [Join(s)[k]] {
          if k > 0 {
            assert s[k] == s[1..][k - 1];
          }
        }
      }
    }
  }

  lemma LessOneChar(a: string, b: string)
    requires |a| == 1 && |b| == 1
    ensures Less(a, b) <==> a[0] < b[0]
  {
    if a[0] == b[0] {
      assert Less(a, b) == Less(a[1..], b[1..]);
    }
  }

  lemma DigitsSorted()
    ensures SortedBy(Digits, false)
  {
    forall k | 0 <= k < 9 ensures Digits[k] == [('1' as int + k) as char] {
    }
    forall i, j | 0 <= i < j < 9 ensures LessEq(Digits[i], Digits[j]) {
      LessOneChar(Digits[i], Digits[j]);
    }
  }

  lemma DigitsSpell()
    ensures Join(Digits) == "123456789"
  {
  }

  /** Nine strings of at most one character that join to "123456789"
      are the nine digits. */
  lemma SpellsDigits(s: seq<string>)
    requires |s| == 9 && forall k :: 0 <= k < 9 ==> |s[k]| <= 1
    requires Join(s) == "123456789"
    ensures s == Digits
  {
    JoinShort(s);
    forall k | 0 <= k < 9 ensures s[k] == Digits[k] {
      assert s[k] == ["123456789"[k]];
    }
  }

  /** Nine board values that spell "123456789" once sorted are the nine
      digits. */
  lemma SpelledAreDigits(vals: seq<string>)
    requires |vals| == 9 && forall k :: 0 <= k < 9 ==> IsValue(vals[k])
    requires GroupSolved(vals)
    ensures Sort(vals) == Digits
  {
    var s := Sort(vals);
    forall k | 0 <= k < 9 ensures |s[k]| <= 1 {
      assert s[k] in multiset(vals);
    }
    SpellsDigits(s);
  }

  /** On board values, a group passes exactly when it holds each digit
      1 .. 9 once. */
  lemma GroupSolvedIff(vals: seq<string>)
    requires |vals| == 9 && forall k :: 0 <= k < 9 ==> IsValue(vals[k])
    ensures GroupSolved(vals) <==> multiset(vals) == multiset(Digits)
  {
    if GroupSolved(vals) {
      SpelledAreDigits(vals);
    }
    if multiset(vals) == multiset(Digits) {
      SortBySorted(vals, false);
      DigitsSorted();
      SortedUnique(Sort(vals), Digits);
      DigitsSpell();
    }
  }

  /** On board values: the puzzle is solved exactly when every column, row
      and box holds each digit once; then no entry is empty. */
  lemma PuzzleSolvedIff(pussle: seq<string>)
    requires forall k :: 0 <= k < |pussle| ==> IsValue(pussle[k])
    ensures PuzzleSolved(pussle) <==> forall g, kind :: 0 <= g < 9 ==>
      multiset(Values(pussle, kind, g, 9)) == multiset(Digits)
    ensures PuzzleSolved(pussle) ==> |pussle| >= 81 && forall k :: 0 <= k < 81 ==> pussle[k] != ""
  {
    if PuzzleSolved(pussle) {
      forall g, kind | 0 <= g < 9 ensures multiset(Values(pussle, kind, g, 9)) == multiset(Digits) {
        HoldsDigits(pussle, g, kind);
      }
      forall k | 0 <= k < 81 ensures k < |pussle| && pussle[k] != "" {
        HoldsDigits(pussle, k / 9, ColumnKind);
        EveryEntryFilled(pussle, k);
      }
      HoldsDigits(pussle, 8, ColumnKind);
      EveryEntryFilled(pussle, 80);
    } else if forall g, kind :: 0 <= g < 9 ==> multiset(Values(pussle, kind, g, 9)) == multiset(Digits) {
      forall g, kind | 0 <= g < 9 ensures GroupSolved(Values(pussle, kind, g, 9)) {
        ValuesAreValues(pussle, kind, g);
        GroupSolvedIff(Values(pussle, kind, g, 9));
      }
      AllPassBelow(pussle, 9);
    }
  }

  lemma HoldsDigits(pussle: seq<string>, g: nat, kind: Kind)
    requires forall k :: 0 <= k < |pussle| ==> IsValue(pussle[k])
    requires g < 9 && PuzzleSolved(pussle)
    ensures multiset(Values(pussle, kind, g, 9)) == multiset(Digits)
  {
    SolvedGroupPasses(pussle, g, kind);
    ValuesAreValues(pussle, kind, g);
    GroupSolvedIff(Values(pussle, kind, g, 9));
  }

  lemma ValuesAreValues(pussle: seq<string>, kind: Kind, g: nat)
    requires g < 9 && forall k :: 0 <= k < |pussle| ==> IsValue(pussle[k])
    ensures forall k :: 0 <= k < 9 ==> IsValue(Values(pussle, kind, g, 9)[k])
  {
  }

  /** A column holding each digit once has no empty entry. */
  lemma EveryEntryFilled(pussle: seq<string>, k: nat)
    requires k < 81 && multiset(Values(pussle, ColumnKind, k / 9, 9)) == multiset(Digits)
    ensures k < |pussle| && pussle[k] != ""
  {
    var vals := Values(pussle, ColumnKind, k / 9, 9);
    assert Slot(ColumnKind, k / 9, k % 9) == k;
    assert vals[k % 9] in multiset(Digits);
  }

  // ---------------------------------------------------------------------
  // isValidNumber
  // ---------------------------------------------------------------------

  predicate IsDecimal(s: string)
  {
    |s| > 0 && forall k :: 0 <= k < |s| ==> '0' <= s[k] <= '9'
  }

  /** The value of a decimal digit string. */
  function DecimalValue(s: string): (n: nat)
    requires IsDecimal(s)
  {
    if |s| == 1 then s[0] as int - '0' as int
    else DecimalValue(s[..|s| - 1]) * 10 + (s[|s| - 1] as int - '0' as int)
  }

  /** The white space `Number()` skips around a numeral: the
      StrWhiteSpaceChar characters of section 7.1.4.1.1 of ECMA-262 (tab,
      vertical tab, form feed, space, no-break space, byte order mark, the
      other space separators and the four line terminators). */
  predicate IsJsSpace(c: char)
  {
    c == '\t' || c == '\n' || c == '\U{000B}' || c == '\U{000C}' || c == '\r' || c == ' ' ||
    c == '\U{00A0}' || c == '\U{1680}' || '\U{2000}' <= c <= '\U{200A}' || c == '\U{2028}' ||
    c == '\U{2029}' || c == '\U{202F}' || c == '\U{205F}' || c == '\U{3000}' || c == '\U{FEFF}'
  }

  predicate IsDigitChar(c: char)
  {
    '0' <= c <= '9'
  }

  /** The first index from `i` on that does not hold white space. */
  function SkipSpaces(s: string, i: nat): (r: nat)
    requires i <= |s|
    ensures i <= r <= |s| && (r < |s| ==> !IsJsSpace(s[r]))
    ensures forall q :: i <= q < r ==> IsJsSpace(s[q])
    decreases |s| - i
  {
    if i < |s| && IsJsSpace(s[i]) then SkipSpaces(s, i + 1) else i
  }

  /** The end of `s[lo..m]` once its trailing white space is dropped. */
  function DropSpaces(s: string, lo: nat, m: nat): (r: nat)
    requires lo <= m <= |s|
    ensures lo <= r <= m && (lo < r ==> !IsJsSpace(s[r - 1]))
    ensures forall q :: r <= q < m ==> IsJsSpace(s[q])
  {
    if lo < m && IsJsSpace(s[m - 1]) then DropSpaces(s, lo, m - 1) else m
  }

  /** The end of the run of digits that starts at `j`, below `m`. */
  function DigitsEnd(s: string, j: nat, m: nat): (r: nat)
    requires j <= m <= |s|
    ensures j <= r <= m && (r < m ==> !IsDigitChar(s[r]))
    ensures forall q :: j <= q < r ==> IsDigitChar(s[q])
    decreases m - j
  {
    if j < m && IsDigitChar(s[j]) then DigitsEnd(s, j + 1, m) else j
  }

  /** `Number.isInteger(Number(input)) && Number(input) > 0` for decimal
      numerals: the white space around the numeral is skipped, a `+` may
      lead, the whole part must be worth more than 0 and a fraction, if
      any, must be zeros. */
  predicate IsValidNumber(input: string)
  {
    var i := SkipSpaces(input, 0);
    var m := DropSpaces(input, i, |input|);
    var j := if i < m && input[i] == '+' then i + 1 else i;
    ValidParts(input, j, DigitsEnd(input, j, m), m)
  }

  /** The run of digits `j .. k` is a whole part worth more than 0, and
      what follows it up to `m` is nothing or a `.` and zeros. */
  predicate ValidParts(s: string, j: nat, k: nat, m: nat)
    requires j <= k <= m <= |s| && forall q :: j <= q < k ==> IsDigitChar(s[q])
  {
    if j < k then
      assert IsDecimal(s[j..k]) by {
        forall q | 0 <= q < k - j ensures IsDigitChar(s[j..k][q]) {
          assert s[j..k][q] == s[j + q];
        }
      }
      DecimalValue(s[j..k]) > 0 &&
      (k == m || (s[k] == '.' && forall q :: k < q < m ==> s[q] == '0'))
    else false
  }

  /** `s` reads as a positive whole number, split at `i`, `j`, `k` and
      `m`: white space before `i`, an optional `+` up to `j`, a decimal
      whole part worth more than 0 up to `k`, nothing or a `.` and zeros up
      to `m`, and white space from `m` on. */
  ghost predicate PositiveNumeral(s: string, i: nat, j: nat, k: nat, m: nat)
  {
    i <= j < k <= m <= |s| &&
    (forall q :: 0 <= q < i ==> IsJsSpace(s[q])) &&
    (forall q :: m <= q < |s| ==> IsJsSpace(s[q])) &&
    (j == i || (j == i + 1 && s[i] == '+')) &&
    IsDecimal(s[j..k]) && DecimalValue(s[j..k]) > 0 &&
    (k == m || (s[k] == '.' && forall q :: k < q < m ==> s[q] == '0'))
  }

  /** A number is valid exactly when the input is a positive whole numeral
      surrounded by white space. */
  lemma ValidNumberMeaning(input: string)
    ensures IsValidNumber(input) <==> exists i: nat, j: nat, k: nat, m: nat :: PositiveNumeral(input, i, j, k, m)
  {
    if IsValidNumber(input) {
      ValidIsNumeral(input);
    }
    if exists i: nat, j: nat, k: nat, m: nat :: PositiveNumeral(input, i, j, k, m) {
      var i: nat, j: nat, k: nat, m: nat :| PositiveNumeral(input, i, j, k, m);
      NumeralIsValid(input, i, j, k, m);
    }
  }

  lemma ValidIsNumeral(input: string)
    requires IsValidNumber(input)
    ensures exists i: nat, j: nat, k: nat, m: nat :: PositiveNumeral(input, i, j, k, m)
  {
    var i := SkipSpaces(input, 0);
    var m := DropSpaces(input, i, |input|);
    var j := if i < m && input[i] == '+' then i + 1 else i;
    var k := DigitsEnd(input, j, m);
    assert ValidParts(input, j, k, m);
    assert PositiveNumeral(input, i, j, k, m);
  }

  lemma NumeralIsValid(input: string, i: nat, j: nat, k: nat, m: nat)
    requires PositiveNumeral(input, i, j, k, m)
    ensures IsValidNumber(input)
  {
    assert IsDigitChar(input[j]) by { assert input[j] == input[j..k][0]; }
    assert IsDigitChar(input[k - 1]) by { assert input[k - 1] == input[j..k][k - 1 - j]; }
    SkipUpTo(input, 0, i);
    DropDownTo(input, i, |input|, m);
    forall q | j <= q < k ensures IsDigitChar(input[q]) {
      assert input[q] == input[j..k][q - j];
    }
    DigitsUpTo(input, j, m, k);
    NumeralParts(input, i, j, k, m);
  }

  lemma NumeralParts(s: string, i: nat, j: nat, k: nat, m: nat)
    requires PositiveNumeral(s, i, j, k, m) && forall q :: j <= q < k ==> IsDigitChar(s[q])
    ensures ValidParts(s, j, k, m)
  {
  }

  lemma {:induction false} SkipUpTo(s: string, x: nat, i: nat)
    requires x <= i < |s| && !IsJsSpace(s[i])
    requires forall q :: x <= q < i ==> IsJsSpace(s[q])
    ensures SkipSpaces(s, x) == i
    decreases i - x
  {
    if x < i {
      SkipUpTo(s, x + 1, i);
    }
  }

  lemma {:induction false} DropDownTo(s: string, lo: nat, n: nat, m: nat)
    requires lo < m <= n <= |s| && !IsJsSpace(s[m - 1])
    requires forall q :: m <= q < n ==> IsJsSpace(s[q])
    ensures DropSpaces(s, lo, n) == m
    decreases n
  {
    if m < n {
      DropDownTo(s, lo, n - 1, m);
    }
  }

  lemma {:induction false} DigitsUpTo(s: string, j: nat, m: nat, k: nat)
    requires j <= k <= m <= |s| && (k < m ==> !IsDigitChar(s[k]))
    requires forall q :: j <= q < k ==> IsDigitChar(s[q])
    ensures DigitsEnd(s, j, m) == k
    decreases k - j
  {
    if j < k {
      DigitsUpTo(s, j + 1, m, k);
    }
  }

  /** A decimal string is worth more than 0 exactly when it has a digit
      other than '0'. */
  lemma {:induction false} DecimalPositive(s: string)
    requires IsDecimal(s)
    ensures DecimalValue(s) > 0 <==> exists k :: 0 <= k < |s| && s[k] != '0'
  {
    if |s| > 1 {
      var init := s[..|s| - 1];
      DecimalPositive(init);
      if exists k :: 0 <= k < |s| && s[k] != '0' {
        var k :| 0 <= k < |s| && s[k] != '0';
        if k < |s| - 1 {
          assert init[k] != '0';
        }
      }
      if exists k :: 0 <= k < |init| && init[k] != '0' {
        var k :| 0 <= k < |init| && init[k] != '0';
        assert s[k] != '0';
      }
    }
  }

  /** A single key is a valid number exactly when it is a digit 1-9, the
      keys the board accepts. */
  lemma ValidKeys(input: string)
    requires |input| == 1
    ensures IsValidNumber(input) <==> IsDigitStr(input)
  {
    if IsDigitChar(input[0]) {
      assert input[0..1] == input;
    }
  }

  // ---------------------------------------------------------------------
  // convertShiftNumber and convertNumLockShift
  // ---------------------------------------------------------------------

  /** The shifted digit keys of the keyboard layout the source targets, in
      digit order (the key for 4 is the two characters U+00C2 U+00A4 as
      they stand in the source). */
  const ShiftKeys: seq<string> := ["!", "\"", "#", "\U{00C2}\U{00A4}", "%", "&", "/", "(", ")"]

  /** The NumLock keypad keys with shift held, in digit order. */
  const NumLockKeys: seq<string> :=
    ["End", "ArrowDown", "PageDown", "ArrowLeft", "Clear", "ArrowRight", "Home", "ArrowUp", "PageUp"]

  /** `convertShiftNumber(input)`; `None` is `false`. */
  function ConvertShiftNumber(input: string): (r: Option<string>)
  {
    match input
    case "!" => Some("1")
    case "\"" => Some("2")
    case "#" => Some("3")
    case "\U{00C2}\U{00A4}" => Some("4")
    case "%" => Some("5")
    case "&" => Some("6")
    case "/" => Some("7")
    case "(" => Some("8")
    case ")" => Some("9")
    case _ => None
  }

  /** `convertNumLockShift(input)`; `None` is `false`. */
  function ConvertNumLockShift(input: string): (r: Option<string>)
  {
    match input
    case "End" => Some("1")
    case "ArrowDown" => Some("2")
    case "PageDown" => Some("3")
    case "ArrowLeft" => Some("4")
    case "Clear" => Some("5")
    case "ArrowRight" => Some("6")
    case "Home" => Some("7")
    case "ArrowUp" => Some("8")
    case "PageUp" => Some("9")
    case _ => None
  }

  /** Each translation is a bijection between its nine keys and the digits
      1-9: key `d` gives digit `d`, a translated key is the key of its
      digit, and any other input gives `false`. */
  lemma ConvertShiftNumberBijective(input: string, d: nat)
    requires 1 <= d <= 9
    ensures ConvertShiftNumber(ShiftKeys[d - 1]) == Some(DigitStr(d))
    ensures ConvertShiftNumber(input) == Some(DigitStr(d)) ==> input == ShiftKeys[d - 1]
    ensures ConvertShiftNumber(input).Some? <==> input in ShiftKeys
  {
  }

  lemma ConvertNumLockShiftBijective(input: string, d: nat)
    requires 1 <= d <= 9
    ensures ConvertNumLockShift(NumLockKeys[d - 1]) == Some(DigitStr(d))
    ensures ConvertNumLockShift(input) == Some(DigitStr(d)) ==> input == NumLockKeys[d - 1]
    ensures ConvertNumLockShift(input).Some? <==> input in NumLockKeys
  {
  }
}
