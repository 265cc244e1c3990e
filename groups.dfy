/** The solver's views of a board: its rows, columns and boxes
    (`getRowsBoxesColumns`), the box each cell is in (`getBoxIndexes`) and,
    per group, the cells each digit can still go into (`enumSets`). */
module Groups {
  import opened Lists
  import opened Grid
  import opened Board

  // ---------------------------------------------------------------------
  // getRowsBoxesColumns
  // ---------------------------------------------------------------------

  /** `board.sort((a, b) => a.id < b.id ? -1 : a.id > b.id ? 1 : 0)`, the
      sort that opens `getRowsBoxesColumns` (a stable insertion sort). */
  function SortById(cells: seq<Cell>): (r: seq<Cell>)
    ensures |r| == |cells|
    ensures multiset(r) == multiset(cells)
  {
    if cells == [] then []
    else
      assert cells == [cells[0]] + cells[1..];
      InsertById(cells[0], SortById(cells[1..]))
  }

  function InsertById(c: Cell, s: seq<Cell>): (r: seq<Cell>)
    ensures |r| == |s| + 1
    ensures multiset(r) == multiset(s) + multiset{c}
  {
    if s == [] || LessEq(c.id, s[0].id) then [c] + s
    else
      assert s == [s[0]] + s[1..];
      [s[0]] + InsertById(c, s[1..])
  }

  /** Ids grow strictly with the position. */
  lemma IdOrder(p: nat, q: nat)
    requires p < q < 81
    ensures Less(IdOf(p), IdOf(q))
  {
    var a, b := IdOf(p), IdOf(q);
    if a[0] == b[0] {
      assert a[1..][0] < b[1..][0];
    }
  }

  /** On a board in id order the sort changes nothing, so every view the
      solver takes of such a board sees it unchanged. */
  lemma {:induction false} SortByIdKeepsOrder(b: Board, j: nat)
    requires WellFormed(b) && j <= 81
    ensures SortById(b[j..]) == b[j..]
  {
    var t := b[j..];
    forall i | 0 < i < |t| ensures Less(t[i - 1].id, t[i].id) {
      IdOrder(j + i - 1, j + i);
    }
    AscendingKept(t);
  }

  /** Cells already in strictly increasing id order are left as they are. */
  lemma {:induction false} AscendingKept(cells: seq<Cell>)
    requires forall i :: 0 < i < |cells| ==> Less(cells[i - 1].id, cells[i].id)
    ensures SortById(cells) == cells
  {
    if cells != [] {
      AscendingKept(cells[1..]);
      assert cells == [cells[0]] + cells[1..];
      if |cells| > 1 {
        assert cells[1..][0] == cells[1];
      }
    }
  }

  lemma SortByIdIdentity(b: Board)
    ensures WellFormed(b) ==> SortById(b) == b
  {
    if WellFormed(b) {
      SortByIdKeepsOrder(b, 0);
      assert b[0..] == b;
    }
  }

  /** The first `m` cells of group `x`. */
  function GroupPrefix(b: Board, kind: Kind, x: nat, m: nat): (g: seq<Cell>)
    requires |b| == 81 && x < 9 && m <= 9
    ensures |g| == m
  {
    seq(m, k requires 0 <= k < m => b[Slot(kind, x, k)])
  }

  /** All nine groups of a kind, or the first `m` of them. */
  function Family(b: Board, kind: Kind, m: nat): (f: seq<seq<Cell>>)
    requires |b| == 81 && m <= 9
    ensures |f| == m && forall x :: 0 <= x < m ==> f[x] == Group(b, kind, x)
  {
    seq(m, x requires 0 <= x < m => Group(b, kind, x))
  }

  /** The positions the source's nested loop reads are the group slots. */
  lemma LoopIndexIsSlot(i: nat, x: nat, y: nat, z: nat)
    requires i < 3 && x < 3 && y < 3 && z < 3
    ensures Slot(ColumnKind, i * 3 + x, y * 3 + z) == (y * 3 + z) + (i * 3 + x) * 9
    ensures Slot(RowKind, i * 3 + x, y * 3 + z) == (i * 3 + x) + (y * 3 + z) * 9
    ensures Slot(BoxKind, i * 3 + x, y * 3 + z) == i * 27 + x * 3 + (y * 9 + z)
  {
    DivMod3(i, x);
    DivMod3(y, z);
  }

  lemma PrefixStep(b: Board, kind: Kind, x: nat, m: nat)
    requires |b| == 81 && x < 9 && m < 9
    ensures GroupPrefix(b, kind, x, m + 1) == GroupPrefix(b, kind, x, m) + [b[Slot(kind, x, m)]]
  {
  }

  lemma FamilyStep(b: Board, kind: Kind, m: nat)
    requires |b| == 81 && m < 9
    ensures Family(b, kind, m + 1) == Family(b, kind, m) + [GroupPrefix(b, kind, m, 9)]
  {
    assert GroupPrefix(b, kind, m, 9) == Group(b, kind, m);
  }

  /** The first `m` rows, columns and boxes are done. */
  ghost predicate FamiliesSoFar(b: Board, m: nat, rows: seq<seq<Cell>>, columns: seq<seq<Cell>>, boxes: seq<seq<Cell>>)
    requires |b| == 81 && m <= 9
  {
    rows == Family(b, RowKind, m) && columns == Family(b, ColumnKind, m) && boxes == Family(b, BoxKind, m)
  }

  /** The first `m` cells of row, column and box `g` are collected. */
  ghost predicate GroupsSoFar(b: Board, g: nat, m: nat, row: seq<Cell>, column: seq<Cell>, box: seq<Cell>)
    requires |b| == 81 && g < 9 && m <= 9
  {
    row == GroupPrefix(b, RowKind, g, m) && column == GroupPrefix(b, ColumnKind, g, m) &&
    box == GroupPrefix(b, BoxKind, g, m)
  }

  lemma GroupsStep(b: Board, i: nat, x: nat, y: nat, z: nat, row: seq<Cell>, column: seq<Cell>, box: seq<Cell>)
    requires |b| == 81 && i < 3 && x < 3 && y < 3 && z < 3
    requires GroupsSoFar(b, i * 3 + x, y * 3 + z, row, column, box)
    ensures GroupsSoFar(b, i * 3 + x, y * 3 + z + 1,
      row + [b[(i * 3 + x) + (y * 3 + z) * 9]],
      column + [b[(y * 3 + z) + (i * 3 + x) * 9]],
      box + [b[i * 27 + x * 3 + (y * 9 + z)]])
  {
    LoopIndexIsSlot(i, x, y, z);
    PrefixStep(b, RowKind, i * 3 + x, y * 3 + z);
    PrefixStep(b, ColumnKind, i * 3 + x, y * 3 + z);
    PrefixStep(b, BoxKind, i * 3 + x, y * 3 + z);
  }

  lemma FamiliesStep(b: Board, g: nat, rows: seq<seq<Cell>>, columns: seq<seq<Cell>>, boxes: seq<seq<Cell>>,
                     row: seq<Cell>, column: seq<Cell>, box: seq<Cell>)
    requires |b| == 81 && g < 9
    requires FamiliesSoFar(b, g, rows, columns, boxes) && GroupsSoFar(b, g, 9, row, column, box)
    ensures FamiliesSoFar(b, g + 1, rows + [row], columns + [column], boxes + [box])
  {
    FamilyStep(b, RowKind, g);
    FamilyStep(b, ColumnKind, g);
    FamilyStep(b, BoxKind, g);
  }

  /** Sorting by id a second time changes nothing, so every technique that
      sorts the solver's (already sorted) board sees it unchanged. */
  lemma SortByIdIdempotent(b: Board)
    ensures SortById(SortById(b)) == SortById(b)
  {
    IdsOfSort(b);
    SortBySorted(Ids(b), false);
    SortedFixed(SortById(b));
  }

  lemma {:induction false} IdsOfSort(b: Board)
    ensures Ids(SortById(b)) == SortBy(Ids(b), false)
  {
    if b != [] {
      IdsOfSort(b[1..]);
      assert Ids(b)[1..] == Ids(b[1..]);
      IdsOfInsert(b[0], SortById(b[1..]));
    }
  }

  lemma {:induction false} IdsOfInsert(c: Cell, s: seq<Cell>)
    ensures Ids(InsertById(c, s)) == Insert(c.id, Ids(s), false)
  {
    if s != [] && !LessEq(c.id, s[0].id) {
      IdsOfInsert(c, s[1..]);
      assert Ids(s)[1..] == Ids(s[1..]);
      IdsCons(s[0], InsertById(c, s[1..]));
    } else {
      IdsCons(c, s);
    }
  }

  lemma IdsCons(c: Cell, s: seq<Cell>)
    ensures Ids([c] + s) == [c.id] + Ids(s)
  {
  }

  lemma {:induction false} SortedFixed(s: seq<Cell>)
    requires SortedBy(Ids(s), false)
    ensures SortById(s) == s
  {
    if s != [] {
      var t := s[1..];
      assert SortedBy(Ids(t), false) by {
        forall i, j | 0 <= i < j < |t| ensures LessEq(Ids(t)[i], Ids(t)[j]) {
          assert Ids(s)[i + 1] == Ids(t)[i] && Ids(s)[j + 1] == Ids(t)[j];
        }
      }
      SortedFixed(t);
      if t != [] {
        assert LessEq(Ids(s)[0], Ids(s)[1]);
      }
      assert s == [s[0]] + t;
    }
  }

  /** The board, sorted by id, split into its nine rows, nine columns and
      nine boxes. Box `i * 3 + x` is column band `i`, row band `x`. On a
      board already in id order the sort changes nothing
      (`SortByIdIdentity`), so these are the board's own groups. */
  method GetRowsBoxesColumns(board: Board) returns (rows: seq<seq<Cell>>, columns: seq<seq<Cell>>, boxes: seq<seq<Cell>>)
    requires |board| == 81
    ensures var b := SortById(board);
      rows == Family(b, RowKind, 9) && columns == Family(b, ColumnKind, 9) && boxes == Family(b, BoxKind, 9)
  {
    var b := SortById(board);
    rows, columns, boxes := [], [], [];
    for i := 0 to 3
      invariant FamiliesSoFar(b, i * 3, rows, columns, boxes)
    {
      for x := 0 to 3
        invariant FamiliesSoFar(b, i * 3 + x, rows, columns, boxes)
      {
        var row: seq<Cell> := [];
        var column: seq<Cell> := [];
        var box: seq<Cell> := [];
        for y := 0 to 3
          invariant GroupsSoFar(b, i * 3 + x, y * 3, row, column, box)
        {
          for z := 0 to 3
            invariant GroupsSoFar(b, i * 3 + x, y * 3 + z, row, column, box)
          {
            GroupsStep(b, i, x, y, z, row, column, box);
            column := column + [b[(y * 3 + z) + (i * 3 + x) * 9]];
            row := row + [b[(i * 3 + x) + (y * 3 + z) * 9]];
            box := box + [b[i * 27 + x * 3 + (y * 9 + z)]];
          }
        }
        FamiliesStep(b, i * 3 + x, rows, columns, boxes, row, column, box);
        rows := rows + [row];
        columns := columns + [column];
        boxes := boxes + [box];
      }
    }
  }

  /** Nine groups of nine cells per kind; column `x` holds exactly the cells
      with letter `x`, row `x` those with digit `x + 1`, and every cell sits
      in exactly one group of each kind, at exactly one place. */
  lemma FamiliesPartitionBoard(b: Board, kind: Kind, p: nat)
    requires WellFormed(b) && p < 81
    ensures Group(b, kind, GroupOf(kind, p))[PlaceIn(kind, p)] == b[p]
    ensures forall x, k :: 0 <= x < 9 && 0 <= k < 9 && Group(b, kind, x)[k].id == b[p].id ==>
      x == GroupOf(kind, p) && k == PlaceIn(kind, p)
    ensures kind == ColumnKind ==> forall k :: 0 <= k < 9 ==> Group(b, kind, ColOf(p))[k].id[0] == b[p].id[0]
    ensures kind == RowKind ==> forall k :: 0 <= k < 9 ==> Group(b, kind, RowOf(p))[k].id[1] == b[p].id[1]
  {
    SlotBijective(kind, p);
    forall x, k | 0 <= x < 9 && 0 <= k < 9 && Group(b, kind, x)[k].id == b[p].id
      ensures x == GroupOf(kind, p) && k == PlaceIn(kind, p)
    {
      IdOfInjective(Slot(kind, x, k), p);
    }
  }

  // ---------------------------------------------------------------------
  // getBoxIndexes
  // ---------------------------------------------------------------------

  /** `boxes.findIndex((box) => box.find((cell) => cell.id === id))`,
      searching from box `x`; -1 when no box holds the id. */
  function BoxIndexFrom(b: Board, id: string, x: nat): (r: int)
    requires |b| == 81
    ensures -1 <= r < 9
    decreases 9 - x
  {
    if x >= 9 then -1
    else if id in Ids(Group(b, BoxKind, x)) then x
    else BoxIndexFrom(b, id, x + 1)
  }

  /** `getBoxIndexes(board, ids)`, keeping only the index half of each pair
      (the only half the solver reads). */
  function BoxIndexes(b: Board, ids: seq<string>): (r: seq<int>)
    requires |b| == 81
    ensures |r| == |ids| && forall k :: 0 <= k < |ids| ==> r[k] == BoxIndexFrom(b, ids[k], 0)
  {
    seq(|ids|, k requires 0 <= k < |ids| => BoxIndexFrom(b, ids[k], 0))
  }

  /** On a board in id order the index found is the box of the id, and an
      id that is not on the board has none. */
  lemma BoxIndexIsBox(b: Board, id: string)
    requires WellFormed(b)
    ensures IsId(id) ==> BoxIndexFrom(b, id, 0) == BoxOf(PosOf(id))
    ensures !IsId(id) ==> BoxIndexFrom(b, id, 0) == -1
  {
    if IsId(id) {
      var p := PosOf(id);
      PosOfRoundTrip(id);
      SlotBijective(BoxKind, p);
      BoxIndexSkips(b, id, 0, BoxOf(p));
      assert Group(b, BoxKind, BoxOf(p))[PlaceIn(BoxKind, p)] == b[p];
    } else {
      BoxIndexNone(b, id, 0);
    }
  }

  lemma {:induction false} BoxIndexSkips(b: Board, id: string, x: nat, target: nat)
    requires WellFormed(b) && IsId(id) && x <= target < 9 && BoxOf(PosOf(id)) == target
    ensures id in Ids(Group(b, BoxKind, target)) ==> BoxIndexFrom(b, id, x) == target
    decreases target - x
  {
    if x < target {
      if id in Ids(Group(b, BoxKind, x)) {
        var k :| 0 <= k < 9 && Group(b, BoxKind, x)[k].id == id;
        PosOfRoundTrip(id);
        IdOfInjective(Slot(BoxKind, x, k), PosOf(id));
      }
      BoxIndexSkips(b, id, x + 1, target);
    }
  }

  lemma {:induction false} BoxIndexNone(b: Board, id: string, x: nat)
    requires WellFormed(b) && !IsId(id)
    ensures BoxIndexFrom(b, id, x) == -1
    decreases 9 - x
  {
    if x < 9 {
      if id in Ids(Group(b, BoxKind, x)) {
        var k :| 0 <= k < 9 && Group(b, BoxKind, x)[k].id == id;
        IdOfIsId(Slot(BoxKind, x, k));
      }
      BoxIndexNone(b, id, x + 1);
    }
  }

  /** `String(n)` for the box indexes -1 .. 8, as the default `sort` compares
      them. */
  function NumStr(n: int): (s: string)
    requires -1 <= n < 9
  {
    if n == -1 then "-1" else DigitStr(n + 1)[0 := ('0' as int + n) as char]
  }

  lemma NumStrInjective(m: int, n: int)
    requires -1 <= m < 9 && -1 <= n < 9 && NumStr(m) == NumStr(n)
    ensures m == n
  {
    if m != -1 && n != -1 {
      assert NumStr(m)[0] == NumStr(n)[0];
    }
  }

  // ---------------------------------------------------------------------
  // enumSets
  // ---------------------------------------------------------------------

  /** The ids of the cells of `g` whose candidates include `d`, in order. */
  function CellsWith(g: seq<Cell>, d: string): (r: seq<string>)
    ensures |r| <= |g|
    ensures forall id :: id in r <==> exists k :: 0 <= k < |g| && g[k].id == id && d in g[k].cornerPencil
  {
    if g == [] then []
    else
      var init := g[..|g| - 1];
      assert forall k :: 0 <= k < |init| ==> init[k] == g[k];
      CellsWith(init, d) + (if d in g[|g| - 1].cornerPencil then [g[|g| - 1].id] else [])
  }

  /** The record `enumSets` builds for one group once digits 1 .. i-1 are
      done: digit key to the cells it can go into, no key for a digit with
      no cell. */
  function EnumBelow(g: seq<Cell>, i: nat): (m: map<string, seq<string>>)
    requires i <= 10
    ensures forall key :: key in m ==> IsDigitStr(key) && key[0] < ('0' as int + i) as char
  {
    if i <= 1 then map[]
    else AddDigit(EnumBelow(g, i - 1), DigitStr(i - 1), CellsWith(g, DigitStr(i - 1)))
  }

  function AddDigit(m: map<string, seq<string>>, key: string, ids: seq<string>): map<string, seq<string>>
  {
    if ids == [] then m else m[key := ids]
  }

  function EnumMap(g: seq<Cell>): map<string, seq<string>>
  {
    EnumBelow(g, 10)
  }

  /** What `enumSets` does with one cell for digit key `key`: the list for
      the digit grows by the cell when the cell can take the digit; the
      key is created on the first such cell. */
  function Record(m: map<string, seq<string>>, key: string, c: Cell): map<string, seq<string>>
  {
    if key in c.cornerPencil then m[key := if key in m then m[key] + [c.id] else [c.id]] else m
  }

  /** The record once digits 1 .. i-1 are done and digit `i` has been
      looked for in the first `y` cells. */
  function EnumPartial(g: seq<Cell>, i: nat, y: nat): map<string, seq<string>>
    requires 1 <= i <= 9 && y <= |g|
  {
    AddDigit(EnumBelow(g, i), DigitStr(i), CellsWith(g[..y], DigitStr(i)))
  }

  lemma EnumStart(g: seq<Cell>, i: nat)
    requires 1 <= i <= 9
    ensures EnumPartial(g, i, 0) == EnumBelow(g, i)
  {
  }

  lemma EnumEnd(g: seq<Cell>, i: nat)
    requires 1 <= i <= 9
    ensures EnumPartial(g, i, |g|) == EnumBelow(g, i + 1)
  {
    assert g[..|g|] == g;
  }

  /** One step of the walk over a group for digit `i`. */
  lemma EnumStep(g: seq<Cell>, i: nat, y: nat)
    requires 1 <= i <= 9 && y < |g|
    ensures EnumPartial(g, i, y + 1) == Record(EnumPartial(g, i, y), DigitStr(i), g[y])
  {
    var key := DigitStr(i);
    assert key !in EnumBelow(g, i);
    var pre, pre' := g[..y], g[..y + 1];
    assert pre'[..y] == pre && pre'[y] == g[y];
    AddStep(EnumBelow(g, i), key, CellsWith(pre, key), g[y]);
  }

  lemma AddStep(m0: map<string, seq<string>>, key: string, ids: seq<string>, c: Cell)
    requires key !in m0
    ensures AddDigit(m0, key, ids + (if key in c.cornerPencil then [c.id] else [])) == Record(AddDigit(m0, key, ids), key, c)
  {
    if key !in c.cornerPencil {
      assert ids + [] == ids;
    } else if ids == [] {
      assert [] + [c.id] == [c.id];
    } else {
      assert m0[key := ids][key := ids + [c.id]] == m0[key := ids + [c.id]];
    }
  }

  /** `enumSets(board, x)`: the box, row and column records of group `x`. */
  method EnumSets(b: Board, x: nat) returns (boxEnum: map<string, seq<string>>, rowEnum: map<string, seq<string>>, columnEnum: map<string, seq<string>>)
    requires |b| == 81 && x < 9
    ensures var s := SortById(b);
      boxEnum == EnumMap(Group(s, BoxKind, x)) && rowEnum == EnumMap(Group(s, RowKind, x)) &&
      columnEnum == EnumMap(Group(s, ColumnKind, x))
  {
    var rows, columns, boxes := GetRowsBoxesColumns(b);
    boxEnum, rowEnum, columnEnum := EnumGroups(boxes[x], rows[x], columns[x]);
  }

  /** The loops of `enumSets` over the box, the row and the column. */
  method EnumGroups(bx: seq<Cell>, rw: seq<Cell>, cl: seq<Cell>) returns (boxEnum: map<string, seq<string>>, rowEnum: map<string, seq<string>>, columnEnum: map<string, seq<string>>)
    requires |bx| == 9 && |rw| == 9 && |cl| == 9
    ensures boxEnum == EnumMap(bx) && rowEnum == EnumMap(rw) && columnEnum == EnumMap(cl)
  {
    boxEnum, rowEnum, columnEnum := map[], map[], map[];
    for i := 1 to 10
      invariant boxEnum == EnumBelow(bx, i)
      invariant rowEnum == EnumBelow(rw, i)
      invariant columnEnum == EnumBelow(cl, i)
    {
      var key := DigitStr(i);
      EnumStart(bx, i);
      EnumStart(rw, i);
      EnumStart(cl, i);
      for y := 0 to 9
        invariant boxEnum == EnumPartial(bx, i, y)
        invariant rowEnum == EnumPartial(rw, i, y)
        invariant columnEnum == EnumPartial(cl, i, y)
      {
        EnumStep(bx, i, y);
        EnumStep(rw, i, y);
        EnumStep(cl, i, y);
        ghost var b0, r0, c0 := boxEnum, rowEnum, columnEnum;
        if key in bx[y].cornerPencil {
          boxEnum := boxEnum[key := if key in boxEnum then boxEnum[key] + [bx[y].id] else [bx[y].id]];
        }
        if key in rw[y].cornerPencil {
          rowEnum := rowEnum[key := if key in rowEnum then rowEnum[key] + [rw[y].id] else [rw[y].id]];
        }
        if key in cl[y].cornerPencil {
          columnEnum := columnEnum[key := if key in columnEnum then columnEnum[key] + [cl[y].id] else [cl[y].id]];
        }
        assert boxEnum == Record(b0, key, bx[y]) && rowEnum == Record(r0, key, rw[y]) && columnEnum == Record(c0, key, cl[y]);
      }
      EnumEnd(bx, i);
      EnumEnd(rw, i);
      EnumEnd(cl, i);
    }
  }

  // ---------------------------------------------------------------------
  // Object.entries of a record with digit keys: ascending key order.
  // ---------------------------------------------------------------------

  /** One `[num, cellIds]` pair of `Object.entries`. */
  datatype Entry = Entry(num: string, ids: seq<string>)

  function EntriesBelow(m: map<string, seq<string>>, i: nat): seq<Entry>
    requires i <= 10
  {
    if i <= 1 then []
    else
      var key := DigitStr(i - 1);
      EntriesBelow(m, i - 1) + (if key in m then [Entry(key, m[key])] else [])
  }

  function Entries(m: map<string, seq<string>>): seq<Entry>
  {
    EntriesBelow(m, 10)
  }

  /** `Object.entries(enumSets(board, x)[c])`. */
  function GroupEntries(b: Board, kind: Kind, x: nat): seq<Entry>
    requires |b| == 81 && x < 9
  {
    Entries(EnumMap(Group(b, kind, x)))
  }

  /** What the enumeration means: the entries come in ascending digit order,
      each lists exactly the group's cells whose candidates hold the digit,
      in walking order, and a digit no cell can take has no entry. */
  lemma EntriesMeaning(g: seq<Cell>)
    ensures var es := Entries(EnumMap(g));
      (forall k :: 0 <= k < |es| ==> IsDigitStr(es[k].num) && es[k].ids == CellsWith(g, es[k].num) && es[k].ids != []) &&
      (forall k, k' :: 0 <= k < k' < |es| ==> Less(es[k].num, es[k'].num)) &&
      (forall d :: 1 <= d <= 9 ==> (CellsWith(g, DigitStr(d)) != [] <==> exists k :: 0 <= k < |es| && es[k].num == DigitStr(d)))
  {
    EntriesSound(g, 10);
    EntriesAscending(g, 10);
    EntriesComplete(g, 10);
  }

  /** An entry is a digit with the (non-empty) list of cells that can take
      it. */
  lemma EntryIff(g: seq<Cell>, e: Entry)
    ensures e in Entries(EnumMap(g)) <==> IsDigitStr(e.num) && e.ids == CellsWith(g, e.num) && e.ids != []
  {
    var es := Entries(EnumMap(g));
    EntriesMeaning(g);
    if IsDigitStr(e.num) && e.ids == CellsWith(g, e.num) && e.ids != [] {
      var d := e.num[0] as int - '0' as int;
      assert e.num == DigitStr(d);
      var k :| 0 <= k < |es| && es[k].num == DigitStr(d);
      assert es[k] == e;
    }
  }

  /** The enumeration of digits below `i` and its entries, one step back. */
  lemma EntriesUnfold(g: seq<Cell>, i: nat)
    requires 1 < i <= 10
    ensures var key := DigitStr(i - 1); var m := EnumBelow(g, i);
      (key in m <==> CellsWith(g, key) != []) && (key in m ==> m[key] == CellsWith(g, key)) &&
      EntriesBelow(m, i) == EntriesBelow(EnumBelow(g, i - 1), i - 1) + (if key in m then [Entry(key, m[key])] else [])
  {
    var key := DigitStr(i - 1);
    var m' := EnumBelow(g, i - 1);
    assert key !in m';
    forall d | 1 <= d < i - 1
      ensures (DigitStr(d) in m' <==> DigitStr(d) in EnumBelow(g, i)) &&
        (DigitStr(d) in m' ==> m'[DigitStr(d)] == EnumBelow(g, i)[DigitStr(d)])
    {
      assert DigitStr(d)[0] != key[0];
    }
    EntriesAgree(m', EnumBelow(g, i), i - 1);
  }

  lemma {:induction false} EntriesSound(g: seq<Cell>, i: nat)
    requires 1 <= i <= 10
    ensures var es := EntriesBelow(EnumBelow(g, i), i);
      forall k :: 0 <= k < |es| ==>
        IsDigitStr(es[k].num) && es[k].num[0] < ('0' as int + i) as char &&
        es[k].ids == CellsWith(g, es[k].num) && es[k].ids != []
  {
    if i > 1 {
      EntriesSound(g, i - 1);
      EntriesUnfold(g, i);
    }
  }

  lemma {:induction false} EntriesAscending(g: seq<Cell>, i: nat)
    requires 1 <= i <= 10
    ensures var es := EntriesBelow(EnumBelow(g, i), i);
      forall k, k' :: 0 <= k < k' < |es| ==> Less(es[k].num, es[k'].num)
  {
    if i > 1 {
      EntriesAscending(g, i - 1);
      EntriesSound(g, i - 1);
      EntriesUnfold(g, i);
    }
  }

  lemma {:induction false} EntriesComplete(g: seq<Cell>, i: nat)
    requires 1 <= i <= 10
    ensures var es := EntriesBelow(EnumBelow(g, i), i);
      forall d :: 1 <= d < i ==>
        (CellsWith(g, DigitStr(d)) != [] <==> exists k :: 0 <= k < |es| && es[k].num == DigitStr(d))
  {
    if i > 1 {
      EntriesComplete(g, i - 1);
      EntriesSound(g, i - 1);
      EntriesUnfold(g, i);
      var key := DigitStr(i - 1);
      var es := EntriesBelow(EnumBelow(g, i), i);
      var es' := EntriesBelow(EnumBelow(g, i - 1), i - 1);
      forall d | 1 <= d < i
        ensures CellsWith(g, DigitStr(d)) != [] <==> exists k :: 0 <= k < |es| && es[k].num == DigitStr(d)
      {
        EntryOfDigit(g, i, d, es, es');
      }
    }
  }

  lemma EntryOfDigit(g: seq<Cell>, i: nat, d: nat, es: seq<Entry>, es': seq<Entry>)
    requires 1 < i <= 10 && 1 <= d < i
    requires var key := DigitStr(i - 1); var m := EnumBelow(g, i);
      (key in m <==> CellsWith(g, key) != []) &&
      es == es' + (if key in m then [Entry(key, m[key])] else [])
    requires forall k :: 0 <= k < |es'| ==> IsDigitStr(es'[k].num) && es'[k].num[0] < ('0' as int + (i - 1)) as char
    requires forall d :: 1 <= d < i - 1 ==>
      (CellsWith(g, DigitStr(d)) != [] <==> exists k :: 0 <= k < |es'| && es'[k].num == DigitStr(d))
    ensures CellsWith(g, DigitStr(d)) != [] <==> exists k :: 0 <= k < |es| && es[k].num == DigitStr(d)
  {
    var key := DigitStr(i - 1);
    var dk := DigitStr(d);
    if d < i - 1 {
      if CellsWith(g, dk) != [] {
        var k :| 0 <= k < |es'| && es'[k].num == dk;
        assert es[k] == es'[k];
      }
      if exists k :: 0 <= k < |es| && es[k].num == dk {
        var k :| 0 <= k < |es| && es[k].num == dk;
        if k < |es'| {
          assert es'[k] == es[k];
        }
      }
    } else {
      assert dk == key;
      if CellsWith(g, dk) != [] {
        assert es[|es'|].num == dk;
      }
    }
  }

  /** Adding a higher digit does not change the entries of lower digits. */
  lemma {:induction false} EntriesAgree(m: map<string, seq<string>>, m': map<string, seq<string>>, i: nat)
    requires i <= 10
    requires forall d :: 1 <= d < i ==>
      (DigitStr(d) in m <==> DigitStr(d) in m') && (DigitStr(d) in m ==> m[DigitStr(d)] == m'[DigitStr(d)])
    ensures EntriesBelow(m, i) == EntriesBelow(m', i)
  {
    if i > 1 {
      EntriesAgree(m, m', i - 1);
    }
  }
}
