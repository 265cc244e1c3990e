/** Cells, boards, the step descriptions the solver reports, and the one
    board update every elimination technique performs: a `board.map` that
    strikes candidates from the cells a rule selects. */
module Board {
  import opened Lists
  import opened Grid

  /** A cell as the solver sees it (`CellT` without the display-only `error`
      and `color` fields). `bigNum` is the placed digit or "", the corner
      pencil marks are the candidates. */
  datatype Cell = Cell(
    id: string,
    locked: bool,
    bigNum: string,
    cornerPencil: seq<string>,
    centerPencil: seq<string>)

  type Board = seq<Cell>

  /** 81 cells in id order, the order `getRowsBoxesColumns` sorts its
      argument into and the order the puzzle loader builds. */
  ghost predicate WellFormed(b: Board)
  {
    |b| == 81 && forall p :: 0 <= p < 81 ==> b[p].id == IdOf(p)
  }

  /** JavaScript truthiness of `cell.bigNum`. */
  predicate Filled(c: Cell)
  {
    c.bigNum != ""
  }

  /** `s[i]` as a one-character string; "" stands for `undefined`, which
      equals no character of an id. */
  function Ch(s: string, i: int): (r: string)
    ensures |r| <= 1
    ensures 0 <= i < |s| ==> r == [s[i]]
  {
    if 0 <= i < |s| then [s[i]] else ""
  }

  /** `id[0]`, the column letter, and `id[1]`, the row digit. */
  function ColStr(id: string): string { Ch(id, 0) }
  function RowStr(id: string): string { Ch(id, 1) }

  function Ids(cells: seq<Cell>): (r: seq<string>)
    ensures |r| == |cells| && forall k :: 0 <= k < |cells| ==> r[k] == cells[k].id
  {
    seq(|cells|, k requires 0 <= k < |cells| => cells[k].id)
  }

  /** `ids.map((id) => id[0])` and `ids.map((id) => id[1])`. */
  function ColsOf(ids: seq<string>): (r: seq<string>)
    ensures |r| == |ids| && forall k :: 0 <= k < |ids| ==> r[k] == ColStr(ids[k])
  {
    seq(|ids|, k requires 0 <= k < |ids| => ColStr(ids[k]))
  }

  function RowsOf(ids: seq<string>): (r: seq<string>)
    ensures |r| == |ids| && forall k :: 0 <= k < |ids| ==> r[k] == RowStr(ids[k])
  {
    seq(|ids|, k requires 0 <= k < |ids| => RowStr(ids[k]))
  }

  /** Group `x` of a kind, in the source's walking order. */
  function Group(b: Board, kind: Kind, x: nat): (g: seq<Cell>)
    requires |b| == 81 && x < 9
    ensures |g| == 9 && forall k :: 0 <= k < 9 ==> g[k] == b[Slot(kind, x, k)]
  {
    seq(9, k requires 0 <= k < 9 => b[Slot(kind, x, k)])
  }

  /** A board without repeated cells has none in any group. */
  lemma GroupNoDup(b: Board, kind: Kind, x: nat)
    requires |b| == 81 && x < 9 && NoDup(b)
    ensures NoDup(Group(b, kind, x))
  {
    var g := Group(b, kind, x);
    forall i, j | 0 <= i < j < 9 ensures g[i] != g[j] {
      if Slot(kind, x, i) == Slot(kind, x, j) {
        SlotInjective(kind, x, i, j);
      }
    }
  }

  // ---------------------------------------------------------------------
  // What a technique reports (`TSpecs`). Absent optional fields are the
  // empty list, `false` and `NoLabel`.
  // ---------------------------------------------------------------------

  /** The `set` label `${setTypes[c]}: ${x + 1}`, kept as the group it names
      (`index` counts from 0). */
  datatype Label = NoLabel | GroupLabel(kind: Kind, index: nat)

  datatype Specs = Specs(
    affectedCells: seq<string>,
    affectedNumbers: seq<string>,
    sourceCells: seq<string>,
    fins: seq<string>,
    sashimi: bool,
    setLabel: Label)

  /** A technique that fired: the new board and its description. */
  datatype Found = Found(board: Board, specs: Specs)

  function Labelled(f: Found, l: Label): Found
  {
    f.(specs := f.specs.(setLabel := l))
  }

  /** `if (result) return { ...result, specs: { ...result.specs, set } }`. */
  function Relabel(r: Option<Found>, l: Label): Option<Found>
  {
    if r.Some? then Some(Labelled(r.value, l)) else None
  }

  // ---------------------------------------------------------------------
  // Candidate lists.
  // ---------------------------------------------------------------------

  /** `marks.filter((m) => !ds.includes(m))`. */
  function Without(marks: seq<string>, ds: seq<string>): (r: seq<string>)
    ensures forall m :: m in r <==> m in marks && m !in ds
    ensures |r| <= |marks|
  {
    if marks == [] then []
    else (if marks[0] in ds then [] else [marks[0]]) + Without(marks[1..], ds)
  }

  /** `marks.filter((m) => ds.includes(m))`. */
  function OnlyFrom(marks: seq<string>, ds: seq<string>): (r: seq<string>)
    ensures forall m :: m in r <==> m in marks && m in ds
    ensures |r| <= |marks|
  {
    if marks == [] then []
    else (if marks[0] in ds then [marks[0]] else []) + OnlyFrom(marks[1..], ds)
  }

  /** Some digit of `ds` is among `marks`. */
  predicate Meets(ds: seq<string>, marks: seq<string>)
  {
    exists d :: d in ds && d in marks
  }

  // ---------------------------------------------------------------------
  // The board update. Every elimination builds its new board with
  // `board.map((cell) => ...)`, returning the cell unchanged unless a rule
  // selects it, and reports a result only if some cell was selected
  // (`somethingChanged`).
  // ---------------------------------------------------------------------

  /** Which cells a finding may touch. `PeersOf(ts)` is
      `findRestrictedCells(ts).includes(cell.id)`; the `InRows` / `InCols`
      variants add the `.filter(...)` on the row digit or column letter. */
  datatype Zone =
    | Among(ids: seq<string>)
    | PeersOf(targets: seq<string>)
    | PeersOfInRows(targets: seq<string>, rows: seq<string>)
    | PeersOfInCols(targets: seq<string>, cols: seq<string>)
    | InColumns(cols: seq<string>)
    | InRows(rows: seq<string>)

  predicate InZone(zone: Zone, id: string)
  {
    match zone
    case Among(ids) => id in ids
    case PeersOf(ts) => SeenByAll(ts, id)
    case PeersOfInRows(ts, rows) => SeenByAll(ts, id) && RowStr(id) in rows
    case PeersOfInCols(ts, cols) => SeenByAll(ts, id) && ColStr(id) in cols
    case InColumns(cols) => ColStr(id) in cols
    case InRows(rows) => RowStr(id) in rows
  }

  /** `findRestrictedCells` applied to an array of ids: the cells that see
      every one of them. An empty array sees nothing. */
  predicate SeenByAll(targets: seq<string>, id: string)
  {
    IsId(id) && |targets| > 0 &&
    forall t :: t in targets ==> IsId(t) && Peer(PosOf(t), PosOf(id))
  }

  /** The two shapes of update.
      `Strike`: remove `digits` from every selected cell; a cell is selected
      when it is in the zone, not in `skip`, unfilled (if `unfilledOnly`)
      and holds one of `digits`.
      `Keep`: in the `cells` of a hidden subset, keep only `digits`; a cell
      is selected when it holds some other mark, or, with `atLeastThree`
      (hidden pairs), when it holds three marks or more. */
  datatype Rule =
    | Strike(zone: Zone, skip: seq<string>, unfilledOnly: bool, digits: seq<string>)
    | Keep(cells: seq<string>, digits: seq<string>, atLeastThree: bool)

  predicate Selects(rule: Rule, c: Cell)
  {
    match rule
    case Strike(zone, skip, unfilledOnly, ds) =>
      (!unfilledOnly || !Filled(c)) && InZone(zone, c.id) && c.id !in skip && Meets(ds, c.cornerPencil)
    case Keep(cells, ds, atLeastThree) =>
      c.id in cells &&
      if atLeastThree then |c.cornerPencil| >= 3 else exists m :: m in c.cornerPencil && m !in ds
  }

  function Marks(rule: Rule, marks: seq<string>): seq<string>
  {
    match rule
    case Strike(_, _, _, ds) => Without(marks, ds)
    case Keep(_, ds, _) => OnlyFrom(marks, ds)
  }

  /** The `board.map` of an elimination. */
  function Apply(b: Board, rule: Rule): (r: Board)
    ensures OnlyMarksShrink(b, r)
  {
    seq(|b|, i requires 0 <= i < |b| =>
      if Selects(rule, b[i]) then b[i].(cornerPencil := Marks(rule, b[i].cornerPencil)) else b[i])
  }

  /** The ids the map selected, in board order (`affectedCells`). */
  function Selected(b: Board, rule: Rule): (r: seq<string>)
    ensures |r| <= |b|
    ensures forall id :: id in r <==> exists i :: 0 <= i < |b| && b[i].id == id && Selects(rule, b[i])
  {
    if b == [] then []
    else
      var rest := Selected(b[1..], rule);
      assert forall i :: 0 < i < |b| ==> b[i] == b[1..][i - 1];
      (if Selects(rule, b[0]) then [b[0].id] else []) + rest
  }

  /** What a technique reports for one attempt: the new board when the map
      selected some cell (`somethingChanged`), nothing otherwise. */
  function Fire(b: Board, rule: Rule, specs: Specs): (r: Option<Found>)
    ensures r.Some? <==> Selected(b, rule) != []
    ensures r.Some? ==> r.value == Found(Apply(b, rule), specs)
  {
    if Selected(b, rule) != [] then Some(Found(Apply(b, rule), specs)) else None
  }

  /** A strike that fires only removes marks, removes at least one, and
      touches only the cells its rule selects, where it removes exactly the
      struck digits. */
  lemma FireStrike(b: Board, zone: Zone, skip: seq<string>, unfilledOnly: bool, ds: seq<string>, specs: Specs)
    ensures var rule := Strike(zone, skip, unfilledOnly, ds);
      Fire(b, rule, specs).Some? ==>
        var r := Fire(b, rule, specs).value.board;
        OnlyMarksShrink(b, r) && RemovesSome(b, r) &&
        forall i :: 0 <= i < |b| ==>
          (r[i] != b[i] ==> (!unfilledOnly || !Filled(b[i])) && InZone(zone, b[i].id) && b[i].id !in skip) &&
          r[i].cornerPencil == (if Selects(rule, b[i]) then Without(b[i].cornerPencil, ds) else b[i].cornerPencil)
  {
    StrikeChanges(b, zone, skip, unfilledOnly, ds);
  }

  /** The new board only loses corner marks: same length, same ids, placed
      digits, locks and centre marks, and no corner mark appears that was
      not there before. */
  ghost predicate OnlyMarksShrink(b: Board, r: Board)
  {
    |r| == |b| &&
    forall i :: 0 <= i < |b| ==>
      r[i].id == b[i].id && r[i].locked == b[i].locked && r[i].bigNum == b[i].bigNum &&
      r[i].centerPencil == b[i].centerPencil &&
      (forall m :: m in r[i].cornerPencil ==> m in b[i].cornerPencil)
  }

  /** Some corner mark of some cell is gone. */
  ghost predicate RemovesSome(b: Board, r: Board)
  {
    |r| == |b| && exists i, m :: 0 <= i < |b| && m in b[i].cornerPencil && m !in r[i].cornerPencil
  }

  /** Some empty cell now holds a number. */
  ghost predicate FillsSome(b: Board, r: Board)
  {
    |r| == |b| && exists i :: 0 <= i < |b| && !Filled(b[i]) && Filled(r[i])
  }

  /** A move makes progress: it removes a mark or fills a cell. */
  ghost predicate Progress(b: Board, r: Board)
  {
    RemovesSome(b, r) || FillsSome(b, r)
  }

  /** The marks of every cell are distinct and non-empty, and filled cells
      carry none. */
  ghost predicate TidyMarks(b: Board)
  {
    forall i :: 0 <= i < |b| ==>
      NoDup(b[i].cornerPencil) && "" !in b[i].cornerPencil && (Filled(b[i]) ==> b[i].cornerPencil == [])
  }

  /** Exactly which marks a strike removes: a mark goes iff its cell was
      selected and the mark is one of the struck digits. */
  lemma StrikeRemovesExactly(b: Board, zone: Zone, skip: seq<string>, unfilledOnly: bool, ds: seq<string>)
    ensures var rule := Strike(zone, skip, unfilledOnly, ds); var r := Apply(b, rule);
      forall i, m :: 0 <= i < |b| && m in b[i].cornerPencil ==>
        (m !in r[i].cornerPencil <==> Selects(rule, b[i]) && m in ds)
  {
  }

  /** A hidden-subset sweep leaves the selected cells holding only subset
      digits and touches no cell outside `cells`. */
  lemma KeepConfines(b: Board, cells: seq<string>, ds: seq<string>, atLeastThree: bool)
    ensures var rule := Keep(cells, ds, atLeastThree); var r := Apply(b, rule);
      forall i :: 0 <= i < |b| ==>
        (r[i] != b[i] ==> b[i].id in cells && forall m :: m in r[i].cornerPencil ==> m in ds)
  {
  }

  /** `somethingChanged` is honest: if a strike selected a cell, a mark was
      removed, and if it selected none, the board is unchanged. */
  lemma {:induction false} StrikeChanges(b: Board, zone: Zone, skip: seq<string>, unfilledOnly: bool, ds: seq<string>)
    ensures var rule := Strike(zone, skip, unfilledOnly, ds);
      (Selected(b, rule) != [] ==> RemovesSome(b, Apply(b, rule))) &&
      (Selected(b, rule) == [] ==> Apply(b, rule) == b)
  {
    var rule := Strike(zone, skip, unfilledOnly, ds);
    var r := Apply(b, rule);
    if Selected(b, rule) != [] {
      var id := Selected(b, rule)[0];
      assert id in Selected(b, rule);
      var i :| 0 <= i < |b| && b[i].id == id && Selects(rule, b[i]);
      var d :| d in ds && d in b[i].cornerPencil;
      assert d !in r[i].cornerPencil;
    } else {
      forall i | 0 <= i < |b| ensures r[i] == b[i] {
        assert b[i].id !in Selected(b, rule);
      }
    }
  }

  /** The same for a hidden-subset sweep. With `atLeastThree` a selected cell
      is only known to lose a mark when its marks are distinct and the subset
      has at most two digits; with repeated marks `somethingChanged` can be
      set although no mark goes. */
  lemma {:induction false} KeepChanges(b: Board, cells: seq<string>, ds: seq<string>, atLeastThree: bool)
    requires atLeastThree ==> |ds| <= 2 && forall i :: 0 <= i < |b| ==> NoDup(b[i].cornerPencil)
    ensures var rule := Keep(cells, ds, atLeastThree);
      (Selected(b, rule) != [] ==> RemovesSome(b, Apply(b, rule))) &&
      (Selected(b, rule) == [] ==> Apply(b, rule) == b)
  {
    var rule := Keep(cells, ds, atLeastThree);
    var r := Apply(b, rule);
    if Selected(b, rule) != [] {
      var id := Selected(b, rule)[0];
      assert id in Selected(b, rule);
      var i :| 0 <= i < |b| && b[i].id == id && Selects(rule, b[i]);
      var marks := b[i].cornerPencil;
      if atLeastThree {
        if forall m :: m in marks ==> m in ds {
          NoDupCard(marks);
          SubsetCard(marks, ds);
          assert false;
        }
      }
      var m :| m in marks && m !in ds;
      assert m !in r[i].cornerPencil;
    } else {
      forall i | 0 <= i < |b| ensures r[i] == b[i] {
        assert b[i].id !in Selected(b, rule);
      }
    }
  }

  /** A sweep depends only on which cells and digits it names. */
  lemma KeepSelectsSame(b: Board, cells: seq<string>, ds: seq<string>, cells': seq<string>, ds': seq<string>, atLeastThree: bool)
    requires (forall id :: id in cells <==> id in cells') && forall m :: m in ds <==> m in ds'
    requires Selected(b, Keep(cells, ds, atLeastThree)) != []
    ensures Selected(b, Keep(cells', ds', atLeastThree)) != []
  {
    var id := Selected(b, Keep(cells, ds, atLeastThree))[0];
    assert id in Selected(b, Keep(cells, ds, atLeastThree));
    var i :| 0 <= i < |b| && b[i].id == id && Selects(Keep(cells, ds, atLeastThree), b[i]);
    assert Selects(Keep(cells', ds', atLeastThree), b[i]);
    assert id in Selected(b, Keep(cells', ds', atLeastThree));
  }

  /** Whether a strike on the peers of some cells selects anything depends
      only on which cells and which digits, not on their order. */
  lemma StrikeSelectsSame(b: Board, ts: seq<string>, ds: seq<string>, ts': seq<string>, ds': seq<string>, unfilledOnly: bool)
    requires (forall id :: id in ts <==> id in ts') && forall m :: m in ds <==> m in ds'
    requires Selected(b, Strike(PeersOf(ts), [], unfilledOnly, ds)) != []
    ensures Selected(b, Strike(PeersOf(ts'), [], unfilledOnly, ds')) != []
  {
    var id := Selected(b, Strike(PeersOf(ts), [], unfilledOnly, ds))[0];
    assert id in Selected(b, Strike(PeersOf(ts), [], unfilledOnly, ds));
    var i :| 0 <= i < |b| && b[i].id == id && Selects(Strike(PeersOf(ts), [], unfilledOnly, ds), b[i]);
    assert |ts| > 0;
    assert ts[0] in ts';
    assert Selects(Strike(PeersOf(ts'), [], unfilledOnly, ds'), b[i]);
    assert id in Selected(b, Strike(PeersOf(ts'), [], unfilledOnly, ds'));
  }

  /** Any rule that fires removes at least one corner mark, under the
      condition `KeepChanges` needs for a sweep that keeps cells with at
      least three marks. */
  lemma FireRemoves(b: Board, rule: Rule, specs: Specs)
    requires rule.Keep? && rule.atLeastThree ==> |rule.digits| <= 2 && forall i :: 0 <= i < |b| ==> NoDup(b[i].cornerPencil)
    ensures Fire(b, rule, specs).Some? ==> RemovesSome(b, Fire(b, rule, specs).value.board)
  {
    match rule
    case Strike(zone, skip, unfilledOnly, ds) => StrikeChanges(b, zone, skip, unfilledOnly, ds);
    case Keep(cells, ds, atLeastThree) => KeepChanges(b, cells, ds, atLeastThree);
  }

  lemma SubsetCard(s: seq<string>, t: seq<string>)
    requires forall m :: m in s ==> m in t
    ensures |ToSet(s)| <= |t|
  {
    assert ToSet(s) <= ToSet(t);
    SetCardSub(ToSet(s), ToSet(t));
    SeqSetCard(t);
  }

  lemma SetCardSub(a: set<string>, c: set<string>)
    requires a <= c
    ensures |a| <= |c|
  {
    assert c == a + (c - a);
  }

  lemma {:induction false} SeqSetCard(t: seq<string>)
    ensures |ToSet(t)| <= |t|
  {
    if t != [] {
      SeqSetCard(t[1..]);
      assert ToSet(t) == ToSet(t[1..]) + {t[0]};
    }
  }

  /** `new Set(xs).size === 1` in the source's sort-and-dedupe spelling:
      there is exactly one distinct value iff the list is non-empty and
      constant. */
  lemma SingleDistinct(xs: seq<string>)
    ensures |Uniq(Sort(xs))| == 1 <==> |xs| > 0 && forall i :: 0 <= i < |xs| ==> xs[i] == xs[0]
  {
    DistinctCount(xs);
    if |xs| > 0 && forall i :: 0 <= i < |xs| ==> xs[i] == xs[0] {
      assert ToSet(xs) == {xs[0]};
    } else if |xs| > 0 {
      var i :| 0 <= i < |xs| && xs[i] != xs[0];
      assert {xs[0], xs[i]} <= ToSet(xs);
      SetCardSub({xs[0], xs[i]}, ToSet(xs));
    } else {
      assert ToSet(xs) == {};
    }
  }
}
