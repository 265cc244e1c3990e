/** The `check...` calls `solve` in `solver.ts` makes, one per technique
    (each proved equal to its method elsewhere), and the proof that each
    of them keeps the cells of the board. */
module Techniques {
  import opened Lists
  import opened Grid
  import opened Board
  import opened Groups
  import opened Utils
  import opened Singles
  import opened Locked
  import opened Subsets
  import opened Fish
  import opened Rectangle
  import opened Wings
  import opened Steps
  import opened Solver

  /** One technique's `check...` call on the board `s`; the checks are
      only made on boards of 81 cells, and nothing is found on others. */
  function Attempt(place: (Board, string, string) -> Board, t: Technique, s: Board): Option<Found>
  {
    if |s| != 81 then None
    else match t
    case Fh => FullHouse(place, s)
    case Hs => HiddenSingles(place, s)
    case Ns => NakedSingles(place, s)
    case Lcp => LockedPointing(s)
    case Lcc => LockedClaiming(s)
    case Hp => HiddenSubsets(s, 2)
    case Np => NakedSubsets(s, 2)
    case Ht => HiddenSubsets(s, 3)
    case Nt => NakedSubsets(s, 3)
    case Xw => Fishes(s, 2, false)
    case Fxw => Fishes(s, 2, true)
    case Er => EmptyRectangles(s)
    case Xyw => XyWing(s)
    case Xyz => XyzWing(s)
    case Ww => WWing(s)
    case Nq => NakedSubsets(s, 4)
    case Hq => HiddenSubsets(s, 4)
    case Sf => Fishes(s, 3, false)
    case Jf => Fishes(s, 4, false)
    case Fsf => Fishes(s, 3, true)
    case Fjf => Fishes(s, 4, true)
  }

  /** The solver's techniques, with `place` as `updateBoard`. */
  function Attempter(place: (Board, string, string) -> Board): Attempter
  {
    (t: Technique, s: Board) => Attempt(place, t, s)
  }

  // ---------------------------------------------------------------------
  // Every technique keeps the cells
  // ---------------------------------------------------------------------

  /** A full house places its digit in the one empty cell of its group. */
  lemma FullHouseKeeps(place: (Board, string, string) -> Board, s: Board)
    requires |s| == 81 && IsPlacement(place)
    ensures FullHouse(place, s).Some? ==> SameCells(SortById(s), FullHouse(place, s).value.board)
    ensures FullHouse(place, s).Some? ==> FillsSome(SortById(s), FullHouse(place, s).value.board)
  {
    FullHouseFound(place, s);
    if FullHouse(place, s).Some? {
      var t := SortById(s);
      var x, c :| 0 <= x < 9 && 0 <= c < 3 && FullHouse(place, s) == FullHouseAt(place, t, x, c) &&
        |PlacedNums(Group(t, KindAt(c), x))| == 8;
      FullHouseAtKeeps(place, t, x, c);
    }
  }

  lemma FullHouseAtKeeps(place: (Board, string, string) -> Board, t: Board, x: nat, c: nat)
    requires |t| == 81 && x < 9 && c < 3 && IsPlacement(place)
    requires |PlacedNums(Group(t, KindAt(c), x))| == 8 && FullHouseAt(place, t, x, c).Some?
    ensures SameCells(t, FullHouseAt(place, t, x, c).value.board)
    ensures FillsSome(t, FullHouseAt(place, t, x, c).value.board)
  {
    var g := Group(t, KindAt(c), x);
    var m := MissingOne(g).value;
    FirstGapIs(Sort(PlacedNums(g)), LastEmpty(g), 1);
    LastEmptyCell(g);
    var k :| 0 <= k < 9 && !Filled(g[k]) && LastEmpty(g) == g[k].id;
    var r := place(t, m.cellId, m.num);
    assert PlacesDigit(t, r, m.cellId, m.num);
    var p := Slot(KindAt(c), x, k);
    assert t[p] == g[k] && Filled(r[p]);
  }

  /** A hidden single places a digit in the one cell of its group that
      holds it as a mark; that cell is empty when filled cells carry no
      marks. */
  lemma HiddenSinglesKeeps(place: (Board, string, string) -> Board, s: Board)
    requires |s| == 81 && IsPlacement(place)
    ensures HiddenSingles(place, s).Some? ==> SameCells(SortById(s), HiddenSingles(place, s).value.board)
    ensures HiddenSingles(place, s).Some? && TidyMarks(s) ==> FillsSome(SortById(s), HiddenSingles(place, s).value.board)
  {
    HiddenSinglesFound(place, s);
    if HiddenSingles(place, s).Some? {
      var t := SortById(s);
      var x, c :| 0 <= x < 9 && 0 <= c < 3 && HiddenSingles(place, s) == HiddenSingleAt(place, t, x, c);
      if TidyMarks(s) {
        TidySorted(s);
      }
      HiddenSingleAtKeeps(place, t, x, c);
    }
  }

  lemma HiddenSingleAtKeeps(place: (Board, string, string) -> Board, t: Board, x: nat, c: nat)
    requires |t| == 81 && x < 9 && c < 3 && IsPlacement(place)
    requires HiddenSingleAt(place, t, x, c).Some?
    ensures SameCells(t, HiddenSingleAt(place, t, x, c).value.board)
    ensures TidyMarks(t) ==> FillsSome(t, HiddenSingleAt(place, t, x, c).value.board)
  {
    var g := Group(t, KindAt(c), x);
    var e := SoleEntry(GroupEntries(t, KindAt(c), x)).value;
    var r := place(t, e.ids[0], e.num);
    assert PlacesDigit(t, r, e.ids[0], e.num);
    if TidyMarks(t) {
      EntryIff(g, e);
      assert e.ids[0] in CellsWith(g, e.num);
      var k :| 0 <= k < 9 && g[k].id == e.ids[0] && e.num in g[k].cornerPencil;
      var p := Slot(KindAt(c), x, k);
      assert t[p] == g[k] && Filled(r[p]);
    }
  }

  /** A naked single places the sole mark of an empty cell there. */
  lemma NakedSinglesKeeps(place: (Board, string, string) -> Board, s: Board)
    requires IsPlacement(place)
    ensures NakedSingles(place, s).Some? ==> SameCells(s, NakedSingles(place, s).value.board)
    ensures NakedSingles(place, s).Some? && (forall i :: 0 <= i < |s| ==> "" !in s[i].cornerPencil) ==>
      FillsSome(s, NakedSingles(place, s).value.board)
  {
    NakedSinglesFound(place, s);
    if NakedSingles(place, s).Some? {
      var i :| 0 <= i < |s| && !Filled(s[i]) && |s[i].cornerPencil| == 1 && NakedSingles(place, s).value.board == place(s, s[i].id, s[i].cornerPencil[0]);
      assert PlacesDigit(s, place(s, s[i].id, s[i].cornerPencil[0]), s[i].id, s[i].cornerPencil[0]);
    }
  }

  /** Sorting keeps the cells, so it keeps tidy marks. */
  lemma TidySorted(s: Board)
    requires TidyMarks(s)
    ensures TidyMarks(SortById(s))
  {
    var t := SortById(s);
    forall i | 0 <= i < |t|
      ensures NoDup(t[i].cornerPencil) && "" !in t[i].cornerPencil && (Filled(t[i]) ==> t[i].cornerPencil == [])
    {
      assert t[i] in multiset(s);
    }
  }

  lemma LockedKeeps(s: Board)
    requires |s| == 81
    ensures LockedPointing(s).Some? ==> OnlyMarksShrink(SortById(s), LockedPointing(s).value.board)
    ensures LockedClaiming(s).Some? ==> OnlyMarksShrink(SortById(s), LockedClaiming(s).value.board)
    ensures LockedPointing(s).Some? ==> RemovesSome(SortById(s), LockedPointing(s).value.board)
    ensures LockedClaiming(s).Some? ==> RemovesSome(SortById(s), LockedClaiming(s).value.board)
  {
    var t := SortById(s);
    PointingFound(t);
    ClaimingFound(t);
    if LockedPointing(s).Some? {
      var x, n :| 0 <= x < 9 && IsDigitStr(n) && Points(t, x, n) &&
        PointingSearch(t) == Fire(t, LockedRule(DigitCells(t, BoxKind, x, n)), LockedSpecs(DigitCells(t, BoxKind, x, n), GroupLabel(BoxKind, x)));
      FireRemoves(t, LockedRule(DigitCells(t, BoxKind, x, n)), LockedSpecs(DigitCells(t, BoxKind, x, n), GroupLabel(BoxKind, x)));
    }
    if LockedClaiming(s).Some? {
      var x, c, n :| 0 <= x < 9 && 0 <= c < 2 && IsDigitStr(n) && Claims(t, x, c, n) &&
        ClaimingSearch(t) == Fire(t, LockedRule(DigitCells(t, ClaimKind(c), x, n)), LockedSpecs(DigitCells(t, ClaimKind(c), x, n), GroupLabel(ClaimKind(c), x)));
      FireRemoves(t, LockedRule(DigitCells(t, ClaimKind(c), x, n)), LockedSpecs(DigitCells(t, ClaimKind(c), x, n), GroupLabel(ClaimKind(c), x)));
    }
  }

  /** A hidden subset removes a mark when the marks of every cell are
      distinct: a pair sweep selects a cell only for a mark outside the
      pair, and a larger sweep selects cells with at least three marks,
      more than a pair can account for. */
  lemma SubsetsKeep(s: Board, k: nat)
    requires |s| == 81
    ensures HiddenSubsets(s, k).Some? ==> OnlyMarksShrink(SortById(s), HiddenSubsets(s, k).value.board)
    ensures NakedSubsets(s, k).Some? ==> OnlyMarksShrink(SortById(s), NakedSubsets(s, k).value.board)
    ensures HiddenSubsets(s, k).Some? && (forall i :: 0 <= i < |s| ==> NoDup(s[i].cornerPencil)) ==>
      RemovesSome(SortById(s), HiddenSubsets(s, k).value.board)
    ensures NakedSubsets(s, k).Some? ==> RemovesSome(SortById(s), NakedSubsets(s, k).value.board)
  {
    HiddenSubsetsKeep(s, k);
    NakedSubsetsKeep(s, k);
  }

  lemma HiddenSubsetsKeep(s: Board, k: nat)
    requires |s| == 81
    ensures HiddenSubsets(s, k).Some? ==> OnlyMarksShrink(SortById(s), HiddenSubsets(s, k).value.board)
    ensures HiddenSubsets(s, k).Some? && (forall i :: 0 <= i < |s| ==> NoDup(s[i].cornerPencil)) ==>
      RemovesSome(SortById(s), HiddenSubsets(s, k).value.board)
  {
    var t := SortById(s);
    HiddenFound(t, k);
    if HiddenSubsets(s, k).Some? && (forall i :: 0 <= i < |s| ==> NoDup(s[i].cornerPencil)) {
      var x, c, nums, cells :| 0 <= x < 9 && 0 <= c < 3 &&
        HiddenSubset(Group(t, KindAt(c), x), k, nums, cells) &&
        HiddenSearch(t, k) ==
          Relabel(Fire(t, Keep(cells, nums, k == 2), Specs(cells, nums, [], [], false, NoLabel)), GroupLabel(KindAt(c), x));
      forall i | 0 <= i < |t| ensures NoDup(t[i].cornerPencil) {
        assert t[i] in multiset(s);
      }
      FireRemoves(t, Keep(cells, nums, k == 2), Specs(cells, nums, [], [], false, NoLabel));
    }
  }

  lemma NakedSubsetsKeep(s: Board, k: nat)
    requires |s| == 81
    ensures NakedSubsets(s, k).Some? ==> OnlyMarksShrink(SortById(s), NakedSubsets(s, k).value.board)
    ensures NakedSubsets(s, k).Some? ==> RemovesSome(SortById(s), NakedSubsets(s, k).value.board)
  {
    var t := SortById(s);
    NakedFound(t, k);
    if NakedSubsets(s, k).Some? {
      var x, c, chosen, digits :| 0 <= x < 9 && 0 <= c < 3 &&
        NakedSubset(Group(t, KindAt(c), x), k, chosen, digits) &&
        NakedSearch(t, k) ==
          Relabel(Fire(t, NakedRule(chosen, digits), Specs(Selected(t, NakedRule(chosen, digits)), digits, Ids(chosen), [], false, NoLabel)),
                  GroupLabel(KindAt(c), x));
      FireRemoves(t, NakedRule(chosen, digits), Specs(Selected(t, NakedRule(chosen, digits)), digits, Ids(chosen), [], false, NoLabel));
    }
  }

  lemma FishesKeep(s: Board, amount: nat, finned: bool)
    requires |s| == 81
    ensures Fishes(s, amount, finned).Some? ==> OnlyMarksShrink(SortById(s), Fishes(s, amount, finned).value.board)
    ensures Fishes(s, amount, finned).Some? ==> RemovesSome(SortById(s), Fishes(s, amount, finned).value.board)
  {
    var t := SortById(s);
    FishSearchFound(t, amount, finned);
    if Fishes(s, amount, finned).Some? {
      var kind, d, chosen :| (kind == ColumnKind || kind == RowKind) && 1 <= d <= 9 &&
        ChosenBases(chosen, amount, BaseSets(t, kind, FinLimit(amount, finned), 9), DigitStr(d)) &&
        FishSearch(t, amount, finned) == FishTry(t, amount, finned, DigitStr(d), chosen);
      FishTryMeaning(t, amount, finned, DigitStr(d), chosen);
    }
  }

  /** The strike of an XY-Wing only removes marks, and removes one. */
  lemma XyWingKeeps(s: Board)
    ensures XyWing(s).Some? ==> OnlyMarksShrink(s, XyWing(s).value.board) && RemovesSome(s, XyWing(s).value.board)
  {
    XyWingFound(s);
    if XyWing(s).Some? {
      var f := XyWing(s).value;
      var i, pa, pb :| XyWingAt(s, i, pa, pb, f);
      XyWingAtRemoves(s, i, pa, pb, f);
    }
  }

  lemma XyWingAtRemoves(s: Board, i: nat, pa: Cell, pb: Cell, f: Found)
    requires XyWingAt(s, i, pa, pb, f)
    ensures RemovesSome(s, f.board)
  {
    var pivot := CellsWithMarks(s, 2)[i];
    var z := PincerZ(pa.cornerPencil, Elem(pivot.cornerPencil, 0), Elem(pivot.cornerPencil, 1));
    var rule := XyRule(pivot, pa, pb, z);
    FireRemoves(s, rule, Specs(Selected(s, rule), [z], [pivot.id], [pa.id, pb.id], false, NoLabel));
  }

  /** The strike of an XYZ-Wing only removes marks, and removes one. */
  lemma XyzWingKeeps(s: Board)
    ensures XyzWing(s).Some? ==> OnlyMarksShrink(s, XyzWing(s).value.board) && RemovesSome(s, XyzWing(s).value.board)
  {
    XyzWingFound(s);
    if XyzWing(s).Some? {
      var f := XyzWing(s).value;
      var pivot, pa, pb, num :| XyzWingAt(s, pivot, pa, pb, num, f);
      var rule := XyzRule(pivot, pa, pb, num);
      FireRemoves(s, rule, Specs(Selected(s, rule), [num], [pivot.id], [pa.id, pb.id], false, NoLabel));
    }
  }

  /** The strike of a W-Wing only removes marks, and removes one. */
  lemma WWingKeeps(s: Board)
    ensures WWing(s).Some? ==> OnlyMarksShrink(SortById(s), WWing(s).value.board) && RemovesSome(SortById(s), WWing(s).value.board)
  {
    var t, bivalue := SortById(s), CellsWithMarks(s, 2);
    WSearchFound(t, bivalue);
    if WWing(s).Some? {
      var f := WWing(s).value;
      var a, c, kind, i, e, num :| 0 <= a < c < |bivalue| && WWingAt(t, bivalue[a], bivalue[c], kind, i, e, num, f);
      var rule := WRule(bivalue[a], bivalue[c], num);
      FireRemoves(t, rule, Specs(Selected(t, rule), [num], [bivalue[a].id, bivalue[c].id], e.ids, false, NoLabel));
    }
  }

  /** Whatever technique fires keeps the cells of the board in id order. */
  lemma AttemptKeeps(place: (Board, string, string) -> Board, t: Technique, s: Board)
    requires |s| == 81 && IsPlacement(place) && SortById(s) == s
    ensures Attempt(place, t, s).Some? ==> SameCells(s, Attempt(place, t, s).value.board)
  {
    match t {
      case Fh => FullHouseKeeps(place, s);
      case Hs => HiddenSinglesKeeps(place, s);
      case Ns => NakedSinglesKeeps(place, s);
      case Lcp => LockedKeeps(s);
      case Lcc => LockedKeeps(s);
      case Hp => SubsetsKeep(s, 2);
      case Np => SubsetsKeep(s, 2);
      case Ht => SubsetsKeep(s, 3);
      case Nt => SubsetsKeep(s, 3);
      case Xw => FishesKeep(s, 2, false);
      case Fxw => FishesKeep(s, 2, true);
      case Er => EmptyRectanglesMarksOnly(s);
      case Xyw => XyWingKeeps(s);
      case Xyz => XyzWingKeeps(s);
      case Ww => WWingKeeps(s);
      case Nq => SubsetsKeep(s, 4);
      case Hq => SubsetsKeep(s, 4);
      case Sf => FishesKeep(s, 3, false);
      case Jf => FishesKeep(s, 4, false);
      case Fsf => FishesKeep(s, 3, true);
      case Fjf => FishesKeep(s, 4, true);
    }
  }

  /** Whatever technique fires on a board with tidy marks makes progress:
      a placement fills an empty cell and any other technique removes a
      mark. */
  lemma AttemptProgress(place: (Board, string, string) -> Board, t: Technique, s: Board)
    requires |s| == 81 && IsPlacement(place) && SortById(s) == s && TidyMarks(s)
    ensures Attempt(place, t, s).Some? ==> Progress(s, Attempt(place, t, s).value.board)
  {
    match t {
      case Fh => FullHouseKeeps(place, s);
      case Hs => HiddenSinglesKeeps(place, s);
      case Ns => NakedSinglesKeeps(place, s);
      case Lcp => LockedKeeps(s);
      case Lcc => LockedKeeps(s);
      case Hp => SubsetsKeep(s, 2);
      case Np => SubsetsKeep(s, 2);
      case Ht => SubsetsKeep(s, 3);
      case Nt => SubsetsKeep(s, 3);
      case Xw => FishesKeep(s, 2, false);
      case Fxw => FishesKeep(s, 2, true);
      case Er => EmptyRectanglesMarksOnly(s);
      case Xyw => XyWingKeeps(s);
      case Xyz => XyzWingKeeps(s);
      case Ww => WWingKeeps(s);
      case Nq => SubsetsKeep(s, 4);
      case Hq => SubsetsKeep(s, 4);
      case Sf => FishesKeep(s, 3, false);
      case Jf => FishesKeep(s, 4, false);
      case Fsf => FishesKeep(s, 3, true);
      case Fjf => FishesKeep(s, 4, true);
    }
  }

  /** The move `solve` makes on a board of 81 cells with tidy marks
      changes the board in id order: it fills an empty cell or removes a
      mark. */
  lemma NextMoveProgress(place: (Board, string, string) -> Board, board: Board, fuel: nat)
    requires IsPlacement(place) && |board| == 81 && TidyMarks(board)
    requires NextMove(FirstMove(Attempter(place)), board, fuel).Some?
    ensures Progress(SortById(board), NextMove(FirstMove(Attempter(place)), board, fuel).value.found.board)
  {
    var s := SortById(board);
    var m := NextMove(FirstMove(Attempter(place)), board, fuel).value;
    SortByIdIdempotent(board);
    TidySorted(board);
    FirstFiringCheapest(Attempter(place), s, m);
    AttemptProgress(place, m.technique, s);
  }

  /** With `updateBoard` placing digits, every technique keeps the cells
      of a board in id order. */
  lemma SolverKeepsCells(place: (Board, string, string) -> Board)
    requires IsPlacement(place)
    ensures KeepsCells(Attempter(place))
    ensures MovesKeep(FirstMove(Attempter(place)))
  {
    forall t, s | |s| == 81 && SortById(s) == s
      ensures Attempter(place)(t, s).Some? ==> SameCells(s, Attempter(place)(t, s).value.board)
    {
      AttemptKeeps(place, t, s);
    }
    FirstMoveKeeps(Attempter(place));
  }
}
