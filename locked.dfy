/** Locked candidates. Pointing: when a digit's two or three candidate cells
    in a box lie in one column or one row, the digit is struck from every
    empty cell that sees all of them. Claiming: when a digit's two or three
    candidate cells in a row or column lie in one box, the same strike.
    Both walk their groups through `enumSets`, which sorts the board into
    id order first, so the board they strike on is `SortById(b)`. */
module Locked {
  import opened Lists
  import opened Grid
  import opened Board
  import opened Groups
  import opened Search

  /** The candidate filter of both techniques: two or three cells. */
  predicate TwoOrThree(e: Entry)
  {
    2 <= |e.ids| <= 3
  }

  /** The strike both techniques perform for a digit and its cells. */
  function LockedRule(e: Entry): Rule
  {
    Strike(PeersOf(e.ids), [], true, [e.num])
  }

  function LockedSpecs(e: Entry, where: Label): Specs
  {
    Specs(e.ids, [e.num], [], [], false, where)
  }

  /** The candidates of group `x` of a kind, in ascending digit order. */
  function Candidates(s: Board, kind: Kind, x: nat): seq<Entry>
    requires |s| == 81 && x < 9
  {
    Filter(GroupEntries(s, kind, x), TwoOrThree)
  }

  /** A digit with the cells of group `x` whose candidates hold it. */
  function DigitCells(s: Board, kind: Kind, x: nat, n: string): Entry
    requires |s| == 81 && x < 9
  {
    Entry(n, CellsWith(Group(s, kind, x), n))
  }

  lemma CandidateIff(s: Board, kind: Kind, x: nat, e: Entry)
    requires |s| == 81 && x < 9
    ensures e in Candidates(s, kind, x) <==>
      IsDigitStr(e.num) && e.ids == CellsWith(Group(s, kind, x), e.num) && 2 <= |e.ids| <= 3
  {
    EntryIff(Group(s, kind, x), e);
  }

  // ---------------------------------------------------------------------
  // Pointing
  // ---------------------------------------------------------------------

  /** `isSingleCol || isSingleRow`: the distinct column letters, or the
      distinct row digits, of the ids number exactly one. */
  predicate InOneLine(ids: seq<string>)
  {
    |Uniq(Sort(ColsOf(ids)))| == 1 || |Uniq(Sort(RowsOf(ids)))| == 1
  }

  lemma InOneLineMeaning(ids: seq<string>)
    ensures InOneLine(ids) <==>
      |ids| > 0 &&
      ((forall i :: 0 <= i < |ids| ==> ColStr(ids[i]) == ColStr(ids[0])) ||
       (forall i :: 0 <= i < |ids| ==> RowStr(ids[i]) == RowStr(ids[0])))
  {
    SingleDistinct(ColsOf(ids));
    SingleDistinct(RowsOf(ids));
  }

  function PointingTry(s: Board, x: nat, e: Entry): Option<Found>
  {
    if InOneLine(e.ids) then Fire(s, LockedRule(e), LockedSpecs(e, GroupLabel(BoxKind, x))) else None
  }

  function PointingStep(s: Board, x: nat): Entry -> Option<Found>
  {
    (e: Entry) => PointingTry(s, x, e)
  }

  /** The first candidate of box `x` that strikes something. */
  function PointingAt(s: Board, x: nat): Option<Found>
  {
    if |s| == 81 && x < 9 then FirstOf(Candidates(s, BoxKind, x), PointingStep(s, x)) else None
  }

  function PointingBoxes(s: Board): nat -> Option<Found>
  {
    (x: nat) => PointingAt(s, x)
  }

  /** The pointing search on a board: boxes in order, candidates in
      ascending digit order, first strike that changes something. */
  function PointingSearch(s: Board): Option<Found>
  {
    FirstFrom(9, PointingBoxes(s), 0)
  }

  /** `checkLockedCandidatesPointing(board)` searches the board in id
      order. */
  function LockedPointing(b: Board): Option<Found>
  {
    PointingSearch(SortById(b))
  }

  method CheckLockedCandidatesPointing(board: Board) returns (r: Option<Found>)
    requires |board| == 81
    ensures r == LockedPointing(board)
  {
    var s := SortById(board);
    ghost var boxes := PointingBoxes(s);
    for x := 0 to 9
      invariant LockedPointing(board) == FirstFrom(9, boxes, x)
    {
      var box, rowEnum, columnEnum := EnumSets(board, x);
      var candidates := Filter(Entries(box), TwoOrThree);
      assert candidates == Candidates(s, BoxKind, x);
      r := PointInBox(s, x, candidates);
      assert boxes(x) == PointingAt(s, x) == r;
      if r.Some? {
        assert FirstFrom(9, boxes, x) == r;
        return;
      }
    }
    return None;
  }

  /** The loop over the candidates of box `x`. */
  method PointInBox(s: Board, x: nat, candidates: seq<Entry>) returns (r: Option<Found>)
    ensures r == FirstOf(candidates, PointingStep(s, x))
  {
    ghost var f := PointingStep(s, x);
    for i := 0 to |candidates|
      invariant FirstOf(candidates, f) == FirstOf(candidates[i..], f)
    {
      var e := candidates[i];
      var isSingleCol := |Uniq(Sort(ColsOf(e.ids)))| == 1;
      var isSingleRow := |Uniq(Sort(RowsOf(e.ids)))| == 1;
      if isSingleCol || isSingleRow {
        var rule := LockedRule(e);
        var newBoard := Apply(s, rule);
        if Selected(s, rule) != [] {
          r := Some(Found(newBoard, LockedSpecs(e, GroupLabel(BoxKind, x))));
          assert f(e) == PointingTry(s, x, e) == r;
          assert FirstOf(candidates[i..], f) == r;
          return;
        }
      }
      assert f(e) == PointingTry(s, x, e);
      FirstOfStep(candidates, f, i);
    }
    return None;
  }

  /** A digit whose two or three candidate cells in box `x` lie in one
      column or one row. */
  predicate Points(s: Board, x: nat, n: string)
  {
    |s| == 81 && x < 9 && TwoOrThree(DigitCells(s, BoxKind, x, n)) && InOneLine(DigitCells(s, BoxKind, x, n).ids)
  }

  /** Box `x` yields nothing iff no pointing digit of it can be struck from
      an empty cell that sees all its cells. */
  lemma PointingAtNone(s: Board, x: nat)
    requires |s| == 81 && x < 9
    ensures PointingAt(s, x).None? <==>
      forall n :: IsDigitStr(n) && Points(s, x, n) ==> Selected(s, LockedRule(DigitCells(s, BoxKind, x, n))) == []
  {
    if PointingAt(s, x).None? {
      forall n | IsDigitStr(n) && Points(s, x, n)
        ensures Selected(s, LockedRule(DigitCells(s, BoxKind, x, n))) == []
      {
        PointingMisses(s, x, n);
      }
    } else {
      PointingHits(s, x);
    }
  }

  lemma PointingMisses(s: Board, x: nat, n: string)
    requires |s| == 81 && x < 9 && PointingAt(s, x).None? && IsDigitStr(n) && Points(s, x, n)
    ensures Selected(s, LockedRule(DigitCells(s, BoxKind, x, n))) == []
  {
    var cs := Candidates(s, BoxKind, x);
    var f := PointingStep(s, x);
    var e := DigitCells(s, BoxKind, x, n);
    CandidateIff(s, BoxKind, x, e);
    var k :| 0 <= k < |cs| && cs[k] == e;
    assert f(cs[k]).None?;
    assert f(e) == PointingTry(s, x, e);
  }

  lemma PointingHits(s: Board, x: nat)
    requires |s| == 81 && x < 9 && PointingAt(s, x).Some?
    ensures exists n :: IsDigitStr(n) && Points(s, x, n) && Selected(s, LockedRule(DigitCells(s, BoxKind, x, n))) != []
  {
    var cs := Candidates(s, BoxKind, x);
    var f := PointingStep(s, x);
    assert FirstOf(cs, f).Some?;
    var k :| 0 <= k < |cs| && f(cs[k]).Some?;
    var e := cs[k];
    assert PointingTry(s, x, e).Some?;
    CandidateIff(s, BoxKind, x, e);
    assert e == DigitCells(s, BoxKind, x, e.num);
    assert Points(s, x, e.num) && Selected(s, LockedRule(e)) != [];
  }

  /** Pointing finds nothing iff in no box a pointing digit can be struck
      from an empty cell that sees all its cells. */
  lemma PointingNone(s: Board)
    requires |s| == 81
    ensures PointingSearch(s).None? <==>
      forall x, n :: 0 <= x < 9 && IsDigitStr(n) && Points(s, x, n) ==>
        Selected(s, LockedRule(DigitCells(s, BoxKind, x, n))) == []
  {
    var g := PointingBoxes(s);
    FirstFromNone(9, g, 0);
    if PointingSearch(s).None? {
      forall x, n | 0 <= x < 9 && IsDigitStr(n) && Points(s, x, n)
        ensures Selected(s, LockedRule(DigitCells(s, BoxKind, x, n))) == []
      {
        assert g(x) == PointingAt(s, x);
        PointingMisses(s, x, n);
      }
    } else {
      var x :| 0 <= x < 9 && g(x) != None;
      assert g(x) == PointingAt(s, x);
      PointingHits(s, x);
    }
  }

  /** What box `x` yields, when it yields something. */
  lemma PointingAtFound(s: Board, x: nat)
    requires |s| == 81 && x < 9
    ensures PointingAt(s, x).Some? ==>
      exists n :: IsDigitStr(n) && Points(s, x, n) &&
        PointingAt(s, x) == Fire(s, LockedRule(DigitCells(s, BoxKind, x, n)), LockedSpecs(DigitCells(s, BoxKind, x, n), GroupLabel(BoxKind, x)))
  {
    var cs := Candidates(s, BoxKind, x);
    var f := PointingStep(s, x);
    FirstOfSome(cs, f);
    if PointingAt(s, x).Some? {
      var k :| 0 <= k < |cs| && f(cs[k]) == FirstOf(cs, f);
      var e := cs[k];
      assert f(e) == PointingTry(s, x, e);
      CandidateIff(s, BoxKind, x, e);
      assert e == DigitCells(s, BoxKind, x, e.num);
    }
  }

  /** When pointing fires, its result is the strike of a pointing digit
      from the empty cells that see all its candidate cells in one box (and
      by `Fire`, that strike selects some cell). */
  lemma PointingFound(s: Board)
    requires |s| == 81
    ensures PointingSearch(s).Some? ==>
      exists x, n :: 0 <= x < 9 && IsDigitStr(n) && Points(s, x, n) &&
        PointingSearch(s) == Fire(s, LockedRule(DigitCells(s, BoxKind, x, n)), LockedSpecs(DigitCells(s, BoxKind, x, n), GroupLabel(BoxKind, x)))
  {
    var g := PointingBoxes(s);
    FirstFromSome(9, g, 0);
    if PointingSearch(s).Some? {
      var x :| 0 <= x < 9 && g(x) == PointingSearch(s);
      assert g(x) == PointingAt(s, x);
      PointingAtFound(s, x);
      var n :| IsDigitStr(n) && Points(s, x, n) &&
        PointingAt(s, x) == Fire(s, LockedRule(DigitCells(s, BoxKind, x, n)), LockedSpecs(DigitCells(s, BoxKind, x, n), GroupLabel(BoxKind, x)));
      assert Points(s, x, n);
    }
  }

  // ---------------------------------------------------------------------
  // Claiming
  // ---------------------------------------------------------------------

  /** `getBoxIndexes(board, ids).map(([, i]) => i)` as the strings the
      default sort compares. */
  function BoxNums(s: Board, ids: seq<string>): (r: seq<string>)
    requires |s| == 81
    ensures |r| == |ids|
  {
    var bx := BoxIndexes(s, ids);
    seq(|ids|, k requires 0 <= k < |ids| => NumStr(bx[k]))
  }

  /** `isSameBox`. The board is already in id order when the source asks
      for the box indexes, so sorting it again changes nothing
      (`SortByIdIdempotent`). */
  predicate InOneBox(s: Board, ids: seq<string>)
    requires |s| == 81
  {
    |Uniq(Sort(BoxNums(s, ids)))| == 1
  }

  /** On a board in id order, cells with valid ids are in one box exactly
      when they lie in the same box of the grid. */
  lemma InOneBoxMeaning(s: Board, ids: seq<string>)
    requires WellFormed(s) && forall i :: 0 <= i < |ids| ==> IsId(ids[i])
    ensures InOneBox(s, ids) <==>
      |ids| > 0 && forall i :: 0 <= i < |ids| ==> BoxOf(PosOf(ids[i])) == BoxOf(PosOf(ids[0]))
  {
    var nums := BoxNums(s, ids);
    SingleDistinct(nums);
    forall i | 0 <= i < |ids|
      ensures nums[i] == NumStr(BoxOf(PosOf(ids[i])))
    {
      BoxIndexIsBox(s, ids[i]);
    }
    if |ids| > 0 {
      forall i | 0 <= i < |ids|
        ensures nums[i] == nums[0] <==> BoxOf(PosOf(ids[i])) == BoxOf(PosOf(ids[0]))
      {
        if nums[i] == nums[0] {
          NumStrInjective(BoxOf(PosOf(ids[i])), BoxOf(PosOf(ids[0])));
        }
      }
    }
  }

  /** The group searched at step `c` of the inner loop: rows, then
      columns (`setTypes[c + 1]`). */
  function ClaimKind(c: nat): Kind
    requires c < 2
  {
    KindAt(c + 1)
  }

  function ClaimingTry(s: Board, x: nat, c: nat, e: Entry): Option<Found>
  {
    if |s| == 81 && c < 2 && InOneBox(s, e.ids) then
      Fire(s, LockedRule(e), LockedSpecs(e, GroupLabel(ClaimKind(c), x)))
    else None
  }

  function ClaimingStep(s: Board, x: nat, c: nat): Entry -> Option<Found>
  {
    (e: Entry) => ClaimingTry(s, x, c, e)
  }

  function ClaimingAt(s: Board, x: nat, c: nat): Option<Found>
  {
    if |s| == 81 && x < 9 && c < 2 then FirstOf(Candidates(s, ClaimKind(c), x), ClaimingStep(s, x, c)) else None
  }

  function ClaimingGroups(s: Board): (nat, nat) -> Option<Found>
  {
    (x: nat, c: nat) => ClaimingAt(s, x, c)
  }

  /** The claiming search on a board: for each index, its row and then its
      column, candidates in ascending digit order. */
  function ClaimingSearch(s: Board): Option<Found>
  {
    GridFrom(9, 2, ClaimingGroups(s), 0, 0)
  }

  /** `checkLockedCandidatesClaiming(board)` searches the board in id
      order. */
  function LockedClaiming(b: Board): Option<Found>
  {
    ClaimingSearch(SortById(b))
  }

  /** A digit whose two or three candidate cells in row or column `x` lie
      in one box. */
  predicate Claims(s: Board, x: nat, c: nat, n: string)
  {
    |s| == 81 && x < 9 && c < 2 &&
    TwoOrThree(DigitCells(s, ClaimKind(c), x, n)) && InOneBox(s, DigitCells(s, ClaimKind(c), x, n).ids)
  }

  lemma ClaimingMisses(s: Board, x: nat, c: nat, n: string)
    requires |s| == 81 && x < 9 && c < 2 && ClaimingAt(s, x, c).None? && IsDigitStr(n) && Claims(s, x, c, n)
    ensures Selected(s, LockedRule(DigitCells(s, ClaimKind(c), x, n))) == []
  {
    var cs := Candidates(s, ClaimKind(c), x);
    var f := ClaimingStep(s, x, c);
    var e := DigitCells(s, ClaimKind(c), x, n);
    CandidateIff(s, ClaimKind(c), x, e);
    var k :| 0 <= k < |cs| && cs[k] == e;
    assert f(cs[k]).None?;
    assert f(e) == ClaimingTry(s, x, c, e);
  }

  /** What row or column `x` yields, when it yields something. */
  lemma ClaimingAtFound(s: Board, x: nat, c: nat)
    requires |s| == 81 && x < 9 && c < 2
    ensures ClaimingAt(s, x, c).Some? ==>
      exists n :: IsDigitStr(n) && Claims(s, x, c, n) &&
        ClaimingAt(s, x, c) == Fire(s, LockedRule(DigitCells(s, ClaimKind(c), x, n)), LockedSpecs(DigitCells(s, ClaimKind(c), x, n), GroupLabel(ClaimKind(c), x)))
  {
    var cs := Candidates(s, ClaimKind(c), x);
    var f := ClaimingStep(s, x, c);
    FirstOfSome(cs, f);
    if ClaimingAt(s, x, c).Some? {
      var k :| 0 <= k < |cs| && f(cs[k]) == FirstOf(cs, f);
      var e := cs[k];
      assert f(e) == ClaimingTry(s, x, c, e);
      CandidateIff(s, ClaimKind(c), x, e);
      assert e == DigitCells(s, ClaimKind(c), x, e.num);
    }
  }

  /** Claiming finds nothing iff in no row or column a claiming digit can be
      struck from an empty cell that sees all its cells. */
  lemma ClaimingNone(s: Board)
    requires |s| == 81
    ensures ClaimingSearch(s).None? <==>
      forall x, c, n :: 0 <= x < 9 && 0 <= c < 2 && IsDigitStr(n) && Claims(s, x, c, n) ==>
        Selected(s, LockedRule(DigitCells(s, ClaimKind(c), x, n))) == []
  {
    var g := ClaimingGroups(s);
    GridNone(9, 2, g);
    if ClaimingSearch(s).None? {
      forall x, c, n | 0 <= x < 9 && 0 <= c < 2 && IsDigitStr(n) && Claims(s, x, c, n)
        ensures Selected(s, LockedRule(DigitCells(s, ClaimKind(c), x, n))) == []
      {
        assert g(x, c) == ClaimingAt(s, x, c);
        ClaimingMisses(s, x, c, n);
      }
    } else {
      var x: nat, c: nat :| x < 9 && c < 2 && g(x, c) != None;
      assert g(x, c) == ClaimingAt(s, x, c);
      ClaimingAtFound(s, x, c);
    }
  }

  /** When claiming fires, its result is the strike of a claiming digit from
      the empty cells that see all its candidate cells in one row or
      column. */
  lemma ClaimingFound(s: Board)
    requires |s| == 81
    ensures ClaimingSearch(s).Some? ==>
      exists x, c, n :: 0 <= x < 9 && 0 <= c < 2 && IsDigitStr(n) && Claims(s, x, c, n) &&
        ClaimingSearch(s) == Fire(s, LockedRule(DigitCells(s, ClaimKind(c), x, n)), LockedSpecs(DigitCells(s, ClaimKind(c), x, n), GroupLabel(ClaimKind(c), x)))
  {
    var g := ClaimingGroups(s);
    GridFromSome(9, 2, g, 0, 0);
    if ClaimingSearch(s).Some? {
      var x: nat, c: nat :| x < 9 && c < 2 && g(x, c) == ClaimingSearch(s);
      assert g(x, c) == ClaimingAt(s, x, c);
      ClaimingAtFound(s, x, c);
      var n :| IsDigitStr(n) && Claims(s, x, c, n) &&
        ClaimingAt(s, x, c) == Fire(s, LockedRule(DigitCells(s, ClaimKind(c), x, n)), LockedSpecs(DigitCells(s, ClaimKind(c), x, n), GroupLabel(ClaimKind(c), x)));
      assert Claims(s, x, c, n);
    }
  }

  method CheckLockedCandidatesClaiming(board: Board) returns (r: Option<Found>)
    requires |board| == 81
    ensures r == LockedClaiming(board)
  {
    var s := SortById(board);
    ghost var groups := ClaimingGroups(s);
    for x := 0 to 9
      invariant LockedClaiming(board) == GridFrom(9, 2, groups, x, 0)
    {
      var boxEnum, rowEnum, colEnum := EnumSets(board, x);
      var sets := [rowEnum, colEnum];
      for c := 0 to 2
        invariant LockedClaiming(board) == GridFrom(9, 2, groups, x, c)
      {
        assert sets[c] == EnumMap(Group(s, ClaimKind(c), x));
        var candidates := Filter(Entries(sets[c]), TwoOrThree);
        assert candidates == Candidates(s, ClaimKind(c), x);
        r := ClaimInGroup(s, x, c, candidates);
        assert groups(x, c) == ClaimingAt(s, x, c) == r;
        if r.Some? {
          assert GridFrom(9, 2, groups, x, c) == r;
          return;
        }
      }
    }
    return None;
  }

  /** The loop over the candidates of row or column `x`. */
  method ClaimInGroup(s: Board, x: nat, c: nat, candidates: seq<Entry>) returns (r: Option<Found>)
    requires |s| == 81 && c < 2
    ensures r == FirstOf(candidates, ClaimingStep(s, x, c))
  {
    ghost var f := ClaimingStep(s, x, c);
    for i := 0 to |candidates|
      invariant FirstOf(candidates, f) == FirstOf(candidates[i..], f)
    {
      var e := candidates[i];
      var isSameBox := |Uniq(Sort(BoxNums(s, e.ids)))| == 1;
      if isSameBox {
        var rule := LockedRule(e);
        var newBoard := Apply(s, rule);
        if Selected(s, rule) != [] {
          r := Some(Found(newBoard, LockedSpecs(e, GroupLabel(ClaimKind(c), x))));
          assert f(e) == ClaimingTry(s, x, c, e) == r;
          assert FirstOf(candidates[i..], f) == r;
          return;
        }
      }
      assert f(e) == ClaimingTry(s, x, c, e);
      FirstOfStep(candidates, f, i);
    }
    return None;
  }
}
