/** The wing techniques: XY-Wing, XYZ-Wing and W-Wing. Each walks the
    board in the order it is given (none of them sorts it first, except
    through `enumSets` in the W-Wing) and strikes one digit from the empty
    cells that see the wing's pincers. */
module Wings {
  import opened Lists
  import opened Grid
  import opened Board
  import opened Groups
  import opened Search
  import opened Utils

  // ---------------------------------------------------------------------
  // Shared filters
  // ---------------------------------------------------------------------

  function MarkCountFn(k: nat): Cell -> bool
  {
    (c: Cell) => |c.cornerPencil| == k
  }

  /** `board.filter((cell) => cell.cornerPencil.length === k)`; placed
      cells are not excluded. */
  function CellsWithMarks(b: Board, k: nat): (r: seq<Cell>)
    ensures forall c :: c in r <==> c in b && |c.cornerPencil| == k
  {
    Filter(b, MarkCountFn(k))
  }

  function PincerFn(pivot: string): Cell -> bool
  {
    (c: Cell) => !Filled(c) && SeenByAll([pivot], c.id) && |c.cornerPencil| == 2
  }

  /** The possible pincer cells: the empty cells that see the pivot and
      have two candidates. */
  function Pincers(b: Board, pivot: string): (r: seq<Cell>)
    ensures forall c :: c in r <==>
      c in b && !Filled(c) && SeenByAll([pivot], c.id) && |c.cornerPencil| == 2
  {
    Filter(b, PincerFn(pivot))
  }

  // ---------------------------------------------------------------------
  // checkXYwing
  // ---------------------------------------------------------------------

  /** `marks.find((num) => num !== x)`, with "" for `undefined`. */
  function FindOther(marks: seq<string>, x: string): (r: string)
    ensures r != "" ==> r in marks && r != x
  {
    if marks == [] then ""
    else if marks[0] != x then marks[0]
    else FindOther(marks[1..], x)
  }

  /** The pincer's other number `z`: its candidate that is not the shared
      pivot candidate, the test on `y` overriding the one on `x`. */
  function PincerZ(marks: seq<string>, x: string, y: string): (z: string)
    ensures z != "" ==> z in marks
    ensures z != "" && y in marks ==> z != y
    ensures z != "" && y !in marks ==> x in marks && z != x
  {
    var z0 := if x in marks then FindOther(marks, x) else "";
    if y in marks then FindOther(marks, y) else z0
  }

  predicate SameAsOuter(arr: seq<string>, i: nat, pos: nat)
    requires pos < |arr|
  {
    1 <= i <= |arr| && arr[i - 1] == arr[pos]
  }

  /** `arr.filter((el, pos, arr) => !pos || arr[i - 1] === el)` on the
      three sorted column letters. The `i` is the pivot loop's index, not
      `pos`; past the end `arr[i - 1]` is `undefined` and matches nothing. */
  function OuterFilter(arr: seq<string>, i: nat): (r: seq<string>)
    requires |arr| == 3
  {
    [arr[0]] + (if SameAsOuter(arr, i, 1) then [arr[1]] else []) + (if SameAsOuter(arr, i, 2) then [arr[2]] else [])
  }

  /** When the guard lets a wing through: for the second and third pivot
      always, for the first pivot only when a column letter repeats the
      smallest one, and never for any other pivot. */
  lemma OuterGuard(arr: seq<string>, i: nat)
    requires |arr| == 3
    ensures |OuterFilter(arr, i)| != 1 <==>
      i == 2 || i == 3 || (i == 1 && (arr[1] == arr[0] || arr[2] == arr[0]))
  {
    if i == 2 {
      assert SameAsOuter(arr, i, 1);
    } else if i == 3 {
      assert SameAsOuter(arr, i, 2);
    }
  }

  function XyRule(pivot: Cell, pa: Cell, pb: Cell, z: string): Rule
  {
    Strike(PeersOf([pa.id, pb.id]), [pivot.id], true, [z])
  }

  /** One pivot `i` and two pincers: the candidates of the three cells are
      three numbers and the column guard passes. The `rows` of the source
      are read from `el[0]` as well, so they are the columns again and the
      guard is the column test alone. */
  function XyTry(b: Board, i: nat, pivot: Cell, pa: Cell, pb: Cell): Option<Found>
  {
    var z := PincerZ(pa.cornerPencil, Elem(pivot.cornerPencil, 0), Elem(pivot.cornerPencil, 1));
    if z == "" then None
    else
      var three := |Uniq(Sort(pa.cornerPencil + pb.cornerPencil + pivot.cornerPencil))| == 3;
      var columns := OuterFilter(Sort([ColStr(pivot.id), ColStr(pa.id), ColStr(pb.id)]), i);
      if !three || |columns| == 1 then None
      else XyFire(b, pivot, pa, pb, z)
  }

  /** The strike of an XY-Wing and its description. */
  function XyFire(b: Board, pivot: Cell, pa: Cell, pb: Cell, z: string): Option<Found>
  {
    var rule := XyRule(pivot, pa, pb, z);
    Fire(b, rule, Specs(Selected(b, rule), [z], [pivot.id], [pa.id, pb.id], false, NoLabel))
  }

  function XyPairStep(b: Board, i: nat, pivot: Cell, ps: seq<Cell>): (nat, nat) -> Option<Found>
  {
    (a: nat, c: nat) => if a < |ps| && c < |ps| then XyTry(b, i, pivot, ps[a], ps[c]) else None
  }

  /** All pincer pairs of the `i`-th bivalue cell, in loop order. */
  function XyPivot(b: Board, i: nat): Option<Found>
  {
    var bivalue := CellsWithMarks(b, 2);
    if i < |bivalue| then
      var ps := Pincers(b, bivalue[i].id);
      PairFrom(|ps|, XyPairStep(b, i, bivalue[i], ps), 0, 1)
    else None
  }

  function XyPivotStep(b: Board): nat -> Option<Found>
  {
    (i: nat) => XyPivot(b, i)
  }

  /** `checkXYwing(board)`. */
  function XyWing(b: Board): Option<Found>
  {
    FirstFrom(|CellsWithMarks(b, 2)|, XyPivotStep(b), 0)
  }

  method CheckXYwing(board: Board) returns (r: Option<Found>)
    ensures r == XyWing(board)
  {
    var bivalueCells := CellsWithMarks(board, 2);
    ghost var f := XyPivotStep(board);
    for i := 0 to |bivalueCells|
      invariant FirstFrom(|bivalueCells|, f, 0) == FirstFrom(|bivalueCells|, f, i)
    {
      var pincerCells := Pincers(board, bivalueCells[i].id);
      var found := FindPair(|pincerCells|, XyPairStep(board, i, bivalueCells[i], pincerCells));
      assert found == f(i);
      if found.Some? {
        return found;
      }
    }
    return None;
  }

  /** Whatever the pincers, the first bivalue cell and those from the fifth
      on never pivot a wing. */
  lemma XyPivotBlocked(b: Board, i: nat)
    requires i == 0 || i > 3
    ensures XyPivot(b, i) == None
  {
    var bivalue := CellsWithMarks(b, 2);
    if i < |bivalue| {
      var ps := Pincers(b, bivalue[i].id);
      var f := XyPairStep(b, i, bivalue[i], ps);
      forall p, q | 0 <= p < q < |ps|
        ensures f(p, q) == None
      {
        XyTryBlocked(b, i, bivalue[i], ps[p], ps[q]);
      }
      PairFromNone(|ps|, f, 0, 1);
    }
  }

  lemma XyTryBlocked(b: Board, i: nat, pivot: Cell, pa: Cell, pb: Cell)
    requires i == 0 || i > 3
    ensures XyTry(b, i, pivot, pa, pb) == None
  {
    OuterGuard(Sort([ColStr(pivot.id), ColStr(pa.id), ColStr(pb.id)]), i);
  }

  /** A repeat among the two smallest of three sorted letters is a letter
      two of them share. */
  lemma SortedRepeatShared(cols: seq<string>)
    requires |cols| == 3
    ensures var arr := Sort(cols);
      arr[1] == arr[0] || arr[2] == arr[0] ==> cols[0] == cols[1] || cols[0] == cols[2] || cols[1] == cols[2]
  {
    var arr := Sort(cols);
    if arr[1] == arr[0] || arr[2] == arr[0] {
      if arr[1] == arr[0] {
        TwiceCounted(arr, 0, 1);
      } else {
        TwiceCounted(arr, 0, 2);
      }
      var s, t := TwoPositions(cols, arr[0]);
    }
  }

  /** What an XY-Wing found means: a pivot among the second to fourth
      bivalue cells, two pincers that see it, `z` taken from the first
      pincer, three numbers in all, the column guard passed, and `z` struck
      from the empty cells other than the pivot that see both pincers. */
  ghost predicate XyWingAt(b: Board, i: nat, pa: Cell, pb: Cell, f: Found)
  {
    var bivalue := CellsWithMarks(b, 2);
    1 <= i <= 3 && i < |bivalue| &&
    var pivot := bivalue[i];
    var ps := Pincers(b, pivot.id);
    pa in ps && pb in ps &&
    var z := PincerZ(pa.cornerPencil, Elem(pivot.cornerPencil, 0), Elem(pivot.cornerPencil, 1));
    z != "" && z in pa.cornerPencil &&
    |ToSet(pa.cornerPencil + pb.cornerPencil + pivot.cornerPencil)| == 3 &&
    (i == 1 ==> ColStr(pa.id) == ColStr(pivot.id) || ColStr(pb.id) == ColStr(pivot.id) || ColStr(pa.id) == ColStr(pb.id)) &&
    Some(f) == XyFire(b, pivot, pa, pb, z)
  }

  lemma XyWingFound(b: Board)
    ensures XyWing(b).Some? ==>
      exists i, pa, pb :: XyWingAt(b, i, pa, pb, XyWing(b).value)
  {
    var bivalue := CellsWithMarks(b, 2);
    var g := XyPivotStep(b);
    FirstFromSome(|bivalue|, g, 0);
    if XyWing(b).Some? {
      var i :| 0 <= i < |bivalue| && g(i) == XyWing(b) && forall j :: 0 <= j < i ==> g(j) == None;
      if i == 0 || i > 3 {
        XyPivotBlocked(b, i);
        assert false;
      }
      XyPivotMeaning(b, i);
    }
  }

  lemma XyPivotMeaning(b: Board, i: nat)
    requires 1 <= i <= 3
    ensures XyPivot(b, i).Some? ==> exists pa, pb :: XyWingAt(b, i, pa, pb, XyPivot(b, i).value)
  {
    var bivalue := CellsWithMarks(b, 2);
    if XyPivot(b, i).Some? {
      var pivot := bivalue[i];
      var ps := Pincers(b, pivot.id);
      var f := XyPairStep(b, i, pivot, ps);
      var p, q := PairWitness(|ps|, f);
      assert f(p, q) == XyTry(b, i, pivot, ps[p], ps[q]);
      XyTryMeaning(b, i, pivot, ps[p], ps[q]);
      assert ps[p] in ps && ps[q] in ps;
      assert XyWingAt(b, i, ps[p], ps[q], XyPivot(b, i).value);
    }
  }

  lemma XyTryMeaning(b: Board, i: nat, pivot: Cell, pa: Cell, pb: Cell)
    requires 1 <= i <= 3
    ensures XyTry(b, i, pivot, pa, pb).Some? ==>
      var z := PincerZ(pa.cornerPencil, Elem(pivot.cornerPencil, 0), Elem(pivot.cornerPencil, 1));
      z != "" && z in pa.cornerPencil &&
      |ToSet(pa.cornerPencil + pb.cornerPencil + pivot.cornerPencil)| == 3 &&
      (i == 1 ==> ColStr(pa.id) == ColStr(pivot.id) || ColStr(pb.id) == ColStr(pivot.id) || ColStr(pa.id) == ColStr(pb.id)) &&
      XyTry(b, i, pivot, pa, pb) == XyFire(b, pivot, pa, pb, z)
  {
    var cols := [ColStr(pivot.id), ColStr(pa.id), ColStr(pb.id)];
    OuterGuard(Sort(cols), i);
    DistinctCount(pa.cornerPencil + pb.cornerPencil + pivot.cornerPencil);
    if i == 1 && XyTry(b, i, pivot, pa, pb).Some? {
      SortedRepeatShared(cols);
    }
  }

  /** The smallest of the column letters is shared by two of the cells. */
  ghost predicate SmallestShared(cols: seq<string>)
  {
    exists p, q :: 0 <= p < q < |cols| && cols[p] == cols[q] &&
      forall r :: 0 <= r < |cols| ==> LessEq(cols[p], cols[r])
  }

  /** The guard on the first pivot, read on the unsorted letters: the
      smallest letter repeats exactly when the smallest letter is shared. */
  lemma SmallestSharedSorted(cols: seq<string>)
    requires |cols| == 3
    ensures var arr := Sort(cols);
      arr[1] == arr[0] || arr[2] == arr[0] <==> SmallestShared(cols)
  {
    var arr := Sort(cols);
    if arr[1] == arr[0] || arr[2] == arr[0] {
      SortedRepeatSmallest(cols);
    }
    if SmallestShared(cols) {
      SmallestRepeatSorted(cols);
    }
  }

  /** Sorting keeps the letters of the list. */
  lemma SortSameLetters(cols: seq<string>)
    ensures forall v :: v in cols <==> v in Sort(cols)
  {
    var arr := Sort(cols);
    forall v ensures v in cols <==> v in arr {
      assert v in cols <==> v in multiset(cols);
      assert v in arr <==> v in multiset(arr);
    }
  }

  lemma SortedRepeatSmallest(cols: seq<string>)
    requires |cols| == 3
    requires Sort(cols)[1] == Sort(cols)[0] || Sort(cols)[2] == Sort(cols)[0]
    ensures SmallestShared(cols)
  {
    var arr := Sort(cols);
    SortBySorted(cols, false);
    SortSameLetters(cols);
    if arr[1] == arr[0] {
      TwiceCounted(arr, 0, 1);
    } else {
      TwiceCounted(arr, 0, 2);
    }
    var p, q := TwoPositions(cols, arr[0]);
    forall r | 0 <= r < 3 ensures LessEq(cols[p], cols[r]) {
      assert cols[r] in arr;
      var m :| 0 <= m < 3 && arr[m] == cols[r];
    }
  }

  lemma SmallestRepeatSorted(cols: seq<string>)
    requires |cols| == 3 && SmallestShared(cols)
    ensures Sort(cols)[1] == Sort(cols)[0] || Sort(cols)[2] == Sort(cols)[0]
  {
    var arr := Sort(cols);
    SortBySorted(cols, false);
    SortSameLetters(cols);
    var p, q :| 0 <= p < q < 3 && cols[p] == cols[q] &&
      forall r :: 0 <= r < 3 ==> LessEq(cols[p], cols[r]);
    var v := cols[p];
    assert arr[0] in cols;
    assert v in arr;
    var k :| 0 <= k < 3 && arr[k] == v;
    assert LessEq(arr[0], v);
    LessEqAntisymmetric(v, arr[0]);
    TwiceCounted(cols, p, q);
    var i, j := TwoPositions(arr, v);
  }

  /** One pivot and two pincers make an XY-Wing that strikes something:
      `z` is taken from the first pincer, the three cells hold three
      numbers in all, on the first pivot the smallest column is shared,
      and some empty cell other than the pivot that sees both pincers
      still holds `z`. */
  ghost predicate XyFires(b: Board, i: nat, pivot: Cell, pa: Cell, pb: Cell)
  {
    var z := PincerZ(pa.cornerPencil, Elem(pivot.cornerPencil, 0), Elem(pivot.cornerPencil, 1));
    1 <= i <= 3 && z != "" &&
    |ToSet(pa.cornerPencil + pb.cornerPencil + pivot.cornerPencil)| == 3 &&
    (i == 1 ==> SmallestShared([ColStr(pivot.id), ColStr(pa.id), ColStr(pb.id)])) &&
    Selected(b, XyRule(pivot, pa, pb, z)) != []
  }

  lemma XyTryNone(b: Board, i: nat, pivot: Cell, pa: Cell, pb: Cell)
    ensures XyTry(b, i, pivot, pa, pb).None? <==> !XyFires(b, i, pivot, pa, pb)
  {
    var cols := [ColStr(pivot.id), ColStr(pa.id), ColStr(pb.id)];
    OuterGuard(Sort(cols), i);
    SmallestSharedSorted(cols);
    DistinctCount(pa.cornerPencil + pb.cornerPencil + pivot.cornerPencil);
  }

  /** The `i`-th bivalue cell pivots a wing that strikes something. */
  ghost predicate XyPivotFires(b: Board, i: nat)
  {
    var bivalue := CellsWithMarks(b, 2);
    i < |bivalue| &&
    var ps := Pincers(b, bivalue[i].id);
    exists p, q :: 0 <= p < q < |ps| && XyFires(b, i, bivalue[i], ps[p], ps[q])
  }

  lemma XyPivotNone(b: Board, i: nat)
    ensures XyPivot(b, i).None? <==> !XyPivotFires(b, i)
  {
    if XyPivotFires(b, i) {
      XyPivotHit(b, i);
    }
    if XyPivot(b, i).Some? {
      XyPivotFound(b, i);
    }
  }

  lemma XyPivotHit(b: Board, i: nat)
    requires XyPivotFires(b, i)
    ensures XyPivot(b, i).Some?
  {
    var bivalue := CellsWithMarks(b, 2);
    var ps := Pincers(b, bivalue[i].id);
    var p, q :| 0 <= p < q < |ps| && XyFires(b, i, bivalue[i], ps[p], ps[q]);
    XyPairHit(b, i, bivalue[i], ps, p, q);
  }

  lemma XyPairHit(b: Board, i: nat, pivot: Cell, ps: seq<Cell>, p: nat, q: nat)
    requires p < q < |ps| && XyFires(b, i, pivot, ps[p], ps[q])
    ensures PairFrom(|ps|, XyPairStep(b, i, pivot, ps), 0, 1).Some?
  {
    var f := XyPairStep(b, i, pivot, ps);
    XyTryNone(b, i, pivot, ps[p], ps[q]);
    assert f(p, q) == XyTry(b, i, pivot, ps[p], ps[q]);
    PairHit(|ps|, f, p, q);
  }

  lemma XyPivotFound(b: Board, i: nat)
    requires XyPivot(b, i).Some?
    ensures XyPivotFires(b, i)
  {
    var bivalue := CellsWithMarks(b, 2);
    var ps := Pincers(b, bivalue[i].id);
    var f := XyPairStep(b, i, bivalue[i], ps);
    var p, q := PairWitness(|ps|, f);
    XyTryNone(b, i, bivalue[i], ps[p], ps[q]);
  }

  /** `checkXYwing` finds nothing iff no bivalue cell pivots a wing that
      strikes something. */
  lemma XyWingNone(b: Board)
    ensures XyWing(b).None? <==> forall i :: 0 <= i < |CellsWithMarks(b, 2)| ==> !XyPivotFires(b, i)
  {
    var g := XyPivotStep(b);
    FirstFromNone(|CellsWithMarks(b, 2)|, g, 0);
    forall i | 0 <= i < |CellsWithMarks(b, 2)| ensures g(i).None? <==> !XyPivotFires(b, i) {
      XyPivotNone(b, i);
    }
  }

  // ---------------------------------------------------------------------
  // checkXYZwing
  // ---------------------------------------------------------------------

  /** Both candidates of a pincer are among the pivot's. */
  predicate Inside(pincer: Cell, pivotNums: seq<string>)
  {
    Elem(pincer.cornerPencil, 0) in pivotNums && Elem(pincer.cornerPencil, 1) in pivotNums
  }

  /** `sorted.filter((num, pos, arr) => pos > 1 && num === arr[pos - 1] &&
      num === arr[pos - 2])`: every element equal to the two before it. */
  function Triples(xs: seq<string>): (r: seq<string>)
    ensures forall v :: v in r <==> exists p :: 1 < p < |xs| && xs[p - 2] == v && xs[p - 1] == v && xs[p] == v
  {
    if |xs| <= 2 then []
    else
      var n := |xs|;
      var init := xs[..n - 1];
      assert forall p :: 0 <= p < n - 1 ==> init[p] == xs[p];
      Triples(init) + (if xs[n - 1] == xs[n - 2] && xs[n - 1] == xs[n - 3] then [xs[n - 1]] else [])
  }

  function XyzRule(pivot: Cell, pa: Cell, pb: Cell, num: string): Rule
  {
    Strike(PeersOf([pivot.id, pa.id, pb.id]), [], true, [num])
  }

  /** The strike of an XYZ-Wing and its description. */
  function XyzFire(b: Board, pivot: Cell, pa: Cell, pb: Cell, num: string): Option<Found>
  {
    var rule := XyzRule(pivot, pa, pb, num);
    Fire(b, rule, Specs(Selected(b, rule), [num], [pivot.id], [pa.id, pb.id], false, NoLabel))
  }

  /** The number common to the three cells: the one value that appears
      three times in a row among their sorted candidates. */
  function CommonNums(pivot: Cell, pa: Cell, pb: Cell): seq<string>
  {
    Triples(Sort(pivot.cornerPencil + pa.cornerPencil + pb.cornerPencil))
  }

  /** One trivalue pivot and two pincers whose candidates are among the
      pivot's. */
  function XyzTry(b: Board, pivot: Cell, pa: Cell, pb: Cell): Option<Found>
  {
    if !Inside(pa, pivot.cornerPencil) || !Inside(pb, pivot.cornerPencil) then None
    else
      var common := CommonNums(pivot, pa, pb);
      if |common| == 1 then XyzFire(b, pivot, pa, pb, common[0]) else None
  }

  function XyzPairStep(b: Board, pivot: Cell, ps: seq<Cell>): (nat, nat) -> Option<Found>
  {
    (a: nat, c: nat) => if a < |ps| && c < |ps| then XyzTry(b, pivot, ps[a], ps[c]) else None
  }

  /** All pincer pairs of the `i`-th cell with three candidates. */
  function XyzPivot(b: Board, i: nat): Option<Found>
  {
    var trivalue := CellsWithMarks(b, 3);
    if i < |trivalue| then
      var ps := Pincers(b, trivalue[i].id);
      PairFrom(|ps|, XyzPairStep(b, trivalue[i], ps), 0, 1)
    else None
  }

  function XyzPivotStep(b: Board): nat -> Option<Found>
  {
    (i: nat) => XyzPivot(b, i)
  }

  /** `checkXYZwing(board)`. */
  function XyzWing(b: Board): Option<Found>
  {
    FirstFrom(|CellsWithMarks(b, 3)|, XyzPivotStep(b), 0)
  }

  method CheckXYZwing(board: Board) returns (r: Option<Found>)
    ensures r == XyzWing(board)
  {
    var trivalueCells := CellsWithMarks(board, 3);
    ghost var f := XyzPivotStep(board);
    for i := 0 to |trivalueCells|
      invariant FirstFrom(|trivalueCells|, f, 0) == FirstFrom(|trivalueCells|, f, i)
    {
      var pincerCells := Pincers(board, trivalueCells[i].id);
      var found := FindPair(|pincerCells|, XyzPairStep(board, trivalueCells[i], pincerCells));
      assert found == f(i);
      if found.Some? {
        return found;
      }
    }
    return None;
  }

  /** A value found three times in a row in a sorted list is counted three
      times in the list. */
  lemma TriplesCounted(xs: seq<string>, v: string)
    requires v in Triples(Sort(xs))
    ensures multiset(xs)[v] >= 3
  {
    var t := Sort(xs);
    var p :| 1 < p < |t| && t[p - 2] == v && t[p - 1] == v && t[p] == v;
    ThriceCounted(t, p);
  }

  lemma ThriceCounted<T>(t: seq<T>, p: nat)
    requires 1 < p < |t| && t[p - 2] == t[p] && t[p - 1] == t[p]
    ensures multiset(t)[t[p]] >= 3
  {
    assert t == t[..p - 2] + [t[p - 2], t[p - 1], t[p]] + t[p + 1..];
    assert multiset([t[p - 2], t[p - 1], t[p]])[t[p]] == 3;
  }

  /** Three lists that between them hold `v` three times, each without a
      repeated element, all hold `v`. */
  lemma InAllThree(xs: seq<string>, ys: seq<string>, zs: seq<string>, v: string)
    requires multiset(xs + ys + zs)[v] >= 3
    requires NoDup(xs) && NoDup(ys) && NoDup(zs)
    ensures v in xs && v in ys && v in zs
  {
    NoDupCount(xs, v);
    NoDupCount(ys, v);
    NoDupCount(zs, v);
    assert multiset(xs + ys + zs) == multiset(xs) + multiset(ys) + multiset(zs);
  }

  /** What an XYZ-Wing found means: a pivot with three candidates, two
      pincers that see it and whose candidates are among the pivot's, a
      number counted three times among the three cells' candidates (so in
      all three of them when no cell lists a candidate twice), and that
      number struck from the empty cells that see all three cells. */
  ghost predicate XyzWingAt(b: Board, pivot: Cell, pa: Cell, pb: Cell, num: string, f: Found)
  {
    pivot in b && |pivot.cornerPencil| == 3 &&
    var ps := Pincers(b, pivot.id);
    pa in ps && pb in ps && Inside(pa, pivot.cornerPencil) && Inside(pb, pivot.cornerPencil) &&
    CommonNums(pivot, pa, pb) == [num] &&
    multiset(pivot.cornerPencil + pa.cornerPencil + pb.cornerPencil)[num] >= 3 &&
    (NoDup(pivot.cornerPencil) && NoDup(pa.cornerPencil) && NoDup(pb.cornerPencil) ==>
      num in pivot.cornerPencil && num in pa.cornerPencil && num in pb.cornerPencil) &&
    Some(f) == XyzFire(b, pivot, pa, pb, num)
  }

  lemma XyzTryMeaning(b: Board, pivot: Cell, pa: Cell, pb: Cell)
    ensures XyzTry(b, pivot, pa, pb).Some? ==>
      var num := CommonNums(pivot, pa, pb)[0];
      CommonNums(pivot, pa, pb) == [num] &&
      multiset(pivot.cornerPencil + pa.cornerPencil + pb.cornerPencil)[num] >= 3 &&
      (NoDup(pivot.cornerPencil) && NoDup(pa.cornerPencil) && NoDup(pb.cornerPencil) ==>
        num in pivot.cornerPencil && num in pa.cornerPencil && num in pb.cornerPencil) &&
      XyzTry(b, pivot, pa, pb) == XyzFire(b, pivot, pa, pb, num)
  {
    if XyzTry(b, pivot, pa, pb).Some? {
      var common := CommonNums(pivot, pa, pb);
      var num := common[0];
      assert common == [num];
      TriplesCounted(pivot.cornerPencil + pa.cornerPencil + pb.cornerPencil, num);
      if NoDup(pivot.cornerPencil) && NoDup(pa.cornerPencil) && NoDup(pb.cornerPencil) {
        InAllThree(pivot.cornerPencil, pa.cornerPencil, pb.cornerPencil, num);
      }
    }
  }

  lemma XyzPivotMeaning(b: Board, i: nat)
    ensures XyzPivot(b, i).Some? ==>
      exists pivot, pa, pb, num :: XyzWingAt(b, pivot, pa, pb, num, XyzPivot(b, i).value)
  {
    var trivalue := CellsWithMarks(b, 3);
    if XyzPivot(b, i).Some? {
      var pivot := trivalue[i];
      var ps := Pincers(b, pivot.id);
      var f := XyzPairStep(b, pivot, ps);
      var p, q := PairWitness(|ps|, f);
      assert f(p, q) == XyzTry(b, pivot, ps[p], ps[q]);
      XyzTryMeaning(b, pivot, ps[p], ps[q]);
      assert ps[p] in ps && ps[q] in ps && pivot in trivalue;
      var num := CommonNums(pivot, ps[p], ps[q])[0];
      assert XyzWingAt(b, pivot, ps[p], ps[q], num, XyzPivot(b, i).value);
    }
  }

  lemma XyzWingFound(b: Board)
    ensures XyzWing(b).Some? ==>
      exists pivot, pa, pb, num :: XyzWingAt(b, pivot, pa, pb, num, XyzWing(b).value)
  {
    var trivalue := CellsWithMarks(b, 3);
    var g := XyzPivotStep(b);
    FirstFromSome(|trivalue|, g, 0);
    if XyzWing(b).Some? {
      var i :| 0 <= i < |trivalue| && g(i) == XyzWing(b) && forall j :: 0 <= j < i ==> g(j) == None;
      XyzPivotMeaning(b, i);
    }
  }

  /** One pivot and two pincers make an XYZ-Wing that strikes something:
      both pincers' candidates are among the pivot's, one number is
      counted three times among the three cells, and some empty cell that
      sees all three still holds it. */
  ghost predicate XyzFires(b: Board, pivot: Cell, pa: Cell, pb: Cell)
  {
    Inside(pa, pivot.cornerPencil) && Inside(pb, pivot.cornerPencil) &&
    exists num :: CommonNums(pivot, pa, pb) == [num] && Selected(b, XyzRule(pivot, pa, pb, num)) != []
  }

  lemma XyzTryNone(b: Board, pivot: Cell, pa: Cell, pb: Cell)
    ensures XyzTry(b, pivot, pa, pb).None? <==> !XyzFires(b, pivot, pa, pb)
  {
    var common := CommonNums(pivot, pa, pb);
    if |common| == 1 {
      assert common == [common[0]];
    }
  }

  /** The `i`-th cell with three candidates pivots a wing that strikes
      something. */
  ghost predicate XyzPivotFires(b: Board, i: nat)
  {
    var trivalue := CellsWithMarks(b, 3);
    i < |trivalue| &&
    var ps := Pincers(b, trivalue[i].id);
    exists p, q :: 0 <= p < q < |ps| && XyzFires(b, trivalue[i], ps[p], ps[q])
  }

  lemma XyzPivotNone(b: Board, i: nat)
    ensures XyzPivot(b, i).None? <==> !XyzPivotFires(b, i)
  {
    if XyzPivotFires(b, i) {
      XyzPivotHit(b, i);
    }
    if XyzPivot(b, i).Some? {
      XyzPivotFound(b, i);
    }
  }

  lemma XyzPivotHit(b: Board, i: nat)
    requires XyzPivotFires(b, i)
    ensures XyzPivot(b, i).Some?
  {
    var trivalue := CellsWithMarks(b, 3);
    var ps := Pincers(b, trivalue[i].id);
    var p, q :| 0 <= p < q < |ps| && XyzFires(b, trivalue[i], ps[p], ps[q]);
    XyzPairHit(b, trivalue[i], ps, p, q);
  }

  lemma XyzPairHit(b: Board, pivot: Cell, ps: seq<Cell>, p: nat, q: nat)
    requires p < q < |ps| && XyzFires(b, pivot, ps[p], ps[q])
    ensures PairFrom(|ps|, XyzPairStep(b, pivot, ps), 0, 1).Some?
  {
    var f := XyzPairStep(b, pivot, ps);
    XyzTryNone(b, pivot, ps[p], ps[q]);
    assert f(p, q) == XyzTry(b, pivot, ps[p], ps[q]);
    PairHit(|ps|, f, p, q);
  }

  lemma XyzPivotFound(b: Board, i: nat)
    requires XyzPivot(b, i).Some?
    ensures XyzPivotFires(b, i)
  {
    var trivalue := CellsWithMarks(b, 3);
    var ps := Pincers(b, trivalue[i].id);
    var f := XyzPairStep(b, trivalue[i], ps);
    var p, q := PairWitness(|ps|, f);
    XyzTryNone(b, trivalue[i], ps[p], ps[q]);
  }

  /** `checkXYZwing` finds nothing iff no cell with three candidates pivots
      a wing that strikes something. */
  lemma XyzWingNone(b: Board)
    ensures XyzWing(b).None? <==> forall i :: 0 <= i < |CellsWithMarks(b, 3)| ==> !XyzPivotFires(b, i)
  {
    var g := XyzPivotStep(b);
    FirstFromNone(|CellsWithMarks(b, 3)|, g, 0);
    forall i | 0 <= i < |CellsWithMarks(b, 3)| ensures g(i).None? <==> !XyzPivotFires(b, i) {
      XyzPivotNone(b, i);
    }
  }

  // ---------------------------------------------------------------------
  // checkWwing
  // ---------------------------------------------------------------------

  /** The row filter: a digit with two cells in the row, the row not one
      of the bivalue cells' rows, the digit one of their two numbers, and
      the two cells' columns together with the bivalue cells' columns two
      letters in all. */
  function StrongRowFn(bRows: seq<string>, bCols: seq<string>, unique: seq<string>): Entry -> bool
  {
    (e: Entry) => |e.ids| == 2 && RowStr(e.ids[0]) !in bRows && e.num in unique &&
      |Uniq(Sort(bCols + ColsOf(e.ids)))| == 2
  }

  /** The column filter, rows and columns exchanged. */
  function StrongColumnFn(bRows: seq<string>, bCols: seq<string>, unique: seq<string>): Entry -> bool
  {
    (e: Entry) => |e.ids| == 2 && ColStr(e.ids[0]) !in bCols && e.num in unique &&
      |Uniq(Sort(bRows + RowsOf(e.ids)))| == 2
  }

  function StrongRows(s: Board, ca: Cell, cb: Cell, unique: seq<string>, i: nat): seq<Entry>
    requires |s| == 81 && i < 9
  {
    Filter(GroupEntries(s, RowKind, i), StrongRowFn([RowStr(ca.id), RowStr(cb.id)], [ColStr(ca.id), ColStr(cb.id)], unique))
  }

  function StrongColumns(s: Board, ca: Cell, cb: Cell, unique: seq<string>, i: nat): seq<Entry>
    requires |s| == 81 && i < 9
  {
    Filter(GroupEntries(s, ColumnKind, i), StrongColumnFn([RowStr(ca.id), RowStr(cb.id)], [ColStr(ca.id), ColStr(cb.id)], unique))
  }

  /** The strong link of line `i`: the first row link if there is one (it
      is assigned last), else the first column link. */
  function StrongLink(s: Board, ca: Cell, cb: Cell, unique: seq<string>, i: nat): Option<Entry>
    requires |s| == 81 && i < 9
  {
    var rows := StrongRows(s, ca, cb, unique, i);
    var columns := StrongColumns(s, ca, cb, unique, i);
    if rows != [] then Some(rows[0]) else if columns != [] then Some(columns[0]) else None
  }

  function WRule(ca: Cell, cb: Cell, num: string): Rule
  {
    Strike(PeersOf([ca.id, cb.id]), [], true, [num])
  }

  /** The strike of a W-Wing and its description. */
  function WFire(s: Board, ca: Cell, cb: Cell, num: string, link: seq<string>): Option<Found>
  {
    var rule := WRule(ca, cb, num);
    Fire(s, rule, Specs(Selected(s, rule), [num], [ca.id, cb.id], link, false, NoLabel))
  }

  /** Line `i` for the bivalue pair: with a strong link on one of the two
      numbers, the other number is struck from the cells that see both
      bivalue cells. */
  function WLine(s: Board, ca: Cell, cb: Cell, unique: seq<string>, i: nat): Option<Found>
  {
    if |s| == 81 && i < 9 then
      var link := StrongLink(s, ca, cb, unique, i);
      if link.Some? && link.value.num != "" then
        WFire(s, ca, cb, Elem(Drop(unique, link.value.num), 0), link.value.ids)
      else None
    else None
  }

  function WLineStep(s: Board, ca: Cell, cb: Cell, unique: seq<string>): nat -> Option<Found>
  {
    (i: nat) => WLine(s, ca, cb, unique, i)
  }

  /** One pair of bivalue cells: when they hold the same two numbers, the
      nine lines in order. */
  function WPair(s: Board, ca: Cell, cb: Cell): Option<Found>
  {
    var unique := Uniq(Sort(ca.cornerPencil + cb.cornerPencil));
    if |unique| == 2 then FirstFrom(9, WLineStep(s, ca, cb, unique), 0) else None
  }

  function WPairStep(s: Board, bivalue: seq<Cell>): (nat, nat) -> Option<Found>
  {
    (a: nat, c: nat) => if a < |bivalue| && c < |bivalue| then WPair(s, bivalue[a], bivalue[c]) else None
  }

  /** `checkWwing(board)`. The bivalue cells are taken in the order of the
      board as given; `enumSets` sorts the board in place before anything
      is struck, so the strike and the links are on `SortById(b)`. */
  function WWing(b: Board): Option<Found>
  {
    WSearch(SortById(b), CellsWithMarks(b, 2))
  }

  /** The pair search over the bivalue cells, striking on `s`. */
  function WSearch(s: Board, bivalue: seq<Cell>): Option<Found>
  {
    PairFrom(|bivalue|, WPairStep(s, bivalue), 0, 1)
  }

  method StrongLinkIn(board: Board, ca: Cell, cb: Cell, uniqueNums: seq<string>, i: nat) returns (link: Option<Entry>)
    requires |board| == 81 && i < 9
    ensures link == StrongLink(SortById(board), ca, cb, uniqueNums, i)
  {
    var bivalueCellRows := [RowStr(ca.id), RowStr(cb.id)];
    var bivalueCellCols := [ColStr(ca.id), ColStr(cb.id)];
    var boxEnum, rowEnum, colEnum := EnumSets(board, i);
    var strongLinksRow := Filter(Entries(rowEnum), StrongRowFn(bivalueCellRows, bivalueCellCols, uniqueNums));
    var strongLinksColumn := Filter(Entries(colEnum), StrongColumnFn(bivalueCellRows, bivalueCellCols, uniqueNums));
    link := None;
    if |strongLinksColumn| > 0 {
      link := Some(strongLinksColumn[0]);
    }
    if |strongLinksRow| > 0 {
      link := Some(strongLinksRow[0]);
    }
  }

  method WwingPair(board: Board, ca: Cell, cb: Cell) returns (r: Option<Found>)
    requires |board| == 81
    ensures r == WPair(SortById(board), ca, cb)
  {
    var uniqueNums := Uniq(Sort(ca.cornerPencil + cb.cornerPencil));
    if |uniqueNums| != 2 {
      return None;
    }
    ghost var g := WLineStep(SortById(board), ca, cb, uniqueNums);
    for i := 0 to 9
      invariant FirstFrom(9, g, 0) == FirstFrom(9, g, i)
    {
      var link := StrongLinkIn(board, ca, cb, uniqueNums, i);
      r := None;
      if link.Some? && link.value.num != "" {
        var numToRemove := Elem(Drop(uniqueNums, link.value.num), 0);
        r := WFire(SortById(board), ca, cb, numToRemove, link.value.ids);
      }
      assert r == g(i);
      if r.Some? {
        return r;
      }
    }
    return None;
  }

  method CheckWwing(board: Board) returns (r: Option<Found>)
    requires |board| == 81
    ensures r == WWing(board)
  {
    var bivalueCells := CellsWithMarks(board, 2);
    ghost var f := WPairStep(SortById(board), bivalueCells);
    var n := |bivalueCells|;
    var a: nat := 0;
    while a < n
      invariant a <= n
      invariant PairFrom(n, f, 0, 1) == PairFrom(n, f, a, a + 1)
    {
      var b: nat := a + 1;
      while b < n
        invariant b <= n
        invariant PairFrom(n, f, 0, 1) == PairFrom(n, f, a, b)
      {
        r := WwingPair(board, bivalueCells[a], bivalueCells[b]);
        assert r == f(a, b);
        if r.Some? {
          return r;
        }
        b := b + 1;
      }
      a := a + 1;
    }
    return None;
  }

  /** The shape of a strong link in a row (a column): its line is neither
      bivalue cell's, and its two cells' columns (rows) together with the
      bivalue cells' make two in all. */
  predicate LinkShape(ca: Cell, cb: Cell, kind: Kind, ids: seq<string>)
  {
    if kind == RowKind then
      |ids| > 0 && RowStr(ids[0]) != RowStr(ca.id) && RowStr(ids[0]) != RowStr(cb.id) &&
      |ToSet([ColStr(ca.id), ColStr(cb.id)] + ColsOf(ids))| == 2
    else
      kind == ColumnKind && |ids| > 0 && ColStr(ids[0]) != ColStr(ca.id) && ColStr(ids[0]) != ColStr(cb.id) &&
      |ToSet([RowStr(ca.id), RowStr(cb.id)] + RowsOf(ids))| == 2
  }

  /** What a strong link of line `i` is: a digit among the pair's numbers
      whose only two cells in row or column `i` have the link's shape. */
  ghost predicate StrongLinkAt(s: Board, ca: Cell, cb: Cell, unique: seq<string>, kind: Kind, i: nat, e: Entry)
  {
    |s| == 81 && i < 9 &&
    IsDigitStr(e.num) && e.ids == CellsWith(Group(s, kind, i), e.num) && |e.ids| == 2 &&
    e.num in unique && LinkShape(ca, cb, kind, e.ids)
  }

  lemma StrongLinkMeaning(s: Board, ca: Cell, cb: Cell, unique: seq<string>, i: nat)
    requires |s| == 81 && i < 9
    ensures StrongLink(s, ca, cb, unique, i).Some? ==>
      exists kind :: StrongLinkAt(s, ca, cb, unique, kind, i, StrongLink(s, ca, cb, unique, i).value)
  {
    var rows := StrongRows(s, ca, cb, unique, i);
    var columns := StrongColumns(s, ca, cb, unique, i);
    if rows != [] {
      var e := rows[0];
      assert e in rows;
      EntryIff(Group(s, RowKind, i), e);
      DistinctCount([ColStr(ca.id), ColStr(cb.id)] + ColsOf(e.ids));
      assert StrongLinkAt(s, ca, cb, unique, RowKind, i, e);
    } else if columns != [] {
      var e := columns[0];
      assert e in columns;
      EntryIff(Group(s, ColumnKind, i), e);
      DistinctCount([RowStr(ca.id), RowStr(cb.id)] + RowsOf(e.ids));
      assert StrongLinkAt(s, ca, cb, unique, ColumnKind, i, e);
    }
  }

  /** What a W-Wing found means: two bivalue cells holding the same two
      numbers, a strong link on one of them in some row or column, and the
      other number struck from the empty cells that see both bivalue
      cells. */
  ghost predicate WWingAt(s: Board, ca: Cell, cb: Cell, kind: Kind, i: nat, e: Entry, num: string, f: Found)
  {
    |ToSet(ca.cornerPencil + cb.cornerPencil)| == 2 &&
    StrongLinkAt(s, ca, cb, Uniq(Sort(ca.cornerPencil + cb.cornerPencil)), kind, i, e) &&
    e.num in ca.cornerPencil + cb.cornerPencil &&
    num in ca.cornerPencil + cb.cornerPencil && num != e.num &&
    Some(f) == WFire(s, ca, cb, num, e.ids)
  }

  /** The number struck is the pair's other number. */
  lemma OtherNumber(xs: seq<string>, d: string)
    requires |Uniq(Sort(xs))| == 2 && d in Uniq(Sort(xs))
    ensures var num := Elem(Drop(Uniq(Sort(xs)), d), 0);
      num in Uniq(Sort(xs)) && num in xs && num != d
  {
    SortBySorted(xs, false);
    UniqNoDup(Sort(xs));
    DistinctCount(xs);
    var r := Drop(Uniq(Sort(xs)), d);
    assert r[0] in r;
  }

  lemma WLineMeaning(s: Board, ca: Cell, cb: Cell, i: nat)
    requires |Uniq(Sort(ca.cornerPencil + cb.cornerPencil))| == 2
    ensures var unique := Uniq(Sort(ca.cornerPencil + cb.cornerPencil));
      WLine(s, ca, cb, unique, i).Some? ==>
        exists kind, e, num :: WWingAt(s, ca, cb, kind, i, e, num, WLine(s, ca, cb, unique, i).value)
  {
    var xs := ca.cornerPencil + cb.cornerPencil;
    var unique := Uniq(Sort(xs));
    if WLine(s, ca, cb, unique, i).Some? {
      var e := StrongLink(s, ca, cb, unique, i).value;
      StrongLinkMeaning(s, ca, cb, unique, i);
      var kind :| StrongLinkAt(s, ca, cb, unique, kind, i, e);
      OtherNumber(xs, e.num);
      DistinctCount(xs);
      var num := Elem(Drop(unique, e.num), 0);
      assert WWingAt(s, ca, cb, kind, i, e, num, WLine(s, ca, cb, unique, i).value);
    }
  }

  lemma WSearchFound(s: Board, bivalue: seq<Cell>)
    ensures WSearch(s, bivalue).Some? ==>
      exists a, c, kind, i, e, num :: 0 <= a < c < |bivalue| &&
        WWingAt(s, bivalue[a], bivalue[c], kind, i, e, num, WSearch(s, bivalue).value)
  {
    var f := WPairStep(s, bivalue);
    if WSearch(s, bivalue).Some? {
      var a, c := PairWitness(|bivalue|, f);
      var ca, cb := bivalue[a], bivalue[c];
      var unique := Uniq(Sort(ca.cornerPencil + cb.cornerPencil));
      var g := WLineStep(s, ca, cb, unique);
      FirstFromSome(9, g, 0);
      var i :| 0 <= i < 9 && g(i) == WPair(s, ca, cb);
      WLineMeaning(s, ca, cb, i);
      var kind, e, num :| WWingAt(s, ca, cb, kind, i, e, num, g(i).value);
      assert WWingAt(s, bivalue[a], bivalue[c], kind, i, e, num, WSearch(s, bivalue).value);
    }
  }

  // When the W-Wing search finds nothing

  /** Line `i` holds the pair's strong link, and some empty cell that sees
      both bivalue cells still holds the pair's other number. */
  ghost predicate WLineFires(s: Board, ca: Cell, cb: Cell, i: nat)
  {
    |s| == 81 && i < 9 &&
    var unique := Uniq(Sort(ca.cornerPencil + cb.cornerPencil));
    var link := StrongLink(s, ca, cb, unique, i);
    link.Some? &&
    exists num :: num in unique && num != link.value.num && Selected(s, WRule(ca, cb, num)) != []
  }

  /** In a list of two distinct numbers, a number other than `d`, which is
      one of them, is the one `Drop` leaves. */
  lemma OnlyOtherNumber(xs: seq<string>, d: string, num: string)
    requires |Uniq(Sort(xs))| == 2 && d in Uniq(Sort(xs))
    requires num in Uniq(Sort(xs)) && num != d
    ensures num == Elem(Drop(Uniq(Sort(xs)), d), 0)
  {
    var unique := Uniq(Sort(xs));
    SortBySorted(xs, false);
    UniqNoDup(Sort(xs));
    var r := Drop(unique, d);
    assert |r| == 1;
    assert num in r;
    assert r == [r[0]];
  }

  lemma WLineNone(s: Board, ca: Cell, cb: Cell, i: nat)
    requires |Uniq(Sort(ca.cornerPencil + cb.cornerPencil))| == 2
    ensures WLine(s, ca, cb, Uniq(Sort(ca.cornerPencil + cb.cornerPencil)), i).None? <==> !WLineFires(s, ca, cb, i)
  {
    if WLineFires(s, ca, cb, i) {
      WLineHit(s, ca, cb, i);
    }
    if WLine(s, ca, cb, Uniq(Sort(ca.cornerPencil + cb.cornerPencil)), i).Some? {
      WLineFound(s, ca, cb, i);
    }
  }

  /** The number of a strong link is one of the pair's two numbers. */
  lemma LinkNumber(s: Board, ca: Cell, cb: Cell, unique: seq<string>, i: nat)
    requires |s| == 81 && i < 9 && StrongLink(s, ca, cb, unique, i).Some?
    ensures StrongLink(s, ca, cb, unique, i).value.num in unique
    ensures StrongLink(s, ca, cb, unique, i).value.num != ""
  {
    StrongLinkMeaning(s, ca, cb, unique, i);
  }

  lemma WLineHit(s: Board, ca: Cell, cb: Cell, i: nat)
    requires |Uniq(Sort(ca.cornerPencil + cb.cornerPencil))| == 2 && WLineFires(s, ca, cb, i)
    ensures WLine(s, ca, cb, Uniq(Sort(ca.cornerPencil + cb.cornerPencil)), i).Some?
  {
    var xs := ca.cornerPencil + cb.cornerPencil;
    var unique := Uniq(Sort(xs));
    var e := StrongLink(s, ca, cb, unique, i).value;
    LinkNumber(s, ca, cb, unique, i);
    var num :| num in unique && num != e.num && Selected(s, WRule(ca, cb, num)) != [];
    OnlyOtherNumber(xs, e.num, num);
  }

  lemma WLineFound(s: Board, ca: Cell, cb: Cell, i: nat)
    requires |Uniq(Sort(ca.cornerPencil + cb.cornerPencil))| == 2
    requires WLine(s, ca, cb, Uniq(Sort(ca.cornerPencil + cb.cornerPencil)), i).Some?
    ensures WLineFires(s, ca, cb, i)
  {
    var xs := ca.cornerPencil + cb.cornerPencil;
    var unique := Uniq(Sort(xs));
    var e := StrongLink(s, ca, cb, unique, i).value;
    LinkNumber(s, ca, cb, unique, i);
    OtherNumber(xs, e.num);
  }

  /** Two bivalue cells hold the same two numbers and some line holds a
      strong link that makes them strike something. */
  ghost predicate WPairFires(s: Board, ca: Cell, cb: Cell)
  {
    |ToSet(ca.cornerPencil + cb.cornerPencil)| == 2 &&
    exists i :: 0 <= i < 9 && WLineFires(s, ca, cb, i)
  }

  lemma WPairNone(s: Board, ca: Cell, cb: Cell)
    ensures WPair(s, ca, cb).None? <==> !WPairFires(s, ca, cb)
  {
    DistinctCount(ca.cornerPencil + cb.cornerPencil);
    if |Uniq(Sort(ca.cornerPencil + cb.cornerPencil))| == 2 {
      WPairLines(s, ca, cb);
    }
  }

  lemma WPairLines(s: Board, ca: Cell, cb: Cell)
    requires |Uniq(Sort(ca.cornerPencil + cb.cornerPencil))| == 2
    ensures WPair(s, ca, cb).None? <==> forall i :: 0 <= i < 9 ==> !WLineFires(s, ca, cb, i)
  {
    if WPair(s, ca, cb).None? {
      WPairMiss(s, ca, cb);
    } else {
      WPairHit(s, ca, cb);
    }
  }

  lemma WPairMiss(s: Board, ca: Cell, cb: Cell)
    requires |Uniq(Sort(ca.cornerPencil + cb.cornerPencil))| == 2 && WPair(s, ca, cb).None?
    ensures forall i :: 0 <= i < 9 ==> !WLineFires(s, ca, cb, i)
  {
    var g := WLineStep(s, ca, cb, Uniq(Sort(ca.cornerPencil + cb.cornerPencil)));
    FirstFromNone(9, g, 0);
    forall i | 0 <= i < 9 ensures !WLineFires(s, ca, cb, i) {
      assert g(i) == None;
      WLineStepNone(s, ca, cb, i);
    }
  }

  lemma WPairHit(s: Board, ca: Cell, cb: Cell)
    requires |Uniq(Sort(ca.cornerPencil + cb.cornerPencil))| == 2 && WPair(s, ca, cb).Some?
    ensures exists i :: 0 <= i < 9 && WLineFires(s, ca, cb, i)
  {
    var g := WLineStep(s, ca, cb, Uniq(Sort(ca.cornerPencil + cb.cornerPencil)));
    FirstFromNone(9, g, 0);
    var i :| 0 <= i < 9 && g(i) != None;
    WLineStepNone(s, ca, cb, i);
  }

  lemma WLineStepNone(s: Board, ca: Cell, cb: Cell, i: nat)
    requires |Uniq(Sort(ca.cornerPencil + cb.cornerPencil))| == 2
    ensures WLineStep(s, ca, cb, Uniq(Sort(ca.cornerPencil + cb.cornerPencil)))(i).None? <==> !WLineFires(s, ca, cb, i)
  {
    WLineNone(s, ca, cb, i);
  }

  /** The W-Wing search over the bivalue cells finds nothing iff no pair of
      them, in list order, fires. */
  lemma WSearchNone(s: Board, bivalue: seq<Cell>)
    ensures WSearch(s, bivalue).None? <==>
      forall a, c :: 0 <= a < c < |bivalue| ==> !WPairFires(s, bivalue[a], bivalue[c])
  {
    if WSearch(s, bivalue).None? {
      WSearchMiss(s, bivalue);
    } else {
      var a, c := PairWitness(|bivalue|, WPairStep(s, bivalue));
      WPairNone(s, bivalue[a], bivalue[c]);
    }
  }

  lemma WSearchMiss(s: Board, bivalue: seq<Cell>)
    requires WSearch(s, bivalue).None?
    ensures forall a, c :: 0 <= a < c < |bivalue| ==> !WPairFires(s, bivalue[a], bivalue[c])
  {
    var f := WPairStep(s, bivalue);
    PairNone(|bivalue|, f);
    forall a, c | 0 <= a < c < |bivalue| ensures !WPairFires(s, bivalue[a], bivalue[c]) {
      assert f(a, c).None?;
      WPairNone(s, bivalue[a], bivalue[c]);
    }
  }
}
