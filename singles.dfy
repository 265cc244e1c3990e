/** Filling in the candidates (`fillPossibleNums`) and the three techniques
    that place a digit: full house, naked single and hidden single. The
    placement itself is `updateBoard`, which is not part of this model; it
    is a parameter `place`, and `IsPlacement` states what the model assumes
    of it. */
module Singles {
  import opened Lists
  import opened Grid
  import opened Board
  import opened Groups
  import opened Search
  import opened Utils

  // ---------------------------------------------------------------------
  // updateBoard(board, cellId, num, 'normal', true)
  // ---------------------------------------------------------------------

  /** `r` is `b` with `num` placed in the cell `id`: same length and ids,
      that cell's big number is `num`, every other big number is kept. */
  ghost predicate PlacesDigit(b: Board, r: Board, id: string, num: string)
  {
    |r| == |b| &&
    forall i :: 0 <= i < |b| ==>
      r[i].id == b[i].id && r[i].bigNum == (if b[i].id == id then num else b[i].bigNum)
  }

  /** The contract assumed of `updateBoard`. */
  ghost predicate IsPlacement(place: (Board, string, string) -> Board)
  {
    forall b, id, num :: PlacesDigit(b, place(b, id, num), id, num)
  }

  // ---------------------------------------------------------------------
  // fillPossibleNums
  // ---------------------------------------------------------------------

  /** The big numbers of the filled cells that see `id`, in board order
      (`notPossibleNums`). */
  function PeerNums(b: Board, id: string): (r: seq<string>)
    ensures forall n :: n in r <==>
      exists j :: 0 <= j < |b| && SeenByAll([id], b[j].id) && Filled(b[j]) && b[j].bigNum == n
  {
    if b == [] then []
    else
      var rest := PeerNums(b[1..], id);
      assert forall j :: 0 < j < |b| ==> b[j] == b[1..][j - 1];
      (if SeenByAll([id], b[0].id) && Filled(b[0]) then [b[0].bigNum] else []) + rest
  }

  /** What `fillPossibleNums` does to one cell: a filled cell loses its
      corner marks; an empty one gets the digits no peer holds and loses its
      centre marks. */
  function FillCell(b: Board, c: Cell): Cell
  {
    if Filled(c) then c.(cornerPencil := [])
    else c.(cornerPencil := Without(Digits, PeerNums(b, c.id)), centerPencil := [])
  }

  function FillPossibleNums(b: Board): (r: Board)
    ensures |r| == |b| && forall i :: 0 <= i < |b| ==> r[i] == FillCell(b, b[i])
  {
    seq(|b|, i requires 0 <= i < |b| => FillCell(b, b[i]))
  }

  /** Big numbers, ids and locks are kept; a filled cell ends with no
      candidates; an empty cell ends with exactly the digits 1-9 that no
      cell seeing it holds, ascending and without repeats, and no centre
      marks. */
  lemma FillPossibleNumsMeaning(b: Board)
    ensures var r := FillPossibleNums(b);
      |r| == |b| &&
      forall i :: 0 <= i < |b| ==>
        r[i].id == b[i].id && r[i].locked == b[i].locked && r[i].bigNum == b[i].bigNum &&
        (Filled(b[i]) ==> r[i].cornerPencil == [] && r[i].centerPencil == b[i].centerPencil) &&
        (!Filled(b[i]) ==>
          r[i].centerPencil == [] && SortedBy(r[i].cornerPencil, false) && NoDup(r[i].cornerPencil) &&
          forall d :: d in r[i].cornerPencil <==>
            d in Digits && forall j :: 0 <= j < |b| && SeenByAll([b[i].id], b[j].id) ==> b[j].bigNum != d)
  {
    DigitsSorted();
    DigitsNoDup();
    forall i | 0 <= i < |b| && !Filled(b[i])
      ensures var marks := Without(Digits, PeerNums(b, b[i].id));
        SortedBy(marks, false) && NoDup(marks)
    {
      WithoutKeepsOrder(Digits, PeerNums(b, b[i].id));
    }
  }

  lemma DigitsNoDup()
    ensures NoDup(Digits)
  {
    forall i, j | 0 <= i < j < 9 ensures Digits[i] != Digits[j] {
      assert Digits[i][0] != Digits[j][0];
    }
  }

  /** Dropping elements keeps a sorted list sorted and a repeat-free list
      repeat-free. */
  lemma WithoutKeepsOrder(marks: seq<string>, ds: seq<string>)
    ensures SortedBy(marks, false) ==> SortedBy(Without(marks, ds), false)
    ensures NoDup(marks) ==> NoDup(Without(marks, ds))
  {
    WithoutKeepsSorted(marks, ds);
    WithoutKeepsNoDup(marks, ds);
  }

  lemma {:induction false} WithoutKeepsSorted(marks: seq<string>, ds: seq<string>)
    ensures SortedBy(marks, false) ==> SortedBy(Without(marks, ds), false)
  {
    if marks != [] && SortedBy(marks, false) {
      var rest := marks[1..];
      WithoutKeepsSorted(rest, ds);
      var w := Without(rest, ds);
      assert forall m :: m in w ==> m in rest;
      assert SortedBy(rest, false) by {
        forall i, j | 0 <= i < j < |rest| ensures LessEq(rest[i], rest[j]) {
          assert rest[i] == marks[i + 1] && rest[j] == marks[j + 1];
        }
      }
      forall m | m in w ensures LessEq(marks[0], m) {
        var k :| 0 <= k < |rest| && rest[k] == m;
        assert marks[k + 1] == m;
      }
    }
  }

  lemma {:induction false} WithoutKeepsNoDup(marks: seq<string>, ds: seq<string>)
    ensures NoDup(marks) ==> NoDup(Without(marks, ds))
  {
    if marks != [] && NoDup(marks) {
      var rest := marks[1..];
      WithoutKeepsNoDup(rest, ds);
      var w := Without(rest, ds);
      assert forall m :: m in w ==> m in rest;
      assert NoDup(rest) by {
        forall i, j | 0 <= i < j < |rest| ensures rest[i] != rest[j] {
          assert rest[i] == marks[i + 1] && rest[j] == marks[j + 1];
        }
      }
      assert marks[0] !in rest;
    }
  }

  /** Only ids and big numbers decide the candidates. */
  lemma {:induction false} PeerNumsAgree(b: Board, r: Board, id: string)
    requires |r| == |b| && forall i :: 0 <= i < |b| ==> r[i].id == b[i].id && r[i].bigNum == b[i].bigNum
    ensures PeerNums(r, id) == PeerNums(b, id)
  {
    if b != [] {
      PeerNumsAgree(b[1..], r[1..], id);
    }
  }

  /** Filling the candidates twice is filling them once. */
  lemma FillPossibleNumsIdempotent(b: Board)
    ensures FillPossibleNums(FillPossibleNums(b)) == FillPossibleNums(b)
  {
    var r := FillPossibleNums(b);
    forall id ensures PeerNums(r, id) == PeerNums(b, id) {
      PeerNumsAgree(b, r, id);
    }
  }

  // ---------------------------------------------------------------------
  // isMissingOneNum
  // ---------------------------------------------------------------------

  /** The answer `[cellId, String(n)]`. */
  datatype Missing = Missing(cellId: string, num: string)

  /** The big numbers of a group, in order (`numsInSet`). */
  function PlacedNums(g: seq<Cell>): (r: seq<string>)
    ensures |r| <= |g|
  {
    if g == [] then []
    else PlacedNums(g[..|g| - 1]) + (if Filled(g[|g| - 1]) then [g[|g| - 1].bigNum] else [])
  }

  /** The id of the last empty cell, "" when there is none (`cellId`). */
  function LastEmpty(g: seq<Cell>): string
  {
    if g == [] then ""
    else if !Filled(g[|g| - 1]) then g[|g| - 1].id
    else LastEmpty(g[..|g| - 1])
  }

  /** The loop over `n` on the sorted numbers: the first `n` whose digit is
      not at position `n - 1`. */
  function FirstGap(nums: seq<string>, cellId: string, n: nat): Option<Missing>
    requires 1 <= n <= 10
    decreases 10 - n
  {
    if n > 9 then None
    else if Elem(nums, n - 1) != DigitStr(n) then Some(Missing(cellId, DigitStr(n)))
    else FirstGap(nums, cellId, n + 1)
  }

  function MissingOne(g: seq<Cell>): Option<Missing>
  {
    var nums := PlacedNums(g);
    if |nums| != 8 then None else FirstGap(Sort(nums), LastEmpty(g), 1)
  }

  method IsMissingOneNum(group: seq<Cell>) returns (r: Option<Missing>)
    ensures r == MissingOne(group)
  {
    var numsInSet: seq<string> := [];
    var cellId := "";
    for k := 0 to |group|
      invariant numsInSet == PlacedNums(group[..k]) && cellId == LastEmpty(group[..k])
    {
      assert group[..k + 1][..k] == group[..k];
      if Filled(group[k]) {
        numsInSet := numsInSet + [group[k].bigNum];
      } else {
        cellId := group[k].id;
      }
    }
    assert group[..|group|] == group;
    if |numsInSet| != 8 {
      return None;
    }
    numsInSet := Sort(numsInSet);
    for n := 1 to 10
      invariant FirstGap(numsInSet, cellId, 1) == FirstGap(numsInSet, cellId, n)
    {
      if Elem(numsInSet, n - 1) != DigitStr(n) {
        return Some(Missing(cellId, DigitStr(n)));
      }
    }
    return None;
  }

  /** There is an answer exactly when eight cells are filled. */
  lemma MissingOneFires(g: seq<Cell>)
    ensures MissingOne(g).Some? <==> |PlacedNums(g)| == 8
  {
    if |PlacedNums(g)| == 8 {
      FirstGapReached(Sort(PlacedNums(g)), LastEmpty(g), 1);
    }
  }

  lemma {:induction false} FirstGapReached(nums: seq<string>, cellId: string, n: nat)
    requires |nums| == 8 && 1 <= n <= 9
    ensures FirstGap(nums, cellId, n).Some?
    decreases 10 - n
  {
    if n < 9 && Elem(nums, n - 1) == DigitStr(n) {
      FirstGapReached(nums, cellId, n + 1);
    }
  }

  /** On a group of nine cells whose placed digits are distinct digits: an
      answer names the one empty cell and a digit the group lacks. */
  lemma MissingOneMeaning(g: seq<Cell>)
    requires |g| == 9
    requires forall k :: 0 <= k < 9 && Filled(g[k]) ==> IsDigitStr(g[k].bigNum)
    requires NoDup(PlacedNums(g))
    ensures MissingOne(g).Some? ==>
      var m := MissingOne(g).value;
      IsDigitStr(m.num) && m.num !in PlacedNums(g) &&
      (exists k :: 0 <= k < 9 && !Filled(g[k])) &&
      forall k :: 0 <= k < 9 && !Filled(g[k]) ==> m.cellId == g[k].id
  {
    if MissingOne(g).Some? {
      var nums := PlacedNums(g);
      PlacedAreDigits(g);
      SortedStrictly(nums);
      var s := Sort(nums);
      FirstGapAbsent(s, LastEmpty(g), 1);
      SortElems(nums, false);
      OneEmpty(g);
    }
  }

  lemma {:induction false} PlacedAreDigits(g: seq<Cell>)
    requires forall k :: 0 <= k < |g| && Filled(g[k]) ==> IsDigitStr(g[k].bigNum)
    ensures forall n :: n in PlacedNums(g) ==> IsDigitStr(n)
  {
    if g != [] {
      PlacedAreDigits(g[..|g| - 1]);
    }
  }

  /** Digit strings whose characters strictly increase. */
  ghost predicate AscendingDigits(s: seq<string>)
  {
    (forall i :: 0 <= i < |s| ==> IsDigitStr(s[i])) &&
    forall i, j :: 0 <= i < j < |s| ==> s[i][0] < s[j][0]
  }

  /** Sorting distinct digit strings orders them strictly by their
      character. */
  lemma SortedStrictly(nums: seq<string>)
    requires NoDup(nums) && forall n :: n in nums ==> IsDigitStr(n)
    ensures |Sort(nums)| == |nums| && AscendingDigits(Sort(nums))
  {
    var s := Sort(nums);
    SortBySorted(nums, false);
    SortElems(nums, false);
    MultisetNoDup(nums, s);
    assert forall i :: 0 <= i < |s| ==> s[i] in nums;
    forall i, j | 0 <= i < j < |s| ensures s[i][0] < s[j][0] {
      LessOneChar(s[i], s[j]);
    }
  }

  /** The digit the loop stops at is not among the sorted numbers. */
  lemma {:induction false} FirstGapAbsent(s: seq<string>, cellId: string, n: nat)
    requires 1 <= n <= 9 && |s| == 8 && AscendingDigits(s)
    requires forall m :: 1 <= m < n ==> s[m - 1] == DigitStr(m)
    ensures FirstGap(s, cellId, n).Some? ==>
      var d := FirstGap(s, cellId, n).value.num; IsDigitStr(d) && d !in s && FirstGap(s, cellId, n).value.cellId == cellId
    decreases 10 - n
  {
    if Elem(s, n - 1) != DigitStr(n) {
      forall j | 0 <= j < |s| ensures s[j] != DigitStr(n) {
        if j < n - 1 {
          assert s[j] == DigitStr(j + 1);
        } else if j > n - 1 {
          assert IsDigitStr(s[n - 1]) && s[n - 1] != DigitStr(n);
          if n > 1 {
            assert s[n - 2] == DigitStr(n - 1);
          }
          assert s[n - 1][0] > ('0' as int + n) as char;
        }
      }
    } else if n < 9 {
      FirstGapAbsent(s, cellId, n + 1);
    }
  }

  /** With eight of nine cells filled, exactly one is empty and the loop
      remembers its id. */
  lemma OneEmpty(g: seq<Cell>)
    requires |g| == 9 && |PlacedNums(g)| == 8
    ensures exists k :: 0 <= k < 9 && !Filled(g[k])
    ensures forall k :: 0 <= k < 9 && !Filled(g[k]) ==> LastEmpty(g) == g[k].id
  {
    if forall k :: 0 <= k < 9 ==> Filled(g[k]) {
      AllFilled(g);
    }
    forall k | 0 <= k < 9 && !Filled(g[k]) ensures LastEmpty(g) == g[k].id {
      forall j | k < j < 9 ensures Filled(g[j]) {
        if !Filled(g[j]) {
          PlacedAtMost(g, {k, j});
        }
      }
      LastEmptyIs(g, k);
    }
  }

  lemma {:induction false} AllFilled(g: seq<Cell>)
    requires forall k :: 0 <= k < |g| ==> Filled(g[k])
    ensures |PlacedNums(g)| == |g|
  {
    if g != [] {
      AllFilled(g[..|g| - 1]);
    }
  }

  lemma {:induction false} PlacedAtMost(g: seq<Cell>, ks: set<nat>)
    requires forall k :: k in ks ==> k < |g| && !Filled(g[k])
    ensures |PlacedNums(g)| <= |g| - |ks|
  {
    if g == [] {
      assert ks == {};
    } else {
      var n := |g|;
      var ks' := ks - {n - 1};
      PlacedAtMost(g[..n - 1], ks');
      if n - 1 in ks {
        assert ks == ks' + {n - 1};
      }
    }
  }

  /** The gap found is a digit, missing from the last empty cell. */
  lemma {:induction false} FirstGapIs(nums: seq<string>, cellId: string, n: nat)
    requires 1 <= n <= 10
    ensures FirstGap(nums, cellId, n).Some? ==>
      FirstGap(nums, cellId, n).value.cellId == cellId && FirstGap(nums, cellId, n).value.num != ""
    decreases 10 - n
  {
    if n <= 9 && Elem(nums, n - 1) == DigitStr(n) {
      FirstGapIs(nums, cellId, n + 1);
    }
  }

  /** When some cell of the group is empty, `cellId` names one. */
  lemma {:induction false} LastEmptyCell(g: seq<Cell>)
    ensures |PlacedNums(g)| < |g| ==> exists k :: 0 <= k < |g| && !Filled(g[k]) && LastEmpty(g) == g[k].id
  {
    if g != [] && Filled(g[|g| - 1]) {
      var h := g[..|g| - 1];
      LastEmptyCell(h);
      if |PlacedNums(g)| < |g| {
        var k :| 0 <= k < |h| && !Filled(h[k]) && LastEmpty(h) == h[k].id;
        assert g[k] == h[k];
      }
    }
  }

  lemma {:induction false} LastEmptyIs(g: seq<Cell>, k: nat)
    requires k < |g| && !Filled(g[k]) && forall j :: k < j < |g| ==> Filled(g[j])
    ensures LastEmpty(g) == g[k].id
  {
    if k < |g| - 1 {
      LastEmptyIs(g[..|g| - 1], k);
    }
  }

  // ---------------------------------------------------------------------
  // checkFullHouse
  // ---------------------------------------------------------------------

  /** The `c`-th family of `sets = [boxes, rows, columns]`, group `x`. */
  function FullHouseAt(place: (Board, string, string) -> Board, s: Board, x: nat, c: nat): Option<Found>
  {
    if |s| == 81 && x < 9 && c < 3 then
      match MissingOne(Group(s, KindAt(c), x))
      case None => None
      case Some(m) =>
        Some(Found(place(s, m.cellId, m.num), Specs([m.cellId], [m.num], [], [], false, GroupLabel(KindAt(c), x))))
    else None
  }

  function FullHouseStep(place: (Board, string, string) -> Board, s: Board): (nat, nat) -> Option<Found>
  {
    (x: nat, c: nat) => FullHouseAt(place, s, x, c)
  }

  /** The first group, by group index and then box, row, column, that
      misses exactly one number, filled in. */
  function FullHouse(place: (Board, string, string) -> Board, b: Board): Option<Found>
  {
    GridFrom(9, 3, FullHouseStep(place, SortById(b)), 0, 0)
  }

  method CheckFullHouse(place: (Board, string, string) -> Board, board: Board) returns (r: Option<Found>)
    requires |board| == 81
    ensures r == FullHouse(place, board)
  {
    var rows, columns, boxes := GetRowsBoxesColumns(board);
    var s := SortById(board);
    var sets := [boxes, rows, columns];
    ghost var f := FullHouseStep(place, s);
    for x := 0 to 9
      invariant GridFrom(9, 3, f, 0, 0) == GridFrom(9, 3, f, x, 0)
    {
      for c := 0 to 3
        invariant GridFrom(9, 3, f, 0, 0) == GridFrom(9, 3, f, x, c)
      {
        assert sets[c][x] == Group(s, KindAt(c), x);
        var result := IsMissingOneNum(sets[c][x]);
        if result.Some? {
          var m := result.value;
          return Some(Found(place(s, m.cellId, m.num), Specs([m.cellId], [m.num], [], [], false, GroupLabel(KindAt(c), x))));
        }
      }
    }
    return None;
  }

  /** No full house is found exactly when no group has exactly eight
      filled cells. */
  lemma FullHouseNone(place: (Board, string, string) -> Board, b: Board)
    requires |b| == 81
    ensures FullHouse(place, b).None? <==>
      forall x, c :: 0 <= x < 9 && 0 <= c < 3 ==> |PlacedNums(Group(SortById(b), KindAt(c), x))| != 8
  {
    var s := SortById(b);
    var f := FullHouseStep(place, s);
    GridNone(9, 3, f);
    forall x: nat, c: nat | x < 9 && c < 3
      ensures f(x, c) == None <==> |PlacedNums(Group(s, KindAt(c), x))| != 8
    {
      assert f(x, c) == FullHouseAt(place, s, x, c);
      MissingOneFires(Group(s, KindAt(c), x));
    }
  }

  /** What is found is the answer of a group with exactly eight filled
      cells, placed (see `FullHousePlaces`). */
  lemma FullHouseFound(place: (Board, string, string) -> Board, b: Board)
    requires |b| == 81
    ensures FullHouse(place, b).Some? ==>
      exists x, c :: 0 <= x < 9 && 0 <= c < 3 && FullHouse(place, b) == FullHouseAt(place, SortById(b), x, c) &&
        |PlacedNums(Group(SortById(b), KindAt(c), x))| == 8
  {
    var s := SortById(b);
    var f := FullHouseStep(place, s);
    GridFromSome(9, 3, f, 0, 0);
    if FullHouse(place, b).Some? {
      var x: nat, c: nat :| x < 9 && c < 3 && f(x, c) == FullHouse(place, b);
      MissingOneFires(Group(s, KindAt(c), x));
    }
  }

  /** Under the assumed contract of `updateBoard`, a full house in a group
      of distinct digits puts the digit the group lacks into its one empty
      cell and changes no other big number. */
  lemma FullHousePlaces(place: (Board, string, string) -> Board, b: Board, x: nat, c: nat)
    requires IsPlacement(place) && |b| == 81 && x < 9 && c < 3
    requires var g := Group(SortById(b), KindAt(c), x);
      (forall k :: 0 <= k < 9 && Filled(g[k]) ==> IsDigitStr(g[k].bigNum)) && NoDup(PlacedNums(g))
    requires FullHouseAt(place, SortById(b), x, c).Some?
    ensures var s := SortById(b); var g := Group(s, KindAt(c), x);
      var f := FullHouseAt(place, s, x, c).value; var num := f.specs.affectedNumbers[0];
      IsDigitStr(num) && num !in PlacedNums(g) &&
      (exists k :: 0 <= k < 9 && !Filled(g[k]) && f.specs.affectedCells == [g[k].id]) &&
      PlacesDigit(s, f.board, f.specs.affectedCells[0], num)
  {
    var s := SortById(b);
    var g := Group(s, KindAt(c), x);
    MissingOneMeaning(g);
    var m := MissingOne(g).value;
    assert PlacesDigit(s, place(s, m.cellId, m.num), m.cellId, m.num);
  }

  // ---------------------------------------------------------------------
  // checkNakedSingles
  // ---------------------------------------------------------------------

  function NakedSingleAt(place: (Board, string, string) -> Board, b: Board, i: nat): Option<Found>
  {
    if i < |b| && !Filled(b[i]) && |b[i].cornerPencil| == 1 then
      var num := b[i].cornerPencil[0];
      Some(Found(place(b, b[i].id, num), Specs([b[i].id], [num], [], [], false, NoLabel)))
    else None
  }

  function NakedSingleStep(place: (Board, string, string) -> Board, b: Board): nat -> Option<Found>
  {
    (i: nat) => NakedSingleAt(place, b, i)
  }

  /** The first empty cell with a single candidate, filled with it. */
  function NakedSingles(place: (Board, string, string) -> Board, b: Board): Option<Found>
  {
    FirstFrom(|b|, NakedSingleStep(place, b), 0)
  }

  method CheckNakedSingles(place: (Board, string, string) -> Board, board: Board) returns (r: Option<Found>)
    ensures r == NakedSingles(place, board)
  {
    ghost var f := NakedSingleStep(place, board);
    for i := 0 to |board|
      invariant FirstFrom(|board|, f, 0) == FirstFrom(|board|, f, i)
    {
      if !Filled(board[i]) && |board[i].cornerPencil| == 1 {
        var num := board[i].cornerPencil[0];
        return Some(Found(place(board, board[i].id, num), Specs([board[i].id], [num], [], [], false, NoLabel)));
      }
    }
    return None;
  }

  /** Nothing is found exactly when no empty cell has a single
      candidate. */
  lemma NakedSinglesNone(place: (Board, string, string) -> Board, b: Board)
    ensures NakedSingles(place, b).None? <==>
      forall i :: 0 <= i < |b| ==> Filled(b[i]) || |b[i].cornerPencil| != 1
  {
    var f := NakedSingleStep(place, b);
    FirstFromNone(|b|, f, 0);
    forall i | 0 <= i < |b| ensures f(i) == None <==> Filled(b[i]) || |b[i].cornerPencil| != 1 {
      assert f(i) == NakedSingleAt(place, b, i);
    }
  }

  /** Otherwise the first such cell gets its candidate as its digit. */
  lemma NakedSinglesFound(place: (Board, string, string) -> Board, b: Board)
    ensures NakedSingles(place, b).Some? ==>
      exists i :: 0 <= i < |b| && !Filled(b[i]) && |b[i].cornerPencil| == 1 &&
        (forall j :: 0 <= j < i ==> Filled(b[j]) || |b[j].cornerPencil| != 1) &&
        var f := NakedSingles(place, b).value;
        f.board == place(b, b[i].id, b[i].cornerPencil[0]) &&
        f.specs.affectedCells == [b[i].id] && f.specs.affectedNumbers == b[i].cornerPencil
  {
    var f := NakedSingleStep(place, b);
    FirstFromSome(|b|, f, 0);
    if NakedSingles(place, b).Some? {
      var i :| 0 <= i < |b| && f(i) == NakedSingles(place, b) && forall j :: 0 <= j < i ==> f(j) == None;
      assert f(i) == NakedSingleAt(place, b, i);
      forall j | 0 <= j < i ensures Filled(b[j]) || |b[j].cornerPencil| != 1 {
        assert f(j) == NakedSingleAt(place, b, j);
      }
      assert b[i].cornerPencil == [b[i].cornerPencil[0]];
    }
  }

  // ---------------------------------------------------------------------
  // checkHiddenSingles
  // ---------------------------------------------------------------------

  /** `asArray.find(([, cells]) => cells.length === 1)`. */
  function SoleEntry(es: seq<Entry>): (r: Option<Entry>)
    ensures r.Some? ==> r.value in es && |r.value.ids| == 1
    ensures r.None? <==> forall e :: e in es ==> |e.ids| != 1
  {
    if es == [] then None
    else if |es[0].ids| == 1 then Some(es[0])
    else SoleEntry(es[1..])
  }

  function HiddenSingleAt(place: (Board, string, string) -> Board, s: Board, x: nat, c: nat): Option<Found>
  {
    if |s| == 81 && x < 9 && c < 3 then
      match SoleEntry(GroupEntries(s, KindAt(c), x))
      case None => None
      case Some(e) =>
        Some(Found(place(s, e.ids[0], e.num), Specs([e.ids[0]], [e.num], [], [], false, GroupLabel(KindAt(c), x))))
    else None
  }

  function HiddenSingleStep(place: (Board, string, string) -> Board, s: Board): (nat, nat) -> Option<Found>
  {
    (x: nat, c: nat) => HiddenSingleAt(place, s, x, c)
  }

  /** The first group (by index, then box, row, column) with a digit that
      only one of its cells can take, the digit placed there. */
  function HiddenSingles(place: (Board, string, string) -> Board, b: Board): Option<Found>
  {
    GridFrom(9, 3, HiddenSingleStep(place, SortById(b)), 0, 0)
  }

  /** One pass of the outer loop of `checkHiddenSingles`: the records of
      box, row and column `x` (`enumSets`), then each in turn, stopping at
      the first with a digit that only one cell can take. */
  method HiddenSingleRow(place: (Board, string, string) -> Board, board: Board, x: nat) returns (r: Option<Found>)
    requires |board| == 81 && x < 9
    ensures var f := HiddenSingleStep(place, SortById(board));
      if r.Some? then r == GridFrom(9, 3, f, x, 0) else GridFrom(9, 3, f, x, 0) == GridFrom(9, 3, f, x + 1, 0)
  {
    var s := SortById(board);
    ghost var f := HiddenSingleStep(place, s);
    var boxEnum, rowEnum, columnEnum := EnumSets(board, x);
    var sets := [boxEnum, rowEnum, columnEnum];
    for i := 0 to 3
      invariant GridFrom(9, 3, f, x, 0) == GridFrom(9, 3, f, x, i)
    {
      assert sets[i] == EnumMap(Group(s, KindAt(i), x));
      var result := SoleEntry(Entries(sets[i]));
      assert f(x, i) == HiddenSingleAt(place, s, x, i);
      GridStep(9, 3, f, x, i);
      if result.Some? {
        var e := result.value;
        return Some(Found(place(s, e.ids[0], e.num), Specs([e.ids[0]], [e.num], [], [], false, GroupLabel(KindAt(i), x))));
      }
    }
    r := None;
  }

  method CheckHiddenSingles(place: (Board, string, string) -> Board, board: Board) returns (r: Option<Found>)
    requires |board| == 81
    ensures r == HiddenSingles(place, board)
  {
    ghost var f := HiddenSingleStep(place, SortById(board));
    for x := 0 to 9
      invariant GridFrom(9, 3, f, 0, 0) == GridFrom(9, 3, f, x, 0)
    {
      r := HiddenSingleRow(place, board, x);
      if r.Some? {
        return;
      }
    }
    return None;
  }

  /** Nothing is found exactly when no digit can go into exactly one cell
      of any group. */
  lemma HiddenSinglesNone(place: (Board, string, string) -> Board, b: Board)
    requires |b| == 81
    ensures HiddenSingles(place, b).None? <==>
      forall x, c, d :: 0 <= x < 9 && 0 <= c < 3 && 1 <= d <= 9 ==>
        |CellsWith(Group(SortById(b), KindAt(c), x), DigitStr(d))| != 1
  {
    var s := SortById(b);
    var f := HiddenSingleStep(place, s);
    GridNone(9, 3, f);
    forall x: nat, c: nat | x < 9 && c < 3
      ensures f(x, c) == None <==> forall d :: 1 <= d <= 9 ==> |CellsWith(Group(s, KindAt(c), x), DigitStr(d))| != 1
    {
      assert f(x, c) == HiddenSingleAt(place, s, x, c);
      HiddenSingleNone(s, x, c);
    }
  }

  /** What is found is some group's answer (see `HiddenSingleAtMeaning`). */
  lemma HiddenSinglesFound(place: (Board, string, string) -> Board, b: Board)
    requires |b| == 81
    ensures HiddenSingles(place, b).Some? ==>
      exists x, c :: 0 <= x < 9 && 0 <= c < 3 && HiddenSingles(place, b) == HiddenSingleAt(place, SortById(b), x, c)
  {
    GridFromSome(9, 3, HiddenSingleStep(place, SortById(b)), 0, 0);
  }

  /** A group's answer: a digit that exactly one cell of the group can
      take, placed in that cell. */
  lemma HiddenSingleAtMeaning(place: (Board, string, string) -> Board, s: Board, x: nat, c: nat)
    requires |s| == 81 && x < 9 && c < 3
    ensures HiddenSingleAt(place, s, x, c).Some? ==>
      exists d :: 1 <= d <= 9 &&
        var ids := CellsWith(Group(s, KindAt(c), x), DigitStr(d));
        |ids| == 1 &&
        HiddenSingleAt(place, s, x, c) == Some(Found(place(s, ids[0], DigitStr(d)), Specs(ids, [DigitStr(d)], [], [], false, GroupLabel(KindAt(c), x))))
  {
    var g := Group(s, KindAt(c), x);
    var es := GroupEntries(s, KindAt(c), x);
    if SoleEntry(es).Some? {
      EntriesMeaning(g);
      var e := SoleEntry(es).value;
      var k :| 0 <= k < |es| && es[k] == e;
      var d := (e.num[0] as int - '0' as int);
      assert e.num == DigitStr(d);
      assert e.ids == [e.ids[0]];
    }
  }

  lemma HiddenSingleNone(s: Board, x: nat, c: nat)
    requires |s| == 81 && x < 9 && c < 3
    ensures SoleEntry(GroupEntries(s, KindAt(c), x)).None? <==>
      forall d :: 1 <= d <= 9 ==> |CellsWith(Group(s, KindAt(c), x), DigitStr(d))| != 1
  {
    var g := Group(s, KindAt(c), x);
    var es := GroupEntries(s, KindAt(c), x);
    EntriesMeaning(g);
    if SoleEntry(es).Some? {
      var e := SoleEntry(es).value;
      var k :| 0 <= k < |es| && es[k] == e;
      var d := (e.num[0] as int - '0' as int);
      assert e.num == DigitStr(d);
    } else {
      forall d | 1 <= d <= 9 ensures |CellsWith(g, DigitStr(d))| != 1 {
      }
    }
  }
}
