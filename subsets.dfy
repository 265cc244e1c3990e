/** Hidden and naked subsets (pairs, triples, quads).
    Hidden: k digits of a group whose candidate cells in the group are, all
    together, exactly k cells; those cells keep only the k digits.
    Naked: k cells of a group whose candidates are, all together, exactly
    k digits; the digits are struck from the empty cells that see all k
    cells. */
module Subsets {
  import opened Lists
  import opened Grid
  import opened Board
  import opened Groups
  import opened Search

  // ---------------------------------------------------------------------
  // Hidden subsets
  // ---------------------------------------------------------------------

  /** `cells.length <= amount && cells.length > 1` on the enumerated
      digits. */
  function FewCells(k: nat): Entry -> bool
  {
    (e: Entry) => 1 < |e.ids| <= k
  }

  /** One attempt of `checkHiddenPairs` / `Triples` / `Quads`: `nums` are
      the chosen digits and `ids` their candidate cells, concatenated. When
      those are k distinct cells, every other digit is removed from them.
      Hidden pairs only touch cells holding three marks or more. */
  function HiddenTry(s: Board, k: nat, nums: seq<string>, ids: seq<string>): Option<Found>
  {
    var cells := Uniq(Sort(ids));
    if |cells| == k then Fire(s, Keep(cells, nums, k == 2), Specs(cells, nums, [], [], false, NoLabel)) else None
  }

  function HiddenPairStep(s: Board, es: seq<Entry>): (nat, nat) -> Option<Found>
  {
    (a: nat, b: nat) =>
      if a < |es| && b < |es| then HiddenTry(s, 2, [es[a].num, es[b].num], es[a].ids + es[b].ids) else None
  }

  function HiddenTripleStep(s: Board, es: seq<Entry>): (nat, nat, nat) -> Option<Found>
  {
    (a: nat, b: nat, c: nat) =>
      if a < |es| && b < |es| && c < |es|
      then HiddenTry(s, 3, [es[a].num, es[b].num, es[c].num], es[a].ids + es[b].ids + es[c].ids)
      else None
  }

  function HiddenQuadStep(s: Board, es: seq<Entry>): (nat, nat, nat, nat) -> Option<Found>
  {
    (a: nat, b: nat, c: nat, d: nat) =>
      if a < |es| && b < |es| && c < |es| && d < |es|
      then HiddenTry(s, 4, [es[a].num, es[b].num, es[c].num, es[d].num], es[a].ids + es[b].ids + es[c].ids + es[d].ids)
      else None
  }

  /** `checkHiddenPairs(set, board)`: the first pair of entries, in loop
      order, that fires. */
  method CheckHiddenPairs(entries: seq<Entry>, s: Board) returns (r: Option<Found>)
    ensures r == PairFrom(|entries|, HiddenPairStep(s, entries), 0, 1)
  {
    if |entries| == 0 {
      return None;
    }
    r := FindPair(|entries|, HiddenPairStep(s, entries));
  }

  /** `checkHiddenTriples(set, board)`. */
  method CheckHiddenTriples(entries: seq<Entry>, s: Board) returns (r: Option<Found>)
    ensures r == TripleFrom(|entries|, HiddenTripleStep(s, entries), 0, 1, 2)
  {
    if |entries| == 0 {
      return None;
    }
    r := FindTriple(|entries|, HiddenTripleStep(s, entries));
  }

  /** `checkHiddenQuads(set, board)`. */
  method CheckHiddenQuads(entries: seq<Entry>, s: Board) returns (r: Option<Found>)
    ensures r == QuadFrom(|entries|, HiddenQuadStep(s, entries), 0, 1, 2, 3)
  {
    if |entries| == 0 {
      return None;
    }
    r := FindQuad(|entries|, HiddenQuadStep(s, entries));
  }

  /** The subset search of size `k` over one group's filtered entries. */
  function HiddenIn(s: Board, k: nat, es: seq<Entry>): Option<Found>
  {
    if k == 2 then PairFrom(|es|, HiddenPairStep(s, es), 0, 1)
    else if k == 3 then TripleFrom(|es|, HiddenTripleStep(s, es), 0, 1, 2)
    else if k == 4 then QuadFrom(|es|, HiddenQuadStep(s, es), 0, 1, 2, 3)
    else None
  }

  /** The filtered entries of group `x` of kind `KindAt(c)`. */
  function HiddenEntries(s: Board, k: nat, x: nat, c: nat): seq<Entry>
    requires |s| == 81 && x < 9 && c < 3
  {
    Filter(GroupEntries(s, KindAt(c), x), FewCells(k))
  }

  function HiddenAt(s: Board, k: nat, x: nat, c: nat): Option<Found>
  {
    if |s| == 81 && x < 9 && c < 3 then Relabel(HiddenIn(s, k, HiddenEntries(s, k, x, c)), GroupLabel(KindAt(c), x))
    else None
  }

  function HiddenGroups(s: Board, k: nat): (nat, nat) -> Option<Found>
  {
    (x: nat, c: nat) => HiddenAt(s, k, x, c)
  }

  /** The hidden subset search on a board: for each index its box, row and
      column; any size other than 2, 3 or 4 finds nothing. */
  function HiddenSearch(s: Board, k: nat): Option<Found>
  {
    if 2 <= k <= 4 then GridFrom(9, 3, HiddenGroups(s, k), 0, 0) else None
  }

  /** `checkHiddenSubsets(board, amount)` searches the board in id order. */
  function HiddenSubsets(b: Board, k: nat): Option<Found>
  {
    HiddenSearch(SortById(b), k)
  }

  /** The `switch (amount)` of `checkHiddenSubsets` for the sizes it
      handles; the default case returns at once. */
  method HiddenSwitch(entries: seq<Entry>, s: Board, amount: nat) returns (r: Option<Found>)
    requires 2 <= amount <= 4
    ensures r == HiddenIn(s, amount, entries)
  {
    if amount == 2 {
      r := CheckHiddenPairs(entries, s);
    } else if amount == 3 {
      r := CheckHiddenTriples(entries, s);
    } else {
      r := CheckHiddenQuads(entries, s);
    }
  }

  /** One group of the hidden subset loop: its enumeration filtered to the
      digits with two to `amount` cells, then the search of that size. */
  method HiddenGroup(s: Board, enum: map<string, seq<string>>, amount: nat, x: nat, c: nat) returns (r: Option<Found>)
    requires |s| == 81 && x < 9 && c < 3 && 2 <= amount <= 4
    requires enum == EnumMap(Group(s, KindAt(c), x))
    ensures r == HiddenAt(s, amount, x, c)
  {
    var filtered := Filter(Entries(enum), FewCells(amount));
    var result := HiddenSwitch(filtered, s, amount);
    r := Relabel(result, GroupLabel(KindAt(c), x));
  }

  /** One pass of the outer loop of `checkHiddenSubsets`: the records of
      box, row and column `x` (`enumSets`), then each in turn, stopping at
      the first that finds a subset. */
  method HiddenRow(board: Board, amount: nat, x: nat) returns (r: Option<Found>)
    requires |board| == 81 && x < 9 && 2 <= amount <= 4
    ensures var groups := HiddenGroups(SortById(board), amount);
      if r.Some? then r == GridFrom(9, 3, groups, x, 0) else GridFrom(9, 3, groups, x, 0) == GridFrom(9, 3, groups, x + 1, 0)
  {
    var s := SortById(board);
    var boxEnum, rowEnum, colEnum := EnumSets(board, x);
    var sets := [boxEnum, rowEnum, colEnum];
    ghost var groups := HiddenGroups(s, amount);
    for c := 0 to 3
      invariant GridFrom(9, 3, groups, x, 0) == GridFrom(9, 3, groups, x, c)
    {
      r := HiddenGroup(s, sets[c], amount, x, c);
      assert groups(x, c) == r;
      GridStep(9, 3, groups, x, c);
      if r.Some? {
        return;
      }
    }
    r := None;
  }

  /** `checkHiddenSubsets(board, amount)`. Its `switch (amount)` sits in the
      inner loop, but as `amount` never changes an unhandled size returns
      `false` on the first pass, before any group is searched; the
      records `enumSets` builds first are pure values here. */
  method CheckHiddenSubsets(board: Board, amount: nat) returns (r: Option<Found>)
    requires |board| == 81
    ensures r == HiddenSubsets(board, amount)
  {
    ghost var groups := HiddenGroups(SortById(board), amount);
    ghost var target := HiddenSubsets(board, amount);
    for x := 0 to 9
      invariant 2 <= amount <= 4 ==> target == GridFrom(9, 3, groups, x, 0)
    {
      if amount < 2 || amount > 4 {
        return None;
      }
      r := HiddenRow(board, amount, x);
      if r.Some? {
        return;
      }
    }
    return None;
  }

  // ---------------------------------------------------------------------
  // What a hidden subset is
  // ---------------------------------------------------------------------

  /** The digits of the chosen entries. */
  function NumsOf(chosen: seq<Entry>): (r: seq<string>)
    ensures |r| == |chosen| && forall j :: 0 <= j < |chosen| ==> r[j] == chosen[j].num
  {
    seq(|chosen|, j requires 0 <= j < |chosen| => chosen[j].num)
  }

  /** The cell lists of the chosen entries, concatenated. */
  function IdsOf(chosen: seq<Entry>): (r: seq<string>)
    ensures forall id :: id in r <==> exists j :: 0 <= j < |chosen| && id in chosen[j].ids
  {
    if chosen == [] then []
    else
      assert forall j :: 0 < j < |chosen| ==> chosen[j] == chosen[1..][j - 1];
      chosen[0].ids + IdsOf(chosen[1..])
  }

  lemma ChosenPair(x: Entry, y: Entry)
    ensures NumsOf([x, y]) == [x.num, y.num] && IdsOf([x, y]) == x.ids + y.ids
  {
    assert [y][1..] == [];
    assert IdsOf([y]) == y.ids + IdsOf([]) == y.ids;
    assert [x, y][1..] == [y];
  }

  lemma ChosenTriple(x: Entry, y: Entry, z: Entry)
    ensures NumsOf([x, y, z]) == [x.num, y.num, z.num] && IdsOf([x, y, z]) == x.ids + y.ids + z.ids
  {
    assert [x, y, z][1..] == [y, z];
    ChosenPair(y, z);
  }

  lemma ChosenQuad(x: Entry, y: Entry, z: Entry, w: Entry)
    ensures NumsOf([x, y, z, w]) == [x.num, y.num, z.num, w.num] && IdsOf([x, y, z, w]) == x.ids + y.ids + z.ids + w.ids
  {
    assert [x, y, z, w][1..] == [y, z, w];
    ChosenTriple(y, z, w);
  }

  /** `nums` are k distinct digits of group `g`, each a candidate in two to
      k of its cells, and `cells` are the k distinct cells where one of them
      is a candidate. */
  ghost predicate HiddenSubset(g: seq<Cell>, k: nat, nums: seq<string>, cells: seq<string>)
  {
    |nums| == k && NoDup(nums) && |cells| == k && NoDup(cells) &&
    (forall j :: 0 <= j < k ==> IsDigitStr(nums[j]) && 1 < |CellsWith(g, nums[j])| <= k) &&
    (forall id :: id in cells <==> exists j :: 0 <= j < k && id in CellsWith(g, nums[j]))
  }

  /** Entries in strictly ascending order of their digits. */
  ghost predicate Ascending(es: seq<Entry>)
  {
    forall j, j' :: 0 <= j < j' < |es| ==> Less(es[j].num, es[j'].num)
  }

  /** Filtering keeps the ascending order of the digits. */
  lemma {:induction false} FilterKeepsOrder(es: seq<Entry>, p: Entry -> bool)
    requires Ascending(es)
    ensures Ascending(Filter(es, p))
  {
    if es != [] {
      var tail := es[1..];
      assert forall j, j' :: 0 <= j < j' < |tail| ==> tail[j] == es[j + 1] && tail[j'] == es[j' + 1];
      FilterKeepsOrder(tail, p);
      var rest := Filter(tail, p);
      forall j | 0 <= j < |rest|
        ensures Less(es[0].num, rest[j].num)
      {
        assert rest[j] in tail;
        var m :| 0 <= m < |tail| && tail[m] == rest[j];
        assert tail[m] == es[m + 1];
      }
      var r := Filter(es, p);
      if p(es[0]) {
        assert r == [es[0]] + rest;
        forall j, j' | 0 <= j < j' < |r|
          ensures Less(r[j].num, r[j'].num)
        {
          assert r[j'] == rest[j' - 1];
          if j > 0 {
            assert r[j] == rest[j - 1];
            assert Ascending(rest);
            assert Less(rest[j - 1].num, rest[j' - 1].num);
          }
        }
      } else {
        assert r == rest;
      }
    }
  }

  /** The entries of group `g` a hidden search of size k walks: digits
      with two to k candidate cells, with those cells, in ascending order. */
  ghost predicate Walked(g: seq<Cell>, k: nat, es: seq<Entry>)
  {
    (forall j :: 0 <= j < |es| ==> Sound(g, k, es[j])) && Ascending(es)
  }

  /** A digit of group `g` with its two to k candidate cells. */
  ghost predicate Sound(g: seq<Cell>, k: nat, e: Entry)
  {
    IsDigitStr(e.num) && e.ids == CellsWith(g, e.num) && 1 < |e.ids| <= k
  }

  lemma HiddenEntriesMeaning(s: Board, k: nat, x: nat, c: nat)
    requires |s| == 81 && x < 9 && c < 3
    ensures Walked(Group(s, KindAt(c), x), k, HiddenEntries(s, k, x, c))
  {
    var g := Group(s, KindAt(c), x);
    var all := Entries(EnumMap(g));
    EntriesMeaning(g);
    FilterKeepsOrder(all, FewCells(k));
    var es := HiddenEntries(s, k, x, c);
    assert es == Filter(all, FewCells(k));
    forall j | 0 <= j < |es|
      ensures Sound(g, k, es[j])
    {
      assert es[j] in all && FewCells(k)(es[j]);
    }
  }

  /** A hidden attempt that fires was made on a hidden subset. */
  lemma HiddenTryMeaning(s: Board, g: seq<Cell>, k: nat, chosen: seq<Entry>)
    requires |chosen| == k && Walked(g, k, chosen)
    requires |Uniq(Sort(IdsOf(chosen)))| == k
    ensures HiddenSubset(g, k, NumsOf(chosen), Uniq(Sort(IdsOf(chosen))))
  {
    HiddenTryNums(g, k, chosen);
    HiddenTryCells(g, k, chosen);
  }

  /** The digits of walked entries: different, each with two to k cells. */
  lemma HiddenTryNums(g: seq<Cell>, k: nat, chosen: seq<Entry>)
    requires |chosen| == k && Walked(g, k, chosen)
    ensures var nums := NumsOf(chosen);
      |nums| == k && NoDup(nums) &&
      forall j :: 0 <= j < k ==> IsDigitStr(nums[j]) && 1 < |CellsWith(g, nums[j])| <= k
  {
    var nums := NumsOf(chosen);
    forall j, j' | 0 <= j < j' < k
      ensures nums[j] != nums[j']
    {
      LessIrreflexive(nums[j]);
    }
  }

  /** The cells of walked entries, sorted without repeats. */
  lemma HiddenTryCells(g: seq<Cell>, k: nat, chosen: seq<Entry>)
    requires |chosen| == k && Walked(g, k, chosen)
    ensures var cells := Uniq(Sort(IdsOf(chosen)));
      NoDup(cells) &&
      forall id :: id in cells <==> exists j :: 0 <= j < k && id in CellsWith(g, NumsOf(chosen)[j])
  {
    var ids := IdsOf(chosen);
    SortBySorted(ids, false);
    UniqNoDup(Sort(ids));
    SortElems(ids, false);
    forall j | 0 <= j < k
      ensures chosen[j].ids == CellsWith(g, NumsOf(chosen)[j])
    {
      assert Sound(g, k, chosen[j]);
    }
  }

  /** Entries picked in walk order from walked entries are walked. */
  lemma WalkedPair(g: seq<Cell>, k: nat, es: seq<Entry>, p: nat, q: nat)
    requires Walked(g, k, es) && p < q < |es|
    ensures Walked(g, k, [es[p], es[q]])
  {
    var chosen := [es[p], es[q]];
    assert chosen[0] == es[p] && chosen[1] == es[q];
    assert Sound(g, k, es[p]) && Sound(g, k, es[q]);
    assert Less(es[p].num, es[q].num);
  }

  lemma WalkedTriple(g: seq<Cell>, k: nat, es: seq<Entry>, p: nat, q: nat, r: nat)
    requires Walked(g, k, es) && p < q < r < |es|
    ensures Walked(g, k, [es[p], es[q], es[r]])
  {
    var chosen := [es[p], es[q], es[r]];
    assert chosen[0] == es[p] && chosen[1] == es[q] && chosen[2] == es[r];
    assert Sound(g, k, es[p]) && Sound(g, k, es[q]) && Sound(g, k, es[r]);
    assert Less(es[p].num, es[q].num) && Less(es[p].num, es[r].num) && Less(es[q].num, es[r].num);
  }

  lemma WalkedQuad(g: seq<Cell>, k: nat, es: seq<Entry>, p: nat, q: nat, r: nat, t: nat)
    requires Walked(g, k, es) && p < q < r < t < |es|
    ensures Walked(g, k, [es[p], es[q], es[r], es[t]])
  {
    var chosen := [es[p], es[q], es[r], es[t]];
    assert chosen[0] == es[p] && chosen[1] == es[q] && chosen[2] == es[r] && chosen[3] == es[t];
    assert Sound(g, k, es[p]) && Sound(g, k, es[q]) && Sound(g, k, es[r]) && Sound(g, k, es[t]);
    assert Less(es[p].num, es[q].num) && Less(es[p].num, es[r].num) && Less(es[p].num, es[t].num);
    assert Less(es[q].num, es[r].num) && Less(es[q].num, es[t].num) && Less(es[r].num, es[t].num);
  }

  /** The entries behind a pair, triple or quad result, in walk order. */
  lemma PickPair(s: Board, g: seq<Cell>, es: seq<Entry>) returns (chosen: seq<Entry>)
    requires Walked(g, 2, es) && HiddenIn(s, 2, es).Some?
    ensures |chosen| == 2 && Walked(g, 2, chosen)
    ensures HiddenIn(s, 2, es) == HiddenTry(s, 2, NumsOf(chosen), IdsOf(chosen))
  {
    assert HiddenIn(s, 2, es) == PairFrom(|es|, HiddenPairStep(s, es), 0, 1);
    var p, q := PairWitness(|es|, HiddenPairStep(s, es));
    ChosenPair(es[p], es[q]);
    chosen := [es[p], es[q]];
    WalkedPair(g, 2, es, p, q);
  }

  lemma PickTriple(s: Board, g: seq<Cell>, es: seq<Entry>) returns (chosen: seq<Entry>)
    requires Walked(g, 3, es) && HiddenIn(s, 3, es).Some?
    ensures |chosen| == 3 && Walked(g, 3, chosen)
    ensures HiddenIn(s, 3, es) == HiddenTry(s, 3, NumsOf(chosen), IdsOf(chosen))
  {
    assert HiddenIn(s, 3, es) == TripleFrom(|es|, HiddenTripleStep(s, es), 0, 1, 2);
    var p, q, r := TripleWitness(|es|, HiddenTripleStep(s, es));
    ChosenTriple(es[p], es[q], es[r]);
    chosen := [es[p], es[q], es[r]];
    WalkedTriple(g, 3, es, p, q, r);
  }

  lemma QuadTry(s: Board, es: seq<Entry>, p: nat, q: nat, r: nat, t: nat)
    requires p < q < r < t < |es|
    ensures HiddenQuadStep(s, es)(p, q, r, t) == HiddenTry(s, 4, NumsOf([es[p], es[q], es[r], es[t]]), IdsOf([es[p], es[q], es[r], es[t]]))
  {
    ChosenQuad(es[p], es[q], es[r], es[t]);
  }

  lemma PickQuad(s: Board, g: seq<Cell>, es: seq<Entry>) returns (chosen: seq<Entry>)
    requires Walked(g, 4, es) && HiddenIn(s, 4, es).Some?
    ensures |chosen| == 4 && Walked(g, 4, chosen)
    ensures HiddenIn(s, 4, es) == HiddenTry(s, 4, NumsOf(chosen), IdsOf(chosen))
  {
    assert HiddenIn(s, 4, es) == QuadFrom(|es|, HiddenQuadStep(s, es), 0, 1, 2, 3);
    var p, q, r, t := QuadWitness(|es|, HiddenQuadStep(s, es));
    QuadTry(s, es, p, q, r, t);
    chosen := [es[p], es[q], es[r], es[t]];
    WalkedQuad(g, 4, es, p, q, r, t);
  }

  /** What group `x` of kind `KindAt(c)` yields, when it yields something:
      a hidden subset of that group, whose cells keep only its digits. */
  lemma HiddenAtFound(s: Board, k: nat, x: nat, c: nat)
    requires |s| == 81 && x < 9 && c < 3
    ensures HiddenAt(s, k, x, c).Some? ==>
      exists nums, cells :: HiddenSubset(Group(s, KindAt(c), x), k, nums, cells) &&
        HiddenAt(s, k, x, c) ==
          Relabel(Fire(s, Keep(cells, nums, k == 2), Specs(cells, nums, [], [], false, NoLabel)), GroupLabel(KindAt(c), x))
  {
    var g := Group(s, KindAt(c), x);
    var es := HiddenEntries(s, k, x, c);
    HiddenEntriesMeaning(s, k, x, c);
    if HiddenAt(s, k, x, c).Some? {
      var chosen: seq<Entry>;
      if k == 2 {
        chosen := PickPair(s, g, es);
      } else if k == 3 {
        chosen := PickTriple(s, g, es);
      } else {
        chosen := PickQuad(s, g, es);
      }
      assert |Uniq(Sort(IdsOf(chosen)))| == k;
      HiddenTryMeaning(s, g, k, chosen);
      var nums, cells := NumsOf(chosen), Uniq(Sort(IdsOf(chosen)));
      assert HiddenSubset(g, k, nums, cells);
    }
  }

  /** When a hidden subset search of size k fires, it fires on a hidden
      subset of some box, row or column: those k cells lose every other
      digit (by `Fire`, at least one of them is touched). */
  lemma HiddenFound(s: Board, k: nat)
    requires |s| == 81
    ensures HiddenSearch(s, k).Some? ==>
      2 <= k <= 4 &&
      exists x, c, nums, cells :: 0 <= x < 9 && 0 <= c < 3 &&
        HiddenSubset(Group(s, KindAt(c), x), k, nums, cells) &&
        HiddenSearch(s, k) ==
          Relabel(Fire(s, Keep(cells, nums, k == 2), Specs(cells, nums, [], [], false, NoLabel)), GroupLabel(KindAt(c), x))
  {
    var g := HiddenGroups(s, k);
    GridFromSome(9, 3, g, 0, 0);
    if HiddenSearch(s, k).Some? {
      var x: nat, c: nat :| x < 9 && c < 3 && g(x, c) == HiddenSearch(s, k);
      assert g(x, c) == HiddenAt(s, k, x, c);
      HiddenAtFound(s, k, x, c);
      var nums, cells :| HiddenSubset(Group(s, KindAt(c), x), k, nums, cells) &&
        HiddenAt(s, k, x, c) ==
          Relabel(Fire(s, Keep(cells, nums, k == 2), Specs(cells, nums, [], [], false, NoLabel)), GroupLabel(KindAt(c), x));
      assert HiddenSubset(Group(s, KindAt(c), x), k, nums, cells);
    }
  }

  /** The filtered entry of a digit with two to k candidate cells. */
  lemma EntryOf(s: Board, k: nat, x: nat, c: nat, n: string) returns (i: nat)
    requires |s| == 81 && x < 9 && c < 3
    requires IsDigitStr(n) && 1 < |CellsWith(Group(s, KindAt(c), x), n)| <= k
    ensures i < |HiddenEntries(s, k, x, c)| && HiddenEntries(s, k, x, c)[i].num == n
  {
    var g := Group(s, KindAt(c), x);
    var e := Entry(n, CellsWith(g, n));
    EntryIff(g, e);
    assert FewCells(k)(e);
    var es := HiddenEntries(s, k, x, c);
    assert e in es;
    i :| 0 <= i < |es| && es[i] == e;
  }

  /** Walked entries come in digit order, so a smaller digit sits earlier. */
  lemma EntryOrder(es: seq<Entry>, i: nat, i': nat)
    requires Ascending(es) && i < |es| && i' < |es| && Less(es[i].num, es[i'].num)
    ensures i < i'
  {
    LessIrreflexive(es[i].num);
    if i' < i {
      LessAsymmetric(es[i].num, es[i'].num);
    }
  }

  /** Entries holding exactly the digits of a hidden subset, in any order,
      list exactly its cells. */
  lemma ChosenCells(g: seq<Cell>, k: nat, chosen: seq<Entry>, nums: seq<string>, cells: seq<string>)
    requires HiddenSubset(g, k, nums, cells)
    requires |chosen| == k && forall j :: 0 <= j < k ==> chosen[j].ids == CellsWith(g, chosen[j].num)
    requires forall n :: n in NumsOf(chosen) <==> n in nums
    ensures forall id :: id in IdsOf(chosen) <==> id in cells
  {
    forall id | id in IdsOf(chosen)
      ensures id in cells
    {
      var j :| 0 <= j < k && id in chosen[j].ids;
      assert NumsOf(chosen)[j] in nums;
      var j' :| 0 <= j' < k && nums[j'] == chosen[j].num;
      assert id in CellsWith(g, nums[j']);
    }
    forall id | id in cells
      ensures id in IdsOf(chosen)
    {
      var j' :| 0 <= j' < k && id in CellsWith(g, nums[j']);
      assert nums[j'] in nums;
      var j :| 0 <= j < k && NumsOf(chosen)[j] == nums[j'];
      assert id in chosen[j].ids;
    }
  }

  /** Such entries make an attempt that fires when the subset's sweep
      selects a cell. */
  lemma HiddenTryFires(s: Board, g: seq<Cell>, k: nat, chosen: seq<Entry>, nums: seq<string>, cells: seq<string>)
    requires HiddenSubset(g, k, nums, cells)
    requires |chosen| == k && forall j :: 0 <= j < k ==> chosen[j].ids == CellsWith(g, chosen[j].num)
    requires forall n :: n in NumsOf(chosen) <==> n in nums
    requires Selected(s, Keep(cells, nums, k == 2)) != []
    ensures HiddenTry(s, k, NumsOf(chosen), IdsOf(chosen)).Some?
  {
    var ids := IdsOf(chosen);
    ChosenCells(g, k, chosen, nums, cells);
    DistinctCount(ids);
    assert ToSet(ids) == ToSet(cells);
    NoDupCard(cells);
    KeepSelectsSame(s, cells, nums, Uniq(Sort(ids)), NumsOf(chosen), k == 2);
  }

  /** The sorted digits of a hidden subset are its digits, strictly
      ascending, each with two to k candidate cells. */
  lemma SortedNums(g: seq<Cell>, k: nat, nums: seq<string>, cells: seq<string>)
    requires HiddenSubset(g, k, nums, cells)
    ensures var sn := Sort(nums);
      |sn| == k && (forall n :: n in sn <==> n in nums) &&
      (forall j :: 0 <= j < k ==> IsDigitStr(sn[j]) && 1 < |CellsWith(g, sn[j])| <= k) &&
      forall j, j' :: 0 <= j < j' < k ==> Less(sn[j], sn[j'])
  {
    var sn := Sort(nums);
    SortBySorted(nums, false);
    MultisetNoDup(nums, sn);
    SortElems(nums, false);
    forall j | 0 <= j < k
      ensures IsDigitStr(sn[j]) && 1 < |CellsWith(g, sn[j])| <= k
    {
      assert sn[j] in nums;
    }
  }

  lemma HiddenPairHit(s: Board, g: seq<Cell>, es: seq<Entry>, p: nat, q: nat, nums: seq<string>, cells: seq<string>)
    requires (forall i :: 0 <= i < |es| ==> es[i].ids == CellsWith(g, es[i].num)) && p < q < |es|
    requires HiddenSubset(g, 2, nums, cells)
    requires forall n :: n in [es[p].num, es[q].num] <==> n in nums
    requires Selected(s, Keep(cells, nums, true)) != []
    ensures HiddenIn(s, 2, es).Some?
  {
    var chosen := [es[p], es[q]];
    ChosenPair(es[p], es[q]);
    HiddenTryFires(s, g, 2, chosen, nums, cells);
    PairHit(|es|, HiddenPairStep(s, es), p, q);
  }

  lemma HiddenTripleHit(s: Board, g: seq<Cell>, es: seq<Entry>, p: nat, q: nat, r: nat, nums: seq<string>, cells: seq<string>)
    requires (forall i :: 0 <= i < |es| ==> es[i].ids == CellsWith(g, es[i].num)) && p < q < r < |es|
    requires HiddenSubset(g, 3, nums, cells)
    requires forall n :: n in [es[p].num, es[q].num, es[r].num] <==> n in nums
    requires Selected(s, Keep(cells, nums, false)) != []
    ensures HiddenIn(s, 3, es).Some?
  {
    var chosen := [es[p], es[q], es[r]];
    ChosenTriple(es[p], es[q], es[r]);
    HiddenTryFires(s, g, 3, chosen, nums, cells);
    TripleHit(|es|, HiddenTripleStep(s, es), p, q, r);
  }

  lemma HiddenQuadHit(s: Board, g: seq<Cell>, es: seq<Entry>, p: nat, q: nat, r: nat, t: nat, nums: seq<string>, cells: seq<string>)
    requires (forall i :: 0 <= i < |es| ==> es[i].ids == CellsWith(g, es[i].num)) && p < q < r < t < |es|
    requires HiddenSubset(g, 4, nums, cells)
    requires forall n :: n in [es[p].num, es[q].num, es[r].num, es[t].num] <==> n in nums
    requires Selected(s, Keep(cells, nums, false)) != []
    ensures HiddenIn(s, 4, es).Some?
  {
    var chosen := [es[p], es[q], es[r], es[t]];
    ChosenQuad(es[p], es[q], es[r], es[t]);
    HiddenTryFires(s, g, 4, chosen, nums, cells);
    QuadTry(s, es, p, q, r, t);
    QuadHit(|es|, HiddenQuadStep(s, es), p, q, r, t);
  }

  /** The positions of the sorted digits of a hidden subset among the
      group's walked entries, strictly ascending. */
  lemma DigitPositions(s: Board, k: nat, x: nat, c: nat, nums: seq<string>, cells: seq<string>) returns (idx: seq<nat>)
    requires |s| == 81 && x < 9 && c < 3
    requires HiddenSubset(Group(s, KindAt(c), x), k, nums, cells)
    ensures |idx| == k
    ensures forall j :: 0 <= j < k ==> idx[j] < |HiddenEntries(s, k, x, c)| && HiddenEntries(s, k, x, c)[idx[j]].num == Sort(nums)[j]
    ensures forall j :: 0 < j < k ==> idx[j - 1] < idx[j]
  {
    SortedNums(Group(s, KindAt(c), x), k, nums, cells);
    idx := SortedPositions(s, k, x, c, Sort(nums));
  }

  lemma SortedPositions(s: Board, k: nat, x: nat, c: nat, sn: seq<string>) returns (idx: seq<nat>)
    requires |s| == 81 && x < 9 && c < 3 && |sn| == k
    requires forall j :: 0 <= j < k ==> IsDigitStr(sn[j]) && 1 < |CellsWith(Group(s, KindAt(c), x), sn[j])| <= k
    requires forall j, j' :: 0 <= j < j' < k ==> Less(sn[j], sn[j'])
    ensures |idx| == k
    ensures forall j :: 0 <= j < k ==> idx[j] < |HiddenEntries(s, k, x, c)| && HiddenEntries(s, k, x, c)[idx[j]].num == sn[j]
    ensures forall j :: 0 < j < k ==> idx[j - 1] < idx[j]
  {
    var es := HiddenEntries(s, k, x, c);
    HiddenEntriesAscending(s, k, x, c);
    forall j | 0 <= j < |sn| ensures Listed(es, sn[j]) {
      EntryListed(s, k, x, c, sn[j]);
    }
    idx := AscendingPositions(es, sn);
  }

  /** Some entry is for digit `n`. */
  ghost predicate Listed(es: seq<Entry>, n: string)
  {
    exists i :: 0 <= i < |es| && es[i].num == n
  }

  lemma EntryListed(s: Board, k: nat, x: nat, c: nat, n: string)
    requires |s| == 81 && x < 9 && c < 3
    requires IsDigitStr(n) && 1 < |CellsWith(Group(s, KindAt(c), x), n)| <= k
    ensures Listed(HiddenEntries(s, k, x, c), n)
  {
    var i := EntryOf(s, k, x, c, n);
  }

  /** Ascending digits, each with an entry, have their entries at
      ascending positions. */
  lemma AscendingPositions(es: seq<Entry>, sn: seq<string>) returns (idx: seq<nat>)
    requires Ascending(es)
    requires forall j :: 0 <= j < |sn| ==> Listed(es, sn[j])
    requires forall j, j' :: 0 <= j < j' < |sn| ==> Less(sn[j], sn[j'])
    ensures |idx| == |sn|
    ensures forall j :: 0 <= j < |sn| ==> idx[j] < |es| && es[idx[j]].num == sn[j]
    ensures forall j :: 0 < j < |sn| ==> idx[j - 1] < idx[j]
  {
    idx := [];
    while |idx| < |sn|
      invariant |idx| <= |sn|
      invariant forall j :: 0 <= j < |idx| ==> idx[j] < |es| && es[idx[j]].num == sn[j]
      invariant forall j :: 0 < j < |idx| ==> idx[j - 1] < idx[j]
      decreases |sn| - |idx|
    {
      assert Listed(es, sn[|idx|]);
      var i :| 0 <= i < |es| && es[i].num == sn[|idx|];
      if |idx| > 0 {
        EntryOrder(es, idx[|idx| - 1], i);
      }
      idx := idx + [i];
    }
  }

  lemma HiddenEntriesAscending(s: Board, k: nat, x: nat, c: nat)
    requires |s| == 81 && x < 9 && c < 3
    ensures Ascending(HiddenEntries(s, k, x, c))
  {
    HiddenEntriesMeaning(s, k, x, c);
  }

  /** Every walked entry lists exactly the cells of its digit. */
  lemma WalkedSound(g: seq<Cell>, k: nat, es: seq<Entry>)
    requires Walked(g, k, es)
    ensures forall i :: 0 <= i < |es| ==> es[i].ids == CellsWith(g, es[i].num)
  {
    forall i | 0 <= i < |es| ensures es[i].ids == CellsWith(g, es[i].num) {
      assert Sound(g, k, es[i]);
    }
  }

  /** Given the ascending positions of a hidden pair's sorted digits among
      the entries, the entry search fires; likewise for triples and quads. */
  lemma HiddenInPair(s: Board, g: seq<Cell>, es: seq<Entry>, idx: seq<nat>, nums: seq<string>, cells: seq<string>)
    requires forall i :: 0 <= i < |es| ==> es[i].ids == CellsWith(g, es[i].num)
    requires HiddenSubset(g, 2, nums, cells)
    requires Selected(s, Keep(cells, nums, true)) != []
    requires |idx| == 2 && forall j :: 0 <= j < 2 ==> idx[j] < |es| && es[idx[j]].num == Sort(nums)[j]
    requires forall j :: 0 < j < 2 ==> idx[j - 1] < idx[j]
    ensures HiddenIn(s, 2, es).Some?
  {
    SortedNums(g, 2, nums, cells);
    assert [es[idx[0]].num, es[idx[1]].num] == Sort(nums);
    HiddenPairHit(s, g, es, idx[0], idx[1], nums, cells);
  }

  lemma HiddenInTriple(s: Board, g: seq<Cell>, es: seq<Entry>, idx: seq<nat>, nums: seq<string>, cells: seq<string>)
    requires forall i :: 0 <= i < |es| ==> es[i].ids == CellsWith(g, es[i].num)
    requires HiddenSubset(g, 3, nums, cells)
    requires Selected(s, Keep(cells, nums, false)) != []
    requires |idx| == 3 && forall j :: 0 <= j < 3 ==> idx[j] < |es| && es[idx[j]].num == Sort(nums)[j]
    requires forall j :: 0 < j < 3 ==> idx[j - 1] < idx[j]
    ensures HiddenIn(s, 3, es).Some?
  {
    SortedNums(g, 3, nums, cells);
    assert [es[idx[0]].num, es[idx[1]].num, es[idx[2]].num] == Sort(nums);
    HiddenTripleHit(s, g, es, idx[0], idx[1], idx[2], nums, cells);
  }

  lemma HiddenInQuad(s: Board, g: seq<Cell>, es: seq<Entry>, idx: seq<nat>, nums: seq<string>, cells: seq<string>)
    requires forall i :: 0 <= i < |es| ==> es[i].ids == CellsWith(g, es[i].num)
    requires HiddenSubset(g, 4, nums, cells)
    requires Selected(s, Keep(cells, nums, false)) != []
    requires |idx| == 4 && forall j :: 0 <= j < 4 ==> idx[j] < |es| && es[idx[j]].num == Sort(nums)[j]
    requires forall j :: 0 < j < 4 ==> idx[j - 1] < idx[j]
    ensures HiddenIn(s, 4, es).Some?
  {
    SortedNums(g, 4, nums, cells);
    assert [es[idx[0]].num, es[idx[1]].num, es[idx[2]].num, es[idx[3]].num] == Sort(nums);
    HiddenQuadHit(s, g, es, idx[0], idx[1], idx[2], idx[3], nums, cells);
  }

  /** A hidden subset of a group whose sweep selects a cell is found: the
      group's search yields something. */
  lemma HiddenAtHit(s: Board, k: nat, x: nat, c: nat, nums: seq<string>, cells: seq<string>)
    requires |s| == 81 && x < 9 && c < 3 && 2 <= k <= 4
    requires HiddenSubset(Group(s, KindAt(c), x), k, nums, cells)
    requires Selected(s, Keep(cells, nums, k == 2)) != []
    ensures HiddenAt(s, k, x, c).Some?
  {
    var g := Group(s, KindAt(c), x);
    var es := HiddenEntries(s, k, x, c);
    HiddenEntriesMeaning(s, k, x, c);
    WalkedSound(g, k, es);
    var idx := DigitPositions(s, k, x, c, nums, cells);
    HiddenInHit(s, g, k, es, idx, nums, cells);
  }

  /** The same for the entries `es` of a group `g`, given the positions of
      the subset's sorted digits among them. */
  lemma HiddenInHit(s: Board, g: seq<Cell>, k: nat, es: seq<Entry>, idx: seq<nat>, nums: seq<string>, cells: seq<string>)
    requires 2 <= k <= 4
    requires forall i :: 0 <= i < |es| ==> es[i].ids == CellsWith(g, es[i].num)
    requires HiddenSubset(g, k, nums, cells)
    requires Selected(s, Keep(cells, nums, k == 2)) != []
    requires |idx| == k && forall j :: 0 <= j < k ==> idx[j] < |es| && es[idx[j]].num == Sort(nums)[j]
    requires forall j :: 0 < j < k ==> idx[j - 1] < idx[j]
    ensures HiddenIn(s, k, es).Some?
  {
    if k == 2 {
      HiddenInPair(s, g, es, idx, nums, cells);
    } else if k == 3 {
      HiddenInTriple(s, g, es, idx, nums, cells);
    } else {
      HiddenInQuad(s, g, es, idx, nums, cells);
    }
  }

  /** The hidden subset search of size k finds nothing iff k is not 2, 3
      or 4, or no hidden subset of size k of any box, row or column has a
      cell its sweep would change. */
  lemma HiddenNone(s: Board, k: nat)
    requires |s| == 81
    ensures HiddenSearch(s, k).None? <==>
      !(2 <= k <= 4) ||
      forall x, c, nums, cells :: 0 <= x < 9 && 0 <= c < 3 && HiddenSubset(Group(s, KindAt(c), x), k, nums, cells) ==>
        Selected(s, Keep(cells, nums, k == 2)) == []
  {
    if 2 <= k <= 4 {
      forall x, c, nums, cells | 0 <= x < 9 && 0 <= c < 3 && HiddenSubset(Group(s, KindAt(c), x), k, nums, cells) &&
        Selected(s, Keep(cells, nums, k == 2)) != []
        ensures HiddenSearch(s, k).Some?
      {
        HiddenSearchHit(s, k, x, c, nums, cells);
      }
      HiddenFoundSelects(s, k);
    }
  }

  /** One group's firing makes the whole search fire. */
  lemma HiddenSearchHit(s: Board, k: nat, x: nat, c: nat, nums: seq<string>, cells: seq<string>)
    requires |s| == 81 && x < 9 && c < 3 && 2 <= k <= 4
    requires HiddenSubset(Group(s, KindAt(c), x), k, nums, cells)
    requires Selected(s, Keep(cells, nums, k == 2)) != []
    ensures HiddenSearch(s, k).Some?
  {
    var g := HiddenGroups(s, k);
    HiddenAtHit(s, k, x, c, nums, cells);
    assert g(x, c).Some?;
    GridNone(9, 3, g);
  }

  /** What the search fires on selects a cell. */
  lemma HiddenFoundSelects(s: Board, k: nat)
    requires |s| == 81
    ensures HiddenSearch(s, k).Some? ==>
      exists x, c, nums, cells :: 0 <= x < 9 && 0 <= c < 3 && HiddenSubset(Group(s, KindAt(c), x), k, nums, cells) &&
        Selected(s, Keep(cells, nums, k == 2)) != []
  {
    HiddenFound(s, k);
  }

  // ---------------------------------------------------------------------
  // Naked subsets
  // ---------------------------------------------------------------------

  /** `cell.cornerPencil.length <= amount && cell.cornerPencil.length > 1`. */
  function FewMarks(k: nat): Cell -> bool
  {
    (c: Cell) => 1 < |c.cornerPencil| <= k
  }

  /** `checkNakedPairs` keeps the cells with exactly two marks. */
  predicate HasTwoMarks(c: Cell)
  {
    |c.cornerPencil| == 2
  }

  /** The second filter each naked search applies to its cells. */
  function NakedFilter(k: nat): Cell -> bool
  {
    if k == 2 then HasTwoMarks else FewMarks(k)
  }

  /** The marks of the chosen cells, concatenated. */
  function MarksOf(chosen: seq<Cell>): (r: seq<string>)
    ensures forall m :: m in r <==> exists j :: 0 <= j < |chosen| && m in chosen[j].cornerPencil
  {
    if chosen == [] then []
    else
      assert forall j :: 0 < j < |chosen| ==> chosen[j] == chosen[1..][j - 1];
      chosen[0].cornerPencil + MarksOf(chosen[1..])
  }

  /** The strike of a naked subset: its digits leave every empty cell that
      sees all its cells. */
  function NakedRule(chosen: seq<Cell>, combined: seq<string>): Rule
  {
    Strike(PeersOf(Ids(chosen)), [], true, combined)
  }

  /** One attempt of `checkNakedPairs` / `Triples` / `Quads` on the chosen
      cells: when their marks are k distinct digits, strike them. The
      affected cells are the struck ones, in board order. */
  function NakedTry(s: Board, k: nat, chosen: seq<Cell>): Option<Found>
  {
    var combined := Uniq(Sort(MarksOf(chosen)));
    if |combined| == k then
      var rule := NakedRule(chosen, combined);
      Fire(s, rule, Specs(Selected(s, rule), combined, Ids(chosen), [], false, NoLabel))
    else None
  }

  function NakedPairStep(s: Board, cs: seq<Cell>): (nat, nat) -> Option<Found>
  {
    (a: nat, b: nat) => if a < |cs| && b < |cs| then NakedTry(s, 2, [cs[a], cs[b]]) else None
  }

  function NakedTripleStep(s: Board, cs: seq<Cell>): (nat, nat, nat) -> Option<Found>
  {
    (a: nat, b: nat, c: nat) =>
      if a < |cs| && b < |cs| && c < |cs| then NakedTry(s, 3, [cs[a], cs[b], cs[c]]) else None
  }

  function NakedQuadStep(s: Board, cs: seq<Cell>): (nat, nat, nat, nat) -> Option<Found>
  {
    (a: nat, b: nat, c: nat, d: nat) =>
      if a < |cs| && b < |cs| && c < |cs| && d < |cs| then NakedTry(s, 4, [cs[a], cs[b], cs[c], cs[d]]) else None
  }

  /** The naked search of size k over the cells of one group: refilter,
      give up below k candidates, then try every k-combination in order. */
  function NakedIn(s: Board, k: nat, cells: seq<Cell>): Option<Found>
  {
    var cs := Filter(cells, NakedFilter(k));
    if |cs| < k then None
    else if k == 2 then PairFrom(|cs|, NakedPairStep(s, cs), 0, 1)
    else if k == 3 then TripleFrom(|cs|, NakedTripleStep(s, cs), 0, 1, 2)
    else if k == 4 then QuadFrom(|cs|, NakedQuadStep(s, cs), 0, 1, 2, 3)
    else None
  }

  /** `checkNakedPairs(set, board)`. */
  method CheckNakedPairs(cells: seq<Cell>, s: Board) returns (r: Option<Found>)
    ensures r == NakedIn(s, 2, cells)
  {
    var candidates := Filter(cells, HasTwoMarks);
    if |candidates| < 2 {
      return None;
    }
    r := FindPair(|candidates|, NakedPairStep(s, candidates));
  }

  /** `checkNakedTriples(set, board)`. */
  method CheckNakedTriples(cells: seq<Cell>, s: Board) returns (r: Option<Found>)
    ensures r == NakedIn(s, 3, cells)
  {
    var candidates := Filter(cells, FewMarks(3));
    if |candidates| < 3 {
      return None;
    }
    r := FindTriple(|candidates|, NakedTripleStep(s, candidates));
  }

  /** `checkNakedQuads(set, board)`. */
  method CheckNakedQuads(cells: seq<Cell>, s: Board) returns (r: Option<Found>)
    ensures r == NakedIn(s, 4, cells)
  {
    var candidates := Filter(cells, FewMarks(4));
    if |candidates| < 4 {
      return None;
    }
    r := FindQuad(|candidates|, NakedQuadStep(s, candidates));
  }

  /** The cells of group `x` of kind `KindAt(c)` with two to k marks. */
  function NakedCells(s: Board, k: nat, x: nat, c: nat): seq<Cell>
    requires |s| == 81 && x < 9 && c < 3
  {
    Filter(Group(s, KindAt(c), x), FewMarks(k))
  }

  function NakedAt(s: Board, k: nat, x: nat, c: nat): Option<Found>
  {
    if |s| == 81 && x < 9 && c < 3 then Relabel(NakedIn(s, k, NakedCells(s, k, x, c)), GroupLabel(KindAt(c), x))
    else None
  }

  function NakedGroups(s: Board, k: nat): (nat, nat) -> Option<Found>
  {
    (x: nat, c: nat) => NakedAt(s, k, x, c)
  }

  /** The naked subset search on a board: for each index its box, row and
      column; any size other than 2, 3 or 4 finds nothing. */
  function NakedSearch(s: Board, k: nat): Option<Found>
  {
    if 2 <= k <= 4 then GridFrom(9, 3, NakedGroups(s, k), 0, 0) else None
  }

  /** `checkNakedSubsets(board, amount)` on the board in id order. */
  function NakedSubsets(b: Board, k: nat): Option<Found>
  {
    NakedSearch(SortById(b), k)
  }

  /** The `switch (amount)` of `checkNakedSubsets`. */
  method NakedSwitch(cells: seq<Cell>, s: Board, amount: nat) returns (r: Option<Found>)
    requires 2 <= amount <= 4
    ensures r == NakedIn(s, amount, cells)
  {
    if amount == 2 {
      r := CheckNakedPairs(cells, s);
    } else if amount == 3 {
      r := CheckNakedTriples(cells, s);
    } else {
      r := CheckNakedQuads(cells, s);
    }
  }

  method CheckNakedSubsets(board: Board, amount: nat) returns (r: Option<Found>)
    requires |board| == 81
    ensures r == NakedSubsets(board, amount)
  {
    ghost var s := SortById(board);
    ghost var groups := NakedGroups(s, amount);
    var rows, columns, boxes := GetRowsBoxesColumns(board);
    var sorted := SortById(board);
    for i := 0 to 9
      invariant 2 <= amount <= 4 ==> NakedSubsets(board, amount) == GridFrom(9, 3, groups, i, 0)
    {
      var filteredBoxes := Filter(boxes[i], FewMarks(amount));
      var filteredRows := Filter(rows[i], FewMarks(amount));
      var filteredColumns := Filter(columns[i], FewMarks(amount));
      var filteredSets := [filteredBoxes, filteredRows, filteredColumns];
      for c := 0 to 3
        invariant 2 <= amount <= 4 ==> NakedSubsets(board, amount) == GridFrom(9, 3, groups, i, c)
      {
        assert filteredSets[c] == NakedCells(s, amount, i, c);
        if amount < 2 || amount > 4 {
          return None;
        }
        var result := NakedSwitch(filteredSets[c], sorted, amount);
        r := Relabel(result, GroupLabel(KindAt(c), i));
        assert groups(i, c) == NakedAt(s, amount, i, c) == r;
        if r.Some? {
          assert GridFrom(9, 3, groups, i, c) == r;
          return;
        }
      }
    }
    return None;
  }

  // ---------------------------------------------------------------------
  // What a naked subset is
  // ---------------------------------------------------------------------

  /** `chosen` are k cells of group `g`, each with two to k marks, and
      `digits` are the k distinct digits that appear among their marks. */
  ghost predicate NakedSubset(g: seq<Cell>, k: nat, chosen: seq<Cell>, digits: seq<string>)
  {
    |chosen| == k &&
    (forall j :: 0 <= j < k ==> chosen[j] in g && 1 < |chosen[j].cornerPencil| <= k) &&
    |digits| == k && NoDup(digits) &&
    (forall m :: m in digits <==> exists j :: 0 <= j < k && m in chosen[j].cornerPencil)
  }

  /** A naked attempt that fires was made on a naked subset. */
  lemma NakedTryMeaning(g: seq<Cell>, k: nat, chosen: seq<Cell>)
    requires |chosen| == k
    requires forall j :: 0 <= j < k ==> chosen[j] in g && 1 < |chosen[j].cornerPencil| <= k
    requires |Uniq(Sort(MarksOf(chosen)))| == k
    ensures NakedSubset(g, k, chosen, Uniq(Sort(MarksOf(chosen))))
  {
    var marks := MarksOf(chosen);
    SortBySorted(marks, false);
    UniqNoDup(Sort(marks));
    SortElems(marks, false);
  }

  /** The positions behind a naked pair, triple or quad result. */
  lemma PickNakedPair(s: Board, cs: seq<Cell>) returns (p: nat, q: nat)
    requires PairFrom(|cs|, NakedPairStep(s, cs), 0, 1).Some?
    ensures p < q < |cs|
    ensures PairFrom(|cs|, NakedPairStep(s, cs), 0, 1) == NakedTry(s, 2, [cs[p], cs[q]])
  {
    p, q := PairWitness(|cs|, NakedPairStep(s, cs));
  }

  lemma PickNakedTriple(s: Board, cs: seq<Cell>) returns (p: nat, q: nat, r: nat)
    requires TripleFrom(|cs|, NakedTripleStep(s, cs), 0, 1, 2).Some?
    ensures p < q < r < |cs|
    ensures TripleFrom(|cs|, NakedTripleStep(s, cs), 0, 1, 2) == NakedTry(s, 3, [cs[p], cs[q], cs[r]])
  {
    p, q, r := TripleWitness(|cs|, NakedTripleStep(s, cs));
  }

  lemma PickNakedQuad(s: Board, cs: seq<Cell>) returns (p: nat, q: nat, r: nat, t: nat)
    requires QuadFrom(|cs|, NakedQuadStep(s, cs), 0, 1, 2, 3).Some?
    ensures p < q < r < t < |cs|
    ensures QuadFrom(|cs|, NakedQuadStep(s, cs), 0, 1, 2, 3) == NakedTry(s, 4, [cs[p], cs[q], cs[r], cs[t]])
  {
    p, q, r, t := QuadWitness(|cs|, NakedQuadStep(s, cs));
  }

  /** The cells picked from the candidates of a group are cells of the
      group with two to k marks. */
  lemma ChosenInGroup(s: Board, k: nat, x: nat, c: nat, chosen: seq<Cell>)
    requires |s| == 81 && x < 9 && c < 3
    requires forall j :: 0 <= j < |chosen| ==> chosen[j] in Filter(NakedCells(s, k, x, c), NakedFilter(k))
    ensures forall j :: 0 <= j < |chosen| ==>
      chosen[j] in Group(s, KindAt(c), x) && 1 < |chosen[j].cornerPencil| <= k
  {
    forall j | 0 <= j < |chosen|
      ensures chosen[j] in Group(s, KindAt(c), x) && 1 < |chosen[j].cornerPencil| <= k
    {
      assert chosen[j] in NakedCells(s, k, x, c);
      assert FewMarks(k)(chosen[j]);
    }
  }

  lemma PairIn<T>(cs: seq<T>, p: nat, q: nat)
    requires p < |cs| && q < |cs|
    ensures forall j :: 0 <= j < 2 ==> [cs[p], cs[q]][j] in cs
    ensures p != q && NoDup(cs) ==> NoDup([cs[p], cs[q]])
  {
  }

  lemma TripleIn<T>(cs: seq<T>, p: nat, q: nat, r: nat)
    requires p < |cs| && q < |cs| && r < |cs|
    ensures forall j :: 0 <= j < 3 ==> [cs[p], cs[q], cs[r]][j] in cs
    ensures p < q < r && NoDup(cs) ==> NoDup([cs[p], cs[q], cs[r]])
  {
  }

  lemma QuadIn<T>(cs: seq<T>, p: nat, q: nat, r: nat, t: nat)
    requires p < |cs| && q < |cs| && r < |cs| && t < |cs|
    ensures forall j :: 0 <= j < 4 ==> [cs[p], cs[q], cs[r], cs[t]][j] in cs
    ensures p < q < r < t && NoDup(cs) ==> NoDup([cs[p], cs[q], cs[r], cs[t]])
  {
  }

  /** The cells a naked search of one group fires on. */
  lemma NakedPairChosen(s: Board, cells: seq<Cell>) returns (chosen: seq<Cell>)
    requires NakedIn(s, 2, cells).Some?
    ensures |chosen| == 2 && forall j :: 0 <= j < |chosen| ==> chosen[j] in Filter(cells, NakedFilter(2))
    ensures NoDup(Filter(cells, NakedFilter(2))) ==> NoDup(chosen)
    ensures NakedIn(s, 2, cells) == NakedTry(s, 2, chosen)
  {
    var cs := Filter(cells, NakedFilter(2));
    assert NakedIn(s, 2, cells) == PairFrom(|cs|, NakedPairStep(s, cs), 0, 1);
    var p, q := PickNakedPair(s, cs);
    chosen := [cs[p], cs[q]];
    PairIn(cs, p, q);
  }

  lemma NakedTripleChosen(s: Board, cells: seq<Cell>) returns (chosen: seq<Cell>)
    requires NakedIn(s, 3, cells).Some?
    ensures |chosen| == 3 && forall j :: 0 <= j < |chosen| ==> chosen[j] in Filter(cells, NakedFilter(3))
    ensures NoDup(Filter(cells, NakedFilter(3))) ==> NoDup(chosen)
    ensures NakedIn(s, 3, cells) == NakedTry(s, 3, chosen)
  {
    var cs := Filter(cells, NakedFilter(3));
    assert NakedIn(s, 3, cells) == TripleFrom(|cs|, NakedTripleStep(s, cs), 0, 1, 2);
    var p, q, r := PickNakedTriple(s, cs);
    chosen := [cs[p], cs[q], cs[r]];
    TripleIn(cs, p, q, r);
  }

  lemma NakedQuadChosen(s: Board, cells: seq<Cell>) returns (chosen: seq<Cell>)
    requires NakedIn(s, 4, cells).Some?
    ensures |chosen| == 4 && forall j :: 0 <= j < |chosen| ==> chosen[j] in Filter(cells, NakedFilter(4))
    ensures NoDup(Filter(cells, NakedFilter(4))) ==> NoDup(chosen)
    ensures NakedIn(s, 4, cells) == NakedTry(s, 4, chosen)
  {
    var cs := Filter(cells, NakedFilter(4));
    assert NakedIn(s, 4, cells) == QuadFrom(|cs|, NakedQuadStep(s, cs), 0, 1, 2, 3);
    var p, q, r, t := PickNakedQuad(s, cs);
    chosen := [cs[p], cs[q], cs[r], cs[t]];
    QuadIn(cs, p, q, r, t);
  }

  lemma NakedAtChosen(s: Board, k: nat, x: nat, c: nat) returns (chosen: seq<Cell>)
    requires |s| == 81 && x < 9 && c < 3 && NakedAt(s, k, x, c).Some?
    ensures 2 <= k <= 4 && |chosen| == k
    ensures forall j :: 0 <= j < |chosen| ==> chosen[j] in Filter(NakedCells(s, k, x, c), NakedFilter(k))
    ensures NoDup(s) ==> NoDup(chosen)
    ensures NakedAt(s, k, x, c) == Relabel(NakedTry(s, k, chosen), GroupLabel(KindAt(c), x))
  {
    var cells := NakedCells(s, k, x, c);
    if NoDup(s) {
      GroupNoDup(s, KindAt(c), x);
      FilterNoDup(Group(s, KindAt(c), x), FewMarks(k));
      FilterNoDup(cells, NakedFilter(k));
    }
    if k == 2 {
      chosen := NakedPairChosen(s, cells);
    } else if k == 3 {
      chosen := NakedTripleChosen(s, cells);
    } else {
      chosen := NakedQuadChosen(s, cells);
    }
  }

  /** What group `x` of kind `KindAt(c)` yields, when it yields something:
      a naked subset of that group, whose digits are struck from the empty
      cells that see all its cells. */
  lemma NakedAtFound(s: Board, k: nat, x: nat, c: nat)
    requires |s| == 81 && x < 9 && c < 3
    ensures NakedAt(s, k, x, c).Some? ==>
      exists chosen, digits :: NakedSubset(Group(s, KindAt(c), x), k, chosen, digits) &&
        NakedAt(s, k, x, c) ==
          Relabel(Fire(s, NakedRule(chosen, digits), Specs(Selected(s, NakedRule(chosen, digits)), digits, Ids(chosen), [], false, NoLabel)),
                  GroupLabel(KindAt(c), x))
  {
    if NakedAt(s, k, x, c).Some? {
      var g := Group(s, KindAt(c), x);
      var chosen := NakedAtChosen(s, k, x, c);
      ChosenInGroup(s, k, x, c, chosen);
      var digits := Uniq(Sort(MarksOf(chosen)));
      var rule := NakedRule(chosen, digits);
      assert |digits| == k;
      NakedTryMeaning(g, k, chosen);
      assert NakedTry(s, k, chosen) == Fire(s, rule, Specs(Selected(s, rule), digits, Ids(chosen), [], false, NoLabel));
    }
  }

  /** When a naked subset search of size k fires, it fires on a naked subset
      of some box, row or column, striking its digits from the empty cells
      that see all of its cells (by `Fire`, at least one such cell holds one
      of them); the affected cells are exactly those struck. */
  lemma NakedFound(s: Board, k: nat)
    requires |s| == 81
    ensures NakedSearch(s, k).Some? ==>
      2 <= k <= 4 &&
      exists x, c, chosen, digits :: 0 <= x < 9 && 0 <= c < 3 &&
        NakedSubset(Group(s, KindAt(c), x), k, chosen, digits) &&
        NakedSearch(s, k) ==
          Relabel(Fire(s, NakedRule(chosen, digits), Specs(Selected(s, NakedRule(chosen, digits)), digits, Ids(chosen), [], false, NoLabel)),
                  GroupLabel(KindAt(c), x))
  {
    var g := NakedGroups(s, k);
    GridFromSome(9, 3, g, 0, 0);
    if NakedSearch(s, k).Some? {
      var x: nat, c: nat :| x < 9 && c < 3 && g(x, c) == NakedSearch(s, k);
      assert g(x, c) == NakedAt(s, k, x, c);
      NakedAtFound(s, k, x, c);
      var chosen, digits :| NakedSubset(Group(s, KindAt(c), x), k, chosen, digits) &&
        NakedAt(s, k, x, c) ==
          Relabel(Fire(s, NakedRule(chosen, digits), Specs(Selected(s, NakedRule(chosen, digits)), digits, Ids(chosen), [], false, NoLabel)),
                  GroupLabel(KindAt(c), x));
      assert NakedSubset(Group(s, KindAt(c), x), k, chosen, digits);
    }
  }

  /** Lists of the same cells have the same marks and the same ids. */
  lemma SameMarks(a: seq<Cell>, b: seq<Cell>)
    requires forall y :: y in a <==> y in b
    ensures forall m :: m in MarksOf(a) <==> m in MarksOf(b)
  {
    forall m | m in MarksOf(a) ensures m in MarksOf(b) {
      var j :| 0 <= j < |a| && m in a[j].cornerPencil;
      assert a[j] in b;
      var j' :| 0 <= j' < |b| && b[j'] == a[j];
    }
    forall m | m in MarksOf(b) ensures m in MarksOf(a) {
      var j :| 0 <= j < |b| && m in b[j].cornerPencil;
      assert b[j] in a;
      var j' :| 0 <= j' < |a| && a[j'] == b[j];
    }
  }

  lemma SameIds(a: seq<Cell>, b: seq<Cell>)
    requires forall y :: y in a <==> y in b
    ensures forall id :: id in Ids(a) <==> id in Ids(b)
  {
    forall id | id in Ids(a) ensures id in Ids(b) {
      var j :| 0 <= j < |a| && Ids(a)[j] == id;
      assert a[j] in b;
      var j' :| 0 <= j' < |b| && b[j'] == a[j];
      assert Ids(b)[j'] == id;
    }
    forall id | id in Ids(b) ensures id in Ids(a) {
      var j :| 0 <= j < |b| && Ids(b)[j] == id;
      assert b[j] in a;
      var j' :| 0 <= j' < |a| && a[j'] == b[j];
      assert Ids(a)[j'] == id;
    }
  }

  /** An attempt on the same cells as a naked subset, in any order, fires
      when the subset's strike selects a cell. */
  lemma NakedTryFires(s: Board, g: seq<Cell>, k: nat, chosen: seq<Cell>, digits: seq<string>, ch: seq<Cell>)
    requires NakedSubset(g, k, chosen, digits)
    requires |ch| == k && forall y :: y in chosen <==> y in ch
    requires Selected(s, NakedRule(chosen, digits)) != []
    ensures NakedTry(s, k, ch).Some?
  {
    var marks := MarksOf(ch);
    DistinctCount(marks);
    SameMarks(chosen, ch);
    assert forall m :: m in marks <==> m in digits;
    assert ToSet(marks) == ToSet(digits);
    NoDupCard(digits);
    SameIds(chosen, ch);
    StrikeSelectsSame(s, Ids(chosen), digits, Ids(ch), Uniq(Sort(marks)), true);
  }

  /** Given ascending positions of a naked pair's cells among the
      candidates, the candidate search fires; likewise for triples and
      quads. */
  lemma NakedPairHit(s: Board, g: seq<Cell>, cs: seq<Cell>, idx: seq<nat>, chosen: seq<Cell>, digits: seq<string>)
    requires NakedSubset(g, 2, chosen, digits) && Selected(s, NakedRule(chosen, digits)) != []
    requires |idx| == 2 && (forall j :: 0 <= j < 2 ==> idx[j] < |cs|) && forall j :: 0 < j < 2 ==> idx[j - 1] < idx[j]
    requires forall y :: y in chosen <==> exists j :: 0 <= j < 2 && cs[idx[j]] == y
    ensures PairFrom(|cs|, NakedPairStep(s, cs), 0, 1).Some?
  {
    var ch := [cs[idx[0]], cs[idx[1]]];
    NakedTryFires(s, g, 2, chosen, digits, ch);
    PairHit(|cs|, NakedPairStep(s, cs), idx[0], idx[1]);
  }

  lemma NakedTripleHit(s: Board, g: seq<Cell>, cs: seq<Cell>, idx: seq<nat>, chosen: seq<Cell>, digits: seq<string>)
    requires NakedSubset(g, 3, chosen, digits) && Selected(s, NakedRule(chosen, digits)) != []
    requires |idx| == 3 && (forall j :: 0 <= j < 3 ==> idx[j] < |cs|) && forall j :: 0 < j < 3 ==> idx[j - 1] < idx[j]
    requires forall y :: y in chosen <==> exists j :: 0 <= j < 3 && cs[idx[j]] == y
    ensures TripleFrom(|cs|, NakedTripleStep(s, cs), 0, 1, 2).Some?
  {
    var ch := [cs[idx[0]], cs[idx[1]], cs[idx[2]]];
    NakedTryFires(s, g, 3, chosen, digits, ch);
    TripleHit(|cs|, NakedTripleStep(s, cs), idx[0], idx[1], idx[2]);
  }

  lemma NakedQuadHit(s: Board, g: seq<Cell>, cs: seq<Cell>, idx: seq<nat>, chosen: seq<Cell>, digits: seq<string>)
    requires NakedSubset(g, 4, chosen, digits) && Selected(s, NakedRule(chosen, digits)) != []
    requires |idx| == 4 && (forall j :: 0 <= j < 4 ==> idx[j] < |cs|) && forall j :: 0 < j < 4 ==> idx[j - 1] < idx[j]
    requires forall y :: y in chosen <==> exists j :: 0 <= j < 4 && cs[idx[j]] == y
    ensures QuadFrom(|cs|, NakedQuadStep(s, cs), 0, 1, 2, 3).Some?
  {
    var ch := [cs[idx[0]], cs[idx[1]], cs[idx[2]], cs[idx[3]]];
    NakedTryFires(s, g, 4, chosen, digits, ch);
    QuadHit(|cs|, NakedQuadStep(s, cs), idx[0], idx[1], idx[2], idx[3]);
  }

  /** The cells of a naked subset of a group are among its candidates. */
  lemma ChosenCandidates(s: Board, k: nat, x: nat, c: nat, chosen: seq<Cell>, digits: seq<string>)
    requires |s| == 81 && x < 9 && c < 3 && 2 <= k
    requires NakedSubset(Group(s, KindAt(c), x), k, chosen, digits)
    ensures forall j :: 0 <= j < |chosen| ==> chosen[j] in Filter(NakedCells(s, k, x, c), NakedFilter(k))
  {
    forall j | 0 <= j < |chosen| ensures chosen[j] in Filter(NakedCells(s, k, x, c), NakedFilter(k)) {
      assert FewMarks(k)(chosen[j]);
      assert chosen[j] in NakedCells(s, k, x, c);
      assert NakedFilter(k)(chosen[j]);
    }
  }

  /** A naked subset of distinct cells of a group whose strike selects a
      cell is found: the group's search yields something. */
  lemma NakedAtHit(s: Board, k: nat, x: nat, c: nat, chosen: seq<Cell>, digits: seq<string>)
    requires |s| == 81 && x < 9 && c < 3 && 2 <= k <= 4
    requires NakedSubset(Group(s, KindAt(c), x), k, chosen, digits) && NoDup(chosen)
    requires Selected(s, NakedRule(chosen, digits)) != []
    ensures NakedAt(s, k, x, c).Some?
  {
    ChosenCandidates(s, k, x, c, chosen, digits);
    NakedInHit(s, Group(s, KindAt(c), x), k, NakedCells(s, k, x, c), chosen, digits);
  }

  /** The same for the candidates `cells` of a group `g`. */
  lemma NakedInHit(s: Board, g: seq<Cell>, k: nat, cells: seq<Cell>, chosen: seq<Cell>, digits: seq<string>)
    requires 2 <= k <= 4
    requires NakedSubset(g, k, chosen, digits) && NoDup(chosen)
    requires Selected(s, NakedRule(chosen, digits)) != []
    requires forall j :: 0 <= j < |chosen| ==> chosen[j] in Filter(cells, NakedFilter(k))
    ensures NakedIn(s, k, cells).Some?
  {
    var cs := Filter(cells, NakedFilter(k));
    var idx := Positions(cs, chosen);
    if k == 2 {
      NakedPairHit(s, g, cs, idx, chosen, digits);
    } else if k == 3 {
      NakedTripleHit(s, g, cs, idx, chosen, digits);
    } else {
      NakedQuadHit(s, g, cs, idx, chosen, digits);
    }
  }

  /** The naked subset search of size k finds nothing iff k is not 2, 3 or
      4, or no naked subset of k distinct cells of any box, row or column
      has a peer its strike would change. The search picks distinct
      positions, so the "if" direction needs a board without repeated
      cells, as every board of the game is (its ids are distinct). */
  lemma NakedNone(s: Board, k: nat)
    requires |s| == 81
    ensures NakedSearch(s, k).None? && 2 <= k <= 4 ==>
      forall x, c, chosen, digits :: 0 <= x < 9 && 0 <= c < 3 && NakedSubset(Group(s, KindAt(c), x), k, chosen, digits) && NoDup(chosen) ==>
        Selected(s, NakedRule(chosen, digits)) == []
    ensures NoDup(s) ==>
      (NakedSearch(s, k).None? <==>
        !(2 <= k <= 4) ||
        forall x, c, chosen, digits :: 0 <= x < 9 && 0 <= c < 3 && NakedSubset(Group(s, KindAt(c), x), k, chosen, digits) && NoDup(chosen) ==>
          Selected(s, NakedRule(chosen, digits)) == [])
  {
    if 2 <= k <= 4 {
      forall x, c, chosen, digits | 0 <= x < 9 && 0 <= c < 3 && NakedSubset(Group(s, KindAt(c), x), k, chosen, digits) && NoDup(chosen) &&
        Selected(s, NakedRule(chosen, digits)) != []
        ensures NakedSearch(s, k).Some?
      {
        NakedSearchHit(s, k, x, c, chosen, digits);
      }
      NakedFoundSelects(s, k);
    }
  }

  /** One group's firing makes the whole search fire. */
  lemma NakedSearchHit(s: Board, k: nat, x: nat, c: nat, chosen: seq<Cell>, digits: seq<string>)
    requires |s| == 81 && x < 9 && c < 3 && 2 <= k <= 4
    requires NakedSubset(Group(s, KindAt(c), x), k, chosen, digits) && NoDup(chosen)
    requires Selected(s, NakedRule(chosen, digits)) != []
    ensures NakedSearch(s, k).Some?
  {
    var g := NakedGroups(s, k);
    NakedAtHit(s, k, x, c, chosen, digits);
    assert g(x, c).Some?;
    GridNone(9, 3, g);
  }

  /** What the search fires on, on a board without repeated cells, is a
      naked subset of distinct cells whose strike selects a cell. */
  lemma NakedFoundSelects(s: Board, k: nat)
    requires |s| == 81
    ensures NakedSearch(s, k).Some? && NoDup(s) ==>
      exists x, c, chosen, digits :: 0 <= x < 9 && 0 <= c < 3 && NakedSubset(Group(s, KindAt(c), x), k, chosen, digits) && NoDup(chosen) &&
        Selected(s, NakedRule(chosen, digits)) != []
  {
    var g := NakedGroups(s, k);
    GridFromSome(9, 3, g, 0, 0);
    if NakedSearch(s, k).Some? && NoDup(s) {
      var x: nat, c: nat :| x < 9 && c < 3 && g(x, c) == NakedSearch(s, k);
      assert g(x, c) == NakedAt(s, k, x, c);
      var chosen, digits := NakedAtSelects(s, k, x, c);
    }
  }

  /** The subset behind one group's result. */
  lemma NakedAtSelects(s: Board, k: nat, x: nat, c: nat) returns (chosen: seq<Cell>, digits: seq<string>)
    requires |s| == 81 && x < 9 && c < 3 && NakedAt(s, k, x, c).Some? && NoDup(s)
    ensures NakedSubset(Group(s, KindAt(c), x), k, chosen, digits) && NoDup(chosen)
    ensures Selected(s, NakedRule(chosen, digits)) != []
  {
    var g := Group(s, KindAt(c), x);
    chosen := NakedAtChosen(s, k, x, c);
    ChosenInGroup(s, k, x, c, chosen);
    digits := Uniq(Sort(MarksOf(chosen)));
    assert |digits| == k;
    NakedTryMeaning(g, k, chosen);
  }
}
