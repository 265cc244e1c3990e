/** Fish: X-Wing, Swordfish and Jellyfish, plain, finned and sashimi.
    A base set is the list of cells of one row (or one column) that can
    take a digit. When k base sets of the digit have all their cells in k
    lines the other way, the digit is struck from the rest of those lines
    (plain fish). A finned fish tolerates extra cells, the fins, and only
    strikes the digit from cells that see every fin. */
module Fish {
  import opened Lists
  import opened Grid
  import opened Board
  import opened Groups
  import opened Search
  import opened Subsets

  // ---------------------------------------------------------------------
  // The base sets `checkFishes` collects
  // ---------------------------------------------------------------------

  /** `el[1].length <= fAmount`. */
  function AtMost(f: nat): Entry -> bool
  {
    (e: Entry) => |e.ids| <= f
  }

  /** `finned ? amount + 2 : amount`: a finned fish allows two more cells
      per base set. */
  function FinLimit(amount: nat, finned: bool): nat
  {
    if finned then amount + 2 else amount
  }

  /** `filteredRows` / `filteredColumns` once groups 0 .. x-1 are done: the
      entries of each group with at most `f` cells, group after group. */
  function BaseSets(s: Board, kind: Kind, f: nat, x: nat): seq<Entry>
    requires |s| == 81 && x <= 9
  {
    Concat(LinesFn(s, kind, f), x)
  }

  function LinesFn(s: Board, kind: Kind, f: nat): nat -> seq<Entry>
    requires |s| == 81
  {
    (y: nat) => if y < 9 then LineSets(s, kind, f, y) else []
  }

  /** `Object.entries(enum).filter((el) => el[1].length <= fAmount)` for
      line `y`. */
  function LineSets(s: Board, kind: Kind, f: nat, y: nat): seq<Entry>
    requires |s| == 81 && y < 9
  {
    Filter(GroupEntries(s, kind, y), AtMost(f))
  }

  // ---------------------------------------------------------------------
  // One combination of base sets
  // ---------------------------------------------------------------------

  /** The line of a cell: its row `id[1]` or its column `id[0]`. */
  function LineOf(id: string, byRow: bool): string
  {
    if byRow then RowStr(id) else ColStr(id)
  }

  function LinesOf(ids: seq<string>, byRow: bool): (r: seq<string>)
    ensures |r| == |ids| && forall k :: 0 <= k < |ids| ==> r[k] == LineOf(ids[k], byRow)
  {
    seq(|ids|, k requires 0 <= k < |ids| => LineOf(ids[k], byRow))
  }

  /** The `forEach` over the sorted cells that collects, once each, every
      cell that shares its line with its predecessor; with `keysOnly` (the
      Jellyfish) it collects the line `el[1]` / `el[0]` instead of the
      cell. Covers the positions 1 .. i-1. */
  function Dups(sorted: seq<string>, byRow: bool, keysOnly: bool, i: nat): (r: seq<string>)
    requires i <= |sorted|
    ensures |r| <= (if i == 0 then 0 else i - 1)
    ensures keysOnly ==> forall v :: v in r ==> |v| <= 1
  {
    if i <= 1 then []
    else
      var d := Dups(sorted, byRow, keysOnly, i - 1);
      var el := sorted[i - 1];
      var v := if keysOnly then LineOf(el, byRow) else el;
      if LineOf(sorted[i - 2], byRow) == LineOf(el, byRow) && v !in d then d + [v] else d
  }

  /** A plain fish sweep: strike `n` from the empty cells of the zone that
      are not among the fish's own cells. */
  function LineStrike(s: Board, zone: Zone, n: string, cells: seq<string>): Option<Found>
  {
    var rule := Strike(zone, cells, true, [n]);
    Fire(s, rule, Specs(Selected(s, rule), [n], cells, [], false, NoLabel))
  }

  /** The plain branch: if the cells lie in k columns, strike along those
      columns; otherwise, or if that changes nothing, if they lie in k rows,
      strike along those rows. */
  function PlainTry(s: Board, k: nat, n: string, cells: seq<string>): Option<Found>
  {
    var uniqRows := Uniq(Sort(RowsOf(cells)));
    var uniqCols := Uniq(Sort(ColsOf(cells)));
    var inColumns := if |uniqCols| == k then LineStrike(s, InColumns(uniqCols), n, cells) else None;
    if inColumns.Some? then inColumns
    else if |uniqRows| == k then LineStrike(s, InRows(uniqRows), n, cells)
    else None
  }

  /** `cells.filter((el) => !restrictedRows.includes(el[1]))`: the cells off
      the repeated lines. */
  function FinsOf(sorted: seq<string>, lines: seq<string>, byRow: bool): (r: seq<string>)
    ensures forall id :: id in r <==> id in sorted && LineOf(id, byRow) !in lines
  {
    Filter(sorted, (id: string) => LineOf(id, byRow) !in lines)
  }

  /** `cells.filter((el) => !fins.includes(el))`: the cells that are not
      fins. */
  function Backing(sorted: seq<string>, fins: seq<string>): (r: seq<string>)
    ensures forall id :: id in r <==> id in sorted && id !in fins
  {
    Filter(sorted, (id: string) => id !in fins)
  }

  /** The zone `restrictedCells` of a finned branch: with k repeated cells
      the cells seeing every fin on the repeated lines, with k - 1 (sashimi)
      every cell seeing every fin, and otherwise (or when the fin test
      fails) none at all. */
  function FinZone(k: nat, byRow: bool, dups: seq<string>, lines: seq<string>, fins: seq<string>, valid: bool): Zone
  {
    if |dups| == k && valid then (if byRow then PeersOfInRows(fins, lines) else PeersOfInCols(fins, lines))
    else if |dups| + 1 == k && valid then PeersOf(fins)
    else Among([])
  }

  /** The finned branch, `byRow` for the base sets lying in k columns (the
      cells are then sorted by row), `!byRow` for k rows (`cells.sort()`).
      The fins are the cells off the repeated lines. Swordfish and
      Jellyfish require every fin to share its crossing line with a
      non-fin cell; the Jellyfish sashimi test in columns reads the fin's
      row instead. The X-Wing reports the repeated cells as its source, the
      others the non-fin cells; the Swordfish in rows reports no affected
      cells. */
  function FinnedTry(s: Board, k: nat, n: string, cells: seq<string>, byRow: bool): Option<Found>
  {
    var sorted := SortBy(cells, byRow);
    var dups := Dups(sorted, byRow, k == 4, |sorted|);
    var lines := LinesOf(dups, byRow);
    var fins := FinsOf(sorted, lines, byRow);
    var sources := Backing(sorted, fins);
    var sashimi := |dups| + 1 == k;
    var finSide := if k == 4 && byRow && sashimi then byRow else !byRow;
    var valid := k == 2 || FinsBacked(fins, sources, finSide, byRow);
    FinnedStrike(s, k, n, byRow, sorted, FinZone(k, byRow, dups, lines, fins, valid),
      if k == 2 then dups else sources, fins, sashimi)
  }

  /** The fin test `rowDuplicatesCols.includes(fins[i][0])` for every fin:
      the fin's line on `side` is the crossing line of some non-fin cell. */
  predicate FinsBacked(fins: seq<string>, sources: seq<string>, side: bool, byRow: bool)
  {
    forall f :: f in fins ==> LineOf(f, side) in LinesOf(sources, !byRow)
  }

  /** The sweep of a finned branch over the zone, and what it reports. */
  function FinnedStrike(s: Board, k: nat, n: string, byRow: bool, sorted: seq<string>, zone: Zone,
                        sourceCells: seq<string>, fins: seq<string>, sashimi: bool): Option<Found>
  {
    var rule := Strike(zone, sorted, true, [n]);
    var affected := if k == 3 && !byRow then [] else Selected(s, rule);
    Fire(s, rule, Specs(affected, [n], sourceCells, fins, sashimi, NoLabel))
  }

  /** One combination `filteredSets[a], filteredSets[b], ...` of base sets
      of digit `n`: their cells, concatenated, tried as a finned fish (in
      columns, then in rows) or as a plain one. */
  function FishTry(s: Board, k: nat, finned: bool, n: string, chosen: seq<Entry>): Option<Found>
  {
    var cells := IdsOf(chosen);
    if finned then
      var uniqRows := Uniq(Sort(RowsOf(cells)));
      var uniqCols := Uniq(Sort(ColsOf(cells)));
      if |uniqCols| == k && |uniqRows| != k then FinnedTry(s, k, n, cells, true)
      else if |uniqRows| == k && |uniqCols| != k then FinnedTry(s, k, n, cells, false)
      else None
    else PlainTry(s, k, n, cells)
  }

  function FishPairStep(s: Board, finned: bool, n: string, fs: seq<Entry>): (nat, nat) -> Option<Found>
  {
    (a: nat, b: nat) =>
      if a < |fs| && b < |fs| then FishTry(s, 2, finned, n, [fs[a], fs[b]]) else None
  }

  function FishTripleStep(s: Board, finned: bool, n: string, fs: seq<Entry>): (nat, nat, nat) -> Option<Found>
  {
    (a: nat, b: nat, c: nat) =>
      if a < |fs| && b < |fs| && c < |fs| then FishTry(s, 3, finned, n, [fs[a], fs[b], fs[c]]) else None
  }

  function FishQuadStep(s: Board, finned: bool, n: string, fs: seq<Entry>): (nat, nat, nat, nat) -> Option<Found>
  {
    (a: nat, b: nat, c: nat, d: nat) =>
      if a < |fs| && b < |fs| && c < |fs| && d < |fs|
      then FishTry(s, 4, finned, n, [fs[a], fs[b], fs[c], fs[d]])
      else None
  }

  // ---------------------------------------------------------------------
  // checkXWing, checkSwordFish, checkJellyFish and checkFishes
  // ---------------------------------------------------------------------

  /** `el[0] === String(n)`. */
  function WithNum(n: string): Entry -> bool
  {
    (e: Entry) => e.num == n
  }

  /** The combinations of the base sets of digit `d`, in loop order. */
  function FishAtDigit(s: Board, k: nat, finned: bool, sets: seq<Entry>, d: nat): Option<Found>
    requires 1 <= d <= 9
  {
    var n := DigitStr(d);
    var fs := Filter(sets, WithNum(n));
    if |fs| < k then None
    else if k == 2 then PairFrom(|fs|, FishPairStep(s, finned, n, fs), 0, 1)
    else if k == 3 then TripleFrom(|fs|, FishTripleStep(s, finned, n, fs), 0, 1, 2)
    else QuadFrom(|fs|, FishQuadStep(s, finned, n, fs), 0, 1, 2, 3)
  }

  function FishDigits(s: Board, k: nat, finned: bool, sets: seq<Entry>): nat -> Option<Found>
  {
    (d: nat) => if 1 <= d <= 9 then FishAtDigit(s, k, finned, sets, d) else None
  }

  /** What `checkXWing` (k = 2), `checkSwordFish` (3) and `checkJellyFish`
      (4) return: the first digit 1 .. 9, and for it the first combination
      of k base sets, that fires. */
  function FishIn(s: Board, k: nat, finned: bool, sets: seq<Entry>): Option<Found>
  {
    FirstFrom(10, FishDigits(s, k, finned, sets), 1)
  }

  /** The switch of `checkFishes` on the collected base sets: columns
      first, then rows; an amount other than 2, 3 or 4 finds nothing. */
  function FishChoice(s: Board, amount: nat, finned: bool, columns: seq<Entry>, rows: seq<Entry>): Option<Found>
  {
    if amount < 2 || amount > 4 then None
    else
      var inColumns := if |columns| >= amount then FishIn(s, amount, finned, columns) else None;
      if inColumns.Some? then inColumns
      else if |rows| >= amount then FishIn(s, amount, finned, rows)
      else None
  }

  /** The fish search on the board in id order. */
  function FishSearch(s: Board, amount: nat, finned: bool): Option<Found>
    requires |s| == 81
  {
    var f := FinLimit(amount, finned);
    FishChoice(s, amount, finned, BaseSets(s, ColumnKind, f, 9), BaseSets(s, RowKind, f, 9))
  }

  /** `checkFishes(board, amount, finned)`. */
  function Fishes(b: Board, amount: nat, finned: bool): Option<Found>
    requires |b| == 81
  {
    FishSearch(SortById(b), amount, finned)
  }

  /** The body of the digit loop: the base sets of digit `d` and, when
      there are at least k of them, the search over their combinations. */
  method FishForDigit(board: Board, k: nat, finned: bool, sets: seq<Entry>, d: nat) returns (r: Option<Found>)
    requires 2 <= k <= 4 && 1 <= d <= 9
    ensures r == FishAtDigit(board, k, finned, sets, d)
  {
    var n := DigitStr(d);
    var filteredSets := Filter(sets, WithNum(n));
    if |filteredSets| < k {
      return None;
    }
    if k == 2 {
      r := FindPair(|filteredSets|, FishPairStep(board, finned, n, filteredSets));
    } else if k == 3 {
      r := FindTriple(|filteredSets|, FishTripleStep(board, finned, n, filteredSets));
    } else {
      r := FindQuad(|filteredSets|, FishQuadStep(board, finned, n, filteredSets));
    }
  }

  method CheckXWing(board: Board, sets: seq<Entry>, finned: bool) returns (r: Option<Found>)
    ensures r == FishIn(board, 2, finned, sets)
  {
    for d: nat := 1 to 10
      invariant FishIn(board, 2, finned, sets) == FirstFrom(10, FishDigits(board, 2, finned, sets), d)
    {
      r := FishForDigit(board, 2, finned, sets, d);
      if r.Some? {
        return;
      }
    }
    return None;
  }

  method CheckSwordFish(board: Board, sets: seq<Entry>, finned: bool) returns (r: Option<Found>)
    ensures r == FishIn(board, 3, finned, sets)
  {
    for d: nat := 1 to 10
      invariant FishIn(board, 3, finned, sets) == FirstFrom(10, FishDigits(board, 3, finned, sets), d)
    {
      r := FishForDigit(board, 3, finned, sets, d);
      if r.Some? {
        return;
      }
    }
    return None;
  }

  method CheckJellyFish(board: Board, sets: seq<Entry>, finned: bool) returns (r: Option<Found>)
    ensures r == FishIn(board, 4, finned, sets)
  {
    for d: nat := 1 to 10
      invariant FishIn(board, 4, finned, sets) == FirstFrom(10, FishDigits(board, 4, finned, sets), d)
    {
      r := FishForDigit(board, 4, finned, sets, d);
      if r.Some? {
        return;
      }
    }
    return None;
  }

  /** The switch on `amount`, on the collected base sets. */
  method FishSwitch(s: Board, amount: nat, finned: bool, filteredColumns: seq<Entry>, filteredRows: seq<Entry>)
    returns (r: Option<Found>)
    ensures r == FishChoice(s, amount, finned, filteredColumns, filteredRows)
  {
    if amount == 2 {
      if |filteredColumns| >= 2 {
        r := CheckXWing(s, filteredColumns, finned);
        if r.Some? {
          return;
        }
      }
      if |filteredRows| >= 2 {
        r := CheckXWing(s, filteredRows, finned);
        if r.Some? {
          return;
        }
      }
    } else if amount == 3 {
      if |filteredColumns| >= 3 {
        r := CheckSwordFish(s, filteredColumns, finned);
        if r.Some? {
          return;
        }
      }
      if |filteredRows| >= 3 {
        r := CheckSwordFish(s, filteredRows, finned);
        if r.Some? {
          return;
        }
      }
    } else if amount == 4 {
      if |filteredColumns| >= 4 {
        r := CheckJellyFish(s, filteredColumns, finned);
        if r.Some? {
          return;
        }
      }
      if |filteredRows| >= 4 {
        r := CheckJellyFish(s, filteredRows, finned);
        if r.Some? {
          return;
        }
      }
    }
    return None;
  }

  /** The row and column records of group `x` as entry lists, keeping the
      digits with at most `fAmount` cells. */
  method FilteredEnums(board: Board, x: nat, fAmount: nat) returns (rowSets: seq<Entry>, columnSets: seq<Entry>)
    requires |board| == 81 && x < 9
    ensures rowSets == LineSets(SortById(board), RowKind, fAmount, x)
    ensures columnSets == LineSets(SortById(board), ColumnKind, fAmount, x)
    ensures forall e :: e in rowSets ==> |e.ids| <= fAmount
    ensures forall e :: e in columnSets ==> |e.ids| <= fAmount
  {
    var boxEnum, rowEnum, columnEnum := EnumSets(board, x);
    rowSets := Filter(Entries(rowEnum), AtMost(fAmount));
    columnSets := Filter(Entries(columnEnum), AtMost(fAmount));
  }

  /** `if (filtered.length && filtered[0][1].length <= fAmount) acc = [...acc, ...filtered]`:
      the size test is already met, so the entries are always appended. */
  method AppendBaseSets(acc: seq<Entry>, filtered: seq<Entry>, fAmount: nat) returns (r: seq<Entry>)
    requires forall e :: e in filtered ==> |e.ids| <= fAmount
    ensures r == acc + filtered
  {
    if |filtered| > 0 {
      assert filtered[0] in filtered;
    }
    if |filtered| > 0 && |filtered[0].ids| <= fAmount {
      r := acc + filtered;
    } else {
      r := acc;
      assert acc + filtered == acc;
    }
  }

  method CheckFishes(board: Board, amount: nat, finned: bool) returns (r: Option<Found>)
    requires |board| == 81
    ensures r == Fishes(board, amount, finned)
  {
    var s := SortById(board);
    var filteredRows: seq<Entry> := [];
    var filteredColumns: seq<Entry> := [];
    for x: nat := 0 to 9
      invariant filteredRows == BaseSets(s, RowKind, FinLimit(amount, finned), x)
      invariant filteredColumns == BaseSets(s, ColumnKind, FinLimit(amount, finned), x)
    {
      var fAmount := if finned then amount + 2 else amount;
      var filteredRowEnum, filteredColumnEnum := FilteredEnums(board, x, fAmount);
      filteredRows := AppendBaseSets(filteredRows, filteredRowEnum, fAmount);
      filteredColumns := AppendBaseSets(filteredColumns, filteredColumnEnum, fAmount);
    }
    r := FishSwitch(s, amount, finned, filteredColumns, filteredRows);
  }

  // ---------------------------------------------------------------------
  // What a fish does to the board
  // ---------------------------------------------------------------------

  /** Only the digit `n` goes, at least one mark goes, and only from empty
      cells that are not among the fish's own `cells`. */
  ghost predicate StrikesDigitOutside(s: Board, r: Board, n: string, cells: seq<string>)
  {
    OnlyMarksShrink(s, r) && RemovesSome(s, r) &&
    forall i :: 0 <= i < |s| ==>
      (r[i] != s[i] ==> !Filled(s[i]) && s[i].id !in cells) &&
      forall m :: m in s[i].cornerPencil && m !in r[i].cornerPencil ==> m == n
  }

  /** A strike of one digit from the empty cells of a zone, skipping some
      cells, changes only cells of the zone and only that digit. */
  lemma StrikeDigit(s: Board, zone: Zone, skip: seq<string>, n: string, specs: Specs)
    ensures var f := Fire(s, Strike(zone, skip, true, [n]), specs);
      f.Some? ==>
        StrikesDigitOutside(s, f.value.board, n, skip) &&
        forall i :: 0 <= i < |s| && f.value.board[i] != s[i] ==> InZone(zone, s[i].id)
  {
    FireStrike(s, zone, skip, true, [n], specs);
  }

  lemma LineStrikeMeaning(s: Board, zone: Zone, n: string, cells: seq<string>)
    ensures var f := LineStrike(s, zone, n, cells);
      f.Some? ==>
        StrikesDigitOutside(s, f.value.board, n, cells) &&
        forall i :: 0 <= i < |s| && f.value.board[i] != s[i] ==> InZone(zone, s[i].id)
  {
    var rule := Strike(zone, cells, true, [n]);
    StrikeDigit(s, zone, cells, n, Specs(Selected(s, rule), [n], cells, [], false, NoLabel));
  }

  /** A plain fish: its cells lie in exactly k columns and the digit only
      goes from other cells of those columns, or they lie in exactly k rows
      and it only goes from other cells of those rows. Base cells are never
      touched. */
  lemma PlainFishMeaning(s: Board, k: nat, n: string, cells: seq<string>)
    ensures PlainTry(s, k, n, cells).Some? ==>
      var r := PlainTry(s, k, n, cells).value.board;
      StrikesDigitOutside(s, r, n, cells) &&
      ((|ToSet(ColsOf(cells))| == k && forall i :: 0 <= i < |s| && r[i] != s[i] ==> ColStr(s[i].id) in ColsOf(cells)) ||
       (|ToSet(RowsOf(cells))| == k && forall i :: 0 <= i < |s| && r[i] != s[i] ==> RowStr(s[i].id) in RowsOf(cells)))
  {
    var uniqRows := Uniq(Sort(RowsOf(cells)));
    var uniqCols := Uniq(Sort(ColsOf(cells)));
    var inColumns := if |uniqCols| == k then LineStrike(s, InColumns(uniqCols), n, cells) else None;
    var p := PlainTry(s, k, n, cells);
    if p.Some? {
      var r := p.value.board;
      if inColumns.Some? {
        assert p == LineStrike(s, InColumns(uniqCols), n, cells);
        LineStrikeMeaning(s, InColumns(uniqCols), n, cells);
        DistinctCount(ColsOf(cells));
        assert |ToSet(ColsOf(cells))| == k;
        forall i | 0 <= i < |s| && r[i] != s[i]
          ensures ColStr(s[i].id) in ColsOf(cells)
        {
          assert InZone(InColumns(uniqCols), s[i].id);
        }
      } else {
        assert |uniqRows| == k && p == LineStrike(s, InRows(uniqRows), n, cells);
        LineStrikeMeaning(s, InRows(uniqRows), n, cells);
        DistinctCount(RowsOf(cells));
        assert |ToSet(RowsOf(cells))| == k;
        forall i | 0 <= i < |s| && r[i] != s[i]
          ensures RowStr(s[i].id) in RowsOf(cells)
        {
          assert InZone(InRows(uniqRows), s[i].id);
        }
      }
    }
  }

  /** Every cell of a finned zone sees every fin. */
  lemma FinZoneSeesFins(k: nat, byRow: bool, dups: seq<string>, lines: seq<string>, fins: seq<string>, valid: bool, id: string)
    requires InZone(FinZone(k, byRow, dups, lines, fins, valid), id)
    ensures SeenByAll(fins, id)
  {
  }

  lemma FinnedStrikeMeaning(s: Board, k: nat, n: string, byRow: bool, sorted: seq<string>, zone: Zone,
                            sourceCells: seq<string>, fins: seq<string>, sashimi: bool)
    requires forall id :: InZone(zone, id) ==> SeenByAll(fins, id)
    ensures var f := FinnedStrike(s, k, n, byRow, sorted, zone, sourceCells, fins, sashimi);
      f.Some? ==>
        StrikesDigitOutside(s, f.value.board, n, sorted) &&
        f.value.specs.affectedNumbers == [n] && f.value.specs.fins == fins && fins != [] &&
        forall i :: 0 <= i < |s| && f.value.board[i] != s[i] ==> SeenByAll(fins, s[i].id)
  {
    var rule := Strike(zone, sorted, true, [n]);
    var affected := if k == 3 && !byRow then [] else Selected(s, rule);
    var specs := Specs(affected, [n], sourceCells, fins, sashimi, NoLabel);
    StrikeDigit(s, zone, sorted, n, specs);
    var f := Fire(s, rule, specs);
    if f.Some? {
      var r := f.value.board;
      var i, m :| 0 <= i < |s| && m in s[i].cornerPencil && m !in r[i].cornerPencil;
      assert InZone(zone, s[i].id);
    }
  }

  /** A finned or sashimi fish: it has fins, all among its cells, and the
      digit only goes from empty cells outside the fish that see every
      fin. */
  lemma FinnedFishMeaning(s: Board, k: nat, n: string, cells: seq<string>, byRow: bool)
    ensures FinnedTry(s, k, n, cells, byRow).Some? ==>
      var f := FinnedTry(s, k, n, cells, byRow).value;
      StrikesDigitOutside(s, f.board, n, cells) && f.specs.affectedNumbers == [n] &&
      f.specs.fins != [] && (forall x :: x in f.specs.fins ==> x in cells) &&
      forall i :: 0 <= i < |s| && f.board[i] != s[i] ==> SeenByAll(f.specs.fins, s[i].id)
  {
    var sorted := SortBy(cells, byRow);
    var dups := Dups(sorted, byRow, k == 4, |sorted|);
    var lines := LinesOf(dups, byRow);
    var fins := FinsOf(sorted, lines, byRow);
    var sources := Backing(sorted, fins);
    var sashimi := |dups| + 1 == k;
    var finSide := if k == 4 && byRow && sashimi then byRow else !byRow;
    var valid := k == 2 || FinsBacked(fins, sources, finSide, byRow);
    var zone := FinZone(k, byRow, dups, lines, fins, valid);
    var sourceCells := if k == 2 then dups else sources;
    assert FinnedTry(s, k, n, cells, byRow) == FinnedStrike(s, k, n, byRow, sorted, zone, sourceCells, fins, sashimi);
    forall id | InZone(zone, id) ensures SeenByAll(fins, id) {
      FinZoneSeesFins(k, byRow, dups, lines, fins, valid, id);
    }
    FinnedStrikeMeaning(s, k, n, byRow, sorted, zone, sourceCells, fins, sashimi);
    SortElems(cells, byRow);
  }

  /** The Jellyfish with its base sets in columns never changes anything:
      it collects the repeated rows as one-character strings and then reads
      their second character, which does not exist, so every cell counts
      as a fin, no cell is left to back the fins, and the fin test fails. */
  lemma JellyfishColumnsNeverFire(s: Board, n: string, cells: seq<string>)
    requires forall id :: id in cells ==> |id| >= 2
    ensures FinnedTry(s, 4, n, cells, true) == None
  {
    var sorted := SortBy(cells, true);
    SortElems(cells, true);
    var dups := Dups(sorted, true, true, |sorted|);
    var lines := LinesOf(dups, true);
    var fins := FinsOf(sorted, lines, true);
    var sources := Backing(sorted, fins);
    var sashimi := |dups| + 1 == 4;
    var finSide := if sashimi then true else false;
    var valid := FinsBacked(fins, sources, finSide, true);
    LinesAreEmpty(dups);
    AllFins(sorted, lines);
    if |dups| == 4 || |dups| == 3 {
      assert sorted[0] in fins;
      assert !valid;
    }
    var zone := FinZone(4, true, dups, lines, fins, valid);
    assert zone == Among([]);
    assert FinnedTry(s, 4, n, cells, true) == FinnedStrike(s, 4, n, true, sorted, zone, sources, fins, sashimi);
    EmptyZoneNeverFires(s, 4, n, true, sorted, sources, fins, sashimi);
  }

  /** The second character of a string of at most one character is
      `undefined`, modelled as "". */
  lemma LinesAreEmpty(dups: seq<string>)
    requires forall v :: v in dups ==> |v| <= 1
    ensures forall v :: v in LinesOf(dups, true) ==> v == ""
  {
    var lines := LinesOf(dups, true);
    forall v | v in lines ensures v == "" {
      var j :| 0 <= j < |lines| && lines[j] == v;
      assert dups[j] in dups;
    }
  }

  /** When no line is a real row, every cell is a fin and none backs them. */
  lemma AllFins(sorted: seq<string>, lines: seq<string>)
    requires forall id :: id in sorted ==> |id| >= 2
    requires forall v :: v in lines ==> v == ""
    ensures FinsOf(sorted, lines, true) == sorted
    ensures Backing(sorted, FinsOf(sorted, lines, true)) == []
  {
    var fins := FinsOf(sorted, lines, true);
    FilterAll(sorted, (id: string) => LineOf(id, true) !in lines);
    FilterNone(sorted, (id: string) => id !in fins);
  }

  lemma EmptyZoneNeverFires(s: Board, k: nat, n: string, byRow: bool, sorted: seq<string>,
                            sourceCells: seq<string>, fins: seq<string>, sashimi: bool)
    ensures FinnedStrike(s, k, n, byRow, sorted, Among([]), sourceCells, fins, sashimi) == None
  {
    var rule := Strike(Among([]), sorted, true, [n]);
    if Selected(s, rule) != [] {
      assert Selected(s, rule)[0] in Selected(s, rule);
    }
  }

  // ---------------------------------------------------------------------
  // Where a result comes from
  // ---------------------------------------------------------------------

  /** `e` lists exactly the cells of line `y` that can take its digit. */
  ghost predicate FromLine(s: Board, kind: Kind, y: nat, e: Entry)
    requires |s| == 81 && y < 9
  {
    e.ids == CellsWith(Group(s, kind, y), e.num)
  }

  /** A base set of a direction is a digit with the non-empty list of
      cells of some line that can take it, at most `f` of them. */
  lemma BaseSetsMeaning(s: Board, kind: Kind, f: nat, x: nat, e: Entry)
    requires |s| == 81 && x <= 9 && e in BaseSets(s, kind, f, x)
    ensures IsDigitStr(e.num) && 0 < |e.ids| <= f
    ensures exists y :: 0 <= y < x && FromLine(s, kind, y, e)
  {
    var y := BaseSetLine(s, kind, f, x, e);
    LastGroupEntry(s, kind, f, y, e);
  }

  /** The line a base set comes from. */
  lemma BaseSetLine(s: Board, kind: Kind, f: nat, x: nat, e: Entry) returns (y: nat)
    requires |s| == 81 && x <= 9 && e in BaseSets(s, kind, f, x)
    ensures y < x && e in LineSets(s, kind, f, y)
  {
    y := ConcatMember(LinesFn(s, kind, f), x, e);
  }

  lemma LastGroupEntry(s: Board, kind: Kind, f: nat, y: nat, e: Entry)
    requires |s| == 81 && y < 9
    requires e in LineSets(s, kind, f, y)
    ensures IsDigitStr(e.num) && 0 < |e.ids| <= f && FromLine(s, kind, y, e)
  {
    var g := Group(s, kind, y);
    assert e in Entries(EnumMap(g)) && |e.ids| <= f;
    EntryIff(g, e);
  }

  /** k base sets of the digit `n` (the loop indices are increasing, so
      they are taken at distinct positions of the list). */
  ghost predicate ChosenBases(chosen: seq<Entry>, k: nat, sets: seq<Entry>, n: string)
  {
    |chosen| == k && forall j :: 0 <= j < k ==> chosen[j] in sets && chosen[j].num == n
  }

  lemma FishPairPick(s: Board, finned: bool, n: string, fs: seq<Entry>) returns (chosen: seq<Entry>)
    requires PairFrom(|fs|, FishPairStep(s, finned, n, fs), 0, 1).Some?
    ensures |chosen| == 2 && forall j :: 0 <= j < 2 ==> chosen[j] in fs
    ensures PairFrom(|fs|, FishPairStep(s, finned, n, fs), 0, 1) == FishTry(s, 2, finned, n, chosen)
  {
    var p, q := PairWitness(|fs|, FishPairStep(s, finned, n, fs));
    chosen := [fs[p], fs[q]];
  }

  lemma FishTriplePick(s: Board, finned: bool, n: string, fs: seq<Entry>) returns (chosen: seq<Entry>)
    requires TripleFrom(|fs|, FishTripleStep(s, finned, n, fs), 0, 1, 2).Some?
    ensures |chosen| == 3 && forall j :: 0 <= j < 3 ==> chosen[j] in fs
    ensures TripleFrom(|fs|, FishTripleStep(s, finned, n, fs), 0, 1, 2) == FishTry(s, 3, finned, n, chosen)
  {
    var p, q, t := TripleWitness(|fs|, FishTripleStep(s, finned, n, fs));
    chosen := [fs[p], fs[q], fs[t]];
  }

  lemma FishQuadTry(s: Board, finned: bool, n: string, fs: seq<Entry>, p: nat, q: nat, t: nat, u: nat)
    requires p < q < t < u < |fs|
    ensures FishQuadStep(s, finned, n, fs)(p, q, t, u) == FishTry(s, 4, finned, n, [fs[p], fs[q], fs[t], fs[u]])
  {
  }

  lemma FishQuadPick(s: Board, finned: bool, n: string, fs: seq<Entry>) returns (p: nat, q: nat, t: nat, u: nat)
    requires QuadFrom(|fs|, FishQuadStep(s, finned, n, fs), 0, 1, 2, 3).Some?
    ensures p < q < t < u < |fs|
    ensures QuadFrom(|fs|, FishQuadStep(s, finned, n, fs), 0, 1, 2, 3) == FishTry(s, 4, finned, n, [fs[p], fs[q], fs[t], fs[u]])
  {
    p, q, t, u := QuadWitness(|fs|, FishQuadStep(s, finned, n, fs));
    FishQuadTry(s, finned, n, fs, p, q, t, u);
  }

  lemma FishDigitPick(s: Board, k: nat, finned: bool, sets: seq<Entry>, d: nat) returns (chosen: seq<Entry>)
    requires 2 <= k <= 4 && 1 <= d <= 9 && FishAtDigit(s, k, finned, sets, d).Some?
    ensures ChosenBases(chosen, k, sets, DigitStr(d))
    ensures FishAtDigit(s, k, finned, sets, d) == FishTry(s, k, finned, DigitStr(d), chosen)
  {
    if k == 2 {
      chosen := PairBases(s, finned, sets, d);
    } else if k == 3 {
      chosen := TripleBases(s, finned, sets, d);
    } else {
      chosen := QuadBases(s, finned, sets, d);
    }
  }

  lemma PairBases(s: Board, finned: bool, sets: seq<Entry>, d: nat) returns (chosen: seq<Entry>)
    requires 1 <= d <= 9 && FishAtDigit(s, 2, finned, sets, d).Some?
    ensures ChosenBases(chosen, 2, sets, DigitStr(d))
    ensures FishAtDigit(s, 2, finned, sets, d) == FishTry(s, 2, finned, DigitStr(d), chosen)
  {
    var n := DigitStr(d);
    var fs := Filter(sets, WithNum(n));
    assert FishAtDigit(s, 2, finned, sets, d) == PairFrom(|fs|, FishPairStep(s, finned, n, fs), 0, 1);
    chosen := FishPairPick(s, finned, n, fs);
    InFiltered(sets, n, fs, chosen);
  }

  lemma TripleBases(s: Board, finned: bool, sets: seq<Entry>, d: nat) returns (chosen: seq<Entry>)
    requires 1 <= d <= 9 && FishAtDigit(s, 3, finned, sets, d).Some?
    ensures ChosenBases(chosen, 3, sets, DigitStr(d))
    ensures FishAtDigit(s, 3, finned, sets, d) == FishTry(s, 3, finned, DigitStr(d), chosen)
  {
    var n := DigitStr(d);
    var fs := Filter(sets, WithNum(n));
    assert FishAtDigit(s, 3, finned, sets, d) == TripleFrom(|fs|, FishTripleStep(s, finned, n, fs), 0, 1, 2);
    chosen := FishTriplePick(s, finned, n, fs);
    InFiltered(sets, n, fs, chosen);
  }

  lemma QuadDigit(s: Board, finned: bool, sets: seq<Entry>, d: nat)
    requires 1 <= d <= 9 && FishAtDigit(s, 4, finned, sets, d).Some?
    ensures var fs := Filter(sets, WithNum(DigitStr(d)));
      FishAtDigit(s, 4, finned, sets, d) == QuadFrom(|fs|, FishQuadStep(s, finned, DigitStr(d), fs), 0, 1, 2, 3)
  {
  }

  lemma QuadMembers(sets: seq<Entry>, n: string, fs: seq<Entry>, p: nat, q: nat, t: nat, u: nat)
    requires fs == Filter(sets, WithNum(n)) && p < q < t < u < |fs|
    ensures ChosenBases([fs[p], fs[q], fs[t], fs[u]], 4, sets, n)
  {
    InFiltered(sets, n, fs, [fs[p], fs[q], fs[t], fs[u]]);
  }

  lemma QuadBases(s: Board, finned: bool, sets: seq<Entry>, d: nat) returns (chosen: seq<Entry>)
    requires 1 <= d <= 9 && FishAtDigit(s, 4, finned, sets, d).Some?
    ensures ChosenBases(chosen, 4, sets, DigitStr(d))
    ensures FishAtDigit(s, 4, finned, sets, d) == FishTry(s, 4, finned, DigitStr(d), chosen)
  {
    var n := DigitStr(d);
    var fs := Filter(sets, WithNum(n));
    QuadDigit(s, finned, sets, d);
    var p, q, t, u := FishQuadPick(s, finned, n, fs);
    QuadMembers(sets, n, fs, p, q, t, u);
    chosen := [fs[p], fs[q], fs[t], fs[u]];
  }

  lemma InFiltered(sets: seq<Entry>, n: string, fs: seq<Entry>, chosen: seq<Entry>)
    requires fs == Filter(sets, WithNum(n))
    requires forall j :: 0 <= j < |chosen| ==> chosen[j] in fs
    ensures forall j :: 0 <= j < |chosen| ==> chosen[j] in sets && chosen[j].num == n
  {
  }

  /** A result of `checkXWing` / `checkSwordFish` / `checkJellyFish` is the
      result of one combination of k base sets of one digit. */
  lemma FishInFound(s: Board, k: nat, finned: bool, sets: seq<Entry>)
    requires 2 <= k <= 4
    ensures FishIn(s, k, finned, sets).Some? ==>
      exists d, chosen :: 1 <= d <= 9 && ChosenBases(chosen, k, sets, DigitStr(d)) &&
        FishIn(s, k, finned, sets) == FishTry(s, k, finned, DigitStr(d), chosen)
  {
    var r := FishIn(s, k, finned, sets);
    var f := FishDigits(s, k, finned, sets);
    FirstFromSome(10, f, 1);
    if r.Some? {
      var d :| 1 <= d < 10 && f(d) == r && forall j :: 1 <= j < d ==> f(j) == None;
      var chosen := FishDigitPick(s, k, finned, sets, d);
      assert ChosenBases(chosen, k, sets, DigitStr(d)) && r == FishTry(s, k, finned, DigitStr(d), chosen);
    }
  }

  /** A result of `checkFishes` is the result of one combination of
      `amount` base sets of one digit, all taken from the columns or all
      from the rows. */
  lemma FishSearchFound(s: Board, amount: nat, finned: bool)
    requires |s| == 81
    ensures FishSearch(s, amount, finned).Some? ==>
      2 <= amount <= 4 &&
      exists kind, d, chosen :: (kind == ColumnKind || kind == RowKind) && 1 <= d <= 9 &&
        ChosenBases(chosen, amount, BaseSets(s, kind, FinLimit(amount, finned), 9), DigitStr(d)) &&
        FishSearch(s, amount, finned) == FishTry(s, amount, finned, DigitStr(d), chosen)
  {
    var f := FinLimit(amount, finned);
    var columns := BaseSets(s, ColumnKind, f, 9);
    var rows := BaseSets(s, RowKind, f, 9);
    var r := FishSearch(s, amount, finned);
    if r.Some? {
      var inColumns := if |columns| >= amount then FishIn(s, amount, finned, columns) else None;
      var kind := if inColumns.Some? then ColumnKind else RowKind;
      var sets := BaseSets(s, kind, f, 9);
      assert r == FishIn(s, amount, finned, sets);
      FishInFound(s, amount, finned, sets);
      var d, chosen :| 1 <= d <= 9 && ChosenBases(chosen, amount, sets, DigitStr(d)) &&
        r == FishTry(s, amount, finned, DigitStr(d), chosen);
    }
  }

  /** What one combination does: only its digit goes, from empty cells
      outside the fish; a finned fish has fins among its cells and strikes
      only cells that see every fin. */
  lemma FishTryMeaning(s: Board, k: nat, finned: bool, n: string, chosen: seq<Entry>)
    ensures FishTry(s, k, finned, n, chosen).Some? ==>
      var f := FishTry(s, k, finned, n, chosen).value;
      var cells := IdsOf(chosen);
      StrikesDigitOutside(s, f.board, n, cells) &&
      (finned ==>
        f.specs.fins != [] && (forall x :: x in f.specs.fins ==> x in cells) &&
        forall i :: 0 <= i < |s| && f.board[i] != s[i] ==> SeenByAll(f.specs.fins, s[i].id))
  {
    var cells := IdsOf(chosen);
    var r := FishTry(s, k, finned, n, chosen);
    if r.Some? {
      if !finned {
        assert r == PlainTry(s, k, n, cells);
        PlainFishMeaning(s, k, n, cells);
      } else {
        var byRow := |Uniq(Sort(ColsOf(cells)))| == k && |Uniq(Sort(RowsOf(cells)))| != k;
        assert r == FinnedTry(s, k, n, cells, byRow);
        FinnedFishMeaning(s, k, n, cells, byRow);
      }
    }
  }

  // ---------------------------------------------------------------------
  // When the fish search finds nothing
  // ---------------------------------------------------------------------

  /** The combinations of one digit fire nowhere iff none of them fires. */
  lemma FishAtDigitNone(s: Board, k: nat, finned: bool, sets: seq<Entry>, d: nat)
    requires 2 <= k <= 4 && 1 <= d <= 9
    ensures var fs := Filter(sets, WithNum(DigitStr(d)));
      FishAtDigit(s, k, finned, sets, d).None? <==>
        forall idx :: Increasing(idx, k, |fs|) ==> FishTry(s, k, finned, DigitStr(d), PickAt(fs, idx)).None?
  {
    var fs := Filter(sets, WithNum(DigitStr(d)));
    if |fs| < k {
      FishAtDigitShort(s, k, finned, sets, d);
    } else if k == 2 {
      FishAtDigitPairs(s, k, finned, sets, d);
    } else if k == 3 {
      FishAtDigitTriples(s, k, finned, sets, d);
    } else {
      FishAtDigitQuads(s, k, finned, sets, d);
    }
  }

  lemma FishAtDigitShort(s: Board, k: nat, finned: bool, sets: seq<Entry>, d: nat)
    requires 2 <= k <= 4 && 1 <= d <= 9 && |Filter(sets, WithNum(DigitStr(d)))| < k
    ensures var fs := Filter(sets, WithNum(DigitStr(d)));
      FishAtDigit(s, k, finned, sets, d).None? &&
      forall idx :: !Increasing(idx, k, |fs|)
  {
    var fs := Filter(sets, WithNum(DigitStr(d)));
    forall idx | Increasing(idx, k, |fs|) ensures false {
      IncreasingFits(idx, k, |fs|, k - 1);
    }
  }

  lemma FishAtDigitPairs(s: Board, k: nat, finned: bool, sets: seq<Entry>, d: nat)
    requires k == 2 && 1 <= d <= 9 && |Filter(sets, WithNum(DigitStr(d)))| >= k
    ensures var fs := Filter(sets, WithNum(DigitStr(d)));
      FishAtDigit(s, k, finned, sets, d).None? <==>
        forall idx :: Increasing(idx, k, |fs|) ==> FishTry(s, k, finned, DigitStr(d), PickAt(fs, idx)).None?
  {
    var n := DigitStr(d);
    var fs := Filter(sets, WithNum(n));
    assert FishAtDigit(s, k, finned, sets, d) == PairFrom(|fs|, FishPairStep(s, finned, n, fs), 0, 1);
    FishPairsNone(s, k, finned, n, fs);
  }

  lemma FishAtDigitTriples(s: Board, k: nat, finned: bool, sets: seq<Entry>, d: nat)
    requires k == 3 && 1 <= d <= 9 && |Filter(sets, WithNum(DigitStr(d)))| >= k
    ensures var fs := Filter(sets, WithNum(DigitStr(d)));
      FishAtDigit(s, k, finned, sets, d).None? <==>
        forall idx :: Increasing(idx, k, |fs|) ==> FishTry(s, k, finned, DigitStr(d), PickAt(fs, idx)).None?
  {
    var n := DigitStr(d);
    var fs := Filter(sets, WithNum(n));
    assert FishAtDigit(s, k, finned, sets, d) == TripleFrom(|fs|, FishTripleStep(s, finned, n, fs), 0, 1, 2);
    FishTriplesNone(s, k, finned, n, fs);
  }

  lemma FishAtDigitQuads(s: Board, k: nat, finned: bool, sets: seq<Entry>, d: nat)
    requires k == 4 && 1 <= d <= 9 && |Filter(sets, WithNum(DigitStr(d)))| >= k
    ensures var fs := Filter(sets, WithNum(DigitStr(d)));
      FishAtDigit(s, k, finned, sets, d).None? <==>
        forall idx :: Increasing(idx, k, |fs|) ==> FishTry(s, k, finned, DigitStr(d), PickAt(fs, idx)).None?
  {
    var n := DigitStr(d);
    var fs := Filter(sets, WithNum(n));
    assert FishAtDigit(s, k, finned, sets, d) == QuadFrom(|fs|, FishQuadStep(s, finned, n, fs), 0, 1, 2, 3);
    FishQuadsNone(s, k, finned, n, fs);
  }

  /** The pair (triple, quad) loop of one digit finds nothing iff no
      combination of its base sets, in loop order, fires. */
  lemma FishPairsNone(s: Board, k: nat, finned: bool, n: string, fs: seq<Entry>)
    requires k == 2
    ensures PairFrom(|fs|, FishPairStep(s, finned, n, fs), 0, 1) == None <==>
      forall idx :: Increasing(idx, k, |fs|) ==> FishTry(s, k, finned, n, PickAt(fs, idx)).None?
  {
    PairsNone(fs, k, FishPairStep(s, finned, n, fs), (c: seq<Entry>) => FishTry(s, k, finned, n, c));
  }

  lemma FishTriplesNone(s: Board, k: nat, finned: bool, n: string, fs: seq<Entry>)
    requires k == 3
    ensures TripleFrom(|fs|, FishTripleStep(s, finned, n, fs), 0, 1, 2) == None <==>
      forall idx :: Increasing(idx, k, |fs|) ==> FishTry(s, k, finned, n, PickAt(fs, idx)).None?
  {
    TriplesNone(fs, k, FishTripleStep(s, finned, n, fs), (c: seq<Entry>) => FishTry(s, k, finned, n, c));
  }

  lemma FishQuadsNone(s: Board, k: nat, finned: bool, n: string, fs: seq<Entry>)
    requires k == 4
    ensures QuadFrom(|fs|, FishQuadStep(s, finned, n, fs), 0, 1, 2, 3) == None <==>
      forall idx :: Increasing(idx, k, |fs|) ==> FishTry(s, k, finned, n, PickAt(fs, idx)).None?
  {
    QuadsNone(fs, k, FishQuadStep(s, finned, n, fs), (c: seq<Entry>) => FishTry(s, k, finned, n, c));
  }

  /** No combination of k base sets of one digit, in loop order, fires. */
  ghost predicate NoFishFires(s: Board, k: nat, finned: bool, sets: seq<Entry>)
  {
    forall d, idx :: 1 <= d <= 9 && Increasing(idx, k, |Filter(sets, WithNum(DigitStr(d)))|) ==>
      FishTry(s, k, finned, DigitStr(d), PickAt(Filter(sets, WithNum(DigitStr(d))), idx)).None?
  }

  /** `checkXWing` / `checkSwordFish` / `checkJellyFish` find nothing iff
      no combination of k base sets of any digit, in loop order, fires. */
  lemma FishInNone(s: Board, k: nat, finned: bool, sets: seq<Entry>)
    requires 2 <= k <= 4
    ensures FishIn(s, k, finned, sets).None? <==> NoFishFires(s, k, finned, sets)
  {
    if FishIn(s, k, finned, sets).None? {
      FishInMiss(s, k, finned, sets);
    } else {
      FishInHit(s, k, finned, sets);
    }
  }

  lemma FishInMiss(s: Board, k: nat, finned: bool, sets: seq<Entry>)
    requires 2 <= k <= 4 && FishIn(s, k, finned, sets).None?
    ensures forall d, idx :: 1 <= d <= 9 && Increasing(idx, k, |Filter(sets, WithNum(DigitStr(d)))|) ==>
      FishTry(s, k, finned, DigitStr(d), PickAt(Filter(sets, WithNum(DigitStr(d))), idx)).None?
  {
    var f := FishDigits(s, k, finned, sets);
    FirstFromNone(10, f, 1);
    forall d | 1 <= d <= 9
      ensures forall idx :: Increasing(idx, k, |Filter(sets, WithNum(DigitStr(d)))|) ==>
        FishTry(s, k, finned, DigitStr(d), PickAt(Filter(sets, WithNum(DigitStr(d))), idx)).None?
    {
      assert f(d) == FishAtDigit(s, k, finned, sets, d);
      FishAtDigitNone(s, k, finned, sets, d);
    }
  }

  lemma FishInHit(s: Board, k: nat, finned: bool, sets: seq<Entry>)
    requires 2 <= k <= 4 && FishIn(s, k, finned, sets).Some?
    ensures exists d, idx ::
      1 <= d <= 9 && Increasing(idx, k, |Filter(sets, WithNum(DigitStr(d)))|) &&
      FishTry(s, k, finned, DigitStr(d), PickAt(Filter(sets, WithNum(DigitStr(d))), idx)).Some?
  {
    var f := FishDigits(s, k, finned, sets);
    FirstFromSome(10, f, 1);
    var d :| 1 <= d < 10 && f(d) == FishIn(s, k, finned, sets);
    assert f(d) == FishAtDigit(s, k, finned, sets, d);
    FishAtDigitNone(s, k, finned, sets, d);
  }

  /** `checkFishes` finds nothing iff the amount is not 2, 3 or 4, or no
      combination of that many base sets of one digit fires, neither among
      the columns' base sets nor among the rows'. */
  lemma FishSearchNone(s: Board, amount: nat, finned: bool)
    requires |s| == 81
    ensures FishSearch(s, amount, finned).None? <==>
      !(2 <= amount <= 4) ||
      (NoFishFires(s, amount, finned, BaseSets(s, ColumnKind, FinLimit(amount, finned), 9)) &&
       NoFishFires(s, amount, finned, BaseSets(s, RowKind, FinLimit(amount, finned), 9)))
  {
    if 2 <= amount <= 4 {
      var f := FinLimit(amount, finned);
      var columns := BaseSets(s, ColumnKind, f, 9);
      var rows := BaseSets(s, RowKind, f, 9);
      assert FishSearch(s, amount, finned) == FishChoice(s, amount, finned, columns, rows);
      FishChoiceNone(s, amount, finned, columns, rows);
      FishInNone(s, amount, finned, columns);
      FishInNone(s, amount, finned, rows);
    }
  }

  /** The switch finds nothing iff neither the columns nor the rows do. */
  lemma FishChoiceNone(s: Board, amount: nat, finned: bool, columns: seq<Entry>, rows: seq<Entry>)
    requires 2 <= amount <= 4
    ensures FishChoice(s, amount, finned, columns, rows).None? <==>
      FishIn(s, amount, finned, columns).None? && FishIn(s, amount, finned, rows).None?
  {
    if |columns| < amount {
      FishShortNone(s, amount, finned, columns);
    }
    if |rows| < amount {
      FishShortNone(s, amount, finned, rows);
    }
  }

  /** Fewer base sets than the amount find nothing, as the guard of the
      switch assumes. */
  lemma FishShortNone(s: Board, k: nat, finned: bool, sets: seq<Entry>)
    requires 2 <= k <= 4 && |sets| < k
    ensures FishIn(s, k, finned, sets).None?
  {
    FishInNone(s, k, finned, sets);
    forall d, idx | 1 <= d <= 9 && Increasing(idx, k, |Filter(sets, WithNum(DigitStr(d)))|) ensures false {
      IncreasingFits(idx, k, |Filter(sets, WithNum(DigitStr(d)))|, k - 1);
    }
  }
}
