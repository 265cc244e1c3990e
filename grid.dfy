/** Geometry of the 9x9 grid. A cell id is a column letter A-I followed by a
    row digit 1-9. Boards are kept in id order, so the cell with id
    `"A1"` sits at position 0, `"A2"` at 1, ..., `"I9"` at 80: position
    `p` has column `p / 9` and row `p % 9` (both counted from 0). */
module Grid {

  /** The id of the cell at position `p`. */
  function IdOf(p: nat): (id: string)
    requires p < 81
    ensures |id| == 2
    ensures id[0] == ('A' as int + p / 9) as char && id[1] == ('1' as int + p % 9) as char
  {
    [('A' as int + p / 9) as char, ('1' as int + p % 9) as char]
  }

  predicate IsId(id: string)
  {
    |id| == 2 && 'A' <= id[0] <= 'I' && '1' <= id[1] <= '9'
  }

  /** The position of the cell with a given id. */
  function PosOf(id: string): (p: nat)
    requires IsId(id)
    ensures p < 81
  {
    (id[0] as int - 'A' as int) * 9 + (id[1] as int - '1' as int)
  }

  lemma IdOfIsId(p: nat)
    requires p < 81
    ensures IsId(IdOf(p)) && PosOf(IdOf(p)) == p
  {
  }

  lemma PosOfRoundTrip(id: string)
    requires IsId(id)
    ensures IdOf(PosOf(id)) == id
  {
    var p := PosOf(id);
    assert IdOf(p)[0] == id[0] && IdOf(p)[1] == id[1];
  }

  /** Distinct positions have distinct ids. */
  lemma IdOfInjective(p: nat, q: nat)
    requires p < 81 && q < 81 && IdOf(p) == IdOf(q)
    ensures p == q
  {
    IdOfIsId(p);
    IdOfIsId(q);
  }

  /** `String(d)` for a digit 1-9. */
  function DigitStr(d: nat): (s: string)
    requires 1 <= d <= 9
    ensures |s| == 1 && '1' <= s[0] <= '9'
  {
    [('0' as int + d) as char]
  }

  predicate IsDigitStr(s: string)
  {
    |s| == 1 && '1' <= s[0] <= '9'
  }

  lemma DigitStrInjective(d: nat, e: nat)
    requires 1 <= d <= 9 && 1 <= e <= 9 && DigitStr(d) == DigitStr(e)
    ensures d == e
  {
    assert DigitStr(d)[0] == DigitStr(e)[0];
  }

  // ---------------------------------------------------------------------
  // Columns, rows and boxes. Box k covers column band k / 3 and row band
  // k % 3 (box 0 is A1-C3, box 1 is A4-C6, box 3 is D1-F3).
  // ---------------------------------------------------------------------

  function ColOf(p: nat): nat { p / 9 }
  function RowOf(p: nat): nat { p % 9 }
  function BoxOf(p: nat): nat { (p / 27) * 3 + (p % 9) / 3 }

  /** Two different cells see each other: same column, row or box. */
  predicate Peer(p: nat, q: nat)
  {
    p != q && (ColOf(p) == ColOf(q) || RowOf(p) == RowOf(q) || BoxOf(p) == BoxOf(q))
  }

  lemma PeerSymmetric(p: nat, q: nat)
    ensures Peer(p, q) <==> Peer(q, p)
  {
  }

  /** The three kinds of group, in the order of `setTypes`. */
  datatype Kind = BoxKind | RowKind | ColumnKind

  function KindAt(c: nat): Kind
    requires c < 3
  {
    if c == 0 then BoxKind else if c == 1 then RowKind else ColumnKind
  }

  /** Is position `p` in group `x` of the given kind? */
  predicate InGroup(kind: Kind, x: nat, p: nat)
  {
    match kind
    case BoxKind => BoxOf(p) == x
    case RowKind => RowOf(p) == x
    case ColumnKind => ColOf(p) == x
  }

  /** The first column (or row) of the band of three that `i` lies in. */
  function Band(i: nat): (r: nat)
    requires i < 9
    ensures r == (i / 3) * 3 && r <= i < r + 3
    ensures r == 0 || r == 3 || r == 6
  {
    if i < 3 then 0 else if i < 6 then 3 else 6
  }

  lemma DivMod3(a: nat, b: nat)
    requires b < 3
    ensures (a * 3 + b) / 3 == a && (a * 3 + b) % 3 == b
  {
  }

  lemma DivMod9(a: nat, b: nat)
    requires b < 9
    ensures (a * 9 + b) / 9 == a && (a * 9 + b) % 9 == b
  {
  }

  lemma DivMod27(a: nat, b: nat)
    requires b < 27
    ensures (a * 27 + b) / 27 == a
  {
  }

  /** The box of a position from its column and row bands. */
  lemma BoxOfParts(p: nat)
    requires p < 81
    ensures BoxOf(p) == (ColOf(p) / 3) * 3 + RowOf(p) / 3
    ensures BoxOf(p) / 3 == ColOf(p) / 3 && BoxOf(p) % 3 == RowOf(p) / 3
  {
    var c, r := ColOf(p), RowOf(p);
    assert p == (c / 3) * 27 + ((c % 3) * 9 + r);
    DivMod27(c / 3, (c % 3) * 9 + r);
    DivMod3(c / 3, r / 3);
  }

  /** The position of the `k`-th cell of group `x`, in the order the source
      walks it: a column top to bottom, a row left to right, a box column by
      column. */
  function Slot(kind: Kind, x: nat, k: nat): (p: nat)
    requires x < 9 && k < 9
    ensures p < 81 && InGroup(kind, x, p)
  {
    match kind
    case ColumnKind => x * 9 + k
    case RowKind => x + k * 9
    case BoxKind =>
      BoxSlot(x, k);
      (x / 3) * 27 + (x % 3) * 3 + (k / 3) * 9 + k % 3
  }

  /** Column and row of the `k`-th cell of box `x`. */
  lemma BoxSlot(x: nat, k: nat)
    requires x < 9 && k < 9
    ensures var p := (x / 3) * 27 + (x % 3) * 3 + (k / 3) * 9 + k % 3;
      p < 81 && ColOf(p) == (x / 3) * 3 + k / 3 && RowOf(p) == (x % 3) * 3 + k % 3 && BoxOf(p) == x
  {
    var c := (x / 3) * 3 + k / 3;
    var r := (x % 3) * 3 + k % 3;
    var p := (x / 3) * 27 + (x % 3) * 3 + (k / 3) * 9 + k % 3;
    assert p == c * 9 + r;
    DivMod9(c, r);
    DivMod3(x / 3, k / 3);
    DivMod3(x % 3, k % 3);
    assert c / 3 == x / 3;
    assert r / 3 == x % 3;
  }

  /** The group of a position, and its place in that group. */
  function GroupOf(kind: Kind, p: nat): (x: nat)
    requires p < 81
    ensures x < 9 && InGroup(kind, x, p)
  {
    match kind
    case BoxKind => BoxOf(p)
    case RowKind => RowOf(p)
    case ColumnKind => ColOf(p)
  }

  function PlaceIn(kind: Kind, p: nat): (k: nat)
    requires p < 81
    ensures k < 9
  {
    match kind
    case BoxKind => (ColOf(p) % 3) * 3 + RowOf(p) % 3
    case RowKind => ColOf(p)
    case ColumnKind => RowOf(p)
  }

  /** Every position is in exactly one group of each kind, at exactly one
      place: `Slot` is a bijection between (group, place) and positions. */
  lemma SlotBijective(kind: Kind, p: nat)
    requires p < 81
    ensures Slot(kind, GroupOf(kind, p), PlaceIn(kind, p)) == p
    ensures forall x: nat, k: nat :: x < 9 && k < 9 && Slot(kind, x, k) == p ==>
      x == GroupOf(kind, p) && k == PlaceIn(kind, p)
  {
    match kind
    case BoxKind =>
      BoxPlaceRoundTrip(p);
      forall x: nat, k: nat | x < 9 && k < 9 && Slot(kind, x, k) == p
        ensures x == GroupOf(kind, p) && k == PlaceIn(kind, p)
      {
        BoxSlotInverse(x, k);
      }
    case RowKind =>
      forall x: nat, k: nat | x < 9 && k < 9 && Slot(kind, x, k) == p
        ensures x == GroupOf(kind, p) && k == PlaceIn(kind, p)
      {
        DivMod9(k, x);
      }
    case ColumnKind =>
      forall x: nat, k: nat | x < 9 && k < 9 && Slot(kind, x, k) == p
        ensures x == GroupOf(kind, p) && k == PlaceIn(kind, p)
      {
        DivMod9(x, k);
      }
  }

  lemma BoxPlaceRoundTrip(p: nat)
    requires p < 81
    ensures Slot(BoxKind, BoxOf(p), PlaceIn(BoxKind, p)) == p
  {
    var c, r := ColOf(p), RowOf(p);
    var x, k := BoxOf(p), PlaceIn(BoxKind, p);
    DivMod3(c / 3, r / 3);
    DivMod3(c % 3, r % 3);
    assert x / 3 == c / 3 && x % 3 == r / 3;
    assert k / 3 == c % 3 && k % 3 == r % 3;
    assert p == c * 9 + r;
  }

  lemma BoxSlotInverse(x: nat, k: nat)
    requires x < 9 && k < 9
    ensures var p := Slot(BoxKind, x, k); BoxOf(p) == x && PlaceIn(BoxKind, p) == k
  {
    BoxSlot(x, k);
    DivMod3(x / 3, k / 3);
    DivMod3(x % 3, k % 3);
  }

  lemma SlotInjective(kind: Kind, x: nat, k: nat, k': nat)
    requires x < 9 && k < 9 && k' < 9 && Slot(kind, x, k) == Slot(kind, x, k')
    ensures k == k'
  {
    SlotBijective(kind, Slot(kind, x, k));
  }

  /** Cells of one group are peers of each other. */
  lemma GroupMembersArePeers(kind: Kind, x: nat, k: nat, k': nat)
    requires x < 9 && k < 9 && k' < 9 && k != k'
    ensures Peer(Slot(kind, x, k), Slot(kind, x, k'))
  {
    if Slot(kind, x, k) == Slot(kind, x, k') {
      SlotInjective(kind, x, k, k');
    }
  }
}
