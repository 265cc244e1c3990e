/** Sequences and strings as the solver handles them: JavaScript's `filter`,
    its default `sort` (lexicographic on strings, stable), `join`, and the
    "keep the first of each run" filter that the source writes as
    `.filter((el, pos, arr) => !pos || el !== arr[pos - 1])`. */
module Lists {

  datatype Option<+T> = None | Some(value: T)

  /** `xs.filter(p)`. */
  function Filter<T(==,!new)>(xs: seq<T>, p: T -> bool): (r: seq<T>)
    ensures |r| <= |xs|
    ensures forall x :: x in r <==> x in xs && p(x)
  {
    if xs == [] then [] else (if p(xs[0]) then [xs[0]] else []) + Filter(xs[1..], p)
  }

  /** Filtering a list without duplicates leaves none. */
  lemma {:induction false} FilterNoDup<T(!new)>(xs: seq<T>, p: T -> bool)
    requires NoDup(xs)
    ensures NoDup(Filter(xs, p))
  {
    if xs != [] {
      assert NoDup(xs[1..]);
      FilterNoDup(xs[1..], p);
      assert xs[0] !in xs[1..];
      assert xs[0] !in Filter(xs[1..], p);
    }
  }

  /** Filtering distributes over concatenation. */
  lemma {:induction false} FilterAppend<T(!new)>(xs: seq<T>, ys: seq<T>, p: T -> bool)
    ensures Filter(xs + ys, p) == Filter(xs, p) + Filter(ys, p)
  {
    if xs == [] {
      assert xs + ys == ys;
    } else {
      assert (xs + ys)[0] == xs[0] && (xs + ys)[1..] == xs[1..] + ys;
      FilterAppend(xs[1..], ys, p);
    }
  }

  /** Filtering keeps a list whose every element passes. */
  lemma {:induction false} FilterAll<T(!new)>(xs: seq<T>, p: T -> bool)
    requires forall x :: x in xs ==> p(x)
    ensures Filter(xs, p) == xs
  {
    if xs != [] {
      FilterAll(xs[1..], p);
    }
  }

  /** Filtering keeps nothing of a list whose every element fails. */
  lemma {:induction false} FilterNone<T(!new)>(xs: seq<T>, p: T -> bool)
    requires forall x :: x in xs ==> !p(x)
    ensures Filter(xs, p) == []
  {
    if xs != [] {
      FilterNone(xs[1..], p);
    }
  }

  /** `parts(0) + parts(1) + ... + parts(x - 1)`: a list built by appending
      one part per pass of a loop. */
  function Concat<T>(parts: nat -> seq<T>, x: nat): seq<T>
  {
    if x == 0 then [] else Concat(parts, x - 1) + parts(x - 1)
  }

  /** Every element of such a list comes from one of the parts. */
  lemma {:induction false} ConcatMember<T>(parts: nat -> seq<T>, x: nat, e: T) returns (y: nat)
    requires e in Concat(parts, x)
    ensures y < x && e in parts(y)
  {
    if e in Concat(parts, x - 1) {
      y := ConcatMember(parts, x - 1, e);
    } else {
      y := x - 1;
    }
  }

  /** `xs.filter((el) => el !== x)`. */
  function Drop(xs: seq<string>, x: string): (r: seq<string>)
    ensures forall y :: y in r <==> y in xs && y != x
    ensures NoDup(xs) ==> NoDup(r)
    ensures NoDup(xs) && x in xs ==> |r| == |xs| - 1
    ensures x !in xs ==> r == xs
  {
    if xs == [] then []
    else
      var rest := Drop(xs[1..], x);
      assert xs[0] !in xs[1..] ==> xs[0] !in rest;
      (if xs[0] == x then [] else [xs[0]]) + rest
  }

  function ToSet<T(==,!new)>(s: seq<T>): (r: set<T>)
    ensures forall x :: x in r <==> x in s
  {
    set x | x in s
  }

  ghost predicate NoDup<T>(s: seq<T>)
  {
    forall i, j :: 0 <= i < j < |s| ==> s[i] != s[j]
  }

  lemma NoDupSnoc<T>(s: seq<T>, x: T)
    requires NoDup(s) && x !in s
    ensures NoDup(s + [x])
  {
    var t := s + [x];
    forall i, j | 0 <= i < j < |t| ensures t[i] != t[j] {
      assert t[i] == s[i];
    }
  }

  lemma {:induction false} NoDupCard<T(!new)>(s: seq<T>)
    requires NoDup(s)
    ensures |ToSet(s)| == |s|
  {
    if s != [] {
      var t := s[1..];
      assert NoDup(t);
      NoDupCard(t);
      assert s[0] !in t;
      assert ToSet(s) == ToSet(t) + {s[0]};
    }
  }

  /** `['a', 'b'].join('')`. */
  function Join(xs: seq<string>): (r: string)
    ensures |xs| == 0 ==> r == ""
  {
    if xs == [] then "" else xs[0] + Join(xs[1..])
  }

  // ---------------------------------------------------------------------
  // Lexicographic order on strings: the comparison JavaScript's default
  // `sort` and the operators `<` / `>` on two strings perform.
  // ---------------------------------------------------------------------

  predicate Less(a: string, b: string)
  {
    if a == [] then b != []
    else if b == [] then false
    else if a[0] != b[0] then a[0] < b[0]
    else Less(a[1..], b[1..])
  }

  predicate LessEq(a: string, b: string)
  {
    a == b || Less(a, b)
  }

  lemma {:induction false} LessIrreflexive(a: string)
    ensures !Less(a, a)
  {
    if a != [] {
      LessIrreflexive(a[1..]);
    }
  }

  lemma {:induction false} LessAsymmetric(a: string, b: string)
    requires Less(a, b)
    ensures !Less(b, a)
  {
    if a != [] && b != [] && a[0] == b[0] {
      LessAsymmetric(a[1..], b[1..]);
    }
  }

  lemma {:induction false} LessTransitive(a: string, b: string, c: string)
    requires Less(a, b) && Less(b, c)
    ensures Less(a, c)
  {
    if a != [] && a[0] == b[0] && b[0] == c[0] {
      LessTransitive(a[1..], b[1..], c[1..]);
    }
  }

  lemma {:induction false} LessTotal(a: string, b: string)
    ensures Less(a, b) || a == b || Less(b, a)
  {
    if a != [] && b != [] && a[0] == b[0] {
      LessTotal(a[1..], b[1..]);
      if a[1..] == b[1..] {
        assert a == [a[0]] + a[1..] && b == [b[0]] + b[1..];
      }
    }
  }

  lemma LessEqAntisymmetric(a: string, b: string)
    requires LessEq(a, b) && LessEq(b, a)
    ensures a == b
  {
    if a != b {
      LessAsymmetric(a, b);
    }
  }

  lemma LessEqTransitive(a: string, b: string, c: string)
    requires LessEq(a, b) && LessEq(b, c)
    ensures LessEq(a, c)
  {
    if a != b && b != c {
      LessTransitive(a, b, c);
    }
  }

  // ---------------------------------------------------------------------
  // Sorting. The source sorts either with the default comparison (whole
  // strings) or, for cell ids, by the row character `id[1]` alone. Both
  // sorts are stable, as JavaScript's `Array.prototype.sort` is.
  // ---------------------------------------------------------------------

  /** The sort key: the whole string, or its second character (a cell's row). */
  function Key(s: string, byRow: bool): string
  {
    if !byRow then s else if |s| >= 2 then s[1..2] else ""
  }

  function Insert(x: string, s: seq<string>, byRow: bool): (r: seq<string>)
    ensures multiset(r) == multiset(s) + multiset{x}
    ensures |r| == |s| + 1
  {
    if s == [] then [x]
    else if LessEq(Key(x, byRow), Key(s[0], byRow)) then [x] + s
    else
      assert s == [s[0]] + s[1..];
      [s[0]] + Insert(x, s[1..], byRow)
  }

  function SortBy(xs: seq<string>, byRow: bool): (r: seq<string>)
    ensures multiset(r) == multiset(xs)
    ensures |r| == |xs|
  {
    if xs == [] then []
    else
      assert xs == [xs[0]] + xs[1..];
      Insert(xs[0], SortBy(xs[1..], byRow), byRow)
  }

  /** `xs.sort()` on an array of strings. */
  function Sort(xs: seq<string>): seq<string>
  {
    SortBy(xs, false)
  }

  ghost predicate SortedBy(s: seq<string>, byRow: bool)
  {
    forall i, j :: 0 <= i < j < |s| ==> LessEq(Key(s[i], byRow), Key(s[j], byRow))
  }

  lemma {:induction false} InsertSorted(x: string, s: seq<string>, byRow: bool)
    requires SortedBy(s, byRow)
    ensures SortedBy(Insert(x, s, byRow), byRow)
  {
    var r := Insert(x, s, byRow);
    if s == [] {
    } else if LessEq(Key(x, byRow), Key(s[0], byRow)) {
      SortedCons(x, s, byRow);
    } else {
      var t := s[1..];
      InsertSorted(x, t, byRow);
      var u := Insert(x, t, byRow);
      assert r == [s[0]] + u;
      LessTotal(Key(x, byRow), Key(s[0], byRow));
      InsertAbove(x, t, Key(s[0], byRow), byRow);
      forall i, j | 0 <= i < j < |r|
        ensures LessEq(Key(r[i], byRow), Key(r[j], byRow))
      {
        if i == 0 {
          assert r[j] == u[j - 1];
        } else {
          assert r[i] == u[i - 1] && r[j] == u[j - 1];
        }
      }
    }
  }

  lemma SortedCons(x: string, s: seq<string>, byRow: bool)
    requires SortedBy(s, byRow) && s != [] && LessEq(Key(x, byRow), Key(s[0], byRow))
    ensures SortedBy([x] + s, byRow)
  {
    var r := [x] + s;
    forall i, j | 0 <= i < j < |r|
      ensures LessEq(Key(r[i], byRow), Key(r[j], byRow))
    {
      if i == 0 {
        LessEqTransitive(Key(x, byRow), Key(s[0], byRow), Key(s[j - 1], byRow));
      } else {
        assert r[i] == s[i - 1] && r[j] == s[j - 1];
      }
    }
  }

  /** Inserting a key no smaller than `lo` among keys no smaller than `lo`
      keeps every key at least `lo`. */
  lemma InsertAbove(x: string, t: seq<string>, lo: string, byRow: bool)
    requires LessEq(lo, Key(x, byRow))
    requires forall k :: 0 <= k < |t| ==> LessEq(lo, Key(t[k], byRow))
    ensures forall k :: 0 <= k < |Insert(x, t, byRow)| ==> LessEq(lo, Key(Insert(x, t, byRow)[k], byRow))
  {
    var u := Insert(x, t, byRow);
    forall k | 0 <= k < |u| ensures LessEq(lo, Key(u[k], byRow)) {
      assert u[k] in multiset(u);
      if u[k] != x {
        assert u[k] in multiset(t);
        var m :| 0 <= m < |t| && t[m] == u[k];
      }
    }
  }

  lemma {:induction false} SortBySorted(xs: seq<string>, byRow: bool)
    ensures SortedBy(SortBy(xs, byRow), byRow)
  {
    if xs != [] {
      SortBySorted(xs[1..], byRow);
      InsertSorted(xs[0], SortBy(xs[1..], byRow), byRow);
    }
  }

  /** Two sorted sequences with the same elements are the same sequence. */
  lemma {:induction false} SortedUnique(s: seq<string>, t: seq<string>)
    requires SortedBy(s, false) && SortedBy(t, false) && multiset(s) == multiset(t)
    ensures s == t
  {
    if s != [] {
      SameHead(s, t);
      SortedTail(s);
      SortedTail(t);
      assert multiset(s[1..]) == multiset(t[1..]) by {
        assert s == [s[0]] + s[1..] && t == [t[0]] + t[1..];
        assert multiset(s[1..]) == multiset(s) - multiset{s[0]};
        assert multiset(t[1..]) == multiset(t) - multiset{t[0]};
      }
      SortedUnique(s[1..], t[1..]);
      assert s == [s[0]] + s[1..] && t == [t[0]] + t[1..];
    }
  }

  lemma SameHead(s: seq<string>, t: seq<string>)
    requires SortedBy(s, false) && SortedBy(t, false) && multiset(s) == multiset(t) && s != []
    ensures t != [] && s[0] == t[0]
  {
    assert |t| == |multiset(t)| == |multiset(s)| == |s|;
    assert s[0] in multiset(t) && t[0] in multiset(s);
    var j :| 0 <= j < |t| && t[j] == s[0];
    var k :| 0 <= k < |s| && s[k] == t[0];
    assert LessEq(t[0], s[0]) by { assert j == 0 || LessEq(t[0], t[j]); }
    assert LessEq(s[0], t[0]) by { assert k == 0 || LessEq(s[0], s[k]); }
    LessEqAntisymmetric(s[0], t[0]);
  }

  lemma SortedTail(s: seq<string>)
    requires SortedBy(s, false) && s != []
    ensures SortedBy(s[1..], false)
  {
    forall i, j | 0 <= i < j < |s| - 1 ensures LessEq(Key(s[1..][i], false), Key(s[1..][j], false)) {
      assert s[1..][i] == s[i + 1] && s[1..][j] == s[j + 1];
    }
  }

  /** Sorting two strings puts the smaller first. */
  lemma SortTwo(a: string, b: string)
    ensures Sort([a, b]) == if LessEq(a, b) then [a, b] else [b, a]
  {
    assert [a, b][1..] == [b] && [b][1..] == [];
  }

  lemma SortElems(xs: seq<string>, byRow: bool)
    ensures forall x :: x in SortBy(xs, byRow) <==> x in xs
  {
    var r := SortBy(xs, byRow);
    forall x ensures x in r <==> x in xs {
      assert x in r <==> x in multiset(r);
      assert x in xs <==> x in multiset(xs);
    }
  }

  // ---------------------------------------------------------------------
  // Runs of equal neighbours.
  // ---------------------------------------------------------------------

  /** `xs.filter((el, pos, arr) => !pos || el !== arr[pos - 1])`: keeps the
      first element of every run of equal neighbours. */
  function Uniq(xs: seq<string>): (r: seq<string>)
    ensures |r| <= |xs|
    ensures forall x :: x in r <==> x in xs
    ensures |xs| > 0 ==> |r| > 0 && r[0] == xs[0]
  {
    if |xs| <= 1 then xs
    else
      var n := |xs|;
      assert xs == xs[..n - 1] + [xs[n - 1]];
      Uniq(xs[..n - 1]) + (if xs[n - 1] != xs[n - 2] then [xs[n - 1]] else [])
  }

  lemma {:induction false} UniqNoDup(xs: seq<string>)
    requires SortedBy(xs, false)
    ensures NoDup(Uniq(xs))
  {
    if |xs| > 1 {
      var n := |xs|;
      var init := xs[..n - 1];
      assert SortedBy(init, false);
      UniqNoDup(init);
      if xs[n - 1] != xs[n - 2] {
        var u := Uniq(init);
        forall k | 0 <= k < |u|
          ensures u[k] != xs[n - 1]
        {
          var y := u[k];
          assert y in init;
          var m :| 0 <= m < n - 1 && init[m] == y;
          if y == xs[n - 1] {
            assert LessEq(xs[m], xs[n - 2]);
            assert LessEq(xs[n - 2], xs[n - 1]);
            LessEqAntisymmetric(xs[n - 2], xs[n - 1]);
          }
        }
      }
    }
  }

  /** The count the source compares against 2, 3 or 4 after
      `.sort().filter(...)` is the number of distinct elements. */
  lemma DistinctCount(xs: seq<string>)
    ensures |Uniq(Sort(xs))| == |ToSet(xs)|
    ensures forall x :: x in Uniq(Sort(xs)) <==> x in xs
  {
    SortBySorted(xs, false);
    UniqNoDup(Sort(xs));
    NoDupCard(Uniq(Sort(xs)));
    SortElems(xs, false);
    assert ToSet(Uniq(Sort(xs))) == ToSet(xs);
  }

  /** Every element of a duplicate-free `chosen` occurs in `cs`: then some
      ascending positions of `cs` hold exactly the elements of `chosen`. */
  lemma Positions<T(!new)>(cs: seq<T>, chosen: seq<T>) returns (idx: seq<nat>)
    requires NoDup(chosen) && forall j :: 0 <= j < |chosen| ==> chosen[j] in cs
    ensures |idx| == |chosen|
    ensures forall j :: 0 <= j < |idx| ==> idx[j] < |cs|
    ensures forall j :: 0 < j < |idx| ==> idx[j - 1] < idx[j]
    ensures forall x :: x in chosen <==> exists j :: 0 <= j < |idx| && cs[idx[j]] == x
  {
    idx := [];
    var im: seq<T> := [];
    for i := 0 to |cs|
      invariant |im| == |idx| && NoDup(im)
      invariant forall j :: 0 <= j < |idx| ==> idx[j] < i && im[j] == cs[idx[j]]
      invariant forall j :: 0 < j < |idx| ==> idx[j - 1] < idx[j]
      invariant forall x :: x in im <==> x in chosen && x in cs[..i]
    {
      assert cs[..i + 1] == cs[..i] + [cs[i]];
      if cs[i] in chosen && cs[i] !in im {
        NoDupSnoc(im, cs[i]);
        idx := idx + [i];
        im := im + [cs[i]];
      }
    }
    assert cs[..|cs|] == cs;
    assert ToSet(im) == ToSet(chosen);
    NoDupCard(im);
    NoDupCard(chosen);
    forall x | x in chosen ensures exists j :: 0 <= j < |idx| && cs[idx[j]] == x {
      var j :| 0 <= j < |im| && im[j] == x;
    }
  }

  /** No two positions hold the same element of a duplicate-free list. */
  lemma MultisetNoDup<T>(s: seq<T>, t: seq<T>)
    requires multiset(s) == multiset(t) && NoDup(s)
    ensures NoDup(t)
  {
    forall i, j | 0 <= i < j < |t| ensures t[i] != t[j] {
      if t[i] == t[j] {
        var x := t[i];
        assert t == t[..j] + t[j..];
        assert x in t[..j] && x in t[j..];
        assert multiset(t)[x] >= 2;
        NoDupCount(s, x);
        assert false;
      }
    }
  }

  lemma {:induction false} NoDupCount<T>(s: seq<T>, x: T)
    requires NoDup(s)
    ensures multiset(s)[x] <= 1
  {
    if s != [] {
      assert s == [s[0]] + s[1..];
      assert NoDup(s[1..]) by {
        forall i, j | 0 <= i < j < |s[1..]| ensures s[1..][i] != s[1..][j] {
          assert s[1..][i] == s[i + 1] && s[1..][j] == s[j + 1];
        }
      }
      NoDupCount(s[1..], x);
      if s[0] == x {
        assert x !in s[1..];
      }
    }
  }

  /** `sorted.filter((x, pos, arr) => pos && arr[pos - 1] === x)`: every
      element that equals the one before it. */
  function Repeats(xs: seq<string>): (r: seq<string>)
    ensures |r| <= |xs|
    ensures forall v :: v in r <==> exists p :: 0 < p < |xs| && xs[p - 1] == v && xs[p] == v
  {
    if |xs| <= 1 then []
    else
      var n := |xs|;
      var init := xs[..n - 1];
      assert forall p :: 0 <= p < n - 1 ==> init[p] == xs[p];
      Repeats(init) + (if xs[n - 1] == xs[n - 2] then [xs[n - 1]] else [])
  }

  /** In a list of copies of one value, every position after the first
      repeats it. */
  lemma {:induction false} ConstantRepeats(xs: seq<string>, v: string)
    requires xs != [] && forall k :: 0 <= k < |xs| ==> xs[k] == v
    ensures |Repeats(xs)| == |xs| - 1
  {
    if |xs| > 1 {
      ConstantRepeats(xs[..|xs| - 1], v);
    }
  }

  /** In a sorted list, equal elements at two positions are neighbours of a
      run, so the value shows among the repeats. */
  lemma SortedRepeat(t: seq<string>, i: nat, j: nat)
    requires SortedBy(t, false) && i < j < |t| && t[i] == t[j]
    ensures t[i] in Repeats(t)
  {
    if i + 1 < j {
      assert LessEq(Key(t[i], false), Key(t[i + 1], false));
      assert LessEq(Key(t[i + 1], false), Key(t[j], false));
      LessEqAntisymmetric(t[i], t[i + 1]);
    }
    assert t[i] == t[i + 1];
  }

  /** No repeat after sorting: the elements are distinct. */
  lemma NoRepeatsDistinct(xs: seq<string>)
    requires Repeats(Sort(xs)) == []
    ensures NoDup(xs)
  {
    var t := Sort(xs);
    SortBySorted(xs, false);
    forall i, j | 0 <= i < j < |t|
      ensures t[i] != t[j]
    {
      if t[i] == t[j] {
        SortedRepeat(t, i, j);
      }
    }
    MultisetNoDup(t, xs);
  }

  /** Two positions holding one value count it twice. */
  lemma TwiceCounted<T>(t: seq<T>, a: nat, b: nat)
    requires a < b < |t| && t[a] == t[b]
    ensures multiset(t)[t[a]] >= 2
  {
    assert t == t[..b] + t[b..];
    assert t[a] in t[..b] && t[b] in t[b..];
  }

  /** A value counted twice sits at two positions. */
  lemma TwoPositions<T>(xs: seq<T>, v: T) returns (i: nat, j: nat)
    requires multiset(xs)[v] >= 2
    ensures i < j < |xs| && xs[i] == v && xs[j] == v
  {
    assert v in multiset(xs);
    i :| 0 <= i < |xs| && xs[i] == v;
    var rest := xs[..i] + xs[i + 1..];
    assert xs == xs[..i] + [xs[i]] + xs[i + 1..];
    assert v in multiset(rest);
    var q :| 0 <= q < |rest| && rest[q] == v;
    if q < i {
      j := i;
      i := q;
    } else {
      j := q + 1;
    }
  }

  /** A repeat after sorting occurs twice in the list. */
  lemma RepeatedTwice(xs: seq<string>, v: string) returns (i: nat, j: nat)
    requires v in Repeats(Sort(xs))
    ensures i < j < |xs| && xs[i] == v && xs[j] == v
  {
    var t := Sort(xs);
    var p :| 0 < p < |t| && t[p - 1] == v && t[p] == v;
    TwiceCounted(t, p - 1, p);
    i, j := TwoPositions(xs, v);
  }
}
