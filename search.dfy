/** The search loops of the solver. Every `check*` technique walks a range
    of indices (`for (let i = 0; ...)`), pairs, triples or quadruples of
    indices (`for (let a ...) for (let b = a + 1 ...)`), or a grid of
    groups and group kinds, and returns the first result that is not
    `false`. The functions below define that result; the methods are the
    loops, proved to compute it. */
module Search {
  import opened Lists

  // ---------------------------------------------------------------------
  // for (let i = from; i < n; i += 1)
  // ---------------------------------------------------------------------

  function FirstFrom<R>(n: nat, f: nat -> Option<R>, i: nat): Option<R>
    decreases n - i
  {
    if i >= n then None
    else if f(i).Some? then f(i)
    else FirstFrom(n, f, i + 1)
  }

  /** The search finds nothing iff no index yields a result. */
  lemma {:induction false} FirstFromNone<R>(n: nat, f: nat -> Option<R>, i: nat)
    ensures FirstFrom(n, f, i) == None <==> forall k :: i <= k < n ==> f(k) == None
    decreases n - i
  {
    if i < n && f(i).None? {
      FirstFromNone(n, f, i + 1);
    }
  }

  /** A result is the value at some index, and every earlier index yielded
      nothing. */
  lemma {:induction false} FirstFromSome<R>(n: nat, f: nat -> Option<R>, i: nat)
    ensures FirstFrom(n, f, i).Some? ==>
      exists k :: i <= k < n && f(k) == FirstFrom(n, f, i) &&
        forall j :: i <= j < k ==> f(j) == None
    decreases n - i
  {
    if i < n && f(i).None? {
      FirstFromSome(n, f, i + 1);
      if FirstFrom(n, f, i + 1).Some? {
        var k :| i + 1 <= k < n && f(k) == FirstFrom(n, f, i + 1) &&
          forall j :: i + 1 <= j < k ==> f(j) == None;
        assert forall j :: i <= j < k ==> f(j) == None;
      }
    }
  }

  method FindFirst<R>(n: nat, f: nat -> Option<R>) returns (r: Option<R>)
    ensures r == FirstFrom(n, f, 0)
  {
    var i := 0;
    while i < n
      invariant i <= n
      invariant FirstFrom(n, f, 0) == FirstFrom(n, f, i)
    {
      var v := f(i);
      if v.Some? {
        return v;
      }
      i := i + 1;
    }
    return None;
  }

  /** The same walk over the elements of a list. */
  function FirstOf<T, R>(xs: seq<T>, f: T -> Option<R>): (r: Option<R>)
    ensures r.None? <==> forall k :: 0 <= k < |xs| ==> f(xs[k]).None?
  {
    if xs == [] then None
    else if f(xs[0]).Some? then f(xs[0])
    else
      assert forall k :: 0 < k < |xs| ==> xs[k] == xs[1..][k - 1];
      FirstOf(xs[1..], f)
  }

  /** A result is the value of some element, and every earlier element
      yielded nothing. */
  lemma {:induction false} FirstOfSome<T, R>(xs: seq<T>, f: T -> Option<R>)
    ensures FirstOf(xs, f).Some? ==>
      exists k :: 0 <= k < |xs| && f(xs[k]) == FirstOf(xs, f) && forall j :: 0 <= j < k ==> f(xs[j]).None?
  {
    if xs != [] && f(xs[0]).None? {
      var r := FirstOf(xs[1..], f);
      FirstOfSome(xs[1..], f);
      if r.Some? {
        var k :| 0 <= k < |xs| - 1 && f(xs[1..][k]) == r && forall j :: 0 <= j < k ==> f(xs[1..][j]).None?;
        assert f(xs[k + 1]) == r;
        assert forall j :: 0 < j < k + 1 ==> xs[j] == xs[1..][j - 1];
      }
    }
  }

  /** One step of a loop over the list. */
  lemma FirstOfStep<T, R>(xs: seq<T>, f: T -> Option<R>, i: nat)
    requires i < |xs| && f(xs[i]).None?
    ensures FirstOf(xs[i..], f) == FirstOf(xs[i + 1..], f)
  {
    assert xs[i..][1..] == xs[i + 1..];
  }

  // ---------------------------------------------------------------------
  // for (let a = 0; a < n; a += 1) for (let b = a + 1; b < n; b += 1)
  // ---------------------------------------------------------------------

  function PairFrom<R>(n: nat, f: (nat, nat) -> Option<R>, a: nat, b: nat): Option<R>
    decreases n - a, n - b
  {
    if a >= n then None
    else if b >= n then PairFrom(n, f, a + 1, a + 2)
    else if f(a, b).Some? then f(a, b)
    else PairFrom(n, f, a, b + 1)
  }

  /** The pair search finds nothing iff no pair it visits yields a result. */
  lemma {:induction false} PairFromNone<R>(n: nat, f: (nat, nat) -> Option<R>, a: nat, b: nat)
    requires a < b
    ensures PairFrom(n, f, a, b) == None <==>
      (forall q :: b <= q < n ==> f(a, q) == None) &&
      (forall p, q :: a < p < q < n ==> f(p, q) == None)
    decreases n - a, n - b
  {
    if a >= n {
    } else if b >= n {
      PairFromNone(n, f, a + 1, a + 2);
    } else if f(a, b).None? {
      PairFromNone(n, f, a, b + 1);
    }
  }

  /** A result of the pair search is the value at some pair p < q. */
  lemma {:induction false} PairFromSome<R>(n: nat, f: (nat, nat) -> Option<R>, a: nat, b: nat)
    requires a < b
    ensures PairFrom(n, f, a, b).Some? ==>
      exists p, q :: a <= p < q < n && f(p, q) == PairFrom(n, f, a, b)
    decreases n - a, n - b
  {
    if a >= n {
    } else if b >= n {
      PairFromSome(n, f, a + 1, a + 2);
    } else if f(a, b).None? {
      PairFromSome(n, f, a, b + 1);
    }
  }

  method FindPair<R>(n: nat, f: (nat, nat) -> Option<R>) returns (r: Option<R>)
    ensures r == PairFrom(n, f, 0, 1)
  {
    var a := 0;
    while a < n
      invariant a <= n
      invariant PairFrom(n, f, 0, 1) == PairFrom(n, f, a, a + 1)
    {
      var b := a + 1;
      while b < n
        invariant b <= n
        invariant PairFrom(n, f, 0, 1) == PairFrom(n, f, a, b)
      {
        var v := f(a, b);
        if v.Some? {
          return v;
        }
        b := b + 1;
      }
      a := a + 1;
    }
    return None;
  }

  // ---------------------------------------------------------------------
  // Three nested loops a < b < c.
  // ---------------------------------------------------------------------

  function TripleFrom<R>(n: nat, f: (nat, nat, nat) -> Option<R>, a: nat, b: nat, c: nat): Option<R>
    decreases n - a, n - b, n - c
  {
    if a >= n then None
    else if b >= n then TripleFrom(n, f, a + 1, a + 2, a + 3)
    else if c >= n then TripleFrom(n, f, a, b + 1, b + 2)
    else if f(a, b, c).Some? then f(a, b, c)
    else TripleFrom(n, f, a, b, c + 1)
  }

  lemma {:induction false} TripleFromSome<R>(n: nat, f: (nat, nat, nat) -> Option<R>, a: nat, b: nat, c: nat)
    requires a < b < c
    ensures TripleFrom(n, f, a, b, c).Some? ==>
      exists p, q, s :: a <= p < q < s < n && f(p, q, s) == TripleFrom(n, f, a, b, c)
    decreases n - a, n - b, n - c
  {
    if a >= n {
    } else if b >= n {
      TripleFromSome(n, f, a + 1, a + 2, a + 3);
    } else if c >= n {
      TripleFromSome(n, f, a, b + 1, b + 2);
    } else if f(a, b, c).None? {
      TripleFromSome(n, f, a, b, c + 1);
    }
  }

  /** When the triple search from (a, b, c) finds nothing, no triple it
      visits yields a result. */
  lemma {:induction false} TripleFromNone<R>(n: nat, f: (nat, nat, nat) -> Option<R>, a: nat, b: nat, c: nat)
    requires a < b < c
    ensures TripleFrom(n, f, a, b, c) == None ==>
      (forall s :: c <= s < n ==> f(a, b, s) == None) &&
      (forall q, s :: b < q < s < n ==> f(a, q, s) == None) &&
      (forall p, q, s :: a < p < q < s < n ==> f(p, q, s) == None)
    decreases n - a, n - b, n - c
  {
    if a >= n {
    } else if b >= n {
      TripleFromNone(n, f, a + 1, a + 2, a + 3);
    } else if c >= n {
      TripleFromNone(n, f, a, b + 1, b + 2);
    } else if f(a, b, c).None? {
      TripleFromNone(n, f, a, b, c + 1);
    }
  }

  /** The whole triple search finds nothing iff no triple does. */
  lemma TripleNone<R>(n: nat, f: (nat, nat, nat) -> Option<R>)
    ensures TripleFrom(n, f, 0, 1, 2) == None <==> forall p: nat, q: nat, s: nat :: p < q < s < n ==> f(p, q, s) == None
  {
    TripleFromNone(n, f, 0, 1, 2);
    TripleFromSome(n, f, 0, 1, 2);
  }

  method FindTriple<R>(n: nat, f: (nat, nat, nat) -> Option<R>) returns (r: Option<R>)
    ensures r == TripleFrom(n, f, 0, 1, 2)
  {
    var a := 0;
    while a < n
      invariant a <= n
      invariant TripleFrom(n, f, 0, 1, 2) == TripleFrom(n, f, a, a + 1, a + 2)
    {
      var b := a + 1;
      while b < n
        invariant b <= n
        invariant TripleFrom(n, f, 0, 1, 2) == TripleFrom(n, f, a, b, b + 1)
      {
        var c := b + 1;
        while c < n
          invariant c <= n
          invariant TripleFrom(n, f, 0, 1, 2) == TripleFrom(n, f, a, b, c)
        {
          var v := f(a, b, c);
          if v.Some? {
            return v;
          }
          c := c + 1;
        }
        b := b + 1;
      }
      a := a + 1;
    }
    return None;
  }

  // ---------------------------------------------------------------------
  // Four nested loops a < b < c < d.
  // ---------------------------------------------------------------------

  function QuadFrom<R>(n: nat, f: (nat, nat, nat, nat) -> Option<R>, a: nat, b: nat, c: nat, d: nat): Option<R>
    decreases n - a, n - b, n - c, n - d
  {
    if a >= n then None
    else if b >= n then QuadFrom(n, f, a + 1, a + 2, a + 3, a + 4)
    else if c >= n then QuadFrom(n, f, a, b + 1, b + 2, b + 3)
    else if d >= n then QuadFrom(n, f, a, b, c + 1, c + 2)
    else if f(a, b, c, d).Some? then f(a, b, c, d)
    else QuadFrom(n, f, a, b, c, d + 1)
  }

  lemma {:induction false} QuadFromSome<R>(n: nat, f: (nat, nat, nat, nat) -> Option<R>, a: nat, b: nat, c: nat, d: nat)
    requires a < b < c < d
    ensures QuadFrom(n, f, a, b, c, d).Some? ==>
      exists p, q, s, t :: a <= p < q < s < t < n && f(p, q, s, t) == QuadFrom(n, f, a, b, c, d)
    decreases n - a, n - b, n - c, n - d
  {
    if a >= n {
    } else if b >= n {
      QuadFromSome(n, f, a + 1, a + 2, a + 3, a + 4);
    } else if c >= n {
      QuadFromSome(n, f, a, b + 1, b + 2, b + 3);
    } else if d >= n {
      QuadFromSome(n, f, a, b, c + 1, c + 2);
    } else if f(a, b, c, d).None? {
      QuadFromSome(n, f, a, b, c, d + 1);
    }
  }

  /** When the quad search from (a, b, c, d) finds nothing, no quad it
      visits yields a result. */
  /** `(p, q, s, t)` is a quad the search from `(a, b, c, d)` still visits. */
  predicate QuadAfter(a: nat, b: nat, c: nat, d: nat, p: nat, q: nat, s: nat, t: nat)
  {
    p < q < s < t && (p > a || (p == a && (q > b || (q == b && (s > c || (s == c && t >= d))))))
  }

  lemma {:induction false} QuadFromNone<R>(n: nat, f: (nat, nat, nat, nat) -> Option<R>, a: nat, b: nat, c: nat, d: nat)
    requires a < b < c < d
    ensures QuadFrom(n, f, a, b, c, d) == None ==>
      forall p: nat, q: nat, s: nat, t: nat :: QuadAfter(a, b, c, d, p, q, s, t) && t < n ==> f(p, q, s, t) == None
    decreases n - a, n - b, n - c, n - d
  {
    if a >= n {
    } else if b >= n {
      QuadFromNone(n, f, a + 1, a + 2, a + 3, a + 4);
    } else if c >= n {
      QuadFromNone(n, f, a, b + 1, b + 2, b + 3);
    } else if d >= n {
      QuadFromNone(n, f, a, b, c + 1, c + 2);
    } else if f(a, b, c, d).None? {
      QuadFromNone(n, f, a, b, c, d + 1);
    }
  }

  /** The whole quad search finds nothing iff no quad does. */
  lemma QuadNone<R>(n: nat, f: (nat, nat, nat, nat) -> Option<R>)
    ensures QuadFrom(n, f, 0, 1, 2, 3) == None <==> forall p: nat, q: nat, s: nat, t: nat :: p < q < s < t < n ==> f(p, q, s, t) == None
  {
    QuadFromNone(n, f, 0, 1, 2, 3);
    QuadFromSome(n, f, 0, 1, 2, 3);
  }

  /** A pair, triple or quad that yields a result makes its search yield
      one. */
  lemma PairHit<R>(n: nat, f: (nat, nat) -> Option<R>, p: nat, q: nat)
    requires p < q < n && f(p, q).Some?
    ensures PairFrom(n, f, 0, 1).Some?
  {
    PairNone(n, f);
  }

  lemma TripleHit<R>(n: nat, f: (nat, nat, nat) -> Option<R>, p: nat, q: nat, s: nat)
    requires p < q < s < n && f(p, q, s).Some?
    ensures TripleFrom(n, f, 0, 1, 2).Some?
  {
    TripleNone(n, f);
  }

  lemma QuadHit<R>(n: nat, f: (nat, nat, nat, nat) -> Option<R>, p: nat, q: nat, s: nat, t: nat)
    requires p < q < s < t < n && f(p, q, s, t).Some?
    ensures QuadFrom(n, f, 0, 1, 2, 3).Some?
  {
    QuadNone(n, f);
  }

  /** The whole pair search finds nothing iff no pair does. */
  lemma PairNone<R>(n: nat, f: (nat, nat) -> Option<R>)
    ensures PairFrom(n, f, 0, 1) == None <==> forall p: nat, q: nat :: p < q < n ==> f(p, q) == None
  {
    PairFromNone(n, f, 0, 1);
  }

  method FindQuad<R>(n: nat, f: (nat, nat, nat, nat) -> Option<R>) returns (r: Option<R>)
    ensures r == QuadFrom(n, f, 0, 1, 2, 3)
  {
    var a := 0;
    while a < n
      invariant a <= n
      invariant QuadFrom(n, f, 0, 1, 2, 3) == QuadFrom(n, f, a, a + 1, a + 2, a + 3)
    {
      var b := a + 1;
      while b < n
        invariant b <= n
        invariant QuadFrom(n, f, 0, 1, 2, 3) == QuadFrom(n, f, a, b, b + 1, b + 2)
      {
        var c := b + 1;
        while c < n
          invariant c <= n
          invariant QuadFrom(n, f, 0, 1, 2, 3) == QuadFrom(n, f, a, b, c, c + 1)
        {
          var d := c + 1;
          while d < n
            invariant d <= n
            invariant QuadFrom(n, f, 0, 1, 2, 3) == QuadFrom(n, f, a, b, c, d)
          {
            var v := f(a, b, c, d);
            if v.Some? {
              return v;
            }
            d := d + 1;
          }
          c := c + 1;
        }
        b := b + 1;
      }
      a := a + 1;
    }
    return None;
  }

  /** The indices behind a pair, triple or quad result. */
  lemma PairWitness<R>(n: nat, f: (nat, nat) -> Option<R>) returns (p: nat, q: nat)
    requires PairFrom(n, f, 0, 1).Some?
    ensures p < q < n && f(p, q) == PairFrom(n, f, 0, 1)
  {
    PairFromSome(n, f, 0, 1);
    p, q :| p < q < n && f(p, q) == PairFrom(n, f, 0, 1);
  }

  lemma TripleWitness<R>(n: nat, f: (nat, nat, nat) -> Option<R>) returns (p: nat, q: nat, s: nat)
    requires TripleFrom(n, f, 0, 1, 2).Some?
    ensures p < q < s < n && f(p, q, s) == TripleFrom(n, f, 0, 1, 2)
  {
    TripleFromSome(n, f, 0, 1, 2);
    p, q, s :| p < q < s < n && f(p, q, s) == TripleFrom(n, f, 0, 1, 2);
  }

  lemma QuadWitness<R>(n: nat, f: (nat, nat, nat, nat) -> Option<R>) returns (p: nat, q: nat, s: nat, t: nat)
    requires QuadFrom(n, f, 0, 1, 2, 3).Some?
    ensures p < q < s < t < n && f(p, q, s, t) == QuadFrom(n, f, 0, 1, 2, 3)
  {
    QuadFromSome(n, f, 0, 1, 2, 3);
    p, q, s, t :| p < q < s < t < n && f(p, q, s, t) == QuadFrom(n, f, 0, 1, 2, 3);
  }

  // ---------------------------------------------------------------------
  // The combinations a pair, triple or quad search walks through
  // ---------------------------------------------------------------------

  /** k strictly ascending positions below n: the loop indices of one
      combination. */
  ghost predicate Increasing(idx: seq<nat>, k: nat, n: nat)
  {
    |idx| == k && (forall j :: 0 <= j < k ==> idx[j] < n) && forall j :: 0 < j < k ==> idx[j - 1] < idx[j]
  }

  /** The elements at the given positions. */
  function PickAt<T>(xs: seq<T>, idx: seq<nat>): (r: seq<T>)
    requires forall j :: 0 <= j < |idx| ==> idx[j] < |xs|
    ensures |r| == |idx| && forall j :: 0 <= j < |idx| ==> r[j] == xs[idx[j]]
  {
    seq(|idx|, j requires 0 <= j < |idx| => xs[idx[j]])
  }

  /** k ascending positions below n need n > k - 1. */
  lemma {:induction false} IncreasingFits(idx: seq<nat>, k: nat, n: nat, j: nat)
    requires Increasing(idx, k, n) && j < k
    ensures j <= idx[j] && j < n
  {
    if j > 0 {
      IncreasingFits(idx, k, n, j - 1);
    }
  }

  /** A pair (triple, quad) search over the elements of a list, trying
      each combination with `g`, finds nothing iff no combination of
      ascending positions yields a result. */
  lemma PairsNone<T, R>(xs: seq<T>, k: nat, f: (nat, nat) -> Option<R>, g: seq<T> -> Option<R>)
    requires forall p: nat, q: nat {:trigger f(p, q)} :: p < q < |xs| ==> f(p, q) == g([xs[p], xs[q]])
    requires k == 2
    ensures PairFrom(|xs|, f, 0, 1) == None <==> forall idx :: Increasing(idx, k, |xs|) ==> g(PickAt(xs, idx)) == None
  {
    if PairFrom(|xs|, f, 0, 1) == None {
      PairsMiss(xs, k, f, g);
    } else {
      PairsHit(xs, k, f, g);
    }
  }

  lemma PairsMiss<T, R>(xs: seq<T>, k: nat, f: (nat, nat) -> Option<R>, g: seq<T> -> Option<R>)
    requires forall p: nat, q: nat {:trigger f(p, q)} :: p < q < |xs| ==> f(p, q) == g([xs[p], xs[q]])
    requires k == 2
    requires PairFrom(|xs|, f, 0, 1) == None
    ensures forall idx :: Increasing(idx, k, |xs|) ==> g(PickAt(xs, idx)) == None
  {
    PairNone(|xs|, f);
    forall idx | Increasing(idx, k, |xs|) ensures g(PickAt(xs, idx)) == None {
      PairsAt(xs, k, f, g, idx);
    }
  }

  lemma PairsHit<T, R>(xs: seq<T>, k: nat, f: (nat, nat) -> Option<R>, g: seq<T> -> Option<R>)
    requires forall p: nat, q: nat {:trigger f(p, q)} :: p < q < |xs| ==> f(p, q) == g([xs[p], xs[q]])
    requires k == 2
    requires PairFrom(|xs|, f, 0, 1).Some?
    ensures exists idx :: Increasing(idx, k, |xs|) && g(PickAt(xs, idx)).Some?
  {
    var p, q := PairWitness(|xs|, f);
    PairsSome(xs, k, f, g, p, q);
  }

  lemma PairsSome<T, R>(xs: seq<T>, k: nat, f: (nat, nat) -> Option<R>, g: seq<T> -> Option<R>, p: nat, q: nat)
    requires forall p: nat, q: nat {:trigger f(p, q)} :: p < q < |xs| ==> f(p, q) == g([xs[p], xs[q]])
    requires k == 2
    requires p < q < |xs| && f(p, q).Some?
    ensures exists idx :: Increasing(idx, k, |xs|) && g(PickAt(xs, idx)).Some?
  {
    var idx := [p, q];
    assert PickAt(xs, idx) == [xs[p], xs[q]];
    assert Increasing(idx, k, |xs|);
  }

  lemma PairsAt<T, R>(xs: seq<T>, k: nat, f: (nat, nat) -> Option<R>, g: seq<T> -> Option<R>, idx: seq<nat>)
    requires forall p: nat, q: nat {:trigger f(p, q)} :: p < q < |xs| ==> f(p, q) == g([xs[p], xs[q]])
    requires k == 2
    requires Increasing(idx, k, |xs|)
    ensures g(PickAt(xs, idx)) == f(idx[0], idx[1])
  {
    assert PickAt(xs, idx) == [xs[idx[0]], xs[idx[1]]];
  }

  lemma TriplesNone<T, R>(xs: seq<T>, k: nat, f: (nat, nat, nat) -> Option<R>, g: seq<T> -> Option<R>)
    requires forall p: nat, q: nat, r: nat {:trigger f(p, q, r)} :: p < q < r < |xs| ==> f(p, q, r) == g([xs[p], xs[q], xs[r]])
    requires k == 3
    ensures TripleFrom(|xs|, f, 0, 1, 2) == None <==> forall idx :: Increasing(idx, k, |xs|) ==> g(PickAt(xs, idx)) == None
  {
    if TripleFrom(|xs|, f, 0, 1, 2) == None {
      TriplesMiss(xs, k, f, g);
    } else {
      TriplesHit(xs, k, f, g);
    }
  }

  lemma TriplesMiss<T, R>(xs: seq<T>, k: nat, f: (nat, nat, nat) -> Option<R>, g: seq<T> -> Option<R>)
    requires forall p: nat, q: nat, r: nat {:trigger f(p, q, r)} :: p < q < r < |xs| ==> f(p, q, r) == g([xs[p], xs[q], xs[r]])
    requires k == 3
    requires TripleFrom(|xs|, f, 0, 1, 2) == None
    ensures forall idx :: Increasing(idx, k, |xs|) ==> g(PickAt(xs, idx)) == None
  {
    TripleNone(|xs|, f);
    forall idx | Increasing(idx, k, |xs|) ensures g(PickAt(xs, idx)) == None {
      TriplesAt(xs, k, f, g, idx);
    }
  }

  lemma TriplesHit<T, R>(xs: seq<T>, k: nat, f: (nat, nat, nat) -> Option<R>, g: seq<T> -> Option<R>)
    requires forall p: nat, q: nat, r: nat {:trigger f(p, q, r)} :: p < q < r < |xs| ==> f(p, q, r) == g([xs[p], xs[q], xs[r]])
    requires k == 3
    requires TripleFrom(|xs|, f, 0, 1, 2).Some?
    ensures exists idx :: Increasing(idx, k, |xs|) && g(PickAt(xs, idx)).Some?
  {
    var p, q, r := TripleWitness(|xs|, f);
    TriplesSome(xs, k, f, g, p, q, r);
  }

  lemma TriplesSome<T, R>(xs: seq<T>, k: nat, f: (nat, nat, nat) -> Option<R>, g: seq<T> -> Option<R>, p: nat, q: nat, r: nat)
    requires forall p: nat, q: nat, r: nat {:trigger f(p, q, r)} :: p < q < r < |xs| ==> f(p, q, r) == g([xs[p], xs[q], xs[r]])
    requires k == 3
    requires p < q < r < |xs| && f(p, q, r).Some?
    ensures exists idx :: Increasing(idx, k, |xs|) && g(PickAt(xs, idx)).Some?
  {
    var idx := [p, q, r];
    assert PickAt(xs, idx) == [xs[p], xs[q], xs[r]];
    assert Increasing(idx, k, |xs|);
  }

  lemma TriplesAt<T, R>(xs: seq<T>, k: nat, f: (nat, nat, nat) -> Option<R>, g: seq<T> -> Option<R>, idx: seq<nat>)
    requires forall p: nat, q: nat, r: nat {:trigger f(p, q, r)} :: p < q < r < |xs| ==> f(p, q, r) == g([xs[p], xs[q], xs[r]])
    requires k == 3
    requires Increasing(idx, k, |xs|)
    ensures g(PickAt(xs, idx)) == f(idx[0], idx[1], idx[2])
  {
    assert PickAt(xs, idx) == [xs[idx[0]], xs[idx[1]], xs[idx[2]]];
  }

  lemma QuadsNone<T, R>(xs: seq<T>, k: nat, f: (nat, nat, nat, nat) -> Option<R>, g: seq<T> -> Option<R>)
    requires forall p: nat, q: nat, r: nat, t: nat {:trigger f(p, q, r, t)} :: p < q < r < t < |xs| ==> f(p, q, r, t) == g([xs[p], xs[q], xs[r], xs[t]])
    requires k == 4
    ensures QuadFrom(|xs|, f, 0, 1, 2, 3) == None <==> forall idx :: Increasing(idx, k, |xs|) ==> g(PickAt(xs, idx)) == None
  {
    if QuadFrom(|xs|, f, 0, 1, 2, 3) == None {
      QuadsMiss(xs, k, f, g);
    } else {
      QuadsHit(xs, k, f, g);
    }
  }

  lemma QuadsMiss<T, R>(xs: seq<T>, k: nat, f: (nat, nat, nat, nat) -> Option<R>, g: seq<T> -> Option<R>)
    requires forall p: nat, q: nat, r: nat, t: nat {:trigger f(p, q, r, t)} :: p < q < r < t < |xs| ==> f(p, q, r, t) == g([xs[p], xs[q], xs[r], xs[t]])
    requires k == 4
    requires QuadFrom(|xs|, f, 0, 1, 2, 3) == None
    ensures forall idx :: Increasing(idx, k, |xs|) ==> g(PickAt(xs, idx)) == None
  {
    QuadNone(|xs|, f);
    forall idx | Increasing(idx, k, |xs|) ensures g(PickAt(xs, idx)) == None {
      QuadsAt(xs, k, f, g, idx);
    }
  }

  lemma QuadsHit<T, R>(xs: seq<T>, k: nat, f: (nat, nat, nat, nat) -> Option<R>, g: seq<T> -> Option<R>)
    requires forall p: nat, q: nat, r: nat, t: nat {:trigger f(p, q, r, t)} :: p < q < r < t < |xs| ==> f(p, q, r, t) == g([xs[p], xs[q], xs[r], xs[t]])
    requires k == 4
    requires QuadFrom(|xs|, f, 0, 1, 2, 3).Some?
    ensures exists idx :: Increasing(idx, k, |xs|) && g(PickAt(xs, idx)).Some?
  {
    var p, q, r, t := QuadWitness(|xs|, f);
    QuadsSome(xs, k, f, g, p, q, r, t);
  }

  lemma QuadsSome<T, R>(xs: seq<T>, k: nat, f: (nat, nat, nat, nat) -> Option<R>, g: seq<T> -> Option<R>, p: nat, q: nat, r: nat, t: nat)
    requires forall p: nat, q: nat, r: nat, t: nat {:trigger f(p, q, r, t)} :: p < q < r < t < |xs| ==> f(p, q, r, t) == g([xs[p], xs[q], xs[r], xs[t]])
    requires k == 4
    requires p < q < r < t < |xs| && f(p, q, r, t).Some?
    ensures exists idx :: Increasing(idx, k, |xs|) && g(PickAt(xs, idx)).Some?
  {
    var idx := [p, q, r, t];
    assert PickAt(xs, idx) == [xs[p], xs[q], xs[r], xs[t]];
    assert Increasing(idx, k, |xs|);
  }

  lemma QuadsAt<T, R>(xs: seq<T>, k: nat, f: (nat, nat, nat, nat) -> Option<R>, g: seq<T> -> Option<R>, idx: seq<nat>)
    requires forall p: nat, q: nat, r: nat, t: nat {:trigger f(p, q, r, t)} :: p < q < r < t < |xs| ==> f(p, q, r, t) == g([xs[p], xs[q], xs[r], xs[t]])
    requires k == 4
    requires Increasing(idx, k, |xs|)
    ensures g(PickAt(xs, idx)) == f(idx[0], idx[1], idx[2], idx[3])
  {
    assert PickAt(xs, idx) == [xs[idx[0]], xs[idx[1]], xs[idx[2]], xs[idx[3]]];
  }

  // ---------------------------------------------------------------------
  // for (let x = 0; x < rows; x += 1) for (let c = 0; c < cols; c += 1)
  // ---------------------------------------------------------------------

  function GridFrom<R>(rows: nat, cols: nat, f: (nat, nat) -> Option<R>, x: nat, c: nat): Option<R>
    decreases rows - x, cols - c
  {
    if x >= rows then None
    else if c >= cols then GridFrom(rows, cols, f, x + 1, 0)
    else if f(x, c).Some? then f(x, c)
    else GridFrom(rows, cols, f, x, c + 1)
  }

  /** One step of the grid search: the cell found at (x, c), or the search
      from the next cell of the row. */
  lemma GridStep<R>(rows: nat, cols: nat, f: (nat, nat) -> Option<R>, x: nat, c: nat)
    requires x < rows && c < cols
    ensures f(x, c).Some? ==> GridFrom(rows, cols, f, x, c) == f(x, c)
    ensures f(x, c).None? ==> GridFrom(rows, cols, f, x, c) == GridFrom(rows, cols, f, x, c + 1)
  {
  }

  lemma {:induction false} GridFromNone<R>(rows: nat, cols: nat, f: (nat, nat) -> Option<R>, x: nat, c: nat)
    ensures GridFrom(rows, cols, f, x, c) == None <==>
      (x < rows ==> forall q: nat :: c <= q < cols ==> f(x, q) == None) &&
      (forall p: nat, q: nat :: x < p < rows && q < cols ==> f(p, q) == None)
    decreases rows - x, cols - c
  {
    if x >= rows {
    } else if c >= cols {
      GridFromNone(rows, cols, f, x + 1, 0);
    } else if f(x, c).None? {
      GridFromNone(rows, cols, f, x, c + 1);
    }
  }

  /** The whole grid yields nothing iff no cell does. */
  lemma GridNone<R>(rows: nat, cols: nat, f: (nat, nat) -> Option<R>)
    ensures GridFrom(rows, cols, f, 0, 0) == None <==>
      forall p: nat, q: nat :: p < rows && q < cols ==> f(p, q) == None
  {
    GridFromNone(rows, cols, f, 0, 0);
  }

  /** A grid result is the value at the first cell (in row-major order) that
      yields one. */
  lemma {:induction false} GridFromSome<R>(rows: nat, cols: nat, f: (nat, nat) -> Option<R>, x: nat, c: nat)
    ensures GridFrom(rows, cols, f, x, c).Some? ==>
      exists p: nat, q: nat :: x <= p < rows && q < cols && (p == x ==> c <= q) &&
        f(p, q) == GridFrom(rows, cols, f, x, c)
    decreases rows - x, cols - c
  {
    if x >= rows {
    } else if c >= cols {
      GridFromSome(rows, cols, f, x + 1, 0);
    } else if f(x, c).None? {
      GridFromSome(rows, cols, f, x, c + 1);
    }
  }

  method FindInGrid<R>(rows: nat, cols: nat, f: (nat, nat) -> Option<R>) returns (r: Option<R>)
    ensures r == GridFrom(rows, cols, f, 0, 0)
  {
    var x := 0;
    while x < rows
      invariant x <= rows
      invariant GridFrom(rows, cols, f, 0, 0) == GridFrom(rows, cols, f, x, 0)
    {
      var c := 0;
      while c < cols
        invariant c <= cols
        invariant GridFrom(rows, cols, f, 0, 0) == GridFrom(rows, cols, f, x, c)
      {
        var v := f(x, c);
        if v.Some? {
          return v;
        }
        c := c + 1;
      }
      x := x + 1;
    }
    return None;
  }
}
