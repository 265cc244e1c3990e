/** The step table of `solve` in `solver.ts`: the techniques in the order
    they are tried, the type and points each records, and the choice of
    the first technique that fires. */
module Steps {
  import opened Lists
  import opened Board

  // ---------------------------------------------------------------------
  // Steps and techniques
  // ---------------------------------------------------------------------

  /** One entry of `steps`: `{ type, points, ...specs }`. */
  datatype Step = Step(kind: string, points: nat, specs: Specs)

  /** What `solve` returns. */
  datatype Solution = Solution(board: Board, steps: seq<Step>)

  /** The techniques, named by the step types `solve` records; `Fxw` is the
      finned X-Wing search, recorded as `ssc` when the fish is sashimi. */
  datatype Technique =
    | Fh | Hs | Ns | Lcp | Lcc | Hp | Np | Ht | Nt | Xw | Fxw
    | Er | Xyw | Xyz | Ww | Nq | Hq | Sf | Jf | Fsf | Fjf

  /** The order in which `solve` tries the techniques. */
  const Order: seq<Technique> :=
    [Fh, Hs, Ns, Lcp, Lcc, Hp, Np, Ht, Nt, Xw, Fxw, Er, Xyw, Xyz, Ww, Nq, Hq, Sf, Jf, Fsf, Fjf]

  /** The `type` of the step a technique records. */
  function StepType(t: Technique, sashimi: bool): string
  {
    match t
    case Fh => "fh"
    case Hs => "hs"
    case Ns => "ns"
    case Lcp => "lcp"
    case Lcc => "lcc"
    case Hp => "hp"
    case Np => "np"
    case Ht => "ht"
    case Nt => "nt"
    case Xw => "xw"
    case Fxw => if sashimi then "ssc" else "fxw"
    case Er => "er"
    case Xyw => "xyw"
    case Xyz => "xyz"
    case Ww => "ww"
    case Nq => "nq"
    case Hq => "hq"
    case Sf => "sf"
    case Jf => "jf"
    case Fsf => "fsf"
    case Fjf => "fjf"
  }

  /** The `points` of the step a technique records. */
  function StepPoints(t: Technique, sashimi: bool): nat
  {
    match t
    case Fh => 10
    case Hs => 100
    case Ns => 100
    case Lcp => 250
    case Lcc => 500
    case Hp => 600
    case Np => 1000
    case Ht => 1300
    case Nt => 1600
    case Xw => 1700
    case Fxw => if sashimi then 2200 else 2400
    case Er => 3000
    case Xyw => 3200
    case Xyz => 3400
    case Ww => 3600
    case Nq => 4000
    case Hq => 4500
    case Sf => 5000
    case Jf => 8000
    case Fsf => 10000
    case Fjf => 11000
  }

  /** The cheapest step a technique can record. */
  function Cost(t: Technique): (r: nat)
    ensures forall sashimi :: r <= StepPoints(t, sashimi)
    ensures exists sashimi :: r == StepPoints(t, sashimi)
  {
    if t == Fxw then assert StepPoints(t, true) == 2200; 2200 else assert StepPoints(t, false) == StepPoints(t, true); StepPoints(t, false)
  }

  /** A technique that fired and what it found. */
  datatype Move = Move(technique: Technique, found: Found)

  /** The step `solve` records for a move. */
  function StepOf(m: Move): (r: Step)
    ensures r.specs == m.found.specs
    ensures r.points == StepPoints(m.technique, m.found.specs.sashimi) >= Cost(m.technique)
  {
    var sashimi := m.found.specs.sashimi;
    Step(StepType(m.technique, sashimi), StepPoints(m.technique, sashimi), m.found.specs)
  }

  /** A way to run each technique on a board. */
  type Attempter = (Technique, Board) -> Option<Found>

  /** The first technique from position `i` of the order that finds
      something on `s`. */
  function FirstFiring(attempt: Attempter, s: Board, i: nat): Option<Move>
    requires i <= |Order|
    decreases |Order| - i
  {
    if i == |Order| then None
    else match attempt(Order[i], s)
      case Some(f) => Some(Move(Order[i], f))
      case None => FirstFiring(attempt, s, i + 1)
  }

  /** Nothing fires iff every technique from `i` on finds nothing; what
      fires is the first technique from `i` that finds something. */
  lemma {:induction false} FirstFiringMeaning(attempt: Attempter, s: Board, i: nat)
    requires i <= |Order|
    ensures FirstFiring(attempt, s, i).None? <==> forall k :: i <= k < |Order| ==> attempt(Order[k], s).None?
    ensures FirstFiring(attempt, s, i).Some? ==>
      exists j :: i <= j < |Order| && attempt(Order[j], s).Some? && FirstFiring(attempt, s, i) == Some(Move(Order[j], attempt(Order[j], s).value)) &&
        forall k :: i <= k < j ==> attempt(Order[k], s).None?
    decreases |Order| - i
  {
    if i < |Order| && attempt(Order[i], s).None? {
      FirstFiringMeaning(attempt, s, i + 1);
      if FirstFiring(attempt, s, i + 1).Some? {
        var j :| i + 1 <= j < |Order| && attempt(Order[j], s).Some? && FirstFiring(attempt, s, i + 1) == Some(Move(Order[j], attempt(Order[j], s).value)) &&
          forall k :: i + 1 <= k < j ==> attempt(Order[k], s).None?;
        assert forall k :: i <= k < j ==> attempt(Order[k], s).None?;
      }
    }
  }

  /** The order never gets cheaper. */
  lemma {:induction false} OrderByCost(j: nat, k: nat)
    requires j <= k < |Order|
    ensures Cost(Order[j]) <= Cost(Order[k])
    decreases k - j
  {
    if j < k {
      OrderByCost(j + 1, k);
      AdjacentCost(j);
    }
  }

  /** Two neighbours in the order are in order of cost. */
  lemma AdjacentCost(j: nat)
    requires j + 1 < |Order|
    ensures Cost(Order[j]) <= Cost(Order[j + 1])
  {
    if j < 10 {
      assert j in {0, 1, 2, 3, 4, 5, 6, 7, 8, 9};
    } else {
      assert j in {10, 11, 12, 13, 14, 15, 16, 17, 18, 19};
    }
  }

  /** The technique that fires found what the move records, and it is one
      of the cheapest that can: every technique of a lower cost found
      nothing. */
  lemma FirstFiringCheapest(attempt: Attempter, s: Board, m: Move)
    requires FirstFiring(attempt, s, 0) == Some(m)
    ensures attempt(m.technique, s) == Some(m.found)
    ensures forall k :: 0 <= k < |Order| && Cost(Order[k]) < Cost(m.technique) ==> attempt(Order[k], s).None?
  {
    FirstFiringMeaning(attempt, s, 0);
    var j :| 0 <= j < |Order| && attempt(Order[j], s).Some? && FirstFiring(attempt, s, 0) == Some(Move(Order[j], attempt(Order[j], s).value)) &&
      forall k :: 0 <= k < j ==> attempt(Order[k], s).None?;
    forall k | 0 <= k < |Order| && Cost(Order[k]) < Cost(m.technique)
      ensures attempt(Order[k], s).None?
    {
      if j <= k {
        OrderByCost(j, k);
      }
    }
  }
}
