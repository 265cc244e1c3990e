/** `solve(board, steps)` in `solver.ts`: the techniques tried from the
    cheapest to the dearest, the first one that changes the board recorded
    as a step with its type and points, and the solver called again on the
    new board, until the puzzle is solved or no technique applies. The
    choice of move is a parameter here: `FirstMove(attempt)` runs the
    techniques in order, and `Techniques.Attempter` gives the solver's
    own techniques. */
module Solver {
  import opened Lists
  import opened Board
  import opened Groups
  import opened Utils
  import opened Steps

  /** `cell.bigNum` of every cell. */
  function BigNums(b: Board): (r: seq<string>)
    ensures |r| == |b| && forall i :: 0 <= i < |b| ==> r[i] == b[i].bigNum
  {
    seq(|b|, i requires 0 <= i < |b| => b[i].bigNum)
  }

  /** How `solve` picks its move on a board in id order. */
  type Chooser = Board -> Option<Move>

  /** The chain of `if` statements in `solve`: the first technique of the
      order that fires. */
  function FirstMove(attempt: Attempter): Chooser
  {
    (s: Board) => FirstFiring(attempt, s, 0)
  }

  /** `solve(board, steps)`, with `fuel` bounding the number of steps it
      may still take. A solved board is returned as given; otherwise the
      move chosen on the board in id order (the order `checkFullHouse`
      sorts the copy into) is recorded and the solver goes on from its
      result; when there is none, the sorted copy is returned. */
  function Solve(choose: Chooser, board: Board, steps: seq<Step>, fuel: nat): Solution
    decreases fuel
  {
    if PuzzleSolved(BigNums(board)) then Solution(board, steps)
    else
      var s := SortById(board);
      if fuel == 0 then Solution(s, steps)
      else match choose(s)
        case None => Solution(s, steps)
        case Some(m) => Solve(choose, m.found.board, steps + [StepOf(m)], fuel - 1)
  }

  /** The move `solve` makes on `board` with `fuel` left, if it makes one. */
  function NextMove(choose: Chooser, board: Board, fuel: nat): Option<Move>
  {
    if PuzzleSolved(BigNums(board)) || fuel == 0 then None else choose(SortById(board))
  }

  /** Without a move, `solve` returns the steps it was given; the board as
      given if the puzzle was solved on entry, else in id order, where
      either the fuel is spent or no move is found. */
  lemma SolveStopped(choose: Chooser, board: Board, steps: seq<Step>, fuel: nat)
    requires NextMove(choose, board, fuel).None?
    ensures var r := Solve(choose, board, steps, fuel);
      r.steps == steps &&
      (PuzzleSolved(BigNums(board)) ==> r.board == board) &&
      (!PuzzleSolved(BigNums(board)) ==> r.board == SortById(board) && (fuel == 0 || choose(r.board).None?))
  {
  }

  /** With a move, `solve` goes on from the move's board with the move's
      step appended. */
  lemma SolveMoved(choose: Chooser, board: Board, steps: seq<Step>, fuel: nat, m: Move)
    requires NextMove(choose, board, fuel) == Some(m)
    ensures fuel > 0 && Solve(choose, board, steps, fuel) == Solve(choose, m.found.board, steps + [StepOf(m)], fuel - 1)
  {
  }

  /** `r` has the cells of `b`, in the same order. */
  ghost predicate SameCells(b: Board, r: Board)
  {
    |r| == |b| && forall i :: 0 <= i < |b| ==> r[i].id == b[i].id
  }

  /** Every technique, run on a board of 81 cells in id order, keeps its
      cells. */
  ghost predicate KeepsCells(attempt: Attempter)
  {
    forall t, s :: |s| == 81 && SortById(s) == s && attempt(t, s).Some? ==> SameCells(s, attempt(t, s).value.board)
  }

  /** Every move chosen on a board of 81 cells in id order keeps its
      cells. */
  ghost predicate MovesKeep(choose: Chooser)
  {
    forall s :: MoveKeeps(choose, s)
  }

  ghost predicate MoveKeeps(choose: Chooser, s: Board)
  {
    |s| == 81 && SortById(s) == s && choose(s).Some? ==> SameCells(s, choose(s).value.found.board)
  }

  /** Techniques that keep the cells make moves that keep them. */
  lemma FirstMoveKeeps(attempt: Attempter)
    requires KeepsCells(attempt)
    ensures MovesKeep(FirstMove(attempt))
  {
    var choose := FirstMove(attempt);
    forall s
      ensures MoveKeeps(choose, s)
    {
      if |s| == 81 && SortById(s) == s && choose(s).Some? {
        FirstFiringCheapest(attempt, s, choose(s).value);
      }
    }
  }

  lemma SameCellsWellFormed(b: Board, r: Board)
    requires WellFormed(b) && SameCells(b, r)
    ensures WellFormed(r)
  {
  }

  /** The move `solve` makes keeps the 81 cells, in id order once the
      board is well formed. */
  lemma NextKeeps(choose: Chooser, board: Board, fuel: nat)
    requires MovesKeep(choose) && |board| == 81 && NextMove(choose, board, fuel).Some?
    ensures var next := NextMove(choose, board, fuel).value.found.board;
      |next| == 81 && (WellFormed(board) ==> WellFormed(next))
  {
    var s := SortById(board);
    SortByIdIdempotent(board);
    assert MoveKeeps(choose, s);
    if WellFormed(board) {
      SortByIdIdentity(board);
      SameCellsWellFormed(s, choose(s).value.found.board);
    }
  }

  // ---------------------------------------------------------------------
  // What solve returns
  // ---------------------------------------------------------------------

  /** `solve` keeps the 81 cells. */
  lemma {:induction false} SolveKeepsCells(choose: Chooser, board: Board, steps: seq<Step>, fuel: nat)
    requires MovesKeep(choose) && |board| == 81
    ensures |Solve(choose, board, steps, fuel).board| == 81
    decreases fuel
  {
    var next := NextMove(choose, board, fuel);
    if next.Some? {
      var m := next.value;
      SolveMoved(choose, board, steps, fuel, m);
      NextKeeps(choose, board, fuel);
      SolveKeepsCells(choose, m.found.board, steps + [StepOf(m)], fuel - 1);
    } else {
      SolveStopped(choose, board, steps, fuel);
    }
  }

  /** A board in id order stays in id order. */
  lemma {:induction false} SolveKeepsOrder(choose: Chooser, board: Board, steps: seq<Step>, fuel: nat)
    requires MovesKeep(choose) && WellFormed(board)
    ensures WellFormed(Solve(choose, board, steps, fuel).board)
    decreases fuel
  {
    var next := NextMove(choose, board, fuel);
    if next.Some? {
      var m := next.value;
      SolveMoved(choose, board, steps, fuel, m);
      NextKeeps(choose, board, fuel);
      SolveKeepsOrder(choose, m.found.board, steps + [StepOf(m)], fuel - 1);
    } else {
      SolveStopped(choose, board, steps, fuel);
      SortByIdIdentity(board);
    }
  }

  /** A step records the points of its type. */
  ghost predicate Recorded(st: Step)
  {
    exists t, sashimi :: st.kind == StepType(t, sashimi) && st.points == StepPoints(t, sashimi)
  }

  lemma StepRecorded(m: Move)
    ensures Recorded(StepOf(m))
  {
    assert StepOf(m).kind == StepType(m.technique, m.found.specs.sashimi);
  }

  lemma PrefixOfPrefix<T>(xs: seq<T>, ys: seq<T>, y: T)
    requires |ys| < |xs| && xs[..|ys| + 1] == ys + [y]
    ensures xs[..|ys|] == ys && xs[|ys|] == y
  {
    assert xs[..|ys|] == xs[..|ys| + 1][..|ys|];
  }

  /** `solve` only appends to `steps`, at most one step per unit of fuel,
      each with the points of its type. */
  lemma {:induction false} SolveAppends(choose: Chooser, board: Board, steps: seq<Step>, fuel: nat)
    ensures var r := Solve(choose, board, steps, fuel);
      |steps| <= |r.steps| <= |steps| + fuel && r.steps[..|steps|] == steps &&
      forall k :: |steps| <= k < |r.steps| ==> Recorded(r.steps[k])
    decreases fuel
  {
    var next := NextMove(choose, board, fuel);
    if next.Some? {
      var m := next.value;
      SolveMoved(choose, board, steps, fuel, m);
      var more := steps + [StepOf(m)];
      SolveAppends(choose, m.found.board, more, fuel - 1);
      var r := Solve(choose, board, steps, fuel);
      PrefixOfPrefix(r.steps, steps, StepOf(m));
      forall k | |steps| <= k < |r.steps|
        ensures Recorded(r.steps[k])
      {
        if k == |steps| {
          StepRecorded(m);
        }
      }
    } else {
      SolveStopped(choose, board, steps, fuel);
    }
  }

  /** `solve` stops early only when the puzzle is solved or when no move
      is found on the board it returns. */
  lemma {:induction false} SolveStops(choose: Chooser, board: Board, steps: seq<Step>, fuel: nat)
    ensures var r := Solve(choose, board, steps, fuel);
      |r.steps| < |steps| + fuel ==> PuzzleSolved(BigNums(r.board)) || choose(r.board).None?
    decreases fuel
  {
    var next := NextMove(choose, board, fuel);
    if next.Some? {
      var m := next.value;
      SolveMoved(choose, board, steps, fuel, m);
      SolveStops(choose, m.found.board, steps + [StepOf(m)], fuel - 1);
    } else {
      SolveStopped(choose, board, steps, fuel);
    }
  }
}
