/** The three reducers of `src/redux/reducers.ts`: the board the player
    edits, the modifier keys held down, and the general interface state.
    Each is a pure function from a state and an action to the next state. */
module Reducers {
  import opened Lists
  import opened Board
  import opened Utils

  // ---------------------------------------------------------------------
  // boardReducer
  // ---------------------------------------------------------------------

  /** The board actions, with the fields each one uses. */
  datatype BoardAction =
    | SetPussle(cells: Board)
    | AddToHistory(cell: Cell)
    | SetCornerPencil(cellId: string, number: string)
    | SetCenterPencil(cellId: string, number: string)
    | SetBigNum(cellId: string, number: string)
    | ClearCell(cellId: string)
    | OtherBoardAction

  /** The cell id an action names (`action.cellId`, undefined for the
      others, which matches no cell). */
  function ActionCell(action: BoardAction): string
  {
    match action
    case SetCornerPencil(id, _) => id
    case SetCenterPencil(id, _) => id
    case SetBigNum(id, _) => id
    case ClearCell(id) => id
    case _ => ""
  }

  /** `state.find((el) => el.id === cellId)`. */
  function FindCell(state: Board, cellId: string): (r: Option<Cell>)
    ensures r.Some? <==> exists i :: 0 <= i < |state| && state[i].id == cellId
    ensures r.Some? ==> r.value in state && r.value.id == cellId
  {
    if state == [] then None
    else if state[0].id == cellId then Some(state[0])
    else
      var r := FindCell(state[1..], cellId);
      assert forall i :: 0 < i < |state| ==> state[i] == state[1..][i - 1];
      r
  }

  /** `state.filter((el) => el.id !== cellId)`. */
  function OtherCells(state: Board, cellId: string): (r: Board)
    ensures forall c :: c in r <==> c in state && c.id != cellId
  {
    Filter(state, NotId(cellId))
  }

  function NotId(cellId: string): Cell -> bool
  {
    (c: Cell) => c.id != cellId
  }

  /** A mark list with `n` added when absent and every copy of it removed
      when present. */
  function Toggle(marks: seq<string>, n: string): (r: seq<string>)
  {
    if n in marks then Without(marks, [n]) else marks + [n]
  }

  /** The target spread over `undefined` when no cell has the id: only
      the fields the action writes are set. */
  const Undefined: Cell := Cell("", false, "", [], [])

  /** What the reducer returns, or `Throws` where it reads a field of an
      undefined target (a TypeError). */
  datatype Outcome = Next(board: Board) | Throws

  /** The target after an edit: the pencil toggles, the big number
      write and the clear. */
  function EditedCell(target: Cell, action: BoardAction): (r: Cell)
    ensures r.id == target.id && r.locked == target.locked
  {
    match action
    case SetCornerPencil(_, n) => target.(cornerPencil := Toggle(target.cornerPencil, n))
    case SetCenterPencil(_, n) => target.(centerPencil := Toggle(target.centerPencil, n))
    case SetBigNum(_, n) => target.(bigNum := n)
    case ClearCell(_) => target.(bigNum := "", cornerPencil := [], centerPencil := [])
    case _ => target
  }

  /** `boardReducer(state, action)`. The four edits share their shape: a
      locked target or an invalid number (the clear has none) returns the
      state; otherwise the other cells come first and the edited target
      last. */
  function BoardReducer(state: Board, action: BoardAction): Outcome
  {
    match action
    case SetPussle(cells) => Next(cells)
    case AddToHistory(cell) => Next(state + [cell])
    case OtherBoardAction => Next(state)
    case SetCornerPencil(_, _) => Edit(state, action)
    case SetCenterPencil(_, _) => Edit(state, action)
    case SetBigNum(_, _) => Edit(state, action)
    case ClearCell(_) => Edit(state, action)
  }

  function Edit(state: Board, action: BoardAction): Outcome
    requires EditsCell(action)
  {
    var target := FindCell(state, ActionCell(action));
    if target.Some? && target.value.locked then Next(state)
    else if !action.ClearCell? && !IsValidNumber(action.number) then Next(state)
    else if target.None? && (action.SetCornerPencil? || action.SetCenterPencil?) then Throws
    else Next(OtherCells(state, ActionCell(action)) + [EditedCell(if target.Some? then target.value else Undefined, action)])
  }

  /** The actions that edit one cell. */
  predicate EditsCell(action: BoardAction)
  {
    action.SetCornerPencil? || action.SetCenterPencil? || action.SetBigNum? || action.ClearCell?
  }

  /** A locked cell cannot be edited. */
  lemma LockedCellUnchanged(state: Board, action: BoardAction)
    requires EditsCell(action) && FindCell(state, ActionCell(action)).Some? && FindCell(state, ActionCell(action)).value.locked
    ensures BoardReducer(state, action) == Next(state)
  {
  }

  /** `find` returns the first cell with the id. */
  lemma {:induction false} FirstWithId(state: Board, cellId: string, i: nat)
    requires i < |state| && state[i].id == cellId && forall j :: 0 <= j < i ==> state[j].id != cellId
    ensures FindCell(state, cellId) == Some(state[i])
  {
    if i > 0 {
      assert forall j :: 0 <= j < i - 1 ==> state[1..][j] == state[j + 1];
      FirstWithId(state[1..], cellId, i - 1);
    }
  }

  /** The edit goes through: the cell exists, is not locked, and a
      number, where the action has one, is valid. */
  predicate Edits(state: Board, action: BoardAction)
  {
    EditsCell(action) && FindCell(state, ActionCell(action)).Some? && !FindCell(state, ActionCell(action)).value.locked &&
    (action.ClearCell? || IsValidNumber(action.number))
  }

  /** An edit leaves every other cell in place and in order, and puts the
      edited cell last, with the id it names. */
  lemma EditFrame(state: Board, action: BoardAction)
    requires Edits(state, action)
    ensures BoardReducer(state, action) ==
      Next(OtherCells(state, ActionCell(action)) + [EditedCell(FindCell(state, ActionCell(action)).value, action)])
  {
  }

  /** After an edit the edited cell is the only one with its id, so the
      next `find` sees it. */
  lemma EditedFoundNext(state: Board, action: BoardAction)
    requires Edits(state, action)
    ensures BoardReducer(state, action).Next? && var r := BoardReducer(state, action).board;
      |r| >= 1 && FindCell(r, ActionCell(action)) == Some(r[|r| - 1]) &&
      OtherCells(r, ActionCell(action)) == OtherCells(state, ActionCell(action))
  {
    var id := ActionCell(action);
    var others := OtherCells(state, id);
    var e := EditedCell(FindCell(state, id).value, action);
    EditFrame(state, action);
    SoleWithId(others, e, id);
  }

  /** A list with no cell of the id, followed by one cell of it. */
  lemma SoleWithId(others: Board, e: Cell, id: string)
    requires (forall c :: c in others ==> c.id != id) && e.id == id
    ensures FindCell(others + [e], id) == Some(e)
    ensures OtherCells(others + [e], id) == others
  {
    var r := others + [e];
    assert forall j :: 0 <= j < |r| - 1 ==> r[j] in others;
    FirstWithId(r, id, |r| - 1);
    FilterAppend(others, [e], NotId(id));
    FilterAll(others, NotId(id));
  }

  /** Toggling twice restores which marks there are. */
  lemma ToggleTwice(marks: seq<string>, n: string)
    ensures forall m :: m in Toggle(Toggle(marks, n), n) <==> m in marks
  {
  }

  /** A pencil toggle on an unlocked cell with a valid number: the number
      is added when absent and removed when present, and nothing else in
      the cell changes. */
  lemma CornerPencilToggles(state: Board, cellId: string, n: string)
    requires FindCell(state, cellId).Some? && !FindCell(state, cellId).value.locked && IsValidNumber(n)
    ensures var before := FindCell(state, cellId).value;
      var r := BoardReducer(state, SetCornerPencil(cellId, n));
      r.Next? && |r.board| >= 1 &&
      var c := r.board[|r.board| - 1];
      c == before.(cornerPencil := c.cornerPencil) &&
      (n in c.cornerPencil <==> n !in before.cornerPencil) &&
      forall m :: m != n ==> (m in c.cornerPencil <==> m in before.cornerPencil)
  {
  }

  lemma CenterPencilToggles(state: Board, cellId: string, n: string)
    requires FindCell(state, cellId).Some? && !FindCell(state, cellId).value.locked && IsValidNumber(n)
    ensures var before := FindCell(state, cellId).value;
      var r := BoardReducer(state, SetCenterPencil(cellId, n));
      r.Next? && |r.board| >= 1 &&
      var c := r.board[|r.board| - 1];
      c == before.(centerPencil := c.centerPencil) &&
      (n in c.centerPencil <==> n !in before.centerPencil) &&
      forall m :: m != n ==> (m in c.centerPencil <==> m in before.centerPencil)
  {
  }

  /** Toggling the same corner mark twice restores which marks the cell
      has, and keeps the other cells. */
  lemma CornerPencilTwice(state: Board, cellId: string, n: string)
    requires FindCell(state, cellId).Some? && !FindCell(state, cellId).value.locked && IsValidNumber(n)
    ensures var once := BoardReducer(state, SetCornerPencil(cellId, n));
      once.Next? && var twice := BoardReducer(once.board, SetCornerPencil(cellId, n));
      twice.Next? && |twice.board| >= 1 &&
      twice.board[..|twice.board| - 1] == OtherCells(state, cellId) &&
      forall m :: m in twice.board[|twice.board| - 1].cornerPencil <==> m in FindCell(state, cellId).value.cornerPencil
  {
    var a := SetCornerPencil(cellId, n);
    var before := FindCell(state, cellId).value;
    var others := OtherCells(state, cellId);
    var e := EditedCell(before, a);
    EditFrame(state, a);
    EditedFoundNext(state, a);
    var once := others + [e];
    assert Edits(once, a);
    EditFrame(once, a);
    ToggleTwice(before.cornerPencil, n);
    assert (others + [EditedCell(e, a)])[..|others|] == others;
  }


  lemma CenterPencilTwice(state: Board, cellId: string, n: string)
    requires FindCell(state, cellId).Some? && !FindCell(state, cellId).value.locked && IsValidNumber(n)
    ensures var once := BoardReducer(state, SetCenterPencil(cellId, n));
      once.Next? && var twice := BoardReducer(once.board, SetCenterPencil(cellId, n));
      twice.Next? && |twice.board| >= 1 &&
      twice.board[..|twice.board| - 1] == OtherCells(state, cellId) &&
      forall m :: m in twice.board[|twice.board| - 1].centerPencil <==> m in FindCell(state, cellId).value.centerPencil
  {
    var a := SetCenterPencil(cellId, n);
    var before := FindCell(state, cellId).value;
    var others := OtherCells(state, cellId);
    var e := EditedCell(before, a);
    EditFrame(state, a);
    EditedFoundNext(state, a);
    var once := others + [e];
    assert Edits(once, a);
    EditFrame(once, a);
    ToggleTwice(before.centerPencil, n);
    assert (others + [EditedCell(e, a)])[..|others|] == others;
  }


  /** An invalid number changes nothing; a valid one on an unlocked cell
      becomes its big number and nothing else in the cell changes. */
  lemma BigNumSets(state: Board, cellId: string, n: string)
    ensures !IsValidNumber(n) ==> BoardReducer(state, SetBigNum(cellId, n)) == Next(state)
    ensures FindCell(state, cellId).Some? && !FindCell(state, cellId).value.locked && IsValidNumber(n) ==>
      var r := BoardReducer(state, SetBigNum(cellId, n));
      r.Next? && |r.board| >= 1 && r.board[|r.board| - 1] == FindCell(state, cellId).value.(bigNum := n)
  {
  }

  /** Clearing an unlocked cell empties its big number and both mark
      lists and keeps its id and lock. */
  lemma ClearEmpties(state: Board, cellId: string)
    requires FindCell(state, cellId).Some? && !FindCell(state, cellId).value.locked
    ensures var r := BoardReducer(state, ClearCell(cellId));
      r.Next? && |r.board| >= 1 &&
      var c := r.board[|r.board| - 1];
      c.id == cellId && !c.locked && c.bigNum == "" && c.cornerPencil == [] && c.centerPencil == []
  {
  }

  /** A pencil edit of an id no cell has throws; a big number or a clear
      on it appends a cell with only those fields set. */
  lemma MissingCell(state: Board, cellId: string, n: string)
    requires FindCell(state, cellId).None?
    ensures IsValidNumber(n) ==> BoardReducer(state, SetCornerPencil(cellId, n)) == Throws
    ensures IsValidNumber(n) ==> BoardReducer(state, SetCenterPencil(cellId, n)) == Throws
    ensures IsValidNumber(n) ==> BoardReducer(state, SetBigNum(cellId, n)) == Next(state + [Undefined.(bigNum := n)])
    ensures BoardReducer(state, ClearCell(cellId)) == Next(state + [Undefined])
  {
    FilterAll(state, NotId(cellId));
  }

  // ---------------------------------------------------------------------
  // keysReducer
  // ---------------------------------------------------------------------

  datatype KeyState = KeyState(shift: bool, ctrl: bool, meta: bool)

  const DefaultKeyState := KeyState(false, false, false)

  /** `SET_KEY` carries some of the three flags; any other action is
      ignored. */
  datatype KeyAction = SetKey(shift: Option<bool>, ctrl: Option<bool>, meta: Option<bool>) | OtherKeyAction

  function Merge(v: Option<bool>, d: bool): bool
  {
    if v.Some? then v.value else d
  }

  /** `keysReducer(state, action)`: `{ ...state, ...action.payload }`. */
  function KeysReducer(state: KeyState, action: KeyAction): KeyState
  {
    match action
    case SetKey(s, c, m) => KeyState(Merge(s, state.shift), Merge(c, state.ctrl), Merge(m, state.meta))
    case OtherKeyAction => state
  }

  /** Each flag the payload carries takes its value, the others keep
      theirs; applying the same action twice is applying it once. */
  lemma KeysMerge(state: KeyState, action: KeyAction)
    ensures var r := KeysReducer(state, action);
      (action.SetKey? ==>
        (action.shift.Some? ==> r.shift == action.shift.value) && (action.shift.None? ==> r.shift == state.shift) &&
        (action.ctrl.Some? ==> r.ctrl == action.ctrl.value) && (action.ctrl.None? ==> r.ctrl == state.ctrl) &&
        (action.meta.Some? ==> r.meta == action.meta.value) && (action.meta.None? ==> r.meta == state.meta)) &&
      (action.OtherKeyAction? ==> r == state) &&
      KeysReducer(r, action) == r
  {
  }

  // ---------------------------------------------------------------------
  // generalReducer
  // ---------------------------------------------------------------------

  /** `selecting` is `null` or whether a mouse drag is selecting cells
      (`true`) or deselecting them (`false`). */
  datatype GeneralState = GeneralState(isLoading: bool, mouseDown: bool, selecting: Option<bool>, selectedCount: int)

  const DefaultGeneralState := GeneralState(true, false, None, 0)

  datatype GeneralAction =
    | SetIsLoading(isLoading: bool)
    | SetSelecting(selecting: Option<bool>)
    | SetMouseDown(mouseDown: bool)
    | SetSelectedCount(selectedCount: int)
    | OtherGeneralAction

  /** `generalReducer(state, action)`. */
  function GeneralReducer(state: GeneralState, action: GeneralAction): GeneralState
  {
    match action
    case SetIsLoading(v) => state.(isLoading := v)
    case SetSelecting(v) => state.(selecting := v)
    case SetMouseDown(v) => state.(mouseDown := v)
    case SetSelectedCount(v) => state.(selectedCount := v)
    case OtherGeneralAction => state
  }

  predicate SameField(a: GeneralAction, b: GeneralAction)
  {
    (a.SetIsLoading? && b.SetIsLoading?) || (a.SetSelecting? && b.SetSelecting?) ||
    (a.SetMouseDown? && b.SetMouseDown?) || (a.SetSelectedCount? && b.SetSelectedCount?)
  }

  /** Each action sets its own field and no other; actions on different
      fields commute, and repeating an action changes nothing more. */
  lemma GeneralFields(state: GeneralState, a: GeneralAction, b: GeneralAction)
    ensures var r := GeneralReducer(state, a);
      (a.SetIsLoading? ==> r == state.(isLoading := a.isLoading)) &&
      (a.SetSelecting? ==> r == state.(selecting := a.selecting)) &&
      (a.SetMouseDown? ==> r == state.(mouseDown := a.mouseDown)) &&
      (a.SetSelectedCount? ==> r == state.(selectedCount := a.selectedCount)) &&
      (a.OtherGeneralAction? ==> r == state) &&
      GeneralReducer(r, a) == r
    ensures !SameField(a, b) ==>
      GeneralReducer(GeneralReducer(state, a), b) == GeneralReducer(GeneralReducer(state, b), a)
  {
  }
}
