/** The lists the move generator produces, as functions, and the proof that they hold exactly the
    moves the rules allow, each once. */
module GeneratorSpec {
  import opened Types
  import opened MoveRules

  datatype LegalMove = LegalMove(move: Move, piece: Cell, captured: Cell, isCapture: bool)

  /** The list entry for a move on a board. */
  function Entry(g: Grid, m: Move): LegalMove {
    var target := At(g, m.toCol, m.toRow);
    LegalMove(m, At(g, m.fromCol, m.fromRow), target, target >= 0)
  }

  // ----- Pieces that step -----

  type Offset = (int, int)

  const KING_STEPS: seq<Offset> := [(0, 1), (0, -1), (1, 0), (-1, 0)]
  const ADVISOR_STEPS: seq<Offset> := [(1, 1), (1, -1), (-1, 1), (-1, -1)]
  const BISHOP_STEPS: seq<Offset> := [(2, 2), (2, -2), (-2, 2), (-2, -2)]
  const KNIGHT_STEPS: seq<Offset> := [(-1, -2), (1, -2), (-1, 2), (1, 2), (-2, -1), (-2, 1), (2, -1), (2, 1)]

  function StepTo(col: int, row: int, o: Offset): Move {
    Move(col, row, col + o.0, row + o.1)
  }

  ghost predicate StepAllowed(g: Grid, color: Color, m: Move, kind: int) {
    OnBoard(m.toCol, m.toRow) && !Owns(color, At(g, m.toCol, m.toRow)) && Shape(g, m, color, kind)
  }

  ghost function StepMoves(g: Grid, col: int, row: int, color: Color, kind: int, steps: seq<Offset>): seq<LegalMove>
    decreases steps, g
  {
    if steps == [] then []
    else
      var m := StepTo(col, row, steps[0]);
      StepList(g, color, m, kind) + StepMoves(g, col, row, color, kind, steps[1..])
  }

  ghost function StepList(g: Grid, color: Color, m: Move, kind: int): seq<LegalMove> {
    if StepAllowed(g, color, m, kind) then [Entry(g, m)] else []
  }

  lemma {:induction false} StepMovesExact(g: Grid, col: int, row: int, color: Color, kind: int, steps: seq<Offset>,
                                          lm: LegalMove)
    ensures lm in StepMoves(g, col, row, color, kind, steps)
      <==> exists i ::
        0 <= i < |steps| && lm == Entry(g, StepTo(col, row, steps[i])) && StepAllowed(g, color, lm.move, kind)
  {
    if steps != [] {
      var m := StepTo(col, row, steps[0]);
      StepMovesExact(g, col, row, color, kind, steps[1..], lm);
      if lm in StepMoves(g, col, row, color, kind, steps) {
        if !(lm == Entry(g, m) && StepAllowed(g, color, m, kind)) {
          var i :| 0 <= i < |steps[1..]| && lm == Entry(g, StepTo(col, row, steps[1..][i]))
            && StepAllowed(g, color, lm.move, kind);
          assert steps[i + 1] == steps[1..][i];
        } else {
          assert lm == Entry(g, StepTo(col, row, steps[0]));
        }
      }
      if i :| 0 <= i < |steps| && lm == Entry(g, StepTo(col, row, steps[i])) && StepAllowed(g, color, lm.move, kind) {
        if i > 0 {
          assert steps[1..][i - 1] == steps[i];
        }
      }
    }
  }

  // ----- Pieces that slide -----

  datatype Dir = Down | Up | Right | Left

  const DIRS: seq<Dir> := [Down, Up, Right, Left]

  function DCol(d: Dir): int {
    if d == Right then 1 else if d == Left then -1 else 0
  }

  function DRow(d: Dir): int {
    if d == Down then 1 else if d == Up then -1 else 0
  }

  /** Cells left in a direction, the current one included. */
  function Room(d: Dir, c: int, r: int): nat {
    if !OnBoard(c, r) then 0
    else
      match d
      case Down => ROWS - r
      case Up => r + 1
      case Right => COLS - c
      case Left => c + 1
  }

  /** The entries of a rook on (col, row) from the cell (c, r) of a ray on. */
  function RookRay(g: Grid, col: int, row: int, color: Color, d: Dir, c: int, r: int): seq<LegalMove>
    decreases Room(d, c, r)
  {
    if !OnBoard(c, r) then []
    else
      var target := At(g, c, r);
      if target < 0 then [Entry(g, Move(col, row, c, r))] + RookRay(g, col, row, color, d, c + DCol(d), r + DRow(d))
      else if !Owns(color, target) then [Entry(g, Move(col, row, c, r))]
      else []
  }

  function CannonRay(g: Grid, col: int, row: int, color: Color, d: Dir, c: int, r: int, jumped: bool): seq<LegalMove>
    decreases Room(d, c, r)
  {
    if !OnBoard(c, r) then []
    else
      var target := At(g, c, r);
      var c', r' := c + DCol(d), r + DRow(d);
      if !jumped then
        if target < 0 then [Entry(g, Move(col, row, c, r))] + CannonRay(g, col, row, color, d, c', r', false)
        else CannonRay(g, col, row, color, d, c', r', true)
      else if target < 0 then CannonRay(g, col, row, color, d, c', r', true)
      else if !Owns(color, target) then [Entry(g, Move(col, row, c, r))]
      else []
  }

  /** (c2, r2) is (c, r) or lies beyond it in direction d. */
  predicate Beyond(d: Dir, c: int, r: int, c2: int, r2: int) {
    match d
    case Down => c2 == c && r2 >= r
    case Up => c2 == c && r2 <= r
    case Right => r2 == r && c2 >= c
    case Left => r2 == r && c2 <= c
  }

  /** No piece stands from (c, r) up to, but not on, (c2, r2). */
  ghost predicate ClearUpTo(g: Grid, d: Dir, c: int, r: int, c2: int, r2: int) {
    forall x, y :: Beyond(d, c, r, x, y) && Beyond(d, x, y, c2, r2) && (x, y) != (c2, r2) ==> !IsPiece(At(g, x, y))
  }

  /** Exactly one piece, on (x, y), stands from (c, r) up to, but not on, (c2, r2). */
  ghost predicate ScreenAt(g: Grid, d: Dir, c: int, r: int, c2: int, r2: int, x: int, y: int) {
    && Beyond(d, c, r, x, y) && Beyond(d, x, y, c2, r2) && (x, y) != (c2, r2)
    && IsPiece(At(g, x, y))
    && ClearUpTo(g, d, c, r, x, y)
    && ClearUpTo(g, d, x + DCol(d), y + DRow(d), c2, r2)
  }

  /** A rook ray from (c, r) on contains (c2, r2). */
  ghost predicate RookReaches(g: Grid, color: Color, d: Dir, c: int, r: int, c2: int, r2: int) {
    && OnBoard(c, r) && OnBoard(c2, r2) && Beyond(d, c, r, c2, r2)
    && !Owns(color, At(g, c2, r2))
    && ClearUpTo(g, d, c, r, c2, r2)
  }

  lemma RookStep(g: Grid, color: Color, d: Dir, c: int, r: int, c2: int, r2: int)
    requires OnBoard(c, r)
    ensures RookReaches(g, color, d, c, r, c2, r2) <==>
      if (c, r) == (c2, r2) then !Owns(color, At(g, c, r))
      else !IsPiece(At(g, c, r)) && RookReaches(g, color, d, c + DCol(d), r + DRow(d), c2, r2)
  {
    if Beyond(d, c, r, c2, r2) && (c, r) != (c2, r2) {
      ClearStep(g, d, c, r, c2, r2);
    }
  }

  /** A cell does not lie beyond the next one. */
  lemma NotBehind(d: Dir, c: int, r: int)
    ensures !Beyond(d, c + DCol(d), r + DRow(d), c, r)
  {
  }

  lemma InFront<T>(x: T, here: T, rest: seq<T>)
    ensures x in [here] + rest <==> x == here || x in rest
  {
  }

  lemma {:induction false} RookRayExact(g: Grid, col: int, row: int, color: Color, d: Dir, c: int, r: int,
                                        lm: LegalMove)
    ensures lm in RookRay(g, col, row, color, d, c, r) <==>
      && lm == Entry(g, Move(col, row, lm.move.toCol, lm.move.toRow))
      && RookReaches(g, color, d, c, r, lm.move.toCol, lm.move.toRow)
    decreases Room(d, c, r)
  {
    if OnBoard(c, r) {
      var c', r' := c + DCol(d), r + DRow(d);
      RookRayExact(g, col, row, color, d, c', r', lm);
      RookCellExact(g, col, row, color, d, c, r, c', r', lm);
    }
  }

  lemma {:induction false} RookCellExact(g: Grid, col: int, row: int, color: Color, d: Dir, c: int, r: int, c': int,
                                         r': int, lm: LegalMove)
    requires OnBoard(c, r) && c' == c + DCol(d) && r' == r + DRow(d)
    requires lm in RookRay(g, col, row, color, d, c', r') <==>
      && lm == Entry(g, Move(col, row, lm.move.toCol, lm.move.toRow))
      && RookReaches(g, color, d, c', r', lm.move.toCol, lm.move.toRow)
    ensures lm in RookRay(g, col, row, color, d, c, r) <==>
      && lm == Entry(g, Move(col, row, lm.move.toCol, lm.move.toRow))
      && RookReaches(g, color, d, c, r, lm.move.toCol, lm.move.toRow)
  {
    var here := Entry(g, Move(col, row, c, r));
    RookStep(g, color, d, c, r, lm.move.toCol, lm.move.toRow);
    NotBehind(d, c, r);
    InFront(lm, here, RookRay(g, col, row, color, d, c', r'));
    assert lm in [here] <==> lm == here;
  }

  /** A stretch that starts on an empty cell is clear when the rest of it is. */
  lemma ClearStep(g: Grid, d: Dir, c: int, r: int, c2: int, r2: int)
    requires Beyond(d, c, r, c2, r2) && (c, r) != (c2, r2)
    ensures Beyond(d, c + DCol(d), r + DRow(d), c2, r2)
    ensures ClearUpTo(g, d, c, r, c2, r2) <==>
      !IsPiece(At(g, c, r)) && ClearUpTo(g, d, c + DCol(d), r + DRow(d), c2, r2)
  {
    var c', r' := c + DCol(d), r + DRow(d);
    assert forall x, y :: Beyond(d, c, r, x, y) <==> (x, y) == (c, r) || Beyond(d, c', r', x, y);
  }

  ghost predicate Screened(g: Grid, d: Dir, c: int, r: int, c2: int, r2: int) {
    exists x, y :: ScreenAt(g, d, c, r, c2, r2, x, y)
  }

  /** A stretch that starts on a piece has it for a screen exactly if the rest is clear. */
  lemma ScreenHere(g: Grid, d: Dir, c: int, r: int, c2: int, r2: int)
    requires Beyond(d, c, r, c2, r2) && (c, r) != (c2, r2) && IsPiece(At(g, c, r))
    ensures Screened(g, d, c, r, c2, r2) <==> ClearUpTo(g, d, c + DCol(d), r + DRow(d), c2, r2)
  {
    if x, y :| ScreenAt(g, d, c, r, c2, r2, x, y) {
      assert (x, y) == (c, r);
    }
    if ClearUpTo(g, d, c + DCol(d), r + DRow(d), c2, r2) {
      assert ScreenAt(g, d, c, r, c2, r2, c, r);
    }
  }

  /** Passing an empty cell changes nothing about the screen. */
  lemma ScreenBehind(g: Grid, d: Dir, c: int, r: int, c2: int, r2: int)
    requires Beyond(d, c, r, c2, r2) && (c, r) != (c2, r2) && !IsPiece(At(g, c, r))
    ensures Screened(g, d, c, r, c2, r2) <==> Screened(g, d, c + DCol(d), r + DRow(d), c2, r2)
  {
    var c', r' := c + DCol(d), r + DRow(d);
    if x, y :| ScreenAt(g, d, c, r, c2, r2, x, y) {
      ClearStep(g, d, c, r, x, y);
      assert ScreenAt(g, d, c', r', c2, r2, x, y);
    }
    if x, y :| ScreenAt(g, d, c', r', c2, r2, x, y) {
      ClearStep(g, d, c, r, x, y);
      assert ScreenAt(g, d, c, r, c2, r2, x, y);
    }
  }

  ghost predicate CannonReaches(g: Grid, color: Color, d: Dir, c: int, r: int, jumped: bool, c2: int, r2: int) {
    && OnBoard(c, r) && OnBoard(c2, r2) && Beyond(d, c, r, c2, r2)
    && !Owns(color, At(g, c2, r2))
    && if jumped then IsPiece(At(g, c2, r2)) && ClearUpTo(g, d, c, r, c2, r2)
       else if IsPiece(At(g, c2, r2)) then Screened(g, d, c, r, c2, r2)
       else ClearUpTo(g, d, c, r, c2, r2)
  }

  lemma CannonStep(g: Grid, color: Color, d: Dir, c: int, r: int, jumped: bool, c2: int, r2: int)
    requires OnBoard(c, r)
    ensures CannonReaches(g, color, d, c, r, jumped, c2, r2) <==>
      if (c, r) == (c2, r2) then
        if jumped then IsPiece(At(g, c, r)) && !Owns(color, At(g, c, r)) else !IsPiece(At(g, c, r))
      else if !IsPiece(At(g, c, r)) then CannonReaches(g, color, d, c + DCol(d), r + DRow(d), jumped, c2, r2)
      else !jumped && CannonReaches(g, color, d, c + DCol(d), r + DRow(d), true, c2, r2)
  {
    if Beyond(d, c, r, c2, r2) && (c, r) != (c2, r2) {
      ClearStep(g, d, c, r, c2, r2);
      if IsPiece(At(g, c, r)) {
        ScreenHere(g, d, c, r, c2, r2);
      } else {
        ScreenBehind(g, d, c, r, c2, r2);
      }
    }
  }

  lemma {:induction false} CannonRayExact(g: Grid, col: int, row: int, color: Color, d: Dir, c: int, r: int,
                                          jumped: bool, lm: LegalMove)
    ensures lm in CannonRay(g, col, row, color, d, c, r, jumped) <==>
      && lm == Entry(g, Move(col, row, lm.move.toCol, lm.move.toRow))
      && CannonReaches(g, color, d, c, r, jumped, lm.move.toCol, lm.move.toRow)
    decreases Room(d, c, r)
  {
    if OnBoard(c, r) {
      var c', r' := c + DCol(d), r + DRow(d);
      var over := jumped || At(g, c, r) >= 0;
      CannonRayExact(g, col, row, color, d, c', r', over, lm);
      CannonCellExact(g, col, row, color, d, c, r, jumped, c', r', over, lm);
    }
  }

  lemma {:induction false} CannonCellExact(g: Grid, col: int, row: int, color: Color, d: Dir, c: int, r: int,
                                           jumped: bool, c': int, r': int, over: bool, lm: LegalMove)
    requires OnBoard(c, r) && c' == c + DCol(d) && r' == r + DRow(d) && over == (jumped || At(g, c, r) >= 0)
    requires lm in CannonRay(g, col, row, color, d, c', r', over) <==>
      && lm == Entry(g, Move(col, row, lm.move.toCol, lm.move.toRow))
      && CannonReaches(g, color, d, c', r', over, lm.move.toCol, lm.move.toRow)
    ensures lm in CannonRay(g, col, row, color, d, c, r, jumped) <==>
      && lm == Entry(g, Move(col, row, lm.move.toCol, lm.move.toRow))
      && CannonReaches(g, color, d, c, r, jumped, lm.move.toCol, lm.move.toRow)
  {
    var here := Entry(g, Move(col, row, c, r));
    CannonStep(g, color, d, c, r, jumped, lm.move.toCol, lm.move.toRow);
    NotBehind(d, c, r);
    InFront(lm, here, CannonRay(g, col, row, color, d, c', r', over));
    assert lm in [here] <==> lm == here;
  }

  // ----- From rays to straight moves -----

  /** The ray that a straight move runs along. */
  function DirOf(m: Move): Dir {
    if m.toRow > m.fromRow then Down
    else if m.toRow < m.fromRow then Up
    else if m.toCol > m.fromCol then Right
    else Left
  }

  predicate OnRay(d: Dir, m: Move) {
    Beyond(d, m.fromCol + DCol(d), m.fromRow + DRow(d), m.toCol, m.toRow)
  }

  lemma StraightIsRay(m: Move, d: Dir)
    ensures OnRay(d, m) <==> Straight(m) && d == DirOf(m)
  {
  }

  lemma BetweenIsRay(m: Move, d: Dir, x: int, y: int)
    requires OnRay(d, m)
    ensures Between(m, x, y) <==>
      Beyond(d, m.fromCol + DCol(d), m.fromRow + DRow(d), x, y) && Beyond(d, x, y, m.toCol, m.toRow)
        && (x, y) != (m.toCol, m.toRow)
  {
  }

  lemma NothingBetweenIsClear(g: Grid, m: Move, d: Dir)
    requires OnRay(d, m)
    ensures NothingBetween(g, m) <==> ClearUpTo(g, d, m.fromCol + DCol(d), m.fromRow + DRow(d), m.toCol, m.toRow)
  {
    forall x, y { BetweenIsRay(m, d, x, y); }
  }

  lemma ScreenIsOnRay(g: Grid, m: Move, d: Dir, x: int, y: int)
    requires OnRay(d, m)
    ensures OnlyScreen(g, m, x, y) <==> ScreenAt(g, d, m.fromCol + DCol(d), m.fromRow + DRow(d), m.toCol, m.toRow, x, y)
  {
    forall u, v { BetweenIsRay(m, d, u, v); }
    if Between(m, x, y) {
      OneCellOfRay(d, m.fromCol + DCol(d), m.fromRow + DRow(d), m.toCol, m.toRow, x, y);
    }
  }

  lemma OneBetweenIsScreened(g: Grid, m: Move, d: Dir)
    requires OnRay(d, m)
    ensures OneBetween(g, m) <==> Screened(g, d, m.fromCol + DCol(d), m.fromRow + DRow(d), m.toCol, m.toRow)
  {
    var c, r := m.fromCol + DCol(d), m.fromRow + DRow(d);
    forall x, y
      ensures OnlyScreen(g, m, x, y) <==> ScreenAt(g, d, c, r, m.toCol, m.toRow, x, y)
    {
      ScreenIsOnRay(g, m, d, x, y);
    }
  }

  /** A cell of a stretch splits the rest of it into what comes before and what comes after. */
  lemma OneCellOfRay(d: Dir, c: int, r: int, c2: int, r2: int, x: int, y: int)
    requires Beyond(d, c, r, x, y) && Beyond(d, x, y, c2, r2) && (x, y) != (c2, r2)
    ensures forall u, v ::
      (Beyond(d, c, r, u, v) && Beyond(d, u, v, c2, r2) && (u, v) != (c2, r2) && (u, v) != (x, y)) <==>
      ((Beyond(d, c, r, u, v) && Beyond(d, u, v, x, y) && (u, v) != (x, y))
       || (Beyond(d, x + DCol(d), y + DRow(d), u, v) && Beyond(d, u, v, c2, r2) && (u, v) != (c2, r2)))
  {
  }

  // ----- Whole pieces and the whole side -----

  function RookRays(g: Grid, col: int, row: int, color: Color, dirs: seq<Dir>): seq<LegalMove>
    decreases dirs, g
  {
    if dirs == [] then []
    else
      RookRay(g, col, row, color, dirs[0], col + DCol(dirs[0]), row + DRow(dirs[0]))
      + RookRays(g, col, row, color, dirs[1..])
  }

  function CannonRays(g: Grid, col: int, row: int, color: Color, dirs: seq<Dir>): seq<LegalMove>
    decreases dirs, g
  {
    if dirs == [] then []
    else
      CannonRay(g, col, row, color, dirs[0], col + DCol(dirs[0]), row + DRow(dirs[0]), false)
      + CannonRays(g, col, row, color, dirs[1..])
  }

  function StepsOf(kind: int, color: Color): seq<Offset> {
    if kind == KING then KING_STEPS
    else if kind == ADVISOR then ADVISOR_STEPS
    else if kind == BISHOP then BISHOP_STEPS
    else if kind == KNIGHT then KNIGHT_STEPS
    else [(0, if color == Red then -1 else 1), (-1, 0), (1, 0)]
  }

  ghost function PieceMoves(g: Grid, col: int, row: int): seq<LegalMove> {
    var piece := At(g, col, row);
    if piece < 0 then []
    else
      var color, kind := ColorOf(piece), Kind(piece);
      if kind == ROOK then RookRays(g, col, row, color, DIRS)
      else if kind == CANNON then CannonRays(g, col, row, color, DIRS)
      else StepMoves(g, col, row, color, kind, StepsOf(kind, color))
  }

  /** The moves of color's pieces from (col, row) on, in reading order. */
  ghost function MovesFrom(g: Grid, color: Color, col: int, row: int): seq<LegalMove>
    requires 0 <= col <= COLS && 0 <= row <= ROWS
    decreases ROWS - row, COLS - col, g
  {
    if row == ROWS then []
    else if col == COLS then MovesFrom(g, color, 0, row + 1)
    else (if Owns(color, At(g, col, row)) then PieceMoves(g, col, row) else []) + MovesFrom(g, color, col + 1, row)
  }

  ghost function AllMoves(g: Grid, color: Color): seq<LegalMove> {
    MovesFrom(g, color, 0, 0)
  }

  // ----- Exactness -----

  /** The entry for a move that the rules allow. */
  ghost predicate Ruled(g: Grid, color: Color, lm: LegalMove) {
    lm == Entry(g, lm.move) && Reaches(g, color, lm.move)
  }

  /** The entry for a move of the piece on (col, row) that the rules allow. */
  ghost predicate Proper(g: Grid, color: Color, col: int, row: int, lm: LegalMove) {
    Ruled(g, color, lm) && lm.move.fromCol == col && lm.move.fromRow == row
  }

  /** The entry for a move from (col, row) along a straight line to a cell that is not own. */
  ghost predicate RayEntry(g: Grid, col: int, row: int, color: Color, lm: LegalMove) {
    && lm == Entry(g, Move(col, row, lm.move.toCol, lm.move.toRow))
    && OnBoard(lm.move.toCol, lm.move.toRow) && !Owns(color, At(g, lm.move.toCol, lm.move.toRow))
    && Straight(lm.move)
  }

  ghost predicate RookEntry(g: Grid, col: int, row: int, color: Color, lm: LegalMove) {
    RayEntry(g, col, row, color, lm) && NothingBetween(g, lm.move)
  }

  ghost predicate CannonEntry(g: Grid, col: int, row: int, color: Color, lm: LegalMove) {
    RayEntry(g, col, row, color, lm) && CannonShape(g, lm.move)
  }

  lemma OneRookRay(g: Grid, col: int, row: int, color: Color, d: Dir, lm: LegalMove)
    requires OnBoard(col, row)
    ensures lm in RookRay(g, col, row, color, d, col + DCol(d), row + DRow(d)) <==>
      RookEntry(g, col, row, color, lm) && DirOf(lm.move) == d
  {
    var m := Move(col, row, lm.move.toCol, lm.move.toRow);
    RookRayExact(g, col, row, color, d, col + DCol(d), row + DRow(d), lm);
    StraightIsRay(m, d);
    if OnRay(d, m) {
      NothingBetweenIsClear(g, m, d);
    }
  }

  ghost predicate OnRookRay(g: Grid, col: int, row: int, color: Color, d: Dir, lm: LegalMove) {
    lm in RookRay(g, col, row, color, d, col + DCol(d), row + DRow(d))
  }

  lemma {:induction false} InRookRays(g: Grid, col: int, row: int, color: Color, dirs: seq<Dir>, lm: LegalMove)
    ensures lm in RookRays(g, col, row, color, dirs) <==> exists d :: d in dirs && OnRookRay(g, col, row, color, d, lm)
  {
    if dirs != [] {
      InRookRays(g, col, row, color, dirs[1..], lm);
      assert lm in RookRays(g, col, row, color, dirs) <==>
        OnRookRay(g, col, row, color, dirs[0], lm) || lm in RookRays(g, col, row, color, dirs[1..]);
    }
  }

  lemma RookRaysExact(g: Grid, col: int, row: int, color: Color, dirs: seq<Dir>, lm: LegalMove)
    requires OnBoard(col, row)
    ensures lm in RookRays(g, col, row, color, dirs) <==>
      RookEntry(g, col, row, color, lm) && DirOf(lm.move) in dirs
  {
    InRookRays(g, col, row, color, dirs, lm);
    forall d
      ensures OnRookRay(g, col, row, color, d, lm) <==> RookEntry(g, col, row, color, lm) && DirOf(lm.move) == d
    {
      OneRookRay(g, col, row, color, d, lm);
    }
  }

  lemma OneCannonRay(g: Grid, col: int, row: int, color: Color, d: Dir, lm: LegalMove)
    requires OnBoard(col, row)
    ensures lm in CannonRay(g, col, row, color, d, col + DCol(d), row + DRow(d), false) <==>
      CannonEntry(g, col, row, color, lm) && DirOf(lm.move) == d
  {
    CannonRayExact(g, col, row, color, d, col + DCol(d), row + DRow(d), false, lm);
    CannonEntryAlong(g, col, row, color, d, lm, Move(col, row, lm.move.toCol, lm.move.toRow));
  }

  lemma CannonEntryAlong(g: Grid, col: int, row: int, color: Color, d: Dir, lm: LegalMove, m: Move)
    requires OnBoard(col, row) && m == Move(col, row, lm.move.toCol, lm.move.toRow)
    ensures CannonEntry(g, col, row, color, lm) && DirOf(lm.move) == d <==>
      lm == Entry(g, m) && CannonReaches(g, color, d, col + DCol(d), row + DRow(d), false, m.toCol, m.toRow)
  {
    CannonReachesAlong(g, color, m, d);
    StraightIsRay(m, d);
  }

  lemma CannonReachesAlong(g: Grid, color: Color, m: Move, d: Dir)
    requires OnBoard(m.fromCol, m.fromRow)
    ensures CannonReaches(g, color, d, m.fromCol + DCol(d), m.fromRow + DRow(d), false, m.toCol, m.toRow) <==>
      OnRay(d, m) && OnBoard(m.toCol, m.toRow) && !Owns(color, At(g, m.toCol, m.toRow)) && CannonShape(g, m)
  {
    if OnRay(d, m) {
      CannonShapeOnRay(g, m, d);
    }
  }

  lemma CannonShapeOnRay(g: Grid, m: Move, d: Dir)
    requires OnRay(d, m)
    ensures var c, r := m.fromCol + DCol(d), m.fromRow + DRow(d);
      CannonShape(g, m) <==> if IsPiece(At(g, m.toCol, m.toRow)) then Screened(g, d, c, r, m.toCol, m.toRow)
                             else ClearUpTo(g, d, c, r, m.toCol, m.toRow)
  {
    StraightIsRay(m, d);
    NothingBetweenIsClear(g, m, d);
    OneBetweenIsScreened(g, m, d);
  }

  ghost predicate OnCannonRay(g: Grid, col: int, row: int, color: Color, d: Dir, lm: LegalMove) {
    lm in CannonRay(g, col, row, color, d, col + DCol(d), row + DRow(d), false)
  }

  lemma {:induction false} InCannonRays(g: Grid, col: int, row: int, color: Color, dirs: seq<Dir>, lm: LegalMove)
    ensures lm in CannonRays(g, col, row, color, dirs) <==>
      exists d :: d in dirs && OnCannonRay(g, col, row, color, d, lm)
  {
    if dirs != [] {
      InCannonRays(g, col, row, color, dirs[1..], lm);
      assert lm in CannonRays(g, col, row, color, dirs) <==>
        OnCannonRay(g, col, row, color, dirs[0], lm) || lm in CannonRays(g, col, row, color, dirs[1..]);
    }
  }

  lemma CannonRaysExact(g: Grid, col: int, row: int, color: Color, dirs: seq<Dir>, lm: LegalMove)
    requires OnBoard(col, row)
    ensures lm in CannonRays(g, col, row, color, dirs) <==>
      CannonEntry(g, col, row, color, lm) && DirOf(lm.move) in dirs
  {
    InCannonRays(g, col, row, color, dirs, lm);
    forall d
      ensures OnCannonRay(g, col, row, color, d, lm) <==> CannonEntry(g, col, row, color, lm) && DirOf(lm.move) == d
    {
      OneCannonRay(g, col, row, color, d, lm);
    }
  }

  /** Every move of a stepping piece's shape is one of its steps. */
  lemma ShapeIsStep(g: Grid, m: Move, color: Color, kind: int) returns (i: nat)
    requires kind != ROOK && kind != CANNON && Shape(g, m, color, kind)
    ensures i < |StepsOf(kind, color)| && m == StepTo(m.fromCol, m.fromRow, StepsOf(kind, color)[i])
  {
    var o := (m.toCol - m.fromCol, m.toRow - m.fromRow);
    var steps := StepsOf(kind, color);
    assert o in steps by {
      if kind == KING {
        assert o == KING_STEPS[0] || o == KING_STEPS[1] || o == KING_STEPS[2] || o == KING_STEPS[3];
      } else if kind == ADVISOR {
        assert o == ADVISOR_STEPS[0] || o == ADVISOR_STEPS[1] || o == ADVISOR_STEPS[2] || o == ADVISOR_STEPS[3];
      } else if kind == BISHOP {
        assert o == BISHOP_STEPS[0] || o == BISHOP_STEPS[1] || o == BISHOP_STEPS[2] || o == BISHOP_STEPS[3];
      } else if kind == KNIGHT {
        assert o == KNIGHT_STEPS[0] || o == KNIGHT_STEPS[1] || o == KNIGHT_STEPS[2] || o == KNIGHT_STEPS[3]
            || o == KNIGHT_STEPS[4] || o == KNIGHT_STEPS[5] || o == KNIGHT_STEPS[6] || o == KNIGHT_STEPS[7];
      } else {
        assert o == steps[0] || o == steps[1] || o == steps[2];
      }
    }
    i :| 0 <= i < |steps| && steps[i] == o;
  }

  /** A generated list holds exactly the moves the rules allow its piece. */
  lemma PieceMovesExact(g: Grid, col: int, row: int, lm: LegalMove)
    requires IsPiece(At(g, col, row))
    ensures lm in PieceMoves(g, col, row) <==> Proper(g, ColorOf(At(g, col, row)), col, row, lm)
  {
    var piece := At(g, col, row);
    var color, kind := ColorOf(piece), Kind(piece);
    if kind == ROOK {
      RookRaysExact(g, col, row, color, DIRS, lm);
      AllDirs(lm.move);
    } else if kind == CANNON {
      CannonRaysExact(g, col, row, color, DIRS, lm);
      AllDirs(lm.move);
    } else {
      StepMovesExact(g, col, row, color, kind, StepsOf(kind, color), lm);
      if Proper(g, color, col, row, lm) {
        var i := ShapeIsStep(g, lm.move, color, kind);
      }
    }
  }

  lemma AllDirs(m: Move)
    ensures DirOf(m) in DIRS
  {
    assert DIRS[0] == Down && DIRS[1] == Up && DIRS[2] == Right && DIRS[3] == Left;
  }

  /** One square's part of the list. */
  lemma SquareExact(g: Grid, color: Color, col: int, row: int, lm: LegalMove)
    requires OnBoard(col, row)
    ensures lm in MovesFrom(g, color, col, row) <==>
      (Ruled(g, color, lm) && lm.move.fromCol == col && lm.move.fromRow == row)
        || lm in MovesFrom(g, color, col + 1, row)
  {
    if Owns(color, At(g, col, row)) {
      PieceMovesExact(g, col, row, lm);
    }
  }

  lemma {:induction false} MovesFromExact(g: Grid, color: Color, col: int, row: int, lm: LegalMove)
    requires 0 <= col <= COLS && 0 <= row <= ROWS
    ensures lm in MovesFrom(g, color, col, row) <==>
      && Ruled(g, color, lm)
      && (lm.move.fromRow > row || (lm.move.fromRow == row && lm.move.fromCol >= col))
    decreases ROWS - row, COLS - col
  {
    if row == ROWS {
    } else if col == COLS {
      MovesFromExact(g, color, 0, row + 1, lm);
    } else {
      MovesFromExact(g, color, col + 1, row, lm);
      SquareExact(g, color, col, row, lm);
    }
  }

  /** The generator lists a move exactly when the rules allow it. */
  lemma AllMovesExact(g: Grid, color: Color, lm: LegalMove)
    ensures lm in AllMoves(g, color) <==> lm == Entry(g, lm.move) && Reaches(g, color, lm.move)
  {
    MovesFromExact(g, color, 0, 0, lm);
  }

  // ----- No duplicates -----

  ghost predicate Distinct<T>(s: seq<T>) {
    forall i, j :: 0 <= i < j < |s| ==> s[i] != s[j]
  }

  lemma DistinctJoin<T>(a: seq<T>, b: seq<T>)
    requires Distinct(a) && Distinct(b)
    requires forall x :: x in a ==> x !in b
    ensures Distinct(a + b)
  {
    var s := a + b;
    forall i, j | 0 <= i < j < |s|
      ensures s[i] != s[j]
    {
      if i < |a| && j >= |a| {
        assert s[i] in a && s[j] == b[j - |a|] && b[j - |a|] in b;
      }
    }
  }

  lemma {:induction false} RookRayDistinct(g: Grid, col: int, row: int, color: Color, d: Dir, c: int, r: int)
    ensures Distinct(RookRay(g, col, row, color, d, c, r))
    decreases Room(d, c, r)
  {
    if OnBoard(c, r) && At(g, c, r) < 0 {
      var here := Entry(g, Move(col, row, c, r));
      RookRayDistinct(g, col, row, color, d, c + DCol(d), r + DRow(d));
      RookRayExact(g, col, row, color, d, c + DCol(d), r + DRow(d), here);
      DistinctJoin([here], RookRay(g, col, row, color, d, c + DCol(d), r + DRow(d)));
    }
  }

  lemma {:induction false} CannonRayDistinct(g: Grid, col: int, row: int, color: Color, d: Dir, c: int, r: int,
                                             jumped: bool)
    ensures Distinct(CannonRay(g, col, row, color, d, c, r, jumped))
    decreases Room(d, c, r)
  {
    if OnBoard(c, r) {
      CannonRayDistinct(g, col, row, color, d, c + DCol(d), r + DRow(d), jumped);
      CannonRayDistinct(g, col, row, color, d, c + DCol(d), r + DRow(d), true);
      if !jumped && At(g, c, r) < 0 {
        var here := Entry(g, Move(col, row, c, r));
        CannonRayExact(g, col, row, color, d, c + DCol(d), r + DRow(d), false, here);
        DistinctJoin([here], CannonRay(g, col, row, color, d, c + DCol(d), r + DRow(d), false));
      }
    }
  }

  lemma {:induction false} RaysDistinct(g: Grid, col: int, row: int, color: Color, dirs: seq<Dir>)
    requires OnBoard(col, row) && Distinct(dirs)
    ensures Distinct(RookRays(g, col, row, color, dirs)) && Distinct(CannonRays(g, col, row, color, dirs))
  {
    if dirs != [] {
      var d, rest := dirs[0], dirs[1..];
      var c, r := col + DCol(d), row + DRow(d);
      RaysDistinct(g, col, row, color, rest);
      RookRayDistinct(g, col, row, color, d, c, r);
      CannonRayDistinct(g, col, row, color, d, c, r, false);
      forall lm | lm in RookRay(g, col, row, color, d, c, r)
        ensures lm !in RookRays(g, col, row, color, rest)
      {
        RookRayExact(g, col, row, color, d, c, r, lm);
        RookRaysExact(g, col, row, color, rest, lm);
        StraightIsRay(lm.move, d);
      }
      forall lm | lm in CannonRay(g, col, row, color, d, c, r, false)
        ensures lm !in CannonRays(g, col, row, color, rest)
      {
        CannonRayExact(g, col, row, color, d, c, r, false, lm);
        CannonRaysExact(g, col, row, color, rest, lm);
        StraightIsRay(lm.move, d);
      }
      DistinctJoin(RookRay(g, col, row, color, d, c, r), RookRays(g, col, row, color, rest));
      DistinctJoin(CannonRay(g, col, row, color, d, c, r, false), CannonRays(g, col, row, color, rest));
    }
  }

  lemma RestDistinct<T>(s: seq<T>, rest: seq<T>)
    requires s != [] && rest == s[1..] && Distinct(s)
    ensures Distinct(rest) && s[0] !in rest
  {
    assert forall i :: 0 <= i < |rest| ==> rest[i] == s[i + 1];
  }

  lemma {:induction false} StepsDistinct(g: Grid, col: int, row: int, color: Color, kind: int, steps: seq<Offset>)
    requires Distinct(steps)
    ensures Distinct(StepMoves(g, col, row, color, kind, steps))
  {
    if steps != [] {
      var rest := steps[1..];
      RestDistinct(steps, rest);
      StepsDistinct(g, col, row, color, kind, rest);
      var here := Entry(g, StepTo(col, row, steps[0]));
      StepMovesExact(g, col, row, color, kind, rest, here);
      DistinctJoin([here], StepMoves(g, col, row, color, kind, rest));
    }
  }

  lemma StepsOfDistinct(kind: int, color: Color)
    ensures Distinct(StepsOf(kind, color)) && Distinct(DIRS)
  {
  }

  lemma PieceMovesDistinct(g: Grid, col: int, row: int)
    ensures Distinct(PieceMoves(g, col, row))
  {
    if IsPiece(At(g, col, row)) {
      var color, kind := ColorOf(At(g, col, row)), Kind(At(g, col, row));
      var dirs, steps := DIRS, StepsOf(kind, color);
      StepsOfDistinct(kind, color);
      RaysDistinct(g, col, row, color, dirs);
      StepsDistinct(g, col, row, color, kind, steps);
    }
  }

  lemma OthersElsewhere(g: Grid, color: Color, col: int, row: int, lm: LegalMove)
    requires OnBoard(col, row) && lm in PieceMoves(g, col, row)
    ensures lm !in MovesFrom(g, color, col + 1, row)
  {
    PieceMovesExact(g, col, row, lm);
    MovesFromExact(g, color, col + 1, row, lm);
  }

  lemma {:induction false} MovesFromDistinct(g: Grid, color: Color, col: int, row: int)
    requires 0 <= col <= COLS && 0 <= row <= ROWS
    ensures Distinct(MovesFrom(g, color, col, row))
    decreases ROWS - row, COLS - col
  {
    if row == ROWS {
    } else if col == COLS {
      MovesFromDistinct(g, color, 0, row + 1);
    } else {
      MovesFromDistinct(g, color, col + 1, row);
      PieceMovesJoin(g, color, col, row, PieceMoves(g, col, row), MovesFrom(g, color, col + 1, row));
    }
  }

  lemma PieceMovesJoin(g: Grid, color: Color, col: int, row: int, here: seq<LegalMove>, rest: seq<LegalMove>)
    requires OnBoard(col, row) && here == PieceMoves(g, col, row) && rest == MovesFrom(g, color, col + 1, row)
    requires Distinct(rest)
    ensures Distinct(here + rest)
  {
    PieceMovesDistinct(g, col, row);
    forall lm | lm in here
      ensures lm !in rest
    {
      OthersElsewhere(g, color, col, row, lm);
    }
    DistinctJoin(here, rest);
  }

  /** No move is listed twice. */
  lemma AllMovesDistinct(g: Grid, color: Color)
    ensures Distinct(AllMoves(g, color))
  {
    MovesFromDistinct(g, color, 0, 0);
  }

  /** The generated list is the set of moves the rules allow, each listed once. */
  lemma AllMovesAreTheRules(g: Grid, color: Color)
    ensures forall m :: Reaches(g, color, m) <==> Entry(g, m) in AllMoves(g, color)
    ensures forall lm :: lm in AllMoves(g, color) ==> lm == Entry(g, lm.move)
    ensures Distinct(AllMoves(g, color))
  {
    forall m ensures Reaches(g, color, m) <==> Entry(g, m) in AllMoves(g, color) {
      AllMovesExact(g, color, Entry(g, m));
    }
    forall lm | lm in AllMoves(g, color) ensures lm == Entry(g, lm.move) {
      AllMovesExact(g, color, lm);
    }
    AllMovesDistinct(g, color);
  }
}
