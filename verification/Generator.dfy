/** The loops of chess/move_generator.py. */
module Generator {
  import opened Types
  import opened BoardModel
  import opened MoveRules
  import opened GeneratorSpec

  const BISHOP_EYES: seq<Offset> := [(1, 1), (1, -1), (-1, 1), (-1, -1)]
  const KNIGHT_LEGS: seq<Offset> := [(0, -1), (0, -1), (0, 1), (0, 1), (-1, 0), (-1, 0), (1, 0), (1, 0)]

  /** The list is finished once rest is appended. */
  ghost predicate Built(moves: seq<LegalMove>, rest: seq<LegalMove>, all: seq<LegalMove>) {
    moves + rest == all
  }

  lemma BuildMore(moves: seq<LegalMove>, found: seq<LegalMove>, rest: seq<LegalMove>, all: seq<LegalMove>)
    requires Built(moves, found + rest, all)
    ensures Built(moves + found, rest, all)
  {
    assert moves + (found + rest) == (moves + found) + rest;
  }

  lemma BuiltAll(moves: seq<LegalMove>, all: seq<LegalMove>)
    requires Built(moves, [], all)
    ensures moves == all
  {
  }

  lemma StepMovesUnfold(g: Grid, col: int, row: int, color: Color, kind: int, steps: seq<Offset>, i: nat)
    requires i < |steps|
    ensures StepMoves(g, col, row, color, kind, steps[i..])
      == StepList(g, color, StepTo(col, row, steps[i]), kind) + StepMoves(g, col, row, color, kind, steps[i + 1..])
  {
    assert steps[i..][1..] == steps[i + 1..];
  }

  lemma RookRaysUnfold(g: Grid, col: int, row: int, color: Color, dirs: seq<Dir>, i: nat)
    requires i < |dirs|
    ensures RookRays(g, col, row, color, dirs[i..])
      == RookRay(g, col, row, color, dirs[i], col + DCol(dirs[i]), row + DRow(dirs[i]))
        + RookRays(g, col, row, color, dirs[i + 1..])
  {
    assert dirs[i..][1..] == dirs[i + 1..];
  }

  lemma CannonRaysUnfold(g: Grid, col: int, row: int, color: Color, dirs: seq<Dir>, i: nat)
    requires i < |dirs|
    ensures CannonRays(g, col, row, color, dirs[i..])
      == CannonRay(g, col, row, color, dirs[i], col + DCol(dirs[i]), row + DRow(dirs[i]), false)
         + CannonRays(g, col, row, color, dirs[i + 1..])
  {
    assert dirs[i..][1..] == dirs[i + 1..];
  }

  lemma PawnIsLast(piece: Cell)
    requires IsPiece(piece) && Kind(piece) !in {KING, ADVISOR, BISHOP, KNIGHT, ROOK, CANNON}
    ensures Kind(piece) == PAWN
  {
  }

  /** What is left of the rook's list once its next ray is appended. */
  lemma {:induction false} RookRayBuilt(g: Grid, col: int, row: int, color: Color, i: nat, ray: seq<LegalMove>,
                                     moves: seq<LegalMove>, rest: seq<LegalMove>, all: seq<LegalMove>)
    returns (left: seq<LegalMove>)
    requires i < |DIRS| && Built(moves, rest, all) && rest == RookRays(g, col, row, color, DIRS[i..])
    requires ray == RookRay(g, col, row, color, DIRS[i], col + DCol(DIRS[i]), row + DRow(DIRS[i]))
    ensures left == RookRays(g, col, row, color, DIRS[i + 1..]) && Built(moves + ray, left, all)
  {
    left := RookRays(g, col, row, color, DIRS[i + 1..]);
    RookRaysUnfold(g, col, row, color, DIRS, i);
    BuildMore(moves, ray, left, all);
  }

  /** What is left of the cannon's list once its next ray is appended. */
  lemma {:induction false} CannonRayBuilt(g: Grid, col: int, row: int, color: Color, i: nat, ray: seq<LegalMove>,
                                     moves: seq<LegalMove>, rest: seq<LegalMove>, all: seq<LegalMove>)
    returns (left: seq<LegalMove>)
    requires i < |DIRS| && Built(moves, rest, all) && rest == CannonRays(g, col, row, color, DIRS[i..])
    requires ray == CannonRay(g, col, row, color, DIRS[i], col + DCol(DIRS[i]), row + DRow(DIRS[i]), false)
    ensures left == CannonRays(g, col, row, color, DIRS[i + 1..]) && Built(moves + ray, left, all)
  {
    left := CannonRays(g, col, row, color, DIRS[i + 1..]);
    CannonRaysUnfold(g, col, row, color, DIRS, i);
    BuildMore(moves, ray, left, all);
  }

  lemma KingStepAllowed(g: Grid, col: int, row: int, color: Color, i: nat)
    requires i < |KING_STEPS|
    ensures var m := StepTo(col, row, KING_STEPS[i]);
      StepAllowed(g, color, m, KING) <==> InPalace(m.toCol, m.toRow, color) && !Owns(color, At(g, m.toCol, m.toRow))
  {
  }

  lemma AdvisorStepAllowed(g: Grid, col: int, row: int, color: Color, i: nat)
    requires i < |ADVISOR_STEPS|
    ensures var m := StepTo(col, row, ADVISOR_STEPS[i]);
      StepAllowed(g, color, m, ADVISOR) <==> InPalace(m.toCol, m.toRow, color) && !Owns(color, At(g, m.toCol, m.toRow))
  {
  }

  lemma BishopStepAllowed(g: Grid, col: int, row: int, color: Color, i: nat)
    requires i < |BISHOP_STEPS|
    ensures var m := StepTo(col, row, BISHOP_STEPS[i]);
      StepAllowed(g, color, m, BISHOP) <==>
        && OnBoard(m.toCol, m.toRow) && (if color == Red then m.toRow >= RIVER_ROW else m.toRow < RIVER_ROW)
        && !IsPiece(At(g, col + BISHOP_EYES[i].0, row + BISHOP_EYES[i].1))
        && !Owns(color, At(g, m.toCol, m.toRow))
  {
  }

  lemma KnightStepAllowed(g: Grid, col: int, row: int, color: Color, i: nat)
    requires i < |KNIGHT_STEPS|
    ensures var m := StepTo(col, row, KNIGHT_STEPS[i]);
      StepAllowed(g, color, m, KNIGHT) <==>
        && OnBoard(m.toCol, m.toRow) && !IsPiece(At(g, col + KNIGHT_LEGS[i].0, row + KNIGHT_LEGS[i].1))
        && !Owns(color, At(g, m.toCol, m.toRow))
  {
  }

  predicate PawnCrossed(row: int, color: Color) {
    (color == Red && row <= RIVER_ROW) || (color == Black && row > RIVER_ROW)
  }

  /** The pawn's list up to its n-th step. */
  ghost function PawnPrefix(g: Grid, col: int, row: int, color: Color, n: int): seq<LegalMove>
    requires 0 <= n <= 3
  {
    if n == 0 then []
    else PawnPrefix(g, col, row, color, n - 1) + StepList(g, color, StepTo(col, row, StepsOf(PAWN, color)[n - 1]), PAWN)
  }

  lemma PawnMovesUnfold(g: Grid, col: int, row: int, color: Color)
    ensures PawnPrefix(g, col, row, color, 1) == StepList(g, color, StepTo(col, row, StepsOf(PAWN, color)[0]), PAWN)
    ensures StepMoves(g, col, row, color, PAWN, StepsOf(PAWN, color)) ==
      PawnPrefix(g, col, row, color, if PawnCrossed(row, color) then 3 else 1)
  {
    var steps := StepsOf(PAWN, color);
    StepMovesUnfold(g, col, row, color, PAWN, steps, 0);
    StepMovesUnfold(g, col, row, color, PAWN, steps, 1);
    StepMovesUnfold(g, col, row, color, PAWN, steps, 2);
    assert steps[0..] == steps && steps[3..] == [];
    assert PawnPrefix(g, col, row, color, 1) == StepList(g, color, StepTo(col, row, steps[0]), PAWN);
    assert PawnPrefix(g, col, row, color, 2) == PawnPrefix(g, col, row, color, 1)
      + StepList(g, color, StepTo(col, row, steps[1]), PAWN);
    if !PawnCrossed(row, color) {
      assert StepList(g, color, StepTo(col, row, steps[1]), PAWN) == [];
      assert StepList(g, color, StepTo(col, row, steps[2]), PAWN) == [];
    }
  }

  class MoveGenerator {
    const board: Board

    constructor (board: Board)
      ensures this.board == board
    {
      this.board := board;
    }

    method KingStep(col: int, row: int, color: Color, i: nat) returns (found: seq<LegalMove>)
      requires i < |KING_STEPS|
      ensures found == StepList(board.cells, color, StepTo(col, row, KING_STEPS[i]), KING)
    {
      KingStepAllowed(board.cells, col, row, color, i);
      var (dcol, drow) := KING_STEPS[i];
      var newCol, newRow := col + dcol, row + drow;
      found := [];
      if InPalace(newCol, newRow, color) {
        var target := board.Get(newCol, newRow);
        if target < 0 || ColorOf(target) != color {
          found := [Entry(board.cells, Move(col, row, newCol, newRow))];
        }
      }
    }

    method GenerateKingMoves(col: int, row: int, color: Color) returns (moves: seq<LegalMove>)
      ensures moves == StepMoves(board.cells, col, row, color, KING, KING_STEPS)
    {
      moves := [];
      ghost var all := StepMoves(board.cells, col, row, color, KING, KING_STEPS);
      for i := 0 to |KING_STEPS|
        invariant Built(moves, StepMoves(board.cells, col, row, color, KING, KING_STEPS[i..]), all)
      {
        StepMovesUnfold(board.cells, col, row, color, KING, KING_STEPS, i);
        var found := KingStep(col, row, color, i);
        BuildMore(moves, found, StepMoves(board.cells, col, row, color, KING, KING_STEPS[i + 1..]), all);
        moves := moves + found;
      }
    }

    method AdvisorStep(col: int, row: int, color: Color, i: nat) returns (found: seq<LegalMove>)
      requires i < |ADVISOR_STEPS|
      ensures found == StepList(board.cells, color, StepTo(col, row, ADVISOR_STEPS[i]), ADVISOR)
    {
      AdvisorStepAllowed(board.cells, col, row, color, i);
      var (dcol, drow) := ADVISOR_STEPS[i];
      var newCol, newRow := col + dcol, row + drow;
      found := [];
      if InPalace(newCol, newRow, color) {
        var target := board.Get(newCol, newRow);
        if target < 0 || ColorOf(target) != color {
          found := [Entry(board.cells, Move(col, row, newCol, newRow))];
        }
      }
    }

    method GenerateAdvisorMoves(col: int, row: int, color: Color) returns (moves: seq<LegalMove>)
      ensures moves == StepMoves(board.cells, col, row, color, ADVISOR, ADVISOR_STEPS)
    {
      moves := [];
      ghost var all := StepMoves(board.cells, col, row, color, ADVISOR, ADVISOR_STEPS);
      for i := 0 to |ADVISOR_STEPS|
        invariant Built(moves, StepMoves(board.cells, col, row, color, ADVISOR, ADVISOR_STEPS[i..]), all)
      {
        StepMovesUnfold(board.cells, col, row, color, ADVISOR, ADVISOR_STEPS, i);
        var found := AdvisorStep(col, row, color, i);
        BuildMore(moves, found, StepMoves(board.cells, col, row, color, ADVISOR, ADVISOR_STEPS[i + 1..]), all);
        moves := moves + found;
      }
    }

    method BishopStep(col: int, row: int, color: Color, i: nat) returns (found: seq<LegalMove>)
      requires i < |BISHOP_STEPS|
      ensures found == StepList(board.cells, color, StepTo(col, row, BISHOP_STEPS[i]), BISHOP)
    {
      BishopStepAllowed(board.cells, col, row, color, i);
      var (dcol, drow) := BISHOP_STEPS[i];
      var newCol, newRow := col + dcol, row + drow;
      found := [];
      if OnBoard(newCol, newRow) && !(color == Red && newRow < RIVER_ROW) && !(color == Black && newRow >= RIVER_ROW) {
        var (ecol, erow) := BISHOP_EYES[i];
        if board.Get(col + ecol, row + erow) < 0 {
          var target := board.Get(newCol, newRow);
          if target < 0 || ColorOf(target) != color {
            found := [Entry(board.cells, Move(col, row, newCol, newRow))];
          }
        }
      }
    }

    method GenerateBishopMoves(col: int, row: int, color: Color) returns (moves: seq<LegalMove>)
      ensures moves == StepMoves(board.cells, col, row, color, BISHOP, BISHOP_STEPS)
    {
      moves := [];
      ghost var all := StepMoves(board.cells, col, row, color, BISHOP, BISHOP_STEPS);
      for i := 0 to |BISHOP_STEPS|
        invariant Built(moves, StepMoves(board.cells, col, row, color, BISHOP, BISHOP_STEPS[i..]), all)
      {
        StepMovesUnfold(board.cells, col, row, color, BISHOP, BISHOP_STEPS, i);
        var found := BishopStep(col, row, color, i);
        BuildMore(moves, found, StepMoves(board.cells, col, row, color, BISHOP, BISHOP_STEPS[i + 1..]), all);
        moves := moves + found;
      }
    }

    method KnightStep(col: int, row: int, color: Color, i: nat) returns (found: seq<LegalMove>)
      requires i < |KNIGHT_STEPS|
      ensures found == StepList(board.cells, color, StepTo(col, row, KNIGHT_STEPS[i]), KNIGHT)
    {
      KnightStepAllowed(board.cells, col, row, color, i);
      var (dcol, drow) := KNIGHT_STEPS[i];
      var newCol, newRow := col + dcol, row + drow;
      found := [];
      if OnBoard(newCol, newRow) {
        var (lcol, lrow) := KNIGHT_LEGS[i];
        if board.Get(col + lcol, row + lrow) < 0 {
          var target := board.Get(newCol, newRow);
          if target < 0 || ColorOf(target) != color {
            found := [Entry(board.cells, Move(col, row, newCol, newRow))];
          }
        }
      }
    }

    method GenerateKnightMoves(col: int, row: int, color: Color) returns (moves: seq<LegalMove>)
      ensures moves == StepMoves(board.cells, col, row, color, KNIGHT, KNIGHT_STEPS)
    {
      moves := [];
      ghost var all := StepMoves(board.cells, col, row, color, KNIGHT, KNIGHT_STEPS);
      for i := 0 to |KNIGHT_STEPS|
        invariant Built(moves, StepMoves(board.cells, col, row, color, KNIGHT, KNIGHT_STEPS[i..]), all)
      {
        StepMovesUnfold(board.cells, col, row, color, KNIGHT, KNIGHT_STEPS, i);
        var found := KnightStep(col, row, color, i);
        BuildMore(moves, found, StepMoves(board.cells, col, row, color, KNIGHT, KNIGHT_STEPS[i + 1..]), all);
        moves := moves + found;
      }
    }

    /** One cell of a rook's ray: what it adds, and whether the ray goes on behind it. */
    method RookRayCell(col: int, row: int, color: Color, d: Dir, c: int, r: int, ghost ray: seq<LegalMove>)
      returns (found: seq<LegalMove>, open: bool, ghost rest: seq<LegalMove>)
      requires OnBoard(c, r) && ray == RookRay(board.cells, col, row, color, d, c, r)
      ensures ray == found + rest
      ensures if open then rest == RookRay(board.cells, col, row, color, d, c + DCol(d), r + DRow(d)) else rest == []
    {
      var target := board.Get(c, r);
      var here := Entry(board.cells, Move(col, row, c, r));
      if target < 0 {
        return [here], true, ray[1..];
      } else if ColorOf(target) != color {
        return [here], false, [];
      } else {
        return [], false, [];
      }
    }

    method RookRayMoves(col: int, row: int, color: Color, d: Dir) returns (moves: seq<LegalMove>)
      ensures moves == RookRay(board.cells, col, row, color, d, col + DCol(d), row + DRow(d))
    {
      moves := [];
      var curCol, curRow, open := col + DCol(d), row + DRow(d), true;
      ghost var all := RookRay(board.cells, col, row, color, d, curCol, curRow);
      ghost var rest := all;
      while open && OnBoard(curCol, curRow)
        invariant Built(moves, rest, all)
        invariant if open then rest == RookRay(board.cells, col, row, color, d, curCol, curRow) else rest == []
        decreases open, Room(d, curCol, curRow)
      {
        var found;
        found, open, rest := RookRayCell(col, row, color, d, curCol, curRow, rest);
        BuildMore(moves, found, rest, all);
        moves := moves + found;
        if open {
          curCol, curRow := curCol + DCol(d), curRow + DRow(d);
        }
      }
      BuiltAll(moves, all);
    }

    method GenerateRookMoves(col: int, row: int, color: Color) returns (moves: seq<LegalMove>)
      ensures moves == RookRays(board.cells, col, row, color, DIRS)
    {
      moves := [];
      ghost var all := RookRays(board.cells, col, row, color, DIRS);
      ghost var rest := all;
      for i := 0 to |DIRS|
        invariant Built(moves, rest, all) && rest == RookRays(board.cells, col, row, color, DIRS[i..])
      {
        var ray := RookRayMoves(col, row, color, DIRS[i]);
        rest := RookRayBuilt(board.cells, col, row, color, i, ray, moves, rest, all);
        moves := moves + ray;
      }
      BuiltAll(moves, all);
    }

    /** One cell of a cannon's ray: what it adds, whether the ray goes on behind it, and whether
        the cannon has jumped by then. */
    method CannonRayCell(col: int, row: int, color: Color, d: Dir, c: int, r: int, jumped: bool,
                         ghost ray: seq<LegalMove>)
      returns (found: seq<LegalMove>, open: bool, over: bool, ghost rest: seq<LegalMove>)
      requires OnBoard(c, r) && ray == CannonRay(board.cells, col, row, color, d, c, r, jumped)
      ensures ray == found + rest
      ensures if open then rest == CannonRay(board.cells, col, row, color, d, c + DCol(d), r + DRow(d), over)
        else rest == []
    {
      var target := board.Get(c, r);
      var here := Entry(board.cells, Move(col, row, c, r));
      if !jumped {
        if target < 0 {
          return [here], true, false, ray[1..];
        } else {
          return [], true, true, ray;
        }
      } else {
        if target < 0 {
          return [], true, true, ray;
        } else if ColorOf(target) != color {
          return [here], false, true, [];
        } else {
          return [], false, true, [];
        }
      }
    }

    method CannonRayMoves(col: int, row: int, color: Color, d: Dir) returns (moves: seq<LegalMove>)
      ensures moves == CannonRay(board.cells, col, row, color, d, col + DCol(d), row + DRow(d), false)
    {
      moves := [];
      var curCol, curRow, open, jumped := col + DCol(d), row + DRow(d), true, false;
      ghost var all := CannonRay(board.cells, col, row, color, d, curCol, curRow, false);
      ghost var rest := all;
      while open && OnBoard(curCol, curRow)
        invariant Built(moves, rest, all)
        invariant if open then rest == CannonRay(board.cells, col, row, color, d, curCol, curRow, jumped)
          else rest == []
        decreases open, Room(d, curCol, curRow)
      {
        var found;
        found, open, jumped, rest := CannonRayCell(col, row, color, d, curCol, curRow, jumped, rest);
        BuildMore(moves, found, rest, all);
        moves := moves + found;
        if open {
          curCol, curRow := curCol + DCol(d), curRow + DRow(d);
        }
      }
      BuiltAll(moves, all);
    }

    method GenerateCannonMoves(col: int, row: int, color: Color) returns (moves: seq<LegalMove>)
      ensures moves == CannonRays(board.cells, col, row, color, DIRS)
    {
      moves := [];
      ghost var all := CannonRays(board.cells, col, row, color, DIRS);
      ghost var rest := all;
      for i := 0 to |DIRS|
        invariant Built(moves, rest, all) && rest == CannonRays(board.cells, col, row, color, DIRS[i..])
      {
        var ray := CannonRayMoves(col, row, color, DIRS[i]);
        rest := CannonRayBuilt(board.cells, col, row, color, i, ray, moves, rest, all);
        moves := moves + ray;
      }
      BuiltAll(moves, all);
    }

    method PawnForward(col: int, row: int, color: Color) returns (found: seq<LegalMove>)
      requires OnBoard(col, row)
      ensures found == StepList(board.cells, color, StepTo(col, row, StepsOf(PAWN, color)[0]), PAWN)
    {
      found := [];
      var newRow := if color == Red then row - 1 else row + 1;
      if 0 <= newRow < ROWS {
        var target := board.Get(col, newRow);
        if target < 0 || ColorOf(target) != color {
          found := [Entry(board.cells, Move(col, row, col, newRow))];
        }
      }
    }

    method PawnSide(col: int, row: int, color: Color, i: nat) returns (found: seq<LegalMove>)
      requires OnBoard(col, row) && 1 <= i <= 2 && PawnCrossed(row, color)
      ensures found == StepList(board.cells, color, StepTo(col, row, StepsOf(PAWN, color)[i]), PAWN)
    {
      found := [];
      var newCol := col + (if i == 1 then -1 else 1);
      if 0 <= newCol < COLS {
        var target := board.Get(newCol, row);
        if target < 0 || ColorOf(target) != color {
          found := [Entry(board.cells, Move(col, row, newCol, row))];
        }
      }
    }

    method GeneratePawnMoves(col: int, row: int, color: Color) returns (moves: seq<LegalMove>)
      requires OnBoard(col, row)
      ensures moves == StepMoves(board.cells, col, row, color, PAWN, StepsOf(PAWN, color))
    {
      PawnMovesUnfold(board.cells, col, row, color);
      moves := PawnForward(col, row, color);
      if PawnCrossed(row, color) {
        for i := 1 to 3
          invariant moves == PawnPrefix(board.cells, col, row, color, i)
        {
          var found := PawnSide(col, row, color, i);
          moves := moves + found;
        }
      }
    }

    method GeneratePieceMoves(col: int, row: int) returns (moves: seq<LegalMove>)
      ensures moves == PieceMoves(board.cells, col, row)
    {
      var piece := board.Get(col, row);
      if piece < 0 {
        return [];
      }
      var color, kind := ColorOf(piece), Kind(piece);
      if kind == KING {
        moves := GenerateKingMoves(col, row, color);
      } else if kind == ADVISOR {
        moves := GenerateAdvisorMoves(col, row, color);
      } else if kind == BISHOP {
        moves := GenerateBishopMoves(col, row, color);
      } else if kind == KNIGHT {
        moves := GenerateKnightMoves(col, row, color);
      } else if kind == ROOK {
        moves := GenerateRookMoves(col, row, color);
      } else if kind == CANNON {
        moves := GenerateCannonMoves(col, row, color);
      } else {
        PawnIsLast(piece);
        moves := GeneratePawnMoves(col, row, color);
      }
    }

    method SquareMoves(col: int, row: int, color: Color) returns (found: seq<LegalMove>)
      requires OnBoard(col, row)
      ensures MovesFrom(board.cells, color, col, row) == found + MovesFrom(board.cells, color, col + 1, row)
    {
      found := [];
      var piece := board.Get(col, row);
      if piece >= 0 && ColorOf(piece) == color {
        found := GeneratePieceMoves(col, row);
      }
    }

    method RowMoves(row: int, color: Color) returns (moves: seq<LegalMove>)
      requires 0 <= row < ROWS
      ensures Built(moves, MovesFrom(board.cells, color, 0, row + 1), MovesFrom(board.cells, color, 0, row))
    {
      moves := [];
      ghost var all := MovesFrom(board.cells, color, 0, row);
      for col := 0 to COLS
        invariant Built(moves, MovesFrom(board.cells, color, col, row), all)
      {
        var found := SquareMoves(col, row, color);
        BuildMore(moves, found, MovesFrom(board.cells, color, col + 1, row), all);
        moves := moves + found;
      }
    }

    method GenerateAllMoves(color: Color) returns (moves: seq<LegalMove>)
      ensures moves == AllMoves(board.cells, color)
    {
      moves := [];
      ghost var all := AllMoves(board.cells, color);
      for row := 0 to ROWS
        invariant Built(moves, MovesFrom(board.cells, color, 0, row), all)
      {
        var found := RowMoves(row, color);
        BuildMore(moves, found, MovesFrom(board.cells, color, 0, row + 1), all);
        moves := moves + found;
      }
    }
  }
}
