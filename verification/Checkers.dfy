/** chess/move_validator.py and chess/win_checker.py: deciding check, legality and the end of a
    game by generating moves. */
module Checkers {
  import opened Types
  import opened BoardModel
  import opened MoveRules
  import opened GeneratorSpec
  import opened Generator

  // ----- Facts behind the scans -----

  /** (c, r) comes before (col, row) in reading order. */
  predicate Before(c: int, r: int, col: int, row: int) {
    r < row || (r == row && c < col)
  }

  ghost predicate NoAttackerBefore(g: Grid, attacker: Color, col: int, row: int, kingCol: int, kingRow: int) {
    forall c, r :: Before(c, r, col, row) ==> !Reaches(g, attacker, Move(c, r, kingCol, kingRow))
  }

  lemma PieceAttacks(g: Grid, col: int, row: int, kingCol: int, kingRow: int)
    requires IsPiece(At(g, col, row))
    ensures Reaches(g, ColorOf(At(g, col, row)), Move(col, row, kingCol, kingRow))
      <==> Entry(g, Move(col, row, kingCol, kingRow)) in PieceMoves(g, col, row)
    ensures forall lm :: lm in PieceMoves(g, col, row) && lm.move.toCol == kingCol && lm.move.toRow == kingRow ==>
      lm == Entry(g, Move(col, row, kingCol, kingRow))
  {
    PieceMovesExact(g, col, row, Entry(g, Move(col, row, kingCol, kingRow)));
    forall lm | lm in PieceMoves(g, col, row) && lm.move.toCol == kingCol && lm.move.toRow == kingRow
      ensures lm == Entry(g, Move(col, row, kingCol, kingRow))
    {
      PieceMovesExact(g, col, row, lm);
    }
  }

  /** Some generated move of the piece on (col, row) lands on the given cell. */
  method AnyLandsOn(moves: seq<LegalMove>, toCol: int, toRow: int) returns (hit: bool)
    ensures hit <==> exists lm :: lm in moves && lm.move.toCol == toCol && lm.move.toRow == toRow
  {
    for i := 0 to |moves|
      invariant forall j :: 0 <= j < i ==> !(moves[j].move.toCol == toCol && moves[j].move.toRow == toRow)
    {
      if moves[i].move.toCol == toCol && moves[i].move.toRow == toRow {
        return true;
      }
    }
    return false;
  }

  /** Whether the piece on (col, row) belongs to attacker and can take on the king's cell. */
  method PieceHits(board: Board, attacker: Color, col: int, row: int, kingCol: int, kingRow: int) returns (hit: bool)
    requires OnBoard(col, row)
    ensures hit <==> Reaches(board.cells, attacker, Move(col, row, kingCol, kingRow))
  {
    hit := false;
    var piece := board.Get(col, row);
    if piece >= 0 && ColorOf(piece) == attacker {
      PieceAttacks(board.cells, col, row, kingCol, kingRow);
      var generator := new MoveGenerator(board);
      var moves := generator.GeneratePieceMoves(col, row);
      hit := AnyLandsOn(moves, kingCol, kingRow);
    }
  }

  /** Whether no piece stands between two cells of one column. */
  method ColumnBlocked(board: Board, col: int, rowA: int, rowB: int) returns (blocked: bool)
    requires OnBoard(col, rowA) && OnBoard(col, rowB)
    ensures blocked <==> !NothingBetween(board.cells, Move(col, rowA, col, rowB))
  {
    var minRow := if rowA < rowB then rowA else rowB;
    var maxRow := if rowA < rowB then rowB else rowA;
    blocked := false;
    var r := minRow + 1;
    while r < maxRow
      invariant minRow < r
      invariant forall y :: minRow < y < r && y < maxRow ==> !IsPiece(At(board.cells, col, y))
    {
      if board.Get(col, r) >= 0 {
        assert Between(Move(col, rowA, col, rowB), col, r);
        blocked := true;
        return;
      }
      r := r + 1;
    }
  }

  method FindAttacker(board: Board, attacker: Color, kingCol: int, kingRow: int) returns (found: bool)
    ensures found <==> Attacks(board.cells, attacker, kingCol, kingRow)
  {
    for row := 0 to ROWS
      invariant NoAttackerBefore(board.cells, attacker, 0, row, kingCol, kingRow)
    {
      for col := 0 to COLS
        invariant NoAttackerBefore(board.cells, attacker, col, row, kingCol, kingRow)
      {
        var hit := PieceHits(board, attacker, col, row, kingCol, kingRow);
        if hit {
          return true;
        }
      }
    }
    return false;
  }

  method KingsMeet(board: Board, king: (int, int), other: Option<(int, int)>) returns (meet: bool)
    requires OnBoard(king.0, king.1) && (other.Some? ==> OnBoard(other.value.0, other.value.1))
    ensures meet <==> other.Some? && KingsFace(board.cells, king, other.value)
  {
    meet := false;
    if other.Some? && other.value.0 == king.0 {
      var blocked := ColumnBlocked(board, king.0, king.1, other.value.1);
      meet := !blocked;
    }
  }

  /** The check test, the same in the generator, the validator and the win checker: kings facing
      each other, or a piece of the other side that can move to the king. */
  method IsKingExposed(board: Board, color: Color) returns (exposed: bool)
    ensures exposed <==> Exposed(board.cells, color)
  {
    var king := board.LocateKing(color);
    KingFound(board.cells, color);
    KingFound(board.cells, Opponent(color));
    if king.None? {
      return false;
    }
    var opponent := Opponent(color);
    var other := board.LocateKing(opponent);
    var meet := KingsMeet(board, king.value, other);
    if meet {
      return true;
    }
    exposed := FindAttacker(board, opponent, king.value.0, king.value.1);
  }

  // ----- Move validation -----

  datatype MoveError = OutOfRange | NotOwnPiece | TargetIsOwn | AgainstPieceRules | LeavesKingExposed

  /** Why a move is refused: the first of the five tests it fails. */
  ghost function Verdict(g: Grid, color: Color, m: Move): (error: Option<MoveError>)
    ensures error.None? <==> IsLegal(g, color, m)
  {
    if !InBounds(m) then Some(OutOfRange)
    else if !Owns(color, At(g, m.fromCol, m.fromRow)) then Some(NotOwnPiece)
    else if Owns(color, At(g, m.toCol, m.toRow)) then Some(TargetIsOwn)
    else if !Shape(g, m, color, Kind(At(g, m.fromCol, m.fromRow))) then Some(AgainstPieceRules)
    else if Exposed(Apply(g, m), color) then Some(LeavesKingExposed)
    else None
  }

  class MoveValidator {
    const board: Board

    constructor (board: Board)
      ensures this.board == board
    {
      this.board := board;
    }

    method IsValidPieceMove(m: Move) returns (ok: bool)
      ensures ok <==>
        var piece := board.Get(m.fromCol, m.fromRow);
        IsPiece(piece) && Reaches(board.cells, ColorOf(piece), m)
    {
      var piece := board.Get(m.fromCol, m.fromRow);
      if piece < 0 {
        return false;
      }
      PieceAttacks(board.cells, m.fromCol, m.fromRow, m.toCol, m.toRow);
      var generator := new MoveGenerator(board);
      var moves := generator.GeneratePieceMoves(m.fromCol, m.fromRow);
      ok := AnyLandsOn(moves, m.toCol, m.toRow);
    }

    /** Plays the move on a copy of the board and looks for check there. */
    method IsSelfCheck(m: Move, color: Color) returns (check: bool)
      ensures check <==> Exposed(Apply(board.cells, m), color)
    {
      var copy := board.Clone();
      var piece := copy.Get(m.fromCol, m.fromRow);
      copy.Set(m.toCol, m.toRow, piece);
      copy.Set(m.fromCol, m.fromRow, EMPTY);
      check := IsKingExposed(copy, color);
    }

    method IsValid(m: Move, color: Color) returns (ok: bool, error: Option<MoveError>)
      ensures error == Verdict(board.cells, color, m)
      ensures ok <==> IsLegal(board.cells, color, m)
    {
      if !InBounds(m) {
        return false, Some(OutOfRange);
      }
      var piece := board.Get(m.fromCol, m.fromRow);
      if !(piece >= 0 && ColorOf(piece) == color) {
        return false, Some(NotOwnPiece);
      }
      var target := board.Get(m.toCol, m.toRow);
      if !(target < 0 || ColorOf(target) != color) {
        return false, Some(TargetIsOwn);
      }
      var follows := IsValidPieceMove(m);
      if !follows {
        return false, Some(AgainstPieceRules);
      }
      var check := IsSelfCheck(m, color);
      if check {
        return false, Some(LeavesKingExposed);
      }
      return true, None;
    }
  }

  // ----- End of the game -----

  datatype WinReason = Checkmate | Stalemate | Resignation | ThreefoldRepetition | PerpetualCheck

  datatype GameOverResult = NotOver | Over(winner: Option<Color>, reason: WinReason)

  /** A side that cannot move has lost, by checkmate or by stalemate. */
  ghost function OverFor(g: Grid, toMove: Color): GameOverResult {
    if HasLegalMove(g, toMove) then NotOver
    else Over(Some(Opponent(toMove)), if Exposed(g, toMove) then Checkmate else Stalemate)
  }

  lemma NoneLegal(g: Grid, color: Color, moves: seq<LegalMove>)
    requires moves == AllMoves(g, color)
    requires forall j :: 0 <= j < |moves| ==> !IsLegal(g, color, moves[j].move)
    ensures !HasLegalMove(g, color)
  {
    forall m ensures !IsLegal(g, color, m) {
      if Reaches(g, color, m) {
        AllMovesExact(g, color, Entry(g, m));
        var j :| 0 <= j < |moves| && moves[j] == Entry(g, m);
      }
    }
  }

  class WinChecker {
    const board: Board

    constructor (board: Board)
      ensures this.board == board
    {
      this.board := board;
    }

    /** Trying only the generated moves misses no legal one. */
    method HasLegalMoves(color: Color) returns (some: bool)
      ensures some <==> HasLegalMove(board.cells, color)
    {
      var generator := new MoveGenerator(board);
      var moves := generator.GenerateAllMoves(color);
      var validator := new MoveValidator(board);
      for i := 0 to |moves|
        invariant forall j :: 0 <= j < i ==> !IsLegal(board.cells, color, moves[j].move)
      {
        var ok, _ := validator.IsValid(moves[i].move, color);
        if ok {
          return true;
        }
      }
      NoneLegal(board.cells, color, moves);
      return false;
    }

    method CheckGameOver(toMove: Color) returns (result: GameOverResult)
      ensures result == OverFor(board.cells, toMove)
    {
      var some := HasLegalMoves(toMove);
      if !some {
        var exposed := IsKingExposed(board, toMove);
        if exposed {
          return Over(Some(Opponent(toMove)), Checkmate);
        } else {
          return Over(Some(Opponent(toMove)), Stalemate);
        }
      }
      return NotOver;
    }
  }
}
