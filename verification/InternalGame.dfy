/** The undo of internal/chess/game.py, which pops records one by one. */
module InternalGame {
  import opened Types
  import opened BoardModel
  import opened Checkers
  import opened GameSpec
  import opened GameUndo

  class ChessGame {
    var board: Board
    var turn: Color
    var history: seq<MoveRecord>
    var phase: Phase
    var winner: Option<Color>
    var winReason: Option<WinReason>
    var gameResult: Option<GameResult>
    var lastMoveWasCheck: bool

    /** This class counts neither positions nor checks. */
    ghost function State(): Game
      reads this, board
    {
      Game(board.cells, turn, history, Outcome(phase, winner, winReason, gameResult), lastMoveWasCheck, map[],
           Checks(0, 0))
    }

    constructor ()
      ensures State() == NewGame().(counts := map[])
    {
      board := new Board(InitialGrid());
      turn := Red;
      history := [];
      phase, winner, winReason, gameResult := NotStarted, None, None, None;
      lastMoveWasCheck := false;
    }

    method Undo(times: int) returns (ok: bool)
      modifies this
      ensures (State(), ok) == UndoByBefore(old(State()), times)
    {
      if |history| < times {
        return false;
      }
      var left := times;
      while left > 0
        invariant left <= |history| && left <= Pops(times)
        invariant PopBefore(State(), Pops(left)) == PopBefore(old(State()), Pops(times))
        invariant State().outcome == old(State()).outcome
      {
        var record := history[|history| - 1];
        history := history[..|history| - 1];
        board := new Board(record.boardBefore);
        turn := record.player;
        left := left - 1;
      }
      if IsOver(phase) {
        phase, winner, winReason, gameResult := Playing, None, None, None;
      }
      return true;
    }
  }
}
