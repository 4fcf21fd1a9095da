/** The game object of chess/game.py: the same transitions on mutable fields. */
module GameModel {
  import opened Types
  import opened Counting
  import opened BoardModel
  import opened Checkers
  import opened Fen
  import opened FenLoops
  import opened GameSpec

  class ChessGame {
    var board: Board
    var turn: Color
    var history: seq<MoveRecord>
    var phase: Phase
    var winner: Option<Color>
    var winReason: Option<WinReason>
    var gameResult: Option<GameResult>
    var lastMoveWasCheck: bool
    var positionCounts: Counts
    var checksRed: nat
    var checksBlack: nat

    ghost function State(): Game
      reads this, board
    {
      Game(board.cells, turn, history, Outcome(phase, winner, winReason, gameResult), lastMoveWasCheck,
           positionCounts, Checks(checksRed, checksBlack))
    }

    constructor ()
      ensures State() == NewGame() && fresh(board)
    {
      board := new Board(InitialGrid());
      turn := Red;
      history := [];
      phase, winner, winReason, gameResult := NotStarted, None, None, None;
      lastMoveWasCheck := false;
      positionCounts := map[BoardToFen(InitialGrid(), Red) := 1];
      checksRed, checksBlack := 0, 0;
    }

    method StartGame() returns (ok: bool)
      modifies this
      ensures (State(), ok) == GameSpec.Start(old(State()))
    {
      if phase != NotStarted {
        return false;
      }
      phase := Playing;
      var fen := PrintBoard(board, turn);
      positionCounts := map[fen := 1];
      checksRed, checksBlack := 0, 0;
      return true;
    }

    method HandleGameOver(who: Option<Color>, reason: WinReason)
      modifies this`phase, this`winner, this`winReason, this`gameResult
      ensures Outcome(phase, winner, winReason, gameResult) == EndedBy(who, reason)
    {
      if who == Some(Red) {
        phase, winner, gameResult := RedWins, Some(Red), Some(ResultRedWins);
      } else if who == Some(Black) {
        phase, winner, gameResult := BlackWins, Some(Black), Some(ResultBlackWins);
      } else {
        phase, winner, gameResult := Draw, None, Some(ResultDraw);
      }
      winReason := Some(reason);
    }

    method UpdateChecks(player: Color, isCheck: bool)
      modifies this`checksRed, this`checksBlack
      ensures Checks(checksRed, checksBlack) == NextChecks(old(Checks(checksRed, checksBlack)), player, isCheck)
    {
      if isCheck {
        if player == Red {
          checksRed := checksRed + 1;
          checksBlack := 0;
        } else {
          checksBlack := checksBlack + 1;
          checksRed := 0;
        }
      } else {
        checksRed := 0;
        checksBlack := 0;
      }
    }

    method DetectRepetitionViolation(isCheck: bool, player: Color) returns (who: Option<Color>, reason: WinReason)
      ensures EndedBy(who, reason) == RepetitionOutcome(isCheck, player, Checks(checksRed, checksBlack))
    {
      if isCheck {
        if player == Red && checksRed >= PERPETUAL_CHECK_THRESHOLD {
          return Some(Black), PerpetualCheck;
        } else if player == Black && checksBlack >= PERPETUAL_CHECK_THRESHOLD {
          return Some(Red), PerpetualCheck;
        }
      }
      return None, ThreefoldRepetition;
    }

    method MakeMove(m: Move, player: Option<Color>) returns (refused: Option<Refusal>)
      modifies this
      ensures (State(), refused) == GameSpec.MakeMove(old(State()), m, player)
    {
      if phase == NotStarted {
        return Some(GameNotStarted);
      }
      if IsOver(phase) {
        return Some(GameFinished);
      }
      var current := if player.Some? then player.value else turn;
      if current != turn {
        return Some(NotYourTurn);
      }
      var validator := new MoveValidator(board);
      var ok, error := validator.IsValid(m, current);
      if !ok {
        return Some(BadMove(error.value));
      }
      Commit(m);
      return None;
    }

    /** Plays the move on a copy, which becomes the game's board. */
    method PlaceMove(m: Move) returns (piece: Cell, captured: Cell)
      modifies this`board
      ensures fresh(board) && board.cells == Apply(old(board.cells), m)
      ensures piece == At(old(board.cells), m.fromCol, m.fromRow) && captured == At(old(board.cells), m.toCol, m.toRow)
    {
      piece := board.Get(m.fromCol, m.fromRow);
      captured := board.Get(m.toCol, m.toRow);
      var newBoard := board.Clone();
      newBoard.Set(m.toCol, m.toRow, piece);
      newBoard.Set(m.fromCol, m.fromRow, EMPTY);
      board := newBoard;
    }

    method CountPosition(b: Board, side: Color) returns (count: nat)
      modifies this`positionCounts
      ensures positionCounts == CountIn(old(positionCounts), BoardToFen(b.cells, side))
      ensures count == positionCounts[BoardToFen(b.cells, side)]
    {
      var fen := PrintBoard(b, side);
      count := (if fen in positionCounts then positionCounts[fen] else 0) + 1;
      positionCounts := positionCounts[fen := count];
    }

    /** Plays an accepted move and appends its record. */
    method RecordMove(m: Move) returns (isCheck: bool)
      modifies this`board, this`history, this`lastMoveWasCheck
      ensures fresh(board)
      ensures State() == Moved(old(State()), m) && isCheck == lastMoveWasCheck
    {
      var boardBefore := board.cells;
      var piece, captured := PlaceMove(m);
      isCheck := IsKingExposed(board, Opponent(turn));
      history := history + [MoveRecord(m, turn, piece, captured, boardBefore, board.cells, isCheck)];
      lastMoveWasCheck := isCheck;
    }

    /** Passes the turn, counts the position and judges a third occurrence. */
    method Continue(isCheck: bool)
      modifies this`turn, this`positionCounts, this`checksRed, this`checksBlack, this`phase, this`winner,
        this`winReason, this`gameResult
      ensures State() == Continued(old(State()), isCheck)
    {
      var player := turn;
      turn := Opponent(turn);
      var count := CountPosition(board, turn);
      UpdateChecks(player, isCheck);
      if count >= REPETITION_THRESHOLD {
        var who, reason := DetectRepetitionViolation(isCheck, player);
        HandleGameOver(who, reason);
      }
    }

    /** Everything that follows the acceptance of a move. */
    method Commit(m: Move)
      modifies this
      ensures State() == Played(old(State()), m)
    {
      var isCheck := RecordMove(m);
      var checker := new WinChecker(board);
      var over := checker.CheckGameOver(Opponent(turn));
      if over.Over? {
        HandleGameOver(over.winner, over.reason);
      } else {
        Continue(isCheck);
      }
    }

    method Undo(times: int) returns (ok: bool)
      modifies this
      ensures (State(), ok) == GameSpec.Undo(old(State()), times)
    {
      if |history| < times {
        return false;
      }
      PopMoves(times);
      Rebuild();
      if IsOver(phase) {
        phase, winner, winReason, gameResult := Playing, None, None, None;
      }
      return true;
    }

    method Rebuild()
      modifies this
      ensures State() == Rebuilt(old(history), old(State()).outcome)
    {
      RestorePosition();
      RecountHistory();
    }

    method RecountHistory()
      modifies this`positionCounts, this`checksRed, this`checksBlack
      ensures positionCounts == Recount(map[BoardToFen(board.cells, turn) := 1], history)
      ensures Checks(checksRed, checksBlack) == ChecksAfter(history)
    {
      var fen := PrintBoard(board, turn);
      positionCounts := map[fen := 1];
      checksRed, checksBlack := 0, 0;
      RebuildCounts();
    }

    method PopMoves(times: int)
      requires times <= |history|
      modifies this`history
      ensures history == old(history)[..|old(history)| - Pops(times)]
    {
      var popped := 0;
      while popped < times
        invariant 0 <= popped <= Pops(times)
        invariant history == old(history)[..|old(history)| - popped]
      {
        history := history[..|history| - 1];
        popped := popped + 1;
      }
    }

    /** The position the last move left behind, or the opening. */
    method RestorePosition()
      modifies this`board, this`turn, this`lastMoveWasCheck
      ensures fresh(board) && board.cells == GridAfter(history) && turn == TurnAfter(history)
        && lastMoveWasCheck == CheckAfter(history)
    {
      if history != [] {
        var last := history[|history| - 1];
        board := new Board(last.boardAfter);
        turn := Opponent(last.player);
        lastMoveWasCheck := last.isCheck;
      } else {
        board := new Board(InitialGrid());
        turn := Red;
        lastMoveWasCheck := false;
      }
    }

    /** The loop over the moves left after an undo. */
    method RebuildCounts()
      modifies this`positionCounts, this`checksRed, this`checksBlack
      requires Checks(checksRed, checksBlack) == Checks(0, 0)
      ensures positionCounts == Recount(old(positionCounts), history)
      ensures Checks(checksRed, checksBlack) == ChecksAfter(history)
    {
      for i := 0 to |history|
        invariant positionCounts == Recount(old(positionCounts), history[..i])
        invariant Checks(checksRed, checksBlack) == ChecksAfter(history[..i])
      {
        var rec := history[i];
        var after := new Board(rec.boardAfter);
        assert history[..i + 1][..i] == history[..i];
        var _ := CountPosition(after, Opponent(rec.player));
        UpdateChecks(rec.player, rec.isCheck);
      }
      assert history[..|history|] == history;
    }

    method Resign(player: Color) returns (ok: bool)
      modifies this
      ensures (State(), ok) == GameSpec.Resign(old(State()), player)
    {
      if IsOver(phase) || phase == NotStarted {
        return false;
      }
      var opponent := Opponent(player);
      if opponent == Red {
        phase, gameResult := RedWins, Some(RedResign);
      } else {
        phase, gameResult := BlackWins, Some(BlackResign);
      }
      winner := Some(opponent);
      winReason := Some(Resignation);
      return true;
    }
  }
}
