/** What each call on a game answers, said without the transition functions: whose move is taken,
    which refusal is given when, and who has won. */
module Answers {
  import opened Types
  import opened MoveRules
  import opened Checkers
  import opened Kings
  import opened GameSpec
  import opened GameRuns

  // ----- Moves -----

  /** player, if one is named, is the side to move. */
  predicate Rightful(s: Game, player: Option<Color>) {
    player == None || player == Some(s.turn)
  }

  /** A move is accepted exactly in play, from the side to move, if it is legal. */
  lemma MoveAccepted(s: Game, m: Move, player: Option<Color>)
    ensures MakeMove(s, m, player).1 == None <==>
      s.outcome.phase == Playing && Rightful(s, player) && IsLegal(s.grid, s.turn, m)
  {
  }

  /** A refused move leaves the game as it was. */
  lemma RefusedChangesNothing(s: Game, m: Move, player: Option<Color>)
    ensures MakeMove(s, m, player).1.Some? ==> MakeMove(s, m, player).0 == s
  {
  }

  /** Which refusal is given before the move is looked at. */
  lemma RefusedUnseen(s: Game, m: Move, player: Option<Color>)
    ensures var why := MakeMove(s, m, player).1;
      && (why == Some(GameNotStarted) <==> s.outcome.phase == NotStarted)
      && (why == Some(GameFinished) <==> s.outcome.phase in {RedWins, BlackWins, Draw})
      && (why == Some(NotYourTurn) <==> s.outcome.phase == Playing && player == Some(Opponent(s.turn)))
  {
  }

  /** Which refusal is given for the move itself: off the board, no piece of one's own, onto a piece
      of one's own, against the piece's rules, into check. */
  lemma RefusedMove(s: Game, m: Move, player: Option<Color>)
    requires s.outcome.phase == Playing && Rightful(s, player)
    ensures var g := s.grid; var why := MakeMove(s, m, player).1;
      var own := Owns(s.turn, At(g, m.fromCol, m.fromRow)); var onOwn := Owns(s.turn, At(g, m.toCol, m.toRow));
      && (why == Some(BadMove(OutOfRange)) <==> !InBounds(m))
      && (why == Some(BadMove(NotOwnPiece)) <==> InBounds(m) && !own)
      && (why == Some(BadMove(TargetIsOwn)) <==> InBounds(m) && own && onOwn)
      && (why == Some(BadMove(AgainstPieceRules)) <==> InBounds(m) && own && !onOwn && !Reaches(g, s.turn, m))
      && (why == Some(BadMove(LeavesKingExposed)) <==> Reaches(g, s.turn, m) && Exposed(Apply(g, m), s.turn))
  {
  }

  /** A move that takes the last piece off the kings' column is refused as leaving the king exposed. */
  lemma UncoveringIsRefused(s: Game, m: Move, player: Option<Color>, c: int, r: int, k: int)
    requires s.outcome.phase == Playing && Rightful(s, player)
    requires Reaches(s.grid, s.turn, m) && Facing(Apply(s.grid, m), c, r, k)
    ensures MakeMove(s, m, player) == (s, Some(BadMove(LeavesKingExposed)))
  {
    FacingIsCheck(Apply(s.grid, m), c, r, k);
    RefusedMove(s, m, player);
  }

  // ----- How a game ends -----

  function Won(side: Color, reason: WinReason): Outcome {
    if side == Red then Outcome(RedWins, Some(Red), Some(reason), Some(ResultRedWins))
    else Outcome(BlackWins, Some(Black), Some(reason), Some(ResultBlackWins))
  }

  function Resigned(winner: Color): Outcome {
    if winner == Red then Outcome(RedWins, Some(Red), Some(Resignation), Some(RedResign))
    else Outcome(BlackWins, Some(Black), Some(Resignation), Some(BlackResign))
  }

  // ----- Starting, undo, resignation -----

  lemma StartAnswers(s: Game)
    ensures Start(s).1 <==> s.outcome.phase == NotStarted
    ensures !Start(s).1 ==> Start(s).0 == s
    ensures Start(s).1 ==> Start(s).0.outcome.phase == Playing && Start(s).0.grid == s.grid && Start(s).0.turn == s.turn
  {
  }

  /** An undo is done exactly if there are as many moves to take back, and takes back that many; a
      negative number takes back none. */
  lemma UndoAnswers(s: Game, times: int)
    ensures var (e, ok) := Undo(s, times);
      && (ok <==> times <= |s.history|) && (!ok ==> e == s)
      && (ok ==> e.history == s.history[..if times < 0 then |s.history| else |s.history| - times])
      && (ok && s.outcome.phase in {RedWins, BlackWins, Draw} ==>
            e.outcome.phase == Playing && e.outcome.winner == None && e.outcome.reason == None
              && e.outcome.result == None)
      && (ok && s.outcome.phase !in {RedWins, BlackWins, Draw} ==> e.outcome == s.outcome)
  {
  }

  /** Resigning is possible exactly in play, and the side that resigns has lost. */
  lemma ResignAnswers(s: Game, loser: Color)
    ensures var (e, ok) := Resign(s, loser);
      && (ok <==> s.outcome.phase == Playing) && (!ok ==> e == s)
      && (ok ==> e == s.(outcome := Resigned(if loser == Red then Black else Red)))
  {
  }

  // ----- Who has won -----

  /** An accepted move puts the piece on its target and is recorded with the side that made it. If
      the other side has no legal move then, the game is won by mate or stalemate and the turn does
      not pass; otherwise it passes. */
  lemma AcceptedMoves(s: Game, m: Move, player: Option<Color>)
    requires MakeMove(s, m, player).1 == None
    ensures var e := MakeMove(s, m, player).0; var other := Opponent(s.turn);
      && e.grid == Apply(s.grid, m) && |e.history| == |s.history| + 1 && e.history[..|s.history|] == s.history
      && e.history[|s.history|].move == m && e.history[|s.history|].player == s.turn
      && e.turn == (if HasLegalMove(e.grid, other) then other else s.turn)
      && (!HasLegalMove(e.grid, other) ==>
            e.outcome == Won(s.turn, if Exposed(e.grid, other) then Checkmate else Stalemate))
  {
  }

  /** In every run, mate and stalemate are won by the side that moved last, repetition is a draw, and
      phase, winner and result say the same. */
  lemma RunOutcomes(events: seq<Event>)
    ensures var s := After(events); var o := s.outcome;
      && (o.reason in {Some(Checkmate), Some(Stalemate)} ==>
            && s.history != [] && o == Won(Last(s.history).player, o.reason.value)
            && !HasLegalMove(s.grid, Opponent(Last(s.history).player)))
      && (o.reason == Some(ThreefoldRepetition) ==>
          o == Outcome(Draw, None, Some(ThreefoldRepetition), Some(ResultDraw)))
      && (o.reason == Some(Resignation) ==> o == Resigned(Red) || o == Resigned(Black))
      && (o.reason == None <==> o.phase in {NotStarted, Playing})
      && (o.winner == Some(Red) <==> o.phase == RedWins) && (o.winner == Some(Black) <==> o.phase == BlackWins)
  {
    ReachableCoherent(events);
  }
}
