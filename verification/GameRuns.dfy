/** What holds in every state a game can reach, undo and resignation included. */
module GameRuns {
  import opened Types
  import opened MoveRules
  import opened Checkers
  import opened Kings
  import opened Shelter
  import opened GameSpec

  // ----- Histories -----

  function Front(h: seq<MoveRecord>): seq<MoveRecord>
    requires h != []
  {
    h[..|h| - 1]
  }

  function Last(h: seq<MoveRecord>): MoveRecord
    requires h != []
  {
    h[|h| - 1]
  }

  predicate LeadsTo(h: seq<MoveRecord>, g: Grid, side: Color) {
    GridAfter(h) == g && TurnAfter(h) == side
  }

  /** The record of a move that was legal in the position that h leads to. */
  ghost predicate LegalRecord(h: seq<MoveRecord>, rec: MoveRecord) {
    forall g, side {:trigger LeadsTo(h, g, side)} | LeadsTo(h, g, side) ::
      IsLegal(g, side, rec.move) && rec == RecordOf(g, side, rec.move)
  }

  lemma RecordedLegally(h: seq<MoveRecord>, rec: MoveRecord)
    requires LegalRecord(h, rec)
    ensures IsLegal(GridAfter(h), TurnAfter(h), rec.move) && rec == RecordOf(GridAfter(h), TurnAfter(h), rec.move)
  {
    assert LeadsTo(h, GridAfter(h), TurnAfter(h));
  }

  /** A chain of legal moves from the opening, red first and sides alternating. */
  ghost predicate ValidHistory(h: seq<MoveRecord>) {
    h == [] || (ValidHistory(Front(h)) && LegalRecord(Front(h), Last(h)))
  }

  lemma PrefixParts(h: seq<MoveRecord>, n: nat)
    requires n < |h|
    ensures Front(h[..n + 1]) == h[..n] && Last(h[..n + 1]) == h[n]
  {
  }

  lemma {:induction false} ValidPrefix(h: seq<MoveRecord>, n: nat)
    requires ValidHistory(h) && n <= |h|
    ensures ValidHistory(h[..n])
  {
    if n == |h| {
      assert h[..n] == h;
    } else {
      assert Front(h)[..n] == h[..n];
      ValidPrefix(Front(h), n);
    }
  }

  /** Each recorded move was legal where it was played. */
  lemma RecordIsLegal(h: seq<MoveRecord>, n: nat)
    requires ValidHistory(h) && n < |h|
    ensures LegalRecord(h[..n], h[n])
  {
    ValidPrefix(h, n + 1);
    PrefixParts(h, n);
  }

  lemma Appended(h: seq<MoveRecord>, rec: MoveRecord)
    ensures var h' := h + [rec];
      && Front(h') == h && Last(h') == rec
      && GridAfter(h') == rec.boardAfter && TurnAfter(h') == Opponent(rec.player) && CheckAfter(h') == rec.isCheck
      && ChecksAfter(h') == NextChecks(ChecksAfter(h), rec.player, rec.isCheck)
  {
    assert (h + [rec])[..|h|] == h;
  }

  lemma HistoryGrows(h: seq<MoveRecord>, rec: MoveRecord)
    requires ValidHistory(h) && LegalRecord(h, rec)
    ensures var h' := h + [rec];
      && Front(h') == h && Last(h') == rec && ValidHistory(h')
      && GridAfter(h') == rec.boardAfter && TurnAfter(h') == Opponent(rec.player) && CheckAfter(h') == rec.isCheck
      && ChecksAfter(h') == NextChecks(ChecksAfter(h), rec.player, rec.isCheck) && rec.player == TurnAfter(h)
  {
    RecordedLegally(h, rec);
    Appended(h, rec);
  }

  lemma {:induction false} HistoryIsSound(h: seq<MoveRecord>)
    requires ValidHistory(h)
    ensures Sound(GridAfter(h), TurnAfter(h))
  {
    if h == [] {
      InitialSound();
    } else {
      HistoryIsSound(Front(h));
      RecordedLegally(Front(h), Last(h));
      LegalMoveKeepsSound(GridAfter(Front(h)), TurnAfter(Front(h)), Last(h).move);
    }
  }

  /** Turns alternate, so a check is always answered by a move that ends the row: no row of
      checks is longer than one. */
  lemma {:induction false} ChecksStayShort(h: seq<MoveRecord>)
    requires ValidHistory(h)
    ensures ChecksAfter(h).red <= 1 && ChecksAfter(h).black <= 1
    ensures h != [] ==> if Last(h).player == Red then ChecksAfter(h).black == 0 else ChecksAfter(h).red == 0
  {
    if h != [] {
      RecordedLegally(Front(h), Last(h));
      ChecksStayShort(Front(h));
    }
  }

  // ----- Reachable states -----

  /** The last move mated or stalemated: the game stopped before the turn passed. */
  predicate EndedOnBoard(s: Game) {
    s.outcome.reason == Some(Checkmate) || s.outcome.reason == Some(Stalemate)
  }

  ghost predicate OutcomeFits(s: Game) {
    match s.outcome.phase
    case NotStarted => s.outcome == Outcome(NotStarted, None, None, None) && s.history == []
    case Playing => s.outcome == ONGOING
    case _ =>
      if EndedOnBoard(s) then
        s.history != [] && s.outcome == EndedBy(Some(Last(s.history).player), s.outcome.reason.value)
      else s.outcome == EndedBy(None, ThreefoldRepetition) || s.outcome == LostBy(Red) || s.outcome == LostBy(Black)
  }

  /** The fields of a state agree with its history. */
  ghost predicate Coherent(s: Game) {
    && ValidHistory(s.history)
    && s.grid == GridAfter(s.history)
    && s.lastCheck == CheckAfter(s.history)
    && OutcomeFits(s)
    && if EndedOnBoard(s)
       then s.turn == Last(s.history).player && s.checks == ChecksAfter(Front(s.history))
            && !HasLegalMove(s.grid, TurnAfter(s.history))
       else s.turn == TurnAfter(s.history) && s.checks == ChecksAfter(s.history)
  }

  lemma NewGameCoherent()
    ensures Coherent(NewGame())
  {
  }

  lemma StartKeeps(s: Game)
    requires Coherent(s)
    ensures Coherent(Start(s).0)
  {
  }

  lemma ResignKeeps(s: Game, loser: Color)
    requires Coherent(s)
    ensures Coherent(Resign(s, loser).0)
  {
  }

  lemma RebuiltCoherent(h: seq<MoveRecord>, outcome: Outcome)
    requires ValidHistory(h)
    requires outcome == ONGOING || (outcome == Outcome(NotStarted, None, None, None) && h == [])
    ensures Coherent(Rebuilt(h, outcome))
  {
  }

  lemma UndoKeeps(s: Game, times: int)
    requires Coherent(s)
    ensures Coherent(Undo(s, times).0)
  {
    if |s.history| >= times {
      ValidPrefix(s.history, |s.history| - Pops(times));
      RebuiltCoherent(s.history[..|s.history| - Pops(times)], Reopened(s.outcome));
    }
  }

  /** An accepted move gives a coherent state; a third occurrence never counts as perpetual
      check. */
  lemma PlayedKeeps(s: Game, m: Move)
    requires Coherent(s) && s.outcome.phase == Playing && IsLegal(s.grid, s.turn, m)
    ensures Coherent(Played(s, m))
    ensures Played(s, m).history == s.history + [RecordOf(s.grid, s.turn, m)]
  {
    var rec := RecordOf(s.grid, s.turn, m);
    var moved := Moved(s, m);
    HistoryGrows(s.history, rec);
    ChecksStayShort(moved.history);
    match OverFor(moved.grid, Opponent(s.turn))
    case Over(winner, reason) => MatedCoherent(s, rec, winner, reason);
    case NotOver => ContinuedCoherent(s, rec);
  }

  lemma MatedCoherent(s: Game, rec: MoveRecord, winner: Option<Color>, reason: WinReason)
    requires Coherent(s) && s.outcome.phase == Playing && LegalRecord(s.history, rec)
    requires OverFor(rec.boardAfter, Opponent(s.turn)) == Over(winner, reason)
    ensures Coherent(s.(grid := rec.boardAfter, history := s.history + [rec], lastCheck := rec.isCheck,
                        outcome := EndedBy(winner, reason)))
  {
    HistoryGrows(s.history, rec);
  }

  lemma ContinuedCoherent(s: Game, rec: MoveRecord)
    requires Coherent(s) && s.outcome.phase == Playing && LegalRecord(s.history, rec)
    ensures var moved := s.(grid := rec.boardAfter, history := s.history + [rec], lastCheck := rec.isCheck);
      Coherent(Continued(moved, rec.isCheck))
  {
    HistoryGrows(s.history, rec);
    ChecksStayShort(s.history + [rec]);
  }

  /** A tried move changes nothing or is played. */
  lemma Tried(s: Game, m: Move, player: Option<Color>, s': Game)
    requires s' == MakeMove(s, m, player).0
    ensures s' == s || (WhyRefused(s, m, None).None? && s' == Played(s, m))
  {
  }

  lemma TriedKeeps(s: Game, m: Move, s': Game)
    requires Coherent(s)
    requires s' == s || (WhyRefused(s, m, None).None? && s' == Played(s, m))
    ensures Coherent(s')
  {
    if s' != s {
      PlayedKeeps(s, m);
    }
  }

  lemma NextKeeps(s: Game, e: Event, s': Game)
    requires Coherent(s) && s' == Next(s, e)
    ensures Coherent(s')
  {
    match e
    case StartGame => StartKeeps(s);
    case TryMove(m, player) =>
      Tried(s, m, player, s');
      TriedKeeps(s, m, s');
    case TakeBack(times) => UndoKeeps(s, times);
    case GiveUp(loser) => ResignKeeps(s, loser);
  }

  /** Every reachable state is coherent. */
  lemma {:induction false} ReachableCoherent(events: seq<Event>)
    ensures Coherent(After(events))
  {
    if events == [] {
      NewGameCoherent();
    } else {
      var before := events[..|events| - 1];
      ReachableCoherent(before);
      NextKeeps(After(before), events[|events| - 1], After(events));
    }
  }

  /** In every reachable state both kings are home, the side that has just moved is not in check,
      and no move in the history took a king. */
  lemma KingSafety(events: seq<Event>)
    ensures var s := After(events);
      && Sound(s.grid, TurnAfter(s.history))
      && (s.outcome.phase == Playing ==> s.turn == TurnAfter(s.history))
      && forall i :: 0 <= i < |s.history| ==>
        s.history[i].captured != KingOf(Red) && s.history[i].captured != KingOf(Black)
  {
    var s := After(events);
    ReachableCoherent(events);
    HistoryIsSound(s.history);
    forall i | 0 <= i < |s.history|
      ensures s.history[i].captured != KingOf(Red) && s.history[i].captured != KingOf(Black)
    {
      RecordIsLegal(s.history, i);
      RecordedLegally(s.history[..i], s.history[i]);
      ValidPrefix(s.history, i);
      HistoryIsSound(s.history[..i]);
      NoKingCapture(GridAfter(s.history[..i]), TurnAfter(s.history[..i]), s.history[i].move);
    }
  }

  /** In every reachable state some piece stands between kings that share a column. */
  lemma KingsNeverFace(events: seq<Event>)
    ensures Screened(After(events).grid)
  {
    KingSafety(events);
    SafeIsScreened(After(events).grid, Opponent(TurnAfter(After(events).history)));
  }

  lemma FittingOutcome(s: Game)
    requires OutcomeFits(s)
    ensures s.outcome.reason != Some(PerpetualCheck)
    ensures s.outcome.reason == Some(ThreefoldRepetition) ==> s.outcome.phase == Draw && s.outcome.winner == None
  {
  }

  lemma CoherentChecks(s: Game)
    requires Coherent(s)
    ensures s.checks.red <= 1 && s.checks.black <= 1
  {
    ChecksStayShort(s.history);
    if EndedOnBoard(s) {
      ChecksStayShort(Front(s.history));
    }
  }

  /** Perpetual check is never called in any run, and a game ended by repetition is a draw. */
  lemma RepetitionAlwaysDraws(events: seq<Event>)
    ensures var s := After(events);
      && s.checks.red <= 1 && s.checks.black <= 1
      && s.outcome.reason != Some(PerpetualCheck)
      && (s.outcome.reason == Some(ThreefoldRepetition) ==> s.outcome.phase == Draw && s.outcome.winner == None)
  {
    ReachableCoherent(events);
    CoherentChecks(After(events));
    FittingOutcome(After(events));
  }
}
