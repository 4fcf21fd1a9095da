/** Rebuilding a game from its stored moves, and the bound on games without undo. */
module GameReplay {
  import opened Types
  import opened Counting
  import opened MoveRules
  import opened Checkers
  import opened Fen
  import opened GameSpec
  import opened GameRuns
  import opened GameUndo

  /** What is stored of a game: its moves. */
  function StoredMoves(h: seq<MoveRecord>): seq<Move> {
    if h == [] then [] else StoredMoves(h[..|h| - 1]) + [h[|h| - 1].move]
  }

  function Started(): Game {
    Start(NewGame()).0
  }

  /** A fresh started game after the stored moves have been tried in order. */
  ghost function Replay(ms: seq<Move>): Game {
    PlayAll(Started(), ms)
  }

  // ----- The state a replay passes through -----

  function StartKey(): string {
    BoardToFen(InitialGrid(), Red)
  }

  function StartCounts(h: seq<MoveRecord>): Counts {
    Recount(map[StartKey() := 1], h)
  }

  /** The position after h, the opening included, has come up for less than the third time. */
  ghost predicate NotThird(h: seq<MoveRecord>) {
    h == [] || CountOf(StartCounts(h), KeyAfter(Last(h))) < REPETITION_THRESHOLD
  }

  /** No position before the last move of h was a third occurrence. */
  ghost predicate NoThirdBefore(h: seq<MoveRecord>) {
    forall n :: 0 <= n < |h| ==> NotThird(h[..n])
  }

  /** The state in play whose history is h and whose counts go back to the opening. */
  function InPlay(h: seq<MoveRecord>): Game {
    Game(GridAfter(h), TurnAfter(h), h, ONGOING, CheckAfter(h), StartCounts(h), ChecksAfter(h))
  }

  lemma StartCountsGrow(h: seq<MoveRecord>, rec: MoveRecord)
    ensures StartCounts(h + [rec]) == CountIn(StartCounts(h), KeyAfter(rec))
  {
    assert (h + [rec])[..|h|] == h;
  }

  /** What counting a recorded move comes to. */
  lemma Counted(moved: Game, rec: MoveRecord, counts: Counts)
    requires rec.player == moved.turn && moved.grid == rec.boardAfter && counts == CountIn(moved.counts, KeyAfter(rec))
    ensures var c := Continued(moved, rec.isCheck);
      var checks := NextChecks(moved.checks, rec.player, rec.isCheck);
      c == moved.(turn := Opponent(rec.player), counts := counts, checks := checks,
                  outcome := if CountOf(counts, KeyAfter(rec)) < REPETITION_THRESHOLD then moved.outcome
                             else RepetitionOutcome(rec.isCheck, rec.player, checks))
  {
  }

  /** How a third occurrence after one more recorded move is judged. */
  function ThirdAfter(h: seq<MoveRecord>, rec: MoveRecord): Outcome {
    RepetitionOutcome(rec.isCheck, rec.player, ChecksAfter(h + [rec]))
  }

  lemma ThirdIsDrawn(h: seq<MoveRecord>, rec: MoveRecord)
    requires ValidHistory(h + [rec])
    ensures ThirdAfter(h, rec) == EndedBy(None, ThreefoldRepetition)
  {
    ChecksStayShort(h + [rec]);
  }

  /** The game counts on from a recorded move as the history says, or is drawn by repetition. */
  lemma CountsOn(h: seq<MoveRecord>, rec: MoveRecord)
    requires rec.player == TurnAfter(h)
    ensures var moved := InPlay(h).(grid := rec.boardAfter, history := h + [rec], lastCheck := rec.isCheck);
      var c := Continued(moved, rec.isCheck);
      && c.history == h + [rec]
      && if NotThird(h + [rec]) then c == InPlay(h + [rec]) else c.outcome == ThirdAfter(h, rec)
  {
    var moved := InPlay(h).(grid := rec.boardAfter, history := h + [rec], lastCheck := rec.isCheck);
    Appended(h, rec);
    StartCountsGrow(h, rec);
    Counted(moved, rec, StartCounts(h + [rec]));
  }

  /** A move that leaves the other side a reply goes on to be counted. */
  lemma PlayedOn(s: Game, m: Move)
    requires HasLegalMove(Apply(s.grid, m), Opponent(s.turn))
    ensures Played(s, m) == Continued(Moved(s, m), Moved(s, m).lastCheck)
  {
  }

  lemma LegalAccepted(s: Game, m: Move)
    requires s.outcome.phase == Playing && IsLegal(s.grid, s.turn, m)
    ensures WhyRefused(s, m, None).None?
  {
    assert Verdict(s.grid, s.turn, m).None?;
  }

  lemma RecordAccepted(h: seq<MoveRecord>, rec: MoveRecord)
    requires LegalRecord(h, rec)
    ensures WhyRefused(InPlay(h), rec.move, None).None?
  {
    RecordedLegally(h, rec);
    LegalAccepted(InPlay(h), rec.move);
  }

  lemma PlayedHistory(s: Game, m: Move)
    ensures Played(s, m).history == s.history + [RecordOf(s.grid, s.turn, m)]
  {
  }

  /** A recorded move replayed in its place is accepted, and the game goes on unless it ended on
      the board or the position is a third occurrence. */
  lemma ReplayStep(h: seq<MoveRecord>, rec: MoveRecord)
    requires ValidHistory(h) && LegalRecord(h, rec)
    ensures MakeMove(InPlay(h), rec.move, None) == (Played(InPlay(h), rec.move), None)
    ensures Played(InPlay(h), rec.move).history == h + [rec]
    ensures HasLegalMove(rec.boardAfter, Opponent(rec.player)) ==>
      if NotThird(h + [rec]) then Played(InPlay(h), rec.move) == InPlay(h + [rec])
      else Played(InPlay(h), rec.move).outcome == ThirdAfter(h, rec)
  {
    RecordAccepted(h, rec);
    PlayedHistory(InPlay(h), rec.move);
    RecordedMove(h, rec);
    CountsOn(h, rec);
    if HasLegalMove(rec.boardAfter, Opponent(rec.player)) {
      PlayedOn(InPlay(h), rec.move);
    }
  }

  lemma RecordedMove(h: seq<MoveRecord>, rec: MoveRecord)
    requires LegalRecord(h, rec)
    ensures Moved(InPlay(h), rec.move)
      == InPlay(h).(grid := rec.boardAfter, history := h + [rec], lastCheck := rec.isCheck)
    ensures rec.player == TurnAfter(h)
  {
    RecordedLegally(h, rec);
  }

  lemma PrefixGrows(h: seq<MoveRecord>, n: nat)
    requires n < |h|
    ensures h[..n + 1] == h[..n] + [h[n]]
  {
  }

  lemma NoMovesStored(h: seq<MoveRecord>)
    requires h == []
    ensures Replay(StoredMoves(h)) == InPlay(h)
  {
  }

  /** The last record of a prefix with a move still to come. */
  lemma {:induction false} MoveToCome(h: seq<MoveRecord>, n: nat, p: seq<MoveRecord>, q: seq<MoveRecord>)
    requires ValidHistory(h) && 0 < n < |h| && p == h[..n - 1] && q == h[..n]
    ensures q == p + [h[n - 1]] && ValidHistory(p) && LegalRecord(p, h[n - 1])
    ensures HasLegalMove(GridAfter(q), TurnAfter(q))
  {
    EarlierAlive(h, n);
    BeforeLast(h, n, p);
    PrefixGrows(h, n - 1);
  }

  lemma {:induction false} BeforeLast(h: seq<MoveRecord>, n: nat, p: seq<MoveRecord>)
    requires ValidHistory(h) && 0 < n <= |h| && p == h[..n - 1]
    ensures ValidHistory(p) && LegalRecord(p, h[n - 1])
  {
    ValidPrefix(h, n - 1);
    RecordIsLegal(h, n - 1);
  }

  /** As long as no third occurrence is met, the replay of a prefix is the state in play there. */
  lemma {:induction false} ReplayPrefix(h: seq<MoveRecord>, n: nat)
    requires ValidHistory(h) && n < |h| && forall i :: 0 <= i <= n ==> NotThird(h[..i])
    ensures Replay(StoredMoves(h[..n])) == InPlay(h[..n])
  {
    if n == 0 {
      NoMovesStored(h[..n]);
    } else {
      ReplayPrefix(h, n - 1);
      MoveToCome(h, n, h[..n - 1], h[..n]);
      ReplayGoesOn(h[..n - 1], h[n - 1], h[..n]);
    }
  }

  lemma ReplayGoesOn(p: seq<MoveRecord>, rec: MoveRecord, q: seq<MoveRecord>)
    requires q == p + [rec] && ValidHistory(p) && LegalRecord(p, rec) && Replay(StoredMoves(p)) == InPlay(p)
    requires HasLegalMove(GridAfter(q), TurnAfter(q)) && NotThird(q)
    ensures Replay(StoredMoves(q)) == InPlay(q)
  {
    ReplayOn(p, rec);
    assert GridAfter(q) == rec.boardAfter && TurnAfter(q) == Opponent(rec.player);
  }

  /** One more stored move is one more recorded move made. */
  lemma ReplayOn(p: seq<MoveRecord>, rec: MoveRecord)
    requires ValidHistory(p) && LegalRecord(p, rec) && Replay(StoredMoves(p)) == InPlay(p)
    ensures var e := Replay(StoredMoves(p + [rec]));
      && e.history == p + [rec]
      && (HasLegalMove(rec.boardAfter, Opponent(rec.player)) ==>
            if NotThird(p + [rec]) then e == InPlay(p + [rec]) else e.outcome == ThirdAfter(p, rec))
  {
    StoredOneMore(Started(), p, rec);
    ReplayStep(p, rec);
  }

  lemma StoredOneMore(start: Game, h: seq<MoveRecord>, rec: MoveRecord)
    ensures var ms := StoredMoves(h);
      && StoredMoves(h + [rec]) == ms + [rec.move]
      && PlayAll(start, ms + [rec.move]) == MakeMove(PlayAll(start, ms), rec.move, None).0
      && (AllAccepted(start, ms + [rec.move]) <==>
          AllAccepted(start, ms) && WhyRefused(PlayAll(start, ms), rec.move, None).None?)
  {
    assert (h + [rec])[..|h|] == h;
    assert (StoredMoves(h) + [rec.move])[..|StoredMoves(h)|] == StoredMoves(h);
  }

  lemma {:induction false} StoredLength(h: seq<MoveRecord>, n: nat)
    requires n <= |h|
    ensures |StoredMoves(h)| == |h| && StoredMoves(h)[..n] == StoredMoves(h[..n])
    decreases |h|
  {
    if n == |h| {
      assert h[..n] == h;
      if h != [] {
        StoredLength(Front(h), |h| - 1);
      }
      assert StoredMoves(h)[..|StoredMoves(h)|] == StoredMoves(h);
    } else {
      StoredLength(Front(h), n);
      assert Front(h)[..n] == h[..n];
      assert StoredMoves(h)[..n] == StoredMoves(Front(h))[..n];
    }
  }

  /** A finished game takes no more moves. */
  lemma {:induction false} OverStays(s: Game, ms: seq<Move>, n: nat)
    requires n <= |ms| && IsOver(PlayAll(s, ms[..n]).outcome.phase)
    ensures PlayAll(s, ms) == PlayAll(s, ms[..n])
    decreases |ms|
  {
    if n == |ms| {
      assert ms[..n] == ms;
    } else {
      assert ms[..|ms| - 1][..n] == ms[..n];
      OverStays(s, ms[..|ms| - 1], n);
    }
  }

  lemma {:induction false} FirstThird(h: seq<MoveRecord>, m: nat) returns (n: nat)
    requires m < |h| && !NotThird(h[..m])
    ensures n <= m && !NotThird(h[..n]) && forall i :: 0 <= i < n ==> NotThird(h[..i])
    decreases m
  {
    if k :| 0 <= k < m && !NotThird(h[..k]) {
      n := FirstThird(h, k);
    } else {
      n := m;
    }
  }

  /** A third occurrence with a move still to come ends the replay that reaches it. */
  lemma {:induction false} ReplayEnds(h: seq<MoveRecord>, n: nat, p: seq<MoveRecord>, q: seq<MoveRecord>)
    requires ValidHistory(h) && 0 < n < |h| && p == h[..n - 1] && q == h[..n]
    requires !NotThird(q) && Replay(StoredMoves(p)) == InPlay(p)
    ensures Replay(StoredMoves(q)).history == q && Replay(StoredMoves(q)).outcome == EndedBy(None, ThreefoldRepetition)
  {
    MoveToCome(h, n, p, q);
    ReplayEndsAt(p, h[n - 1], q);
  }

  lemma {:induction false} ReplayEndsAt(p: seq<MoveRecord>, rec: MoveRecord, q: seq<MoveRecord>)
    requires q == p + [rec] && ValidHistory(p) && LegalRecord(p, rec) && Replay(StoredMoves(p)) == InPlay(p)
    requires HasLegalMove(GridAfter(q), TurnAfter(q)) && !NotThird(q)
    ensures Replay(StoredMoves(q)).history == q && Replay(StoredMoves(q)).outcome == EndedBy(None, ThreefoldRepetition)
  {
    ReplayOn(p, rec);
    HistoryGrows(p, rec);
    ThirdIsDrawn(p, rec);
    assert GridAfter(q) == rec.boardAfter && TurnAfter(q) == Opponent(rec.player);
  }

  /** The replay then stays where it ended, a draw by repetition. */
  lemma ReplayStops(h: seq<MoveRecord>, n: nat)
    requires ValidHistory(h) && n < |h| && !NotThird(h[..n]) && forall i :: 0 <= i < n ==> NotThird(h[..i])
    ensures Replay(StoredMoves(h)).history == h[..n]
      && Replay(StoredMoves(h)).outcome == EndedBy(None, ThreefoldRepetition)
  {
    ReplayPrefix(h, n - 1);
    ReplayEnds(h, n, h[..n - 1], h[..n]);
    StoredLength(h, n);
    OverStays(Started(), StoredMoves(h), n);
  }

  lemma ReplayReaches(h: seq<MoveRecord>)
    requires ValidHistory(h) && NoThirdBefore(h)
    ensures Replay(StoredMoves(h)).history == h
  {
    if h != [] {
      ReplayPrefix(h, |h| - 1);
      ValidPrefix(h, |h| - 1);
      RecordIsLegal(h, |h| - 1);
      PrefixGrows(h, |h| - 1);
      assert h[..|h|] == h;
      ReplayOn(h[..|h| - 1], h[|h| - 1]);
    }
  }

  /** Replaying the moves of any valid history, undos in its past or not, rebuilds the whole
      history exactly when no position before its last move was a third occurrence counted from the
      opening. */
  lemma ReplayExact(h: seq<MoveRecord>)
    requires ValidHistory(h)
    ensures Replay(StoredMoves(h)).history == h <==> NoThirdBefore(h)
  {
    if NoThirdBefore(h) {
      ReplayReaches(h);
    } else {
      var m :| 0 <= m < |h| && !NotThird(h[..m]);
      var n := FirstThird(h, m);
      ReplayStops(h, n);
      assert |h[..n]| != |h|;
    }
  }

  /** The stored moves of any game that can be reached bring its board, history and turn back
      whenever they bring the history back. */
  lemma {:induction false} ReplayOfReachable(events: seq<Event>)
    ensures var s := After(events); var r := Replay(StoredMoves(s.history));
      && (r.history == s.history <==> NoThirdBefore(s.history))
      && (r.history == s.history ==> r.grid == s.grid && r.lastCheck == s.lastCheck
                                     && (s.outcome.phase == Playing ==> TurnAfter(r.history) == s.turn))
  {
    var s := After(events);
    ReachableCoherent(events);
    ReplayExact(s.history);
    ReplayCoherent(StoredMoves(s.history));
    SameHistory(Replay(StoredMoves(s.history)), s);
  }

  /** Coherent games with one history stand on one board, and in play with the same side to move. */
  lemma SameHistory(r: Game, s: Game)
    requires Coherent(r) && Coherent(s)
    ensures r.history == s.history ==>
      r.grid == s.grid && r.lastCheck == s.lastCheck && (s.outcome.phase == Playing ==> TurnAfter(r.history) == s.turn)
  {
  }

  lemma {:induction false} ReplayCoherent(ms: seq<Move>)
    ensures Coherent(Replay(ms))
  {
    if ms == [] {
      NewGameCoherent();
      StartKeeps(NewGame());
    } else {
      ReplayCoherent(ms[..|ms| - 1]);
      Tried(Replay(ms[..|ms| - 1]), ms[|ms| - 1], None, Replay(ms));
      TriedKeeps(Replay(ms[..|ms| - 1]), ms[|ms| - 1], Replay(ms));
    }
  }
}
