/** Taking moves back: what is restored, what is not, and when the game can go on. */
module GameUndo {
  import opened Types
  import opened Counting
  import opened MoveRules
  import opened Fen
  import opened Shelter
  import opened GameSpec
  import opened GameRuns

  // ----- The side to move can move -----

  /** Unless the last move ended the game on the board, the side to move has a legal move. */
  ghost predicate Alive(s: Game) {
    EndedOnBoard(s) || HasLegalMove(s.grid, TurnAfter(s.history))
  }

  /** Red can open with a pawn on the edge. */
  lemma InitialAlive()
    ensures HasLegalMove(InitialGrid(), Red)
  {
    InitialCalm();
    AsideIsLegal(InitialGrid(), Red, Move(0, 6, 0, 5));
  }

  /** A move that has been played proves that there was one to play. */
  lemma EarlierAlive(h: seq<MoveRecord>, n: nat)
    requires ValidHistory(h) && n < |h|
    ensures HasLegalMove(GridAfter(h[..n]), TurnAfter(h[..n]))
  {
    RecordIsLegal(h, n);
    RecordedLegally(h[..n], h[n]);
  }

  /** An undo that is carried out leaves a live game exactly when it takes a move back or the game
      had not ended on the board. Taking back no moves from a mated game reopens it with no move
      to play. */
  lemma UndoAlive(s: Game, times: int)
    requires Coherent(s) && Alive(s) && Undo(s, times).1
    ensures HasLegalMove(Undo(s, times).0.grid, TurnAfter(Undo(s, times).0.history)) <==> times >= 1 || !EndedOnBoard(s)
    ensures EndedOnBoard(s) ==> Undo(s, times).0.outcome == ONGOING
  {
    var n := |s.history| - Pops(times);
    if times >= 1 {
      EarlierAlive(s.history, n);
    } else {
      assert s.history[..n] == s.history;
    }
  }

  lemma PlayedAlive(s: Game, m: Move)
    requires Coherent(s) && s.outcome.phase == Playing && IsLegal(s.grid, s.turn, m)
    ensures Alive(Played(s, m))
  {
    PlayedKeeps(s, m);
    var rec := RecordOf(s.grid, s.turn, m);
    assert TurnAfter(s.history + [rec]) == Opponent(s.turn);
  }

  lemma TriedAlive(s: Game, m: Move, s': Game)
    requires Coherent(s) && Alive(s)
    requires s' == s || (WhyRefused(s, m, None).None? && s' == Played(s, m))
    ensures Alive(s')
  {
    if s' != s {
      PlayedAlive(s, m);
    }
  }

  lemma TakenBackAlive(s: Game, times: int)
    requires Coherent(s) && Alive(s) && times >= 1
    ensures Alive(Undo(s, times).0)
  {
    if Undo(s, times).1 {
      UndoAlive(s, times);
    }
  }

  lemma NextAlive(s: Game, e: Event, s': Game)
    requires Coherent(s) && Alive(s) && (e.TakeBack? ==> e.times >= 1) && s' == Next(s, e)
    ensures Alive(s')
  {
    match e
    case StartGame =>
    case GiveUp(_) =>
    case TakeBack(times) => TakenBackAlive(s, times);
    case TryMove(m, player) =>
      Tried(s, m, player, s');
      TriedAlive(s, m, s');
  }

  /** Events whose undos all take back at least one move. */
  predicate TakesBack(events: seq<Event>) {
    forall i :: 0 <= i < |events| && events[i].TakeBack? ==> events[i].times >= 1
  }

  lemma {:induction false} RunAlive(events: seq<Event>)
    requires TakesBack(events)
    ensures Alive(After(events))
  {
    if events == [] {
      InitialAlive();
    } else {
      var before := events[..|events| - 1];
      RunAlive(before);
      ReachableCoherent(before);
      NextAlive(After(before), events[|events| - 1], After(events));
    }
  }

  /** While such a run is being played, the side to move has a legal move. */
  lemma PlayingHasMove(events: seq<Event>)
    requires TakesBack(events)
    ensures After(events).outcome.phase == Playing ==> HasLegalMove(After(events).grid, After(events).turn)
  {
    ReachableCoherent(events);
    RunAlive(events);
  }

  // ----- Undo restores -----

  /** The state after a list of moves of the side to move. */
  ghost function PlayAll(s: Game, ms: seq<Move>): Game {
    if ms == [] then s else MakeMove(PlayAll(s, ms[..|ms| - 1]), ms[|ms| - 1], None).0
  }

  ghost predicate AllAccepted(s: Game, ms: seq<Move>) {
    ms == [] || (AllAccepted(s, ms[..|ms| - 1]) && WhyRefused(PlayAll(s, ms[..|ms| - 1]), ms[|ms| - 1], None).None?)
  }

  lemma AcceptedGrows(s: Game, m: Move)
    requires Coherent(s) && WhyRefused(s, m, None).None?
    ensures var e := MakeMove(s, m, None).0;
      Coherent(e) && e.outcome.phase != NotStarted && |e.history| == |s.history| + 1 && Front(e.history) == s.history
  {
    PlayedKeeps(s, m);
    assert s.outcome.phase == Playing;
    assert (s.history + [RecordOf(s.grid, s.turn, m)])[..|s.history|] == s.history;
  }

  /** e is a coherent game that has n more moves than s in its history. */
  ghost predicate Grown(s: Game, e: Game, n: nat) {
    && Coherent(e) && e.outcome.phase != NotStarted
    && |e.history| == |s.history| + n && e.history[..|s.history|] == s.history
  }

  lemma GrowsOneMore(s: Game, e: Game, n: nat, e': Game)
    requires Grown(s, e, n) && Coherent(e') && e'.outcome.phase != NotStarted
    requires |e'.history| == |e.history| + 1 && Front(e'.history) == e.history
    ensures Grown(s, e', n + 1)
  {
    assert e'.history[..|s.history|] == Front(e'.history)[..|s.history|];
  }

  lemma {:induction false} PlayAllGrows(s: Game, ms: seq<Move>)
    requires Coherent(s) && s.outcome.phase == Playing && AllAccepted(s, ms)
    ensures Grown(s, PlayAll(s, ms), |ms|)
  {
    if ms == [] {
      assert s.history[..|s.history|] == s.history;
    } else {
      PlayAllGrows(s, ms[..|ms| - 1]);
      AcceptedGrows(PlayAll(s, ms[..|ms| - 1]), ms[|ms| - 1]);
      GrowsOneMore(s, PlayAll(s, ms[..|ms| - 1]), |ms| - 1, PlayAll(s, ms));
    }
  }

  /** How often a position text stands after a move of h. */
  function Occurrences(h: seq<MoveRecord>, key: string): nat {
    if h == [] then 0
    else Occurrences(h[..|h| - 1], key) + (if KeyAfter(h[|h| - 1]) == key then 1 else 0)
  }

  lemma {:induction false} RecountAdds(counts: Counts, h: seq<MoveRecord>, key: string)
    ensures CountOf(Recount(counts, h), key) == CountOf(counts, key) + Occurrences(h, key)
  {
    if h != [] {
      RecountAdds(counts, h[..|h| - 1], key);
    }
  }

  /** Rebuilding from its own history changes nothing about a game in play but its counts. */
  lemma RebuiltIsSame(s: Game)
    requires Coherent(s) && s.outcome.phase == Playing
    ensures var u := Rebuilt(s.history, ONGOING);
      && u == s.(counts := u.counts)
      && forall key ::
        CountOf(u.counts, key) == Occurrences(s.history, key) + (if key == BoardToFen(s.grid, s.turn) then 1 else 0)
  {
    forall key { RecountAdds(map[BoardToFen(s.grid, s.turn) := 1], s.history, key); }
  }

  lemma UndoRebuilds(e: Game, n: nat, h: seq<MoveRecord>)
    requires Coherent(e) && e.outcome.phase != NotStarted && |e.history| == |h| + n && e.history[..|h|] == h
    ensures Undo(e, n) == (Rebuilt(h, ONGOING), true)
  {
  }

  /** Undoing the last k accepted moves gives back the state before them except for the position
      counts: whatever a game counted before, they now hold the positions after each move left,
      plus one for the position arrived at. */
  lemma UndoRestores(s: Game, ms: seq<Move>)
    requires Coherent(s) && s.outcome.phase == Playing && AllAccepted(s, ms)
    ensures var (u, ok) := Undo(PlayAll(s, ms), |ms|);
      && ok && u == s.(counts := u.counts)
      && forall key ::
        CountOf(u.counts, key) == Occurrences(s.history, key) + (if key == BoardToFen(s.grid, s.turn) then 1 else 0)
  {
    PlayAllGrows(s, ms);
    UndoRebuilds(PlayAll(s, ms), |ms|, s.history);
    RebuiltIsSame(s);
  }

  // ----- The other undo -----

  /** Pops records and goes back to the board and the mover each of them names. */
  function PopBefore(s: Game, n: nat): Game
    requires n <= |s.history|
    decreases n
  {
    if n == 0 then s
    else PopBefore(s.(history := Front(s.history), grid := Last(s.history).boardBefore,
                      turn := Last(s.history).player), n - 1)
  }

  /** The undo of internal/chess/game.py, which leaves the bookkeeping alone. */
  function UndoByBefore(s: Game, times: int): (Game, bool) {
    if |s.history| < times then (s, false)
    else
      var p := PopBefore(s, Pops(times));
      (p.(outcome := Reopened(p.outcome)), true)
  }

  /** Each record names the board and the side to move that its predecessors lead to. */
  predicate Linked(h: seq<MoveRecord>) {
    h == [] || (Linked(Front(h)) && Last(h).boardBefore == GridAfter(Front(h)) && Last(h).player == TurnAfter(Front(h)))
  }

  lemma {:induction false} ValidIsLinked(h: seq<MoveRecord>)
    requires ValidHistory(h)
    ensures Linked(h)
  {
    if h != [] {
      RecordedLegally(Front(h), Last(h));
      ValidIsLinked(Front(h));
    }
  }

  lemma {:induction false} PopBeforeIs(s: Game, n: nat)
    requires Linked(s.history) && n <= |s.history|
    ensures var h := s.history[..|s.history| - n];
      PopBefore(s, n) == if n == 0 then s else s.(history := h, grid := GridAfter(h), turn := TurnAfter(h))
    decreases n
  {
    if n > 0 {
      var f := Front(s.history);
      var s' := s.(history := f, grid := Last(s.history).boardBefore, turn := Last(s.history).player);
      PopBeforeIs(s', n - 1);
      assert f[..|f| - (n - 1)] == s.history[..|s.history| - n];
      assert f[..|f|] == f;
    }
  }

  /** Which of the two leaves which side to move. */
  lemma TurnsAgree(s: Game, times: int)
    requires Linked(s.history) && times <= |s.history|
    requires s.turn == if EndedOnBoard(s) then Opponent(TurnAfter(s.history)) else TurnAfter(s.history)
    requires s.grid == GridAfter(s.history)
    ensures var u, v := Undo(s, times).0, UndoByBefore(s, times).0;
      && u.grid == v.grid && u.history == v.history && u.outcome == v.outcome
      && (u.turn == v.turn <==> !(times <= 0 && EndedOnBoard(s)))
  {
    PopBeforeIs(s, Pops(times));
    assert s.history[..|s.history|] == s.history;
  }

  lemma CoherentTurn(s: Game)
    requires Coherent(s)
    ensures s.turn == if EndedOnBoard(s) then Opponent(TurnAfter(s.history)) else TurnAfter(s.history)
  {
  }

  /** The two undos agree on board, turn, history and outcome, except that taking back no moves
      from a game that ended on the board passes the turn in one and not in the other. */
  lemma UndosAgree(s: Game, times: int)
    requires Coherent(s)
    ensures Undo(s, times).1 == UndoByBefore(s, times).1
    ensures var u, v := Undo(s, times).0, UndoByBefore(s, times).0;
      u.grid == v.grid && u.history == v.history && u.outcome == v.outcome
    ensures Undo(s, times).0.turn == UndoByBefore(s, times).0.turn <==> !(times <= 0 && EndedOnBoard(s))
  {
    if times <= |s.history| {
      ValidIsLinked(s.history);
      CoherentTurn(s);
      TurnsAgree(s, times);
    }
  }
}
