/** Games without undo: replay rebuilds all of their state, and they end after a bounded number of
    moves. */
module GameLength {
  import opened Types
  import opened Counting
  import opened Fen
  import opened GameSpec
  import opened GameRuns
  import opened GameUndo
  import opened GameReplay

  // ----- Replay of a game without undo -----

  predicate UndoFree(events: seq<Event>) {
    forall i :: 0 <= i < |events| ==> !events[i].TakeBack?
  }

  /** The state is what its stored moves rebuild from the start, up to a resignation, and none of
      the moves is refused on the way. */
  ghost predicate Rebuildable(start: Game, s: Game) {
    if s.outcome.phase == NotStarted then Start(s).0 == start && s.history == []
    else
      var r := PlayAll(start, StoredMoves(s.history));
      AllAccepted(start, StoredMoves(s.history)) && (s == r || Resigned(r, s))
  }

  ghost predicate Resigned(r: Game, s: Game) {
    r.outcome.phase == Playing && (s == r.(outcome := LostBy(Red)) || s == r.(outcome := LostBy(Black)))
  }

  lemma PlayingIsReplay(start: Game, s: Game)
    requires Rebuildable(start, s) && s.outcome.phase == Playing
    ensures s == PlayAll(start, StoredMoves(s.history)) && AllAccepted(start, StoredMoves(s.history))
  {
  }

  lemma MoveStaysRebuildable(start: Game, s: Game, rec: MoveRecord, e: Game)
    requires Rebuildable(start, s) && s.outcome.phase == Playing && WhyRefused(s, rec.move, None).None?
    requires e == MakeMove(s, rec.move, None).0 && e.history == s.history + [rec] && e.outcome.phase != NotStarted
    ensures Rebuildable(start, e)
  {
    PlayingIsReplay(start, s);
    StoredOneMore(start, s.history, rec);
  }

  lemma TryStaysRebuildable(start: Game, s: Game, m: Move, s': Game)
    requires Coherent(s) && Rebuildable(start, s) && WhyRefused(s, m, None).None? && s' == Played(s, m)
    ensures Rebuildable(start, s')
  {
    PlayedKeeps(s, m);
    AcceptedGrows(s, m);
    MoveStaysRebuildable(start, s, RecordOf(s.grid, s.turn, m), s');
  }

  lemma ResignStaysRebuildable(start: Game, s: Game, loser: Color)
    requires Rebuildable(start, s)
    ensures Rebuildable(start, Resign(s, loser).0)
  {
    if s.outcome.phase == Playing {
      PlayingIsReplay(start, s);
    }
  }

  lemma StartStaysRebuildable(start: Game, s: Game)
    requires Rebuildable(start, s)
    ensures Rebuildable(start, Start(s).0)
  {
  }

  lemma TriedStaysRebuildable(start: Game, s: Game, m: Move, s': Game)
    requires Coherent(s) && Rebuildable(start, s)
    requires s' == s || (WhyRefused(s, m, None).None? && s' == Played(s, m))
    ensures Rebuildable(start, s')
  {
    if s' != s {
      TryStaysRebuildable(start, s, m, s');
    }
  }

  lemma NextStaysRebuildable(start: Game, s: Game, e: Event, s': Game)
    requires Coherent(s) && Rebuildable(start, s) && !e.TakeBack? && s' == Next(s, e)
    ensures Rebuildable(start, s')
  {
    match e
    case StartGame => StartStaysRebuildable(start, s);
    case GiveUp(loser) => ResignStaysRebuildable(start, s, loser);
    case TryMove(m, player) =>
      Tried(s, m, player, s');
      TriedStaysRebuildable(start, s, m, s');
  }

  lemma {:induction false} UndoFreeRebuildable(events: seq<Event>)
    requires UndoFree(events)
    ensures Rebuildable(Started(), After(events))
  {
    if events != [] {
      var before := events[..|events| - 1];
      UndoFreeRebuildable(before);
      ReachableCoherent(before);
      NextStaysRebuildable(Started(), After(before), events[|events| - 1], After(events));
    }
  }

  /** The stored moves of a game in play without undo are all accepted by a fresh started game and
      rebuild every part of its state. */
  lemma ReplayRebuilds(events: seq<Event>)
    requires UndoFree(events) && After(events).outcome.phase == Playing
    ensures var s := After(events);
      && Replay(StoredMoves(s.history)) == s
      && AllAccepted(Started(), StoredMoves(s.history))
  {
    UndoFreeRebuildable(events);
    PlayingIsReplay(Started(), After(events));
  }

  // ----- What undo does to the counts of such a game -----

  /** In play the counts are those of the history from the opening on. */
  ghost predicate CountsFit(s: Game) {
    s.outcome.phase == Playing ==> s.counts == StartCounts(s.history)
  }

  lemma StartCountsFit(s: Game)
    requires Coherent(s) && CountsFit(s)
    ensures CountsFit(Start(s).0)
  {
  }

  lemma PlayedCountsFit(s: Game, m: Move)
    requires s.outcome.phase == Playing && CountsFit(s)
    ensures CountsFit(Played(s, m))
  {
    StartCountsGrow(s.history, RecordOf(s.grid, s.turn, m));
  }

  lemma TriedCountsFit(s: Game, m: Move, s': Game)
    requires CountsFit(s)
    requires s' == s || (WhyRefused(s, m, None).None? && s' == Played(s, m))
    ensures CountsFit(s')
  {
    if s' != s {
      PlayedCountsFit(s, m);
    }
  }

  lemma NextCountsFit(s: Game, e: Event, s': Game)
    requires Coherent(s) && CountsFit(s) && !e.TakeBack? && s' == Next(s, e)
    ensures CountsFit(s')
  {
    match e
    case StartGame => StartCountsFit(s);
    case GiveUp(_) =>
    case TryMove(m, player) =>
      Tried(s, m, player, s');
      TriedCountsFit(s, m, s');
  }

  lemma {:induction false} UndoFreeCounts(events: seq<Event>)
    requires UndoFree(events)
    ensures CountsFit(After(events))
  {
    if events != [] {
      var before := events[..|events| - 1];
      UndoFreeCounts(before);
      ReachableCoherent(before);
      NextCountsFit(After(before), events[|events| - 1], After(events));
    }
  }

  lemma {:induction false} RecountDiffers(h: seq<MoveRecord>, a: string, b: string)
    ensures var u, v := Recount(map[a := 1], h), Recount(map[b := 1], h);
      && (forall key :: CountOf(u, key) + (if key == b then 1 else 0) == CountOf(v, key) + (if key == a then 1 else 0))
      && (u == v <==> a == b)
  {
    var u, v := Recount(map[a := 1], h), Recount(map[b := 1], h);
    forall key
      ensures CountOf(u, key) + (if key == b then 1 else 0) == CountOf(v, key) + (if key == a then 1 else 0)
    {
      RecountAdds(map[a := 1], h, key);
      RecountAdds(map[b := 1], h, key);
    }
    assert CountOf(u, a) + (if a == b then 1 else 0) == CountOf(v, a) + 1;
  }

  /** Moves played on and undone leave a game that was in play without undo with its state but for
      the counts, which hold the position arrived at once more and the opening once less: it is the
      same state exactly if it stands at the opening's position. */
  lemma {:induction false} UndoShiftsCounts(events: seq<Event>, ms: seq<Move>)
    requires UndoFree(events) && After(events).outcome.phase == Playing && AllAccepted(After(events), ms)
    ensures var s := After(events); var (u, ok) := Undo(PlayAll(s, ms), |ms|);
      && ok && u == s.(counts := u.counts)
      && (forall key :: CountOf(u.counts, key) + (if key == StartKey() then 1 else 0)
                        == CountOf(s.counts, key) + (if key == BoardToFen(s.grid, s.turn) then 1 else 0))
      && (u == s <==> s.grid == InitialGrid() && s.turn == Red)
  {
    var s := After(events);
    ReachableCoherent(events);
    UndoFreeCounts(events);
    UndoRestores(s, ms);
    PlayAllGrows(s, ms);
    UndoRebuilds(PlayAll(s, ms), |ms|, s.history);
    RecountDiffers(s.history, BoardToFen(s.grid, s.turn), StartKey());
    FenInjective(s.grid, s.turn, InitialGrid(), Red);
  }

  // ----- How often a position comes up -----

  /** The positions a history goes through from a first one on. */
  function Visited(first: (Grid, Color), h: seq<MoveRecord>): (v: seq<(Grid, Color)>)
    ensures |v| == |h| + 1
  {
    if h == [] then [first]
    else Visited(first, h[..|h| - 1]) + [(h[|h| - 1].boardAfter, Opponent(h[|h| - 1].player))]
  }

  function Key(p: (Grid, Color)): string {
    BoardToFen(p.0, p.1)
  }

  /** The counts by position text are counts of positions. */
  lemma {:induction false} CountsCountPositions(first: (Grid, Color), h: seq<MoveRecord>, p: (Grid, Color))
    ensures CountOf(Recount(map[Key(first) := 1], h), Key(p)) == multiset(Visited(first, h))[p]
  {
    if h == [] {
      FenInjective(p.0, p.1, first.0, first.1);
    } else {
      var rec := h[|h| - 1];
      CountsCountPositions(first, h[..|h| - 1], p);
      FenInjective(p.0, p.1, rec.boardAfter, Opponent(rec.player));
    }
  }

  ghost predicate AtMostTwice(first: (Grid, Color), h: seq<MoveRecord>) {
    forall p :: multiset(Visited(first, h))[p] <= 2
  }

  /** The opening, red to move. */
  function Opening(): (Grid, Color) {
    (InitialGrid(), Red)
  }

  lemma LastNotThrice(h: seq<MoveRecord>)
    requires h != [] && NotThird(h)
    ensures multiset(Visited(Opening(), h))[(Last(h).boardAfter, Opponent(Last(h).player))] <= 2
  {
    CountsCountPositions(Opening(), h, (Last(h).boardAfter, Opponent(Last(h).player)));
  }

  lemma StillAtMostTwice(first: (Grid, Color), h: seq<MoveRecord>)
    requires h != [] && AtMostTwice(first, Front(h))
    requires multiset(Visited(first, h))[(Last(h).boardAfter, Opponent(Last(h).player))] <= 2
    ensures AtMostTwice(first, h)
  {
  }

  ghost predicate NoThird(h: seq<MoveRecord>) {
    NoThirdBefore(h) && NotThird(h)
  }

  lemma NoThirdInFront(h: seq<MoveRecord>)
    requires h != [] && NoThirdBefore(h)
    ensures NoThird(Front(h))
  {
    var f := Front(h);
    forall n | 0 <= n < |f|
      ensures NotThird(f[..n])
    {
      assert f[..n] == h[..n];
    }
  }

  /** As long as no third occurrence is met, no position has been visited three times. */
  lemma {:induction false} NoneThrice(h: seq<MoveRecord>)
    requires NoThird(h)
    ensures AtMostTwice(Opening(), h)
  {
    if h != [] {
      NoThirdInFront(h);
      NoneThrice(Front(h));
      LastNotThrice(h);
      StillAtMostTwice(Opening(), h);
    }
  }

  // ----- The number of positions -----

  function Power(b: nat, n: nat): nat {
    if n == 0 then 1 else Power(b, n - 1) * b
  }

  ghost function Extended<T>(ws: set<seq<T>>, xs: set<T>): set<seq<T>> {
    set w, x | w in ws && x in xs :: w + [x]
  }

  /** All words of a length over an alphabet. */
  ghost function Words<T>(alphabet: set<T>, n: nat): set<seq<T>> {
    if n == 0 then {[]} else Extended(Words(alphabet, n - 1), alphabet)
  }

  lemma {:induction false} WordIn<T>(alphabet: set<T>, w: seq<T>)
    requires forall i :: 0 <= i < |w| ==> w[i] in alphabet
    ensures w in Words(alphabet, |w|)
  {
    if w != [] {
      WordIn(alphabet, w[..|w| - 1]);
      assert w == w[..|w| - 1] + [w[|w| - 1]];
    }
  }

  lemma {:induction false} OneExtended<T>(w: seq<T>, xs: set<T>)
    ensures |Extended({w}, xs)| == |xs|
    decreases |xs|
  {
    if xs == {} {
      assert Extended({w}, xs) == {};
    } else {
      var x :| x in xs;
      OneExtended(w, xs - {x});
      forall y {
        LastApart(w, x, w, y);
      }
      assert w + [x] !in Extended({w}, xs - {x});
      assert Extended({w}, xs) == Extended({w}, xs - {x}) + {w + [x]};
    }
  }

  lemma LastApart<T>(v: seq<T>, x: T, w: seq<T>, y: T)
    ensures v + [x] == w + [y] ==> v == w && x == y
  {
    assert (v + [x])[..|v|] == v && (w + [y])[..|w|] == w;
    assert (v + [x])[|v|] == x && (w + [y])[|w|] == y;
  }

  lemma ExtendedApart<T>(ws: set<seq<T>>, w: seq<T>, xs: set<T>)
    requires w !in ws
    ensures Extended(ws, xs) !! Extended({w}, xs)
  {
    forall v, x, y | v in ws
      ensures v + [x] != w + [y]
    {
      LastApart(v, x, w, y);
    }
  }

  lemma ExtendedSplits<T>(ws: set<seq<T>>, w: seq<T>, xs: set<T>)
    requires w in ws
    ensures Extended(ws, xs) == Extended(ws - {w}, xs) + Extended({w}, xs)
  {
    forall s | s in Extended(ws, xs)
      ensures s in Extended(ws - {w}, xs) + Extended({w}, xs)
    {
      var v, x :| v in ws && x in xs && s == v + [x];
      assert v in ws - {w} || v in {w};
    }
  }

  lemma ExtendedGrows<T>(ws: set<seq<T>>, w: seq<T>, xs: set<T>)
    requires w in ws
    ensures |Extended(ws, xs)| == |Extended(ws - {w}, xs)| + |xs|
  {
    OneExtended(w, xs);
    ExtendedApart(ws - {w}, w, xs);
    ExtendedSplits(ws, w, xs);
  }

  lemma {:induction false} AllExtended<T>(ws: set<seq<T>>, xs: set<T>)
    ensures |Extended(ws, xs)| == |ws| * |xs|
    decreases |ws|
  {
    if ws == {} {
      assert Extended(ws, xs) == {};
    } else {
      var w :| w in ws;
      AllExtended(ws - {w}, xs);
      ExtendedGrows(ws, w, xs);
      OneMoreTime(|ws| - 1, |xs|);
    }
  }

  lemma OneMoreTime(m: int, n: int)
    ensures m * n + n == (m + 1) * n
  {
  }

  lemma {:induction false} WordCount<T>(alphabet: set<T>, n: nat)
    ensures |Words(alphabet, n)| == Power(|alphabet|, n)
  {
    if n > 0 {
      WordCount(alphabet, n - 1);
      AllExtended(Words(alphabet, n - 1), alphabet);
    }
  }

  ghost predicate AllCodes(cells: set<Cell>) {
    forall p: Cell :: p in cells
  }

  /** There are fifteen cell codes: empty and seven kinds a side. */
  lemma CodeCount() returns (cells: set<Cell>)
    ensures AllCodes(cells) && |cells| == 15
  {
    cells := {-1, 0, 1, 2, 3, 4, 5, 6, 10, 11, 12, 13, 14, 15, 16};
  }

  /** Every way to fill the board. */
  ghost function Boards(cells: set<Cell>): set<seq<seq<Cell>>> {
    Words(Words(cells, COLS), ROWS)
  }

  lemma BoardIn(cells: set<Cell>, g: Grid)
    requires AllCodes(cells)
    ensures g in Boards(cells)
  {
    forall r | 0 <= r < |g|
      ensures g[r] in Words(cells, COLS)
    {
      WordIn(cells, g[r]);
    }
    WordIn(Words(cells, COLS), g);
  }

  ghost function WithTurn<T>(gs: set<T>): set<(T, Color)> {
    (set g | g in gs :: (g, Red)) + (set g | g in gs :: (g, Black))
  }

  lemma TurnIn<T>(g: T, turn: Color, gs: set<T>)
    requires g in gs
    ensures (g, turn) in WithTurn(gs)
  {
    assert turn == Red || turn == Black;
  }

  lemma {:induction false} WithTurnCount<T>(gs: set<T>)
    ensures |WithTurn(gs)| == 2 * |gs|
    decreases |gs|
  {
    if gs == {} {
      assert WithTurn(gs) == {};
    } else {
      var g :| g in gs;
      WithTurnCount(gs - {g});
      assert WithTurn(gs) == WithTurn(gs - {g}) + {(g, Red), (g, Black)};
    }
  }

  function PositionCount(codes: nat): nat {
    2 * Power(Power(codes, COLS), ROWS)
  }

  lemma PositionsCounted(cells: set<Cell>)
    ensures |WithTurn(Boards(cells))| == PositionCount(|cells|)
  {
    WordCount(cells, COLS);
    WordCount(Words(cells, COLS), ROWS);
    WithTurnCount(Boards(cells));
  }

  /** A row visits no more than twice as many places as there are when it visits none thrice. */
  lemma {:induction false} Pigeonhole<T>(visits: multiset<T>, places: set<T>)
    requires forall p :: p in visits ==> p in places && visits[p] <= 2
    ensures |visits| <= 2 * |places|
    decreases |places|
  {
    if places == {} {
      assert visits == multiset{};
    } else {
      var p :| p in places;
      Pigeonhole(visits[p := 0], places - {p});
    }
  }

  lemma VisitsBounded(cells: set<Cell>, first: (Grid, Color), h: seq<MoveRecord>)
    requires AllCodes(cells) && AtMostTwice(first, h)
    ensures |h| + 1 <= 2 * |WithTurn(Boards(cells))|
  {
    var visits: multiset<(seq<seq<Cell>>, Color)> := multiset(Visited(first, h));
    forall p: (Grid, Color) | p in visits
      ensures p in WithTurn(Boards(cells))
    {
      BoardIn(cells, p.0);
      TurnIn(p.0, p.1, Boards(cells));
    }
    Pigeonhole(visits, WithTurn(Boards(cells)));
  }

  lemma NoThirdIsShort(cells: set<Cell>, h: seq<MoveRecord>)
    requires AllCodes(cells) && NoThirdBefore(h)
    ensures |h| <= 2 * PositionCount(|cells|)
  {
    if h != [] {
      NoThirdInFront(h);
      NoneThrice(Front(h));
      VisitsBounded(cells, Opening(), Front(h));
      PositionsCounted(cells);
    }
  }

  lemma RebuildsHistory(start: Game, s: Game)
    requires Rebuildable(start, s) && s.outcome.phase != NotStarted
    ensures PlayAll(start, StoredMoves(s.history)).history == s.history
  {
  }

  lemma UndoFreeNoThird(events: seq<Event>)
    requires UndoFree(events)
    ensures NoThirdBefore(After(events).history)
  {
    UndoFreeRebuildable(events);
    ReachableCoherent(events);
    if After(events).outcome.phase != NotStarted {
      RebuildsHistory(Started(), After(events));
      ReplayExact(After(events).history);
    }
  }

  /** However it is played, a game without undo has no more moves than twice the number of pairs of
      a board filling and a side to move. */
  lemma UndoFreeIsFinite(events: seq<Event>, cells: set<Cell>)
    requires UndoFree(events) && AllCodes(cells)
    ensures |After(events).history| <= 2 * PositionCount(|cells|)
  {
    UndoFreeNoThird(events);
    NoThirdIsShort(cells, After(events).history);
  }
}
