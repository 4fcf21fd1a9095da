/** Perpetual check as intended, with the row of checks counted over a side's own moves, beside the
    count the game keeps, and a game that tells the two apart. */
module OwnChecks {
  import opened Types
  import opened Counting
  import opened MoveRules
  import opened Checkers
  import opened Kings
  import opened Fen
  import opened GameSpec
  import opened GameRuns
  import opened GameReplay
  import opened GameLength
  import opened Lines

  // ----- Two ways of counting -----

  /** A checking move lengthens its side's row and a quiet one ends it; the other side's row is not
      touched. */
  function NextOwnChecks(checks: Checks, player: Color, isCheck: bool): Checks {
    if player == Red then checks.(red := if isCheck then checks.red + 1 else 0)
    else checks.(black := if isCheck then checks.black + 1 else 0)
  }

  /** A rule by which rows of checks are counted. */
  type CheckRule = (Checks, Color, bool) -> Checks

  function ChecksBy(next: CheckRule, h: seq<MoveRecord>): Checks {
    if h == [] then Checks(0, 0) else next(ChecksBy(next, Front(h)), Last(h).player, Last(h).isCheck)
  }

  function OwnChecksAfter(h: seq<MoveRecord>): Checks {
    ChecksBy(NextOwnChecks, h)
  }

  function RowOf(checks: Checks, side: Color): nat {
    if side == Red then checks.red else checks.black
  }

  /** The side that moved last has checked with each of its last n moves. */
  predicate CheckedInRow(h: seq<MoveRecord>, n: nat) {
    2 * n <= |h| + 1 && forall i :: 0 <= i < n ==> h[|h| - 1 - 2 * i].isCheck
  }

  lemma {:induction false} RowStops(h: seq<MoveRecord>, n: nat)
    requires h != [] && n > 0 && !Last(h).isCheck
    ensures !CheckedInRow(h, n)
  {
    assert h[|h| - 1 - 2 * 0] == Last(h);
  }

  lemma {:induction false} RowGrows(h: seq<MoveRecord>, n: nat, f: seq<MoveRecord>)
    requires |h| >= 2 && Last(h).isCheck && f == h[..|h| - 2]
    ensures CheckedInRow(h, n + 1) <==> CheckedInRow(f, n)
  {
    forall i | 0 <= i < n && 2 * n <= |f| + 1
      ensures f[|f| - 1 - 2 * i] == h[|h| - 1 - 2 * (i + 1)]
    {
    }
    if CheckedInRow(f, n) {
      forall i | 0 <= i < n + 1
        ensures h[|h| - 1 - 2 * i].isCheck
      {
        assert i > 0 ==> f[|f| - 1 - 2 * (i - 1)].isCheck;
      }
    }
    if CheckedInRow(h, n + 1) {
      forall i | 0 <= i < n
        ensures f[|f| - 1 - 2 * i].isCheck
      {
        assert h[|h| - 1 - 2 * (i + 1)].isCheck;
      }
    }
  }

  lemma {:induction false} MoverIs(h: seq<MoveRecord>)
    requires ValidHistory(h) && h != []
    ensures Last(h).player == TurnAfter(Front(h)) && ValidHistory(Front(h))
  {
    RecordedLegally(Front(h), Last(h));
  }

  lemma {:induction false} SidesAlternate(h: seq<MoveRecord>, f: seq<MoveRecord>)
    requires ValidHistory(h) && |h| >= 2 && f == h[..|h| - 2]
    ensures Front(Front(h)) == f && ValidHistory(f)
    ensures Last(Front(h)).player == Opponent(Last(h).player) && (f != [] ==> Last(f).player == Last(h).player)
  {
    MoverIs(h);
    MoverIs(Front(h));
    assert Front(Front(h)) == f;
    if f != [] {
      MoverIs(f);
    }
  }

  lemma {:induction false} RowOneLonger(h: seq<MoveRecord>, f: seq<MoveRecord>)
    requires ValidHistory(h) && |h| >= 2 && Last(h).isCheck && f == h[..|h| - 2]
    ensures RowOf(OwnChecksAfter(h), Last(h).player) == RowOf(OwnChecksAfter(f), Last(h).player) + 1
  {
    SidesAlternate(h, f);
    assert OwnChecksAfter(Front(h)) == NextOwnChecks(OwnChecksAfter(f), Last(Front(h)).player, Last(Front(h)).isCheck);
  }

  /** Counted over own moves, the row of the side that moved last is as long as its last moves
      all gave check. */
  lemma {:induction false} OwnRowCounts(h: seq<MoveRecord>, n: nat)
    requires ValidHistory(h) && h != [] && n > 0
    ensures RowOf(OwnChecksAfter(h), Last(h).player) >= n <==> CheckedInRow(h, n)
    decreases |h|
  {
    if !Last(h).isCheck {
      RowStops(h, n);
    } else if |h| == 1 {
      assert OwnChecksAfter(Front(h)) == Checks(0, 0);
    } else {
      var f := h[..|h| - 2];
      SidesAlternate(h, f);
      RowOneLonger(h, f);
      RowGrows(h, n - 1, f);
      if n > 1 && f != [] {
        OwnRowCounts(f, n - 1);
      }
    }
  }

  // ----- The judgement of a third occurrence -----

  /** A game going on, as the game does it but with the row of checks counted by next. */
  function ContinuedBy(next: CheckRule, moved: Game, isCheck: bool): Game {
    var player := moved.turn;
    var key := BoardToFen(moved.grid, Opponent(player));
    var counts := CountIn(moved.counts, key);
    var checks := next(moved.checks, player, isCheck);
    moved.(turn := Opponent(player), counts := counts, checks := checks,
           outcome := if counts[key] < REPETITION_THRESHOLD then moved.outcome
                      else RepetitionOutcome(isCheck, player, checks))
  }

  lemma GameCountsBoth(moved: Game, isCheck: bool)
    ensures Continued(moved, isCheck) == ContinuedBy(NextChecks, moved, isCheck)
  {
  }

  /** Counted over own moves, a third occurrence is lost for the side that moved exactly if its last
      three moves or more all gave check, and drawn otherwise; as the game counts, it is drawn. */
  lemma {:induction false} ThirdByOwnChecks(h: seq<MoveRecord>, rec: MoveRecord, moved: Game)
    requires ValidHistory(h) && LegalRecord(h, rec)
    requires moved.turn == rec.player && moved.grid == rec.boardAfter && moved.history == h + [rec]
    requires CountOf(moved.counts, KeyAfter(rec)) >= REPETITION_THRESHOLD - 1
    ensures moved.checks == OwnChecksAfter(h) ==>
      ContinuedBy(NextOwnChecks, moved, rec.isCheck).outcome
      == if CheckedInRow(h + [rec], 3) then EndedBy(Some(Opponent(rec.player)), PerpetualCheck)
         else EndedBy(None, ThreefoldRepetition)
    ensures moved.checks == ChecksAfter(h) ==>
      Continued(moved, rec.isCheck).outcome == EndedBy(None, ThreefoldRepetition)
  {
    HistoryGrows(h, rec);
    ThirdIsDrawn(h, rec);
    OwnRowCounts(h + [rec], PERPETUAL_CHECK_THRESHOLD);
    GameCountsBoth(moved, rec.isCheck);
  }

  // ----- Runs under another count -----

  ghost function PlayedBy(next: CheckRule, s: Game, m: Move): Game {
    var moved := Moved(s, m);
    match OverFor(moved.grid, Opponent(s.turn))
    case Over(winner, reason) => moved.(outcome := EndedBy(winner, reason))
    case NotOver => ContinuedBy(next, moved, moved.lastCheck)
  }

  ghost function TriedBy(next: CheckRule, s: Game, m: Move, player: Option<Color>): Game {
    if WhyRefused(s, m, player).Some? then s else PlayedBy(next, s, m)
  }

  function UndoneBy(next: CheckRule, s: Game, times: int): Game {
    var (u, ok) := Undo(s, times);
    if ok then u.(checks := ChecksBy(next, u.history)) else s
  }

  /** One event of a game that counts rows of checks by a given rule. */
  ghost function NextBy(next: CheckRule, s: Game, e: Event): Game {
    match e
    case StartGame => Start(s).0
    case TryMove(m, player) => TriedBy(next, s, m, player)
    case TakeBack(times) => UndoneBy(next, s, times)
    case GiveUp(loser) => Resign(s, loser).0
  }

  ghost function AfterBy(next: CheckRule, events: seq<Event>): Game {
    if events == [] then NewGame() else NextBy(next, AfterBy(next, events[..|events| - 1]), events[|events| - 1])
  }

  // ----- The game's own count -----

  lemma {:induction false} GameChecks(h: seq<MoveRecord>)
    ensures ChecksBy(NextChecks, h) == ChecksAfter(h)
  {
    if h != [] {
      GameChecks(Front(h));
    }
  }

  lemma {:induction false} NextIsByGameCount(s: Game, e: Event)
    ensures NextBy(NextChecks, s, e) == Next(s, e)
  {
    match e
    case StartGame =>
    case GiveUp(_) =>
    case TakeBack(times) => GameChecks(Undo(s, times).0.history);
    case TryMove(m, player) => GameCountsBoth(Moved(s, m), Moved(s, m).lastCheck);
  }

  /** Under the count it keeps such a game is the game. */
  lemma {:induction false} GameRunsByItsCount(events: seq<Event>)
    ensures AfterBy(NextChecks, events) == After(events)
  {
    if events != [] {
      GameRunsByItsCount(events[..|events| - 1]);
      NextIsByGameCount(After(events[..|events| - 1]), events[|events| - 1]);
    }
  }

  // ----- The count over own moves -----

  /** The own checks that a state of the game has seen counted. */
  function OwnChecksOf(s: Game): Checks {
    if EndedOnBoard(s) && s.history != [] then OwnChecksAfter(Front(s.history)) else OwnChecksAfter(s.history)
  }

  predicate EndedByRepetition(s: Game) {
    s.outcome.reason == Some(ThreefoldRepetition)
  }

  /** The judgement of a third occurrence by the own checks. */
  function OwnJudgement(h: seq<MoveRecord>): Outcome
    requires h != []
  {
    RepetitionOutcome(Last(h).isCheck, Last(h).player, OwnChecksAfter(h))
  }

  /** A state of the game with its checks counted over own moves, and a third occurrence judged
      by them. */
  function ByOwnChecks(s: Game): Game {
    s.(checks := OwnChecksOf(s),
       outcome := if EndedByRepetition(s) && s.history != [] then OwnJudgement(s.history) else s.outcome)
  }

  lemma OwnStart(s: Game)
    requires Coherent(s)
    ensures Start(ByOwnChecks(s)).0 == ByOwnChecks(Start(s).0)
  {
  }

  lemma OwnResign(s: Game, loser: Color)
    requires Coherent(s)
    ensures Resign(ByOwnChecks(s), loser).0 == ByOwnChecks(Resign(s, loser).0)
  {
  }

  lemma OwnRebuilt(h: seq<MoveRecord>, outcome: Outcome)
    requires outcome.reason == None
    ensures Rebuilt(h, outcome).(checks := OwnChecksAfter(h)) == ByOwnChecks(Rebuilt(h, outcome))
  {
  }

  lemma OwnReopened(s: Game)
    requires Coherent(s)
    ensures Reopened(ByOwnChecks(s).outcome) == Reopened(s.outcome) && Reopened(s.outcome).reason == None
  {
  }

  lemma OwnUndone(s: Game, times: int)
    requires Coherent(s)
    ensures UndoneBy(NextOwnChecks, ByOwnChecks(s), times) == ByOwnChecks(Undo(s, times).0)
  {
    OwnReopened(s);
    if |s.history| >= times {
      OwnRebuilt(s.history[..|s.history| - Pops(times)], Reopened(s.outcome));
    }
  }

  lemma OwnRefused(s: Game, m: Move, player: Option<Color>)
    requires Coherent(s)
    ensures WhyRefused(ByOwnChecks(s), m, player) == WhyRefused(s, m, player)
  {
  }

  lemma OwnMated(s: Game, m: Move)
    requires Coherent(s) && WhyRefused(s, m, None).None? && OverFor(Apply(s.grid, m), Opponent(s.turn)).Over?
    ensures PlayedBy(NextOwnChecks, ByOwnChecks(s), m) == ByOwnChecks(Played(s, m))
  {
    Appended(s.history, RecordOf(s.grid, s.turn, m));
  }

  /** Going on from a moved game in play: what the two counts make of it. */
  lemma {:induction false} OwnGoesOn(moved: Game, rec: MoveRecord, h: seq<MoveRecord>)
    requires moved.outcome == ONGOING && moved.turn == rec.player && moved.history == h + [rec]
    requires RepetitionOutcome(rec.isCheck, rec.player, NextChecks(moved.checks, rec.player, rec.isCheck))
      == EndedBy(None, ThreefoldRepetition)
    ensures ContinuedBy(NextOwnChecks, moved.(checks := OwnChecksAfter(h)), rec.isCheck)
      == ByOwnChecks(Continued(moved, rec.isCheck))
  {
    Appended(h, rec);
    assert OwnChecksAfter(h + [rec]) == NextOwnChecks(OwnChecksAfter(h), rec.player, rec.isCheck);
  }

  lemma {:induction false} ThirdWouldBeDrawn(s: Game, rec: MoveRecord)
    requires Coherent(s) && s.outcome == ONGOING && LegalRecord(s.history, rec)
    ensures RepetitionOutcome(rec.isCheck, rec.player, NextChecks(s.checks, rec.player, rec.isCheck))
      == EndedBy(None, ThreefoldRepetition)
  {
    HistoryGrows(s.history, rec);
    ThirdIsDrawn(s.history, rec);
  }

  lemma OwnContinued(s: Game, m: Move)
    requires Coherent(s) && WhyRefused(s, m, None).None? && OverFor(Apply(s.grid, m), Opponent(s.turn)).NotOver?
    ensures PlayedBy(NextOwnChecks, ByOwnChecks(s), m) == ByOwnChecks(Played(s, m))
  {
    var rec := RecordOf(s.grid, s.turn, m);
    ThirdWouldBeDrawn(s, rec);
    OwnGoesOn(Moved(s, m), rec, s.history);
  }

  lemma OwnTried(s: Game, m: Move, player: Option<Color>)
    requires Coherent(s)
    ensures TriedBy(NextOwnChecks, ByOwnChecks(s), m, player) == ByOwnChecks(MakeMove(s, m, player).0)
  {
    OwnRefused(s, m, player);
    if WhyRefused(s, m, player).None? {
      if OverFor(Apply(s.grid, m), Opponent(s.turn)).Over? {
        OwnMated(s, m);
      } else {
        OwnContinued(s, m);
      }
    }
  }

  lemma OwnNext(s: Game, e: Event)
    requires Coherent(s)
    ensures NextBy(NextOwnChecks, ByOwnChecks(s), e) == ByOwnChecks(Next(s, e))
  {
    match e
    case StartGame => OwnStart(s);
    case TryMove(m, player) => OwnTried(s, m, player);
    case TakeBack(times) => OwnUndone(s, times);
    case GiveUp(loser) => OwnResign(s, loser);
  }

  /** In every run the two counts lead to the same states but for the counters and the judgement of
      a third occurrence. */
  lemma {:induction false} OwnRun(events: seq<Event>)
    ensures AfterBy(NextOwnChecks, events) == ByOwnChecks(After(events))
  {
    if events != [] {
      var before := events[..|events| - 1];
      OwnRun(before);
      ReachableCoherent(before);
      OwnNext(After(before), events[|events| - 1]);
    }
  }

  lemma {:induction false} OwnJudges(h: seq<MoveRecord>)
    requires ValidHistory(h) && h != []
    ensures OwnJudgement(h)
      == if CheckedInRow(h, 3) then EndedBy(Some(Opponent(Last(h).player)), PerpetualCheck)
         else EndedBy(None, ThreefoldRepetition)
  {
    OwnRowCounts(h, PERPETUAL_CHECK_THRESHOLD);
    if CheckedInRow(h, PERPETUAL_CHECK_THRESHOLD) {
      assert h[|h| - 1 - 2 * 0] == Last(h);
    }
  }

  /** Counted over own moves, a run ends in perpetual check exactly if the game calls a draw by
      repetition after a move whose side has checked with each of its last three: then that side
      has lost. */
  lemma {:induction false} PerpetualCheckExactly(events: seq<Event>)
    ensures var s, own := After(events), AfterBy(NextOwnChecks, events);
      && (own.outcome.reason == Some(PerpetualCheck) <==>
            EndedByRepetition(s) && CheckedInRow(s.history, 3))
      && (own.outcome.reason == Some(PerpetualCheck) ==>
            s.history != [] && own.outcome == EndedBy(Some(Opponent(Last(s.history).player)), PerpetualCheck))
      && (own.outcome.reason != Some(PerpetualCheck) ==> own.outcome == s.outcome)
  {
    var s := After(events);
    OwnRun(events);
    ReachableCoherent(events);
    RepetitionAlwaysDraws(events);
    FittingOutcome(s);
    if EndedByRepetition(s) && s.history != [] {
      OwnJudges(s.history);
    }
  }

  // ----- A perpetual check -----

  /** A red rook takes an advisor and checks from there and from the cell below, in turn, while the
      black king steps down and up. */
  function ChaseMove(i: nat): Move {
    if i == 0 then Move(0, 9, 0, 8) else if i == 1 then Move(0, 3, 0, 4)
    else if i == 2 then Move(0, 8, 3, 8) else if i == 3 then Move(8, 3, 8, 4)
    else if i == 4 then Move(3, 8, 3, 0) else if i == 5 then Move(4, 0, 4, 1)
    else if i == 6 then Move(3, 0, 3, 1) else if i == 7 then Move(4, 1, 4, 0)
    else Move(3, 1, 3, 0)
  }

  /** The stage after the i-th; the ninth move goes back to the fifth stage. */
  function AfterChase(i: nat): nat {
    if i == 8 then 5 else i + 1
  }

  function ChaseCell(i: nat, c: int, r: int): Cell
    requires OnBoard(c, r)
  {
    if c == 0 && r == 9 && i >= 1 then EMPTY
    else if c == 0 && r == 8 && 1 <= i <= 2 then 4
    else if c == 3 && r == 8 && 3 <= i <= 4 then 4
    else if c == 3 && r == 0 && i >= 5 then if i <= 6 then 4 else EMPTY
    else if c == 3 && r == 1 && i >= 7 then 4
    else if c == 4 && r == 0 && 6 <= i <= 7 then EMPTY
    else if c == 4 && r == 1 && 6 <= i <= 7 then 10
    else if c == 0 && r == 3 && i >= 2 then EMPTY
    else if c == 0 && r == 4 && i >= 2 then 16
    else if c == 8 && r == 3 && i >= 4 then EMPTY
    else if c == 8 && r == 4 && i >= 4 then 16
    else StartCell(c, r)
  }

  ghost predicate AtChase(g: Grid, i: nat) {
    forall c, r :: OnBoard(c, r) ==> At(g, c, r) == ChaseCell(i, c, r)
  }

  /** The same, looked up by the cells asked for. */
  ghost predicate Pictured(g: Grid, i: nat) {
    forall c, r {:trigger ChaseCell(i, c, r)} :: OnBoard(c, r) ==> At(g, c, r) == ChaseCell(i, c, r)
  }

  lemma PicturedIs(g: Grid, i: nat)
    requires Pictured(g, i)
    ensures AtChase(g, i)
  {
  }

  lemma Picture(i: nat) returns (g: Grid)
    ensures Pictured(g, i)
  {
    g := seq(ROWS, r requires 0 <= r < ROWS => seq(COLS, c requires 0 <= c < COLS => ChaseCell(i, c, r)));
  }

  lemma SamePicture(g: Grid, h: Grid, i: nat)
    requires Pictured(g, i) && Pictured(h, i)
    ensures g == h
  {
    PicturedIs(g, i);
    PicturedIs(h, i);
    SameCells(g, h);
  }

  lemma ChaseOpens(g: Grid)
    requires AtChase(g, 0)
    ensures g == InitialGrid()
  {
    SameCells(g, InitialGrid());
  }

  lemma ChaseCellGoesOn(g: Grid, i: nat, c: int, r: int)
    requires i <= 8 && AtChase(g, i) && OnBoard(c, r)
    ensures At(Apply(g, ChaseMove(i)), c, r) == ChaseCell(AfterChase(i), c, r)
  {
    CellAfter(g, ChaseMove(i), c, r);
  }

  lemma ChaseGoesOn(g: Grid, i: nat, h: Grid)
    requires i <= 8 && AtChase(g, i) && AtChase(h, AfterChase(i))
    ensures Apply(g, ChaseMove(i)) == h
  {
    var h' := Apply(g, ChaseMove(i));
    forall c, r | OnBoard(c, r)
      ensures At(h', c, r) == At(h, c, r)
    {
      ChaseCellGoesOn(g, i, c, r);
    }
    SameCells(h', h);
  }

  lemma ChaseApart(g: Grid, i: nat, h: Grid, j: nat)
    requires i < j <= 8 && AtChase(g, i) && AtChase(h, j)
    ensures g != h
  {
    assert At(g, 0, 9) == ChaseCell(i, 0, 9) && At(h, 0, 9) == ChaseCell(j, 0, 9);
    assert At(g, 0, 8) == ChaseCell(i, 0, 8) && At(h, 0, 8) == ChaseCell(j, 0, 8);
    assert At(g, 3, 8) == ChaseCell(i, 3, 8) && At(h, 3, 8) == ChaseCell(j, 3, 8);
    assert At(g, 3, 0) == ChaseCell(i, 3, 0) && At(h, 3, 0) == ChaseCell(j, 3, 0);
    assert At(g, 4, 0) == ChaseCell(i, 4, 0) && At(h, 4, 0) == ChaseCell(j, 4, 0);
    assert At(g, 0, 3) == ChaseCell(i, 0, 3) && At(h, 0, 3) == ChaseCell(j, 0, 3);
    assert At(g, 8, 3) == ChaseCell(i, 8, 3) && At(h, 8, 3) == ChaseCell(j, 8, 3);
  }

  lemma ChaseReaches(g: Grid, i: nat)
    requires i <= 8 && AtChase(g, i)
    ensures Reaches(g, TurnAt(i), ChaseMove(i))
  {
  }

  /** Where the black king stands. */
  function KingRow(i: nat): int {
    if 6 <= i <= 7 then 1 else 0
  }

  lemma ChaseKings(g: Grid, i: nat)
    requires 1 <= i <= 8 && AtChase(g, i)
    ensures KingAt(g, Red, 4, 9) && KingAt(g, Black, 4, KingRow(i)) && IsPiece(At(g, 4, 6))
  {
  }

  lemma ChaseBlackMisses(g: Grid, i: nat, c: int, r: int)
    requires (i == 1 || i == 3 || i == 5 || i == 7) && AtChase(g, i)
    ensures !Reaches(g, Black, Move(c, r, 4, 9))
  {
  }

  lemma ChaseRedMisses(g: Grid, i: nat, c: int, r: int)
    requires (i == 2 || i == 4 || i == 6 || i == 8) && AtChase(g, i)
    ensures !Reaches(g, Red, Move(c, r, 4, KingRow(i)))
  {
  }

  lemma ChaseSafe(g: Grid, i: nat)
    requires 1 <= i <= 8 && AtChase(g, i)
    ensures !Exposed(g, Opponent(TurnAt(i)))
  {
    ChaseKings(g, i);
    KingIsFound(g, Red, 4, 9);
    KingIsFound(g, Black, 4, KingRow(i));
    assert Between(Move(4, 9, 4, KingRow(i)), 4, 6) && Between(Move(4, KingRow(i), 4, 9), 4, 6);
    if i % 2 == 1 {
      forall c, r { ChaseBlackMisses(g, i, c, r); }
    } else {
      forall c, r { ChaseRedMisses(g, i, c, r); }
    }
  }

  lemma ChaseStep(g: Grid, i: nat, h: Grid, n: nat) returns (m: Move)
    requires i <= 8 && n == AfterChase(i) && Pictured(g, i) && Pictured(h, n)
    ensures Reaches(g, TurnAt(i), m) && Apply(g, m) == h
  {
    m := ChaseMove(i);
    PicturedIs(g, i);
    PicturedIs(h, n);
    ChaseGoesOn(g, i, h);
    ChaseReaches(g, i);
  }

  lemma ChaseStaysSafe(g: Grid, i: nat, side: Color)
    requires 1 <= i <= 8 && Pictured(g, i) && side == Opponent(TurnAt(i))
    ensures !Exposed(g, side)
  {
    PicturedIs(g, i);
    ChaseSafe(g, i);
  }

  lemma ChaseLeads(p: (Grid, Color), i: nat, q: (Grid, Color), n: nat)
    requires i <= 8 && n == AfterChase(i) && ChaseAt(p, i) && ChaseAt(q, n)
    ensures Leads(p, q)
  {
    var m := ChaseStep(p.0, i, q.0, n);
    ChaseStaysSafe(q.0, n, p.1);
    LegalLeads(p, m, q);
  }

  ghost predicate ChaseAt(p: (Grid, Color), i: nat) {
    Pictured(p.0, i) && p.1 == TurnAt(i)
  }

  /** The rook gives check. */
  lemma ChaseChecks(g: Grid, i: nat)
    requires (i == 5 || i == 7) && AtChase(g, i)
    ensures Exposed(g, Black)
  {
    ChaseKings(g, i);
    KingIsFound(g, Black, 4, KingRow(i));
    assert Reaches(g, Red, Move(3, KingRow(i), 4, KingRow(i)));
  }

  /** The stage after k moves. */
  function StageAfter(k: nat): nat {
    if k <= 8 then k else 5 + (k - 5) % 4
  }

  ghost predicate Chased(ps: seq<(Grid, Color)>) {
    forall k :: 0 <= k < |ps| ==> ChaseAt(ps[k], StageAfter(k))
  }

  lemma {:induction false} Chase(n: nat) returns (ps: seq<(Grid, Color)>)
    ensures Chased(ps) && |ps| == n
  {
    ps := [];
    if n > 0 {
      ps := Chase(n - 1);
      var g := Picture(StageAfter(n - 1));
      ps := ps + [(g, TurnAt(StageAfter(n - 1)))];
    }
  }

  lemma StageGoesOn(k: nat)
    ensures StageAfter(k) <= 8 && StageAfter(k + 1) == AfterChase(StageAfter(k))
  {
  }

  lemma {:induction false} ChasedLeads(ps: seq<(Grid, Color)>, k: nat)
    requires Chased(ps) && k + 1 < |ps|
    ensures Leads(ps[k], ps[k + 1])
  {
    StageGoesOn(k);
    ChaseLeads(ps[k], StageAfter(k), ps[k + 1], StageAfter(k + 1));
  }

  lemma {:induction false} ChasedApart(ps: seq<(Grid, Color)>, i: nat, j: nat)
    requires Chased(ps) && i < |ps| && j < |ps| && StageAfter(i) != StageAfter(j)
    ensures ps[i] != ps[j]
  {
    StageGoesOn(i);
    StageGoesOn(j);
    PicturedIs(ps[i].0, StageAfter(i));
    PicturedIs(ps[j].0, StageAfter(j));
    if StageAfter(i) < StageAfter(j) {
      ChaseApart(ps[i].0, StageAfter(i), ps[j].0, StageAfter(j));
    } else {
      ChaseApart(ps[j].0, StageAfter(j), ps[i].0, StageAfter(i));
    }
  }

  /** Up to the twelfth move no position comes up for the third time. */
  lemma {:induction false} ChasedOnce(ps: seq<(Grid, Color)>, k: nat)
    requires Chased(ps) && k < |ps| && k <= 12
    ensures AtMostOnce(ps[..k], ps[k])
  {
    forall i, j | 0 <= i < j < k && ps[..k][i] == ps[k]
      ensures ps[..k][j] != ps[k]
    {
      if StageAfter(i) != StageAfter(k) {
        ChasedApart(ps, i, k);
      } else {
        ChasedApart(ps, j, k);
      }
    }
  }

  lemma {:induction false} ChaseIsPath(ps: seq<(Grid, Color)>)
    requires Chased(ps) && |ps| <= 14
    ensures Path(ps)
  {
    forall k | 0 <= k < |ps| - 1
      ensures Leads(Spot(ps, k), ps[k + 1]) && AtMostOnce(ps[..k], ps[k])
    {
      ChasedLeads(ps, k);
      ChasedOnce(ps, k);
    }
  }

  lemma {:induction false} ChaseBegins(ps: seq<(Grid, Color)>)
    requires Chased(ps) && ps != []
    ensures ps[0] == Opening()
  {
    PicturedIs(ps[0].0, 0);
    ChaseOpens(ps[0].0);
  }

  lemma {:induction false} StandsTwice(s: seq<(Grid, Color)>, i: nat, j: nat, x: (Grid, Color))
    requires i < j < |s| && s[i] == x && s[j] == x
    ensures multiset(s)[x] >= 2
  {
    assert s == s[..i] + [s[i]] + s[i + 1..j] + [s[j]] + s[j + 1..];
  }

  /** The thirteenth move brings up the position after the fifth for the third time. */
  lemma {:induction false} ThirdTime(ps: seq<(Grid, Color)>, k: nat)
    requires Chased(ps) && k == 12 && |ps| == 14
    ensures multiset(ps[..k + 1])[ps[k + 1]] >= 2
  {
    assert StageAfter(5) == StageAfter(9) == StageAfter(13) == 5;
    SamePicture(ps[5].0, ps[k + 1].0, 5);
    SamePicture(ps[9].0, ps[k + 1].0, 5);
    StandsTwice(ps[..k + 1], 5, 9, ps[k + 1]);
  }

  /** Whether a recorded move gave check can be seen from the position after it. */
  lemma {:induction false} RecordedCheck(h: seq<MoveRecord>, visits: seq<(Grid, Color)>, i: nat)
    requires ValidHistory(h) && i < |h| && visits == Visited(Opening(), h)
    ensures h[i].isCheck == Exposed(visits[i + 1].0, visits[i + 1].1)
  {
    RecordIsLegal(h, i);
    RecordedLegally(h[..i], h[i]);
    VisitedPrefix(Opening(), h, i + 1);
    LastVisited(Opening(), h[..i + 1]);
  }

  lemma {:induction false} ChaseChecked(h: seq<MoveRecord>, ps: seq<(Grid, Color)>, n: nat)
    requires ValidHistory(h) && n == 13 && |h| == n && Chased(ps) && ps == Visited(Opening(), h)
    ensures CheckedInRow(h, 5)
  {
    forall i | 0 <= i < 5
      ensures h[|h| - 1 - 2 * i].isCheck
    {
      var k := |h| - 1 - 2 * i;
      RecordedCheck(h, ps, k);
      PicturedIs(ps[k + 1].0, StageAfter(k + 1));
      ChaseChecks(ps[k + 1].0, StageAfter(k + 1));
    }
  }

  lemma {:induction false} LastMover(h: seq<MoveRecord>, ps: seq<(Grid, Color)>)
    requires h != [] && ps == Visited(Opening(), h) && ps[|h|].1 == Black
    ensures Last(h).player == Red
  {
    LastVisited(Opening(), h);
  }

  lemma {:induction false} LastOfChase(ps: seq<(Grid, Color)>, k: nat)
    returns (p: (Grid, Color), q: (Grid, Color), r: (Grid, Color))
    requires Chased(ps) && k == 12 && |ps| == k + 2
    ensures p == ps[k] && q == ps[k + 1] && Leads(p, q) && Leads(q, r)
    ensures multiset(ps[..k + 1])[q] >= 2 && ps == ps[..k + 1] + [q]
  {
    var g := Picture(6);
    p, q, r := ps[k], ps[k + 1], (g, Red);
    ThirdTime(ps, k);
    ChasedLeads(ps, k);
    ChaseLeads(q, 5, r, 6);
  }

  lemma {:induction false} ChaseEnds(es: seq<Event>, ps: seq<(Grid, Color)>, k: nat) returns (es': seq<Event>)
    requires Chased(ps) && k == 12 && |ps| == k + 2 && ps[0] == Opening() && Come(es, ps[0], ps, k)
    ensures var e := After(es');
      e.outcome == EndedBy(None, ThreefoldRepetition) && Visited(Opening(), e.history) == ps && |e.history| == k + 1
  {
    var p, q, r := LastOfChase(ps, k);
    assert EndsIn(es, After(es));
    es' := PlayThird(es, ps[0], ps[..k + 1], p, q, r);
  }

  /** The code can be brought to a game in which red has checked with each of its last five moves
      when a position comes up for the third time: it calls a draw, where counting red's own moves
      would have red lose. */
  lemma {:induction false} PerpetualCheckIsDrawn() returns (es: seq<Event>)
    ensures var s := After(es);
      && s.outcome == EndedBy(None, ThreefoldRepetition) && |s.history| == 13 && Last(s.history).player == Red
      && CheckedInRow(s.history, 5)
      && AfterBy(NextOwnChecks, es).outcome == EndedBy(Some(Black), PerpetualCheck)
  {
    var ps := Chase(14);
    ChaseBegins(ps);
    ChaseIsPath(ps);
    es := PathStarts(ps);
    es := ComeTo(es, ps[0], ps, 12);
    es := ChaseEnds(es, ps, 12);
    ReachableCoherent(es);
    ChaseJudged(After(es).history, ps, 13);
    PerpetualCheckExactly(es);
  }

  lemma {:induction false} ChaseJudged(h: seq<MoveRecord>, ps: seq<(Grid, Color)>, n: nat)
    requires ValidHistory(h) && n == 13 && |h| == n && Chased(ps) && ps == Visited(Opening(), h)
    ensures Last(h).player == Red && CheckedInRow(h, 5) && CheckedInRow(h, 3)
  {
    ChaseChecked(h, ps, n);
    LastMover(h, ps);
  }
}
