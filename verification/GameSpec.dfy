/** The game state machine of chess/game.py as a transition function on states. */
module GameSpec {
  import opened Types
  import opened Counting
  import opened MoveRules
  import opened Checkers
  import opened Fen

  datatype MoveRecord = MoveRecord(move: Move, player: Color, piece: Cell, captured: Cell,
                                   boardBefore: Grid, boardAfter: Grid, isCheck: bool)

  datatype Phase = NotStarted | Playing | RedWins | BlackWins | Draw

  datatype GameResult = ResultRedWins | ResultBlackWins | ResultDraw | RedResign | BlackResign

  type Counts = map<string, nat>

  /** Consecutive checking moves, per side. */
  datatype Checks = Checks(red: nat, black: nat)

  datatype Outcome = Outcome(phase: Phase, winner: Option<Color>, reason: Option<WinReason>, result: Option<GameResult>)

  datatype Game = Game(grid: Grid, turn: Color, history: seq<MoveRecord>, outcome: Outcome, lastCheck: bool,
                       counts: Counts, checks: Checks)

  predicate IsOver(p: Phase) {
    p.RedWins? || p.BlackWins? || p.Draw?
  }

  const ONGOING: Outcome := Outcome(Playing, None, None, None)

  /** A checking move lengthens its side's row of checks and ends the other's; a quiet one ends
      both. */
  function NextChecks(checks: Checks, player: Color, isCheck: bool): Checks {
    if !isCheck then Checks(0, 0)
    else if player == Red then Checks(checks.red + 1, 0)
    else Checks(0, checks.black + 1)
  }

  function NewGame(): Game {
    Game(InitialGrid(), Red, [], Outcome(NotStarted, None, None, None), false,
         map[BoardToFen(InitialGrid(), Red) := 1], Checks(0, 0))
  }

  function Start(s: Game): (Game, bool) {
    if s.outcome.phase != NotStarted then (s, false)
    else (s.(outcome := s.outcome.(phase := Playing), counts := map[BoardToFen(s.grid, s.turn) := 1],
             checks := Checks(0, 0)), true)
  }

  // ----- Moves -----

  datatype Refusal = GameNotStarted | GameFinished | NotYourTurn | BadMove(error: MoveError)

  const REPETITION_THRESHOLD: nat := 3
  const PERPETUAL_CHECK_THRESHOLD: nat := 3

  function EndedBy(winner: Option<Color>, reason: WinReason): Outcome {
    match winner
    case Some(Red) => Outcome(RedWins, winner, Some(reason), Some(ResultRedWins))
    case Some(Black) => Outcome(BlackWins, winner, Some(reason), Some(ResultBlackWins))
    case None => Outcome(Draw, None, Some(reason), Some(ResultDraw))
  }

  /** A third occurrence: lost for a side that has checked often enough in a row, otherwise drawn. */
  function RepetitionOutcome(isCheck: bool, player: Color, checks: Checks): Outcome {
    if isCheck && player == Red && checks.red >= PERPETUAL_CHECK_THRESHOLD then EndedBy(Some(Black), PerpetualCheck)
    else if isCheck && player == Black && checks.black >= PERPETUAL_CHECK_THRESHOLD then
      EndedBy(Some(Red), PerpetualCheck)
    else EndedBy(None, ThreefoldRepetition)
  }

  ghost function RecordOf(g: Grid, player: Color, m: Move): MoveRecord {
    MoveRecord(m, player, At(g, m.fromCol, m.fromRow), At(g, m.toCol, m.toRow), g, Apply(g, m),
               Exposed(Apply(g, m), Opponent(player)))
  }

  /** The game goes on: the turn passes, and the new position and check are counted. */
  function Continued(moved: Game, isCheck: bool): Game {
    var player := moved.turn;
    var key := BoardToFen(moved.grid, Opponent(player));
    var counts := CountIn(moved.counts, key);
    var checks := NextChecks(moved.checks, player, isCheck);
    moved.(turn := Opponent(player), counts := counts, checks := checks,
           outcome := if counts[key] < REPETITION_THRESHOLD then moved.outcome
                      else RepetitionOutcome(isCheck, player, checks))
  }

  /** The state with a move played and recorded, before anything is drawn from it. */
  ghost function Moved(s: Game, m: Move): Game {
    var rec := RecordOf(s.grid, s.turn, m);
    s.(grid := rec.boardAfter, history := s.history + [rec], lastCheck := rec.isCheck)
  }

  /** The state after an accepted move of the side to move. */
  ghost function Played(s: Game, m: Move): Game {
    var moved := Moved(s, m);
    match OverFor(moved.grid, Opponent(s.turn))
    case Over(winner, reason) => moved.(outcome := EndedBy(winner, reason))
    case NotOver => Continued(moved, moved.lastCheck)
  }

  ghost function WhyRefused(s: Game, m: Move, player: Option<Color>): Option<Refusal> {
    if s.outcome.phase == NotStarted then Some(GameNotStarted)
    else if IsOver(s.outcome.phase) then Some(GameFinished)
    else if player.Some? && player.value != s.turn then Some(NotYourTurn)
    else
      match Verdict(s.grid, s.turn, m)
      case Some(e) => Some(BadMove(e))
      case None => None
  }

  ghost function MakeMove(s: Game, m: Move, player: Option<Color>): (Game, Option<Refusal>) {
    match WhyRefused(s, m, player)
    case Some(why) => (s, Some(why))
    case None => (Played(s, m), None)
  }

  // ----- Undo and resignation -----

  function KeyAfter(rec: MoveRecord): string {
    BoardToFen(rec.boardAfter, Opponent(rec.player))
  }

  /** The position counts a history adds to given ones. */
  function Recount(counts: Counts, h: seq<MoveRecord>): Counts {
    if h == [] then counts
    else CountIn(Recount(counts, h[..|h| - 1]), KeyAfter(h[|h| - 1]))
  }

  function ChecksAfter(h: seq<MoveRecord>): Checks {
    if h == [] then Checks(0, 0)
    else NextChecks(ChecksAfter(h[..|h| - 1]), h[|h| - 1].player, h[|h| - 1].isCheck)
  }

  function GridAfter(h: seq<MoveRecord>): Grid {
    if h == [] then InitialGrid() else h[|h| - 1].boardAfter
  }

  function TurnAfter(h: seq<MoveRecord>): Color {
    if h == [] then Red else Opponent(h[|h| - 1].player)
  }

  function CheckAfter(h: seq<MoveRecord>): bool {
    h != [] && h[|h| - 1].isCheck
  }

  function Pops(times: int): nat {
    if times < 0 then 0 else times
  }

  function Reopened(o: Outcome): Outcome {
    if IsOver(o.phase) then ONGOING else o
  }

  /** The bookkeeping rebuilt from a list of moves, with the position arrived at counted once more
      than the moves say. */
  function Rebuilt(h: seq<MoveRecord>, outcome: Outcome): Game {
    Game(GridAfter(h), TurnAfter(h), h, outcome, CheckAfter(h),
         Recount(map[BoardToFen(GridAfter(h), TurnAfter(h)) := 1], h), ChecksAfter(h))
  }

  /** Takes moves back; a game that was over is open again. */
  function Undo(s: Game, times: int): (Game, bool) {
    if |s.history| < times then (s, false)
    else (Rebuilt(s.history[..|s.history| - Pops(times)], Reopened(s.outcome)), true)
  }

  function LostBy(loser: Color): Outcome {
    if loser == Black then Outcome(RedWins, Some(Red), Some(Resignation), Some(RedResign))
    else Outcome(BlackWins, Some(Black), Some(Resignation), Some(BlackResign))
  }

  function Resign(s: Game, player: Color): (Game, bool) {
    if IsOver(s.outcome.phase) || s.outcome.phase == NotStarted then (s, false)
    else (s.(outcome := LostBy(player)), true)
  }

  // ----- Runs -----

  datatype Event = StartGame | TryMove(m: Move, player: Option<Color>) | TakeBack(times: int) | GiveUp(loser: Color)

  ghost function Next(s: Game, e: Event): Game {
    match e
    case StartGame => Start(s).0
    case TryMove(m, player) => MakeMove(s, m, player).0
    case TakeBack(times) => Undo(s, times).0
    case GiveUp(loser) => Resign(s, loser).0
  }

  /** The state after a sequence of events on a new game. */
  ghost function After(events: seq<Event>): Game {
    if events == [] then NewGame() else Next(After(events[..|events| - 1]), events[|events| - 1])
  }
}
