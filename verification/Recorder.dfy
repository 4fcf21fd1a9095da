/** The move recorder of chess/recorder.py: its running hash and its repetition window. */
module Recorder {
  import opened Types
  import opened BoardModel
  import opened Counting
  import opened GameSpec
  import opened GameRuns
  import opened Zobrist

  // ----- The repetition window -----

  const MAX_RECENT_HASHES: nat := 20

  /** The last of a row, as many as the window holds. */
  function Window<T>(s: seq<T>): seq<T> {
    if |s| <= MAX_RECENT_HASHES then s else s[|s| - MAX_RECENT_HASHES..]
  }

  /** The counts say how often each hash stands in the window, and name no other. */
  ghost predicate CountsWindow<K(!new)>(counts: map<K, nat>, window: seq<K>) {
    && (forall h :: CountOf(counts, h) == multiset(window)[h])
    && (forall h :: h in counts ==> counts[h] > 0)
  }

  lemma CountsOneMore<K(!new)>(counts: map<K, nat>, window: seq<K>, h: K)
    requires CountsWindow(counts, window)
    ensures CountsWindow(CountIn(counts, h), window + [h])
  {
    forall k
      ensures CountOf(CountIn(counts, h), k) == multiset(window + [h])[k]
    {
      assert CountOf(counts, k) == multiset(window)[k];
    }
  }

  lemma CountsOneLess<K(!new)>(counts: map<K, nat>, window: seq<K>)
    requires window != [] && CountsWindow(counts, window)
    ensures window[0] in counts && counts[window[0]] > 0
    ensures CountsWindow(CountOut(counts, window[0]), window[1..])
  {
    assert window == [window[0]] + window[1..];
    assert CountOf(counts, window[0]) == multiset(window)[window[0]];
    forall k
      ensures CountOf(CountOut(counts, window[0]), k) == multiset(window[1..])[k]
    {
      assert CountOf(counts, k) == multiset(window)[k];
    }
  }

  lemma WindowSlides(hashes: seq<Hash>, h: Hash)
    ensures var longer := Window(hashes) + [h];
      Window(hashes + [h]) == if |longer| > MAX_RECENT_HASHES then longer[1..] else longer
  {
  }

  predicate Resets(piece: Cell, captured: Cell) {
    captured >= 0 || piece % 10 == PAWN
  }

  class RepetitionState {
    var positionCounts: map<Hash, nat>
    var recentHashes: seq<Hash>
    var halfmoveClock: nat
    var fullmoveNumber: nat

    constructor ()
      ensures Counts() && recentHashes == [] && halfmoveClock == 0 && fullmoveNumber == 0
    {
      positionCounts, recentHashes := map[], [];
      halfmoveClock, fullmoveNumber := 0, 0;
    }

    ghost predicate Counts()
      reads this
    {
      CountsWindow(positionCounts, recentHashes)
    }

    method RecordPosition(keys: Keys, board: Board, turn: Color, piece: Cell, captured: Cell, ghost all: seq<Hash>)
      requires Xors(keys) && Counts() && recentHashes == Window(all)
      modifies this
      ensures Counts() && recentHashes == Window(all + [PositionHash(keys, board.cells, turn)])
      ensures fullmoveNumber == old(fullmoveNumber) + 1
      ensures halfmoveClock == if captured >= 0 || piece % 10 == 6 then 0 else old(halfmoveClock) + 1
    {
      fullmoveNumber := fullmoveNumber + 1;
      var h := ComputeHash(keys, board, turn);
      WindowSlides(all, h);
      Push(h);
      if |recentHashes| > MAX_RECENT_HASHES {
        DropOldest();
      }
      if captured >= 0 || piece % 10 == 6 {
        halfmoveClock := 0;
      } else {
        halfmoveClock := halfmoveClock + 1;
      }
    }

    method Push(h: Hash)
      requires Counts()
      modifies this`positionCounts, this`recentHashes
      ensures Counts() && recentHashes == old(recentHashes) + [h]
    {
      CountsOneMore(positionCounts, recentHashes, h);
      positionCounts := positionCounts[h := (if h in positionCounts then positionCounts[h] else 0) + 1];
      recentHashes := recentHashes + [h];
    }

    method DropOldest()
      requires Counts() && recentHashes != []
      modifies this`positionCounts, this`recentHashes
      ensures Counts() && recentHashes == old(recentHashes)[1..]
    {
      CountsOneLess(positionCounts, recentHashes);
      var oldest := recentHashes[0];
      recentHashes := recentHashes[1..];
      positionCounts := positionCounts[oldest := positionCounts[oldest] - 1];
      if positionCounts[oldest] == 0 {
        positionCounts := positionCounts - {oldest};
      }
    }

    /** The last recorded hash stands in the window three times. */
    method IsThreefoldRepetition() returns (yes: bool)
      requires Counts()
      ensures yes <==> recentHashes != [] && multiset(recentHashes)[recentHashes[|recentHashes| - 1]] >= 3
    {
      if recentHashes == [] {
        return false;
      }
      var last := recentHashes[|recentHashes| - 1];
      yes := (if last in positionCounts then positionCounts[last] else 0) >= 3;
    }
  }

  // ----- The recorder -----

  /** What the recorder knows: the moves left, the running hash, and the hash of every position
      ever recorded. */
  datatype Log = Log(moves: seq<MoveRecord>, hash: Hash, recorded: seq<Hash>)

  function HashAfter(keys: Keys, moves: seq<MoveRecord>): Hash {
    PositionHash(keys, GridAfter(moves), TurnAfter(moves))
  }

  function NewLog(keys: Keys): Log {
    Log([], HashAfter(keys, []), [])
  }

  /** The running hash is updated from the move alone; the repetition window gets the new board
      with the side that has just moved. */
  function Recorded(keys: Keys, log: Log, rec: MoveRecord): Log {
    Log(log.moves + [rec], UpdateHash(keys, log.hash, rec.piece, rec.move, rec.captured),
        log.recorded + [PositionHash(keys, rec.boardAfter, rec.player)])
  }

  /** The hash is computed afresh; nothing recorded is taken back. */
  function UndoneLast(keys: Keys, log: Log): Log {
    if log.moves == [] then log
    else Log(Front(log.moves), HashAfter(keys, Front(log.moves)), log.recorded)
  }

  class GameRecorder {
    const keys: Keys
    const initialBoard: Board
    var moves: seq<MoveRecord>
    const repetition: RepetitionState
    var currentHash: Hash
    ghost var recorded: seq<Hash>

    ghost predicate Valid()
      reads this, repetition, initialBoard
    {
      && Xors(keys) && initialBoard.cells == InitialGrid()
      && repetition.Counts() && repetition.recentHashes == Window(recorded)
    }

    ghost function State(): Log
      reads this
    {
      Log(moves, currentHash, recorded)
    }

    constructor (keys: Keys)
      requires Xors(keys)
      ensures Valid() && this.keys == keys && State() == NewLog(keys) && fresh(repetition) && fresh(initialBoard)
    {
      this.keys := keys;
      initialBoard := new Board(InitialGrid());
      moves := [];
      repetition := new RepetitionState();
      recorded := [];
      new;
      currentHash := ComputeHash(keys, initialBoard, Red);
    }

    method RecordMove(rec: MoveRecord)
      requires Valid()
      modifies this, repetition
      ensures Valid() && State() == Recorded(keys, old(State()), rec)
    {
      moves := moves + [rec];
      var board := new Board(rec.boardAfter);
      currentHash := UpdateHash(keys, currentHash, rec.piece, rec.move, rec.captured);
      repetition.RecordPosition(keys, board, rec.player, rec.piece, rec.captured, recorded);
      recorded := recorded + [PositionHash(keys, rec.boardAfter, rec.player)];
    }

    /** The repetition test, of everything ever recorded. */
    method IsThreefold() returns (yes: bool)
      requires Valid()
      ensures yes <==> CalledThreefold(State())
    {
      yes := repetition.IsThreefoldRepetition();
    }

    method UndoLast() returns (ok: bool)
      requires Valid()
      modifies this
      ensures Valid() && State() == UndoneLast(keys, old(State())) && ok == (old(moves) != [])
    {
      if moves == [] {
        return false;
      }
      moves := moves[..|moves| - 1];
      if moves != [] {
        var last := moves[|moves| - 1];
        var board := new Board(last.boardAfter);
        currentHash := ComputeHash(keys, board, Opponent(last.player));
      } else {
        currentHash := ComputeHash(keys, initialBoard, Red);
      }
      return true;
    }
  }

  // ----- Runs -----

  datatype RecorderEvent = RecordMove(rec: MoveRecord) | UndoLast

  function Logged(keys: Keys, events: seq<RecorderEvent>): Log {
    if events == [] then NewLog(keys)
    else
      var log := Logged(keys, events[..|events| - 1]);
      match events[|events| - 1]
      case RecordMove(rec) => Recorded(keys, log, rec)
      case UndoLast => UndoneLast(keys, log)
  }

  /** The record continues the moves left: of the side to move, from a piece on the board, with
      the cells it names and the board it leads to. */
  predicate Follows(moves: seq<MoveRecord>, rec: MoveRecord) {
    var g, m := GridAfter(moves), rec.move;
    && rec.player == TurnAfter(moves)
    && InBounds(m) && IsPiece(At(g, m.fromCol, m.fromRow))
    && rec.piece == At(g, m.fromCol, m.fromRow) && rec.captured == At(g, m.toCol, m.toRow)
    && rec.boardAfter == Apply(g, m)
  }

  lemma LegalRecordFollows(moves: seq<MoveRecord>, rec: MoveRecord)
    requires LegalRecord(moves, rec)
    ensures Follows(moves, rec)
  {
    RecordedLegally(moves, rec);
  }

  predicate InOrder(keys: Keys, events: seq<RecorderEvent>) {
    forall i :: 0 <= i < |events| && events[i].RecordMove? ==> Follows(Logged(keys, events[..i]).moves, events[i].rec)
  }

  lemma RecordKeepsHash(keys: Keys, log: Log, rec: MoveRecord)
    requires Xors(keys) && Follows(log.moves, rec) && log.hash == HashAfter(keys, log.moves)
    ensures Recorded(keys, log, rec).hash == HashAfter(keys, log.moves + [rec])
  {
    UpdateIsHash(keys, GridAfter(log.moves), rec.player, rec.move);
  }

  /** However records and undos are mixed, the running hash is the hash of the position that the
      moves left lead to. */
  lemma {:induction false} HashIsCurrent(keys: Keys, events: seq<RecorderEvent>)
    requires Xors(keys) && InOrder(keys, events)
    ensures Logged(keys, events).hash == HashAfter(keys, Logged(keys, events).moves)
  {
    if events != [] {
      var n := |events| - 1;
      forall i | 0 <= i < n && events[..n][i].RecordMove?
        ensures Follows(Logged(keys, events[..n][..i]).moves, events[..n][i].rec)
      {
        assert events[..n][..i] == events[..i];
      }
      HashIsCurrent(keys, events[..n]);
      if events[n].RecordMove? {
        RecordKeepsHash(keys, Logged(keys, events[..n]), events[n].rec);
      }
    }
  }

  /** A move recorded, taken back and recorded again fills the window with its position: after the
      third time it is called a threefold repetition, though it stands once among the moves. */
  lemma UndoneMovesStillCount(keys: Keys, log: Log, rec: MoveRecord)
    ensures var once := Recorded(keys, log, rec);
      var again := Recorded(keys, UndoneLast(keys, once), rec);
      var thrice := Recorded(keys, UndoneLast(keys, again), rec);
      && thrice.moves == log.moves + [rec]
      && multiset(Window(thrice.recorded))[PositionHash(keys, rec.boardAfter, rec.player)] >= 3
      && CalledThreefold(thrice)
  {
    var h := PositionHash(keys, rec.boardAfter, rec.player);
    var w := Window(log.recorded + [h] + [h] + [h]);
    assert w == w[..|w| - 3] + [h] + [h] + [h];
    assert Front(log.moves + [rec]) == log.moves;
  }

  // ----- When the window follows the moves left -----

  /** What the recorder hashes of a record: its board with the side that made the move. */
  function Placed(rec: MoveRecord): (Grid, Color) {
    (rec.boardAfter, rec.player)
  }

  function PlacesOf(h: seq<MoveRecord>): (ps: seq<(Grid, Color)>)
    ensures |ps| == |h|
  {
    seq(|h|, i requires 0 <= i < |h| => Placed(h[i]))
  }

  function HashOf(keys: Keys, p: (Grid, Color)): Hash {
    PositionHash(keys, p.0, p.1)
  }

  /** The hashes of given moves, in order. */
  function HashesOf(keys: Keys, h: seq<MoveRecord>): (hashes: seq<Hash>)
    ensures |hashes| == |h|
  {
    seq(|h|, i requires 0 <= i < |h| => HashOf(keys, Placed(h[i])))
  }

  /** Every undo came when there was no move to take back. */
  predicate NothingTakenBack(keys: Keys, events: seq<RecorderEvent>) {
    forall i :: 0 <= i < |events| && events[i].UndoLast? ==> Logged(keys, events[..i]).moves == []
  }

  lemma {:induction false} NothingInFront(keys: Keys, events: seq<RecorderEvent>, front: seq<RecorderEvent>,
                                          e: RecorderEvent)
    requires events == front + [e]
    ensures NothingTakenBack(keys, events) <==>
      NothingTakenBack(keys, front) && (e.UndoLast? ==> Logged(keys, front).moves == [])
  {
    assert events[..|front|] == front;
    assert forall i :: 0 <= i < |front| ==> events[i] == front[i] && events[..i] == front[..i];
  }

  /** Recording never falls behind, and nothing recorded is forgotten. */
  lemma {:induction false} RecordedAtLeast(keys: Keys, events: seq<RecorderEvent>)
    ensures |Logged(keys, events).moves| <= |Logged(keys, events).recorded|
  {
    if events != [] {
      RecordedAtLeast(keys, events[..|events| - 1]);
    }
  }

  lemma {:induction false} OneMoreFollows(keys: Keys, recorded: seq<Hash>, h: seq<MoveRecord>, rec: MoveRecord)
    ensures recorded + [HashOf(keys, Placed(rec))] == HashesOf(keys, h + [rec]) <==> recorded == HashesOf(keys, h)
  {
    assert HashesOf(keys, h + [rec]) == HashesOf(keys, h) + [HashOf(keys, Placed(rec))];
    var one, other := recorded + [HashOf(keys, Placed(rec))], HashesOf(keys, h) + [HashOf(keys, Placed(rec))];
    if one == other {
      assert one[..|one| - 1] == recorded && other[..|other| - 1] == HashesOf(keys, h);
    }
  }

  lemma RecordingFollows(keys: Keys, log: Log, rec: MoveRecord, e: Log)
    requires e == Recorded(keys, log, rec)
    ensures e.recorded == HashesOf(keys, e.moves) <==> log.recorded == HashesOf(keys, log.moves)
  {
    OneMoreFollows(keys, log.recorded, log.moves, rec);
  }

  lemma UndoingFollows(keys: Keys, log: Log, e: Log)
    requires |log.moves| <= |log.recorded| && e == UndoneLast(keys, log)
    ensures e.recorded == HashesOf(keys, e.moves) <==> log.recorded == HashesOf(keys, log.moves) && log.moves == []
  {
  }

  /** The positions recorded are those of the moves left exactly if no move was ever taken back. */
  lemma {:induction false} RecordedFollowsMoves(keys: Keys, events: seq<RecorderEvent>)
    ensures var log := Logged(keys, events);
      log.recorded == HashesOf(keys, log.moves) <==> NothingTakenBack(keys, events)
  {
    if events != [] {
      var front, e := events[..|events| - 1], events[|events| - 1];
      RecordedFollowsMoves(keys, front);
      NothingInFront(keys, events, front, e);
      match e
      case RecordMove(rec) => RecordingFollows(keys, Logged(keys, front), rec, Logged(keys, events));
      case UndoLast =>
        RecordedAtLeast(keys, front);
        UndoingFollows(keys, Logged(keys, front), Logged(keys, events));
    }
  }

  /** What the repetition test answers. */
  predicate CalledThreefold(log: Log) {
    var w := Window(log.recorded);
    w != [] && multiset(w)[w[|w| - 1]] >= 3
  }

  /** Different ones among these places have different hashes. */
  predicate ToldApart(keys: Keys, ps: seq<(Grid, Color)>) {
    forall i, j :: 0 <= i < |ps| && 0 <= j < |ps| && HashOf(keys, ps[i]) == HashOf(keys, ps[j]) ==> ps[i] == ps[j]
  }

  lemma {:induction false} HashesCount(keys: Keys, ps: seq<(Grid, Color)>, hashes: seq<Hash>, p: (Grid, Color))
    requires |hashes| == |ps| && forall i :: 0 <= i < |ps| ==> hashes[i] == HashOf(keys, ps[i])
    requires forall i :: 0 <= i < |ps| && HashOf(keys, ps[i]) == HashOf(keys, p) ==> ps[i] == p
    ensures multiset(hashes)[HashOf(keys, p)] == multiset(ps)[p]
  {
    if ps != [] {
      var n := |ps| - 1;
      HashesCount(keys, ps[..n], hashes[..n], p);
      assert ps == ps[..n] + [ps[n]] && hashes == hashes[..n] + [hashes[n]];
    }
  }

  /** The last twenty of a row, or all of it. */
  lemma WindowIsTwenty<T>(s: seq<T>)
    ensures Window(s) == if |s| < 20 then s else s[|s| - 20..]
  {
    assert |s| == 20 ==> s == s[0..];
  }

  /** While no move is taken back, a threefold repetition is called exactly if the position after
      the last move stands three times among the last twenty moves left, given that the keys tell
      these apart. The opening itself is never among them. */
  lemma {:induction false} ThreefoldFollowsMoves(keys: Keys, events: seq<RecorderEvent>, ps: seq<(Grid, Color)>)
    requires NothingTakenBack(keys, events) && ToldApart(keys, ps)
    requires var all := PlacesOf(Logged(keys, events).moves); ps == if |all| < 20 then all else all[|all| - 20..]
    ensures CalledThreefold(Logged(keys, events)) <==> ps != [] && multiset(ps)[ps[|ps| - 1]] >= 3
  {
    RecordedFollowsMoves(keys, events);
    WindowIsTwenty(PlacesOf(Logged(keys, events).moves));
    CalledByPlaces(keys, Logged(keys, events), ps);
  }

  lemma {:induction false} CalledByPlaces(keys: Keys, log: Log, ps: seq<(Grid, Color)>)
    requires log.recorded == HashesOf(keys, log.moves) && ps == Window(PlacesOf(log.moves)) && ToldApart(keys, ps)
    ensures CalledThreefold(log) <==> ps != [] && multiset(ps)[ps[|ps| - 1]] >= 3
  {
    if ps != [] {
      HashesCount(keys, ps, Window(log.recorded), ps[|ps| - 1]);
    }
  }
}
