/** The negamax search of ai/engine.py on a board it changes in place. */
module Search {
  import opened Types
  import opened BoardModel
  import opened Counting
  import opened SearchSpec
  import opened Evaluator
  import opened Quiescence

  datatype GameOver = GameOver(isOver: bool, winner: Option<Color>)

  /** A side without a legal move has lost, in check or not. */
  function CheckGameOver(R: Rules, g: Grid, toMove: Color): GameOver {
    if Stuck(R, g, toMove) then GameOver(true, Some(Opponent(toMove))) else GameOver(false, None)
  }

  const REPETITION_THRESHOLD: int := 3

  datatype SearchResult = SearchResult(move: Move, score: real, depth: int, isCheckmate: bool)

  const MTDF_MAX_ITERATIONS: int := 15

  // ----- The clock between rounds -----

  /** The round, from the d-th on, after which iterative deepening stops: the first that ends past
      the limit, or the last one asked for. elapsed(k) is the time taken when round k ends. */
  function LastRound(searchDepth: nat, limit: real, elapsed: nat -> real, d: nat): nat
    requires d <= searchDepth
    decreases searchDepth - d
  {
    if d == searchDepth || elapsed(d) > limit then d else LastRound(searchDepth, limit, elapsed, d + 1)
  }

  /** The depth whose result is returned. */
  function DepthReached(searchDepth: nat, iterative: bool, limit: real, elapsed: nat -> real): nat {
    if iterative && searchDepth > 0 then LastRound(searchDepth, limit, elapsed, 1) else searchDepth
  }

  lemma {:induction false} LastRoundIsLast(searchDepth: nat, limit: real, elapsed: nat -> real, d: nat)
    requires d <= searchDepth
    ensures d <= LastRound(searchDepth, limit, elapsed, d) <= searchDepth
    ensures LastRound(searchDepth, limit, elapsed, d) == searchDepth <==>
      forall k :: d <= k < searchDepth ==> elapsed(k) <= limit
    decreases searchDepth - d
  {
    if d < searchDepth && elapsed(d) <= limit {
      LastRoundIsLast(searchDepth, limit, elapsed, d + 1);
    }
  }

  /** The result is that of the depth asked for exactly without iterative deepening, at depth one
      or less, or if no round before the last ends past the limit. */
  lemma FullDepthReached(searchDepth: nat, iterative: bool, limit: real, elapsed: nat -> real)
    ensures DepthReached(searchDepth, iterative, limit, elapsed) == searchDepth <==>
      !iterative || searchDepth <= 1 || forall k :: 1 <= k < searchDepth ==> elapsed(k) <= limit
  {
    if searchDepth > 0 {
      LastRoundIsLast(searchDepth, limit, elapsed, 1);
    }
  }

  /** A limit of zero or less, which turns the clock off inside a search, ends iterative deepening
      after its first round as soon as that round has taken any time at all. */
  lemma NoLimitMeansOneRound(searchDepth: nat, limit: real, elapsed: nat -> real)
    requires searchDepth > 0 && limit <= 0.0
    requires elapsed(1) > 0.0 || (elapsed(1) == 0.0 && limit < 0.0)
    ensures DepthReached(searchDepth, true, limit, elapsed) == 1
  {
  }

  // ----- The engine -----

  class ChessAI {
    const params: Params
    /** The search at the leaves, whose tables also serve the first guesses. */
    const quiescence: QuiescenceSearch
    const key: (Grid, Color) -> int
    /** Null moves are tried from this remaining depth up. */
    const nullMoveDepth: int
    /** The nodes the search may visit. */
    ghost const nodes: iset<Node>

    var ttable: Table
    var repCounts: map<int, nat>
    /** How often a node has been called a draw by repetition. */
    ghost var draws: nat

    constructor (params: Params, quiescence: QuiescenceSearch, key: (Grid, Color) -> int,
                 nullMoveDepth: int, ghost nodes: iset<Node>)
      ensures this.params == params && this.quiescence == quiescence && this.key == key
      ensures this.nullMoveDepth == nullMoveDepth && this.nodes == nodes
      ensures ttable == map[] && repCounts == map[] && draws == 0
    {
      this.params, this.quiescence, this.key := params, quiescence, key;
      this.nullMoveDepth := nullMoveDepth;
      this.nodes := nodes;
      ttable, repCounts := map[], map[];
      draws := 0;
    }

    /** What the parts of the search that are parameters have to satisfy. */
    ghost predicate Setup() {
      && Lawful(params.rules)
      && LeavesBounded(params)
      && LeavesQuiet()
      && NoCollision(key, nodes)
      && NodesClosed()
    }

    /** On the nodes of the search the leaf values are the values of the capture search. */
    ghost predicate LeavesQuiet() {
      forall n :: n in nodes ==> QuietValue(quiescence.tables, n.g, n.side) == params.leafValue(n.g, n.side)
    }

    ghost predicate NodesClosed() {
      forall n, n' :: n in nodes && n.depth > 0 && Step(params.rules, n, n') ==> n' in nodes
    }

    ghost predicate NoZeros(counts: map<int, nat>) {
      forall k :: k in counts ==> counts[k] > 0
    }

    lemma LeaveUndoesEnter(counts: map<int, nat>, k: int)
      requires NoZeros(counts)
      ensures CountOut(CountIn(counts, k), k) == counts && NoZeros(CountIn(counts, k))
    {
    }

    /** The counts are those of the ancestors on a path of the search. */
    ghost predicate Tracks(counts: map<int, nat>, path: seq<Node>) {
      forall k :: CountOf(counts, k) == Occurrences(key, path, k)
    }

    /** n is reached along path in a search of at most the largest configured depth. */
    ghost predicate Reached(counts: map<int, nat>, path: seq<Node>, n: Node) {
      && Tracks(counts, path)
      && Chain(params.rules, path + [n])
      && Within(path + [n], nodes)
      && (path + [n])[0].depth <= LARGEST_DEPTH
    }

    /** Windows on which the search promises something: open ones, and bounded where a null
        move may be tried. */
    ghost predicate Proper(alpha: Ext, beta: Ext, depth: int) {
      && Lt(alpha, beta)
      && (depth < nullMoveDepth || (alpha.Fin? && beta.Fin?))
    }

    ghost predicate TableOk(table: Table) {
      TableTrue(params, key, nodes, table, nullMoveDepth)
    }

    /** The answer the search owes for a node below the null-move depth. */
    ghost predicate Answers(n: Node, alpha: Ext, beta: Ext, r: real) {
      n.depth < nullMoveDepth ==> InWindow(NodeValue(params, n), alpha, beta, r)
    }

    /** The answer it owes the side that moved to a node, with the window seen by that side. */
    ghost predicate AnswersMover(child: Node, alpha: Ext, beta: Ext, score: real) {
      child.depth < nullMoveDepth ==> InWindow(-NodeValue(params, child), alpha, beta, score)
    }

    /** The order moves are tried in: any permutation. */
    method SortMoves(moves: seq<Move>) returns (sorted: seq<Move>)
      ensures multiset(sorted) == multiset(moves)
    {
      sorted :| multiset(sorted) == multiset(moves);
    }

    /** Looks the node up: either the stored score already answers the window, or the window
        comes back narrowed to one whose answer is an answer to the original. */
    method Probe(ghost n: Node, ttKey: (int, int), depth: int, alpha0: Ext, beta0: Ext)
      returns (done: bool, score: real, alpha: Ext, beta: Ext)
      requires ttKey == (key(n.g, n.side), n.depth) && n.depth == depth
      ensures n in nodes && Proper(alpha0, beta0, depth) && TableOk(ttable) ==>
        if done then Answers(n, alpha0, beta0, score)
        else Proper(alpha, beta, depth)
             && (depth < nullMoveDepth ==> forall x :: InWindow(NodeValue(params, n), alpha, beta, x)
                                                       ==> InWindow(NodeValue(params, n), alpha0, beta0, x))
    {
      done, score, alpha, beta := false, 0.0, alpha0, beta0;
      if ttKey in ttable {
        var entry := ttable[ttKey];
        if entry.depth >= depth {
          match entry.flag {
            case Exact =>
              done := true;
            case Lower =>
              alpha := Max(alpha, Fin(entry.score));
            case Upper =>
              beta := Min(beta, Fin(entry.score));
          }
          done := done || Le(beta, alpha);
          score := entry.score;
          if n in nodes && Proper(alpha0, beta0, depth) && TableOk(ttable) && depth < nullMoveDepth {
            ghost var value := NodeValue(params, n);
            forall x ensures done || (InWindow(value, alpha, beta, x) ==> InWindow(value, alpha0, beta0, x)) {
              NarrowedWindow(value, alpha0, beta0, entry, x);
            }
            NarrowedWindow(value, alpha0, beta0, entry, score);
          }
        }
      }
    }

    method Negamax(board: Board, turn: Color, depth: int, alpha0: Ext, beta0: Ext, ghost path: seq<Node>)
      returns (r: real)
      requires Setup() && NoZeros(repCounts)
      modifies this, board
      ensures board.cells == old(board.cells) && repCounts == old(repCounts)
      ensures Reached(old(repCounts), path, Node(old(board.cells), turn, depth)) ==> draws == old(draws)
      ensures var n := Node(old(board.cells), turn, depth);
        Reached(old(repCounts), path, n) && Proper(alpha0, beta0, depth) && TableOk(old(ttable)) ==>
          TableOk(ttable) && Answers(n, alpha0, beta0, r)
      decreases if depth <= 0 then 0 else depth, 1, 0
    {
      ghost var n := Node(board.cells, turn, depth);
      ghost var reached := Reached(repCounts, path, n);
      assert reached ==> n in nodes by { assert (path + [n])[|path|] == n; }
      if depth <= 0 {
        r := quiescence.Search(board, turn, alpha0, beta0);
        return;
      }
      ghost var promised := reached && Proper(alpha0, beta0, depth) && TableOk(ttable);
      var zhash := key(board.cells, turn);
      var ttKey := (zhash, depth);
      var done, score, alpha, beta := Probe(n, ttKey, depth, alpha0, beta0);
      if done {
        return score;
      }

      var legal := params.rules.legal(board.cells, turn);
      if legal == [] {
        if params.rules.exposed(board.cells, turn) {
          r := -MATE + (params.topDepth - depth) as real;
        } else {
          r := -MATE / 2.0;
        }
        assert NodeValue(params, n) == r;
        return;
      }

      if CountOf(repCounts, zhash) + 1 >= REPETITION_THRESHOLD {
        assert !reached by {
          if reached { NoThirdOccurrence(params.rules, key, nodes, path, n); }
        }
        draws := draws + 1;
        return 0.0;
      }
      LeaveUndoesEnter(repCounts, zhash);
      if reached { EnterNode(repCounts, path, n); }
      repCounts := CountIn(repCounts, zhash);
      r := NegamaxBody(board, turn, depth, alpha, beta, legal, ttKey, path + [n]);
      repCounts := CountOut(repCounts, zhash);
    }

    lemma EnterNode(counts: map<int, nat>, path: seq<Node>, n: Node)
      requires Reached(counts, path, n)
      ensures OnPath(CountIn(counts, key(n.g, n.side)), path + [n])
    {
      assert (path + [n])[..|path|] == path;
    }

    lemma NegatedProper(alpha: Ext, beta: Ext, depth: int)
      ensures Proper(Neg(beta), Neg(alpha), depth) <==> Proper(alpha, beta, depth)
    {
    }

    /** The score of a position for the side that has just moved to it. */
    method ReplyScore(board: Board, mover: Color, depth: int, alpha: Ext, beta: Ext, ghost path: seq<Node>)
      returns (score: real)
      requires Setup() && NoZeros(repCounts) && depth > 0
      modifies this, board
      ensures board.cells == old(board.cells) && repCounts == old(repCounts)
      ensures Reached(old(repCounts), path, Node(old(board.cells), Opponent(mover), depth - 1)) ==>
        draws == old(draws)
      ensures var child := Node(old(board.cells), Opponent(mover), depth - 1);
        TableOk(old(ttable)) && Proper(alpha, beta, depth - 1) && Reached(old(repCounts), path, child)
        ==> TableOk(ttable) && AnswersMover(child, alpha, beta, score)
      decreases depth, 0, 0
    {
      ghost var child := Node(board.cells, Opponent(mover), depth - 1);
      NegatedProper(alpha, beta, depth - 1);
      var reply := Negamax(board, Opponent(mover), depth - 1, Neg(beta), Neg(alpha), path);
      score := -reply;
      NegatedWindow(NodeValue(params, child), alpha, beta, reply);
    }

    /** What is done while a move of mover stands on the board: the repeated self-check test,
        the test for mate, and the search of the reply. */
    method SearchReply(board: Board, mover: Color, depth: int, alpha: Ext, beta: Ext, ghost path: seq<Node>)
      returns (mates: bool, score: real)
      requires Setup() && NoZeros(repCounts) && depth > 0
      requires !params.rules.exposed(board.cells, mover)
      modifies this, board
      ensures board.cells == old(board.cells) && repCounts == old(repCounts)
      ensures mates <==> Stuck(params.rules, board.cells, Opponent(mover))
      ensures mates ==> ttable == old(ttable)
      ensures Reached(old(repCounts), path, Node(old(board.cells), Opponent(mover), depth - 1)) ==>
        draws == old(draws)
      ensures var child := Node(old(board.cells), Opponent(mover), depth - 1);
        !mates && TableOk(old(ttable)) && Proper(alpha, beta, depth - 1) && Reached(old(repCounts), path, child)
        ==> TableOk(ttable) && AnswersMover(child, alpha, beta, score)
      decreases depth, 0, 1
    {
      mates, score := false, 0.0;
      if params.rules.exposed(board.cells, mover) {
        assert false;  // the moves were filtered by the same test
      }
      var over := CheckGameOver(params.rules, board.cells, Opponent(mover));
      if over.isOver && over.winner == Some(mover) {
        mates := true;
      } else {
        score := ReplyScore(board, mover, depth, alpha, beta, path);
      }
    }

    /** Plays one legal move, searches behind it and takes it back. */
    method SearchMove(board: Board, turn: Color, depth: int, move: Move, alpha: Ext, beta: Ext, ghost path: seq<Node>)
      returns (mates: bool, score: real)
      requires Setup() && NoZeros(repCounts) && depth > 0
      requires move in params.rules.legal(board.cells, turn)
      modifies this, board
      ensures board.cells == old(board.cells) && repCounts == old(repCounts)
      ensures mates ==> ttable == old(ttable)
      ensures var child := Child(params.rules, Node(old(board.cells), turn, depth), move);
        && (mates <==> Stuck(params.rules, child.g, child.side))
        && (Reached(old(repCounts), path, child) ==> draws == old(draws))
      ensures var child := Child(params.rules, Node(old(board.cells), turn, depth), move);
        !mates && TableOk(old(ttable)) && Proper(alpha, beta, depth - 1) && Reached(old(repCounts), path, child)
        ==> TableOk(ttable) && AnswersMover(child, alpha, beta, score)
      decreases depth, 0, 2
    {
      LegalMoveActs(params.rules, board.cells, turn, move);
      UnmakeRestores(board.cells, move);
      var captured := board.MakeMove(move);
      mates, score := SearchReply(board, turn, depth, alpha, beta, path);
      board.UnmakeMove(move, captured);
    }

    /** From the null-move depth up, out of check and with more than six pieces other than kings, the
        other side may move twice, searched three plies less deep. */
    ghost predicate PassAllowed(g: Grid, turn: Color, depth: int) {
      depth >= nullMoveDepth && depth > 3 && !params.rules.exposed(g, turn) && NonKings(g, ROWS) > 6
    }

    lemma PassBounds(value: real, beta: Ext, reply: real)
      requires beta.Fin? && InWindow(value, Neg(beta), Plus(Neg(beta), 1.0), reply)
      ensures Le(beta, Fin(-reply)) <==> -value >= beta.v
    {
    }

    /** A score after the pass that still reaches beta cuts the node off; where values are claimed,
        that is exactly when the position passed is worth minus beta or less to the other side. */
    method NullMove(board: Board, turn: Color, depth: int, ghost alpha: Ext, beta: Ext, ghost path: seq<Node>)
      returns (cutoff: Option<real>)
      requires Setup() && NoZeros(repCounts)
      requires depth > 0 && path != [] && path[|path| - 1] == Node(board.cells, turn, depth)
      modifies this, board
      ensures board.cells == old(board.cells) && repCounts == old(repCounts)
      ensures OnPath(old(repCounts), path) ==> draws == old(draws)
      ensures OnPath(old(repCounts), path) && Proper(alpha, beta, depth) && TableOk(old(ttable)) ==> TableOk(ttable)
      ensures cutoff.Some? ==> PassAllowed(old(board.cells), turn, depth) && Le(beta, Fin(cutoff.value))
      ensures var passed := Node(old(board.cells), Opponent(turn), depth - 3);
        OnPath(old(repCounts), path) && TableOk(old(ttable)) && beta.Fin? && passed.depth < nullMoveDepth ==>
          (cutoff.Some? <==> PassAllowed(passed.g, turn, depth) && -NodeValue(params, passed) >= beta.v)
      decreases depth, 0, 4
    {
      cutoff := None;
      if depth >= nullMoveDepth && !params.rules.exposed(board.cells, turn) {
        var pieces := CountNonKings(board);
        var nullDepth := depth - 1 - NULL_MOVE_REDUCTION;
        if pieces > 6 && nullDepth > 0 {
          if OnPath(repCounts, path) { EnterChild(path, Node(board.cells, Opponent(turn), nullDepth)); }
          var reply := Negamax(board, Opponent(turn), nullDepth, Neg(beta), Plus(Neg(beta), 1.0), path);
          if OnPath(old(repCounts), path) && TableOk(old(ttable)) && beta.Fin? && nullDepth < nullMoveDepth {
            PassBounds(NodeValue(params, Node(board.cells, Opponent(turn), nullDepth)), beta, reply);
          }
          if Le(beta, Fin(-reply)) {
            return Some(-reply);
          }
        }
      }
    }

    method NegamaxBody(board: Board, turn: Color, depth: int, alpha0: Ext, beta: Ext, legal: seq<Move>,
                       ttKey: (int, int), ghost path: seq<Node>)
      returns (r: real)
      requires Setup() && NoZeros(repCounts)
      requires depth > 0 && path != [] && path[|path| - 1] == Node(board.cells, turn, depth)
      requires legal == params.rules.legal(board.cells, turn) && legal != []
      requires ttKey == (key(board.cells, turn), depth)
      modifies this, board
      ensures board.cells == old(board.cells) && repCounts == old(repCounts)
      ensures OnPath(old(repCounts), path) ==> draws == old(draws)
      ensures var n := path[|path| - 1];
        OnPath(old(repCounts), path) && Proper(alpha0, beta, depth) && TableOk(old(ttable)) ==>
          TableOk(ttable) && Answers(n, alpha0, beta, r)
      decreases depth, 0, 5
    {
      ghost var n := path[|path| - 1];
      ghost var onPath := OnPath(repCounts, path);
      ghost var promised := onPath && Proper(alpha0, beta, depth) && TableOk(ttable);
      var cutoff := NullMove(board, turn, depth, alpha0, beta, path);
      if cutoff.Some? {
        return cutoff.value;
      }
      var sorted := SortMoves(legal);
      var mates, best, bestMove := TryMoves(board, turn, depth, sorted, alpha0, beta, path);
      if mates {
        return MATE - (params.topDepth - depth) as real;
      }
      r := best;
      var entry := TTEntry(best, depth, FlagFor(best, alpha0, beta), bestMove);
      if promised {
        StoreKeepsTable(params, key, nodes, ttable, nullMoveDepth, n, entry, alpha0, beta);
      }
      ttable := ttable[ttKey := entry];
    }

    /** The alpha-beta loop over the ordered moves of a node. */
    method TryMoves(board: Board, turn: Color, depth: int, sorted: seq<Move>, alpha0: Ext, beta: Ext,
                    ghost path: seq<Node>)
      returns (mates: bool, score: real, bestMove: Move)
      requires Setup() && NoZeros(repCounts)
      requires depth > 0 && path != [] && path[|path| - 1] == Node(board.cells, turn, depth)
      requires multiset(sorted) == multiset(params.rules.legal(board.cells, turn)) && sorted != []
      modifies this, board
      ensures board.cells == old(board.cells) && repCounts == old(repCounts)
      ensures mates ==> MatesNow(params.rules, board.cells, turn)
      ensures OnPath(old(repCounts), path) ==> draws == old(draws)
      ensures OnPath(old(repCounts), path) && Proper(alpha0, beta, depth) && TableOk(old(ttable)) ==>
        TableOk(ttable) && (!mates ==> Answers(path[|path| - 1], alpha0, beta, score))
      decreases depth, 0, 4
    {
      ghost var n := path[|path| - 1];
      ghost var onPath := OnPath(repCounts, path);
      ghost var promised := onPath && Proper(alpha0, beta, depth) && TableOk(ttable);
      ghost var k := 0;
      var best, cut := NegInf, false;
      mates, bestMove := false, sorted[0];
      var i := 0;
      while i < |sorted| && !mates && !cut
        invariant 0 <= i <= |sorted|
        invariant board.cells == n.g && repCounts == old(repCounts)
        invariant mates ==> MatesNow(params.rules, n.g, turn)
        invariant !mates ==> LoopState(n, sorted, i, best, alpha0, beta, k, cut, promised)
        invariant promised ==> TableOk(ttable)
        invariant onPath ==> draws == old(draws)
        decreases |sorted| - i
      {
        var rises;
        mates, best, rises, cut := TryOne(board, turn, depth, sorted, i, best, alpha0, beta, path, k, promised);
        if rises {
          bestMove := sorted[i];
          k := i;
        }
        i := i + 1;
      }
      if promised && depth < nullMoveDepth && !mates {
        FinishNode(params, n, sorted, i, best, alpha0, beta, k, cut);
      }
      score := if mates then 0.0 else best.v;
    }

    /** What holds between the moves of the loop: the best score so far is real once a move has
        been tried, the loop stops when it reaches beta, and below the null-move depth the
        scores are truthful. */
    ghost predicate LoopState(n: Node, sorted: seq<Move>, i: nat, best: Ext, alpha0: Ext, beta: Ext, k: nat,
                              cut: bool, promised: bool)
      requires i <= |sorted| && n.depth > 0
    {
      && (if i == 0 then best == NegInf && !cut else best.Fin? && cut == Le(beta, Max(alpha0, best)))
      && (promised ==> Proper(alpha0, beta, n.depth))
      && (promised && n.depth < nullMoveDepth ==> Progress(params, n, sorted, i, best, alpha0, beta, k, cut))
    }

    /** One turn of the loop. */
    method TryOne(board: Board, turn: Color, depth: int, sorted: seq<Move>, i: nat, best0: Ext, alpha0: Ext,
                  beta: Ext, ghost path: seq<Node>, ghost k: nat, ghost promised: bool)
      returns (mates: bool, best: Ext, rises: bool, cut: bool)
      requires Setup() && NoZeros(repCounts)
      requires depth > 0 && path != [] && path[|path| - 1] == Node(board.cells, turn, depth)
      requires multiset(sorted) == multiset(params.rules.legal(board.cells, turn)) && i < |sorted|
      requires LoopState(path[|path| - 1], sorted, i, best0, alpha0, beta, k, false, promised)
      requires promised ==> OnPath(repCounts, path) && TableOk(ttable)
      modifies this, board
      ensures board.cells == old(board.cells) && repCounts == old(repCounts)
      ensures mates ==> MatesNow(params.rules, board.cells, turn)
      ensures promised ==> TableOk(ttable)
      ensures OnPath(old(repCounts), path) ==> draws == old(draws)
      ensures !mates ==>
        LoopState(path[|path| - 1], sorted, i + 1, best, alpha0, beta, if rises then i else k, cut, promised)
      decreases depth, 0, 3
    {
      ghost var n := path[|path| - 1];
      var move := sorted[i];
      var alpha := Max(alpha0, best0);
      best, rises, cut := best0, false, false;
      PermutedMember(sorted, params.rules.legal(n.g, turn), i);
      if OnPath(repCounts, path) { EnterMove(path, move); }
      var value;
      mates, value := SearchMove(board, turn, depth, move, alpha, beta, path);
      if mates {
        MoveMates(params.rules, n, move);
        return;
      }
      if promised && depth < nullMoveDepth {
        TryMove(params, n, sorted, i, best0, alpha0, beta, k, value);
      }
      if Lt(best, Fin(value)) {
        best, rises := Fin(value), true;
      }
      if Lt(alpha, best) {
        alpha := best;
      }
      cut := Le(beta, alpha);
    }

    lemma EnterMove(path: seq<Node>, move: Move)
      requires Setup() && path != [] && path[|path| - 1].depth > 0
      requires Chain(params.rules, path) && Within(path, nodes) && path[0].depth <= LARGEST_DEPTH
      requires var n := path[|path| - 1]; move in params.rules.legal(n.g, n.side)
      ensures var n := path[|path| - 1];
        var child := Child(params.rules, n, move);
        && Chain(params.rules, path + [child]) && Within(path + [child], nodes)
        && (path + [child])[0].depth <= LARGEST_DEPTH
    {
      var n := path[|path| - 1];
      LegalMoveSteps(params.rules, n, move);
      EnterChild(path, Child(params.rules, n, move));
    }

    /** A step below the end of a path of the search reaches a node of the search. */
    lemma EnterChild(path: seq<Node>, child: Node)
      requires Setup() && path != [] && path[|path| - 1].depth > 0
      requires Chain(params.rules, path) && Within(path, nodes) && path[0].depth <= LARGEST_DEPTH
      requires Step(params.rules, path[|path| - 1], child)
      ensures Chain(params.rules, path + [child]) && Within(path + [child], nodes)
      ensures (path + [child])[0].depth <= LARGEST_DEPTH
    {
    }

    /** The path up to and including the node being expanded. */
    ghost predicate OnPath(counts: map<int, nat>, path: seq<Node>)
      requires path != []
    {
      && Tracks(counts, path)
      && Chain(params.rules, path)
      && Within(path, nodes)
      && path[0].depth <= LARGEST_DEPTH
    }

    // ----- Root -----

    /** The root position is part of a search of at most the largest configured depth. */
    ghost predicate RootSearched(counts: map<int, nat>, n: Node) {
      counts == map[] && n in nodes && 0 < n.depth <= LARGEST_DEPTH
    }

    /** Its answer is owed as well. */
    ghost predicate RootOwed(table: Table, counts: map<int, nat>, n: Node) {
      TableOk(table) && RootSearched(counts, n) && n.depth <= nullMoveDepth
    }

    /** If some move mates at once, the result is one that does, with the score and the flag of a
        mate. */
    ghost predicate MatesIfPossible(g: Grid, side: Color, res: SearchResult) {
      MatesNow(params.rules, g, side) ==>
        && res.move in params.rules.legal(g, side)
        && Stuck(params.rules, params.rules.apply(g, res.move), Opponent(side))
        && res.score == MATE && res.isCheckmate
    }

    /** Some move is worth as much as a mate, or being mated, within 1000 plies. */
    ghost predicate SomeNearMate(n: Node)
      requires n.depth > 0
    {
      exists m :: m in params.rules.legal(n.g, n.side) && WorthNearMate(n, m)
    }

    ghost predicate FlagEarned(n: Node)
      requires n.depth > 0
    {
      MatesNow(params.rules, n.g, n.side) || SomeNearMate(n)
    }

    ghost predicate WorthNearMate(n: Node, m: Move)
      requires n.depth > 0
    {
      var worth := ChildValue(params, n.g, n.side, n.depth, m);
      worth <= -99000.0 || worth >= 99000.0
    }

    /** The result the engine owes for a root position: a move that mates at once if there is one,
        otherwise the exact value of the position and a move that attains it; flagged as mate only
        if some move mates at once or is worth nearly as much. */
    ghost predicate Solves(n: Node, res: SearchResult)
      requires n.depth > 0
    {
      && res.move in params.rules.legal(n.g, n.side)
      && MatesIfPossible(n.g, n.side, res)
      && (res.isCheckmate ==> FlagEarned(n))
      && (!MatesNow(params.rules, n.g, n.side) ==>
            res.score == NodeValue(params, n) == ChildValue(params, n.g, n.side, n.depth, res.move))
    }

    lemma EnterRootMove(n: Node, move: Move)
      requires Setup() && n in nodes && 0 < n.depth <= LARGEST_DEPTH
      requires move in params.rules.legal(n.g, n.side)
      ensures Reached(map[], [], Child(params.rules, n, move))
    {
      LegalMoveSteps(params.rules, n, move);
    }

    lemma EnterRoot(n: Node)
      requires n in nodes && n.depth <= LARGEST_DEPTH
      ensures Reached(map[], [], n)
    {
    }

    /** A score near mate for a root move, in a window around the root value, means that this move
        or the best one is worth as much. */
    lemma ScoreEarnsFlag(n: Node, m: Move, score: real, alpha: Ext, beta: Ext)
      requires n.depth > 0 && m in params.rules.legal(n.g, n.side)
      requires Lt(alpha, Fin(NodeValue(params, n))) && Lt(Fin(NodeValue(params, n)), beta)
      requires InWindow(ChildValue(params, n.g, n.side, n.depth, m), alpha, beta, score) && NearMate(score)
      ensures FlagEarned(n)
    {
      if !MatesNow(params.rules, n.g, n.side) {
        ValueIsBestMove(params, n.g, n.side, n.depth);
        var w :| w in params.rules.legal(n.g, n.side)
                 && ChildValue(params, n.g, n.side, n.depth, w) == NodeValue(params, n);
        assert WorthNearMate(n, m) || WorthNearMate(n, w);
      }
    }

    lemma WindowOfState(n: Node, sorted: seq<Move>, i: nat, best: Ext, bestMove: Move, alpha: Ext, beta: Ext)
      requires n.depth > 0 && i <= |sorted| && RootState(params, n, sorted, i, best, bestMove, alpha, beta)
      ensures Lt(alpha, Fin(NodeValue(params, n))) && Lt(Fin(NodeValue(params, n)), beta)
    {
    }

    lemma FlagIfNear(n: Node, m: Move, score: real, alpha: Ext, beta: Ext)
      requires n.depth > 0 && m in params.rules.legal(n.g, n.side)
      requires Lt(alpha, Fin(NodeValue(params, n))) && Lt(Fin(NodeValue(params, n)), beta)
      requires InWindow(-NodeValue(params, Child(params.rules, n, m)), alpha, beta, score)
      ensures NearMate(score) ==> FlagEarned(n)
    {
      if NearMate(score) { ScoreEarnsFlag(n, m, score, alpha, beta); }
    }

    /** One move of a root loop. */
    method SearchRootMove(board: Board, turn: Color, depth: int, sorted: seq<Move>, i: nat, best0: Ext,
                          ghost bestMove: Move, alpha0: Ext, beta0: Ext, ghost owed: bool)
      returns (mates: bool, best: Ext, rises: bool, alpha: Ext, beta: Ext)
      requires Setup() && NoZeros(repCounts) && depth > 0
      requires multiset(sorted) == multiset(params.rules.legal(board.cells, turn)) && i < |sorted|
      requires owed ==> RootOwed(ttable, repCounts, Node(board.cells, turn, depth))
      requires owed ==> RootState(params, Node(board.cells, turn, depth), sorted, i, best0, bestMove, alpha0, beta0)
      modifies this, board
      ensures board.cells == old(board.cells) && repCounts == old(repCounts)
      ensures owed ==> TableOk(ttable)
      ensures RootSearched(old(repCounts), Node(board.cells, turn, depth)) ==> draws == old(draws)
      ensures mates <==> Stuck(params.rules, params.rules.apply(board.cells, sorted[i]), Opponent(turn))
      ensures !mates && owed ==> RootState(params, Node(board.cells, turn, depth), sorted, i + 1, best,
                                           if rises then sorted[i] else bestMove, alpha, beta)
      ensures !mates ==> best == best0 || (rises && best.Fin?)
      ensures !mates && best0.NegInf? ==> rises && best.Fin?
      ensures !mates && owed && rises && NearMate(best.v) ==> FlagEarned(Node(old(board.cells), turn, depth))
    {
      ghost var n := Node(board.cells, turn, depth);
      best, rises, alpha, beta := best0, false, alpha0, beta0;
      PermutedMember(sorted, params.rules.legal(n.g, turn), i);
      if RootSearched(repCounts, n) { EnterRootMove(n, sorted[i]); }
      var score;
      mates, score := SearchMove(board, turn, depth, sorted[i], alpha0, beta0, []);
      if mates {
        return;
      }
      if owed {
        WindowOfState(n, sorted, i, best0, bestMove, alpha0, beta0);
        FlagIfNear(n, sorted[i], score, alpha0, beta0);
        TryRootMove(params, n, sorted, i, best0, bestMove, alpha0, beta0, score);
      }
      if Lt(best0, Fin(score)) {
        best, rises := Fin(score), true;
        var (a, b) := Widened(alpha0, beta0, score);
        alpha, beta := a, b;
      }
    }

    /** The window is open around the value of a root whose answer is owed. */
    ghost predicate RootPassOwed(table: Table, counts: map<int, nat>, n: Node, alpha: Ext, beta: Ext) {
      RootOwed(table, counts, n) && Lt(alpha, Fin(NodeValue(params, n))) && Lt(Fin(NodeValue(params, n)), beta)
    }

    lemma WindowAround(value: Ext, alpha: Ext, beta: Ext)
      requires value.Fin? && (alpha.NegInf? || (alpha.Fin? && alpha.v < value.v))
      requires beta.PosInf? || (beta.Fin? && value.v < beta.v)
      ensures Lt(alpha, value) && Lt(value, beta)
    {
    }

    lemma RootMates(n: Node, move: Move)
      requires n.depth > 0 && move in params.rules.legal(n.g, n.side)
      requires Stuck(params.rules, params.rules.apply(n.g, move), Opponent(n.side))
      ensures var res := SearchResult(move, MATE, n.depth, true);
        MatesIfPossible(n.g, n.side, res) && Solves(n, res)
    {
      MoveMates(params.rules, n, move);
    }

    lemma RootSolved(n: Node, res: SearchResult)
      requires n.depth > 0 && res.move in params.rules.legal(n.g, n.side) && !MatesNow(params.rules, n.g, n.side)
      requires res.score == NodeValue(params, n) == ChildValue(params, n.g, n.side, n.depth, res.move)
      requires res.isCheckmate ==> FlagEarned(n)
      ensures Solves(n, res)
    {
    }

    predicate NearMate(score: real) {
      score <= -(MATE - 1000.0) || score >= MATE - 1000.0
    }

    /** The loop over the root moves. A mating move ends it at once, whatever the window, the table
        and the depth; a score outside the window moves the bound it broke. */
    method TryRootMoves(board: Board, turn: Color, depth: int, sorted: seq<Move>, alpha0: Ext, beta0: Ext,
                        ghost owed: bool)
      returns (mates: bool, best: Ext, bestMove: Move, checkmate: bool, alpha: Ext, beta: Ext)
      requires Setup() && NoZeros(repCounts) && depth > 0 && sorted != []
      requires multiset(sorted) == multiset(params.rules.legal(board.cells, turn))
      requires owed ==> RootPassOwed(ttable, repCounts, Node(board.cells, turn, depth), alpha0, beta0)
      modifies this, board
      ensures board.cells == old(board.cells) && repCounts == old(repCounts) && bestMove in sorted
      ensures RootSearched(old(repCounts), Node(board.cells, turn, depth)) ==> draws == old(draws)
      ensures owed ==> TableOk(ttable)
      ensures mates ==> Stuck(params.rules, params.rules.apply(board.cells, bestMove), Opponent(turn))
      ensures !mates ==> best.Fin? && (NearMate(best.v) ==> checkmate)
      ensures !mates && owed && checkmate ==> FlagEarned(Node(board.cells, turn, depth))
      ensures !mates ==> NoneMatesAmong(params.rules, Node(board.cells, turn, depth), sorted, |sorted|)
      ensures !mates && owed ==>
        RootState(params, Node(board.cells, turn, depth), sorted, |sorted|, best, bestMove, alpha, beta)
    {
      ghost var n := Node(board.cells, turn, depth);
      ghost var searched := RootSearched(repCounts, n);
      mates, best, bestMove, checkmate, alpha, beta := false, NegInf, sorted[0], false, alpha0, beta0;
      var i := 0;
      while i < |sorted|
        invariant 0 <= i <= |sorted|
        invariant board.cells == n.g && repCounts == old(repCounts)
        invariant (if i == 0 then best == NegInf else best.Fin?) && bestMove in sorted && !mates
        invariant best.Fin? && NearMate(best.v) ==> checkmate
        invariant owed && checkmate ==> FlagEarned(n)
        invariant NoneMatesAmong(params.rules, n, sorted, i)
        invariant searched ==> draws == old(draws)
        invariant owed ==> TableOk(ttable) && RootState(params, n, sorted, i, best, bestMove, alpha, beta)
      {
        var rises;
        mates, best, rises, alpha, beta :=
          SearchRootMove(board, turn, depth, sorted, i, best, bestMove, alpha, beta, owed);
        if mates {
          bestMove := sorted[i];
          return;
        }
        if rises {
          bestMove := sorted[i];
          if NearMate(best.v) {
            checkmate := true;
          }
        }
        i := i + 1;
      }
    }

    /** One pass over the root moves, which answers for the root if the window is around its value,
        and finds a mating move in any case. */
    method RootPass(board: Board, turn: Color, depth: int, legal: seq<Move>, alpha0: Ext, beta0: Ext)
      returns (res: SearchResult)
      requires Setup() && NoZeros(repCounts) && depth > 0
      requires legal == params.rules.legal(board.cells, turn) && legal != []
      modifies this, board
      ensures board.cells == old(board.cells) && repCounts == old(repCounts)
      ensures res.move in legal && res.depth == depth && MatesIfPossible(board.cells, turn, res)
      ensures NearMate(res.score) ==> res.isCheckmate
      ensures RootSearched(old(repCounts), Node(board.cells, turn, depth)) ==> draws == old(draws)
      ensures var n := Node(board.cells, turn, depth);
        RootPassOwed(old(ttable), old(repCounts), n, alpha0, beta0) ==> TableOk(ttable) && Solves(n, res)
    {
      ghost var n := Node(board.cells, turn, depth);
      ghost var owed := RootPassOwed(ttable, repCounts, n, alpha0, beta0);
      var sorted := SortMoves(legal);
      SameMembers(sorted, legal);
      var mates, best, bestMove, checkmate, alpha, beta :=
        TryRootMoves(board, turn, depth, sorted, alpha0, beta0, owed);
      if mates {
        RootMates(n, bestMove);
        return SearchResult(bestMove, MATE, depth, true);
      }
      res := SearchResult(bestMove, best.v, depth, checkmate);
      NoneMates(params.rules, n, sorted);
      if owed {
        FinishRoot(params, n, sorted, best, bestMove, alpha, beta);
        RootSolved(n, res);
      }
    }

    /** One fixed-depth search with the full window. */
    method SearchAtDepth(board: Board, turn: Color, depth: int, legal: seq<Move>) returns (res: SearchResult)
      requires Setup() && NoZeros(repCounts) && depth > 0
      requires legal == params.rules.legal(board.cells, turn) && legal != []
      modifies this, board
      ensures board.cells == old(board.cells) && repCounts == old(repCounts)
      ensures res.move in legal && res.depth == depth && MatesIfPossible(board.cells, turn, res)
      ensures RootSearched(old(repCounts), Node(board.cells, turn, depth)) ==> draws == old(draws)
      ensures var n := Node(board.cells, turn, depth);
        RootOwed(old(ttable), old(repCounts), n) ==> TableOk(ttable) && Solves(n, res)
    {
      WindowAround(Fin(NodeValue(params, Node(board.cells, turn, depth))), NegInf, PosInf);
      res := RootPass(board, turn, depth, legal, NegInf, PosInf);
    }

    /** The zero-window searches of MTD(f), which close in on the value from both sides. */
    method MtdfBounds(board: Board, turn: Color, depth: int, first: real, ghost owed: bool)
      returns (lower: Ext, upper: Ext)
      requires Setup() && NoZeros(repCounts) && depth > 0
      requires owed ==> depth < nullMoveDepth && RootOwed(ttable, repCounts, Node(board.cells, turn, depth))
      modifies this, board
      ensures board.cells == old(board.cells) && repCounts == old(repCounts)
      ensures RootSearched(old(repCounts), Node(board.cells, turn, depth)) ==> draws == old(draws)
      ensures var value := Fin(NodeValue(params, Node(board.cells, turn, depth)));
        owed ==> TableOk(ttable) && Le(lower, value) && Le(value, upper)
    {
      ghost var n := Node(board.cells, turn, depth);
      ghost var value := NodeValue(params, n);
      if RootSearched(repCounts, n) { EnterRoot(n); }
      var guess := first;
      lower, upper := NegInf, PosInf;
      var iteration := 0;
      while Lt(lower, upper) && iteration < MTDF_MAX_ITERATIONS
        invariant board.cells == n.g && repCounts == old(repCounts)
        invariant RootSearched(repCounts, n) ==> draws == old(draws)
        invariant owed ==> TableOk(ttable) && Le(lower, Fin(value)) && Le(Fin(value), upper)
        decreases MTDF_MAX_ITERATIONS - iteration
      {
        var beta := if lower == Fin(guess) then guess + 1.0 else guess;
        var score := Negamax(board, turn, depth, Fin(beta - 1.0), Fin(beta), []);
        if owed {
          ZeroWindowBound(value, lower, upper, beta, score);
        }
        if score < beta {
          upper := Fin(score);
        } else {
          lower := Fin(score);
        }
        guess := score;
        iteration := iteration + 1;
      }
    }

    /** MTD(f): once the bounds have closed in, or after the last iteration allowed, one pass over
        the root moves with a window 100 wider on both sides picks the move. */
    method MtdfSearchAtDepth(board: Board, turn: Color, depth: int, legal: seq<Move>, prevScore: real)
      returns (res: SearchResult)
      requires Setup() && NoZeros(repCounts) && depth > 0
      requires legal == params.rules.legal(board.cells, turn) && legal != []
      modifies this, board
      ensures board.cells == old(board.cells) && repCounts == old(repCounts)
      ensures res.move in legal && res.depth == depth && MatesIfPossible(board.cells, turn, res)
      ensures RootSearched(old(repCounts), Node(board.cells, turn, depth)) ==> draws == old(draws)
      ensures var n := Node(board.cells, turn, depth);
        depth < nullMoveDepth && RootOwed(old(ttable), old(repCounts), n) ==> TableOk(ttable) && Solves(n, res)
    {
      ghost var n := Node(board.cells, turn, depth);
      ghost var owed := depth < nullMoveDepth && RootOwed(ttable, repCounts, n);
      var guess := prevScore;
      if guess == 0.0 {
        guess := EvaluateBoard(quiescence.tables, board, turn);
      }
      var lower, upper := MtdfBounds(board, turn, depth, guess, owed);
      if owed { WindowAround(Fin(NodeValue(params, n)), Plus(lower, -100.0), Plus(upper, 100.0)); }
      res := RootPass(board, turn, depth, legal, Plus(lower, -100.0), Plus(upper, 100.0));
    }

    /** One round of iterative deepening. */
    method Deepen(board: Board, turn: Color, depth: int, legal: seq<Move>, useMtdf: bool, prevScore: real)
      returns (res: SearchResult)
      requires Setup() && NoZeros(repCounts) && depth > 0
      requires legal == params.rules.legal(board.cells, turn) && legal != []
      modifies this, board
      ensures board.cells == old(board.cells) && repCounts == old(repCounts)
      ensures res.move in legal && res.depth == depth && MatesIfPossible(board.cells, turn, res)
      ensures RootSearched(old(repCounts), Node(board.cells, turn, depth)) ==> draws == old(draws)
      ensures var n := Node(board.cells, turn, depth);
        depth < nullMoveDepth && RootOwed(old(ttable), old(repCounts), n) ==> TableOk(ttable) && Solves(n, res)
    {
      if useMtdf && depth >= 3 {
        res := MtdfSearchAtDepth(board, turn, depth, legal, prevScore);
      } else {
        res := SearchAtDepth(board, turn, depth, legal);
      }
    }

    /** The root position at every depth up to the given one, itself at most the largest configured,
        is among the nodes of the search. */
    ghost predicate RootNodes(g: Grid, turn: Color, depth: nat) {
      depth <= LARGEST_DEPTH && forall d :: 0 < d <= depth ==> Node(g, turn, d) in nodes
    }

    /** Rounds of increasing depth, until the last one or the first that ends past the limit. */
    method Iterate(board: Board, turn: Color, searchDepth: nat, limit: real, elapsed: nat -> real,
                   legal: seq<Move>, useMtdf: bool, ghost owed: bool)
      returns (res: SearchResult)
      requires Setup() && repCounts == map[] && searchDepth > 0
      requires legal == params.rules.legal(board.cells, turn) && legal != []
      requires owed ==> TableOk(ttable) && LastRound(searchDepth, limit, elapsed, 1) < nullMoveDepth
      requires owed ==> RootNodes(board.cells, turn, LastRound(searchDepth, limit, elapsed, 1))
      modifies this, board
      ensures board.cells == old(board.cells)
      ensures res.move in legal && MatesIfPossible(board.cells, turn, res)
      ensures res.depth == LastRound(searchDepth, limit, elapsed, 1)
      ensures RootNodes(board.cells, turn, LastRound(searchDepth, limit, elapsed, 1)) ==> draws == old(draws)
      ensures owed ==> res.depth > 0 && Solves(Node(board.cells, turn, res.depth), res)
    {
      ghost var last := LastRound(searchDepth, limit, elapsed, 1);
      var prevScore := 0.0;
      var d := 1;
      while true
        invariant 1 <= d <= searchDepth && LastRound(searchDepth, limit, elapsed, d) == last
        invariant board.cells == old(board.cells) && repCounts == map[]
        invariant RootNodes(board.cells, turn, last) ==> draws == old(draws)
        invariant owed ==> TableOk(ttable)
        decreases searchDepth - d
      {
        LastRoundIsLast(searchDepth, limit, elapsed, d);
        res := Deepen(board, turn, d, legal, useMtdf, prevScore);
        prevScore := res.score;
        if elapsed(d) > limit || d == searchDepth {
          return;
        }
        d := d + 1;
      }
    }

    /** Iterative deepening, or one search at full depth. */
    method BestMove(board: Board, turn: Color, searchDepth: nat, iterative: bool, useMtdf: bool,
                    limit: real, elapsed: nat -> real)
      returns (res: SearchResult)
      requires Setup()
      requires iterative || searchDepth > 0
      modifies this, board
      ensures board.cells == old(board.cells)
      ensures Stuck(params.rules, board.cells, turn) ==> res == SearchResult(Move(0, 0, 0, 0), -MATE, 0, true)
      ensures !Stuck(params.rules, board.cells, turn) ==>
        && res.move in params.rules.legal(board.cells, turn)
        && res.depth == DepthReached(searchDepth, iterative, limit, elapsed)
        && (searchDepth > 0 ==> MatesIfPossible(board.cells, turn, res))
      ensures RootNodes(board.cells, turn, DepthReached(searchDepth, iterative, limit, elapsed)) ==>
        draws == old(draws)
      ensures var d := DepthReached(searchDepth, iterative, limit, elapsed);
        !Stuck(params.rules, board.cells, turn) && d > 0 && RootNodes(board.cells, turn, d)
        && (d < nullMoveDepth || (!iterative && d == nullMoveDepth))
        ==> Solves(Node(board.cells, turn, d), res)
    {
      ttable, repCounts := map[], map[];
      var legal := params.rules.legal(board.cells, turn);
      if legal == [] {
        return SearchResult(Move(0, 0, 0, 0), -MATE, 0, true);
      }
      ghost var d := DepthReached(searchDepth, iterative, limit, elapsed);
      if !iterative {
        res := SearchAtDepth(board, turn, searchDepth, legal);
      } else if searchDepth > 0 {
        ghost var owed := RootNodes(board.cells, turn, d) && d < nullMoveDepth;
        res := Iterate(board, turn, searchDepth, limit, elapsed, legal, useMtdf, owed);
      } else {
        var score := EvaluateBoard(quiescence.tables, board, turn);
        res := SearchResult(legal[0], score, 0, false);
      }
    }
  }
}
