/** The search on Xiangqi as a whole: its promises in the game's own terms. */
module XiangqiEngine {
  import opened Types
  import opened BoardModel
  import opened MoveRules
  import opened Checkers
  import opened SearchSpec
  import opened Search
  import opened XiangqiSearch
  import opened Evaluator
  import opened Quiescence

  /** An engine that plays by the rules of Xiangqi and values leaves by captures. Its leaves are
      searched by the capture search, not by the whole quiescence search of the program, whose delta
      cutoff and replies to check are no part of this model. */
  ghost predicate Configured(ai: ChessAI) {
    && ai.params.rules == XiangqiRules()
    && ai.quiescence.tables == Shipped()
    && (forall g: Grid, c: Color :: ai.params.leafValue(g, c) == LeafValue(Shipped(), g, c))
    && ai.params.topDepth <= 50000
  }

  /** The nodes of the search are supplied positions, closed under its steps, and told apart by
      their keys. */
  ghost predicate Trusted(ai: ChessAI) {
    && (forall n :: n in ai.nodes ==> Supplied(n.g))
    && ai.NodesClosed()
    && NoCollision(ai.key, ai.nodes)
  }

  /** Steps of the search keep positions supplied, so the nodes below a supplied root are. */
  lemma StepsStaySupplied(n: Node, n': Node)
    requires Supplied(n.g) && Step(XiangqiRules(), n, n')
    ensures Supplied(n'.g)
  {
    if n'.g != n.g {
      var m :| m in XiangqiRules().legal(n.g, n.side) && n'.g == XiangqiRules().apply(n.g, m);
      LegalMovesExact(n.g, n.side, m);
      MoveKeepsSupply(n.g, m);
    }
  }

  /** Such an engine meets every assumption of the search proofs. */
  lemma XiangqiSetup(ai: ChessAI)
    requires Configured(ai) && Trusted(ai)
    ensures ai.Setup()
  {
    XiangqiIsLawful();
    ShippedInRange();
    LeavesFit(Shipped(), ai.params);
  }

  /** Some legal move leaves the opponent without one. */
  ghost predicate CanEndGame(g: Grid, side: Color) {
    exists m :: IsLegal(g, side, m) && !HasLegalMove(Apply(g, m), Opponent(side))
  }

  ghost predicate EndsGame(g: Grid, side: Color, m: Move) {
    var over := OverFor(Apply(g, m), Opponent(side));
    over.Over? && over.winner == Some(side)
  }

  lemma EndingIsMating(R: Rules, g: Grid, side: Color)
    requires R == XiangqiRules() && CanEndGame(g, side)
    ensures MatesNow(R, g, side)
  {
    var m :| IsLegal(g, side, m) && !HasLegalMove(Apply(g, m), Opponent(side));
    LegalMovesExact(g, side, m);
    NoLegalMoves(Apply(g, m), Opponent(side));
    assert Stuck(R, R.apply(g, m), Opponent(side));
  }

  /** The move the engine chooses: whatever the depth, the clock between rounds, null moves and the
      table, it is legal, and if any legal move ends the game at once, so does this one. */
  method ChooseMove(ai: ChessAI, board: Board, turn: Color, depth: nat, iterative: bool, useMtdf: bool,
                    limit: real, elapsed: nat -> real)
    returns (res: SearchResult)
    requires Configured(ai) && Trusted(ai) && depth > 0
    modifies ai, board
    ensures board.cells == old(board.cells)
    ensures HasLegalMove(board.cells, turn) ==> IsLegal(board.cells, turn, res.move)
    ensures CanEndGame(board.cells, turn) ==>
      EndsGame(board.cells, turn, res.move) && res.score == MATE && res.isCheckmate
  {
    XiangqiSetup(ai);
    ghost var g := board.cells;
    res := ai.BestMove(board, turn, depth, iterative, useMtdf, limit, elapsed);
    FoundMove(ai, g, turn, res);
  }

  /** What the promises of the search say about the game. */
  lemma FoundMove(ai: ChessAI, g: Grid, side: Color, res: SearchResult)
    requires Configured(ai)
    requires !Stuck(ai.params.rules, g, side) ==>
      res.move in ai.params.rules.legal(g, side) && ai.MatesIfPossible(g, side, res)
    ensures HasLegalMove(g, side) ==> IsLegal(g, side, res.move)
    ensures CanEndGame(g, side) ==> EndsGame(g, side, res.move) && res.score == MATE && res.isCheckmate
  {
    NoLegalMoves(g, side);
    LegalMovesExact(g, side, res.move);
    if CanEndGame(g, side) {
      EndingIsMating(ai.params.rules, g, side);
      NoLegalMoves(Apply(g, res.move), Opponent(side));
    }
  }

  /** A solved root position comes with such a move. */
  lemma SolvedMove(ai: ChessAI, n: Node, res: SearchResult)
    requires Configured(ai) && n.depth > 0 && ai.Solves(n, res)
    ensures IsLegal(n.g, n.side, res.move)
    ensures CanEndGame(n.g, n.side) ==> EndsGame(n.g, n.side, res.move)
  {
    FoundMove(ai, n.g, n.side, res);
    LegalMovesExact(n.g, n.side, res.move);
  }

  /** The move found is worth as much as any: no legal move leaves the opponent a smaller value. */
  lemma SolvedIsBest(ai: ChessAI, n: Node, res: SearchResult, m: Move)
    requires Configured(ai) && n.depth > 0 && ai.Solves(n, res) && IsLegal(n.g, n.side, m)
    requires !CanEndGame(n.g, n.side)
    ensures var worth := k => ChildValue(ai.params, n.g, n.side, n.depth, k);
      worth(m) <= res.score == worth(res.move)
  {
    LegalMovesExact(n.g, n.side, m);
    LegalMovesExact(n.g, n.side, res.move);
    if MatesNow(ai.params.rules, n.g, n.side) { MatingIsEnding(ai.params.rules, n.g, n.side); }
    ValueIsBestMove(ai.params, n.g, n.side, n.depth);
  }

  lemma MatingIsEnding(R: Rules, g: Grid, side: Color)
    requires R == XiangqiRules() && MatesNow(R, g, side)
    ensures CanEndGame(g, side)
  {
    var m :| m in R.legal(g, side) && Stuck(R, R.apply(g, m), Opponent(side));
    LegalMovesExact(g, side, m);
    NoLegalMoves(Apply(g, m), Opponent(side));
  }
}
