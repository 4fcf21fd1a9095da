/** The search's view of the game, instantiated: the moves it filters, its check test and its
    make/unmake are the rules of Xiangqi, and they meet what the search asks of them. */
module XiangqiSearch {
  import opened Types
  import opened BoardModel
  import opened MoveRules
  import opened GeneratorSpec
  import opened Generator
  import opened Checkers
  import opened SearchSpec
  import Search

  /** The generated moves that do not leave the own king exposed, in the order generated. */
  ghost function Safe(g: Grid, color: Color, moves: seq<LegalMove>): seq<Move> {
    if moves == [] then []
    else
      var last := moves[|moves| - 1].move;
      Safe(g, color, moves[..|moves| - 1]) + if Exposed(Apply(g, last), color) then [] else [last]
  }

  ghost function LegalMoves(g: Grid, color: Color): seq<Move> {
    Safe(g, color, AllMoves(g, color))
  }

  lemma {:induction false} SafeExact(g: Grid, color: Color, moves: seq<LegalMove>, m: Move)
    ensures m in Safe(g, color, moves) <==> (exists lm :: lm in moves && lm.move == m) && !Exposed(Apply(g, m), color)
  {
    if moves != [] {
      var front, last := moves[..|moves| - 1], moves[|moves| - 1];
      SafeExact(g, color, front, m);
      assert moves == front + [last];
      assert last in moves;
    }
  }

  /** The filtered list holds exactly the legal moves. */
  lemma LegalMovesExact(g: Grid, color: Color, m: Move)
    ensures m in LegalMoves(g, color) <==> IsLegal(g, color, m)
  {
    SafeExact(g, color, AllMoves(g, color), m);
    AllMovesExact(g, color, Entry(g, m));
    forall lm | lm in AllMoves(g, color) && lm.move == m
      ensures Reaches(g, color, m)
    {
      AllMovesExact(g, color, lm);
    }
  }

  lemma NoLegalMoves(g: Grid, color: Color)
    ensures LegalMoves(g, color) == [] <==> !HasLegalMove(g, color)
  {
    forall m {
      LegalMovesExact(g, color, m);
    }
    if LegalMoves(g, color) != [] {
      assert LegalMoves(g, color)[0] in LegalMoves(g, color);
    }
  }

  /** The engine's filter over the generated moves. */
  method FilterMoves(board: Board, color: Color) returns (legal: seq<Move>)
    ensures legal == LegalMoves(board.cells, color)
  {
    var generator := new MoveGenerator(board);
    var pseudo := generator.GenerateAllMoves(color);
    var validator := new MoveValidator(board);
    legal := [];
    for i := 0 to |pseudo|
      invariant legal == Safe(board.cells, color, pseudo[..i])
    {
      assert pseudo[..i + 1][..i] == pseudo[..i];
      var check := validator.IsSelfCheck(pseudo[i].move, color);
      if !check {
        legal := legal + [pseudo[i].move];
      }
    }
    assert pseudo[..|pseudo|] == pseudo;
  }

  ghost function XiangqiRules(): Rules {
    Rules((g: Grid, c: Color) => LegalMoves(g, c), (g: Grid, c: Color) => Exposed(g, c),
          (g: Grid, m: Move) => Apply(g, m))
  }

  lemma ReplyDoesNotRestore(g: Grid, c: Color, m: Move, k: Move)
    requires Reaches(g, c, m) && Reaches(Apply(g, m), Opponent(c), k)
    ensures Apply(Apply(g, m), k) != g
  {
    assert At(Apply(Apply(g, m), k), m.fromCol, m.fromRow) != At(g, m.fromCol, m.fromRow);
  }

  lemma ListedMoveIsSafe(R: Rules, g: Grid, c: Color, m: Move)
    requires R == XiangqiRules() && m in R.legal(g, c)
    ensures ActsSafely(R, g, c, m)
  {
    LegalMovesExact(g, c, m);
  }

  lemma LegalReplyDoesNotRestore(R: Rules, g: Grid, c: Color, m: Move, k: Move)
    requires R == XiangqiRules() && m in R.legal(g, c) && k in R.legal(R.apply(g, m), Opponent(c))
    ensures R.apply(R.apply(g, m), k) != g
  {
    LegalMovesExact(g, c, m);
    LegalMovesExact(Apply(g, m), Opponent(c), k);
    ReplyDoesNotRestore(g, c, m, k);
  }

  /** What the search asks of the rules holds of these: the moves on its list never leave the own
      king exposed, so the self-check test inside the loop never fires, and no reply takes the
      position back. */
  lemma XiangqiIsLawful()
    ensures Lawful(XiangqiRules())
  {
    var R := XiangqiRules();
    forall g: Grid, c: Color, m: Move | m in R.legal(g, c)
      ensures ActsSafely(R, g, c, m)
    {
      ListedMoveIsSafe(R, g, c, m);
    }
    forall g: Grid, c: Color, m: Move, k: Move | m in R.legal(g, c) && k in R.legal(R.apply(g, m), Opponent(c))
      ensures R.apply(R.apply(g, m), k) != g
    {
      LegalReplyDoesNotRestore(R, g, c, m, k);
    }
  }

  /** The end of the game as the search sees it is the end as the game object sees it. */
  lemma SearchSeesTheEnd(g: Grid, toMove: Color)
    ensures var over := Search.CheckGameOver(XiangqiRules(), g, toMove);
      && (over.isOver <==> OverFor(g, toMove).Over?)
      && (over.isOver ==> over.winner == OverFor(g, toMove).winner)
  {
    NoLegalMoves(g, toMove);
  }

  /** A side without a legal move is worth minus 100000, less the plies from the root, when it is in
      check and minus 50000 when it is not; a side that can mate at once is worth the opposite. */
  lemma LostPositions(P: Params, g: Grid, c: Color, d: int)
    requires P.rules == XiangqiRules() && d > 0
    ensures OverFor(g, c) == Over(Some(Opponent(c)), Checkmate) ==>
      V(P, g, c, d) == -100000.0 + (P.topDepth - d) as real
    ensures OverFor(g, c) == Over(Some(Opponent(c)), Stalemate) ==> V(P, g, c, d) == -50000.0
    ensures (exists m :: IsLegal(g, c, m) && !HasLegalMove(Apply(g, m), Opponent(c))) ==>
      V(P, g, c, d) == 100000.0 - (P.topDepth - d) as real
  {
    NoLegalMoves(g, c);
    forall m | IsLegal(g, c, m) && !HasLegalMove(Apply(g, m), Opponent(c))
      ensures MatesNow(P.rules, g, c)
    {
      LegalMovesExact(g, c, m);
      NoLegalMoves(Apply(g, m), Opponent(c));
      assert Stuck(P.rules, P.rules.apply(g, m), Opponent(c));
    }
  }
}
