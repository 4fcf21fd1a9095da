/** The capture search at the leaves of ai/engine.py, for positions out of check and without the
    delta cutoff. */
module Quiescence {
  import opened Types
  import opened BoardModel
  import opened MoveRules
  import opened GeneratorSpec
  import opened Generator
  import opened SearchSpec
  import opened Evaluator

  /** Every capture the generator lists, king captures and moves into check included. */
  ghost predicate IsCapture(g: Grid, color: Color, m: Move) {
    Reaches(g, color, m) && IsPiece(At(g, m.toCol, m.toRow))
  }

  ghost predicate Covers(g: Grid, color: Color, ms: seq<Move>) {
    forall m :: m in ms <==> IsCapture(g, color, m)
  }

  ghost function CapturesOf(moves: seq<LegalMove>): seq<Move> {
    if moves == [] then []
    else
      var last := moves[|moves| - 1];
      CapturesOf(moves[..|moves| - 1]) + if last.captured >= 0 then [last.move] else []
  }

  lemma {:induction false} CapturesExact(moves: seq<LegalMove>, m: Move)
    ensures m in CapturesOf(moves) <==> exists lm :: lm in moves && lm.move == m && lm.captured >= 0
  {
    if moves != [] {
      CapturesExact(moves[..|moves| - 1], m);
      assert moves == moves[..|moves| - 1] + [moves[|moves| - 1]];
    }
  }

  ghost function Captures(g: Grid, color: Color): seq<Move> {
    CapturesOf(AllMoves(g, color))
  }

  lemma CapturesCover(g: Grid, color: Color)
    ensures Covers(g, color, Captures(g, color))
  {
    forall m
      ensures m in Captures(g, color) <==> IsCapture(g, color, m)
    {
      CapturesExact(AllMoves(g, color), m);
      AllMovesExact(g, color, Entry(g, m));
      forall lm | lm in AllMoves(g, color) && lm.move == m
        ensures lm == Entry(g, m)
      {
        AllMovesExact(g, color, lm);
      }
    }
  }

  // ----- Captures run out -----

  lemma {:induction false} CellCount(g: Grid, n: nat)
    requires n <= ROWS
    ensures |Pieces(g, n)| == COLS * n
  {
    if n > 0 {
      CellCount(g, n - 1);
    }
  }

  /** The cells that are not empty. */
  ghost function Men(g: Grid): nat {
    CellCount(g, ROWS);
    assert Pieces(g, ROWS)[EMPTY] <= |Pieces(g, ROWS)|;
    COLS * ROWS - Pieces(g, ROWS)[EMPTY]
  }

  lemma CaptureTakesOne(g: Grid, color: Color, m: Move)
    requires IsCapture(g, color, m)
    ensures Men(Apply(g, m)) == Men(g) - 1
  {
    var piece := At(g, m.fromCol, m.fromRow);
    var placed := Put(g, m.toCol, m.toRow, piece);
    PutChangesPieces(g, m.toCol, m.toRow, piece, ROWS, EMPTY);
    PutChangesPieces(placed, m.fromCol, m.fromRow, EMPTY, ROWS, EMPTY);
    assert At(placed, m.fromCol, m.fromRow) == piece;
  }

  // ----- Value -----

  /** The value of a position when only captures are played and either side may stop. */
  ghost function QuietValue(t: Tables, g: Grid, color: Color): real
    decreases Men(g), 1, 0
  {
    CapturesCover(g, color);
    BestCapture(t, g, color, Captures(g, color))
  }

  ghost function BestCapture(t: Tables, g: Grid, color: Color, ms: seq<Move>): real
    requires forall m :: m in ms ==> IsCapture(g, color, m)
    decreases Men(g), 0, |ms|
  {
    if ms == [] then Evaluate(t, g, color)
    else
      var rest := BestCapture(t, g, color, ms[..|ms| - 1]);
      var last := AfterCapture(t, g, color, ms[|ms| - 1]);
      if last > rest then last else rest
  }

  /** What a capture is worth to the side that makes it. */
  ghost function AfterCapture(t: Tables, g: Grid, color: Color, m: Move): real
    requires IsCapture(g, color, m)
    decreases Men(g), 0, 0
  {
    CaptureTakesOne(g, color, m);
    -QuietValue(t, Apply(g, m), Opponent(color))
  }

  lemma {:induction false} BestCaptureTops(t: Tables, g: Grid, color: Color, ms: seq<Move>, m: Move)
    requires forall k :: k in ms ==> IsCapture(g, color, k)
    ensures Evaluate(t, g, color) <= BestCapture(t, g, color, ms)
    ensures m in ms ==> AfterCapture(t, g, color, m) <= BestCapture(t, g, color, ms)
  {
    if ms != [] {
      BestCaptureTops(t, g, color, ms[..|ms| - 1], m);
      assert ms == ms[..|ms| - 1] + [ms[|ms| - 1]];
    }
  }

  lemma {:induction false} BestCaptureAttained(t: Tables, g: Grid, color: Color, ms: seq<Move>, most: real)
    requires forall k :: k in ms ==> IsCapture(g, color, k) && AfterCapture(t, g, color, k) <= most
    requires Evaluate(t, g, color) <= most
    ensures BestCapture(t, g, color, ms) <= most
  {
    if ms != [] {
      BestCaptureAttained(t, g, color, ms[..|ms| - 1], most);
      assert ms[|ms| - 1] in ms;
    }
  }

  /** The value is the least bound on the evaluation and on what every capture leads to. */
  lemma QuietAtLeast(t: Tables, g: Grid, color: Color)
    ensures Evaluate(t, g, color) <= QuietValue(t, g, color)
    ensures forall m :: IsCapture(g, color, m) ==> AfterCapture(t, g, color, m) <= QuietValue(t, g, color)
  {
    CapturesCover(g, color);
    forall m
      ensures Evaluate(t, g, color) <= QuietValue(t, g, color)
      ensures IsCapture(g, color, m) ==> AfterCapture(t, g, color, m) <= QuietValue(t, g, color)
    {
      BestCaptureTops(t, g, color, Captures(g, color), m);
    }
    BestCaptureTops(t, g, color, Captures(g, color), Move(0, 0, 0, 0));
  }

  lemma QuietAtMost(t: Tables, g: Grid, color: Color, most: real)
    requires Evaluate(t, g, color) <= most
    requires forall m :: IsCapture(g, color, m) ==> AfterCapture(t, g, color, m) <= most
    ensures QuietValue(t, g, color) <= most
  {
    CapturesCover(g, color);
    BestCaptureAttained(t, g, color, Captures(g, color), most);
  }

  /** From any position with no more pieces than the opening supplies, leaf values stay clear of
      mate scores, whatever is captured on the way. */
  lemma QuietBounded(t: Tables, g: Grid, color: Color)
    requires InRange(t) && Supplied(g)
    ensures -MATE / 2.0 < QuietValue(t, g, color) < MATE / 2.0
  {
    QuietAtLeast(t, g, color);
    EvaluationBounded(t, g, color);
    forall m | IsCapture(g, color, m)
      ensures AfterCapture(t, g, color, m) <= 17250.0
    {
      MoveKeepsSupply(g, m);
      EvaluationBounded(t, Apply(g, m), Opponent(color));
      QuietAtLeast(t, Apply(g, m), Opponent(color));
    }
    QuietAtMost(t, g, color, 17250.0);
  }

  /** Leaf values for the whole search, set to zero on boards no game can reach. */
  ghost function LeafValue(t: Tables, g: Grid, color: Color): real {
    if Supplied(g) then QuietValue(t, g, color) else 0.0
  }

  /** They are as small as the search needs them, at any depth up to fifty thousand. */
  lemma LeavesFit(t: Tables, P: Params)
    requires InRange(t) && P.topDepth <= 50000
    requires forall g: Grid, c: Color :: P.leafValue(g, c) == LeafValue(t, g, c)
    ensures LeavesBounded(P)
  {
    forall g: Grid, c: Color
      ensures -MateAt(P, 0) <= P.leafValue(g, c) <= MateAt(P, 0)
    {
      assert P.leafValue(g, c) == LeafValue(t, g, c);
      if Supplied(g) {
        QuietBounded(t, g, c);
      }
    }
  }

  // ----- The search -----

  class QuiescenceSearch {
    const tables: Tables

    constructor (tables: Tables)
      ensures this.tables == tables
    {
      this.tables := tables;
    }

    method GenerateCaptures(board: Board, color: Color) returns (ms: seq<Move>)
      ensures Covers(board.cells, color, ms)
    {
      var generator := new MoveGenerator(board);
      var moves := generator.GenerateAllMoves(color);
      ms := [];
      for i := 0 to |moves|
        invariant ms == CapturesOf(moves[..i])
      {
        assert moves[..i + 1][..i] == moves[..i];
        if moves[i].captured >= 0 {
          ms := ms + [moves[i].move];
        }
      }
      assert moves[..|moves|] == moves;
      CapturesCover(board.cells, color);
    }

    /** The order captures are tried in: any permutation. */
    method SortCaptures(ms: seq<Move>, ghost g: Grid, ghost color: Color) returns (sorted: seq<Move>)
      requires Covers(g, color, ms)
      ensures Covers(g, color, sorted)
    {
      sorted :| multiset(sorted) == multiset(ms);
      forall m
        ensures m in sorted <==> m in ms
      {
        assert m in sorted <==> m in multiset(sorted);
        assert m in ms <==> m in multiset(ms);
      }
    }

    /** The value of the position, as far as an open window asks for it. An empty window may have an
        infinite lower end, which a number cannot stand for; the evaluation stands in then. */
    method Search(board: Board, turn: Color, alpha0: Ext, beta: Ext) returns (r: real)
      modifies board
      ensures board.cells == old(board.cells)
      ensures Lt(alpha0, beta) ==> InWindow(QuietValue(tables, board.cells, turn), alpha0, beta, r)
      decreases Men(board.cells), 1
    {
      ghost var g := board.cells;
      QuietAtLeast(tables, g, turn);
      var standPat := EvaluateBoard(tables, board, turn);
      if Le(beta, Fin(standPat)) {
        return standPat;
      }
      var alpha := Max(alpha0, Fin(standPat));
      var captures := GenerateCaptures(board, turn);
      if captures == [] {
        QuietAtMost(tables, g, turn, standPat);
        return standPat;
      }
      var sorted := SortCaptures(captures, g, turn);
      var best := TryCaptures(board, turn, sorted, alpha0, alpha, beta);
      r := if best.Fin? then best.v else standPat;
    }

    /** What the loop over the captures has learnt after the first i: alpha tops the evaluation and
        their worth, and is the value of the position from below unless nothing has raised it. */
    ghost predicate Tops(g: Grid, turn: Color, sorted: seq<Move>, i: nat, alpha0: Ext, alpha: Ext)
      requires Covers(g, turn, sorted) && i <= |sorted|
    {
      && alpha.Fin? && Le(alpha0, alpha) && Evaluate(tables, g, turn) <= alpha.v
      && (alpha != alpha0 ==> alpha.v <= QuietValue(tables, g, turn))
      && forall j :: 0 <= j < i ==> CaptureWorth(g, turn, sorted, j) <= alpha.v
    }

    ghost function CaptureWorth(g: Grid, turn: Color, sorted: seq<Move>, j: nat): real
      requires Covers(g, turn, sorted) && j < |sorted|
    {
      assert sorted[j] in sorted;
      AfterCapture(tables, g, turn, sorted[j])
    }

    lemma TopsAll(g: Grid, turn: Color, sorted: seq<Move>, alpha0: Ext, alpha: Ext, beta: Ext)
      requires Covers(g, turn, sorted) && Tops(g, turn, sorted, |sorted|, alpha0, alpha) && Lt(alpha, beta)
      ensures InWindow(QuietValue(tables, g, turn), alpha0, beta, alpha.v)
    {
      forall m | IsCapture(g, turn, m)
        ensures AfterCapture(tables, g, turn, m) <= alpha.v
      {
        assert m in sorted;
        var j :| 0 <= j < |sorted| && sorted[j] == m;
        assert CaptureWorth(g, turn, sorted, j) <= alpha.v;
      }
      QuietAtMost(tables, g, turn, alpha.v);
    }

    lemma TopsOneMore(g: Grid, turn: Color, sorted: seq<Move>, i: nat, alpha0: Ext, alpha: Ext, beta: Ext, score: real)
      requires Covers(g, turn, sorted) && i < |sorted| && Tops(g, turn, sorted, i, alpha0, alpha) && Lt(alpha, beta)
      requires InWindow(CaptureWorth(g, turn, sorted, i), alpha, beta, score)
      ensures if Le(beta, Fin(score)) then InWindow(QuietValue(tables, g, turn), alpha0, beta, score)
              else Tops(g, turn, sorted, i + 1, alpha0, Max(alpha, Fin(score)))
    {
      assert sorted[i] in sorted;
      QuietAtLeast(tables, g, turn);
    }

    /** The loop over the captures, from the better of the window's bound and the evaluation. */
    method TryCaptures(board: Board, turn: Color, sorted: seq<Move>, ghost alpha0: Ext, start: Ext, beta: Ext)
      returns (r: Ext)
      requires Covers(board.cells, turn, sorted)
      requires Lt(alpha0, beta) ==> Tops(board.cells, turn, sorted, 0, alpha0, start) && Lt(start, beta)
      modifies board
      ensures board.cells == old(board.cells)
      ensures Lt(alpha0, beta) ==> r.Fin? && InWindow(QuietValue(tables, board.cells, turn), alpha0, beta, r.v)
      decreases Men(board.cells), 0, |sorted| + 1
    {
      ghost var g := board.cells;
      ghost var open := Lt(alpha0, beta);
      var alpha := start;
      for i := 0 to |sorted|
        invariant board.cells == g
        invariant open ==> Tops(g, turn, sorted, i, alpha0, alpha) && Lt(alpha, beta)
      {
        assert sorted[i] in sorted;
        var score := TryCapture(board, turn, sorted[i], alpha, beta);
        if open {
          TopsOneMore(g, turn, sorted, i, alpha0, alpha, beta, score);
        }
        if Le(beta, Fin(score)) {
          return Fin(score);
        }
        if Lt(alpha, Fin(score)) {
          alpha := Fin(score);
        }
      }
      if open {
        TopsAll(g, turn, sorted, alpha0, alpha, beta);
      }
      r := alpha;
    }

    /** One capture made, answered and taken back. */
    method TryCapture(board: Board, turn: Color, move: Move, alpha: Ext, beta: Ext) returns (score: real)
      requires IsCapture(board.cells, turn, move)
      modifies board
      ensures board.cells == old(board.cells)
      ensures Lt(alpha, beta) ==> InWindow(AfterCapture(tables, board.cells, turn, move), alpha, beta, score)
      decreases Men(board.cells), 0, 0
    {
      ghost var g := board.cells;
      CaptureTakesOne(g, turn, move);
      UnmakeRestores(g, move);
      var captured := board.MakeMove(move);
      var reply := Search(board, Opponent(turn), Neg(beta), Neg(alpha));
      board.UnmakeMove(move, captured);
      score := -reply;
      NegatedWindow(QuietValue(tables, Apply(g, move), Opponent(turn)), alpha, beta, reply);
    }
  }
}
