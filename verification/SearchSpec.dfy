/** What the game-tree search has to compute: plain negamax over arbitrary rules, the window
    contract of a fail-soft search, and the facts about paths that keep repetition draws away. */
module SearchSpec {
  import opened Types

  /** Floats with the two infinities the search windows start from. */
  datatype Ext = NegInf | Fin(v: real) | PosInf

  predicate Lt(a: Ext, b: Ext) {
    if a.Fin? && b.Fin? then a.v < b.v
    else (a.NegInf? && !b.NegInf?) || (b.PosInf? && !a.PosInf?)
  }

  predicate Le(a: Ext, b: Ext) {
    !Lt(b, a)
  }

  function Neg(a: Ext): Ext {
    match a
    case NegInf => PosInf
    case Fin(v) => Fin(-v)
    case PosInf => NegInf
  }

  function Plus(a: Ext, x: real): Ext {
    if a.Fin? then Fin(a.v + x) else a
  }

  function Max(a: Ext, b: Ext): Ext {
    if Lt(a, b) then b else a
  }

  function Min(a: Ext, b: Ext): Ext {
    if Lt(b, a) then b else a
  }

  /** The fail-soft contract: a result at or below the window bounds the value from above, one
      at or above it bounds the value from below, one inside is the value. */
  ghost predicate InWindow(value: real, alpha: Ext, beta: Ext, r: real) {
    && (Le(Fin(r), alpha) ==> value <= r)
    && (Le(beta, Fin(r)) ==> value >= r)
    && (Lt(alpha, Fin(r)) && Lt(Fin(r), beta) ==> value == r)
  }

  /** The search sees the game through the legal moves of a side, a check test and the effect
      of a move. */
  datatype Rules = Rules(legal: (Grid, Color) -> seq<Move>, exposed: (Grid, Color) -> bool, apply: (Grid, Move) -> Grid)

  ghost predicate Lawful(R: Rules) {
    MovesAreSafe(R) && MovesNeverCancel(R)
  }

  /** A legal move acts as it does on the board, comes from an own piece on the board, and
      leaves the mover's king safe. */
  ghost predicate MovesAreSafe(R: Rules) {
    forall g: Grid, c: Color, m: Move :: m in R.legal(g, c) ==> ActsSafely(R, g, c, m)
  }

  ghost predicate ActsSafely(R: Rules, g: Grid, c: Color, m: Move) {
    InBounds(m) && R.apply(g, m) == Apply(g, m) && !R.exposed(R.apply(g, m), c)
  }

  lemma LegalMoveActs(R: Rules, g: Grid, c: Color, m: Move)
    requires MovesAreSafe(R) && m in R.legal(g, c)
    ensures InBounds(m) && R.apply(g, m) == Apply(g, m) && !R.exposed(R.apply(g, m), c)
  {
  }

  /** No reply to a move gives back the position before the move. */
  ghost predicate MovesNeverCancel(R: Rules) {
    forall g: Grid, c: Color, m: Move, k: Move ::
      m in R.legal(g, c) && k in R.legal(R.apply(g, m), Opponent(c)) ==> R.apply(R.apply(g, m), k) != g
  }

  predicate Stuck(R: Rules, g: Grid, c: Color) {
    R.legal(g, c) == []
  }

  /** Some legal move leaves the opponent without one. */
  ghost predicate MatesNow(R: Rules, g: Grid, c: Color) {
    exists m :: m in R.legal(g, c) && Stuck(R, R.apply(g, m), Opponent(c))
  }

  const MATE: real := 100000.0

  /** leafValue is the value of a position at depth 0; topDepth is the engine's configured
      depth, from which mate scores are counted. */
  datatype Params = Params(rules: Rules, leafValue: (Grid, Color) -> real, topDepth: nat)

  function MateAt(P: Params, d: int): real {
    MATE - (P.topDepth - d) as real
  }

  ghost function Best(values: seq<real>): (best: real)
    requires values != []
    ensures forall i :: 0 <= i < |values| ==> values[i] <= best
    ensures exists i :: 0 <= i < |values| && values[i] == best
  {
    if |values| == 1 then values[0]
    else
      var rest := Best(values[1..]);
      assert forall i :: 0 < i < |values| ==> values[i] == values[1..][i - 1];
      if rest > values[0] then rest else values[0]
  }

  /** The value of a position for the side to move, d plies before the leaves. */
  ghost function V(P: Params, g: Grid, c: Color, d: int): real
    decreases if d <= 0 then 0 else d, 1, 0
  {
    if d <= 0 then P.leafValue(g, c)
    else
      var ms := P.rules.legal(g, c);
      if ms == [] then (if P.rules.exposed(g, c) then -MateAt(P, d) else -MATE / 2.0)
      else if MatesNow(P.rules, g, c) then MateAt(P, d)
      else Best(ChildValues(P, g, c, d, ms))
  }

  ghost function ChildValues(P: Params, g: Grid, c: Color, d: int, ms: seq<Move>): (values: seq<real>)
    requires d > 0
    ensures |values| == |ms| && forall i :: 0 <= i < |ms| ==> values[i] == ChildValue(P, g, c, d, ms[i])
    decreases d, 0, 1
  {
    seq(|ms|, i requires 0 <= i < |ms| => ChildValue(P, g, c, d, ms[i]))
  }

  /** What a move is worth to the side that plays it. */
  ghost function ChildValue(P: Params, g: Grid, c: Color, d: int, m: Move): real
    requires d > 0
    decreases d, 0, 0
  {
    -V(P, P.rules.apply(g, m), Opponent(c), d - 1)
  }

  lemma BestOverMoves(ms: seq<Move>, values: seq<real>, worth: Move -> real)
    requires ms != [] && |values| == |ms|
    requires forall i :: 0 <= i < |ms| ==> values[i] == worth(ms[i])
    ensures forall m :: m in ms ==> worth(m) <= Best(values)
    ensures exists m :: m in ms && worth(m) == Best(values)
  {
    forall m | m in ms
      ensures worth(m) <= Best(values)
    {
      var i :| 0 <= i < |ms| && ms[i] == m;
      assert values[i] <= Best(values);
    }
    var k :| 0 <= k < |values| && values[k] == Best(values);
    assert ms[k] in ms;
  }

  /** Away from the ends of the game a node is worth its best move. */
  lemma ValueIsBestMove(P: Params, g: Grid, c: Color, d: int)
    requires d > 0 && !Stuck(P.rules, g, c) && !MatesNow(P.rules, g, c)
    ensures forall m :: m in P.rules.legal(g, c) ==> ChildValue(P, g, c, d, m) <= V(P, g, c, d)
    ensures exists m :: m in P.rules.legal(g, c) && ChildValue(P, g, c, d, m) == V(P, g, c, d)
  {
    var ms := P.rules.legal(g, c);
    var worth := m => ChildValue(P, g, c, d, m);
    BestOverMoves(ms, ChildValues(P, g, c, d, ms), worth);
    forall m | m in ms
      ensures ChildValue(P, g, c, d, m) <= V(P, g, c, d)
    {
      assert worth(m) <= V(P, g, c, d);
    }
    var w :| w in ms && worth(w) == V(P, g, c, d);
    assert ChildValue(P, g, c, d, w) == V(P, g, c, d);
  }

  /** The ends of the game in numbers: being mated and mating at once count the plies from the
      configured depth, and being unable to move out of check is worth half a mate. */
  lemma EndsInNumbers(P: Params, g: Grid, c: Color, d: int)
    requires d > 0
    ensures Stuck(P.rules, g, c) && P.rules.exposed(g, c) ==> V(P, g, c, d) == -100000.0 + (P.topDepth - d) as real
    ensures Stuck(P.rules, g, c) && !P.rules.exposed(g, c) ==> V(P, g, c, d) == -50000.0
    ensures MatesNow(P.rules, g, c) ==> V(P, g, c, d) == 100000.0 - (P.topDepth - d) as real
  {
  }

  /** A mate is worth one point more for every ply it is nearer to the root, and being mated one
      point less: the quicker mate is preferred, and the slower one by the side that is mated. */
  lemma NearerMateIsWorthMore(P: Params, g: Grid, c: Color, g': Grid, c': Color, d: int, n: nat)
    requires d > 0
    ensures MatesNow(P.rules, g, c) && MatesNow(P.rules, g', c') ==>
      V(P, g, c, d + n) == V(P, g', c', d) + n as real
    ensures Stuck(P.rules, g, c) && P.rules.exposed(g, c) && Stuck(P.rules, g', c') && P.rules.exposed(g', c') ==>
      V(P, g, c, d + n) == V(P, g', c', d) - n as real
  {
    EndsInNumbers(P, g, c, d + n);
    EndsInNumbers(P, g', c', d);
  }

  /** No recursion is needed to value the node. */
  ghost predicate Ended(P: Params, g: Grid, c: Color, d: int) {
    d == 0 || Stuck(P.rules, g, c) || MatesNow(P.rules, g, c)
  }

  lemma BestMoveOf(P: Params, g: Grid, c: Color, d: int) returns (w: Move, child: Grid)
    requires d >= 0 && !Ended(P, g, c, d)
    ensures w in P.rules.legal(g, c) && child == P.rules.apply(g, w)
    ensures V(P, g, c, d) == -V(P, child, Opponent(c), d - 1)
  {
    ValueIsBestMove(P, g, c, d);
    w :| w in P.rules.legal(g, c) && ChildValue(P, g, c, d, w) == V(P, g, c, d);
    child := P.rules.apply(g, w);
  }

  ghost predicate LeavesBounded(P: Params) {
    && P.topDepth <= 50000
    && forall g: Grid, c: Color :: -MateAt(P, 0) <= P.leafValue(g, c) <= MateAt(P, 0)
  }

  ghost predicate Bounded(P: Params, d: int, value: real) {
    -MateAt(P, d) <= value <= MateAt(P, d)
  }

  lemma EndValueBounded(P: Params, g: Grid, c: Color, d: int)
    requires LeavesBounded(P) && d >= 0
    requires Ended(P, g, c, d)
    ensures Bounded(P, d, V(P, g, c, d))
  {
  }

  lemma BoundGrows(P: Params, d: int, value: real)
    requires Bounded(P, d - 1, -value)
    ensures Bounded(P, d, value)
  {
  }

  /** No value beats an immediate mate: this is what makes the early mate return agree with
      cutoffs that happen before the mating move is tried. */
  lemma {:induction false} ValueBounded(P: Params, g: Grid, c: Color, d: int)
    requires LeavesBounded(P) && d >= 0
    ensures Bounded(P, d, V(P, g, c, d))
    decreases d
  {
    if Ended(P, g, c, d) {
      EndValueBounded(P, g, c, d);
    } else {
      var w, child := BestMoveOf(P, g, c, d);
      ValueBounded(P, child, Opponent(c), d - 1);
      BoundGrows(P, d, V(P, g, c, d));
    }
  }

  /** A move whose worth is at least best proves the node is worth at least best. */
  lemma LowerBoundFromMove(P: Params, g: Grid, c: Color, d: int, m: Move)
    requires LeavesBounded(P) && d > 0
    requires m in P.rules.legal(g, c)
    ensures V(P, g, c, d) >= ChildValue(P, g, c, d, m)
  {
    if MatesNow(P.rules, g, c) {
      ValueBounded(P, P.rules.apply(g, m), Opponent(c), d - 1);
      BoundGrows(P, d, ChildValue(P, g, c, d, m));
    } else {
      ValueIsBestMove(P, g, c, d);
    }
  }

  /** When every legal move has been tried without mating, a bound on them all is a bound on
      the node. */
  lemma UpperBoundFromAll(P: Params, g: Grid, c: Color, d: int, best: real)
    requires d > 0 && !Stuck(P.rules, g, c) && !MatesNow(P.rules, g, c)
    requires forall m :: m in P.rules.legal(g, c) ==> ChildValue(P, g, c, d, m) <= best
    ensures V(P, g, c, d) <= best
  {
    ValueIsBestMove(P, g, c, d);
  }

  datatype Node = Node(g: Grid, side: Color, depth: int)

  ghost function NodeValue(P: Params, n: Node): real {
    V(P, n.g, n.side, n.depth)
  }

  /** The node a move leads to. */
  function Child(R: Rules, n: Node, m: Move): Node {
    Node(R.apply(n.g, m), Opponent(n.side), n.depth - 1)
  }

  /** What a loop over a node's moves has learnt after trying the first i of them from lower
      bound alpha: none mates, best tops their worth, and if it rose above alpha the k-th move
      is worth that much. */
  ghost predicate Learnt(P: Params, n: Node, sorted: seq<Move>, i: nat, best: Ext, alpha: Ext, k: nat)
    requires i <= |sorted| && n.depth > 0
  {
    && NoneMatesAmong(P.rules, n, sorted, i)
    && TopsWorth(ChildValues(P, n.g, n.side, n.depth, sorted), i, best, alpha, k)
  }

  ghost predicate NoneMatesAmong(R: Rules, n: Node, sorted: seq<Move>, i: nat)
    requires i <= |sorted|
  {
    forall j :: 0 <= j < i ==> !Stuck(R, R.apply(n.g, sorted[j]), Opponent(n.side))
  }

  ghost predicate TopsWorth(worth: seq<real>, i: nat, best: Ext, alpha: Ext, k: nat)
    requires i <= |worth|
  {
    && (i == 0 ==> best == NegInf)
    && (i > 0 ==> best.Fin? && forall j :: 0 <= j < i ==> worth[j] <= best.v)
    && (i > 0 && Lt(alpha, best) ==> k < i && worth[k] >= best.v)
  }

  lemma TopsMore(worth: seq<real>, i: nat, best: Ext, alpha: Ext, beta: Ext, k: nat, score: real)
    requires i < |worth| && TopsWorth(worth, i, best, alpha, k)
    requires Lt(Max(alpha, best), beta) && InWindow(worth[i], Max(alpha, best), beta, score)
    ensures var rises := Lt(best, Fin(score));
      var best' := if rises then Fin(score) else best;
      var k' := if rises then i else k;
      if Le(beta, Max(alpha, best')) then best' == Fin(score) && worth[i] >= score
      else TopsWorth(worth, i + 1, best', alpha, k')
  {
  }

  /** One more move searched, with its score inside the contract: either its worth reaches beta,
      or the loop has learnt about one more move. */
  lemma LearnMove(P: Params, n: Node, sorted: seq<Move>, i: nat, best: Ext, alpha: Ext, beta: Ext, k: nat, score: real)
    requires i < |sorted| && n.depth > 0 && Learnt(P, n, sorted, i, best, alpha, k)
    requires var child := Child(P.rules, n, sorted[i]);
      !Stuck(P.rules, child.g, child.side) && InWindow(-NodeValue(P, child), Max(alpha, best), beta, score)
    requires Lt(Max(alpha, best), beta)
    ensures var rises := Lt(best, Fin(score));
      var best' := if rises then Fin(score) else best;
      var k' := if rises then i else k;
      if Le(beta, Max(alpha, best')) then best' == Fin(score) && -NodeValue(P, Child(P.rules, n, sorted[i])) >= score
      else Learnt(P, n, sorted, i + 1, best', alpha, k')
  {
    TopsMore(ChildValues(P, n.g, n.side, n.depth, sorted), i, best, alpha, beta, k, score);
    assert NoneMatesAmong(P.rules, n, sorted, i + 1);
  }

  lemma NoneMates(R: Rules, n: Node, sorted: seq<Move>)
    requires forall m :: m in sorted <==> m in R.legal(n.g, n.side)
    requires NoneMatesAmong(R, n, sorted, |sorted|)
    ensures !MatesNow(R, n.g, n.side)
  {
    forall m | m in R.legal(n.g, n.side)
      ensures !Stuck(R, R.apply(n.g, m), Opponent(n.side))
    {
      var i :| 0 <= i < |sorted| && sorted[i] == m;
    }
  }

  lemma AllAtMost(P: Params, n: Node, sorted: seq<Move>, best: Ext, alpha: Ext, k: nat)
    requires n.depth > 0 && sorted != []
    requires TopsWorth(ChildValues(P, n.g, n.side, n.depth, sorted), |sorted|, best, alpha, k)
    ensures forall m :: m in sorted ==> ChildValue(P, n.g, n.side, n.depth, m) <= best.v
  {
    var worth := ChildValues(P, n.g, n.side, n.depth, sorted);
    forall m | m in sorted
      ensures ChildValue(P, n.g, n.side, n.depth, m) <= best.v
    {
      var j :| 0 <= j < |sorted| && sorted[j] == m;
      assert worth[j] <= best.v;
    }
  }

  lemma AtMostBest(P: Params, n: Node, sorted: seq<Move>, best: Ext, alpha: Ext, k: nat)
    requires n.depth > 0 && sorted != []
    requires multiset(sorted) == multiset(P.rules.legal(n.g, n.side))
    requires Learnt(P, n, sorted, |sorted|, best, alpha, k)
    ensures NodeValue(P, n) <= best.v
  {
    SameMembers(sorted, P.rules.legal(n.g, n.side));
    NoneMates(P.rules, n, sorted);
    AllAtMost(P, n, sorted, best, alpha, k);
    UpperBoundFromAll(P, n.g, n.side, n.depth, best.v);
  }

  lemma AtLeastWorth(P: Params, n: Node, sorted: seq<Move>, k: nat)
    requires n.depth > 0 && LeavesBounded(P) && k < |sorted|
    requires multiset(sorted) == multiset(P.rules.legal(n.g, n.side))
    ensures NodeValue(P, n) >= ChildValues(P, n.g, n.side, n.depth, sorted)[k]
  {
    SameMembers(sorted, P.rules.legal(n.g, n.side));
    assert sorted[k] in sorted;
    LowerBoundFromMove(P, n.g, n.side, n.depth, sorted[k]);
  }

  /** Cut off, or all moves tried and none of them mate: the best score answers the node's
      window. */
  lemma FinishNode(P: Params, n: Node, sorted: seq<Move>, i: nat, best: Ext, alpha: Ext, beta: Ext, k: nat, cut: bool)
    requires n.depth > 0 && LeavesBounded(P) && sorted != [] && i <= |sorted| && (cut || i == |sorted|)
    requires multiset(sorted) == multiset(P.rules.legal(n.g, n.side))
    requires Progress(P, n, sorted, i, best, alpha, beta, k, cut)
    ensures best.Fin? && InWindow(NodeValue(P, n), alpha, beta, best.v)
  {
    if cut {
      return;
    }
    AtMostBest(P, n, sorted, best, alpha, k);
    if Lt(alpha, best) {
      AtLeastWorth(P, n, sorted, k);
    }
    BoundsAnswer(NodeValue(P, n), alpha, beta, best.v);
  }

  lemma BoundsAnswer(value: real, alpha: Ext, beta: Ext, r: real)
    requires Lt(alpha, beta) && value <= r && (Lt(alpha, Fin(r)) ==> value >= r)
    ensures InWindow(value, alpha, beta, r)
  {
  }

  /** Cut off at or above beta: the node is worth at least the best score. */
  lemma CutNode(P: Params, n: Node, sorted: seq<Move>, i: nat, score: real, alpha: Ext, beta: Ext)
    requires n.depth > 0 && LeavesBounded(P) && i < |sorted|
    requires multiset(sorted) == multiset(P.rules.legal(n.g, n.side))
    requires Lt(alpha, beta) && Le(beta, Fin(score))
    requires -NodeValue(P, Child(P.rules, n, sorted[i])) >= score
    ensures InWindow(NodeValue(P, n), alpha, beta, score)
  {
    AtLeastWorth(P, n, sorted, i);
  }

  /** The state of the loop after i moves: its answer if it was cut off, otherwise what it has
      learnt and a window that is still open. */
  ghost predicate Progress(P: Params, n: Node, sorted: seq<Move>, i: nat, best: Ext, alpha: Ext, beta: Ext, k: nat,
                           cut: bool)
    requires i <= |sorted| && n.depth > 0
  {
    && Lt(alpha, beta)
    && if cut then best.Fin? && InWindow(NodeValue(P, n), alpha, beta, best.v)
       else Learnt(P, n, sorted, i, best, alpha, k) && Lt(Max(alpha, best), beta)
  }

  lemma TryMove(P: Params, n: Node, sorted: seq<Move>, i: nat, best: Ext, alpha: Ext, beta: Ext, k: nat, score: real)
    requires LeavesBounded(P) && multiset(sorted) == multiset(P.rules.legal(n.g, n.side))
    requires i < |sorted| && n.depth > 0 && Progress(P, n, sorted, i, best, alpha, beta, k, false)
    requires var child := Child(P.rules, n, sorted[i]);
      !Stuck(P.rules, child.g, child.side) && InWindow(-NodeValue(P, child), Max(alpha, best), beta, score)
    ensures var rises := Lt(best, Fin(score));
      var best' := if rises then Fin(score) else best;
      Progress(P, n, sorted, i + 1, best', alpha, beta, if rises then i else k, Le(beta, Max(alpha, best')))
  {
    LearnMove(P, n, sorted, i, best, alpha, beta, k, score);
    if Lt(best, Fin(score)) && Le(beta, Fin(score)) {
      CutNode(P, n, sorted, i, score, alpha, beta);
    }
  }

  lemma SameMembers(a: seq<Move>, b: seq<Move>)
    requires multiset(a) == multiset(b)
    ensures |a| == |b| && forall m :: m in a <==> m in b
  {
    assert |a| == |multiset(a)| && |b| == |multiset(b)|;
    forall m
      ensures m in a <==> m in b
    {
      assert m in a <==> m in multiset(a);
      assert m in b <==> m in multiset(b);
    }
  }

  lemma MoveMates(R: Rules, n: Node, m: Move)
    requires m in R.legal(n.g, n.side)
    requires var child := Child(R, n, m); Stuck(R, child.g, child.side)
    ensures MatesNow(R, n.g, n.side)
  {
  }

  lemma PermutedMember(a: seq<Move>, b: seq<Move>, i: nat)
    requires multiset(a) == multiset(b) && i < |a|
    ensures a[i] in b
  {
    assert a[i] in multiset(a) && a[i] in multiset(b);
  }

  // ----- Search paths -----

  const NULL_MOVE_REDUCTION: int := 2

  ghost predicate RealStep(R: Rules, n: Node, n': Node) {
    && n'.side == Opponent(n.side) && n'.depth == n.depth - 1
    && exists m :: m in R.legal(n.g, n.side) && n'.g == R.apply(n.g, m)
  }

  /** One level of the search: a generated move, or a null move at reduced depth. */
  ghost predicate Step(R: Rules, n: Node, n': Node) {
    || RealStep(R, n, n')
    || n' == Node(n.g, Opponent(n.side), n.depth - 1 - NULL_MOVE_REDUCTION)
  }

  lemma LegalMoveSteps(R: Rules, n: Node, m: Move)
    requires m in R.legal(n.g, n.side)
    ensures Step(R, n, Child(R, n, m))
  {
  }

  ghost predicate Chain(R: Rules, path: seq<Node>) {
    forall i :: 0 < i < |path| ==> Step(R, path[i - 1], path[i])
  }

  predicate SamePosition(n: Node, n': Node) {
    n.g == n'.g && n.side == n'.side
  }

  lemma {:induction false} ChainDescends(R: Rules, path: seq<Node>, i: nat, j: nat)
    requires Chain(R, path) && i <= j < |path|
    ensures path[i].depth - path[j].depth >= j - i
    ensures path[i].side == path[j].side <==> (j - i) % 2 == 0
    decreases j
  {
    if i < j {
      ChainDescends(R, path, i, j - 1);
      assert Step(R, path[j - 1], path[j]);
    }
  }

  /** Two plies that cost less than four of depth are two real moves, and these never restore a
      position. */
  lemma TwoPliesDiffer(R: Rules, a: Node, b: Node, c: Node)
    requires Lawful(R) && Step(R, a, b) && Step(R, b, c)
    requires a.depth - c.depth < 4
    ensures a.g != c.g
  {
    var m :| m in R.legal(a.g, a.side) && b.g == R.apply(a.g, m);
    var k :| k in R.legal(b.g, b.side) && c.g == R.apply(b.g, k);
  }

  /** A position can recur on a path only four or more plies of depth later. */
  lemma RecurrenceGap(R: Rules, path: seq<Node>, i: nat, j: nat)
    requires Lawful(R) && Chain(R, path) && i < j < |path|
    requires SamePosition(path[i], path[j])
    ensures path[i].depth - path[j].depth >= 4
  {
    ChainDescends(R, path, i, j);
    if j - i == 2 {
      assert Step(R, path[i], path[i + 1]) && Step(R, path[i + 1], path[i + 2]);
      if path[i].depth - path[j].depth < 4 {
        TwoPliesDiffer(R, path[i], path[i + 1], path[i + 2]);
      }
    }
  }

  /** How many nodes of a path carry a given position key. */
  ghost function Occurrences(key: (Grid, Color) -> int, path: seq<Node>, k: int): nat {
    if path == [] then 0
    else
      var last := path[|path| - 1];
      Occurrences(key, path[..|path| - 1], k) + (if key(last.g, last.side) == k then 1 else 0)
  }

  /** Distinct positions among the given nodes have distinct keys. */
  ghost predicate NoCollision(key: (Grid, Color) -> int, nodes: iset<Node>) {
    forall n, n' :: n in nodes && n' in nodes && key(n.g, n.side) == key(n'.g, n'.side) ==> SamePosition(n, n')
  }

  ghost predicate Within(path: seq<Node>, nodes: iset<Node>) {
    forall i :: 0 <= i < |path| ==> path[i] in nodes
  }

  /** Two ancestors with one key need two recurrence gaps above the node. */
  lemma {:induction false} FewOccurrences(R: Rules, key: (Grid, Color) -> int, nodes: iset<Node>, path: seq<Node>,
                                          j: nat, last: nat)
    requires Lawful(R) && Chain(R, path) && Within(path, nodes) && NoCollision(key, nodes)
    requires j <= last < |path|
    ensures var k := key(path[last].g, path[last].side); var n := Occurrences(key, path[..j], k);
      n > 0 ==> path[0].depth - path[last].depth >= 4 * n
    decreases j
  {
    var k := key(path[last].g, path[last].side);
    if j > 0 {
      assert path[..j][..j - 1] == path[..j - 1];
      var q := path[j - 1];
      assert q in nodes && path[last] in nodes;
      if key(q.g, q.side) != k {
        FewOccurrences(R, key, nodes, path, j - 1, last);
      } else {
        assert SamePosition(q, path[last]);
        RecurrenceGap(R, path, j - 1, last);
        FewOccurrences(R, key, nodes, path, j - 1, j - 1);
        ChainDescends(R, path, 0, j - 1);
      }
    }
  }

  /** The largest configured search depth. */
  const LARGEST_DEPTH: int := 8

  /** Down to any inner node of a search of depth at most 8, null moves included, no position
      occurs more than once before: the threefold test never fires. */
  lemma NoThirdOccurrence(R: Rules, key: (Grid, Color) -> int, nodes: iset<Node>, path: seq<Node>, n: Node)
    requires Lawful(R) && Chain(R, path + [n]) && Within(path + [n], nodes) && NoCollision(key, nodes)
    requires n.depth > 0 && (path + [n])[0].depth <= LARGEST_DEPTH
    ensures Occurrences(key, path, key(n.g, n.side)) <= 1
  {
    var whole := path + [n];
    assert whole[..|path|] == path;
    FewOccurrences(R, key, nodes, whole, |path|, |path|);
  }

  /** Depth 8 is the most for which this holds: four reversible moves, played twice below a root at
      any greater depth, bring the root position back a third time at an inner node. */
  lemma ThirdOccurrenceDeeper(R: Rules, key: (Grid, Color) -> int, g: Grid, c: Color, ms: seq<Move>, top: int)
    returns (path: seq<Node>, n: Node)
    requires |ms| == 4 && top > LARGEST_DEPTH
    requires var o := Opponent(c);
      var g1 := R.apply(g, ms[0]); var g2 := R.apply(g1, ms[1]); var g3 := R.apply(g2, ms[2]);
      ms[0] in R.legal(g, c) && ms[1] in R.legal(g1, o) && ms[2] in R.legal(g2, c) && ms[3] in R.legal(g3, o)
      && R.apply(g3, ms[3]) == g
    ensures Chain(R, path + [n]) && path != [] && path[0] == Node(g, c, top)
    ensures n.depth == top - 8 && SamePosition(n, path[0]) && Occurrences(key, path, key(n.g, n.side)) >= 2
  {
    var o := Opponent(c);
    var g1 := R.apply(g, ms[0]);
    var g2 := R.apply(g1, ms[1]);
    var g3 := R.apply(g2, ms[2]);
    var first := [Node(g, c, top), Node(g1, o, top - 1), Node(g2, c, top - 2), Node(g3, o, top - 3)];
    var second := [Node(g, c, top - 4), Node(g1, o, top - 5), Node(g2, c, top - 6), Node(g3, o, top - 7)];
    path, n := first + second, Node(g, c, top - 8);
    var k := key(g, c);
    OccursTwice(key, path, k);
    ChainOf(R, path + [n], ms);
  }

  lemma OccursTwice(key: (Grid, Color) -> int, path: seq<Node>, k: int)
    requires |path| == 8
    requires key(path[0].g, path[0].side) == k && key(path[4].g, path[4].side) == k
    ensures Occurrences(key, path, k) >= 2
  {
    assert Occurrences(key, path[..1], k) == 1 by { assert path[..1][..0] == []; }
    OccurrencesGrow(key, path, 1, 4, k);
    assert path[..5][..4] == path[..4] && path[..5][4] == path[4];
    OccurrencesGrow(key, path, 5, 8, k);
    assert path[..8] == path;
  }

  lemma ChainOf(R: Rules, whole: seq<Node>, ms: seq<Move>)
    requires |whole| == 9 && |ms| == 4
    requires forall i :: 0 <= i < 8 ==> ms[i % 4] in R.legal(whole[i].g, whole[i].side)
                                        && whole[i + 1] == Child(R, whole[i], ms[i % 4])
    ensures Chain(R, whole)
  {
    forall i | 0 < i < 9
      ensures Step(R, whole[i - 1], whole[i])
    {
      LegalMoveSteps(R, whole[i - 1], ms[(i - 1) % 4]);
    }
  }

  lemma {:induction false} OccurrencesGrow(key: (Grid, Color) -> int, path: seq<Node>, i: nat, j: nat, k: int)
    requires i <= j <= |path|
    ensures Occurrences(key, path[..i], k) <= Occurrences(key, path[..j], k)
    decreases j
  {
    if i < j {
      OccurrencesGrow(key, path, i, j - 1, k);
      assert path[..j][..j - 1] == path[..j - 1];
    }
  }

  /** The null-move window is open exactly for a finite beta. */
  lemma NullWindowOpen(beta: Ext)
    ensures Lt(Neg(beta), Plus(Neg(beta), 1.0)) <==> beta.Fin?
  {
  }

  // ----- Transposition table -----

  datatype Flag = Exact | Lower | Upper

  datatype TTEntry = TTEntry(score: real, depth: int, flag: Flag, bestMove: Move)

  type Table = map<(int, int), TTEntry>

  ghost predicate EntryTrue(e: TTEntry, value: real) {
    match e.flag
    case Exact => value == e.score
    case Lower => value >= e.score
    case Upper => value <= e.score
  }

  /** Every stored entry for a node of the search at depth less than limit tells the truth. */
  ghost predicate TableTrue(P: Params, key: (Grid, Color) -> int, nodes: iset<Node>, table: Table, limit: int) {
    forall n :: n in nodes && n.depth < limit && (key(n.g, n.side), n.depth) in table ==>
      EntryTrue(table[(key(n.g, n.side), n.depth)], NodeValue(P, n))
  }

  function FlagFor(score: real, alpha: Ext, beta: Ext): Flag {
    if Le(Fin(score), alpha) then Upper
    else if Le(beta, Fin(score)) then Lower
    else Exact
  }

  /** A result that meets the window contract is stored with a true flag, and the store
      disturbs no other node's entry. */
  lemma StoreKeepsTable(P: Params, key: (Grid, Color) -> int, nodes: iset<Node>, table: Table, limit: int,
                        n: Node, e: TTEntry, alpha: Ext, beta: Ext)
    requires TableTrue(P, key, nodes, table, limit) && NoCollision(key, nodes) && n in nodes
    requires n.depth < limit ==> InWindow(NodeValue(P, n), alpha, beta, e.score)
    requires e.flag == FlagFor(e.score, alpha, beta)
    ensures TableTrue(P, key, nodes, table[(key(n.g, n.side), n.depth) := e], limit)
  {
    var table' := table[(key(n.g, n.side), n.depth) := e];
    forall q | q in nodes && q.depth < limit && (key(q.g, q.side), q.depth) in table'
      ensures EntryTrue(table'[(key(q.g, q.side), q.depth)], NodeValue(P, q))
    {
      if (key(q.g, q.side), q.depth) == (key(n.g, n.side), n.depth) {
        assert SamePosition(q, n);
        assert q == n;
      }
    }
  }

  /** Answering a narrowed window answers the original one, since the entry that narrowed it
      bounds the value on that side. */
  lemma NarrowedWindow(value: real, alpha: Ext, beta: Ext, e: TTEntry, r: real)
    requires Lt(alpha, beta) && EntryTrue(e, value)
    ensures e.flag == Exact ==> InWindow(value, alpha, beta, e.score)
    ensures e.flag == Lower ==>
      if Le(beta, Fin(e.score)) then InWindow(value, alpha, beta, e.score)
      else InWindow(value, Max(alpha, Fin(e.score)), beta, r) ==> InWindow(value, alpha, beta, r)
    ensures e.flag == Upper ==>
      if Le(Fin(e.score), alpha) then InWindow(value, alpha, beta, e.score)
      else InWindow(value, alpha, Min(beta, Fin(e.score)), r) ==> InWindow(value, alpha, beta, r)
  {
  }

  /** Answering the opponent's negated window answers the mover's. */
  lemma NegatedWindow(value: real, alpha: Ext, beta: Ext, r: real)
    ensures InWindow(value, Neg(beta), Neg(alpha), r) <==> InWindow(-value, alpha, beta, -r)
  {
  }

  // ----- Root -----

  /** The state of a root loop after i moves of which none mates: the node's value stays strictly
      inside the window, and best is that value, attained by bestMove, as soon as a move worth it
      has been tried. */
  ghost predicate RootState(P: Params, n: Node, sorted: seq<Move>, i: nat, best: Ext, bestMove: Move, alpha: Ext,
                            beta: Ext)
    requires i <= |sorted| && n.depth > 0
  {
    var value := Fin(NodeValue(P, n));
    && NoneMatesAmong(P.rules, n, sorted, i)
    && Lt(alpha, value) && Lt(value, beta)
    && Le(best, value)
    && (best == value ==> Fin(ChildValue(P, n.g, n.side, n.depth, bestMove)) == value)
    && FoundIfTried(ChildValues(P, n.g, n.side, n.depth, sorted), i, best, value)
  }

  ghost predicate FoundIfTried(worth: seq<real>, i: nat, best: Ext, value: Ext)
    requires i <= |worth|
  {
    forall j :: 0 <= j < i && Fin(worth[j]) == value ==> best == value
  }

  /** A root score that escapes the aspiration window moves the bound it broke. */
  function Widened(alpha: Ext, beta: Ext, score: real): (Ext, Ext) {
    (if Le(Fin(score), alpha) then Fin(score - 100.0) else alpha,
     if Le(beta, Fin(score)) then Fin(score + 100.0) else beta)
  }

  /** A score for a move worth at most value, in a window around value, is value only if the
      move is worth that. */
  lemma ScoreBelowValue(value: real, worth: real, alpha: Ext, beta: Ext, score: real)
    requires Lt(alpha, Fin(value)) && Lt(Fin(value), beta)
    requires worth <= value && InWindow(worth, alpha, beta, score)
    ensures score <= value && (score == value <==> worth == value)
    ensures Lt(Fin(score), beta)
  {
  }

  lemma TryRootMove(P: Params, n: Node, sorted: seq<Move>, i: nat, best: Ext, bestMove: Move, alpha: Ext, beta: Ext,
                    score: real)
    requires LeavesBounded(P) && multiset(sorted) == multiset(P.rules.legal(n.g, n.side))
    requires i < |sorted| && n.depth > 0 && RootState(P, n, sorted, i, best, bestMove, alpha, beta)
    requires var child := Child(P.rules, n, sorted[i]);
      !Stuck(P.rules, child.g, child.side) && InWindow(-NodeValue(P, child), alpha, beta, score)
    ensures var (alpha', beta') := Widened(alpha, beta, score);
      if Lt(best, Fin(score)) then RootState(P, n, sorted, i + 1, Fin(score), sorted[i], alpha', beta')
      else RootState(P, n, sorted, i + 1, best, bestMove, alpha, beta)
  {
    var worth := ChildValues(P, n.g, n.side, n.depth, sorted);
    AtLeastWorth(P, n, sorted, i);
    ScoreBelowValue(NodeValue(P, n), worth[i], alpha, beta, score);
    assert NoneMatesAmong(P.rules, n, sorted, i + 1);
    assert FoundIfTried(worth, i + 1, if Lt(best, Fin(score)) then Fin(score) else best, Fin(NodeValue(P, n)));
  }

  /** All root moves tried and none mates: the best score is the exact value of the root, and the
      best move attains it. */
  lemma FinishRoot(P: Params, n: Node, sorted: seq<Move>, best: Ext, bestMove: Move, alpha: Ext, beta: Ext)
    requires n.depth > 0 && sorted != [] && multiset(sorted) == multiset(P.rules.legal(n.g, n.side))
    requires RootState(P, n, sorted, |sorted|, best, bestMove, alpha, beta)
    ensures !MatesNow(P.rules, n.g, n.side)
    ensures best == Fin(NodeValue(P, n))
    ensures ChildValue(P, n.g, n.side, n.depth, bestMove) == NodeValue(P, n)
  {
    SameMembers(sorted, P.rules.legal(n.g, n.side));
    NoneMates(P.rules, n, sorted);
    ValueIsBestMove(P, n.g, n.side, n.depth);
    var m :| m in P.rules.legal(n.g, n.side) && ChildValue(P, n.g, n.side, n.depth, m) == NodeValue(P, n);
    assert m in sorted;
    var j :| 0 <= j < |sorted| && sorted[j] == m;
    assert ChildValues(P, n.g, n.side, n.depth, sorted)[j] == NodeValue(P, n);
  }

  /** A zero-window answer moves one MTD(f) bound without crossing the value. */
  lemma ZeroWindowBound(value: real, lower: Ext, upper: Ext, beta: real, score: real)
    requires Le(lower, Fin(value)) && Le(Fin(value), upper)
    requires InWindow(value, Fin(beta - 1.0), Fin(beta), score)
    ensures score < beta ==> value <= score
    ensures score >= beta ==> value >= score
  {
  }
}
