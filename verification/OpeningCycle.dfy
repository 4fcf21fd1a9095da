/** The search's rules have a cycle of four moves: two rooks stepping forward and back. */
module OpeningCycle {
  import opened Types
  import opened MoveRules
  import opened Shelter
  import opened Lines
  import SearchSpec
  import XiangqiSearch

  lemma ShuffleLegal(i: nat)
    requires i < 4
    ensures IsLegal(ShuffleGrid(i), TurnAt(i), ShuffleMove(i))
  {
    ShuffleCalm(i);
    ShuffleReaches(i);
    AsideIsLegal(ShuffleGrid(i), TurnAt(i), ShuffleMove(i));
  }

  lemma ShuffleListed(R: SearchSpec.Rules, i: nat)
    requires R == XiangqiSearch.XiangqiRules() && i < 4
    ensures ShuffleMove(i) in R.legal(ShuffleGrid(i), TurnAt(i))
    ensures R.apply(ShuffleGrid(i), ShuffleMove(i)) == ShuffleGrid(After4(i))
  {
    ShuffleLegal(i);
    XiangqiSearch.LegalMovesExact(ShuffleGrid(i), TurnAt(i), ShuffleMove(i));
    ShuffleGoesRound(i);
  }

  /** A search of the opening comes to the opening a third time at an inner node, where the draw
      branch is taken, from every root depth beyond 8; up to 8, at which the configured depths end,
      it never does. */
  lemma OpeningComesUpThrice(key: (Grid, Color) -> int, top: int)
    returns (path: seq<SearchSpec.Node>, n: SearchSpec.Node)
    requires top > SearchSpec.LARGEST_DEPTH
    ensures SearchSpec.Chain(XiangqiSearch.XiangqiRules(), path + [n])
    ensures path != [] && path[0] == SearchSpec.Node(InitialGrid(), Red, top)
    ensures n.depth > 0 && SearchSpec.SamePosition(n, path[0])
    ensures SearchSpec.Occurrences(key, path, key(n.g, n.side)) >= 2
  {
    var R := XiangqiSearch.XiangqiRules();
    var gs := seq(4, i requires 0 <= i < 4 => ShuffleGrid(i));
    var ms := seq(4, i requires 0 <= i < 4 => ShuffleMove(i));
    forall i | 0 <= i < 4
      ensures ms[i] in R.legal(gs[i], TurnAt(i)) && R.apply(gs[i], ms[i]) == gs[After4(i)]
    {
      ShuffleListed(R, i);
    }
    path, n := CycleComesUpThrice(R, key, gs, ms, top);
  }

  lemma CycleComesUpThrice(R: SearchSpec.Rules, key: (Grid, Color) -> int, gs: seq<Grid>, ms: seq<Move>, top: int)
    returns (path: seq<SearchSpec.Node>, n: SearchSpec.Node)
    requires |gs| == 4 && |ms| == 4 && top > SearchSpec.LARGEST_DEPTH
    requires forall i :: 0 <= i < 4 ==> ms[i] in R.legal(gs[i], TurnAt(i)) && R.apply(gs[i], ms[i]) == gs[After4(i)]
    ensures SearchSpec.Chain(R, path + [n])
    ensures path != [] && path[0] == SearchSpec.Node(gs[0], Red, top)
    ensures n.depth > 0 && SearchSpec.SamePosition(n, path[0])
    ensures SearchSpec.Occurrences(key, path, key(n.g, n.side)) >= 2
  {
    assert gs[1] == R.apply(gs[0], ms[0]) && gs[2] == R.apply(gs[1], ms[1]) && gs[3] == R.apply(gs[2], ms[2]);
    path, n := SearchSpec.ThirdOccurrenceDeeper(R, key, gs[0], Red, ms, top);
  }

  /** A path of a search of the opening to depth top that ends in an inner node with two earlier
      occurrences of its key, as the draw test asks. */
  ghost predicate CallsDraw(key: (Grid, Color) -> int, top: int, path: seq<SearchSpec.Node>, n: SearchSpec.Node) {
    && SearchSpec.Chain(XiangqiSearch.XiangqiRules(), path + [n])
    && (path + [n])[0] == SearchSpec.Node(InitialGrid(), Red, top)
    && n.depth > 0 && SearchSpec.Occurrences(key, path, key(n.g, n.side)) >= 2
  }

  ghost function AllNodes(): iset<SearchSpec.Node> {
    iset n: SearchSpec.Node | SearchSpec.SamePosition(n, n)
  }

  /** With keys that tell all positions apart the draw test can fire in a search of the opening
      exactly from root depth 9 on. */
  lemma OpeningDrawsBeyondEight(key: (Grid, Color) -> int, top: int)
    requires SearchSpec.NoCollision(key, AllNodes())
    ensures (exists path, n :: CallsDraw(key, top, path, n)) <==> top > SearchSpec.LARGEST_DEPTH
  {
    if top > SearchSpec.LARGEST_DEPTH {
      var path, n := OpeningComesUpThrice(key, top);
      assert CallsDraw(key, top, path, n);
    } else {
      XiangqiSearch.XiangqiIsLawful();
      forall path, n | CallsDraw(key, top, path, n)
        ensures false
      {
        SearchSpec.NoThirdOccurrence(XiangqiSearch.XiangqiRules(), key, AllNodes(), path, n);
      }
    }
  }
}
