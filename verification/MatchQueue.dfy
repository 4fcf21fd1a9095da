/** The matchmaking queue of match/match_queue.py and the loop that empties it. */
module MatchQueue {
  import opened Types

  datatype QueueEntry = QueueEntry(userId: int, username: string, rating: int, joinedAt: real)

  // ----- Lists of entries -----

  ghost predicate Sorted(es: seq<QueueEntry>) {
    forall i, j :: 0 <= i < j < |es| ==> es[i].rating <= es[j].rating
  }

  ghost predicate UniqueIds(es: seq<QueueEntry>) {
    forall i, j :: 0 <= i < j < |es| ==> es[i].userId != es[j].userId
  }

  /** The map holds the entries of the list, each under its own id, and nothing else. */
  ghost predicate Agree(es: seq<QueueEntry>, users: map<int, QueueEntry>) {
    && (forall e :: e in es ==> e.userId in users && users[e.userId] == e)
    && (forall id :: id in users ==> users[id] in es && users[id].userId == id)
  }

  /** e goes behind everyone of its rating or less. */
  function Inserted(es: seq<QueueEntry>, e: QueueEntry): seq<QueueEntry> {
    if es == [] || es[|es| - 1].rating <= e.rating then es + [e]
    else Inserted(es[..|es| - 1], e) + [es[|es| - 1]]
  }

  /** The library's stable sort by rating. */
  function SortByRating(es: seq<QueueEntry>): seq<QueueEntry> {
    if es == [] then [] else Inserted(SortByRating(es[..|es| - 1]), es[|es| - 1])
  }

  lemma InsertedLast(es: seq<QueueEntry>, k: nat)
    requires Sorted(es) && k < |es|
    ensures Inserted(es[..k], es[k]) == es[..k + 1]
  {
    assert es[..k + 1] == es[..k] + [es[k]];
  }

  lemma {:induction false} SortedStays(es: seq<QueueEntry>, n: nat)
    requires Sorted(es) && n <= |es|
    ensures SortByRating(es[..n]) == es[..n]
  {
    if n > 0 {
      SortedStays(es, n - 1);
      InsertedLast(es, n - 1);
      assert es[..n][..n - 1] == es[..n - 1];
    }
  }

  lemma SortedSnoc(es: seq<QueueEntry>, e: QueueEntry)
    requires Sorted(es) && forall x :: x in es ==> x.rating <= e.rating
    ensures Sorted(es + [e])
  {
    forall i | 0 <= i < |es|
      ensures (es + [e])[i].rating <= e.rating
    {
      assert es[i] in es;
    }
  }

  lemma {:induction false} InsertedMembers(es: seq<QueueEntry>, e: QueueEntry)
    ensures multiset(Inserted(es, e)) == multiset(es) + multiset{e}
  {
    if es != [] && es[|es| - 1].rating > e.rating {
      var front, last := es[..|es| - 1], es[|es| - 1];
      InsertedMembers(front, e);
      assert es == front + [last];
    }
  }

  lemma InsertedMember(es: seq<QueueEntry>, e: QueueEntry, x: QueueEntry)
    ensures x in Inserted(es, e) <==> x in es || x == e
  {
    InsertedMembers(es, e);
    assert x in Inserted(es, e) <==> x in multiset(Inserted(es, e));
    assert x in es <==> x in multiset(es);
  }

  lemma {:induction false} InsertedSorted(es: seq<QueueEntry>, e: QueueEntry)
    requires Sorted(es)
    ensures Sorted(Inserted(es, e))
  {
    if es == [] || es[|es| - 1].rating <= e.rating {
      SortedSnoc(es, e);
    } else {
      var front, last := es[..|es| - 1], es[|es| - 1];
      InsertedSorted(front, e);
      forall x | x in Inserted(front, e)
        ensures x.rating <= last.rating
      {
        InsertedMember(front, e, x);
      }
      SortedSnoc(Inserted(front, e), last);
    }
  }

  /** The list without the first entry equal to e. */
  function Without(es: seq<QueueEntry>, e: QueueEntry): seq<QueueEntry> {
    if es == [] then [] else if es[0] == e then es[1..] else [es[0]] + Without(es[1..], e)
  }

  lemma {:induction false} WithoutAt(es: seq<QueueEntry>, e: QueueEntry, k: nat)
    requires k < |es| && es[k] == e && e !in es[..k]
    ensures Without(es, e) == es[..k] + es[k + 1..]
  {
    if k > 0 {
      assert es[0] == es[..k][0] && es[1..][..k - 1] == es[..k][1..];
      WithoutAt(es[1..], e, k - 1);
    }
  }

  lemma {:induction false} InsertedAt(es: seq<QueueEntry>, e: QueueEntry) returns (k: nat)
    ensures k <= |es| && Inserted(es, e) == es[..k] + [e] + es[k..]
  {
    if es == [] || es[|es| - 1].rating <= e.rating {
      k := |es|;
    } else {
      k := InsertedAt(es[..|es| - 1], e);
      assert es[..|es| - 1][..k] == es[..k];
      assert es[k..] == es[..|es| - 1][k..] + [es[|es| - 1]];
    }
  }

  lemma InsertedUnique(es: seq<QueueEntry>, e: QueueEntry)
    requires UniqueIds(es) && forall x :: x in es ==> x.userId != e.userId
    ensures UniqueIds(Inserted(es, e))
  {
    var k := InsertedAt(es, e);
    forall i | 0 <= i < |es|
      ensures es[i].userId != e.userId
    {
      assert es[i] in es;
    }
  }

  lemma CutOut(es: seq<QueueEntry>, k: nat)
    requires Sorted(es) && UniqueIds(es) && k < |es|
    ensures var rest := es[..k] + es[k + 1..];
      Sorted(rest) && UniqueIds(rest) && multiset(es) == multiset(rest) + multiset{es[k]} && es[k] !in rest
  {
    assert es == es[..k] + [es[k]] + es[k + 1..];
  }

  /** Removing an entry keeps the order and the other entries. */
  lemma WithoutKeeps(es: seq<QueueEntry>, e: QueueEntry)
    requires Sorted(es) && UniqueIds(es) && e in es
    ensures Sorted(Without(es, e)) && UniqueIds(Without(es, e)) && e !in Without(es, e)
    ensures multiset(es) == multiset(Without(es, e)) + multiset{e}
  {
    var k :| 0 <= k < |es| && es[k] == e;
    WithoutAt(es, e, k);
    CutOut(es, k);
  }

  /** Taking out neighbours closes the line behind them. */
  lemma TakenOut(es: seq<QueueEntry>, i: nat)
    requires UniqueIds(es) && i + 1 < |es|
    ensures Without(Without(es, es[i]), es[i + 1]) == es[..i] + es[i + 2..]
  {
    var rest := es[..i] + es[i + 1..];
    WithoutAt(es, es[i], i);
    assert rest[..i] == es[..i] && rest[i] == es[i + 1];
    WithoutAt(rest, es[i + 1], i);
  }

  lemma WithoutMember(es: seq<QueueEntry>, e: QueueEntry, x: QueueEntry)
    requires Sorted(es) && UniqueIds(es) && e in es
    ensures x in Without(es, e) <==> x in es && x != e
  {
    WithoutKeeps(es, e);
    assert x in es <==> x in multiset(es);
    assert x in Without(es, e) <==> x in multiset(Without(es, e));
  }

  lemma JoinAgrees(es: seq<QueueEntry>, users: map<int, QueueEntry>, e: QueueEntry)
    requires Agree(es, users) && e.userId !in users
    ensures Agree(Inserted(es, e), users[e.userId := e])
  {
    forall x {
      InsertedMember(es, e, x);
    }
  }

  lemma LeaveAgrees(es: seq<QueueEntry>, users: map<int, QueueEntry>, e: QueueEntry)
    requires Sorted(es) && UniqueIds(es) && Agree(es, users) && e in es
    ensures Agree(Without(es, e), users - {e.userId})
  {
    forall x {
      WithoutMember(es, e, x);
    }
  }

  // ----- Pairs within range -----

  /** Truncation towards zero. */
  function Trunc(x: real): int {
    if x >= 0.0 then x.Floor else -(-x).Floor
  }

  /** The search settings of one call. */
  datatype Range = Range(eloRange: int, expandRate: int, expandInterval: int)

  /** How far from an entry's rating its partner may be: wider the longer it has waited, up to four
      times the base. */
  function Reach(range: Range, now: real, e: QueueEntry): int
    requires range.expandInterval != 0
  {
    var grown := range.eloRange + Trunc((now - e.joinedAt) / range.expandInterval as real) * range.expandRate;
    if grown <= range.eloRange * 4 then grown else range.eloRange * 4
  }

  /** While a wait lies in its k-th interval, a wait that has just begun or that a clock set back
      makes slightly negative in the 0-th, the reach is the base plus k expansions, up to the cap. */
  lemma ReachInInterval(range: Range, now: real, e: QueueEntry, k: nat)
    requires range.expandInterval > 0
    requires var interval := range.expandInterval as real; var wait := now - e.joinedAt;
      (if k == 0 then -interval else k as real * interval) < wait < (k + 1) as real * interval
        || wait == k as real * interval
    ensures Reach(range, now, e) == if range.eloRange + k * range.expandRate <= range.eloRange * 4
                                    then range.eloRange + k * range.expandRate else range.eloRange * 4
  {
    IntervalIndex(now - e.joinedAt, range.expandInterval as real, k);
  }

  lemma IntervalIndex(wait: real, interval: real, k: nat)
    requires interval > 0.0
    requires (if k == 0 then -interval else k as real * interval) < wait < (k + 1) as real * interval
      || wait == k as real * interval
    ensures Trunc(wait / interval) == k
  {
    var q := wait / interval;
    assert wait == q * interval;
    if wait == k as real * interval {
      Cancels(q, k as real, interval);
    } else {
      Below(q, (k + 1) as real, interval);
      Below(if k == 0 then -1.0 else k as real, q, interval);
    }
  }

  lemma Below(a: real, b: real, f: real)
    requires f > 0.0 && a * f < b * f
    ensures a < b
  {
    if a >= b {
      Multiplied(b, a, f);
    }
  }

  lemma Multiplied(a: real, b: real, f: real)
    requires f > 0.0 && a <= b
    ensures a * f <= b * f
  {
    assert (b - a) * f >= 0.0;
  }

  lemma Cancels(a: real, b: real, f: real)
    requires f > 0.0 && a * f == b * f
    ensures a == b
  {
    assert (a - b) * f == 0.0;
  }

  function Diff(a: QueueEntry, b: QueueEntry): int {
    if a.rating >= b.rating then a.rating - b.rating else b.rating - a.rating
  }

  /** The i-th entry accepts the later j-th as a partner. */
  predicate Eligible(es: seq<QueueEntry>, range: Range, now: real, i: int, j: int)
    requires range.expandInterval != 0
  {
    0 <= i < j < |es| && Diff(es[i], es[j]) <= Reach(range, now, es[i])
  }

  /** In a sorted list whoever accepts anyone accepts the next in line, who is at least as close. */
  lemma NextIsCloser(es: seq<QueueEntry>, range: Range, now: real, i: int, j: int)
    requires Sorted(es) && range.expandInterval != 0 && Eligible(es, range, now, i, j)
    ensures Eligible(es, range, now, i, i + 1) && Diff(es[i], es[i + 1]) <= Diff(es[i], es[j])
  {
  }

  /** The order in which pairs are looked at. */
  predicate Before(i: int, j: int, k: int, l: int) {
    i < k || (i == k && j < l)
  }

  ghost predicate Beats(es: seq<QueueEntry>, i: int, j: int, k: int, l: int)
    requires 0 <= i < |es| && 0 <= j < |es| && 0 <= k < |es| && 0 <= l < |es|
  {
    Diff(es[i], es[j]) < Diff(es[k], es[l]) || (Diff(es[i], es[j]) == Diff(es[k], es[l]) && !Before(k, l, i, j))
  }

  /** Of the eligible pairs looked at before (k, l), (i, j) is the closest, and the first such. */
  ghost predicate BestBefore(es: seq<QueueEntry>, range: Range, now: real, i: int, j: int, k: int, l: int)
    requires range.expandInterval != 0
  {
    && Eligible(es, range, now, i, j) && Before(i, j, k, l)
    && forall x, y :: Eligible(es, range, now, x, y) && Before(x, y, k, l) ==> Beats(es, i, j, x, y)
  }

  ghost predicate NoneBefore(es: seq<QueueEntry>, range: Range, now: real, k: int, l: int)
    requires range.expandInterval != 0
  {
    forall x, y :: Eligible(es, range, now, x, y) ==> !Before(x, y, k, l)
  }

  /** Of all eligible pairs (i, j) is the closest, and the first such in line. */
  ghost predicate Closest(es: seq<QueueEntry>, range: Range, now: real, i: int, j: int)
    requires range.expandInterval != 0
  {
    && Eligible(es, range, now, i, j)
    && forall x, y :: Eligible(es, range, now, x, y) ==> Beats(es, i, j, x, y)
  }

  ghost predicate NoneEligible(es: seq<QueueEntry>, range: Range, now: real)
    requires range.expandInterval != 0
  {
    forall x, y :: !Eligible(es, range, now, x, y)
  }

  /** The closest pair in a sorted list are neighbours. */
  lemma ClosestAreNeighbours(es: seq<QueueEntry>, range: Range, now: real, i: int, j: int)
    requires Sorted(es) && range.expandInterval != 0 && Closest(es, range, now, i, j)
    ensures j == i + 1
  {
    NextIsCloser(es, range, now, i, j);
    assert Beats(es, i, j, i, i + 1);
  }

  /** The closest pair found so far, by place in line. */
  datatype Best = NoPair | Pair(i: nat, j: nat, diff: int)

  ghost predicate BestSoFar(es: seq<QueueEntry>, range: Range, now: real, best: Best, k: int, l: int)
    requires range.expandInterval != 0
  {
    match best
    case NoPair => NoneBefore(es, range, now, k, l)
    case Pair(i, j, diff) => BestBefore(es, range, now, i, j, k, l) && diff == Diff(es[i], es[j])
  }

  lemma LookedAt(es: seq<QueueEntry>, range: Range, now: real, best: Best, k: int, l: int)
    requires range.expandInterval != 0 && Eligible(es, range, now, k, l) && BestSoFar(es, range, now, best, k, l)
    ensures var diff := Diff(es[k], es[l]);
      BestSoFar(es, range, now, if best.NoPair? || diff < best.diff then Pair(k, l, diff) else best, k, l + 1)
  {
  }

  /** Behind an entry out of reach everyone is out of reach. */
  lemma RestOutOfReach(es: seq<QueueEntry>, range: Range, now: real, best: Best, k: int, l: int)
    requires Sorted(es) && range.expandInterval != 0 && 0 <= k < l && BestSoFar(es, range, now, best, k, l)
    requires l >= |es| || !Eligible(es, range, now, k, l)
    ensures BestSoFar(es, range, now, best, k + 1, k + 2)
  {
    forall x, y | Eligible(es, range, now, x, y) && Before(x, y, k + 1, k + 2)
      ensures Before(x, y, k, l)
    {
    }
  }

  // ----- The queue -----

  class MatchQueue {
    var entries: seq<QueueEntry>
    var userMap: map<int, QueueEntry>

    ghost predicate Valid()
      reads this
    {
      Sorted(entries) && UniqueIds(entries) && Agree(entries, userMap)
    }

    constructor ()
      ensures Valid() && entries == [] && userMap == map[]
    {
      entries, userMap := [], map[];
    }

    method Join(entry: QueueEntry) returns (ok: bool)
      requires Valid()
      modifies this
      ensures Valid()
      ensures ok == (entry.userId !in old(userMap))
      ensures entries == (if ok then Inserted(old(entries), entry) else old(entries))
      ensures userMap == (if ok then old(userMap)[entry.userId := entry] else old(userMap))
    {
      if entry.userId in userMap {
        return false;
      }
      JoinAgrees(entries, userMap, entry);
      InsertedSorted(entries, entry);
      InsertedUnique(entries, entry);
      SortedStays(entries, |entries|);
      assert entries[..|entries|] == entries && (entries + [entry])[..|entries|] == entries;
      userMap := userMap[entry.userId := entry];
      entries := SortByRating(entries + [entry]);
      return true;
    }

    method Leave(userId: int) returns (left: Option<QueueEntry>)
      requires Valid()
      modifies this
      ensures Valid()
      ensures left == if userId in old(userMap) then Some(old(userMap)[userId]) else None
      ensures userMap == old(userMap) - {userId}
      ensures entries == if left.Some? then Without(old(entries), left.value) else old(entries)
      ensures left.Some? ==> multiset(old(entries)) == multiset(entries) + multiset{left.value}
    {
      left := None;
      if userId in userMap {
        left := Some(userMap[userId]);
        LeaveAgrees(entries, userMap, left.value);
        WithoutKeeps(entries, left.value);
        entries := Without(entries, left.value);
      }
      userMap := userMap - {userId};
    }

    /** The scan for the closest pair: a row stops at the first entry out of reach. */
    method FindBest(range: Range, now: real) returns (best: Best)
      requires Sorted(entries) && range.expandInterval != 0
      ensures best.NoPair? ==> NoneEligible(entries, range, now)
      ensures best.Pair? ==> Closest(entries, range, now, best.i, best.j)
    {
      best := NoPair;
      for i := 0 to |entries|
        invariant BestSoFar(entries, range, now, best, i, i + 1)
      {
        best := ScanRow(range, now, i, best);
      }
    }

    method ScanRow(range: Range, now: real, i: nat, before: Best) returns (best: Best)
      requires Sorted(entries) && range.expandInterval != 0 && i < |entries|
      requires BestSoFar(entries, range, now, before, i, i + 1)
      ensures BestSoFar(entries, range, now, best, i + 1, i + 2)
    {
      best := before;
      var reach := Reach(range, now, entries[i]);
      var j := i + 1;
      while j < |entries|
        invariant i < j
        invariant BestSoFar(entries, range, now, best, i, j)
      {
        var diff := Diff(entries[i], entries[j]);
        if diff > reach {
          break;
        }
        LookedAt(entries, range, now, best, i, j);
        if best.NoPair? || diff < best.diff {
          best := Pair(i, j, diff);
        }
        j := j + 1;
      }
      RestOutOfReach(entries, range, now, best, i, j);
    }

    method RemovePair(a: QueueEntry, b: QueueEntry)
      requires Valid() && a in entries && b in entries && a.userId != b.userId
      modifies this
      ensures Valid()
      ensures multiset(old(entries)) == multiset(entries) + multiset{a, b}
      ensures userMap == old(userMap) - {a.userId} - {b.userId}
      ensures entries == Without(Without(old(entries), a), b)
    {
      WithoutMember(entries, a, b);
      var _ := Leave(a.userId);
      var _ := Leave(b.userId);
    }

    /** Takes the closest pair within range out of the queue: the neighbours (i, i + 1) with the
        least difference, the first such in line; none if no pair is within range. */
    method FindMatch(range: Range, now: real) returns (found: Option<(QueueEntry, QueueEntry)>, ghost i: nat)
      requires Valid() && range.expandInterval != 0
      modifies this
      ensures Valid()
      ensures found.None? <==> NoneEligible(old(entries), range, now)
      ensures found.None? ==> entries == old(entries) && userMap == old(userMap)
      ensures found.Some? ==>
        Closest(old(entries), range, now, i, i + 1) && found.value == (old(entries)[i], old(entries)[i + 1])
      ensures found.Some? ==> entries == old(entries)[..i] + old(entries)[i + 2..]
      ensures found.Some? ==> multiset(old(entries)) == multiset(entries) + multiset{found.value.0, found.value.1}
      ensures found.Some? ==> userMap == old(userMap) - {found.value.0.userId} - {found.value.1.userId}
    {
      found, i := None, 0;
      if |entries| < 2 {
        return;
      }
      var best := FindBest(range, now);
      if best.Pair? {
        i := best.i;
        ClosestAreNeighbours(entries, range, now, best.i, best.j);
        var a, b := entries[best.i], entries[best.j];
        TakenOut(entries, best.i);
        RemovePair(a, b);
        found := Some((a, b));
      }
    }
  }

  /** Everyone in a list of pairs. */
  function Members(pairs: seq<(QueueEntry, QueueEntry)>): multiset<QueueEntry> {
    if pairs == [] then multiset{}
    else Members(pairs[..|pairs| - 1]) + multiset{pairs[|pairs| - 1].0, pairs[|pairs| - 1].1}
  }

  /** In ratings: the partner is rated at least as high, within the reach of the first. */
  predicate Fits(range: Range, now: real, pair: (QueueEntry, QueueEntry))
    requires range.expandInterval != 0
  {
    0 <= pair.1.rating - pair.0.rating <= Reach(range, now, pair.0)
  }

  lemma ClosestFits(es: seq<QueueEntry>, range: Range, now: real, i: nat)
    requires Sorted(es) && range.expandInterval != 0 && Closest(es, range, now, i, i + 1)
    ensures Fits(range, now, (es[i], es[i + 1]))
  {
  }

  /** The pair is the closest, and the first such, in one queue, and leaves the other. */
  ghost predicate TakenFrom(es: seq<QueueEntry>, rest: seq<QueueEntry>, range: Range, now: real, i: nat,
                            pair: (QueueEntry, QueueEntry))
    requires range.expandInterval != 0
  {
    && Closest(es, range, now, i, i + 1) && pair == (es[i], es[i + 1]) && rest == es[..i] + es[i + 2..]
    && Fits(range, now, pair)
  }

  /** Each pair was taken from the queue that the pairs before it left. */
  ghost predicate Drained(queues: seq<seq<QueueEntry>>, places: seq<nat>, pairs: seq<(QueueEntry, QueueEntry)>,
                          range: Range, clock: nat -> real)
    requires range.expandInterval != 0
  {
    && |places| == |pairs| && |queues| == |pairs| + 1
    && forall k :: 0 <= k < |pairs| ==> TakenFrom(queues[k], queues[k + 1], range, clock(k), places[k], pairs[k])
  }

  lemma OneMoreTaken(queues: seq<seq<QueueEntry>>, places: seq<nat>, pairs: seq<(QueueEntry, QueueEntry)>,
                     range: Range, clock: nat -> real, rest: seq<QueueEntry>, i: nat, pair: (QueueEntry, QueueEntry))
    requires range.expandInterval != 0 && Drained(queues, places, pairs, range, clock)
    requires TakenFrom(queues[|pairs|], rest, range, clock(|pairs|), i, pair)
    ensures Drained(queues + [rest], places + [i], pairs + [pair], range, clock)
  {
  }

  lemma TakenMembers(es: seq<QueueEntry>, rest: seq<QueueEntry>, i: nat, pair: (QueueEntry, QueueEntry))
    requires i + 1 < |es| && pair == (es[i], es[i + 1]) && rest == es[..i] + es[i + 2..]
    ensures multiset(es) == multiset(rest) + multiset{pair.0, pair.1}
  {
    assert es == es[..i] + [es[i]] + [es[i + 1]] + es[i + 2..];
  }

  /** Everyone who waited is in one pair or still waits. */
  lemma {:induction false} DrainedMembers(queues: seq<seq<QueueEntry>>, places: seq<nat>,
                                          pairs: seq<(QueueEntry, QueueEntry)>, range: Range, clock: nat -> real)
    requires range.expandInterval != 0 && Drained(queues, places, pairs, range, clock)
    ensures multiset(queues[0]) == multiset(queues[|pairs|]) + Members(pairs)
    decreases |pairs|
  {
    if pairs != [] {
      var n := |pairs| - 1;
      assert TakenFrom(queues[n], queues[n + 1], range, clock(n), places[n], pairs[n]);
      DrainedMembers(queues[..n + 1], places[..n], pairs[..n], range, clock);
      TakenMembers(queues[n], queues[n + 1], places[n], pairs[n]);
    }
  }

  lemma DrainedFits(queues: seq<seq<QueueEntry>>, places: seq<nat>, pairs: seq<(QueueEntry, QueueEntry)>,
                    range: Range, clock: nat -> real)
    requires range.expandInterval != 0 && Drained(queues, places, pairs, range, clock)
    ensures forall k :: 0 <= k < |pairs| ==> Fits(range, clock(k), pairs[k])
  {
    forall k | 0 <= k < |pairs|
      ensures Fits(range, clock(k), pairs[k])
    {
      assert TakenFrom(queues[k], queues[k + 1], range, clock(k), places[k], pairs[k]);
    }
  }

  /** One tick of the service: pairs are taken out until fewer than two wait or none fit. clock
      gives the time of each search. Each pair is the closest in what the pairs before it left and
      within the reach of its first member; everyone who waited is matched once or still waits. */
  method ProcessMatches(queue: MatchQueue, range: Range, clock: nat -> real)
    returns (pairs: seq<(QueueEntry, QueueEntry)>, ghost queues: seq<seq<QueueEntry>>, ghost places: seq<nat>)
    requires queue.Valid() && range.expandInterval != 0
    modifies queue
    ensures queue.Valid()
    ensures multiset(old(queue.entries)) == multiset(queue.entries) + Members(pairs)
    ensures NoneEligible(queue.entries, range, clock(|pairs|))
    ensures forall k :: 0 <= k < |pairs| ==> Fits(range, clock(k), pairs[k])
    ensures Drained(queues, places, pairs, range, clock)
    ensures queues[0] == old(queue.entries) && queues[|pairs|] == queue.entries
  {
    pairs, queues, places := [], [queue.entries], [];
    while |queue.entries| >= 2
      invariant queue.Valid()
      invariant Drained(queues, places, pairs, range, clock)
      invariant queues[0] == old(queue.entries) && queues[|pairs|] == queue.entries
      decreases |queue.entries|
    {
      ghost var before := queue.entries;
      var found, i := queue.FindMatch(range, clock(|pairs|));
      if found.None? {
        break;
      }
      ClosestFits(before, range, clock(|pairs|), i);
      OneMoreTaken(queues, places, pairs, range, clock, queue.entries, i, found.value);
      pairs, queues, places := pairs + [found.value], queues + [queue.entries], places + [i];
    }
    DrainedMembers(queues, places, pairs, range, clock);
    DrainedFits(queues, places, pairs, range, clock);
  }
}
