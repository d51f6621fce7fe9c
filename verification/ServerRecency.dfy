/**
 * The table of StatelessServer against a list kept in the order of last use: a hit moves to the back, and what is
 * evicted is the front. Whatever the clock does without going back, the table follows the list exactly as long as no
 * miss meets a tie; under a strictly increasing clock it always does.
 */
module ServerRecency {
  import opened Server
  import opened ServerGuarantees

  /** The same instances, least recently used first. Being generic in T, its steps cannot look at when an instance was
      used: they go by position alone. */
  datatype Recency<T> = Recency(list: seq<Instance<T>>, tasks: seq<Task>)

  function AskAll<T>(tasks: seq<Task>, dropped: seq<Instance<T>>): (r: seq<Task>)
    ensures |r| == |tasks|
  {
    seq(|tasks|, k requires 0 <= k < |tasks| =>
      if exists i :: 0 <= i < |dropped| && dropped[i].task == k then Asked(tasks[k]) else tasks[k])
  }

  /** The list without its front n, whose tasks are asked to cancel. */
  function DropFront<T>(r: Recency<T>, n: nat): Recency<T>
    requires n <= |r.list|
  {
    Recency(r.list[n..], AskAll(r.tasks, r.list[..n]))
  }

  ghost predicate Good<T>(r: Recency<T>) {
    Distinct(r.list) && forall e <- r.list :: e.task < |r.tasks|
  }

  function ListStep<T(!new)>(r: Recency<T>, max: int, op: Op, stamp: T): (Recency<T>, Reply)
    requires Good(r)
  {
    match op
    case Get(id, _) =>
      var i := Find(r.list, id);
      if i < |r.list| then
        (r.(list := Without(r.list, i) + [r.list[i].(lastUsed := stamp)]), Queue(r.list[i].task))
      else
        var s := DropFront(r, Surplus(|r.list|, max));
        if max < 0 then (s, ValueError)
        else (Recency(s.list + [Instance(id, |s.tasks|, stamp)], s.tasks + [Running(false)]), Queue(|s.tasks|))
    case Delete(id) =>
      var i := Find(r.list, id);
      if i < |r.list| then (Recency(Without(r.list, i), AskAll(r.tasks, [r.list[i]])), Nothing) else (r, KeyError)
    case CheckerPass => (r.(list := Live(r.list, |r.list|, r.tasks)), Nothing)
    case Settle(_, _) => (r.(tasks := Settled(r.tasks, op)), Nothing)
  }

  ghost predicate Ascending(list: seq<Instance<int>>) {
    forall i, j :: 0 <= i < j < |list| ==> list[i].lastUsed <= list[j].lastUsed
  }

  /** List holds the same instances as entries, in the order of their last use. */
  ghost predicate Sorts(entries: seq<Instance<int>>, list: seq<Instance<int>>) {
    Distinct(entries) && Distinct(list) && Ascending(list) && forall e :: e in entries <==> e in list
  }

  ghost predicate Agree(t: Table, r: Recency<int>) {
    Sorts(t.entries, r.list) && t.tasks == r.tasks && Valid(t) && Good(r)
  }

  lemma SortsAppend(entries: seq<Instance<int>>, list: seq<Instance<int>>, e: Instance<int>)
    requires Sorts(entries, list)
    requires forall d <- entries :: d.lastUsed <= e.lastUsed && d.id != e.id && d.task != e.task
    ensures Sorts(entries + [e], list + [e])
  {
    assert forall d <- list :: d in entries;
  }

  lemma SortsWithout(entries: seq<Instance<int>>, i: nat, list: seq<Instance<int>>, j: nat)
    requires Sorts(entries, list) && i < |entries| && j < |list| && entries[i] == list[j]
    ensures Sorts(Without(entries, i), Without(list, j))
  {
    WithoutElements(entries, i);
    WithoutElements(list, j);
    WithoutAscends(list, j);
    WithoutIsDistinct(list, j);
    WithoutIsDistinct(entries, i);
  }

  lemma SortsHit(entries: seq<Instance<int>>, i: nat, list: seq<Instance<int>>, j: nat, now: int)
    requires Sorts(entries, list) && i < |entries| && j < |list| && entries[i] == list[j]
    requires forall e <- entries :: e.lastUsed <= now
    ensures
      var used := entries[i].(lastUsed := now);
      Sorts(entries[i := used], Without(list, j) + [used])
  {
    var used := entries[i].(lastUsed := now);
    SortsWithout(entries, i, list, j);
    WithoutElements(entries, i);
    forall e <- Without(entries, i) ensures e.id != used.id && e.task != used.task {
      var k :| 0 <= k < |entries| && entries[k] == e;
    }
    SortsAppend(Without(entries, i), Without(list, j), used);
    assert entries[i := used] == entries[..i] + [used] + entries[i + 1..];
  }

  /** No instance was used later than the clock says. */
  ghost predicate Before(t: Table, clock: int) {
    forall e <- t.entries :: e.lastUsed <= clock
  }

  /** No task in the table has been cancelled: a checker pass would fail on it. */
  ghost predicate Undisturbed(t: Table)
    requires Valid(t)
  {
    forall e <- t.entries :: t.tasks[e.task] != Done(Cancelled) && t.tasks[e.task] != Running(true)
  }

  lemma {:induction false} DistinctCounts(list: seq<Instance<int>>, e: Instance<int>)
    requires Distinct(list)
    ensures multiset(list)[e] == if e in list then 1 else 0
  {
    if list != [] {
      var last := |list| - 1;
      assert list == list[..last] + [list[last]];
      DistinctCounts(list[..last], e);
    }
  }

  lemma SameLength(entries: seq<Instance<int>>, list: seq<Instance<int>>)
    requires Sorts(entries, list)
    ensures |entries| == |list|
  {
    forall e: Instance<int> ensures multiset(entries)[e] == multiset(list)[e] {
      DistinctCounts(entries, e);
      DistinctCounts(list, e);
    }
    assert multiset(entries) == multiset(list);
    assert |multiset(entries)| == |multiset(list)|;
  }

  lemma SamePlace(t: Table, r: Recency<int>, id: ScopeId)
    requires Agree(t, r)
    ensures |t.entries| == |r.list|
    ensures Find(t.entries, id) < |t.entries| <==> Find(r.list, id) < |r.list|
    ensures Find(r.list, id) < |r.list| ==> t.entries[Find(t.entries, id)] == r.list[Find(r.list, id)]
  {
    SameLength(t.entries, r.list);
    var i, j := Find(t.entries, id), Find(r.list, id);
    if i < |t.entries| {
      assert t.entries[i] in r.list;
    }
    if j < |r.list| {
      assert r.list[j] in t.entries;
    }
  }

  lemma WithoutAscends(list: seq<Instance<int>>, j: nat)
    requires Ascending(list) && j < |list|
    ensures Ascending(Without(list, j))
  {
  }

  lemma AskOne(tasks: seq<Task>, d: Instance<int>)
    requires d.task < |tasks|
    ensures AskAll(tasks, [d]) == tasks[d.task := Asked(tasks[d.task])]
  {
    assert [d][0] == d;
  }

  lemma DeleteAgrees(t: Table, r: Recency<int>, i: nat, j: nat)
    requires Agree(t, r) && i < |t.entries| && j < |r.list| && t.entries[i] == r.list[j]
    ensures Agree(DeleteAt(t, i), Recency(Without(r.list, j), AskAll(r.tasks, [r.list[j]])))
  {
    SortsWithout(t.entries, i, r.list, j);
    WithoutElements(r.list, j);
    AskOne(r.tasks, r.list[j]);
  }

  // ---- eviction, and ties --------------------------------------------------------------

  /** No instance that the list keeps was inserted before one that it drops and was last used at the same reading. */
  ghost predicate Untied(entries: seq<Instance<int>>, list: seq<Instance<int>>, n: nat)
    requires n <= |list|
  {
    forall i, j :: 0 <= i < j < |entries| && entries[i].lastUsed == entries[j].lastUsed && entries[j] in list[..n] ==>
      entries[i] in list[..n]
  }

  ghost predicate SameElements(a: seq<Instance<int>>, b: seq<Instance<int>>) {
    forall e :: e in a <==> e in b
  }

  lemma Pigeonhole(a: seq<Instance<int>>, b: seq<Instance<int>>)
    requires Distinct(a) && Distinct(b) && |a| == |b| && forall e <- a :: e in b
    ensures SameElements(a, b)
  {
    forall e: Instance<int> ensures multiset(a)[e] <= multiset(b)[e] {
      DistinctCounts(a, e);
      DistinctCounts(b, e);
    }
    assert multiset(a) <= multiset(b);
    assert |multiset(b) - multiset(a)| == 0;
    forall e <- b ensures e in a {
      assert (multiset(b) - multiset(a))[e] == 0;
      assert e in multiset(b) && e in multiset(a);
    }
  }

  lemma InOnePart(list: seq<Instance<int>>, n: nat, j: nat)
    requires Distinct(list) && n <= |list| && j < |list|
    ensures list[j] in list[n..] <==> j >= n
    ensures list[j] in list[..n] <==> j < n
  {
    if j < n {
      assert list[..n][j] == list[j];
    } else {
      assert list[n..][j - n] == list[j];
    }
  }

  /** The list's front and the rest have nothing in common. */
  lemma FrontAndRest(list: seq<Instance<int>>, n: nat)
    requires Distinct(list) && n <= |list|
    ensures forall e <- list :: e in list[n..] <==> e !in list[..n]
    ensures Distinct(list[n..]) && forall e <- list[n..] :: e in list
  {
    forall e <- list ensures e in list[n..] <==> e !in list[..n] {
      var j :| 0 <= j < |list| && list[j] == e;
      InOnePart(list, n, j);
    }
  }

  /** If eviction keeps the list's rest there is no tie: what it takes is earlier than what it keeps. */
  lemma SameLeftIsUntied(t: Table, r: Recency<int>, max: int, n: nat)
    requires Agree(t, r) && n <= |r.list| && SameElements(Evict(t, max).entries, r.list[n..])
    ensures Untied(t.entries, r.list, n)
  {
    EvictionTakesTheOldest(t, max);
    FrontAndRest(r.list, n);
    forall i, j | 0 <= i < j < |t.entries|
                  && t.entries[i].lastUsed == t.entries[j].lastUsed && t.entries[j] in r.list[..n]
      ensures t.entries[i] in r.list[..n]
    {
      assert t.entries[i] in r.list && t.entries[j] in r.list;
      assert t.entries[j] !in Evict(t, max).entries;
      assert !Earlier(t.entries, j, i);
      assert t.entries[i] !in Evict(t, max).entries;
    }
  }

  /** Without a tie, everything in the front of the list is earlier than everything else. */
  lemma UntiedFrontIsEarlier(entries: seq<Instance<int>>, list: seq<Instance<int>>, n: nat, i: nat, j: nat)
    requires Sorts(entries, list) && n <= |list| && Untied(entries, list, n)
    requires i < |entries| && j < |entries| && entries[i] !in list[..n] && entries[j] in list[..n]
    ensures Earlier(entries, j, i)
  {
    assert entries[i] in entries && entries[j] in entries;
    var a :| 0 <= a < |list| && list[a] == entries[j];
    var b :| 0 <= b < |list| && list[b] == entries[i];
    InOnePart(list, n, a);
    InOnePart(list, n, b);
    assert list[a].lastUsed <= list[b].lastUsed;
  }

  /** Eviction keeps exactly what the list keeps, its front n having gone, if and only if there is no tie. */
  lemma EvictKeepsExactly(t: Table, r: Recency<int>, max: int, n: nat)
    requires Agree(t, r) && n == Surplus(|r.list|, max)
    ensures SameElements(Evict(t, max).entries, r.list[n..]) <==> Untied(t.entries, r.list, n)
  {
    if SameElements(Evict(t, max).entries, r.list[n..]) {
      SameLeftIsUntied(t, r, max, n);
    } else if Untied(t.entries, r.list, n) {
      UntiedIsSameLeft(t, r, max, n);
    }
  }

  /** Without a tie, eviction that leaves something of the front leaves all the rest. */
  lemma UntiedKeeps(t: Table, max: int, list: seq<Instance<int>>, n: nat, j: nat, e: Instance<int>)
    requires Valid(t) && Sorts(t.entries, list) && n <= |list| && Untied(t.entries, list, n)
    requires j < |t.entries| && t.entries[j] in list[..n] && e in t.entries && e !in list[..n]
    ensures t.entries[j] in Evict(t, max).entries ==> e in Evict(t, max).entries
  {
    var i :| 0 <= i < |t.entries| && t.entries[i] == e;
    UntiedFrontIsEarlier(t.entries, list, n, i, j);
    EvictionTakesTheOldest(t, max);
    assert !Earlier(t.entries, i, j);
  }

  lemma UntiedIsSameLeft(t: Table, r: Recency<int>, max: int, n: nat)
    requires Agree(t, r) && n == Surplus(|r.list|, max) && Untied(t.entries, r.list, n)
    ensures SameElements(Evict(t, max).entries, r.list[n..])
  {
    var left, rest := Evict(t, max).entries, r.list[n..];
    SameLength(t.entries, r.list);
    EvictionAsks(t, max);
    EvictIsPart(t, max);
    FrontAndRest(r.list, n);
    if d :| d in left && d !in rest {
      assert d in r.list;
      var j :| 0 <= j < |t.entries| && t.entries[j] == d;
      forall e <- rest ensures e in left {
        UntiedKeeps(t, max, r.list, n, j, e);
      }
      Pigeonhole(rest, left);
    } else {
      Pigeonhole(left, rest);
    }
  }

  /** The oldest entry is the front of the list if and only if no entry inserted before the front was last used at the
      same reading. */
  lemma OldestIsFrontExactly(t: Table, r: Recency<int>)
    requires Agree(t, r) && t.entries != [] && r.list != []
    ensures t.entries[Oldest(t.entries)] == r.list[0] <==>
      forall i :: 0 <= i < Find(t.entries, r.list[0].id) ==> t.entries[i].lastUsed != r.list[0].lastUsed
  {
    SamePlace(t, r, r.list[0].id);
    var k, f := Oldest(t.entries), Find(t.entries, r.list[0].id);
    assert r.list[0] in t.entries && t.entries[k] in r.list && t.entries[f] == r.list[0];
    var j :| 0 <= j < |r.list| && r.list[j] == t.entries[k];
    assert r.list[0].lastUsed <= r.list[j].lastUsed;
    assert t.entries[k].lastUsed == r.list[0].lastUsed;
    if t.entries[k] == r.list[0] {
      FindAt(t.entries, k);
    }
  }

  /** Without a tie, eviction takes exactly the front n of the recency list, n being the surplus. */
  lemma EvictAgrees(t: Table, r: Recency<int>, max: int, n: nat, u: Table, s: Recency<int>)
    requires Agree(t, r) && n == Surplus(|r.list|, max) && u == Evict(t, max) && s == DropFront(r, n)
    requires Untied(t.entries, r.list, n)
    ensures Agree(u, s)
  {
    EvictKeepsExactly(t, r, max, n);
    EvictionAsks(t, max);
    FrontAndRest(r.list, n);
    forall m | 0 <= m < |t.tasks| ensures u.tasks[m] == s.tasks[m] {
      EvictedIsFront(t, r, n, u, m);
    }
    assert u.tasks == s.tasks;
  }

  lemma EvictedIsFront(t: Table, r: Recency<int>, n: nat, u: Table, m: nat)
    requires Agree(t, r) && n <= |r.list| && SameElements(u.entries, r.list[n..])
    ensures Evicted(t, u, m) <==> exists i :: 0 <= i < |r.list[..n]| && r.list[..n][i].task == m
  {
    FrontAndRest(r.list, n);
    if d :| d in t.entries && d.task == m && d !in u.entries {
      assert d in r.list && d in r.list[..n];
    }
    if i :| 0 <= i < |r.list[..n]| && r.list[..n][i].task == m {
      assert r.list[..n][i] in r.list && r.list[..n][i] in t.entries;
    }
  }

  lemma HitAgrees(t: Table, r: Recency<int>, max: int, id: ScopeId, now: int, u: Table, s: Recency<int>)
    requires Agree(t, r) && Before(t, now) && Find(t.entries, id) < |t.entries|
    requires u == GetOrCreate(t, max, id, now).0 && s == ListStep(r, max, Get(id, now), now).0
    ensures Agree(u, s) && GetOrCreate(t, max, id, now).1 == ListStep(r, max, Get(id, now), now).1
  {
    SamePlace(t, r, id);
    SortsHit(t.entries, Find(t.entries, id), r.list, Find(r.list, id), now);
    WithoutElements(r.list, Find(r.list, id));
  }

  lemma LeftIsEarlier(t: Table, max: int, e: Instance<int>)
    requires Valid(t) && Before(t, e.lastUsed) && e.task == |t.tasks| && Find(t.entries, e.id) == |t.entries|
    ensures forall d <- Evict(t, max).entries :: d.lastUsed <= e.lastUsed && d.id != e.id && d.task != e.task
  {
    EvictIsPart(t, max);
  }

  lemma AppendAgrees(v: Table, q: Recency<int>, e: Instance<int>)
    requires Agree(v, q) && e.task == |v.tasks|
    requires forall d <- v.entries :: d.lastUsed <= e.lastUsed && d.id != e.id && d.task != e.task
    ensures Agree(Table(v.entries + [e], v.tasks + [Running(false)]), Recency(q.list + [e], q.tasks + [Running(false)]))
  {
    SortsAppend(v.entries, q.list, e);
  }

  lemma NewIsNowhere(t: Table, r: Recency<int>, max: int, n: nat, e: Instance<int>)
    requires Agree(t, r) && e.task == |t.tasks| && n <= |r.list|
    ensures e !in Evict(t, max).entries && e !in r.list[n..]
  {
    EvictIsPart(t, max);
    FrontAndRest(r.list, n);
  }

  /** A miss keeps table and list together if and only if there is no tie. */
  lemma MissAgreesExactly(t: Table, r: Recency<int>, max: int, id: ScopeId, now: int, u: Table, s: Recency<int>)
    requires Agree(t, r) && Before(t, now) && Find(t.entries, id) == |t.entries|
    requires u == GetOrCreate(t, max, id, now).0 && s == ListStep(r, max, Get(id, now), now).0
    ensures Agree(u, s) <==> Untied(t.entries, r.list, Surplus(|r.list|, max))
    ensures GetOrCreate(t, max, id, now).1 == ListStep(r, max, Get(id, now), now).1
  {
    SamePlace(t, r, id);
    var v, q, e := Evict(t, max), DropFront(r, Surplus(|r.list|, max)), Instance(id, |t.tasks|, now);
    if Untied(t.entries, r.list, Surplus(|r.list|, max)) {
      EvictAgrees(t, r, max, Surplus(|r.list|, max), v, q);
      LeftIsEarlier(t, max, e);
      AppendAgrees(v, q, e);
    } else if Agree(u, s) {
      NewIsNowhere(t, r, max, Surplus(|r.list|, max), e);
      if max >= 0 {
        SameBeforeAppend(v.entries, q.list, e);
      }
      EvictKeepsExactly(t, r, max, Surplus(|r.list|, max));
    }
  }

  lemma SameBeforeAppend(a: seq<Instance<int>>, b: seq<Instance<int>>, e: Instance<int>)
    requires SameElements(a + [e], b + [e]) && e !in a && e !in b
    ensures SameElements(a, b)
  {
    forall d: Instance<int> ensures d in a <==> d in b {
      assert d in a + [e] <==> d in a || d == e;
      assert d in b + [e] <==> d in b || d == e;
      assert d in a + [e] <==> d in b + [e];
    }
  }

  lemma {:induction false} LiveAscends(list: seq<Instance<int>>, n: nat, tasks: seq<Task>)
    requires Ascending(list) && n <= |list| && forall e <- list :: e.task < |tasks|
    ensures Ascending(Live(list, n, tasks))
  {
    if n > 0 {
      LiveAscends(list, n - 1, tasks);
      var live := Live(list, n - 1, tasks);
      assert forall i :: 0 <= i < |live| ==> live[i] in live;
    }
  }

  /** The live part of a list is as distinct as the list, and holds exactly what is live. */
  lemma LiveWhole(list: seq<Instance<int>>, tasks: seq<Task>, live: seq<Instance<int>>)
    requires Distinct(list) && (forall e <- list :: e.task < |tasks|) && live == Live(list, |list|, tasks)
    ensures Distinct(live) && forall e :: e in live <==> e in list && tasks[e.task].Running?
  {
    LiveElements(list, |list|, tasks);
    LiveIsDistinct(list, |list|, tasks);
    assert live + list[|list|..] == live;
  }

  lemma LiveSorts(entries: seq<Instance<int>>, list: seq<Instance<int>>, tasks: seq<Task>)
    requires Sorts(entries, list) && (forall e <- entries :: e.task < |tasks|) && forall e <- list :: e.task < |tasks|
    ensures Sorts(Live(entries, |entries|, tasks), Live(list, |list|, tasks))
  {
    LiveWhole(entries, tasks, Live(entries, |entries|, tasks));
    LiveWhole(list, tasks, Live(list, |list|, tasks));
    LiveAscends(list, |list|, tasks);
  }

  lemma CheckIsLive(t: Table)
    requires Valid(t) && Undisturbed(t)
    ensures Check(t) == (t.(entries := Live(t.entries, |t.entries|, t.tasks)), Nothing)
  {
    var n := |t.entries|;
    assert FirstStop(t.entries, t.tasks) == n;
    PassedIsLive(t.entries, n, t.tasks);
    assert Live(t.entries, n, t.tasks) + t.entries[n..] == Live(t.entries, n, t.tasks);
  }

  lemma CheckAgrees(t: Table, r: Recency<int>, max: int)
    requires Agree(t, r) && Undisturbed(t)
    ensures
      var ((u, a), (s, b)) := (Check(t), ListStep(r, max, CheckerPass, 0));
      Agree(u, s) && a == b
  {
    CheckIsLive(t);
    LiveSorts(t.entries, r.list, t.tasks);
    LiveWhole(t.entries, t.tasks, Live(t.entries, |t.entries|, t.tasks));
    LiveWhole(r.list, r.tasks, Live(r.list, |r.list|, r.tasks));
  }

  // ---- whole runs --------------------------------------------------------------------

  lemma ListHitKeepsGood<T>(r: Recency<T>, i: nat, stamp: T)
    requires Good(r) && i < |r.list|
    ensures Good(r.(list := Without(r.list, i) + [r.list[i].(lastUsed := stamp)]))
  {
    WithoutIsDistinct(r.list, i);
    WithoutElements(r.list, i);
    forall e <- Without(r.list, i) ensures e.id != r.list[i].id && e.task != r.list[i].task {
      var k :| 0 <= k < |r.list| && r.list[k] == e;
    }
    AppendIsDistinct(Without(r.list, i), r.list[i].(lastUsed := stamp));
  }

  lemma ListMissKeepsGood<T>(r: Recency<T>, n: nat, id: ScopeId, stamp: T)
    requires Good(r) && n <= |r.list| && forall e <- r.list :: e.id != id
    ensures Good(DropFront(r, n))
    ensures
      var s := DropFront(r, n);
      Good(Recency(s.list + [Instance(id, |s.tasks|, stamp)], s.tasks + [Running(false)]))
  {
    var s := DropFront(r, n);
    forall e <- s.list ensures e in r.list {}
    AppendIsDistinct(s.list, Instance(id, |s.tasks|, stamp));
  }

  lemma ListStepKeepsGood<T(!new)>(r: Recency<T>, max: int, op: Op, stamp: T)
    requires Good(r)
    ensures Good(ListStep(r, max, op, stamp).0)
  {
    match op
    case Get(id, _) =>
      if Find(r.list, id) < |r.list| {
        ListHitKeepsGood(r, Find(r.list, id), stamp);
      } else {
        ListMissKeepsGood(r, Surplus(|r.list|, max), id, stamp);
      }
    case Delete(id) =>
      if Find(r.list, id) < |r.list| {
        WithoutIsDistinct(r.list, Find(r.list, id));
        WithoutElements(r.list, Find(r.list, id));
      }
    case CheckerPass =>
      LiveElements(r.list, |r.list|, r.tasks);
      LiveIsDistinct(r.list, |r.list|, r.tasks);
      assert Live(r.list, |r.list|, r.tasks) + r.list[|r.list|..] == Live(r.list, |r.list|, r.tasks);
    case Settle(_, _) =>
  }

  function Stamp(op: Op): int {
    if op.Get? then op.now else 0
  }

  ghost function ListRun(r: Recency<int>, max: int, ops: seq<Op>): (Recency<int>, seq<Reply>)
    requires Good(r)
    decreases ops
  {
    if ops == [] then (r, [])
    else
      ListStepKeepsGood(r, max, ops[0], Stamp(ops[0]));
      var (s, reply) := ListStep(r, max, ops[0], Stamp(ops[0]));
      var (q, replies) := ListRun(s, max, ops[1..]);
      (q, [reply] + replies)
  }

  /** The clock never goes back, or reads later at every use if it is strict; and no task still in the table is
      cancelled by others. */
  ghost predicate Orderly(t: Table, max: int, ops: seq<Op>, clock: int, strict: bool)
    requires Inv(t, max)
    decreases ops
  {
    ops != [] ==>
      && Timely(t, ops[0], clock, strict)
      && (StepKeepsInv(t, max, ops[0]);
          Orderly(Step(t, max, ops[0]).0, max, ops[1..], Clock(ops[0], clock), strict))
  }

  predicate Timely(t: Table, op: Op, clock: int, strict: bool) {
    && (op.Get? ==> if strict then clock < op.now else clock <= op.now)
    && (op.Settle? && op.outcome == Cancelled && op.task < |t.tasks| ==> t.tasks[op.task] != Running(false))
  }

  function Clock(op: Op, clock: int): int {
    if op.Get? then op.now else clock
  }

  lemma GetKeepsOrder(t: Table, max: int, id: ScopeId, now: int, u: Table)
    requires Inv(t, max) && Undisturbed(t) && Before(t, now) && u == GetOrCreate(t, max, id, now).0 && Valid(u)
    ensures Undisturbed(u) && Before(u, now)
  {
    if Find(t.entries, id) == |t.entries| {
      EvictIsPart(t, max);
      EvictionAsks(t, max);
      var v := Evict(t, max);
      forall e <- v.entries ensures v.tasks[e.task] == t.tasks[e.task] {
        assert e in t.entries;
      }
    }
  }

  lemma DeleteKeepsOrder(t: Table, i: nat, clock: int)
    requires Valid(t) && Undisturbed(t) && Before(t, clock) && i < |t.entries|
    ensures Undisturbed(DeleteAt(t, i)) && Before(DeleteAt(t, i), clock)
  {
    var u := DeleteAt(t, i);
    WithoutElements(t.entries, i);
    forall e <- u.entries ensures u.tasks[e.task] == t.tasks[e.task] {
      assert e in t.entries && e != t.entries[i];
    }
  }

  lemma CheckKeepsOrder(t: Table, clock: int)
    requires Valid(t) && Undisturbed(t) && Before(t, clock) && Valid(Check(t).0)
    ensures Undisturbed(Check(t).0) && Before(Check(t).0, clock)
  {
    var n := |t.entries|;
    assert FirstStop(t.entries, t.tasks) == n;
    PassedIsLive(t.entries, n, t.tasks);
    LiveElements(t.entries, n, t.tasks);
    assert Check(t).0.entries == Live(t.entries, n, t.tasks);
  }

  lemma StepKeepsOrder(t: Table, max: int, op: Op, clock: int, strict: bool, u: Table)
    requires Inv(t, max) && Undisturbed(t) && Before(t, clock) && u == Step(t, max, op).0 && Inv(u, max)
    requires Timely(t, op, clock, strict)
    ensures Undisturbed(u) && Before(u, Clock(op, clock))
  {
    match op
    case Get(id, now) => GetKeepsOrder(t, max, id, now, u);
    case Delete(id) =>
      if Find(t.entries, id) < |t.entries| {
        DeleteKeepsOrder(t, Find(t.entries, id), clock);
      }
    case CheckerPass => CheckKeepsOrder(t, clock);
    case Settle(_, _) =>
  }

  /** The step is no miss that meets a tie. */
  ghost predicate StepUntied(t: Table, r: Recency<int>, max: int, op: Op) {
    op.Get? && Find(t.entries, op.id) == |t.entries| ==> Untied(t.entries, r.list, Surplus(|r.list|, max))
  }

  /** Under a clock that does not go back, a step keeps table and list together if and only if it is no miss that
      meets a tie. */
  lemma StepAgreesExactly(t: Table, r: Recency<int>, max: int, op: Op, u: Table, s: Recency<int>)
    requires Agree(t, r) && Undisturbed(t) && (op.Get? ==> Before(t, op.now))
    requires u == Step(t, max, op).0 && s == ListStep(r, max, op, Stamp(op)).0
    ensures Agree(u, s) <==> StepUntied(t, r, max, op)
    ensures Step(t, max, op).1 == ListStep(r, max, op, Stamp(op)).1
  {
    match op
    case Get(id, now) =>
      if Find(t.entries, id) < |t.entries| {
        HitAgrees(t, r, max, id, now, u, s);
      } else {
        MissAgreesExactly(t, r, max, id, now, u, s);
      }
    case Delete(id) =>
      SamePlace(t, r, id);
      if Find(t.entries, id) < |t.entries| {
        DeleteAgrees(t, r, Find(t.entries, id), Find(r.list, id));
      }
    case CheckerPass => CheckAgrees(t, r, max);
    case Settle(_, _) =>
  }

  /** Table and list agree after every operation of the run. */
  ghost predicate AgreeThroughout(t: Table, r: Recency<int>, max: int, ops: seq<Op>)
    requires Inv(t, max) && Good(r)
    decreases ops
  {
    Agree(t, r) && (ops != [] ==>
      (StepKeepsInv(t, max, ops[0]);
       ListStepKeepsGood(r, max, ops[0], Stamp(ops[0]));
       AgreeThroughout(Step(t, max, ops[0]).0, ListStep(r, max, ops[0], Stamp(ops[0])).0, max, ops[1..])))
  }

  /** No miss of the run meets a tie. */
  ghost predicate UntiedThroughout(t: Table, r: Recency<int>, max: int, ops: seq<Op>)
    requires Inv(t, max) && Good(r)
    decreases ops
  {
    ops != [] ==>
      StepUntied(t, r, max, ops[0]) &&
      (StepKeepsInv(t, max, ops[0]);
       ListStepKeepsGood(r, max, ops[0], Stamp(ops[0]));
       UntiedThroughout(Step(t, max, ops[0]).0, ListStep(r, max, ops[0], Stamp(ops[0])).0, max, ops[1..]))
  }

  /** Over a whole run under a clock that does not go back, the table is the recency list throughout if and only if no
      miss meets a tie. */
  lemma {:induction false} AgreeExactlyIfUntied(t: Table, r: Recency<int>, max: int, ops: seq<Op>, clock: int)
    requires Inv(t, max) && Agree(t, r) && Undisturbed(t) && Before(t, clock) && Orderly(t, max, ops, clock, false)
    ensures AgreeThroughout(t, r, max, ops) <==> UntiedThroughout(t, r, max, ops)
    decreases ops
  {
    if ops != [] {
      var op := ops[0];
      var u, s := Step(t, max, op).0, ListStep(r, max, op, Stamp(op)).0;
      StepKeepsInv(t, max, op);
      ListStepKeepsGood(r, max, op, Stamp(op));
      StepKeepsOrder(t, max, op, clock, false, u);
      StepAgreesExactly(t, r, max, op, u, s);
      if Agree(u, s) {
        AgreeExactlyIfUntied(u, s, max, ops[1..], Clock(op, clock));
      }
    }
  }

  /** All instances were last used at different readings. */
  ghost predicate NoTies(t: Table) {
    forall d <- t.entries, e <- t.entries :: d.lastUsed == e.lastUsed ==> d == e
  }

  lemma NoTiesIsUntied(t: Table, r: Recency<int>, n: nat)
    requires NoTies(t) && n <= |r.list|
    ensures Untied(t.entries, r.list, n)
  {
  }

  lemma StepKeepsNoTies(t: Table, max: int, op: Op, clock: int, u: Table)
    requires Inv(t, max) && Undisturbed(t) && Before(t, clock) && NoTies(t) && Timely(t, op, clock, true)
    requires u == Step(t, max, op).0
    ensures NoTies(u)
  {
    match op
    case Get(id, now) => EvictIsPart(t, max);
    case Delete(id) =>
      if Find(t.entries, id) < |t.entries| {
        WithoutElements(t.entries, Find(t.entries, id));
      }
    case CheckerPass =>
      PassedIsLive(t.entries, FirstStop(t.entries, t.tasks), t.tasks);
      LiveElements(t.entries, FirstStop(t.entries, t.tasks), t.tasks);
    case Settle(_, _) =>
  }

  /** Over a whole run under a strictly increasing clock, the table is the recency list, and every caller is answered as
      the list answers. */
  lemma {:induction false} TableIsRecencyList(t: Table, r: Recency<int>, max: int, ops: seq<Op>, clock: int)
    requires Inv(t, max) && Agree(t, r) && Undisturbed(t) && Before(t, clock) && NoTies(t)
    requires Orderly(t, max, ops, clock, true)
    ensures Agree(Run(t, max, ops).0, ListRun(r, max, ops).0)
    ensures Run(t, max, ops).1 == ListRun(r, max, ops).1
    decreases ops
  {
    if ops != [] {
      var op := ops[0];
      var u, s := Step(t, max, op).0, ListStep(r, max, op, Stamp(op)).0;
      StepKeepsInv(t, max, op);
      StepKeepsOrder(t, max, op, clock, true, u);
      StepKeepsNoTies(t, max, op, clock, u);
      NoTiesIsUntied(t, r, Surplus(|r.list|, max));
      StepAgreesExactly(t, r, max, op, u, s);
      TableIsRecencyList(u, s, max, ops[1..], Clock(op, clock));
    }
  }

  /** With two uses at the same clock reading, the instance evicted need not be the least recently used one: the first
      is used again after the second, which leaves no trace, and then it is the first that goes. */
  lemma TiesEvictTheWrongOne(t: Table, now: int, id: ScopeId)
    requires Valid(t) && |t.entries| == 2 && t.entries[0].lastUsed == t.entries[1].lastUsed == now
    requires Find(t.entries, id) == 2
    ensures GetOrCreate(t, 1, t.entries[0].id, now) == (t, Queue(t.entries[0].task))
    ensures GetOrCreate(t, 1, id, now).0.entries[0] == t.entries[1]
  {
    assert Find(t.entries, t.entries[0].id) == 0;
    assert t.entries[0 := t.entries[0].(lastUsed := now)] == t.entries;
    assert Oldest(t.entries) == 0;
    assert Evict(t, 1) == Evict(DeleteAt(t, 0), 1) == DeleteAt(t, 0);
  }
}
