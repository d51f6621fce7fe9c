/** What every run of StatelessServer keeps, no orphan tasks and the bound, and what eviction takes. */
module ServerGuarantees {
  import opened Contexts
  import opened Server

  // ---- dropping one instance ---------------------------------------------------------

  /** Dropping the element at i leaves exactly the others. */
  lemma WithoutElements<T>(list: seq<Instance<T>>, i: nat)
    requires i < |list| && Distinct(list)
    ensures list[i] !in Without(list, i)
    ensures forall e <- Without(list, i) :: e in list
    ensures forall e <- list :: e == list[i] || e in Without(list, i)
  {
    forall e <- list ensures e == list[i] || e in Without(list, i) {
      var j :| 0 <= j < |list| && list[j] == e;
      if j != i {
        assert Without(list, i)[if j < i then j else j - 1] == e;
      }
    }
  }

  lemma WithoutIsDistinct<T>(list: seq<Instance<T>>, i: nat)
    requires i < |list| && Distinct(list)
    ensures Distinct(Without(list, i))
  {
  }

  // ---- runs --------------------------------------------------------------------------

  /** Settle is the event loop finishing a task, in any way, at any time. */
  datatype Op = Get(id: ScopeId, now: int) | Delete(id: ScopeId) | CheckerPass | Settle(task: nat, outcome: Outcome)

  function Settled(tasks: seq<Task>, op: Op): seq<Task>
    requires op.Settle?
  {
    if op.task < |tasks| && tasks[op.task].Running? then tasks[op.task := Done(op.outcome)] else tasks
  }

  function Step(t: Table, max: int, op: Op): (Table, Reply)
    requires Valid(t)
  {
    match op
    case Get(id, now) => GetOrCreate(t, max, id, now)
    case Delete(id) =>
      var i := Find(t.entries, id);
      if i < |t.entries| then (DeleteAt(t, i), Nothing) else (t, KeyError)
    case CheckerPass => Check(t)
    case Settle(_, _) => (t.(tasks := Settled(t.tasks, op)), Nothing)
  }

  // ---- no orphans, and the bound -----------------------------------------------------

  /** Every task ever created is in the table, done, or asked to cancel. */
  ghost predicate Owned(t: Table) {
    forall k :: 0 <= k < |t.tasks| ==> t.tasks[k] != Running(false) || exists e <- t.entries :: e.task == k
  }

  /** The most instances the table ever holds: one more than max_applications. */
  function Bound(max: int): nat {
    if max < 0 then 0 else max + 1
  }

  ghost predicate Inv(t: Table, max: int) {
    Valid(t) && Owned(t) && |t.entries| <= Bound(max)
  }

  lemma DeleteKeepsOwned(t: Table, i: nat)
    requires Valid(t) && Owned(t) && i < |t.entries|
    ensures Owned(DeleteAt(t, i))
  {
    var u := DeleteAt(t, i);
    WithoutElements(t.entries, i);
    forall k | 0 <= k < |u.tasks| && u.tasks[k] == Running(false) ensures exists e <- u.entries :: e.task == k {
      var e :| e in t.entries && e.task == k;
      assert e in u.entries;
    }
  }

  lemma {:induction false} EvictKeepsOwned(t: Table, max: int)
    requires Valid(t) && Owned(t)
    ensures Owned(Evict(t, max))
    decreases |t.entries|
  {
    if |t.entries| > max && t.entries != [] {
      DeleteKeepsOwned(t, Oldest(t.entries));
      EvictKeepsOwned(DeleteAt(t, Oldest(t.entries)), max);
    }
  }

  lemma {:induction false} LiveElements<T(!new)>(list: seq<Instance<T>>, n: nat, tasks: seq<Task>)
    requires n <= |list| && forall e <- list :: e.task < |tasks|
    ensures |Live(list, n, tasks)| <= n
    ensures forall e <- Live(list, n, tasks) :: e in list && tasks[e.task].Running?
    ensures forall j :: 0 <= j < n && tasks[list[j].task].Running? ==> list[j] in Live(list, n, tasks)
  {
    if n > 0 {
      LiveElements(list, n - 1, tasks);
    }
  }

  lemma {:induction false} LiveIsDistinct<T(!new)>(list: seq<Instance<T>>, n: nat, tasks: seq<Task>)
    requires Distinct(list) && n <= |list| && forall e <- list :: e.task < |tasks|
    ensures Distinct(Live(list, n, tasks) + list[n..])
  {
    if n > 0 {
      LiveIsDistinct(list, n - 1, tasks);
      var before, e, after := Live(list, n - 1, tasks), list[n - 1], list[n..];
      assert list[n - 1..] == [e] + after;
      assert before + ([e] + after) == before + [e] + after;
      if tasks[e.task].Done? {
        assert Without(before + [e] + after, |before|) == before + after;
        WithoutIsDistinct(before + [e] + after, |before|);
      }
    } else {
      assert Live(list, 0, tasks) + list[0..] == list;
    }
  }

  /** Dropping instances whose task is done keeps every task owned. */
  lemma DroppingKeepsOwned(t: Table, u: Table)
    requires Owned(t) && u.tasks == t.tasks
    requires forall e <- t.entries :: e in u.entries || (e.task < |t.tasks| && t.tasks[e.task].Done?)
    ensures Owned(u)
  {
    forall m | 0 <= m < |u.tasks| && u.tasks[m] == Running(false) ensures exists e <- u.entries :: e.task == m {
      var e :| e in t.entries && e.task == m;
      assert e in u.entries;
    }
  }

  /** The live ones of the first k entries, and the rest. */
  lemma LiveAndRest(list: seq<Instance<int>>, k: nat, tasks: seq<Task>, left: seq<Instance<int>>)
    requires k <= |list| && (forall e <- list :: e.task < |tasks|) && left == Live(list, k, tasks) + list[k..]
    ensures |left| <= |list| && forall e <- left :: e in list
    ensures forall e <- list :: e in left || tasks[e.task].Done?
  {
    LiveElements(list, k, tasks);
    var live, rest := Live(list, k, tasks), list[k..];
    assert forall e <- left :: e in live || e in rest;
    forall e <- list ensures e in left || tasks[e.task].Done? {
      var j :| 0 <= j < |list| && list[j] == e;
      if j >= k {
        assert rest[j - k] == e;
      }
    }
  }

  lemma CheckKeepsInv(t: Table, max: int)
    requires Inv(t, max)
    ensures Inv(Check(t).0, max)
  {
    var k := FirstStop(t.entries, t.tasks);
    PassedIsLive(t.entries, k, t.tasks);
    LiveIsDistinct(t.entries, k, t.tasks);
    LiveAndRest(t.entries, k, t.tasks, Check(t).0.entries);
    DroppingKeepsOwned(t, Check(t).0);
  }

  lemma HitKeepsInv(t: Table, max: int, i: nat, now: int)
    requires Inv(t, max) && i < |t.entries|
    ensures Inv(t.(entries := t.entries[i := t.entries[i].(lastUsed := now)]), max)
  {
    var u := t.(entries := t.entries[i := t.entries[i].(lastUsed := now)]);
    forall k | 0 <= k < |u.tasks| && u.tasks[k] == Running(false) ensures exists e <- u.entries :: e.task == k {
      var j :| 0 <= j < |t.entries| && t.entries[j].task == k;
      assert u.entries[j] in u.entries && u.entries[j].task == k;
    }
  }

  lemma AppendIsDistinct<T>(list: seq<Instance<T>>, e: Instance<T>)
    requires Distinct(list) && forall d <- list :: d.id != e.id && d.task != e.task
    ensures Distinct(list + [e])
  {
  }

  lemma CreateKeepsOwned(t: Table, id: ScopeId, now: int)
    requires Valid(t) && Owned(t)
    ensures Owned(Table(t.entries + [Instance(id, |t.tasks|, now)], t.tasks + [Running(false)]))
  {
    var u := Table(t.entries + [Instance(id, |t.tasks|, now)], t.tasks + [Running(false)]);
    assert u.entries[|t.entries|] in u.entries;
    forall k | 0 <= k < |t.tasks| && u.tasks[k] == Running(false) ensures exists e <- u.entries :: e.task == k {
      var e :| e in t.entries && e.task == k;
      assert e in u.entries;
    }
  }

  lemma GetKeepsInv(t: Table, max: int, id: ScopeId, now: int)
    requires Inv(t, max)
    ensures Inv(GetOrCreate(t, max, id, now).0, max)
  {
    if Find(t.entries, id) < |t.entries| {
      HitKeepsInv(t, max, Find(t.entries, id), now);
    } else {
      EvictKeepsOwned(t, max);
      EvictIsPart(t, max);
      if max < 0 {
        EvictAll(t, max);
      } else {
        CreateKeepsOwned(Evict(t, max), id, now);
        AppendIsDistinct(Evict(t, max).entries, Instance(id, |t.tasks|, now));
      }
    }
  }

  lemma {:induction false} EvictIsPart(t: Table, max: int)
    requires Valid(t)
    ensures forall e <- Evict(t, max).entries :: e in t.entries
    decreases |t.entries|
  {
    if |t.entries| > max && t.entries != [] {
      EvictIsPart(DeleteAt(t, Oldest(t.entries)), max);
    }
  }

  lemma {:induction false} EvictAll(t: Table, max: int)
    requires Valid(t) && max < 0
    ensures Evict(t, max).entries == []
    decreases |t.entries|
  {
    if t.entries != [] {
      EvictAll(DeleteAt(t, Oldest(t.entries)), max);
    }
  }

  lemma StepKeepsInv(t: Table, max: int, op: Op)
    requires Inv(t, max)
    ensures Inv(Step(t, max, op).0, max)
  {
    match op
    case Get(id, now) => GetKeepsInv(t, max, id, now);
    case Delete(id) =>
      if Find(t.entries, id) < |t.entries| {
        DeleteKeepsOwned(t, Find(t.entries, id));
      }
    case CheckerPass => CheckKeepsInv(t, max);
    case Settle(_, _) =>
  }

  /** The table after a run, and the replies. */
  ghost function Run(t: Table, max: int, ops: seq<Op>): (r: (Table, seq<Reply>))
    requires Inv(t, max)
    ensures Inv(r.0, max)
    decreases ops
  {
    if ops == [] then (t, [])
    else
      StepKeepsInv(t, max, ops[0]);
      var (u, reply) := Step(t, max, ops[0]);
      var (v, replies) := Run(u, max, ops[1..]);
      (v, [reply] + replies)
  }

  // ---- queues ------------------------------------------------------------------------

  /** The queue of the instance that the scope id has. */
  function QueueOf(t: Table, id: ScopeId): Option<nat>
    requires Valid(t)
  {
    var i := Find(t.entries, id);
    if i < |t.entries| then Some(t.entries[i].task) else None
  }

  lemma FindIs<T>(list: seq<Instance<T>>, e: Instance<T>)
    requires Distinct(list) && e in list
    ensures Find(list, e.id) < |list| && list[Find(list, e.id)] == e
  {
    var j :| 0 <= j < |list| && list[j] == e;
    assert Find(list, e.id) <= j;
  }

  /** What is left of the table answers as before. */
  lemma PartAnswers(t: Table, u: Table, id: ScopeId)
    requires Valid(t) && Valid(u) && forall e <- u.entries :: e in t.entries
    ensures QueueOf(u, id) == None || QueueOf(u, id) == QueueOf(t, id)
    ensures Find(t.entries, id) < |t.entries| && t.entries[Find(t.entries, id)] in u.entries ==>
              QueueOf(u, id) == QueueOf(t, id)
  {
    if Find(t.entries, id) < |t.entries| && t.entries[Find(t.entries, id)] in u.entries {
      FindIs(u.entries, t.entries[Find(t.entries, id)]);
    }
    var i := Find(u.entries, id);
    if i < |u.entries| {
      assert u.entries[i] in u.entries;
      FindIs(t.entries, u.entries[i]);
    }
  }

  /** The operation takes the instance of the scope id away: it deletes that, or is a pass that finds its task done,
      or asks for one that is not there when there are more than max instances. */
  predicate MayTake(t: Table, max: int, op: Op, id: ScopeId)
    requires Valid(t)
  {
    match op
    case Get(asked, _) => asked != id && QueueOf(t, asked) == None && |t.entries| > max
    case Delete(deleted) => deleted == id
    case CheckerPass => QueueOf(t, id).Some? && t.tasks[QueueOf(t, id).value].Done?
    case Settle(_, _) => false
  }

  /** An instance keeps its queue as long as it is in the table: whatever is done to the table, a scope id has the
      queue it had, or none if its instance may be taken away, or, when it had none and is asked for, a queue that
      nobody ever had. Whoever asks is answered with the queue that the scope id has from then on, the old one if
      there was one. */
  lemma {:induction false} QueueStays(t: Table, max: int, op: Op, id: ScopeId)
    requires Inv(t, max)
    ensures
      var (u, reply) := Step(t, max, op);
      && Inv(u, max)
      && var before, after := QueueOf(t, id), QueueOf(u, id);
      && (after == before || (after == None && MayTake(t, max, op, id))
          || (op.Get? && op.id == id && before == None && after == Some(|t.tasks|)))
      && (op.Get? && op.id == id && max >= 0 ==> after.Some? && reply == Queue(after.value))
      && (op.Get? && op.id == id && before.Some? ==> after == before)
      && (op.Delete? && op.id == id ==> after == None && (before == None <==> reply == KeyError))
      && (before.Some? ==> before.value < |t.tasks|)
  {
    StepKeepsInv(t, max, op);
    match op
    case Get(_, now) => GetAnswers(t, max, op.id, now, id);
    case Delete(_) =>
      if Find(t.entries, op.id) < |t.entries| {
        WithoutElements(t.entries, Find(t.entries, op.id));
        PartAnswers(t, Step(t, max, op).0, id);
      }
    case CheckerPass =>
      CheckIsPart(t);
      PartAnswers(t, Step(t, max, op).0, id);
    case Settle(_, _) =>
  }

  lemma CheckIsPart(t: Table)
    requires Valid(t)
    ensures forall e <- Check(t).0.entries :: e in t.entries
    ensures forall e <- t.entries :: e in Check(t).0.entries || t.tasks[e.task].Done?
  {
    var k := FirstStop(t.entries, t.tasks);
    PassedIsLive(t.entries, k, t.tasks);
    LiveAndRest(t.entries, k, t.tasks, Check(t).0.entries);
  }

  lemma GetAnswers(t: Table, max: int, asked: ScopeId, now: int, id: ScopeId)
    requires Inv(t, max) && Inv(GetOrCreate(t, max, asked, now).0, max)
    ensures
      var (u, reply) := GetOrCreate(t, max, asked, now);
      var before, after := QueueOf(t, id), QueueOf(u, id);
      && (id != asked ==> after == before || (after == None && MayTake(t, max, Get(asked, now), id)))
      && (id == asked && before.Some? ==> after == before && reply == Queue(after.value))
      && (id == asked && before == None ==>
            if max >= 0 then after == Some(|t.tasks|) && reply == Queue(|t.tasks|) else after == None)
  {
    var u := GetOrCreate(t, max, asked, now).0;
    if Find(t.entries, asked) < |t.entries| {
      HitAnswers(t, Find(t.entries, asked), now, id);
    } else {
      var v := Evict(t, max);
      EvictIsPart(t, max);
      PartAnswers(t, v, id);
      if max >= 0 {
        var e := Instance(asked, |t.tasks|, now);
        assert u.entries[|v.entries|] == e;
        FindIs(u.entries, e);
        if id != asked {
          AppendAnswers(v.entries, e, id);
        }
      }
    }
  }

  lemma HitAnswers(t: Table, i: nat, now: int, id: ScopeId)
    requires Valid(t) && i < |t.entries|
    ensures
      var u := t.(entries := t.entries[i := t.entries[i].(lastUsed := now)]);
      Valid(u) && QueueOf(u, id) == QueueOf(t, id)
  {
    var u := t.(entries := t.entries[i := t.entries[i].(lastUsed := now)]);
    HitIsValid(t, i, now);
    var j, k := Find(t.entries, id), Find(u.entries, id);
    assert j < |t.entries| ==> u.entries[j].id == id;
    assert k < |u.entries| ==> t.entries[k].id == id;
  }

  lemma {:induction false} AppendAnswers(list: seq<Instance<int>>, e: Instance<int>, id: ScopeId)
    requires e.id != id
    ensures Find(list + [e], id) == if Find(list, id) < |list| then Find(list, id) else |list| + 1
  {
    if list == [] {
      assert ([] + [e])[1..] == [];
    } else {
      assert (list + [e])[1..] == list[1..] + [e];
      if list[0].id != id {
        AppendAnswers(list[1..], e, id);
      }
    }
  }

  /** Dropping an instance without asking its task to cancel, as a checker pass does after reporting an exception,
      keeps every task owned exactly when that task needs no owner. It does if application_exception does not suspend;
      while it does, the same scope id can get a new instance, and then it is the new one's task that is lost. */
  lemma ForgetKeepsOwned(t: Table, id: ScopeId)
    requires Valid(t) && Owned(t)
    ensures
      var i := Find(t.entries, id);
      Owned(t.(entries := Forget(t.entries, id))) <==>
        (i < |t.entries| ==> t.tasks[t.entries[i].task] != Running(false))
  {
    var i, u := Find(t.entries, id), t.(entries := Forget(t.entries, id));
    if i < |t.entries| {
      WithoutElements(t.entries, i);
      forall e <- u.entries ensures e.task != t.entries[i].task {
        var j :| 0 <= j < |t.entries| && t.entries[j] == e;
      }
      forall k | 0 <= k < |u.tasks| && u.tasks[k] == Running(false) && k != t.entries[i].task
        ensures exists e <- u.entries :: e.task == k
      {
        var e :| e in t.entries && e.task == k;
        assert e in u.entries;
      }
    }
  }

  // ---- what eviction takes -----------------------------------------------------------

  /** How many of n instances go before one more is made. */
  function Surplus(n: nat, max: int): nat {
    if max < 0 then n else if n > max then n - max else 0
  }

  /** Used earlier, or at the same clock reading and inserted earlier. */
  predicate Earlier(entries: seq<Instance<int>>, i: nat, j: nat)
    requires i < |entries| && j < |entries|
  {
    entries[i].lastUsed < entries[j].lastUsed || (entries[i].lastUsed == entries[j].lastUsed && i < j)
  }

  /** Where an entry is once the one at k has gone. */
  function Shifted(i: nat, k: nat): nat
    requires i != k
  {
    if i < k then i else i - 1
  }

  /** Whatever the clock did, everything that eviction takes is earlier than anything it leaves. */
  lemma {:induction false} EvictionTakesTheOldest(t: Table, max: int)
    requires Valid(t)
    ensures
      var u := Evict(t, max).entries;
      forall i, j :: 0 <= i < |t.entries| && 0 <= j < |t.entries| && t.entries[i] !in u && t.entries[j] in u ==>
        Earlier(t.entries, i, j)
    decreases |t.entries|
  {
    if |t.entries| > max && t.entries != [] {
      var k := Oldest(t.entries);
      var v, u := DeleteAt(t, k), Evict(t, max).entries;
      EvictionTakesTheOldest(v, max);
      EvictIsPart(v, max);
      WithoutElements(t.entries, k);
      forall i, j | 0 <= i < |t.entries| && 0 <= j < |t.entries| && t.entries[i] !in u && t.entries[j] in u
        ensures Earlier(t.entries, i, j)
      {
        EarlierStep(t.entries, v.entries, u, k, i, j);
      }
    }
  }

  lemma ShiftedAt<T>(list: seq<Instance<T>>, k: nat, i: nat)
    requires k < |list| && i < |list| && i != k
    ensures Shifted(i, k) < |list| - 1 && Without(list, k)[Shifted(i, k)] == list[i]
  {
  }

  lemma OldestIsEarlier(list: seq<Instance<int>>, j: nat)
    requires list != [] && j < |list| && j != Oldest(list)
    ensures Earlier(list, Oldest(list), j)
  {
    assert list[j] in list;
  }

  lemma EarlierStep(list: seq<Instance<int>>, rest: seq<Instance<int>>, u: seq<Instance<int>>, k: nat, i: nat, j: nat)
    requires k < |list| && i < |list| && j < |list| && k == Oldest(list) && rest == Without(list, k)
    requires list[i] !in u && list[j] in u && list[k] !in u
    requires forall a, b :: 0 <= a < |rest| && 0 <= b < |rest| && rest[a] !in u && rest[b] in u ==> Earlier(rest, a, b)
    ensures Earlier(list, i, j)
  {
    if i != k {
      ShiftedAt(list, k, i);
      ShiftedAt(list, k, j);
      assert Earlier(rest, Shifted(i, k), Shifted(j, k));
    } else {
      OldestIsEarlier(list, j);
    }
  }

  /** Number m is the task of an instance of t that u no longer has. */
  ghost predicate Evicted(t: Table, u: Table, m: nat) {
    exists d <- t.entries :: d.task == m && d !in u.entries
  }

  /** Eviction asks the tasks of what it takes to cancel, touches no other, and takes no more than it has to. */
  lemma {:induction false} EvictionAsks(t: Table, max: int)
    requires Valid(t)
    ensures |Evict(t, max).entries| == |t.entries| - Surplus(|t.entries|, max)
    ensures forall m :: 0 <= m < |t.tasks| ==>
      Evict(t, max).tasks[m] == if Evicted(t, Evict(t, max), m) then Asked(t.tasks[m]) else t.tasks[m]
    decreases |t.entries|
  {
    if |t.entries| > max && t.entries != [] {
      var k := Oldest(t.entries);
      var v, u := DeleteAt(t, k), Evict(t, max);
      EvictionAsks(v, max);
      EvictIsPart(v, max);
      WithoutElements(t.entries, k);
      forall m | 0 <= m < |t.tasks|
        ensures u.tasks[m] == if Evicted(t, u, m) then Asked(t.tasks[m]) else t.tasks[m]
      {
        EvictedStep(t, u, k, m);
      }
    }
  }

  lemma EvictedStep(t: Table, u: Table, k: nat, m: nat)
    requires Valid(t) && k < |t.entries| && t.entries[k] !in u.entries
    ensures Evicted(t, u, m) <==> t.entries[k].task == m || Evicted(DeleteAt(t, k), u, m)
    ensures !(t.entries[k].task == m && Evicted(DeleteAt(t, k), u, m))
  {
    WithoutElements(t.entries, k);
  }

  /** A table with exactly max_applications instances still grows: nothing is reclaimed to make space. */
  lemma AtTheLimitNothingIsReclaimed(t: Table, max: int, id: ScopeId, now: int)
    requires Valid(t) && |t.entries| == max && Find(t.entries, id) == |t.entries|
    ensures
      var u := GetOrCreate(t, max, id, now).0;
      |u.entries| == max + 1 && u.entries[..max] == t.entries && u.tasks[..|t.tasks|] == t.tasks
  {
  }
}
