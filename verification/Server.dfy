/**
 * StatelessServer's table of application instances: a bounded table that owns running tasks.
 *
 * The table is the insertion-ordered dictionary of the server, one Instance per scope id. Every instance's task has a
 * number, counted over all tasks ever created; the instance's input queue is known by the same number.
 */
module Server {
  type ScopeId = int

  datatype Outcome = Returned | Failed | Cancelled

  /** An asyncio task; asked means that cancel() was called on it. */
  datatype Task = Running(asked: bool) | Done(outcome: Outcome)

  /** T is what the instance's last use is known by: a clock reading here, and nothing at all in the recency list. */
  datatype Instance<T> = Instance(id: ScopeId, task: nat, lastUsed: T)

  datatype Table = Table(entries: seq<Instance<int>>, tasks: seq<Task>)

  datatype Reply = Queue(number: nat) | Nothing | KeyError | ValueError | CancelledError

  predicate Distinct<T>(list: seq<Instance<T>>) {
    forall i, j :: 0 <= i < j < |list| ==> list[i].id != list[j].id && list[i].task != list[j].task
  }

  predicate Valid(t: Table) {
    Distinct(t.entries) && forall e <- t.entries :: e.task < |t.tasks|
  }

  // ---- what the operations do to the table -------------------------------------------

  /** The place of id in the table, or its length when id is not there. */
  function Find<T>(list: seq<Instance<T>>, id: ScopeId): (i: nat)
    ensures i <= |list| && forall j :: 0 <= j < i ==> list[j].id != id
    ensures i < |list| ==> list[i].id == id
  {
    if list == [] || list[0].id == id then 0 else 1 + Find(list[1..], id)
  }

  function Without<T>(list: seq<Instance<T>>, i: nat): seq<Instance<T>>
    requires i < |list|
  {
    list[..i] + list[i + 1..]
  }

  /** Del of the instance, the KeyError ignored. */
  function Forget<T>(list: seq<Instance<T>>, id: ScopeId): seq<Instance<T>> {
    var i := Find(list, id);
    if i < |list| then Without(list, i) else list
  }

  /** Cancel() on a task that is not done. */
  function Asked(task: Task): Task {
    if task.Running? then Running(true) else task
  }

  function DeleteAt(t: Table, i: nat): (u: Table)
    requires Valid(t) && i < |t.entries|
    ensures Valid(u)
  {
    var task := t.entries[i].task;
    Table(Without(t.entries, i), t.tasks[task := Asked(t.tasks[task])])
  }

  /** The first, in insertion order, of the entries that were last used earliest. */
  function Oldest(entries: seq<Instance<int>>): (k: nat)
    requires entries != []
    ensures k < |entries|
    ensures forall e <- entries :: entries[k].lastUsed <= e.lastUsed
    ensures forall j :: 0 <= j < k ==> entries[k].lastUsed < entries[j].lastUsed
  {
    if |entries| == 1 then 0
    else
      var k := Oldest(entries[1..]);
      if entries[0].lastUsed <= entries[1..][k].lastUsed then 0 else k + 1
  }

  /** Delete the oldest instance while there are more than max. */
  function Evict(t: Table, max: int): (u: Table)
    requires Valid(t)
    ensures Valid(u) && |u.tasks| == |t.tasks| && (max >= 0 ==> |u.entries| <= max)
    decreases |t.entries|
  {
    if |t.entries| <= max || t.entries == [] then t else Evict(DeleteAt(t, Oldest(t.entries)), max)
  }

  function GetOrCreate(t: Table, max: int, id: ScopeId, now: int): (Table, Reply)
    requires Valid(t)
  {
    var i := Find(t.entries, id);
    if i < |t.entries| then
      (t.(entries := t.entries[i := t.entries[i].(lastUsed := now)]), Queue(t.entries[i].task))
    else
      var u := Evict(t, max);
      if max < 0 then (u, ValueError)
      else (Table(u.entries + [Instance(id, |u.tasks|, now)], u.tasks + [Running(false)]), Queue(|u.tasks|))
  }

  /** Those of the first n entries whose task is not done. */
  function Live<T(!new)>(list: seq<Instance<T>>, n: nat, tasks: seq<Task>): (r: seq<Instance<T>>)
    requires n <= |list| && forall e <- list :: e.task < |tasks|
    ensures forall e <- r :: exists j :: 0 <= j < n && list[j] == e
  {
    if n == 0 then []
    else Live(list, n - 1, tasks) + if tasks[list[n - 1].task].Running? then [list[n - 1]] else []
  }

  predicate Stops(tasks: seq<Task>, e: Instance<int>)
    requires e.task < |tasks|
  {
    tasks[e.task] == Done(Cancelled)
  }

  /** Where a checker pass over these entries fails: at the first whose task was cancelled. */
  function FirstStop(entries: seq<Instance<int>>, tasks: seq<Task>): (k: nat)
    requires forall e <- entries :: e.task < |tasks|
    ensures k <= |entries| && forall j :: 0 <= j < k ==> !Stops(tasks, entries[j])
    ensures k < |entries| ==> Stops(tasks, entries[k])
  {
    if entries == [] || Stops(tasks, entries[0]) then 0 else 1 + FirstStop(entries[1..], tasks)
  }

  /** The table after a pass over snapshot has looked at its first i entries, none of which was cancelled. */
  function Passed(snapshot: seq<Instance<int>>, i: nat, tasks: seq<Task>): seq<Instance<int>>
    requires i <= |snapshot| && forall e <- snapshot :: e.task < |tasks|
  {
    if i == 0 then snapshot
    else
      var before := Passed(snapshot, i - 1, tasks);
      if tasks[snapshot[i - 1].task].Running? then before else Forget(before, snapshot[i - 1].id)
  }

  /** One pass of application_checker: the instances that are done are dropped, up to the first that was cancelled. */
  function Check(t: Table): (Table, Reply)
    requires Valid(t)
  {
    var k := FirstStop(t.entries, t.tasks);
    (t.(entries := Passed(t.entries, k, t.tasks)), if k < |t.entries| then CancelledError else Nothing)
  }

  // ---- the server object -------------------------------------------------------------

  class StatelessServer {
    const max: int
    var entries: seq<Instance<int>>
    var tasks: seq<Task>

    function State(): Table
      reads this
    {
      Table(entries, tasks)
    }

    constructor (maxApplications: int)
      ensures max == maxApplications && State() == Table([], [])
    {
      max := maxApplications;
      entries, tasks := [], [];
    }

    method GetOrCreateApplicationInstance(id: ScopeId, now: int) returns (r: Reply)
      requires Valid(State())
      modifies this
      ensures (State(), r) == GetOrCreate(old(State()), max, id, now)
      ensures Valid(State())
    {
      var i := Find(entries, id);
      if i < |entries| {
        HitIsValid(State(), i, now);
        entries := entries[i := entries[i].(lastUsed := now)];
        return Queue(entries[i].task);
      }
      while |entries| > max
        invariant Valid(State()) && Evict(State(), max) == Evict(old(State()), max)
        invariant forall e <- entries :: e.id != id
        decreases |entries|
      {
        ghost var was := State();
        var ok := DeleteOldestApplicationInstance();
        if !ok {
          return ValueError;
        }
        DeletedAreOthers(was.entries, Oldest(was.entries));
      }
      AppendIsValid(State(), id, now);
      r := Queue(|tasks|);
      tasks := tasks + [Running(false)];
      entries := entries + [Instance(id, r.number, now)];
    }

    /** False, and nothing changed, when there is no instance: min() of nothing is a ValueError. */
    method DeleteOldestApplicationInstance() returns (ok: bool)
      requires Valid(State())
      modifies this
      ensures ok <==> old(entries) != []
      ensures State() == if ok then DeleteAt(old(State()), Oldest(old(entries))) else old(State())
    {
      if entries == [] {
        return false;
      }
      var oldestTime := entries[0].lastUsed;
      for i := 1 to |entries|
        invariant forall j :: 0 <= j < i ==> oldestTime <= entries[j].lastUsed
        invariant exists j :: 0 <= j < i && oldestTime == entries[j].lastUsed
      {
        if entries[i].lastUsed < oldestTime {
          oldestTime := entries[i].lastUsed;
        }
      }
      var k := 0;
      while entries[k].lastUsed != oldestTime
        invariant 0 <= k < |entries| && forall j :: 0 <= j < k ==> entries[j].lastUsed != oldestTime
        invariant exists j :: k <= j < |entries| && oldestTime == entries[j].lastUsed
        decreases |entries| - k
      {
        k := k + 1;
      }
      assert k == Oldest(entries) by {
        assert entries[k] in entries && entries[Oldest(entries)] in entries;
      }
      FindAt(entries, k);
      ok := DeleteApplicationInstance(entries[k].id);
    }

    /** False, and nothing changed, on a KeyError. */
    method DeleteApplicationInstance(id: ScopeId) returns (ok: bool)
      requires Valid(State())
      modifies this
      ensures ok <==> Find(old(entries), id) < |old(entries)|
      ensures State() == if ok then DeleteAt(old(State()), Find(old(entries), id)) else old(State())
    {
      var i := Find(entries, id);
      if i == |entries| {
        return false;
      }
      var details := entries[i];
      entries := entries[..i] + entries[i + 1..];
      if !tasks[details.task].Done? {
        tasks := tasks[details.task := Running(true)];
      }
      return true;
    }

    /** One pass of application_checker, with an application_exception that does not suspend. */
    method ApplicationCheckerPass() returns (r: Reply)
      requires Valid(State())
      modifies this
      ensures (State(), r) == Check(old(State()))
    {
      var snapshot := entries;
      var i := 0;
      while i < |snapshot|
        invariant tasks == old(tasks)
        invariant 0 <= i <= FirstStop(snapshot, tasks)
        invariant entries == Passed(snapshot, i, tasks)
      {
        var details := snapshot[i];
        LookedAt(snapshot, i, tasks);
        if tasks[details.task].Done? {
          if tasks[details.task].outcome == Cancelled {
            return CancelledError;
          }
          entries := Forget(entries, details.id);
        }
        i := i + 1;
      }
      return Nothing;
    }
  }

  /** One more entry looked at. */
  lemma LookedAt(snapshot: seq<Instance<int>>, i: nat, tasks: seq<Task>)
    requires i < |snapshot| && (forall e <- snapshot :: e.task < |tasks|) && i <= FirstStop(snapshot, tasks)
    ensures i == FirstStop(snapshot, tasks) <==> Stops(tasks, snapshot[i])
    ensures Passed(snapshot, i + 1, tasks) ==
            if tasks[snapshot[i].task].Running? then Passed(snapshot, i, tasks)
            else Forget(Passed(snapshot, i, tasks), snapshot[i].id)
  {
  }

  lemma HitIsValid(t: Table, i: nat, now: int)
    requires Valid(t) && i < |t.entries|
    ensures Valid(t.(entries := t.entries[i := t.entries[i].(lastUsed := now)]))
  {
  }

  lemma DeletedAreOthers<T>(list: seq<Instance<T>>, i: nat)
    requires i < |list|
    ensures forall e <- Without(list, i) :: e in list
  {
  }

  lemma AppendIsValid(t: Table, id: ScopeId, now: int)
    requires Valid(t) && forall e <- t.entries :: e.id != id
    ensures Valid(Table(t.entries + [Instance(id, |t.tasks|, now)], t.tasks + [Running(false)]))
  {
  }

  lemma FindAt<T>(list: seq<Instance<T>>, i: nat)
    requires Distinct(list) && i < |list|
    ensures Find(list, list[i].id) == i
  {
  }

  /** What a pass leaves: of the entries it looked at those that are not done, and the others as they were. */
  lemma {:induction false} PassedIsLive(snapshot: seq<Instance<int>>, i: nat, tasks: seq<Task>)
    requires Distinct(snapshot) && i <= |snapshot| && forall e <- snapshot :: e.task < |tasks|
    ensures Passed(snapshot, i, tasks) == Live(snapshot, i, tasks) + snapshot[i..]
  {
    if i > 0 {
      PassedIsLive(snapshot, i - 1, tasks);
      var live, e := Live(snapshot, i - 1, tasks), snapshot[i - 1];
      assert snapshot[i - 1..] == [e] + snapshot[i..];
      if tasks[e.task].Done? {
        LiveIsElsewhere(snapshot, i - 1, tasks);
        ForgetAfter(live, e, snapshot[i..]);
        assert Live(snapshot, i, tasks) == live;
      } else {
        assert live + ([e] + snapshot[i..]) == live + [e] + snapshot[i..];
      }
    }
  }

  lemma LiveIsElsewhere(list: seq<Instance<int>>, n: nat, tasks: seq<Task>)
    requires Distinct(list) && n < |list| && forall e <- list :: e.task < |tasks|
    ensures forall d <- Live(list, n, tasks) :: d.id != list[n].id
  {
  }

  lemma ForgetAfter<T>(a: seq<Instance<T>>, e: Instance<T>, b: seq<Instance<T>>)
    requires forall d <- a :: d.id != e.id
    ensures Forget(a + ([e] + b), e.id) == a + b
  {
    var list := a + ([e] + b);
    assert list[|a|] == e;
    assert forall j :: 0 <= j < |a| ==> list[j] == a[j];
    assert Find(list, e.id) == |a|;
    assert list[..|a|] == a && list[|a| + 1..] == b;
  }
}
