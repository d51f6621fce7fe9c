/**
 * application_checker with an application_exception that may suspend: what callers, the event loop and the handler
 * itself do to the table while a pass waits for a report, and what that does to the pass.
 */
module ServerChecker {
  import opened Server
  import opened ServerGuarantees

  /** Where the pass over its snapshot is: not running, about to look at entry i, waiting for the report on entry i, or
      dead, having failed on a cancelled task. */
  datatype Pass =
    | Asleep
    | Looking(snapshot: seq<Instance<int>>, i: nat)
    | Reporting(snapshot: seq<Instance<int>>, i: nat)
    | Dead

  datatype State = State(t: Table, pass: Pass)

  /** Other is a caller or the event loop; nobody else runs between two looks. */
  datatype Step = Other(op: Op) | Begin | Look | Resume

  predicate Enabled(s: State, step: Step) {
    match step
    case Other(op) => !op.CheckerPass? && !s.pass.Looking?
    case Begin => s.pass.Asleep?
    case Look => s.pass.Looking?
    case Resume => s.pass.Reporting? && s.pass.i < |s.pass.snapshot|
  }

  /** The entry whose scope id the step deletes from the table, if it deletes one. */
  function Deleted(s: State, step: Step): seq<Instance<int>>
    requires Good(s) && Enabled(s, step)
  {
    match step
    case Look =>
      if s.pass.i < |s.pass.snapshot| && s.t.tasks[s.pass.snapshot[s.pass.i].task] == Done(Returned)
      then [s.pass.snapshot[s.pass.i]] else []
    case Resume => [s.pass.snapshot[s.pass.i]]
    case _ => []
  }

  /** The tasks of the snapshot exist, and the one that is being reported is done. */
  predicate Good(s: State) {
    && Valid(s.t)
    && (s.pass.Looking? || s.pass.Reporting? ==>
          s.pass.i <= |s.pass.snapshot| && forall e <- s.pass.snapshot :: e.task < |s.t.tasks|)
    && (s.pass.Reporting? ==>
          s.pass.i < |s.pass.snapshot| && s.t.tasks[s.pass.snapshot[s.pass.i].task].Done?)
  }

  function LookAt(s: State): State
    requires Good(s) && s.pass.Looking?
  {
    var snapshot, i := s.pass.snapshot, s.pass.i;
    if i == |snapshot| then s.(pass := Asleep)
    else
      match s.t.tasks[snapshot[i].task]
      case Running(_) => s.(pass := Looking(snapshot, i + 1))
      case Done(Cancelled) => s.(pass := Dead)
      case Done(Failed) => s.(pass := Reporting(snapshot, i))
      case Done(Returned) =>
        State(s.t.(entries := Forget(s.t.entries, snapshot[i].id)), Looking(snapshot, i + 1))
  }

  function Next(s: State, max: int, step: Step): State
    requires Good(s)
  {
    if !Enabled(s, step) then s
    else
      match step
      case Other(op) => s.(t := ServerGuarantees.Step(s.t, max, op).0)
      case Begin => s.(pass := Looking(s.t.entries, 0))
      case Look => LookAt(s)
      case Resume =>
        var e := s.pass.snapshot[s.pass.i];
        State(s.t.(entries := Forget(s.t.entries, e.id)), Looking(s.pass.snapshot, s.pass.i + 1))
  }

  /** What the del meets under the scope id of e: nothing, e itself, or an instance whose task is done or was asked to
      cancel. */
  predicate Harmless(t: Table, e: Instance<int>)
    requires Valid(t)
  {
    var i := Find(t.entries, e.id);
    i == |t.entries| || t.entries[i].task == e.task || t.tasks[t.entries[i].task] != Running(false)
  }

  predicate StepHarmless(s: State, step: Step)
    requires Good(s)
  {
    Enabled(s, step) ==> forall e <- Deleted(s, step) :: Harmless(s.t, e)
  }

  ghost predicate CheckerInv(s: State, max: int) {
    Good(s) && Inv(s.t, max)
  }

  /** What a del leaves is a valid table within the bound. */
  lemma ForgetIsValid(t: Table, max: int, id: ScopeId)
    requires Valid(t) && |t.entries| <= Bound(max)
    ensures
      var u := t.(entries := Forget(t.entries, id));
      Valid(u) && |u.entries| <= Bound(max)
  {
    var i := Find(t.entries, id);
    if i < |t.entries| {
      WithoutElements(t.entries, i);
      WithoutIsDistinct(t.entries, i);
    }
  }

  /** A step keeps every task owned if and only if the del it makes, if any, is harmless. */
  lemma StepKeepsOwnedExactly(s: State, max: int, step: Step)
    requires CheckerInv(s, max)
    ensures Owned(Next(s, max, step).t) <==> StepHarmless(s, step)
    ensures StepHarmless(s, step) ==> CheckerInv(Next(s, max, step), max)
  {
    if Enabled(s, step) {
      match step
      case Other(op) =>
        StepKeepsInv(s.t, max, op);
        OpKeepsGood(s.t, max, op);
      case Begin =>
      case _ =>
        if Deleted(s, step) != [] {
          DelKeepsOwnedExactly(s.t, max, Deleted(s, step)[0]);
        }
    }
  }

  lemma DelKeepsOwnedExactly(t: Table, max: int, e: Instance<int>)
    requires Inv(t, max) && e.task < |t.tasks| && t.tasks[e.task].Done?
    ensures
      var u := t.(entries := Forget(t.entries, e.id));
      (Owned(u) <==> Harmless(t, e)) && Valid(u) && |u.entries| <= Bound(max)
  {
    ForgetKeepsOwned(t, e.id);
    ForgetIsValid(t, max, e.id);
  }

  /** Every task created is owned after each step of the run. */
  ghost predicate OwnedThroughout(s: State, max: int, steps: seq<Step>)
    requires CheckerInv(s, max)
    decreases |steps|
  {
    steps != [] ==>
      && Owned(Next(s, max, steps[0]).t)
      && (StepKeepsOwnedExactly(s, max, steps[0]); OwnedThroughout(Next(s, max, steps[0]), max, steps[1..]))
  }

  /** Every del of the run is harmless. */
  ghost predicate HarmlessThroughout(s: State, max: int, steps: seq<Step>)
    requires CheckerInv(s, max)
    decreases |steps|
  {
    steps != [] ==>
      && StepHarmless(s, steps[0])
      && (StepKeepsOwnedExactly(s, max, steps[0]); HarmlessThroughout(Next(s, max, steps[0]), max, steps[1..]))
  }

  /** No orphans with a handler that suspends: every task is owned throughout a run if and only if every del of a pass
      meets the instance it looked at, another whose task is done or asked to cancel, or none. */
  lemma {:induction false} OwnedExactlyIfHarmless(s: State, max: int, steps: seq<Step>)
    requires CheckerInv(s, max)
    ensures OwnedThroughout(s, max, steps) <==> HarmlessThroughout(s, max, steps)
    decreases |steps|
  {
    if steps != [] {
      StepKeepsOwnedExactly(s, max, steps[0]);
      if StepHarmless(s, steps[0]) {
        OwnedExactlyIfHarmless(Next(s, max, steps[0]), max, steps[1..]);
      }
    }
  }

  // ---- runs ------------------------------------------------------------------------------

  /** Whatever it deletes, a step leaves a good state; done tasks keep their outcome, and none disappears. */
  lemma StepKeepsGood(s: State, max: int, step: Step)
    requires Good(s)
    ensures
      var u := Next(s, max, step);
      && Good(u) && |s.t.tasks| <= |u.t.tasks|
      && forall k :: 0 <= k < |s.t.tasks| && s.t.tasks[k].Done? ==> u.t.tasks[k] == s.t.tasks[k]
  {
    if Enabled(s, step) {
      match step
      case Other(op) => OpKeepsGood(s.t, max, op);
      case Begin =>
      case _ =>
        if Deleted(s, step) != [] {
          ForgetIsValid(s.t, |s.t.entries|, Deleted(s, step)[0].id);
        }
    }
  }

  predicate WasCancelled(t: Table, k: nat) {
    k < |t.tasks| && t.tasks[k] == Done(Cancelled)
  }

  /** Apart from the event loop's settling it, no task is done that was not. */
  ghost predicate OnlySettles(t: Table, u: Table, op: Op) {
    && |t.tasks| <= |u.tasks|
    && (forall k :: 0 <= k < |t.tasks| && t.tasks[k].Done? ==> u.tasks[k] == t.tasks[k])
    && (forall k :: 0 <= k < |u.tasks| && u.tasks[k].Done? ==>
          k < |t.tasks| && (t.tasks[k].Done? || op == Settle(k, u.tasks[k].outcome)))
  }

  lemma GetKeepsGood(t: Table, max: int, id: ScopeId, now: int)
    requires Valid(t)
    ensures
      var u := GetOrCreate(t, max, id, now).0;
      Valid(u) && OnlySettles(t, u, Get(id, now))
  {
    if Find(t.entries, id) == |t.entries| {
      var v := Evict(t, max);
      EvictionAsks(t, max);
      assert OnlySettles(t, v, Get(id, now));
      EvictIsPart(t, max);
      if max >= 0 {
        AppendIsDistinct(v.entries, Instance(id, |v.tasks|, now));
      }
    }
  }

  lemma OpKeepsGood(t: Table, max: int, op: Op)
    requires Valid(t) && !op.CheckerPass?
    ensures
      var u := ServerGuarantees.Step(t, max, op).0;
      Valid(u) && OnlySettles(t, u, op)
  {
    if op.Get? {
      GetKeepsGood(t, max, op.id, op.now);
    }
  }

  ghost function Run(s: State, max: int, steps: seq<Step>): (r: State)
    requires Good(s)
    ensures Good(r)
    decreases |steps|
  {
    if steps == [] then s
    else
      StepKeepsGood(s, max, steps[0]);
      Run(Next(s, max, steps[0]), max, steps[1..])
  }

  lemma RunStep(s: State, max: int, step: Step, next: State, rest: seq<Step>, end: State)
    requires Good(s) && next == Next(s, max, step) && Good(next) && Run(next, max, rest) == end
    ensures Run(s, max, [step] + rest) == end
  {
    assert ([step] + rest)[1..] == rest;
  }

  lemma {:induction false} RunOn(s: State, max: int, first: seq<Step>, second: seq<Step>)
    requires Good(s)
    ensures Run(s, max, first + second) == Run(Run(s, max, first), max, second)
    decreases |first|
  {
    if first == [] {
      assert first + second == second;
    } else {
      assert (first + second)[1..] == first[1..] + second;
      StepKeepsGood(s, max, first[0]);
      RunOn(Next(s, max, first[0]), max, first[1..], second);
    }
  }

  // ---- when the checker dies -------------------------------------------------------------

  /** The pass has yet to look at an entry with task k. */
  predicate YetToLook(s: State, k: nat) {
    (s.pass.Looking? || s.pass.Reporting?) &&
    exists j :: (if s.pass.Looking? then s.pass.i else s.pass.i + 1) <= j < |s.pass.snapshot|
      && s.pass.snapshot[j].task == k
  }

  /** The checker is dead, or bound to meet a task that was cancelled. */
  ghost predicate Struck(s: State) {
    s.pass.Dead? || exists k :: YetToLook(s, k) && WasCancelled(s.t, k)
  }

  /** A pass begins over a table with a cancelled task, or a task that it has yet to look at is cancelled. */
  ghost predicate Strikes(s: State, step: Step) {
    && Enabled(s, step)
    && match step
       case Begin => exists e <- s.t.entries :: WasCancelled(s.t, e.task)
       case Other(Settle(k, Cancelled)) => k < |s.t.tasks| && s.t.tasks[k].Running? && YetToLook(s, k)
       case _ => false
  }

  lemma OtherStrikes(s: State, max: int, op: Op)
    requires Good(s) && Enabled(s, Other(op))
    ensures Struck(Next(s, max, Other(op))) <==> Struck(s) || Strikes(s, Other(op))
  {
    var u := Next(s, max, Other(op));
    OpKeepsGood(s.t, max, op);
    forall k: nat ensures YetToLook(u, k) <==> YetToLook(s, k) {
    }
    forall k: nat ensures WasCancelled(u.t, k) <==>
                       WasCancelled(s.t, k) || (op == Settle(k, Cancelled) && k < |s.t.tasks| && s.t.tasks[k].Running?)
    {
    }
    if Struck(s) && !s.pass.Dead? {
      var k :| YetToLook(s, k) && WasCancelled(s.t, k);
      assert YetToLook(u, k) && WasCancelled(u.t, k);
    }
    if Strikes(s, Other(op)) {
      assert YetToLook(u, op.task) && WasCancelled(u.t, op.task);
    }
  }

  lemma BeginStrikes(s: State, max: int)
    requires Good(s) && Enabled(s, Begin)
    ensures Struck(Next(s, max, Begin)) <==> Strikes(s, Begin)
  {
    var u := Next(s, max, Begin);
    if e :| e in s.t.entries && WasCancelled(s.t, e.task) {
      var j :| 0 <= j < |s.t.entries| && s.t.entries[j] == e;
      assert YetToLook(u, e.task) && WasCancelled(u.t, e.task);
    }
    if k :| YetToLook(u, k) && WasCancelled(u.t, k) {
      var j :| 0 <= j < |s.t.entries| && s.t.entries[j].task == k;
      assert s.t.entries[j] in s.t.entries;
    }
  }

  /** Entry i aside, a step of the pass itself changes nothing of what it has yet to look at. */
  lemma PassStrikes(s: State, max: int, step: Step)
    requires Good(s) && Enabled(s, step) && (step.Look? || step.Resume?)
    ensures Struck(Next(s, max, step)) <==> Struck(s)
  {
    var u := Next(s, max, step);
    forall k: nat ensures WasCancelled(u.t, k) <==> WasCancelled(s.t, k) {
    }
    if u.pass.Looking? || u.pass.Reporting? {
      var e := s.pass.snapshot[s.pass.i];
      assert step.Look? ==> !WasCancelled(s.t, e.task);
      forall k: nat ensures YetToLook(s, k) <==> YetToLook(u, k) || (step.Look? && k == e.task) {
        if YetToLook(s, k) {
          var j :| (if s.pass.Looking? then s.pass.i else s.pass.i + 1) <= j < |s.pass.snapshot|
                   && s.pass.snapshot[j].task == k;
        }
      }
      if k :| YetToLook(s, k) && WasCancelled(s.t, k) {
        assert YetToLook(u, k) && WasCancelled(u.t, k);
      }
    } else if u.pass.Dead? {
      assert YetToLook(s, s.pass.snapshot[s.pass.i].task);
    }
  }

  lemma StepStrikes(s: State, max: int, step: Step)
    requires Good(s)
    ensures Struck(Next(s, max, step)) <==> Struck(s) || Strikes(s, step)
  {
    if Enabled(s, step) {
      match step
      case Other(op) => OtherStrikes(s, max, op);
      case Begin => BeginStrikes(s, max);
      case _ => PassStrikes(s, max, step);
    }
  }

  /** Some step of the run strikes. */
  ghost predicate Stricken(s: State, max: int, steps: seq<Step>)
    requires Good(s)
    decreases |steps|
  {
    steps != [] &&
    (Strikes(s, steps[0]) || (StepKeepsGood(s, max, steps[0]); Stricken(Next(s, max, steps[0]), max, steps[1..])))
  }

  /** When the checker dies. In every run, once no pass is under way, application_checker has died if and only if it was
      dead or bound to die before, some pass began with a cancelled task in the table, or a task was cancelled while its
      entry was still to be looked at. */
  lemma {:induction false} DiesExactlyIfStricken(s: State, max: int, steps: seq<Step>)
    requires Good(s)
    ensures
      var end := Run(s, max, steps);
      && (Struck(end) <==> Struck(s) || Stricken(s, max, steps))
      && (!end.pass.Looking? && !end.pass.Reporting? ==> (end.pass.Dead? <==> Struck(end)))
    decreases |steps|
  {
    if steps != [] {
      StepStrikes(s, max, steps[0]);
      StepKeepsGood(s, max, steps[0]);
      DiesExactlyIfStricken(Next(s, max, steps[0]), max, steps[1..]);
    }
  }

  // ---- runs that orphan a task, or kill the checker --------------------------------------

  lemma GetOnEmpty(tasks: seq<Task>, pass: Pass, max: int, id: ScopeId, now: int)
    requires max >= 0 && Good(State(Table([], tasks), pass)) && !pass.Looking?
    ensures Next(State(Table([], tasks), pass), max, Other(Get(id, now)))
            == State(Table([Instance(id, |tasks|, now)], tasks + [Running(false)]), pass)
  {
  }

  lemma DeleteTheOnly(e: Instance<int>, tasks: seq<Task>, pass: Pass, max: int)
    requires Good(State(Table([e], tasks), pass)) && !pass.Looking? && tasks[e.task].Done?
    ensures Next(State(Table([e], tasks), pass), max, Other(Delete(e.id))) == State(Table([], tasks), pass)
  {
    assert Without([e], 0) == [];
  }

  lemma ResumeOnTheOnly(e: Instance<int>, d: Instance<int>, tasks: seq<Task>, max: int)
    requires Good(State(Table([d], tasks), Reporting([e], 0))) && e.id == d.id
    ensures Next(State(Table([d], tasks), Reporting([e], 0)), max, Resume) == State(Table([], tasks), Looking([e], 1))
  {
    assert Without([d], 0) == [];
  }

  const EMPTY := State(Table([], []), Asleep)

  /** Up to the report on the instance that failed. */
  lemma ReportsTheFailed(max: int, id: ScopeId, now: int)
    requires max >= 0
    ensures
      var a := Instance(id, 0, now);
      Run(EMPTY, max, [Other(Get(id, now)), Other(Settle(0, Failed)), Begin, Look])
      == State(Table([a], [Done(Failed)]), Reporting([a], 0))
  {
    var a := Instance(id, 0, now);
    var s2, s1 := State(Table([a], [Done(Failed)]), Asleep), State(Table([a], [Running(false)]), Asleep);
    var s3, end := State(s2.t, Looking([a], 0)), State(s2.t, Reporting([a], 0));
    RunStep(s3, max, Look, end, [], end);
    RunStep(s2, max, Begin, s3, [Look], end);
    RunStep(s1, max, Other(Settle(0, Failed)), s2, [Begin, Look], end);
    GetOnEmpty([], Asleep, max, id, now);
    RunStep(EMPTY, max, Other(Get(id, now)), s1, [Other(Settle(0, Failed)), Begin, Look], end);
  }

  /** While the report is awaited the instance is deleted and its scope id gets a new one, which the pass deletes. */
  lemma ResumesOnTheNew(max: int, a: Instance<int>, later: int)
    requires max >= 0 && a.task == 0
    ensures
      Run(State(Table([a], [Done(Failed)]), Reporting([a], 0)), max,
          [Other(Delete(a.id)), Other(Get(a.id, later)), Resume])
      == State(Table([], [Done(Failed), Running(false)]), Looking([a], 1))
  {
    var b, pass := Instance(a.id, 1, later), Reporting([a], 0);
    var failed, both := [Done(Failed)], [Done(Failed), Running(false)];
    var s1, s2 := State(Table([], failed), pass), State(Table([b], both), pass);
    var end := State(Table([], both), Looking([a], 1));
    assert failed + [Running(false)] == both;
    ResumeOnTheOnly(a, b, both, max);
    RunStep(s2, max, Resume, end, [], end);
    GetOnEmpty(failed, pass, max, a.id, later);
    RunStep(s1, max, Other(Get(a.id, later)), s2, [Resume], end);
    DeleteTheOnly(a, failed, pass, max);
    RunStep(State(Table([a], failed), pass), max, Other(Delete(a.id)), s1, [Other(Get(a.id, later)), Resume], end);
  }

  /** An instance fails, and while its exception is reported it is deleted and its scope id gets a new instance. The
      pass then deletes that one, whose task goes on running, asked by nobody to cancel. */
  lemma SuspendedReportOrphans(max: int, id: ScopeId, now: int, later: int)
    requires max >= 0
    ensures
      var end := State(Table([], [Done(Failed), Running(false)]), Looking([Instance(id, 0, now)], 1));
      && Run(EMPTY, max, [Other(Get(id, now)), Other(Settle(0, Failed)), Begin, Look] +
                         [Other(Delete(id)), Other(Get(id, later)), Resume]) == end
      && !Owned(end.t)
  {
    var end := State(Table([], [Done(Failed), Running(false)]), Looking([Instance(id, 0, now)], 1));
    ReportsTheFailed(max, id, now);
    ResumesOnTheNew(max, Instance(id, 0, now), later);
    RunOn(EMPTY, max, [Other(Get(id, now)), Other(Settle(0, Failed)), Begin, Look],
      [Other(Delete(id)), Other(Get(id, later)), Resume]);
    assert end.t.tasks[1] == Running(false);
  }

  lemma DeleteTheSecond(a: Instance<int>, b: Instance<int>, tasks: seq<Task>, pass: Pass, max: int)
    requires Good(State(Table([a, b], tasks), pass)) && !pass.Looking? && tasks[b.task] == Running(false)
    ensures Next(State(Table([a, b], tasks), pass), max, Other(Delete(b.id)))
            == State(Table([a], tasks[b.task := Running(true)]), pass)
  {
    assert Find([a, b], b.id) == 1;
    assert Without([a, b], 1) == [a];
  }

  /** The server cancels the task of an entry that the pass has yet to look at, and the pass dies of it. */
  lemma ResumesAndDies(max: int, a: Instance<int>, b: Instance<int>)
    requires a.task == 0 && b.task == 1 && a.id != b.id
    ensures
      var s := State(Table([a, b], [Done(Failed), Running(false)]), Reporting([a, b], 0));
      Good(s) && Run(s, max, [Other(Delete(b.id)), Other(Settle(1, Cancelled)), Resume, Look])
                 == State(Table([], [Done(Failed), Done(Cancelled)]), Dead)
  {
    var pass, asked, both := Reporting([a, b], 0), [Done(Failed), Running(true)], [Done(Failed), Done(Cancelled)];
    var s := State(Table([a, b], [Done(Failed), Running(false)]), pass);
    var s1, s2 := State(Table([a], asked), pass), State(Table([a], both), pass);
    var s3, end := State(Table([], both), Looking([a, b], 1)), State(Table([], both), Dead);
    RunStep(s3, max, Look, end, [], end);
    assert Without([a], 0) == [];
    RunStep(s2, max, Resume, s3, [Look], end);
    RunStep(s1, max, Other(Settle(1, Cancelled)), s2, [Resume, Look], end);
    DeleteTheSecond(a, b, [Done(Failed), Running(false)], pass, max);
    RunStep(s, max, Other(Delete(b.id)), s1, [Other(Settle(1, Cancelled)), Resume, Look], end);
  }

  /** Up to the report on the first of two instances. */
  lemma ReportsTheFirst(max: int, a: Instance<int>, b: Instance<int>)
    requires max > 0 && a.task == 0 && b.task == 1 && a.id != b.id
    ensures
      Run(EMPTY, max,
          [Other(Get(a.id, a.lastUsed)), Other(Get(b.id, b.lastUsed)), Other(Settle(0, Failed)), Begin, Look])
      == State(Table([a, b], [Done(Failed), Running(false)]), Reporting([a, b], 0))
  {
    var one, t1 := Table([a], [Running(false)]), Table([a, b], [Done(Failed), Running(false)]);
    var t0 := Table([a, b], [Running(false), Running(false)]);
    var s3, end := State(t1, Looking([a, b], 0)), State(t1, Reporting([a, b], 0));
    RunStep(s3, max, Look, end, [], end);
    RunStep(State(t1, Asleep), max, Begin, s3, [Look], end);
    RunStep(State(t0, Asleep), max, Other(Settle(0, Failed)), State(t1, Asleep), [Begin, Look], end);
    assert [a] + [b] == [a, b] && [Running(false)] + [Running(false)] == t0.tasks;
    assert Find([a], b.id) == 1;
    RunStep(State(one, Asleep), max, Other(Get(b.id, b.lastUsed)), State(t0, Asleep),
      [Other(Settle(0, Failed)), Begin, Look], end);
    GetOnEmpty([], Asleep, max, a.id, a.lastUsed);
    RunStep(EMPTY, max, Other(Get(a.id, a.lastUsed)), State(one, Asleep),
      [Other(Get(b.id, b.lastUsed)), Other(Settle(0, Failed)), Begin, Look], end);
  }

  /** Of two instances the first fails, and while its exception is reported the second is deleted, which cancels its
      task. The pass then looks at that one, and application_checker dies, though nobody but the server cancelled
      anything. */
  lemma SuspendedReportKills(max: int, a: Instance<int>, b: Instance<int>)
    requires max > 0 && a.task == 0 && b.task == 1 && a.id != b.id
    ensures
      Run(EMPTY, max,
          [Other(Get(a.id, a.lastUsed)), Other(Get(b.id, b.lastUsed)), Other(Settle(0, Failed)), Begin, Look] +
          [Other(Delete(b.id)), Other(Settle(1, Cancelled)), Resume, Look])
      == State(Table([], [Done(Failed), Done(Cancelled)]), Dead)
  {
    ReportsTheFirst(max, a, b);
    ResumesAndDies(max, a, b);
    RunOn(EMPTY, max,
      [Other(Get(a.id, a.lastUsed)), Other(Get(b.id, b.lastUsed)), Other(Settle(0, Failed)), Begin, Look],
      [Other(Delete(b.id)), Other(Settle(1, Cancelled)), Resume, Look]);
  }

  // ---- a pass that is not interrupted ------------------------------------------------

  /** The pass to its end, with no step of anybody else in between. */
  function Drive(s: State): State
    requires Good(s)
    decreases
      if s.pass.Looking? then 2 * (|s.pass.snapshot| - s.pass.i) + 1
      else if s.pass.Reporting? then 2 * (|s.pass.snapshot| - s.pass.i) else 0
  {
    if s.pass.Looking? then
      DelKeepsGood(s);
      Drive(LookAt(s))
    else if s.pass.Reporting? then
      DelKeepsGood(s);
      Drive(Next(s, 0, Resume))
    else s
  }

  lemma DelKeepsGood(s: State)
    requires Good(s)
    ensures s.pass.Looking? ==> Good(LookAt(s))
    ensures s.pass.Reporting? ==> Good(Next(s, 0, Resume))
  {
    if (s.pass.Looking? || s.pass.Reporting?) && s.pass.i < |s.pass.snapshot| {
      ForgetIsValid(s.t, |s.t.entries|, s.pass.snapshot[s.pass.i].id);
    }
  }

  /** The pass has done to the table of its start what a checker pass does to its first i entries. */
  ghost predicate OnCourse(t: Table, s: State) {
    && Valid(t) && Good(s) && (s.pass.Looking? || s.pass.Reporting?)
    && s.pass.snapshot == t.entries && s.t.tasks == t.tasks && s.pass.i <= FirstStop(t.entries, t.tasks)
    && s.t.entries == Passed(t.entries, s.pass.i, t.tasks)
    && (s.pass.Reporting? ==> t.tasks[t.entries[s.pass.i].task] == Done(Failed))
  }

  lemma LookStaysOnCourse(t: Table, s: State)
    requires OnCourse(t, s) && s.pass.Looking? && s.pass.i < FirstStop(t.entries, t.tasks)
    ensures OnCourse(t, LookAt(s))
  {
    DelKeepsGood(s);
    assert !Stops(t.tasks, t.entries[s.pass.i]);
  }

  lemma ResumeStaysOnCourse(t: Table, s: State)
    requires OnCourse(t, s) && s.pass.Reporting?
    ensures OnCourse(t, Next(s, 0, Resume))
  {
    DelKeepsGood(s);
  }

  /** Uninterrupted, the pass does to the table what one checker pass of the server does. */
  lemma {:induction false} UninterruptedIsCheck(t: Table, s: State)
    requires OnCourse(t, s)
    ensures Drive(s).t == Check(t).0
    decreases if s.pass.Looking? then 2 * (|t.entries| - s.pass.i) + 1 else 2 * (|t.entries| - s.pass.i)
  {
    if s.pass.Reporting? {
      ResumeStaysOnCourse(t, s);
      UninterruptedIsCheck(t, Next(s, 0, Resume));
    } else if s.pass.i < FirstStop(t.entries, t.tasks) {
      LookStaysOnCourse(t, s);
      UninterruptedIsCheck(t, LookAt(s));
    } else {
      DelKeepsGood(s);
      assert Drive(s) == Drive(LookAt(s)) == LookAt(s);
    }
  }
}
