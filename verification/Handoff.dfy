/**
 How the final context of an awaitable gets back to the thread that called async_to_sync: the executor
 protocol joined with the dispatch of AsyncToSync.__call__ and with main_wrap on the loop's thread,
 under every interleaving of any number of calls.
 */
module Handoff {
  import opened Contexts
  import opened Programs
  import opened ListRemoval
  import P = ExecutorProtocol
  import ExecutorInvariant

  /** Which loop got the awaitable: none yet, none as the main loop refused it, the main loop, or a new one. */
  datatype Path = Undecided | Declined | ViaMain | ViaNew

  /** How far the loop's side has got. Over is reached on a new loop, when asyncio.run has returned. */
  datatype Stage = NotStarted | Running | Ended | Unlisted | Captured | Resolved | Over

  /** One AsyncToSync.__call__. It builds the executor with its own index, and the future that executor waits
      for has that index too, as has the task that runs its main_wrap. list is the task_context it captured; cell is
      context[0]; result is call_result. */
  datatype Call = Call(path: Path, handed: nat, stage: Stage, list: Option<nat>, initial: Context, ctx: Context,
                       cell: Context, end: Option<Context>, outcome: Option<Outcome>, result: Option<Outcome>,
                       restored: Option<Context>)

  /** lists holds the task_context lists of all sync_to_async calls. */
  datatype State = State(p: P.State, calls: seq<Call>, lists: seq<seq<nat>>)

  datatype Step =
    | NewList                                               // a sync_to_async call: task_context = []
    | Open(thread: Tid, outer: Option<nat>, list: Option<nat>, ctx: Context)   // up to the dispatch
    | TryMain(c: nat, running: bool, accepts: bool)         // is_running and call_soon_threadsafe
    | SubmitNew(c: nat)                                     // loop_executor.submit
    | Abandon(c: nat)                                       // an exception before anything was dispatched
    | Park(c: nat)                                          // run_until_future
    | Restore(c: nat, base: Context, loop: Tid)             // main_wrap begins and appends its task
    | Work(c: nat, ctx: Context)                            // the awaitable changes its context
    | End(c: nat, out: Outcome)                             // the awaitable returned or raised
    | Unlist(c: nat)                                        // task_context.remove
    | Capture(c: nat)                                       // context[0] = copy_context()
    | Resolve(c: nat)                                       // call_result.set_result or set_exception
    | LoopOver(c: nat)                                      // asyncio.run returned
    | Finish(c: nat)                                        // the finally block reads context[0]
    | Other(step: P.Step)                                   // anything else executors and submitters do

  /** Steps of the executor protocol that are not part of a call's own thread or loop. */
  predicate Environment(step: P.Step) {
    !step.Create? && !step.BeginRun? && !step.Complete?
  }

  /** A step of one call, step.c. */
  predicate OfCall(step: Step) {
    !step.NewList? && !step.Open? && !step.Other?
  }

  predicate Dispatched(c: Call) {
    c.path.ViaMain? || c.path.ViaNew?
  }

  predicate Enabled(s: State, step: Step) {
    match step
    case NewList => true
    case Open(t, outer, list, _) => P.Enabled(s.p, P.Create(t, outer)) && (list.Some? ==> list.value < |s.lists|)
    case Other(ps) => Environment(ps) && P.Enabled(s.p, ps)
    case TryMain(c, _, _) => c < |s.calls| && s.calls[c].path.Undecided? && s.calls[c].restored.None?
    case SubmitNew(c) => c < |s.calls| && s.calls[c].path.Declined? && s.calls[c].restored.None?
    case Abandon(c) => c < |s.calls| && !Dispatched(s.calls[c]) && s.calls[c].restored.None?
    case Park(c) => c < |s.calls| && Dispatched(s.calls[c]) && P.Enabled(s.p, P.BeginRun(c, c))
    case Restore(c, _, _) => c < |s.calls| && Dispatched(s.calls[c]) && s.calls[c].stage.NotStarted?
    case Work(c, _) => c < |s.calls| && s.calls[c].stage.Running?
    case End(c, _) => c < |s.calls| && s.calls[c].stage.Running?
    case Unlist(c) => c < |s.calls| && s.calls[c].stage.Ended?
    case Capture(c) => c < |s.calls| && s.calls[c].stage.Unlisted?
    case Resolve(c) => c < |s.calls| && s.calls[c].stage.Captured?
    case LoopOver(c) => c < |s.calls| && s.calls[c].stage.Resolved? && s.calls[c].path.ViaNew?
    case Finish(c) => c < |s.calls| && c < |s.p.execs| && s.p.execs[c].pc.Exited? && s.calls[c].restored.None?
  }

  /** The step as the call it belongs to sees it. */
  function Advance(c: Call, step: Step): Call {
    match step
    case TryMain(_, running, accepts) =>
      if running && accepts then c.(path := ViaMain, handed := c.handed + 1) else c.(path := Declined)
    case SubmitNew(_) => c.(path := ViaNew, handed := c.handed + 1)
    case Abandon(_) => c.(restored := Some(c.cell))
    case Restore(_, base, loop) => c.(stage := Running, ctx := Restored(c.cell, base, loop))
    case Work(_, ctx) => c.(ctx := ctx)
    case End(_, out) => c.(stage := Stage.Ended, end := Some(c.ctx), outcome := Some(out))
    case Unlist(_) => c.(stage := Unlisted)
    case Capture(_) => c.(stage := Captured, cell := c.ctx)
    case Resolve(_) => c.(stage := Resolved, result := c.outcome)
    case LoopOver(_) => c.(stage := Over)
    case Finish(_) => c.(restored := Some(c.cell))
    case _ => c
  }

  /** The step as the executors see it. */
  function Effect(s: State, step: Step): P.State {
    match step
    case Open(t, outer, _, _) => P.Next(s.p, P.Create(t, outer))
    case Park(c) => P.Next(s.p, P.BeginRun(c, c))
    case Resolve(c) => if c < |s.calls| && s.calls[c].path.ViaMain? then P.Next(s.p, P.Complete(c)) else s.p
    case LoopOver(c) => P.Next(s.p, P.Complete(c))
    case Other(ps) => P.Next(s.p, ps)
    case _ => s.p
  }

  /** The task_context lists after the step: main_wrap adds its task to the list its call captured, and removes it. */
  function ListsAfter(s: State, step: Step): seq<seq<nat>>
    requires Enabled(s, step)
  {
    match step
    case NewList => s.lists + [[]]
    case Restore(c, _, _) =>
      var l := s.calls[c].list;
      if l.Some? && l.value < |s.lists| then s.lists[l.value := s.lists[l.value] + [c]] else s.lists
    case Unlist(c) =>
      var l := s.calls[c].list;
      if l.Some? && l.value < |s.lists| then s.lists[l.value := RemoveFirst(s.lists[l.value], c)] else s.lists
    case _ => s.lists
  }

  function Next(s: State, step: Step): State {
    if !Enabled(s, step) then s
    else
      var p', lists := Effect(s, step), ListsAfter(s, step);
      match step
      case NewList => State(p', s.calls, lists)
      case Open(_, _, list, ctx) =>
        State(p', s.calls + [Call(Undecided, 0, NotStarted, list, ctx, ctx, ctx, None, None, None, None)], lists)
      case Other(_) => State(p', s.calls, lists)
      case _ => State(p', s.calls[step.c := Advance(s.calls[step.c], step)], lists)
  }

  function Run(s: State, steps: seq<Step>): State
    decreases |steps|
  {
    if steps == [] then s else Run(Next(s, steps[0]), steps[1..])
  }

  const START := State(P.START, [], [])

  // ---- the invariant -----------------------------------------------------------------

  predicate Late(c: Call) {
    c.stage.Captured? || c.stage.Resolved? || c.stage.Over?
  }

  predicate CallInv(s: State, i: nat)
    requires i < |s.calls| == |s.p.execs|
  {
    var c, x := s.calls[i], s.p.execs[i];
    && c.handed == (if Dispatched(c) then 1 else 0)
    && (!Dispatched(c) ==> c.stage.NotStarted? && x.pc.Idle?)
    && (x.future.Some? ==> x.future.value == i)
    && (i in s.p.done <==> c.stage.Over? || (c.stage.Resolved? && c.path.ViaMain?))
    && (Late(c) ==> c.end == Some(c.cell))
    && (!Late(c) ==> c.cell == c.initial)
    && (c.stage.Ended? || c.stage.Unlisted? ==> c.end == Some(c.ctx))
    && (c.stage.Resolved? || c.stage.Over? ==> c.result == c.outcome)
    && (c.result.Some? ==> c.stage.Resolved? || c.stage.Over?)
    && (c.stage.NotStarted? || c.stage.Running? ==> c.outcome.None?)
    && (c.stage.Ended? || c.stage.Unlisted? || Late(c) ==> c.outcome.Some?)
    && (c.restored.Some? ==> c.restored.value == c.cell && (x.pc.Exited? || !Dispatched(c)))
  }

  predicate Inv(s: State) {
    && P.Inv(s.p)
    && |s.calls| == |s.p.execs|
    && (forall f :: f in s.p.done ==> f < |s.calls|)
    && forall i :: 0 <= i < |s.calls| ==> CallInv(s, i)
  }

  /** Environment steps leave every call's executor built, its future and the resolved futures alone. */
  lemma EnvironmentStep(p: P.State, step: P.Step)
    requires Environment(step)
    ensures var p' := P.Next(p, step);
            && |p'.execs| == |p.execs| && p'.done == p.done
            && forall e :: 0 <= e < |p.execs| ==>
                             && p'.execs[e].future == p.execs[e].future
                             && (p.execs[e].pc.Exited? ==> p'.execs[e].pc.Exited?)
                             && (p.execs[e].pc.Idle? ==> p'.execs[e].pc.Idle?)
  {
  }

  lemma ExitedIsDone(p: P.State, e: nat)
    requires P.Inv(p) && e < |p.execs| && p.execs[e].pc.Exited?
    ensures p.execs[e].future.Some? && p.execs[e].future.value in p.done
  {
    assert P.ExecInv(p, e);
  }

  lemma EffectKeepsInv(s: State, step: Step)
    requires Inv(s) && Enabled(s, step)
    ensures P.Inv(Effect(s, step))
  {
    match step
    case Open(t, outer, _, _) => ExecutorInvariant.StepKeepsInv(s.p, P.Create(t, outer));
    case Park(c) => ExecutorInvariant.StepKeepsInv(s.p, P.BeginRun(c, c));
    case Resolve(c) => ExecutorInvariant.StepKeepsInv(s.p, P.Complete(c));
    case LoopOver(c) => ExecutorInvariant.StepKeepsInv(s.p, P.Complete(c));
    case Other(ps) => ExecutorInvariant.StepKeepsInv(s.p, ps);
    case _ =>
  }

  /** A call is not disturbed by what leaves its executor's future and exit, and the completion of its own future,
      alone. */
  lemma CallFrame(s: State, s': State, i: nat)
    requires i < |s.calls| == |s.p.execs| && CallInv(s, i)
    requires i < |s'.calls| == |s'.p.execs| && s'.calls[i] == s.calls[i]
    requires s'.p.execs[i].future == s.p.execs[i].future && (i in s'.p.done <==> i in s.p.done)
    requires s.p.execs[i].pc.Exited? ==> s'.p.execs[i].pc.Exited?
    requires s.p.execs[i].pc.Idle? ==> s'.p.execs[i].pc.Idle?
    ensures CallInv(s', i)
  {
  }

  /** A step of one call: what it does to that call. */
  lemma OwnStep(s: State, step: Step)
    requires Inv(s) && Enabled(s, step) && OfCall(step)
    ensures var s' := Next(s, step); step.c < |s'.calls| == |s'.p.execs| && CallInv(s', step.c)
  {
    var c := step.c;
    assert CallInv(s, c);
    if step.Park? {
    } else if s.p.execs[c].pc.Exited? {
      ExitedIsDone(s.p, c);
    }
  }

  /** What it does to the executors of other calls. */
  lemma OwnEffect(s: State, step: Step)
    requires Inv(s) && Enabled(s, step) && OfCall(step)
    ensures var p' := Effect(s, step);
            && |p'.execs| == |s.p.execs| && s.p.done <= p'.done <= s.p.done + {step.c}
            && forall i :: 0 <= i < |s.p.execs| && i != step.c ==> p'.execs[i] == s.p.execs[i]
  {
  }

  lemma {:induction false} StepKeepsInv(s: State, step: Step)
    requires Inv(s)
    ensures Inv(Next(s, step))
  {
    if Enabled(s, step) {
      var s' := Next(s, step);
      EffectKeepsInv(s, step);
      if step.Other? {
        EnvironmentStep(s.p, step.step);
      } else if OfCall(step) {
        OwnStep(s, step);
        OwnEffect(s, step);
      }
      forall i | 0 <= i < |s'.calls| ensures CallInv(s', i) {
        if i < |s.calls| && (!OfCall(step) || i != step.c) {
          CallFrame(s, s', i);
        }
      }
    }
  }

  lemma {:induction false} RunKeepsInv(s: State, steps: seq<Step>)
    requires Inv(s)
    ensures Inv(Run(s, steps))
    decreases |steps|
  {
    if steps != [] {
      StepKeepsInv(s, steps[0]);
      RunKeepsInv(Next(s, steps[0]), steps[1..]);
    }
  }

  /** Context hand-off and single dispatch. In every interleaving, on both dispatch paths, whether the awaitable
      returned or raised: a call whose awaitable was handed to a loop was handed to exactly one, the context its
      finally block restores is the one the awaitable ended in, and call_result holds its outcome by then. A call that
      failed before dispatching restores the context it copied. */
  lemma {:induction false} ContextHandOff(steps: seq<Step>, i: nat)
    requires i < |Run(START, steps).calls| && Run(START, steps).calls[i].restored.Some?
    ensures var c := Run(START, steps).calls[i];
            if Dispatched(c)
            then c.handed == 1 && c.restored == c.end && c.result == c.outcome && c.outcome.Some?
            else c.handed == 0 && c.restored == Some(c.initial)
  {
    var s := Run(START, steps);
    RunKeepsInv(START, steps);
    assert CallInv(s, i);
    if s.p.execs[i].pc.Exited? {
      ExitedIsDone(s.p, i);
    }
  }

  // ---- task_context ------------------------------------------------------------------

  /** The call's main_wrap has appended its task and not removed it yet. */
  predicate Unfinished(c: Call) {
    c.stage.Running? || c.stage.Ended?
  }

  /** Call c captured list l, and its main_wrap is unfinished. */
  predicate Registered(s: State, c: nat, l: nat) {
    c < |s.calls| && s.calls[c].list == Some(l) && Unfinished(s.calls[c])
  }

  ghost predicate ListHolds(s: State, l: nat)
    requires l < |s.lists|
  {
    Unique(s.lists[l]) && forall c :: c in s.lists[l] <==> Registered(s, c, l)
  }

  ghost predicate ListsHold(s: State) {
    && (forall i :: 0 <= i < |s.calls| && s.calls[i].list.Some? ==> s.calls[i].list.value < |s.lists|)
    && forall l :: 0 <= l < |s.lists| ==> ListHolds(s, l)
  }

  /** A step that is no append or remove on list l leaves it, and who is registered in it, alone. */
  lemma ListFrame(s: State, step: Step, l: nat)
    requires ListsHold(s) && Enabled(s, step) && l < |s.lists|
    requires (step.Restore? || step.Unlist?) ==> s.calls[step.c].list != Some(l)
    ensures l < |Next(s, step).lists| && ListHolds(Next(s, step), l)
  {
    var s' := Next(s, step);
    assert s'.lists[l] == s.lists[l];
    assert ListHolds(s, l);
    forall c ensures Registered(s', c, l) <==> Registered(s, c, l) {
    }
  }

  lemma RegisterStep(s: State, step: Step, l: nat)
    requires ListsHold(s) && Enabled(s, step) && l < |s.lists|
    requires (step.Restore? || step.Unlist?) && s.calls[step.c].list == Some(l)
    ensures l < |Next(s, step).lists| && ListHolds(Next(s, step), l)
  {
    var s', c := Next(s, step), step.c;
    assert ListHolds(s, l) && (step.Restore? ==> !Registered(s, c, l));
    RemoveFirstRemoves(s.lists[l], c);
    forall d ensures Registered(s', d, l) <==> if d == c then step.Restore? else Registered(s, d, l) {
    }
  }

  lemma StepKeepsLists(s: State, step: Step)
    requires ListsHold(s)
    ensures ListsHold(Next(s, step))
  {
    if Enabled(s, step) {
      var s' := Next(s, step);
      forall l | 0 <= l < |s'.lists| ensures ListHolds(s', l) {
        if l == |s.lists| {
          assert s'.lists[l] == [];
        } else if (step.Restore? || step.Unlist?) && s.calls[step.c].list == Some(l) {
          RegisterStep(s, step, l);
        } else {
          ListFrame(s, step, l);
        }
      }
    }
  }

  lemma {:induction false} RunKeepsLists(s: State, steps: seq<Step>)
    requires ListsHold(s)
    ensures ListsHold(Run(s, steps))
    decreases |steps|
  {
    if steps != [] {
      StepKeepsLists(s, steps[0]);
      RunKeepsLists(Next(s, steps[0]), steps[1..]);
    }
  }

  lemma {:induction false} UniqueCounts(q: seq<nat>, c: nat)
    requires Unique(q)
    ensures multiset(q)[c] == if c in q then 1 else 0
  {
    if q != [] {
      assert q == q[..|q| - 1] + [q[|q| - 1]];
      UniqueCounts(q[..|q| - 1], c);
    }
  }

  /** In every interleaving, each task_context is exactly the bag of the main_wrap activations that captured it and are
      unfinished: each is in it once, and nothing else is. */
  lemma {:induction false} TaskContextExact(steps: seq<Step>, l: nat, c: nat)
    requires l < |Run(START, steps).lists|
    ensures var s := Run(START, steps);
            multiset(s.lists[l])[c] == if Registered(s, c, l) then 1 else 0
  {
    RunKeepsLists(START, steps);
    assert ListHolds(Run(START, steps), l);
    UniqueCounts(Run(START, steps).lists[l], c);
  }
}
