/** What the handler of a cancelled sync_to_async call promises, over every run of the protocol from its start. */
module CancellationGuarantees {
  import opened Contexts
  import opened ListRemoval
  import opened Cancellation
  import opened CancellationInvariant
  import opened CancellationHistory

  lemma Reachable(steps: seq<Step>)
    ensures Inv(Run(START, steps))
  {
    RunKeepsInv(START, steps);
  }

  // ---- what a call gives, and when its future is cancelled ---------------------------

  /** In every interleaving, a call that is over gave its function's real outcome if and only if CancelledError never
      entered its handler, or the handler was resumed with the registered task ended without CancelledError and the
      executor future not done, and no request met it awaiting that future; in all other cases it gave
      CancelledError. */
  lemma {:induction false} OutcomeExactly(steps: seq<Step>, c: CallId)
    requires c < |Run(START, steps).calls| && Run(START, steps).calls[c].gives.Some?
    ensures
      var gift := Run(START, steps).calls[c].gives.value;
      && (gift.Outcome? <==>
            || !Happened(START, steps, Entered(c))
            || (Happened(START, steps, WentOn(c)) && !Happened(START, steps, Missed(c))))
      && (gift.Outcome? ==> Happened(START, steps, HasReturned(c, gift.n)))
  {
    var s := Run(START, steps);
    Reachable(steps);
    assert CallOk(s, c) && TaskOk(s, s.calls[c].owner);
    FactExactly(steps, Entered(c));
    FactExactly(steps, WentOn(c));
    FactExactly(steps, Missed(c));
    if s.calls[c].gives.value.Outcome? {
      FactExactly(steps, HasReturned(c, s.calls[c].gives.value.n));
    }
  }

  /** The executor future is cancelled by the handler if and only if, with the future not done, the handler found no
      task registered or CancelledError came out of its await of the task; and otherwise if and only if a request met
      the handler, which had let its task finish, awaiting the future while that was pending. */
  lemma {:induction false} RevokedExactly(steps: seq<Step>, c: CallId)
    requires c < |Run(START, steps).calls|
    ensures
      var future := Run(START, steps).calls[c].future;
      && (future.Revoked? <==> Happened(START, steps, Withdrawn(c)) || Happened(START, steps, Cut(c)))
      && (future == Revoked(true) <==> Happened(START, steps, Withdrawn(c)))
      && (Happened(START, steps, Cut(c)) ==> Happened(START, steps, WentOn(c)) && Happened(START, steps, Missed(c)))
      && !(Happened(START, steps, Withdrawn(c)) && Happened(START, steps, WentOn(c)))
  {
    var s := Run(START, steps);
    Reachable(steps);
    assert CallOk(s, c);
    FactExactly(steps, Withdrawn(c));
    FactExactly(steps, Cut(c));
    FactExactly(steps, WentOn(c));
    FactExactly(steps, Missed(c));
    if Happened(START, steps, Cut(c)) {
      CutIsMissed(START, steps, c);
    }
  }

  lemma {:induction false} CutIsMissed(s: State, steps: seq<Step>, c: CallId)
    requires Happened(s, steps, Cut(c))
    ensures Happened(s, steps, Missed(c))
    decreases |steps|
  {
    if !Brings(s, steps[0], Cut(c)) {
      CutIsMissed(Next(s, steps[0]), steps[1..], c);
    }
  }

  /** A handler that awaited its task is resumed when that is over. If the executor future is done by then the call
      gives CancelledError at once, and the future stays as it is. If not, the handler awaits it, having given
      nothing, exactly if the task was not cancelled and no request reached the handler meanwhile; and if the task
      was, or one did, it cancels the future and gives CancelledError. */
  lemma {:induction false} HandlerGoesOn(steps: seq<Step>, t: TaskId, c: CallId)
    requires
      var s := Run(START, steps);
      Enabled(s, Resume(t)) && s.tasks[t].at.OnChild? && s.tasks[t].at.call == c
    ensures
      var s, s' := Run(START, steps), Next(Run(START, steps), Resume(t));
      && |s'.tasks| == |s.tasks| && |s'.calls| == |s.calls|
      && var k, k' := s.calls[c], s'.calls[c];
      && s.tasks[t].at.child < |s.tasks| && s.tasks[s.tasks[t].at.child].at.Over? && k.gives.None?
      && if !k.future.Pending? then
           k'.gives == Some(CancelledError) && k'.future == k.future && s'.tasks[t].at.Active?
         else if Spared(s, t) then
           k'.gives.None? && k'.future.Pending? && s'.tasks[t].at == OnFuture(c)
         else
           k'.gives == Some(CancelledError) && k'.future == Revoked(true) && s'.tasks[t].at.Active?
  {
    var s := Run(START, steps);
    Reachable(steps);
    assert TaskOk(s, t) && CallOk(s, c);
  }

  // ---- where a request goes ----------------------------------------------------------

  /** From t to d, every task awaits the next one in its handler, and that one is not over. */
  predicate Awaits(s: State, t: TaskId, d: TaskId)
    requires t < |s.tasks|
    decreases |s.tasks| - t
  {
    t == d ||
    (s.tasks[t].at.OnChild? && s.tasks[t].signal.Asleep? && t < s.tasks[t].at.child < |s.tasks|
     && !s.tasks[s.tasks[t].at.child].at.Over? && Awaits(s, s.tasks[t].at.child, d))
  }

  lemma {:induction false} LandingAwaits(s: State, t: TaskId)
    requires t < |s.tasks|
    ensures Awaits(s, t, Landing(s, t))
    ensures var d := s.tasks[Landing(s, t)];
            d.at.OnChild? && d.signal.Asleep? && Landing(s, t) < d.at.child < |s.tasks| ==> s.tasks[d.at.child].at.Over?
    decreases |s.tasks| - t
  {
    var k := s.tasks[t];
    if k.at.OnChild? && k.signal.Asleep? && t < k.at.child < |s.tasks| && !s.tasks[k.at.child].at.Over? {
      LandingAwaits(s, k.at.child);
    }
  }

  /** The loop will resume the task without anything else having to happen first, or it is running. */
  predicate Prompt(s: State, t: TaskId)
    requires t < |s.tasks|
  {
    var k := s.tasks[t];
    k.at.Active? || !k.signal.Asleep? || !Due(s, k).Asleep?
  }

  lemma LandIsPrompt(s: State, d: TaskId)
    requires Inv(s) && d < |s.tasks| && !s.tasks[d].at.Over?
    requires s.tasks[d].at.OnChild? && s.tasks[d].signal.Asleep? ==>
               s.tasks[d].at.child < |s.tasks| && s.tasks[s.tasks[d].at.child].at.Over?
    ensures Prompt(Land(s, d), d)
  {
    assert TaskOk(s, d);
    if s.tasks[d].at.OnFuture? {
      assert CallOk(s, s.tasks[d].at.call);
    }
  }

  /** A request dooms the task at the end of the chain of handlers awaiting their tasks, which is not over, and
      touches no other. That task does not have to wait any more. */
  lemma RequestLands(s: State, t: TaskId)
    requires Inv(s) && t < |s.tasks| && !s.tasks[t].at.Over?
    ensures
      var s', d := Next(s, Request(t)), Landing(s, t);
      && Awaits(s, t, d) && !s.tasks[d].at.Over? && Doomed(s'.tasks[d]) && Prompt(s', d)
      && forall u :: 0 <= u < |s.tasks| && u != d ==> s'.tasks[u] == s.tasks[u]
  {
    LandingAwaits(s, t);
    LandingIsAlive(s, t);
    LandStep(s, Landing(s, t));
    assert TaskOk(s, Landing(s, t));
    LandIsPrompt(s, Landing(s, t));
  }

  /** What a handler sees when it is entered: nobody exactly if no main_wrap that captured its list is unfinished, and
      then it gives CancelledError, and cancels the executor future if that is not done; and otherwise the first in its
      list, whom it cancels and awaits, having given nothing. */
  lemma HandlerLooks(s: State, t: TaskId, c: CallId)
    requires Inv(s) && Enabled(s, Resume(t)) && s.tasks[t].at == Shielded(c) && Doomed(s.tasks[t])
    ensures
      var s' := Next(s, Resume(t));
      && |s'.tasks| == |s.tasks| && |s'.calls| == |s.calls|
      && var k, k' := s.calls[c], s'.calls[c];
      if forall u :: !Registered(s, u, c) then
        && s'.tasks[t].at.Active? && k'.look == Nobody && k'.gives == Some(CancelledError)
        && k'.future == if k.future.Pending? then Revoked(true) else k.future
      else
        && k.list != [] && Registered(s, k.list[0], c)
        && var d := Landing(s, k.list[0]);
        && s'.tasks[t].at == OnChild(c, k.list[0]) && k'.gives.None? && k'.future == k.future
        && Doomed(s'.tasks[d]) && Prompt(s', d)
        && k'.look == Found(k.list[0], d, |s.tasks[d].throws|)
  {
    assert TaskOk(s, t) && CallOk(s, c) && ListOk(s, c);
    if s.calls[c].list == [] {
      assert forall u :: !Registered(s, u, c);
    } else {
      HandlerFinds(s, t, c, s.calls[c].list[0]);
    }
  }

  lemma HandlerFinds(s: State, t: TaskId, c: CallId, child: TaskId)
    requires Inv(s) && Enabled(s, Resume(t)) && s.tasks[t].at == Shielded(c) && Doomed(s.tasks[t])
    requires s.calls[c].list != [] && child == s.calls[c].list[0]
    ensures
      var s' := Next(s, Resume(t));
      && |s'.tasks| == |s.tasks| && |s'.calls| == |s.calls|
      && var k, k' := s.calls[c], s'.calls[c];
      && Registered(s, child, c)
      && var d := Landing(s, child);
      && s'.tasks[t].at == OnChild(c, child) && k'.gives.None? && k'.future == k.future
      && Doomed(s'.tasks[d]) && Prompt(s', d)
      && k'.look == Found(child, d, |s.tasks[d].throws|)
  {
    assert TaskOk(s, t) && CallOk(s, c) && ListOk(s, c);
    assert child in s.calls[c].list && Registered(s, child, c);
    var d := Landing(s, child);
    HandleParts(s, t, c, child, d);
    LandingIsAlive(s, child);
    LandStep(s, d);
    LandingAwaits(s, child);
    assert TaskOk(s, d);
    LandIsPrompt(s, d);
    PromptAfter(s, Land(s, d), Next(s, Resume(t)), d);
  }

  /** What the handler does besides its request leaves the other task as prompt. */
  lemma PromptAfter(s: State, s1: State, s': State, d: TaskId)
    requires d < |s1.tasks| == |s'.tasks| && |s1.calls| == |s'.calls| && Prompt(s1, d) && s'.tasks[d] == s1.tasks[d]
    requires forall u :: 0 <= u < |s1.tasks| && s1.tasks[u].at.Over? ==> s'.tasks[u].at == s1.tasks[u].at
    requires forall c :: 0 <= c < |s1.calls| && s1.calls[c].future.Resolved? ==>
               s'.calls[c].future == s1.calls[c].future
    ensures Prompt(s', d)
  {
  }

  // ---- who can go on -----------------------------------------------------------------

  /** In every interleaving a suspended task can go on exactly if what it awaits is done, or CancelledError was thrown
      into that await: at an await of its coroutine's own, when that pleases; for a call, when the function's outcome
      is there; in its handler, when its task is over, and then when the executor future is done. */
  lemma {:induction false} TasksGoOn(steps: seq<Step>, t: TaskId)
    requires t < |Run(START, steps).tasks| && Suspended(Run(START, steps).tasks[t])
    ensures
      var s := Run(START, steps);
      var k := s.tasks[t];
      && (CallOf(k.at).Some? ==> CallOf(k.at).value < |s.calls|)
      && (Prompt(s, t) <==>
            match k.at
            case Shielded(c) => s.calls[c].future.Resolved? || k.signal.Thrown?
            case OnChild(_, d) => d < |s.tasks| && s.tasks[d].at.Over?
            case OnFuture(c) => !s.calls[c].future.Pending?
            case _ => true)
      && (Prompt(s, t) && s.running.None? ==> Enabled(s, Wake(t)) || Enabled(s, Resume(t)))
  {
    Reachable(steps);
    assert TaskOk(Run(START, steps), t);
  }

  /** And a worker thread can go on unless its function waits for a task that is not over, or was cancelled before it
      began. */
  lemma {:induction false} WorkersGoOn(steps: seq<Step>, c: CallId)
    requires c < |Run(START, steps).calls|
    ensures
      var s := Run(START, steps);
      match s.calls[c].worker
      case Queued => Enabled(s, Start(c))
      case Running => forall n :: Enabled(s, Return(c, n))
      case Waiting(d) => Enabled(s, Back(c)) <==> d < |s.tasks| && s.tasks[d].at.Over? && s.tasks[d].begun
      case Returned(_) => Enabled(s, Resolve(c)) <==> s.calls[c].future.Pending?
  {
  }

  /** The tasks that the function of call c waited for in async_to_sync, or does. */
  function WaitedFor(s: State, steps: seq<Step>, c: CallId): seq<TaskId>
    decreases |steps|
  {
    if steps == [] then [] else WaitedNow(s, steps[0], c) + WaitedFor(Next(s, steps[0]), steps[1..], c)
  }

  function WaitedNow(s: State, step: Step, c: CallId): seq<TaskId> {
    if Enabled(s, step) && step.Enter? && step.c == c then [|s.tasks|] else []
  }

  predicate Awaited(s: State, c: CallId, t: TaskId) {
    && c < |s.calls| && t < |s.tasks|
    && (s.calls[c].worker == Waiting(t) || (s.tasks[t].at.Over? && s.tasks[t].begun))
  }

  lemma StepAwaits(s: State, step: Step, c: CallId, t: TaskId)
    requires Inv(s) && (Awaited(s, c, t) || t in WaitedNow(s, step, c))
    ensures Awaited(Next(s, step), c, t)
  {
    StepKeepsInv(s, step);
    if Awaited(s, c, t) {
      assert TaskGrows(s.tasks[t], Next(s, step).tasks[t]);
      if Enabled(s, step) && !WorkersStep(step, c) {
        WorkerStays(s, step, c);
      }
    }
  }

  predicate WorkersStep(step: Step, c: CallId) {
    (step.Start? || step.Enter? || step.Back? || step.Return?) && step.c == c
  }

  /** Only the worker's own steps move it. */
  lemma WorkerStays(s: State, step: Step, c: CallId)
    requires Inv(s) && Enabled(s, step) && c < |s.calls|
    requires !WorkersStep(step, c)
    ensures c < |Next(s, step).calls| && Next(s, step).calls[c].worker == s.calls[c].worker
  {
    if step.Resume? {
      ResumeWorkers(s, step.t, c);
    }
  }

  /** In every interleaving a function goes on from async_to_sync only when the task it waited for has begun and is
      over. */
  lemma {:induction false} WaitsForItsTask(steps: seq<Step>, c: CallId, t: TaskId)
    requires t in WaitedFor(START, steps, c)
    ensures Awaited(Run(START, steps), c, t)
  {
    AwaitedFrom(START, steps, c, t);
  }

  lemma {:induction false} AwaitedFrom(s: State, steps: seq<Step>, c: CallId, t: TaskId)
    requires Inv(s) && (Awaited(s, c, t) || t in WaitedFor(s, steps, c))
    ensures Awaited(Run(s, steps), c, t)
    decreases |steps|
  {
    if steps != [] {
      StepKeepsInv(s, steps[0]);
      if Awaited(s, c, t) || t in WaitedNow(s, steps[0], c) {
        StepAwaits(s, steps[0], c, t);
      }
      AwaitedFrom(Next(s, steps[0]), steps[1..], c, t);
    }
  }

  lemma ResumeWorkers(s: State, t: TaskId, c: CallId)
    requires Inv(s) && Enabled(s, Resume(t)) && c < |s.calls|
    ensures c < |ResumeTask(s, t).calls| && ResumeTask(s, t).calls[c].worker == s.calls[c].worker
  {
    var at := s.tasks[t].at;
    if at.Shielded? && Doomed(s.tasks[t]) && s.calls[at.call].list != [] {
      FoundWorkers(s, t, at.call, c);
    } else if at.Fresh? {
      assert TaskOk(s, t);
    }
  }

  lemma FoundWorkers(s: State, t: TaskId, c0: CallId, c: CallId)
    requires Inv(s) && Enabled(s, Resume(t)) && s.tasks[t].at == Shielded(c0) && Doomed(s.tasks[t])
    requires s.calls[c0].list != [] && c < |s.calls|
    ensures c < |ResumeTask(s, t).calls| && ResumeTask(s, t).calls[c].worker == s.calls[c].worker
  {
    var child := s.calls[c0].list[0];
    HandlerFinds(s, t, c0, child);
    HandleParts(s, t, c0, child, Landing(s, child));
  }

  // ---- the order of registration -----------------------------------------------------

  /** The tasks whose main_wrap began, registered in the list of call c, in that order. */
  function BegunIn(s: State, steps: seq<Step>, c: CallId): seq<TaskId>
    decreases |steps|
  {
    if steps == [] then [] else BegunNow(s, steps[0], c) + BegunIn(Next(s, steps[0]), steps[1..], c)
  }

  function BegunNow(s: State, step: Step, c: CallId): seq<TaskId> {
    if Enabled(s, step) && step.Resume? && s.tasks[step.t].at.Fresh? && !Doomed(s.tasks[step.t])
       && s.tasks[step.t].list == Some(c)
    then [step.t]
    else []
  }

  function OverIn(s: State): set<TaskId> {
    set t | 0 <= t < |s.tasks| && s.tasks[t].at.Over?
  }

  function ListOf(s: State, c: CallId): seq<TaskId> {
    if c < |s.calls| then s.calls[c].list else []
  }

  lemma ListedAreNotOver(s: State, c: CallId)
    requires Inv(s)
    ensures Outside(ListOf(s, c), OverIn(s)) == ListOf(s, c)
    ensures Unique(ListOf(s, c)) && forall t :: t in ListOf(s, c) ==> Registered(s, t, c)
  {
    assert c < |s.calls| ==> CallOk(s, c) && ListOk(s, c);
    NoneGone(ListOf(s, c), OverIn(s));
  }

  /** Apart from a registered task's begin and end, no step changes the list. */
  lemma OtherLists(s: State, step: Step, c: CallId)
    requires Inv(s) && Enabled(s, step) && BegunNow(s, step, c) == []
    requires !(step.Act? && step.move.Finish? && s.tasks[step.t].list == Some(c))
    ensures ListOf(Next(s, step), c) == ListOf(s, c)
  {
    if step.Resume? {
      ResumeLists(s, step.t, c);
    }
  }

  lemma FoundLists(s: State, t: TaskId, c0: CallId, c: CallId)
    requires Inv(s) && Enabled(s, Resume(t)) && s.tasks[t].at == Shielded(c0) && Doomed(s.tasks[t])
    requires s.calls[c0].list != []
    ensures ListOf(ResumeTask(s, t), c) == ListOf(s, c)
  {
    var child := s.calls[c0].list[0];
    HandlerFinds(s, t, c0, child);
    HandleParts(s, t, c0, child, Landing(s, child));
  }

  lemma ConcludeLists(s: State, t: TaskId, c: CallId)
    requires Inv(s) && Enabled(s, Resume(t)) && CallOf(s.tasks[t].at).Some?
    requires s.tasks[t].at.Shielded? && Doomed(s.tasks[t]) ==> s.calls[s.tasks[t].at.call].list == []
    ensures ListOf(ResumeTask(s, t), c) == ListOf(s, c)
  {
  }

  lemma ResumeLists(s: State, t: TaskId, c: CallId)
    requires Inv(s) && Enabled(s, Resume(t)) && BegunNow(s, Resume(t), c) == []
    ensures ListOf(ResumeTask(s, t), c) == ListOf(s, c)
  {
    var at := s.tasks[t].at;
    if at.Shielded? && Doomed(s.tasks[t]) && s.calls[at.call].list != [] {
      FoundLists(s, t, at.call, c);
    } else if CallOf(at).Some? {
      ConcludeLists(s, t, c);
    }
  }

  lemma StepLists(s: State, step: Step, c: CallId)
    requires Inv(s)
    ensures ListOf(Next(s, step), c) == Outside(ListOf(s, c) + BegunNow(s, step, c), OverIn(Next(s, step)))
  {
    var s' := Next(s, step);
    StepKeepsInv(s, step);
    ListedAreNotOver(s', c);
    assert ListOf(s, c) + [] == ListOf(s, c);
    if Enabled(s, step) {
      if BegunNow(s, step, c) != [] {
        assert TaskOk(s, step.t);
      } else if step.Act? && step.move.Finish? && s.tasks[step.t].list == Some(c) {
        EndedLeaves(s, step.t, c);
      } else {
        OtherLists(s, step, c);
      }
    }
  }

  lemma EndedLeaves(s: State, t: TaskId, c: CallId)
    requires Inv(s) && Enabled(s, Act(t, Finish)) && s.tasks[t].list == Some(c)
    ensures ListOf(ActTask(s, t, Finish), c) == Outside(ListOf(s, c), OverIn(ActTask(s, t, Finish)))
  {
    assert TaskOk(s, t);
    ListedAreNotOver(s, c);
    RemoveIsOutside(ListOf(s, c), t, OverIn(ActTask(s, t, Finish)));
  }

  lemma {:induction false} ListsFrom(s: State, steps: seq<Step>, c: CallId)
    requires Inv(s)
    ensures ListOf(Run(s, steps), c) == Outside(ListOf(s, c) + BegunIn(s, steps, c), OverIn(Run(s, steps)))
    decreases |steps|
  {
    if steps == [] {
      ListedAreNotOver(s, c);
      assert ListOf(s, c) + [] == ListOf(s, c);
    } else {
      var s', end := Next(s, steps[0]), OverIn(Run(s, steps));
      StepLists(s, steps[0], c);
      StepKeepsInv(s, steps[0]);
      RunKeepsInv(s', steps[1..]);
      ListsFrom(s', steps[1..], c);
      OverStays(s', Run(s', steps[1..]));
      OutsideChain(ListOf(s, c), BegunNow(s, steps[0], c), BegunIn(s', steps[1..], c), OverIn(s'), end);
    }
  }

  lemma OverStays(s: State, s': State)
    requires Grows(s, s')
    ensures OverIn(s) <= OverIn(s')
  {
    forall t | t in OverIn(s) ensures t in OverIn(s') {
      assert TaskGrows(s.tasks[t], s'.tasks[t]);
    }
  }

  /** In every interleaving a task_context holds the tasks that registered in it and are not over, in the order in which
      they registered; so what a handler finds in it is the one that registered first. */
  lemma {:induction false} ListInOrder(steps: seq<Step>, c: CallId)
    requires c < |Run(START, steps).calls|
    ensures Run(START, steps).calls[c].list == Outside(BegunIn(START, steps, c), OverIn(Run(START, steps)))
  {
    ListsFrom(START, steps, c);
    assert [] + BegunIn(START, steps, c) == BegunIn(START, steps, c);
  }

  /** No CancelledError is on its way: every task that was to get one has got it. */
  ghost predicate Settled(s: State) {
    forall t :: 0 <= t < |s.tasks| ==> !Doomed(s.tasks[t])
  }

  /** Where a cancellation ended that was thrown into task t the j-th time: through every call whose handler found a
      registered task, where the handler's request was thrown. */
  ghost function Last(s: State, t: TaskId, j: nat): (r: (TaskId, nat))
    requires Inv(s) && t < |s.tasks| && j < |s.tasks[t].throws|
    ensures r.0 < |s.tasks| && r.1 < |s.tasks[r.0].throws|
    decreases |s.tasks| - t
  {
    var at := s.tasks[t].throws[j];
    assert TaskOk(s, t) && ThrowOk(s, t, at);
    if at.Shielded? && s.calls[at.call].look.Found? then
      assert CallOk(s, at.call);
      var look := s.calls[at.call].look;
      if look.nth < |s.tasks[look.landed].throws| then Last(s, look.landed, look.nth) else (t, j)
    else (t, j)
  }

  /** The j-th throw into task t was followed to a task with no registered task below, which got CancelledError before
      it began, in an await of its own or in a call in which nothing was registered; or to the handler of a task that
      had been cancelled before. */
  ghost predicate EndsInnermost(s: State, t: TaskId, j: nat)
    requires Inv(s) && t < |s.tasks| && j < |s.tasks[t].throws|
  {
    var (d, i) := Last(s, t, j);
    var at := s.tasks[d].throws[i];
    && (at.Fresh? || at.Own? || at.Shielded? || InHandler(at))
    && (at.Shielded? ==> at.call < |s.calls| && s.calls[at.call].look.Nobody?)
    && (InHandler(at) ==> i > 0)
  }

  /** A cancellation reaches the innermost registered task, unless it meets a handler of an earlier one: once no
      CancelledError is on its way, so does every throw, followed through the handlers it entered. */
  lemma {:induction false} CancelReachesInnermost(s: State, t: TaskId, j: nat)
    requires Inv(s) && Settled(s) && t < |s.tasks| && j < |s.tasks[t].throws|
    ensures EndsInnermost(s, t, j)
    decreases |s.tasks| - t
  {
    var at := s.tasks[t].throws[j];
    assert TaskOk(s, t) && ThrowOk(s, t, at);
    if at.Shielded? && s.calls[at.call].look.Found? {
      var look := s.calls[at.call].look;
      assert CallOk(s, at.call) && LandedOk(s.tasks[look.landed], look.nth);
      CancelReachesInnermost(s, look.landed, look.nth);
    }
  }

  /** A request to task t, in state s, as it turned out by s': it was thrown into the task it landed in where that was
      at the time, or, as that was running, at its next await, unless it ended first, cancelled. In a handler it went
      no further; elsewhere it reached the innermost registered task, or a handler of an earlier cancellation below. */
  ghost predicate Reaches(s: State, t: TaskId, s': State)
    requires Inv(s') && t < |s.tasks|
  {
    var d := Landing(s, t);
    var n, was := |s.tasks[d].throws|, s.tasks[d].at;
    && d < |s'.tasks| && n <= |s'.tasks[d].throws|
    && if n == |s'.tasks[d].throws| then was.Active? && s'.tasks[d].at == Over(true)
       else
         var at := s'.tasks[d].throws[n];
         && (if was.Active? then at.Own? || at.Shielded? else at == was)
         && (InHandler(was) ==> Last(s', d, n) == (d, n))
         && EndsInnermost(s', d, n)
  }

  /** The same from the request on: whoever cancels a task, whatever runs before and after, once no CancelledError is
      on its way the request has reached what it had to. */
  lemma {:induction false} TopCancelReaches(before: seq<Step>, t: TaskId, after: seq<Step>)
    requires
      var s := Run(START, before);
      t < |s.tasks| && !s.tasks[t].at.Over? && Settled(Run(Next(s, Request(t)), after))
    ensures
      var s, s' := Run(START, before), Run(Next(Run(START, before), Request(t)), after);
      Inv(s') && Reaches(s, t, s')
  {
    var s := Run(START, before);
    var s1 := Next(s, Request(t));
    var s', d := Run(s1, after), Landing(s, t);
    Reachable(before);
    StepKeepsInv(s, Request(t));
    RunKeepsInv(s1, after);
    LandingIsAlive(s, t);
    LandStep(s, d);
    assert TaskGrows(s1.tasks[d], s'.tasks[d]);
    if |s.tasks[d].throws| < |s'.tasks[d].throws| {
      CancelReachesInnermost(s', d, |s.tasks[d].throws|);
    }
  }

  // ---- a single request --------------------------------------------------------------

  /** CancelledError has gone down as far as task h, no task below it was cancelled, and every handler found a task
      that had not been cancelled before. No task at all was cancelled if h is -1. */
  ghost predicate OneThrow(s: State, h: int) {
    && (forall t :: 0 <= t < |s.tasks| && Doomed(s.tasks[t]) ==>
          s.tasks[t].at.OnChild? || (t == h && s.tasks[t].throws == []))
    && (forall t :: 0 <= t < |s.tasks| && h < t ==> s.tasks[t].throws == [])
    && (forall c :: 0 <= c < |s.calls| && s.calls[c].look.Found? ==> s.calls[c].look.nth == 0)
  }

  /** No task below h is in a handler, and no request lands elsewhere. */
  lemma LandsThere(s: State, h: int, t: TaskId)
    requires Inv(s) && OneThrow(s, h) && h < t < |s.tasks|
    ensures !InHandler(s.tasks[t].at) && Landing(s, t) == t
  {
    assert TaskOk(s, t);
  }

  /** The handler's request goes one task further down. */
  lemma FoundThrow(s: State, t: TaskId, h: int) returns (h': int)
    requires Inv(s) && OneThrow(s, h) && Enabled(s, Resume(t)) && s.tasks[t].at.Shielded? && Doomed(s.tasks[t])
    requires s.calls[s.tasks[t].at.call].list != []
    ensures OneThrow(ResumeTask(s, t), h') && (h < 0 ==> h' == h)
  {
    var c := s.tasks[t].at.call;
    assert TaskOk(s, t) && CallOk(s, c) && ListOk(s, c) && t == h;
    var child := s.calls[c].list[0];
    assert child in s.calls[c].list && Registered(s, child, c) && TaskOk(s, child);
    assert t < child;
    LandsThere(s, h, child);
    HandleParts(s, t, c, child, child);
    h' := child;
  }

  lemma OneTaskThrow(s: State, s': State, t: TaskId, k: Task, h: int)
    requires OneThrow(s, h) && t < |s.tasks| && s'.tasks == s.tasks[t := k]
    requires Doomed(k) ==> k.at.OnChild? || (t == h && k.throws == [])
    requires h < t ==> k.throws == []
    requires forall c :: 0 <= c < |s'.calls| && s'.calls[c].look.Found? ==>
               c < |s.calls| && s'.calls[c].look == s.calls[c].look
    ensures OneThrow(s', h)
  {
  }

  /** The handler after `await task`, or when nothing is registered. */
  lemma ConcludeThrow(s: State, t: TaskId, h: int)
    requires Inv(s) && OneThrow(s, h) && Enabled(s, Resume(t))
    requires s.tasks[t].at.OnChild? || (s.tasks[t].at.Shielded? && Doomed(s.tasks[t]))
    requires s.tasks[t].at.Shielded? ==> s.calls[s.tasks[t].at.call].list == []
    ensures OneThrow(ResumeTask(s, t), h)
  {
    assert TaskOk(s, t);
    OneTaskThrow(s, ResumeTask(s, t), t, ResumeTask(s, t).tasks[t], h);
  }

  /** Any other step of a task but a handler that finds one. */
  lemma OtherThrow(s: State, t: TaskId, h: int)
    requires Inv(s) && OneThrow(s, h) && Enabled(s, Resume(t))
    requires s.tasks[t].at.Shielded? && Doomed(s.tasks[t]) ==> s.calls[s.tasks[t].at.call].list == []
    ensures OneThrow(ResumeTask(s, t), h)
  {
    if s.tasks[t].at.OnChild? || (s.tasks[t].at.Shielded? && Doomed(s.tasks[t])) {
      ConcludeThrow(s, t, h);
    } else {
      assert TaskOk(s, t);
      OneTaskThrow(s, ResumeTask(s, t), t, ResumeTask(s, t).tasks[t], h);
    }
  }

  lemma ActThrow(s: State, t: TaskId, move: Move, h: int)
    requires Inv(s) && OneThrow(s, h) && Enabled(s, Act(t, move))
    ensures OneThrow(ActTask(s, t, move), h)
  {
    assert TaskOk(s, t);
    OneTaskThrow(s, ActTask(s, t, move), t, ActTask(s, t, move).tasks[t], h);
  }

  lemma OneThrowStep(s: State, step: Step, h: int) returns (h': int)
    requires Inv(s) && OneThrow(s, h) && !step.Request?
    ensures OneThrow(Next(s, step), h') && (h < 0 ==> h' == h)
  {
    h' := h;
    if Enabled(s, step) {
      match step
      case Resume(t) =>
        if s.tasks[t].at.Shielded? && Doomed(s.tasks[t]) && s.calls[s.tasks[t].at.call].list != [] {
          h' := FoundThrow(s, t, h);
        } else {
          OtherThrow(s, t, h);
        }
      case Wake(t) =>
        assert TaskOk(s, t);
        OneTaskThrow(s, Next(s, step), t, Next(s, step).tasks[t], h);
      case Act(t, move) => ActThrow(s, t, move, h);
      case _ =>
    }
  }

  predicate Requestless(steps: seq<Step>) {
    forall i :: 0 <= i < |steps| ==> !steps[i].Request?
  }

  lemma {:induction false} OneThrowRun(s: State, steps: seq<Step>, h: int) returns (h': int)
    requires Inv(s) && OneThrow(s, h) && Requestless(steps)
    ensures OneThrow(Run(s, steps), h') && (h < 0 ==> h' == h)
    decreases |steps|
  {
    if steps == [] {
      h' := h;
    } else {
      h' := OneThrowStep(s, steps[0], h);
      StepKeepsInv(s, steps[0]);
      h' := OneThrowRun(Next(s, steps[0]), steps[1..], h');
    }
  }

  lemma {:induction false} LastIsFirst(s: State, t: TaskId)
    requires Inv(s) && t < |s.tasks| && s.tasks[t].throws != []
    requires forall c :: 0 <= c < |s.calls| && s.calls[c].look.Found? ==> s.calls[c].look.nth == 0
    ensures Last(s, t, 0).1 == 0
    decreases |s.tasks| - t
  {
    var at := s.tasks[t].throws[0];
    assert TaskOk(s, t) && ThrowOk(s, t, at);
    if at.Shielded? && s.calls[at.call].look.Found? {
      assert CallOk(s, at.call);
      var look := s.calls[at.call].look;
      if look.nth < |s.tasks[look.landed].throws| {
        LastIsFirst(s, look.landed);
      }
    }
  }

  /** With one request in the whole run no handler of an earlier cancellation is ever met: the request lands in the task
      itself, and its CancelledError is the first that is thrown into that task and into every one below, down to the
      innermost registered task. Only a task that was running and did not await again ends without. */
  lemma {:induction false} OneRequestReachesInnermost(before: seq<Step>, t: TaskId, after: seq<Step>)
    requires Requestless(before) && Requestless(after)
    requires
      var s := Run(START, before);
      t < |s.tasks| && !s.tasks[t].at.Over? && Settled(Run(Next(s, Request(t)), after))
    ensures
      var s, s' := Run(START, before), Run(Next(Run(START, before), Request(t)), after);
      && Landing(s, t) == t && s.tasks[t].throws == [] && Inv(s') && Reaches(s, t, s')
      && (s'.tasks[t].throws != [] ==>
            var (e, i) := Last(s', t, 0);
            i == 0 && !InHandler(s'.tasks[e].throws[0]))
  {
    var s := Run(START, before);
    var s1 := Next(s, Request(t));
    Reachable(before);
    var none := OneThrowRun(START, before, -1);
    LandsThere(s, none, t);
    StepKeepsInv(s, Request(t));
    var h := OneThrowRun(s1, after, t);
    TopCancelReaches(before, t, after);
    if Run(s1, after).tasks[t].throws != [] {
      LastIsFirst(Run(s1, after), t);
    }
  }

  /** A task is over only after CancelledError was thrown into it for every handler that made it a request, or it ended
      cancelled before it had begun. */
  lemma {:induction false} NoRequestIsLost(steps: seq<Step>, c: CallId)
    requires
      var s := Run(START, steps);
      c < |s.calls| && s.calls[c].look.Found?
    ensures
      var s := Run(START, steps);
      var look := s.calls[c].look;
      && s.calls[c].owner < look.child <= look.landed < |s.tasks|
      && (look.nth < |s.tasks[look.landed].throws| || (Doomed(s.tasks[look.landed]) && !s.tasks[look.landed].at.Over?))
  {
    Reachable(steps);
    assert CallOk(Run(START, steps), c);
  }

  // ---- a second request --------------------------------------------------------------

  /** A request that meets the handler awaiting its executor future cancels that future and no task, also if the
      function waits for another registered task by then. */
  lemma AwaitingHandlerMisses(s: State, t: TaskId, c: CallId)
    requires Inv(s) && t < |s.tasks| && s.tasks[t].at == OnFuture(c) && s.tasks[t].signal.Asleep?
    requires c < |s.calls| && s.calls[c].future.Pending?
    ensures
      var s' := Next(s, Request(t));
      s'.calls[c].future == Revoked(false) && forall u :: 0 <= u < |s.tasks| && u != t ==> s'.tasks[u] == s.tasks[u]
  {
    assert TaskOk(s, t);
  }

  lemma RunStep(s: State, step: Step, next: State, rest: seq<Step>, end: State)
    requires Next(s, step) == next && Run(next, rest) == end
    ensures Run(s, [step] + rest) == end
  {
    assert ([step] + rest)[1..] == rest;
  }

  lemma {:induction false} RunOn(s: State, first: seq<Step>, second: seq<Step>)
    ensures Run(s, first + second) == Run(Run(s, first), second)
    decreases |first|
  {
    if first == [] {
      assert first + second == second;
    } else {
      assert (first + second)[1..] == first[1..] + second;
      RunOn(Next(s, first[0]), first[1..], second);
    }
  }

  /** A task that is registered in call 0, or has been. */
  function Child(at: At, signal: Signal, throws: seq<At>): Task {
    Task(Some(0), !at.Fresh?, at, signal, false, throws)
  }

  function Parent(at: At, signal: Signal, throws: seq<At>): Task {
    Task(None, !at.Fresh?, at, signal, false, throws)
  }

  /** Call 0 of task 0, which has not given anything yet. */
  function Waiting0(worker: Worker, list: seq<TaskId>, look: Look, spared: Option<bool>): Call {
    Call(0, worker, Pending, list, look, spared, if spared.Some? then Some(false) else None, None)
  }

  const CALLING := State([Parent(Shielded(0), Asleep, [])], [Waiting0(Queued, [], Unseen, None)], None)
  const NESTED := State([Parent(Shielded(0), Asleep, []), Child(Own, Asleep, [])],
                        [Waiting0(Waiting(1), [1], Unseen, None)], None)
  const FOUND := State([Parent(OnChild(0, 1), Asleep, [Shielded(0)]), Child(Own, Thrown, [])],
                       [Waiting0(Waiting(1), [1], Found(1, 1, 0), None)], None)
  const SPARED := State([Parent(OnFuture(0), Asleep, [Shielded(0)]), Child(Over(false), Asleep, [Own])],
                        [Waiting0(Waiting(1), [], Found(1, 1, 0), Some(true))], None)
  const AGAIN := State([Parent(OnFuture(0), Asleep, [Shielded(0)]), Child(Over(false), Asleep, [Own]),
                        Child(Own, Asleep, [])],
                       [Waiting0(Waiting(2), [2], Found(1, 1, 0), Some(true))], None)

  lemma CallsSync() returns (steps: seq<Step>)
    ensures Run(START, steps) == CALLING
  {
    var s1 := State([Parent(Fresh, Ready, [])], [], None);
    var s2 := State([Parent(Active, Asleep, [])], [], Some(0));
    RunStep(s2, Act(0, CallSync), CALLING, [], CALLING);
    RunStep(s1, Resume(0), s2, [Act(0, CallSync)], CALLING);
    RunStep(START, Spawn, s1, [Resume(0), Act(0, CallSync)], CALLING);
    steps := [Spawn, Resume(0), Act(0, CallSync)];
  }

  /** A task begins, alone in the list of call 0. */
  lemma BeginsIn(s: State, t: TaskId, s': State)
    requires Enabled(s, Resume(t)) && s.tasks[t] == Child(Fresh, Ready, []) && |s.calls| == 1 && s.calls[0].list == []
    requires s' == State(s.tasks[t := Child(Active, Asleep, [])], [s.calls[0].(list := [t])], Some(t))
    ensures Next(s, Resume(t)) == s'
  {
    assert s.calls[0].list + [t] == [t];
    assert s.calls[0 := s'.calls[0]] == s'.calls;
    assert s.tasks[t := TakenUp(s.tasks[t])][t := Child(Active, Asleep, [])] == s'.tasks;
  }

  lemma EntersChild() returns (steps: seq<Step>)
    ensures Run(CALLING, steps) == NESTED
  {
    var p := Parent(Shielded(0), Asleep, []);
    var s1 := State([p], [Waiting0(Running, [], Unseen, None)], None);
    var s2 := State([p, Child(Fresh, Ready, [])], [Waiting0(Waiting(1), [], Unseen, None)], None);
    var s3 := State([p, Child(Active, Asleep, [])], [Waiting0(Waiting(1), [1], Unseen, None)], Some(1));
    RunStep(s3, Act(1, Await), NESTED, [], NESTED);
    BeginsIn(s2, 1, s3);
    RunStep(s2, Resume(1), s3, [Act(1, Await)], NESTED);
    RunStep(s1, Enter(0, 0), s2, [Resume(1), Act(1, Await)], NESTED);
    RunStep(CALLING, Start(0), s1, [Enter(0, 0), Resume(1), Act(1, Await)], NESTED);
    steps := [Start(0), Enter(0, 0), Resume(1), Act(1, Await)];
  }

  lemma FindsChild() returns (steps: seq<Step>)
    ensures Run(NESTED, steps) == FOUND
  {
    var s1 := State([Parent(Shielded(0), Thrown, []), Child(Own, Asleep, [])],
                    [Waiting0(Waiting(1), [1], Unseen, None)], None);
    var up := WithTask(s1, 0, TakenUp(s1.tasks[0]));
    assert TakenUp(s1.tasks[0]).throws == [Shielded(0)];
    assert Landing(up, 1) == 1 && Land(up, 1) == WithTask(up, 1, Child(Own, Thrown, []));
    assert Handle(up, 0, 0).tasks == FOUND.tasks && Handle(up, 0, 0).calls == FOUND.calls;
    RunStep(s1, Resume(0), FOUND, [], FOUND);
    RunStep(NESTED, Request(0), s1, [Resume(0)], FOUND);
    steps := [Request(0), Resume(0)];
  }

  lemma ChildSurvives() returns (steps: seq<Step>)
    ensures Run(FOUND, steps) == SPARED
  {
    var p, look := Parent(OnChild(0, 1), Asleep, [Shielded(0)]), Found(1, 1, 0);
    var s1 := State([p, Child(Active, Asleep, [Own])], [Waiting0(Waiting(1), [1], look, None)], Some(1));
    var s2 := State([p, Child(Over(false), Asleep, [Own])], [Waiting0(Waiting(1), [], look, None)], None);
    var s3 := State([p.(signal := Ready), Child(Over(false), Asleep, [Own])],
                    [Waiting0(Waiting(1), [], look, None)], None);
    RunStep(s3, Resume(0), SPARED, [], SPARED);
    RunStep(s2, Wake(0), s3, [Resume(0)], SPARED);
    assert RemoveFirst([1], 1) == [];
    assert ActTask(s1, 1, Finish).tasks == s2.tasks && ActTask(s1, 1, Finish).calls == s2.calls;
    RunStep(s1, Act(1, Finish), s2, [Wake(0), Resume(0)], SPARED);
    assert TakenUp(FOUND.tasks[1]) == Child(Own, Asleep, [Own]);
    assert ResumeTask(FOUND, 1).tasks == s1.tasks && ResumeTask(FOUND, 1).calls == s1.calls;
    RunStep(FOUND, Resume(1), s1, [Act(1, Finish), Wake(0), Resume(0)], SPARED);
    steps := [Resume(1), Act(1, Finish), Wake(0), Resume(0)];
  }

  lemma EntersAnother() returns (steps: seq<Step>)
    ensures Run(SPARED, steps) == AGAIN
  {
    var p, c := Parent(OnFuture(0), Asleep, [Shielded(0)]), Child(Over(false), Asleep, [Own]);
    var look := Found(1, 1, 0);
    var s1 := State([p, c], [Waiting0(Running, [], look, Some(true))], None);
    var s2 := State([p, c, Child(Fresh, Ready, [])], [Waiting0(Waiting(2), [], look, Some(true))], None);
    var s3 := State([p, c, Child(Active, Asleep, [])], [Waiting0(Waiting(2), [2], look, Some(true))], Some(2));
    RunStep(s3, Act(2, Await), AGAIN, [], AGAIN);
    BeginsIn(s2, 2, s3);
    RunStep(s2, Resume(2), s3, [Act(2, Await)], AGAIN);
    RunStep(s1, Enter(0, 0), s2, [Resume(2), Act(2, Await)], AGAIN);
    RunStep(SPARED, Back(0), s1, [Enter(0, 0), Resume(2), Act(2, Await)], AGAIN);
    steps := [Back(0), Enter(0, 0), Resume(2), Act(2, Await)];
  }

  /** A second cancel of the same task need not reach the innermost registered task: a first one found task 1, which
      survived it; then the function waits for task 2, and a second request cancels the executor future and leaves
      task 2, which is registered, alone. */
  lemma SecondCancelMisses() returns (steps: seq<Step>)
    ensures
      var s := Run(START, steps);
      && |s.tasks| == 3 && |s.calls| == 1 && Registered(s, 2, 0) && s.calls[0].owner == 0
      && Enabled(s, Request(0))
      && Next(s, Request(0)).calls[0].future == Revoked(false) && Next(s, Request(0)).tasks[2] == s.tasks[2]
      && !Doomed(s.tasks[2])
  {
    var a := CallsSync();
    var b := EntersChild();
    var c := FindsChild();
    var d := ChildSurvives();
    var e := EntersAnother();
    RunOn(START, a, b);
    RunOn(START, a + b, c);
    RunOn(START, a + b + c, d);
    RunOn(START, a + b + c + d, e);
    steps := a + b + c + d + e;
  }
}
