/** Every step of the cancellation protocol keeps the invariant, so every run does. */
module CancellationInvariant {
  import opened Contexts
  import opened ListRemoval
  import opened Cancellation

  // ---- the invariant -----------------------------------------------------------------

  predicate InHandler(at: At) {
    at.OnChild? || at.OnFuture?
  }

  /** What the call's state has to be while its owner waits in it. */
  predicate AtOk(s: State, t: TaskId)
    requires t < |s.tasks|
  {
    var k := s.tasks[t];
    match k.at
    case Shielded(c) =>
      && c < |s.calls| && s.calls[c].owner == t && s.calls[c].gives.None? && s.calls[c].look.Unseen?
      && s.calls[c].spared.None? && s.calls[c].late.None? && !s.calls[c].future.Revoked?
      && (k.signal.Ready? ==> s.calls[c].future.Resolved?)
    case OnChild(c, d) =>
      && c < |s.calls| && s.calls[c].owner == t && s.calls[c].gives.None?
      && s.calls[c].look.Found? && s.calls[c].look.child == d && t < d < |s.tasks|
      && s.calls[c].spared.None? && s.calls[c].late.None? && !s.calls[c].future.Revoked?
      && (!k.signal.Asleep? ==> s.tasks[d].at == Over(k.signal.Thrown?))
    case OnFuture(c) =>
      && c < |s.calls| && s.calls[c].owner == t && s.calls[c].gives.None?
      && s.calls[c].look.Found? && s.calls[c].spared == Some(true) && s.calls[c].late == Some(false)
      && (k.signal.Thrown? <==> s.calls[c].future.Revoked?) && s.calls[c].future != Revoked(true)
      && (k.signal.Ready? ==> s.calls[c].future.Resolved?) && OnFuture(c) !in k.throws
    case _ => true
  }

  /** What follows from CancelledError having been thrown into the task at a place. */
  predicate ThrowOk(s: State, t: TaskId, at: At)
    requires t < |s.tasks|
  {
    match at
    case Fresh => s.tasks[t].at == Over(true)
    case Own => true
    case Shielded(c) => c < |s.calls| && s.calls[c].owner == t && !s.calls[c].look.Unseen?
    case OnChild(c, _) => c < |s.calls| && s.calls[c].owner == t && s.calls[c].spared == Some(false)
    case OnFuture(c) => c < |s.calls| && s.calls[c].owner == t && s.calls[c].gives == Some(CancelledError)
    case _ => false
  }

  /** What a task's own fields have to do with each other. */
  predicate Shaped(k: Task) {
    && (k.at.Active? || k.at.Over? ==> k.signal.Asleep?)
    && (k.at.Over? ==> !k.must)
    && (k.at.Fresh? ==> k.signal.Ready? && k.throws == [] && !k.begun)
    && (!k.at.Fresh? && !k.at.Over? ==> k.begun)
    && (InHandler(k.at) ==> k.throws != [])
    && (k.throws != [] ==> !InHandler(k.throws[0]))
  }

  predicate TaskOk(s: State, t: TaskId)
    requires t < |s.tasks|
  {
    var k := s.tasks[t];
    && (k.list.Some? ==> k.list.value < |s.calls| && s.calls[k.list.value].owner < t)
    && (k.at.Active? <==> s.running == Some(t))
    && Shaped(k) && AtOk(s, t)
    && forall at :: at in k.throws ==> ThrowOk(s, t, at)
  }

  /** The task is registered in the task_context of call c: main_wrap has begun and not ended. */
  predicate Registered(s: State, t: TaskId, c: CallId) {
    t < |s.tasks| && s.tasks[t].list == Some(c) && s.tasks[t].begun && !s.tasks[t].at.Over?
  }

  ghost predicate ListOk(s: State, c: CallId)
    requires c < |s.calls|
  {
    Unique(s.calls[c].list) && forall t :: t in s.calls[c].list <==> Registered(s, t, c)
  }

  /** A request that landed is thrown, or is still to be. */
  predicate LandedOk(k: Task, nth: nat) {
    nth <= |k.throws| && (nth == |k.throws| ==> Doomed(k) && !k.at.Active? && !k.at.Over?)
  }

  predicate LookOk(s: State, k: Call) {
    k.look.Found? ==>
      && k.owner < k.look.child <= k.look.landed < |s.tasks|
      && LandedOk(s.tasks[k.look.landed], k.look.nth)
  }

  /** How the future, the handler and what the call gave hang together. missed says that CancelledError was thrown
      into the handler's own await of the executor future. */
  predicate OutcomeOk(k: Call, missed: bool) {
    && (k.future.Resolved? ==> k.worker == Returned(k.future.outcome))
    && (k.spared.Some? ==> k.look.Found?)
    && (k.late.Some? ==> !k.look.Unseen? && (k.look.Found? ==> k.spared.Some?))
    && (k.gives.None? && k.late.Some? ==> k.spared == Some(true) && k.late == Some(false))
    && (k.gives.Some? && !k.look.Unseen? ==> k.late.Some?)
    && (k.future == Revoked(true) <==> k.late == Some(false) && k.spared != Some(true))
    && (k.future == Revoked(false) ==> k.spared == Some(true) && k.late == Some(false))
    && (k.gives.Some? && k.gives.value.Outcome? ==> k.future == Resolved(k.gives.value.n))
    && (k.gives.Some? ==>
          (k.gives.value.Outcome? <==> k.look.Unseen? || (k.spared == Some(true) && k.late == Some(false) && !missed)))
  }

  ghost predicate CallOk(s: State, c: CallId)
    requires c < |s.calls|
  {
    var k := s.calls[c];
    && k.owner < |s.tasks|
    && (k.gives.None? ==> CallOf(s.tasks[k.owner].at) == Some(c))
    && ListOk(s, c)
    && LookOk(s, k)
    && OutcomeOk(k, OnFuture(c) in s.tasks[k.owner].throws)
  }

  ghost predicate Inv(s: State) {
    && (s.running.Some? ==> s.running.value < |s.tasks|)
    && (forall t :: 0 <= t < |s.tasks| ==> TaskOk(s, t))
    && (forall c :: 0 <= c < |s.calls| ==> CallOk(s, c))
  }

  // ---- what steps leave alone --------------------------------------------------------

  /** The task was running when it was doomed: CancelledError waits for its next await, or ends it. */
  predicate Overtaken(k: Task, k': Task) {
    if |k'.throws| == |k.throws| then
      k'.at == Over(true) || (Doomed(k') && (k'.at.Active? || k'.at.Own? || k'.at.Shielded?))
    else |k.throws| < |k'.throws| && (k'.throws[|k.throws|].Own? || k'.throws[|k.throws|].Shielded?)
  }

  /** What no step undoes in a task; CancelledError is thrown into it where it was when it was doomed. */
  predicate TaskGrows(k: Task, k': Task) {
    && k'.list == k.list && k.throws <= k'.throws
    && (k.at.Over? ==> k'.at == k.at && k'.throws == k.throws)
    && (k.begun ==> k'.begun)
    && (k.at.Active? && Doomed(k) ==> Overtaken(k, k'))
    && (Doomed(k) && !k.at.Active? && !k.at.Over? ==>
          if |k'.throws| == |k.throws| then Doomed(k') && k'.at == k.at else k'.throws[|k.throws|] == k.at)
  }

  /** What no step undoes in a call. */
  predicate CallGrows(k: Call, k': Call) {
    && k'.owner == k.owner
    && (!k.future.Pending? ==> k'.future == k.future)
    && (!k.look.Unseen? ==> k'.look == k.look)
    && (k.spared.Some? ==> k'.spared == k.spared)
    && (k.gives.Some? ==> k'.gives == k.gives)
  }

  /** Worker, list, and the function's outcome: nothing the owner's handler does. */
  predicate CallQuiet(k: Call, k': Call) {
    && k' == k.(worker := k'.worker, list := k'.list, future := k'.future)
    && (k'.future == k.future || (k.future.Pending? && k'.future.Resolved?))
  }

  ghost predicate Grows(s: State, s': State) {
    && |s.tasks| <= |s'.tasks| && |s.calls| <= |s'.calls|
    && (forall t :: 0 <= t < |s.tasks| ==> TaskGrows(s.tasks[t], s'.tasks[t]))
    && (forall c :: 0 <= c < |s.calls| ==> CallGrows(s.calls[c], s'.calls[c]))
  }

  lemma TaskFrame(s: State, s': State, t: TaskId)
    requires t < |s.tasks| && TaskOk(s, t) && Grows(s, s') && s'.tasks[t] == s.tasks[t]
    requires s.running == Some(t) <==> s'.running == Some(t)
    requires var c := CallOf(s.tasks[t].at);
             c.Some? && c.value < |s.calls| ==> CallQuiet(s.calls[c.value], s'.calls[c.value])
    ensures TaskOk(s', t)
  {
    var k := s.tasks[t];
    forall at | at in k.throws ensures ThrowOk(s', t, at) {
      assert ThrowOk(s, t, at);
    }
  }

  lemma CallFrame(s: State, s': State, c: CallId)
    requires c < |s.calls| && CallOk(s, c) && Grows(s, s') && s'.calls[c] == s.calls[c]
    requires var o := s.calls[c].owner;
             && (s.calls[c].gives.None? ==> CallOf(s'.tasks[o].at) == Some(c))
             && (OnFuture(c) in s'.tasks[o].throws <==> OnFuture(c) in s.tasks[o].throws)
    requires forall t :: Registered(s', t, c) <==> Registered(s, t, c)
    ensures CallOk(s', c)
  {
    var k := s.calls[c];
    if k.look.Found? {
      assert TaskGrows(s.tasks[k.look.landed], s'.tasks[k.look.landed]);
    }
  }

  /** A step that changes only the tasks in ts and the calls in cs, and of other tasks' calls only what no handler
      does. */
  ghost predicate Confines(s: State, s': State, ts: set<TaskId>, cs: set<CallId>) {
    && Grows(s, s')
    && (forall t :: 0 <= t < |s.tasks| && t !in ts ==>
          s'.tasks[t] == s.tasks[t] && (s.running == Some(t) <==> s'.running == Some(t)))
    && (forall c :: 0 <= c < |s.calls| && c !in cs ==> s'.calls[c] == s.calls[c])
    && (forall c :: 0 <= c < |s.calls| && c in cs && s.calls[c].owner !in ts ==> CallQuiet(s.calls[c], s'.calls[c]))
    && (forall t :: 0 <= t < |s.tasks| && t in ts ==>
          && (CallOf(s.tasks[t].at).Some? && CallOf(s.tasks[t].at).value !in cs ==>
                CallOf(s'.tasks[t].at) == CallOf(s.tasks[t].at))
          && (forall c :: c !in cs ==> (OnFuture(c) in s'.tasks[t].throws <==> OnFuture(c) in s.tasks[t].throws)))
    && (forall c, t :: 0 <= c < |s.calls| && c !in cs ==> (Registered(s', t, c) <==> Registered(s, t, c)))
  }

  lemma OthersStayOk(s: State, s': State, ts: set<TaskId>, cs: set<CallId>)
    requires Inv(s) && Confines(s, s', ts, cs)
    ensures forall t :: 0 <= t < |s.tasks| && t !in ts ==> TaskOk(s', t)
    ensures forall c :: 0 <= c < |s.calls| && c !in cs ==> CallOk(s', c)
  {
    forall t | 0 <= t < |s.tasks| && t !in ts ensures TaskOk(s', t) {
      assert TaskOk(s, t);
      TaskFrame(s, s', t);
    }
    forall c | 0 <= c < |s.calls| && c !in cs ensures CallOk(s', c) {
      assert CallOk(s, c);
      CallFrame(s, s', c);
    }
  }

  // ---- worker threads ----------------------------------------------------------------

  /** A step of a worker, or of the loop on behalf of one. */
  lemma WorkerStep(s: State, s': State, c: CallId, k: Call)
    requires Inv(s) && c < |s.calls| && s' == WithCall(s, c, k) && CallQuiet(s.calls[c], k)
    requires k.list == s.calls[c].list && (k.future.Resolved? ==> k.worker == Returned(k.future.outcome))
    ensures Inv(s') && Grows(s, s')
  {
    assert CallOk(s, c);
    assert Confines(s, s', {}, {c});
    OthersStayOk(s, s', {}, {c});
    assert ListOk(s, c);
    assert forall t :: Registered(s', t, c) <==> Registered(s, t, c);
  }

  lemma NewTaskStep(s: State, s': State, k: Task)
    requires Inv(s) && s' == s.(tasks := s.tasks + [k])
    requires k == Task(k.list, false, Fresh, Ready, false, []) && (k.list.Some? ==> k.list.value < |s.calls|)
    ensures Inv(s') && Grows(s, s')
  {
    assert forall c, t :: Registered(s', t, c) <==> Registered(s, t, c);
    assert Confines(s, s', {}, {});
    OthersStayOk(s, s', {}, {});
    if k.list.Some? {
      assert CallOk(s, k.list.value);
    }
    assert TaskOk(s', |s.tasks|);
  }

  // ---- steps of one task -------------------------------------------------------------

  /** What becomes of the throws of a task that is resumed at a place, or not. */
  predicate MayThrow(k: Task, k': Task) {
    k'.throws == k.throws || k'.throws == k.throws + [k.at]
  }

  predicate Listed(k: Task) {
    k.begun && !k.at.Over?
  }

  /** The new state of the one task that a step changes, and r the task that then runs. */
  predicate Turns(s: State, t: TaskId, k: Task, r: Option<TaskId>)
    requires t < |s.tasks|
  {
    && TaskGrows(s.tasks[t], k) && MayThrow(s.tasks[t], k) && Shaped(k)
    && (k.at.Active? <==> r == Some(t))
    && (r == s.running || ((s.running.None? || s.running == Some(t)) && (r.None? || r == Some(t))))
  }

  /** Who is registered where, but for the task itself in its own list. */
  lemma OthersRegistered(s: State, s': State, t: TaskId, k: Task)
    requires t < |s.tasks| && s'.tasks == s.tasks[t := k] && k.list == s.tasks[t].list
    ensures forall c: CallId, u: TaskId ::
      u != t || k.list != Some(c) || Listed(k) == Listed(s.tasks[t]) ==> (Registered(s', u, c) <==> Registered(s, u, c))
  {
  }

  /** A step of one task, which changes the calls in cs. */
  lemma OneTaskConfines(s: State, s': State, t: TaskId, k: Task, cs: set<CallId>)
    requires Inv(s) && t < |s.tasks| && s'.tasks == s.tasks[t := k] && Turns(s, t, k, s'.running)
    requires |s.calls| <= |s'.calls|
    requires forall c :: 0 <= c < |s.calls| && c !in cs ==> s'.calls[c] == s.calls[c]
    requires forall c :: 0 <= c < |s.calls| && c in cs ==> CallGrows(s.calls[c], s'.calls[c])
    requires forall c :: 0 <= c < |s.calls| && c in cs && s.calls[c].owner != t ==> CallQuiet(s.calls[c], s'.calls[c])
    requires CallOf(s.tasks[t].at).Some? && CallOf(s.tasks[t].at).value !in cs ==> CallOf(k.at) == CallOf(s.tasks[t].at)
    requires k.throws == s.tasks[t].throws || !s.tasks[t].at.OnFuture? || s.tasks[t].at.call in cs
    requires k.list.Some? && k.list.value !in cs ==> Listed(k) == Listed(s.tasks[t])
    ensures Confines(s, s', {t}, cs)
  {
    OthersRegistered(s, s', t, k);
    forall u | 0 <= u < |s.tasks| && u != t ensures s.running == Some(u) <==> s'.running == Some(u) {
      assert TaskOk(s, t);
    }
  }

  /** A step that changes one task and no call, nor who is registered, nor in which call the task waits. */
  lemma OneTaskStep(s: State, s': State, t: TaskId, k: Task, r: Option<TaskId>)
    requires Inv(s) && t < |s.tasks| && s' == State(s.tasks[t := k], s.calls, r)
    requires Turns(s, t, k, r) && (k.list.Some? ==> Listed(k) == Listed(s.tasks[t]))
    requires CallOf(s.tasks[t].at).Some? ==> CallOf(k.at) == CallOf(s.tasks[t].at) && k.throws == s.tasks[t].throws
    requires AtOk(s', t) && (k.throws != s.tasks[t].throws ==> ThrowOk(s', t, s.tasks[t].at))
    ensures Inv(s') && Grows(s, s')
  {
    assert TaskOk(s, t);
    OneTaskConfines(s, s', t, k, {});
    OthersStayOk(s, s', {t}, {});
    OldThrows(s, s', t);
  }

  /** A step that changes one task that waits in no call, and with it the list it is to be registered in. */
  lemma OneListStep(s: State, s': State, t: TaskId, k: Task, r: Option<TaskId>, c: CallId, q: seq<TaskId>)
    requires Inv(s) && t < |s.tasks| && c < |s.calls| && s.tasks[t].list == Some(c)
    requires s' == State(s.tasks[t := k], s.calls[c := s.calls[c].(list := q)], r)
    requires Turns(s, t, k, r) && CallOf(s.tasks[t].at).None? && k.throws == s.tasks[t].throws
    requires AtOk(s', t)
    requires Unique(q) && forall u :: u in q <==> if u == t then Listed(k) else u in s.calls[c].list
    ensures Inv(s') && Grows(s, s')
  {
    assert TaskOk(s, t) && CallOk(s, c);
    OneTaskConfines(s, s', t, k, {c});
    OthersStayOk(s, s', {t}, {c});
    OldThrows(s, s', t);
    ListedStep(s, s', t, c, k, q);
  }

  /** Who is registered in call c changes by one task, and so does its list; the rest of the call stays. */
  lemma ListedStep(s: State, s': State, t: TaskId, c: CallId, k: Task, q: seq<TaskId>)
    requires Inv(s) && t < |s.tasks| && c < |s.calls| && s.tasks[t].list == Some(c) && Grows(s, s')
    requires s'.tasks == s.tasks[t := k] && s'.calls == s.calls[c := s.calls[c].(list := q)]
    requires k.list == Some(c) && k.throws == s.tasks[t].throws
    requires CallOf(s.tasks[t].at).None?
    requires Unique(q) && forall u :: u in q <==> if u == t then Listed(k) else u in s.calls[c].list
    ensures CallOk(s', c)
  {
    assert CallOk(s, c) && ListOk(s, c);
    OthersRegistered(s, s', t, k);
    assert ListOk(s', c);
    if s.calls[c].look.Found? {
      assert TaskGrows(s.tasks[s.calls[c].look.landed], s'.tasks[s.calls[c].look.landed]);
    }
  }

  /** What followed from earlier throws still follows. */
  lemma OldThrows(s: State, s': State, t: TaskId)
    requires Inv(s) && t < |s.tasks| && Grows(s, s')
    ensures forall at :: at in s.tasks[t].throws ==> ThrowOk(s', t, at)
  {
    forall at | at in s.tasks[t].throws ensures ThrowOk(s', t, at) {
      assert TaskOk(s, t) && ThrowOk(s, t, at);
      assert TaskGrows(s.tasks[t], s'.tasks[t]);
    }
  }

  // ---- requests and wake-ups ---------------------------------------------------------

  /** A step that changes only what the loop will resume a task with. */
  lemma PokeStep(s: State, s': State, t: TaskId, k: Task)
    requires Inv(s) && t < |s.tasks| && !s.tasks[t].at.Over? && s' == WithTask(s, t, k)
    requires k == s.tasks[t].(signal := k.signal, must := k.must) && (Doomed(s.tasks[t]) ==> Doomed(k)) && AtOk(s', t)
    requires (k.at.Active? ==> k.signal.Asleep?) && (k.at.Fresh? ==> k.signal.Ready?)
    ensures Inv(s') && Grows(s, s')
  {
    assert TaskOk(s, t);
    OneTaskStep(s, s', t, k, s.running);
  }

  lemma WakeStep(s: State, t: TaskId)
    requires Inv(s) && Enabled(s, Wake(t))
    ensures Inv(Next(s, Wake(t))) && Grows(s, Next(s, Wake(t)))
  {
    assert TaskOk(s, t);
    PokeStep(s, Next(s, Wake(t)), t, s.tasks[t].(signal := Due(s, s.tasks[t])));
  }

  /** A request that meets a task awaiting the executor future in its handler. */
  lemma RevokeStep(s: State, s': State, d: TaskId, c: CallId)
    requires Inv(s) && d < |s.tasks| && s.tasks[d].at == OnFuture(c) && s.tasks[d].signal.Asleep?
    requires c < |s.calls| && s.calls[c].future.Pending?
    requires s' == WithCall(WithTask(s, d, s.tasks[d].(signal := Thrown)), c, s.calls[c].(future := Revoked(false)))
    ensures Inv(s') && Grows(s, s')
  {
    var k := s.tasks[d].(signal := Thrown);
    assert TaskOk(s, d) && CallOk(s, c) && ListOk(s, c);
    OneTaskConfines(s, s', d, k, {c});
    OthersStayOk(s, s', {d}, {c});
    OldThrows(s, s', d);
    OthersRegistered(s, s', d, k);
    RevokedCallIsOk(s, s', d, c);
  }

  lemma RevokedCallIsOk(s: State, s': State, d: TaskId, c: CallId)
    requires Inv(s) && d < |s.tasks| && s.tasks[d].at == OnFuture(c) && Grows(s, s')
    requires c < |s.calls| && s.calls[c].future.Pending?
    requires s' == WithCall(WithTask(s, d, s.tasks[d].(signal := Thrown)), c, s.calls[c].(future := Revoked(false)))
    requires forall t: TaskId :: Registered(s', t, c) <==> Registered(s, t, c)
    ensures CallOk(s', c)
  {
    assert TaskOk(s, d) && CallOk(s, c) && ListOk(s, c);
    assert ListOk(s', c);
  }

  /** A request that lands in a task, from outside or from a handler. */
  lemma LandStep(s: State, d: TaskId)
    requires Inv(s) && d < |s.tasks|
    ensures Inv(Land(s, d)) && Grows(s, Land(s, d))
    ensures !s.tasks[d].at.Over? ==> Doomed(Land(s, d).tasks[d]) && Land(s, d).tasks[d].at == s.tasks[d].at
    ensures Land(s, d).tasks[d].throws == s.tasks[d].throws
  {
    var s', k := Land(s, d), s.tasks[d];
    assert TaskOk(s, d);
    if !k.at.Over? {
      if s'.calls != s.calls {
        RevokeStep(s, s', d, k.at.call);
      } else {
        PokeStep(s, s', d, s'.tasks[d]);
      }
    }
  }

  // ---- the coroutine's own code ------------------------------------------------------

  lemma AwaitStep(s: State, t: TaskId)
    requires Inv(s) && Enabled(s, Act(t, Await))
    ensures Inv(ActTask(s, t, Await)) && Grows(s, ActTask(s, t, Await))
  {
    var s' := ActTask(s, t, Await);
    assert TaskOk(s, t);
    OneTaskStep(s, s', t, s'.tasks[t], None);
  }

  lemma NewCallIsOk(s: State, s': State, t: TaskId, k: Task, q: Call)
    requires Inv(s) && t < |s.tasks| && s' == State(s.tasks[t := k], s.calls + [q], None)
    requires q == Call(t, Queued, Pending, [], Unseen, None, None, None)
    requires k.list == s.tasks[t].list && k.throws == s.tasks[t].throws && k.at == Shielded(|s.calls|)
    ensures CallOk(s', |s.calls|)
  {
    var n := |s.calls|;
    forall u: TaskId ensures !Registered(s', u, n) {
      assert u < |s.tasks| ==> TaskOk(s, u);
    }
    assert TaskOk(s, t);
    assert OnFuture(n) in s.tasks[t].throws ==> ThrowOk(s, t, OnFuture(n));
    assert ListOk(s', n);
  }

  lemma CallSyncStep(s: State, t: TaskId)
    requires Inv(s) && Enabled(s, Act(t, CallSync))
    ensures Inv(ActTask(s, t, CallSync)) && Grows(s, ActTask(s, t, CallSync))
  {
    var must := s.tasks[t].must;
    var k := s.tasks[t].(at := Shielded(|s.calls|), signal := if must then Thrown else Asleep, must := false);
    NewCallStep(s, ActTask(s, t, CallSync), t, k, Call(t, Queued, Pending, [], Unseen, None, None, None));
  }

  lemma NewCallStep(s: State, s': State, t: TaskId, k: Task, q: Call)
    requires Inv(s) && t < |s.tasks| && s.tasks[t].at.Active? && s' == State(s.tasks[t := k], s.calls + [q], None)
    requires q == Call(t, Queued, Pending, [], Unseen, None, None, None)
    requires k == s.tasks[t].(at := Shielded(|s.calls|), signal := k.signal, must := false)
    requires k.signal == if s.tasks[t].must then Thrown else Asleep
    ensures Inv(s') && Grows(s, s')
  {
    assert TaskOk(s, t);
    OneTaskConfines(s, s', t, k, {});
    OthersStayOk(s, s', {t}, {});
    NewCallIsOk(s, s', t, k, q);
    CallerIsOk(s, s', t, k, q);
  }

  lemma CallerIsOk(s: State, s': State, t: TaskId, k: Task, q: Call)
    requires Inv(s) && t < |s.tasks| && s.tasks[t].at.Active? && s' == State(s.tasks[t := k], s.calls + [q], None)
    requires q == Call(t, Queued, Pending, [], Unseen, None, None, None) && Grows(s, s')
    requires k == s.tasks[t].(at := Shielded(|s.calls|), signal := k.signal, must := false) && !k.signal.Ready?
    ensures TaskOk(s', t)
  {
    assert TaskOk(s, t);
    OldThrows(s, s', t);
  }

  lemma FinishStep(s: State, t: TaskId)
    requires Inv(s) && Enabled(s, Act(t, Finish))
    ensures Inv(ActTask(s, t, Finish)) && Grows(s, ActTask(s, t, Finish))
  {
    var s', list := ActTask(s, t, Finish), s.tasks[t].list;
    var k := s.tasks[t].(at := Over(s.tasks[t].must), signal := Asleep, must := false);
    assert TaskOk(s, t);
    if list.None? {
      OneTaskStep(s, s', t, k, None);
    } else {
      var q := s.calls[list.value].list;
      assert CallOk(s, list.value) && ListOk(s, list.value);
      RemoveFirstRemoves(q, t);
      OneListStep(s, s', t, k, None, list.value, RemoveFirst(q, t));
    }
  }

  // ---- resuming ----------------------------------------------------------------------

  /** A task that is cancelled before it begins. */
  lemma NeverBegunStep(s: State, t: TaskId)
    requires Inv(s) && Enabled(s, Resume(t)) && s.tasks[t].at.Fresh? && Doomed(s.tasks[t])
    ensures Inv(ResumeTask(s, t)) && Grows(s, ResumeTask(s, t))
  {
    var s', k := ResumeTask(s, t), TakenUp(s.tasks[t]).(at := Over(true));
    assert TaskOk(s, t);
    assert s' == State(s.tasks[t := k], s.calls, None);
    OneTaskStep(s, s', t, k, None);
  }

  /** A task that begins. */
  lemma BeginStep(s: State, t: TaskId)
    requires Inv(s) && Enabled(s, Resume(t)) && s.tasks[t].at.Fresh? && !Doomed(s.tasks[t])
    ensures Inv(ResumeTask(s, t)) && Grows(s, ResumeTask(s, t))
  {
    var s', list := ResumeTask(s, t), s.tasks[t].list;
    var k := TakenUp(s.tasks[t]).(begun := true, at := Active);
    assert TaskOk(s, t);
    if list.None? {
      assert s' == State(s.tasks[t := k], s.calls, Some(t));
      OneTaskStep(s, s', t, k, Some(t));
    } else {
      var c := list.value;
      var q := s.calls[c].list + [t];
      assert CallOk(s, c) && ListOk(s, c) && !Registered(s, t, c);
      assert s' == State(s.tasks[t := k], s.calls[c := s.calls[c].(list := q)], Some(t));
      OneListStep(s, s', t, k, Some(t), c, q);
    }
  }

  /** A task resumed at an await of its own. */
  lemma OwnStep(s: State, t: TaskId)
    requires Inv(s) && Enabled(s, Resume(t)) && s.tasks[t].at.Own?
    ensures Inv(ResumeTask(s, t)) && Grows(s, ResumeTask(s, t))
  {
    var s', k := ResumeTask(s, t), TakenUp(s.tasks[t]).(at := Active);
    assert TaskOk(s, t);
    assert s' == State(s.tasks[t := k], s.calls, Some(t));
    OneTaskStep(s, s', t, k, Some(t));
  }

  // ---- a task and the call it waits in -----------------------------------------------

  /** A step of a task that waits in a call of its own, and of the handler's part of that call. */
  lemma OwnCallStep(s: State, s': State, t: TaskId, k: Task, r: Option<TaskId>, c: CallId, q: Call)
    requires Inv(s) && t < |s.tasks| && c < |s.calls| && CallOf(s.tasks[t].at) == Some(c)
    requires s' == State(s.tasks[t := k], s.calls[c := q], r)
    requires Turns(s, t, k, r) && Listed(k) == Listed(s.tasks[t]) && CallGrows(s.calls[c], q)
    requires q.list == s.calls[c].list && (q.gives.None? ==> CallOf(k.at) == Some(c))
    requires AtOk(s', t) && (k.throws != s.tasks[t].throws ==> ThrowOk(s', t, s.tasks[t].at))
    requires LookOk(s', q) && OutcomeOk(q, OnFuture(c) in k.throws)
    ensures Inv(s') && Grows(s, s')
  {
    assert TaskOk(s, t) && CallOk(s, c) && ListOk(s, c);
    OneTaskConfines(s, s', t, k, {c});
    OthersStayOk(s, s', {t}, {c});
    OldThrows(s, s', t);
    OthersRegistered(s, s', t, k);
    assert ListOk(s', c);
  }

  /** The call gives the function's outcome, no CancelledError having come in between. */
  lemma DeliverStep(s: State, t: TaskId)
    requires Inv(s) && Enabled(s, Resume(t)) && !Doomed(s.tasks[t])
    requires s.tasks[t].at.Shielded? || s.tasks[t].at.OnFuture?
    ensures Inv(ResumeTask(s, t)) && Grows(s, ResumeTask(s, t))
  {
    var s', c := ResumeTask(s, t), s.tasks[t].at.call;
    assert TaskOk(s, t) && CallOk(s, c);
    var k, q := TakenUp(s.tasks[t]).(at := Active), s.calls[c].(gives := Some(Outcome(s.calls[c].future.outcome)));
    assert s' == State(s.tasks[t := k], s.calls[c := q], Some(t));
    OwnCallStep(s, s', t, k, Some(t), c, q);
  }

  /** CancelledError is thrown into `await exec_coro`. */
  lemma MissStep(s: State, t: TaskId)
    requires Inv(s) && Enabled(s, Resume(t)) && Doomed(s.tasks[t]) && s.tasks[t].at.OnFuture?
    ensures Inv(ResumeTask(s, t)) && Grows(s, ResumeTask(s, t))
  {
    var s', c := ResumeTask(s, t), s.tasks[t].at.call;
    assert TaskOk(s, t) && CallOk(s, c);
    var k, q := TakenUp(s.tasks[t]).(at := Active), s.calls[c].(gives := Some(CancelledError));
    assert s' == State(s.tasks[t := k], s.calls[c := q], Some(t));
    assert k.throws[|k.throws| - 1] == OnFuture(c);
    OwnCallStep(s, s', t, k, Some(t), c, q);
  }

  /** The handler goes on to await the executor future. */
  lemma SparedStep(s: State, t: TaskId, c: CallId)
    requires Inv(s) && Enabled(s, Resume(t)) && s.tasks[t].at.OnChild? && c == s.tasks[t].at.call
    requires s.calls[c].future.Pending? && !Doomed(s.tasks[t])
    ensures Inv(ResumeTask(s, t)) && Grows(s, ResumeTask(s, t))
  {
    assert TaskOk(s, t) && CallOk(s, c);
    assert OnFuture(c) in s.tasks[t].throws ==> ThrowOk(s, t, OnFuture(c));
    var k, q := TakenUp(s.tasks[t]).(at := OnFuture(c)), s.calls[c].(spared := Some(true), late := Some(false));
    assert ResumeTask(s, t) == State(s.tasks[t := k], s.calls[c := q], None);
    OwnCallStep(s, ResumeTask(s, t), t, k, None, c, q);
  }

  /** The handler gives CancelledError, having cancelled the executor future if that was not done. */
  lemma GivenUpStep(s: State, t: TaskId, c: CallId)
    requires Inv(s) && Enabled(s, Resume(t)) && s.tasks[t].at.OnChild? && c == s.tasks[t].at.call
    requires !s.calls[c].future.Pending? || Doomed(s.tasks[t])
    ensures Inv(ResumeTask(s, t)) && Grows(s, ResumeTask(s, t))
  {
    assert TaskOk(s, t) && CallOk(s, c);
    assert OnFuture(c) in s.tasks[t].throws ==> ThrowOk(s, t, OnFuture(c));
    var was, exc := s.calls[c], Doomed(s.tasks[t]);
    var future := if was.future.Pending? then Revoked(true) else was.future;
    var k := TakenUp(s.tasks[t]).(at := Active);
    var q := was.(spared := Some(!exc), late := Some(!was.future.Pending?), future := future,
                  gives := Some(CancelledError));
    assert OnFuture(c) !in k.throws;
    assert ResumeTask(s, t) == State(s.tasks[t := k], s.calls[c := q], Some(t));
    OwnCallStep(s, ResumeTask(s, t), t, k, Some(t), c, q);
  }

  /** The handler after `await task`. */
  lemma AfterChildStep(s: State, t: TaskId)
    requires Inv(s) && Enabled(s, Resume(t)) && s.tasks[t].at.OnChild?
    ensures Inv(ResumeTask(s, t)) && Grows(s, ResumeTask(s, t))
  {
    var c := s.tasks[t].at.call;
    if s.calls[c].future.Pending? && !Doomed(s.tasks[t]) {
      SparedStep(s, t, c);
    } else {
      GivenUpStep(s, t, c);
    }
  }

  /** The handler when nothing is registered. */
  lemma NobodyStep(s: State, t: TaskId)
    requires Inv(s) && Enabled(s, Resume(t)) && Doomed(s.tasks[t]) && s.tasks[t].at.Shielded?
    requires s.calls[s.tasks[t].at.call].list == []
    ensures Inv(ResumeTask(s, t)) && Grows(s, ResumeTask(s, t))
  {
    var s', c := ResumeTask(s, t), s.tasks[t].at.call;
    assert TaskOk(s, t) && CallOk(s, c);
    var pending := s.calls[c].future.Pending?;
    var k := TakenUp(s.tasks[t]).(at := Active);
    var q := s.calls[c].(look := Nobody, spared := None, late := Some(!pending), gives := Some(CancelledError),
                         future := if pending then Revoked(true) else s.calls[c].future);
    assert s' == State(s.tasks[t := k], s.calls[c := q], Some(t));
    OwnCallStep(s, s', t, k, Some(t), c, q);
  }

  /** A request lands in the same task whatever becomes of tasks before it. */
  lemma {:induction false} LandingSame(s: State, s': State, u: TaskId)
    requires u < |s.tasks| == |s'.tasks| && forall v :: u <= v < |s.tasks| ==> s'.tasks[v] == s.tasks[v]
    ensures Landing(s', u) == Landing(s, u)
    decreases |s.tasks| - u
  {
    var k := s.tasks[u];
    if k.at.OnChild? && k.signal.Asleep? && u < k.at.child < |s.tasks| && !s.tasks[k.at.child].at.Over? {
      LandingSame(s, s', k.at.child);
    }
  }

  /** A request does not land in a task that is over, unless it was made to one. */
  lemma {:induction false} LandingIsAlive(s: State, u: TaskId)
    requires u < |s.tasks| && !s.tasks[u].at.Over?
    ensures !s.tasks[Landing(s, u)].at.Over?
    decreases |s.tasks| - u
  {
    var k := s.tasks[u];
    if k.at.OnChild? && k.signal.Asleep? && u < k.at.child < |s.tasks| && !s.tasks[k.at.child].at.Over? {
      LandingIsAlive(s, k.at.child);
    }
  }

  /** The handler's request, and then its own part, as two steps of which the second is the owner's. */
  lemma HandleParts(s: State, t: TaskId, c: CallId, child: TaskId, d: TaskId)
    requires Inv(s) && Enabled(s, Resume(t)) && Doomed(s.tasks[t]) && s.tasks[t].at == Shielded(c)
    requires s.calls[c].list != [] && child == s.calls[c].list[0]
    requires d == if child < |s.tasks| then Landing(s, child) else 0
    ensures t < child < |s.tasks| && !s.tasks[child].at.Over? && t < d
    ensures
      var s1 := Land(s, d);
      && s1.tasks[t] == s.tasks[t] && s1.calls[c] == s.calls[c] && s1.running == s.running
      && ResumeTask(s, t) == State(s1.tasks[t := TakenUp(s.tasks[t]).(at := OnChild(c, child))],
                                   s1.calls[c := s.calls[c].(look := Found(child, d, |s.tasks[d].throws|))], None)
  {
    assert TaskOk(s, t) && CallOk(s, c) && ListOk(s, c);
    assert child in s.calls[c].list && Registered(s, child, c) && TaskOk(s, child);
    var up := WithTask(s, t, TakenUp(s.tasks[t]));
    LandingSame(s, up, child);
    assert TaskOk(s, d);
    assert s.tasks[d].at.OnFuture? ==> s.tasks[d].at.call != c;
    LandCommutes(s, up, t, d, c);
  }

  /** A request that lands elsewhere lands the same after a change of task t. */
  lemma LandCommutes(s: State, up: State, t: TaskId, d: TaskId, c: CallId)
    requires t < |s.tasks| && d < |s.tasks| && t != d && c < |s.calls|
    requires s.tasks[d].at.OnFuture? ==> s.tasks[d].at.call != c
    requires up == WithTask(s, t, TakenUp(s.tasks[t]))
    ensures Land(s, d).tasks[t] == s.tasks[t] && Land(s, d).calls[c] == s.calls[c] && Land(s, d).running == s.running
    ensures Land(up, d) == WithTask(Land(s, d), t, TakenUp(s.tasks[t]))
  {
    var k := TakenUp(s.tasks[t]);
    assert s.tasks[t := k][d := Land(s, d).tasks[d]] == s.tasks[d := Land(s, d).tasks[d]][t := k];
  }

  /** The handler when a task is registered. */
  lemma FoundStep(s: State, t: TaskId)
    requires Inv(s) && Enabled(s, Resume(t)) && Doomed(s.tasks[t]) && s.tasks[t].at.Shielded?
    requires s.calls[s.tasks[t].at.call].list != []
    ensures Inv(ResumeTask(s, t)) && Grows(s, ResumeTask(s, t))
  {
    var c := s.tasks[t].at.call;
    var child := s.calls[c].list[0];
    assert TaskOk(s, t) && CallOk(s, c) && ListOk(s, c);
    assert child in s.calls[c].list && Registered(s, child, c) && TaskOk(s, child);
    var d := Landing(s, child);
    HandleParts(s, t, c, child, d);
    LandingIsAlive(s, child);
    LandStep(s, d);
    HandlerStep(s, Land(s, d), t, c, child, d);
    GrowsChain(s, Land(s, d), ResumeTask(s, t));
  }

  lemma HandlerStep(s: State, s1: State, t: TaskId, c: CallId, child: TaskId, d: TaskId)
    requires Inv(s1) && s1.running.None? && t < child <= d < |s.tasks| && t < |s1.tasks| == |s.tasks|
    requires c < |s1.calls| && s1.tasks[t].at == Shielded(c) && Doomed(s1.tasks[t])
    requires TaskOk(s1, d) && !s1.tasks[d].at.Over? && Doomed(s1.tasks[d]) && s1.tasks[d].throws == s.tasks[d].throws
    ensures
      var s' := State(s1.tasks[t := TakenUp(s1.tasks[t]).(at := OnChild(c, child))],
                      s1.calls[c := s1.calls[c].(look := Found(child, d, |s.tasks[d].throws|))], None);
      Inv(s') && Grows(s1, s')
  {
    var k := TakenUp(s1.tasks[t]).(at := OnChild(c, child));
    var q := s1.calls[c].(look := Found(child, d, |s.tasks[d].throws|));
    var s' := State(s1.tasks[t := k], s1.calls[c := q], None);
    assert TaskOk(s1, t) && CallOk(s1, c);
    assert OnFuture(c) in s1.tasks[t].throws ==> ThrowOk(s1, t, OnFuture(c));
    OwnCallStep(s1, s', t, k, None, c, q);
  }

  lemma GrowsChain(s: State, s1: State, s2: State)
    requires Grows(s, s1) && Grows(s1, s2)
    ensures Grows(s, s2)
  {
    forall t | 0 <= t < |s.tasks| ensures TaskGrows(s.tasks[t], s2.tasks[t]) {
      assert TaskGrows(s.tasks[t], s1.tasks[t]) && TaskGrows(s1.tasks[t], s2.tasks[t]);
    }
    forall c | 0 <= c < |s.calls| ensures CallGrows(s.calls[c], s2.calls[c]) {
      assert CallGrows(s.calls[c], s1.calls[c]) && CallGrows(s1.calls[c], s2.calls[c]);
    }
  }

  // ---- every step, and every run -----------------------------------------------------

  lemma ResumeStep(s: State, t: TaskId)
    requires Inv(s) && Enabled(s, Resume(t))
    ensures Inv(ResumeTask(s, t)) && Grows(s, ResumeTask(s, t))
  {
    var k := s.tasks[t];
    if k.at.Fresh? {
      if Doomed(k) {
        NeverBegunStep(s, t);
      } else {
        BeginStep(s, t);
      }
    } else if k.at.Own? {
      OwnStep(s, t);
    } else if k.at.OnChild? {
      AfterChildStep(s, t);
    } else if !Doomed(k) {
      DeliverStep(s, t);
    } else if k.at.OnFuture? {
      MissStep(s, t);
    } else if s.calls[k.at.call].list == [] {
      NobodyStep(s, t);
    } else {
      FoundStep(s, t);
    }
  }

  /** Every step of the loop, of a worker or of anybody who cancels, in any state that satisfies the invariant, keeps
      it; and no step takes back a throw, an end, what a handler saw, or what a call gave. */
  lemma StepKeepsInv(s: State, step: Step)
    requires Inv(s)
    ensures Inv(Next(s, step)) && Grows(s, Next(s, step))
  {
    if Enabled(s, step) {
      var s' := Next(s, step);
      match step
      case Spawn => NewTaskStep(s, s', Task(None, false, Fresh, Ready, false, []));
      case Request(t) => LandStep(s, Landing(s, t));
      case Wake(t) => WakeStep(s, t);
      case Resume(t) => ResumeStep(s, t);
      case Act(t, move) =>
        match move {
          case Await => AwaitStep(s, t);
          case CallSync => CallSyncStep(s, t);
          case Finish => FinishStep(s, t);
        }
      case Enter(c, l) => EnterStep(s, c, l);
      case Start(c) => QuietStep(s, step, c);
      case Back(c) => QuietStep(s, step, c);
      case Return(c, _) => QuietStep(s, step, c);
      case Resolve(c) => QuietStep(s, step, c);
    }
  }

  lemma QuietStep(s: State, step: Step, c: CallId)
    requires Inv(s) && Enabled(s, step)
    requires step == Start(c) || step == Back(c) || (step.Return? && step.c == c) || step == Resolve(c)
    ensures Inv(Next(s, step)) && Grows(s, Next(s, step))
  {
    assert CallOk(s, c);
    WorkerStep(s, Next(s, step), c, Next(s, step).calls[c]);
  }

  lemma EnterStep(s: State, c: CallId, l: CallId)
    requires Inv(s) && Enabled(s, Enter(c, l))
    ensures Inv(Next(s, Enter(c, l))) && Grows(s, Next(s, Enter(c, l)))
  {
    var k, child := s.calls[c].(worker := Waiting(|s.tasks|)), Task(Some(l), false, Fresh, Ready, false, []);
    assert CallOk(s, c);
    WorkerStep(s, WithCall(s, c, k), c, k);
    NewTaskStep(WithCall(s, c, k), Next(s, Enter(c, l)), child);
    GrowsChain(s, WithCall(s, c, k), Next(s, Enter(c, l)));
  }

  lemma {:induction false} RunKeepsInv(s: State, steps: seq<Step>)
    requires Inv(s)
    ensures Inv(Run(s, steps)) && Grows(s, Run(s, steps))
    decreases |steps|
  {
    if steps != [] {
      StepKeepsInv(s, steps[0]);
      RunKeepsInv(Next(s, steps[0]), steps[1..]);
      GrowsChain(s, Next(s, steps[0]), Run(s, steps));
    }
  }
}
