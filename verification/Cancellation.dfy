/**
 * Cancelling tasks that wait in sync_to_async, as a protocol between an event loop and the worker threads: any number
 * of tasks, of sync_to_async calls nested to any depth, and of cancel requests, interleaving freely.
 *
 * A sync_to_async call has an executor future, a worker thread that runs its function, and a task_context list. The
 * function may wait in async_to_sync for a child task, which main_wrap registers in a list while it runs.
 */
module Cancellation {
  import opened Contexts
  import opened ListRemoval

  type TaskId = nat
  type CallId = nat

  /** Where a task is: not begun, running, suspended in an await of its coroutine's own, in the three awaits of a
      sync_to_async call (for the shielded executor future; and in the handler for the child task, and for the executor
      future), or over. */
  datatype At =
    | Fresh
    | Active
    | Own
    | Shielded(call: CallId)
    | OnChild(call: CallId, child: TaskId)
    | OnFuture(call: CallId)
    | Over(cancelled: bool)

  /** What the loop will resume the task with: nothing yet, the result of what it awaits, or its CancelledError. */
  datatype Signal = Asleep | Ready | Thrown

  /** list is the call whose task_context main_wrap registers the task in, begun whether it has. must is asyncio's
      note to throw CancelledError at the next step. throws records where CancelledError was thrown into the task. */
  datatype Task = Task(list: Option<CallId>, begun: bool, at: At, signal: Signal, must: bool, throws: seq<At>)

  /** A revoked future was cancelled, by the handler's own cancel() or by a request that met the task awaiting it. */
  datatype Future = Pending | Resolved(outcome: int) | Revoked(byHandler: bool)

  datatype Worker = Queued | Running | Waiting(child: TaskId) | Returned(outcome: int)

  /** What the handler saw in task_context[0]: not entered, nothing, or a task; then the request it made landed in a
      task that CancelledError had been thrown into nth times before. */
  datatype Look = Unseen | Nobody | Found(child: TaskId, landed: TaskId, nth: nat)

  datatype Gift = Outcome(n: int) | CancelledError

  /** spared says whether `await task` ended without CancelledError, late whether the executor future was done when the
      handler went on; gives is what the call gave its caller. */
  datatype Call = Call(owner: TaskId, worker: Worker, future: Future, list: seq<TaskId>, look: Look,
                       spared: Option<bool>, late: Option<bool>, gives: Option<Gift>)

  /** running is the task whose step the loop is executing. */
  datatype State = State(tasks: seq<Task>, calls: seq<Call>, running: Option<TaskId>)

  /** What a coroutine does next: await something, call sync_to_async, or end. */
  datatype Move = Await | CallSync | Finish

  datatype Step =
    | Spawn                          // a new task that no sync_to_async call is waiting for
    | Request(t: TaskId)             // somebody calls cancel() on the task
    | Wake(t: TaskId)                // what the task awaits is done
    | Resume(t: TaskId)              // the loop runs the task's next step, up to the coroutine's own code
    | Act(t: TaskId, move: Move)     // the coroutine's own code, up to its next await
    | Start(c: CallId)               // a worker thread begins the function, also if its future was just cancelled
    | Enter(c: CallId, l: CallId)    // the function calls async_to_sync; it captured the list of call l
    | Back(c: CallId)                // async_to_sync returns
    | Return(c: CallId, n: int)      // the function returned or raised
    | Resolve(c: CallId)             // the executor future gets the function's outcome

  const START := State([], [], None)

  function WithTask(s: State, t: TaskId, k: Task): State
    requires t < |s.tasks|
  {
    s.(tasks := s.tasks[t := k])
  }

  function WithCall(s: State, c: CallId, k: Call): State
    requires c < |s.calls|
  {
    s.(calls := s.calls[c := k])
  }

  // ---- cancel() ----------------------------------------------------------------------

  /** A request to a task that awaits another goes to that one, and so on. */
  function Landing(s: State, t: TaskId): (d: TaskId)
    requires t < |s.tasks|
    ensures t <= d < |s.tasks|
    decreases |s.tasks| - t
  {
    var k := s.tasks[t];
    if k.at.OnChild? && k.signal.Asleep? && t < k.at.child < |s.tasks| && !s.tasks[k.at.child].at.Over?
    then Landing(s, k.at.child)
    else t
  }

  /** The request where it lands: it cancels what the task awaits, or leaves the note. */
  function Land(s: State, t: TaskId): State
    requires t < |s.tasks|
  {
    var k := s.tasks[t];
    if k.at.Over? then s
    else if k.signal.Asleep? && (k.at.Own? || k.at.Shielded?) then WithTask(s, t, k.(signal := Thrown))
    else if k.signal.Asleep? && k.at.OnFuture? && k.at.call < |s.calls| && s.calls[k.at.call].future.Pending? then
      WithCall(WithTask(s, t, k.(signal := Thrown)), k.at.call, s.calls[k.at.call].(future := Revoked(false)))
    else WithTask(s, t, k.(must := true))
  }

  // ---- SyncToAsync.__call__ ----------------------------------------------------------

  /** The call gives its caller something, and the caller's coroutine goes on. */
  function Give(s: State, t: TaskId, c: CallId, g: Gift): State
    requires t < |s.tasks| && c < |s.calls|
  {
    WithCall(WithTask(s, t, s.tasks[t].(at := Active)), c, s.calls[c].(gives := Some(g))).(running := Some(t))
  }

  /** From `if exec_coro.done()` on; interrupted is cancel_parent. */
  function Conclude(s: State, t: TaskId, c: CallId, interrupted: bool): State
    requires t < |s.tasks| && c < |s.calls|
  {
    var k := s.calls[c];
    var known := k.(spared := if k.look.Found? then Some(!interrupted) else None, late := Some(!k.future.Pending?));
    if !k.future.Pending? then Give(WithCall(s, c, known), t, c, CancelledError)
    else if interrupted then Give(WithCall(s, c, known.(future := Revoked(true))), t, c, CancelledError)
    else WithTask(WithCall(s, c, known), t, s.tasks[t].(at := OnFuture(c)))
  }

  /** The handler up to `await task`. */
  function Handle(s: State, t: TaskId, c: CallId): State
    requires t < |s.tasks| && c < |s.calls|
  {
    var k := s.calls[c];
    if k.list == [] || k.list[0] >= |s.tasks| then Conclude(WithCall(s, c, k.(look := Nobody)), t, c, true)
    else
      var child := k.list[0];
      var d := Landing(s, child);
      var s' := Land(s, d);
      WithTask(WithCall(s', c, s'.calls[c].(look := Found(child, d, |s.tasks[d].throws|))), t,
               s'.tasks[t].(at := OnChild(c, child)))
  }

  // ---- the steps ---------------------------------------------------------------------

  /** What the task awaits is done, and what it gets. */
  function Due(s: State, k: Task): Signal {
    match k.at
    case Own => Ready
    case Shielded(c) => if c < |s.calls| && s.calls[c].future.Resolved? then Ready else Asleep
    case OnChild(_, d) =>
      if d < |s.tasks| && s.tasks[d].at.Over? then (if s.tasks[d].at.cancelled then Thrown else Ready) else Asleep
    case OnFuture(c) => if c < |s.calls| && s.calls[c].future.Resolved? then Ready else Asleep
    case _ => Asleep
  }

  predicate Suspended(k: Task) {
    k.at.Fresh? || k.at.Own? || k.at.Shielded? || k.at.OnChild? || k.at.OnFuture?
  }

  /** The sync_to_async call the task is waiting in. */
  function CallOf(at: At): Option<CallId> {
    match at
    case Shielded(c) => Some(c)
    case OnChild(c, _) => Some(c)
    case OnFuture(c) => Some(c)
    case _ => None
  }

  predicate Enabled(s: State, step: Step) {
    match step
    case Spawn => true
    case Request(t) => t < |s.tasks| && !s.tasks[t].at.Over?
    case Wake(t) => t < |s.tasks| && s.tasks[t].signal.Asleep? && !Due(s, s.tasks[t]).Asleep?
    case Resume(t) =>
      && s.running.None? && t < |s.tasks| && Suspended(s.tasks[t]) && !s.tasks[t].signal.Asleep?
      && (CallOf(s.tasks[t].at).Some? ==> CallOf(s.tasks[t].at).value < |s.calls|)
    case Act(t, _) => t < |s.tasks| && s.tasks[t].at.Active?
    case Start(c) => c < |s.calls| && s.calls[c].worker.Queued?
    case Enter(c, l) => c < |s.calls| && s.calls[c].worker.Running? && l < |s.calls|
    case Back(c) =>
      && c < |s.calls| && s.calls[c].worker.Waiting? && s.calls[c].worker.child < |s.tasks|
      && s.tasks[s.calls[c].worker.child].at.Over? && s.tasks[s.calls[c].worker.child].begun
    case Return(c, _) => c < |s.calls| && s.calls[c].worker.Running?
    case Resolve(c) => c < |s.calls| && s.calls[c].worker.Returned? && s.calls[c].future.Pending?
  }

  predicate Doomed(k: Task) {
    k.signal.Thrown? || k.must
  }

  /** The task as the loop takes it up. */
  function TakenUp(k: Task): Task {
    k.(signal := Asleep, must := false, throws := if Doomed(k) then k.throws + [k.at] else k.throws)
  }

  /** main_wrap begins, and appends the task to the list. */
  function BeginTask(s: State, t: TaskId): State
    requires t < |s.tasks|
  {
    var k := s.tasks[t];
    var s' := WithTask(s, t, k.(begun := true, at := Active)).(running := Some(t));
    if k.list.Some? && k.list.value < |s.calls| then
      WithCall(s', k.list.value, s.calls[k.list.value].(list := s.calls[k.list.value].list + [t]))
    else s'
  }

  function ResumeTask(s: State, t: TaskId): State
    requires Enabled(s, Resume(t))
  {
    var k, exc := s.tasks[t], Doomed(s.tasks[t]);
    var s' := WithTask(s, t, TakenUp(k));
    match k.at
    case Fresh => if exc then WithTask(s', t, TakenUp(k).(at := Over(true))) else BeginTask(s', t)
    case Shielded(c) =>
      if exc then Handle(s', t, c)
      else Give(s', t, c, if s.calls[c].future.Resolved? then Outcome(s.calls[c].future.outcome) else CancelledError)
    case OnChild(c, _) => Conclude(s', t, c, exc)
    case OnFuture(c) =>
      Give(s', t, c, if !exc && s.calls[c].future.Resolved? then Outcome(s.calls[c].future.outcome) else CancelledError)
    case _ => WithTask(s', t, TakenUp(k).(at := Active)).(running := Some(t))
  }

  /** The coroutine's own code. A note left meanwhile cancels what it awaits next, or the task as it ends. */
  function ActTask(s: State, t: TaskId, move: Move): State
    requires t < |s.tasks|
  {
    var k, n := s.tasks[t], |s.calls|;
    var next := k.(signal := if k.must then Thrown else Asleep, must := false);
    var s' := s.(running := None);
    match move
    case Await => WithTask(s', t, next.(at := Own))
    case CallSync =>
      WithTask(s', t, next.(at := Shielded(n)))
        .(calls := s.calls + [Call(t, Queued, Pending, [], Unseen, None, None, None)])
    case Finish =>
      var s'' := WithTask(s', t, k.(at := Over(k.must), signal := Asleep, must := false));
      if k.list.Some? && k.list.value < n then
        WithCall(s'', k.list.value, s.calls[k.list.value].(list := RemoveFirst(s.calls[k.list.value].list, t)))
      else s''
  }

  function Next(s: State, step: Step): State {
    if !Enabled(s, step) then s
    else
      match step
      case Spawn => s.(tasks := s.tasks + [Task(None, false, Fresh, Ready, false, [])])
      case Request(t) => Land(s, Landing(s, t))
      case Wake(t) => WithTask(s, t, s.tasks[t].(signal := Due(s, s.tasks[t])))
      case Resume(t) => ResumeTask(s, t)
      case Act(t, move) => ActTask(s, t, move)
      case Start(c) => WithCall(s, c, s.calls[c].(worker := Running))
      case Enter(c, l) =>
        WithCall(s, c, s.calls[c].(worker := Waiting(|s.tasks|)))
          .(tasks := s.tasks + [Task(Some(l), false, Fresh, Ready, false, [])])
      case Back(c) => WithCall(s, c, s.calls[c].(worker := Running))
      case Return(c, n) => WithCall(s, c, s.calls[c].(worker := Returned(n)))
      case Resolve(c) => WithCall(s, c, s.calls[c].(future := Resolved(s.calls[c].worker.outcome)))
  }

  function Run(s: State, steps: seq<Step>): State
    decreases |steps|
  {
    if steps == [] then s else Run(Next(s, steps[0]), steps[1..])
  }
}
