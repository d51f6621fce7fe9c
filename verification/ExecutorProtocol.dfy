/**
 CurrentThreadExecutor as a protocol between threads. Each region protected by an executor's lock is one step;
 any number of executors, threads, frames nested on one thread and submissions interleave freely.
 */
module ExecutorProtocol {
  import opened Contexts

  type Eid = nat
  type Iid = nat
  type Fid = nat

  /** Where the owner is in run_until_future. */
  datatype Pc =
    | Idle                      // not called yet
    | Checking                  // about to take the lock
    | Waiting(notified: bool)   // in _work_ready.wait()
    | Holding(item: Iid)        // popped an item, has not claimed it yet
    | Calling(item: Iid)        // inside the item's function
    | Exited

  /** accepted, settled and called record the past: every item ever appended to the queue, every item the owner
      is finished with, and every item whose function was called. */
  datatype Exec = Exec(owner: Tid, outer: Option<Eid>, queue: seq<Iid>, broken: bool, future: Option<Fid>, pc: Pc,
                       accepted: seq<Iid>, settled: seq<Iid>, called: seq<Iid>)

  /** A submission: still walking up the executors, on some queue, or refused with a RuntimeError. */
  datatype Walk = Walking(at: Eid) | Accepted(on: Eid) | Rejected

  datatype ItemFuture = Pending | Cancelled | InCall | Finished

  datatype Item = Item(start: Eid, walk: Walk, future: ItemFuture)

  /** frames holds, per thread, the executors it is running, innermost last. */
  datatype State = State(execs: seq<Exec>, items: seq<Item>, frames: map<Tid, seq<Eid>>, done: set<Fid>)

  datatype Step =
    | Create(thread: Tid, outer: Option<Eid>)      // CurrentThreadExecutor(outer)
    | BeginRun(e: Eid, f: Fid)                     // run_until_future up to the loop
    | Look(e: Eid)                                 // the locked region of the loop
    | Wake(e: Eid)                                 // wait() returns
    | Claim(e: Eid)                                // set_running_or_notify_cancel
    | Return(e: Eid)                               // the item's function returned or raised
    | Submit(thread: Tid, e: Eid)                  // submit up to its loop
    | WalkOn(i: Iid)                               // one round of submit's loop
    | Cancel(i: Iid)                               // the item's future is cancelled
    | Complete(f: Fid)                             // a future run_until_future waits for is resolved
    | Fire(e: Eid)                                 // its done callback runs

  function Frames(s: State, t: Tid): seq<Eid> {
    if t in s.frames then s.frames[t] else []
  }

  /** The thread is free to run code of its own: not in the middle of a loop round. */
  predicate Free(s: State, t: Tid) {
    var fs := Frames(s, t);
    fs != [] ==> var e := fs[|fs| - 1]; e < |s.execs| && s.execs[e].pc.Calling?
  }

  /** e is the innermost executor its owner is running. */
  predicate OnTop(s: State, e: Eid) {
    e < |s.execs| && var fs := Frames(s, s.execs[e].owner); fs != [] && fs[|fs| - 1] == e
  }

  function Notified(x: Exec): Exec {
    if x.pc.Waiting? then x.(pc := Waiting(true)) else x
  }

  function Enabled(s: State, step: Step): bool {
    match step
    case Create(t, outer) => Free(s, t) && (outer.Some? ==> outer.value < |s.execs|)
    case BeginRun(e, _) => e < |s.execs| && s.execs[e].pc.Idle? && Free(s, s.execs[e].owner)
    case Look(e) => OnTop(s, e) && s.execs[e].pc.Checking?
    case Wake(e) => OnTop(s, e) && s.execs[e].pc == Waiting(true)
    case Claim(e) => OnTop(s, e) && s.execs[e].pc.Holding? && s.execs[e].pc.item < |s.items|
    case Return(e) => OnTop(s, e) && s.execs[e].pc.Calling? && s.execs[e].pc.item < |s.items|
    case Submit(t, e) => e < |s.execs| && t != s.execs[e].owner
    case WalkOn(i) => i < |s.items| && s.items[i].walk.Walking? && s.items[i].walk.at < |s.execs|
    case Cancel(i) => i < |s.items| && s.items[i].future.Pending?
    case Complete(_) => true
    case Fire(e) => e < |s.execs| && s.execs[e].future.Some? && s.execs[e].future.value in s.done
  }

  // ---- what the locked regions do to one executor ------------------------------------

  /** submit's, on an executor that is not broken. */
  function Pushed(x: Exec, i: Iid): Exec {
    Notified(x.(queue := x.queue + [i], accepted := x.accepted + [i]))
  }

  /** The done callback's. */
  function Quit(x: Exec): Exec {
    Notified(x.(broken := true))
  }

  /** The loop's: an item is taken, or the loop is left, or the owner waits. */
  function Looked(x: Exec): Exec {
    if x.queue != [] then x.(queue := x.queue[1..], pc := Holding(x.queue[0]))
    else if x.broken then x.(pc := Exited)
    else x.(pc := Waiting(false))
  }

  /** set_running_or_notify_cancel, on an item that was not cancelled. */
  function Claimed(x: Exec, i: Iid): Exec {
    x.(pc := Calling(i), called := x.called + [i])
  }

  /** The owner is finished with an item. */
  function Dealt(x: Exec, i: Iid): Exec {
    x.(pc := Checking, settled := x.settled + [i])
  }

  function Accept(s: State, i: Iid, e: Eid): State
    requires i < |s.items| && e < |s.execs|
  {
    s.(execs := s.execs[e := Pushed(s.execs[e], i)],
       items := s.items[i := s.items[i].(walk := Accepted(e))])
  }

  function WithWalk(s: State, i: Iid, w: Walk): State
    requires i < |s.items|
  {
    s.(items := s.items[i := s.items[i].(walk := w)])
  }

  function Took(s: State, e: Eid): State
    requires e < |s.execs|
  {
    var x := s.execs[e];
    var fs := Frames(s, x.owner);
    var looked := s.(execs := s.execs[e := Looked(x)]);
    if x.queue == [] && x.broken
    then looked.(frames := s.frames[x.owner := if fs == [] then fs else fs[..|fs| - 1]])
    else looked
  }

  function Next(s: State, step: Step): State {
    if !Enabled(s, step) then s
    else
      match step
      case Create(t, outer) =>
        s.(execs := s.execs + [Exec(t, outer, [], false, None, Idle, [], [], [])])
      case BeginRun(e, f) =>
        var x := s.execs[e];
        s.(execs := s.execs[e := x.(pc := Checking, future := Some(f), broken := x.broken || f in s.done)],
           frames := s.frames[x.owner := Frames(s, x.owner) + [e]])
      case Look(e) => Took(s, e)
      case Wake(e) => s.(execs := s.execs[e := s.execs[e].(pc := Checking)])
      case Claim(e) =>
        var x := s.execs[e];
        var i := x.pc.item;
        if s.items[i].future.Pending? then
          s.(execs := s.execs[e := Claimed(x, i)],
             items := s.items[i := s.items[i].(future := InCall)])
        else s.(execs := s.execs[e := Dealt(x, i)])
      case Return(e) =>
        var x := s.execs[e];
        var i := x.pc.item;
        s.(execs := s.execs[e := Dealt(x, i)], items := s.items[i := s.items[i].(future := Finished)])
      case Submit(_, e) => s.(items := s.items + [Item(e, Walking(e), Pending)])
      case WalkOn(i) =>
        var e := s.items[i].walk.at;
        if !s.execs[e].broken then Accept(s, i, e)
        else if s.execs[e].outer.None? then WithWalk(s, i, Rejected)
        else WithWalk(s, i, Walking(s.execs[e].outer.value))
      case Cancel(i) => s.(items := s.items[i := s.items[i].(future := Cancelled)])
      case Complete(f) => s.(done := s.done + {f})
      case Fire(e) => s.(execs := s.execs[e := Quit(s.execs[e])])
  }

  function Run(s: State, steps: seq<Step>): State
    decreases |steps|
  {
    if steps == [] then s else Run(Next(s, steps[0]), steps[1..])
  }

  const START := State([], [], map[], {})

  // ---- the executor chain ------------------------------------------------------------

  /** The closest executor still running, from e outwards. */
  function Nearest(execs: seq<Exec>, e: Eid): Option<Eid> {
    if e >= |execs| then None
    else if !execs[e].broken then Some(e)
    else if execs[e].outer.Some? && execs[e].outer.value < e then Nearest(execs, execs[e].outer.value)
    else None
  }

  /** Going from `from` outwards, everything before `to` is broken. */
  predicate Passed(execs: seq<Exec>, from: Eid, to: Eid) {
    from == to
    || (from < |execs| && execs[from].broken && execs[from].outer.Some? && execs[from].outer.value < from
        && Passed(execs, execs[from].outer.value, to))
  }

  // ---- the invariant -----------------------------------------------------------------

  predicate Distinct(q: seq<Iid>) {
    forall j, k :: 0 <= j < k < |q| ==> q[j] != q[k]
  }

  predicate Settled(items: seq<Item>, q: seq<Iid>) {
    forall i :: i in q ==> i < |items| && (items[i].future.Cancelled? || items[i].future.Finished?)
  }

  predicate Unclaimed(items: seq<Item>, q: seq<Iid>) {
    forall i :: i in q ==> i < |items| && (items[i].future.Pending? || items[i].future.Cancelled?)
  }

  /** The items of q whose function was not prevented by cancellation. */
  function Uncancelled(items: seq<Item>, q: seq<Iid>): seq<Iid> {
    if q == [] then []
    else
      var last := q[|q| - 1];
      Uncancelled(items, q[..|q| - 1]) + if last < |items| && !items[last].future.Cancelled? then [last] else []
  }

  /** The item the owner has taken and not finished with, if any. */
  function Current(x: Exec): seq<Iid> {
    if x.pc.Holding? || x.pc.Calling? then [x.pc.item] else []
  }

  /** Work conservation: what was accepted is what is dealt with, then the one in hand, then the queue, and
      the functions called are those of the items not cancelled before they were claimed, in order. */
  predicate Conserved(items: seq<Item>, x: Exec) {
    && x.accepted == x.settled + Current(x) + x.queue
    && Settled(items, x.settled)
    && Unclaimed(items, x.queue)
    && x.called == Uncancelled(items, x.settled) + if x.pc.Calling? then [x.pc.item] else []
  }

  predicate ExecInv(s: State, e: Eid)
    requires e < |s.execs|
  {
    var x := s.execs[e];
    && (x.outer.Some? ==> x.outer.value < e)
    && Conserved(s.items, x)
    && Distinct(x.accepted)
    && (forall i :: i in x.accepted ==> i < |s.items| && s.items[i].walk == Accepted(e))
    && (x.broken ==> x.future.Some? && x.future.value in s.done)
    && (x.pc.Idle? <==> x.future.None?)
    && (x.pc.Idle? ==> x.settled == [])
    && (x.pc == Waiting(false) ==> x.queue == [] && !x.broken)
    && (x.pc.Holding? ==> Unclaimed(s.items, [x.pc.item]))
    && (x.pc.Calling? ==> x.pc.item < |s.items| && s.items[x.pc.item].future.InCall?)
    && (x.pc.Exited? ==> x.broken && x.queue == [])
  }

  predicate ItemInv(s: State, i: Iid)
    requires i < |s.items|
  {
    var m := s.items[i];
    && m.start < |s.execs|
    && match m.walk
       case Walking(at) => at < |s.execs| && Passed(s.execs, m.start, at) && Unclaimed(s.items, [i])
       case Accepted(on) => on < |s.execs| && Passed(s.execs, m.start, on) && i in s.execs[on].accepted
       case Rejected => Nearest(s.execs, m.start) == None && Unclaimed(s.items, [i])
  }

  predicate Inside(x: Exec) {
    !x.pc.Idle? && !x.pc.Exited?
  }

  /** A thread's frames are exactly the executors it built and is running; only the innermost is not inside
      an item's function. */
  predicate StackInv(s: State, t: Tid) {
    Stack(s.execs, t, Frames(s, t))
  }

  predicate Stack(execs: seq<Exec>, t: Tid, fs: seq<Eid>) {
    && (forall k :: 0 <= k < |fs| ==> fs[k] < |execs| && execs[fs[k]].owner == t && Inside(execs[fs[k]]))
    && (forall k :: 0 <= k < |fs| - 1 ==> execs[fs[k]].pc.Calling?)
    && Distinct(fs)
  }

  predicate Inv(s: State) {
    && (forall e :: 0 <= e < |s.execs| ==> ExecInv(s, e))
    && (forall i :: 0 <= i < |s.items| ==> ItemInv(s, i))
    && (forall t :: t in s.frames ==> StackInv(s, t))
    && (forall e :: 0 <= e < |s.execs| && Inside(s.execs[e]) ==> e in Frames(s, s.execs[e].owner))
  }
}
