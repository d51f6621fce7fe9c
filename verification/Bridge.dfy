/**
 AsyncToSync.__call__, main_wrap and SyncToAsync.__call__ step by step, over context objects that are
 copied, handed over in a one-element list, entered, restored and captured.
 Every method is tied to the concrete meaning of programs, and changes no context but the running one.
 */
module Bridge {
  import opened Contexts
  import opened Programs
  import opened Transparency
  import opened LocalStorage

  /** The list `context` through which main_wrap passes the final context to the waiting thread. */
  class ContextCell {
    var context: ContextObject

    constructor (context: ContextObject)
      ensures this.context == context
    {
      this.context := context;
    }
  }

  /** What all threads share: thread-local storage by thread, executor identities, the observations,
      and how the code run last ended. */
  datatype Shared = Shared(tls: map<Slot, Val>, next: nat, log: Log, out: Outcome, ghost safe: bool)

  /** The running state, with ctx as the current context. */
  ghost function State(ctx: Context, sh: Shared): Conc {
    Conc(ctx, sh.tls, sh.next, sh.log, sh.out, sh.safe)
  }

  method GetExecutor(t: Tid, cur: ContextObject) returns (ex: Executor)
    requires cur.Valid()
    ensures ex == CurrentExecutor(cur.Snapshot(), t)
  {
    var current := cur.Get(t, Attr(EXECUTORS, CURRENT));
    ex := match current case Some(Ref(e)) => e case _ => NoExecutor;
  }

  method Load(x: Name, t: Tid, mode: Mode, cur: ContextObject, sh: Shared) returns (sh': Shared)
    requires cur.Valid()
    ensures State(cur.Snapshot(), sh') == ExecLeaf(Get(x), t, mode, State(cur.Snapshot(), sh))
  {
    var v: Option<Val>;
    match Resolve(x, t, mode) {
      case InContext(loc) => v := cur.Get(t, loc);
      case InThread(slot) => v := Lookup(sh.tls, slot);
    }
    sh' := sh.(log := sh.log + [Saw(t, x, v)], out := if v.None? then Raised(Missing) else sh.out);
  }

  method Store(x: Name, val: Val, t: Tid, mode: Mode, cur: ContextObject, sh: Shared) returns (sh': Shared)
    requires cur.Valid()
    modifies cur
    ensures cur.Valid()
    ensures State(cur.Snapshot(), sh') == ExecLeaf(Set(x, _ => val), t, mode, State(old(cur.Snapshot()), sh))
  {
    sh' := sh.(log := sh.log + [Wrote(t, x, val)]);
    match Resolve(x, t, mode) {
      case InContext(loc) => cur.Set(t, loc, val);
      case InThread(slot) => sh' := sh'.(tls := sh.tls[slot := val]);
    }
  }

  method Remove(x: Name, t: Tid, mode: Mode, cur: ContextObject, sh: Shared) returns (sh': Shared)
    requires cur.Valid()
    modifies cur
    ensures cur.Valid()
    ensures State(cur.Snapshot(), sh') == ExecLeaf(Del(x), t, mode, State(old(cur.Snapshot()), sh))
  {
    sh' := sh.(out := Raised(Missing));
    match Resolve(x, t, mode)
    case InContext(loc) =>
      if !loc.Whole? {
        var found := cur.Get(t, loc);
        if found.Some? {
          cur.Delete(t, loc);
          return sh;
        }
      }
    case InThread(slot) =>
      if slot in sh.tls {
        return sh.(tls := sh.tls - {slot});
      }
  }

  /** The context the task starts in: a copy of the calling thread's, or the worker thread's own. */
  method StartTask(d: Dispatch, cur: ContextObject) returns (task: ContextObject)
    requires cur.Valid() && (d.NewLoop? && d.worker.Reused? ==> WellFormed(d.worker.base))
    ensures fresh(task) && task.Valid() && task.Snapshot() == TaskBase(d, cur.Snapshot())
  {
    if d.MainLoop? || d.worker.Inherited? {
      task := new ContextObject.Copy(cur);
    } else if d.worker.Fresh? {
      task := new ContextObject();
    } else {
      task := Existing(d.worker.base);
    }
  }

  /** A new CurrentThreadExecutor on top of the current one, made current. */
  method InstallExecutor(t: Tid, cur: ContextObject, id: nat) returns (saved: Executor)
    requires cur.Valid()
    modifies cur
    ensures cur.Valid() && saved == CurrentExecutor(old(cur.Snapshot()), t)
    ensures cur.Snapshot() == WithExecutor(old(cur.Snapshot()), t, Executor(id, t, saved))
  {
    saved := GetExecutor(t, cur);
    cur.Set(t, Attr(EXECUTORS, CURRENT), Ref(Executor(id, t, saved)));
  }

  /** AsyncToSync.__call__ up to the dispatch: a new executor, and the context wrapped in a list. */
  method BeginAsync(d: Dispatch, t: Tid, cur: ContextObject, id: nat)
    returns (saved: Executor, cell: ContextCell, task: ContextObject)
    requires cur.Valid() && (d.NewLoop? && d.worker.Reused? ==> WellFormed(d.worker.base))
    modifies cur
    ensures fresh(cell) && fresh(cell.context) && fresh(task) && cell.context != task
    ensures cur.Valid() && task.Valid() && cell.context.Valid()
    ensures saved == CurrentExecutor(old(cur.Snapshot()), t)
    ensures cur.Snapshot() == WithExecutor(old(cur.Snapshot()), t, Executor(id, t, saved))
    ensures cell.context.Snapshot() == cur.Snapshot() && task.Snapshot() == TaskBase(d, cur.Snapshot())
  {
    saved := InstallExecutor(t, cur, id);
    var copied := new ContextObject.Copy(cur);
    task := StartTask(d, cur);
    cell := new ContextCell(copied);
  }

  /** The shared state once the task is about to start. */
  function Entering(sh: Shared, ghost s: Conc, t: Tid, d: Dispatch): (sh': Shared)
    requires s == State(s.ctx, sh)
    ensures var caller := CallerContext(s, t);
            State(Restored(caller, TaskBase(d, caller), d.thread), sh') == EnterAsync(s, t, d)
  {
    ghost var caller := CallerContext(s, t);
    ghost var safe := sh.safe && Crossable(caller, t) && Covered(TaskBase(d, caller), caller);
    sh.(next := sh.next + 1, safe := safe)
  }

  /** The finally block of AsyncToSync.__call__, in a call that began in state s. */
  method EndAsync(saved: Executor, cell: ContextCell, t: Tid, cur: ContextObject, ghost s: Conc, ghost sh: Shared)
    requires cell.context.Valid() && cur.Valid()
    requires cur.Snapshot() == CallerContext(s, t) && saved == CurrentExecutor(s.ctx, t)
    modifies cur
    ensures cur.Valid() && State(cur.Snapshot(), sh) == LeaveAsync(State(old(cell.context.Snapshot()), sh), s, t)
  {
    cur.Restore(cell.context, t);
    cur.Set(t, Attr(EXECUTORS, CURRENT), Ref(saved));
  }

  /** main_wrap on the loop's thread: restore, run the awaitable whatever it raises, capture. */
  method MainWrap(coro: Prog, loop: Tid, task: ContextObject, cell: ContextCell, sh: Shared) returns (sh': Shared)
    requires UserProg(coro) && cell.context != task
    requires cell.context.Valid() && task.Valid()
    modifies task, cell
    ensures fresh(cell.context) && cell.context.Valid()
    ensures State(cell.context.Snapshot(), sh')
            == Exec(coro, loop, Async,
                    State(Restored(old(cell.context.Snapshot()), old(task.Snapshot()), loop), sh))
    decreases coro, 2
  {
    task.Restore(cell.context, loop);
    sh' := Run(coro, loop, Async, task, sh);
    var captured := new ContextObject.Copy(task);
    cell.context := captured;
  }

  method CallAsyncToSync(coro: Prog, d: Dispatch, t: Tid, cur: ContextObject, sh: Shared) returns (sh': Shared)
    requires cur.Valid() && UserProg(AsyncToSync(coro, d))
    modifies cur
    ensures cur.Valid()
    ensures var s := State(old(cur.Snapshot()), sh);
            State(cur.Snapshot(), sh') == LeaveAsync(Exec(coro, d.thread, Async, EnterAsync(s, t, d)), s, t)
    decreases coro, 3
  {
    ghost var s := State(cur.Snapshot(), sh);
    var saved, cell, task := BeginAsync(d, t, cur, sh.next);
    sh' := MainWrap(coro, d.thread, task, cell, Entering(sh, s, t, d));
    EndAsync(saved, cell, t, cur, s, sh');
  }

  /** SyncToAsync.__call__ up to the function: a copied context, entered and re-homed on the worker. */
  method BeginSync(w: Tid, t: Tid, cur: ContextObject, sh: Shared) returns (context: ContextObject, sh': Shared)
    requires cur.Valid()
    ensures fresh(context) && context.Valid()
    ensures State(context.Snapshot(), sh') == EnterSync(State(cur.Snapshot(), sh), t, w)
  {
    context := new ContextObject.Copy(cur);
    context.Restore(context, w);
    ghost var safe := sh.safe && Crossable(cur.Snapshot(), t);
    sh' := sh.(log := sh.log + [RanOn(w)], safe := safe);
  }

  /** SyncToAsync.__call__ around the function, to the end of its finally block. */
  method CallSyncToAsync(fn: Prog, w: Tid, t: Tid, cur: ContextObject, sh: Shared) returns (sh': Shared)
    requires cur.Valid() && UserProg(fn)
    modifies cur
    ensures cur.Valid()
    ensures var s := State(old(cur.Snapshot()), sh);
            State(cur.Snapshot(), sh') == LeaveSync(Exec(fn, w, Sync, EnterSync(s, t, w)), s, t)
    decreases fn, 3
  {
    var context, entered := BeginSync(w, t, cur, sh);
    sh' := Run(fn, w, Sync, context, entered);
    cur.Restore(context, t);
  }

  /** create_task: the task runs in a copy of the current context. */
  method SpawnTask(task: Prog, t: Tid, cur: ContextObject, sh: Shared) returns (sh': Shared)
    requires cur.Valid() && UserProg(task)
    ensures State(cur.Snapshot(), sh') == Exec(Spawn(task), t, Async, State(cur.Snapshot(), sh))
    decreases task, 3
  {
    var copied := new ContextObject.Copy(cur);
    sh' := Run(task, t, Async, copied, sh);
    sh' := sh'.(log := sh'.log + [Ended(sh'.out)], out := Done);
  }

  /** Running a program on thread t with cur as its context does what Exec says. */
  method Run(p: Prog, t: Tid, mode: Mode, cur: ContextObject, sh: Shared) returns (sh': Shared)
    requires cur.Valid() && UserProg(p)
    modifies cur
    ensures cur.Valid()
    ensures State(cur.Snapshot(), sh') == Exec(p, t, mode, State(old(cur.Snapshot()), sh))
    decreases p, 1
  {
    match p
    case Skip => return sh;
    case Raise(e) => return sh.(out := Raised(e));
    case Get(x) => sh' := Load(x, t, mode, cur, sh);
    case Set(x, f) => sh' := Store(x, f(sh.log), t, mode, cur, sh);
    case Del(x) => sh' := Remove(x, t, mode, cur, sh);
    case AsyncToSync(coro, d) =>
      if mode.Async? {
        return sh.(out := Raised(LoopRunning));
      }
      sh' := CallAsyncToSync(coro, d, t, cur, sh);
    case SyncToAsync(fn, route) =>
      if mode.Sync? {
        return sh.(out := Raised(NoLoop));
      }
      var ex := GetExecutor(t, cur);
      match Place(route, ex, t) {
        case Refused(why) => return sh.(out := Raised(why));
        case Runs(w) => sh' := CallSyncToAsync(fn, w, t, cur, sh);
      }
    case Spawn(task) =>
      if mode.Sync? {
        return sh.(out := Raised(NoLoop));
      }
      sh' := SpawnTask(task, t, cur, sh);
    case _ => sh' := RunControl(p, t, mode, cur, sh);
  }

  method RunControl(p: Prog, t: Tid, mode: Mode, cur: ContextObject, sh: Shared) returns (sh': Shared)
    requires p.Seq? || p.If? || p.Repeat? || p.Try?
    requires cur.Valid() && UserProg(p)
    modifies cur
    ensures cur.Valid()
    ensures State(cur.Snapshot(), sh') == Exec(p, t, mode, State(old(cur.Snapshot()), sh))
    decreases p, 0
  {
    ghost var s := State(cur.Snapshot(), sh);
    match p
    case Seq(p1, p2) =>
      ExecKeepsCrossable(p1, t, mode, s);
      sh' := Run(p1, t, mode, cur, sh);
      if !sh'.out.Raised? {
        sh' := Run(p2, t, mode, cur, sh');
      }
    case If(cond, p1, p2) =>
      if cond(sh.log) {
        sh' := Run(p1, t, mode, cur, sh);
      } else {
        sh' := Run(p2, t, mode, cur, sh);
      }
    case Repeat(count, body) => sh' := RunTimes(body, count(sh.log), t, mode, cur, sh);
    case Try(body, handler) =>
      ExecKeepsCrossable(body, t, mode, s);
      sh' := Run(body, t, mode, cur, sh);
      if sh'.out.Raised? {
        sh' := Run(handler, t, mode, cur, sh'.(log := sh'.log + [Caught(sh'.out.e)], out := Done));
      }
  }

  method RunTimes(p: Prog, n: nat, t: Tid, mode: Mode, cur: ContextObject, sh: Shared) returns (sh': Shared)
    requires cur.Valid() && UserProg(p)
    modifies cur
    ensures cur.Valid()
    ensures State(cur.Snapshot(), sh') == ExecTimes(p, n, t, mode, State(old(cur.Snapshot()), sh))
    decreases p, 2
  {
    ghost var s := State(cur.Snapshot(), sh);
    sh' := sh;
    var i := n;
    while i > 0
      invariant 0 <= i <= n && cur.Valid()
      invariant ExecTimes(p, n, t, mode, s) == ExecTimes(p, i, t, mode, State(cur.Snapshot(), sh'))
    {
      ExecKeepsCrossable(p, t, mode, State(cur.Snapshot(), sh'));
      sh' := Run(p, t, mode, cur, sh');
      if sh'.out.Raised? {
        return;
      }
      i := i - 1;
    }
  }

  /** Copy-on-write non-interference. Whatever a program does with one context, every other context looks
      exactly as it did, however the dictionaries behind them are shared, and no dictionary that any
      context already held is ever mutated. */
  method RunAlone(p: Prog, t: Tid, mode: Mode, cur: ContextObject, sh: Shared) returns (sh': Shared)
    requires cur.Valid() && UserProg(p)
    modifies cur
    ensures State(cur.Snapshot(), sh') == Exec(p, t, mode, State(old(cur.Snapshot()), sh))
    ensures forall c: ContextObject :: old(allocated(c)) && c != cur && old(c.Valid())
              ==> c.Valid() && c.Snapshot() == old(c.Snapshot())
    ensures forall d: Dict :: old(allocated(d)) ==> d.attrs == old(d.attrs)
  {
    sh' := Run(p, t, mode, cur, sh);
  }
}
