/**
 Programs that nest async_to_sync and sync_to_async to any depth, and their two meanings.

 Exec follows the code: contexts are copied, moved between threads, re-homed and copied back,
 and the current executor is an attribute of a Local that travels with them. Eval is what
 user code is meant to see: one dictionary, and an executor passed down lexically.
 */
module Programs {
  import opened Contexts

  /** What user code names: a Local's attribute, a thread-critical Local's attribute, a context variable. */
  datatype Name = Var(local: nat, key: Key) | Critical(local: nat, key: Key) | Bare(name: nat)

  /** Whether the current thread has a running event loop. */
  datatype Mode = Sync | Async

  datatype Exn = User(n: int) | Missing | LoopRunning | NoLoop | OwnThread | AllQuit | WouldDeadlock

  datatype Outcome = Done | Raised(e: Exn)

  /** Everything a program can observe, and where its sync bodies ran. */
  datatype Obs =
    | Saw(thread: Tid, x: Name, v: Option<Val>)
    | Wrote(thread: Tid, x: Name, val: Val)
    | Caught(e: Exn)
    | RanOn(worker: Tid)
    | Ended(out: Outcome)

  type Log = seq<Obs>

  /** The context a worker thread that runs a new loop has of its own: empty, inherited from
      the thread that starts it, or left from an earlier start when the worker is reused. */
  datatype Worker = Fresh | Inherited | Reused(base: Context)

  /** Where the awaitable of async_to_sync runs. */
  datatype Dispatch = MainLoop(thread: Tid) | NewLoop(thread: Tid, worker: Worker)

  /** Where the function of sync_to_async runs. For a thread-sensitive call, quit is the set
      of executors that have quit by the time it is submitted, and fallback the thread used
      when there is no current executor (None when that would deadlock). */
  datatype Route = Sensitive(quit: set<nat>, fallback: Option<Tid>) | Pool(thread: Tid)

  /** Values and control may depend on everything observed so far. */
  datatype Prog =
    | Skip
    | Get(x: Name)
    | Set(x: Name, val: Log -> Val)
    | Del(x: Name)
    | Seq(first: Prog, second: Prog)
    | If(cond: Log -> bool, thn: Prog, els: Prog)
    | Repeat(count: Log -> nat, body: Prog)
    | Raise(e: Exn)
    | Try(body: Prog, handler: Prog)
    | AsyncToSync(coro: Prog, dispatch: Dispatch)
    | SyncToAsync(fn: Prog, route: Route)
    | Spawn(task: Prog)

  // ---- thread-critical names ---------------------------------------------------------

  datatype Slot = Slot(local: nat, thread: Tid, key: Key)

  /** A thread-critical Local is thread-local storage in a sync thread and a per-thread
      context variable in a thread with a running loop. */
  datatype Target = InContext(loc: Loc) | InThread(slot: Slot)

  function Resolve(x: Name, t: Tid, mode: Mode): Target {
    match x
    case Var(l, k) => InContext(Attr(l, k))
    case Bare(n) => InContext(Whole(n))
    case Critical(l, k) => if mode.Async? then InContext(CritAttr(l, t, k)) else InThread(Slot(l, t, k))
  }

  // ---- executors ---------------------------------------------------------------------

  /** The nearest executor on the chain that has not quit. */
  function FirstUnbroken(ex: Executor, quit: set<nat>): Executor {
    if ex == NoExecutor then ex
    else if ex.id in quit then FirstUnbroken(ex.outer, quit)
    else ex
  }

  datatype Placement = Runs(worker: Tid) | Refused(why: Exn)

  /** The thread a sync_to_async body gets, called on thread t with ex as current executor. */
  function Place(route: Route, ex: Executor, t: Tid): Placement {
    match route
    case Pool(w) => Runs(w)
    case Sensitive(quit, fallback) =>
      if ex == NoExecutor then
        if fallback.None? then Refused(WouldDeadlock) else Runs(fallback.value)
      else if ex.thread == t then Refused(OwnThread)
      else
        var receiver := FirstUnbroken(ex, quit);
        if receiver == NoExecutor then Refused(AllQuit) else Runs(receiver.thread)
  }

  // ---- the concrete meaning ----------------------------------------------------------

  /** ctx is the running context; safe records whether every crossing so far moved a context
      that was safe to move, from and onto a thread with nothing of its own to show. */
  datatype Conc = Conc(ctx: Context, tls: map<Slot, Val>, next: nat, log: Log, out: Outcome, safe: bool)

  /** AsyncToSync.executors.current as getattr with a None default finds it. */
  function CurrentExecutor(ctx: Context, t: Tid): Executor {
    match Read(ctx, t, Attr(EXECUTORS, CURRENT))
    case Some(Ref(ex)) => ex
    case _ => NoExecutor
  }

  function WithExecutor(ctx: Context, t: Tid, ex: Executor): Context {
    Write(ctx, t, Attr(EXECUTORS, CURRENT), Ref(ex))
  }

  /** The context the task running main_wrap starts in, before anything is restored into it. */
  function TaskBase(d: Dispatch, caller: Context): Context {
    match d
    case MainLoop(_) => caller
    case NewLoop(_, Fresh) => map[]
    case NewLoop(_, Inherited) => caller
    case NewLoop(_, Reused(base)) => base
  }

  /** Get, Set, Del and Raise. A read or deletion that finds nothing raises AttributeError
      (LookupError for a bare variable), and a bare variable offers no deletion. */
  ghost function ExecLeaf(p: Prog, t: Tid, mode: Mode, s: Conc): (r: Conc)
    requires p.Get? || p.Set? || p.Del? || p.Raise?
    ensures s.ctx.Keys <= r.ctx.Keys && r.safe == s.safe && s.log <= r.log
  {
    match p
    case Raise(e) => s.(out := Raised(e))
    case Get(x) =>
      var v := match Resolve(x, t, mode)
        case InContext(loc) => Read(s.ctx, t, loc)
        case InThread(slot) => Lookup(s.tls, slot);
      s.(log := s.log + [Saw(t, x, v)], out := if v.None? then Raised(Missing) else s.out)
    case Set(x, f) =>
      var val := f(s.log);
      var log := s.log + [Wrote(t, x, val)];
      (match Resolve(x, t, mode)
       case InContext(loc) => s.(ctx := Write(s.ctx, t, loc, val), log := log)
       case InThread(slot) => s.(tls := s.tls[slot := val], log := log))
    case Del(x) =>
      (match Resolve(x, t, mode)
       case InContext(Whole(_)) => s.(out := Raised(Missing))
       case InContext(loc) =>
         if Read(s.ctx, t, loc).None? then s.(out := Raised(Missing)) else s.(ctx := Erase(s.ctx, t, loc))
       case InThread(slot) =>
         if slot !in s.tls then s.(out := Raised(Missing)) else s.(tls := s.tls - {slot}))
  }

  /** The caller's context once AsyncToSync.__call__ has put its new executor in place. */
  function CallerContext(s: Conc, t: Tid): Context {
    WithExecutor(s.ctx, t, Executor(s.next, t, CurrentExecutor(s.ctx, t)))
  }

  /** AsyncToSync.__call__ up to main_wrap's restore on the loop's thread. */
  ghost function EnterAsync(s: Conc, t: Tid, d: Dispatch): (r: Conc)
    ensures s.ctx.Keys <= r.ctx.Keys && r.log == s.log
    ensures r.safe ==> s.safe
  {
    var caller := CallerContext(s, t);
    var base := TaskBase(d, caller);
    s.(ctx := Restored(caller, base, d.thread), next := s.next + 1,
       safe := s.safe && Crossable(caller, t) && Covered(base, caller))
  }

  /** From main_wrap's capture to the end of AsyncToSync.__call__, back on the caller's thread. */
  ghost function LeaveAsync(r: Conc, s: Conc, t: Tid): (q: Conc)
    ensures s.ctx.Keys + r.ctx.Keys <= q.ctx.Keys && q.log == r.log && q.safe == r.safe
  {
    r.(ctx := WithExecutor(Restored(r.ctx, CallerContext(s, t), t), t, CurrentExecutor(s.ctx, t)))
  }

  /** SyncToAsync.__call__ up to run_child's restore on the worker thread w. */
  ghost function EnterSync(s: Conc, t: Tid, w: Tid): (r: Conc)
    ensures s.ctx.Keys <= r.ctx.Keys && s.log <= r.log
    ensures r.safe ==> s.safe
  {
    s.(ctx := Restored(s.ctx, s.ctx, w), log := s.log + [RanOn(w)], safe := s.safe && Crossable(s.ctx, t))
  }

  /** The finally block of SyncToAsync.__call__, back on the loop's thread. */
  ghost function LeaveSync(r: Conc, s: Conc, t: Tid): (q: Conc)
    ensures s.ctx.Keys + r.ctx.Keys <= q.ctx.Keys && q.log == r.log && q.safe == r.safe
  {
    r.(ctx := Restored(r.ctx, s.ctx, t))
  }

  ghost function Exec(p: Prog, t: Tid, mode: Mode, s: Conc): (r: Conc)
    ensures s.ctx.Keys <= r.ctx.Keys
    ensures r.safe ==> s.safe
    ensures s.log <= r.log
    decreases p, 0
  {
    match p
    case Skip => s
    case Seq(p1, p2) =>
      var r := Exec(p1, t, mode, s);
      if r.out.Raised? then r else Exec(p2, t, mode, r)
    case If(cond, p1, p2) => if cond(s.log) then Exec(p1, t, mode, s) else Exec(p2, t, mode, s)
    case Repeat(count, body) => ExecTimes(body, count(s.log), t, mode, s)
    case Try(body, handler) =>
      var r := Exec(body, t, mode, s);
      if r.out.Done? then r else Exec(handler, t, mode, Handling(r))
    case AsyncToSync(coro, d) =>
      if mode.Async? then s.(out := Raised(LoopRunning))
      else LeaveAsync(Exec(coro, d.thread, Async, EnterAsync(s, t, d)), s, t)
    case SyncToAsync(fn, route) =>
      if mode.Sync? then s.(out := Raised(NoLoop))
      else
        (match Place(route, CurrentExecutor(s.ctx, t), t)
         case Refused(why) => s.(out := Raised(why))
         case Runs(w) => LeaveSync(Exec(fn, w, Sync, EnterSync(s, t, w)), s, t))
    case Spawn(task) =>
      if mode.Sync? then s.(out := Raised(NoLoop))
      else
        var r := Exec(task, t, Async, s);
        r.(ctx := s.ctx, log := r.log + [Ended(r.out)], out := Done)
    case _ => ExecLeaf(p, t, mode, s)
  }

  /** An exception handler starts knowing which exception it handles. */
  function Handling(r: Conc): Conc
    requires r.out.Raised?
  {
    r.(log := r.log + [Caught(r.out.e)], out := Done)
  }

  ghost function ExecTimes(p: Prog, n: nat, t: Tid, mode: Mode, s: Conc): (r: Conc)
    ensures s.ctx.Keys <= r.ctx.Keys
    ensures r.safe ==> s.safe
    ensures s.log <= r.log
    decreases p, n
  {
    if n == 0 then s
    else
      var r := Exec(p, t, mode, s);
      if r.out.Raised? then r else ExecTimes(p, n - 1, t, mode, r)
  }

  // ---- the abstract meaning ----------------------------------------------------------

  /** One dictionary for everything that lives in contexts, whatever thread the code is on. */
  datatype Abst = Abst(dict: map<Loc, Val>, tls: map<Slot, Val>, next: nat, log: Log, out: Outcome)

  ghost function EvalLeaf(p: Prog, t: Tid, mode: Mode, s: Abst): (r: Abst)
    requires p.Get? || p.Set? || p.Del? || p.Raise?
    ensures s.log <= r.log
  {
    match p
    case Raise(e) => s.(out := Raised(e))
    case Get(x) =>
      var v := match Resolve(x, t, mode)
        case InContext(loc) => Lookup(s.dict, loc)
        case InThread(slot) => Lookup(s.tls, slot);
      s.(log := s.log + [Saw(t, x, v)], out := if v.None? then Raised(Missing) else s.out)
    case Set(x, f) =>
      var val := f(s.log);
      var log := s.log + [Wrote(t, x, val)];
      (match Resolve(x, t, mode)
       case InContext(loc) => s.(dict := s.dict[loc := val], log := log)
       case InThread(slot) => s.(tls := s.tls[slot := val], log := log))
    case Del(x) =>
      (match Resolve(x, t, mode)
       case InContext(Whole(_)) => s.(out := Raised(Missing))
       case InContext(loc) => if loc !in s.dict then s.(out := Raised(Missing)) else s.(dict := s.dict - {loc})
       case InThread(slot) =>
         if slot !in s.tls then s.(out := Raised(Missing)) else s.(tls := s.tls - {slot}))
  }

  ghost function Eval(p: Prog, t: Tid, mode: Mode, ex: Executor, s: Abst): (r: Abst)
    ensures s.log <= r.log
    decreases p, 0
  {
    match p
    case Skip => s
    case Seq(p1, p2) =>
      var r := Eval(p1, t, mode, ex, s);
      if r.out.Raised? then r else Eval(p2, t, mode, ex, r)
    case If(cond, p1, p2) => if cond(s.log) then Eval(p1, t, mode, ex, s) else Eval(p2, t, mode, ex, s)
    case Repeat(count, body) => EvalTimes(body, count(s.log), t, mode, ex, s)
    case Try(body, handler) =>
      var r := Eval(body, t, mode, ex, s);
      if r.out.Done? then r
      else Eval(handler, t, mode, ex, r.(log := r.log + [Caught(r.out.e)], out := Done))
    case AsyncToSync(coro, d) =>
      if mode.Async? then s.(out := Raised(LoopRunning))
      else Eval(coro, d.thread, Async, Executor(s.next, t, ex), s.(next := s.next + 1))
    case SyncToAsync(fn, route) =>
      if mode.Sync? then s.(out := Raised(NoLoop))
      else
        (match Place(route, ex, t)
         case Refused(why) => s.(out := Raised(why))
         case Runs(w) => Eval(fn, w, Sync, ex, s.(log := s.log + [RanOn(w)])))
    case Spawn(task) =>
      if mode.Sync? then s.(out := Raised(NoLoop))
      else
        var r := Eval(task, t, Async, ex, s);
        r.(dict := s.dict, log := r.log + [Ended(r.out)], out := Done)
    case _ => EvalLeaf(p, t, mode, s)
  }

  ghost function EvalTimes(p: Prog, n: nat, t: Tid, mode: Mode, ex: Executor, s: Abst): (r: Abst)
    ensures s.log <= r.log
    decreases p, n
  {
    if n == 0 then s
    else
      var r := Eval(p, t, mode, ex, s);
      if r.out.Raised? then r else EvalTimes(p, n - 1, t, mode, ex, r)
  }

  // ---- what programs are about -------------------------------------------------------

  /** User code leaves the Local that belongs to AsyncToSync alone. */
  predicate UserName(x: Name) {
    x.Var? ==> x.local != EXECUTORS
  }

  predicate UserProg(p: Prog) {
    match p
    case Get(x) => UserName(x)
    case Set(x, _) => UserName(x)
    case Del(x) => UserName(x)
    case Seq(p1, p2) => UserProg(p1) && UserProg(p2)
    case If(_, p1, p2) => UserProg(p1) && UserProg(p2)
    case Repeat(_, body) => UserProg(body)
    case Try(body, handler) => UserProg(body) && UserProg(handler)
    case AsyncToSync(coro, d) => UserProg(coro) && (d.NewLoop? && d.worker.Reused? ==> WellFormed(d.worker.base))
    case SyncToAsync(fn, _) => UserProg(fn)
    case Spawn(task) => UserProg(task)
    case _ => true
  }

  /** What a reused worker thread has in a context of its own, inherited when it was started, is set by vs as well, or
      is empty, or belongs to AsyncToSync. */
  ghost predicate CoveredWorkers(p: Prog, vs: set<CVar>) {
    match p
    case Seq(p1, p2) => CoveredWorkers(p1, vs) && CoveredWorkers(p2, vs)
    case If(_, p1, p2) => CoveredWorkers(p1, vs) && CoveredWorkers(p2, vs)
    case Repeat(_, body) => CoveredWorkers(body, vs)
    case Try(body, handler) => CoveredWorkers(body, vs) && CoveredWorkers(handler, vs)
    case AsyncToSync(coro, d) => CoveredWorkers(coro, vs) && NothingOfItsOwn(d, vs)
    case SyncToAsync(fn, _) => CoveredWorkers(fn, vs)
    case Spawn(task) => CoveredWorkers(task, vs)
    case _ => true
  }

  /** The thread the loop runs on has no context of its own that would show through one that sets vs. */
  ghost predicate NothingOfItsOwn(d: Dispatch, vs: set<CVar>) {
    d.NewLoop? && d.worker.Reused? ==>
      forall v :: v in d.worker.base ==> v in vs || v == LocalVar(EXECUTORS) || Blank(v, d.worker.base[v])
  }

  /** Every sync_to_async in the program is thread-sensitive. */
  predicate AllSensitive(p: Prog) {
    match p
    case Seq(p1, p2) => AllSensitive(p1) && AllSensitive(p2)
    case If(_, p1, p2) => AllSensitive(p1) && AllSensitive(p2)
    case Repeat(_, body) => AllSensitive(body)
    case Try(body, handler) => AllSensitive(body) && AllSensitive(handler)
    case AsyncToSync(coro, _) => AllSensitive(coro)
    case SyncToAsync(fn, route) => AllSensitive(fn) && route.Sensitive?
    case Spawn(task) => AllSensitive(task)
    case _ => true
  }

  /** Some part of the program crosses between sync and async code. */
  predicate Crosses(p: Prog) {
    match p
    case Seq(p1, p2) => Crosses(p1) || Crosses(p2)
    case If(_, p1, p2) => Crosses(p1) || Crosses(p2)
    case Repeat(_, body) => Crosses(body)
    case Try(body, handler) => Crosses(body) || Crosses(handler)
    case AsyncToSync(_, _) => true
    case SyncToAsync(_, _) => true
    case Spawn(task) => Crosses(task)
    case _ => false
  }
}
