/**
 Which thread the function of a thread-sensitive sync_to_async runs on: executors.current is an attribute of a Local
 that travels with the context, and every executor on its chain was built on one thread.
 */
module Affinity {
  import opened Contexts
  import opened Programs
  import opened Transparency
  import opened Crossings

  ghost predicate BuiltOn(ex: Executor, t: Tid) {
    ex == NoExecutor || (ex.thread == t && BuiltOn(ex.outer, t))
  }

  ghost predicate OnlyRanOn(log: Log, t: Tid) {
    forall o :: o in log && o.RanOn? ==> o.worker == t
  }

  lemma {:induction false} FirstUnbrokenOnChain(ex: Executor, quit: set<nat>, t: Tid)
    requires BuiltOn(ex, t)
    ensures var r := FirstUnbroken(ex, quit); r != NoExecutor ==> r.thread == t && r.id !in quit
  {
    if ex != NoExecutor && ex.id in quit {
      FirstUnbrokenOnChain(ex.outer, quit, t);
    }
  }

  /** Going from ex outwards, every executor before r has quit. */
  predicate AllQuitBefore(ex: Executor, r: Executor, quit: set<nat>) {
    ex == r || (ex != NoExecutor && ex.id in quit && AllQuitBefore(ex.outer, r, quit))
  }

  lemma {:induction false} FirstUnbrokenIsNearest(ex: Executor, quit: set<nat>)
    ensures var r := FirstUnbroken(ex, quit);
            AllQuitBefore(ex, r, quit) && (r != NoExecutor ==> r.id !in quit)
  {
    if ex != NoExecutor && ex.id in quit {
      FirstUnbrokenIsNearest(ex.outer, quit);
    }
  }

  /** A thread-sensitive body below an executor runs on a thread if and only if that is the thread of the first executor
      on the chain that has not quit, and the nearest one is not the caller's own. */
  lemma PlacedOnNearest(ex: Executor, quit: set<nat>, fallback: Option<Tid>, t: Tid, w: Tid)
    requires ex != NoExecutor
    ensures Place(Sensitive(quit, fallback), ex, t) == Runs(w) <==>
      && ex.thread != t
      && exists r: Executor :: r != NoExecutor && r.id !in quit && r.thread == w && AllQuitBefore(ex, r, quit)
  {
    FirstUnbrokenIsNearest(ex, quit);
    forall r: Executor | r != NoExecutor && r.id !in quit && AllQuitBefore(ex, r, quit)
      ensures r == FirstUnbroken(ex, quit)
    {
      NearestIsUnique(ex, r, quit);
    }
  }

  /** Where a thread-sensitive body runs, and when it does not: with no executor around, on the fallback thread, or
      nowhere if that would deadlock; and below one, as above, or nowhere if the nearest executor is the caller's own,
      or all on the chain have quit. */
  lemma PlacedExactly(ex: Executor, quit: set<nat>, fallback: Option<Tid>, t: Tid, w: Tid)
    ensures
      var place := Place(Sensitive(quit, fallback), ex, t);
      && (place == Runs(w) <==>
            || (ex == NoExecutor && fallback == Some(w))
            || (ex != NoExecutor && ex.thread != t
                && exists r: Executor ::
                  r != NoExecutor && r.id !in quit && r.thread == w && AllQuitBefore(ex, r, quit)))
      && (place == Refused(WouldDeadlock) <==> ex == NoExecutor && fallback.None?)
      && (place == Refused(OwnThread) <==> ex != NoExecutor && ex.thread == t)
      && (place == Refused(AllQuit) <==> ex != NoExecutor && ex.thread != t && AllQuitBefore(ex, NoExecutor, quit))
  {
    if ex != NoExecutor {
      PlacedOnNearest(ex, quit, fallback, t, w);
      FirstUnbrokenIsNearest(ex, quit);
      if AllQuitBefore(ex, NoExecutor, quit) {
        NoneIsNearest(ex, quit);
      }
    }
  }

  lemma {:induction false} NoneIsNearest(ex: Executor, quit: set<nat>)
    requires AllQuitBefore(ex, NoExecutor, quit)
    ensures FirstUnbroken(ex, quit) == NoExecutor
  {
    if ex != NoExecutor {
      NoneIsNearest(ex.outer, quit);
    }
  }

  lemma {:induction false} NearestIsUnique(ex: Executor, r: Executor, quit: set<nat>)
    requires r != NoExecutor && r.id !in quit && AllQuitBefore(ex, r, quit)
    ensures r == FirstUnbroken(ex, quit)
  {
    if ex != r {
      NearestIsUnique(ex.outer, r, quit);
    }
  }

  lemma {:induction false} EvalAffinity(p: Prog, t: Tid, mode: Mode, ex: Executor, a: Abst, main: Tid)
    requires AllSensitive(p) && BuiltOn(ex, main) && OnlyRanOn(a.log, main)
    requires if mode.Sync? then t == main else ex != NoExecutor
    ensures OnlyRanOn(Eval(p, t, mode, ex, a).log, main)
    decreases p, 0
  {
    match p
    case Seq(p1, p2) =>
      EvalAffinity(p1, t, mode, ex, a, main);
      EvalAffinity(p2, t, mode, ex, Eval(p1, t, mode, ex, a), main);
    case If(cond, p1, p2) => EvalAffinity(if cond(a.log) then p1 else p2, t, mode, ex, a, main);
    case Repeat(count, body) => EvalAffinityTimes(body, count(a.log), t, mode, ex, a, main);
    case Try(body, handler) =>
      EvalAffinity(body, t, mode, ex, a, main);
      var r := Eval(body, t, mode, ex, a);
      if r.out.Raised? {
        EvalAffinity(handler, t, mode, ex, r.(log := r.log + [Caught(r.out.e)], out := Done), main);
      }
    case AsyncToSync(coro, d) =>
      if mode.Sync? {
        EvalAffinity(coro, d.thread, Async, Executor(a.next, t, ex), a.(next := a.next + 1), main);
      }
    case SyncToAsync(fn, route) =>
      if mode.Async? && Place(route, ex, t).Runs? {
        FirstUnbrokenOnChain(ex, route.quit, main);
        EvalAffinity(fn, main, Sync, ex, a.(log := a.log + [RanOn(main)]), main);
      }
    case Spawn(task) =>
      if mode.Async? {
        EvalAffinity(task, t, Async, ex, a, main);
      }
    case _ =>
  }

  lemma {:induction false} EvalAffinityTimes(p: Prog, n: nat, t: Tid, mode: Mode, ex: Executor, a: Abst, main: Tid)
    requires AllSensitive(p) && BuiltOn(ex, main) && OnlyRanOn(a.log, main)
    requires if mode.Sync? then t == main else ex != NoExecutor
    ensures OnlyRanOn(EvalTimes(p, n, t, mode, ex, a).log, main)
    decreases p, n
  {
    if n != 0 {
      EvalAffinity(p, t, mode, ex, a, main);
      EvalAffinityTimes(p, n - 1, t, mode, ex, Eval(p, t, mode, ex, a), main);
    }
  }

  // ---- the executor that travels with the context --------------------------------------

  /** The storage of the Local behind executors is set and thread t's own. */
  predicate Held(ctx: Context, t: Tid) {
    var v := VarOf(Attr(EXECUTORS, CURRENT));
    v in ctx && ctx[v].Stored? && ctx[v].tag == t
  }

  /** Sync code is on the main thread, and async code finds an executor; whatever else the context holds. */
  ghost predicate Rooted(s: Conc, t: Tid, mode: Mode, main: Tid) {
    && WellFormed(s.ctx) && BuiltOn(CurrentExecutor(s.ctx, t), main) && OnlyRanOn(s.log, main)
    && if mode.Sync? then t == main else Held(s.ctx, t) && CurrentExecutor(s.ctx, t) != NoExecutor
  }

  /** What a run leaves as it was, for the code around it. */
  ghost predicate KeepsExecutor(s: Conc, r: Conc, t: Tid) {
    CurrentExecutor(r.ctx, t) == CurrentExecutor(s.ctx, t) && (Held(s.ctx, t) ==> Held(r.ctx, t))
  }

  lemma MoveExecutor(src: Context, dst: Context, t: Tid, u: Tid)
    requires Held(src, t)
    ensures Held(Restored(src, dst, u), u) && CurrentExecutor(Restored(src, dst, u), u) == CurrentExecutor(src, t)
  {
    RestoredReads(src, dst, u, Attr(EXECUTORS, CURRENT));
  }

  lemma InstallHolds(ctx: Context, t: Tid, ex: Executor)
    requires WellFormed(ctx)
    ensures Held(WithExecutor(ctx, t, ex), t) && CurrentExecutor(WithExecutor(ctx, t, ex), t) == ex
  {
    WriteReads(ctx, t, Attr(EXECUTORS, CURRENT), Ref(ex), Attr(EXECUTORS, CURRENT));
  }

  lemma LeafAffinity(p: Prog, t: Tid, mode: Mode, s: Conc, main: Tid)
    requires UserProg(p) && (p.Get? || p.Set? || p.Del? || p.Raise?) && Rooted(s, t, mode, main)
    ensures var r := ExecLeaf(p, t, mode, s);
            Rooted(r, t, mode, main) && KeepsExecutor(s, r, t)
  {
  }

  lemma {:induction false} ExecAffinity(p: Prog, t: Tid, mode: Mode, s: Conc, main: Tid)
    requires UserProg(p) && AllSensitive(p) && Rooted(s, t, mode, main)
    ensures var r := Exec(p, t, mode, s);
            Rooted(r, t, mode, main) && KeepsExecutor(s, r, t)
    decreases p, 0
  {
    match p
    case Skip =>
    case Seq(p1, p2) =>
      ExecAffinity(p1, t, mode, s, main);
      if Exec(p1, t, mode, s).out.Done? {
        ExecAffinity(p2, t, mode, Exec(p1, t, mode, s), main);
      }
    case If(cond, p1, p2) => ExecAffinity(if cond(s.log) then p1 else p2, t, mode, s, main);
    case Repeat(count, body) => ExecAffinityTimes(body, count(s.log), t, mode, s, main);
    case Try(body, handler) =>
      ExecAffinity(body, t, mode, s, main);
      var r := Exec(body, t, mode, s);
      if r.out.Raised? {
        ExecAffinity(handler, t, mode, Handling(r), main);
      }
    case AsyncToSync(coro, d) =>
      if mode.Sync? {
        ToSyncAffinity(coro, d, s, main);
      }
    case SyncToAsync(fn, route) =>
      if mode.Async? && Place(route, CurrentExecutor(s.ctx, t), t).Runs? {
        FirstUnbrokenOnChain(CurrentExecutor(s.ctx, t), route.quit, main);
        ToAsyncAffinity(fn, t, s, main);
      }
    case Spawn(task) =>
      if mode.Async? {
        ExecAffinity(task, t, Async, s, main);
      }
    case _ => LeafAffinity(p, t, mode, s, main);
  }

  lemma {:induction false} ToSyncAffinity(coro: Prog, d: Dispatch, s: Conc, main: Tid)
    requires UserProg(AsyncToSync(coro, d)) && AllSensitive(coro) && Rooted(s, main, Sync, main)
    ensures var r := LeaveAsync(Exec(coro, d.thread, Async, EnterAsync(s, main, d)), s, main);
            Rooted(r, main, Sync, main) && KeepsExecutor(s, r, main)
    decreases coro, 1
  {
    var caller, entered := CallerContext(s, main), EnterAsync(s, main, d);
    EnterKeepsWellFormed(s, main, d, main);
    InstallHolds(s.ctx, main, Executor(s.next, main, CurrentExecutor(s.ctx, main)));
    MoveExecutor(caller, TaskBase(d, caller), main, d.thread);
    ExecAffinity(coro, d.thread, Async, entered, main);
    var r := Exec(coro, d.thread, Async, entered);
    RestoredIsWellFormed(r.ctx, caller, main);
    LeaveKeepsWellFormed(r, s, main);
    InstallHolds(Restored(r.ctx, caller, main), main, CurrentExecutor(s.ctx, main));
  }

  lemma {:induction false} ToAsyncAffinity(fn: Prog, t: Tid, s: Conc, main: Tid)
    requires UserProg(fn) && AllSensitive(fn) && Rooted(s, t, Async, main)
    ensures var r := LeaveSync(Exec(fn, main, Sync, EnterSync(s, t, main)), s, t);
            Rooted(r, t, Async, main) && KeepsExecutor(s, r, t)
    decreases fn, 1
  {
    var entered := EnterSync(s, t, main);
    EnterKeepsWellFormed(s, t, MainLoop(t), main);
    MoveExecutor(s.ctx, s.ctx, t, main);
    ExecAffinity(fn, main, Sync, entered, main);
    var r := Exec(fn, main, Sync, entered);
    LeaveKeepsWellFormed(r, s, t);
    MoveExecutor(r.ctx, s.ctx, main, t);
  }

  lemma {:induction false} ExecAffinityTimes(p: Prog, n: nat, t: Tid, mode: Mode, s: Conc, main: Tid)
    requires UserProg(p) && AllSensitive(p) && Rooted(s, t, mode, main)
    ensures var r := ExecTimes(p, n, t, mode, s);
            Rooted(r, t, mode, main) && KeepsExecutor(s, r, t)
    decreases p, n + 2
  {
    if n != 0 {
      ExecAffinity(p, t, mode, s, main);
      var r := Exec(p, t, mode, s);
      if r.out.Done? {
        ExecAffinityTimes(p, n - 1, t, mode, r, main);
      }
    }
  }

  /** Thread affinity. In a call tree rooted at async_to_sync on the main thread in which every sync_to_async is
      thread-sensitive, every sync body that runs at all runs on the main thread: whichever executors have quit by the
      time it is submitted, whichever threads the loops run on and whatever contexts those threads have of their own. */
  lemma {:induction false} ThreadAffinity(coro: Prog, d: Dispatch, main: Tid, s: Conc)
    requires WellFormed(s.ctx) && UserProg(AsyncToSync(coro, d)) && AllSensitive(coro)
    requires BuiltOn(CurrentExecutor(s.ctx, main), main) && OnlyRanOn(s.log, main)
    ensures OnlyRanOn(Exec(AsyncToSync(coro, d), main, Sync, s).log, main)
  {
    ExecAffinity(AsyncToSync(coro, d), main, Sync, s, main);
  }
}
