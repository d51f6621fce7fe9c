/**
 What the simulation gives: transparency of whole programs, isolation of inherited contexts, the exact guards under
 which a crossing is invisible, and bracketing of the current executor.
 */
module Crossings {
  import opened Contexts
  import opened Programs
  import opened Transparency

  // ---- the dictionary a context shows ------------------------------------------------

  function LocAt(v: CVar, k: Key): Loc {
    match v
    case LocalVar(l) => Attr(l, k)
    case CritVar(l, t) => CritAttr(l, t, k)
    case PlainVar(n) => Whole(n)
  }

  ghost function Locs(ctx: Context): set<Loc> {
    (set v, k | v in ctx && k in Attrs(ctx[v]) :: LocAt(v, k)) + (set v | v in ctx :: LocAt(v, ""))
  }

  /** Everything code on thread t can read. */
  ghost function Visible(ctx: Context, t: Tid): map<Loc, Val> {
    map x | x in Locs(ctx) && Read(ctx, t, x).Some? :: Read(ctx, t, x).value
  }

  /** The plain-dictionary state a concrete state stands for on thread t. */
  ghost function Abstract(s: Conc, t: Tid): Abst {
    Abst(Visible(s.ctx, t), s.tls, s.next, s.log, s.out)
  }

  lemma VisibleIsView(s: Conc, t: Tid)
    requires WellFormed(s.ctx)
    ensures Sim(s, t, CurrentExecutor(s.ctx, t), Abstract(s, t))
  {
    forall x ensures Agree(s.ctx, t, Visible(s.ctx, t), x) {
      if Read(s.ctx, t, x).Some? {
        var v := VarOf(x);
        if x.Whole? {
          assert x == LocAt(v, "");
        } else {
          assert x.key in Attrs(s.ctx[v]) && x == LocAt(v, x.key);
        }
        assert x in Locs(s.ctx);
      }
    }
  }

  // ---- transparency ------------------------------------------------------------------

  /** Entering the awaitable is a safe crossing if and only if every storage is the caller's or empty, that of the
      current executor apart, and the loop's thread has nothing of its own to show. */
  lemma {:induction false} EnterAsyncIsSafe(s: Conc, t: Tid, d: Dispatch)
    requires WellFormed(s.ctx) && (d.NewLoop? && d.worker.Reused? ==> WellFormed(d.worker.base))
    ensures var r := EnterAsync(s, t, d);
            && WellFormed(r.ctx) && s.ctx.Keys <= r.ctx.Keys
            && (r.safe <==> s.safe && OwnOrEmpty(s.ctx, t) && NothingOfItsOwn(d, s.ctx.Keys))
            && (r.safe ==> Crossable(r.ctx, d.thread))
  {
    var caller := CallerContext(s, t);
    EnterKeepsWellFormed(s, t, d, t);
    InstalledGuards(s.ctx, t, Executor(s.next, t, CurrentExecutor(s.ctx, t)), d, caller);
    if EnterAsync(s, t, d).safe {
      VisibleIsView(s.(ctx := caller), t);
      MoveKeepsView(caller, TaskBase(d, caller), t, d.thread, CurrentExecutor(caller, t), Visible(caller, t));
    }
  }

  lemma EnterSyncIsSafe(s: Conc, t: Tid, w: Tid)
    requires WellFormed(s.ctx) && Crossable(s.ctx, t)
    ensures var r := EnterSync(s, t, w);
            WellFormed(r.ctx) && Crossable(r.ctx, w) && r.safe == s.safe
  {
    VisibleIsView(s, t);
    MoveKeepsView(s.ctx, s.ctx, t, w, CurrentExecutor(s.ctx, t), Visible(s.ctx, t));
  }

  /** From a context that is safe to move and sets vs, every crossing of every nested run is safe. */
  lemma {:induction false} CoveredWorkersAreSafe(p: Prog, vs: set<CVar>, t: Tid, mode: Mode, s: Conc)
    requires WellFormed(s.ctx) && UserProg(p) && Crossable(s.ctx, t) && vs <= s.ctx.Keys && CoveredWorkers(p, vs)
    ensures s.safe ==> Exec(p, t, mode, s).safe
    decreases p, 0
  {
    match p
    case Seq(p1, p2) =>
      CoveredWorkersAreSafe(p1, vs, t, mode, s);
      ExecKeepsCrossable(p1, t, mode, s);
      CoveredWorkersAreSafe(p2, vs, t, mode, Exec(p1, t, mode, s));
    case If(cond, p1, p2) => CoveredWorkersAreSafe(if cond(s.log) then p1 else p2, vs, t, mode, s);
    case Repeat(count, body) => CoveredWorkersAreSafeTimes(body, vs, count(s.log), t, mode, s);
    case Try(body, handler) =>
      CoveredWorkersAreSafe(body, vs, t, mode, s);
      ExecKeepsCrossable(body, t, mode, s);
      if Exec(body, t, mode, s).out.Raised? {
        CoveredWorkersAreSafe(handler, vs, t, mode, Handling(Exec(body, t, mode, s)));
      }
    case AsyncToSync(coro, d) =>
      EnterAsyncIsSafe(s, t, d);
      if s.safe {
        CoveredWorkersAreSafe(coro, vs, d.thread, Async, EnterAsync(s, t, d));
      }
    case SyncToAsync(fn, route) =>
      var place := Place(route, CurrentExecutor(s.ctx, t), t);
      if place.Runs? {
        EnterSyncIsSafe(s, t, place.worker);
        CoveredWorkersAreSafe(fn, vs, place.worker, Sync, EnterSync(s, t, place.worker));
      }
    case Spawn(task) =>
      if mode.Async? {
        CoveredWorkersAreSafe(task, vs, t, Async, s);
      }
    case _ =>
  }

  lemma {:induction false} CoveredWorkersAreSafeTimes(p: Prog, vs: set<CVar>, n: nat, t: Tid, mode: Mode, s: Conc)
    requires WellFormed(s.ctx) && UserProg(p) && Crossable(s.ctx, t) && vs <= s.ctx.Keys && CoveredWorkers(p, vs)
    ensures s.safe ==> ExecTimes(p, n, t, mode, s).safe
    decreases p, n
  {
    if n != 0 {
      CoveredWorkersAreSafe(p, vs, t, mode, s);
      ExecKeepsCrossable(p, t, mode, s);
      CoveredWorkersAreSafeTimes(p, vs, n - 1, t, mode, Exec(p, t, mode, s));
    }
  }

  /** Run from s, the program reads and leaves exactly what one plain dictionary would give, and submits to the executor
      lexically around it. */
  ghost predicate LooksLikeOne(p: Prog, t: Tid, mode: Mode, s: Conc) {
    var ex := CurrentExecutor(s.ctx, t);
    Sim(Exec(p, t, mode, s), t, ex, Eval(p, t, mode, ex, Abstract(s, t)))
  }

  /** Transparency. Started with every Local storage absent, empty or its own thread's, a program nesting
      async_to_sync and sync_to_async to any depth, on any threads, with exceptions and spawned tasks, looks like one
      dictionary, if the variables that reused worker threads hold in contexts of their own are all set where it
      starts. */
  lemma {:induction false} Transparent(p: Prog, t: Tid, mode: Mode, s: Conc)
    requires WellFormed(s.ctx) && UserProg(p) && CoveredWorkers(p, s.ctx.Keys) && Crossable(s.ctx, t) && s.safe
    ensures LooksLikeOne(p, t, mode, s)
  {
    VisibleIsView(s, t);
    CoveredWorkersAreSafe(p, s.ctx.Keys, t, mode, s);
    Simulation(p, t, mode, CurrentExecutor(s.ctx, t), s, Abstract(s, t));
  }

  // ---- transparency of one async_to_sync call, exactly ---------------------------------

  lemma GuardedCallIsTransparent(coro: Prog, d: Dispatch, t: Tid, s: Conc)
    requires WellFormed(s.ctx) && UserProg(AsyncToSync(coro, d)) && CoveredWorkers(coro, s.ctx.Keys) && s.safe
    requires OwnOrEmpty(s.ctx, t) && NothingOfItsOwn(d, s.ctx.Keys)
    ensures LooksLikeOne(AsyncToSync(coro, d), t, Sync, s)
  {
    EnterAsyncIsSafe(s, t, d);
    CoveredWorkersAreSafe(coro, s.ctx.Keys, d.thread, Async, EnterAsync(s, t, d));
    VisibleIsView(s, t);
    Simulation(AsyncToSync(coro, d), t, Sync, CurrentExecutor(s.ctx, t), s, Abstract(s, t));
  }

  /** An empty call does not change what the thread reads in the Local behind executors. */
  lemma ExecutorsStay(s: Conc, t: Tid, d: Dispatch, x: Loc)
    requires WellFormed(s.ctx) && (d.NewLoop? && d.worker.Reused? ==> WellFormed(d.worker.base))
    requires VarOf(x) == LocalVar(EXECUTORS) && x != Attr(EXECUTORS, CURRENT)
    ensures Read(Exec(AsyncToSync(Skip, d), t, Sync, s).ctx, t, x) == Read(s.ctx, t, x)
  {
    var saved, caller := CurrentExecutor(s.ctx, t), CallerContext(s, t);
    var trip := Restored(Restored(caller, TaskBase(d, caller), d.thread), caller, t);
    EmptyCall(s, t, d, caller, trip);
    EmptyTrip(caller, TaskBase(d, caller), d.thread, t);
    EnterKeepsWellFormed(s, t, d, t);
    TripIsWellFormed(d, caller, t);
    WriteReads(s.ctx, t, Attr(EXECUTORS, CURRENT), Ref(Executor(s.next, t, saved)), x);
    WriteReads(trip, t, Attr(EXECUTORS, CURRENT), Ref(saved), x);
  }

  /** An async_to_sync call looks like one dictionary, whatever user code it runs on threads that are covered, if and
      only if every storage is the caller's own or empty, that of the current executor apart, and the thread the loop
      runs on holds nothing that the caller does not set. */
  lemma {:induction false} CallTransparentExactly(s: Conc, t: Tid, d: Dispatch)
    requires WellFormed(s.ctx) && s.safe && (d.NewLoop? && d.worker.Reused? ==> WellFormed(d.worker.base))
    ensures (forall coro :: UserProg(coro) && CoveredWorkers(coro, s.ctx.Keys)
                            ==> LooksLikeOne(AsyncToSync(coro, d), t, Sync, s))
            <==> OwnOrEmpty(s.ctx, t) && NothingOfItsOwn(d, s.ctx.Keys)
  {
    if OwnOrEmpty(s.ctx, t) && NothingOfItsOwn(d, s.ctx.Keys) {
      forall coro | UserProg(coro) && CoveredWorkers(coro, s.ctx.Keys)
        ensures LooksLikeOne(AsyncToSync(coro, d), t, Sync, s)
      {
        GuardedCallIsTransparent(coro, d, t, s);
      }
    } else if LooksLikeOne(AsyncToSync(Skip, d), t, Sync, s) {
      EmptyCallShowsGuards(s, t, d);
    }
  }

  lemma EmptyCallShowsGuards(s: Conc, t: Tid, d: Dispatch)
    requires WellFormed(s.ctx) && (d.NewLoop? && d.worker.Reused? ==> WellFormed(d.worker.base))
    requires LooksLikeOne(AsyncToSync(Skip, d), t, Sync, s)
    ensures OwnOrEmpty(s.ctx, t) && NothingOfItsOwn(d, s.ctx.Keys)
  {
    var after, ex, a := Exec(AsyncToSync(Skip, d), t, Sync, s), CurrentExecutor(s.ctx, t), Abstract(s, t);
    VisibleIsView(s, t);
    assert Eval(AsyncToSync(Skip, d), t, Sync, ex, a) == a.(next := a.next + 1);
    forall x | x != Attr(EXECUTORS, CURRENT) ensures Read(after.ctx, t, x) == Read(s.ctx, t, x) {
      if UserLoc(x) {
        assert Agree(after.ctx, t, a.dict, x) && Agree(s.ctx, t, a.dict, x);
      } else {
        ExecutorsStay(s, t, d, x);
      }
    }
    AsyncCrossingExact(s, t, d);
  }

  // ---- inherited contexts ------------------------------------------------------------

  ghost predicate AllForeign(ctx: Context, t: Tid) {
    forall v :: v in ctx && ctx[v].Stored? ==> ctx[v].tag != t
  }

  lemma {:induction false} NoCrossingIsSafe(p: Prog, t: Tid, mode: Mode, s: Conc)
    requires !Crosses(p)
    ensures Exec(p, t, mode, s).safe == s.safe
    decreases p, 0
  {
    match p
    case Seq(p1, p2) =>
      NoCrossingIsSafe(p1, t, mode, s);
      NoCrossingIsSafe(p2, t, mode, Exec(p1, t, mode, s));
    case If(cond, p1, p2) => NoCrossingIsSafe(if cond(s.log) then p1 else p2, t, mode, s);
    case Repeat(count, body) => NoCrossingIsSafeTimes(body, count(s.log), t, mode, s);
    case Try(body, handler) =>
      NoCrossingIsSafe(body, t, mode, s);
      if Exec(body, t, mode, s).out.Raised? {
        NoCrossingIsSafe(handler, t, mode, Handling(Exec(body, t, mode, s)));
      }
    case Spawn(task) => NoCrossingIsSafe(task, t, Async, s);
    case _ =>
  }

  lemma {:induction false} NoCrossingIsSafeTimes(p: Prog, n: nat, t: Tid, mode: Mode, s: Conc)
    requires !Crosses(p)
    ensures ExecTimes(p, n, t, mode, s).safe == s.safe
    decreases p, n
  {
    if n != 0 {
      NoCrossingIsSafe(p, t, mode, s);
      NoCrossingIsSafeTimes(p, n - 1, t, mode, Exec(p, t, mode, s));
    }
  }

  /** Inherited-context isolation. A thread started on a copy of other threads' context behaves, over every sequence
      of gets, sets and deletes, like a dictionary in which every Local began empty; and also through crossings, as
      long as it does not cross while it still holds foreign storage. */
  lemma {:induction false} InheritedIsolation(p: Prog, t: Tid, mode: Mode, s: Conc)
    requires WellFormed(s.ctx) && UserProg(p) && AllForeign(s.ctx, t) && Exec(p, t, mode, s).safe
    ensures Sim(Exec(p, t, mode, s), t, NoExecutor, Eval(p, t, mode, NoExecutor, Abstract(s, t)))
    ensures forall x :: x in Abstract(s, t).dict ==> !x.Attr?
  {
    VisibleIsView(s, t);
    Simulation(p, t, mode, NoExecutor, s, Abstract(s, t));
  }

  /** A thread that does not cross at all is isolated. */
  lemma {:induction false} UncrossedIsolation(p: Prog, t: Tid, mode: Mode, s: Conc)
    requires WellFormed(s.ctx) && UserProg(p) && AllForeign(s.ctx, t) && s.safe && !Crosses(p)
    ensures Sim(Exec(p, t, mode, s), t, NoExecutor, Eval(p, t, mode, NoExecutor, Abstract(s, t)))
  {
    NoCrossingIsSafe(p, t, mode, s);
    InheritedIsolation(p, t, mode, s);
  }

  // ---- exact guards ------------------------------------------------------------------

  /** An empty sync_to_async call changes nothing the caller can read if and only if the caller's
      Local storages are its own or empty; re-homing does not look at the old tag. */
  lemma {:induction false} SyncCrossingExact(s: Conc, t: Tid, w: Tid)
    requires WellFormed(s.ctx)
    ensures (forall x :: Read(Exec(SyncToAsync(Skip, Pool(w)), t, Async, s).ctx, t, x) == Read(s.ctx, t, x))
            <==> Crossable(s.ctx, t)
  {
    assert Exec(Skip, w, Sync, EnterSync(s, t, w)) == EnterSync(s, t, w);
    EmptyTrip(s.ctx, s.ctx, w, t);
    CrossableIsOwned(s.ctx, t);
  }

  /** Moving a context to thread w and back shows everything it or w's own context holds. */
  lemma EmptyTrip(ctx: Context, base: Context, w: Tid, t: Tid)
    ensures forall x :: Read(Restored(Restored(ctx, base, w), ctx, t), t, x)
                        == if VarOf(x) in ctx then Peek(ctx, x) else Peek(base, x)
  {
    forall x
      ensures Read(Restored(Restored(ctx, base, w), ctx, t), t, x)
              == if VarOf(x) in ctx then Peek(ctx, x) else Peek(base, x)
    {
      RestoredReads(ctx, base, w, x);
      RestoredReads(Restored(ctx, base, w), ctx, t, x);
    }
  }

  /** Code on thread t reads the same in both, the current executor apart. */
  ghost predicate SameReads(c1: Context, c2: Context, t: Tid) {
    forall x :: x != Attr(EXECUTORS, CURRENT) ==> Read(c1, t, x) == Read(c2, t, x)
  }

  lemma SameReadsChain(c1: Context, c2: Context, c3: Context, c4: Context, t: Tid)
    requires SameReads(c1, c2, t) && SameReads(c3, c4, t)
    ensures SameReads(c1, c4, t) <==> SameReads(c2, c3, t)
  {
    if SameReads(c1, c4, t) {
      forall x | x != Attr(EXECUTORS, CURRENT) ensures Read(c2, t, x) == Read(c3, t, x) {
        assert Read(c1, t, x) == Read(c2, t, x) && Read(c3, t, x) == Read(c4, t, x) && Read(c1, t, x) == Read(c4, t, x);
      }
    }
  }

  /** The exact guard for a call from ctx through a thread whose own context is base. */
  lemma {:induction false} TripExact(ctx: Context, base: Context, w: Tid, t: Tid)
    requires WellFormed(ctx) && WellFormed(base)
    requires VarOf(Attr(EXECUTORS, CURRENT)) in ctx && ctx[VarOf(Attr(EXECUTORS, CURRENT))].tag == t
    ensures SameReads(Restored(Restored(ctx, base, w), ctx, t), ctx, t) <==> Crossable(ctx, t) && Covered(base, ctx)
  {
    EmptyTrip(ctx, base, w, t);
    CrossableIsOwned(ctx, t);
    CoveredIsHidden(base, ctx);
    var back := Restored(Restored(ctx, base, w), ctx, t);
    if SameReads(back, ctx, t) {
      forall x ensures Read(ctx, t, x) == Peek(ctx, x) {
        if VarOf(x) in ctx && x != Attr(EXECUTORS, CURRENT) {
          assert Read(back, t, x) == Read(ctx, t, x);
        }
      }
      forall x | VarOf(x) !in ctx ensures Peek(base, x) == None {
        assert Read(back, t, x) == Read(ctx, t, x);
      }
    }
  }

  /** Setting the current executor changes no other read. */
  lemma ExecutorIsApart(ctx: Context, t: Tid, ex: Executor)
    requires WellFormed(ctx)
    ensures CurrentExecutor(WithExecutor(ctx, t, ex), t) == ex
    ensures SameReads(WithExecutor(ctx, t, ex), ctx, t)
  {
    forall x {
      WriteReads(ctx, t, Attr(EXECUTORS, CURRENT), Ref(ex), x);
    }
    WriteReads(ctx, t, Attr(EXECUTORS, CURRENT), Ref(ex), Attr(EXECUTORS, CURRENT));
  }

  /** Every Local storage but the one behind executors is the thread's own or empty. */
  ghost predicate OwnOrEmpty(ctx: Context, t: Tid) {
    forall v :: v in ctx && v != LocalVar(EXECUTORS) && ctx[v].Stored? ==> ctx[v].tag == t || Blank(v, ctx[v])
  }

  /** Both guards, before the new executor is installed and after. */
  lemma InstalledGuards(ctx: Context, t: Tid, ex: Executor, d: Dispatch, caller: Context)
    requires WellFormed(ctx) && caller == WithExecutor(ctx, t, ex)
    ensures Crossable(caller, t) <==> OwnOrEmpty(ctx, t)
    ensures Covered(TaskBase(d, caller), caller) <==> NothingOfItsOwn(d, ctx.Keys)
  {
    var e := LocalVar(EXECUTORS);
    assert caller.Keys == ctx.Keys + {e};
    assert forall v :: v in ctx && v != e ==> caller[v] == ctx[v];
    assert caller[e].tag == t;
    if d.NewLoop? && d.worker.Reused? && Covered(d.worker.base, caller) {
      forall v | v in d.worker.base ensures v in ctx || v == e || Blank(v, d.worker.base[v]) {
        assert v in caller || Blank(v, d.worker.base[v]);
      }
    }
    if Crossable(caller, t) {
      forall v | v in ctx && v != e && ctx[v].Stored? ensures ctx[v].tag == t || Blank(v, ctx[v]) {
        assert caller[v].tag == t || Blank(v, caller[v]);
      }
    }
  }

  /** The contexts of an empty async_to_sync call. */
  lemma EmptyCall(s: Conc, t: Tid, d: Dispatch, caller: Context, trip: Context)
    requires caller == CallerContext(s, t)
    requires trip == Restored(Restored(caller, TaskBase(d, caller), d.thread), caller, t)
    ensures Exec(AsyncToSync(Skip, d), t, Sync, s).ctx == WithExecutor(trip, t, CurrentExecutor(s.ctx, t))
  {
    assert Exec(Skip, d.thread, Async, EnterAsync(s, t, d)) == EnterAsync(s, t, d);
  }

  lemma TripIsWellFormed(d: Dispatch, caller: Context, t: Tid)
    requires WellFormed(caller) && (d.NewLoop? && d.worker.Reused? ==> WellFormed(d.worker.base))
    ensures WellFormed(TaskBase(d, caller))
    ensures WellFormed(Restored(Restored(caller, TaskBase(d, caller), d.thread), caller, t))
  {
    RestoredIsWellFormed(caller, TaskBase(d, caller), d.thread);
    RestoredIsWellFormed(Restored(caller, TaskBase(d, caller), d.thread), caller, t);
  }

  /** An empty async_to_sync call changes nothing the caller can read if and only if the caller's storages, that of the
      current executor apart, are its own or empty, and the thread the loop runs on has nothing of its own to show. */
  lemma {:induction false} AsyncCrossingExact(s: Conc, t: Tid, d: Dispatch)
    requires WellFormed(s.ctx) && (d.NewLoop? && d.worker.Reused? ==> WellFormed(d.worker.base))
    ensures SameReads(Exec(AsyncToSync(Skip, d), t, Sync, s).ctx, s.ctx, t)
            <==> OwnOrEmpty(s.ctx, t) && NothingOfItsOwn(d, s.ctx.Keys)
  {
    var saved, caller := CurrentExecutor(s.ctx, t), CallerContext(s, t);
    var trip := Restored(Restored(caller, TaskBase(d, caller), d.thread), caller, t);
    EmptyCall(s, t, d, caller, trip);
    CallExact(s.ctx, t, Executor(s.next, t, saved), saved, d, caller, trip, Exec(AsyncToSync(Skip, d), t, Sync, s).ctx);
  }

  lemma {:induction false} CallExact(ctx: Context, t: Tid, ex: Executor, saved: Executor, d: Dispatch, caller: Context,
      trip: Context, after: Context)
    requires WellFormed(ctx) && (d.NewLoop? && d.worker.Reused? ==> WellFormed(d.worker.base))
    requires caller == WithExecutor(ctx, t, ex) && after == WithExecutor(trip, t, saved)
    requires trip == Restored(Restored(caller, TaskBase(d, caller), d.thread), caller, t)
    ensures SameReads(after, ctx, t) <==> OwnOrEmpty(ctx, t) && NothingOfItsOwn(d, ctx.Keys)
  {
    WriteReads(ctx, t, Attr(EXECUTORS, CURRENT), Ref(ex), Attr(EXECUTORS, CURRENT));
    TripIsWellFormed(d, caller, t);
    TripExact(caller, TaskBase(d, caller), d.thread, t);
    InstalledGuards(ctx, t, ex, d, caller);
    ExecutorIsApart(ctx, t, ex);
    ExecutorIsApart(trip, t, saved);
    SameReadsChain(after, trip, caller, ctx, t);
  }

  lemma RestoredIsWellFormed(src: Context, dst: Context, t: Tid)
    requires WellFormed(src) && WellFormed(dst)
    ensures WellFormed(Restored(src, dst, t))
  {
  }

  /** A thread that crosses while holding what it inherited sees its parent's value. */
  lemma InheritedStorageLeaks()
    ensures var ctx: Context := map[LocalVar(1) := Stored(7, map["foo" := Data(8)])];
            var s := Conc(ctx, map[], 0, [], Done, true);
            && Read(ctx, 9, Attr(1, "foo")) == None
            && Read(Exec(SyncToAsync(Skip, Pool(3)), 9, Async, s).ctx, 9, Attr(1, "foo")) == Some(Data(8))
  {
  }

  /** A new loop on a worker thread that inherited another caller's context, and is then reused by a caller
      that never set the Local, hands that value to the new caller. */
  lemma ReusedWorkerLeaks()
    ensures var base: Context := map[LocalVar(1) := Stored(7, map["foo" := Data(8)])];
            var s := Conc(map[], map[], 0, [], Done, true);
            && Read(s.ctx, 9, Attr(1, "foo")) == None
            && Read(Exec(AsyncToSync(Skip, NewLoop(3, Reused(base))), 9, Sync, s).ctx, 9, Attr(1, "foo"))
               == Some(Data(8))
  {
    var base: Context := map[LocalVar(1) := Stored(7, map["foo" := Data(8)])];
    var s := Conc(map[], map[], 0, [], Done, true);
    var caller := CallerContext(s, 9);
    assert LocalVar(1) !in caller;
    var inner := EnterAsync(s, 9, NewLoop(3, Reused(base)));
    assert inner.ctx[LocalVar(1)] == base[LocalVar(1)];
    assert Exec(Skip, 3, Async, inner) == inner;
  }

  // ---- executors ---------------------------------------------------------------------

  /** AsyncToSync leaves executors.current as it found it, however the awaitable ended and
      whatever the contexts held. */
  lemma Bracketing(coro: Prog, d: Dispatch, t: Tid, s: Conc)
    requires WellFormed(s.ctx) && UserProg(AsyncToSync(coro, d))
    ensures CurrentExecutor(Exec(AsyncToSync(coro, d), t, Sync, s).ctx, t) == CurrentExecutor(s.ctx, t)
  {
    var r := Exec(coro, d.thread, Async, EnterAsync(s, t, d));
    EnterKeepsWellFormed(s, t, d, t);
    ExecKeepsCrossable(coro, d.thread, Async, EnterAsync(s, t, d));
    LeaveRestoresExecutor(r, s, t);
  }

  lemma LeaveRestoresExecutor(r: Conc, s: Conc, t: Tid)
    requires WellFormed(r.ctx) && WellFormed(s.ctx)
    ensures CurrentExecutor(LeaveAsync(r, s, t).ctx, t) == CurrentExecutor(s.ctx, t)
  {
    RestoredIsWellFormed(r.ctx, CallerContext(s, t), t);
    ExecutorIsApart(Restored(r.ctx, CallerContext(s, t), t), t, CurrentExecutor(s.ctx, t));
  }
}
