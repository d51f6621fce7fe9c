/**
 Crossing between sync and async code is invisible: whatever the nesting, the threads, the
 exceptions and the spawned tasks, code sees one dictionary and one lexical executor chain.
 */
module Transparency {
  import opened Contexts
  import opened Programs

  predicate UserLoc(x: Loc) {
    x.Attr? ==> x.local != EXECUTORS
  }

  predicate Agree(ctx: Context, t: Tid, dict: map<Loc, Val>, x: Loc) {
    Read(ctx, t, x) == Lookup(dict, x)
  }

  /** On thread t the context looks like dict, with ex as current executor. */
  ghost predicate View(ctx: Context, t: Tid, ex: Executor, dict: map<Loc, Val>) {
    && WellFormed(ctx)
    && CurrentExecutor(ctx, t) == ex
    && forall x :: UserLoc(x) ==> Agree(ctx, t, dict, x)
  }

  ghost predicate Sim(c: Conc, t: Tid, ex: Executor, a: Abst) {
    && View(c.ctx, t, ex, a.dict)
    && c.tls == a.tls && c.next == a.next && c.log == a.log && c.out == a.out
  }

  // ---- one move of a context ---------------------------------------------------------

  /** Moving a context from one thread to another keeps what it looks like. */
  lemma MoveKeepsView(src: Context, dst: Context, t: Tid, u: Tid, ex: Executor, dict: map<Loc, Val>)
    requires View(src, t, ex, dict) && Crossable(src, t)
    requires WellFormed(dst) && Covered(dst, src)
    ensures View(Restored(src, dst, u), u, ex, dict)
    ensures Crossable(Restored(src, dst, u), u)
  {
    CrossableIsOwned(src, t);
    CoveredIsHidden(dst, src);
    var moved := Restored(src, dst, u);
    forall x ensures Read(moved, u, x) == Read(src, t, x) {
      RestoredReads(src, dst, u, x);
      assert Read(src, t, x) == Peek(src, x);
    }
  }

  lemma SetExecutorView(ctx: Context, t: Tid, ex: Executor, dict: map<Loc, Val>, ex': Executor)
    requires View(ctx, t, ex, dict)
    ensures View(WithExecutor(ctx, t, ex'), t, ex', dict)
    ensures Crossable(ctx, t) ==> Crossable(WithExecutor(ctx, t, ex'), t)
  {
    forall y {
      WriteReads(ctx, t, Attr(EXECUTORS, CURRENT), Ref(ex'), y);
    }
    WriteReads(ctx, t, Attr(EXECUTORS, CURRENT), Ref(ex'), Attr(EXECUTORS, CURRENT));
  }

  lemma WriteKeepsView(ctx: Context, t: Tid, ex: Executor, dict: map<Loc, Val>, loc: Loc, val: Val)
    requires View(ctx, t, ex, dict) && UserLoc(loc)
    ensures View(Write(ctx, t, loc, val), t, ex, dict[loc := val])
  {
    forall y {
      WriteReads(ctx, t, loc, val, y);
    }
    WriteReads(ctx, t, loc, val, Attr(EXECUTORS, CURRENT));
  }

  lemma EraseKeepsView(ctx: Context, t: Tid, ex: Executor, dict: map<Loc, Val>, loc: Loc)
    requires View(ctx, t, ex, dict) && UserLoc(loc) && !loc.Whole?
    ensures View(Erase(ctx, t, loc), t, ex, dict - {loc})
  {
    forall y {
      EraseReads(ctx, t, loc, y);
    }
    EraseReads(ctx, t, loc, Attr(EXECUTORS, CURRENT));
  }

  // ---- what every run keeps ----------------------------------------------------------

  lemma LeafKeepsCrossable(p: Prog, t: Tid, mode: Mode, s: Conc)
    requires WellFormed(s.ctx) && (p.Get? || p.Set? || p.Del? || p.Raise?)
    ensures WellFormed(ExecLeaf(p, t, mode, s).ctx)
    ensures Crossable(s.ctx, t) ==> Crossable(ExecLeaf(p, t, mode, s).ctx, t)
  {
  }

  lemma SetSimulation(p: Prog, t: Tid, mode: Mode, ex: Executor, c: Conc, a: Abst, r: Conc, q: Abst)
    requires p.Set? && UserProg(p) && Sim(c, t, ex, a)
    requires r == ExecLeaf(p, t, mode, c) && q == EvalLeaf(p, t, mode, a)
    ensures Sim(r, t, ex, q)
  {
    var target := Resolve(p.x, t, mode);
    if target.InContext? {
      WriteKeepsView(c.ctx, t, ex, a.dict, target.loc, p.val(c.log));
    }
  }

  lemma DelSimulation(p: Prog, t: Tid, mode: Mode, ex: Executor, c: Conc, a: Abst, r: Conc, q: Abst)
    requires p.Del? && UserProg(p) && Sim(c, t, ex, a)
    requires r == ExecLeaf(p, t, mode, c) && q == EvalLeaf(p, t, mode, a)
    ensures Sim(r, t, ex, q)
  {
    var target := Resolve(p.x, t, mode);
    if target.InContext? {
      assert Agree(c.ctx, t, a.dict, target.loc);
      if !target.loc.Whole? {
        EraseKeepsView(c.ctx, t, ex, a.dict, target.loc);
      }
    }
  }

  lemma LeafSimulation(p: Prog, t: Tid, mode: Mode, ex: Executor, c: Conc, a: Abst, r: Conc, q: Abst)
    requires UserProg(p) && Sim(c, t, ex, a) && (p.Get? || p.Set? || p.Del? || p.Raise?)
    requires r == ExecLeaf(p, t, mode, c) && q == EvalLeaf(p, t, mode, a)
    ensures Sim(r, t, ex, q)
  {
    if p.Set? {
      SetSimulation(p, t, mode, ex, c, a, r, q);
    } else if p.Del? {
      DelSimulation(p, t, mode, ex, c, a, r, q);
    } else if p.Get? && Resolve(p.x, t, mode).InContext? {
      assert Agree(c.ctx, t, a.dict, Resolve(p.x, t, mode).loc);
    }
  }

  lemma EnterKeepsWellFormed(s: Conc, t: Tid, d: Dispatch, w: Tid)
    requires WellFormed(s.ctx) && (d.NewLoop? && d.worker.Reused? ==> WellFormed(d.worker.base))
    ensures WellFormed(CallerContext(s, t)) && WellFormed(EnterAsync(s, t, d).ctx)
    ensures WellFormed(EnterSync(s, t, w).ctx)
    ensures Crossable(s.ctx, t) ==> Crossable(CallerContext(s, t), t)
  {
  }

  lemma LeaveKeepsWellFormed(r: Conc, s: Conc, t: Tid)
    requires WellFormed(r.ctx) && WellFormed(s.ctx)
    ensures WellFormed(LeaveSync(r, s, t).ctx) && WellFormed(LeaveAsync(r, s, t).ctx)
  {
  }

  lemma LeaveKeepsCrossable(r: Conc, s: Conc, t: Tid)
    requires WellFormed(r.ctx) && WellFormed(s.ctx) && Crossable(s.ctx, t)
    ensures Crossable(LeaveAsync(r, s, t).ctx, t) && Crossable(LeaveSync(r, s, t).ctx, t)
  {
    var back := Restored(r.ctx, CallerContext(s, t), t);
    assert Crossable(CallerContext(s, t), t);
    assert Crossable(back, t);
  }

  lemma Left(r: Conc, s: Conc, t: Tid)
    requires WellFormed(r.ctx) && WellFormed(s.ctx)
    ensures WellFormed(LeaveSync(r, s, t).ctx) && WellFormed(LeaveAsync(r, s, t).ctx)
    ensures Crossable(s.ctx, t) ==> Crossable(LeaveAsync(r, s, t).ctx, t) && Crossable(LeaveSync(r, s, t).ctx, t)
  {
    LeaveKeepsWellFormed(r, s, t);
    if Crossable(s.ctx, t) {
      LeaveKeepsCrossable(r, s, t);
    }
  }

  /** A context that is safe to move stays safe to move, on whatever thread the program runs. */
  lemma {:induction false} ExecKeepsCrossable(p: Prog, t: Tid, mode: Mode, s: Conc)
    requires WellFormed(s.ctx) && UserProg(p)
    ensures WellFormed(Exec(p, t, mode, s).ctx)
    ensures Crossable(s.ctx, t) ==> Crossable(Exec(p, t, mode, s).ctx, t)
    decreases p, 0
  {
    match p
    case Skip =>
    case Seq(p1, p2) =>
      ExecKeepsCrossable(p1, t, mode, s);
      ExecKeepsCrossable(p2, t, mode, Exec(p1, t, mode, s));
    case If(cond, p1, p2) =>
      ExecKeepsCrossable(p1, t, mode, s);
      ExecKeepsCrossable(p2, t, mode, s);
    case Repeat(count, body) => ExecTimesKeepsCrossable(body, count(s.log), t, mode, s);
    case Try(body, handler) =>
      ExecKeepsCrossable(body, t, mode, s);
      var r := Exec(body, t, mode, s);
      if r.out.Raised? {
        ExecKeepsCrossable(handler, t, mode, Handling(r));
      }
    case AsyncToSync(coro, d) =>
      EnterKeepsWellFormed(s, t, d, t);
      ExecKeepsCrossable(coro, d.thread, Async, EnterAsync(s, t, d));
      Left(Exec(coro, d.thread, Async, EnterAsync(s, t, d)), s, t);
    case SyncToAsync(fn, route) =>
      var place := Place(route, CurrentExecutor(s.ctx, t), t);
      if place.Runs? {
        EnterKeepsWellFormed(s, t, MainLoop(t), place.worker);
        ExecKeepsCrossable(fn, place.worker, Sync, EnterSync(s, t, place.worker));
        Left(Exec(fn, place.worker, Sync, EnterSync(s, t, place.worker)), s, t);
      }
    case Spawn(task) =>
    case _ => LeafKeepsCrossable(p, t, mode, s);
  }

  lemma {:induction false} ExecTimesKeepsCrossable(p: Prog, n: nat, t: Tid, mode: Mode, s: Conc)
    requires WellFormed(s.ctx) && UserProg(p)
    ensures WellFormed(ExecTimes(p, n, t, mode, s).ctx)
    ensures Crossable(s.ctx, t) ==> Crossable(ExecTimes(p, n, t, mode, s).ctx, t)
    decreases p, n
  {
    if n != 0 {
      ExecKeepsCrossable(p, t, mode, s);
      ExecTimesKeepsCrossable(p, n - 1, t, mode, Exec(p, t, mode, s));
    }
  }

  // ---- the simulation ----------------------------------------------------------------

  /** Any program, started in any context whatever its tags: as long as every crossing it made
      was safe, it reads, raises, runs on the threads and ends as with one dictionary. */
  lemma {:induction false} Simulation(p: Prog, t: Tid, mode: Mode, ex: Executor, c: Conc, a: Abst)
    requires UserProg(p) && Sim(c, t, ex, a)
    ensures Exec(p, t, mode, c).safe ==> Sim(Exec(p, t, mode, c), t, ex, Eval(p, t, mode, ex, a))
    decreases p, 1
  {
    if p.AsyncToSync? || p.SyncToAsync? || p.Spawn? {
      SimulateCrossing(p, t, mode, ex, c, a);
    } else if p.Seq? || p.If? || p.Repeat? || p.Try? {
      SimulateControl(p, t, mode, ex, c, a);
    } else if !p.Skip? {
      LeafSimulation(p, t, mode, ex, c, a, Exec(p, t, mode, c), Eval(p, t, mode, ex, a));
    }
  }

  lemma {:induction false} SimulateCrossing(p: Prog, t: Tid, mode: Mode, ex: Executor, c: Conc, a: Abst)
    requires p.AsyncToSync? || p.SyncToAsync? || p.Spawn?
    requires UserProg(p) && Sim(c, t, ex, a)
    ensures Exec(p, t, mode, c).safe ==> Sim(Exec(p, t, mode, c), t, ex, Eval(p, t, mode, ex, a))
    decreases p, 0
  {
    match p
    case AsyncToSync(coro, d) => SimulateToSync(p, t, mode, ex, c, a, Exec(p, t, mode, c), Eval(p, t, mode, ex, a));
    case SyncToAsync(fn, route) => SimulateToAsync(p, t, mode, ex, c, a, Exec(p, t, mode, c), Eval(p, t, mode, ex, a));
    case Spawn(task) =>
      if mode.Async? {
        Simulation(task, t, Async, ex, c, a);
      }
  }

  lemma SameSim(r: Conc, r': Conc, t: Tid, ex: Executor, q: Abst, q': Abst)
    requires r == r' && q == q' && (r'.safe ==> Sim(r', t, ex, q'))
    ensures r.safe ==> Sim(r, t, ex, q)
  {
  }

  lemma {:induction false} SimulateToSync(p: Prog, t: Tid, mode: Mode, ex: Executor, c: Conc, a: Abst, r: Conc, q: Abst)
    requires p.AsyncToSync? && UserProg(p) && Sim(c, t, ex, a)
    requires r == Exec(p, t, mode, c) && q == Eval(p, t, mode, ex, a)
    ensures r.safe ==> Sim(r, t, ex, q)
    decreases p, 0, 0
  {
    if mode.Sync? {
      SimulateAsyncToSync(p.coro, p.dispatch, t, ex, c, a);
      SameSim(r, LeaveAsync(Exec(p.coro, p.dispatch.thread, Async, EnterAsync(c, t, p.dispatch)), c, t), t, ex,
        q, Eval(p.coro, p.dispatch.thread, Async, Executor(c.next, t, ex), a.(next := a.next + 1)));
    }
  }

  lemma {:induction false} SimulateToAsync(
    p: Prog, t: Tid, mode: Mode, ex: Executor, c: Conc, a: Abst, r: Conc, q: Abst)
    requires p.SyncToAsync? && UserProg(p) && Sim(c, t, ex, a)
    requires r == Exec(p, t, mode, c) && q == Eval(p, t, mode, ex, a)
    ensures r.safe ==> Sim(r, t, ex, q)
    decreases p, 0, 0
  {
    if mode.Async? && Place(p.route, ex, t).Runs? {
      SimulateSyncToAsync(p.fn, Place(p.route, ex, t).worker, t, ex, c, a);
    }
  }

  lemma {:induction false} SimulateControl(p: Prog, t: Tid, mode: Mode, ex: Executor, c: Conc, a: Abst)
    requires p.Seq? || p.If? || p.Repeat? || p.Try?
    requires UserProg(p) && Sim(c, t, ex, a)
    ensures Exec(p, t, mode, c).safe ==> Sim(Exec(p, t, mode, c), t, ex, Eval(p, t, mode, ex, a))
    decreases p, 0
  {
    match p
    case Seq(p1, p2) =>
      Simulation(p1, t, mode, ex, c, a);
      var r := Exec(p1, t, mode, c);
      if r.safe && r.out.Done? {
        Simulation(p2, t, mode, ex, r, Eval(p1, t, mode, ex, a));
      }
    case If(cond, p1, p2) => Simulation(if cond(c.log) then p1 else p2, t, mode, ex, c, a);
    case Repeat(count, body) => SimulationTimes(body, count(c.log), t, mode, ex, c, a);
    case Try(body, handler) =>
      Simulation(body, t, mode, ex, c, a);
      var r, q := Exec(body, t, mode, c), Eval(body, t, mode, ex, a);
      if r.safe && r.out.Raised? {
        Simulation(handler, t, mode, ex, Handling(r), q.(log := q.log + [Caught(q.out.e)], out := Done));
      }
  }

  lemma {:induction false} SimulateAsyncToSync(coro: Prog, d: Dispatch, t: Tid, ex: Executor, c: Conc, a: Abst)
    requires UserProg(coro) && (d.NewLoop? && d.worker.Reused? ==> WellFormed(d.worker.base)) && Sim(c, t, ex, a)
    ensures var r := Exec(coro, d.thread, Async, EnterAsync(c, t, d));
            r.safe ==> Sim(LeaveAsync(r, c, t), t, ex,
                           Eval(coro, d.thread, Async, Executor(c.next, t, ex), a.(next := a.next + 1)))
    decreases coro, 2
  {
    var inner, caller, entered := Executor(c.next, t, ex), CallerContext(c, t), EnterAsync(c, t, d);
    var r := Exec(coro, d.thread, Async, entered);
    if r.safe {
      SetExecutorView(c.ctx, t, ex, a.dict, inner);
      MoveKeepsView(caller, TaskBase(d, caller), t, d.thread, inner, a.dict);
      var q := Eval(coro, d.thread, Async, inner, a.(next := a.next + 1));
      Simulation(coro, d.thread, Async, inner, entered, a.(next := a.next + 1));
      ExecKeepsCrossable(coro, d.thread, Async, entered);
      MoveKeepsView(r.ctx, caller, d.thread, t, inner, q.dict);
      SetExecutorView(Restored(r.ctx, caller, t), t, inner, q.dict, ex);
    }
  }

  lemma {:induction false} SimulateSyncToAsync(fn: Prog, w: Tid, t: Tid, ex: Executor, c: Conc, a: Abst)
    requires UserProg(fn) && Sim(c, t, ex, a)
    ensures var r := Exec(fn, w, Sync, EnterSync(c, t, w));
            r.safe ==> Sim(LeaveSync(r, c, t), t, ex, Eval(fn, w, Sync, ex, a.(log := a.log + [RanOn(w)])))
    decreases fn, 2
  {
    var entered, b := EnterSync(c, t, w), a.(log := a.log + [RanOn(w)]);
    var r := Exec(fn, w, Sync, entered);
    if r.safe {
      MoveKeepsView(c.ctx, c.ctx, t, w, ex, a.dict);
      Simulation(fn, w, Sync, ex, entered, b);
      ExecKeepsCrossable(fn, w, Sync, entered);
      MoveKeepsView(r.ctx, c.ctx, w, t, ex, Eval(fn, w, Sync, ex, b).dict);
    }
  }

  lemma {:induction false} SimulationTimes(p: Prog, n: nat, t: Tid, mode: Mode, ex: Executor, c: Conc, a: Abst)
    requires UserProg(p) && Sim(c, t, ex, a)
    ensures ExecTimes(p, n, t, mode, c).safe
            ==> Sim(ExecTimes(p, n, t, mode, c), t, ex, EvalTimes(p, n, t, mode, ex, a))
    decreases p, n + 2
  {
    if n != 0 {
      Simulation(p, t, mode, ex, c, a);
      var r := Exec(p, t, mode, c);
      if r.safe && r.out.Done? {
        SimulationTimes(p, n - 1, t, mode, ex, r, Eval(p, t, mode, ex, a));
      }
    }
  }
}
