/**
 Thread-critical Locals. Their per-thread context variables are carried through other threads by
 _restore_context like any other variable, and still nothing written on one thread is read on another.
 */
module ThreadCritical {
  import opened Contexts
  import opened Programs
  import opened Transparency

  // ---- confinement -------------------------------------------------------------------

  /** Every thread-critical value held for a thread was written on that thread. */
  ghost predicate ContextConfined(ctx: Context, log: Log) {
    forall v, k :: v in ctx && v.CritVar? && k in Attrs(ctx[v])
      ==> Wrote(v.thread, Critical(v.owner, k), Attrs(ctx[v])[k]) in log
  }

  ghost predicate StorageConfined(tls: map<Slot, Val>, log: Log) {
    forall slot :: slot in tls ==> Wrote(slot.thread, Critical(slot.local, slot.key), tls[slot]) in log
  }

  /** Every thread-critical read that found a value is preceded by a write of it on the same thread. */
  ghost predicate Justified(log: Log) {
    forall i :: 0 <= i < |log| && log[i].Saw? && log[i].x.Critical? && log[i].v.Some?
      ==> Wrote(log[i].thread, log[i].x, log[i].v.value) in log[..i]
  }

  ghost predicate Confined(s: Conc) {
    ContextConfined(s.ctx, s.log) && StorageConfined(s.tls, s.log) && Justified(s.log)
  }

  lemma LongerLog(ctx: Context, tls: map<Slot, Val>, log: Log, longer: Log)
    requires log <= longer
    ensures ContextConfined(ctx, log) ==> ContextConfined(ctx, longer)
    ensures StorageConfined(tls, log) ==> StorageConfined(tls, longer)
  {
    assert forall o :: o in log ==> o in longer;
  }

  lemma LongerJustified(log: Log, o: Obs)
    requires Justified(log)
    requires o.Saw? && o.x.Critical? && o.v.Some? ==> Wrote(o.thread, o.x, o.v.value) in log
    ensures Justified(log + [o])
  {
    var longer := log + [o];
    forall i | 0 <= i < |longer| && longer[i].Saw? && longer[i].x.Critical? && longer[i].v.Some?
      ensures Wrote(longer[i].thread, longer[i].x, longer[i].v.value) in longer[..i]
    {
      assert longer[..i] == if i < |log| then log[..i] else log;
    }
  }

  lemma MoveConfined(src: Context, dst: Context, t: Tid, log: Log)
    requires ContextConfined(src, log) && ContextConfined(dst, log)
    ensures ContextConfined(Restored(src, dst, t), log)
    ensures forall ex :: ContextConfined(WithExecutor(src, t, ex), log)
  {
  }

  lemma LeafConfined(p: Prog, t: Tid, mode: Mode, s: Conc)
    requires (p.Get? || p.Set? || p.Del? || p.Raise?) && Confined(s)
    ensures Confined(ExecLeaf(p, t, mode, s))
  {
    if p.Set? {
      SetConfined(p.x, p.val(s.log), t, mode, s);
    } else if p.Get? {
      var r := ExecLeaf(p, t, mode, s);
      LongerLog(s.ctx, s.tls, s.log, r.log);
      LongerJustified(s.log, r.log[|s.log|]);
    }
  }

  lemma SetConfined(x: Name, val: Val, t: Tid, mode: Mode, s: Conc)
    requires Confined(s)
    ensures Confined(ExecLeaf(Set(x, _ => val), t, mode, s))
  {
    var o := Wrote(t, x, val);
    var log := s.log + [o];
    LongerLog(s.ctx, s.tls, s.log, log);
    LongerJustified(s.log, o);
    assert o in log;
    match Resolve(x, t, mode) {
      case InContext(loc) => assert ContextConfined(Write(s.ctx, t, loc, val), log);
      case InThread(slot) => assert StorageConfined(s.tls[slot := val], log);
    }
  }

  /** Every context that a reused worker thread has of its own holds only values that were written, each on its own
      thread, before. */
  ghost predicate Bases(p: Prog, log: Log) {
    match p
    case Seq(p1, p2) => Bases(p1, log) && Bases(p2, log)
    case If(_, p1, p2) => Bases(p1, log) && Bases(p2, log)
    case Repeat(_, body) => Bases(body, log)
    case Try(body, handler) => Bases(body, log) && Bases(handler, log)
    case AsyncToSync(coro, d) =>
      Bases(coro, log) && (d.NewLoop? && d.worker.Reused? ==> ContextConfined(d.worker.base, log))
    case SyncToAsync(fn, _) => Bases(fn, log)
    case Spawn(task) => Bases(task, log)
    case _ => true
  }

  lemma {:induction false} LongerBases(p: Prog, log: Log, longer: Log)
    requires log <= longer && Bases(p, log)
    ensures Bases(p, longer)
  {
    match p
    case Seq(p1, p2) =>
      LongerBases(p1, log, longer);
      LongerBases(p2, log, longer);
    case If(_, p1, p2) =>
      LongerBases(p1, log, longer);
      LongerBases(p2, log, longer);
    case Repeat(_, body) => LongerBases(body, log, longer);
    case Try(body, handler) =>
      LongerBases(body, log, longer);
      LongerBases(handler, log, longer);
    case AsyncToSync(coro, d) =>
      LongerBases(coro, log, longer);
      if d.NewLoop? && d.worker.Reused? {
        LongerLog(d.worker.base, map[], log, longer);
      }
    case SyncToAsync(fn, _) => LongerBases(fn, log, longer);
    case Spawn(task) => LongerBases(task, log, longer);
    case _ =>
  }

  /** Confinement over all runs: whatever crossings carry a thread-critical Local's variables through
      other threads, a read of it on thread t only ever finds a value written on thread t. */
  lemma {:induction false} Confinement(p: Prog, t: Tid, mode: Mode, s: Conc)
    requires Bases(p, s.log) && Confined(s)
    ensures Confined(Exec(p, t, mode, s))
    decreases p, 0
  {
    match p
    case Skip =>
    case Seq(p1, p2) =>
      Confinement(p1, t, mode, s);
      LongerBases(p2, s.log, Exec(p1, t, mode, s).log);
      Confinement(p2, t, mode, Exec(p1, t, mode, s));
    case If(cond, p1, p2) => Confinement(if cond(s.log) then p1 else p2, t, mode, s);
    case Repeat(count, body) => ConfinementTimes(body, count(s.log), t, mode, s);
    case Try(body, handler) =>
      Confinement(body, t, mode, s);
      var r := Exec(body, t, mode, s);
      if r.out.Raised? {
        LongerLog(r.ctx, r.tls, r.log, Handling(r).log);
        LongerJustified(r.log, Caught(r.out.e));
        LongerBases(handler, s.log, Handling(r).log);
        Confinement(handler, t, mode, Handling(r));
      }
    case AsyncToSync(coro, d) =>
      if mode.Sync? {
        var caller := CallerContext(s, t);
        MoveConfined(s.ctx, s.ctx, t, s.log);
        MoveConfined(caller, TaskBase(d, caller), d.thread, s.log);
        Confinement(coro, d.thread, Async, EnterAsync(s, t, d));
        var r := Exec(coro, d.thread, Async, EnterAsync(s, t, d));
        LongerLog(caller, s.tls, s.log, r.log);
        MoveConfined(r.ctx, caller, t, r.log);
        MoveConfined(Restored(r.ctx, caller, t), caller, t, r.log);
      }
    case SyncToAsync(fn, route) =>
      var place := Place(route, CurrentExecutor(s.ctx, t), t);
      if mode.Async? && place.Runs? {
        var entered := EnterSync(s, t, place.worker);
        LongerLog(s.ctx, s.tls, s.log, entered.log);
        LongerJustified(s.log, RanOn(place.worker));
        MoveConfined(s.ctx, s.ctx, place.worker, entered.log);
        LongerBases(fn, s.log, entered.log);
        Confinement(fn, place.worker, Sync, entered);
        var r := Exec(fn, place.worker, Sync, entered);
        LongerLog(s.ctx, s.tls, s.log, r.log);
        MoveConfined(r.ctx, s.ctx, t, r.log);
      }
    case Spawn(task) =>
      if mode.Async? {
        Confinement(task, t, Async, s);
        var r := Exec(task, t, Async, s);
        LongerJustified(r.log, Ended(r.out));
        LongerLog(s.ctx, r.tls, r.log, r.log + [Ended(r.out)]);
        LongerLog(s.ctx, r.tls, s.log, r.log);
      }
    case _ => LeafConfined(p, t, mode, s);
  }

  lemma {:induction false} ConfinementTimes(p: Prog, n: nat, t: Tid, mode: Mode, s: Conc)
    requires Bases(p, s.log) && Confined(s)
    ensures Confined(ExecTimes(p, n, t, mode, s))
    decreases p, n
  {
    if n != 0 {
      Confinement(p, t, mode, s);
      LongerBases(p, s.log, Exec(p, t, mode, s).log);
      ConfinementTimes(p, n - 1, t, mode, Exec(p, t, mode, s));
    }
  }

  // ---- survival ----------------------------------------------------------------------

  /** No async code of p on thread l, spawned tasks apart, sets or deletes the thread-critical name; here says whether p
      itself is async code on thread l. */
  predicate Quiet(p: Prog, here: bool, l: Tid, x: Name) {
    match p
    case Set(y, _) => here ==> y != x
    case Del(y) => here ==> y != x
    case Seq(p1, p2) => Quiet(p1, here, l, x) && Quiet(p2, here, l, x)
    case If(_, p1, p2) => Quiet(p1, here, l, x) && Quiet(p2, here, l, x)
    case Repeat(_, body) => Quiet(body, here, l, x)
    case Try(body, handler) => Quiet(body, here, l, x) && Quiet(handler, here, l, x)
    case AsyncToSync(coro, d) => Quiet(coro, d.thread == l, l, x)
    case SyncToAsync(fn, _) => Quiet(fn, false, l, x)
    case _ => true
  }

  /** No reused worker thread has a context of its own that sets v. */
  predicate Unset(p: Prog, v: CVar) {
    match p
    case Seq(p1, p2) => Unset(p1, v) && Unset(p2, v)
    case If(_, p1, p2) => Unset(p1, v) && Unset(p2, v)
    case Repeat(_, body) => Unset(body, v)
    case Try(body, handler) => Unset(body, v) && Unset(handler, v)
    case AsyncToSync(coro, d) => Unset(coro, v) && (d.NewLoop? && d.worker.Reused? ==> v !in d.worker.base)
    case SyncToAsync(fn, _) => Unset(fn, v)
    case Spawn(task) => Unset(task, v)
    case _ => true
  }

  /** The variable is set, so that nothing can show through, or no worker has anything to show. */
  ghost predicate Covers(ctx: Context, p: Prog, v: CVar) {
    v in ctx || Unset(p, v)
  }

  lemma EnterSame(s: Conc, t: Tid, d: Dispatch, w: Tid, x: Loc)
    requires WellFormed(s.ctx) && x.CritAttr? && (d.NewLoop? && d.worker.Reused? ==> WellFormed(d.worker.base))
    requires VarOf(x) in s.ctx || (d.NewLoop? && d.worker.Reused? ==> VarOf(x) !in d.worker.base)
    ensures Peek(EnterAsync(s, t, d).ctx, x) == Peek(s.ctx, x) && Peek(EnterSync(s, t, w).ctx, x) == Peek(s.ctx, x)
  {
  }

  lemma LeaveSame(r: Conc, s: Conc, t: Tid, x: Loc)
    requires WellFormed(r.ctx) && WellFormed(s.ctx) && s.ctx.Keys <= r.ctx.Keys
    requires x.CritAttr? && Peek(r.ctx, x) == Peek(s.ctx, x)
    ensures Peek(LeaveAsync(r, s, t).ctx, x) == Peek(s.ctx, x) && Peek(LeaveSync(r, s, t).ctx, x) == Peek(s.ctx, x)
  {
  }

  /** Other code writes other variables, or other keys of the same dictionary. */
  lemma LeafSame(p: Prog, t: Tid, mode: Mode, s: Conc, l: Tid, local: nat, k: Key)
    requires WellFormed(s.ctx) && (p.Get? || p.Set? || p.Del? || p.Raise?)
    requires Quiet(p, mode.Async? && t == l, l, Critical(local, k))
    ensures var r := ExecLeaf(p, t, mode, s);
            WellFormed(r.ctx) && Peek(r.ctx, CritAttr(local, l, k)) == Peek(s.ctx, CritAttr(local, l, k))
  {
  }

  /** What async code on thread l keeps at a thread-critical name is the same after any run that is quiet about it. */
  lemma {:induction false} Untouched(p: Prog, t: Tid, mode: Mode, s: Conc, l: Tid, local: nat, k: Key)
    requires WellFormed(s.ctx) && UserProg(p) && Quiet(p, mode.Async? && t == l, l, Critical(local, k))
    requires Covers(s.ctx, p, CritVar(local, l))
    ensures Peek(Exec(p, t, mode, s).ctx, CritAttr(local, l, k)) == Peek(s.ctx, CritAttr(local, l, k))
    decreases p, 0
  {
    match p
    case Seq(p1, p2) =>
      Untouched(p1, t, mode, s, l, local, k);
      ExecKeepsCrossable(p1, t, mode, s);
      if Exec(p1, t, mode, s).out.Done? {
        Untouched(p2, t, mode, Exec(p1, t, mode, s), l, local, k);
      }
    case If(cond, p1, p2) => Untouched(if cond(s.log) then p1 else p2, t, mode, s, l, local, k);
    case Repeat(count, body) => UntouchedTimes(body, count(s.log), t, mode, s, l, local, k);
    case Try(body, handler) =>
      Untouched(body, t, mode, s, l, local, k);
      ExecKeepsCrossable(body, t, mode, s);
      if Exec(body, t, mode, s).out.Raised? {
        Untouched(handler, t, mode, Handling(Exec(body, t, mode, s)), l, local, k);
      }
    case AsyncToSync(coro, d) =>
      if mode.Sync? {
        UntouchedByAsync(coro, d, t, s, l, local, k);
      }
    case SyncToAsync(fn, route) =>
      var place := Place(route, CurrentExecutor(s.ctx, t), t);
      if mode.Async? && place.Runs? {
        UntouchedBySync(fn, place.worker, t, s, l, local, k);
      }
    case Spawn(_) =>
    case Skip =>
    case _ => LeafSame(p, t, mode, s, l, local, k);
  }

  lemma {:induction false} UntouchedByAsync(coro: Prog, d: Dispatch, t: Tid, s: Conc, l: Tid, local: nat, k: Key)
    requires WellFormed(s.ctx) && UserProg(AsyncToSync(coro, d)) && Quiet(coro, d.thread == l, l, Critical(local, k))
    requires Covers(s.ctx, AsyncToSync(coro, d), CritVar(local, l))
    ensures var x := CritAttr(local, l, k);
            Peek(LeaveAsync(Exec(coro, d.thread, Async, EnterAsync(s, t, d)), s, t).ctx, x) == Peek(s.ctx, x)
    decreases coro, 1
  {
    var x, entered := CritAttr(local, l, k), EnterAsync(s, t, d);
    EnterKeepsWellFormed(s, t, d, t);
    EnterSame(s, t, d, t, x);
    Untouched(coro, d.thread, Async, entered, l, local, k);
    ExecKeepsCrossable(coro, d.thread, Async, entered);
    LeaveSame(Exec(coro, d.thread, Async, entered), s, t, x);
  }

  lemma {:induction false} UntouchedBySync(fn: Prog, w: Tid, t: Tid, s: Conc, l: Tid, local: nat, k: Key)
    requires WellFormed(s.ctx) && UserProg(fn) && Quiet(fn, false, l, Critical(local, k))
    requires Covers(s.ctx, fn, CritVar(local, l))
    ensures var x := CritAttr(local, l, k);
            Peek(LeaveSync(Exec(fn, w, Sync, EnterSync(s, t, w)), s, t).ctx, x) == Peek(s.ctx, x)
    decreases fn, 1
  {
    var x, entered := CritAttr(local, l, k), EnterSync(s, t, w);
    EnterKeepsWellFormed(s, t, MainLoop(t), w);
    EnterSame(s, t, MainLoop(t), w, x);
    Untouched(fn, w, Sync, entered, l, local, k);
    ExecKeepsCrossable(fn, w, Sync, entered);
    LeaveSame(Exec(fn, w, Sync, entered), s, t, x);
  }

  lemma {:induction false} UntouchedTimes(p: Prog, n: nat, t: Tid, mode: Mode, s: Conc, l: Tid, local: nat, k: Key)
    requires WellFormed(s.ctx) && UserProg(p) && Quiet(p, mode.Async? && t == l, l, Critical(local, k))
    requires Covers(s.ctx, p, CritVar(local, l))
    ensures Peek(ExecTimes(p, n, t, mode, s).ctx, CritAttr(local, l, k)) == Peek(s.ctx, CritAttr(local, l, k))
    decreases p, n
  {
    if n != 0 {
      Untouched(p, t, mode, s, l, local, k);
      ExecKeepsCrossable(p, t, mode, s);
      if Exec(p, t, mode, s).out.Done? {
        UntouchedTimes(p, n - 1, t, mode, Exec(p, t, mode, s), l, local, k);
      }
    }
  }

  /** What async code on thread t finds at a thread-critical name is unchanged by any sync_to_async round trip, also
      one that comes back to run async code on thread t, as long as none of that code sets or deletes the name. */
  lemma {:induction false} AsyncValueSurvives(fn: Prog, route: Route, t: Tid, s: Conc, local: nat, k: Key)
    requires WellFormed(s.ctx) && UserProg(fn) && Quiet(fn, false, t, Critical(local, k))
    requires Covers(s.ctx, fn, CritVar(local, t))
    ensures Read(Exec(SyncToAsync(fn, route), t, Async, s).ctx, t, CritAttr(local, t, k))
            == Read(s.ctx, t, CritAttr(local, t, k))
  {
    var place := Place(route, CurrentExecutor(s.ctx, t), t);
    if place.Runs? {
      UntouchedBySync(fn, place.worker, t, s, t, local, k);
    }
  }
}
