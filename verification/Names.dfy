/**
 What user code can count on for the names it uses: no two names share a place, what is set is what is got, and a task
 that is spawned works on a copy. And what a crossing means for the code that crosses: it is a call.
 */
module Names {
  import opened Contexts
  import opened Programs

  /** Two names share a place if and only if they are the same name; and a thread-critical one has a place of its own on
      each thread, in sync code and in async code. */
  lemma {:induction false} NamesAreApart(x: Name, t: Tid, mode: Mode, y: Name, u: Tid, n: Mode)
    ensures Resolve(x, t, mode) == Resolve(y, u, n) <==> x == y && (x.Critical? ==> t == u && mode == n)
  {
    match x
    case Var(_, _) =>
    case Bare(_) =>
    case Critical(l, k) =>
      match mode {
        case Sync => assert Resolve(x, t, mode) == InThread(Slot(l, t, k));
        case Async => assert Resolve(x, t, mode) == InContext(CritAttr(l, t, k));
      }
  }

  /** What a get of x reports on thread t. */
  ghost function Found(s: Conc, t: Tid, mode: Mode, x: Name): (v: Option<Val>)
    ensures Exec(Get(x), t, mode, s)
            == s.(log := s.log + [Saw(t, x, v)], out := if v.None? then Raised(Missing) else s.out)
  {
    var log := Exec(Get(x), t, mode, s).log;
    log[|log| - 1].v
  }

  /** What code on thread u finds at y once code on thread t has put v at x, or nothing, where it found was before.
      A Local's attributes go together: they are the writing thread's, and hidden from any other. */
  function Afterwards(x: Name, t: Tid, mode: Mode, v: Option<Val>, y: Name, u: Tid, n: Mode, was: Option<Val>)
    : Option<Val>
  {
    if x.Critical? then if y == x && u == t && n == mode then v else was
    else if x.Var? && y.Var? && y.local == x.local && u != t then None
    else if y == x then v
    else was
  }

  /** A set is got: by its own thread under that name, with every other name as it was; and by every other thread and in
      the other mode as far as the name is theirs. It does not raise. */
  lemma {:induction false} SetIsFound(x: Name, f: Log -> Val, t: Tid, mode: Mode, s: Conc, y: Name, u: Tid, n: Mode)
    requires WellFormed(s.ctx)
    ensures
      var r := Exec(Set(x, f), t, mode, s);
      && r.out == s.out && r.log == s.log + [Wrote(t, x, f(s.log))] && r.next == s.next
      && Found(r, u, n, y) == Afterwards(x, t, mode, Some(f(s.log)), y, u, n, Found(s, u, n, y))
  {
    var r := Exec(Set(x, f), t, mode, s);
    FoundThere(s, u, n, y);
    FoundThere(r, u, n, y);
    if Resolve(x, t, mode).InContext? && Resolve(y, u, n).InContext? {
      WrittenElsewhere(s.ctx, t, Resolve(x, t, mode).loc, f(s.log), u, Resolve(y, u, n).loc);
    }
  }

  /** Deletion raises exactly if there is nothing to delete, and then changes nothing; a context variable cannot be
      deleted. If it does not raise, the name is gone and every other is as it was. */
  lemma {:induction false} DeletedIsGone(x: Name, t: Tid, mode: Mode, s: Conc, y: Name, u: Tid, n: Mode)
    requires WellFormed(s.ctx)
    ensures
      var r := Exec(Del(x), t, mode, s);
      if x.Bare? || Found(s, t, mode, x).None? then r == s.(out := Raised(Missing))
      else
        && r.out == s.out && r.log == s.log && r.next == s.next
        && Found(r, u, n, y) == Afterwards(x, t, mode, None, y, u, n, Found(s, u, n, y))
  {
    var r := Exec(Del(x), t, mode, s);
    FoundThere(s, t, mode, x);
    FoundThere(s, u, n, y);
    FoundThere(r, u, n, y);
    if Resolve(x, t, mode).InContext? && Resolve(y, u, n).InContext? && !x.Bare? {
      ErasedElsewhere(s.ctx, t, Resolve(x, t, mode).loc, u, Resolve(y, u, n).loc);
    }
  }

  lemma FoundThere(s: Conc, t: Tid, mode: Mode, x: Name)
    ensures Found(s, t, mode, x) ==
      match Resolve(x, t, mode)
      case InContext(loc) => Read(s.ctx, t, loc)
      case InThread(slot) => Lookup(s.tls, slot)
  {
    var v := match Resolve(x, t, mode)
      case InContext(loc) => Read(s.ctx, t, loc)
      case InThread(slot) => Lookup(s.tls, slot);
    assert Exec(Get(x), t, mode, s).log == s.log + [Saw(t, x, v)];
  }

  /** What a write on thread t does to the reads of thread u. */
  lemma WrittenElsewhere(ctx: Context, t: Tid, x: Loc, val: Val, u: Tid, y: Loc)
    requires WellFormed(ctx)
    ensures Read(Write(ctx, t, x, val), u, y) ==
      if x.Attr? && y.Attr? && x.local == y.local && u != t then None
      else if y == x then Some(val) else Read(ctx, u, y)
  {
    if u == t || !x.Attr? {
      WriteReads(ctx, t, x, val, y);
    }
    if VarOf(x) == VarOf(y) && !x.Whole? {
      assert y != x ==> y.key != x.key;
    }
  }

  lemma ErasedElsewhere(ctx: Context, t: Tid, x: Loc, u: Tid, y: Loc)
    requires WellFormed(ctx) && !x.Whole?
    ensures Read(Erase(ctx, t, x), u, y) ==
      if x.Attr? && y.Attr? && x.local == y.local && u != t then None
      else if y == x then None else Read(ctx, u, y)
  {
    if u == t || !x.Attr? {
      EraseReads(ctx, t, x, y);
    }
    if VarOf(x) == VarOf(y) {
      assert y != x ==> y.key != x.key;
    }
  }

  // ---- spawned tasks -------------------------------------------------------------------

  /** Whatever a spawned task does, its parent finds every name as it was, thread-critical ones included; the task began
      with what its parent found; and an exception in it is not the parent's. */
  lemma {:induction false} SpawnedWorksOnACopy(task: Prog, t: Tid, s: Conc, y: Name)
    ensures
      var r := Exec(Spawn(task), t, Async, s);
      && Found(r, t, Async, y) == Found(s, t, Async, y) && r.ctx == s.ctx && r.out.Done?
      && r.log == Exec(task, t, Async, s).log + [Ended(Exec(task, t, Async, s).out)]
      && Exec(Spawn(Get(y)), t, Async, s).log[|s.log|] == Saw(t, y, Found(s, t, Async, y))
  {
    FoundThere(s, t, Async, y);
    FoundThere(Exec(Spawn(task), t, Async, s), t, Async, y);
    assert Resolve(y, t, Async).InContext?;
  }

  // ---- a crossing is a call --------------------------------------------------------------

  /** async_to_sync refuses to run in a thread with a running loop, and sync_to_async and a task need one; they then do
      nothing at all. */
  lemma WrongMode(p: Prog, d: Dispatch, route: Route, t: Tid, s: Conc)
    ensures Exec(AsyncToSync(p, d), t, Async, s) == s.(out := Raised(LoopRunning))
    ensures Exec(SyncToAsync(p, route), t, Sync, s) == s.(out := Raised(NoLoop))
    ensures Exec(Spawn(p), t, Sync, s) == s.(out := Raised(NoLoop))
  {
  }

  /** From sync code to async code and back: the function runs on the thread it was called on, in the dictionary it
      was called with, returns or raises what it returns or raises there, and has a new executor of that thread around
      it. */
  lemma {:induction false} ThereAndBack(fn: Prog, d: Dispatch, quit: set<nat>, fallback: Option<Tid>, t: Tid,
      ex: Executor, a: Abst)
    requires d.thread != t && a.next !in quit
    ensures Eval(AsyncToSync(SyncToAsync(fn, Sensitive(quit, fallback)), d), t, Sync, ex, a)
            == Eval(fn, t, Sync, Executor(a.next, t, ex), a.(next := a.next + 1, log := a.log + [RanOn(t)]))
  {
    assert FirstUnbroken(Executor(a.next, t, ex), quit) == Executor(a.next, t, ex);
  }

  /** If that executor has quit by then, the function runs on the thread of the nearest one outside it that has not,
      or on none if all have. */
  lemma {:induction false} ThereAndFurther(fn: Prog, d: Dispatch, quit: set<nat>, fallback: Option<Tid>, t: Tid,
      ex: Executor, a: Abst)
    requires d.thread != t && a.next in quit
    ensures
      var r := FirstUnbroken(ex, quit);
      Eval(AsyncToSync(SyncToAsync(fn, Sensitive(quit, fallback)), d), t, Sync, ex, a)
      == if r == NoExecutor then a.(next := a.next + 1, out := Raised(AllQuit))
         else
           Eval(fn, r.thread, Sync, Executor(a.next, t, ex),
                a.(next := a.next + 1, log := a.log + [RanOn(r.thread)]))
  {
  }

  /** From async code to sync code and back to the same loop: the coroutine runs as if it had been awaited, but for the
      executor of the worker thread around it. */
  lemma {:induction false} BackOnTheLoop(coro: Prog, w: Tid, t: Tid, ex: Executor, a: Abst)
    ensures Eval(SyncToAsync(AsyncToSync(coro, MainLoop(t)), Pool(w)), t, Async, ex, a)
            == Eval(coro, t, Async, Executor(a.next, w, ex), a.(next := a.next + 1, log := a.log + [RanOn(w)]))
  {
  }
}
