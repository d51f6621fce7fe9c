/**
 Context variables as values: what a context holds for each variable, what user code on a
 given thread can see of it, and what asgiref.local and _restore_context do to it.

 A Local that is not thread-critical is one context variable whose value is a pair of a
 thread identifier and a dictionary. A thread-critical Local has one context variable per
 thread that runs an event loop. Every other context variable is plain.
 */
module Contexts {

  datatype Option<+T> = None | Some(value: T)

  type Tid = nat
  type Key = string

  /** A CurrentThreadExecutor as far as a reference to it goes: its identity, the thread
      that built it, and the executor that was current when it was built. */
  datatype Executor = NoExecutor | Executor(id: nat, thread: Tid, outer: Executor)

  datatype Val = Data(n: int) | Namespace(attrs: map<Key, Val>) | Ref(executor: Executor)

  datatype CVar = LocalVar(local: nat) | CritVar(owner: nat, thread: Tid) | PlainVar(name: nat)

  datatype CVal = Stored(tag: Tid, data: map<Key, Val>) | Plain(v: Val)

  type Context = map<CVar, CVal>

  /** The Local behind AsyncToSync.executors, and the one attribute it is used with. */
  const EXECUTORS: nat := 0
  const CURRENT: Key := "current"

  /** A place a program can look: an attribute of a Local, an attribute of a thread-critical
      Local as seen by async code on one thread, or a whole context variable. */
  datatype Loc = Attr(local: nat, key: Key) | CritAttr(owner: nat, thread: Tid, key: Key) | Whole(name: nat)

  function VarOf(x: Loc): CVar {
    match x
    case Attr(l, _) => LocalVar(l)
    case CritAttr(l, t, _) => CritVar(l, t)
    case Whole(n) => PlainVar(n)
  }

  function Lookup<K, V>(m: map<K, V>, k: K): Option<V> {
    if k in m then Some(m[k]) else None
  }

  /** The dictionary a variable's value holds for attribute access. */
  function Attrs(v: CVal): map<Key, Val> {
    match v
    case Stored(_, data) => data
    case Plain(Namespace(attrs)) => attrs
    case Plain(_) => map[]
  }

  /** What is stored at x whatever thread it is tagged with. */
  function Peek(ctx: Context, x: Loc): Option<Val> {
    if VarOf(x) !in ctx then None
    else
      var v := ctx[VarOf(x)];
      match x
      case Attr(_, k) => if v.Stored? then Lookup(v.data, k) else None
      case CritAttr(_, _, k) => if v.Plain? then Lookup(Attrs(v), k) else None
      case Whole(_) => if v.Plain? then Some(v.v) else None
  }

  /** What code running on thread t reads at x: a Local ignores storage tagged with another thread. */
  function Read(ctx: Context, t: Tid, x: Loc): Option<Val> {
    if x.Attr? && VarOf(x) in ctx && ctx[VarOf(x)].Stored? && ctx[VarOf(x)].tag != t
    then None
    else Peek(ctx, x)
  }

  /** The dictionary a write on thread t starts from: a copy of its own, or a new one. */
  function OwnData(ctx: Context, t: Tid, v: CVar): map<Key, Val> {
    if v in ctx && (ctx[v].Stored? ==> ctx[v].tag == t) then Attrs(ctx[v]) else map[]
  }

  function Retagged(v: CVar, t: Tid, data: map<Key, Val>): CVal {
    if v.LocalVar? then Stored(t, data) else Plain(Namespace(data))
  }

  function Write(ctx: Context, t: Tid, x: Loc, val: Val): Context {
    if x.Whole? then ctx[PlainVar(x.name) := Plain(val)]
    else ctx[VarOf(x) := Retagged(VarOf(x), t, OwnData(ctx, t, VarOf(x))[x.key := val])]
  }

  /** Deletion stores a smaller dictionary; the variable itself stays set. */
  function Erase(ctx: Context, t: Tid, x: Loc): Context
    requires !x.Whole?
  {
    ctx[VarOf(x) := Retagged(VarOf(x), t, OwnData(ctx, t, VarOf(x)) - {x.key})]
  }

  /** _rehome: a Local's storage becomes the same dictionary owned by thread t. */
  function Rehomed(v: CVar, val: CVal, t: Tid): CVal {
    if v.LocalVar? && val.Stored? then val.(tag := t) else val
  }

  /** _restore_context run on thread t: every variable of src is set in dst, re-homed. */
  function Restored(src: Context, dst: Context, t: Tid): Context {
    dst + map v | v in src :: Rehomed(v, src[v], t)
  }

  /** A context's variables hold the kind of value their variable is for. */
  predicate WellFormed(ctx: Context) {
    forall v :: v in ctx ==> KindOf(v, ctx[v])
  }

  predicate KindOf(v: CVar, val: CVal) {
    match v
    case LocalVar(_) => val.Stored?
    case CritVar(_, _) => val.Plain? && val.v.Namespace?
    case PlainVar(_) => val.Plain?
  }

  /** Nothing is readable behind this variable, on any thread. */
  predicate Blank(v: CVar, val: CVal) {
    !v.PlainVar? && Attrs(val) == map[]
  }

  /** Every Local storage in the context is tagged with t or empty: the guard under which
      moving the context to another thread is invisible. */
  ghost predicate Crossable(ctx: Context, t: Tid) {
    forall v :: v in ctx && ctx[v].Stored? ==> ctx[v].tag == t || Blank(v, ctx[v])
  }

  /** Whatever base holds is also set by ctx, so restoring ctx over base hides it. */
  ghost predicate Covered(base: Context, ctx: Context) {
    forall v :: v in base ==> v in ctx || Blank(v, base[v])
  }

  // ---- the accessors behave like one dictionary ------------------------------------

  lemma WriteReads(ctx: Context, t: Tid, x: Loc, val: Val, y: Loc)
    requires WellFormed(ctx)
    ensures WellFormed(Write(ctx, t, x, val))
    ensures Read(Write(ctx, t, x, val), t, y) == if y == x then Some(val) else Read(ctx, t, y)
  {
    if VarOf(x) == VarOf(y) && !x.Whole? {
      assert y != x ==> y.key != x.key;
    }
  }

  lemma EraseReads(ctx: Context, t: Tid, x: Loc, y: Loc)
    requires WellFormed(ctx) && !x.Whole?
    ensures WellFormed(Erase(ctx, t, x))
    ensures Read(Erase(ctx, t, x), t, y) == if y == x then None else Read(ctx, t, y)
  {
    if VarOf(x) == VarOf(y) {
      assert y != x ==> y.key != x.key;
    }
  }

  /** After a restore, a variable of src reads as it does in src on the thread that owns it,
      and any other variable reads as before. */
  lemma RestoredReads(src: Context, dst: Context, t: Tid, x: Loc)
    ensures Peek(Restored(src, dst, t), x) == if VarOf(x) in src then Peek(src, x) else Peek(dst, x)
    ensures Read(Restored(src, dst, t), t, x) == if VarOf(x) in src then Peek(src, x) else Read(dst, t, x)
  {
  }

  /** Crossable says exactly that every tag can be ignored. */
  lemma {:induction false} CrossableIsOwned(ctx: Context, t: Tid)
    requires WellFormed(ctx)
    ensures Crossable(ctx, t) <==> forall x :: Read(ctx, t, x) == Peek(ctx, x)
  {
    if Crossable(ctx, t) {
      forall x ensures Read(ctx, t, x) == Peek(ctx, x) {
        if x.Attr? && VarOf(x) in ctx && ctx[VarOf(x)].tag != t {
          assert Blank(VarOf(x), ctx[VarOf(x)]);
        }
      }
    } else {
      var v :| v in ctx && ctx[v].Stored? && ctx[v].tag != t && !Blank(v, ctx[v]);
      var k :| k in ctx[v].data;
      assert Read(ctx, t, Attr(v.local, k)) != Peek(ctx, Attr(v.local, k));
    }
  }

  /** Covered says exactly that nothing of base shows through a restore of ctx. */
  lemma {:induction false} CoveredIsHidden(base: Context, ctx: Context)
    requires WellFormed(base)
    ensures Covered(base, ctx) <==> forall x :: VarOf(x) !in ctx ==> Peek(base, x) == None
  {
    if !Covered(base, ctx) {
      var v :| v in base && v !in ctx && !Blank(v, base[v]);
      match v {
        case PlainVar(n) => assert Peek(base, Whole(n)) != None;
        case LocalVar(l) =>
          var k :| k in base[v].data;
          assert VarOf(Attr(l, k)) == v && Peek(base, Attr(l, k)) != None;
        case CritVar(l, t) =>
          var k :| k in base[v].v.attrs;
          assert VarOf(CritAttr(l, t, k)) == v && Peek(base, CritAttr(l, t, k)) != None;
      }
    }
  }
}
