/** Every step of the executor protocol keeps the invariant, so every run does. */
module ExecutorInvariant {
  import opened Contexts
  import opened ExecutorProtocol

  // ---- what steps leave alone --------------------------------------------------------

  /** Executors are only added, stay broken once broken, and only ever accept more. */
  ghost predicate Grows(a: seq<Exec>, b: seq<Exec>) {
    |a| <= |b| && forall e :: 0 <= e < |a| ==> Evolves(a[e], b[e])
  }

  predicate Evolves(x: Exec, y: Exec) {
    && x.owner == y.owner && x.outer == y.outer
    && (x.broken ==> y.broken && y.accepted == x.accepted)
    && x.accepted <= y.accepted && x.settled <= y.settled && x.called <= y.called
    && (x.pc.Exited? ==> y.pc.Exited? && y.queue == x.queue)
  }

  lemma {:induction false} PassedGrows(a: seq<Exec>, b: seq<Exec>, from: Eid, to: Eid)
    requires Grows(a, b) && Passed(a, from, to)
    ensures Passed(b, from, to)
  {
    if from != to {
      assert Evolves(a[from], b[from]);
      PassedGrows(a, b, a[from].outer.value, to);
    }
  }

  lemma {:induction false} NoneNearestGrows(a: seq<Exec>, b: seq<Exec>, e: Eid)
    requires Grows(a, b) && e < |a| && Nearest(a, e) == None
    ensures Nearest(b, e) == None
  {
    assert Evolves(a[e], b[e]);
    if a[e].outer.Some? && a[e].outer.value < e {
      NoneNearestGrows(a, b, a[e].outer.value);
    }
  }

  lemma {:induction false} UncancelledFrame(items: seq<Item>, items': seq<Item>, q: seq<Iid>)
    requires forall i :: i in q ==> i < |items| && i < |items'|
    requires forall i :: i in q ==> items[i].future.Cancelled? == items'[i].future.Cancelled?
    ensures Uncancelled(items, q) == Uncancelled(items', q)
  {
    if q != [] {
      var last, rest := q[|q| - 1], q[..|q| - 1];
      assert last in q && forall i :: i in rest ==> i in q;
      UncancelledFrame(items, items', rest);
    }
  }

  /** A step that leaves an executor alone, and does no more to its items than cancel pending ones. */
  lemma ExecFrame(s: State, s': State, e: Eid)
    requires e < |s.execs| <= |s'.execs| && ExecInv(s, e)
    requires s'.execs[e] == s.execs[e] && s.done <= s'.done && |s.items| <= |s'.items|
    requires forall i :: i in s.execs[e].accepted ==>
                           s'.items[i] == s.items[i]
                           || (s.items[i].future.Pending? && s'.items[i] == s.items[i].(future := Cancelled))
    ensures ExecInv(s', e)
  {
    InAccepted(s.execs[e]);
    UncancelledFrame(s.items, s'.items, s.execs[e].settled);
  }

  lemma InAccepted(x: Exec)
    requires x.accepted == x.settled + Current(x) + x.queue
    ensures forall i :: i in x.settled || i in Current(x) || i in x.queue ==> i in x.accepted
  {
  }

  lemma ItemFrame(s: State, s': State, i: Iid)
    requires i < |s.items| && |s.items| <= |s'.items| && ItemInv(s, i) && Grows(s.execs, s'.execs)
    requires s'.items[i].start == s.items[i].start && s'.items[i].walk == s.items[i].walk
    requires !s.items[i].walk.Accepted? ==> Unclaimed(s'.items, [i])
    ensures ItemInv(s', i)
  {
    var m := s.items[i];
    match m.walk
    case Walking(at) => PassedGrows(s.execs, s'.execs, m.start, at);
    case Accepted(on) =>
      PassedGrows(s.execs, s'.execs, m.start, on);
      assert Evolves(s.execs[on], s'.execs[on]);
    case Rejected => NoneNearestGrows(s.execs, s'.execs, m.start);
  }

  ghost predicate StacksHold(s: State) {
    && (forall t :: t in s.frames ==> StackInv(s, t))
    && (forall e :: 0 <= e < |s.execs| && Inside(s.execs[e]) ==> e in Frames(s, s.execs[e].owner))
  }

  /** Only the innermost frame of a thread moves. */
  ghost predicate InnermostMoves(s: State, s': State) {
    && s'.frames == s.frames && |s.execs| <= |s'.execs|
    && (forall e :: 0 <= e < |s.execs| ==>
          && s'.execs[e].owner == s.execs[e].owner && Inside(s'.execs[e]) == Inside(s.execs[e])
          && (s.execs[e].pc.Calling? ==> s'.execs[e].pc.Calling? || OnTop(s, e)))
    && forall e :: |s.execs| <= e < |s'.execs| ==> !Inside(s'.execs[e])
  }

  lemma StackFrame(s: State, s': State)
    requires StacksHold(s) && InnermostMoves(s, s')
    ensures StacksHold(s')
  {
    forall t | t in s'.frames ensures StackInv(s', t) {
      assert StackInv(s, t);
    }
  }

  // ---- one lemma per kind of step ----------------------------------------------------

  ghost predicate Parts(s: State) {
    && (forall e :: 0 <= e < |s.execs| ==> ExecInv(s, e))
    && (forall i :: 0 <= i < |s.items| ==> ItemInv(s, i))
  }

  /** A step that changes one executor and no item. */
  lemma ExecStep(s: State, s': State, e: Eid)
    requires Parts(s) && e < |s.execs| == |s'.execs| && s'.items == s.items && s'.done == s.done
    requires forall k :: 0 <= k < |s.execs| && k != e ==> s'.execs[k] == s.execs[k]
    requires Evolves(s.execs[e], s'.execs[e]) && ExecInv(s', e)
    ensures Parts(s') && Grows(s.execs, s'.execs)
  {
    forall k | 0 <= k < |s'.execs| ensures ExecInv(s', k) {
      if k != e {
        ExecFrame(s, s', k);
      }
    }
    forall i | 0 <= i < |s'.items| ensures ItemInv(s', i) {
      ItemFrame(s, s', i);
    }
  }

  /** A step that changes one executor and one item of its own. */
  lemma ExecItemStep(s: State, s': State, e: Eid, i: Iid)
    requires Parts(s) && e < |s.execs| == |s'.execs| && i < |s.items| == |s'.items| && s'.done == s.done
    requires forall k :: 0 <= k < |s.execs| && k != e ==> s'.execs[k] == s.execs[k]
    requires forall k :: 0 <= k < |s.items| && k != i ==> s'.items[k] == s.items[k]
    requires s.items[i].walk.Walking? || s.items[i].walk == Accepted(e)
    requires Evolves(s.execs[e], s'.execs[e]) && ExecInv(s', e) && ItemInv(s', i)
    ensures Parts(s') && Grows(s.execs, s'.execs)
  {
    forall k | 0 <= k < |s'.execs| ensures ExecInv(s', k) {
      if k != e {
        assert ExecInv(s, k);
        ExecFrame(s, s', k);
      }
    }
    forall k | 0 <= k < |s'.items| ensures ItemInv(s', k) {
      if k != i {
        ItemFrame(s, s', k);
      }
    }
  }

  /** A step that changes no executor, and one item without settling it. */
  lemma ItemStep(s: State, s': State, i: Iid)
    requires Parts(s) && s'.execs == s.execs && s.done <= s'.done
    requires i < |s'.items| && |s.items| <= |s'.items|
    requires forall k :: 0 <= k < |s'.items| && k != i ==> k < |s.items| && s'.items[k] == s.items[k]
    requires i < |s.items| && s.items[i].walk.Accepted?
             ==> s.items[i].future.Pending? && s'.items[i] == s.items[i].(future := Cancelled)
    requires ItemInv(s', i)
    ensures Parts(s') && Grows(s.execs, s'.execs)
  {
    forall k | 0 <= k < |s'.execs| ensures ExecInv(s', k) {
      assert ExecInv(s, k);
      ExecFrame(s, s', k);
    }
    forall k | 0 <= k < |s'.items| ensures ItemInv(s', k) {
      if k != i {
        assert k < |s.items| && ItemInv(s, k);
        ItemFrame(s, s', k);
      }
    }
  }

  lemma LookStep(s: State, e: Eid)
    requires Parts(s) && Enabled(s, Look(e))
    ensures Parts(Took(s, e)) && Grows(s.execs, Took(s, e).execs)
  {
    var x, s' := s.execs[e], Took(s, e);
    var y := s'.execs[e];
    assert ExecInv(s, e);
    if x.queue != [] {
      assert x.settled + [x.queue[0]] + x.queue[1..] == x.accepted;
      assert x.queue[0] in x.queue && forall i :: i in x.queue[1..] ==> i in x.queue;
    }
    ExecStep(s, s', e);
  }

  /** Claiming an item that was not cancelled: what becomes of its executor. */
  lemma ClaimedExec(s: State, s': State, e: Eid)
    requires Parts(s) && Enabled(s, Claim(e)) && s' == Next(s, Claim(e))
    requires s.items[s.execs[e].pc.item].future.Pending?
    ensures ExecInv(s', e)
  {
    var x := s.execs[e];
    assert ExecInv(s, e);
    HeldItem(s, e);
    InAccepted(x);
    UncancelledFrame(s.items, s'.items, x.settled);
  }

  lemma ClaimPending(s: State, s': State, e: Eid)
    requires Parts(s) && Enabled(s, Claim(e)) && s' == Next(s, Claim(e))
    requires s.items[s.execs[e].pc.item].future.Pending?
    ensures Parts(s') && Grows(s.execs, s'.execs)
  {
    var i := s.execs[e].pc.item;
    assert ExecInv(s, e) && ItemInv(s, i);
    HeldItem(s, e);
    ClaimedExec(s, s', e);
    ItemFrame(s, s', i);
    ExecItemStep(s, s', e, i);
  }

  lemma ClaimCancelled(s: State, s': State, e: Eid)
    requires Parts(s) && Enabled(s, Claim(e)) && s' == Next(s, Claim(e))
    requires !s.items[s.execs[e].pc.item].future.Pending?
    ensures Parts(s') && Grows(s.execs, s'.execs)
  {
    var x := s.execs[e];
    assert ExecInv(s, e) && x.pc.item in [x.pc.item];
    SettleOne(s.items, x, x.pc.item);
    ExecStep(s, s', e);
  }

  lemma ClaimStep(s: State, e: Eid)
    requires Parts(s) && Enabled(s, Claim(e))
    ensures var s' := Next(s, Claim(e)); Parts(s') && Grows(s.execs, s'.execs)
  {
    if s.items[s.execs[e].pc.item].future.Pending? {
      ClaimPending(s, Next(s, Claim(e)), e);
    } else {
      ClaimCancelled(s, Next(s, Claim(e)), e);
    }
  }

  /** Finishing with the item in hand. */
  lemma SettleOne(items: seq<Item>, x: Exec, i: Iid)
    requires x.accepted == x.settled + [i] + x.queue && i < |items|
    requires Settled(items, x.settled) && Settled(items, [i])
    ensures x.accepted == (x.settled + [i]) + [] + x.queue && Settled(items, x.settled + [i])
    ensures Uncancelled(items, x.settled + [i])
            == Uncancelled(items, x.settled) + if items[i].future.Cancelled? then [] else [i]
  {
    assert i in [i];
    assert (x.settled + [i])[..|x.settled|] == x.settled;
  }

  lemma ReturnStep(s: State, e: Eid)
    requires Parts(s) && Enabled(s, Return(e))
    ensures var s' := Next(s, Return(e)); Parts(s') && Grows(s.execs, s'.execs)
  {
    var x, s' := s.execs[e], Next(s, Return(e));
    var i := x.pc.item;
    assert ExecInv(s, e);
    HeldItem(s, e);
    UncancelledFrame(s.items, s'.items, x.settled);
    SettleOne(s'.items, x, i);
    assert ItemInv(s, i);
    ItemFrame(s, s', i);
    ExecItemStep(s, s', e, i);
  }

  /** The item in hand was accepted here and is nowhere else in this executor's history. */
  lemma HeldItem(s: State, e: Eid)
    requires e < |s.execs| && ExecInv(s, e) && (s.execs[e].pc.Holding? || s.execs[e].pc.Calling?)
    ensures var x, i := s.execs[e], s.execs[e].pc.item;
            i < |s.items| && s.items[i].walk == Accepted(e) && i !in x.settled && i !in x.queue
  {
    var x := s.execs[e];
    var n := |x.settled|;
    assert x.accepted[n] == x.pc.item;
    assert forall k :: 0 <= k < n ==> x.accepted[k] == x.settled[k];
    assert forall k :: 0 <= k < |x.queue| ==> x.accepted[n + 1 + k] == x.queue[k];
    assert x.pc.item in x.accepted;
  }

  lemma AcceptedExec(s: State, s': State, i: Iid, e: Eid)
    requires Parts(s) && i < |s.items| && e < |s.execs| && s.items[i].walk == Walking(e) && !s.execs[e].broken
    requires s' == Accept(s, i, e)
    ensures ExecInv(s', e) && s'.execs[e].accepted[|s.execs[e].accepted|] == i
  {
    var x, y := s.execs[e], s'.execs[e];
    assert ExecInv(s, e) && ItemInv(s, i) && i in [i];
    assert i !in x.accepted;
    InAccepted(x);
    assert y.accepted == y.settled + Current(y) + y.queue;
    UncancelledFrame(s.items, s'.items, x.settled);
  }

  lemma AcceptStep(s: State, i: Iid, e: Eid)
    requires Parts(s) && i < |s.items| && e < |s.execs| && s.items[i].walk == Walking(e) && !s.execs[e].broken
    ensures Parts(Accept(s, i, e)) && Grows(s.execs, Accept(s, i, e).execs)
  {
    var s' := Accept(s, i, e);
    assert ItemInv(s, i);
    AcceptedExec(s, s', i, e);
    assert Evolves(s.execs[e], s'.execs[e]);
    assert Grows(s.execs, s'.execs);
    PassedGrows(s.execs, s'.execs, s.items[i].start, e);
    ExecItemStep(s, s', e, i);
  }

  lemma WalkStep(s: State, i: Iid)
    requires Parts(s) && Enabled(s, WalkOn(i))
    ensures var s' := Next(s, WalkOn(i)); Parts(s') && Grows(s.execs, s'.execs)
  {
    var m, e := s.items[i], s.items[i].walk.at;
    assert ItemInv(s, i) && ExecInv(s, e);
    if !s.execs[e].broken {
      AcceptStep(s, i, e);
    } else {
      PassedNearest(s.execs, m.start, e);
      if s.execs[e].outer.Some? {
        PassedOn(s.execs, m.start, e);
      }
      ItemStep(s, Next(s, WalkOn(i)), i);
    }
  }

  /** What is nearest from further out is nearest from the start, as everything before is broken. */
  lemma {:induction false} PassedNearest(execs: seq<Exec>, from: Eid, to: Eid)
    requires Passed(execs, from, to) && from < |execs|
    ensures Nearest(execs, from) == Nearest(execs, to)
  {
    if from != to {
      PassedNearest(execs, execs[from].outer.value, to);
    }
  }

  lemma {:induction false} PassedOn(execs: seq<Exec>, from: Eid, to: Eid)
    requires Passed(execs, from, to) && from < |execs| && to < |execs|
    requires execs[to].broken && execs[to].outer.Some? && execs[to].outer.value < to
    ensures Passed(execs, from, execs[to].outer.value)
  {
    if from != to {
      PassedOn(execs, execs[from].outer.value, to);
    }
  }

  // ---- the invariant over runs -------------------------------------------------------

  /** A step that touches no existing executor and no item. */
  lemma QuietStep(s: State, s': State)
    requires Parts(s) && s'.items == s.items && s.done <= s'.done && s.execs <= s'.execs
    requires forall k :: |s.execs| <= k < |s'.execs| ==> ExecInv(s', k)
    ensures Parts(s') && Grows(s.execs, s'.execs)
  {
    forall k | 0 <= k < |s.execs| ensures ExecInv(s', k) {
      assert ExecInv(s, k);
      ExecFrame(s, s', k);
    }
    forall i | 0 <= i < |s'.items| ensures ItemInv(s', i) {
      assert ItemInv(s, i);
      ItemFrame(s, s', i);
    }
  }

  lemma FireStep(s: State, e: Eid)
    requires Parts(s) && Enabled(s, Fire(e))
    ensures var s' := Next(s, Fire(e)); Parts(s') && Grows(s.execs, s'.execs)
  {
    assert ExecInv(s, e);
    ExecStep(s, Next(s, Fire(e)), e);
  }

  lemma BeginStep(s: State, e: Eid, f: Fid)
    requires Parts(s) && Enabled(s, BeginRun(e, f))
    ensures var s' := Next(s, BeginRun(e, f)); Parts(s') && Grows(s.execs, s'.execs)
  {
    assert ExecInv(s, e);
    ExecStep(s, Next(s, BeginRun(e, f)), e);
  }

  lemma WakeStep(s: State, e: Eid)
    requires Parts(s) && Enabled(s, Wake(e))
    ensures var s' := Next(s, Wake(e)); Parts(s') && Grows(s.execs, s'.execs)
  {
    assert ExecInv(s, e);
    ExecStep(s, Next(s, Wake(e)), e);
  }

  lemma {:induction false} StepKeepsParts(s: State, step: Step)
    requires Parts(s)
    ensures Parts(Next(s, step)) && Grows(s.execs, Next(s, step).execs)
  {
    if Enabled(s, step) {
      match step
      case Create(_, _) => QuietStep(s, Next(s, step));
      case Complete(_) => QuietStep(s, Next(s, step));
      case BeginRun(e, f) => BeginStep(s, e, f);
      case Look(e) => LookStep(s, e);
      case Wake(e) => WakeStep(s, e);
      case Claim(e) => ClaimStep(s, e);
      case Return(e) => ReturnStep(s, e);
      case WalkOn(i) => WalkStep(s, i);
      case Cancel(i) =>
        assert ItemInv(s, i);
        ItemStep(s, Next(s, step), i);
      case Submit(_, e) => ItemStep(s, Next(s, step), |s.items|);
      case Fire(e) => FireStep(s, e);
    }
  }

  /** This round of e's loop is its last. */
  predicate Leaves(s: State, step: Step) {
    step.Look? && step.e < |s.execs| && s.execs[step.e].queue == [] && s.execs[step.e].broken
  }

  /** All steps but the ones that begin and leave a loop. */
  lemma OthersMoveInnermost(s: State, step: Step)
    requires Enabled(s, step) && !step.BeginRun? && !Leaves(s, step)
    ensures InnermostMoves(s, Next(s, step))
  {
  }

  lemma StepKeepsStacks(s: State, step: Step)
    requires StacksHold(s)
    ensures StacksHold(Next(s, step))
  {
    if Enabled(s, step) {
      if step.BeginRun? {
        PushKeepsStacks(s, step.e, step.f);
      } else if Leaves(s, step) {
        PopKeepsStacks(s, step.e);
      } else {
        OthersMoveInnermost(s, step);
        StackFrame(s, Next(s, step));
      }
    }
  }

  lemma PushFrame(execs: seq<Exec>, t: Tid, fs: seq<Eid>, e: Eid, y: Exec)
    requires Stack(execs, t, fs) && e < |execs| && !Inside(execs[e]) && y.owner == t && Inside(y)
    requires fs != [] ==> execs[fs[|fs| - 1]].pc.Calling?
    ensures Stack(execs[e := y], t, fs + [e])
  {
    assert e !in fs;
  }

  lemma PushKeepsStack(s: State, e: Eid, f: Fid, u: Tid)
    requires StacksHold(s) && Enabled(s, BeginRun(e, f)) && u in Next(s, BeginRun(e, f)).frames
    ensures StackInv(Next(s, BeginRun(e, f)), u)
  {
    var s' := Next(s, BeginRun(e, f));
    var t, fs := s.execs[e].owner, Frames(s, u);
    assert Stack(s.execs, u, fs) by {
      assert u in s.frames ==> StackInv(s, u);
    }
    if u == t {
      PushFrame(s.execs, t, fs, e, s'.execs[e]);
      assert Frames(s', t) == fs + [e];
    } else {
      assert e !in fs;
      assert Frames(s', u) == fs;
    }
  }

  lemma PushKeepsStacks(s: State, e: Eid, f: Fid)
    requires StacksHold(s) && Enabled(s, BeginRun(e, f))
    ensures StacksHold(Next(s, BeginRun(e, f)))
  {
    var s' := Next(s, BeginRun(e, f));
    forall u | u in s'.frames ensures StackInv(s', u) {
      PushKeepsStack(s, e, f, u);
    }
    forall k | 0 <= k < |s'.execs| && Inside(s'.execs[k]) ensures k in Frames(s', s'.execs[k].owner) {
      if k != e {
        assert k in Frames(s, s.execs[k].owner);
      }
    }
  }

  lemma PopFrame(execs: seq<Exec>, t: Tid, fs: seq<Eid>, y: Exec)
    requires Stack(execs, t, fs) && fs != []
    ensures Stack(execs[fs[|fs| - 1] := y], t, fs[..|fs| - 1])
  {
  }

  lemma PopKeepsStack(s: State, e: Eid, u: Tid)
    requires StacksHold(s) && Enabled(s, Look(e)) && s.execs[e].queue == [] && s.execs[e].broken
    requires u in s.frames
    ensures StackInv(Took(s, e), u)
  {
    var s', fs := Took(s, e), Frames(s, u);
    assert Stack(s.execs, u, fs) by {
      assert u in s.frames ==> StackInv(s, u);
    }
    if u == s.execs[e].owner {
      PopFrame(s.execs, u, fs, s'.execs[e]);
      assert Frames(s', u) == fs[..|fs| - 1];
    } else {
      assert e !in fs;
      assert Frames(s', u) == fs;
    }
  }

  lemma PopKeepsStacks(s: State, e: Eid)
    requires StacksHold(s) && Enabled(s, Look(e)) && s.execs[e].queue == [] && s.execs[e].broken
    ensures StacksHold(Took(s, e))
  {
    var s', t := Took(s, e), s.execs[e].owner;
    forall u | u in s'.frames ensures StackInv(s', u) {
      PopKeepsStack(s, e, u);
    }
    forall k | 0 <= k < |s'.execs| && Inside(s'.execs[k]) ensures k in Frames(s', s'.execs[k].owner) {
      var fs := Frames(s, s.execs[k].owner);
      assert k in fs;
      if s.execs[k].owner == t {
        var j :| 0 <= j < |fs| && fs[j] == k;
        assert j < |fs| - 1;
      }
    }
  }

  /** Every step, of any thread, in any state that satisfies the invariant, keeps it, and no executor ever
      unbreaks, forgets an item or leaves its exit. */
  lemma {:induction false} StepKeepsInv(s: State, step: Step)
    requires Inv(s)
    ensures Inv(Next(s, step)) && Grows(s.execs, Next(s, step).execs)
  {
    StepKeepsParts(s, step);
    assert StacksHold(s);
    StepKeepsStacks(s, step);
  }

  lemma {:induction false} RunKeepsInv(s: State, steps: seq<Step>)
    requires Inv(s)
    ensures Inv(Run(s, steps)) && Grows(s.execs, Run(s, steps).execs)
    decreases |steps|
  {
    if steps != [] {
      StepKeepsInv(s, steps[0]);
      RunKeepsInv(Next(s, steps[0]), steps[1..]);
      GrowsChain(s.execs, Next(s, steps[0]).execs, Run(s, steps).execs);
    }
  }

  lemma GrowsChain(a: seq<Exec>, b: seq<Exec>, c: seq<Exec>)
    requires Grows(a, b) && Grows(b, c)
    ensures Grows(a, c)
  {
    forall e | 0 <= e < |a| ensures Evolves(a[e], c[e]) {
      assert Evolves(a[e], b[e]) && Evolves(b[e], c[e]);
    }
  }
}
