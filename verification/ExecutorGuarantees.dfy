/** What CurrentThreadExecutor promises, over every run of the protocol from its start. */
module ExecutorGuarantees {
  import opened Contexts
  import opened ExecutorProtocol
  import opened ExecutorInvariant

  lemma Reachable(steps: seq<Step>)
    ensures Inv(Run(START, steps))
  {
    RunKeepsInv(START, steps);
  }

  // ---- work conservation -------------------------------------------------------------

  lemma {:induction false} UncancelledIn(items: seq<Item>, q: seq<Iid>)
    requires Distinct(q)
    ensures forall i :: i in Uncancelled(items, q) <==> i in q && i < |items| && !items[i].future.Cancelled?
    ensures Distinct(Uncancelled(items, q))
  {
    if q != [] {
      var last, rest := q[|q| - 1], q[..|q| - 1];
      UncancelledIn(items, rest);
      assert q == rest + [last];
      assert last !in rest;
    }
  }

  /** Whatever the interleaving, an executor has accepted exactly what it has settled, the item in hand and its
      queue, in that order; no item was accepted twice or by two executors; and the functions called
      are, once each and in order of acceptance, those of the items that were not cancelled first. */
  lemma {:induction false} WorkConservation(steps: seq<Step>, e: Eid)
    requires e < |Run(START, steps).execs|
    ensures var s := Run(START, steps);
            var x := s.execs[e];
            && x.accepted == x.settled + Current(x) + x.queue
            && Distinct(x.accepted) && Distinct(x.called)
            && x.called == Uncancelled(s.items, x.settled) + (if x.pc.Calling? then [x.pc.item] else [])
            && (forall i :: i in x.called ==> i in x.accepted && i < |s.items| && !s.items[i].future.Cancelled?)
            && (forall k, i :: 0 <= k < |s.execs| && k != e && i in x.accepted ==> i !in s.execs[k].accepted)
  {
    var s := Run(START, steps);
    Reachable(steps);
    var x := s.execs[e];
    assert ExecInv(s, e);
    assert forall k :: 0 <= k < |x.settled| ==> x.settled[k] == x.accepted[k];
    UncancelledIn(s.items, x.settled);
    InAccepted(x);
    if x.pc.Calling? {
      HeldItem(s, e);
    }
    forall k, i | 0 <= k < |s.execs| && k != e && i in x.accepted ensures i !in s.execs[k].accepted {
      assert ExecInv(s, k);
    }
  }

  /** Once run_until_future has exited, the executor is broken with an empty queue for ever, and every item it
      accepted was run to its end or had been cancelled; nothing is stranded. */
  lemma {:induction false} ExitIsFinal(before: seq<Step>, after: seq<Step>, e: Eid)
    requires e < |Run(START, before).execs| && Run(START, before).execs[e].pc.Exited?
    ensures var s, s' := Run(START, before), Run(Run(START, before), after);
            && e < |s'.execs|
            && s'.execs[e].pc.Exited? && s'.execs[e].broken && s'.execs[e].queue == []
            && s'.execs[e].accepted == s.execs[e].accepted == s'.execs[e].settled
            && Settled(s'.items, s.execs[e].accepted)
  {
    var s := Run(START, before);
    Reachable(before);
    RunKeepsInv(s, after);
    var s' := Run(s, after);
    assert ExecInv(s, e) && ExecInv(s', e) && Evolves(s.execs[e], s'.execs[e]);
    assert s'.execs[e].settled + [] + [] == s'.execs[e].settled;
  }

  // ---- waking up ---------------------------------------------------------------------

  /** No lost wake-up: an owner that waits unnotified has nothing to do, and one that has something to do can wake.
      One notify is enough: of all the executors a thread is running, at most the innermost waits. */
  lemma {:induction false} NoLostWakeup(steps: seq<Step>, e: Eid)
    requires e < |Run(START, steps).execs| && Run(START, steps).execs[e].pc.Waiting?
    ensures var s := Run(START, steps);
            var x := s.execs[e];
            && (x.pc == Waiting(false) ==> x.queue == [] && !x.broken)
            && (x.queue != [] || x.broken ==> Enabled(s, Wake(e)))
            && (forall k :: 0 <= k < |s.execs| && k != e && s.execs[k].owner == x.owner && Inside(s.execs[k])
                  ==> s.execs[k].pc.Calling?)
  {
    var s := Run(START, steps);
    Reachable(steps);
    var x := s.execs[e];
    assert ExecInv(s, e);
    var fs := Frames(s, x.owner);
    assert e in fs && StackInv(s, x.owner);
    var j :| 0 <= j < |fs| && fs[j] == e;
    assert j == |fs| - 1;
    forall k | 0 <= k < |s.execs| && k != e && s.execs[k].owner == x.owner && Inside(s.execs[k])
      ensures s.execs[k].pc.Calling?
    {
      assert k in fs;
    }
  }

  /** The rounds of e's loop in a run. */
  function Looks(s: State, steps: seq<Step>, e: Eid): nat
    decreases |steps|
  {
    if steps == [] then 0
    else (if steps[0] == Look(e) && Enabled(s, steps[0]) then 1 else 0) + Looks(Next(s, steps[0]), steps[1..], e)
  }

  /** Rounds left for a broken executor: one per queued item, and one to leave. */
  function RoundsLeft(x: Exec): nat {
    |x.queue| + if x.pc.Exited? then 0 else 1
  }

  lemma StepUsesRounds(s: State, step: Step, e: Eid)
    requires e < |s.execs| && s.execs[e].broken
    ensures var s' := Next(s, step);
            && e < |s'.execs| && s'.execs[e].broken
            && RoundsLeft(s.execs[e])
               == RoundsLeft(s'.execs[e]) + if step == Look(e) && Enabled(s, step) then 1 else 0
  {
  }

  /** Bounded drain: after the done callback has broken it, the loop makes at most one round per item then queued and
      one to leave, and takes nothing new, whatever other threads do. */
  lemma {:induction false} BoundedDrain(s: State, steps: seq<Step>, e: Eid)
    requires Inv(s) && e < |s.execs| && s.execs[e].broken
    ensures var s' := Run(s, steps);
            && e < |s'.execs| && s'.execs[e].accepted == s.execs[e].accepted
            && Looks(s, steps, e) + RoundsLeft(s'.execs[e]) == RoundsLeft(s.execs[e])
    decreases |steps|
  {
    if steps != [] {
      StepUsesRounds(s, steps[0], e);
      StepKeepsInv(s, steps[0]);
      BoundedDrain(Next(s, steps[0]), steps[1..], e);
    }
    RunKeepsInv(s, steps);
    assert Evolves(s.execs[e], Run(s, steps).execs[e]);
  }

  // ---- the walk up the executors -----------------------------------------------------

  /** submit's loop as one atomic step: the nearest executor still running takes the item. */
  function AtomicSubmit(s: State, i: Iid): State
    requires i < |s.items|
  {
    match Nearest(s.execs, s.items[i].start)
    case Some(e) => if e < |s.execs| then Accept(s, i, e) else s
    case None => WithWalk(s, i, Rejected)
  }

  function AtomicNext(s: State, step: Step): State {
    if step.WalkOn? then
      if Enabled(s, step) then AtomicSubmit(s, step.i) else s
    else Next(s, step)
  }

  function AtomicRun(s: State, steps: seq<Step>): State
    decreases |steps|
  {
    if steps == [] then s else AtomicRun(AtomicNext(s, steps[0]), steps[1..])
  }

  /** Forgetting how far a walk has got. */
  function HideItem(m: Item): Item {
    if m.walk.Walking? then m.(walk := Walking(m.start)) else m
  }

  function Hide(s: State): State {
    s.(items := seq(|s.items|, k requires 0 <= k < |s.items| => HideItem(s.items[k])))
  }

  lemma NearestInRange(execs: seq<Exec>, e: Eid)
    ensures Nearest(execs, e).Some? ==> Nearest(execs, e).value < |execs|
  {
  }

  /** The round of submit's loop that ends the walk is the atomic submission: at that instant the receiver is the
      nearest unbroken executor from where the walk began, and it is refused only if none is left. */
  lemma {:induction false} WalkEndsAtomically(s: State, i: Iid)
    requires Inv(s) && Enabled(s, WalkOn(i))
    ensures var s' := Next(s, WalkOn(i));
            if s'.items[i].walk.Walking?
            then s' == WithWalk(s, i, s'.items[i].walk) && s'.items[i].walk.at < s.items[i].walk.at
            else s' == AtomicSubmit(s, i)
    ensures Next(s, WalkOn(i)).items[i].walk.Rejected? <==> Nearest(s.execs, s.items[i].start) == None
                                                            && s.execs[s.items[i].walk.at].outer.None?
  {
    var m := s.items[i];
    assert ItemInv(s, i) && ExecInv(s, m.walk.at);
    PassedNearest(s.execs, m.start, m.walk.at);
  }

  /** Changing an item's future, or adding an item, and forgetting walks commute. */
  lemma HideItems(s: State, i: Iid, f: ItemFuture, e: Eid)
    ensures i < |s.items| ==> Hide(s.(items := s.items[i := s.items[i].(future := f)])).items
                              == Hide(s).items[i := Hide(s).items[i].(future := f)]
    ensures Hide(s.(items := s.items + [Item(e, Walking(e), Pending)])).items
            == Hide(s).items + [Item(e, Walking(e), Pending)]
  {
  }

  lemma HideStep(s: State, step: Step)
    requires !step.WalkOn?
    ensures Hide(Next(s, step)) == Next(Hide(s), step)
  {
    var h := Hide(s);
    assert Enabled(s, step) == Enabled(h, step);
    if Enabled(s, step) {
      match step
      case Claim(e) => HideItems(s, s.execs[e].pc.item, InCall, e);
      case Return(e) => HideItems(s, s.execs[e].pc.item, Finished, e);
      case Cancel(i) => HideItems(s, i, Cancelled, 0);
      case Submit(_, e) => HideItems(s, 0, Pending, e);
      case _ =>
    }
  }

  lemma HideWalk(s: State, i: Iid)
    requires Inv(s) && Enabled(s, WalkOn(i))
    ensures Hide(Next(s, WalkOn(i))) == Hide(s) || Hide(Next(s, WalkOn(i))) == AtomicNext(Hide(s), WalkOn(i))
  {
    var s', h := Next(s, WalkOn(i)), Hide(s);
    WalkEndsAtomically(s, i);
    assert ItemInv(s, i);
    if s'.items[i].walk.Walking? {
      assert Hide(s').items == h.items;
    } else {
      NearestInRange(s.execs, s.items[i].start);
      assert Hide(s').items == AtomicSubmit(h, i).items;
    }
  }

  /** The protocol refines the one in which submit is atomic: to anyone who cannot see how far a walk has got,
      every run looks like a run with atomic submissions. */
  lemma {:induction false} WalkIsAtomic(s: State, steps: seq<Step>) returns (atomic: seq<Step>)
    requires Inv(s)
    ensures |atomic| <= |steps| && Hide(Run(s, steps)) == AtomicRun(Hide(s), atomic)
    decreases |steps|
  {
    if steps == [] {
      return [];
    }
    var s' := Next(s, steps[0]);
    StepKeepsInv(s, steps[0]);
    var rest := WalkIsAtomic(s', steps[1..]);
    if Hide(s') == Hide(s) {
      return rest;
    }
    if steps[0].WalkOn? {
      HideWalk(s, steps[0].i);
    } else {
      HideStep(s, steps[0]);
    }
    assert ([steps[0]] + rest)[1..] == rest;
    return [steps[0]] + rest;
  }

  /** The rounds of a submission's loop in a run. */
  function Rounds(s: State, steps: seq<Step>, i: Iid): nat
    decreases |steps|
  {
    if steps == [] then 0
    else (if steps[0] == WalkOn(i) && Enabled(s, steps[0]) then 1 else 0) + Rounds(Next(s, steps[0]), steps[1..], i)
  }

  function WalkLeft(m: Item): nat {
    if m.walk.Walking? then m.walk.at + 1 else 0
  }

  lemma OthersKeepWalk(s: State, step: Step, i: Iid)
    requires i < |s.items| && !(step == WalkOn(i) && Enabled(s, step))
    ensures i < |Next(s, step).items| && Next(s, step).items[i].walk == s.items[i].walk
  {
  }

  lemma StepUsesWalk(s: State, step: Step, i: Iid)
    requires Inv(s) && i < |s.items|
    ensures i < |Next(s, step).items|
    ensures (if step == WalkOn(i) && Enabled(s, step) then 1 else 0) + WalkLeft(Next(s, step).items[i])
            <= WalkLeft(s.items[i])
  {
    if step == WalkOn(i) && Enabled(s, step) {
      WalkEndsAtomically(s, i);
    } else {
      OthersKeepWalk(s, step, i);
    }
  }

  /** submit's loop ends: every round moves to an executor built earlier. */
  lemma {:induction false} WalkTerminates(s: State, steps: seq<Step>, i: Iid)
    requires Inv(s) && i < |s.items|
    ensures i < |Run(s, steps).items| && Rounds(s, steps, i) + WalkLeft(Run(s, steps).items[i]) <= WalkLeft(s.items[i])
    decreases |steps|
  {
    if steps != [] {
      StepUsesWalk(s, steps[0], i);
      StepKeepsInv(s, steps[0]);
      WalkTerminates(Next(s, steps[0]), steps[1..], i);
    }
  }

  // ---- thread affinity ---------------------------------------------------------------

  /** The whole chain of executors from e outwards was built on thread t. */
  predicate ChainBuiltOn(execs: seq<Exec>, e: Eid, t: Tid) {
    e < |execs| && execs[e].owner == t
    && (execs[e].outer.Some? && execs[e].outer.value < e ==> ChainBuiltOn(execs, execs[e].outer.value, t))
  }

  lemma {:induction false} PassedOnChain(execs: seq<Exec>, from: Eid, to: Eid, t: Tid)
    requires Passed(execs, from, to) && ChainBuiltOn(execs, from, t)
    ensures to < |execs| && execs[to].owner == t
  {
    if from != to {
      PassedOnChain(execs, execs[from].outer.value, to, t);
    }
  }

  /** An item submitted to an executor whose chain was built on one thread is only ever called by that thread, although
      the executor it was submitted to, and others on the chain, may have quit meanwhile. */
  lemma {:induction false} CalledOnItsThread(steps: seq<Step>, e: Eid, i: Iid, t: Tid)
    requires var s := Run(START, steps);
             e < |s.execs| && i in s.execs[e].called && i < |s.items| && ChainBuiltOn(s.execs, s.items[i].start, t)
    ensures var s := Run(START, steps); s.execs[e].owner == t && Passed(s.execs, s.items[i].start, e)
  {
    var s := Run(START, steps);
    Reachable(steps);
    WorkConservation(steps, e);
    assert ExecInv(s, e) && ItemInv(s, i);
    PassedOnChain(s.execs, s.items[i].start, e, t);
  }
}
