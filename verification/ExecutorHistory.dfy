/** What a state of the executor protocol says about the run that led to it: each fact holds if and only if some step of
    the run brought it about. */
module ExecutorHistory {
  import opened Contexts
  import opened ExecutorProtocol
  import opened ExecutorInvariant
  import opened ExecutorGuarantees

  /** Facts that no step takes back. */
  datatype Fact =
    | Built(e: Eid, thread: Tid, outer: Option<Eid>)
    | Resolved(f: Fid)
    | WaitsFor(e: Eid, f: Fid)
    | Broken(e: Eid)
    | Left(e: Eid)
    | Submitted(i: Iid, e: Eid)
    | Taken(i: Iid, e: Eid)
    | Refused(i: Iid)
    | WasCancelled(i: Iid)
    | WasCalled(i: Iid, e: Eid)
    | HasReturned(i: Iid)

  predicate Holds(s: State, fact: Fact) {
    match fact
    case Built(e, t, outer) => e < |s.execs| && s.execs[e].owner == t && s.execs[e].outer == outer
    case Resolved(f) => f in s.done
    case WaitsFor(e, f) => e < |s.execs| && s.execs[e].future == Some(f)
    case Broken(e) => e < |s.execs| && s.execs[e].broken
    case Left(e) => e < |s.execs| && s.execs[e].pc.Exited?
    case Submitted(i, e) => i < |s.items| && s.items[i].start == e
    case Taken(i, e) => i < |s.items| && s.items[i].walk == Accepted(e)
    case Refused(i) => i < |s.items| && s.items[i].walk.Rejected?
    case WasCancelled(i) => i < |s.items| && s.items[i].future.Cancelled?
    case WasCalled(i, e) => e < |s.execs| && i in s.execs[e].called
    case HasReturned(i) => i < |s.items| && s.items[i].future.Finished?
  }

  /** The step, taken in s, brings the fact about: which thread may do what, when, is in here once more. */
  predicate Causes(s: State, step: Step, fact: Fact)
    requires Enabled(s, step)
  {
    match fact
    case Built(e, t, outer) => step == Create(t, outer) && e == |s.execs|
    case Resolved(f) => step == Complete(f)
    case WaitsFor(e, f) => step == BeginRun(e, f)
    case Broken(e) => step == Fire(e) || (step.BeginRun? && step.e == e && step.f in s.done)
    case Left(e) => step == Look(e) && s.execs[e].broken && s.execs[e].queue == []
    case Submitted(i, e) => step.Submit? && step.e == e && step.thread != s.execs[e].owner && i == |s.items|
    case Taken(i, e) =>
      step == WalkOn(i) && s.items[i].walk == Walking(e) && Nearest(s.execs, s.items[i].start) == Some(e)
    case Refused(i) =>
      step == WalkOn(i) && s.execs[s.items[i].walk.at].outer.None? && Nearest(s.execs, s.items[i].start) == None
    case WasCancelled(i) => step == Cancel(i)
    case WasCalled(i, e) => step == Claim(e) && s.execs[e].pc == Holding(i) && s.items[i].future.Pending?
    case HasReturned(i) => step.Return? && s.execs[step.e].pc == Calling(i)
  }

  /** Some step that the run took brought the fact about. */
  ghost predicate Happened(s: State, steps: seq<Step>, fact: Fact)
    decreases |steps|
  {
    steps != [] && (Brings(s, steps[0], fact) || Happened(Next(s, steps[0]), steps[1..], fact))
  }

  predicate Brings(s: State, step: Step, fact: Fact) {
    Enabled(s, step) && Causes(s, step, fact)
  }

  lemma SubmittedStep(s: State, step: Step, i: Iid, e: Eid)
    requires Enabled(s, step)
    ensures Holds(Next(s, step), Submitted(i, e)) <==> Holds(s, Submitted(i, e)) || Causes(s, step, Submitted(i, e))
  {
  }

  lemma OtherFutures(s: State, step: Step, i: Iid)
    requires Enabled(s, step) && i < |s.items| && !step.Claim? && !step.Return? && step != Cancel(i)
    ensures i < |Next(s, step).items| && Next(s, step).items[i].future == s.items[i].future
  {
  }

  /** The owner's steps leave it to Cancel to cancel. */
  lemma OwnersFutures(s: State, step: Step, i: Iid)
    requires Enabled(s, step) && i < |s.items| && (step.Claim? || step.Return?) && ExecInv(s, step.e)
    ensures i < |Next(s, step).items|
    ensures Next(s, step).items[i].future.Cancelled? <==> s.items[i].future.Cancelled?
    ensures Next(s, step).items[i].future.Finished? <==>
              s.items[i].future.Finished? || (step.Return? && s.execs[step.e].pc == Calling(i))
  {
  }

  /** Only Cancel cancels, and only a function's return finishes. */
  lemma FutureStep(s: State, step: Step, i: Iid)
    requires Inv(s) && Enabled(s, step)
    ensures Holds(Next(s, step), WasCancelled(i)) <==> Holds(s, WasCancelled(i)) || Causes(s, step, WasCancelled(i))
    ensures Holds(Next(s, step), HasReturned(i)) <==> Holds(s, HasReturned(i)) || Causes(s, step, HasReturned(i))
  {
    if i >= |s.items| {
      NewItems(s, step);
    } else if step.Claim? || step.Return? {
      OwnersFutures(s, step, i);
    } else if step != Cancel(i) {
      OtherFutures(s, step, i);
    }
  }

  lemma NewItems(s: State, step: Step)
    requires Inv(s) && Enabled(s, step)
    ensures var items := Next(s, step).items;
            forall i :: |s.items| <= i < |items| ==> items[i].future.Pending?
    ensures step.Return? ==> s.execs[step.e].pc.item < |s.items|
  {
  }

  lemma OtherWalks(s: State, step: Step, i: Iid)
    requires Enabled(s, step) && step != WalkOn(i)
    ensures forall e :: Holds(Next(s, step), Taken(i, e)) <==> Holds(s, Taken(i, e))
    ensures Holds(Next(s, step), Refused(i)) <==> Holds(s, Refused(i))
  {
  }

  lemma {:induction false} NearestIsUnbroken(execs: seq<Exec>, e: Eid)
    ensures Nearest(execs, e).Some? ==>
              Nearest(execs, e).value < |execs| && !execs[Nearest(execs, e).value].broken
  {
    if Nearest(execs, e).Some? && execs[e].broken {
      NearestIsUnbroken(execs, execs[e].outer.value);
    }
  }

  lemma WalkStep(s: State, step: Step, fact: Fact)
    requires Inv(s) && Enabled(s, step) && (fact.Taken? || fact.Refused?)
    ensures Holds(Next(s, step), fact) <==> Holds(s, fact) || Causes(s, step, fact)
  {
    var i := fact.i;
    if step == WalkOn(i) {
      var m := s.items[i];
      assert ItemInv(s, i) && ExecInv(s, m.walk.at);
      PassedNearest(s.execs, m.start, m.walk.at);
      NearestIsUnbroken(s.execs, m.walk.at);
    } else {
      OtherWalks(s, step, i);
    }
  }

  lemma BuiltStep(s: State, step: Step, e: Eid, t: Tid, outer: Option<Eid>)
    requires Enabled(s, step)
    ensures Holds(Next(s, step), Built(e, t, outer))
            <==> Holds(s, Built(e, t, outer)) || Causes(s, step, Built(e, t, outer))
  {
  }

  lemma BrokenStep(s: State, step: Step, e: Eid)
    requires Enabled(s, step)
    ensures Holds(Next(s, step), Broken(e)) <==> Holds(s, Broken(e)) || Causes(s, step, Broken(e))
  {
  }

  lemma WaitsStep(s: State, step: Step, e: Eid, f: Fid)
    requires Inv(s) && Enabled(s, step)
    ensures Holds(Next(s, step), WaitsFor(e, f)) <==> Holds(s, WaitsFor(e, f)) || Causes(s, step, WaitsFor(e, f))
  {
    if step.BeginRun? && step.e == e {
      assert ExecInv(s, e);
    } else {
      OtherFuture(s, step, e);
    }
  }

  lemma OtherFuture(s: State, step: Step, e: Eid)
    requires Enabled(s, step) && !(step.BeginRun? && step.e == e)
    ensures e < |s.execs| ==> e < |Next(s, step).execs| && Next(s, step).execs[e].future == s.execs[e].future
    ensures |s.execs| <= e < |Next(s, step).execs| ==> Next(s, step).execs[e].future == None
  {
  }

  lemma LeftStep(s: State, step: Step, e: Eid)
    requires Enabled(s, step)
    ensures Holds(Next(s, step), Left(e)) <==> Holds(s, Left(e)) || Causes(s, step, Left(e))
  {
  }

  lemma CalledStep(s: State, step: Step, i: Iid, e: Eid)
    requires Enabled(s, step)
    ensures Holds(Next(s, step), WasCalled(i, e)) <==> Holds(s, WasCalled(i, e)) || Causes(s, step, WasCalled(i, e))
  {
  }

  lemma StepFact(s: State, step: Step, fact: Fact)
    requires Inv(s)
    ensures Holds(Next(s, step), fact) <==> Holds(s, fact) || Brings(s, step, fact)
  {
    if Enabled(s, step) {
      match fact
      case Built(e, t, outer) => BuiltStep(s, step, e, t, outer);
      case Resolved(f) =>
      case WaitsFor(e, f) => WaitsStep(s, step, e, f);
      case Broken(e) => BrokenStep(s, step, e);
      case Left(e) => LeftStep(s, step, e);
      case Submitted(i, e) => SubmittedStep(s, step, i, e);
      case Taken(_, _) => WalkStep(s, step, fact);
      case Refused(_) => WalkStep(s, step, fact);
      case WasCancelled(i) => FutureStep(s, step, i);
      case WasCalled(i, e) => CalledStep(s, step, i, e);
      case HasReturned(i) => FutureStep(s, step, i);
    }
  }

  lemma {:induction false} FactFrom(s: State, steps: seq<Step>, fact: Fact)
    requires Inv(s)
    ensures Holds(Run(s, steps), fact) <==> Holds(s, fact) || Happened(s, steps, fact)
    decreases |steps|
  {
    if steps != [] {
      StepFact(s, steps[0], fact);
      StepKeepsInv(s, steps[0]);
      FactFrom(Next(s, steps[0]), steps[1..], fact);
    }
  }

  /** Over every run: an item's future is cancelled if and only if somebody cancelled it, its function was called if
      and only if its owner claimed it uncancelled, an executor is broken if and only if its done callback ran, or the
      future was done when it began to wait; and so on for every fact. */
  lemma {:induction false} FactExactly(steps: seq<Step>, fact: Fact)
    ensures Holds(Run(START, steps), fact) <==> Happened(START, steps, fact)
  {
    FactFrom(START, steps, fact);
  }

  lemma {:induction false} DistinctCounts(q: seq<Iid>, i: Iid)
    requires Distinct(q)
    ensures multiset(q)[i] == if i in q then 1 else 0
  {
    if q != [] {
      assert q == q[..|q| - 1] + [q[|q| - 1]];
      DistinctCounts(q[..|q| - 1], i);
    }
  }

  /** Every item that an executor accepted before it left has had its function called, exactly once, and the function
      has returned, if nobody cancelled it; and has not, and never will, if somebody did. */
  lemma {:induction false} EveryItemIsCalled(before: seq<Step>, after: seq<Step>, e: Eid, i: Iid)
    requires e < |Run(START, before).execs| && Run(START, before).execs[e].pc.Exited?
    requires i in Run(START, before).execs[e].accepted
    ensures
      var s := Run(START, before + after);
      && e < |s.execs|
      && multiset(s.execs[e].called)[i] == (if Happened(START, before + after, WasCancelled(i)) then 0 else 1)
      && (!Happened(START, before + after, WasCancelled(i)) ==> Happened(START, before + after, HasReturned(i)))
  {
    var s := Run(START, before + after);
    RunsOn(START, before, after);
    ExitIsFinal(before, after, e);
    Reachable(before + after);
    assert ExecInv(s, e);
    CalledAtExit(s.items, s.execs[e], i);
    FactExactly(before + after, WasCancelled(i));
    FactExactly(before + after, HasReturned(i));
  }

  lemma SettledFirst(items: seq<Item>, x: Exec)
    requires Conserved(items, x) && Distinct(x.accepted)
    ensures Distinct(x.settled)
    ensures x.pc.Exited? ==> x.called == Uncancelled(items, x.settled)
  {
    assert x.settled == x.accepted[..|x.settled|];
  }

  lemma CalledAtExit(items: seq<Item>, x: Exec, i: Iid)
    requires Conserved(items, x) && Distinct(x.accepted) && x.pc.Exited? && i in x.settled
    ensures i < |items| && (items[i].future.Cancelled? || items[i].future.Finished?)
    ensures multiset(x.called)[i] == if items[i].future.Cancelled? then 0 else 1
  {
    SettledFirst(items, x);
    UncancelledIn(items, x.settled);
    DistinctCounts(x.called, i);
  }

  lemma {:induction false} RunsOn(s: State, first: seq<Step>, second: seq<Step>)
    ensures Run(s, first + second) == Run(Run(s, first), second)
    decreases |first|
  {
    if first == [] {
      assert first + second == second;
    } else {
      assert (first + second)[1..] == first[1..] + second;
      RunsOn(Next(s, first[0]), first[1..], second);
    }
  }

  // ---- nobody is stuck ---------------------------------------------------------------

  /** An owner that is in run_until_future can always take its next step, unless it waits with nothing to do, or is
      inside a function of its own in which it runs another executor; and every submission can walk on until it is
      settled. */
  lemma {:induction false} OwnersCanMove(steps: seq<Step>, e: Eid)
    requires e < |Run(START, steps).execs| && Inside(Run(START, steps).execs[e])
    ensures
      var s := Run(START, steps);
      var x := s.execs[e];
      || Enabled(s, Look(e)) || Enabled(s, Wake(e)) || Enabled(s, Claim(e)) || Enabled(s, Return(e))
      || (x.pc == Waiting(false) && x.queue == [] && !x.broken)
      || (x.pc.Calling? && exists k <- Frames(s, x.owner) :: k != e)
  {
    Reachable(steps);
    var s := Run(START, steps);
    assert ExecInv(s, e) && StackInv(s, s.execs[e].owner);
    OwnerCanMove(s, e);
  }

  lemma OwnerCanMove(s: State, e: Eid)
    requires e < |s.execs| && ExecInv(s, e) && Inside(s.execs[e])
    requires StackInv(s, s.execs[e].owner) && e in Frames(s, s.execs[e].owner)
    ensures
      var x := s.execs[e];
      || Enabled(s, Look(e)) || Enabled(s, Wake(e)) || Enabled(s, Claim(e)) || Enabled(s, Return(e))
      || (x.pc == Waiting(false) && x.queue == [] && !x.broken)
      || (x.pc.Calling? && exists k <- Frames(s, x.owner) :: k != e)
  {
    var fs := Frames(s, s.execs[e].owner);
    var j :| 0 <= j < |fs| && fs[j] == e;
    if j < |fs| - 1 {
      assert fs[|fs| - 1] in fs;
    } else {
      TopCanMove(s, e);
    }
  }

  lemma TopCanMove(s: State, e: Eid)
    requires OnTop(s, e) && ExecInv(s, e) && Inside(s.execs[e])
    ensures || Enabled(s, Look(e)) || Enabled(s, Wake(e)) || Enabled(s, Claim(e)) || Enabled(s, Return(e))
            || (s.execs[e].pc == Waiting(false) && s.execs[e].queue == [] && !s.execs[e].broken)
  {
    if s.execs[e].pc.Holding? || s.execs[e].pc.Calling? {
      HeldItem(s, e);
    }
  }

  /** A submission can always go on until it is accepted or refused, and its future can be cancelled exactly until its
      function is called. */
  lemma {:induction false} SubmissionsCanMove(steps: seq<Step>, i: Iid)
    requires i < |Run(START, steps).items|
    ensures
      var s := Run(START, steps);
      && (Enabled(s, WalkOn(i)) <==> !Holds(s, Refused(i)) && forall e :: !Holds(s, Taken(i, e)))
      && (Enabled(s, Cancel(i)) <==> !Holds(s, WasCancelled(i)) && forall e :: !Holds(s, WasCalled(i, e)))
  {
    var s := Run(START, steps);
    Reachable(steps);
    assert ItemInv(s, i) && i in [i];
    if e :| Holds(s, Taken(i, e)) {
      assert s.items[i].walk.Accepted?;
    }
    if s.items[i].walk.Accepted? {
      assert Holds(s, Taken(i, s.items[i].walk.on));
      if s.items[i].future.InCall? || s.items[i].future.Finished? {
        TakenIsCalled(s, i, s.items[i].walk.on);
        assert Holds(s, WasCalled(i, s.items[i].walk.on));
      }
    }
    if e :| Holds(s, WasCalled(i, e)) {
      CalledIsTaken(s, i, e);
    }
  }

  lemma CalledIsTaken(s: State, i: Iid, e: Eid)
    requires Inv(s) && e < |s.execs| && i in s.execs[e].called
    ensures i < |s.items| && (s.items[i].future.InCall? || s.items[i].future.Finished?)
  {
    var x := s.execs[e];
    assert ExecInv(s, e);
    SettledFirst(s.items, x);
    UncancelledIn(s.items, x.settled);
  }

  lemma TakenIsCalled(s: State, i: Iid, e: Eid)
    requires Inv(s) && i < |s.items| && s.items[i].walk == Accepted(e)
    requires s.items[i].future.InCall? || s.items[i].future.Finished?
    ensures e < |s.execs| && i in s.execs[e].called
  {
    assert ItemInv(s, i) && ExecInv(s, e);
    var x := s.execs[e];
    SettledFirst(s.items, x);
    UncancelledIn(s.items, x.settled);
    assert i in x.settled || i in Current(x) || i in x.queue;
  }
}
