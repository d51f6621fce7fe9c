/**
 What a state of the cancellation protocol says about the run that led to it: each fact holds if and only if some step
 of the run brought it about.
 */
module CancellationHistory {
  import opened Contexts
  import opened Cancellation
  import opened CancellationInvariant

  // ---- requests that meet the handler's last await --------------------------------------

  /** The step makes a request that lands in task d: it is somebody's, or that of the handler that it enters. */
  predicate Asks(s: State, step: Step, d: TaskId) {
    && Enabled(s, step)
    && match step
       case Request(t) => Landing(s, t) == d
       case Resume(t) =>
         && s.tasks[t].at.Shielded? && Doomed(s.tasks[t])
         && var list := s.calls[s.tasks[t].at.call].list;
         list != [] && list[0] < |s.tasks| && Landing(s, list[0]) == d
       case _ => false
  }

  /** The step's request meets the handler of call c awaiting the executor future; pending asks for that to be in
      time. */
  predicate Meets(s: State, step: Step, c: CallId, pending: bool) {
    && c < |s.calls| && s.calls[c].owner < |s.tasks| && s.tasks[s.calls[c].owner].at == OnFuture(c)
    && Asks(s, step, s.calls[c].owner)
    && (pending ==> s.calls[c].future.Pending?)
  }

  /** What such a step leaves behind: a future cancelled by a request if it was pending, and in any case CancelledError
      thrown into the await, or about to be. */
  predicate Marked(s: State, c: CallId, pending: bool) {
    && c < |s.calls| && s.calls[c].owner < |s.tasks|
    && var k := s.tasks[s.calls[c].owner];
    if pending then s.calls[c].future == Revoked(false)
    else OnFuture(c) in k.throws || (k.at == OnFuture(c) && Doomed(k))
  }

  lemma LandMarks(s: State, d: TaskId, c: CallId, pending: bool)
    requires Inv(s) && d < |s.tasks| && !s.tasks[d].at.Over?
    ensures Marked(Land(s, d), c, pending) <==>
              || Marked(s, c, pending)
              || (c < |s.calls| && s.calls[c].owner == d && s.tasks[d].at == OnFuture(c)
                  && (pending ==> s.calls[c].future.Pending?))
  {
    assert TaskOk(s, d);
    if c < |s.calls| {
      assert CallOk(s, c);
    }
  }

  /** Of the owner's step only CancelledError thrown into the await leaves a mark, and no other task's step does. */
  lemma OneTaskMarks(s: State, s': State, t: TaskId, k: Task, c: CallId, pending: bool)
    requires t < |s.tasks| && s'.tasks == s.tasks[t := k] && |s'.calls| == |s.calls|
    requires c < |s.calls| ==>
               && s'.calls[c].owner == s.calls[c].owner
               && (s'.calls[c].future == Revoked(false) <==> s.calls[c].future == Revoked(false))
    requires var was := s.tasks[t];
             OnFuture(c) in k.throws || (k.at == OnFuture(c) && Doomed(k))
             <==> OnFuture(c) in was.throws || (was.at == OnFuture(c) && Doomed(was))
    ensures Marked(s', c, pending) <==> Marked(s, c, pending)
  {
  }

  lemma NobodyMarks(s: State, t: TaskId, c: CallId, pending: bool)
    requires Inv(s) && Enabled(s, Resume(t)) && s.tasks[t].at.Shielded? && Doomed(s.tasks[t])
    requires s.calls[s.tasks[t].at.call].list == []
    ensures Marked(ResumeTask(s, t), c, pending) <==> Marked(s, c, pending)
  {
    assert TaskOk(s, t);
    OneTaskMarks(s, ResumeTask(s, t), t, ResumeTask(s, t).tasks[t], c, pending);
  }

  lemma FoundMarks(s: State, t: TaskId, c: CallId, pending: bool, c0: CallId, child: TaskId, d: TaskId)
    requires Inv(s) && Enabled(s, Resume(t)) && s.tasks[t].at == Shielded(c0) && Doomed(s.tasks[t])
    requires s.calls[c0].list != [] && child == s.calls[c0].list[0] < |s.tasks| && d == Landing(s, child)
    ensures Marked(ResumeTask(s, t), c, pending) <==>
              || Marked(s, c, pending)
              || (c < |s.calls| && s.calls[c].owner == d && s.tasks[d].at == OnFuture(c)
                  && (pending ==> s.calls[c].future.Pending?))
  {
    HandleParts(s, t, c0, child, d);
    LandingIsAlive(s, child);
    LandMarks(s, d, c, pending);
    var k := TakenUp(s.tasks[t]).(at := OnChild(c0, child));
    OneTaskMarks(Land(s, d), ResumeTask(s, t), t, k, c, pending);
  }

  lemma HandlerMarks(s: State, t: TaskId, c: CallId, pending: bool)
    requires Inv(s) && Enabled(s, Resume(t)) && s.tasks[t].at.Shielded? && Doomed(s.tasks[t])
    ensures Marked(ResumeTask(s, t), c, pending) <==> Marked(s, c, pending) || Meets(s, Resume(t), c, pending)
  {
    var c0 := s.tasks[t].at.call;
    if s.calls[c0].list == [] {
      NobodyMarks(s, t, c, pending);
    } else {
      assert TaskOk(s, t) && CallOk(s, c0) && ListOk(s, c0);
      var child := s.calls[c0].list[0];
      assert child in s.calls[c0].list && Registered(s, child, c0);
      FoundMarks(s, t, c, pending, c0, child, Landing(s, child));
    }
  }

  lemma ResumeMarks(s: State, t: TaskId, c: CallId, pending: bool)
    requires Inv(s) && Enabled(s, Resume(t))
    ensures Marked(ResumeTask(s, t), c, pending) <==> Marked(s, c, pending) || Meets(s, Resume(t), c, pending)
  {
    var s', k := ResumeTask(s, t), s.tasks[t];
    if k.at.Shielded? && Doomed(k) {
      HandlerMarks(s, t, c, pending);
    } else {
      assert TaskOk(s, t);
      OneTaskMarks(s, s', t, s'.tasks[t], c, pending);
    }
  }

  lemma ActMarks(s: State, t: TaskId, move: Move, c: CallId, pending: bool)
    requires Inv(s) && Enabled(s, Act(t, move))
    ensures Marked(ActTask(s, t, move), c, pending) <==> Marked(s, c, pending)
  {
    assert TaskOk(s, t);
    if move.CallSync? {
      assert c < |s.calls| ==> CallOk(s, c);
    } else {
      OneTaskMarks(s, ActTask(s, t, move), t, ActTask(s, t, move).tasks[t], c, pending);
    }
  }

  lemma OtherMarks(s: State, step: Step, c: CallId, pending: bool)
    requires Inv(s) && Enabled(s, step) && !step.Request? && !step.Resume?
    ensures Marked(Next(s, step), c, pending) <==> Marked(s, c, pending)
  {
    assert c < |s.calls| ==> CallOk(s, c);
    match step
    case Wake(t) =>
      assert TaskOk(s, t);
      OneTaskMarks(s, Next(s, step), t, Next(s, step).tasks[t], c, pending);
    case Act(t, move) => ActMarks(s, t, move, c, pending);
    case _ =>
  }

  lemma StepMarks(s: State, step: Step, c: CallId, pending: bool)
    requires Inv(s)
    ensures Marked(Next(s, step), c, pending) <==> Marked(s, c, pending) || Meets(s, step, c, pending)
  {
    if Enabled(s, step) {
      match step
      case Request(t) =>
        LandingIsAlive(s, t);
        LandMarks(s, Landing(s, t), c, pending);
      case Resume(t) => ResumeMarks(s, t, c, pending);
      case _ => OtherMarks(s, step, c, pending);
    }
  }

  // ---- facts ---------------------------------------------------------------------------

  /** Facts about a call that no step takes back. */
  datatype Fact =
    | Entered(c: CallId)              // CancelledError entered the handler
    | WentOn(c: CallId)               // it let its task finish, and goes on to await the executor future
    | Withdrawn(c: CallId)            // it cancelled the executor future
    | Missed(c: CallId)               // a request met it awaiting that future
    | Cut(c: CallId)                  // and cancelled it thereby
    | HasReturned(c: CallId, n: int)  // the function returned or raised

  predicate Holds(s: State, fact: Fact) {
    && fact.c < |s.calls|
    && var k := s.calls[fact.c];
    match fact
    case Entered(_) => !k.look.Unseen?
    case WentOn(_) => k.spared == Some(true) && k.late == Some(false)
    case Withdrawn(_) => k.future == Revoked(true)
    case Missed(c) => Marked(s, c, false)
    case Cut(c) => Marked(s, c, true)
    case HasReturned(_, n) => k.worker == Returned(n)
  }

  /** The task that a handler awaited ended without being cancelled, and no request reached the handler meanwhile. */
  predicate Spared(s: State, t: TaskId) {
    && t < |s.tasks| && s.tasks[t].at.OnChild? && s.tasks[t].at.child < |s.tasks|
    && s.tasks[s.tasks[t].at.child].at == Over(false) && !s.tasks[t].must
  }

  /** The step, taken in s, brings the fact about. */
  predicate Brings(s: State, step: Step, fact: Fact) {
    && Enabled(s, step) && fact.c < |s.calls|
    && var k, t := s.calls[fact.c], s.calls[fact.c].owner;
    match fact
    case Entered(c) => step == Resume(t) && s.tasks[t].at == Shielded(c) && Doomed(s.tasks[t])
    case WentOn(c) =>
      step == Resume(t) && s.tasks[t].at.OnChild? && s.tasks[t].at.call == c && Spared(s, t) && k.future.Pending?
    case Withdrawn(c) =>
      && step == Resume(t) && k.future.Pending?
      && ((s.tasks[t].at == Shielded(c) && Doomed(s.tasks[t]) && k.list == [])
          || (s.tasks[t].at.OnChild? && s.tasks[t].at.call == c && !Spared(s, t)))
    case Missed(c) => Meets(s, step, c, false)
    case Cut(c) => Meets(s, step, c, true)
    case HasReturned(c, n) => step == Return(c, n)
  }

  /** Some step of the run brings the fact about. */
  ghost predicate Happened(s: State, steps: seq<Step>, fact: Fact)
    decreases |steps|
  {
    steps != [] && (Brings(s, steps[0], fact) || Happened(Next(s, steps[0]), steps[1..], fact))
  }

  predicate Plain(fact: Fact) {
    fact.Entered? || fact.WentOn? || fact.Withdrawn? || fact.HasReturned?
  }

  /** The handler after `await task`. */
  lemma AfterChildFact(s: State, t: TaskId, c: CallId, fact: Fact)
    requires Inv(s) && Enabled(s, Resume(t)) && s.tasks[t].at.OnChild? && s.tasks[t].at.call == c
    requires c == fact.c && Plain(fact)
    ensures Holds(Next(s, Resume(t)), fact) <==> Holds(s, fact) || Brings(s, Resume(t), fact)
  {
    assert TaskOk(s, t) && CallOk(s, c);
    assert Spared(s, t) <==> !Doomed(s.tasks[t]);
  }

  lemma HandlerFact(s: State, t: TaskId, c: CallId, fact: Fact)
    requires Inv(s) && Enabled(s, Resume(t)) && s.tasks[t].at == Shielded(c) && Doomed(s.tasks[t])
    requires c == fact.c && Plain(fact)
    ensures Holds(Next(s, Resume(t)), fact) <==> Holds(s, fact) || Brings(s, Resume(t), fact)
  {
    assert TaskOk(s, t) && CallOk(s, c) && ListOk(s, c);
    if s.calls[c].list != [] {
      var child := s.calls[c].list[0];
      assert child in s.calls[c].list && Registered(s, child, c);
      HandleParts(s, t, c, child, Landing(s, child));
    }
  }

  lemma DeliveredFact(s: State, t: TaskId, c: CallId, fact: Fact)
    requires Inv(s) && Enabled(s, Resume(t)) && CallOf(s.tasks[t].at) == Some(c) && !s.tasks[t].at.OnChild?
    requires s.tasks[t].at.OnFuture? || !Doomed(s.tasks[t])
    requires c == fact.c && Plain(fact)
    ensures Holds(Next(s, Resume(t)), fact) <==> Holds(s, fact) || Brings(s, Resume(t), fact)
  {
    assert TaskOk(s, t) && CallOk(s, c);
  }

  /** Any other task's step, which at most lists a task in the call, or revokes its future by a request. */
  predicate Undisturbed(k: Call, k': Call) {
    && k'.owner == k.owner && k'.look == k.look && k'.spared == k.spared && k'.late == k.late && k'.worker == k.worker
    && (k'.future == Revoked(true) <==> k.future == Revoked(true))
  }

  lemma LandUndisturbed(s: State, d: TaskId, c: CallId)
    requires d < |s.tasks| && c < |s.calls|
    ensures c < |Land(s, d).calls| && Undisturbed(s.calls[c], Land(s, d).calls[c])
  {
  }

  lemma OthersUndisturbed(s: State, t: TaskId, c: CallId)
    requires Inv(s) && Enabled(s, Resume(t)) && CallOf(s.tasks[t].at) != Some(c) && c < |s.calls|
    ensures c < |ResumeTask(s, t).calls| && Undisturbed(s.calls[c], ResumeTask(s, t).calls[c])
  {
    assert TaskOk(s, t);
    if s.tasks[t].at.Shielded? && Doomed(s.tasks[t]) && s.calls[s.tasks[t].at.call].list != [] {
      var c0 := s.tasks[t].at.call;
      assert CallOk(s, c0) && ListOk(s, c0);
      var child := s.calls[c0].list[0];
      assert child in s.calls[c0].list && Registered(s, child, c0);
      HandleParts(s, t, c0, child, Landing(s, child));
      LandUndisturbed(s, Landing(s, child), c);
    }
  }

  lemma ResumeFact(s: State, t: TaskId, fact: Fact)
    requires Inv(s) && Enabled(s, Resume(t)) && Plain(fact)
    ensures Holds(Next(s, Resume(t)), fact) <==> Holds(s, fact) || Brings(s, Resume(t), fact)
  {
    var at := s.tasks[t].at;
    if fact.c >= |s.calls| {
      ResumeCalls(s, t);
    } else if CallOf(at) != Some(fact.c) {
      OthersUndisturbed(s, t, fact.c);
    } else if at.OnChild? {
      AfterChildFact(s, t, fact.c, fact);
    } else if at.Shielded? && Doomed(s.tasks[t]) {
      HandlerFact(s, t, fact.c, fact);
    } else {
      DeliveredFact(s, t, fact.c, fact);
    }
  }

  lemma ResumeCalls(s: State, t: TaskId)
    requires Enabled(s, Resume(t))
    ensures |ResumeTask(s, t).calls| == |s.calls|
  {
  }

  /** The coroutine's own code, wake-ups and workers. */
  lemma OtherFact(s: State, step: Step, fact: Fact)
    requires Inv(s) && Enabled(s, step) && !step.Resume? && !step.Request? && Plain(fact)
    ensures Holds(Next(s, step), fact) <==> Holds(s, fact) || Brings(s, step, fact)
  {
    assert fact.c < |s.calls| ==> CallOk(s, fact.c);
  }

  lemma StepFact(s: State, step: Step, fact: Fact)
    requires Inv(s)
    ensures Holds(Next(s, step), fact) <==> Holds(s, fact) || Brings(s, step, fact)
  {
    if fact.Missed? || fact.Cut? {
      StepMarks(s, step, fact.c, fact.Cut?);
    } else if Enabled(s, step) {
      match step
      case Request(t) =>
        if fact.c < |s.calls| {
          LandUndisturbed(s, Landing(s, t), fact.c);
        }
      case Resume(t) => ResumeFact(s, t, fact);
      case _ => OtherFact(s, step, fact);
    }
  }

  lemma {:induction false} FactFrom(s: State, steps: seq<Step>, fact: Fact)
    requires Inv(s)
    ensures Holds(Run(s, steps), fact) <==> Holds(s, fact) || Happened(s, steps, fact)
    decreases |steps|
  {
    if steps != [] {
      StepFact(s, steps[0], fact);
      StepKeepsInv(s, steps[0]);
      FactFrom(Next(s, steps[0]), steps[1..], fact);
    }
  }

  /** Over every run, a fact holds if and only if some step brought it about. */
  lemma {:induction false} FactExactly(steps: seq<Step>, fact: Fact)
    ensures Holds(Run(START, steps), fact) <==> Happened(START, steps, fact)
  {
    FactFrom(START, steps, fact);
  }
}
