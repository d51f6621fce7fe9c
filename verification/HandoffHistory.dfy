/** What a state of the hand-off protocol says about the run that led to it, and what the call thereby gives back. */
module HandoffHistory {
  import opened Contexts
  import opened Programs
  import opened ListRemoval
  import opened Handoff
  import P = ExecutorProtocol

  /** Facts about call i that no step takes back. */
  datatype Fact =
    | Opened(i: nat, list: Option<nat>, ctx: Context)
    | ToMain(i: nat)
    | TurnedDown(i: nat)
    | ToNew(i: nat)
    | Begun(i: nat)
    | EndedWith(i: nat, out: Outcome)
    | Answered(i: nat)
    | LoopIsOver(i: nat)
    | GivenBack(i: nat)

  predicate Holds(s: State, fact: Fact) {
    fact.i < |s.calls| && Says(s.calls[fact.i], fact)
  }

  predicate Says(c: Call, fact: Fact) {
    match fact
    case Opened(_, list, ctx) => c.list == list && c.initial == ctx
    case ToMain(_) => c.path.ViaMain?
    case TurnedDown(_) => c.path.Declined? || c.path.ViaNew?
    case ToNew(_) => c.path.ViaNew?
    case Begun(_) => !c.stage.NotStarted?
    case EndedWith(_, out) => c.outcome == Some(out)
    case Answered(_) => c.result.Some?
    case LoopIsOver(_) => c.stage.Over?
    case GivenBack(_) => c.restored.Some?
  }

  /** The loop took the awaitable: it was running, and call_soon_threadsafe did not raise. */
  predicate Taken(step: Step) {
    step.TryMain? && step.running && step.accepts
  }

  predicate Causes(s: State, step: Step, fact: Fact) {
    match fact
    case Opened(i, list, ctx) => step.Open? && step.list == list && step.ctx == ctx && i == |s.calls|
    case ToMain(i) => Taken(step) && step.c == i
    case TurnedDown(i) => step.TryMain? && step.c == i && !Taken(step)
    case ToNew(i) => step == SubmitNew(i)
    case Begun(i) => step.Restore? && step.c == i
    case EndedWith(i, out) => step == End(i, out)
    case Answered(i) => step == Resolve(i)
    case LoopIsOver(i) => step == LoopOver(i)
    case GivenBack(i) => step == Finish(i) || step == Abandon(i)
  }

  predicate Brings(s: State, step: Step, fact: Fact) {
    Enabled(s, step) && Causes(s, step, fact)
  }

  /** Some step that the run took brought the fact about. */
  ghost predicate Happened(s: State, steps: seq<Step>, fact: Fact)
    decreases |steps|
  {
    steps != [] && (Brings(s, steps[0], fact) || Happened(Next(s, steps[0]), steps[1..], fact))
  }

  /** What a step of the call itself does not find done already. */
  predicate Ready(c: Call, step: Step) {
    && (step.TryMain? ==> c.path.Undecided?)
    && (step.SubmitNew? ==> c.path.Declined?)
    && (step.Restore? ==> c.stage.NotStarted?)
    && (step.Restore? || step.Work? || step.End? ==> c.outcome.None?)
    && (step.Resolve? ==> c.outcome.Some? && c.result.None?)
    && (step.Work? || step.End? || step.Unlist? || step.Capture? || step.Resolve? || step.LoopOver? ==>
          !c.stage.NotStarted? && !c.stage.Over?)
  }

  lemma EnabledIsReady(s: State, step: Step)
    requires OfCall(step) && step.c < |s.calls| == |s.p.execs| && CallInv(s, step.c) && Enabled(s, step)
    ensures Ready(s.calls[step.c], step)
  {
  }

  /** The dispatch, and the end of the call. */
  lemma DispatchSays(c: Call, step: Step, fact: Fact)
    requires OfCall(step) && step.c == fact.i && Ready(c, step)
    requires fact.Opened? || fact.ToMain? || fact.TurnedDown? || fact.ToNew? || fact.GivenBack?
    ensures Says(Advance(c, step), fact) <==> Says(c, fact) || Causes(START, step, fact)
  {
  }

  /** The loop's side. */
  lemma LoopSays(c: Call, step: Step, fact: Fact)
    requires OfCall(step) && step.c == fact.i && Ready(c, step)
    requires fact.Begun? || fact.EndedWith? || fact.Answered? || fact.LoopIsOver?
    ensures Says(Advance(c, step), fact) <==> Says(c, fact) || Causes(START, step, fact)
  {
  }

  lemma OwnFact(s: State, step: Step, fact: Fact)
    requires fact.i < |s.calls| == |s.p.execs| && CallInv(s, fact.i)
    requires Enabled(s, step) && OfCall(step) && step.c == fact.i
    ensures Holds(Next(s, step), fact) <==> Holds(s, fact) || Causes(s, step, fact)
  {
    EnabledIsReady(s, step);
    OwnCall(s, step, fact.i);
    SaysNext(s.calls[fact.i], step, fact);
  }

  lemma SaysNext(c: Call, step: Step, fact: Fact)
    requires OfCall(step) && step.c == fact.i && Ready(c, step)
    ensures Says(Advance(c, step), fact) <==> Says(c, fact) || Causes(START, step, fact)
  {
    if fact.Begun? || fact.EndedWith? || fact.Answered? || fact.LoopIsOver? {
      LoopSays(c, step, fact);
    } else {
      DispatchSays(c, step, fact);
    }
  }

  lemma OwnCall(s: State, step: Step, i: nat)
    requires i < |s.calls| && Enabled(s, step) && OfCall(step) && step.c == i
    ensures |Next(s, step).calls| == |s.calls| && Next(s, step).calls[i] == Advance(s.calls[i], step)
  {
  }

  lemma OtherCalls(s: State, step: Step, i: nat)
    requires Enabled(s, step) && !(OfCall(step) && step.c == i)
    ensures |Next(s, step).calls| == |s.calls| + if step.Open? then 1 else 0
    ensures i < |s.calls| ==> Next(s, step).calls[i] == s.calls[i]
    ensures i == |s.calls| && step.Open? ==>
              Next(s, step).calls[i] ==
              Call(Undecided, 0, NotStarted, step.list, step.ctx, step.ctx, step.ctx, None, None, None, None)
  {
  }

  lemma OtherCauses(s: State, step: Step, fact: Fact)
    requires !(OfCall(step) && step.c == fact.i)
    ensures Causes(s, step, fact) ==> fact.Opened? && step.Open?
  {
  }

  lemma OtherFact(s: State, step: Step, fact: Fact)
    requires Enabled(s, step) && !(OfCall(step) && step.c == fact.i)
    ensures Holds(Next(s, step), fact) <==> Holds(s, fact) || Causes(s, step, fact)
  {
    OtherCalls(s, step, fact.i);
    OtherCauses(s, step, fact);
  }

  lemma StepFact(s: State, step: Step, fact: Fact)
    requires Inv(s)
    ensures Holds(Next(s, step), fact) <==> Holds(s, fact) || Brings(s, step, fact)
  {
    if Enabled(s, step) {
      if OfCall(step) && step.c == fact.i {
        assert CallInv(s, fact.i);
        OwnFact(s, step, fact);
      } else {
        OtherFact(s, step, fact);
      }
    }
  }

  lemma {:induction false} FactFrom(s: State, steps: seq<Step>, fact: Fact)
    requires Inv(s)
    ensures Holds(Run(s, steps), fact) <==> Holds(s, fact) || Happened(s, steps, fact)
    decreases |steps|
  {
    if steps != [] {
      StepFact(s, steps[0], fact);
      StepKeepsInv(s, steps[0]);
      FactFrom(Next(s, steps[0]), steps[1..], fact);
    }
  }

  /** Over every run, a fact about a call holds if and only if some step of the run brought it about. */
  lemma {:induction false} FactExactly(steps: seq<Step>, fact: Fact)
    ensures Holds(Run(START, steps), fact) <==> Happened(START, steps, fact)
  {
    FactFrom(START, steps, fact);
  }

  // ---- dispatch ----------------------------------------------------------------------

  /** How often loops took the awaitable of call i. */
  function Handings(s: State, steps: seq<Step>, i: nat): nat
    decreases |steps|
  {
    if steps == [] then 0
    else
      (if Enabled(s, steps[0]) && (steps[0] == SubmitNew(i) || (Taken(steps[0]) && steps[0].c == i)) then 1 else 0)
      + Handings(Next(s, steps[0]), steps[1..], i)
  }

  /** 1 if a loop has the awaitable, by the path that was taken. */
  function Handed(s: State, i: nat): nat {
    if i < |s.calls| && Dispatched(s.calls[i]) then 1 else 0
  }

  lemma StepHands(s: State, step: Step, i: nat)
    requires Inv(s)
    ensures Handed(Next(s, step), i) == Handed(s, i) +
              if Enabled(s, step) && (step == SubmitNew(i) || (Taken(step) && step.c == i)) then 1 else 0
  {
  }

  lemma {:induction false} HandedFrom(s: State, steps: seq<Step>, i: nat)
    requires Inv(s)
    ensures Handed(Run(s, steps), i) == Handed(s, i) + Handings(s, steps, i)
    decreases |steps|
  {
    if steps != [] {
      StepHands(s, steps[0], i);
      StepKeepsInv(s, steps[0]);
      HandedFrom(Next(s, steps[0]), steps[1..], i);
    }
  }

  /** Dispatch. In every interleaving the awaitable of a call is taken by at most one loop: by the main loop if and
      only if that was running and accepted it, and by a new one only after the main loop turned it down; and when it
      does, the call can go on to a new loop and to no other. */
  lemma {:induction false} DispatchedOnce(steps: seq<Step>, i: nat)
    requires i < |Run(START, steps).calls|
    ensures
      var s := Run(START, steps);
      && Handings(START, steps, i) == (if Dispatched(s.calls[i]) then 1 else 0)
      && (s.calls[i].path.ViaMain? <==> Happened(START, steps, ToMain(i)))
      && (s.calls[i].path.ViaNew? <==> Happened(START, steps, ToNew(i)))
      && (s.calls[i].path.ViaNew? ==> Happened(START, steps, TurnedDown(i)))
      && !(Happened(START, steps, ToMain(i)) && Happened(START, steps, TurnedDown(i)))
      && (Happened(START, steps, TurnedDown(i)) && s.calls[i].restored.None? && !Happened(START, steps, ToNew(i)) ==>
            && Enabled(s, SubmitNew(i)) && Handings(START, steps, i) == 0
            && forall running, accepts :: !Enabled(s, TryMain(i, running, accepts)))
  {
    HandedFrom(START, steps, i);
    FactExactly(steps, ToMain(i));
    FactExactly(steps, TurnedDown(i));
    FactExactly(steps, ToNew(i));
  }

  // ---- the context, and the outcome ----------------------------------------------------

  /** The awaitable's context after one step: main_wrap restored the caller's context into its task's, or the awaitable
      changed it. */
  function WorkedOn(s: State, step: Step, i: nat, caller: Context, so: Option<Context>): Option<Context> {
    if !Enabled(s, step) then so
    else
      match step
      case Restore(c, base, loop) => if c == i then Some(Restored(caller, base, loop)) else so
      case Work(c, ctx) => if c == i then Some(ctx) else so
      case _ => so
  }

  /** And after a run. */
  function Worked(s: State, steps: seq<Step>, i: nat, caller: Context, so: Option<Context>): Option<Context>
    decreases |steps|
  {
    if steps == [] then so
    else Worked(Next(s, steps[0]), steps[1..], i, caller, WorkedOn(s, steps[0], i, caller, so))
  }

  /** What the state has of it. */
  predicate Has(s: State, i: nat, caller: Context, so: Option<Context>) {
    if i >= |s.calls| then so == None
    else
      var c := s.calls[i];
      c.initial == caller && so == if c.stage.NotStarted? then None else Some(if Late(c) then c.cell else c.ctx)
  }

  lemma StepWorks(s: State, step: Step, i: nat, caller: Context, so: Option<Context>)
    requires Inv(s) && Has(s, i, caller, so)
    requires step.Open? && Enabled(s, step) && i == |s.calls| ==> step.ctx == caller
    ensures Has(Next(s, step), i, caller, WorkedOn(s, step, i, caller, so))
  {
    if Enabled(s, step) {
      if OfCall(step) && step.c == i {
        OwnCall(s, step, i);
        assert CallInv(s, i);
        AdvanceWorks(s, step, i, caller, so);
      } else {
        OtherCalls(s, step, i);
      }
    }
  }

  lemma AdvanceWorks(s: State, step: Step, i: nat, caller: Context, so: Option<Context>)
    requires Has(s, i, caller, so) && i < |s.calls| == |s.p.execs| && CallInv(s, i)
    requires Enabled(s, step) && OfCall(step) && step.c == i
    ensures
      var c := Advance(s.calls[i], step);
      && c.initial == caller
      && WorkedOn(s, step, i, caller, so) ==
           if c.stage.NotStarted? then None else Some(if Late(c) then c.cell else c.ctx)
  {
  }

  lemma {:induction false} WorkedFrom(s: State, steps: seq<Step>, i: nat, caller: Context, so: Option<Context>)
    requires Inv(s) && Has(s, i, caller, so) && i < |Run(s, steps).calls| && Run(s, steps).calls[i].initial == caller
    ensures Has(Run(s, steps), i, caller, Worked(s, steps, i, caller, so))
    decreases |steps|
  {
    if steps != [] {
      StepKeepsInv(s, steps[0]);
      InitialStays(Next(s, steps[0]), steps[1..], i);
      StepWorks(s, steps[0], i, caller, so);
      WorkedFrom(Next(s, steps[0]), steps[1..], i, caller, WorkedOn(s, steps[0], i, caller, so));
    }
  }

  lemma {:induction false} InitialStays(s: State, steps: seq<Step>, i: nat)
    ensures i < |s.calls| ==> i < |Run(s, steps).calls| && Run(s, steps).calls[i].initial == s.calls[i].initial
    decreases |steps|
  {
    if steps != [] {
      InitialStays(Next(s, steps[0]), steps[1..], i);
    }
  }

  /** What async_to_sync gives back, in every interleaving, on both dispatch paths, whether the awaitable returned or
      raised. If a loop took the awaitable, then it had begun in a copy of the caller's context and ended by the time
      the caller goes on, and so had asyncio.run if the loop is a new one; the context restored is the one it left;
      and call_result has what it returned or raised. If none did, the caller's own context is restored. */
  lemma {:induction false} GivesBack(steps: seq<Step>, i: nat)
    requires i < |Run(START, steps).calls| && Run(START, steps).calls[i].restored.Some?
    ensures
      var s := Run(START, steps);
      var c := s.calls[i];
      && Happened(START, steps, Opened(i, c.list, c.initial))
      && (Happened(START, steps, ToMain(i)) || Happened(START, steps, ToNew(i)) ==>
            && Happened(START, steps, Begun(i)) && Happened(START, steps, Answered(i))
            && (Happened(START, steps, ToNew(i)) ==> Happened(START, steps, LoopIsOver(i)))
            && c.restored == Worked(START, steps, i, c.initial, None)
            && c.result.Some? && Happened(START, steps, EndedWith(i, c.result.value)))
      && (!Happened(START, steps, ToMain(i)) && !Happened(START, steps, ToNew(i)) ==>
            c.restored == Some(c.initial) && !Happened(START, steps, Begun(i)))
  {
    var s := Run(START, steps);
    var c := s.calls[i];
    RunKeepsInv(START, steps);
    WorkedFrom(START, steps, i, c.initial, None);
    BackIsLate(s, i, c.initial, Worked(START, steps, i, c.initial, None));
    FactExactly(steps, Opened(i, c.list, c.initial));
    FactExactly(steps, ToMain(i));
    FactExactly(steps, ToNew(i));
    FactExactly(steps, Begun(i));
    FactExactly(steps, Answered(i));
    FactExactly(steps, LoopIsOver(i));
    if c.result.Some? {
      FactExactly(steps, EndedWith(i, c.result.value));
    }
  }

  lemma BackIsLate(s: State, i: nat, caller: Context, worked: Option<Context>)
    requires Inv(s) && i < |s.calls| && s.calls[i].restored.Some? && Has(s, i, caller, worked)
    ensures
      var c := s.calls[i];
      if c.path.ViaMain? || c.path.ViaNew? then
        && Late(c) && (c.path.ViaNew? ==> c.stage.Over?) && c.restored == worked
        && c.result.Some? && c.outcome == c.result
      else c.restored == Some(caller) && c.stage.NotStarted?
  {
    assert CallInv(s, i);
    if s.p.execs[i].pc.Exited? {
      ExitedIsDone(s.p, i);
    }
  }

  // ---- the order of registration -----------------------------------------------------

  /** The calls whose main_wrap appended its task to list l, in that order. */
  function BegunIn(s: State, steps: seq<Step>, l: nat): seq<nat>
    decreases |steps|
  {
    if steps == [] then [] else BegunNow(s, steps[0], l) + BegunIn(Next(s, steps[0]), steps[1..], l)
  }

  function BegunNow(s: State, step: Step, l: nat): seq<nat> {
    if Enabled(s, step) && step.Restore? && s.calls[step.c].list == Some(l) then [step.c] else []
  }

  /** The calls whose main_wrap has removed its task again. */
  function Unlisted(s: State): set<nat> {
    set i | 0 <= i < |s.calls| && !Unfinished(s.calls[i]) && !s.calls[i].stage.NotStarted?
  }

  function ListOf(s: State, l: nat): seq<nat> {
    if l < |s.lists| then s.lists[l] else []
  }

  lemma ListedAreUnfinished(s: State, l: nat)
    requires ListsHold(s)
    ensures Outside(ListOf(s, l), Unlisted(s)) == ListOf(s, l)
    ensures Unique(ListOf(s, l)) && forall i :: i in ListOf(s, l) ==> Registered(s, i, l)
  {
    assert l < |s.lists| ==> ListHolds(s, l);
    NoneGone(ListOf(s, l), Unlisted(s));
  }

  lemma StepLists(s: State, step: Step, l: nat)
    requires ListsHold(s)
    ensures ListOf(Next(s, step), l) == Outside(ListOf(s, l) + BegunNow(s, step, l), Unlisted(Next(s, step)))
  {
    StepKeepsLists(s, step);
    ListedAreUnfinished(Next(s, step), l);
    if Enabled(s, step) && step.Unlist? && s.calls[step.c].list == Some(l) && l < |s.lists| {
      EndedLeaves(s, step.c, l);
    } else {
      OtherLists(s, step, l);
    }
  }

  lemma EndedLeaves(s: State, c: nat, l: nat)
    requires ListsHold(s) && Enabled(s, Unlist(c)) && s.calls[c].list == Some(l) && l < |s.lists|
    ensures ListOf(Next(s, Unlist(c)), l) == Outside(ListOf(s, l) + [], Unlisted(Next(s, Unlist(c))))
  {
    ListedAreUnfinished(s, l);
    assert s.lists[l] + [] == s.lists[l];
    RemoveIsOutside(s.lists[l], c, Unlisted(Next(s, Unlist(c))));
  }

  lemma OtherLists(s: State, step: Step, l: nat)
    requires ListsHold(s) && !(Enabled(s, step) && step.Unlist? && s.calls[step.c].list == Some(l) && l < |s.lists|)
    ensures ListOf(Next(s, step), l) == ListOf(s, l) + BegunNow(s, step, l)
  {
  }

  lemma UnlistedStays(s: State, step: Step)
    ensures Unlisted(s) <= Unlisted(Next(s, step))
  {
  }

  lemma {:induction false} UnlistedStaysOn(s: State, steps: seq<Step>)
    ensures Unlisted(s) <= Unlisted(Run(s, steps))
    decreases |steps|
  {
    if steps != [] {
      UnlistedStays(s, steps[0]);
      UnlistedStaysOn(Next(s, steps[0]), steps[1..]);
    }
  }

  lemma {:induction false} ListsFrom(s: State, steps: seq<Step>, l: nat)
    requires ListsHold(s)
    ensures ListOf(Run(s, steps), l) == Outside(ListOf(s, l) + BegunIn(s, steps, l), Unlisted(Run(s, steps)))
    decreases |steps|
  {
    if steps == [] {
      ListedAreUnfinished(s, l);
      assert ListOf(s, l) + [] == ListOf(s, l);
    } else {
      var s' := Next(s, steps[0]);
      StepLists(s, steps[0], l);
      StepKeepsLists(s, steps[0]);
      ListsFrom(s', steps[1..], l);
      UnlistedStaysOn(s', steps[1..]);
      OutsideChain(ListOf(s, l), BegunNow(s, steps[0], l), BegunIn(s', steps[1..], l), Unlisted(s'),
        Unlisted(Run(s', steps[1..])));
    }
  }

  /** In every interleaving a task_context holds the main_wrap activations that registered in it and have not removed
      themselves, in the order in which they registered. */
  lemma {:induction false} TaskContextInOrder(steps: seq<Step>, l: nat)
    requires l < |Run(START, steps).lists|
    ensures Run(START, steps).lists[l] == Outside(BegunIn(START, steps, l), Unlisted(Run(START, steps)))
  {
    ListsFrom(START, steps, l);
    assert [] + BegunIn(START, steps, l) == BegunIn(START, steps, l);
  }

  // ---- nobody is stuck ---------------------------------------------------------------

  /** The call has not begun to wait, and will not if it does, or its executor's done callback can run. */
  predicate Wakes(s: State, i: nat)
    requires i < |s.p.execs|
  {
    i in s.p.done && (s.p.execs[i].pc.Idle? || Enabled(s, Other(P.Fire(i))))
  }

  /** The next step that the call, or the loop that took its awaitable, can take. */
  ghost predicate GoesOn(s: State, i: nat)
    requires i < |s.calls| && i < |s.p.execs|
  {
    match s.calls[i].stage
    case NotStarted =>
      (match s.calls[i].path
       case Undecided => forall running, accepts :: Enabled(s, TryMain(i, running, accepts))
       case Declined => Enabled(s, SubmitNew(i))
       case _ => forall base, loop :: Enabled(s, Restore(i, base, loop)))
    case Running => forall out :: Enabled(s, End(i, out))
    case Ended => Enabled(s, Unlist(i))
    case Unlisted => Enabled(s, Capture(i))
    case Captured => Enabled(s, Resolve(i))
    case Resolved => if s.calls[i].path.ViaNew? then Enabled(s, LoopOver(i)) else Wakes(s, i)
    case Over => Wakes(s, i)
  }

  /** In every interleaving a call that no loop has taken can go on to one; the loop that took it can take its next
      step; and once the awaitable has ended, and asyncio.run too on a new loop, the executor's done callback can run,
      which lets the executor drain and exit; and then the call can finish. */
  lemma {:induction false} CallsGoOn(steps: seq<Step>, i: nat)
    requires i < |Run(START, steps).calls| && Run(START, steps).calls[i].restored.None?
    ensures
      var s := Run(START, steps);
      i < |s.p.execs| && GoesOn(s, i) && (s.p.execs[i].pc.Exited? ==> Enabled(s, Finish(i)))
  {
    RunKeepsInv(START, steps);
    InStateGoesOn(Run(START, steps), i);
  }

  lemma InStateGoesOn(s: State, i: nat)
    requires Inv(s) && i < |s.calls| && s.calls[i].restored.None?
    ensures GoesOn(s, i)
  {
    assert CallInv(s, i) && P.ExecInv(s.p, i);
    CallGoesOn(s, i);
  }

  lemma CallGoesOn(s: State, i: nat)
    requires i < |s.calls| == |s.p.execs| && CallInv(s, i) && P.ExecInv(s.p, i) && s.calls[i].restored.None?
    ensures GoesOn(s, i)
  {
    if i in s.p.done {
      DoneWakes(s, i);
    }
  }

  lemma DoneWakes(s: State, i: nat)
    requires i < |s.calls| == |s.p.execs| && CallInv(s, i) && P.ExecInv(s.p, i) && i in s.p.done
    ensures Wakes(s, i)
  {
  }
}
