/**
 The class CurrentThreadExecutor and its two loops, region by region as in ExecutorProtocol. Whatever other threads do
 between two regions protected by the lock is either an arbitrary change that can only break more executors (submit) or
 an arbitrary schedule of submissions, cancellations and the done callback (run_until_future).
 */
module ThreadExecutor {
  import opened Contexts
  import P = ExecutorProtocol

  type Iid = P.Iid

  /** What another thread may do to an executor while its owner does not hold the lock. */
  datatype Event = Put(item: WorkItem) | Cancel(item: WorkItem) | FutureDone

  datatype Exit = Left | Parked | WrongThread

  datatype Receipt = Accepted(executor: CurrentThreadExecutor) | OwnThread | AllQuit

  /** What a function does: return a value or raise. */
  datatype Result = Returns(n: int) | Raises(n: int)

  class WorkItem {
    const id: Iid
    const fn: Result
    var future: P.ItemFuture
    var outcome: Option<Result>
    var calls: nat

    constructor (id: Iid, fn: Result)
      ensures this.id == id && this.fn == fn && Open() && future.Pending?
    {
      this.id := id;
      this.fn := fn;
      future := P.Pending;
      outcome := None;
      calls := 0;
    }

    /** Not run yet, and cancelled or not. */
    predicate Open()
      reads this
    {
      (future.Pending? || future.Cancelled?) && calls == 0 && outcome.None?
    }

    /** Done with: called once and its future holding what the function returned or raised, or cancelled and never
        called. */
    predicate Closed()
      reads this
    {
      if future.Cancelled? then calls == 0 && outcome.None?
      else future.Finished? && calls == 1 && outcome == Some(fn)
    }

    /** _WorkItem.run: the function is called exactly once and its result or exception goes to the future, unless the
        future was cancelled; then it is never called. */
    method Run()
      requires Open()
      modifies this
      ensures Closed() && (future.Cancelled? <==> old(future.Cancelled?))
    {
      if future.Cancelled? {
        return;
      }
      future := P.InCall;
      calls := calls + 1;
      outcome := Some(fn);
      future := P.Finished;
    }

    /** Future.cancel: too late once the item is done with. */
    method Cancel()
      requires Open() || Closed()
      modifies this
      ensures calls == old(calls) && outcome == old(outcome)
      ensures future == if old(future).Pending? then P.Cancelled else old(future)
    {
      if future.Pending? {
        future := P.Cancelled;
      }
    }
  }

  class CurrentThreadExecutor {
    const workThread: Tid
    const outer: CurrentThreadExecutor?
    ghost const depth: nat
    var workItems: seq<WorkItem>
    var broken: bool
    /** Where the owner is, and if it waits on the condition, whether it was notified. */
    var pc: P.Pc
    ghost var accepted: seq<WorkItem>
    ghost var settled: seq<WorkItem>
    ghost var called: seq<WorkItem>
    /** Of each settled item, whether its function was called. */
    ghost var verdicts: seq<bool>

    constructor (thread: Tid, outer: CurrentThreadExecutor?)
      requires outer != null ==> outer.Chained()
      ensures Chained() && workThread == thread && this.outer == outer
      ensures AsExec() == P.Exec(thread, None, [], false, None, P.Idle, [], [], [])
    {
      workThread := thread;
      this.outer := outer;
      depth := if outer == null then 0 else outer.depth + 1;
      workItems := [];
      broken := false;
      pc := P.Idle;
      accepted := [];
      settled := [];
      called := [];
      verdicts := [];
    }

    static function Ids(q: seq<WorkItem>): seq<Iid> {
      seq(|q|, k requires 0 <= k < |q| => q[k].id)
    }

    /** The executor as the protocol has it, the reference to the outer one and the future it waits for apart. */
    ghost function AsExec(): P.Exec
      reads this
    {
      P.Exec(workThread, None, Ids(workItems), broken, None, pc, Ids(accepted), Ids(settled), Ids(called))
    }

    /** The chain of _old_executor references is finite: every link goes to an executor built earlier. */
    ghost predicate Chained()
      decreases depth
    {
      outer != null ==> outer.depth < depth && outer.Chained()
    }

    ghost function Chain(): set<CurrentThreadExecutor>
      requires Chained()
      decreases depth
    {
      {this} + if outer == null then {} else outer.Chain()
    }

    /** The closest executor on the chain that is still running. */
    ghost function Nearest(): (e: CurrentThreadExecutor?)
      requires Chained()
      reads Chain()
      decreases depth
    {
      if !broken then this else if outer == null then null else outer.Nearest()
    }

    // ---- submit ----------------------------------------------------------------------

    /** The condition's notify: it wakes the owner if that is waiting. */
    method Notify()
      modifies this`pc
      ensures AsExec() == P.Notified(old(AsExec()))
    {
      if pc.Waiting? {
        pc := P.Waiting(true);
      }
    }

    /** The region of submit's loop that holds the lock: what the protocol's submission does to an executor, or nothing.
        No other executor changes meanwhile. */
    method TryAppend(item: WorkItem, ghost others: set<CurrentThreadExecutor>) returns (ok: bool)
      modifies this
      ensures forall e :: e in others && e != this ==>
        e.broken == old(e.broken) && e.accepted == old(e.accepted) && e.workItems == old(e.workItems)
      ensures ok == !old(broken)
      ensures AsExec() == if ok then P.Pushed(old(AsExec()), item.id) else old(AsExec())
      ensures workItems == if ok then old(workItems) + [item] else old(workItems)
      ensures accepted == if ok then old(accepted) + [item] else old(accepted)
      ensures broken == old(broken) && settled == old(settled) && called == old(called) && verdicts == old(verdicts)
    {
      ok := !broken;
      if ok {
        workItems := workItems + [item];
        accepted := accepted + [item];
        Notify();
      }
    }

    /** No executor on the chain has ever accepted the item, nor holds it. */
    ghost predicate Unheard(item: WorkItem)
      requires Chained()
      reads Chain()
    {
      forall e :: e in Chain() ==> item !in e.accepted && item !in e.workItems
    }

    /** Other threads, between two regions of submit: anything, except that broken executors stay broken and that the
        item is this submission's own. */
    method Interference(ghost quit: set<CurrentThreadExecutor>, item: WorkItem)
      requires Chained() && quit <= Chain() && (forall e :: e in quit ==> e.broken) && Unheard(item)
      modifies Chain()
      ensures (forall e :: e in quit ==> e.broken) && Unheard(item)
    {
    }

    static predicate JustAppended(q: seq<WorkItem>, item: WorkItem) {
      q != [] && q[|q| - 1] == item && item !in q[..|q| - 1]
    }

    ghost predicate Reaches(to: CurrentThreadExecutor)
      requires Chained()
      decreases depth
    {
      this == to || (outer != null && outer.Reaches(to))
    }

    /** The executors from this one outwards, before `to`. */
    ghost function Before(to: CurrentThreadExecutor): set<CurrentThreadExecutor>
      requires Chained() && Reaches(to)
      decreases depth
    {
      if this == to then {} else {this} + outer.Before(to)
    }

    lemma {:induction false} ChainSplits(to: CurrentThreadExecutor)
      requires Chained() && Reaches(to)
      ensures to.Chained() && Chain() == Before(to) + to.Chain()
      ensures to.outer != null ==> Reaches(to.outer) && Before(to.outer) <= Before(to) + {to}
      decreases depth
    {
      if this != to {
        outer.ChainSplits(to);
        if to.outer != null {
          DepthsFall(to);
        }
      }
    }

    lemma {:induction false} DepthsFall(to: CurrentThreadExecutor)
      requires Chained() && Reaches(to)
      ensures to.depth <= depth && (this != to ==> to.depth < depth)
      decreases depth
    {
      if this != to {
        outer.DepthsFall(to);
      }
    }

    /** If everything before `to` is broken, what is nearest from `to` is nearest from here. */
    lemma {:induction false} NearestBeyond(to: CurrentThreadExecutor)
      requires Chained() && Reaches(to) && forall e :: e in Before(to) ==> e.broken
      ensures to.Chained() && Nearest() == to.Nearest()
      decreases depth
    {
      if this != to {
        outer.NearestBeyond(to);
      }
    }

    /** submit: whatever other threads do during the walk, the item goes to the executor that is the nearest one still
        running at the instant it is appended, at the end of its queue, once, and to no other; and it is refused only if
        at that instant none is left. */
    method Submit(thread: Tid, item: WorkItem) returns (r: Receipt)
      requires Chained() && Unheard(item)
      modifies Chain()
      ensures r.OwnThread? <==> thread == workThread
      ensures r.Accepted? ==> r.executor == Nearest() && r.executor in Chain()
      ensures r.Accepted? ==> JustAppended(r.executor.workItems, item) && JustAppended(r.executor.accepted, item)
      ensures r.Accepted? ==> forall e :: e in Chain() && e != r.executor ==> item !in e.accepted
      ensures !r.Accepted? ==> Unheard(item)
      ensures r.AllQuit? ==> Nearest() == null
    {
      if thread == workThread {
        return OwnThread;
      }
      var executor: CurrentThreadExecutor := this;
      while true
        invariant Reaches(executor) && (forall e :: e in Before(executor) ==> e.broken) && Unheard(item)
        decreases executor.depth
      {
        ghost var passed := Before(executor);
        ChainSplits(executor);
        BeforeIsDeeper(executor);
        assert executor !in passed;
        Interference(passed, item);
        var ok := executor.TryAppend(item, Chain());
        NearestBeyond(executor);
        if ok {
          return Accepted(executor);
        }
        if executor.outer == null {
          return AllQuit;
        }
        executor := executor.outer;
      }
    }

    lemma {:induction false} BeforeIsDeeper(to: CurrentThreadExecutor)
      requires Chained() && Reaches(to)
      ensures forall e :: e in Before(to) ==> e.depth > to.depth
      decreases depth
    {
      if this != to {
        outer.BeforeIsDeeper(to);
        DepthsFall(to);
      }
    }

    // ---- run_until_future ------------------------------------------------------------

    static predicate NoDup(q: seq<WorkItem>) {
      forall j, k :: 0 <= j < k < |q| ==> q[j] != q[k]
    }

    /** The items that the events from the k-th on submit. */
    static function Puts(events: seq<Event>, k: nat): seq<WorkItem>
      decreases |events| - k
    {
      if k >= |events| then []
      else if events[k].Put? then [events[k].item] + Puts(events, k + 1)
      else Puts(events, k + 1)
    }

    /** What the events from the k-th on make an executor accept: the submissions until it is broken. */
    static function Arrivals(events: seq<Event>, k: nat, broken: bool): seq<WorkItem>
      decreases |events| - k
    {
      if k >= |events| then []
      else if events[k].Put? && !broken then [events[k].item] + Arrivals(events, k + 1, broken)
      else Arrivals(events, k + 1, broken || events[k].FutureDone?)
    }

    /** The items of which verdicts says that their function was called. */
    static function Kept(items: seq<WorkItem>, verdicts: seq<bool>): seq<WorkItem>
      requires |items| == |verdicts|
    {
      if items == [] then []
      else
        Kept(items[..|items| - 1], verdicts[..|items| - 1]) + if verdicts[|items| - 1] then [items[|items| - 1]] else []
    }

    /** Everything accepted is settled or queued, in order. Settled items are done with, and the functions called are
        those of the ones that were not cancelled, in order; all other items, submitted or still to be, are not done
        with. */
    ghost predicate Accounted(all: set<WorkItem>)
      reads this, all
    {
      && accepted == settled + workItems
      && (forall w :: w in settled ==> w in all)
      && (forall w :: w in all ==> if w in settled then w.Closed() else w.Open())
      && |verdicts| == |settled| && (forall j :: 0 <= j < |settled| ==> (verdicts[j] <==> settled[j].future.Finished?))
      && called == Kept(settled, verdicts)
    }

    /** No item comes twice, nor will. */
    ghost predicate Sound(all: set<WorkItem>, later: seq<WorkItem>)
      reads this, all
    {
      Accounted(all) && NoDup(accepted + later) && forall w :: w in accepted + later ==> w in all
    }

    static lemma NoDupSkip(a: seq<WorkItem>, w: WorkItem, b: seq<WorkItem>)
      requires NoDup(a + ([w] + b))
      ensures NoDup(a + b) && a + ([w] + b) == a + [w] + b && w !in a && w !in b
    {
      var q := a + ([w] + b);
      assert forall j :: 0 <= j < |a| ==> q[j] == a[j];
      assert forall j :: 0 <= j < |b| ==> q[|a| + 1 + j] == b[j];
      assert q[|a|] == w;
    }

    /** One event caused by another thread. A submission to a broken executor goes elsewhere. */
    method Happen(ev: Event, ghost all: set<WorkItem>, ghost later: seq<WorkItem>)
      requires Sound(all, if ev.Put? then [ev.item] + later else later) && (ev.Cancel? ==> ev.item in all)
      modifies this, all
      ensures Sound(all, later) && settled == old(settled)
      ensures forall w :: w in all ==>
        (w.future.Cancelled? <==> old(w.future.Cancelled?) || (ev == Cancel(w) && old(w.future.Pending?)))
      ensures accepted == old(accepted) + if ev.Put? && !old(broken) then [ev.item] else []
      ensures AsExec() ==
        match ev
        case Put(item) => if old(broken) then old(AsExec()) else P.Pushed(old(AsExec()), item.id)
        case Cancel(_) => old(AsExec())
        case FutureDone => P.Quit(old(AsExec()))
    {
      if ev.Put? {
        NoDupSkip(accepted, ev.item, later);
        var ok := TryAppend(ev.item, {});
      } else if ev.Cancel? {
        ev.item.Cancel();
      } else {
        broken := true;
        Notify();
      }
    }

    /** The locked region of the loop: what the protocol's look does. */
    method Look() returns (item: WorkItem?)
      requires pc.Checking?
      modifies this
      ensures AsExec() == P.Looked(old(AsExec()))
      ensures item == if old(workItems) == [] then null else old(workItems)[0]
      ensures workItems == if old(workItems) == [] then [] else old(workItems)[1..]
      ensures broken == old(broken) && accepted == old(accepted) && settled == old(settled) && called == old(called)
        && verdicts == old(verdicts)
    {
      if workItems != [] {
        item := workItems[0];
        workItems := workItems[1..];
        pc := P.Holding(item.id);
      } else {
        item := null;
        pc := if broken then P.Exited else P.Waiting(false);
      }
    }

    /** As Sound, with an item taken and not run yet. */
    ghost predicate InHand(item: WorkItem, all: set<WorkItem>, later: seq<WorkItem>)
      reads this, all
    {
      && accepted == settled + [item] + workItems && NoDup(accepted + later) && item !in settled
      && (forall w :: w in accepted + later ==> w in all)
      && (forall w :: w in all ==> if w in settled then w.Closed() else w.Open())
      && |verdicts| == |settled| && (forall j :: 0 <= j < |settled| ==> (verdicts[j] <==> settled[j].future.Finished?))
      && called == Kept(settled, verdicts)
    }

    /** The locked region that finds work: the item that waited longest is taken. */
    method Take(ghost all: set<WorkItem>, ghost later: seq<WorkItem>) returns (item: WorkItem)
      requires Sound(all, later) && pc.Checking? && workItems != []
      modifies this
      ensures InHand(item, all, later) && item == old(workItems)[0] && pc == P.Holding(item.id)
      ensures AsExec() == P.Looked(old(AsExec()))
      ensures workItems == old(workItems)[1..] && accepted == old(accepted) && broken == old(broken)
      ensures settled == old(settled)
    {
      InHandIsNew(settled, workItems, later);
      var taken := Look();
      return taken;
    }

    /** The owner is finished with the item in hand. */
    method Record(item: WorkItem, ran: bool)
      modifies this
      ensures workItems == old(workItems) && accepted == old(accepted) && broken == old(broken) && pc.Checking?
      ensures settled == old(settled) + [item] && verdicts == old(verdicts) + [ran]
      ensures called == if ran then old(called) + [item] else old(called)
      ensures AsExec() == P.Dealt(if ran then P.Claimed(old(AsExec()), item.id) else old(AsExec()), item.id)
    {
      IdsAppend(settled, item);
      if ran {
        IdsAppend(called, item);
        called := called + [item];
      }
      settled, verdicts := settled + [item], verdicts + [ran];
      pc := P.Checking;
    }

    static lemma IdsAppend(q: seq<WorkItem>, item: WorkItem)
      ensures Ids(q + [item]) == Ids(q) + [item.id]
    {
    }

    /** The item in hand is run: its function is called unless it was cancelled. */
    method RunTaken(item: WorkItem, ghost all: set<WorkItem>, ghost later: seq<WorkItem>)
      requires InHand(item, all, later)
      modifies this, item
      ensures Sound(all, later) && settled == old(settled) + [item] && workItems == old(workItems) && pc.Checking?
      ensures accepted == old(accepted) && broken == old(broken)
      ensures item.future.Cancelled? <==> old(item.future.Cancelled?)
      ensures AsExec() ==
        P.Dealt(if item.future.Finished? then P.Claimed(old(AsExec()), item.id) else old(AsExec()), item.id)
    {
      assert forall j :: 0 <= j < |settled| ==> settled[j] in settled;
      item.Run();
      KeptAppend(settled, verdicts, item, item.future.Finished?);
      Record(item, item.future.Finished?);
    }

    /** One round that finds work. */
    method TakeAndRun(ghost all: set<WorkItem>, ghost later: seq<WorkItem>) returns (item: WorkItem)
      requires Sound(all, later) && pc.Checking? && workItems != []
      modifies this, all
      ensures Sound(all, later) && item == old(workItems)[0] && settled == old(settled) + [item] && pc.Checking?
      ensures workItems == old(workItems)[1..] && accepted == old(accepted) && broken == old(broken)
      ensures forall w :: w in all ==> (w.future.Cancelled? <==> old(w.future.Cancelled?))
    {
      item := Take(all, later);
      assert item in accepted + later;
      RunTaken(item, all, later);
    }

    /** The locked region that finds none: the loop is left, or the owner waits. */
    method LeaveOrWait(ghost all: set<WorkItem>, ghost later: seq<WorkItem>)
      requires Sound(all, later) && pc.Checking? && workItems == []
      modifies this
      ensures Sound(all, later) && workItems == [] && accepted == old(accepted) && settled == old(settled)
      ensures broken == old(broken) && pc == if broken then P.Exited else P.Waiting(false)
    {
      var none := Look();
    }

    /** wait() returns, the owner having been notified. */
    method Wake(ghost all: set<WorkItem>, ghost later: seq<WorkItem>)
      requires Sound(all, later) && pc == P.Waiting(true)
      modifies this`pc
      ensures Sound(all, later) && pc.Checking?
    {
      pc := P.Checking;
    }

    static lemma InHandIsNew(a: seq<WorkItem>, q: seq<WorkItem>, b: seq<WorkItem>)
      requires q != [] && NoDup(a + q + b)
      ensures q[0] !in a && q[0] in a + q + b
    {
      var all := a + q + b;
      assert all[|a|] == q[0] && forall j :: 0 <= j < |a| ==> all[j] == a[j];
    }

    /** How far the owner is from waiting un-notified, with nothing happening. */
    static function Rank(pc: P.Pc): nat {
      if pc == P.Waiting(true) then 2 else if pc.Checking? then 1 else 0
    }

    /** The next event, while the owner is in its loop. */
    method HappenNext(others: seq<Event>, k: nat, ghost all: set<WorkItem>)
      requires k < |others| && Sound(all, Puts(others, k)) && (others[k].Cancel? ==> others[k].item in all)
      requires (pc.Checking? || pc.Waiting?) && (pc == P.Waiting(false) ==> workItems == [] && !broken)
      modifies this, all
      ensures Sound(all, Puts(others, k + 1)) && settled == old(settled)
      ensures (pc.Checking? || pc.Waiting?) && (pc == P.Waiting(false) ==> workItems == [] && !broken)
      ensures forall w :: w in all && old(w.future.Cancelled?) ==> w.future.Cancelled?
      ensures accepted + Arrivals(others, k + 1, broken) == old(accepted) + Arrivals(others, k, old(broken))
    {
      ArrivalsNext(accepted, others, k, broken);
      ghost var before, items := AsExec(), workItems;
      Happen(others[k], all, Puts(others, k + 1));
      assert |Ids(workItems)| == |workItems| && |Ids(items)| == |items|;
    }

    /** The loop of run_until_future, with the other threads' events in the order they happen; before each round the
        others may be given the lock first, as often as turns says. Left means that the loop ended, Parked that the
        events ran out while the owner was waiting. */
    method Loop(others: seq<Event>, turns: seq<nat>, ghost all: set<WorkItem>) returns (exit: Exit)
      requires pc.Checking? && Sound(all, Puts(others, 0))
      requires forall k :: 0 <= k < |others| && others[k].Cancel? ==> others[k].item in all
      modifies this, all
      ensures Accounted(all) && old(settled) <= settled
      ensures forall w :: w in all && old(w.future.Cancelled?) ==> w.future.Cancelled?
      ensures workItems == [] && if broken then exit.Left? && pc.Exited? else exit.Parked? && pc == P.Waiting(false)
      ensures accepted == old(accepted) + Arrivals(others, 0, old(broken))
    {
      var k, round := 0, 0;
      ghost var arrived := old(accepted) + Arrivals(others, 0, old(broken));
      while true
        invariant 0 <= k <= |others| && Sound(all, Puts(others, k))
        invariant pc.Checking? || pc.Waiting?
        invariant pc == P.Waiting(false) ==> workItems == [] && !broken
        invariant old(settled) <= settled
        invariant forall w :: w in all && old(w.future.Cancelled?) ==> w.future.Cancelled?
        invariant accepted + Arrivals(others, k, broken) == arrived
        decreases |others| - k, |workItems|, Rank(pc)
      {
        var turn := if round < |turns| then turns[round] else 0;
        round := round + 1;
        if (turn > 0 || pc == P.Waiting(false)) && k < |others| {
          HappenNext(others, k, all);
          k := k + 1;
        } else if pc == P.Waiting(false) {
          assert accepted + [] == accepted;
          return Parked;
        } else if pc.Waiting? {
          Wake(all, Puts(others, k));
        } else if workItems != [] {
          var _ := TakeAndRun(all, Puts(others, k));
        } else {
          LeaveOrWait(all, Puts(others, k));
          if pc.Exited? {
            BrokenAcceptsNothing(others, k);
            assert accepted + [] == accepted;
            return Left;
          }
        }
      }
    }

    /** run_until_future on the given thread, the future it waits for being done already or not. */
    method RunUntilFuture(thread: Tid, alreadyDone: bool, others: seq<Event>, turns: seq<nat>, ghost all: set<WorkItem>)
      returns (exit: Exit)
      requires pc.Idle? && Sound(all, Puts(others, 0))
      requires forall k :: 0 <= k < |others| && others[k].Cancel? ==> others[k].item in all
      modifies this, all
      ensures Accounted(all) && old(settled) <= settled
      ensures forall w :: w in all && old(w.future.Cancelled?) ==> w.future.Cancelled?
      ensures exit.WrongThread? <==> thread != workThread
      ensures exit.WrongThread? ==> AsExec() == old(AsExec())
      ensures exit.Left? ==> broken && workItems == [] && settled == accepted
      ensures exit.Parked? ==> !broken && workItems == [] && pc == P.Waiting(false)
      ensures !exit.WrongThread? ==> accepted == old(accepted) + Arrivals(others, 0, old(broken) || alreadyDone)
    {
      if thread != workThread {
        return WrongThread;
      }
      if alreadyDone {
        broken := true;
      }
      pc := P.Checking;
      exit := Loop(others, turns, all);
    }

    static lemma ArrivalsNext(soFar: seq<WorkItem>, events: seq<Event>, k: nat, broken: bool)
      requires k < |events|
      ensures soFar + Arrivals(events, k, broken)
              == (soFar + if events[k].Put? && !broken then [events[k].item] else [])
                 + Arrivals(events, k + 1, broken || events[k].FutureDone?)
    {
      if events[k].Put? && !broken {
        var rest := Arrivals(events, k + 1, broken);
        assert soFar + ([events[k].item] + rest) == soFar + [events[k].item] + rest;
      } else {
        assert soFar + [] == soFar;
      }
    }

    static lemma {:induction false} BrokenAcceptsNothing(events: seq<Event>, k: nat)
      ensures Arrivals(events, k, true) == []
      decreases |events| - k
    {
      if k < |events| {
        BrokenAcceptsNothing(events, k + 1);
      }
    }

    static lemma KeptAppend(items: seq<WorkItem>, verdicts: seq<bool>, item: WorkItem, verdict: bool)
      requires |items| == |verdicts|
      ensures Kept(items + [item], verdicts + [verdict]) == Kept(items, verdicts) + if verdict then [item] else []
    {
      assert (items + [item])[..|items|] == items && (verdicts + [verdict])[..|items|] == verdicts;
    }
  }
}
