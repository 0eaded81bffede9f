/** The event loop gets back to rest: its own steps, and those of threads inside the guard, run out. */
module DeliveryRest {
  import opened Delivery
  import opened DeliveryInvariant
  import opened DeliverySteps
  import opened DeliveryTheorems

  // ----- what is left to do -----

  /** Responses of the batch that the event loop has still to go through. */
  ghost function BatchLeft(s: State): nat {
    if s.act.NoAct? || s.act.c !in s.clients then 0
    else
      var cl := s.clients[s.act.c];
      if cl.completed <= |cl.batch| then |cl.batch| - cl.completed else 0
  }

  ghost function ActLeft(s: State): nat {
    match s.act
    case NoAct => 0
    case Complete(_, _, _) => 4 * BatchLeft(s) + 1
    case Requeue(_, _, _) => 4 * BatchLeft(s) + 3
    case Remove(_, resume) => if resume.Return? then 1 else 4 * BatchLeft(s) + 2
  }

  /** Clients that the drain has not begun with. */
  ghost function Untouched(s: State): set<ClientId>
    requires s.drain.Draining?
  {
    if s.act.NoAct? then s.drain.todo else s.drain.todo - {s.act.c}
  }

  ghost function LoopWork(s: State): nat {
    ActLeft(s) + if s.drain.Draining? then (4 * s.half + 4) * |Untouched(s)| + 1 else 0
  }

  /** Threads inside the guard; those that have not failed; those that have not counted. */
  ghost function Inside1(adders: map<ThreadId, Adder>): set<ThreadId> {
    set t | t in adders && adders[t].guard.Inside?
  }

  ghost function Inside2(adders: map<ThreadId, Adder>): set<ThreadId> {
    set t | t in adders && adders[t].guard.Inside? && !adders[t].guard.stage.Failed?
  }

  ghost function Inside3(adders: map<ThreadId, Adder>): set<ThreadId> {
    set t | t in adders && adders[t].guard.Inside? && adders[t].guard.stage.Checked?
  }

  ghost function GuardWork(adders: map<ThreadId, Adder>): nat {
    |Inside1(adders)| + |Inside2(adders)| + |Inside3(adders)|
  }

  ghost function Work(s: State): nat {
    LoopWork(s) + GuardWork(s.adders)
  }

  // ----- every step leaves less -----

  predicate IsLoop(step: Step) {
    || step.DrainClient? || step.EndDrain? || step.CompleteCount? || step.CompleteRequeue?
    || step.TryRemove? || step.FinishBatch?
  }

  lemma OneLess(a: set<ClientId>, c: ClientId)
    requires c in a
    ensures |a - {c}| == |a| - 1
  {
  }

  lemma Times(k: nat, n: nat)
    requires n > 0
    ensures k * (n - 1) == k * n - k
  {
  }

  /** The shape of a round: the client is done with, or a batch no longer than its queue is to be completed. */
  lemma RoundLeaves(s: State, c: ClientId, accepted: bool)
    requires Enabled(s, DrainClient(c, accepted))
    ensures var s' := DrainClientStep(s, c, accepted);
      && s'.half == s.half && s'.adders == s.adders && s'.drain.Draining?
      && (s'.act.NoAct? ==> s'.drain.todo == s.drain.todo - {c})
      && (!s'.act.NoAct? ==>
            && s'.act.Complete? && s'.act.c == c && s'.drain == s.drain && c in s'.clients
            && |s'.clients[c].batch| <= |s.clients[c].q.At(!s.flag)|)
  {
    hide FirstFatal;
  }

  lemma QueueShort(s: State, c: ClientId)
    requires GoodClients(s) && c in s.clients
    ensures |s.clients[c].q.At(!s.flag)| <= s.half
  {
    hide Counts, Lifetime, Activity, Membership, WillDisconnect, Histories;
    assert GoodClient(ViewOf(s, c));
  }

  /** The work in a drain, when nothing or a whole batch is under way. */
  lemma DrainWork(s: State)
    requires s.drain.Draining?
    ensures s.act.NoAct? ==> LoopWork(s) == (4 * s.half + 4) * |s.drain.todo| + 1
    ensures s.act.Complete? ==>
      LoopWork(s) == 4 * BatchLeft(s) + 2 + (4 * s.half + 4) * |s.drain.todo - {s.act.c}|
  {
    hide BatchLeft;
  }

  lemma RoundLeavesLess(s: State, c: ClientId, accepted: bool)
    requires GoodClients(s) && Enabled(s, DrainClient(c, accepted))
    ensures LoopWork(DrainClientStep(s, c, accepted)) < LoopWork(s)
  {
    hide GoodClients, DrainClientStep, LoopWork;
    var s' := DrainClientStep(s, c, accepted);
    QueueShort(s, c);
    RoundLeaves(s, c, accepted);
    OneLess(s.drain.todo, c);
    Times(4 * s.half + 4, |s.drain.todo|);
    DrainWork(s);
    DrainWork(s');
  }

  lemma FinishLeavesLess(s: State)
    requires Enabled(s, FinishBatch)
    ensures LoopWork(FinishBatchStep(s)) < LoopWork(s)
  {
    var s' := FinishBatchStep(s);
    assert s.drain.Draining? ==> Untouched(s') == Untouched(s);
  }

  lemma CountLeavesLess(s: State)
    requires Enabled(s, CompleteCount)
    ensures LoopWork(CompleteCountStep(s)) < LoopWork(s)
  {
  }

  lemma RequeueLeavesLess(s: State, enough: Pair<bool>)
    requires Enabled(s, CompleteRequeue(enough))
    ensures LoopWork(CompleteRequeueStep(s, enough)) < LoopWork(s)
  {
    hide CompleteRequeueStep, LeftBehind;
    CompleteRequeueShape(s, enough);
  }

  lemma RemoveLeavesLess(s: State)
    requires Enabled(s, TryRemove) && (s.act.resume.Return? ==> !s.drain.Draining?)
    ensures LoopWork(TryRemoveStep(s)) < LoopWork(s)
  {
    hide TryRemoveStep;
    TryRemoveShape(s);
  }

  /** Inside a drain only batches are dealt with. */
  lemma DrainRemoves(s: State)
    requires GoodClients(s) && s.act.Remove? && s.drain.Draining?
    ensures s.act.resume.Item?
  {
    assert GoodClient(ViewOf(s, s.act.c));
  }

  lemma LoopLeavesAdders(s: State, step: Step)
    requires Enabled(s, step) && IsLoop(step)
    ensures Next(s, step).adders == s.adders
  {
    hide DrainClientStep, TryRemoveStep, CompleteRequeueStep;
    match step
    case DrainClient(c, accepted) => RoundLeaves(s, c, accepted);
    case TryRemove => TryRemoveShape(s);
    case CompleteRequeue(enough) => CompleteRequeueShape(s, enough);
    case _ =>
  }

  lemma LoopLeavesLess(s: State, step: Step)
    requires GoodClients(s) && Enabled(s, step) && IsLoop(step)
    ensures LoopWork(Next(s, step)) < LoopWork(s)
  {
    hide GoodClients, DrainClientStep, TryRemoveStep, CompleteRequeueStep, CompleteCountStep, FinishBatchStep;
    match step
    case DrainClient(c, accepted) => hide LoopWork; RoundLeavesLess(s, c, accepted);
    case CompleteCount => hide LoopWork; CountLeavesLess(s);
    case CompleteRequeue(enough) => hide LoopWork; RequeueLeavesLess(s, enough);
    case FinishBatch => hide LoopWork; FinishLeavesLess(s);
    case TryRemove =>
      hide LoopWork;
      if s.drain.Draining? { DrainRemoves(s); }
      RemoveLeavesLess(s);
    case EndDrain =>
  }

  lemma ThreadKeepsWork(s: State, step: Step)
    requires Enabled(s, step) && IsThread(step)
    ensures LoopWork(Next(s, step)) == LoopWork(s)
  {
    hide Next;
    ThreadLoss(s, step);
    ThreadKeepsBatches(s, step, if s.act.NoAct? then 0 else s.act.c);
  }

  predicate IsInside(step: Step) {
    step.CountUp? || step.Push? || step.GiveUp?
  }

  /** A thread inside the guard comes one stage further. */
  lemma StageLeavesLess(adders: map<ThreadId, Adder>, t: ThreadId, a: Adder)
    requires t in adders && adders[t].guard.Inside?
    requires match adders[t].guard.stage
      case Checked => a.guard.Inside? && a.guard.stage.Counted?
      case Counted => a.guard.Outside? || a.guard.stage.Failed?
      case Failed => a.guard.Outside?
    ensures GuardWork(adders[t := a]) < GuardWork(adders)
  {
    var now := adders[t := a];
    assert Inside1(now) == if a.guard.Inside? then Inside1(adders) else Inside1(adders) - {t};
    assert Inside2(now) == if adders[t].guard.stage.Counted? then Inside2(adders) - {t} else Inside2(adders);
    assert Inside3(now) == if adders[t].guard.stage.Checked? then Inside3(adders) - {t} else Inside3(adders);
    assert t in Inside1(adders);
    assert adders[t].guard.stage.Counted? ==> t in Inside2(adders);
    assert adders[t].guard.stage.Checked? ==> t in Inside3(adders);
  }

  lemma GuardLeavesLess(s: State, step: Step)
    requires Enabled(s, step) && IsInside(step)
    ensures GuardWork(Next(s, step).adders) < GuardWork(s.adders)
  {
    hide GuardWork;
    StageLeavesLess(s.adders, step.t, Next(s, step).adders[step.t]);
  }

  lemma StepLeavesLess(s: State, step: Step)
    requires GoodClients(s) && Enabled(s, step) && OnTheWay(step)
    ensures Work(Next(s, step)) < Work(s)
  {
    hide GoodClients, LoopWork, GuardWork, Next, Enabled;
    if IsLoop(step) {
      LoopLeavesLess(s, step);
      LoopLeavesAdders(s, step);
    } else {
      ThreadKeepsWork(s, step);
      GuardLeavesLess(s, step);
    }
  }

  // ----- so it comes to rest -----

  lemma StepKeeps(s: State, step: Step)
    requires Inv(s) && Enabled(s, step)
    ensures Inv(Next(s, step))
  {
    hide GoodClients, GoodResponses, Next;
    assert [step][1..] == [];
    RunKeeps(s, [step], Next(s, step));
  }

  ghost function LoopSteps(steps: seq<Step>): nat {
    if steps == [] then 0 else (if IsLoop(steps[0]) then 1 else 0) + LoopSteps(steps[1..])
  }

  /** However many steps threads take in between, the loop itself takes only so many until it is at rest. */
  lemma {:induction false} LoopRunsAreShort(s: State, steps: seq<Step>, s': State)
    requires Inv(s) && Run(s, steps, s')
    requires forall k :: 0 <= k < |steps| ==> IsLoop(steps[k]) || IsThread(steps[k])
    ensures LoopSteps(steps) <= LoopWork(s)
    decreases |steps|
  {
    hide GoodClients, GoodResponses, Next, LoopWork, IsLoop, IsThread;
    if steps != [] {
      StepKeeps(s, steps[0]);
      if IsLoop(steps[0]) {
        LoopLeavesLess(s, steps[0]);
      } else {
        ThreadKeepsWork(s, steps[0]);
      }
      LoopRunsAreShort(Next(s, steps[0]), steps[1..], s');
    }
  }

  /** From every state the loop can get back to rest, within a bound known beforehand. */
  lemma {:induction false} ReturnsToRest(s: State) returns (steps: seq<Step>, s': State)
    requires Inv(s)
    ensures Run(s, steps, s') && AtRest(s') && |steps| <= Work(s)
    ensures forall k :: 0 <= k < |steps| ==> OnTheWay(steps[k])
    decreases Work(s)
  {
    hide GoodClients, GoodResponses, Next, Work, Enabled, OnTheWay;
    if AtRest(s) {
      steps, s' := [], s;
    } else {
      GoodMoves(s);
      var step :| OnTheWay(step) && Enabled(s, step);
      StepLeavesLess(s, step);
      StepKeeps(s, step);
      var rest;
      rest, s' := ReturnsToRest(Next(s, step));
      steps := [step] + rest;
      assert steps[1..] == rest;
    }
  }
}
