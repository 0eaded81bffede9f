/** What holds of every run of the delivery protocol. */
module DeliveryTheorems {
  import opened Delivery
  import opened DeliveryInvariant
  import opened DeliverySteps
  import opened DeliveryResponses

  ghost predicate Reachable(s: State) {
    exists half: nat, overhead: nat, steps: seq<Step> :: Run(Init(half, overhead), steps, s)
  }

  lemma InitGood(half: nat, overhead: nat)
    ensures Inv(Init(half, overhead))
  {
    assert Queued(Init(half, overhead).live) == {};
  }

  lemma {:induction false} RunKeeps(s: State, steps: seq<Step>, s': State)
    requires Inv(s) && Run(s, steps, s')
    ensures Inv(s')
    decreases |steps|
  {
    hide GoodClients, GoodResponses, Next;
    if steps != [] {
      ClientsKept(s, steps[0]);
      ResponsesKept(s, steps[0]);
      RunKeeps(Next(s, steps[0]), steps[1..], s');
    }
  }

  lemma ReachableGood(s: State)
    requires Reachable(s)
    ensures Inv(s)
  {
    hide Inv, Run;
    var half: nat, overhead: nat, steps: seq<Step> :| Run(Init(half, overhead), steps, s);
    InitGood(half, overhead);
    RunKeeps(Init(half, overhead), steps, s);
  }

  lemma ReachableClient(s: State, c: ClientId)
    requires Reachable(s) && c in s.clients
    ensures GoodClient(ViewOf(s, c))
  {
    hide GoodClient, GoodResponses, Reachable;
    ReachableGood(s);
  }

  // ----- which clients and responses a step changes -----

  predicate IsThread(step: Step) {
    step.BeginAdd? || step.CheckClient? || step.CountUp? || step.Push? || step.GiveUp? || step.EndAdd?
  }

  lemma BeginDisconnectShape(s: State, c: ClientId, resume: Resume)
    requires c in s.clients
    ensures var s' := BeginDisconnect(s, c, resume);
      && s' == s.(act := s'.act, clients := s.clients[c := s.clients[c].(marked := true)])
      && (s'.act == s.act || s'.act == Remove(c, resume))
  {
  }

  /** A callback works on one client; it sends nothing and takes no mark back. */
  ghost predicate OnlyOne(s: State, s': State, c: ClientId) {
    && c in s'.clients
    && s' == s.(act := s'.act, clients := s.clients[c := s'.clients[c]])
    && (s'.act == s.act || s'.act == Remove(c, Return))
    && (c in s.clients ==>
          && !s.clients[c].phase.Freed?
          && s'.clients[c].handed == s.clients[c].handed
          && (s.clients[c].marked ==> s'.clients[c].marked))
  }

  lemma NewClientShape(s: State, c: ClientId, added: bool)
    requires Enabled(s, NewClient(c, added))
    ensures OnlyOne(s, NewClientStep(s, c, added), c)
  {
    if !added {
      hide BeginDisconnect;
      BeginDisconnectShape(Put(s, c, FRESH_CLIENT.(inPool := false)), c, Return);
    }
  }

  lemma RequestDoneShape(s: State, c: ClientId, memoryError: bool)
    requires Enabled(s, RequestDone(c, memoryError))
    ensures OnlyOne(s, RequestDoneStep(s, c, memoryError), c)
  {
    hide BeginDisconnect;
    var cl := s.clients[c];
    BeginDisconnectShape(Put(s, c,
        cl.(marked := cl.marked || memoryError, busy := false, requests := cl.requests - 1)), c, Return);
  }

  lemma CallbackShape(s: State, step: Step)
    requires Enabled(s, step) && IsCallback(step)
    ensures OnlyOne(s, Next(s, step), step.c)
  {
    hide BeginDisconnect, NewClientStep, RequestDoneStep;
    match step
    case NewClient(c, added) =>
      hide OnlyOne;
      NewClientShape(s, c, added);
    case RequestDone(c, memoryError) =>
      hide OnlyOne;
      RequestDoneShape(s, c, memoryError);
    case Disconnect(c) => BeginDisconnectShape(s, c, Return);
    case _ =>
  }

  lemma DrainShape(s: State, c: ClientId, accepted: bool)
    requires Enabled(s, DrainClient(c, accepted))
    ensures var s' := DrainClientStep(s, c, accepted);
      && s'.clients == (if s.clients[c].batch != [] then s.clients
          else s.clients[c := TakeBatch(s.clients[c], !s.flag)])
      && s'.live == s.live && s'.nextId == s.nextId
  {
    hide TakeBatch;
  }

  lemma PushShape(s: State, t: ThreadId, memory: bool)
    requires Enabled(s, Push(t, memory))
    ensures var s', c := PushStep(s, t, memory), s.adders[t].guard.client;
      && s'.live == s.live && s'.nextId == s.nextId
      && c in s'.clients && s'.clients == s.clients[c := s'.clients[c]]
      && s'.clients[c].marked == s.clients[c].marked && s'.clients[c].handed == s.clients[c].handed
      && s'.clients[c].batch == s.clients[c].batch
  {
    assert s.clients == s.clients[s.adders[t].guard.client := s.clients[s.adders[t].guard.client]];
  }

  lemma PushFrame(s: State, t: ThreadId, memory: bool)
    requires Enabled(s, Push(t, memory))
    ensures var s' := PushStep(s, t, memory);
      && s'.act == s.act && s'.drain == s.drain && s'.flag == s.flag && s'.clients.Keys == s.clients.Keys
      && s'.lost.one <= s.lost.one && s'.lost.two <= s.lost.two && s'.lost.At(!s.flag) == s.lost.At(!s.flag)
  {
  }

  /** Threads leave batches and marks alone. */
  lemma ThreadKeepsBatches(s: State, step: Step, c: ClientId)
    requires Enabled(s, step) && IsThread(step)
    ensures var s' := Next(s, step);
      && s'.half == s.half
      && (c in s.clients <==> c in s'.clients)
      && (c in s.clients ==>
            s'.clients[c].batch == s.clients[c].batch && s'.clients[c].completed == s.clients[c].completed
            && s'.clients[c].marked == s.clients[c].marked)
  {
  }

  // ----- no queued response is forgotten -----

  /** The client is in the receiver set of each non-empty queue, or a batch in flight will put it there. */
  ghost predicate Served(s: State, c: ClientId)
    requires c in s.clients
  {
    var cl := s.clients[c];
    cl.batch != [] || ((cl.q.one != [] ==> c in s.sets.one) && (cl.q.two != [] ==> c in s.sets.two))
  }

  lemma SetsHaveWork(s: State, c: ClientId)
    requires Reachable(s) && AtRest(s) && c in s.clients
    ensures c in s.sets.one ==> s.clients[c].q.one != []
    ensures c in s.sets.two ==> s.clients[c].q.two != []
  {
    hide Reachable;
    ReachableClient(s, c);
  }

  /**
    Between callbacks, and with no batch of the client in flight, the responses in a queue are forgotten
    exactly when the client has been left behind with that queue.
  */
  lemma ServedUnlessLost(s: State, c: ClientId)
    requires Reachable(s) && AtRest(s) && c in s.clients
    ensures Served(s, c) <==> s.clients[c].batch != [] || (c !in s.lost.one && c !in s.lost.two)
    ensures forall side :: c in s.lost.At(side) ==> s.clients[c].q.At(side) != [] && c !in s.sets.At(side)
  {
    hide Reachable;
    ReachableClient(s, c);
  }

  /** The drain stops short of a fatal error and uv_write then refuses the batch. */
  predicate CutAndRefused(s: State, step: Step) {
    && step.DrainClient? && step.c in s.clients && !step.accepted
    && s.clients[step.c].batch == [] && !s.clients[step.c].marked
    && 0 < FirstFatal(s.clients[step.c].q.At(!s.flag)) < |s.clients[step.c].q.At(!s.flag)|
  }

  /** Memory runs short as a client is to join the set of one of its queues again. */
  predicate MissesSet(s: State, c: ClientId, enough: Pair<bool>, side: bool)
    requires c in s.clients
  {
    s.clients[c].q.At(side) != [] && c !in s.sets.At(side) && !enough.At(side)
  }

  /** A step that leaves a client behind. */
  predicate LeavesBehind(s: State, step: Step) {
    || CutAndRefused(s, step)
    || (step.CompleteRequeue? && s.act.Requeue? && s.act.c in s.clients &&
        (MissesSet(s, s.act.c, step.enough, true) || MissesSet(s, s.act.c, step.enough, false)))
  }

  /** No step of the run leaves a client behind. */
  ghost predicate NeverLeavesBehind(s: State, steps: seq<Step>)
    decreases |steps|
  {
    steps == [] || (Enabled(s, steps[0]) && !LeavesBehind(s, steps[0])
        && NeverLeavesBehind(Next(s, steps[0]), steps[1..]))
  }

  ghost predicate NothingLost(s: State) {
    s.lost == Pair({}, {}) && (InBatch(s.act) ==> !Cut(s.act))
  }

  /** A thread changes nothing that the event loop does; what it pushes to a queue makes up for what was lost there. */
  lemma ThreadLoss(s: State, step: Step)
    requires Enabled(s, step) && IsThread(step)
    ensures var s' := Next(s, step);
      && s'.act == s.act && s'.drain == s.drain && s'.flag == s.flag && s'.clients.Keys == s.clients.Keys
      && s'.lost.one <= s.lost.one && s'.lost.two <= s.lost.two && s'.lost.At(!s.flag) == s.lost.At(!s.flag)
  {
    hide PushStep;
    if step.Push? {
      PushFrame(s, step.t, step.memory);
    }
  }

  lemma FirstFatalOfHead(q: seq<Resp>)
    ensures q != [] && !q[0].fatal ==> FirstFatal(q) > 0
  {
  }

  lemma DrainLosesNothing(s: State, c: ClientId, accepted: bool)
    requires NothingLost(s) && Enabled(s, DrainClient(c, accepted)) && !CutAndRefused(s, DrainClient(c, accepted))
    ensures NothingLost(DrainClientStep(s, c, accepted))
  {
    hide FirstFatal;
    FirstFatalOfHead(s.clients[c].q.At(!s.flag));
  }

  lemma RejoinLosesNothing(s: State, enough: Pair<bool>)
    requires NothingLost(s) && Enabled(s, CompleteRequeue(enough)) && !LeavesBehind(s, CompleteRequeue(enough))
    ensures NothingLost(CompleteRequeueStep(s, enough))
  {
    hide CompleteRequeueStep;
    CompleteRequeueShape(s, enough);
    var sets := AddToSets(s.sets, s.act.c, s.clients[s.act.c], enough);
    assert !MissesSet(s, s.act.c, enough, true) && !MissesSet(s, s.act.c, enough, false);
    assert LeftBehind({}, sets.one, s.act.c, s.clients[s.act.c].q.one) == {};
    assert LeftBehind({}, sets.two, s.act.c, s.clients[s.act.c].q.two) == {};
  }

  lemma StepLosesNothing(s: State, step: Step)
    requires NothingLost(s) && Enabled(s, step) && !LeavesBehind(s, step)
    ensures NothingLost(Next(s, step))
  {
    hide DrainClientStep, TryRemoveStep, CompleteRequeueStep;
    if IsCallback(step) {
      hide Next;
      CallbackShape(s, step);
    } else if IsThread(step) {
      hide Next;
      ThreadLoss(s, step);
      assert Next(s, step).lost.one == {} && Next(s, step).lost.two == {};
    } else {
      match step
      case DrainClient(c, accepted) =>
        hide NothingLost, CutAndRefused;
        DrainLosesNothing(s, c, accepted);
      case TryRemove => TryRemoveShape(s);
      case CompleteRequeue(enough) =>
        hide NothingLost, LeavesBehind;
        RejoinLosesNothing(s, enough);
      case _ =>
    }
  }

  lemma {:induction false} LosesNothing(s: State, steps: seq<Step>, s': State)
    requires NothingLost(s) && NeverLeavesBehind(s, steps) && Run(s, steps, s')
    ensures NothingLost(s')
    decreases |steps|
  {
    hide NothingLost, Next, LeavesBehind;
    if steps != [] {
      StepLosesNothing(s, steps[0]);
      LosesNothing(Next(s, steps[0]), steps[1..], s');
    }
  }

  /** On runs without such a refusal, and without such a shortage of memory, no response is ever forgotten. */
  lemma NothingForgotten(half: nat, overhead: nat, steps: seq<Step>, s: State, c: ClientId)
    requires Run(Init(half, overhead), steps, s) && NeverLeavesBehind(Init(half, overhead), steps)
    requires AtRest(s) && c in s.clients
    ensures Served(s, c)
  {
    hide Run, NeverLeavesBehind;
    LosesNothing(Init(half, overhead), steps, s);
    assert Reachable(s);
    ServedUnlessLost(s, c);
  }

  /** The steps lead from s to the first state in which the event loop is at rest again. */
  ghost predicate RunToRest(s: State, steps: seq<Step>, s': State)
    decreases |steps|
  {
    && steps != [] && Enabled(s, steps[0])
    && if |steps| == 1 then s' == Next(s, steps[0]) && AtRest(s')
       else !AtRest(Next(s, steps[0])) && RunToRest(Next(s, steps[0]), steps[1..], s')
  }

  /** The drain is on its way to forget the responses of client c. */
  ghost predicate Doomed(s: State, c: ClientId) {
    && s.drain.Draining? && c in s.clients
    && if ActOn(s, c) == NoAct then c in s.lost.At(!s.flag) && c !in s.drain.todo && s.clients[c].batch == []
       else InBatch(s.act) && Cut(s.act)
  }

  lemma ThreadDoomed(s: State, step: Step, c: ClientId)
    requires Doomed(s, c) && Enabled(s, step) && IsThread(step)
    ensures Doomed(Next(s, step), c)
  {
    hide PushStep;
    if step.Push? {
      PushFrame(s, step.t, step.memory);
      PushShape(s, step.t, step.memory);
    }
  }

  lemma DrainDoomed(s: State, d: ClientId, accepted: bool, c: ClientId)
    requires Doomed(s, c) && Enabled(s, DrainClient(d, accepted))
    ensures Doomed(DrainClientStep(s, d, accepted), c)
  {
    hide TakeBatch;
  }

  lemma DoomedStep(s: State, step: Step, c: ClientId)
    requires Doomed(s, c) && Enabled(s, step)
    ensures if step.EndDrain? then
              c in s.lost.At(!s.flag) && s.clients[c].batch == [] && Next(s, step).lost == s.lost
            else Doomed(Next(s, step), c)
  {
    hide TakeBatch, TryRemoveStep, CompleteRequeueStep, DrainClientStep;
    if IsThread(step) {
      hide Next;
      ThreadDoomed(s, step, c);
    } else {
      match step
      case DrainClient(d, accepted) => DrainDoomed(s, d, accepted, c);
      case TryRemove => TryRemoveShape(s);
      case CompleteRequeue(enough) => CompleteRequeueShape(s, enough);
      case _ =>
    }
  }

  lemma EndDrainRests(s: State)
    requires Enabled(s, EndDrain)
    ensures AtRest(Next(s, EndDrain)) && Next(s, EndDrain).clients == s.clients
  {
  }

  lemma {:induction false} DoomedRun(s: State, steps: seq<Step>, s': State, c: ClientId)
    requires Doomed(s, c) && RunToRest(s, steps, s')
    ensures c in s'.clients && s'.clients[c].batch == [] && (c in s'.lost.one || c in s'.lost.two)
    decreases |steps|
  {
    hide Next;
    DoomedStep(s, steps[0], c);
    if steps[0].EndDrain? {
      EndDrainRests(s);
    } else if |steps| > 1 {
      DoomedRun(Next(s, steps[0]), steps[1..], s', c);
    }
  }

  lemma RefusalDooms(s: State, c: ClientId)
    requires Enabled(s, DrainClient(c, false)) && CutAndRefused(s, DrainClient(c, false))
    ensures Doomed(Next(s, DrainClient(c, false)), c)
  {
  }

  lemma {:induction false} RunAppend(s: State, first: seq<Step>, m: State, rest: seq<Step>, s': State)
    requires Run(s, first, m) && Run(m, rest, s')
    ensures Run(s, first + rest, s')
    decreases |first|
  {
    hide Next;
    if first == [] {
      assert first + rest == rest;
    } else {
      RunAppend(Next(s, first[0]), first[1..], m, rest, s');
      assert (first + rest)[1..] == first[1..] + rest;
    }
  }

  lemma OneStep(m: State, step: Step)
    requires Enabled(m, step)
    ensures Run(m, [step], Next(m, step))
  {
    hide Next, Enabled;
    assert [step][1..] == [];
  }

  lemma {:induction false} Extend(s: State, steps: seq<Step>, m: State, step: Step)
    requires Run(s, steps, m) && Enabled(m, step)
    ensures Run(s, steps + [step], Next(m, step))
  {
    hide Next, Enabled, Run;
    OneStep(m, step);
    RunAppend(s, steps, m, [step], Next(m, step));
  }

  lemma {:induction false} RestIsRun(s: State, steps: seq<Step>, s': State)
    requires RunToRest(s, steps, s')
    ensures Run(s, steps, s') && AtRest(s')
    decreases |steps|
  {
    hide Next;
    if |steps| > 1 {
      RestIsRun(Next(s, steps[0]), steps[1..], s');
    } else {
      assert steps[1..] == [];
    }
  }

  lemma DoomedIsBusy(s: State, c: ClientId)
    requires Doomed(s, c)
    ensures !AtRest(s)
  {
  }

  lemma ReachableRun(s: State, steps: seq<Step>, s': State)
    requires Reachable(s) && Run(s, steps, s')
    ensures Reachable(s')
  {
    hide Run;
    var half: nat, overhead: nat, first: seq<Step> :| Run(Init(half, overhead), first, s);
    RunAppend(Init(half, overhead), first, s, steps, s');
  }

  /** A refusal of a batch cut short does forget what is left in the queue. */
  lemma RefusalForgets(s: State, c: ClientId, steps: seq<Step>, s': State)
    requires Reachable(s) && RunToRest(s, [DrainClient(c, false)] + steps, s')
    requires CutAndRefused(s, DrainClient(c, false))
    ensures c in s'.clients && !Served(s', c)
  {
    var all := [DrainClient(c, false)] + steps;
    assert all[1..] == steps;
    hide Next, CutAndRefused, Doomed, Served;
    RefusalDooms(s, c);
    DoomedIsBusy(Next(s, all[0]), c);
    DoomedRun(Next(s, all[0]), steps, s', c);
    RestIsRun(s, all, s');
    ReachableRun(s, all, s');
    ServedUnlessLost(s', c);
  }

  /** The loop has done with the batch of a client that has been left behind with one queue. */
  ghost predicate Stuck(s: State, c: ClientId, side: bool) {
    && c in s.clients && c in s.lost.At(side)
    && if ActOn(s, c) == NoAct then s.clients[c].batch == [] && (s.drain.Draining? ==> c !in s.drain.todo)
       else s.act.Complete? && s.clients[c].completed == |s.clients[c].batch|
  }

  ghost function PushedCount(s: State, c: ClientId, side: bool): nat {
    if c in s.clients then |s.clients[c].pushed.At(side)| else 0
  }

  lemma PushStuck(s: State, t: ThreadId, memory: bool, c: ClientId, side: bool)
    requires Stuck(s, c, side) && Enabled(s, Push(t, memory))
    ensures var s' := PushStep(s, t, memory);
      && PushedCount(s, c, side) <= PushedCount(s', c, side)
      && (Stuck(s', c, side) || PushedCount(s, c, side) < PushedCount(s', c, side))
  {
  }

  lemma ThreadStuck(s: State, step: Step, c: ClientId, side: bool)
    requires Stuck(s, c, side) && Enabled(s, step) && IsThread(step)
    ensures PushedCount(s, c, side) <= PushedCount(Next(s, step), c, side)
    ensures Stuck(Next(s, step), c, side) || PushedCount(s, c, side) < PushedCount(Next(s, step), c, side)
  {
    hide PushStep;
    if step.Push? {
      PushStuck(s, step.t, step.memory, c, side);
    }
  }

  lemma DrainStuck(s: State, d: ClientId, accepted: bool, c: ClientId, side: bool)
    requires Stuck(s, c, side) && Enabled(s, DrainClient(d, accepted))
    ensures var s' := DrainClientStep(s, d, accepted);
      Stuck(s', c, side) && PushedCount(s', c, side) == PushedCount(s, c, side)
  {
    hide FirstFatal, BatchLength, MarkedByHead;
  }

  lemma StuckStep(s: State, step: Step, c: ClientId, side: bool)
    requires Stuck(s, c, side) && Enabled(s, step) && !AtRest(s)
    ensures PushedCount(s, c, side) <= PushedCount(Next(s, step), c, side)
    ensures Stuck(Next(s, step), c, side) || PushedCount(s, c, side) < PushedCount(Next(s, step), c, side)
  {
    if IsThread(step) {
      hide Stuck, Next;
      ThreadStuck(s, step, c, side);
    } else {
      hide TakeBatch, TryRemoveStep, CompleteRequeueStep, DrainClientStep;
      match step
      case TryRemove => TryRemoveShape(s);
      case CompleteRequeue(enough) => CompleteRequeueShape(s, enough);
      case DrainClient(d, accepted) => DrainStuck(s, d, accepted, c, side);
      case _ =>
    }
  }

  lemma PushesGrow(s: State, step: Step, c: ClientId, side: bool)
    requires Enabled(s, step) && !AtRest(s)
    ensures PushedCount(s, c, side) <= PushedCount(Next(s, step), c, side)
  {
    hide TryRemoveStep, CompleteRequeueStep, FirstFatal, BatchLength, MarkedByHead;
    match step
    case TryRemove => TryRemoveShape(s);
    case CompleteRequeue(enough) => CompleteRequeueShape(s, enough);
    case _ =>
  }

  lemma {:induction false} PushesGrowOn(s: State, steps: seq<Step>, s': State, c: ClientId, side: bool)
    requires !AtRest(s) && RunToRest(s, steps, s')
    ensures PushedCount(s, c, side) <= PushedCount(s', c, side)
    decreases |steps|
  {
    hide Next;
    PushesGrow(s, steps[0], c, side);
    if |steps| > 1 {
      PushesGrowOn(Next(s, steps[0]), steps[1..], s', c, side);
    }
  }

  lemma {:induction false} StuckRun(s: State, steps: seq<Step>, s': State, c: ClientId, side: bool)
    requires Stuck(s, c, side) && !AtRest(s) && RunToRest(s, steps, s')
    ensures Stuck(s', c, side) || PushedCount(s, c, side) < PushedCount(s', c, side)
    decreases |steps|
  {
    hide Next, Stuck;
    StuckStep(s, steps[0], c, side);
    if |steps| > 1 {
      PushesGrowOn(Next(s, steps[0]), steps[1..], s', c, side);
      if Stuck(Next(s, steps[0]), c, side) {
        StuckRun(Next(s, steps[0]), steps[1..], s', c, side);
      }
    }
  }

  lemma MissStays(s: State, enough: Pair<bool>, side: bool)
    requires Enabled(s, CompleteRequeue(enough)) && MissesSet(s, s.act.c, enough, side)
    requires s.clients[s.act.c].completed == |s.clients[s.act.c].batch|
    ensures var s' := Next(s, CompleteRequeue(enough));
      Stuck(s', s.act.c, side) && !AtRest(s') && PushedCount(s', s.act.c, side) == PushedCount(s, s.act.c, side)
  {
    hide CompleteRequeueStep;
    CompleteRequeueShape(s, enough);
  }

  /**
    So does a shortage of memory as the last response of a batch is completed, unless a thread pushes
    another response to the same queue before the loop is at rest.
  */
  lemma MissForgets(s: State, enough: Pair<bool>, side: bool, steps: seq<Step>, s': State)
    requires Reachable(s) && RunToRest(s, [CompleteRequeue(enough)] + steps, s')
    requires s.clients[s.act.c].completed == |s.clients[s.act.c].batch| && MissesSet(s, s.act.c, enough, side)
    requires PushedCount(s', s.act.c, side) == PushedCount(s, s.act.c, side)
    ensures s.act.c in s'.clients && !Served(s', s.act.c) && s.act.c in s'.lost.At(side)
  {
    var c, all := s.act.c, [CompleteRequeue(enough)] + steps;
    assert all[1..] == steps;
    hide Next, MissesSet, Served, PushedCount, Run;
    MissStays(s, enough, side);
    StuckRun(Next(s, all[0]), steps, s', c, side);
    RestIsRun(s, all, s');
    ReachableRun(s, all, s');
    ServedUnlessLost(s', c);
  }

  // ----- counts and the life of a client object -----

  lemma CountsAtRest(s: State, c: ClientId)
    requires Reachable(s) && AtRest(s) && c in s.clients
    ensures s.clients[c].responses ==
            |s.clients[c].q.one| + |s.clients[c].q.two| + |s.clients[c].batch| + |CountedBy(s.adders, c)|
    ensures s.clients[c].requests == if s.clients[c].busy then 1 else 0
  {
    hide Reachable;
    ReachableClient(s, c);
  }

  /** Nothing refers to the client any more. */
  ghost predicate Unreferenced(s: State, c: ClientId)
    requires c in s.clients
  {
    && s.clients[c].q == Pair([], []) && s.clients[c].batch == []
    && c !in s.sets.one && c !in s.sets.two
    && InGuard(s.adders, c) == {}
    && s.clients[c].requests == 0 && !s.clients[c].busy && !s.clients[c].inPool
    && ActOn(s, c) == NoAct
    && (s.drain.Draining? ==> c !in s.drain.todo)
  }

  /** A client is closed and freed only when nothing refers to it. */
  lemma FreedUnreferenced(s: State, c: ClientId)
    requires Reachable(s) && c in s.clients && (s.clients[c].phase.Closing? || s.clients[c].phase.Freed?)
    ensures Unreferenced(s, c)
  {
    hide Reachable;
    ReachableClient(s, c);
    ReachableGood(s);
    hide GoodResponses;
    var v := ViewOf(s, c);
    assert v.cl.q.one == [] && v.cl.q.two == [] && v.cl.batch == [] && !v.inSet.one && !v.inSet.two;
  }

  /** No thread inside the guard, no drain and no completion is about to touch the client. */
  ghost predicate Aside(s: State, c: ClientId) {
    && c in s.clients && s.clients[c].phase.Freed?
    && (forall t :: t in s.adders && s.adders[t].guard.Inside? ==> s.adders[t].guard.client != c)
    && (s.act != NoAct ==> s.act.c != c)
    && (s.drain.Draining? ==> c !in s.drain.todo)
    && s.clients[c].batch == [] && !s.clients[c].busy && !s.clients[c].inPool
  }

  lemma FreedAside(s: State, c: ClientId)
    requires GoodClients(s) && c in s.clients && s.clients[c].phase.Freed?
    ensures Aside(s, c)
  {
    var v := ViewOf(s, c);
    assert GoodClient(v) && v.act == NoAct && v.inside == {} && !v.inSet.At(!s.flag);
    hide GoodClient;
    forall t | t in s.adders && s.adders[t].guard.Inside? ensures s.adders[t].guard.client != c {
      assert t !in InGuard(s.adders, c);
    }
  }

  lemma FreedThread(s: State, step: Step, c: ClientId)
    requires Aside(s, c) && Enabled(s, step) && IsThread(step)
    ensures c in Next(s, step).clients && Next(s, step).clients[c] == s.clients[c]
  {
    hide PushStep;
    if step.Push? {
      PushShape(s, step.t, step.memory);
    }
  }

  lemma FreedStep(s: State, step: Step, c: ClientId)
    requires Aside(s, c) && Enabled(s, step)
    ensures c in Next(s, step).clients && Next(s, step).clients[c] == s.clients[c]
  {
    hide DrainClientStep, TryRemoveStep, CompleteRequeueStep;
    if IsCallback(step) {
      hide Next;
      CallbackShape(s, step);
    } else if IsThread(step) {
      hide Next;
      FreedThread(s, step, c);
    } else {
      match step
      case DrainClient(d, accepted) => DrainShape(s, d, accepted);
      case TryRemove => TryRemoveShape(s);
      case CompleteRequeue(enough) => CompleteRequeueShape(s, enough);
      case _ =>
    }
  }

  /** And then nothing starts to refer to it, whatever the server does. */
  lemma {:induction false} FreedForever(s: State, steps: seq<Step>, s': State, c: ClientId)
    requires Inv(s) && c in s.clients && s.clients[c].phase.Freed? && Run(s, steps, s')
    ensures c in s'.clients && s'.clients[c] == s.clients[c]
    decreases |steps|
  {
    hide GoodClients, GoodResponses, Next;
    if steps != [] {
      ClientsKept(s, steps[0]);
      ResponsesKept(s, steps[0]);
      FreedAside(s, c);
      FreedStep(s, steps[0], c);
      FreedForever(Next(s, steps[0]), steps[1..], s', c);
    }
  }

  /** A marked client without requests and responses has had its disconnection queued. */
  lemma NoneDangling(s: State, c: ClientId)
    requires Reachable(s) && AtRest(s) && c in s.clients
    requires s.clients[c].marked && s.clients[c].requests == 0 && s.clients[c].responses == 0
    ensures !s.clients[c].phase.Live?
  {
    hide Reachable;
    ReachableClient(s, c);
  }

  /** A step that the event loop takes to get back to rest, or that a thread takes inside the guard. */
  predicate OnTheWay(step: Step) {
    || step.CompleteCount? || step.CompleteRequeue? || step.FinishBatch? || step.TryRemove? || step.EndDrain?
    || step.DrainClient? || step.CountUp? || step.Push? || step.GiveUp?
  }

  ghost predicate CanMove(s: State) {
    exists step :: OnTheWay(step) && Enabled(s, step)
  }

  lemma DrainMoves(s: State)
    requires Wired(s) && s.drain.Draining? && s.act.NoAct?
    ensures CanMove(s)
  {
    if s.drain.todo == {} {
      assert OnTheWay(EndDrain) && Enabled(s, EndDrain);
    } else {
      var c :| c in s.drain.todo;
      assert OnTheWay(DrainClient(c, true)) && Enabled(s, DrainClient(c, true));
    }
  }

  lemma BatchMoves(s: State)
    requires !s.act.NoAct? && !s.act.Remove? && s.act.c in s.clients
    requires GoodClient(ViewOf(s, s.act.c))
    ensures CanMove(s)
  {
    var v := ViewOf(s, s.act.c);
    assert v.cl.completed <= |v.cl.batch| && (v.act.Requeue? ==> v.cl.completed > 0);
    hide GoodClient;
    var step := if s.act.Requeue? then CompleteRequeue(Pair(true, true))
                else if v.cl.completed == |v.cl.batch| then FinishBatch else CompleteCount;
    assert OnTheWay(step) && Enabled(s, step);
  }

  lemma RemoveMoves(s: State)
    requires Wired(s) && s.act.Remove? && GoodClient(ViewOf(s, s.act.c))
    ensures CanMove(s)
  {
    var v := ViewOf(s, s.act.c);
    assert v.act.resume.Item? ==> 0 < v.cl.completed <= |v.cl.batch|;
    hide GoodClient;
    if t :| t in s.adders && s.adders[t].guard.Inside? {
      var step := match s.adders[t].guard.stage
        case Checked => CountUp(t)
        case Counted => Push(t, true)
        case Failed => GiveUp(t);
      assert OnTheWay(step) && Enabled(s, step);
    } else {
      assert OnTheWay(TryRemove) && Enabled(s, TryRemove);
    }
  }

  lemma GoodMoves(s: State)
    requires Inv(s) && !AtRest(s)
    ensures CanMove(s)
  {
    hide CanMove, GoodClient, GoodResponses;
    if s.act.NoAct? {
      DrainMoves(s);
    } else if s.act.Remove? {
      RemoveMoves(s);
    } else {
      BatchMoves(s);
    }
  }

  /** The event loop is never stuck: it can move, or a thread inside the guard can. */
  lemma Progress(s: State)
    requires Reachable(s) && !AtRest(s)
    ensures CanMove(s)
  {
    hide Reachable, CanMove, Inv;
    ReachableGood(s);
    GoodMoves(s);
  }

  /** Nothing that the source asserts about a drain or about the counts can fail. */
  lemma DrainAssertions(s: State, c: ClientId, accepted: bool)
    requires Reachable(s) && Enabled(s, DrainClient(c, accepted)) && s.clients[c].batch == []
    ensures 0 < |s.clients[c].q.At(!s.flag)| <= s.half
    ensures Next(s, DrainClient(c, accepted)).clients[c].batch != []
  {
    hide Reachable;
    ReachableGood(s);
    hide GoodResponses;
    assert GoodClient(ViewOf(s, c));
    TakeBatchKeeps(s.clients[c], !s.flag);
  }

  // ----- bounds, order and fatal errors -----

  lemma QueueBounds(s: State, c: ClientId)
    requires Reachable(s) && c in s.clients
    ensures |s.clients[c].q.one| <= s.half && |s.clients[c].q.two| <= s.half && |s.clients[c].batch| <= s.half
    ensures 0 <= s.clients[c].responses - |CountedBy(s.adders, c)| <= 3 * s.half
  {
    hide Reachable;
    ReachableClient(s, c);
  }

  /**
    Per queue: what was pushed is what was popped followed by what still waits; what uv_write got
    is a prefix of that and ends before the first fatal error.
  */
  lemma InOrderUpToFatal(s: State, c: ClientId, side: bool)
    requires Reachable(s) && c in s.clients
    ensures var cl := s.clients[c];
      && cl.pushed.At(side) == cl.taken.At(side) + cl.q.At(side)
      && cl.handed.At(side) <= cl.pushed.At(side)
      && (forall k :: 0 <= k < |cl.pushed.At(side)| && cl.pushed.At(side)[k].fatal ==> |cl.handed.At(side)| <= k)
      && (!cl.marked ==> cl.pushed.At(side) == cl.handed.At(side) + cl.q.At(side))
  {
    hide Reachable;
    ReachableClient(s, c);
    assert Histories(s.clients[c], side);
  }

  lemma MarkedThread(s: State, step: Step, c: ClientId)
    requires c in s.clients && s.clients[c].marked && Enabled(s, step) && IsThread(step)
    ensures c in Next(s, step).clients && Next(s, step).clients[c].marked
    ensures Next(s, step).clients[c].handed == s.clients[c].handed
  {
    hide PushStep;
    if step.Push? {
      PushShape(s, step.t, step.memory);
    }
  }

  lemma MarkedStep(s: State, step: Step, c: ClientId)
    requires c in s.clients && s.clients[c].marked && Enabled(s, step)
    ensures c in Next(s, step).clients && Next(s, step).clients[c].marked
    ensures Next(s, step).clients[c].handed == s.clients[c].handed
  {
    hide DrainClientStep, TryRemoveStep, CompleteRequeueStep;
    if IsCallback(step) {
      hide Next;
      CallbackShape(s, step);
    } else if IsThread(step) {
      hide Next;
      MarkedThread(s, step, c);
    } else {
      match step
      case DrainClient(d, accepted) => DrainShape(s, d, accepted);
      case TryRemove => TryRemoveShape(s);
      case CompleteRequeue(enough) => CompleteRequeueShape(s, enough);
      case _ =>
    }
  }

  /** No write starts after a client is marked, and a mark is never taken back. */
  lemma {:induction false} NothingSentOnceMarked(s: State, steps: seq<Step>, s': State, c: ClientId)
    requires c in s.clients && s.clients[c].marked && Run(s, steps, s')
    ensures c in s'.clients && s'.clients[c].marked && s'.clients[c].handed == s.clients[c].handed
    decreases |steps|
  {
    hide Next;
    if steps != [] {
      MarkedStep(s, steps[0], c);
      NothingSentOnceMarked(Next(s, steps[0]), steps[1..], s', c);
    }
  }

  // ----- the life of a response object -----

  /** No queue and no batch refers to a deleted response. */
  lemma EntriesLive(s: State, c: ClientId, r: Resp)
    requires Reachable(s) && c in s.clients && r in Entries(s.clients[c])
    ensures r in s.live && Entries(s.clients[c])[r] == 1
  {
    hide Reachable, Entries, GoodClients;
    ReachableGood(s);
    assert GoodEntries(s, c);
  }

  /** A response whose reference count is final lives exactly while it is held or being completed. */
  lemma LiveWhileHeld(s: State, r: Resp)
    requires Reachable(s)
    ensures Holders(s.clients, r) != {} || UnderWay(s, r) ==> r in s.live
    ensures r in s.live && s.live[r].queued ==>
      && (Holders(s.clients, r) != {} || UnderWay(s, r))
      && s.live[r].refs == |Holders(s.clients, r)| + s.live[r].sent + UnderWayCount(s, r)
  {
    hide Reachable, Entries, GoodClients;
    ReachableGood(s);
    if r in s.live { assert GoodResponse(s, r); }
    if c :| c in Holders(s.clients, r) { assert GoodEntries(s, c); }
  }

  /** A response that occurs once, on the loop's side or in the batch, does not occur on the threads' side. */
  lemma OnOneSide(cl: Client, flag: bool, r: Resp)
    requires r in cl.q.At(!flag) || (cl.completed <= |cl.batch| && r in cl.batch[cl.completed..])
    ensures r in Entries(cl) && (Entries(cl)[r] == 1 ==> r !in cl.q.At(flag))
  {
  }

  /** What the drain reads has a final reference count. */
  lemma DrainedAreFinal(s: State, c: ClientId, r: Resp)
    requires Reachable(s) && c in s.clients
    requires r in s.clients[c].q.At(!s.flag)
        || (s.clients[c].completed <= |s.clients[c].batch| && r in s.clients[c].batch[s.clients[c].completed..])
    ensures r in s.live && s.live[r].queued && s.live[r].refs > 0
  {
    hide Reachable, GoodClients, Entries, GoodAdders, GoodCounters, GoodUnderWay, Holders;
    ReachableGood(s);
    OnOneSide(s.clients[c], s.flag, r);
    assert GoodEntries(s, c);
    assert GoodResponse(s, r);
  }

  lemma CountersExact(s: State)
    requires Reachable(s)
    ensures s.inQueue == |Queued(s.live)| && s.memory == SizeOf(Queued(s.live), s.overhead)
  {
    hide Reachable, GoodClients;
    ReachableGood(s);
  }

  lemma SettleLive(s: State, c: ClientId, ok: bool, cut: bool)
    requires c in s.clients && 0 < s.clients[c].completed <= |s.clients[c].batch|
    ensures Settle(s, c, ok, cut).live.Keys <= s.live.Keys && Settle(s, c, ok, cut).nextId == s.nextId
  {
  }

  lemma DeadThread(s: State, step: Step, r: Resp)
    requires r.id < s.nextId && r !in s.live && Enabled(s, step) && GoodResponses(s) && IsThread(step)
    ensures r.id < Next(s, step).nextId && r !in Next(s, step).live
  {
    hide GoodResponses, PushStep;
    match step
    case Push(t, memory) => PushShape(s, t, memory);
    case EndAdd(t) => AdderFacts(s, t);
    case _ =>
  }

  lemma DeadStep(s: State, step: Step, r: Resp)
    requires r.id < s.nextId && r !in s.live && Enabled(s, step) && GoodResponses(s)
    ensures r.id < Next(s, step).nextId && r !in Next(s, step).live
  {
    hide GoodResponses, DrainClientStep, Settle;
    if IsCallback(step) {
      hide Next;
      CallbackShape(s, step);
    } else if IsThread(step) {
      hide Next;
      DeadThread(s, step, r);
    } else {
      match step
      case DrainClient(d, accepted) => DrainShape(s, d, accepted);
      case TryRemove =>
        if s.act.resume.Item? {
          SettleLive(s, s.act.c, s.act.resume.ok, s.act.resume.cut);
          SettleLive(Put(s, s.act.c, Removed(s.clients[s.act.c])), s.act.c, s.act.resume.ok, s.act.resume.cut);
        }
      case CompleteRequeue(enough) =>
        SettleLive(JoinAgain(s, s.act.c, enough), s.act.c, s.act.ok, s.act.cut);
      case _ =>
    }
  }

  /** A response is deleted once: its identity never comes back. */
  lemma {:induction false} DeletedOnce(s: State, steps: seq<Step>, s': State, r: Resp)
    requires Inv(s) && r.id < s.nextId && r !in s.live && Run(s, steps, s')
    ensures r !in s'.live
    decreases |steps|
  {
    hide GoodClients, GoodResponses, Next;
    if steps != [] {
      ClientsKept(s, steps[0]);
      ResponsesKept(s, steps[0]);
      DeadStep(s, steps[0], r);
      DeletedOnce(Next(s, steps[0]), steps[1..], s', r);
    }
  }
}
