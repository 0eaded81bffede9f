/**
  The delivery code as it stands in the source: objects updated in place by loops.  Every method is
  proved to be a run of the transition system of module Delivery, so what holds of all runs holds
  of it.  In SendResponses threads move between the rounds; where they cut into a round, or into one
  of the other methods, the transition system alone covers them.
*/
module LocalClients {
  import opened Delivery
  import opened DeliveryInvariant
  import opened DeliveryTheorems
  import opened DeliverySteps
  import opened DeliveryOutcomes
  import opened DeliveryRest

  lemma StopsAt(q: seq<Resp>, i: nat, was: bool, marked: bool)
    requires i <= |q| && marked == (was || (i > 0 && MarkedByHead(q)))
    requires i < |q| ==> !marked && i > 0 && q[i].fatal
    requires marked || forall k :: 0 <= k < i ==> !q[k].fatal
    ensures i == BatchLength(q, was) && marked == (was || MarkedByHead(q))
  {
  }

  class StClient {
    var queue1: seq<Resp>
    var queue2: seq<Resp>
    var beingSent: seq<Resp>
    var responses: int
    var requests: int
    var busy: bool
    var inPool: bool
    var marked: bool
    var phase: Phase
    ghost var completed: nat
    ghost var pushed: Pair<seq<Resp>>
    ghost var taken: Pair<seq<Resp>>
    ghost var handed: Pair<seq<Resp>>

    ghost function Value(): Client
      reads this
    {
      Client(Pair(queue1, queue2), beingSent, completed, responses, requests, busy, inPool, marked, phase,
             pushed, taken, handed)
    }

    constructor ()
      ensures Value() == FRESH_CLIENT
    {
      queue1, queue2, beingSent := [], [], [];
      responses, requests, completed := 0, 0, 0;
      busy, inPool, marked, phase := false, true, false, Live;
      pushed, taken, handed := Pair([], []), Pair([], []), Pair([], []);
    }

    /** Moves responses to the batch until the queue is empty or a fatal error stops it in the middle. */
    method MoveToBatch(queue: seq<Resp>) returns (rest: seq<Resp>)
      requires beingSent == []
      modifies `beingSent, `marked
      ensures var n := BatchLength(queue, old(marked)); beingSent == queue[..n] && rest == queue[n..]
      ensures marked == (old(marked) || MarkedByHead(queue))
      ensures beingSent + rest == queue && (marked ==> rest == [])
      ensures !marked ==> (forall r :: r in beingSent ==> !r.fatal) && (rest != [] ==> beingSent != [] && rest[0].fatal)
    {
      hide FirstFatal, BatchLength;
      rest := queue;
      var i := 0;
      while rest != []
        invariant i == |beingSent| <= |queue| && beingSent == queue[..i] && rest == queue[i..]
        invariant marked == (old(marked) || (i > 0 && MarkedByHead(queue)))
        invariant marked || forall k :: 0 <= k < i ==> !queue[k].fatal
        decreases |rest|
      {
        var response := rest[0];
        if response.fatal {
          if i == 0 {
            marked := true;
          } else if !marked {
            break;
          }
        }
        beingSent := beingSent + [response];
        rest := rest[1..];
        i := i + 1;
      }
      StopsAt(queue, i, old(marked), marked);
    }

    /** A failed write marks; the response count goes down. */
    method CountDown(ok: bool)
      modifies this
      ensures var was := old(Value());
        Value() == was.(marked := was.marked || !ok, responses := was.responses - 1, completed := was.completed + 1)
      ensures beingSent == old(beingSent) && completed == old(completed) + 1
    {
      if !ok { marked := true; }
      responses := responses - 1;
      completed := completed + 1;
    }

    method AddToCount(n: int)
      modifies this
      ensures Value() == old(Value()).(responses := old(Value()).responses + n)
    {
      responses := responses + n;
    }

    method StartRequest()
      modifies this
      ensures busy && marked == old(marked)
      ensures Value() == old(Value()).(busy := true, requests := old(Value()).requests + 1)
    {
      busy := true;
      requests := requests + 1;
    }

    /** The request is over, or has been put off; a shortage of memory marks the client. */
    method EndRequest(failed: bool, over: bool)
      modifies this
      ensures var was := old(Value()).(marked := old(Value()).marked || failed);
        Value() == if over then was.(busy := false, requests := was.requests - 1) else was
    {
      if failed { marked := true; }
      if over {
        busy := false;
        requests := requests - 1;
      }
    }

    predicate IsMarked()
      reads this
      ensures IsMarked() == Value().marked
    {
      marked
    }

    /** Up to half of the limit waits in one queue; the response goes in and comes out again if memory runs short. */
    method PushResponse(first: bool, r: Resp, half: nat, enough: bool) returns (added: bool)
      modifies this
      ensures var was := old(Value());
        && added == (|was.q.At(first)| < half && enough)
        && Value() == if !added then was else
             was.(q := was.q.With(first, was.q.At(first) + [r]),
                 pushed := was.pushed.With(first, was.pushed.At(first) + [r]))
    {
      added := |if first then queue1 else queue2| < half && enough;
      if added {
        if first { queue1 := queue1 + [r]; } else { queue2 := queue2 + [r]; }
        pushed := pushed.With(first, pushed.At(first) + [r]);
      }
    }

    /** Whether a round of the drain goes on to disconnect the client. */
    predicate MayDisconnect(side: bool, accepted: bool)
      reads this
      ensures MayDisconnect(side, accepted) == RoundWaits(Value(), side, accepted)
    {
      var taken, other := if side then queue1 else queue2, if side then queue2 else queue1;
      && beingSent == [] && (marked || MarkedByHead(taken) || !accepted)
      && BatchLength(taken, marked) == |taken| && other == [] && phase == Live && !busy
    }

    method Clear()
      modifies this
      ensures Value() == old(Value()).(batch := [], completed := 0)
    {
      beingSent := [];
      completed := 0;
    }

    /** The queue's part of one round of the drain. */
    method TakeBatch(first: bool)
      requires beingSent == []
      modifies this
      ensures Value() == Delivery.TakeBatch(old(Value()), first) && completed == old(completed)
    {
      hide FirstFatal, BatchLength, MarkedByHead;
      if first {
        queue1 := MoveToBatch(queue1);
      } else {
        queue2 := MoveToBatch(queue2);
      }
      taken := taken.With(first, taken.At(first) + beingSent);
      if !marked {
        handed := handed.With(first, handed.At(first) + beingSent);
      }
    }
  }

  class ConnectionsManager {
    const half: nat
    const overhead: nat
    var flag: bool
    var set1: set<ClientId>
    var set2: set<ClientId>
    var clients: map<ClientId, StClient>
    var live: map<Resp, Rec>
    var nextId: nat
    var inQueue: int
    var memory: int
    /** The local variables of the threads inside AddResponseToQueues. */
    var adders: map<ThreadId, Adder>
    ghost var drain: Drain
    ghost var act: Act
    ghost var lost: Pair<set<ClientId>>

    ghost function Objects(): set<StClient>
      reads this
    {
      set c | c in clients :: clients[c]
    }

    /** No two registration numbers share an object. */
    ghost predicate Valid()
      reads this
    {
      forall c, d :: c in clients && d in clients && clients[c] == clients[d] ==> c == d
    }

    ghost function Clients(): map<ClientId, Client>
      reads this, Objects()
    {
      map c | c in clients :: clients[c].Value()
    }

    ghost function Abs(): State
      reads this, Objects()
    {
      State(half, overhead, flag, Pair(set1, set2), Clients(), live, nextId, adders, drain, act, inQueue, memory, lost)
    }

    constructor (half: nat, overhead: nat)
      ensures Valid() && Abs() == Init(half, overhead)
    {
      this.half, this.overhead := half, overhead;
      flag, set1, set2, clients, live, nextId := false, {}, {}, map[], map[], 0;
      inQueue, memory := 0, 0;
      adders, drain, act, lost := map[], NotDraining, NoAct, Pair({}, {});
    }

    twostate lemma OneObject(c: ClientId)
      requires old(Valid()) && clients == old(clients) && c in clients
      requires forall d :: d in clients && d != c ==> clients[d].Value() == old(clients[d].Value())
      ensures Clients() == old(Clients())[c := clients[c].Value()]
    {
    }

    /** First half of AfterSendingLocalClientsResponses. */
    method CountDown(c: ClientId, ok: bool)
      requires Valid() && act.Complete? && act == Complete(c, ok, act.cut) && c in clients
      modifies `act, clients[c]
      ensures Abs() == CompleteCountStep(old(Abs()))
      ensures act == Requeue(c, ok, old(act).cut) && live == old(live)
      ensures clients[c].beingSent == old(clients[c].beingSent) && clients[c].completed == old(clients[c].completed) + 1
      ensures WillWait(clients[c].Value(), ok) == old(WillWait(clients[c].Value(), ok))
    {
      hide StClient.Value;
      act := Requeue(c, ok, act.cut);
      clients[c].CountDown(ok);
      OneObject(c);
    }

    ghost method NoteLeftBehind(c: ClientId)
      requires c in clients
      modifies `lost
      ensures lost == Pair(LeftBehind(old(lost).one, set1, c, clients[c].queue1),
                           LeftBehind(old(lost).two, set2, c, clients[c].queue2))
    {
      lost := Pair(LeftBehind(lost.one, set1, c, clients[c].queue1), LeftBehind(lost.two, set2, c, clients[c].queue2));
    }

    /** The client joins the set of every queue that is not empty; `enough` says for which there is memory. */
    method AddToClientSets(c: ClientId, enough: Pair<bool>)
      requires Valid() && act.Requeue? && act.c == c && c in clients
      modifies `set1, `set2, `lost
      ensures Abs() == Rejoined(old(Abs()), enough)
    {
      hide LeftBehind, Rejoined, AddToSets;
      ghost var s := Abs();
      JoinsAgain(s, enough);
      var client := clients[c];
      if client.queue1 != [] && enough.one { set1 := set1 + {c}; }
      if client.queue2 != [] && enough.two { set2 := set2 + {c}; }
      NoteLeftBehind(c);
      assert Clients() == s.clients;
    }

    method DisconnectAndDelete(c: ClientId)
      requires Valid() && c in clients
      modifies clients[c]
      ensures Abs() == Put(old(Abs()), c, Disconnected(old(clients[c].Value())))
      ensures clients[c].busy == old(clients[c].busy) && (old(clients[c].phase) == Live ==> clients[c].marked)
      ensures forall ok :: old(clients[c].marked) && WillWait(clients[c].Value(), ok) ==>
          old(WillWait(clients[c].Value(), ok))
    {
      var client := clients[c];
      if client.phase == Live {
        client.marked := true;
        if !client.busy && (!client.inPool || (client.requests == 0 && client.responses == 0)) {
          client.inPool := false;
          client.phase := DisconnectQueued;
        }
      }
      OneObject(c);
    }

    method BumpSent(r: Resp)
      requires r in live
      modifies `live, `inQueue, `memory
      ensures var rec := old(live)[r].(sent := old(live)[r].sent + 1);
        if rec.sent == rec.refs
        then live == old(live) - {r} && inQueue == old(inQueue) - 1 && memory == old(memory) - (r.size + overhead)
        else live == old(live)[r := rec] && inQueue == old(inQueue) && memory == old(memory)
    {
      var rec := live[r].(sent := live[r].sent + 1);
      if rec.sent == rec.refs {
        inQueue := inQueue - 1;
        memory := memory - (r.size + overhead);
        live := live - {r};
      } else {
        live := live[r := rec];
      }
    }

    /** One more sent; the last one deletes the response. */
    method CountSent(c: ClientId, r: Resp)
      requires Valid() && act.Requeue? && act.c == c && c in clients && r in live
      requires 0 < clients[c].completed <= |clients[c].beingSent| && r == clients[c].beingSent[clients[c].completed - 1]
      modifies `act, `live, `inQueue, `memory
      ensures Abs() == Settle(old(Abs()), c, old(act).ok, old(act).cut)
      ensures act == Complete(c, old(act).ok, old(act).cut)
    {
      ghost var s := Abs();
      BumpSent(r);
      act := Complete(c, act.ok, act.cut);
      assert Clients() == s.clients;
      assert Abs() == Sent(s, r, act) by { hide Settle; }
      SettleSends(s, c, act.ok, act.cut);
    }

    /** Second half of AfterSendingLocalClientsResponses. */
    method Rejoin(c: ClientId, enough: Pair<bool>)
      requires Valid() && act.Requeue? && act.c == c && c in clients
      modifies `set1, `set2, `lost, clients[c]
      ensures Abs() == MaybeDisconnected(Rejoined(old(Abs()), enough))
      ensures clients[c].beingSent == old(clients[c].beingSent) && clients[c].completed == old(clients[c].completed)
      ensures forall ok :: WillWait(clients[c].Value(), ok) ==> old(WillWait(clients[c].Value(), ok))
    {
      hide Disconnected;
      AddToClientSets(c, enough);
      ghost var s1 := Abs();
      var client := clients[c];
      if client.marked && client.queue1 == [] && client.queue2 == [] {
        DisconnectAndDelete(c);
      }
      assert Abs() == MaybeDisconnected(s1);
    }

    lemma BatchEnabled(c: ClientId)
      requires c in clients && act.Complete? && act.c == c && clients[c].completed < |clients[c].beingSent|
      ensures Enabled(Abs(), CompleteCount)
      ensures Abs().act == act && Abs().adders == adders && Abs().live == live
      ensures Abs().clients[c] == clients[c].Value()
    {
    }

    lemma CompletedLive(c: ClientId, r: Resp)
      requires c in clients && act.Requeue? && act.c == c && 0 < clients[c].completed <= |clients[c].beingSent|
      requires r == clients[c].beingSent[clients[c].completed - 1] && Inv(Abs())
      ensures r in live
    {
      hide Inv;
      CompletedIsLive(Abs());
    }

    /** AfterSendingResponse for one response of the batch. */
    method AfterSendingResponse(c: ClientId, r: Resp, ok: bool, enough: Pair<bool>) returns (ghost steps: seq<Step>)
      requires Valid() && Inv(Abs())
      requires act.Complete? && act == Complete(c, ok, act.cut) && c in clients
      requires clients[c].completed < |clients[c].beingSent| && r == clients[c].beingSent[clients[c].completed]
      requires WillWait(clients[c].Value(), ok) ==> NobodyInside(adders)
      modifies `act, `set1, `set2, `lost, `live, `inQueue, `memory, clients[c]
      ensures Inv(Abs()) && Run(old(Abs()), steps, Abs()) && Completed(old(Abs()), 1, enough, Abs())
      ensures act == old(act)
      ensures clients[c].beingSent == old(clients[c].beingSent) && clients[c].completed == old(clients[c].completed) + 1
      ensures WillWait(clients[c].Value(), ok) ==> old(WillWait(clients[c].Value(), ok))
    {
      hide Inv, Run, Settle, Rejoined, MaybeDisconnected, CountedDown, CompleteCountStep, Enabled, WillWait;
      hide ConnectionsManager.Abs, Completed;
      BatchEnabled(c);
      ghost var s := Abs();
      steps := Completes(s, enough);
      CountDown(c, ok);
      CompletedLive(c, r);
      Rejoin(c, enough);
      CountSent(c, r);
      assert Abs() == Completion(s, enough);
      OneCompleted(s, enough);
    }

    method ClearBatch(c: ClientId)
      requires Valid() && act.Complete? && act.c == c && c in clients
      modifies `act, clients[c]
      ensures Abs() == Cleared(old(Abs()))
      ensures act == NoAct
    {
      hide TakeBatch, FirstFatal;
      act := NoAct;
      clients[c].Clear();
      OneObject(c);
    }

    lemma BatchOver(c: ClientId)
      requires c in clients && act.Complete? && act.c == c && clients[c].completed == |clients[c].beingSent|
      ensures Enabled(Abs(), FinishBatch)
      ensures Abs().act == act && Abs().drain == drain && c in Abs().clients
    {
    }

    /** after_send_responses: every response of the batch in turn, then the batch is cleared. */
    method AfterSendResponses(c: ClientId, ok: bool, enough: nat -> Pair<bool>)
      returns (ghost steps: seq<Step>, ghost done: State)
      requires Valid() && Inv(Abs())
      requires act.Complete? && act == Complete(c, ok, act.cut) && c in clients && clients[c].completed == 0
      requires WillWait(clients[c].Value(), ok) ==> NobodyInside(adders)
      modifies `act, `set1, `set2, `lost, `live, `inQueue, `memory, clients[c]
      ensures Run(old(Abs()), steps, done) && Inv(done) && Enabled(done, FinishBatch)
      ensures done.act == old(act) && done.drain == drain && c in done.clients
      ensures var n := old(|clients[c].beingSent|); n > 0 ==> Completed(old(Abs()), n, Once(enough, n), done)
      ensures Abs() == Cleared(done) && act == NoAct
    {
      hide Inv, Run, Enabled, ConnectionsManager.Abs, Cleared, WillWait, Completed, Once, Either;
      ghost var s := Abs();
      steps := [];
      Stay(s);
      var sent := clients[c].beingSent;
      var i := 0;
      while i < |sent|
        invariant i == clients[c].completed <= |sent| && sent == clients[c].beingSent
        invariant Inv(Abs()) && Run(s, steps, Abs())
        invariant if i == 0 then Abs() == s else Completed(s, i, Once(enough, i), Abs())
        invariant act == old(act)
        invariant WillWait(clients[c].Value(), ok) ==> NobodyInside(adders)
      {
        ghost var m := Abs();
        ghost var more := AfterSendingResponse(c, sent[i], ok, enough(i));
        RunAppend(s, steps, m, more, Abs());
        OnceMore(enough, i);
        if i > 0 {
          OneMoreCompleted(s, i, Once(enough, i), m, enough(i), Abs());
        }
        steps := steps + more;
        i := i + 1;
      }
      BatchOver(c);
      done := Abs();
      ClearBatch(c);
    }

    lemma AtRestHere(c: ClientId)
      requires act.NoAct? && drain.NotDraining? && c in clients && clients[c].phase != Freed
      ensures Callback(Abs(), c) && Abs().adders == adders && Abs().clients[c] == clients[c].Value()
      ensures var cl, client := Abs().clients[c], clients[c];
        cl.busy == client.busy && cl.phase == client.phase && cl.marked == client.marked && cl.inPool == client.inPool
    {
    }

    /** The step that libuv's callback is. */
    ghost method BeginCallback(c: ClientId, ok: bool)
      requires Valid() && Inv(Abs()) && act.NoAct? && drain.NotDraining?
      requires c in clients && clients[c].beingSent != [] && clients[c].phase != Freed
      modifies `act
      ensures Run(old(Abs()), [WriteDone(c, ok)], Abs()) && Inv(Abs())
      ensures act == Complete(c, ok, false) && clients[c].completed == 0
      ensures Abs() == old(Abs()).(act := act)
    {
      hide Inv, Run;
      var s := Abs();
      IdleBatch(s, c);
      act := Complete(c, ok, false);
      assert Abs() == Next(s, WriteDone(c, ok));
      OneStep(s, WriteDone(c, ok));
      RunKeeps(s, [WriteDone(c, ok)], Abs());
    }

    /** libuv calls after_send_responses when a write is over. */
    method AfterWrite(c: ClientId, ok: bool, enough: nat -> Pair<bool>) returns (ghost steps: seq<Step>)
      requires Valid() && Inv(Abs()) && act.NoAct? && drain.NotDraining?
      requires c in clients && clients[c].beingSent != [] && clients[c].phase != Freed
      requires WillWait(clients[c].Value(), ok) ==> NobodyInside(adders)
      modifies `act, `set1, `set2, `live, `inQueue, `memory, `lost, clients[c]
      ensures Inv(Abs()) && Run(old(Abs()), steps, Abs()) && act.NoAct?
      ensures steps != [] && steps[0] == WriteDone(c, ok)
      ensures Written(old(Abs()), c, ok, Once(enough, old(|clients[c].beingSent|)), Abs())
    {
      hide Inv, Run, Enabled, Next, Cleared, WillWait, ConnectionsManager.Abs, Completed, Written, Once;
      ghost var s := Abs();
      AtRestHere(c);
      IdleBatch(s, c);
      BeginCallback(c, ok);
      ghost var m := Abs();
      ghost var done;
      steps, done := AfterSendResponses(c, ok, enough);
      BatchWritten(s, c, ok, Once(enough, |s.clients[c].batch|), done);
      Finishes(done);
      RunAppend(s, [WriteDone(c, ok)], m, steps, done);
      steps := [WriteDone(c, ok)] + steps;
      Extend(s, steps, done, FinishBatch);
      steps := steps + [FinishBatch];
      RunKeeps(s, steps, Abs());
    }

    method EraseFromSet(c: ClientId)
      requires drain.Draining?
      modifies `set1, `set2, `drain
      ensures Abs() == EraseFromDrain(old(Abs()), c) && drain == Draining(old(drain).todo - {c})
    {
      if flag { set2 := set2 - {c}; } else { set1 := set1 - {c}; }
      drain := Draining(drain.todo - {c});
    }

    method Take(c: ClientId)
      requires Valid() && c in clients && clients[c].beingSent == []
      modifies clients[c]
      ensures Abs() == Put(old(Abs()), c, TakeBatch(old(clients[c].Value()), !flag))
      ensures clients[c].Value() == TakeBatch(old(clients[c].Value()), !flag)
      ensures clients[c].completed == old(clients[c].completed)
    {
      hide StClient.Value;
      clients[c].TakeBatch(!flag);
      OneObject(c);
    }

    ghost method Fail(c: ClientId, cut: bool)
      modifies `act
      ensures Abs() == old(Abs()).(act := Complete(c, false, cut)) && act == Complete(c, false, cut)
    {
      act := Complete(c, false, cut);
    }

    ghost method LeaveBehind(c: ClientId, cut: bool)
      modifies `lost
      ensures var s := old(Abs()); Abs() == if cut then s.(lost := s.lost.With(!s.flag, s.lost.At(!s.flag) + {c}))
          else s
    {
      if cut { lost := lost.With(!flag, lost.At(!flag) + {c}); }
    }

    /** A batch that was not handed to libuv is over at once, and so is the client's round. */
    method CompleteAtOnce(c: ClientId, enough: nat -> Pair<bool>) returns (ghost steps: seq<Step>, ghost done: State)
      requires Valid() && Inv(Abs()) && drain.Draining?
      requires act.Complete? && act == Complete(c, false, act.cut) && c in clients && clients[c].completed == 0
      requires WillWait(clients[c].Value(), false) ==> NobodyInside(adders)
      modifies `act, `set1, `set2, `live, `inQueue, `memory, `lost, `drain, clients[c]
      ensures Inv(Abs()) && Run(old(Abs()), steps, Abs()) && act.NoAct? && drain == Draining(old(drain).todo - {c})
      ensures var n := old(|clients[c].beingSent|); n > 0 ==> Completed(old(Abs()), n, Once(enough, n), done)
      ensures done.act == old(act) && done.drain.Draining? && c in done.clients
          && Abs() == Erased(Cleared(done), c, old(act).cut)
    {
      hide Inv, Run, Enabled, Next, Cleared, WillWait, ConnectionsManager.Abs, EraseFromDrain, Completed, Once;
      ghost var s, cut := Abs(), act.cut;
      steps, done := AfterSendResponses(c, false, enough);
      Finishes(done);
      LeaveBehind(c, cut);
      EraseFromSet(c);
      Extend(s, steps, done, FinishBatch);
      steps := steps + [FinishBatch];
      RunKeeps(s, steps, Abs());
    }

    lemma RoundEnabled(c: ClientId, accepted: bool)
      requires c in clients && act.NoAct? && drain.Draining? && c in drain.todo
      ensures Enabled(Abs(), DrainClient(c, accepted))
      ensures Abs().clients[c] == clients[c].Value() && Abs().drain == drain && Abs().flag == flag
      ensures Abs().act == act && c in Abs().clients
    {
    }

    /** One round of the loop in SendLocalClientsResponses; `accepted` is what uv_write says. */
    method SendToClient(c: ClientId, accepted: bool, enough: nat -> Pair<bool>) returns (ghost steps: seq<Step>)
      requires Valid() && Inv(Abs()) && act.NoAct?
      requires drain.Draining? && c in drain.todo && c in clients
      requires RoundWaits(clients[c].Value(), !flag, accepted) ==> NobodyInside(adders)
      modifies `act, `set1, `set2, `live, `inQueue, `memory, `lost, `drain, clients[c]
      ensures Inv(Abs()) && Run(old(Abs()), steps, Abs()) && act.NoAct? && drain == Draining(old(drain).todo - {c})
      ensures steps != [] && steps[0] == DrainClient(c, accepted)
      ensures Drained(old(Abs()), c, accepted, enough, Abs())
    {
      hide Inv, Run, Enabled, Cleared, WillWait, ConnectionsManager.Abs, EraseFromDrain, Completed, Drained, Once;
      ghost var s := Abs();
      RoundEnabled(c, accepted);
      steps := [DrainClient(c, accepted)];
      OneStep(s, steps[0]);
      var client := clients[c];
      if client.beingSent != [] {
        EraseFromSet(c);
        RunKeeps(s, steps, Abs());
        RoundTaken(s, c, accepted, enough);
        return;
      }
      Take(c);
      if !client.marked && accepted {
        EraseFromSet(c);
        RunKeeps(s, steps, Abs());
        RoundTaken(s, c, accepted, enough);
        return;
      }
      ghost var cut := client.Value().q.At(!flag) != [];
      Fail(c, cut);
      IdleBatch(s, c);
      RunKeeps(s, steps, Abs());
      ghost var m := Abs();
      ghost var more, done := CompleteAtOnce(c, enough);
      HasResponses(s, c);
      RoundRefused(s, c, accepted, enough, done, cut);
      RunAppend(s, steps, m, more, Abs());
      steps := steps + more;
    }

    ghost method BeginDrain()
      requires act.NoAct? && drain.NotDraining? && adders == map[]
      modifies `drain
      ensures Abs() == old(Abs()).(drain := Draining(if flag then set2 else set1))
      ensures drain == Draining(if flag then set2 else set1)
    {
      drain := Draining(if flag then set2 else set1);
    }

    ghost method EndDrain()
      requires drain == Draining({}) && act.NoAct?
      modifies `drain
      ensures Enabled(old(Abs()), Step.EndDrain) && Abs() == Next(old(Abs()), Step.EndDrain) && drain.NotDraining?
      ensures Abs() == old(Abs()).(drain := NotDraining)
    {
      drain := NotDraining;
    }

    /** Flips the flag; the loop that follows owns the set and the queues that the threads have left. */
    method ToggleFlag()
      requires act.NoAct? && drain.NotDraining? && adders == map[]
      modifies `flag, `drain
      ensures Enabled(old(Abs()), Toggle) && Abs() == Next(old(Abs()), Toggle)
      ensures flag == !old(flag) && drain == Draining(if flag then set2 else set1)
      ensures var s := old(Abs());
        Abs() == s.(flag := !s.flag, drain := Draining(s.sets.At(s.flag))) && drain == Draining(s.sets.At(s.flag))
    {
      flag := !flag;
      BeginDrain();
    }

    lemma SetsKnown()
      requires Inv(Abs())
      ensures set1 <= clients.Keys && set2 <= clients.Keys
    {
      hide GoodResponses, GoodClient;
    }

    // ----- connections and requests -----

    method StartRequest(c: ClientId)
      requires Valid() && c in clients
      modifies clients[c]
      ensures var cl := old(clients[c].Value());
        Abs() == Put(old(Abs()), c, cl.(busy := true, requests := cl.requests + 1))
      ensures clients[c].busy && clients[c].marked == old(clients[c].marked)
    {
      hide StClient.Value;
      clients[c].StartRequest();
      OneObject(c);
    }

    method EndRequest(c: ClientId, failed: bool, over: bool) returns (marked: bool)
      requires Valid() && c in clients
      modifies clients[c]
      ensures var cl := old(clients[c].Value());
        && Abs() == Put(old(Abs()), c, if over then Ended(cl, failed) else cl.(marked := cl.marked || failed))
        && marked == clients[c].Value().marked && clients[c].Value() == Abs().clients[c]
    {
      hide StClient.Value;
      clients[c].EndRequest(failed, over);
      OneObject(c);
      marked := clients[c].IsMarked();
    }

    /** A failed read, a bad header or the end of the server's life: the client is to go. */
    method OnReadError(c: ClientId) returns (ghost steps: seq<Step>)
      requires Valid() && Inv(Abs()) && act.NoAct? && drain.NotDraining?
      requires c in clients && clients[c].phase != Freed
      requires clients[c].phase.Live? && !clients[c].busy ==> NobodyInside(adders)
      modifies clients[c]
      ensures Inv(Abs()) && Run(old(Abs()), steps, Abs())
      ensures old(clients[c].phase.Live?) ==> steps != [] && steps[0] == Disconnect(c)
      ensures Abs() == Put(old(Abs()), c, Disconnected(old(clients[c].Value())))
    {
      hide Inv, Run, Disconnected, ConnectionsManager.Abs;
      AtRestHere(c);
      steps := DisconnectRuns(Abs(), c);
      ghost var s := Abs();
      DisconnectAndDelete(c);
      RunKeeps(s, steps, Abs());
    }

    /**
      CreateRequestAndQueue; the count goes up with the request object.  If memory does not allow one
      the client is to go, unless it is a peer server.
    */
    method CreateRequestAndQueue(c: ClientId, created: bool, reserved: bool) returns (ghost steps: seq<Step>)
      requires Valid() && Inv(Abs()) && act.NoAct? && drain.NotDraining?
      requires c in clients && clients[c].phase != Freed
      requires clients[c].inPool && !clients[c].marked && !clients[c].busy
      requires created || reserved || NobodyInside(adders)
      modifies clients[c]
      ensures Inv(Abs()) && Run(old(Abs()), steps, Abs())
      ensures if created then steps == [RequestArrives(c)] else if reserved then steps == []
          else steps != [] && steps[0] == Disconnect(c)
      ensures var cl := old(clients[c].Value());
        Abs() == Put(old(Abs()), c, if created then cl.(busy := true, requests := cl.requests + 1)
                                    else if reserved then cl else Disconnected(cl))
    {
      hide Inv, Run, Disconnected, ConnectionsManager.Abs;
      AtRestHere(c);
      ghost var s := Abs();
      if created {
        steps := [RequestArrives(c)];
        OneStep(s, steps[0]);
        StartRequest(c);
      } else if !reserved {
        steps := DisconnectRuns(s, c);
        IdleIsLive(s, c);
        DisconnectAndDelete(c);
      } else {
        steps := [];
        Stay(s);
        SameClient(s, c);
      }
      RunKeeps(s, steps, Abs());
    }

    /** after_request_processing_thread; `failed` says that memory ran short while the request was processed. */
    method AfterRequestProcessing(c: ClientId, deferred: bool, failed: bool) returns (ghost steps: seq<Step>)
      requires Valid() && Inv(Abs()) && act.NoAct? && drain.NotDraining?
      requires c in clients && clients[c].phase != Freed && clients[c].busy
      requires !deferred && clients[c].phase.Live? && (clients[c].marked || failed) ==> NobodyInside(adders)
      modifies clients[c]
      ensures Inv(Abs()) && Run(old(Abs()), steps, Abs())
      ensures steps != [] && steps[0] == if deferred then RequestDeferred(c, failed) else RequestDone(c, failed)
      ensures var cl := old(clients[c].Value());
        var ended := cl.(marked := cl.marked || failed, busy := false, requests := cl.requests - 1);
        Abs() == Put(old(Abs()), c, if deferred then cl.(marked := cl.marked || failed)
                                    else if ended.marked then Disconnected(ended) else ended)
    {
      hide Inv, Run, Disconnected, ConnectionsManager.Abs, StClient.Value;
      AtRestHere(c);
      ghost var s := Abs();
      if deferred {
        steps := [RequestDeferred(c, failed)];
        OneStep(s, steps[0]);
        var marked := EndRequest(c, failed, false);
      } else {
        steps := RequestDoneRuns(s, c, failed);
        var marked := EndRequest(c, failed, true);
        if marked {
          PutTwice(s, c, clients[c].Value(), Disconnected(clients[c].Value()));
          DisconnectAndDelete(c);
        }
      }
      RunKeeps(s, steps, Abs());
    }

    method SetPhase(c: ClientId, phase: Phase)
      requires Valid() && c in clients
      modifies clients[c]
      ensures Abs() == Put(old(Abs()), c, old(clients[c].Value()).(phase := phase))
    {
      clients[c].phase := phase;
      OneObject(c);
    }

    /** after_disconnection_processing_thread closes the handle. */
    method AfterDisconnectionProcessing(c: ClientId) returns (ghost steps: seq<Step>)
      requires Valid() && Inv(Abs()) && act.NoAct? && drain.NotDraining? && c in clients
          && clients[c].phase == DisconnectQueued
      modifies clients[c]
      ensures steps == [DisconnectProcessed(c)] && Inv(Abs()) && Run(old(Abs()), steps, Abs())
      ensures Abs() == Put(old(Abs()), c, old(clients[c].Value()).(phase := Closing))
    {
      hide Inv, Run, ConnectionsManager.Abs, StClient.Value;
      AtRestHere(c);
      ghost var s := Abs();
      steps := [DisconnectProcessed(c)];
      OneStep(s, steps[0]);
      SetPhase(c, Closing);
      RunKeeps(s, steps, Abs());
    }

    /** on_client_closed deletes the object. */
    method OnClientClosed(c: ClientId) returns (ghost steps: seq<Step>)
      requires Valid() && Inv(Abs()) && act.NoAct? && drain.NotDraining? && c in clients && clients[c].phase == Closing
      modifies clients[c]
      ensures steps == [ClientClosed(c)] && Inv(Abs()) && Run(old(Abs()), steps, Abs())
      ensures Abs() == Put(old(Abs()), c, old(clients[c].Value()).(phase := Freed))
    {
      hide Inv, Run, ConnectionsManager.Abs, StClient.Value;
      AtRestHere(c);
      ghost var s := Abs();
      steps := [ClientClosed(c)];
      OneStep(s, steps[0]);
      SetPhase(c, Freed);
      RunKeeps(s, steps, Abs());
    }

    lemma NewEnabled(c: ClientId, added: bool)
      requires act.NoAct? && drain.NotDraining? && c !in clients
      ensures Enabled(Abs(), NewClient(c, added)) && Abs().adders == adders
    {
    }

    /** A new object for the client. */
    method Create(c: ClientId, inPool: bool) returns (client: StClient)
      requires Valid() && c !in clients
      modifies `clients
      ensures Valid() && c in clients && clients[c] == client && fresh(client) && clients == old(clients)[c := client]
      ensures Abs() == Put(old(Abs()), c, FRESH_CLIENT.(inPool := inPool))
    {
      client := new StClient();
      client.inPool := inPool;
      assert client.Value() == FRESH_CLIENT.(inPool := inPool);
      hide StClient.Value;
      clients := clients[c := client];
      assert Clients() == old(Clients())[c := FRESH_CLIENT.(inPool := inPool)];
    }

    lemma ValueHere(c: ClientId, s: State)
      requires c in clients && Abs() == Put(s, c, FRESH_CLIENT.(inPool := false))
      ensures clients[c].Value() == FRESH_CLIENT.(inPool := false)
    {
      assert Abs().clients[c] == clients[c].Value();
    }

    /** AddClient; when it fails the connection is closed again. */
    method AddClient(c: ClientId, added: bool) returns (ghost steps: seq<Step>)
      requires Valid() && Inv(Abs()) && act.NoAct? && drain.NotDraining? && c !in clients
      requires added || NobodyInside(adders)
      modifies `clients
      ensures Valid() && Inv(Abs()) && Run(old(Abs()), steps, Abs()) && clients.Keys == old(clients).Keys + {c}
      ensures steps != [] && steps[0] == NewClient(c, added)
      ensures Abs() == Put(old(Abs()), c, if added then FRESH_CLIENT else Disconnected(FRESH_CLIENT.(inPool := false)))
    {
      hide Inv, Run, Disconnected, ConnectionsManager.Abs, StClient.Value;
      NewEnabled(c, added);
      ghost var s := Abs();
      steps := NewClientRuns(s, c, added);
      var client := Create(c, added);
      if !added {
        ValueHere(c, s);
        PutTwice(s, c, clients[c].Value(), Disconnected(clients[c].Value()));
        DisconnectAndDelete(c);
      }
      RunKeeps(s, steps, Abs());
    }

    // ----- a request processing thread -----

    method SetAdder(t: ThreadId, a: Adder)
      modifies `adders
      ensures adders == old(adders)[t := a] && Abs() == old(Abs()).(adders := adders)
    {
      adders := adders[t := a];
    }

    /** The part of IncreaseCountForClient under the client's own lock. */
    method IncreaseCount(t: ThreadId, c: ClientId)
      requires Valid() && t in adders && c in clients && adders[t].guard == Inside(c, Checked)
      modifies `adders, clients[c]
      ensures InStage(old(Abs()), t, Checked) && Abs() == CountUpStep(old(Abs()), t)
      ensures adders == old(adders)[t := old(adders)[t].(guard := Inside(c, Counted))]
    {
      hide StClient.Value;
      clients[c].AddToCount(1);
      OneObject(c);
      SetAdder(t, adders[t].(guard := Inside(c, Counted)));
    }

    /** A response that was not added gives its count back. */
    method DecreaseCount(t: ThreadId, c: ClientId)
      requires Valid() && t in adders && c in clients && adders[t].guard == Inside(c, Failed)
      modifies `adders, clients[c]
      ensures InStage(old(Abs()), t, Failed) && Abs() == GiveUpStep(old(Abs()), t)
      ensures adders == old(adders)[t := old(adders)[t].(guard := Outside)]
    {
      hide StClient.Value;
      clients[c].AddToCount(-1);
      OneObject(c);
      SetAdder(t, adders[t].(guard := Outside));
    }

    method AddToClientSet(c: ClientId)
      modifies `set1, `set2, `lost
      ensures var s := old(Abs());
        Abs() == s.(sets := s.sets.With(flag, s.sets.At(flag) + {c}), lost := s.lost.With(flag, s.lost.At(flag) - {c}))
      ensures if flag then set2 == old(set2) else set1 == old(set1)
    {
      if flag { set1 := set1 + {c}; } else { set2 := set2 + {c}; }
      lost := lost.With(flag, lost.At(flag) - {c});
    }

    /** AddResponseToQueue; `enough` says that no allocation fails. */
    method AddResponseToQueue(t: ThreadId, c: ClientId, r: Resp, enough: bool) returns (added: bool)
      requires Valid() && t in adders && c in clients && adders[t].guard == Inside(c, Counted) && adders[t].resp == r
      modifies `adders, `set1, `set2, `lost, clients[c]
      ensures InStage(old(Abs()), t, Counted) && Abs() == PushStep(old(Abs()), t, enough)
      ensures var a := old(adders)[t];
        adders == old(adders)[t := if added then a.(added := a.added + 1, guard := Outside)
            else a.(guard := Inside(c, Failed))]
      ensures if flag then set2 == old(set2) else set1 == old(set1)
    {
      hide StClient.Value;
      added := clients[c].PushResponse(flag, r, half, enough);
      OneObject(c);
      if added {
        AddToClientSet(c);
        SetAdder(t, adders[t].(added := adders[t].added + 1, guard := Outside));
      } else {
        SetAdder(t, adders[t].(guard := Inside(c, Failed)));
      }
    }

    /** A new response object, and the loop over its clients begins. */
    method CreateResponse(t: ThreadId, fatal: bool, size: nat, todo: set<ClientId>) returns (r: Resp)
      requires t !in adders
      modifies `live, `nextId, `adders
      ensures r == Resp(old(nextId), fatal, size)
      ensures adders == old(adders)[t := Adder(r, todo, 0, Outside)]
      ensures Abs() == BeginAddStep(old(Abs()), t, fatal, size, todo)
    {
      r := Resp(nextId, fatal, size);
      nextId := nextId + 1;
      live := live[r := Rec(0, 0, false)];
      SetAdder(t, Adder(r, todo, 0, Outside));
    }

    /** Looks the client up in the pool; `found` when it is there and not marked. */
    method FindClient(t: ThreadId, c: ClientId) returns (found: bool)
      requires t in adders && adders[t].guard == Outside && c in adders[t].todo
      modifies `adders
      ensures Abs() == CheckClientStep(old(Abs()), t, c) && (found ==> c in clients)
      ensures var a := old(adders)[t];
        adders == old(adders)[t := a.(todo := a.todo - {c}, guard := if found then Inside(c, Checked) else Outside)]
    {
      found := c in clients && clients[c].inPool && !clients[c].marked;
      SetAdder(t, adders[t].(todo := adders[t].todo - {c}, guard := if found then Inside(c, Checked) else Outside));
    }

    lemma BeginEnabled(t: ThreadId, fatal: bool, size: nat, todo: set<ClientId>)
      requires t !in adders
      ensures Enabled(Abs(), BeginAdd(t, fatal, size, todo))
    {
    }

    lemma ThreadEnabled(t: ThreadId, step: Step)
      requires t in adders
      requires match step
        case CheckClient(u, c) => u == t && adders[t].guard == Outside && c in adders[t].todo
        case CountUp(u) => u == t && adders[t].guard.Inside? && adders[t].guard.stage.Checked?
            && adders[t].guard.client in clients
        case Push(u, enough) => u == t && adders[t].guard.Inside? && adders[t].guard.stage.Counted?
            && adders[t].guard.client in clients
        case GiveUp(u) => u == t && adders[t].guard.Inside? && adders[t].guard.stage.Failed?
            && adders[t].guard.client in clients
        case EndAdd(u) => u == t && adders[t].guard == Outside && adders[t].todo == {}
        case _ => false
      ensures Enabled(Abs(), step)
    {
    }

    lemma Parts()
      ensures Abs().adders == adders && Abs().clients.Keys == clients.Keys
      ensures Abs().flag == flag && Abs().nextId == nextId
    {
    }

    /** One round of the loop in AddResponseToClientsQueues. */
    method AddResponseToClient(t: ThreadId, c: ClientId, r: Resp, enough: bool)
      returns (added: bool, ghost steps: seq<Step>)
      requires Valid() && t in adders && adders[t].guard == Outside && adders[t].resp == r && c in adders[t].todo
      modifies `adders, `set1, `set2, `lost, Objects()
      ensures Run(old(Abs()), steps, Abs())
      ensures added == Takes(old(Abs()), c, enough) && GivenTo(old(Abs()), r, if added then {c} else {}, Abs())
      ensures var a := old(adders)[t];
        adders == old(adders)[t := a.(todo := a.todo - {c}, added := if added then a.added + 1 else a.added)]
    {
      hide Run, ConnectionsManager.Abs, CheckClientStep, PushStep, CountUpStep, GiveUpStep, StClient.Value;
      hide Takes, GivenTo, Enabled, InStage;
      ghost var s := Abs();
      ThreadEnabled(t, CheckClient(t, c));
      steps := GivenRuns(s, t, c, enough);
      GivenFacts(s, t, c, enough);
      Parts();
      added := false;
      var found := FindClient(t, c);
      Parts();
      if found {
        IncreaseCount(t, c);
        added := AddResponseToQueue(t, c, r, enough);
        Parts();
        if !added {
          DecreaseCount(t, c);
        }
      }
      assert adders[t].added == old(adders[t].added) + if added then 1 else 0;
      assert Abs() == Given(s, t, c, enough);
      Parts();
    }

    /** AddResponseToClientsQueues; `enough` says for which clients no allocation fails. */
    method AddResponseToClientsQueues(t: ThreadId, r: Resp, handles: set<ClientId>, enough: ClientId -> bool)
      returns (count: nat, ghost steps: seq<Step>)
      requires Valid() && t in adders && adders[t] == Adder(r, handles, 0, Outside)
      modifies `adders, `set1, `set2, `lost, Objects()
      ensures Run(old(Abs()), steps, Abs())
      ensures Reached(old(Abs()), r, handles, enough, count, Abs())
      ensures adders == old(adders)[t := Adder(r, {}, count, Outside)]
    {
      hide Run, ConnectionsManager.Abs, StClient.Value, Takes, GivenTo, Reached;
      ghost var s := Abs();
      steps := [];
      Stay(s);
      var todo := handles;
      NobodyReached(s, r, enough);
      assert handles - todo == {};
      count := 0;
      while todo != {}
        invariant todo <= handles && Run(s, steps, Abs())
        invariant adders == old(adders)[t := Adder(r, todo, count, Outside)]
        invariant Reached(s, r, handles - todo, enough, count, Abs())
        decreases todo
      {
        var c :| c in todo;
        ghost var m, more := Abs(), [];
        var added;
        added, more := AddResponseToClient(t, c, r, enough(c));
        RunAppend(s, steps, m, more, Abs());
        steps := steps + more;
        OneMoreReached(s, r, handles - todo, c, enough, count, m, added, Abs());
        assert handles - (todo - {c}) == handles - todo + {c};
        count := if added then count + 1 else count;
        todo := todo - {c};
      }
      assert handles - todo == handles;
    }

    /** The reference count becomes final; a response that nobody got is deleted. */
    method SetReferenceCount(t: ThreadId, r: Resp, count: nat)
      requires t in adders && adders[t].guard == Outside && adders[t].todo == {}
      requires adders[t].resp == r && adders[t].added == count
      modifies `live, `inQueue, `memory, `adders
      ensures Abs() == EndAddStep(old(Abs()), t)
      ensures adders == old(adders) - {t} && (count > 0 <==> r in live)
    {
      if count == 0 {
        live := live - {r};
      } else {
        live := live[r := Rec(count, 0, true)];
        inQueue := inQueue + 1;
        memory := memory + (r.size + overhead);
      }
      adders := adders - {t};
    }

    /** AddResponseToQueues; `enough` says for which clients no allocation fails. */
    method AddResponseToQueues(t: ThreadId, fatal: bool, size: nat, handles: set<ClientId>, enough: ClientId -> bool)
      returns (count: nat, ghost steps: seq<Step>)
      requires Valid() && t !in adders
      modifies `live, `nextId, `adders, `set1, `set2, `lost, `inQueue, `memory, Objects()
      ensures Run(old(Abs()), steps, Abs())
      ensures var takers := Takers(old(Abs()), handles, enough);
        count == |takers| && Spread(old(Abs()), Resp(old(nextId), fatal, size), takers, Abs())
    {
      hide Run, Enabled, ConnectionsManager.Abs, StClient.Value, BeginAddStep, EndAddStep, Takers, GivenTo, Spread;
      ghost var s := Abs();
      Parts();
      BeginEnabled(t, fatal, size, handles);
      SameTakers(s, t, fatal, size, handles, enough);
      OneStep(s, BeginAdd(t, fatal, size, handles));
      var r := CreateResponse(t, fatal, size, handles);
      ghost var begun, more := Abs(), [];
      count, more := AddResponseToClientsQueues(t, r, handles, enough);
      ghost var m := Abs();
      Parts();
      ThreadEnabled(t, EndAdd(t));
      RunAppend(s, [BeginAdd(t, fatal, size, handles)], begun, more, m);
      steps := [BeginAdd(t, fatal, size, handles)] + more;
      Extend(s, steps, m, EndAdd(t));
      SetReferenceCount(t, r, count);
      AllGiven(s, t, fatal, size, handles, Takers(s, handles, enough), m);
      steps := steps + [EndAdd(t)];
    }

    // ----- sending, while threads add -----

    /** Where thread t is inside the guard. */
    predicate IsInStage(t: ThreadId, stage: Stage)
      reads `adders, `clients
    {
      t in adders && adders[t].guard.Inside? && adders[t].guard.stage == stage && adders[t].guard.client in clients
    }

    /** A thread goes on as far as its next lock, if it can. */
    method ThreadStep(step: Step) returns (ghost steps: seq<Step>)
      requires Valid() && Inv(Abs())
      modifies `live, `nextId, `adders, `set1, `set2, `lost, `inQueue, `memory, Objects()
      ensures Inv(Abs()) && Run(old(Abs()), steps, Abs())
      ensures if IsThread(step) && old(Enabled(Abs(), step)) then steps == [step] && Abs() == Next(old(Abs()), step)
          else steps == []
    {
      hide Inv, Run, ConnectionsManager.Abs, StClient.Value;
      hide BeginAddStep, EndAddStep, CheckClientStep, PushStep, CountUpStep, GiveUpStep;
      ghost var s := Abs();
      Parts();
      steps := [];
      Stay(s);
      match step {
        case BeginAdd(t, fatal, size, todo) =>
          if t !in adders {
            OneStep(s, step);
            steps := [step];
            var r := CreateResponse(t, fatal, size, todo);
          }
        case CheckClient(t, c) =>
          if t in adders && adders[t].guard.Outside? && c in adders[t].todo {
            OneStep(s, step);
            steps := [step];
            var found := FindClient(t, c);
          }
        case CountUp(t) =>
          if IsInStage(t, Checked) {
            OneStep(s, step);
            steps := [step];
            IncreaseCount(t, adders[t].guard.client);
          }
        case Push(t, enough) =>
          if IsInStage(t, Counted) {
            OneStep(s, step);
            steps := [step];
            var added := AddResponseToQueue(t, adders[t].guard.client, adders[t].resp, enough);
          }
        case GiveUp(t) =>
          if IsInStage(t, Failed) {
            OneStep(s, step);
            steps := [step];
            DecreaseCount(t, adders[t].guard.client);
          }
        case EndAdd(t) =>
          if t in adders && adders[t].guard.Outside? && adders[t].todo == {} {
            OneStep(s, step);
            steps := [step];
            SetReferenceCount(t, adders[t].resp, adders[t].added);
          }
        case _ =>
      }
      RunKeeps(s, steps, Abs());
    }

    /** What the threads do meanwhile: any number of steps of any of them. */
    method Threads(moves: seq<Step>) returns (ghost steps: seq<Step>)
      requires Valid() && Inv(Abs())
      modifies `live, `nextId, `adders, `set1, `set2, `lost, `inQueue, `memory, Objects()
      ensures Inv(Abs()) && Run(old(Abs()), steps, Abs())
      ensures Abs() == AfterMoves(old(Abs()), moves) && ThreadsMoved(old(Abs()), Abs())
    {
      hide Inv, Run, Enabled, Next, ConnectionsManager.Abs, ThreadsMoved, AfterMove;
      ghost var s := Abs();
      steps := [];
      Stay(s);
      SameAtOnce(s);
      var i := 0;
      while i < |moves|
        invariant i <= |moves| && Inv(Abs()) && Run(s, steps, Abs())
        invariant Abs() == AfterMoves(s, moves[..i]) && ThreadsMoved(s, Abs())
      {
        ghost var m := Abs();
        ghost var more := ThreadStep(moves[i]);
        ItsMove(m, moves[i], more, Abs());
        RunAppend(s, steps, m, more, Abs());
        OneMoreMove(s, moves, i);
        MovedTwice(s, m, Abs());
        steps := steps + more;
        i := i + 1;
      }
      assert moves[..i] == moves;
    }

    /** The write lock of the guard is asked for: the threads inside it come out. */
    method WaitForGuard(enough: bool) returns (ghost steps: seq<Step>)
      requires Valid() && Inv(Abs())
      modifies `live, `nextId, `adders, `set1, `set2, `lost, `inQueue, `memory, Objects()
      ensures Inv(Abs()) && Run(old(Abs()), steps, Abs()) && NobodyInside(adders)
      ensures ThreadsMoved(old(Abs()), Abs())
    {
      hide Inv, Run, Enabled, Next, GuardWork, ConnectionsManager.Abs, ThreadsMoved;
      ghost var s := Abs();
      steps := [];
      Stay(s);
      SameAtOnce(s);
      while exists t :: t in adders && adders[t].guard.Inside?
        invariant Inv(Abs()) && Run(s, steps, Abs()) && ThreadsMoved(s, Abs())
        decreases GuardWork(adders)
      {
        var t :| t in adders && adders[t].guard.Inside?;
        var step := NextStage(t, adders[t].guard.stage, enough);
        ghost var m := Abs();
        Parts();
        InsideCanMove(m, t, enough);
        GuardLeavesLess(m, step);
        ghost var more := ThreadStep(step);
        ItsMove(m, step, more, Abs());
        Parts();
        RunAppend(s, steps, m, more, Abs());
        MovedTwice(s, m, Abs());
        steps := steps + more;
      }
    }

    /** Threads move, and if the loop is to take the guard's write lock they come out of the guard first. */
    method Round(c: ClientId, accepted: bool, moves: seq<Step>, enough: bool, rejoins: nat -> Pair<bool>)
      returns (ghost steps: seq<Step>, ghost m: State)
      requires Valid() && Inv(Abs()) && act.NoAct?
      requires drain.Draining? && c in drain.todo && c in clients
      modifies `act, `set1, `set2, `live, `nextId, `adders, `inQueue, `memory, `lost, `drain, Objects()
      ensures Inv(Abs()) && Run(old(Abs()), steps, Abs()) && act.NoAct? && drain == Draining(old(drain).todo - {c})
      ensures ThreadsMoved(old(Abs()), m) && Drained(m, c, accepted, rejoins, Abs())
    {
      hide Inv, Run, Enabled, Next, RoundWaits, ConnectionsManager.Abs, ThreadsMoved, Drained, AfterMoves;
      ghost var s := Abs();
      steps := Threads(moves);
      ghost var more;
      m := Abs();
      if clients[c].MayDisconnect(!flag, accepted) {
        more := WaitForGuard(enough);
        RunAppend(s, steps, m, more, Abs());
        MovedTwice(s, m, Abs());
        steps := steps + more;
        m := Abs();
      }
      more := SendToClient(c, accepted, rejoins);
      RunAppend(s, steps, m, more, Abs());
      steps := steps + more;
    }

    /**
      SendResponses, and in it SendLocalClientsResponses.  Before each client that the drain takes, the
      threads may take any steps, as far as any of their locks: `moves` says which.
    */
    method SendResponses(accepts: ClientId -> bool, moves: ClientId -> seq<Step>, enough: ClientId -> bool,
                         rejoins: ClientId -> nat -> Pair<bool>)
      returns (ghost steps: seq<Step>)
      requires Valid() && Inv(Abs()) && adders == map[] && act.NoAct? && drain.NotDraining?
      modifies `flag, `act, `set1, `set2, `live, `nextId, `adders, `inQueue, `memory, `lost, `drain, Objects()
      ensures Inv(Abs()) && Run(old(Abs()), steps, Abs()) && act.NoAct? && drain.NotDraining?
      ensures steps != [] && steps[0] == Toggle && AllDrained(old(Abs()), accepts, Abs())
    {
      hide Inv, Run, Enabled, Next, ConnectionsManager.Abs, DrainedSome, Drained, ThreadsMoved, AllDrained;
      ghost var s := Abs();
      ToggleFlag();
      steps := [Toggle];
      OneStep(s, Toggle);
      RunKeeps(s, steps, Abs());
      SetsKnown();
      var todo := if flag then set2 else set1;
      ghost var toggled, all := Abs(), todo;
      NoneDrained(toggled, accepts);
      assert all - todo == {};
      while todo != {}
        invariant todo <= clients.Keys && drain == Draining(todo) && todo <= all
        invariant Inv(Abs()) && Run(s, steps, Abs()) && act.NoAct?
        invariant DrainedSome(toggled, all - todo, accepts, Abs()) && steps != [] && steps[0] == Toggle
        decreases todo
      {
        var c :| c in todo;
        ghost var before := Abs();
        ghost var more, between := Round(c, accepts(c), moves(c), enough(c), rejoins(c));
        RunAppend(s, steps, before, more, Abs());
        OneMoreDrained(toggled, all - todo, accepts, before, between, c, rejoins(c), Abs());
        assert all - (todo - {c}) == all - todo + {c};
        steps := steps + more;
        todo := todo - {c};
      }
      assert all - todo == all;
      ghost var m := Abs();
      ToggledAndDrained(s, accepts, m);
      EndDrain();
      Extend(s, steps, m, Step.EndDrain);
      steps := steps + [Step.EndDrain];
      RunKeeps(s, steps, Abs());
    }
  }
}
