/**
  The forwarding code as it stands in the source: objects updated in place by loops.  Every method
  is proved to be a run of the transition system of module PeerDelivery.  In SendResponses threads
  move between the rounds; where they cut into a round, or into one of the other methods, the
  transition system alone covers them.
*/
module PeerServers {
  import opened Delivery
  import opened PeerDelivery
  import opened PeerDeliveryTheorems
  import opened PeerOutcomes
  import O = DeliveryOutcomes

  class StPeerServer {
    var queue1: seq<Resp>
    var queue2: seq<Resp>
    var beingSent: seq<Resp>
    ghost var completed: nat
    ghost var pushed: Pair<seq<Resp>>
    ghost var taken: Pair<seq<Resp>>

    ghost function Value(): Peer
      reads this
    {
      Peer(Pair(queue1, queue2), beingSent, completed, pushed, taken)
    }

    constructor ()
      ensures Value() == FRESH_PEER
    {
      queue1, queue2, beingSent := [], [], [];
      completed, pushed, taken := 0, Pair([], []), Pair([], []);
    }

    method Push(first: bool, r: Resp)
      modifies this
      ensures Value() == Pushed(old(Value()), first, r)
    {
      if first { queue1 := queue1 + [r]; } else { queue2 := queue2 + [r]; }
      pushed := pushed.With(first, pushed.At(first) + [r]);
    }

    /** The loop that moves a whole queue to the batch. */
    method MoveToBatch(queue: seq<Resp>)
      requires beingSent == []
      modifies `beingSent
      ensures beingSent == queue
    {
      var rest := queue;
      while rest != []
        invariant beingSent + rest == queue
        decreases |rest|
      {
        beingSent := beingSent + [rest[0]];
        rest := rest[1..];
      }
    }

    method Take(first: bool)
      requires beingSent == [] && completed == 0
      modifies this
      ensures Value() == TakeAll(old(Value()), first) && completed == 0 && beingSent == old(Value()).q.At(first)
    {
      if first {
        MoveToBatch(queue1);
        queue1 := [];
      } else {
        MoveToBatch(queue2);
        queue2 := [];
      }
      taken := taken.With(first, taken.At(first) + beingSent);
    }

    ghost method Count()
      modifies `completed
      ensures Value() == old(Value()).(completed := old(completed) + 1)
    {
      completed := completed + 1;
    }

    method Clear()
      modifies this
      ensures Value() == old(Value()).(batch := [], completed := 0)
    {
      beingSent, completed := [], 0;
    }
  }

  class PeerServersManager {
    const overhead: nat
    var flag: bool
    var set1: set<PeerId>
    var set2: set<PeerId>
    var servers: map<PeerId, StPeerServer>
    var live: map<Resp, Forward>
    var nextId: nat
    var inQueue: int
    var memory: int
    /** The local variables of the threads inside AddResponseToQueues. */
    var adders: map<ThreadId, PeerAdder>
    ghost var draining: bool
    ghost var todo: set<PeerId>
    ghost var act: PeerAct
    ghost var lost: Pair<set<PeerId>>

    ghost function Objects(): set<StPeerServer>
      reads this
    {
      set p | p in servers :: servers[p]
    }

    /** No two addresses share an object. */
    ghost predicate Valid()
      reads this
    {
      forall p, q :: p in servers && q in servers && servers[p] == servers[q] ==> p == q
    }

    ghost function Peers(): map<PeerId, Peer>
      reads this, Objects()
    {
      map p | p in servers :: servers[p].Value()
    }

    ghost function Abs(): PeerState
      reads this, Objects()
    {
      PeerState(overhead, flag, Pair(set1, set2), Peers(), live, nextId, adders, draining, todo, act, inQueue,
          memory, lost)
    }

    constructor (overhead: nat)
      ensures Valid() && Abs() == Start(overhead)
    {
      this.overhead := overhead;
      flag, set1, set2, servers, live, nextId := false, {}, {}, map[], map[], 0;
      inQueue, memory := 0, 0;
      adders, draining, todo, act, lost := map[], false, {}, Idle, Pair({}, {});
    }

    twostate lemma OneObject(p: PeerId)
      requires old(Valid()) && servers == old(servers) && p in servers
      requires forall q :: q in servers && q != p ==> servers[q].Value() == old(servers[q].Value())
      ensures Peers() == old(Peers())[p := servers[p].Value()]
    {
    }

    // ----- the event loop -----

    ghost method NoteLeftBehind(p: PeerId)
      requires p in servers
      modifies `lost
      ensures lost == Pair(LeftBehind(old(lost).one, set1, p, servers[p].queue1),
                           LeftBehind(old(lost).two, set2, p, servers[p].queue2))
    {
      lost := Pair(LeftBehind(lost.one, set1, p, servers[p].queue1), LeftBehind(lost.two, set2, p, servers[p].queue2));
    }

    /** AddToServerSet for every queue that is not empty; `enough` says for which there is memory. */
    method Rejoin(p: PeerId, enough: Pair<bool>)
      requires p in servers
      modifies `set1, `set2, `lost
      ensures Abs() == Rejoined(old(Abs()), p, old(servers[p].Value()), enough)
    {
      hide LeftBehind;
      var server := servers[p];
      if server.queue1 != [] && enough.one { set1 := set1 + {p}; }
      if server.queue2 != [] && enough.two { set2 := set2 + {p}; }
      NoteLeftBehind(p);
      assert Peers() == old(Peers());
    }

    ghost method Advance(p: PeerId)
      requires Valid() && p in servers
      modifies servers[p]
      ensures Abs() == PutPeer(old(Abs()), p, old(servers[p].Value()).(completed := old(servers[p].completed) + 1))
      ensures servers[p].beingSent == old(servers[p].beingSent) && servers[p].completed == old(servers[p].completed) + 1
    {
      servers[p].Count();
      OneObject(p);
    }

    /** One more sent; the last one deletes the response. */
    method CountSent(r: Resp)
      modifies `live, `inQueue, `memory
      ensures Abs() == if r in old(live) && old(live)[r].refs == 1
        then old(Abs()).(live := old(live) - {r}, inQueue := old(inQueue) - 1,
            memory := old(memory) - (r.size + overhead))
        else old(Abs())
    {
      var sent := 1;
      if r in live && sent == live[r].refs {
        inQueue := inQueue - 1;
        memory := memory - (r.size + overhead);
        live := live - {r};
      }
      assert Peers() == old(Peers());
    }

    lemma ValueOf(p: PeerId)
      requires p in servers
      ensures p in Abs().peers && Abs().peers[p] == servers[p].Value() && Abs().flag == flag
          && Abs().sets == Pair(set1, set2) && Abs().act == act
    {
    }

    lemma BatchGoesOn(p: PeerId)
      requires act == Completing(p) && p in servers && servers[p].completed < |servers[p].beingSent|
      ensures forall enough :: CanStep(Abs(), CompleteOne(enough))
      ensures Abs().act == act && Abs().sets == Pair(set1, set2)
      ensures Abs().live == live && Abs().inQueue == inQueue && Abs().memory == memory && Abs().overhead == overhead
      ensures Abs().peers[p] == servers[p].Value()
      ensures servers[p].Value().batch == servers[p].beingSent && servers[p].Value().completed == servers[p].completed
    {
    }

    /** AfterSendingPeerServersResponses, and then the rest of AfterSendingResponse. */
    method AfterSendingResponse(p: PeerId, r: Resp, enough: Pair<bool>)
      requires Valid() && Good(Abs()) && act == Completing(p) && p in servers
      requires servers[p].completed < |servers[p].beingSent| && r == servers[p].beingSent[servers[p].completed]
      modifies `set1, `set2, `lost, `live, `inQueue, `memory, servers[p]
      ensures CanStep(old(Abs()), CompleteOne(enough)) && Abs() == NextState(old(Abs()), CompleteOne(enough))
      ensures act == Completing(p) && Completed(old(Abs()), 1, enough, Abs())
      ensures servers[p].beingSent == old(servers[p].beingSent) && servers[p].completed == old(servers[p].completed) + 1
    {
      hide Rejoined, CanStep, PutPeer, StPeerServer.Value, PeerServersManager.Abs, Good, Completed;
      BatchGoesOn(p);
      OneCompleted(Abs(), enough);
      CompleteParts(Abs(), enough);
      hide NextState;
      Rejoin(p, enough);
      ValueOf(p);
      Advance(p);
      CountSent(r);
    }

    method EmptyBatch(p: PeerId)
      requires Valid() && act == Completing(p) && p in servers
      modifies `act, servers[p]
      ensures Abs() == Cleared(old(Abs())) && act == Idle
    {
      act := Idle;
      servers[p].Clear();
      OneObject(p);
    }

    lemma BatchOver(p: PeerId)
      requires p in servers && act == Completing(p) && servers[p].completed == |servers[p].beingSent|
      ensures CanStep(Abs(), ClearBatch) && p in Abs().peers
      ensures Abs().act == act && Abs().draining == draining && Abs().flag == flag
    {
    }

    /** after_send_responses: every response of the batch in turn, then the batch is cleared. */
    method AfterSendResponses(p: PeerId, enough: nat -> Pair<bool>)
      returns (ghost steps: seq<PeerStep>, ghost done: PeerState)
      requires Valid() && Good(Abs()) && act == Completing(p) && p in servers && servers[p].completed == 0
      modifies `act, `set1, `set2, `lost, `live, `inQueue, `memory, servers[p]
      ensures PeerRun(old(Abs()), steps, done) && CanStep(done, ClearBatch) && done.act == Completing(p)
      ensures done.draining == draining && done.flag == flag && p in done.peers
      ensures var n := old(|servers[p].beingSent|); n > 0 ==> Completed(old(Abs()), n, O.Once(enough, n), done)
      ensures Abs() == Cleared(done) && act == Idle
    {
      hide PeerRun, Good, NextState, CanStep, Cleared, StPeerServer.Value, PeerServersManager.Abs;
      hide Completed, O.Once, O.Either;
      ghost var s := Abs();
      steps := [];
      Stay(s);
      var sent := servers[p].beingSent;
      var i := 0;
      while i < |sent|
        invariant i == servers[p].completed <= |sent| && sent == servers[p].beingSent
        invariant PeerRun(s, steps, Abs()) && Good(Abs()) && act == Completing(p)
        invariant if i == 0 then Abs() == s else Completed(s, i, O.Once(enough, i), Abs())
      {
        ghost var m := Abs();
        AfterSendingResponse(p, sent[i], enough(i));
        O.OnceMore(enough, i);
        if i > 0 {
          OneMoreCompleted(s, i, O.Once(enough, i), m, enough(i), Abs());
        }
        OneMore(s, steps, m, CompleteOne(enough(i)));
        steps := steps + [CompleteOne(enough(i))];
        RunKeepsGood(s, steps, Abs());
        i := i + 1;
      }
      done := Abs();
      BatchOver(p);
      EmptyBatch(p);
    }

    ghost method Begin(p: PeerId)
      modifies `act
      ensures Abs() == old(Abs()).(act := Completing(p)) && act == Completing(p)
    {
      act := Completing(p);
    }

    /** The step that libuv's callback is. */
    ghost method BeginCallback(p: PeerId)
      requires Valid() && Good(Abs()) && !draining && act == Idle && p in servers && servers[p].beingSent != []
      modifies `act
      ensures PeerRun(old(Abs()), [WriteOver(p)], Abs()) && Good(Abs()) && Abs() == old(Abs()).(act := Completing(p))
      ensures act == Completing(p) && servers[p].completed == 0
      ensures var s := old(Abs()); p in s.peers && s.peers[p] == servers[p].Value() && s.peers[p].completed == 0
    {
      ghost var s := Abs();
      IdleBatch(s, p);
      hide PeerRun, Good;
      Begin(p);
      Stay(s);
      OneMore(s, [], s, WriteOver(p));
      assert [] + [WriteOver(p)] == [WriteOver(p)];
      assert Abs() == NextState(s, WriteOver(p));
      RunKeepsGood(s, [WriteOver(p)], Abs());
    }

    /** libuv calls after_send_responses when a write to a peer is over. */
    method AfterWrite(p: PeerId, enough: nat -> Pair<bool>) returns (ghost steps: seq<PeerStep>)
      requires Valid() && Good(Abs()) && !draining && act == Idle && p in servers && servers[p].beingSent != []
      modifies `act, `set1, `set2, `lost, `live, `inQueue, `memory, servers[p]
      ensures PeerRun(old(Abs()), steps, Abs()) && Good(Abs()) && act == Idle
      ensures steps != [] && steps[0] == WriteOver(p)
      ensures Written(old(Abs()), p, O.Once(enough, old(|servers[p].beingSent|)), Abs())
    {
      hide PeerRun, Good, Cleared, Written, Completed, O.Once, NextState, CanStep, PeerServersManager.Abs;
      ghost var s := Abs();
      ValueOf(p);
      BeginCallback(p);
      ghost var m := Abs();
      ghost var done;
      steps, done := AfterSendResponses(p, enough);
      BatchWritten(s, p, O.Once(enough, |s.peers[p].batch|), done);
      ClearedIdle(done);
      Append(s, [WriteOver(p)], m, steps, done);
      steps := [WriteOver(p)] + steps;
      OneMore(s, steps, done, ClearBatch);
      steps := steps + [ClearBatch];
      RunKeepsGood(s, steps, Abs());
    }

    // ----- sending -----

    method EraseFromSet(p: PeerId)
      modifies `set1, `set2
      ensures Abs() == Leave(old(Abs()), p)
    {
      if flag { set2 := set2 - {p}; } else { set1 := set1 - {p}; }
    }

    method Take(p: PeerId)
      requires Valid() && p in servers && servers[p].beingSent == [] && servers[p].completed == 0
      modifies servers[p]
      ensures Abs() == PutPeer(old(Abs()), p, TakeAll(old(servers[p].Value()), !flag))
      ensures servers[p].completed == 0 && servers[p].beingSent == old(servers[p].Value()).q.At(!flag)
    {
      hide StPeerServer.Value, TakeAll;
      servers[p].Take(!flag);
      OneObject(p);
    }

    ghost method Next(p: PeerId)
      modifies `todo
      ensures Abs() == old(Abs()).(todo := old(todo) - {p}) && todo == old(todo) - {p}
    {
      todo := todo - {p};
    }

    lemma RoundEnabled(p: PeerId, answer: Answer)
      requires draining && act == Idle && p in todo && p in servers
      ensures CanStep(Abs(), PeerStep.SendToPeer(p, answer))
      ensures Abs().peers[p] == servers[p].Value() && Abs().todo == todo && Abs().flag == flag
    {
    }

    /** The batch that uv_write has refused fails at once, and the peer leaves the set. */
    method Fail(p: PeerId, enough: nat -> Pair<bool>) returns (ghost steps: seq<PeerStep>, ghost done: PeerState)
      requires Valid() && Good(Abs()) && draining && act == Completing(p) && p in servers && servers[p].completed == 0
      modifies `act, `set1, `set2, `lost, `live, `inQueue, `memory, servers[p]
      ensures PeerRun(old(Abs()), steps, Abs()) && Good(Abs()) && act == Idle
      ensures var n := old(|servers[p].beingSent|); n > 0 ==> Completed(old(Abs()), n, O.Once(enough, n), done)
      ensures done.act == Completing(p) && p in done.peers && Abs() == Leave(Cleared(done), p)
    {
      hide PeerRun, Good, Cleared, Leave, NextState, CanStep, PeerServersManager.Abs, Completed, O.Once;
      ghost var s := Abs();
      steps, done := AfterSendResponses(p, enough);
      ClearedIdle(done);
      EraseFromSet(p);
      OneMore(s, steps, done, ClearBatch);
      steps := steps + [ClearBatch];
      RunKeepsGood(s, steps, Abs());
    }

    /** One round of the loop in SendPeerServersResponses; `answer` is what the connection and uv_write say. */
    method SendToPeer(p: PeerId, answer: Answer, enough: nat -> Pair<bool>) returns (ghost steps: seq<PeerStep>)
      requires Valid() && Good(Abs()) && draining && act == Idle && p in todo && p in servers
      modifies `act, `set1, `set2, `lost, `live, `inQueue, `memory, `todo, servers[p]
      ensures PeerRun(old(Abs()), steps, Abs()) && Good(Abs()) && act == Idle && todo == old(todo) - {p}
      ensures steps != [] && steps[0] == PeerStep.SendToPeer(p, answer) && Drained(old(Abs()), p, answer, enough, Abs())
    {
      hide PeerRun, Good, Cleared, TakeAll, CanStep, Leave, PutPeer, PeerServersManager.Abs, Completed, Drained, O.Once;
      ghost var s := Abs();
      RoundEnabled(p, answer);
      IdleBatch(s, p);
      steps := [PeerStep.SendToPeer(p, answer)];
      Stay(s);
      OneMore(s, [], s, steps[0]);
      assert [] + steps == steps;
      ghost var m := NextState(s, steps[0]);
      RunKeepsGood(s, steps, m);
      Next(p);
      if answer.Wait? {
        RoundTaken(s, p, answer, enough);
        return;
      }
      if servers[p].beingSent != [] {
        EraseFromSet(p);
        RoundTaken(s, p, answer, enough);
        return;
      }
      Take(p);
      if answer.Accepted? {
        EraseFromSet(p);
        RoundTaken(s, p, answer, enough);
        return;
      }
      Begin(p);
      assert Abs() == m;
      HasResponses(s, p);
      ghost var more, done := Fail(p, enough);
      RoundRefused(s, p, answer, enough, done);
      Append(s, steps, m, more, Abs());
      steps := steps + more;
    }

    ghost method SetDrain(on: bool, peers: set<PeerId>)
      modifies `draining, `todo
      ensures Abs() == old(Abs()).(draining := on, todo := peers) && draining == on && todo == peers
    {
      draining, todo := on, peers;
    }

    /** The flag is flipped; the loop that follows owns the set and the queues that the threads have left. */
    method FlipFlag()
      requires !draining && act == Idle && adders == map[]
      modifies `flag, `draining, `todo
      ensures CanStep(old(Abs()), ToggleFlag) && Abs() == NextState(old(Abs()), ToggleFlag)
      ensures flag == !old(flag) && draining && todo == if flag then set2 else set1
      ensures var s := old(Abs());
        Abs() == s.(flag := !s.flag, draining := true, todo := s.sets.At(s.flag)) && todo == s.sets.At(s.flag)
    {
      flag := !flag;
      SetDrain(true, if flag then set2 else set1);
    }

    lemma SetsKnown()
      requires Good(Abs())
      ensures set1 <= servers.Keys && set2 <= servers.Keys
    {
      hide GoodForwards, GoodView;
    }

    ghost method StopDrain()
      requires draining && act == Idle && todo == {}
      modifies `draining
      ensures CanStep(old(Abs()), EndSending) && Abs() == NextState(old(Abs()), EndSending) && !draining
      ensures Abs() == old(Abs()).(draining := false)
    {
      draining := false;
    }

    // ----- a request processing thread -----

    method SetAdder(t: ThreadId, a: PeerAdder)
      modifies `adders
      ensures adders == old(adders)[t := a] && Abs() == old(Abs()).(adders := adders)
    {
      adders := adders[t := a];
    }

    /** A new response object for one peer. */
    method CreateResponse(t: ThreadId, p: PeerId, size: nat) returns (r: Resp)
      requires t !in adders
      modifies `live, `nextId, `adders
      ensures CanStep(old(Abs()), Create(t, p, size)) && Abs() == NextState(old(Abs()), Create(t, p, size))
      ensures adders == old(adders)[t := PeerAdder(r, p, false, false)]
    {
      r := Resp(nextId, false, size);
      nextId := nextId + 1;
      live := live[r := Forward(p, 0)];
      SetAdder(t, PeerAdder(r, p, false, false));
    }

    /** The peer's object, created when its first response comes. */
    method FindServer(p: PeerId) returns (server: StPeerServer)
      requires Valid()
      modifies `servers
      ensures Valid() && p in servers && servers[p] == server && (p in old(servers) ==> servers == old(servers))
      ensures fresh(Objects() - old(Objects())) && old(servers).Keys <= servers.Keys
      ensures Abs() == if p in old(servers) then old(Abs()) else PutPeer(old(Abs()), p, FRESH_PEER)
    {
      if p !in servers {
        var created := new StPeerServer();
        servers := servers[p := created];
        assert Peers() == old(Peers())[p := FRESH_PEER];
      }
      server := servers[p];
    }

    method AddToServerSet(p: PeerId)
      modifies `set1, `set2, `lost
      ensures var s := old(Abs());
        Abs() == s.(sets := s.sets.With(flag, s.sets.At(flag) + {p}), lost := s.lost.With(flag, s.lost.At(flag) - {p}))
      ensures if flag then set2 == old(set2) else set1 == old(set1)
    {
      if flag { set1 := set1 + {p}; } else { set2 := set2 + {p}; }
      lost := lost.With(flag, lost.At(flag) - {p});
    }

    method PushResponse(p: PeerId, r: Resp)
      requires Valid() && p in servers
      modifies servers[p]
      ensures Abs() == PutPeer(old(Abs()), p, Pushed(old(servers[p].Value()), flag, r))
    {
      hide StPeerServer.Value;
      servers[p].Push(flag, r);
      OneObject(p);
    }

    lemma QueueEnabled(t: ThreadId, enough: bool)
      requires t in adders && !adders[t].ended
      ensures CanStep(Abs(), Queue(t, enough))
      ensures Abs().adders == adders && Abs().flag == flag && Abs().peers.Keys == servers.Keys
    {
    }

    /** AddResponseToQueue; `enough` says that no allocation fails. */
    method AddResponseToQueue(t: ThreadId, p: PeerId, r: Resp, enough: bool) returns (added: bool)
      requires Valid() && t in adders && adders[t] == PeerAdder(r, p, false, false)
      modifies `servers, `set1, `set2, `lost, `adders, Objects()
      ensures Valid() && fresh(Objects() - old(Objects())) && added == enough
      ensures CanStep(old(Abs()), Queue(t, enough)) && Abs() == NextState(old(Abs()), Queue(t, enough))
      ensures adders == old(adders)[t := PeerAdder(r, p, added, true)]
      ensures old(servers).Keys <= servers.Keys && if flag then set2 == old(set2) else set1 == old(set1)
    {
      hide PeerServersManager.Abs, Pushed, CanStep;
      added := enough;
      QueueEnabled(t, enough);
      ghost var s := Abs();
      if !enough {
        SetAdder(t, PeerAdder(r, p, false, true));
        return;
      }
      QueueParts(s, t, p, r);
      hide NextState;
      var server := FindServer(p);
      ValueOf(p);
      PushResponse(p, r);
      AddToServerSet(p);
      SetAdder(t, PeerAdder(r, p, true, true));
    }

    /** The reference count becomes final; a response that was not queued is deleted. */
    method SetReferenceCount(t: ThreadId, p: PeerId, r: Resp, count: nat)
      requires t in adders && adders[t] == PeerAdder(r, p, count > 0, true) && count <= 1
      modifies `live, `inQueue, `memory, `adders
      ensures CanStep(old(Abs()), SetCount(t)) && Abs() == NextState(old(Abs()), SetCount(t))
      ensures adders == old(adders) - {t}
    {
      if count == 0 {
        live := live - {r};
      } else {
        live := live[r := Forward(p, count)];
        inQueue := inQueue + 1;
        memory := memory + (r.size + overhead);
      }
      adders := adders - {t};
      assert Peers() == old(Peers());
    }

    lemma ThreadParts()
      ensures Abs().adders == adders && Abs().nextId == nextId && Abs().flag == flag && Abs().sets == Pair(set1, set2)
    {
    }

    /** AddResponseToQueues for a response that is forwarded. */
    method AddResponseToQueues(t: ThreadId, p: PeerId, size: nat, enough: bool)
      returns (count: nat, ghost steps: seq<PeerStep>)
      requires Valid() && t !in adders
      modifies `live, `nextId, `adders, `servers, `set1, `set2, `lost, `inQueue, `memory, Objects()
      ensures Valid() && PeerRun(old(Abs()), steps, Abs())
      ensures count == if enough then 1 else 0
      ensures Spread(old(Abs()), p, Resp(old(nextId), false, size), enough, Abs())
      ensures fresh(Objects() - old(Objects())) && old(servers).Keys <= servers.Keys
    {
      hide PeerRun, CanStep, CreateStep, QueueStep, SetCountStep, Spread, PeerServersManager.Abs;
      ghost var s := Abs();
      Stay(s);
      ThreadParts();
      Spreads(s, t, p, size, enough);
      var r := CreateResponse(t, p, size);
      OneMore(s, [], s, Create(t, p, size));
      steps := [] + [Create(t, p, size)];
      ghost var m := Abs();
      var added := AddResponseToQueue(t, p, r, enough);
      OneMore(s, steps, m, Queue(t, enough));
      steps := steps + [Queue(t, enough)];
      m := Abs();
      count := if added then 1 else 0;
      SetReferenceCount(t, p, r, count);
      OneMore(s, steps, m, SetCount(t));
      steps := steps + [SetCount(t)];
    }

    // ----- sending, while threads add -----

    /** A thread goes on as far as its next lock, if it can. */
    method ThreadStep(step: PeerStep) returns (ghost steps: seq<PeerStep>)
      requires Valid() && Good(Abs())
      modifies `live, `nextId, `adders, `servers, `set1, `set2, `lost, `inQueue, `memory, Objects()
      ensures Valid() && PeerRun(old(Abs()), steps, Abs()) && Good(Abs())
      ensures steps == if IsThread(step) && old(CanStep(Abs(), step)) then [step] else []
      ensures fresh(Objects() - old(Objects())) && old(servers).Keys <= servers.Keys
    {
      hide PeerRun, Good, NextState, PeerServersManager.Abs;
      ghost var s := Abs();
      ThreadParts();
      steps := [];
      Stay(s);
      match step {
        case Create(t, p, size) =>
          if t !in adders {
            OneMore(s, [], s, step);
            steps := [] + [step];
            var r := CreateResponse(t, p, size);
          }
        case Queue(t, enough) =>
          if t in adders && !adders[t].ended {
            AdderFresh(s, t);
            OneMore(s, [], s, step);
            steps := [] + [step];
            var added := AddResponseToQueue(t, adders[t].peer, adders[t].resp, enough);
          }
        case SetCount(t) =>
          if t in adders && adders[t].ended {
            OneMore(s, [], s, step);
            steps := [] + [step];
            SetReferenceCount(t, adders[t].peer, adders[t].resp, if adders[t].added then 1 else 0);
          }
        case _ =>
      }
      RunKeepsGood(s, steps, Abs());
    }

    /** What the threads do meanwhile: any number of steps of any of them. */
    method Threads(moves: seq<PeerStep>) returns (ghost steps: seq<PeerStep>)
      requires Valid() && Good(Abs())
      modifies `live, `nextId, `adders, `servers, `set1, `set2, `lost, `inQueue, `memory, Objects()
      ensures Valid() && PeerRun(old(Abs()), steps, Abs()) && Good(Abs())
      ensures fresh(Objects() - old(Objects())) && old(servers).Keys <= servers.Keys
      ensures Abs() == AfterMoves(old(Abs()), moves) && ThreadsMoved(old(Abs()), Abs())
    {
      hide PeerRun, Good, NextState, CanStep, PeerServersManager.Abs, ThreadsMoved, AfterMove;
      ghost var s := Abs();
      steps := [];
      Stay(s);
      SameAtOnce(s);
      var i := 0;
      while i < |moves|
        invariant i <= |moves| && Valid() && PeerRun(s, steps, Abs()) && Good(Abs())
        invariant fresh(Objects() - old(Objects())) && old(servers).Keys <= servers.Keys
        invariant Abs() == AfterMoves(s, moves[..i]) && ThreadsMoved(s, Abs())
      {
        ghost var m := Abs();
        ghost var more := ThreadStep(moves[i]);
        ItsMove(m, moves[i], more, Abs());
        OneMoreMove(s, moves, i);
        MovedTwice(s, m, Abs());
        Append(s, steps, m, more, Abs());
        steps := steps + more;
        i := i + 1;
      }
      assert moves[..i] == moves;
    }

    /** What threads do in front of a round, and the round. */
    method Round(p: PeerId, answer: Answer, enough: nat -> Pair<bool>, moves: seq<PeerStep>)
      returns (ghost steps: seq<PeerStep>, ghost m: PeerState)
      requires Valid() && Good(Abs()) && draining && act == Idle && p in todo && p in servers
      modifies `act, `set1, `set2, `lost, `servers, `live, `nextId, `adders, `inQueue, `memory, `todo, Objects()
      ensures Valid() && PeerRun(old(Abs()), steps, Abs()) && Good(Abs()) && act == Idle && todo == old(todo) - {p}
      ensures fresh(Objects() - old(Objects())) && old(servers).Keys <= servers.Keys
      ensures ThreadsMoved(old(Abs()), m) && Drained(m, p, answer, enough, Abs())
    {
      hide PeerRun, Good, NextState, CanStep, PeerServersManager.Abs, ThreadsMoved, Drained, AfterMoves;
      ghost var s := Abs();
      steps := Threads(moves);
      m := Abs();
      ghost var more := SendToPeer(p, answer, enough);
      Append(s, steps, m, more, Abs());
      steps := steps + more;
    }

    /**
      SendPeerServersResponses.  Before each peer that the drain takes, the threads may take any steps, as
      far as any of their locks: `moves` says which.
    */
    method SendPeerServersResponses(answers: PeerId -> Answer, enough: PeerId -> nat -> Pair<bool>,
                                    moves: PeerId -> seq<PeerStep>)
      returns (ghost steps: seq<PeerStep>)
      requires Valid() && Good(Abs()) && draining && act == Idle && todo == if flag then set2 else set1
      modifies `act, `set1, `set2, `lost, `servers, `live, `nextId, `adders, `inQueue, `memory, `todo, Objects()
      ensures Valid() && PeerRun(old(Abs()), steps, Abs()) && Good(Abs()) && act == Idle && todo == {}
      ensures DrainedSome(old(Abs()), old(todo), answers, Abs()) && fresh(Objects() - old(Objects()))
    {
      hide PeerRun, Good, NextState, CanStep, PeerServersManager.Abs, DrainedSome, Drained, ThreadsMoved;
      hide PeerServersManager.Valid;
      ghost var s := Abs();
      ThreadParts();
      SetsKnown();
      var left := if flag then set2 else set1;
      ghost var all := left;
      steps := [];
      Stay(s);
      NoneDrained(s, answers);
      OneFewer(all, left, 0);
      while left != {}
        invariant left == todo <= servers.Keys && left <= all && draining && act == Idle
        invariant Valid() && PeerRun(s, steps, Abs()) && Good(Abs()) && DrainedSome(s, all - left, answers, Abs())
        invariant fresh(Objects() - old(Objects()))
        decreases left
      {
        var p :| p in left;
        ghost var before := Abs();
        ghost var more, between := Round(p, answers(p), enough(p), moves(p));
        Append(s, steps, before, more, Abs());
        OneFewer(all, left, p);
        OneMoreDrained(s, all - left, answers, before, between, p, enough(p), Abs());
        steps := steps + more;
        left := left - {p};
      }
      OneFewer(all, left, 0);
    }

    /** The flag is flipped, and what the threads had queued until then is sent. */
    method SendResponses(answers: PeerId -> Answer, enough: PeerId -> nat -> Pair<bool>, moves: PeerId -> seq<PeerStep>)
      returns (ghost steps: seq<PeerStep>)
      requires Valid() && Good(Abs()) && !draining && act == Idle && adders == map[]
      modifies `flag, `act, `set1, `set2, `lost, `servers, `live, `nextId, `adders, `inQueue, `memory, `todo,
        `draining, Objects()
      ensures Valid() && PeerRun(old(Abs()), steps, Abs()) && Good(Abs()) && act == Idle && !draining
      ensures steps != [] && steps[0] == ToggleFlag && AllDrained(old(Abs()), answers, Abs())
    {
      hide PeerRun, Good, NextState, CanStep, PeerServersManager.Abs, DrainedSome, AllDrained;
      ghost var s := Abs();
      FlipFlag();
      Stay(s);
      OneMore(s, [], s, ToggleFlag);
      assert [] + [ToggleFlag] == [ToggleFlag];
      RunKeepsGood(s, [ToggleFlag], Abs());
      ghost var toggled := Abs();
      steps := SendPeerServersResponses(answers, enough, moves);
      ghost var m := Abs();
      Append(s, [ToggleFlag], toggled, steps, m);
      steps := [ToggleFlag] + steps;
      ToggledAndDrained(s, answers, m);
      StopDrain();
      OneMore(s, steps, m, EndSending);
      steps := steps + [EndSending];
      RunKeepsGood(s, steps, Abs());
    }
  }
}
