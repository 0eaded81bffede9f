/**
  What the methods of the forwarding code come to, on states: the steps of the transition system that
  they are, and what is left of the state when they are over, by its fields.
*/
module PeerOutcomes {
  import opened Delivery
  import opened PeerDelivery
  import opened PeerDeliveryTheorems
  import O = DeliveryOutcomes

  lemma {:induction false} Append(s: PeerState, first: seq<PeerStep>, m: PeerState, rest: seq<PeerStep>, s': PeerState)
    requires PeerRun(s, first, m) && PeerRun(m, rest, s')
    ensures PeerRun(s, first + rest, s')
    decreases |first|
  {
    hide NextState, CanStep;
    if first == [] {
      assert first + rest == rest;
    } else {
      Append(NextState(s, first[0]), first[1..], m, rest, s');
      assert (first + rest)[1..] == first[1..] + rest;
    }
  }

  lemma OneMore(s: PeerState, steps: seq<PeerStep>, m: PeerState, step: PeerStep)
    requires PeerRun(s, steps, m) && CanStep(m, step)
    ensures PeerRun(s, steps + [step], NextState(m, step))
  {
    assert PeerRun(m, [step], NextState(m, step)) by {
      hide NextState, CanStep;
      assert [step][1..] == [];
    }
    Append(s, steps, m, [step], NextState(m, step));
  }

  lemma Stay(s: PeerState)
    ensures PeerRun(s, [], s)
  {
  }

  /** The batch of the peer is over and cleared; a drain has still to take the peer out of its set. */
  ghost function Cleared(s: PeerState): PeerState
    requires s.act.Completing? && s.act.p in s.peers
  {
    PutPeer(s, s.act.p, s.peers[s.act.p].(batch := [], completed := 0)).(act := Idle)
  }

  ghost function Known(s: PeerState, p: PeerId): (s': PeerState)
    ensures p in s'.peers
  {
    if p in s.peers then s else PutPeer(s, p, FRESH_PEER)
  }

  ghost function Rejoined(s: PeerState, p: PeerId, peer: Peer, enough: Pair<bool>): PeerState {
    s.(sets := RejoinSets(s.sets, p, peer, enough), lost := RejoinLost(s, p, peer, enough))
  }

  lemma CompleteParts(s: PeerState, enough: Pair<bool>)
    requires CanStep(s, CompleteOne(enough))
    ensures var p := s.act.p; var peer := s.peers[p]; var r := peer.batch[peer.completed];
      var s1 := PutPeer(Rejoined(s, p, peer, enough), p, peer.(completed := peer.completed + 1));
      NextState(s, CompleteOne(enough)) ==
      if r in s.live && s.live[r].refs == 1
      then s1.(live := s.live - {r}, inQueue := s.inQueue - 1, memory := s.memory - (r.size + s.overhead)) else s1
  {
    hide RejoinSets, RejoinLost;
  }

  lemma QueueParts(s: PeerState, t: ThreadId, p: PeerId, r: Resp)
    requires CanStep(s, Queue(t, true)) && s.adders[t] == PeerAdder(r, p, false, false)
    ensures var s1 := Known(s, p); var s2 := PutPeer(s1, p, Pushed(s1.peers[p], s.flag, r));
      NextState(s, Queue(t, true)) ==
      s2.(sets := s.sets.With(s.flag, s.sets.At(s.flag) + {p}), lost := s.lost.With(s.flag, s.lost.At(s.flag) - {p}),
          adders := s.adders[t := PeerAdder(r, p, true, true)])
  {
  }

  lemma ClearedIdle(s: PeerState)
    requires CanStep(s, ClearBatch)
    ensures NextState(s, ClearBatch) == if s.draining then Leave(Cleared(s), s.act.p) else Cleared(s)
  {
  }

  lemma IdleBatch(s: PeerState, p: PeerId)
    requires Good(s) && p in s.peers && s.act.Idle?
    ensures s.peers[p].completed == 0
  {
    hide GoodForwards;
    assert GoodView(ViewOf(s, p));
  }

  predicate IsThread(step: PeerStep) {
    step.Create? || step.Queue? || step.SetCount?
  }

  lemma AdderFresh(s: PeerState, t: ThreadId)
    requires Good(s) && t in s.adders && !s.adders[t].ended
    ensures s.adders[t] == PeerAdder(s.adders[t].resp, s.adders[t].peer, false, false)
  {
    hide GoodPeers, GoodEntriesOf, GoodLive, GoodPeerCounters;
    assert GoodPeerAdder(s, t);
  }

  // ----- what is left when a batch is over, by the fields -----

  /** Only this peer, the sets and the responses have changed. */
  ghost predicate OnlyPeer(s: PeerState, p: PeerId, s': PeerState) {
    && p in s.peers && p in s'.peers
    && s' == s.(sets := s'.sets, peers := s.peers[p := s'.peers[p]], live := s'.live, inQueue := s'.inQueue,
                memory := s'.memory, lost := s'.lost, act := s'.act, todo := s'.todo)
  }

  ghost function BothJoined(s: PeerState, p: PeerId, fits: Pair<bool>): Pair<set<PeerId>>
    requires p in s.peers
  {
    Pair(O.Joined(s.sets.one, p, s.peers[p].q.one, fits.one), O.Joined(s.sets.two, p, s.peers[p].q.two, fits.two))
  }

  ghost function Without(live: map<Resp, Forward>, rs: seq<Resp>): map<Resp, Forward> {
    live - set r | r in rs
  }

  /** In the middle of a batch: n > 0 more of its responses are done with, and deleted. */
  ghost predicate Completed(s: PeerState, n: nat, fits: Pair<bool>, s': PeerState) {
    && n > 0 && s.act.Completing? && s'.act == s.act && s'.todo == s.todo
    && var p := s.act.p;
    && OnlyPeer(s, p, s') && s'.sets == BothJoined(s, p, fits)
    && var peer := s.peers[p];
    && peer.completed + n <= |peer.batch| && s'.peers[p] == peer.(completed := peer.completed + n)
    && s'.live == Without(s.live, peer.batch[peer.completed..peer.completed + n])
  }

  lemma OneCompleted(s: PeerState, fits: Pair<bool>)
    requires Good(s) && CanStep(s, CompleteOne(fits))
    ensures Completed(s, 1, fits, NextState(s, CompleteOne(fits)))
  {
    hide GoodPeers, GoodForwards;
    var peer := s.peers[s.act.p];
    var r := peer.batch[peer.completed];
    CompletionDeletes(s, fits);
    assert peer.batch[peer.completed..peer.completed + 1] == [r];
    assert {r} == set x | x in [r];
  }

  lemma WithoutMore(live: map<Resp, Forward>, rs: seq<Resp>, k: nat, n: nat)
    requires k + n < |rs|
    ensures Without(Without(live, rs[k..k + n]), rs[k + n..k + n + 1]) == Without(live, rs[k..k + n + 1])
  {
    assert rs[k..k + n + 1] == rs[k..k + n] + [rs[k + n]] && rs[k + n..k + n + 1] == [rs[k + n]];
  }

  lemma OneMoreCompleted(s: PeerState, n: nat, a: Pair<bool>, m: PeerState, b: Pair<bool>, s': PeerState)
    requires Completed(s, n, a, m) && Completed(m, 1, b, s')
    ensures Completed(s, n + 1, O.Either(a, b), s')
  {
    hide Without;
    var p := s.act.p;
    var batch, k := s.peers[p].batch, s.peers[p].completed;
    WithoutMore(s.live, batch, k, n);
    assert s.peers[p := m.peers[p]][p := s'.peers[p]] == s.peers[p := s'.peers[p]];
  }

  // ----- a write that is over, and a round of the drain -----

  /** What the callback after a write comes to, whether it has failed or not. */
  ghost predicate Written(s: PeerState, p: PeerId, fits: Pair<bool>, s': PeerState) {
    && OnlyPeer(s, p, s') && s'.act.Idle? && s'.todo == s.todo && s'.sets == BothJoined(s, p, fits)
    && s'.peers[p] == s.peers[p].(batch := [], completed := 0)
    && s'.live == Without(s.live, s.peers[p].batch)
  }

  lemma BatchWritten(s: PeerState, p: PeerId, fits: Pair<bool>, done: PeerState)
    requires s.act.Idle? && p in s.peers && s.peers[p].completed == 0
    requires Completed(s.(act := Completing(p)), |s.peers[p].batch|, fits, done)
    ensures Written(s, p, fits, Cleared(done))
  {
    var peer, peer' := s.peers[p], done.peers[p];
    assert peer.batch[0..|peer.batch|] == peer.batch;
    assert s.peers[p := peer'][p := peer'.(batch := [], completed := 0)] ==
      s.peers[p := peer'.(batch := [], completed := 0)];
  }

  /** The peer once the whole queue has been moved to its batch. */
  ghost function Moved(peer: Peer, side: bool): Peer {
    peer.(q := peer.q.With(side, []), batch := peer.q.At(side),
          taken := peer.taken.With(side, peer.taken.At(side) + peer.q.At(side)))
  }

  /**
    One round of the drain.  A peer that is still connecting keeps its place in the set; one with a batch in flight
    is passed over.  Of any other the queue is taken, which is in flight afterwards if uv_write takes it, and over
    at once if not.
  */
  ghost predicate Drained(s: PeerState, p: PeerId, answer: Answer, fits: nat -> Pair<bool>, s': PeerState) {
    && OnlyPeer(s, p, s') && s'.act.Idle? && s'.todo == s.todo - {p}
    && var side, peer, peer' := !s.flag, s.peers[p], s'.peers[p];
    && var left, q := s.sets.At(side) - {p}, peer.q.At(side);
    if answer.Wait? then peer' == peer && s'.live == s.live && s'.sets == s.sets
    else if peer.batch != [] then peer' == peer && s'.live == s.live && s'.sets == s.sets.With(side, left)
    else if answer.Accepted? then
      peer' == Moved(peer, side) && s'.live == s.live && s'.sets == s.sets.With(side, left)
    else
      && peer' == Moved(peer, side).(batch := []) && s'.live == Without(s.live, q)
      && s'.sets == s.sets.With(side, left)
           .With(!side, O.Joined(s.sets.At(!side), p, peer.q.At(!side), O.Once(fits, |q|).At(!side)))
  }

  lemma HasResponses(s: PeerState, p: PeerId)
    requires Good(s) && s.draining && s.act.Idle? && p in s.todo && p in s.peers
    ensures s.peers[p].q.At(!s.flag) != []
  {
    hide GoodForwards;
    assert GoodView(ViewOf(s, p));
  }

  lemma RoundTaken(s: PeerState, p: PeerId, answer: Answer, fits: nat -> Pair<bool>)
    requires CanStep(s, SendToPeer(p, answer)) && s.peers[p].completed == 0
    requires answer.Wait? || s.peers[p].batch != [] || answer.Accepted?
    ensures Drained(s, p, answer, fits, SendToPeerStep(s, p, answer))
  {
    assert s.peers == s.peers[p := s.peers[p]];
  }

  lemma RoundRefused(s: PeerState, p: PeerId, answer: Answer, fits: nat -> Pair<bool>, done: PeerState)
    requires CanStep(s, SendToPeer(p, answer)) && s.peers[p].batch == [] && s.peers[p].completed == 0
    requires answer.Refused?
    requires var q := s.peers[p].q.At(!s.flag);
      Completed(SendToPeerStep(s, p, answer), |q|, O.Once(fits, |q|), done)
    ensures Drained(s, p, answer, fits, Leave(Cleared(done), p))
  {
    hide O.Once;
    var peer, peer' := TakeAll(s.peers[p], !s.flag), done.peers[p];
    assert peer.batch[0..|peer.batch|] == peer.batch;
    assert done.sets.At(!s.flag) - {p} == s.sets.At(!s.flag) - {p};
    assert s.peers[p := peer][p := peer'][p := peer'.(batch := [], completed := 0)] ==
      s.peers[p := peer'.(batch := [], completed := 0)];
  }

  // ----- a response that is forwarded -----

  /** A peer that nothing has been sent to yet has no object. */
  ghost function PeerAt(s: PeerState, p: PeerId): Peer {
    if p in s.peers then s.peers[p] else FRESH_PEER
  }

  ghost function WithResponse(peer: Peer, side: bool, r: Resp): Peer {
    peer.(q := peer.q.With(side, peer.q.At(side) + [r]), pushed := peer.pushed.With(side, peer.pushed.At(side) + [r]))
  }

  /** AddResponseToQueues as a whole: the new response waits for its one peer, or is deleted again. */
  ghost predicate Spread(s: PeerState, p: PeerId, r: Resp, enough: bool, s': PeerState) {
    if enough then
      s' == s.(peers := s.peers[p := WithResponse(PeerAt(s, p), s.flag, r)],
               sets := s.sets.With(s.flag, s.sets.At(s.flag) + {p}), live := s.live[r := Forward(p, 1)],
               nextId := s.nextId + 1, inQueue := s.inQueue + 1, memory := s.memory + r.size + s.overhead,
               lost := s'.lost)
    else s' == s.(live := s.live - {r}, nextId := s.nextId + 1)
  }

  lemma Queues(s: PeerState, t: ThreadId, p: PeerId, size: nat)
    requires t !in s.adders
    ensures var m, r := CreateStep(s, t, p, size), Resp(s.nextId, false, size);
      QueueStep(m, t, true) == s.(peers := s.peers[p := WithResponse(PeerAt(s, p), s.flag, r)],
        sets := s.sets.With(s.flag, s.sets.At(s.flag) + {p}), live := s.live[r := Forward(p, 0)],
        nextId := s.nextId + 1, lost := s.lost.With(s.flag, s.lost.At(s.flag) - {p}),
        adders := s.adders[t := PeerAdder(r, p, true, true)])
  {
    var r := Resp(s.nextId, false, size);
    var a := PeerAdder(r, p, true, true);
    assert s.adders[t := PeerAdder(r, p, false, false)][t := a] == s.adders[t := a];
  }

  lemma Spreads(s: PeerState, t: ThreadId, p: PeerId, size: nat, enough: bool)
    requires t !in s.adders
    ensures Spread(s, p, Resp(s.nextId, false, size), enough,
                   SetCountStep(QueueStep(CreateStep(s, t, p, size), t, enough), t))
  {
    var r := Resp(s.nextId, false, size);
    var a := PeerAdder(r, p, enough, true);
    assert s.live[r := Forward(p, 0)] - {r} == s.live - {r};
    assert s.live[r := Forward(p, 0)][r := Forward(p, 1)] == s.live[r := Forward(p, 1)];
    assert s.adders[t := a] - {t} == s.adders;
    if enough {
      Queues(s, t, p, size);
      hide QueueStep, WithResponse, PeerAt;
    } else {
      assert s.adders[t := PeerAdder(r, p, false, false)][t := a] == s.adders[t := a];
    }
  }

  // ----- a whole drain, while threads add -----

  /** Threads may add to the queue on their side; everything else of a peer is the loop's. */
  ghost predicate SameForLoop(peer: Peer, peer': Peer, side: bool) {
    && peer' == peer.(q := peer'.q, pushed := peer'.pushed)
    && peer'.q.At(side) == peer.q.At(side) && peer'.pushed.At(side) == peer.pushed.At(side)
    && peer.q.At(!side) <= peer'.q.At(!side) && peer.pushed.At(!side) <= peer'.pushed.At(!side)
  }

  ghost predicate ThreadsMoved(s: PeerState, s': PeerState) {
    && s'.overhead == s.overhead && s'.flag == s.flag && s'.draining == s.draining && s'.todo == s.todo
    && s'.act == s.act && s'.sets.At(!s.flag) == s.sets.At(!s.flag) && s.sets.At(s.flag) <= s'.sets.At(s.flag)
    && s.peers.Keys <= s'.peers.Keys
    && forall p :: SameForLoop(PeerAt(s, p), PeerAt(s', p), !s.flag)
  }

  /** One move, if it is a step of a thread and possible now. */
  ghost function AfterMove(s: PeerState, move: PeerStep): PeerState {
    if IsThread(move) && CanStep(s, move) then NextState(s, move) else s
  }

  ghost function AfterMoves(s: PeerState, moves: seq<PeerStep>): PeerState {
    if moves == [] then s else AfterMove(AfterMoves(s, moves[..|moves| - 1]), moves[|moves| - 1])
  }

  lemma OneMoreMove(s: PeerState, moves: seq<PeerStep>, i: nat)
    requires i < |moves|
    ensures AfterMoves(s, moves[..i + 1]) == AfterMove(AfterMoves(s, moves[..i]), moves[i])
  {
    hide AfterMove;
    assert moves[..i + 1][..i] == moves[..i];
  }

  lemma SameAtOnce(s: PeerState)
    ensures ThreadsMoved(s, s)
  {
  }

  lemma QueueMoves(s: PeerState, t: ThreadId, enough: bool)
    requires CanStep(s, Queue(t, enough))
    ensures ThreadsMoved(s, QueueStep(s, t, enough))
  {
  }

  lemma ItsMove(s: PeerState, step: PeerStep, steps: seq<PeerStep>, s': PeerState)
    requires PeerRun(s, steps, s')
    requires steps == if IsThread(step) && CanStep(s, step) then [step] else []
    ensures s' == AfterMove(s, step) && ThreadsMoved(s, s')
  {
    if IsThread(step) && CanStep(s, step) {
      assert s' == NextState(s, step);
      if step.Queue? {
        hide QueueStep, ThreadsMoved;
        QueueMoves(s, step.t, step.enough);
      }
    } else {
      hide ThreadsMoved;
      SameAtOnce(s);
    }
  }

  lemma SameTwice(peer: Peer, peer1: Peer, peer2: Peer, side: bool)
    requires SameForLoop(peer, peer1, side) && SameForLoop(peer1, peer2, side)
    ensures SameForLoop(peer, peer2, side)
  {
  }

  lemma MovedTwice(s: PeerState, m: PeerState, s': PeerState)
    requires ThreadsMoved(s, m) && ThreadsMoved(m, s')
    ensures ThreadsMoved(s, s')
  {
    hide SameForLoop, PeerAt;
    forall p ensures SameForLoop(PeerAt(s, p), PeerAt(s', p), !s.flag) {
      SameTwice(PeerAt(s, p), PeerAt(m, p), PeerAt(s', p), !s.flag);
    }
  }

  /** What is the loop's of a peer once its round is over. */
  ghost predicate DrainedFor(peer: Peer, side: bool, answer: Answer, peer': Peer) {
    if answer.Wait? || peer.batch != [] then SameForLoop(peer, peer', side)
    else if answer.Accepted? then SameForLoop(Moved(peer, side), peer', side)
    else SameForLoop(Moved(peer, side).(batch := []), peer', side)
  }

  /** The peers that are still connecting keep their place in the set. */
  ghost function Waiting(peers: set<PeerId>, answers: PeerId -> Answer): set<PeerId> {
    set p | p in peers && answers(p).Wait?
  }

  /** In the middle of a drain: these peers have had their round, each with its answer. */
  ghost predicate DrainedSome(s: PeerState, done: set<PeerId>, answers: PeerId -> Answer, s': PeerState) {
    && s'.flag == s.flag && s.peers.Keys <= s'.peers.Keys
    && s'.sets.At(!s.flag) == s.sets.At(!s.flag) - done + Waiting(done, answers)
    && (forall p :: p in done ==> DrainedFor(PeerAt(s, p), !s.flag, answers(p), PeerAt(s', p)))
    && (forall p :: p !in done ==> SameForLoop(PeerAt(s, p), PeerAt(s', p), !s.flag))
  }

  lemma NoneDrained(s: PeerState, answers: PeerId -> Answer)
    ensures DrainedSome(s, {}, answers, s)
  {
  }

  lemma SameThenDrained(peer: Peer, peer1: Peer, peer2: Peer, side: bool, answer: Answer)
    requires SameForLoop(peer, peer1, side) && DrainedFor(peer1, side, answer, peer2)
    ensures DrainedFor(peer, side, answer, peer2)
  {
  }

  lemma DrainedThenSame(peer: Peer, peer1: Peer, peer2: Peer, side: bool, answer: Answer)
    requires DrainedFor(peer, side, answer, peer1) && SameForLoop(peer1, peer2, side)
    ensures DrainedFor(peer, side, answer, peer2)
  {
  }

  lemma RoundDrains(s: PeerState, p: PeerId, answer: Answer, fits: nat -> Pair<bool>, s': PeerState)
    requires Drained(s, p, answer, fits, s') && p in s.sets.At(!s.flag)
    ensures DrainedFor(PeerAt(s, p), !s.flag, answer, PeerAt(s', p))
    ensures p in s.peers && s'.peers == s.peers[p := s'.peers[p]] && s'.flag == s.flag
    ensures s'.sets.At(!s.flag) == s.sets.At(!s.flag) - {p} + if answer.Wait? then {p} else {}
  {
  }

  /** What has been gone through when p is next. */
  lemma OneFewer(all: set<PeerId>, left: set<PeerId>, p: PeerId)
    requires left <= all
    ensures p in left ==> p !in all - left && all - (left - {p}) == all - left + {p}
    ensures (left == all ==> all - left == {}) && (left == {} ==> all - left == all)
  {
  }

  lemma OneMoreDrained(s: PeerState, done: set<PeerId>, answers: PeerId -> Answer, m: PeerState, m': PeerState,
                       p: PeerId, fits: nat -> Pair<bool>, s': PeerState)
    requires DrainedSome(s, done, answers, m) && ThreadsMoved(m, m') && Drained(m', p, answers(p), fits, s')
    requires p !in done && p in s.sets.At(!s.flag)
    ensures DrainedSome(s, done + {p}, answers, s')
  {
    hide Drained, DrainedFor, SameForLoop;
    RoundDrains(m', p, answers(p), fits, s');
    forall q | q in done + {p} ensures DrainedFor(PeerAt(s, q), !s.flag, answers(q), PeerAt(s', q)) {
      if q == p {
        SameTwice(PeerAt(s, p), PeerAt(m, p), PeerAt(m', p), !s.flag);
        SameThenDrained(PeerAt(s, p), PeerAt(m', p), PeerAt(s', p), !s.flag, answers(p));
      } else {
        DrainedThenSame(PeerAt(s, q), PeerAt(m, q), PeerAt(s', q), !s.flag, answers(q));
      }
    }
    forall q | q !in done + {p} ensures SameForLoop(PeerAt(s, q), PeerAt(s', q), !s.flag) {
      SameTwice(PeerAt(s, q), PeerAt(m, q), PeerAt(s', q), !s.flag);
    }
    assert Waiting(done + {p}, answers) == Waiting(done, answers) + if answers(p).Wait? then {p} else {};
  }

  /**
    SendResponses as a whole: the flag is flipped, of the set that the threads had used only the peers
    that are still connecting are left, and just its peers have had their round.
  */
  ghost predicate AllDrained(s: PeerState, answers: PeerId -> Answer, s': PeerState) {
    && s'.flag == !s.flag && s'.sets.At(s.flag) == Waiting(s.sets.At(s.flag), answers)
    && (forall p :: p in s.sets.At(s.flag) ==> DrainedFor(PeerAt(s, p), s.flag, answers(p), PeerAt(s', p)))
    && (forall p :: p !in s.sets.At(s.flag) ==> SameForLoop(PeerAt(s, p), PeerAt(s', p), s.flag))
  }

  lemma ToggledAndDrained(s: PeerState, answers: PeerId -> Answer, s': PeerState)
    requires DrainedSome(s.(flag := !s.flag, draining := true, todo := s.sets.At(s.flag)), s.sets.At(s.flag), answers,
                         s')
    ensures AllDrained(s, answers, s'.(draining := false))
  {
    hide DrainedFor, SameForLoop;
    var m := s.(flag := !s.flag, draining := true, todo := s.sets.At(s.flag));
    assert forall p :: PeerAt(m, p) == PeerAt(s, p) && PeerAt(s'.(draining := false), p) == PeerAt(s', p);
  }
}
