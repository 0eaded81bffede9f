/** What every run of the forwarding protocol keeps, and what follows from it. */
module PeerDeliveryTheorems {
  import opened Delivery
  import opened PeerDelivery
  import DeliveryInvariant
  import DeliveryResponses

  // ----- one peer -----

  datatype View = View(peer: Peer, inSet: Pair<bool>, completing: bool, draining: bool, flag: bool, lost: Pair<bool>)

  ghost function ViewOf(s: PeerState, p: PeerId): View
    requires p in s.peers
  {
    View(s.peers[p], Pair(p in s.sets.one, p in s.sets.two), s.act == Completing(p), s.draining, s.flag,
         Pair(p in s.lost.one, p in s.lost.two))
  }

  /** Receiver sets and queues agree. */
  ghost predicate Membership(v: View, side: bool) {
    && (v.inSet.At(side) ==> v.peer.q.At(side) != [] || (v.completing && v.draining && side == !v.flag))
    && (v.lost.At(side) ==> v.peer.q.At(side) != [] && !v.inSet.At(side))
    && (v.peer.q.At(side) != [] && !v.inSet.At(side) ==> v.peer.batch != [] || v.lost.At(side))
    && (v.peer.q.At(side) != [] && v.peer.completed > 0 ==> v.inSet.At(side) || v.lost.At(side))
    && v.peer.pushed.At(side) == v.peer.taken.At(side) + v.peer.q.At(side)
  }

  ghost predicate GoodView(v: View) {
    && Membership(v, true) && Membership(v, false)
    && v.peer.completed <= |v.peer.batch|
    && (v.completing ==> v.peer.batch != [])
    && (!v.completing ==> v.peer.completed == 0)
    && (v.completing && v.draining ==> v.peer.q.At(!v.flag) == [])
  }

  /** The sets and the event loop refer to peers that exist; the drain goes through what was in its set. */
  ghost predicate Wired(s: PeerState) {
    && s.sets.one <= s.peers.Keys && s.sets.two <= s.peers.Keys
    && s.lost.one <= s.peers.Keys && s.lost.two <= s.peers.Keys
    && (s.act.Completing? ==> s.act.p in s.peers)
    && (s.draining ==> s.todo <= s.sets.At(!s.flag) && (s.act.Completing? ==> s.act.p !in s.todo))
  }

  ghost predicate GoodPeers(s: PeerState) {
    Wired(s) && (forall p :: p in s.peers ==> GoodView(ViewOf(s, p)))
  }

  lemma SendView(v: View, answer: Answer)
    requires GoodView(v) && v.draining && !v.completing && v.inSet.At(!v.flag)
    ensures v.peer.batch != [] ==> GoodView(v.(inSet := v.inSet.With(!v.flag, false)))
    ensures v.peer.batch == [] ==>
      && GoodView(v.(peer := TakeAll(v.peer, !v.flag), inSet := v.inSet.With(!v.flag, false)))
      && GoodView(v.(peer := TakeAll(v.peer, !v.flag), completing := true))
  {
  }

  /** One response of the batch is completed, and the peer joins its sets again. */
  ghost function Rejoins(v: View, enough: Pair<bool>): View {
    var one := v.inSet.one || (v.peer.q.one != [] && enough.one);
    var two := v.inSet.two || (v.peer.q.two != [] && enough.two);
    v.(peer := v.peer.(completed := v.peer.completed + 1), inSet := Pair(one, two),
       lost := Pair(v.peer.q.one != [] && !one, v.peer.q.two != [] && !two))
  }

  lemma CompleteView(v: View, enough: Pair<bool>)
    requires GoodView(v) && v.completing && v.peer.completed < |v.peer.batch|
    ensures GoodView(Rejoins(v, enough))
  {
  }

  lemma ClearView(v: View)
    requires GoodView(v) && v.completing && v.peer.completed == |v.peer.batch|
    ensures GoodView(v.(peer := v.peer.(batch := [], completed := 0), completing := false,
                        inSet := if v.draining then v.inSet.With(!v.flag, false) else v.inSet))
  {
  }

  ghost function Pushed(peer: Peer, side: bool, r: Resp): Peer {
    peer.(q := peer.q.With(side, peer.q.At(side) + [r]), pushed := peer.pushed.With(side, peer.pushed.At(side) + [r]))
  }

  lemma QueueView(v: View, r: Resp)
    requires GoodView(v)
    ensures GoodView(v.(peer := Pushed(v.peer, v.flag, r), inSet := v.inSet.With(v.flag, true),
                        lost := v.lost.With(v.flag, false)))
  {
  }

  /** Steps that change one peer, its place in the sets and what the event loop does. */
  ghost predicate Elsewhere(s: PeerState, s': PeerState, p: PeerId) {
    && s'.peers.Keys == s.peers.Keys + {p}
    && (forall q :: q in s.peers && q != p ==> ViewOf(s', q) == ViewOf(s, q))
  }

  lemma OnePeer(s: PeerState, s': PeerState, p: PeerId)
    requires GoodPeers(s) && Elsewhere(s, s', p) && GoodView(ViewOf(s', p))
    ensures forall q :: q in s'.peers ==> GoodView(ViewOf(s', q))
  {
    hide GoodView;
    forall q | q in s'.peers ensures GoodView(ViewOf(s', q)) {
      if q != p { assert ViewOf(s', q) == ViewOf(s, q); }
    }
  }

  lemma ToggleKeeps(s: PeerState)
    requires GoodPeers(s) && CanStep(s, ToggleFlag)
    ensures GoodPeers(ToggleFlagStep(s))
  {
    var s' := ToggleFlagStep(s);
    forall p | p in s'.peers ensures GoodView(ViewOf(s', p)) {
      var v := ViewOf(s, p);
      assert GoodView(v) && !v.completing;
      assert ViewOf(s', p) == v.(draining := true, flag := !s.flag);
    }
  }

  lemma SendFrames(s: PeerState, p: PeerId, answer: Answer)
    requires Wired(s) && CanStep(s, SendToPeer(p, answer))
    ensures var s', v := SendToPeerStep(s, p, answer), ViewOf(s, p);
      && Wired(s') && Elsewhere(s, s', p)
      && ViewOf(s', p) ==
         if answer.Wait? then v
         else if v.peer.batch != [] then v.(inSet := v.inSet.With(!v.flag, false))
         else if answer.Accepted? then v.(peer := TakeAll(v.peer, !v.flag), inSet := v.inSet.With(!v.flag, false))
         else v.(peer := TakeAll(v.peer, !v.flag), completing := true)
  {
    hide TakeAll;
  }

  lemma SendKeeps(s: PeerState, p: PeerId, answer: Answer)
    requires GoodPeers(s) && CanStep(s, SendToPeer(p, answer))
    ensures GoodPeers(SendToPeerStep(s, p, answer))
  {
    hide GoodView, Elsewhere, SendToPeerStep, TakeAll;
    SendFrames(s, p, answer);
    SendView(ViewOf(s, p), answer);
    OnePeer(s, SendToPeerStep(s, p, answer), p);
  }

  lemma EndKeeps(s: PeerState)
    requires GoodPeers(s) && CanStep(s, EndSending)
    ensures GoodPeers(NextState(s, EndSending))
  {
    var s' := NextState(s, EndSending);
    forall p | p in s'.peers ensures GoodView(ViewOf(s', p)) {
      assert GoodView(ViewOf(s, p)) && ViewOf(s', p) == ViewOf(s, p).(draining := false);
    }
  }

  lemma WriteOverKeeps(s: PeerState, p: PeerId)
    requires GoodPeers(s) && CanStep(s, WriteOver(p))
    ensures GoodPeers(NextState(s, WriteOver(p)))
  {
    var s' := NextState(s, WriteOver(p));
    assert ViewOf(s', p) == ViewOf(s, p).(completing := true);
    OnePeer(s, s', p);
  }

  lemma CompleteShape(s: PeerState, enough: Pair<bool>)
    requires CanStep(s, CompleteOne(enough))
    ensures var s', p := CompleteOneStep(s, enough), s.act.p;
      && s'.peers == s.peers[p := s.peers[p].(completed := s.peers[p].completed + 1)]
      && s'.sets == RejoinSets(s.sets, p, s.peers[p], enough) && s'.lost == RejoinLost(s, p, s.peers[p], enough)
      && s'.act == s.act && s'.flag == s.flag && s'.draining == s.draining && s'.todo == s.todo
  {
  }

  lemma CompleteFrames(s: PeerState, enough: Pair<bool>)
    requires Wired(s) && CanStep(s, CompleteOne(enough))
    ensures var s' := CompleteOneStep(s, enough);
      && Wired(s') && Elsewhere(s, s', s.act.p)
      && ViewOf(s', s.act.p) == Rejoins(ViewOf(s, s.act.p), enough)
  {
    CompleteShape(s, enough);
    hide CompleteOneStep;
  }

  lemma CompleteKeeps(s: PeerState, enough: Pair<bool>)
    requires GoodPeers(s) && CanStep(s, CompleteOne(enough))
    ensures GoodPeers(CompleteOneStep(s, enough))
  {
    hide GoodView, Elsewhere, CompleteOneStep;
    CompleteFrames(s, enough);
    CompleteView(ViewOf(s, s.act.p), enough);
    OnePeer(s, CompleteOneStep(s, enough), s.act.p);
  }

  lemma ClearFrames(s: PeerState)
    requires Wired(s) && CanStep(s, ClearBatch)
    ensures var s', v := ClearBatchStep(s), ViewOf(s, s.act.p);
      && Wired(s') && Elsewhere(s, s', s.act.p)
      && ViewOf(s', s.act.p) ==
         v.(peer := v.peer.(batch := [], completed := 0), completing := false,
            inSet := if v.draining then v.inSet.With(!v.flag, false) else v.inSet)
  {
  }

  lemma ClearKeeps(s: PeerState)
    requires GoodPeers(s) && CanStep(s, ClearBatch)
    ensures GoodPeers(ClearBatchStep(s))
  {
    hide GoodView, Elsewhere, ClearBatchStep;
    ClearFrames(s);
    ClearView(ViewOf(s, s.act.p));
    OnePeer(s, ClearBatchStep(s), s.act.p);
  }

  ghost function KnownOrFresh(s: PeerState, p: PeerId): View {
    if p in s.peers then ViewOf(s, p)
        else View(FRESH_PEER, Pair(false, false), false, s.draining, s.flag, Pair(false, false))
  }

  lemma QueueFrames(s: PeerState, t: ThreadId)
    requires Wired(s) && CanStep(s, Queue(t, true))
    ensures var s', a := QueueStep(s, t, true), s.adders[t];
      && Wired(s') && Elsewhere(s, s', a.peer)
      && ViewOf(s', a.peer) ==
         var v := KnownOrFresh(s, a.peer); v.(peer := Pushed(v.peer, v.flag, a.resp),
             inSet := v.inSet.With(v.flag, true), lost := v.lost.With(v.flag, false))
  {
  }

  lemma FreshView(s: PeerState, p: PeerId)
    requires GoodPeers(s)
    ensures GoodView(KnownOrFresh(s, p))
  {
  }

  lemma QueueKeeps(s: PeerState, t: ThreadId, enough: bool)
    requires GoodPeers(s) && CanStep(s, Queue(t, enough))
    ensures GoodPeers(QueueStep(s, t, enough))
  {
    hide GoodView, Pushed;
    var s', a := QueueStep(s, t, enough), s.adders[t];
    if enough {
      hide QueueStep, Elsewhere, ViewOf;
      QueueFrames(s, t);
      FreshView(s, a.peer);
      QueueView(KnownOrFresh(s, a.peer), a.resp);
      OnePeer(s, s', a.peer);
    } else {
      forall p | p in s'.peers ensures GoodView(ViewOf(s', p)) { assert ViewOf(s', p) == ViewOf(s, p); }
    }
  }

  lemma PeersKept(s: PeerState, step: PeerStep)
    requires GoodPeers(s) && CanStep(s, step)
    ensures GoodPeers(NextState(s, step))
  {
    hide GoodView;
    match step
    case ToggleFlag => hide GoodPeers; ToggleKeeps(s);
    case SendToPeer(p, answer) => hide GoodPeers; SendKeeps(s, p, answer);
    case EndSending => hide GoodPeers; EndKeeps(s);
    case WriteOver(p) => hide GoodPeers; WriteOverKeeps(s, p);
    case CompleteOne(enough) => hide GoodPeers; CompleteKeeps(s, enough);
    case ClearBatch => hide GoodPeers; ClearKeeps(s);
    case Queue(t, enough) => hide GoodPeers; QueueKeeps(s, t, enough);
    case _ =>
      var s' := NextState(s, step);
      forall p | p in s'.peers ensures GoodView(ViewOf(s', p)) { assert ViewOf(s', p) == ViewOf(s, p); }
  }

  // ----- response objects -----

  ghost function Entries(peer: Peer): multiset<Resp> {
    multiset(peer.q.one) + multiset(peer.q.two)
    + multiset(if peer.completed <= |peer.batch| then peer.batch[peer.completed..] else [])
  }

  ghost predicate Held(s: PeerState, p: PeerId, r: Resp) {
    p in s.peers && r in Entries(s.peers[p])
  }

  /** Every entry is a live response bound for this peer, counted unless a thread is still adding it. */
  ghost predicate GoodEntry(s: PeerState, p: PeerId, r: Resp)
    requires Held(s, p, r)
  {
    && r in s.live && s.live[r].peer == p && Entries(s.peers[p])[r] == 1
    && (s.live[r].refs == 0 ==> r in s.peers[p].q.At(s.flag))
  }

  ghost predicate GoodForward(s: PeerState, r: Resp)
    requires r in s.live
  {
    && r.id < s.nextId && s.live[r].refs <= 1
    && (s.live[r].refs == 1 ==> Held(s, s.live[r].peer, r))
    && (s.live[r].refs == 0 ==> exists t :: t in s.adders && s.adders[t].resp == r)
  }

  ghost predicate GoodPeerAdder(s: PeerState, t: ThreadId)
    requires t in s.adders
  {
    var a := s.adders[t];
    && a.resp in s.live && s.live[a.resp] == Forward(a.peer, 0)
    && (a.added <==> Held(s, a.peer, a.resp)) && (a.added ==> a.ended)
  }

  ghost function Final(live: map<Resp, Forward>): set<Resp> {
    set r | r in live && live[r].refs == 1
  }

  ghost predicate GoodPeerCounters(s: PeerState) {
    s.inQueue == |Final(s.live)| && s.memory == DeliveryInvariant.SizeOf(Final(s.live), s.overhead)
  }

  ghost predicate GoodEntriesOf(s: PeerState) {
    forall p, r :: Held(s, p, r) ==> GoodEntry(s, p, r)
  }

  ghost predicate GoodLive(s: PeerState) {
    forall r :: r in s.live ==> GoodForward(s, r)
  }

  ghost predicate GoodPeerAdders(s: PeerState) {
    && (forall t :: t in s.adders ==> GoodPeerAdder(s, t))
    && (forall t, u :: t in s.adders && u in s.adders && t != u ==> s.adders[t].resp != s.adders[u].resp)
  }

  ghost predicate GoodForwards(s: PeerState) {
    GoodEntriesOf(s) && GoodLive(s) && GoodPeerAdders(s) && GoodPeerCounters(s)
  }

  /** Steps after which every peer holds what it held. */
  lemma SameHeld(s: PeerState, s': PeerState)
    requires GoodForwards(s)
    requires s' == s.(peers := s'.peers, sets := s'.sets, act := s'.act, todo := s'.todo, draining := s'.draining)
    requires s'.peers.Keys == s.peers.Keys
    requires forall p :: p in s.peers ==>
      Entries(s'.peers[p]) == Entries(s.peers[p]) && s'.peers[p].q.At(s.flag) == s.peers[p].q.At(s.flag)
    ensures GoodForwards(s')
  {
    hide Entries;
    assert forall p, r :: Held(s', p, r) <==> Held(s, p, r);
    forall p, r | Held(s', p, r) ensures GoodEntry(s', p, r) { assert GoodEntry(s, p, r); }
    forall r | r in s'.live ensures GoodForward(s', r) { assert GoodForward(s, r); }
    forall t | t in s'.adders ensures GoodPeerAdder(s', t) { assert GoodPeerAdder(s, t); }
  }

  lemma ToggleForwards(s: PeerState)
    requires GoodForwards(s) && CanStep(s, ToggleFlag)
    ensures GoodForwards(ToggleFlagStep(s))
  {
    hide Entries;
    var s' := ToggleFlagStep(s);
    forall r | r in s.live ensures s.live[r].refs == 1 && GoodForward(s', r) { assert GoodForward(s, r); }
    forall p, r | Held(s', p, r) ensures GoodEntry(s', p, r) { assert Held(s, p, r) && GoodEntry(s, p, r); }
  }

  lemma TakeAllEntries(peer: Peer, side: bool)
    requires peer.batch == []
    ensures Entries(TakeAll(peer, side)) == Entries(peer)
    ensures TakeAll(peer, side).q.At(!side) == peer.q.At(!side)
  {
  }

  lemma SendForwards(s: PeerState, p: PeerId, answer: Answer)
    requires GoodForwards(s) && CanStep(s, SendToPeer(p, answer))
    ensures GoodForwards(SendToPeerStep(s, p, answer))
  {
    hide Entries, TakeAll, GoodForwards;
    if s.peers[p].batch == [] { TakeAllEntries(s.peers[p], !s.flag); }
    SameHeld(s, SendToPeerStep(s, p, answer));
  }

  lemma ClearEntries(peer: Peer)
    requires peer.completed == |peer.batch|
    ensures Entries(peer.(batch := [], completed := 0)) == Entries(peer)
  {
    assert peer.batch[peer.completed..] == [];
  }

  lemma ClearForwards(s: PeerState)
    requires GoodForwards(s) && CanStep(s, ClearBatch)
    ensures GoodForwards(ClearBatchStep(s))
  {
    hide GoodForwards, Entries;
    ClearEntries(s.peers[s.act.p]);
    SameHeld(s, ClearBatchStep(s));
  }

  /** One completion takes away the one entry of one response, and so the response. */
  lemma NextEntry(peer: Peer)
    requires peer.completed < |peer.batch|
    ensures var r := peer.batch[peer.completed];
      Entries(peer) == Entries(peer.(completed := peer.completed + 1)) + multiset{r}
    ensures var r := peer.batch[peer.completed];
      Entries(peer)[r] == 1 ==> r !in peer.q.one && r !in peer.q.two
  {
    assert peer.batch[peer.completed..] == [peer.batch[peer.completed]] + peer.batch[peer.completed + 1..];
  }

  lemma CompletionDeletes(s: PeerState, enough: Pair<bool>)
    requires GoodForwards(s) && CanStep(s, CompleteOne(enough))
    ensures var r := s.peers[s.act.p].batch[s.peers[s.act.p].completed];
      && r in s.live && s.live[r] == Forward(s.act.p, 1)
      && var s' := CompleteOneStep(s, enough);
      && s'.live == s.live - {r} && s'.inQueue == s.inQueue - 1 && s'.memory == s.memory - (r.size + s.overhead)
      && s'.adders == s.adders && s'.nextId == s.nextId && s'.overhead == s.overhead
  {
    var p := s.act.p;
    var peer := s.peers[p];
    var r := peer.batch[peer.completed];
    NextEntry(peer);
    assert Held(s, p, r) && GoodEntry(s, p, r) && GoodForward(s, r);
    hide Entries, GoodForwards, RejoinSets, RejoinLost;
  }

  lemma DeletedFinal(live: map<Resp, Forward>, r: Resp, overhead: nat)
    requires r in live && live[r].refs == 1
    ensures |Final(live - {r})| == |Final(live)| - 1
    ensures DeliveryInvariant.SizeOf(Final(live - {r}), overhead)
            == DeliveryInvariant.SizeOf(Final(live), overhead) - (r.size + overhead)
  {
    assert Final(live - {r}) == Final(live) - {r};
    DeliveryResponses.SizeOfRemove(Final(live), overhead, r);
  }

  /** After a completion everything is held as before but for one response. */
  ghost predicate LosesEntry(s: PeerState, s': PeerState, p: PeerId, r: Resp) {
    && p in s.peers && p in s'.peers && s'.peers == s.peers[p := s'.peers[p]]
    && Entries(s.peers[p]) == Entries(s'.peers[p]) + multiset{r} && Entries(s.peers[p])[r] == 1
    && s'.peers[p].q == s.peers[p].q
    && r in s.live && s.live[r] == Forward(p, 1) && s'.live == s.live - {r}
    && s'.adders == s.adders && s'.nextId == s.nextId && s'.flag == s.flag && s'.overhead == s.overhead
  }

  lemma CompletionLoses(s: PeerState, enough: Pair<bool>)
    requires GoodForwards(s) && CanStep(s, CompleteOne(enough))
    ensures LosesEntry(s, CompleteOneStep(s, enough), s.act.p, s.peers[s.act.p].batch[s.peers[s.act.p].completed])
  {
    var peer := s.peers[s.act.p];
    var r := peer.batch[peer.completed];
    CompletionDeletes(s, enough);
    CompleteShape(s, enough);
    NextEntry(peer);
    assert Held(s, s.act.p, r) && GoodEntry(s, s.act.p, r);
    hide CompleteOneStep, GoodForwards, Entries;
  }

  lemma LosesHeld(s: PeerState, s': PeerState, p: PeerId, r: Resp, q: PeerId, x: Resp)
    requires LosesEntry(s, s', p, r)
    ensures Held(s', q, x) <==> Held(s, q, x) && !(q == p && x == r)
    ensures Held(s', q, x) ==> Entries(s'.peers[q])[x] == Entries(s.peers[q])[x] && s'.peers[q].q == s.peers[q].q
  {
    hide Entries;
  }

  lemma LosesKeeps(s: PeerState, s': PeerState, p: PeerId, r: Resp)
    requires GoodEntriesOf(s) && GoodLive(s) && GoodPeerAdders(s) && LosesEntry(s, s', p, r)
    ensures GoodEntriesOf(s') && GoodLive(s') && GoodPeerAdders(s')
  {
    hide Entries, Held;
    forall q, x | Held(s', q, x) ensures GoodEntry(s', q, x) {
      LosesHeld(s, s', p, r, q, x);
      assert GoodEntry(s, q, x);
    }
    forall x | x in s'.live ensures GoodForward(s', x) {
      assert GoodForward(s, x);
      LosesHeld(s, s', p, r, s.live[x].peer, x);
    }
    forall t | t in s'.adders ensures GoodPeerAdder(s', t) {
      assert GoodPeerAdder(s, t);
      LosesHeld(s, s', p, r, s.adders[t].peer, s.adders[t].resp);
    }
  }

  lemma CompleteForwards(s: PeerState, enough: Pair<bool>)
    requires GoodForwards(s) && CanStep(s, CompleteOne(enough))
    ensures GoodForwards(CompleteOneStep(s, enough))
  {
    var r := s.peers[s.act.p].batch[s.peers[s.act.p].completed];
    CompletionLoses(s, enough);
    CompletionDeletes(s, enough);
    DeletedFinal(s.live, r, s.overhead);
    hide CompleteOneStep, GoodEntriesOf, GoodLive, GoodPeerAdders, LosesEntry, Final;
    LosesKeeps(s, CompleteOneStep(s, enough), s.act.p, r);
  }

  lemma NewFinal(live: map<Resp, Forward>, r: Resp, f: Forward, overhead: nat)
    requires r in live ==> live[r].refs == 0
    ensures f.refs == 0 ==> Final(live[r := f]) == Final(live)
    ensures f.refs == 1 ==>
      && |Final(live[r := f])| == |Final(live)| + 1
      && DeliveryInvariant.SizeOf(Final(live[r := f]), overhead)
         == DeliveryInvariant.SizeOf(Final(live), overhead) + r.size + overhead
  {
    if f.refs == 1 {
      assert Final(live[r := f]) == Final(live) + {r};
      DeliveryResponses.SizeOfRemove(Final(live) + {r}, overhead, r);
      assert Final(live) + {r} - {r} == Final(live);
    }
  }

  lemma FreshResp(s: PeerState, r: Resp)
    requires GoodLive(s) && r.id == s.nextId
    ensures r !in s.live
  {
    hide Held;
  }

  lemma CreateEntries(s: PeerState, s': PeerState, r: Resp)
    requires GoodEntriesOf(s) && r !in s.live
    requires s'.peers == s.peers && s'.flag == s.flag && r in s'.live && s'.live == s.live[r := s'.live[r]]
    ensures GoodEntriesOf(s') && forall p :: !Held(s', p, r)
  {
    hide Entries;
    forall p, x | Held(s', p, x) ensures GoodEntry(s', p, x) && x != r { assert Held(s, p, x) && GoodEntry(s, p, x); }
  }

  lemma CreateLive(s: PeerState, s': PeerState, t: ThreadId, a: PeerAdder)
    requires GoodLive(s) && t !in s.adders && a.resp.id == s.nextId
    requires s'.peers == s.peers && s'.live == s.live[a.resp := Forward(a.peer, 0)] && s'.adders == s.adders[t := a]
    requires s'.nextId == s.nextId + 1
    ensures GoodLive(s')
  {
    hide Entries;
    forall x | x in s'.live ensures GoodForward(s', x) {
      if x == a.resp {
        assert t in s'.adders && s'.adders[t].resp == x;
      } else {
        assert GoodForward(s, x);
        if u :| u in s.adders && s.adders[u].resp == x { assert u in s'.adders && s'.adders[u].resp == x; }
      }
    }
  }

  lemma CreateAdders(s: PeerState, s': PeerState, t: ThreadId, a: PeerAdder)
    requires GoodPeerAdders(s) && t !in s.adders && a.resp !in s.live && !a.added && !Held(s', a.peer, a.resp)
    requires s'.peers == s.peers && s'.live == s.live[a.resp := Forward(a.peer, 0)] && s'.adders == s.adders[t := a]
    ensures GoodPeerAdders(s')
  {
    hide Entries;
    forall u | u in s'.adders ensures GoodPeerAdder(s', u) && (u != t ==> s'.adders[u].resp != a.resp) {
      if u != t { assert GoodPeerAdder(s, u); }
    }
  }

  lemma CreateForwards(s: PeerState, t: ThreadId, p: PeerId, size: nat)
    requires GoodForwards(s) && CanStep(s, Create(t, p, size))
    ensures GoodForwards(CreateStep(s, t, p, size))
  {
    hide Held, Final, GoodEntriesOf, GoodLive, GoodPeerAdders;
    var s' := CreateStep(s, t, p, size);
    var r := Resp(s.nextId, false, size);
    FreshResp(s, r);
    NewFinal(s.live, r, Forward(p, 0), s.overhead);
    CreateEntries(s, s', r);
    CreateLive(s, s', t, PeerAdder(r, p, false, false));
    CreateAdders(s, s', t, PeerAdder(r, p, false, false));
  }

  /** The thread's response leaves the records, or its count becomes final. */
  ghost predicate EndsAdd(s: PeerState, s': PeerState, t: ThreadId) {
    && t in s.adders && s'.adders == s.adders - {t}
    && s'.peers == s.peers && s'.flag == s.flag && s'.nextId == s.nextId
    && s'.live == if s.adders[t].added then s.live[s.adders[t].resp := Forward(s.adders[t].peer, 1)]
                  else s.live - {s.adders[t].resp}
  }

  lemma EndsAddEntries(s: PeerState, s': PeerState, t: ThreadId)
    requires GoodEntriesOf(s) && GoodPeerAdders(s) && EndsAdd(s, s', t)
    ensures GoodEntriesOf(s')
  {
    hide Entries;
    assert GoodPeerAdder(s, t);
    forall p, x | Held(s', p, x) ensures GoodEntry(s', p, x) { assert Held(s, p, x) && GoodEntry(s, p, x); }
  }

  lemma EndsAddLive(s: PeerState, s': PeerState, t: ThreadId)
    requires GoodLive(s) && GoodPeerAdders(s) && EndsAdd(s, s', t)
    ensures GoodLive(s')
  {
    hide Entries;
    assert GoodPeerAdder(s, t);
    forall x | x in s'.live ensures GoodForward(s', x) {
      assert GoodForward(s, x);
      if x != s.adders[t].resp && s.live[x].refs == 0 {
        var u :| u in s.adders && s.adders[u].resp == x;
        assert u in s'.adders && s'.adders[u].resp == x;
      }
    }
  }

  lemma EndsAddAdders(s: PeerState, s': PeerState, t: ThreadId)
    requires GoodPeerAdders(s) && EndsAdd(s, s', t)
    ensures GoodPeerAdders(s')
  {
    hide Entries;
    forall u | u in s'.adders ensures GoodPeerAdder(s', u) { assert GoodPeerAdder(s, u); }
  }

  lemma SetCountShape(s: PeerState, t: ThreadId)
    requires CanStep(s, SetCount(t))
    ensures var s', a := SetCountStep(s, t), s.adders[t];
      && EndsAdd(s, s', t) && s'.overhead == s.overhead
      && (if a.added then s'.inQueue == s.inQueue + 1 && s'.memory == s.memory + a.resp.size + s.overhead
          else s'.inQueue == s.inQueue && s'.memory == s.memory)
  {
  }

  lemma RemovedFinal(live: map<Resp, Forward>, r: Resp)
    requires r in live && live[r].refs == 0
    ensures Final(live - {r}) == Final(live)
  {
  }

  lemma EndsAddCounters(s: PeerState, s': PeerState, t: ThreadId)
    requires GoodPeerAdders(s) && GoodPeerCounters(s) && EndsAdd(s, s', t) && s'.overhead == s.overhead
    requires var a := s.adders[t];
      if a.added then s'.inQueue == s.inQueue + 1 && s'.memory == s.memory + a.resp.size + s.overhead
      else s'.inQueue == s.inQueue && s'.memory == s.memory
    ensures GoodPeerCounters(s')
  {
    hide Held, Final;
    var a := s.adders[t];
    assert GoodPeerAdder(s, t);
    NewFinal(s.live, a.resp, Forward(a.peer, 1), s.overhead);
    RemovedFinal(s.live, a.resp);
  }

  lemma SetCountForwards(s: PeerState, t: ThreadId)
    requires GoodForwards(s) && CanStep(s, SetCount(t))
    ensures GoodForwards(SetCountStep(s, t))
  {
    var s', a := SetCountStep(s, t), s.adders[t];
    SetCountShape(s, t);
    EndsAddCounters(s, s', t);
    hide Held, Final, GoodEntriesOf, GoodLive, GoodPeerAdders, EndsAdd, GoodPeerCounters, SetCountStep;
    EndsAddEntries(s, s', t);
    EndsAddLive(s, s', t);
    EndsAddAdders(s, s', t);
  }

  lemma QueuedEntries(peer: Peer, side: bool, r: Resp)
    ensures Entries(Pushed(peer, side, r)) == Entries(peer) + multiset{r}
    ensures Pushed(peer, side, r).q.At(side) == peer.q.At(side) + [r]
  {
  }

  /** The thread's response becomes an entry of its peer. */
  ghost predicate GainsEntry(s: PeerState, s': PeerState, t: ThreadId) {
    && t in s.adders && !s.adders[t].added
    && var a := s.adders[t];
      && s'.peers == s.peers[a.peer := Pushed(KnownOrFresh(s, a.peer).peer, s.flag, a.resp)]
      && s'.adders == s.adders[t := a.(added := true, ended := true)]
      && s'.live == s.live && s'.nextId == s.nextId && s'.flag == s.flag
  }

  lemma FreshEntries()
    ensures Entries(FRESH_PEER) == multiset{} && forall side :: FRESH_PEER.q.At(side) == []
  {
  }

  lemma GainsHeld(s: PeerState, s': PeerState, t: ThreadId, p: PeerId, x: Resp)
    requires GainsEntry(s, s', t)
    ensures Held(s', p, x) <==> Held(s, p, x) || (p == s.adders[t].peer && x == s.adders[t].resp)
    ensures Held(s, p, x) && x != s.adders[t].resp ==> Entries(s'.peers[p])[x] == Entries(s.peers[p])[x]
    ensures Held(s', p, x) && !Held(s, p, x) ==> Entries(s'.peers[p])[x] == 1 && x in s'.peers[p].q.At(s.flag)
    ensures p in s.peers && x in s.peers[p].q.At(s.flag) ==> x in s'.peers[p].q.At(s.flag)
  {
    hide Entries, Pushed;
    if p == s.adders[t].peer {
      var peer := KnownOrFresh(s, p).peer;
      QueuedEntries(peer, s.flag, s.adders[t].resp);
      FreshEntries();
      assert s'.peers[p] == Pushed(peer, s.flag, s.adders[t].resp);
    }
  }

  lemma GainsKeeps(s: PeerState, s': PeerState, t: ThreadId)
    requires GoodEntriesOf(s) && GoodLive(s) && GoodPeerAdders(s) && GainsEntry(s, s', t)
    ensures GoodEntriesOf(s') && GoodLive(s')
  {
    var a := s.adders[t];
    assert GoodPeerAdder(s, t);
    assert s'.live == s.live && s'.nextId == s.nextId && s'.flag == s.flag && s'.adders.Keys == s.adders.Keys;
    assert forall u :: u in s.adders ==> s'.adders[u].resp == s.adders[u].resp;
    hide GainsEntry, Entries;
    forall p, x | Held(s', p, x) ensures GoodEntry(s', p, x) {
      GainsHeld(s, s', t, p, x);
      if Held(s, p, x) { assert GoodEntry(s, p, x); }
    }
    forall x | x in s'.live ensures GoodForward(s', x) {
      assert GoodForward(s, x);
      GainsHeld(s, s', t, s.live[x].peer, x);
      if u :| u in s.adders && s.adders[u].resp == x { assert u in s'.adders && s'.adders[u].resp == x; }
    }
  }

  lemma GainsAdders(s: PeerState, s': PeerState, t: ThreadId)
    requires GoodPeerAdders(s) && GainsEntry(s, s', t)
    ensures GoodPeerAdders(s')
  {
    assert s'.live == s.live && s'.adders == s.adders[t := s.adders[t].(added := true, ended := true)];
    forall u | u in s'.adders ensures GoodPeerAdder(s', u) {
      assert GoodPeerAdder(s, u);
      GainsHeld(s, s', t, s.adders[u].peer, s.adders[u].resp);
      hide GainsEntry, Entries, Held;
    }
  }

  /** A push that memory did not allow. */
  ghost predicate EndsWithout(s: PeerState, s': PeerState, t: ThreadId) {
    t in s.adders && s' == s.(adders := s.adders[t := s.adders[t].(ended := true)])
  }

  lemma WithoutEntries(s: PeerState, s': PeerState, t: ThreadId)
    requires GoodEntriesOf(s) && EndsWithout(s, s', t)
    ensures GoodEntriesOf(s')
  {
    hide Entries;
    forall p, x | Held(s', p, x) ensures GoodEntry(s', p, x) { assert Held(s, p, x) && GoodEntry(s, p, x); }
  }

  lemma WithoutLive(s: PeerState, s': PeerState, t: ThreadId)
    requires GoodLive(s) && EndsWithout(s, s', t)
    ensures GoodLive(s')
  {
    hide Entries;
    forall x | x in s'.live ensures GoodForward(s', x) {
      assert GoodForward(s, x);
      if u :| u in s.adders && s.adders[u].resp == x { assert u in s'.adders && s'.adders[u].resp == x; }
    }
  }

  lemma WithoutAdders(s: PeerState, s': PeerState, t: ThreadId)
    requires GoodPeerAdders(s) && EndsWithout(s, s', t)
    ensures GoodPeerAdders(s')
  {
    hide Entries;
    forall u | u in s'.adders ensures GoodPeerAdder(s', u) { assert GoodPeerAdder(s, u); }
  }

  lemma NoRoomForwards(s: PeerState, t: ThreadId)
    requires GoodForwards(s) && CanStep(s, Queue(t, false))
    ensures GoodForwards(QueueStep(s, t, false))
  {
    var s' := QueueStep(s, t, false);
    assert EndsWithout(s, s', t);
    assert s'.live == s.live && s'.inQueue == s.inQueue && s'.memory == s.memory && s'.overhead == s.overhead;
    hide QueueStep, GoodEntriesOf, GoodLive, GoodPeerAdders, EndsWithout, Final;
    WithoutEntries(s, s', t);
    WithoutLive(s, s', t);
    WithoutAdders(s, s', t);
  }

  lemma QueueShape(s: PeerState, t: ThreadId)
    requires CanStep(s, Queue(t, true)) && !s.adders[t].added
    ensures var s' := QueueStep(s, t, true);
      && GainsEntry(s, s', t)
      && s'.inQueue == s.inQueue && s'.memory == s.memory && s'.overhead == s.overhead && s'.live == s.live
  {
  }

  lemma QueueForwards(s: PeerState, t: ThreadId)
    requires GoodForwards(s) && CanStep(s, Queue(t, true))
    ensures GoodForwards(QueueStep(s, t, true))
  {
    assert !s.adders[t].added by { assert GoodPeerAdder(s, t); }
    hide GainsEntry, GoodEntriesOf, GoodLive, GoodPeerAdders, QueueStep, Final;
    QueueShape(s, t);
    GainsKeeps(s, QueueStep(s, t, true), t);
    GainsAdders(s, QueueStep(s, t, true), t);
  }

  lemma ForwardsKept(s: PeerState, step: PeerStep)
    requires GoodForwards(s) && CanStep(s, step)
    ensures GoodForwards(NextState(s, step))
  {
    hide GoodForwards;
    match step
    case ToggleFlag => ToggleForwards(s);
    case SendToPeer(p, answer) => SendForwards(s, p, answer);
    case EndSending => SameHeld(s, NextState(s, step));
    case WriteOver(p) => SameHeld(s, NextState(s, step));
    case CompleteOne(enough) => CompleteForwards(s, enough);
    case ClearBatch => ClearForwards(s);
    case Create(t, p, size) => CreateForwards(s, t, p, size);
    case Queue(t, enough) => if enough { QueueForwards(s, t); } else { NoRoomForwards(s, t); }
    case SetCount(t) => SetCountForwards(s, t);
  }

  // ----- what holds of every run -----

  ghost predicate Good(s: PeerState) {
    GoodPeers(s) && GoodForwards(s)
  }

  lemma {:induction false} RunKeepsGood(s: PeerState, steps: seq<PeerStep>, s': PeerState)
    requires Good(s) && PeerRun(s, steps, s')
    ensures Good(s')
    decreases |steps|
  {
    hide GoodPeers, GoodForwards, NextState;
    if steps != [] {
      PeersKept(s, steps[0]);
      ForwardsKept(s, steps[0]);
      RunKeepsGood(NextState(s, steps[0]), steps[1..], s');
    }
  }

  ghost predicate Reached(s: PeerState) {
    exists overhead: nat, steps: seq<PeerStep> :: PeerRun(Start(overhead), steps, s)
  }

  lemma StartGood(overhead: nat)
    ensures Good(Start(overhead))
  {
    assert Final(Start(overhead).live) == {};
  }

  lemma ReachedGood(s: PeerState)
    requires Reached(s)
    ensures Good(s)
  {
    hide Good, PeerRun;
    var overhead: nat, steps: seq<PeerStep> :| PeerRun(Start(overhead), steps, s);
    assert Good(Start(overhead)) by { StartGood(overhead); }
    RunKeepsGood(Start(overhead), steps, s);
  }

  /**
    Between callbacks a response waits in a queue that neither a set nor a batch in flight will bring up
    exactly when the peer has been left behind with that queue.
  */
  lemma StrandedExactly(s: PeerState, p: PeerId, side: bool)
    requires Reached(s) && Resting(s) && p in s.peers
    ensures p in s.sets.At(side) ==> s.peers[p].q.At(side) != []
    ensures p in s.lost.At(side) ==> s.peers[p].q.At(side) != [] && p !in s.sets.At(side)
    ensures s.peers[p].batch == [] && s.peers[p].q.At(side) != [] && p !in s.sets.At(side) ==> p in s.lost.At(side)
  {
    hide Reached;
    ReachedGood(s);
    hide GoodForwards;
    assert GoodView(ViewOf(s, p));
  }

  /** Memory runs short as the peer is to join the set of one of its queues again. */
  predicate MissesSet(s: PeerState, p: PeerId, fits: Pair<bool>, side: bool)
    requires p in s.peers
  {
    s.peers[p].q.At(side) != [] && p !in s.sets.At(side) && !fits.At(side)
  }

  predicate Misses(s: PeerState, step: PeerStep) {
    step.CompleteOne? && s.act.Completing? && s.act.p in s.peers &&
    (MissesSet(s, s.act.p, step.fits, true) || MissesSet(s, s.act.p, step.fits, false))
  }

  ghost predicate NeverMisses(s: PeerState, steps: seq<PeerStep>)
    decreases |steps|
  {
    steps == [] || (CanStep(s, steps[0]) && !Misses(s, steps[0]) && NeverMisses(NextState(s, steps[0]), steps[1..]))
  }

  lemma CompleteMissesNothing(s: PeerState, enough: Pair<bool>)
    requires s.lost == Pair({}, {}) && CanStep(s, CompleteOne(enough)) && !Misses(s, CompleteOne(enough))
    ensures CompleteOneStep(s, enough).lost == Pair({}, {})
  {
    var p := s.act.p;
    var peer := s.peers[p];
    CompleteShape(s, enough);
    hide CompleteOneStep;
    assert !MissesSet(s, p, enough, true) && !MissesSet(s, p, enough, false);
    var sets := RejoinSets(s.sets, p, peer, enough);
    assert LeftBehind({}, sets.one, p, peer.q.one) == {} && LeftBehind({}, sets.two, p, peer.q.two) == {};
  }

  lemma StepMissesNothing(s: PeerState, step: PeerStep)
    requires s.lost == Pair({}, {}) && CanStep(s, step) && !Misses(s, step)
    ensures NextState(s, step).lost == Pair({}, {})
  {
    hide CompleteOneStep, Misses;
    match step
    case CompleteOne(enough) => CompleteMissesNothing(s, enough);
    case Queue(t, enough) => assert {} - {s.adders[t].peer} == {};
    case _ =>
  }

  lemma {:induction false} RunMissesNothing(s: PeerState, steps: seq<PeerStep>, s': PeerState)
    requires s.lost == Pair({}, {}) && PeerRun(s, steps, s') && NeverMisses(s, steps)
    ensures s'.lost == Pair({}, {})
    decreases |steps|
  {
    hide NextState, Misses;
    if steps != [] {
      StepMissesNothing(s, steps[0]);
      RunMissesNothing(NextState(s, steps[0]), steps[1..], s');
    }
  }

  /** So on runs without such a shortage none ever does. */
  lemma NothingStranded(overhead: nat, steps: seq<PeerStep>, s: PeerState, p: PeerId, side: bool)
    requires PeerRun(Start(overhead), steps, s) && NeverMisses(Start(overhead), steps)
    requires Resting(s) && p in s.peers
    ensures s.peers[p].q.At(side) != [] ==> p in s.sets.At(side) || s.peers[p].batch != []
  {
    hide PeerRun, NeverMisses;
    RunMissesNothing(Start(overhead), steps, s);
    assert Reached(s);
    StrandedExactly(s, p, side);
  }

  /** Each queue is first in, first out, whatever becomes of the writes. */
  lemma InOrder(s: PeerState, p: PeerId, side: bool)
    requires Reached(s) && p in s.peers
    ensures s.peers[p].pushed.At(side) == s.peers[p].taken.At(side) + s.peers[p].q.At(side)
  {
    hide Reached;
    ReachedGood(s);
    hide GoodForwards;
    assert GoodView(ViewOf(s, p));
  }

  lemma SidesApart(peer: Peer, flag: bool, r: Resp)
    requires r in peer.q.At(!flag) && Entries(peer)[r] == 1
    ensures r !in peer.q.At(flag)
  {
  }

  /** The queue that a drain takes is not empty, and every response in it has its one reference. */
  lemma DrainedQueue(s: PeerState, p: PeerId, answer: Answer)
    requires Reached(s) && CanStep(s, SendToPeer(p, answer)) && s.peers[p].batch == []
    ensures s.peers[p].q.At(!s.flag) != []
    ensures forall r :: r in s.peers[p].q.At(!s.flag) ==> r in s.live && s.live[r] == Forward(p, 1)
  {
    hide Reached;
    ReachedGood(s);
    assert GoodView(ViewOf(s, p));
    hide GoodPeers, GoodView, ViewOf;
    forall r | r in s.peers[p].q.At(!s.flag) ensures r in s.live && s.live[r] == Forward(p, 1) {
      assert Held(s, p, r) && GoodEntry(s, p, r) && GoodForward(s, r);
      SidesApart(s.peers[p], s.flag, r);
    }
  }

  /** Every completion, successful or not, deletes exactly the response that it completes. */
  lemma OneCompletionOneDeletion(s: PeerState, enough: Pair<bool>)
    requires Reached(s) && CanStep(s, CompleteOne(enough))
    ensures var r := s.peers[s.act.p].batch[s.peers[s.act.p].completed];
      r in s.live && NextState(s, CompleteOne(enough)).live == s.live - {r}
  {
    hide Reached;
    ReachedGood(s);
    hide GoodPeers, GoodForwards, CompleteOneStep;
    CompletionDeletes(s, enough);
  }

  /** A response whose add has ended lives exactly while one peer holds it, once. */
  lemma LiveWhileHeld(s: PeerState, r: Resp)
    requires Reached(s)
    ensures r in s.live && s.live[r].refs == 1 ==> Held(s, s.live[r].peer, r)
    ensures forall p :: Held(s, p, r) ==> r in s.live && s.live[r].peer == p && Entries(s.peers[p])[r] == 1
  {
    hide Reached;
    ReachedGood(s);
    hide GoodPeers, Entries, Held;
    if r in s.live { assert GoodForward(s, r); }
    forall p | Held(s, p, r) ensures r in s.live && s.live[r].peer == p && Entries(s.peers[p])[r] == 1 {
      assert GoodEntry(s, p, r);
    }
  }

  lemma CountersExact(s: PeerState)
    requires Reached(s)
    ensures s.inQueue == |Final(s.live)| && s.memory == DeliveryInvariant.SizeOf(Final(s.live), s.overhead)
  {
    hide Reached;
    ReachedGood(s);
  }

  /** Only Create makes a response live, and only CompleteOne and SetCount change a live one. */
  lemma OthersAddNothing(s: PeerState, step: PeerStep)
    requires CanStep(s, step) && !step.CompleteOne? && !step.SetCount?
    ensures var s' := NextState(s, step);
      && s.nextId <= s'.nextId
      && forall r :: r in s'.live ==> r in s.live || (s.nextId <= r.id < s'.nextId)
  {
    hide TakeAll;
  }

  lemma DeadStaysDead(s: PeerState, step: PeerStep, r: Resp)
    requires GoodForwards(s) && CanStep(s, step) && r.id < s.nextId && r !in s.live
    ensures r.id < NextState(s, step).nextId && r !in NextState(s, step).live
  {
    match step
    case CompleteOne(enough) => hide GoodForwards, CompleteOneStep; CompletionDeletes(s, enough);
    case SetCount(t) => assert GoodPeerAdder(s, t); hide GoodForwards; SetCountShape(s, t); hide SetCountStep;
    case _ => hide GoodForwards, NextState; OthersAddNothing(s, step);
  }

  /** A deleted response never comes back, so none is deleted twice. */
  lemma {:induction false} DeletedOnce(s: PeerState, steps: seq<PeerStep>, s': PeerState, r: Resp)
    requires Good(s) && PeerRun(s, steps, s') && r.id < s.nextId && r !in s.live
    ensures r !in s'.live
    decreases |steps|
  {
    hide GoodPeers, GoodForwards, NextState;
    if steps != [] {
      PeersKept(s, steps[0]);
      ForwardsKept(s, steps[0]);
      DeadStaysDead(s, steps[0], r);
      DeletedOnce(NextState(s, steps[0]), steps[1..], s', r);
    }
  }
}
