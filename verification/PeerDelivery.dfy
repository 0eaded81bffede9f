/**
  Double-buffered forwarding of responses to peer servers.  The direction flag, its lock and the
  response objects are those of module Delivery; here queues have no limit, peers are never
  removed, a response goes to one peer only, and a peer that is still connecting keeps its place
  in the receiver set.
*/
module PeerDelivery {
  import opened Delivery

  /** A peer server, identified by its IPv4 address. */
  type PeerId = nat

  /** Queues list the oldest response first; the last two fields record history. */
  datatype Peer = Peer(
    q: Pair<seq<Resp>>,
    batch: seq<Resp>,
    completed: nat,
    pushed: Pair<seq<Resp>>,
    taken: Pair<seq<Resp>>)

  /** A response object on its way to one peer; it has no reference until its add has ended. */
  datatype Forward = Forward(peer: PeerId, refs: nat)

  /** What GetServerConnection and then uv_write, if it is called, say. */
  datatype Answer = Wait | Refused | Accepted

  datatype PeerAdder = PeerAdder(resp: Resp, peer: PeerId, added: bool, ended: bool)

  datatype PeerAct = Idle | Completing(p: PeerId)

  /** `lost` is as in module Delivery: the peers left behind with each queue, for want of memory. */
  datatype PeerState = PeerState(
    overhead: nat,
    flag: bool,
    sets: Pair<set<PeerId>>,
    peers: map<PeerId, Peer>,
    live: map<Resp, Forward>,
    nextId: nat,
    adders: map<ThreadId, PeerAdder>,
    draining: bool,
    todo: set<PeerId>,
    act: PeerAct,
    inQueue: int,
    memory: int,
    lost: Pair<set<PeerId>>)

  datatype PeerStep =
    | ToggleFlag
    | SendToPeer(p: PeerId, answer: Answer)
    | EndSending
    | WriteOver(p: PeerId)
    | CompleteOne(fits: Pair<bool>)
    | ClearBatch
    | Create(t: ThreadId, p: PeerId, size: nat)
    | Queue(t: ThreadId, enough: bool)
    | SetCount(t: ThreadId)

  const FRESH_PEER := Peer(Pair([], []), [], 0, Pair([], []), Pair([], []))

  function Start(overhead: nat): PeerState {
    PeerState(overhead, false, Pair({}, {}), map[], map[], 0, map[], false, {}, Idle, 0, 0, Pair({}, {}))
  }

  predicate Resting(s: PeerState) {
    !s.draining && s.act.Idle?
  }

  function PutPeer(s: PeerState, p: PeerId, peer: Peer): PeerState {
    s.(peers := s.peers[p := peer])
  }

  // ----- steps of the event loop -----

  function ToggleFlagStep(s: PeerState): PeerState {
    s.(flag := !s.flag, draining := true, todo := s.sets.At(s.flag))
  }

  function Leave(s: PeerState, p: PeerId): PeerState {
    s.(sets := s.sets.With(!s.flag, s.sets.At(!s.flag) - {p}))
  }

  /** The whole queue moves to the batch. */
  function TakeAll(peer: Peer, side: bool): Peer {
    peer.(batch := peer.q.At(side), q := peer.q.With(side, []), completed := 0,
          taken := peer.taken.With(side, peer.taken.At(side) + peer.q.At(side)))
  }

  /** A peer that is connecting stays in the set, and so does one whose batch cannot be allocated. */
  function SendToPeerStep(s: PeerState, p: PeerId, answer: Answer): PeerState
    requires p in s.peers
  {
    var peer := s.peers[p];
    var s1 := s.(todo := s.todo - {p});
    if answer.Wait? then s1
    else if peer.batch != [] then Leave(s1, p)
    else
      var s2 := PutPeer(s1, p, TakeAll(peer, !s.flag));
      if answer.Accepted? then Leave(s2, p) else s2.(act := Completing(p))
  }

  function RejoinSets(sets: Pair<set<PeerId>>, p: PeerId, peer: Peer, enough: Pair<bool>): Pair<set<PeerId>> {
    Pair(if peer.q.one != [] && enough.one then sets.one + {p} else sets.one,
         if peer.q.two != [] && enough.two then sets.two + {p} else sets.two)
  }

  function RejoinLost(s: PeerState, p: PeerId, peer: Peer, enough: Pair<bool>): Pair<set<PeerId>> {
    var sets := RejoinSets(s.sets, p, peer, enough);
    Pair(LeftBehind(s.lost.one, sets.one, p, peer.q.one), LeftBehind(s.lost.two, sets.two, p, peer.q.two))
  }

  /** AfterSendingPeerServersResponses and the rest of AfterSendingResponse; it sends and deletes alike on failure. */
  function CompleteOneStep(s: PeerState, enough: Pair<bool>): PeerState
    requires s.act.Completing? && s.act.p in s.peers && s.peers[s.act.p].completed < |s.peers[s.act.p].batch|
  {
    var p := s.act.p;
    var peer := s.peers[p];
    var r := peer.batch[peer.completed];
    var s1 := PutPeer(s, p, peer.(completed := peer.completed + 1))
      .(sets := RejoinSets(s.sets, p, peer, enough), lost := RejoinLost(s, p, peer, enough));
    if r in s.live && s.live[r].refs == 1 then
      s1.(live := s.live - {r}, inQueue := s.inQueue - 1, memory := s.memory - (r.size + s.overhead))
    else s1
  }

  /** The batch is cleared; inside a drain the peer leaves the set as well. */
  function ClearBatchStep(s: PeerState): PeerState
    requires s.act.Completing? && s.act.p in s.peers
  {
    var p := s.act.p;
    var s1 := PutPeer(s, p, s.peers[p].(batch := [], completed := 0)).(act := Idle);
    if s.draining then Leave(s1, p) else s1
  }

  // ----- steps of a request processing thread -----

  function CreateStep(s: PeerState, t: ThreadId, p: PeerId, size: nat): PeerState {
    var r := Resp(s.nextId, false, size);
    s.(live := s.live[r := Forward(p, 0)], nextId := s.nextId + 1,
        adders := s.adders[t := PeerAdder(r, p, false, false)])
  }

  /** AddResponseToQueue; the peer's object is created with its first response, unless memory runs short. */
  function QueueStep(s: PeerState, t: ThreadId, enough: bool): PeerState
    requires t in s.adders
  {
    var a := s.adders[t];
    if !enough then s.(adders := s.adders[t := a.(ended := true)])
    else
      var peer := if a.peer in s.peers then s.peers[a.peer] else FRESH_PEER;
      PutPeer(s, a.peer, peer.(q := peer.q.With(s.flag, peer.q.At(s.flag) + [a.resp]),
                               pushed := peer.pushed.With(s.flag, peer.pushed.At(s.flag) + [a.resp])))
        .(sets := s.sets.With(s.flag, s.sets.At(s.flag) + {a.peer}),
          lost := s.lost.With(s.flag, s.lost.At(s.flag) - {a.peer}),
          adders := s.adders[t := a.(added := true, ended := true)])
  }

  function SetCountStep(s: PeerState, t: ThreadId): PeerState
    requires t in s.adders
  {
    var a := s.adders[t];
    var s1 := s.(adders := s.adders - {t});
    if a.added then
      s1.(live := s.live[a.resp := Forward(a.peer, 1)], inQueue := s.inQueue + 1,
          memory := s.memory + (a.resp.size + s.overhead))
    else s1.(live := s.live - {a.resp})
  }

  // ----- the transition system -----

  predicate CanStep(s: PeerState, step: PeerStep) {
    match step
    case ToggleFlag => Resting(s) && s.adders == map[]
    case SendToPeer(p, answer) => s.draining && s.act.Idle? && p in s.todo && p in s.peers
    case EndSending => s.draining && s.act.Idle? && s.todo == {}
    case WriteOver(p) => Resting(s) && p in s.peers && s.peers[p].batch != []
    case CompleteOne(enough) =>
      s.act.Completing? && s.act.p in s.peers && s.peers[s.act.p].completed < |s.peers[s.act.p].batch|
    case ClearBatch =>
      s.act.Completing? && s.act.p in s.peers && s.peers[s.act.p].completed == |s.peers[s.act.p].batch|
    case Create(t, p, size) => t !in s.adders
    case Queue(t, enough) => t in s.adders && !s.adders[t].ended
    case SetCount(t) => t in s.adders && s.adders[t].ended
  }

  function NextState(s: PeerState, step: PeerStep): PeerState
    requires CanStep(s, step)
  {
    match step
    case ToggleFlag => ToggleFlagStep(s)
    case SendToPeer(p, answer) => SendToPeerStep(s, p, answer)
    case EndSending => s.(draining := false)
    case WriteOver(p) => s.(act := Completing(p))
    case CompleteOne(enough) => CompleteOneStep(s, enough)
    case ClearBatch => ClearBatchStep(s)
    case Create(t, p, size) => CreateStep(s, t, p, size)
    case Queue(t, enough) => QueueStep(s, t, enough)
    case SetCount(t) => SetCountStep(s, t)
  }

  ghost predicate PeerRun(s: PeerState, steps: seq<PeerStep>, s': PeerState)
    decreases |steps|
  {
    if steps == [] then s == s'
    else CanStep(s, steps[0]) && PeerRun(NextState(s, steps[0]), steps[1..], s')
  }
}
