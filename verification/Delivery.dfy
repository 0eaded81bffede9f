/**
  Double-buffered delivery of responses to local clients, as a transition system.

  Request processing threads push responses while the event loop drains them.  A direction flag,
  guarded by a read/write lock, says which of two queues per client (and which of two receiver
  sets) the threads use; the event loop owns the other ones.  One step of the system is one
  section that the source runs under a lock, or one stretch that only the event loop touches;
  steps of all threads and of the event loop interleave freely.
*/
module Delivery {

  /** Two things of one kind, selected by the direction flag: `one` goes with flag TRUE. */
  datatype Pair<T> = Pair(one: T, two: T) {
    function At(first: bool): T {
      if first then one else two
    }

    function With(first: bool, value: T): Pair<T> {
      if first then Pair(value, two) else Pair(one, value)
    }
  }

  /** Registration number of a client: never reused. */
  type ClientId = nat
  type ThreadId = nat

  /** What never changes in a response object; `id` stands for its address. */
  datatype Resp = Resp(id: nat, fatal: bool, size: nat)

  /** What changes in a live response object: reference count, sent count, bAddedToStat. */
  datatype Rec = Rec(refs: nat, sent: nat, queued: bool)

  /** The life of a client object after it leaves the pool. */
  datatype Phase = Live | DisconnectQueued | Closing | Freed

  /**
    A client object.  Queues are listed oldest response first.  `completed` counts the responses
    of the batch that after_send_responses has gone through.  The last three fields record
    history: all responses ever pushed to each queue, popped from it, and handed to uv_write.
  */
  datatype Client = Client(
    q: Pair<seq<Resp>>,
    batch: seq<Resp>,
    completed: nat,
    responses: int,
    requests: int,
    busy: bool,
    inPool: bool,
    marked: bool,
    phase: Phase,
    pushed: Pair<seq<Resp>>,
    taken: Pair<seq<Resp>>,
    handed: Pair<seq<Resp>>)

  /** Where a thread is inside the section that adds one response to one client. */
  datatype Stage = Checked | Counted | Failed
  datatype Guard = Outside | Inside(client: ClientId, stage: Stage)

  /** A thread inside AddResponseToQueues, which holds the direction flag's read lock. */
  datatype Adder = Adder(resp: Resp, todo: set<ClientId>, added: nat, guard: Guard)

  /** Is SendLocalClientsResponses running, and on which clients is it still to work? */
  datatype Drain = NotDraining | Draining(todo: set<ClientId>)

  /** Where DisconnectAndDelete goes back to. */
  datatype Resume = Return | Item(ok: bool, cut: bool)

  /**
    What the event loop is doing with one client.  Complete and Requeue are the two halves of
    AfterSendingLocalClientsResponses; Remove waits for the guard's write lock.  `cut` says that
    the batch was cut short by a fatal error further down its queue.
  */
  datatype Act =
    | NoAct
    | Complete(c: ClientId, ok: bool, cut: bool)
    | Requeue(c: ClientId, ok: bool, cut: bool)
    | Remove(c: ClientId, resume: Resume)

  /**
    `half` is MaxPendingResponses/2 and `overhead` is sizeof(Response).  `inQueue` and `memory`
    are the server's counters.  `lost` records history: the clients that have been left behind with
    each queue, because a batch was cut short in it by a fatal error and then failed at once, or
    because memory ran short when the client was to join the queue's set again; a later push or a
    later re-adding that succeeds makes up for it.
  */
  datatype State = State(
    half: nat,
    overhead: nat,
    flag: bool,
    sets: Pair<set<ClientId>>,
    clients: map<ClientId, Client>,
    live: map<Resp, Rec>,
    nextId: nat,
    adders: map<ThreadId, Adder>,
    drain: Drain,
    act: Act,
    inQueue: int,
    memory: int,
    lost: Pair<set<ClientId>>)

  datatype Step =
    // The event loop: connections and requests
    | NewClient(c: ClientId, added: bool)
    | RequestArrives(c: ClientId)
    | RequestDone(c: ClientId, memoryError: bool)
    | RequestDeferred(c: ClientId, memoryError: bool)
    | Disconnect(c: ClientId)
    | DisconnectProcessed(c: ClientId)
    | ClientClosed(c: ClientId)
    // The event loop: sending
    | Toggle
    | DrainClient(c: ClientId, accepted: bool)
    | EndDrain
    | WriteDone(c: ClientId, ok: bool)
    | CompleteCount
    | CompleteRequeue(enough: Pair<bool>)
    | TryRemove
    | FinishBatch
    // A request processing thread
    | BeginAdd(t: ThreadId, fatal: bool, size: nat, todo: set<ClientId>)
    | CheckClient(t: ThreadId, c: ClientId)
    | CountUp(t: ThreadId)
    | Push(t: ThreadId, memory: bool)
    | GiveUp(t: ThreadId)
    | EndAdd(t: ThreadId)

  const FRESH_CLIENT :=
    Client(Pair([], []), [], 0, 0, 0, false, true, false, Live, Pair([], []), Pair([], []), Pair([], []))

  function Init(half: nat, overhead: nat): State {
    State(half, overhead, false, Pair({}, {}), map[], map[], 0, map[], NotDraining, NoAct, 0, 0, Pair({}, {}))
  }

  // ----- the batch that the drain loop takes -----

  /** Position of the first fatal error in a queue, or the queue's length. */
  function FirstFatal(q: seq<Resp>): (n: nat)
    ensures n <= |q|
    ensures forall i :: 0 <= i < n ==> !q[i].fatal
    ensures n < |q| ==> q[n].fatal
  {
    if q == [] || q[0].fatal then 0 else 1 + FirstFatal(q[1..])
  }

  /** A fatal error at the head marks the client. */
  predicate MarkedByHead(q: seq<Resp>) {
    q != [] && q[0].fatal
  }

  /** How many responses the drain loop moves to the batch. */
  function BatchLength(q: seq<Resp>, marked: bool): (n: nat)
    ensures n <= |q|
    ensures q != [] ==> n > 0
  {
    if marked || MarkedByHead(q) then |q| else FirstFatal(q)
  }

  // ----- steps of the event loop -----

  predicate AtRest(s: State) {
    s.drain.NotDraining? && s.act.NoAct?
  }

  /** The event loop is at rest and the client object exists. */
  predicate Callback(s: State, c: ClientId) {
    AtRest(s) && c in s.clients && s.clients[c].phase != Freed
  }

  function Put(s: State, c: ClientId, cl: Client): State {
    s.(clients := s.clients[c := cl])
  }

  /** DisconnectAndDelete up to the point where it needs the guard's write lock. */
  function BeginDisconnect(s: State, c: ClientId, resume: Resume): State
    requires c in s.clients
  {
    var cl := s.clients[c];
    var s1 := Put(s, c, cl.(marked := true));
    if cl.busy then s1 else s1.(act := Remove(c, resume))
  }

  /** Clients are added to the pool; when that fails the connection is closed again. */
  function NewClientStep(s: State, c: ClientId, added: bool): State {
    if added then Put(s, c, FRESH_CLIENT)
    else BeginDisconnect(Put(s, c, FRESH_CLIENT.(inPool := false)), c, Return)
  }

  function RequestArrivesStep(s: State, c: ClientId): State
    requires c in s.clients
  {
    var cl := s.clients[c];
    Put(s, c, cl.(busy := true, requests := cl.requests + 1))
  }

  function RequestDoneStep(s: State, c: ClientId, memoryError: bool): State
    requires c in s.clients
  {
    var cl := s.clients[c];
    var s1 := Put(s, c, cl.(marked := cl.marked || memoryError, busy := false, requests := cl.requests - 1));
    if s1.clients[c].marked && cl.phase == Live then BeginDisconnect(s1, c, Return) else s1
  }

  function RequestDeferredStep(s: State, c: ClientId, memoryError: bool): State
    requires c in s.clients
  {
    var cl := s.clients[c];
    Put(s, c, cl.(marked := cl.marked || memoryError))
  }

  /** The flag is flipped under its write lock; the drain then works on the set it now owns. */
  function ToggleStep(s: State): State {
    s.(flag := !s.flag, drain := Draining(s.sets.At(s.flag)))
  }

  /** The client is done with in this drain. */
  function EraseFromDrain(s: State, c: ClientId): State
    requires s.drain.Draining?
  {
    s.(sets := s.sets.With(!s.flag, s.sets.At(!s.flag) - {c}), drain := Draining(s.drain.todo - {c}))
  }

  /** The client after the drain loop has moved a batch off the queue that the event loop owns. */
  function TakeBatch(cl: Client, side: bool): Client {
    var q := cl.q.At(side);
    var n := BatchLength(q, cl.marked);
    var marked := cl.marked || MarkedByHead(q);
    cl.(q := cl.q.With(side, q[n..]),
        batch := q[..n],
        marked := marked,
        taken := cl.taken.With(side, cl.taken.At(side) + q[..n]),
        handed := if marked then cl.handed else cl.handed.With(side, cl.handed.At(side) + q[..n]))
  }

  /** One round of the drain; `accepted` is what uv_write says, if it is called at all. */
  function DrainClientStep(s: State, c: ClientId, accepted: bool): State
    requires s.drain.Draining? && c in s.clients
  {
    var cl := s.clients[c];
    if cl.batch != [] then EraseFromDrain(s, c)
    else
      var cl' := TakeBatch(cl, !s.flag);
      var s1 := Put(s, c, cl');
      if !cl'.marked && accepted then EraseFromDrain(s1, c)
      else s1.(act := Complete(c, false, cl'.q.At(!s.flag) != []))
  }

  /** First half of AfterSendingLocalClientsResponses: a failed write marks, the count goes down. */
  function CompleteCountStep(s: State): State
    requires s.act.Complete? && s.act.c in s.clients
  {
    var Complete(c, ok, cut) := s.act;
    var cl := s.clients[c];
    Put(s, c, cl.(marked := cl.marked || !ok, responses := cl.responses - 1, completed := cl.completed + 1))
      .(act := Requeue(c, ok, cut))
  }

  /** The client joins the receiver set of every queue that still holds responses, if there is memory for it. */
  function AddToSets(sets: Pair<set<ClientId>>, c: ClientId, cl: Client, enough: Pair<bool>): Pair<set<ClientId>> {
    Pair(if cl.q.one != [] && enough.one then sets.one + {c} else sets.one,
         if cl.q.two != [] && enough.two then sets.two + {c} else sets.two)
  }

  /** One queue's clients that are left behind, after c has been tried. */
  function LeftBehind(lost: set<ClientId>, joined: set<ClientId>, c: ClientId, q: seq<Resp>): set<ClientId> {
    if q != [] && c !in joined then lost + {c} else lost - {c}
  }

  function JoinAgain(s: State, c: ClientId, enough: Pair<bool>): State
    requires c in s.clients
  {
    var q, sets := s.clients[c].q, AddToSets(s.sets, c, s.clients[c], enough);
    s.(sets := sets, lost := Pair(LeftBehind(s.lost.one, sets.one, c, q.one),
        LeftBehind(s.lost.two, sets.two, c, q.two)))
  }

  /** The rest of AfterSendingResponse: one more sent; the last one deletes the response. */
  function Settle(s: State, c: ClientId, ok: bool, cut: bool): State
    requires c in s.clients && 0 < s.clients[c].completed <= |s.clients[c].batch|
  {
    var r := s.clients[c].batch[s.clients[c].completed - 1];
    if r !in s.live then s.(act := Complete(c, ok, cut))
    else
      var rec := s.live[r];
      var rec' := rec.(sent := rec.sent + 1);
      if rec'.sent == rec'.refs then
        s.(live := s.live - {r}, inQueue := s.inQueue - 1, memory := s.memory - (r.size + s.overhead),
           act := Complete(c, ok, cut))
      else s.(live := s.live[r := rec'], act := Complete(c, ok, cut))
  }

  /** Second half of AfterSendingLocalClientsResponses, and then the rest of AfterSendingResponse. */
  function CompleteRequeueStep(s: State, enough: Pair<bool>): State
    requires s.act.Requeue? && s.act.c in s.clients
    requires 0 < s.clients[s.act.c].completed <= |s.clients[s.act.c].batch|
  {
    var Requeue(c, ok, cut) := s.act;
    var cl := s.clients[c];
    var s1 := JoinAgain(s, c, enough);
    if cl.marked && cl.q.one == [] && cl.q.two == [] && cl.phase == Live && !cl.busy
    then BeginDisconnect(s1, c, Item(ok, cut))
    else Settle(s1, c, ok, cut)
  }

  /** DisconnectAndDelete with the guard's write lock held: RemoveClient, then queue the disconnection. */
  function TryRemoveStep(s: State): State
    requires s.act.Remove? && s.act.c in s.clients
    requires s.act.resume.Item? ==> 0 < s.clients[s.act.c].completed <= |s.clients[s.act.c].batch|
  {
    var Remove(c, resume) := s.act;
    var cl := s.clients[c];
    var s1 := if !cl.inPool || (cl.requests == 0 && cl.responses == 0)
              then Put(s, c, cl.(inPool := false, phase := DisconnectQueued)) else s;
    match resume
    case Return => s1.(act := NoAct)
    case Item(ok, cut) => Settle(s1, c, ok, cut)
  }

  /** after_send_responses clears the batch; inside a drain the client leaves the set as well. */
  function FinishBatchStep(s: State): State
    requires s.act.Complete? && s.act.c in s.clients
  {
    var Complete(c, ok, cut) := s.act;
    var s1 := Put(s, c, s.clients[c].(batch := [], completed := 0)).(act := NoAct);
    if s.drain.Draining?
    then EraseFromDrain(if cut then s1.(lost := s.lost.With(!s.flag, s.lost.At(!s.flag) + {c})) else s1, c)
    else s1
  }

  // ----- steps of a request processing thread -----

  function BeginAddStep(s: State, t: ThreadId, fatal: bool, size: nat, todo: set<ClientId>): State {
    var r := Resp(s.nextId, fatal, size);
    s.(live := s.live[r := Rec(0, 0, false)], nextId := s.nextId + 1,
       adders := s.adders[t := Adder(r, todo, 0, Outside)])
  }

  /** First part of IncreaseCountForClient, with the guard's read lock held. */
  function CheckClientStep(s: State, t: ThreadId, c: ClientId): State
    requires t in s.adders
  {
    var a := s.adders[t];
    var guard := if c in s.clients && s.clients[c].inPool && !s.clients[c].marked
                 then Inside(c, Checked) else Outside;
    s.(adders := s.adders[t := a.(todo := a.todo - {c}, guard := guard)])
  }

  predicate InStage(s: State, t: ThreadId, stage: Stage) {
    && t in s.adders
    && s.adders[t].guard.Inside?
    && s.adders[t].guard.stage == stage
    && s.adders[t].guard.client in s.clients
  }

  function CountUpStep(s: State, t: ThreadId): State
    requires InStage(s, t, Checked)
  {
    var a := s.adders[t];
    var c := a.guard.client;
    var cl := s.clients[c];
    Put(s, c, cl.(responses := cl.responses + 1)).(adders := s.adders[t := a.(guard := Inside(c, Counted))])
  }

  /** AddResponseToQueue; `memory` says that no allocation fails. */
  function PushStep(s: State, t: ThreadId, memory: bool): State
    requires InStage(s, t, Counted)
  {
    var a := s.adders[t];
    var c := a.guard.client;
    var cl := s.clients[c];
    var q := cl.q.At(s.flag);
    if |q| < s.half && memory then
      Put(s, c, cl.(q := cl.q.With(s.flag, q + [a.resp]),
                    pushed := cl.pushed.With(s.flag, cl.pushed.At(s.flag) + [a.resp])))
        .(sets := s.sets.With(s.flag, s.sets.At(s.flag) + {c}),
          lost := s.lost.With(s.flag, s.lost.At(s.flag) - {c}),
          adders := s.adders[t := a.(added := a.added + 1, guard := Outside)])
    else s.(adders := s.adders[t := a.(guard := Inside(c, Failed))])
  }

  /** A response that was not added gives its count back. */
  function GiveUpStep(s: State, t: ThreadId): State
    requires InStage(s, t, Failed)
  {
    var a := s.adders[t];
    var c := a.guard.client;
    var cl := s.clients[c];
    Put(s, c, cl.(responses := cl.responses - 1)).(adders := s.adders[t := a.(guard := Outside)])
  }

  /** End of AddResponseToQueues: the reference count becomes final. */
  function EndAddStep(s: State, t: ThreadId): State
    requires t in s.adders
  {
    var a := s.adders[t];
    var s1 := s.(adders := s.adders - {t});
    if a.added == 0 then s1.(live := s.live - {a.resp})
    else s1.(live := s.live[a.resp := Rec(a.added, 0, true)],
             inQueue := s.inQueue + 1, memory := s.memory + (a.resp.size + s.overhead))
  }

  // ----- the transition system -----

  predicate Enabled(s: State, step: Step) {
    match step
    case NewClient(c, added) => AtRest(s) && c !in s.clients
    case RequestArrives(c) =>
      Callback(s, c) && s.clients[c].inPool && !s.clients[c].marked && !s.clients[c].busy
    case RequestDone(c, memoryError) => Callback(s, c) && s.clients[c].busy
    case RequestDeferred(c, memoryError) => Callback(s, c) && s.clients[c].busy
    case Disconnect(c) => Callback(s, c) && s.clients[c].phase == Live
    case DisconnectProcessed(c) => Callback(s, c) && s.clients[c].phase == DisconnectQueued
    case ClientClosed(c) => Callback(s, c) && s.clients[c].phase == Closing
    case Toggle => AtRest(s) && s.adders == map[]
    case DrainClient(c, accepted) =>
      s.drain.Draining? && s.act.NoAct? && c in s.drain.todo && c in s.clients
    case EndDrain => s.drain == Draining({}) && s.act.NoAct?
    case WriteDone(c, ok) => Callback(s, c) && s.clients[c].batch != []
    case CompleteCount =>
      s.act.Complete? && s.act.c in s.clients && s.clients[s.act.c].completed < |s.clients[s.act.c].batch|
    case CompleteRequeue(enough) =>
      s.act.Requeue? && s.act.c in s.clients && 0 < s.clients[s.act.c].completed <= |s.clients[s.act.c].batch|
    case TryRemove =>
      && s.act.Remove? && s.act.c in s.clients
      && (s.act.resume.Item? ==> 0 < s.clients[s.act.c].completed <= |s.clients[s.act.c].batch|)
      && (forall t :: t in s.adders ==> s.adders[t].guard.Outside?)
    case FinishBatch =>
      s.act.Complete? && s.act.c in s.clients && s.clients[s.act.c].completed == |s.clients[s.act.c].batch|
    case BeginAdd(t, fatal, size, todo) => t !in s.adders
    case CheckClient(t, c) => t in s.adders && s.adders[t].guard.Outside? && c in s.adders[t].todo
    case CountUp(t) => InStage(s, t, Checked)
    case Push(t, memory) => InStage(s, t, Counted)
    case GiveUp(t) => InStage(s, t, Failed)
    case EndAdd(t) => t in s.adders && s.adders[t].guard.Outside? && s.adders[t].todo == {}
  }

  function Next(s: State, step: Step): State
    requires Enabled(s, step)
  {
    match step
    case NewClient(c, added) => NewClientStep(s, c, added)
    case RequestArrives(c) => RequestArrivesStep(s, c)
    case RequestDone(c, memoryError) => RequestDoneStep(s, c, memoryError)
    case RequestDeferred(c, memoryError) => RequestDeferredStep(s, c, memoryError)
    case Disconnect(c) => BeginDisconnect(s, c, Return)
    case DisconnectProcessed(c) => Put(s, c, s.clients[c].(phase := Closing))
    case ClientClosed(c) => Put(s, c, s.clients[c].(phase := Freed))
    case Toggle => ToggleStep(s)
    case DrainClient(c, accepted) => DrainClientStep(s, c, accepted)
    case EndDrain => s.(drain := NotDraining)
    case WriteDone(c, ok) => s.(act := Complete(c, ok, false))
    case CompleteCount => CompleteCountStep(s)
    case CompleteRequeue(enough) => CompleteRequeueStep(s, enough)
    case TryRemove => TryRemoveStep(s)
    case FinishBatch => FinishBatchStep(s)
    case BeginAdd(t, fatal, size, todo) => BeginAddStep(s, t, fatal, size, todo)
    case CheckClient(t, c) => CheckClientStep(s, t, c)
    case CountUp(t) => CountUpStep(s, t)
    case Push(t, memory) => PushStep(s, t, memory)
    case GiveUp(t) => GiveUpStep(s, t)
    case EndAdd(t) => EndAddStep(s, t)
  }

  /** The states that a sequence of steps goes through exist, and it leads from s to s'. */
  ghost predicate Run(s: State, steps: seq<Step>, s': State)
    decreases |steps|
  {
    if steps == [] then s == s'
    else Enabled(s, steps[0]) && Run(Next(s, steps[0]), steps[1..], s')
  }
}
