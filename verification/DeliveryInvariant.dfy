/**
  What every step of the delivery protocol keeps.  `GoodClient` speaks of one client and of what
  the rest of the state says about it; `GoodResponses` speaks of response objects and the server's
  counters.
*/
module DeliveryInvariant {
  import opened Delivery

  /** All that matters about one client. */
  datatype View = View(
    cl: Client,
    inSet: Pair<bool>,
    counted: set<ThreadId>,
    inside: set<ThreadId>,
    act: Act,
    draining: bool,
    flag: bool,
    lost: Pair<bool>,
    half: nat)

  ghost function InGuard(adders: map<ThreadId, Adder>, c: ClientId): set<ThreadId> {
    set t | t in adders && adders[t].guard.Inside? && adders[t].guard.client == c
  }

  /** Threads inside the guard that have raised the response count. */
  ghost function CountedBy(adders: map<ThreadId, Adder>, c: ClientId): set<ThreadId> {
    set t | t in adders && adders[t].guard.Inside? && adders[t].guard.client == c && !adders[t].guard.stage.Checked?
  }

  ghost function ActOn(s: State, c: ClientId): Act {
    if s.act != NoAct && s.act.c == c then s.act else NoAct
  }

  ghost function ViewOf(s: State, c: ClientId): View
    requires c in s.clients
  {
    View(s.clients[c], Pair(c in s.sets.one, c in s.sets.two), CountedBy(s.adders, c), InGuard(s.adders, c),
         ActOn(s, c), s.drain.Draining? && ActOn(s, c) != NoAct, s.flag, Pair(c in s.lost.one, c in s.lost.two), s.half)
  }

  /** The event loop is going through the batch of this client. */
  ghost predicate InBatch(act: Act) {
    act.Complete? || act.Requeue? || (act.Remove? && act.resume.Item?)
  }

  ghost predicate Cut(act: Act)
    requires InBatch(act)
  {
    if act.Remove? then act.resume.cut else act.cut
  }

  // ----- one client -----

  /** The pool's counts are what the queues, the batch and the threads inside the guard add up to. */
  ghost predicate Counts(v: View) {
    && v.cl.completed <= |v.cl.batch|
    && v.cl.responses == |v.cl.q.one| + |v.cl.q.two| + |v.cl.batch| - v.cl.completed + |v.counted|
    && v.cl.requests == (if v.cl.busy then 1 else 0)
    && v.counted <= v.inside
  }

  /** Out of the pool nothing refers to the client. */
  ghost predicate Lifetime(v: View) {
    && (v.cl.inPool ==> v.cl.phase.Live?)
    && (!v.cl.inPool ==> v.cl.responses == 0 && v.cl.requests == 0 && v.cl.marked && v.inside == {})
    && (!v.cl.inPool && v.cl.phase.Live? ==> v.act.Remove? && v.act.resume.Return?)
    && (v.cl.phase.Closing? || v.cl.phase.Freed? ==> v.act.NoAct?)
  }

  /** Where the event loop may be. */
  ghost predicate Activity(v: View) {
    && (InBatch(v.act) ==> v.cl.batch != [])
    && (!InBatch(v.act) ==> v.cl.completed == 0)
    && (v.act.Requeue? || (v.act.Remove? && v.act.resume.Item?) ==> v.cl.completed > 0)
    && (v.act.Remove? ==> v.cl.phase.Live? && v.cl.marked && !v.cl.busy)
    && (v.draining ==> InBatch(v.act) && v.inSet.At(!v.flag))
    && (v.draining && v.cl.completed > 0 ==> v.cl.marked)
    && (v.draining && v.act.Complete? ==> !v.act.ok)
    && (v.draining && v.act.Requeue? ==> !v.act.ok)
    && (v.draining && v.act.Remove? ==> !v.act.resume.ok)
    && (InBatch(v.act) && !v.draining ==> !Cut(v.act))
    && (InBatch(v.act) && v.draining ==> (Cut(v.act) <==> v.cl.q.At(!v.flag) != []))
  }

  /** Receiver sets and queues agree. */
  ghost predicate Membership(v: View, side: bool) {
    && (v.inSet.At(side) ==> v.cl.q.At(side) != [] || (v.draining && side == !v.flag))
    && (v.lost.At(side) ==> v.cl.q.At(side) != [] && !v.inSet.At(side))
    && (v.cl.q.At(side) != [] && !v.inSet.At(side) ==> v.cl.batch != [] || v.lost.At(side))
    && (v.cl.q.At(side) != [] && v.cl.completed > 0 && !v.act.Requeue? ==> v.inSet.At(side) || v.lost.At(side))
  }

  ghost predicate Empty(cl: Client) {
    cl.q.one == [] && cl.q.two == []
  }

  /** A marked client still has something to come that will try to disconnect it. */
  ghost predicate WillDisconnect(v: View) {
    && (v.act.NoAct? && v.cl.phase.Live? && v.cl.marked && !v.cl.busy ==> !Empty(v.cl) || v.cl.batch != [])
    && (v.act.Complete? && v.cl.completed == |v.cl.batch| && v.cl.phase.Live? && v.cl.marked && !v.cl.busy ==>
        !Empty(v.cl))
  }

  ghost predicate Bounds(v: View) {
    |v.cl.q.one| <= v.half && |v.cl.q.two| <= v.half && |v.cl.batch| <= v.half
  }

  /** Each queue is first in, first out; what uv_write gets is a fatal-free prefix of it. */
  ghost predicate Histories(cl: Client, side: bool) {
    && cl.pushed.At(side) == cl.taken.At(side) + cl.q.At(side)
    && cl.handed.At(side) <= cl.taken.At(side)
    && (!cl.marked ==> cl.handed.At(side) == cl.taken.At(side))
    && (forall i :: 0 <= i < |cl.handed.At(side)| ==> !cl.handed.At(side)[i].fatal)
  }

  ghost predicate GoodClient(v: View) {
    && Counts(v) && Lifetime(v) && Activity(v)
    && Membership(v, true) && Membership(v, false)
    && WillDisconnect(v) && Bounds(v)
    && Histories(v.cl, true) && Histories(v.cl, false)
  }

  // ----- the whole state -----

  /** Sets, threads and the event loop refer to client objects that exist. */
  ghost predicate Wired(s: State) {
    && s.sets.one <= s.clients.Keys && s.sets.two <= s.clients.Keys
    && s.lost.one <= s.clients.Keys && s.lost.two <= s.clients.Keys
    && (s.act != NoAct ==> s.act.c in s.clients)
    && (forall t :: t in s.adders && s.adders[t].guard.Inside? ==> s.adders[t].guard.client in s.clients)
    && (s.drain.Draining? ==> s.drain.todo == s.sets.At(!s.flag))
  }

  ghost predicate GoodClients(s: State) {
    Wired(s) && forall c :: c in s.clients ==> GoodClient(ViewOf(s, c))
  }

  // ----- responses -----

  /** Responses that wait in a queue or in the rest of the batch, once for each entry. */
  ghost function Entries(cl: Client): multiset<Resp> {
    multiset(cl.q.one) + multiset(cl.q.two) + multiset(if cl.completed <= |cl.batch| then cl.batch[cl.completed..]
        else [])
  }

  /** Clients that still have an entry for r. */
  ghost function Holders(clients: map<ClientId, Client>, r: Resp): set<ClientId> {
    set c | c in clients && r in Entries(clients[c])
  }

  /** The response whose completion is under way. */
  ghost predicate UnderWay(s: State, r: Resp) {
    && (s.act.Requeue? || (s.act.Remove? && s.act.resume.Item?))
    && s.act.c in s.clients
    && 0 < s.clients[s.act.c].completed <= |s.clients[s.act.c].batch|
    && r == s.clients[s.act.c].batch[s.clients[s.act.c].completed - 1]
  }

  ghost function UnderWayCount(s: State, r: Resp): nat {
    if UnderWay(s, r) then 1 else 0
  }

  ghost predicate Unqueued(s: State, r: Resp) {
    r in s.live && !s.live[r].queued
  }

  /** Responses whose reference count is final. */
  ghost function Queued(live: map<Resp, Rec>): set<Resp> {
    set r | r in live && live[r].queued
  }

  ghost function SizeOf(rs: set<Resp>, overhead: nat): nat
  {
    if rs == {} then 0 else
      var r :| r in rs;
      r.size + overhead + SizeOf(rs - {r}, overhead)
  }

  ghost predicate GoodEntries(s: State, c: ClientId)
    requires c in s.clients
  {
    var cl := s.clients[c];
    && (forall r :: r in Entries(cl) ==> r in s.live && Entries(cl)[r] == 1)
    && (forall r :: r in Entries(cl) && !s.live[r].queued ==> r in cl.q.At(s.flag))
  }

  ghost predicate GoodAdder(s: State, t: ThreadId)
    requires t in s.adders
  {
    var a := s.adders[t];
    && Unqueued(s, a.resp)
    && s.live[a.resp].sent == 0
    && a.added == |Holders(s.clients, a.resp)|
    && a.todo !! Holders(s.clients, a.resp)
    && (a.guard.Inside? ==> a.guard.client !in Holders(s.clients, a.resp) && a.guard.client !in a.todo)
  }

  ghost predicate GoodResponse(s: State, r: Resp)
    requires r in s.live
  {
    && r.id < s.nextId
    && (s.live[r].queued ==>
          && s.live[r].refs == |Holders(s.clients, r)| + s.live[r].sent + UnderWayCount(s, r)
          && s.live[r].sent < s.live[r].refs)
    && (!s.live[r].queued ==> exists t :: t in s.adders && s.adders[t].resp == r)
  }

  ghost predicate GoodAdders(s: State) {
    && (forall t :: t in s.adders ==> GoodAdder(s, t))
    && (forall t, u :: t in s.adders && u in s.adders && t != u ==> s.adders[t].resp != s.adders[u].resp)
  }

  ghost predicate GoodUnderWay(s: State) {
    forall r :: UnderWay(s, r) ==> r in s.live && s.live[r].queued && s.act.c !in Holders(s.clients, r)
  }

  ghost predicate GoodCounters(s: State) {
    s.inQueue == |Queued(s.live)| && s.memory == SizeOf(Queued(s.live), s.overhead)
  }

  ghost predicate GoodResponses(s: State) {
    && (forall c :: c in s.clients ==> GoodEntries(s, c))
    && GoodAdders(s)
    && (forall r :: r in s.live ==> GoodResponse(s, r))
    && GoodUnderWay(s)
    && GoodCounters(s)
  }

  ghost predicate Inv(s: State) {
    GoodClients(s) && GoodResponses(s)
  }
}
