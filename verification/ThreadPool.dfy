/**
  The thread pool that runs every request: worker threads, the event loop that submits, cancels and
  completes work items, one condition variable and one wake-up handle, as a transition system.
  One step is one section under a lock, or one stretch that only the event loop touches.
*/
module ThreadPool {
  type ItemId = nat
  type WorkerId = nat

  /** w->work: the function to run, NULL once it has run, uv__cancelled. */
  datatype Work = Function | Null | Cancelled

  /** A worker: about to look at the queue; in uv_cond_wait; woken up but not back yet; running an item. */
  datatype Worker = Ready | Asleep | Woken | Running(item: ItemId)

  /** Where an item is; this records history and no step looks at it. */
  datatype Place = InPool | AtWorker(t: WorkerId) | Removed | InLoop | InList | Finished

  /** What uv__work_done is doing: nothing, called but the queue not yet split, going through its list. */
  datatype Loop = Idle | Called | Draining

  /** `places`, `ran` and `reported` record history: `reported` holds what each done call was told. */
  datatype Pool = Pool(
    wq: seq<ItemId>,
    idleThreads: nat,
    workers: map<WorkerId, Worker>,
    work: map<ItemId, Work>,
    loopQueue: seq<ItemId>,
    asyncPending: bool,
    loop: Loop,
    list: seq<ItemId>,
    cancelling: set<ItemId>,
    places: map<ItemId, Place>,
    ran: set<ItemId>,
    doneCalls: map<ItemId, nat>,
    reported: map<ItemId, bool>)

  datatype Step =
    | Submit(i: ItemId, wake: set<WorkerId>)
    | Cancel(i: ItemId)
    | CancelPost
    | AsyncCall
    | SplitQueue
    | CallDone
    | EndDone
    | Sleep(t: WorkerId)
    | SpuriousWake(t: WorkerId)
    | Take(t: WorkerId)
    | Complete(t: WorkerId)

  function Start(workers: set<WorkerId>): Pool {
    Pool([], 0, map t | t in workers :: Ready, map[], [], false, Idle, [], {}, map[], {}, map[], map[])
  }

  // ----- sets of workers -----

  function Sleeping(workers: map<WorkerId, Worker>): set<WorkerId> {
    set t | t in workers && workers[t] == Asleep
  }

  /** Workers that will look at the queue next. */
  function Heading(workers: map<WorkerId, Worker>): set<WorkerId> {
    set t | t in workers && (workers[t] == Ready || workers[t] == Woken)
  }

  function Waiters(workers: map<WorkerId, Worker>): set<WorkerId> {
    set t | t in workers && (workers[t] == Asleep || workers[t] == Woken)
  }

  // ----- steps -----

  function Without(q: seq<ItemId>, i: ItemId): (r: seq<ItemId>)
    ensures forall j :: j in r <==> j in q && j != i
    ensures |r| <= |q| && (i in q ==> |r| < |q|)
  {
    if q == [] then [] else (if q[0] == i then [] else [q[0]]) + Without(q[1..], i)
  }

  /** uv_cond_signal wakes one sleeping worker, if there is one. */
  predicate Signals(s: Pool, wake: set<WorkerId>) {
    if s.idleThreads > 0 && Sleeping(s.workers) != {} then |wake| == 1 && wake <= Sleeping(s.workers) else wake == {}
  }

  function WakeAll(workers: map<WorkerId, Worker>, wake: set<WorkerId>): map<WorkerId, Worker> {
    map t | t in workers :: if t in wake then Woken else workers[t]
  }

  /** uv__work_submit and post */
  function SubmitStep(s: Pool, i: ItemId, wake: set<WorkerId>): Pool {
    s.(work := s.work[i := Function], wq := s.wq + [i], workers := WakeAll(s.workers, wake),
       places := s.places[i := InPool], doneCalls := s.doneCalls[i := 0])
  }

  /** QUEUE_EMPTY(&w->wq): the item's links point to itself, as they do while a worker has it. */
  predicate Unlinked(s: Pool, i: ItemId) {
    i !in s.wq && i !in s.loopQueue && i !in s.list
  }

  /** The part of uv__work_cancel under both mutexes. */
  function CancelStep(s: Pool, i: ItemId): Pool
    requires i in s.work
  {
    if !Unlinked(s, i) && s.work[i] != Null then
      s.(wq := Without(s.wq, i), loopQueue := Without(s.loopQueue, i), list := Without(s.list, i),
         cancelling := {i}, places := s.places[i := Removed])
    else s
  }

  /** And the rest of it. */
  function CancelPostStep(s: Pool, i: ItemId): Pool {
    s.(work := s.work[i := Cancelled], loopQueue := s.loopQueue + [i], asyncPending := true, cancelling := {},
       places := s.places[i := InLoop])
  }

  function MoveAll(places: map<ItemId, Place>, q: seq<ItemId>): map<ItemId, Place> {
    map i | i in places :: if i in q then InList else places[i]
  }

  function SplitStep(s: Pool): Pool {
    s.(list := s.loopQueue, loopQueue := [], loop := Draining, places := MoveAll(s.places, s.loopQueue))
  }

  function CallDoneStep(s: Pool): Pool
    requires s.list != [] && s.list[0] in s.work && s.list[0] in s.doneCalls
  {
    var i := s.list[0];
    s.(list := s.list[1..], places := s.places[i := Finished],
       doneCalls := s.doneCalls[i := s.doneCalls[i] + 1], reported := s.reported[i := s.work[i] == Cancelled])
  }

  function SleepStep(s: Pool, t: WorkerId): Pool
    requires t in s.workers
  {
    s.(workers := s.workers[t := Asleep],
        idleThreads := if s.workers[t] == Woken then s.idleThreads else s.idleThreads + 1)
  }

  function TakeStep(s: Pool, t: WorkerId): Pool
    requires t in s.workers && s.wq != []
  {
    var i := s.wq[0];
    s.(wq := s.wq[1..], workers := s.workers[t := Running(i)],
       idleThreads := if s.workers[t] == Woken && s.idleThreads > 0 then s.idleThreads - 1 else s.idleThreads,
       places := s.places[i := AtWorker(t)], ran := s.ran + {i})
  }

  function CompleteStep(s: Pool, t: WorkerId): Pool
    requires t in s.workers && s.workers[t].Running?
  {
    var i := s.workers[t].item;
    s.(workers := s.workers[t := Ready], work := s.work[i := Null], loopQueue := s.loopQueue + [i],
       asyncPending := true, places := s.places[i := InLoop])
  }

  // ----- the transition system -----

  /** The caller's duty: no uv_cancel for an item whose done call has begun. */
  predicate MayCancel(s: Pool, i: ItemId) {
    i in s.places && s.places[i] != Finished
  }

  predicate Enabled(s: Pool, step: Step) {
    match step
    case Submit(i, wake) => i !in s.places && Signals(s, wake)
    case Cancel(i) => s.loop != Called && s.cancelling == {} && MayCancel(s, i) && i in s.work
    case CancelPost => s.cancelling != {}
    case AsyncCall => s.loop == Idle && s.cancelling == {} && s.asyncPending
    case SplitQueue => s.loop == Called
    case CallDone => s.loop == Draining && s.cancelling == {} && s.list != [] && s.list[0] in s.work
        && s.list[0] in s.doneCalls
    case EndDone => s.loop == Draining && s.cancelling == {} && s.list == []
    case Sleep(t) => t in Heading(s.workers) && s.wq == []
    case SpuriousWake(t) => t in Sleeping(s.workers)
    case Take(t) => t in Heading(s.workers) && s.wq != []
    case Complete(t) => t in s.workers && s.workers[t].Running?
  }

  ghost function TheOne(c: set<ItemId>): (i: ItemId)
    requires c != {}
    ensures i in c
  {
    var i :| i in c;
    i
  }

  ghost function Next(s: Pool, step: Step): Pool
    requires Enabled(s, step)
  {
    match step
    case Submit(i, wake) => SubmitStep(s, i, wake)
    case Cancel(i) => CancelStep(s, i)
    case CancelPost => CancelPostStep(s, TheOne(s.cancelling))
    case AsyncCall => s.(asyncPending := false, loop := Called)
    case SplitQueue => SplitStep(s)
    case CallDone => CallDoneStep(s)
    case EndDone => s.(loop := Idle)
    case Sleep(t) => SleepStep(s, t)
    case SpuriousWake(t) => s.(workers := s.workers[t := Woken])
    case Take(t) => TakeStep(s, t)
    case Complete(t) => CompleteStep(s, t)
  }

  ghost predicate Run(s: Pool, steps: seq<Step>, s': Pool)
    decreases |steps|
  {
    if steps == [] then s == s'
    else Enabled(s, steps[0]) && Run(Next(s, steps[0]), steps[1..], s')
  }

  // ----- what every step keeps -----

  ghost predicate NoDuplicates(q: seq<ItemId>) {
    forall a, b :: 0 <= a < b < |q| ==> q[a] != q[b]
  }

  /** The queue holds the items of one place, once each. */
  ghost predicate QueueAt(q: seq<ItemId>, p: Place, places: map<ItemId, Place>) {
    NoDuplicates(q) && forall i :: i in q <==> i in places && places[i] == p
  }

  ghost predicate WorkersAt(workers: map<WorkerId, Worker>, places: map<ItemId, Place>) {
    forall t, i :: t in workers && workers[t] == Running(i) <==> i in places && places[i] == AtWorker(t)
  }

  ghost predicate CancellingAt(cancelling: set<ItemId>, places: map<ItemId, Place>) {
    && (forall i :: i in cancelling <==> i in places && places[i] == Removed)
    && (forall i, j :: i in cancelling && j in cancelling ==> i == j)
  }

  /** Every item is in exactly one place. */
  ghost predicate Spots(wq: seq<ItemId>, loopQueue: seq<ItemId>, list: seq<ItemId>, workers: map<WorkerId, Worker>,
                        cancelling: set<ItemId>, places: map<ItemId, Place>)
  {
    && QueueAt(wq, InPool, places) && QueueAt(loopQueue, InLoop, places) && QueueAt(list, InList, places)
    && WorkersAt(workers, places) && CancellingAt(cancelling, places)
  }

  ghost predicate Known(s: Pool) {
    && s.work.Keys == s.places.Keys && s.doneCalls.Keys == s.places.Keys
    && s.ran <= s.places.Keys && s.reported.Keys <= s.places.Keys
  }

  ghost predicate Placed(s: Pool) {
    Known(s) && Spots(s.wq, s.loopQueue, s.list, s.workers, s.cancelling, s.places)
  }

  /** What has happened to an item fits the place where it is. */
  ghost predicate Story(s: Pool, i: ItemId)
    requires i in s.places && i in s.work && i in s.doneCalls
  {
    && s.doneCalls[i] == (if s.places[i] == Finished then 1 else 0)
    && (i in s.reported <==> s.places[i] == Finished)
    && match s.places[i]
       case InPool => s.work[i] == Function && i !in s.ran
       case AtWorker(t) => s.work[i] == Function && i in s.ran
       case Removed => i !in s.ran
       case Finished => s.reported[i] <==> i !in s.ran
       case _ => s.work[i] == (if i in s.ran then Null else Cancelled)
  }

  ghost predicate Stories(s: Pool) {
    forall i :: i in s.places && i in s.work && i in s.doneCalls ==> Story(s, i)
  }

  /** Sleeping workers have not been forgotten: others are on their way to every queued item. */
  ghost predicate Awake(s: Pool) {
    && s.idleThreads == |Waiters(s.workers)|
    && (Sleeping(s.workers) != {} ==> |s.wq| <= |Heading(s.workers)|)
  }

  /** Completed items have not been forgotten either. */
  ghost predicate Notified(s: Pool) {
    && (s.loopQueue != [] ==> s.asyncPending || s.loop == Called)
    && (s.loop != Draining ==> s.list == [])
  }

  ghost predicate Inv(s: Pool) {
    Placed(s) && Stories(s) && Awake(s) && Notified(s)
  }
}
