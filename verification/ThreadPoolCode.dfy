/**
  The thread pool's functions as they stand in the source: queues, the idle count and w->work
  updated in place.  Every section under a lock is proved to be one step of module ThreadPool, and
  uv__work_done, when no thread cuts in, to be a run of it.
*/
module ThreadPoolCode {
  import opened ThreadPool
  import opened ThreadPoolTheorems
  import opened Wrappers

  lemma {:induction false} Append(s: Pool, first: seq<Step>, m: Pool, rest: seq<Step>, s': Pool)
    requires Run(s, first, m) && Run(m, rest, s')
    ensures Run(s, first + rest, s')
    decreases |first|
  {
    hide Next, Enabled;
    if first == [] {
      assert first + rest == rest;
    } else {
      Append(Next(s, first[0]), first[1..], m, rest, s');
      assert (first + rest)[1..] == first[1..] + rest;
    }
  }

  lemma OneStep(s: Pool, steps: seq<Step>, m: Pool, step: Step)
    requires Run(s, steps, m) && Enabled(m, step)
    ensures Run(s, steps + [step], Next(m, step))
  {
    assert Run(m, [step], Next(m, step)) by {
      hide Next, Enabled;
      assert [step][1..] == [];
    }
    Append(s, steps, m, [step], Next(m, step));
  }

  lemma Stay(s: Pool)
    ensures Run(s, [], s)
  {
  }

  lemma NobodyWoken(workers: map<WorkerId, Worker>)
    ensures WakeAll(workers, {}) == workers
  {
  }

  /** A worker that has been woken is still counted as idle. */
  lemma AwakeCounts(s: Pool, t: WorkerId)
    requires Awake(s) && t in s.workers && s.workers[t] == Woken
    ensures s.idleThreads > 0
  {
    assert t in Waiters(s.workers);
  }

  lemma EndIs(s: Pool)
    requires Enabled(s, EndDone)
    ensures Next(s, EndDone) == s.(loop := Idle)
  {
  }

  /** An item can be cancelled exactly as long as its function has not been started. */
  lemma CancelsUnlessRun(s: Pool, i: ItemId)
    requires Inv(s) && s.cancelling == {} && i in s.work && MayCancel(s, i)
    ensures !Unlinked(s, i) && s.work[i] != Null <==> i !in s.ran
  {
    Located(s);
    assert Story(s, i);
    hide QueueAt, Awake, Notified, Stories, CancellingAt;
    assert s.places[i] != Removed;
    if s.places[i].AtWorker? {
      assert Unlinked(s, i);
    }
  }

  lemma Leftover(q: seq<ItemId>, i: ItemId)
    ensures multiset(Without(q, i) + [i])[i] == 1
  {
    hide Without;
    assert i !in Without(q, i);
    assert multiset(Without(q, i))[i] == 0;
  }

  class UvPool {
    var wq: seq<ItemId>
    var idleThreads: int
    var work: map<ItemId, Work>
    var loopQueue: seq<ItemId>
    var asyncPending: bool
    var list: seq<ItemId>
    ghost var workers: map<WorkerId, Worker>
    ghost var loop: Loop
    ghost var cancelling: set<ItemId>
    ghost var places: map<ItemId, Place>
    ghost var ran: set<ItemId>
    ghost var doneCalls: map<ItemId, nat>
    ghost var reported: map<ItemId, bool>

    ghost predicate Valid()
      reads this
    {
      idleThreads >= 0
    }

    ghost function Abs(): Pool
      reads this
      requires Valid()
    {
      Pool(wq, idleThreads, workers, work, loopQueue, asyncPending, loop, list, cancelling, places, ran, doneCalls,
          reported)
    }

    constructor (ghost threads: set<WorkerId>)
      ensures Valid() && Abs() == Start(threads)
    {
      wq, idleThreads, work, loopQueue, asyncPending, list := [], 0, map[], [], false, [];
      workers := map t | t in threads :: Ready;
      loop, cancelling, places, ran, doneCalls, reported := Idle, {}, map[], {}, map[], map[];
    }

    // ----- the event loop's side of a submission -----

    /** The condition variable wakes one of the workers that sleep, whichever it is. */
    ghost method Signal() returns (wake: set<WorkerId>)
      requires Valid() && idleThreads > 0
      modifies `workers
      ensures Signals(old(Abs()), wake) && workers == WakeAll(old(workers), wake)
    {
      wake := {};
      if t :| t in Sleeping(workers) {
        wake := {t};
      }
      workers := WakeAll(workers, wake);
    }

    /** uv__work_submit, and in it post */
    method Submit(i: ItemId) returns (ghost wake: set<WorkerId>)
      requires Valid() && i !in places
      modifies this
      ensures Valid() && Enabled(old(Abs()), Step.Submit(i, wake)) && Abs() == Next(old(Abs()), Step.Submit(i, wake))
      ensures wq == old(wq) + [i] && i in work && work[i] == Function && i in places && places[i] == InPool
      ensures workers == WakeAll(old(workers), wake)
      ensures old(idleThreads) > 0 && Sleeping(old(workers)) != {} ==> |wake| == 1 && wake <= Sleeping(old(workers))
    {
      hide Sleeping;
      work := work[i := Function];
      wake := {};
      if idleThreads > 0 {
        wake := Signal();
      } else {
        NobodyWoken(workers);
      }
      wq := wq + [i];
      places := places[i := InPool];
      doneCalls := doneCalls[i := 0];
    }

    /** The section of uv__work_cancel under both mutexes. */
    method Unqueue(i: ItemId) returns (cancelled: bool)
      requires Valid() && loop != Called && cancelling == {} && i in work && MayCancel(Abs(), i)
      modifies this
      ensures Valid() && Enabled(old(Abs()), Step.Cancel(i)) && Abs() == Next(old(Abs()), Step.Cancel(i))
      ensures cancelling == if cancelled then {i} else {}
      ensures cancelled <==> !Unlinked(old(Abs()), i) && old(work[i]) != Null
      ensures cancelled ==> wq == Without(old(wq), i) && list == Without(old(list), i)
      ensures cancelled ==> loopQueue == Without(old(loopQueue), i)
      ensures workers == old(workers) && i in work
      ensures !cancelled ==> Abs() == old(Abs())
    {
      hide Without;
      cancelled := (i in wq || i in loopQueue || i in list) && work[i] != Null;
      if cancelled {
        wq, loopQueue, list := Without(wq, i), Without(loopQueue, i), Without(list, i);
        cancelling, places := {i}, places[i := Removed];
      }
    }

    /** The section under the loop's own mutex. */
    method PostCancelled(i: ItemId)
      requires Valid() && cancelling == {i}
      modifies this
      ensures Valid() && Enabled(old(Abs()), CancelPost) && Abs() == Next(old(Abs()), CancelPost)
      ensures cancelling == {} && i in work && work[i] == Cancelled && asyncPending
      ensures wq == old(wq) && list == old(list) && loopQueue == old(loopQueue) + [i] && workers == old(workers)
    {
      assert TheOne({i}) == i;
      work := work[i := Cancelled];
      loopQueue := loopQueue + [i];
      asyncPending := true;
      cancelling, places := {}, places[i := InLoop];
    }

    /** uv__work_cancel */
    method Cancel(i: ItemId) returns (cancelled: bool, ghost steps: seq<Step>)
      requires Valid() && loop != Called && cancelling == {} && i in work && MayCancel(Abs(), i)
      modifies this
      ensures Valid() && Run(old(Abs()), steps, Abs()) && cancelling == {}
      ensures old(Inv(Abs())) ==> (cancelled <==> i !in old(ran))
      ensures cancelled ==> i in work && work[i] == Cancelled && steps == [Step.Cancel(i), CancelPost]
      ensures cancelled ==> i !in wq && i !in list && multiset(loopQueue)[i] == 1 && asyncPending
      ensures cancelled ==> wq == Without(old(wq), i) && list == Without(old(list), i) && workers == old(workers)
      ensures !cancelled ==> Abs() == old(Abs())
    {
      hide Run, Next, Inv;
      if Inv(Abs()) { CancelsUnlessRun(Abs(), i); }
      Leftover(loopQueue, i);
      ghost var s := Abs();
      Stay(s);
      cancelled := Unqueue(i);
      OneStep(s, [], s, Step.Cancel(i));
      steps := [] + [Step.Cancel(i)];
      if cancelled {
        ghost var m := Abs();
        PostCancelled(i);
        OneStep(s, steps, m, CancelPost);
        steps := steps + [CancelPost];
      }
    }

    // ----- a worker -----

    /** One turn of the loop that waits for work: the worker goes to sleep, or takes the first item. */
    method WaitForWork(t: WorkerId, waited: bool) returns (item: Option<ItemId>)
      requires Valid() && Inv(Abs()) && t in Heading(workers) && waited == (workers[t] == Woken)
      modifies this
      ensures Valid() && (item.None? <==> old(wq) == [])
      ensures item.None? ==> Enabled(old(Abs()), Sleep(t)) && Abs() == Next(old(Abs()), Sleep(t))
      ensures item.Some? ==>
        && old(wq) == [item.value] + wq && t in workers && workers[t] == Running(item.value)
        && Enabled(old(Abs()), Take(t)) && Abs() == Next(old(Abs()), Take(t))
    {
      hide Placed, Stories, Notified;
      if waited {
        AwakeCounts(Abs(), t);
        idleThreads := idleThreads - 1;
      }
      if wq == [] {
        idleThreads := idleThreads + 1;
        workers := workers[t := Asleep];
        return None;
      }
      var q := wq[0];
      wq := wq[1..];
      workers := workers[t := Running(q)];
      places := places[q := AtWorker(t)];
      ran := ran + {q};
      return Some(q);
    }

    /** The worker has run the item's function. */
    method FinishWork(t: WorkerId, i: ItemId)
      requires Valid() && t in workers && workers[t] == Running(i)
      modifies this
      ensures Valid() && Enabled(old(Abs()), Complete(t)) && Abs() == Next(old(Abs()), Complete(t))
      ensures loopQueue == old(loopQueue) + [i] && asyncPending && i in work && work[i] == Null
    {
      work := work[i := Null];
      loopQueue := loopQueue + [i];
      asyncPending := true;
      workers := workers[t := Ready];
      places := places[i := InLoop];
    }

    // ----- the event loop's side of completions -----

    /** The loop's own queue is split off. */
    method TakeLoopQueue()
      requires Valid() && Inv(Abs()) && loop == Called
      modifies this
      ensures Valid() && Enabled(old(Abs()), SplitQueue) && Abs() == Next(old(Abs()), SplitQueue)
      ensures list == old(loopQueue) && loop == Draining && cancelling == old(cancelling)
      ensures work == old(work)
    {
      if loopQueue != [] {
        list, loopQueue := loopQueue, [];
      }
      places := MoveAll(places, list);
      loop := Draining;
    }

    /** The item's done function has been called once, and told whether the item was cancelled. */
    ghost predicate HasBeenTold(i: ItemId)
      reads `places, `doneCalls, `work, `reported
    {
      && i in places && places[i] == Finished && i in doneCalls && doneCalls[i] == 1
      && i in work && i in reported && (reported[i] <==> work[i] == Cancelled)
    }

    /** The call of the done function; `err` is what it is told. */
    method Done(i: ItemId) returns (err: bool)
      requires Valid() && loop == Draining && cancelling == {} && list != [] && list[0] == i
      requires i in work && i in doneCalls
      modifies this
      ensures Valid() && Enabled(old(Abs()), CallDone) && Abs() == Next(old(Abs()), CallDone)
      ensures err == (old(work)[i] == Cancelled)
      ensures loop == Draining && cancelling == {} && list == old(list)[1..]
      ensures work == old(work) && (old(doneCalls)[i] == 0 ==> HasBeenTold(i))
      ensures forall j :: j != i && old(HasBeenTold(j)) ==> HasBeenTold(j)
    {
      list := list[1..];
      err := work[i] == Cancelled;
      places := places[i := Finished];
      doneCalls := doneCalls[i := doneCalls[i] + 1];
      reported := reported[i := err];
    }

    lemma HeadKnown()
      requires Valid() && Inv(Abs()) && list != []
      ensures list[0] in work && list[0] in doneCalls && doneCalls[list[0]] == 0
    {
      Located(Abs());
      assert Story(Abs(), list[0]);
      hide Spots, Awake, Notified, Stories;
    }

    ghost method SetLoop(state: Loop)
      requires Valid()
      modifies `loop
      ensures Valid() && Abs() == old(Abs()).(loop := state) && loop == state
    {
      loop := state;
    }

    /** The handle's signal is taken back and the callback begins. */
    method BeginCallback()
      requires Valid() && loop == Idle && cancelling == {} && asyncPending
      modifies this
      ensures Valid() && Enabled(old(Abs()), AsyncCall) && Abs() == Next(old(Abs()), AsyncCall)
      ensures loop == Called && cancelling == {} && loopQueue == old(loopQueue) && work == old(work)
    {
      asyncPending := false;
      loop := Called;
    }

    /** uv__work_done, called for the wake-up handle. */
    method WorkDone() returns (ghost steps: seq<Step>)
      requires Valid() && Inv(Abs()) && loop == Idle && cancelling == {} && asyncPending
      modifies this
      ensures Valid() && Inv(Abs()) && Run(old(Abs()), steps, Abs()) && loop == Idle && list == []
      ensures |steps| == |old(loopQueue)| + 3
      ensures work == old(work) && forall i :: i in old(loopQueue) ==> HasBeenTold(i)
    {
      hide Inv, Run, Next, UvPool.HasBeenTold;
      ghost var s := Abs();
      Stay(s);
      OneStep(s, [], s, AsyncCall);
      steps := [] + [AsyncCall];
      BeginCallback();
      RunKeeps(s, steps, Abs());
      ghost var m := Abs();
      TakeLoopQueue();
      OneStep(s, steps, m, SplitQueue);
      steps := steps + [SplitQueue];
      RunKeeps(s, steps, Abs());
      while list != []
        invariant Valid() && Inv(Abs()) && Run(s, steps, Abs()) && loop == Draining && cancelling == {}
        invariant |steps| + |list| == |old(loopQueue)| + 2
        invariant work == old(work) && forall i :: i in old(loopQueue) ==> i in list || HasBeenTold(i)
        decreases |list|
      {
        HeadKnown();
        m := Abs();
        ghost var before := list;
        var err := Done(list[0]);
        OneStep(s, steps, m, CallDone);
        steps := steps + [CallDone];
        RunKeeps(s, steps, Abs());
      }
      m := Abs();
      OneStep(s, steps, m, EndDone);
      steps := steps + [EndDone];
      SetLoop(Idle);
      assert Abs() == m.(loop := Idle);
      EndIs(m);
      RunKeeps(s, steps, Abs());
    }
  }
}
