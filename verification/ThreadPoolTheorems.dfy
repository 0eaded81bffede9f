/** What holds of every run of the thread pool. */
module ThreadPoolTheorems {
  import opened ThreadPool

  // ----- every item stays in exactly one place -----

  lemma WithoutKeeps(q: seq<ItemId>, i: ItemId)
    requires NoDuplicates(q)
    ensures NoDuplicates(Without(q, i))
  {
    if q != [] {
      assert NoDuplicates(q[1..]);
      WithoutKeeps(q[1..], i);
      var r := Without(q[1..], i);
      assert forall a :: 0 <= a < |r| ==> r[a] in q[1..];
      assert q[0] !in q[1..];
    }
  }

  // one item moves from place to place

  lemma Arrives(q: seq<ItemId>, p: Place, places: map<ItemId, Place>, i: ItemId)
    requires QueueAt(q, p, places) && i !in q
    ensures QueueAt(q + [i], p, places[i := p])
  {
  }

  lemma Leaves(q: seq<ItemId>, p: Place, places: map<ItemId, Place>, p': Place)
    requires QueueAt(q, p, places) && q != [] && p' != p
    ensures QueueAt(q[1..], p, places[q[0] := p'])
  {
    assert q == [q[0]] + q[1..];
  }

  lemma TakenOut(q: seq<ItemId>, p: Place, places: map<ItemId, Place>, i: ItemId, p': Place)
    requires QueueAt(q, p, places) && p' != p
    ensures QueueAt(Without(q, i), p, places[i := p'])
  {
    WithoutKeeps(q, i);
    hide Without, NoDuplicates;
  }

  lemma StaysOut(q: seq<ItemId>, p: Place, places: map<ItemId, Place>, i: ItemId, p': Place)
    requires QueueAt(q, p, places) && p' != p && (i in places ==> places[i] != p)
    ensures QueueAt(q, p, places[i := p'])
  {
    hide NoDuplicates;
  }

  lemma WorkersStay(workers: map<WorkerId, Worker>, places: map<ItemId, Place>, i: ItemId, p: Place)
    requires WorkersAt(workers, places) && !p.AtWorker? && (i in places ==> !places[i].AtWorker?)
    ensures WorkersAt(workers, places[i := p])
  {
  }

  lemma CancellingStays(cancelling: set<ItemId>, places: map<ItemId, Place>, i: ItemId, p: Place)
    requires CancellingAt(cancelling, places) && p != Removed && (i in places ==> places[i] != Removed)
    ensures CancellingAt(cancelling, places[i := p])
  {
  }

  lemma Located(s: Pool)
    requires Placed(s)
    ensures s.wq != [] ==> s.wq[0] in s.places && s.places[s.wq[0]] == InPool
    ensures s.list != [] ==> s.list[0] in s.places && s.places[s.list[0]] == InList
    ensures forall i :: i in s.places ==> (i in s.wq <==> s.places[i] == InPool)
    ensures forall i :: i in s.places ==> (i in s.loopQueue <==> s.places[i] == InLoop)
    ensures forall i :: i in s.places ==> (i in s.list <==> s.places[i] == InList)
    ensures forall i :: i in s.cancelling ==> i in s.places && s.places[i] == Removed
    ensures forall t :: t in s.workers && s.workers[t].Running? ==>
      s.workers[t].item in s.places && s.places[s.workers[t].item] == AtWorker(t)
    ensures forall i :: i in s.loopQueue ==> i in s.places && s.places[i] == InLoop
  {
    hide NoDuplicates;
    assert forall t :: t in s.workers && s.workers[t].Running? ==> s.workers[t] == Running(s.workers[t].item);
  }

  lemma SpotsSubmit(wq: seq<ItemId>, lq: seq<ItemId>, list: seq<ItemId>, workers: map<WorkerId, Worker>, c: set<ItemId>,
                    places: map<ItemId, Place>, i: ItemId, wake: set<WorkerId>)
    requires Spots(wq, lq, list, workers, c, places) && i !in places && wake <= Sleeping(workers)
    ensures Spots(wq + [i], lq, list, WakeAll(workers, wake), c, places[i := InPool])
  {
    assert i !in wq;
    assert WorkersAt(WakeAll(workers, wake), places);
    hide QueueAt, WorkersAt, CancellingAt, WakeAll;
    Arrives(wq, InPool, places, i);
    StaysOut(lq, InLoop, places, i, InPool);
    StaysOut(list, InList, places, i, InPool);
    WorkersStay(WakeAll(workers, wake), places, i, InPool);
    CancellingStays(c, places, i, InPool);
  }

  lemma SpotsCancel(wq: seq<ItemId>, lq: seq<ItemId>, list: seq<ItemId>, workers: map<WorkerId, Worker>,
                    places: map<ItemId, Place>, i: ItemId)
    requires Spots(wq, lq, list, workers, {}, places) && (i in wq || i in lq || i in list)
    ensures Spots(Without(wq, i), Without(lq, i), Without(list, i), workers, {i}, places[i := Removed])
  {
    assert i in places && places[i] in {InPool, InLoop, InList};
    assert CancellingAt({i}, places[i := Removed]);
    hide QueueAt, WorkersAt, CancellingAt, Without;
    TakenOut(wq, InPool, places, i, Removed);
    TakenOut(lq, InLoop, places, i, Removed);
    TakenOut(list, InList, places, i, Removed);
    WorkersStay(workers, places, i, Removed);
  }

  lemma SpotsPost(wq: seq<ItemId>, lq: seq<ItemId>, list: seq<ItemId>, workers: map<WorkerId, Worker>, c: set<ItemId>,
                  places: map<ItemId, Place>, i: ItemId)
    requires Spots(wq, lq, list, workers, c, places) && i in c
    ensures Spots(wq, lq + [i], list, workers, {}, places[i := InLoop])
  {
    assert i in places && places[i] == Removed && i !in lq;
    assert CancellingAt({}, places[i := InLoop]);
    hide QueueAt, WorkersAt, CancellingAt;
    Arrives(lq, InLoop, places, i);
    StaysOut(wq, InPool, places, i, InLoop);
    StaysOut(list, InList, places, i, InLoop);
    WorkersStay(workers, places, i, InLoop);
  }

  lemma NothingTwice()
    ensures NoDuplicates([])
  {
  }

  lemma SpotsSplit(wq: seq<ItemId>, lq: seq<ItemId>, workers: map<WorkerId, Worker>, c: set<ItemId>,
      places: map<ItemId, Place>)
    requires Spots(wq, lq, [], workers, c, places)
    ensures Spots(wq, [], lq, workers, c, MoveAll(places, lq))
  {
    var moved := MoveAll(places, lq);
    hide NoDuplicates;
    assert QueueAt(wq, InPool, moved) && QueueAt(lq, InList, moved);
    assert QueueAt([], InLoop, moved) by { assert NoDuplicates([]) by { NothingTwice(); } }
    assert WorkersAt(workers, moved) && CancellingAt(c, moved);
  }

  lemma SpotsDone(wq: seq<ItemId>, lq: seq<ItemId>, list: seq<ItemId>, workers: map<WorkerId, Worker>, c: set<ItemId>,
                  places: map<ItemId, Place>)
    requires Spots(wq, lq, list, workers, c, places) && list != []
    ensures Spots(wq, lq, list[1..], workers, c, places[list[0] := Finished])
  {
    var i := list[0];
    assert i in list && i in places && places[i] == InList;
    hide QueueAt, WorkersAt, CancellingAt;
    Leaves(list, InList, places, Finished);
    StaysOut(wq, InPool, places, i, Finished);
    StaysOut(lq, InLoop, places, i, Finished);
    WorkersStay(workers, places, i, Finished);
    CancellingStays(c, places, i, Finished);
  }

  lemma WorkerTakes(workers: map<WorkerId, Worker>, places: map<ItemId, Place>, t: WorkerId, i: ItemId)
    requires WorkersAt(workers, places) && t in workers && !workers[t].Running? && i in places && !places[i].AtWorker?
    ensures WorkersAt(workers[t := Running(i)], places[i := AtWorker(t)])
  {
  }

  lemma WorkerCompletes(workers: map<WorkerId, Worker>, places: map<ItemId, Place>, t: WorkerId, i: ItemId)
    requires WorkersAt(workers, places) && t in workers && workers[t] == Running(i)
    ensures WorkersAt(workers[t := Ready], places[i := InLoop])
  {
  }

  lemma SpotsTake(wq: seq<ItemId>, lq: seq<ItemId>, list: seq<ItemId>, workers: map<WorkerId, Worker>, c: set<ItemId>,
                  places: map<ItemId, Place>, t: WorkerId)
    requires Spots(wq, lq, list, workers, c, places) && wq != [] && t in workers && !workers[t].Running?
    ensures Spots(wq[1..], lq, list, workers[t := Running(wq[0])], c, places[wq[0] := AtWorker(t)])
  {
    var i := wq[0];
    assert i in wq && i in places && places[i] == InPool;
    hide QueueAt, WorkersAt, CancellingAt;
    WorkerTakes(workers, places, t, i);
    Leaves(wq, InPool, places, AtWorker(t));
    StaysOut(lq, InLoop, places, i, AtWorker(t));
    StaysOut(list, InList, places, i, AtWorker(t));
    CancellingStays(c, places, i, AtWorker(t));
  }

  lemma SpotsComplete(wq: seq<ItemId>, lq: seq<ItemId>, list: seq<ItemId>, workers: map<WorkerId, Worker>,
                      c: set<ItemId>, places: map<ItemId, Place>, t: WorkerId, i: ItemId)
    requires Spots(wq, lq, list, workers, c, places) && t in workers && workers[t] == Running(i)
    ensures Spots(wq, lq + [i], list, workers[t := Ready], c, places[i := InLoop])
  {
    assert i in places && places[i] == AtWorker(t) && i !in lq;
    hide QueueAt, WorkersAt, CancellingAt;
    WorkerCompletes(workers, places, t, i);
    Arrives(lq, InLoop, places, i);
    StaysOut(wq, InPool, places, i, InLoop);
    StaysOut(list, InList, places, i, InLoop);
    CancellingStays(c, places, i, InLoop);
  }

  lemma SpotsWorker(wq: seq<ItemId>, lq: seq<ItemId>, list: seq<ItemId>, workers: map<WorkerId, Worker>, c: set<ItemId>,
                    places: map<ItemId, Place>, t: WorkerId, w: Worker)
    requires Spots(wq, lq, list, workers, c, places) && t in workers && !workers[t].Running? && !w.Running?
    ensures Spots(wq, lq, list, workers[t := w], c, places)
  {
    hide QueueAt, CancellingAt;
  }

  lemma KnownSubmit(s: Pool, i: ItemId, wake: set<WorkerId>)
    requires Known(s)
    ensures Known(SubmitStep(s, i, wake))
  {
  }

  lemma KnownCancel(s: Pool, i: ItemId)
    requires Known(s) && i in s.places
    ensures Known(CancelStep(s, i))
  {
    hide Without;
  }

  lemma KnownPost(s: Pool, i: ItemId)
    requires Known(s) && i in s.places
    ensures Known(CancelPostStep(s, i))
  {
  }

  lemma KnownSplit(s: Pool)
    requires Known(s)
    ensures Known(SplitStep(s))
  {
  }

  lemma KnownDone(s: Pool)
    requires Known(s) && s.list != [] && s.list[0] in s.places
    ensures Known(CallDoneStep(s))
  {
  }

  lemma KnownTake(s: Pool, t: WorkerId)
    requires Known(s) && t in s.workers && s.wq != [] && s.wq[0] in s.places
    ensures Known(TakeStep(s, t))
  {
  }

  lemma KnownComplete(s: Pool, t: WorkerId)
    requires Known(s) && t in s.workers && s.workers[t].Running? && s.workers[t].item in s.places
    ensures Known(CompleteStep(s, t))
  {
  }

  lemma KnownKept(s: Pool, step: Step)
    requires Placed(s) && Enabled(s, step)
    ensures Known(Next(s, step))
  {
    Located(s);
    hide Spots, Without, WakeAll, Heading, Signals, Sleeping, Waiters;
    match step
    case Submit(i, wake) => hide Known; KnownSubmit(s, i, wake);
    case Cancel(i) => hide Known; KnownCancel(s, i);
    case CancelPost => hide Known; KnownPost(s, TheOne(s.cancelling));
    case SplitQueue => hide Known; KnownSplit(s);
    case CallDone => hide Known; KnownDone(s);
    case Take(t) => hide Known; KnownTake(s, t);
    case Complete(t) => hide Known; KnownComplete(s, t);
    case _ =>
  }

  lemma SpotsKept(s: Pool, step: Step)
    requires Placed(s) && Notified(s) && Enabled(s, step)
    ensures var s' := Next(s, step); Spots(s'.wq, s'.loopQueue, s'.list, s'.workers, s'.cancelling, s'.places)
  {
    hide Spots, Known, WakeAll, Without, MoveAll;
    match step
    case Submit(i, wake) => SpotsSubmit(s.wq, s.loopQueue, s.list, s.workers, s.cancelling, s.places, i, wake);
    case Cancel(i) => if !Unlinked(s, i) { SpotsCancel(s.wq, s.loopQueue, s.list, s.workers, s.places, i); }
    case CancelPost =>
      SpotsPost(s.wq, s.loopQueue, s.list, s.workers, s.cancelling, s.places, TheOne(s.cancelling));
    case SplitQueue => SpotsSplit(s.wq, s.loopQueue, s.workers, s.cancelling, s.places);
    case CallDone => SpotsDone(s.wq, s.loopQueue, s.list, s.workers, s.cancelling, s.places);
    case Sleep(t) => SpotsWorker(s.wq, s.loopQueue, s.list, s.workers, s.cancelling, s.places, t, Asleep);
    case SpuriousWake(t) => SpotsWorker(s.wq, s.loopQueue, s.list, s.workers, s.cancelling, s.places, t, Woken);
    case Take(t) => SpotsTake(s.wq, s.loopQueue, s.list, s.workers, s.cancelling, s.places, t);
    case Complete(t) => SpotsComplete(s.wq, s.loopQueue, s.list, s.workers, s.cancelling, s.places, t,
        s.workers[t].item);
    case _ =>
  }

  lemma PlacedKept(s: Pool, step: Step)
    requires Placed(s) && Notified(s) && Enabled(s, step)
    ensures Placed(Next(s, step))
  {
    hide Known, Spots, Next, Notified;
    KnownKept(s, step);
    SpotsKept(s, step);
  }

  // ----- stories -----

  /** A step changes the story of one item at most, or moves items from the loop's queue to its list. */
  ghost predicate OthersSame(s: Pool, s': Pool, i: ItemId) {
    && (forall j :: j in s'.places && j in s'.work && j in s'.doneCalls && j != i ==>
          && j in s.places && j in s.work && j in s.doneCalls
          && s'.work[j] == s.work[j] && s'.doneCalls[j] == s.doneCalls[j]
          && (j in s'.ran <==> j in s.ran) && (j in s'.reported <==> j in s.reported)
          && (j in s.reported ==> s'.reported[j] == s.reported[j])
          && (s'.places[j] == s.places[j] || (s.places[j] == InLoop && s'.places[j] == InList)))
  }

  lemma OneStory(s: Pool, s': Pool, i: ItemId)
    requires Stories(s) && OthersSame(s, s', i)
    requires i in s'.places && i in s'.work && i in s'.doneCalls ==> Story(s', i)
    ensures Stories(s')
  {
    forall j | j in s'.places && j in s'.work && j in s'.doneCalls ensures Story(s', j) {
      if j != i { assert Story(s, j); }
    }
  }

  lemma StorySubmit(s: Pool, i: ItemId, wake: set<WorkerId>)
    requires Known(s) && Stories(s) && Enabled(s, Submit(i, wake))
    ensures Stories(SubmitStep(s, i, wake))
  {
    hide Signals, WakeAll;
    OneStory(s, SubmitStep(s, i, wake), i);
  }

  lemma StoryCancel(s: Pool, i: ItemId)
    requires Known(s) && Stories(s) && Enabled(s, Cancel(i))
    requires i in s.wq <==> s.places[i] == InPool
    requires i in s.loopQueue <==> s.places[i] == InLoop
    requires i in s.list <==> s.places[i] == InList
    ensures Stories(CancelStep(s, i))
  {
    assert Story(s, i);
    hide Without;
    OneStory(s, CancelStep(s, i), i);
  }

  lemma StoryPost(s: Pool, i: ItemId)
    requires Known(s) && Stories(s) && i in s.places && s.places[i] == Removed
    ensures Stories(CancelPostStep(s, i))
  {
    assert Story(s, i);
    OneStory(s, CancelPostStep(s, i), i);
  }

  lemma StorySplit(s: Pool)
    requires Known(s) && Stories(s) && forall i :: i in s.loopQueue ==> i in s.places && s.places[i] == InLoop
    ensures Stories(SplitStep(s))
  {
    var s' := SplitStep(s);
    forall i | i in s'.places && i in s'.work && i in s'.doneCalls ensures Story(s', i) { assert Story(s, i); }
  }

  lemma StoryDone(s: Pool)
    requires Known(s) && Stories(s) && Enabled(s, CallDone) && s.list[0] in s.places && s.places[s.list[0]] == InList
    ensures Stories(CallDoneStep(s))
  {
    assert Story(s, s.list[0]);
    OneStory(s, CallDoneStep(s), s.list[0]);
  }

  lemma StoryTake(s: Pool, t: WorkerId)
    requires Known(s) && Stories(s) && Enabled(s, Take(t)) && s.wq[0] in s.places && s.places[s.wq[0]] == InPool
    ensures Stories(TakeStep(s, t))
  {
    assert Story(s, s.wq[0]);
    hide Heading;
    OneStory(s, TakeStep(s, t), s.wq[0]);
  }

  lemma StoryComplete(s: Pool, t: WorkerId)
    requires Known(s) && Stories(s) && Enabled(s, Complete(t))
    requires var i := s.workers[t].item; i in s.places && s.places[i] == AtWorker(t)
    ensures Stories(CompleteStep(s, t))
  {
    assert Story(s, s.workers[t].item);
    OneStory(s, CompleteStep(s, t), s.workers[t].item);
  }

  lemma SameStories(s: Pool, s': Pool)
    requires Stories(s) && s'.places == s.places && s'.work == s.work && s'.doneCalls == s.doneCalls
    requires s'.ran == s.ran && s'.reported == s.reported
    ensures Stories(s')
  {
    forall i | i in s'.places && i in s'.work && i in s'.doneCalls ensures Story(s', i) { assert Story(s, i); }
  }

  lemma StoriesKept(s: Pool, step: Step)
    requires Placed(s) && Stories(s) && Enabled(s, step)
    ensures Stories(Next(s, step))
  {
    Located(s);
    hide Spots, Known, Stories, Without, Signals, Heading, WakeAll, MoveAll;
    match step
    case Submit(i, wake) => StorySubmit(s, i, wake);
    case Cancel(i) => StoryCancel(s, i);
    case CancelPost => StoryPost(s, TheOne(s.cancelling));
    case SplitQueue => StorySplit(s);
    case CallDone => StoryDone(s);
    case Take(t) => StoryTake(s, t);
    case Complete(t) => StoryComplete(s, t);
    case _ => SameStories(s, Next(s, step));
  }

  // ----- nobody is forgotten -----

  lemma OneLess(a: set<WorkerId>, t: WorkerId)
    requires t in a
    ensures |a - {t}| == |a| - 1
  {
  }

  lemma SetWorker(workers: map<WorkerId, Worker>, t: WorkerId, w: Worker)
    requires t in workers
    ensures var now := workers[t := w];
      && Sleeping(now) == (if w == Asleep then Sleeping(workers) + {t} else Sleeping(workers) - {t})
      && Heading(now) == (if w == Ready || w == Woken then Heading(workers) + {t} else Heading(workers) - {t})
      && Waiters(now) == (if w == Asleep || w == Woken then Waiters(workers) + {t} else Waiters(workers) - {t})
  {
  }

  /** Those who are woken come back to look at the queue. */
  lemma WokenHead(workers: map<WorkerId, Worker>, wake: set<WorkerId>)
    requires wake <= Sleeping(workers)
    ensures var now := WakeAll(workers, wake);
      && Waiters(now) == Waiters(workers) && Sleeping(now) == Sleeping(workers) - wake
      && Heading(now) == Heading(workers) + wake && Heading(workers) !! wake
    ensures Sleeping(workers) <= Waiters(workers)
  {
  }

  lemma AwakeSubmit(s: Pool, i: ItemId, wake: set<WorkerId>)
    requires Awake(s) && Enabled(s, Submit(i, wake))
    ensures Awake(SubmitStep(s, i, wake))
  {
    hide WakeAll, Waiters, Sleeping, Heading;
    WokenHead(s.workers, wake);
    if Sleeping(s.workers) != {} {
      var t :| t in Sleeping(s.workers);
      assert t in Waiters(s.workers);
    }
  }

  lemma AwakeSleep(s: Pool, t: WorkerId)
    requires Awake(s) && Enabled(s, Sleep(t))
    ensures Awake(SleepStep(s, t))
  {
    SetWorker(s.workers, t, Asleep);
    if s.workers[t] == Woken {
      assert Waiters(s.workers) + {t} == Waiters(s.workers);
    }
  }

  lemma OneMore(a: set<WorkerId>, t: WorkerId)
    requires t !in a
    ensures |a + {t}| == |a| + 1 && a - {t} == a
  {
  }

  lemma AwakeSpurious(s: Pool, t: WorkerId)
    requires Awake(s) && Enabled(s, SpuriousWake(t))
    ensures Awake(Next(s, SpuriousWake(t)))
  {
    assert t in Waiters(s.workers) && t in Sleeping(s.workers) && t !in Heading(s.workers);
    hide Waiters, Heading, Sleeping;
    SetWorker(s.workers, t, Woken);
    assert Waiters(s.workers) + {t} == Waiters(s.workers);
    OneMore(Heading(s.workers), t);
  }

  lemma AwakeTake(s: Pool, t: WorkerId)
    requires Awake(s) && Enabled(s, Take(t))
    ensures Awake(TakeStep(s, t))
  {
    assert t in Heading(s.workers) && t !in Sleeping(s.workers) && (t in Waiters(s.workers) <==> s.workers[t] == Woken);
    hide Waiters, Heading, Sleeping;
    SetWorker(s.workers, t, Running(s.wq[0]));
    OneLess(Heading(s.workers), t);
    assert Sleeping(s.workers) - {t} == Sleeping(s.workers);
    if s.workers[t] == Woken {
      OneLess(Waiters(s.workers), t);
    } else {
      assert Waiters(s.workers) - {t} == Waiters(s.workers);
    }
  }

  lemma AwakeComplete(s: Pool, t: WorkerId)
    requires Awake(s) && Enabled(s, Complete(t))
    ensures Awake(CompleteStep(s, t))
  {
    assert t !in Waiters(s.workers) && t !in Sleeping(s.workers) && t !in Heading(s.workers);
    hide Waiters, Heading, Sleeping;
    SetWorker(s.workers, t, Ready);
    OneMore(Heading(s.workers), t);
    OneMore(Waiters(s.workers), t);
    OneMore(Sleeping(s.workers), t);
  }

  lemma AwakeKept(s: Pool, step: Step)
    requires Awake(s) && Enabled(s, step)
    ensures Awake(Next(s, step))
  {
    match step
    case Submit(i, wake) => hide Awake; AwakeSubmit(s, i, wake);
    case Sleep(t) => hide Awake; AwakeSleep(s, t);
    case SpuriousWake(t) => hide Awake; AwakeSpurious(s, t);
    case Take(t) => hide Awake; AwakeTake(s, t);
    case Complete(t) => hide Awake; AwakeComplete(s, t);
    case _ => hide Sleeping, Heading, Waiters;
  }

  lemma NotifiedKept(s: Pool, step: Step)
    requires Notified(s) && Enabled(s, step)
    ensures Notified(Next(s, step))
  {
    hide MoveAll, Signals, WakeAll, Heading, Sleeping;
  }

  // ----- whole runs -----

  lemma StartGood(workers: set<WorkerId>)
    ensures Inv(Start(workers))
  {
    assert Waiters(Start(workers).workers) == {};
  }

  lemma {:induction false} RunKeeps(s: Pool, steps: seq<Step>, s': Pool)
    requires Inv(s) && Run(s, steps, s')
    ensures Inv(s')
    decreases |steps|
  {
    hide Placed, Stories, Awake, Notified, Next;
    if steps != [] {
      PlacedKept(s, steps[0]);
      StoriesKept(s, steps[0]);
      AwakeKept(s, steps[0]);
      NotifiedKept(s, steps[0]);
      RunKeeps(Next(s, steps[0]), steps[1..], s');
    }
  }

  ghost predicate Reached(s: Pool) {
    exists workers: set<WorkerId>, steps: seq<Step> :: Run(Start(workers), steps, s)
  }

  lemma ReachedGood(s: Pool)
    requires Reached(s)
    ensures Inv(s)
  {
    hide Inv, Run;
    var workers: set<WorkerId>, steps: seq<Step> :| Run(Start(workers), steps, s);
    StartGood(workers);
    RunKeeps(Start(workers), steps, s);
  }

  /** No item's done function is called twice. */
  lemma DoneAtMostOnce(s: Pool, i: ItemId)
    requires Reached(s) && i in s.doneCalls
    ensures s.doneCalls[i] <= 1
  {
    hide Reached;
    ReachedGood(s);
    hide Awake, Notified, Spots;
    assert Story(s, i);
  }

  /** A done call says that the item was cancelled exactly when its function never ran. */
  lemma CancelledNeverRan(s: Pool, i: ItemId)
    requires Reached(s) && i in s.reported
    ensures s.reported[i] <==> i !in s.ran
  {
    hide Reached;
    ReachedGood(s);
    hide Awake, Notified, Spots;
    assert Story(s, i);
  }

  ghost predicate SameRecord(s: Pool, s': Pool, i: ItemId) {
    && i in s'.places && s'.places[i] == Finished && (i in s'.ran <==> i in s.ran)
    && i in s'.doneCalls && i in s.doneCalls && s'.doneCalls[i] == s.doneCalls[i]
    && i in s'.reported && i in s.reported && s'.reported[i] == s.reported[i]
  }

  /** The items that a step works on. */
  ghost predicate Touches(s: Pool, step: Step, i: ItemId)
    requires Enabled(s, step)
  {
    match step
    case Submit(j, _) => i == j
    case Cancel(j) => i == j
    case CancelPost => i in s.cancelling
    case SplitQueue => i in s.loopQueue
    case CallDone => i == s.list[0]
    case Take(_) => i == s.wq[0]
    case Complete(t) => s.workers[t] == Running(i)
    case _ => false
  }

  lemma FinishedUntouched(s: Pool, step: Step, i: ItemId)
    requires Placed(s) && Enabled(s, step) && i in s.places && s.places[i] == Finished
    ensures !Touches(s, step, i)
  {
    Located(s);
    hide Spots, Known, Signals, Heading, Sleeping;
  }

  lemma UntouchedStays(s: Pool, step: Step, i: ItemId)
    requires Enabled(s, step) && !Touches(s, step, i) && SameRecord(s, s, i)
    ensures SameRecord(s, Next(s, step), i)
  {
    hide Signals, Heading, Sleeping, Without, WakeAll;
  }

  lemma FinishedStep(s: Pool, step: Step, i: ItemId)
    requires Inv(s) && Enabled(s, step) && i in s.places && s.places[i] == Finished
    ensures SameRecord(s, Next(s, step), i)
  {
    assert Story(s, i);
    hide Next, Touches, Spots, Stories, Awake, Notified;
    FinishedUntouched(s, step, i);
    UntouchedStays(s, step, i);
  }

  /** After its done call nothing happens to an item any more; above all a cancelled one never runs. */
  lemma {:induction false} FinishedForever(s: Pool, steps: seq<Step>, s': Pool, i: ItemId)
    requires Inv(s) && Run(s, steps, s') && i in s.places && s.places[i] == Finished
    ensures i in s'.places && s'.places[i] == Finished && (i in s'.ran <==> i in s.ran)
    ensures i in s'.doneCalls && i in s.doneCalls && s'.doneCalls[i] == s.doneCalls[i] == 1
    decreases |steps|
  {
    assert Story(s, i);
    hide Placed, Stories, Awake, Notified, Next;
    if steps != [] {
      FinishedStep(s, steps[0], i);
      PlacedKept(s, steps[0]);
      StoriesKept(s, steps[0]);
      AwakeKept(s, steps[0]);
      NotifiedKept(s, steps[0]);
      FinishedForever(Next(s, steps[0]), steps[1..], s', i);
    }
  }

  // ----- first come, first served -----

  /** Every b in the queue has an a in front of it. */
  ghost predicate Before(q: seq<ItemId>, a: ItemId, b: ItemId) {
    q == [] || q[0] == a || (q[0] != b && Before(q[1..], a, b))
  }

  lemma {:induction false} BeforeWithout(q: seq<ItemId>, a: ItemId, b: ItemId, i: ItemId)
    requires Before(q, a, b) && i != a
    ensures Before(Without(q, i), a, b)
    decreases |q|
  {
    if q == [] {
    } else if q[0] == a {
      assert Without(q, i)[0] == a;
    } else {
      BeforeWithout(q[1..], a, b, i);
      assert Without(q, i) == (if q[0] == i then [] else [q[0]]) + Without(q[1..], i);
      if q[0] == i {
        assert Without(q, i) == Without(q[1..], i);
      } else {
        assert Without(q, i)[1..] == Without(q[1..], i);
      }
    }
  }

  lemma {:induction false} BeforeSnoc(q: seq<ItemId>, a: ItemId, b: ItemId, i: ItemId)
    requires Before(q, a, b) && a in q
    ensures Before(q + [i], a, b)
    decreases |q|
  {
    if q[0] != a {
      BeforeSnoc(q[1..], a, b, i);
      assert (q + [i])[1..] == q[1..] + [i];
    }
  }

  lemma {:induction false} NotThere(q: seq<ItemId>, a: ItemId, b: ItemId)
    requires b !in q
    ensures Before(q, a, b)
    decreases |q|
  {
    if q != [] { NotThere(q[1..], a, b); }
  }

  lemma HeadIsNot(q: seq<ItemId>, a: ItemId, b: ItemId)
    requires q != [] && Before(q, a, b) && b != a
    ensures q[0] != b && (q[0] != a ==> Before(q[1..], a, b))
  {
  }

  /** As long as a waits, b has not been started, and waits behind a if it waits at all. */
  ghost predicate Behind(s: Pool, a: ItemId, b: ItemId) {
    && a in s.places && b != a
    && (s.places[a] == InPool ==> b !in s.ran && Before(s.wq, a, b))
  }

  lemma BehindQueue(s: Pool, step: Step, a: ItemId, b: ItemId)
    requires Enabled(s, step) && a in s.places && a in s.wq && b != a && b !in s.ran && Before(s.wq, a, b)
    requires step.Submit? || step.Cancel? || step.Take?
    ensures Behind(Next(s, step), a, b)
  {
    hide Signals, Heading, Sleeping, WakeAll, Before, Without;
    match step
    case Submit(i, wake) => BeforeSnoc(s.wq, a, b, i);
    case Cancel(i) => if i != a { BeforeWithout(s.wq, a, b, i); }
    case Take(t) => HeadIsNot(s.wq, a, b);
  }

  /** An item comes to the pool's queue once. */
  lemma NeverBack(s: Pool, step: Step, a: ItemId)
    requires Enabled(s, step) && a in s.places && s.places[a] != InPool
    ensures a in Next(s, step).places && Next(s, step).places[a] != InPool
  {
    hide Signals, Heading, Sleeping, WakeAll, Without;
  }

  lemma QueueLeftAlone(s: Pool, step: Step)
    requires Enabled(s, step) && !step.Submit? && !step.Cancel? && !step.Take?
    ensures Next(s, step).wq == s.wq && Next(s, step).ran == s.ran && s.places.Keys <= Next(s, step).places.Keys
  {
    hide Signals, Heading, Sleeping, WakeAll, Without;
  }

  lemma BehindStep(s: Pool, step: Step, a: ItemId, b: ItemId)
    requires Placed(s) && Behind(s, a, b) && Enabled(s, step)
    ensures Behind(Next(s, step), a, b)
  {
    hide Next, Enabled, Before;
    if s.places[a] != InPool {
      hide Placed;
      NeverBack(s, step, a);
    } else if step.Submit? || step.Cancel? || step.Take? {
      Located(s);
      hide Placed;
      BehindQueue(s, step, a, b);
    } else {
      hide Placed;
      QueueLeftAlone(s, step);
    }
  }

  lemma {:induction false} BehindRun(s: Pool, steps: seq<Step>, s': Pool, a: ItemId, b: ItemId)
    requires Inv(s) && Run(s, steps, s') && Behind(s, a, b)
    ensures Behind(s', a, b)
    decreases |steps|
  {
    hide Placed, Stories, Awake, Notified, Next, Behind;
    if steps != [] {
      BehindStep(s, steps[0], a, b);
      PlacedKept(s, steps[0]);
      StoriesKept(s, steps[0]);
      AwakeKept(s, steps[0]);
      NotifiedKept(s, steps[0]);
      BehindRun(Next(s, steps[0]), steps[1..], s', a, b);
    }
  }

  /** Nobody overtakes: when b's function has been started, an item a that waited before b came waits no more. */
  lemma NoOvertaking(s: Pool, steps: seq<Step>, s': Pool, a: ItemId, b: ItemId)
    requires Inv(s) && Run(s, steps, s') && a in s.places && b !in s.places
    ensures a in s'.places && (b in s'.ran ==> s'.places[a] != InPool)
  {
    assert b !in s.ran && b !in s.wq by { hide Run, Stories, Awake, Notified; }
    hide Inv, Run;
    NotThere(s.wq, a, b);
    BehindRun(s, steps, s', a, b);
  }

  /** While work is queued, a worker that sleeps unsignalled is not needed: enough others are on their way. */
  lemma NoLostWakeup(s: Pool)
    requires Reached(s) && Sleeping(s.workers) != {}
    ensures |s.wq| <= |Heading(s.workers)|
    ensures s.wq != [] ==> exists t :: t in Heading(s.workers)
  {
    hide Reached;
    ReachedGood(s);
    hide Placed, Stories, Notified;
    if s.wq != [] {
      assert Heading(s.workers) != {};
      var t :| t in Heading(s.workers);
    }
  }

  /** Steps of the pool itself: nobody has to submit, cancel or wake up out of turn. */
  predicate OwnStep(step: Step) {
    step.CancelPost? || step.AsyncCall? || step.SplitQueue? || step.CallDone? || step.EndDone? || step.Take?
        || step.Complete?
  }

  ghost predicate CanGoOn(s: Pool) {
    exists step :: OwnStep(step) && Enabled(s, step)
  }

  lemma LoopGoesOn(s: Pool)
    requires Inv(s) && (s.loop != Idle || s.cancelling != {} || s.loopQueue != [])
    ensures CanGoOn(s)
  {
    Located(s);
    var step := if s.cancelling != {} then CancelPost
                else if s.loop == Called then SplitQueue
                else if s.loop == Draining then if s.list != [] then CallDone else EndDone
                else AsyncCall;
    assert OwnStep(step) && Enabled(s, step) by { hide Spots, Stories, Awake; }
  }

  lemma RunningGoesOn(s: Pool, t: WorkerId)
    requires t in s.workers && s.workers[t].Running?
    ensures CanGoOn(s)
  {
    assert OwnStep(Complete(t)) && Enabled(s, Complete(t));
  }

  ghost function HeadingOne(s: Pool, u: WorkerId): (t: WorkerId)
    requires Awake(s) && u in Sleeping(s.workers) && s.wq != []
    ensures t in Heading(s.workers)
  {
    assert Heading(s.workers) != {};
    var t :| t in Heading(s.workers);
    t
  }

  lemma QueueGoesOn(s: Pool)
    requires Awake(s) && s.workers != map[] && s.wq != []
    ensures CanGoOn(s)
  {
    var u :| u in s.workers;
    if s.workers[u].Running? {
      RunningGoesOn(s, u);
    } else {
      var t := if u in Heading(s.workers) then u else HeadingOne(s, u);
      assert OwnStep(Take(t)) && Enabled(s, Take(t));
    }
  }

  lemma WorkersGoOn(s: Pool, i: ItemId)
    requires Inv(s) && s.workers != map[] && i in s.places && (s.places[i] == InPool || s.places[i].AtWorker?)
    ensures CanGoOn(s)
  {
    hide Stories, Awake, Notified, CanGoOn, QueueAt, CancellingAt;
    if s.places[i].AtWorker? {
      var t := s.places[i].t;
      assert t in s.workers && s.workers[t] == Running(i);
      RunningGoesOn(s, t);
    } else {
      Located(s);
      assert i in s.wq;
      QueueGoesOn(s);
    }
  }

  /** The pool comes to rest only when every submitted item has had its one done call. */
  lemma RestMeansDone(s: Pool, i: ItemId)
    requires Reached(s) && s.workers != map[] && !CanGoOn(s) && i in s.places
    ensures i in s.doneCalls && s.doneCalls[i] == 1
  {
    hide Reached, CanGoOn;
    ReachedGood(s);
    hide Awake;
    assert Story(s, i);
    Located(s);
    if s.places[i] == InPool || s.places[i].AtWorker? {
      WorkersGoOn(s, i);
    } else if s.places[i] != Finished {
      assert s.places[i] == Removed ==> i in s.cancelling;
      LoopGoesOn(s);
    }
  }

  // ----- and it does come to rest -----

  ghost function Runners(workers: map<WorkerId, Worker>): set<WorkerId> {
    set t | t in workers && workers[t].Running?
  }

  /** What is left to do for the items that are there. */
  ghost function Remaining(s: Pool): nat {
    40 * |s.wq| + 30 * |Runners(s.workers)| + 30 * |s.cancelling| + 20 * |s.loopQueue| + 10 * |s.list|
    + (if s.asyncPending then 4 else 0) + match s.loop case Idle => 0 case Called => 3 case Draining => 2
  }

  lemma TakeRunners(workers: map<WorkerId, Worker>, t: WorkerId, i: ItemId)
    requires t in Heading(workers)
    ensures |Runners(workers[t := Running(i)])| == |Runners(workers)| + 1
  {
    assert Runners(workers[t := Running(i)]) == Runners(workers) + {t};
  }

  lemma CompleteRunners(workers: map<WorkerId, Worker>, t: WorkerId)
    requires t in workers && workers[t].Running?
    ensures |Runners(workers[t := Ready])| == |Runners(workers)| - 1
  {
    assert Runners(workers[t := Ready]) == Runners(workers) - {t};
    OneLess(Runners(workers), t);
  }

  lemma SomeLeft(c: set<ItemId>)
    ensures c != {} ==> |c| >= 1
  {
  }

  lemma OwnStepLeavesLess(s: Pool, step: Step)
    requires Notified(s) && Enabled(s, step) && OwnStep(step)
    ensures Remaining(Next(s, step)) < Remaining(s)
  {
    hide Runners, MoveAll, Heading;
    match step
    case Take(t) => TakeRunners(s.workers, t, s.wq[0]);
    case Complete(t) => CompleteRunners(s.workers, t);
    case CancelPost => SomeLeft(s.cancelling);
    case _ =>
  }

  /** Going to sleep and waking up early neither add nor take work. */
  lemma SleepKeepsRemaining(s: Pool, step: Step)
    requires Enabled(s, step) && (step.Sleep? || step.SpuriousWake?)
    ensures Remaining(Next(s, step)) == Remaining(s)
  {
    var workers, t := s.workers, step.t;
    assert Runners(workers[t := Asleep]) == Runners(workers) && Runners(workers[t := Woken]) == Runners(workers);
    hide Runners;
  }

  ghost function OwnSteps(steps: seq<Step>): nat {
    if steps == [] then 0 else (if OwnStep(steps[0]) then 1 else 0) + OwnSteps(steps[1..])
  }

  /**
    Without new submissions and cancellations only so many steps are possible, however often
    workers sleep and wake.
  */
  lemma {:induction false} OwnRunsAreShort(s: Pool, steps: seq<Step>, s': Pool)
    requires Inv(s) && Run(s, steps, s')
    requires forall k :: 0 <= k < |steps| ==> !steps[k].Submit? && !steps[k].Cancel?
    ensures OwnSteps(steps) <= Remaining(s)
    decreases |steps|
  {
    hide Placed, Stories, Awake, Notified, Next, Remaining;
    if steps != [] {
      if OwnStep(steps[0]) {
        OwnStepLeavesLess(s, steps[0]);
      } else {
        SleepKeepsRemaining(s, steps[0]);
      }
      PlacedKept(s, steps[0]);
      StoriesKept(s, steps[0]);
      AwakeKept(s, steps[0]);
      NotifiedKept(s, steps[0]);
      OwnRunsAreShort(Next(s, steps[0]), steps[1..], s');
    }
  }

  /** Completed work waits for the event loop with the wake-up handle signalled, or the loop is on its way. */
  lemma NoLostCompletion(s: Pool)
    requires Reached(s) && s.loopQueue != []
    ensures s.asyncPending || s.loop == Called
  {
    hide Reached;
    ReachedGood(s);
  }
}
