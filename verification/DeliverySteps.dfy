/** Every step keeps what is known of every client: first on the view of one client, then on whole states. */
module DeliverySteps {
  import opened Delivery
  import opened DeliveryInvariant

  // ----- what each kind of step does to the view of the client it works on -----

  lemma RequestView(v: View, marked: bool)
    requires GoodClient(v) && v.act.NoAct?
    ensures v.cl.inPool && !v.cl.marked && !v.cl.busy ==>
        GoodClient(v.(cl := v.cl.(busy := true, requests := v.cl.requests + 1)))
    ensures v.cl.busy ==> GoodClient(v.(cl := v.cl.(marked := v.cl.marked || marked)))
    ensures v.cl.busy && !v.cl.marked ==> GoodClient(v.(cl := v.cl.(busy := false, requests := v.cl.requests - 1)))
  {
  }

  lemma DisconnectView(v: View, c: ClientId)
    requires GoodClient(v) && v.act.NoAct? && v.cl.phase.Live?
    ensures v.cl.busy ==> GoodClient(v.(cl := v.cl.(marked := true)))
    ensures v.cl.busy ==>
      GoodClient(v.(act := Remove(c, Return),
          cl := v.cl.(marked := true, busy := false, requests := v.cl.requests - 1)))
    ensures !v.cl.busy ==> GoodClient(v.(act := Remove(c, Return), cl := v.cl.(marked := true)))
  {
  }

  lemma PhaseView(v: View, phase: Phase)
    requires GoodClient(v) && v.act.NoAct? && !v.cl.phase.Live? && (phase.Closing? || phase.Freed?)
    ensures GoodClient(v.(cl := v.cl.(phase := phase)))
  {
  }

  lemma ToggleView(v: View)
    requires GoodClient(v) && v.act.NoAct? && !v.draining && v.inside == {}
    ensures GoodClient(v.(flag := !v.flag))
  {
  }

  lemma SkipView(v: View)
    requires GoodClient(v) && v.act.NoAct? && v.cl.batch != []
    ensures GoodClient(v.(inSet := v.inSet.With(!v.flag, false)))
  {
  }

  lemma TakeBatchKeeps(cl: Client, side: bool)
    requires Histories(cl, true) && Histories(cl, false)
    ensures var cl' := TakeBatch(cl, side);
      && Histories(cl', true) && Histories(cl', false)
      && |cl'.q.At(side)| + |cl'.batch| == |cl.q.At(side)|
      && (cl'.marked ==> cl'.q.At(side) == [])
      && (cl.q.At(side) != [] ==> cl'.batch != [])
  {
    var q := cl.q.At(side);
    var n := BatchLength(q, cl.marked);
    assert q == q[..n] + q[n..];
  }

  lemma TakeView(v: View, c: ClientId)
    requires GoodClient(v) && v.act.NoAct? && v.cl.batch == [] && v.inSet.At(!v.flag)
    ensures var cl' := TakeBatch(v.cl, !v.flag);
      && (!cl'.marked ==> GoodClient(v.(cl := cl', inSet := v.inSet.With(!v.flag, false))))
      && GoodClient(v.(cl := cl', act := Complete(c, false, cl'.q.At(!v.flag) != []), draining := true))
  {
    TakeBatchKeeps(v.cl, !v.flag);
  }

  lemma WriteDoneView(v: View, c: ClientId, ok: bool)
    requires GoodClient(v) && v.act.NoAct? && v.cl.batch != []
    ensures GoodClient(v.(act := Complete(c, ok, false)))
  {
  }

  lemma CompleteCountView(v: View)
    requires GoodClient(v) && v.act.Complete? && v.cl.completed < |v.cl.batch|
    ensures GoodClient(v.(act := Requeue(v.act.c, v.act.ok, v.act.cut),
                          cl := v.cl.(marked := v.cl.marked || !v.act.ok, responses := v.cl.responses - 1,
                              completed := v.cl.completed + 1)))
  {
  }

  /** AfterSendingLocalClientsResponses goes on to disconnect the client. */
  ghost predicate Disconnects(cl: Client) {
    cl.marked && Empty(cl) && cl.phase == Live && !cl.busy
  }

  ghost function Requeued(v: View, enough: Pair<bool>): View {
    var one, two := v.inSet.one || (v.cl.q.one != [] && enough.one), v.inSet.two || (v.cl.q.two != [] && enough.two);
    v.(inSet := Pair(one, two), lost := Pair(v.cl.q.one != [] && !one, v.cl.q.two != [] && !two))
  }

  lemma CompleteRequeueView(v: View, enough: Pair<bool>)
    requires GoodClient(v) && v.act.Requeue?
    ensures var v1 := Requeued(v, enough);
      if Disconnects(v.cl)
      then GoodClient(v1.(act := Remove(v.act.c, Item(v.act.ok, v.act.cut))))
      else GoodClient(v1.(act := Complete(v.act.c, v.act.ok, v.act.cut)))
  {
  }

  /** RemoveClient, and queueing of the disconnection, as far as the client is concerned. */
  ghost function Removed(cl: Client): Client {
    if !cl.inPool || (cl.requests == 0 && cl.responses == 0) then cl.(inPool := false, phase := DisconnectQueued)
        else cl
  }

  lemma TryRemoveView(v: View)
    requires GoodClient(v) && v.act.Remove? && v.inside == {}
    ensures
      var act' := if v.act.resume.Return? then NoAct else Complete(v.act.c, v.act.resume.ok, v.act.resume.cut);
      GoodClient(v.(cl := Removed(v.cl), act := act'))
  {
  }

  lemma FinishBatchView(v: View)
    requires GoodClient(v) && v.act.Complete? && v.cl.completed == |v.cl.batch|
    ensures var cl' := v.cl.(batch := [], completed := 0);
      if v.draining
      then GoodClient(v.(cl := cl', act := NoAct, draining := false, inSet := v.inSet.With(!v.flag, false),
                         lost := if v.act.cut then v.lost.With(!v.flag, true) else v.lost))
      else GoodClient(v.(cl := cl', act := NoAct))
  {
  }

  lemma CheckClientView(v: View, t: ThreadId)
    requires GoodClient(v) && v.cl.inPool && !v.cl.marked
    ensures GoodClient(v.(inside := v.inside + {t}))
  {
  }

  lemma CountUpView(v: View, t: ThreadId)
    requires GoodClient(v) && t in v.inside && t !in v.counted
    ensures GoodClient(v.(counted := v.counted + {t}, cl := v.cl.(responses := v.cl.responses + 1)))
  {
  }

  lemma PushView(v: View, t: ThreadId, r: Resp)
    requires GoodClient(v) && t in v.counted && |v.cl.q.At(v.flag)| < v.half
    ensures GoodClient(v.(counted := v.counted - {t}, inside := v.inside - {t}, inSet := v.inSet.With(v.flag, true),
                          lost := v.lost.With(v.flag, false),
                          cl := v.cl.(q := v.cl.q.With(v.flag, v.cl.q.At(v.flag) + [r]),
                                      pushed := v.cl.pushed.With(v.flag, v.cl.pushed.At(v.flag) + [r]))))
  {
  }

  lemma GiveUpView(v: View, t: ThreadId)
    requires GoodClient(v) && t in v.counted
    ensures GoodClient(v.(counted := v.counted - {t}, inside := v.inside - {t},
        cl := v.cl.(responses := v.cl.responses - 1)))
  {
  }

  lemma NewView(v: View, c: ClientId)
    requires v.counted == {} && v.inside == {} && !v.inSet.one && !v.inSet.two && !v.draining
    requires !v.lost.one && !v.lost.two
    ensures GoodClient(v.(cl := FRESH_CLIENT, act := NoAct))
    ensures GoodClient(v.(cl := FRESH_CLIENT.(inPool := false, marked := true), act := Remove(c, Return)))
  {
  }

  lemma ViewFacts(v: View)
    requires GoodClient(v)
    ensures v.cl.busy ==> v.cl.phase.Live?
    ensures v.draining ==> InBatch(v.act) && v.inSet.At(!v.flag)
    ensures v.counted <= v.inside
  {
  }

  // ----- whole steps -----

  /** Only the view of client c may differ between the two states. */
  ghost predicate Elsewhere(s: State, s': State, c: ClientId) {
    && s.clients.Keys <= s'.clients.Keys <= s.clients.Keys + {c}
    && (forall d :: d in s.clients && d != c ==> ViewOf(s', d) == ViewOf(s, d))
  }

  lemma OneClient(s: State, s': State, c: ClientId)
    requires GoodClients(s) && Wired(s') && Elsewhere(s, s', c)
    requires c in s'.clients ==> GoodClient(ViewOf(s', c))
    ensures GoodClients(s')
  {
    hide GoodClient;
  }

  lemma NewClientFrames(s: State, c: ClientId, added: bool)
    requires Wired(s) && Enabled(s, NewClient(c, added))
    ensures Wired(NewClientStep(s, c, added)) && Elsewhere(s, NewClientStep(s, c, added), c)
  {
  }

  lemma NewClientKeeps(s: State, c: ClientId, added: bool)
    requires GoodClients(s) && Enabled(s, NewClient(c, added))
    ensures GoodClients(NewClientStep(s, c, added))
  {
    hide GoodClient;
    var s' := NewClientStep(s, c, added);
    NewClientFrames(s, c, added);
    assert CountedBy(s.adders, c) == {} && InGuard(s.adders, c) == {};
    NewView(ViewOf(s', c), c);
    OneClient(s, s', c);
  }

  lemma RequestArrivesFrames(s: State, c: ClientId)
    requires Wired(s) && Enabled(s, RequestArrives(c))
    ensures Wired(RequestArrivesStep(s, c)) && Elsewhere(s, RequestArrivesStep(s, c), c)
  {
  }

  lemma RequestArrivesKeeps(s: State, c: ClientId)
    requires GoodClients(s) && Enabled(s, RequestArrives(c))
    ensures GoodClients(RequestArrivesStep(s, c))
  {
    hide GoodClient;
    var v, s' := ViewOf(s, c), RequestArrivesStep(s, c);
    RequestArrivesFrames(s, c);
    RequestView(v, false);
    assert ViewOf(s', c) == v.(cl := v.cl.(busy := true, requests := v.cl.requests + 1));
    OneClient(s, s', c);
  }

  lemma RequestDoneFrames(s: State, c: ClientId, memoryError: bool)
    requires Wired(s) && Enabled(s, RequestDone(c, memoryError))
    ensures Wired(RequestDoneStep(s, c, memoryError)) && Elsewhere(s, RequestDoneStep(s, c, memoryError), c)
  {
  }

  lemma RequestDoneKeeps(s: State, c: ClientId, memoryError: bool)
    requires GoodClients(s) && Enabled(s, RequestDone(c, memoryError))
    ensures GoodClients(RequestDoneStep(s, c, memoryError))
  {
    hide GoodClient;
    var v, s' := ViewOf(s, c), RequestDoneStep(s, c, memoryError);
    RequestDoneFrames(s, c, memoryError);
    ViewFacts(v);
    if v.cl.marked || memoryError {
      DisconnectView(v, c);
      assert ViewOf(s', c) == v.(act := Remove(c, Return),
          cl := v.cl.(marked := true, busy := false, requests := v.cl.requests - 1));
    } else {
      RequestView(v, memoryError);
      assert ViewOf(s', c) == v.(cl := v.cl.(busy := false, requests := v.cl.requests - 1));
    }
    OneClient(s, s', c);
  }

  lemma RequestDeferredFrames(s: State, c: ClientId, memoryError: bool)
    requires Wired(s) && Enabled(s, RequestDeferred(c, memoryError))
    ensures Wired(RequestDeferredStep(s, c, memoryError)) && Elsewhere(s, RequestDeferredStep(s, c, memoryError), c)
  {
  }

  lemma RequestDeferredKeeps(s: State, c: ClientId, memoryError: bool)
    requires GoodClients(s) && Enabled(s, RequestDeferred(c, memoryError))
    ensures GoodClients(RequestDeferredStep(s, c, memoryError))
  {
    hide GoodClient;
    var v, s' := ViewOf(s, c), RequestDeferredStep(s, c, memoryError);
    RequestDeferredFrames(s, c, memoryError);
    RequestView(v, memoryError);
    assert ViewOf(s', c) == v.(cl := v.cl.(marked := v.cl.marked || memoryError));
    OneClient(s, s', c);
  }

  lemma DisconnectFrames(s: State, c: ClientId)
    requires Wired(s) && Enabled(s, Disconnect(c))
    ensures Wired(BeginDisconnect(s, c, Return)) && Elsewhere(s, BeginDisconnect(s, c, Return), c)
  {
  }

  lemma DisconnectKeeps(s: State, c: ClientId)
    requires GoodClients(s) && Enabled(s, Disconnect(c))
    ensures GoodClients(BeginDisconnect(s, c, Return))
  {
    hide GoodClient;
    var v, s' := ViewOf(s, c), BeginDisconnect(s, c, Return);
    DisconnectFrames(s, c);
    DisconnectView(v, c);
    if v.cl.busy {
      assert ViewOf(s', c) == v.(cl := v.cl.(marked := true));
    } else {
      assert ViewOf(s', c) == v.(act := Remove(c, Return), cl := v.cl.(marked := true));
    }
    OneClient(s, s', c);
  }

  predicate Leaving(s: State, c: ClientId, phase: Phase) {
    && Callback(s, c)
    && (s.clients[c].phase.DisconnectQueued? || s.clients[c].phase.Closing?)
    && (phase.Closing? || phase.Freed?)
  }

  lemma PhaseFrames(s: State, c: ClientId, phase: Phase)
    requires Wired(s) && Leaving(s, c, phase)
    ensures Wired(Put(s, c, s.clients[c].(phase := phase))) && Elsewhere(s, Put(s, c, s.clients[c].(phase := phase)), c)
  {
  }

  lemma PhaseKeeps(s: State, c: ClientId, phase: Phase)
    requires GoodClients(s) && Leaving(s, c, phase)
    ensures GoodClients(Put(s, c, s.clients[c].(phase := phase)))
  {
    hide GoodClient;
    var v, s' := ViewOf(s, c), Put(s, c, s.clients[c].(phase := phase));
    PhaseFrames(s, c, phase);
    PhaseView(v, phase);
    assert ViewOf(s', c) == v.(cl := v.cl.(phase := phase));
    OneClient(s, s', c);
  }

  lemma ToggleKeeps(s: State)
    requires GoodClients(s) && Enabled(s, Toggle)
    ensures GoodClients(ToggleStep(s))
  {
    hide GoodClient;
    forall d | d in s.clients ensures GoodClient(ViewOf(ToggleStep(s), d)) {
      ToggleView(ViewOf(s, d));
    }
  }

  lemma DrainFrames(s: State, c: ClientId, accepted: bool)
    requires Wired(s) && Enabled(s, DrainClient(c, accepted))
    ensures Wired(DrainClientStep(s, c, accepted)) && Elsewhere(s, DrainClientStep(s, c, accepted), c)
  {
    hide TakeBatch;
  }

  lemma DrainClientKeeps(s: State, c: ClientId, accepted: bool)
    requires GoodClients(s) && Enabled(s, DrainClient(c, accepted))
    ensures GoodClients(DrainClientStep(s, c, accepted))
  {
    hide GoodClient, TakeBatch;
    var v, s' := ViewOf(s, c), DrainClientStep(s, c, accepted);
    DrainFrames(s, c, accepted);
    if v.cl.batch != [] {
      SkipView(v);
      assert ViewOf(s', c) == v.(inSet := v.inSet.With(!v.flag, false));
    } else {
      TakeView(v, c);
      var cl' := TakeBatch(v.cl, !v.flag);
      if !cl'.marked && accepted {
        assert ViewOf(s', c) == v.(cl := cl', inSet := v.inSet.With(!v.flag, false));
      } else {
        assert ViewOf(s', c) == v.(cl := cl', act := Complete(c, false, cl'.q.At(!v.flag) != []), draining := true);
      }
    }
    OneClient(s, s', c);
  }

  lemma WriteDoneFrames(s: State, c: ClientId, ok: bool)
    requires Wired(s) && Enabled(s, WriteDone(c, ok))
    ensures Wired(s.(act := Complete(c, ok, false))) && Elsewhere(s, s.(act := Complete(c, ok, false)), c)
  {
  }

  lemma WriteDoneKeeps(s: State, c: ClientId, ok: bool)
    requires GoodClients(s) && Enabled(s, WriteDone(c, ok))
    ensures GoodClients(s.(act := Complete(c, ok, false)))
  {
    hide GoodClient;
    var v, s' := ViewOf(s, c), s.(act := Complete(c, ok, false));
    WriteDoneFrames(s, c, ok);
    WriteDoneView(v, c, ok);
    assert ViewOf(s', c) == v.(act := Complete(c, ok, false));
    OneClient(s, s', c);
  }

  lemma CompleteCountFrames(s: State)
    requires Wired(s) && Enabled(s, CompleteCount)
    ensures Wired(CompleteCountStep(s)) && Elsewhere(s, CompleteCountStep(s), s.act.c)
  {
  }

  lemma CompleteCountKeeps(s: State)
    requires GoodClients(s) && Enabled(s, CompleteCount)
    ensures GoodClients(CompleteCountStep(s))
  {
    hide GoodClient;
    var c, s' := s.act.c, CompleteCountStep(s);
    var v := ViewOf(s, c);
    CompleteCountFrames(s);
    CompleteCountView(v);
    assert ViewOf(s', c) == v.(act := Requeue(v.act.c, v.act.ok, v.act.cut),
      cl := v.cl.(marked := v.cl.marked || !v.act.ok, responses := v.cl.responses - 1,
          completed := v.cl.completed + 1));
    OneClient(s, s', c);
  }

  lemma SettleShape(s: State, c: ClientId, ok: bool, cut: bool)
    requires c in s.clients && 0 < s.clients[c].completed <= |s.clients[c].batch|
    ensures var s' := Settle(s, c, ok, cut);
      s' == s.(act := Complete(c, ok, cut), live := s'.live, inQueue := s'.inQueue, memory := s'.memory)
  {
  }

  lemma CompleteRequeueShape(s: State, enough: Pair<bool>)
    requires Enabled(s, CompleteRequeue(enough))
    ensures var c, s' := s.act.c, CompleteRequeueStep(s, enough);
      && s' == JoinAgain(s, c, enough).(act := s'.act, live := s'.live, inQueue := s'.inQueue, memory := s'.memory)
      && s'.act == (if Disconnects(s.clients[c]) then Remove(c, Item(s.act.ok, s.act.cut))
          else Complete(c, s.act.ok, s.act.cut))
  {
    hide Settle, LeftBehind, AddToSets;
    var c := s.act.c;
    SettleShape(JoinAgain(s, c, enough), c, s.act.ok, s.act.cut);
    assert s.clients == s.clients[c := s.clients[c]];
  }

  lemma CompleteRequeueFrames(s: State, enough: Pair<bool>)
    requires Wired(s) && Enabled(s, CompleteRequeue(enough))
    requires s.drain.Draining? ==> s.act.c in s.sets.At(!s.flag)
    ensures Wired(CompleteRequeueStep(s, enough)) && Elsewhere(s, CompleteRequeueStep(s, enough), s.act.c)
  {
    hide CompleteRequeueStep;
    CompleteRequeueShape(s, enough);
  }

  lemma CompleteRequeueKeeps(s: State, enough: Pair<bool>)
    requires GoodClients(s) && Enabled(s, CompleteRequeue(enough))
    ensures GoodClients(CompleteRequeueStep(s, enough))
  {
    hide GoodClient, CompleteRequeueStep;
    var c, s' := s.act.c, CompleteRequeueStep(s, enough);
    var v := ViewOf(s, c);
    CompleteRequeueShape(s, enough);
    ViewFacts(v);
    CompleteRequeueFrames(s, enough);
    CompleteRequeueView(v, enough);
    assert ViewOf(s', c) == Requeued(v, enough).(act := s'.act);
    OneClient(s, s', c);
  }

  lemma TryRemoveShape(s: State)
    requires Enabled(s, TryRemove)
    ensures var c, s' := s.act.c, TryRemoveStep(s);
      && s' == s.(act := s'.act, clients := s'.clients, live := s'.live, inQueue := s'.inQueue, memory := s'.memory)
      && s'.act == (if s.act.resume.Return? then NoAct else Complete(c, s.act.resume.ok, s.act.resume.cut))
      && s'.clients == s.clients[c := Removed(s.clients[c])]
  {
    hide Settle;
    var c, cl := s.act.c, s.clients[s.act.c];
    assert s.clients == s.clients[c := cl];
    if s.act.resume.Item? {
      SettleShape(s, c, s.act.resume.ok, s.act.resume.cut);
      SettleShape(Put(s, c, Removed(cl)), c, s.act.resume.ok, s.act.resume.cut);
    }
  }

  lemma TryRemoveFrames(s: State)
    requires Wired(s) && Enabled(s, TryRemove)
    ensures Wired(TryRemoveStep(s)) && Elsewhere(s, TryRemoveStep(s), s.act.c)
  {
    hide TryRemoveStep;
    TryRemoveShape(s);
  }

  lemma TryRemoveKeeps(s: State)
    requires GoodClients(s) && Enabled(s, TryRemove)
    ensures GoodClients(TryRemoveStep(s))
  {
    hide GoodClient, TryRemoveStep;
    var c, s' := s.act.c, TryRemoveStep(s);
    TryRemoveShape(s);
    var v := ViewOf(s, c);
    ViewFacts(v);
    TryRemoveFrames(s);
    assert v.inside == {};
    TryRemoveView(v);
    assert ViewOf(s', c) == v.(cl := Removed(v.cl), act := s'.act);
    OneClient(s, s', c);
  }

  lemma FinishBatchFrames(s: State)
    requires Wired(s) && Enabled(s, FinishBatch)
    ensures Wired(FinishBatchStep(s)) && Elsewhere(s, FinishBatchStep(s), s.act.c)
  {
  }

  lemma FinishBatchKeeps(s: State)
    requires GoodClients(s) && Enabled(s, FinishBatch)
    ensures GoodClients(FinishBatchStep(s))
  {
    hide GoodClient;
    var c, s' := s.act.c, FinishBatchStep(s);
    var v := ViewOf(s, c);
    FinishBatchFrames(s);
    FinishBatchView(v);
    var cl' := v.cl.(batch := [], completed := 0);
    if s.drain.Draining? {
      assert ViewOf(s', c) == v.(cl := cl', act := NoAct, draining := false, inSet := v.inSet.With(!v.flag, false),
        lost := if v.act.cut then v.lost.With(!v.flag, true) else v.lost);
    } else {
      assert ViewOf(s', c) == v.(cl := cl', act := NoAct);
    }
    OneClient(s, s', c);
  }

  lemma EndDrainKeeps(s: State)
    requires GoodClients(s) && Enabled(s, EndDrain)
    ensures GoodClients(s.(drain := NotDraining))
  {
    hide GoodClient;
    forall d | d in s.clients ensures GoodClient(ViewOf(s.(drain := NotDraining), d)) {
      assert ViewOf(s.(drain := NotDraining), d) == ViewOf(s, d);
    }
  }

  /** A thread's move changes the guard sets of at most one client. */
  lemma GuardsElsewhere(adders: map<ThreadId, Adder>, t: ThreadId, a: Adder, c: ClientId)
    requires t in adders ==> adders[t].guard.Outside? || adders[t].guard.client == c
    requires a.guard.Outside? || a.guard.client == c
    ensures forall d :: d != c ==> InGuard(adders[t := a], d) == InGuard(adders, d)
    ensures forall d :: d != c ==> CountedBy(adders[t := a], d) == CountedBy(adders, d)
    ensures InGuard(adders[t := a], c) == InGuard(adders, c) - {t} + (if a.guard.Inside? then {t} else {})
    ensures CountedBy(adders[t := a], c) ==
            CountedBy(adders, c) - {t} + (if a.guard.Inside? && !a.guard.stage.Checked? then {t} else {})
    ensures t in InGuard(adders, c) <==> t in adders && adders[t].guard.Inside?
    ensures t in CountedBy(adders, c) <==> t in adders && adders[t].guard.Inside? && !adders[t].guard.stage.Checked?
  {
  }

  /** Entering and leaving AddResponseToQueues touches no client. */
  lemma AdderSetKeeps(s: State, s': State, t: ThreadId)
    requires GoodClients(s) && (t in s.adders ==> s.adders[t].guard.Outside?)
    requires s'.adders == s.adders - {t}
        || (t in s'.adders && s'.adders == s.adders[t := s'.adders[t]] && s'.adders[t].guard.Outside?)
    requires s' == s.(adders := s'.adders, live := s'.live, nextId := s'.nextId, inQueue := s'.inQueue,
        memory := s'.memory)
    ensures GoodClients(s')
  {
    hide GoodClient;
    forall d | d in s'.clients ensures GoodClient(ViewOf(s', d)) {
      assert InGuard(s'.adders, d) == InGuard(s.adders, d);
      assert CountedBy(s'.adders, d) == CountedBy(s.adders, d);
    }
  }

  lemma EnterKeeps(s: State, t: ThreadId, a: Adder, c: ClientId)
    requires GoodClients(s) && t in s.adders && s.adders[t].guard.Outside? && a.guard == Inside(c, Checked)
    requires c in s.clients && s.clients[c].inPool && !s.clients[c].marked
    ensures GoodClients(s.(adders := s.adders[t := a]))
  {
    hide GoodClient, InGuard, CountedBy;
    var s' := s.(adders := s.adders[t := a]);
    var v := ViewOf(s, c);
    GuardsElsewhere(s.adders, t, a, c);
    CheckClientView(v, t);
    assert v.inside - {t} == v.inside && v.counted - {t} + {} == v.counted;
    assert ViewOf(s', c) == v.(inside := v.inside + {t});
    OneClient(s, s', c);
  }

  lemma CheckClientKeeps(s: State, t: ThreadId, c: ClientId)
    requires GoodClients(s) && Enabled(s, CheckClient(t, c))
    ensures GoodClients(CheckClientStep(s, t, c))
  {
    hide GoodClients;
    var s' := CheckClientStep(s, t, c);
    if s'.adders[t].guard.Outside? {
      AdderSetKeeps(s, s', t);
    } else {
      EnterKeeps(s, t, s'.adders[t], c);
    }
  }

  lemma CountUpFrames(s: State, t: ThreadId)
    requires Wired(s) && Enabled(s, CountUp(t))
    ensures Wired(CountUpStep(s, t)) && Elsewhere(s, CountUpStep(s, t), s.adders[t].guard.client)
  {
    hide InGuard, CountedBy;
    GuardsElsewhere(s.adders, t, CountUpStep(s, t).adders[t], s.adders[t].guard.client);
  }

  lemma CountUpKeeps(s: State, t: ThreadId)
    requires GoodClients(s) && Enabled(s, CountUp(t))
    ensures GoodClients(CountUpStep(s, t))
  {
    hide GoodClient, InGuard, CountedBy;
    var s' := CountUpStep(s, t);
    CountUpFrames(s, t);
    GuardsElsewhere(s.adders, t, s'.adders[t], s.adders[t].guard.client);
    var c := s.adders[t].guard.client;
    var v := ViewOf(s, c);
    assert t in v.inside && t !in v.counted;
    assert v.inside - {t} + {t} == v.inside && v.counted - {t} == v.counted;
    CountUpView(v, t);
    assert ViewOf(s', c) == v.(counted := v.counted + {t}, cl := v.cl.(responses := v.cl.responses + 1));
    OneClient(s, s', s.adders[t].guard.client);
  }

  lemma PushFrames(s: State, t: ThreadId, memory: bool)
    requires Wired(s) && Enabled(s, Push(t, memory))
    ensures Wired(PushStep(s, t, memory)) && Elsewhere(s, PushStep(s, t, memory), s.adders[t].guard.client)
  {
    hide InGuard, CountedBy;
    GuardsElsewhere(s.adders, t, PushStep(s, t, memory).adders[t], s.adders[t].guard.client);
  }

  lemma PushKeeps(s: State, t: ThreadId, memory: bool)
    requires GoodClients(s) && Enabled(s, Push(t, memory))
    ensures GoodClients(PushStep(s, t, memory))
  {
    hide GoodClient, InGuard, CountedBy;
    var s' := PushStep(s, t, memory);
    PushFrames(s, t, memory);
    GuardsElsewhere(s.adders, t, s'.adders[t], s.adders[t].guard.client);
    var c, r := s.adders[t].guard.client, s.adders[t].resp;
    var v := ViewOf(s, c);
    assert t in v.counted && t in v.inside;
    if s'.adders[t].guard.Outside? {
      PushView(v, t, r);
      assert ViewOf(s', c) == v.(counted := v.counted - {t}, inside := v.inside - {t},
        inSet := v.inSet.With(v.flag, true), lost := v.lost.With(v.flag, false),
        cl := v.cl.(q := v.cl.q.With(v.flag, v.cl.q.At(v.flag) + [r]),
                    pushed := v.cl.pushed.With(v.flag, v.cl.pushed.At(v.flag) + [r])));
    } else {
      assert v.inside - {t} + {t} == v.inside && v.counted - {t} + {t} == v.counted;
      assert ViewOf(s', c) == v;
    }
    OneClient(s, s', s.adders[t].guard.client);
  }

  lemma GiveUpFrames(s: State, t: ThreadId)
    requires Wired(s) && Enabled(s, GiveUp(t))
    ensures Wired(GiveUpStep(s, t)) && Elsewhere(s, GiveUpStep(s, t), s.adders[t].guard.client)
  {
    hide InGuard, CountedBy;
    GuardsElsewhere(s.adders, t, GiveUpStep(s, t).adders[t], s.adders[t].guard.client);
  }

  lemma GiveUpKeeps(s: State, t: ThreadId)
    requires GoodClients(s) && Enabled(s, GiveUp(t))
    ensures GoodClients(GiveUpStep(s, t))
  {
    hide GoodClient, InGuard, CountedBy;
    var s' := GiveUpStep(s, t);
    GiveUpFrames(s, t);
    GuardsElsewhere(s.adders, t, s'.adders[t], s.adders[t].guard.client);
    var c := s.adders[t].guard.client;
    var v := ViewOf(s, c);
    assert t in v.counted;
    GiveUpView(v, t);
    assert ViewOf(s', c) == v.(counted := v.counted - {t}, inside := v.inside - {t},
        cl := v.cl.(responses := v.cl.responses - 1));
    OneClient(s, s', s.adders[t].guard.client);
  }

  lemma ClientsKept(s: State, step: Step)
    requires GoodClients(s) && Enabled(s, step)
    ensures GoodClients(Next(s, step))
  {
    hide GoodClients, NewClientStep, RequestArrivesStep, RequestDoneStep, RequestDeferredStep, BeginDisconnect,
      ToggleStep, DrainClientStep, CompleteCountStep, CompleteRequeueStep, TryRemoveStep, FinishBatchStep,
      CheckClientStep, CountUpStep, PushStep, GiveUpStep;
    match step
    case NewClient(c, added) => NewClientKeeps(s, c, added);
    case RequestArrives(c) => RequestArrivesKeeps(s, c);
    case RequestDone(c, memoryError) => RequestDoneKeeps(s, c, memoryError);
    case RequestDeferred(c, memoryError) => RequestDeferredKeeps(s, c, memoryError);
    case Disconnect(c) => DisconnectKeeps(s, c);
    case DisconnectProcessed(c) => PhaseKeeps(s, c, Closing);
    case ClientClosed(c) => PhaseKeeps(s, c, Freed);
    case Toggle => ToggleKeeps(s);
    case DrainClient(c, accepted) => DrainClientKeeps(s, c, accepted);
    case EndDrain => EndDrainKeeps(s);
    case WriteDone(c, ok) => WriteDoneKeeps(s, c, ok);
    case CompleteCount => CompleteCountKeeps(s);
    case CompleteRequeue(enough) => CompleteRequeueKeeps(s, enough);
    case TryRemove => TryRemoveKeeps(s);
    case FinishBatch => FinishBatchKeeps(s);
    case BeginAdd(t, fatal, size, todo) => AdderSetKeeps(s, Next(s, step), t);
    case CheckClient(t, c) => CheckClientKeeps(s, t, c);
    case CountUp(t) => CountUpKeeps(s, t);
    case Push(t, memory) => PushKeeps(s, t, memory);
    case GiveUp(t) => GiveUpKeeps(s, t);
    case EndAdd(t) => AdderSetKeeps(s, Next(s, step), t);
  }
}
