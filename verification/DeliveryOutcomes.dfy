/**
  What the methods of the delivery code come to, on states: the steps of the transition system that
  they are, and what is left of the state when they are over, by its fields.
*/
module DeliveryOutcomes {
  import opened Delivery
  import opened DeliveryInvariant
  import opened DeliveryRest
  import opened DeliverySteps
  import opened DeliveryTheorems

  lemma Stay(s: State)
    ensures Run(s, [], s)
  {
  }

  lemma IdleBatch(s: State, c: ClientId)
    requires Inv(s) && c in s.clients && s.act.NoAct?
    ensures s.clients[c].completed == 0
  {
    hide GoodResponses;
    var v := ViewOf(s, c);
    assert GoodClient(v) && !InBatch(v.act);
  }

  /** A completion with this result goes on to disconnect the client, for which it needs the guard's write lock. */
  ghost predicate WillWait(cl: Client, ok: bool) {
    Disconnects(cl.(marked := cl.marked || !ok))
  }

  /** A round of the drain takes it: the client's responses cannot be sent, and nothing is left for it. */
  ghost predicate RoundWaits(cl: Client, side: bool, accepted: bool) {
    cl.batch == [] && var taken := TakeBatch(cl, side); (taken.marked || !accepted) && WillWait(taken, false)
  }

  // ----- what the methods below do, on states -----

  /** No thread is inside the guard, whose write lock DisconnectAndDelete takes; threads may be anywhere else. */
  ghost predicate NobodyInside(adders: map<ThreadId, Adder>) {
    forall t :: t in adders ==> adders[t].guard.Outside?
  }

  /** DisconnectAndDelete on one client. */
  ghost function Disconnected(cl: Client): Client {
    if cl.phase != Live then cl
    else if cl.busy then cl.(marked := true)
    else if !cl.inPool || (cl.requests == 0 && cl.responses == 0)
    then cl.(marked := true, inPool := false, phase := DisconnectQueued)
    else cl.(marked := true)
  }

  ghost function CountedDown(s: State): (s': State)
    requires Enabled(s, CompleteCount)
    ensures s' == Next(s, CompleteCount) == CompleteCountStep(s)
        && (forall enough :: Enabled(s', CompleteRequeue(enough)))
    ensures s'.act == Requeue(s.act.c, s.act.ok, s.act.cut) && s'.adders == s.adders
    ensures s'.clients[s.act.c].batch == s.clients[s.act.c].batch
    ensures s'.clients[s.act.c].completed == s.clients[s.act.c].completed + 1
  {
    CompleteCountStep(s)
  }

  ghost function Rejoined(s: State, enough: Pair<bool>): (s': State)
    requires s.act.Requeue? && s.act.c in s.clients
    ensures s'.act == s.act && s'.clients == s.clients && s'.live == s.live
  {
    JoinAgain(s, s.act.c, enough)
  }

  lemma JoinsAgain(s: State, enough: Pair<bool>)
    requires s.act.Requeue? && s.act.c in s.clients
    ensures var c, q := s.act.c, s.clients[s.act.c].q;
      var one := if q.one != [] && enough.one then s.sets.one + {c} else s.sets.one;
      var two := if q.two != [] && enough.two then s.sets.two + {c} else s.sets.two;
      Rejoined(s, enough) ==
        s.(sets := Pair(one, two),
            lost := Pair(LeftBehind(s.lost.one, one, c, q.one), LeftBehind(s.lost.two, two, c, q.two)))
  {
    hide LeftBehind;
  }

  ghost function MaybeDisconnected(s: State): (s': State)
    requires s.act.Requeue? && s.act.c in s.clients
    ensures s'.act == s.act && s'.live == s.live && s.act.c in s'.clients
    ensures s'.clients[s.act.c].batch == s.clients[s.act.c].batch
    ensures s'.clients[s.act.c].completed == s.clients[s.act.c].completed
  {
    var cl := s.clients[s.act.c];
    if cl.marked && Empty(cl) then Put(s, s.act.c, Disconnected(cl)) else s
  }

  lemma SettlesAtOnce(s: State, enough: Pair<bool>)
    requires Enabled(s, CompleteRequeue(enough)) && !Disconnects(s.clients[s.act.c])
    ensures Next(s, CompleteRequeue(enough)) == Settle(MaybeDisconnected(Rejoined(s, enough)), s.act.c, s.act.ok,
        s.act.cut)
  {
    var cl := s.clients[s.act.c];
    assert s.clients[s.act.c := cl] == s.clients;
    hide Settle;
  }

  lemma RemovesFirst(s: State, enough: Pair<bool>)
    requires Enabled(s, CompleteRequeue(enough)) && Disconnects(s.clients[s.act.c]) && NobodyInside(s.adders)
    ensures var m, s1 := Next(s, CompleteRequeue(enough)), MaybeDisconnected(Rejoined(s, enough));
      && Enabled(m, TryRemove)
      && Next(m, TryRemove) == Settle(s1.(act := Remove(s.act.c, Item(s.act.ok, s.act.cut))), s.act.c, s.act.ok,
          s.act.cut)
  {
    var cl := s.clients[s.act.c];
    assert cl.(marked := true) == cl;
    assert s.clients[s.act.c := cl] == s.clients;
    hide Settle;
  }

  lemma SettleIgnoresAct(s: State, act: Act, c: ClientId, ok: bool, cut: bool)
    requires c in s.clients && 0 < s.clients[c].completed <= |s.clients[c].batch|
    ensures Settle(s.(act := act), c, ok, cut) == Settle(s, c, ok, cut)
  {
  }

  /** The second half of a completion is one step, or two if the guard's write lock is taken. */
  lemma CompletionRuns(s: State, enough: Pair<bool>) returns (steps: seq<Step>)
    requires Enabled(s, CompleteRequeue(enough)) && (Disconnects(s.clients[s.act.c]) ==> NobodyInside(s.adders))
    ensures Run(s, steps, Settle(MaybeDisconnected(Rejoined(s, enough)), s.act.c, s.act.ok, s.act.cut))
  {
    assert s.act.Requeue? && s.act.c in s.clients && 0 < s.clients[s.act.c].completed <= |s.clients[s.act.c].batch|;
    hide Run, Settle, Next, Enabled, Disconnects;
    var step, s1 := CompleteRequeue(enough), MaybeDisconnected(Rejoined(s, enough));
    OneStep(s, step);
    steps := [step];
    if Disconnects(s.clients[s.act.c]) {
      RemovesFirst(s, enough);
      Extend(s, steps, Next(s, step), TryRemove);
      steps := steps + [TryRemove];
      SettleIgnoresAct(s1, Remove(s.act.c, Item(s.act.ok, s.act.cut)), s.act.c, s.act.ok, s.act.cut);
    } else {
      SettlesAtOnce(s, enough);
    }
  }

  /** Settle by its fields. */
  ghost function Sent(s: State, r: Resp, act: Act): State
    requires r in s.live
  {
    var rec := s.live[r].(sent := s.live[r].sent + 1);
    if rec.sent == rec.refs then
      s.(live := s.live - {r}, inQueue := s.inQueue - 1, memory := s.memory - (r.size + s.overhead), act := act)
    else s.(live := s.live[r := rec], act := act)
  }

  lemma SettleSends(s: State, c: ClientId, ok: bool, cut: bool)
    requires c in s.clients && 0 < s.clients[c].completed <= |s.clients[c].batch|
    requires s.clients[c].batch[s.clients[c].completed - 1] in s.live
    ensures Settle(s, c, ok, cut) == Sent(s, s.clients[c].batch[s.clients[c].completed - 1], Complete(c, ok, cut))
  {
  }

  /** What one completion comes to. */
  ghost function Completion(s: State, enough: Pair<bool>): State
    requires Enabled(s, CompleteCount)
  {
    Settle(MaybeDisconnected(Rejoined(CountedDown(s), enough)), s.act.c, s.act.ok, s.act.cut)
  }

  lemma WaitsAfterCount(s: State)
    requires Enabled(s, CompleteCount)
    ensures Disconnects(CountedDown(s).clients[s.act.c]) <==> WillWait(s.clients[s.act.c], s.act.ok)
  {
  }

  lemma Completes(s: State, enough: Pair<bool>) returns (steps: seq<Step>)
    requires Inv(s) && Enabled(s, CompleteCount)
    requires WillWait(s.clients[s.act.c], s.act.ok) ==> NobodyInside(s.adders)
    ensures Run(s, steps, Completion(s, enough)) && Inv(Completion(s, enough))
    ensures Inv(CountedDown(s))
  {
    WaitsAfterCount(s);
    hide Inv, Run, Settle, Enabled, MaybeDisconnected, Rejoined, CountedDown, Next, WillWait, Disconnects;
    var s1, end := CountedDown(s), Completion(s, enough);
    OneStep(s, CompleteCount);
    RunKeeps(s, [CompleteCount], s1);
    steps := CompletionRuns(s1, enough);
    RunAppend(s, [CompleteCount], s1, steps, end);
    steps := [CompleteCount] + steps;
    RunKeeps(s, steps, end);
  }

  lemma CompletedIsLive(s: State)
    requires Inv(s) && s.act.Requeue? && s.act.c in s.clients
    requires 0 < s.clients[s.act.c].completed <= |s.clients[s.act.c].batch|
    ensures s.clients[s.act.c].batch[s.clients[s.act.c].completed - 1] in s.live
  {
    hide GoodClients, GoodAdders, GoodCounters, GoodResponse, GoodEntries;
    assert UnderWay(s, s.clients[s.act.c].batch[s.clients[s.act.c].completed - 1]);
  }

  /** The batch is over and the client's batch is cleared. */
  ghost function Cleared(s: State): State
    requires s.act.Complete? && s.act.c in s.clients
  {
    Put(s, s.act.c, s.clients[s.act.c].(batch := [], completed := 0)).(act := NoAct)
  }

  /** Inside a drain the client then leaves the set, and is left behind if its batch was cut short. */
  ghost function Erased(s: State, c: ClientId, cut: bool): State
    requires s.drain.Draining?
  {
    EraseFromDrain(if cut then s.(lost := s.lost.With(!s.flag, s.lost.At(!s.flag) + {c})) else s, c)
  }

  lemma Finishes(s: State)
    requires Enabled(s, FinishBatch)
    ensures Next(s, FinishBatch) == if s.drain.Draining? then Erased(Cleared(s), s.act.c, s.act.cut) else Cleared(s)
  {
  }

  lemma DisconnectedTwice(s: State, c: ClientId)
    requires Callback(s, c) && NobodyInside(s.adders) && s.clients[c].phase == Live && !s.clients[c].busy
    ensures var m := Next(s, Disconnect(c));
      Enabled(m, TryRemove) && Next(m, TryRemove) == Put(s, c, Disconnected(s.clients[c]))
  {
  }

  /** DisconnectAndDelete is one step, or two if the guard's write lock is taken. */
  lemma DisconnectRuns(s: State, c: ClientId) returns (steps: seq<Step>)
    requires Callback(s, c) && (s.clients[c].phase.Live? && !s.clients[c].busy ==> NobodyInside(s.adders))
    ensures s.clients[c].phase.Live? ==> steps != [] && steps[0] == Disconnect(c)
    ensures Run(s, steps, Put(s, c, Disconnected(s.clients[c])))
  {
    var cl := s.clients[c];
    assert s.clients[c := cl] == s.clients;
    if cl.phase != Live {
      Stay(s);
      steps := [];
    } else {
      hide Run;
      OneStep(s, Disconnect(c));
      steps := [Disconnect(c)];
      if !cl.busy {
        Extend(s, steps, Next(s, Disconnect(c)), TryRemove);
        steps := steps + [TryRemove];
        DisconnectedTwice(s, c);
      }
    }
  }

  /** The end of a request, as far as the client is concerned. */
  ghost function Ended(cl: Client, failed: bool): Client {
    cl.(marked := cl.marked || failed, busy := false, requests := cl.requests - 1)
  }

  lemma RemovesEnded(s: State, c: ClientId, failed: bool)
    requires Callback(s, c) && s.clients[c].busy && NobodyInside(s.adders) && s.clients[c].phase == Live
    requires Ended(s.clients[c], failed).marked
    ensures var m := Next(s, RequestDone(c, failed));
      Enabled(m, TryRemove) && Next(m, TryRemove) == Put(s, c, Disconnected(Ended(s.clients[c], failed)))
  {
  }

  lemma RequestDoneRuns(s: State, c: ClientId, failed: bool) returns (steps: seq<Step>)
    requires Callback(s, c) && s.clients[c].busy
    requires s.clients[c].phase.Live? && Ended(s.clients[c], failed).marked ==> NobodyInside(s.adders)
    ensures steps != [] && steps[0] == RequestDone(c, failed)
    ensures var cl := Ended(s.clients[c], failed);
      Run(s, steps, Put(s, c, if cl.marked then Disconnected(cl) else cl))
  {
    hide Run;
    var cl := Ended(s.clients[c], failed);
    OneStep(s, RequestDone(c, failed));
    steps := [RequestDone(c, failed)];
    if cl.marked && cl.phase == Live {
      RemovesEnded(s, c, failed);
      Extend(s, steps, Next(s, RequestDone(c, failed)), TryRemove);
      steps := steps + [TryRemove];
    }
  }

  lemma RemovesNew(s: State, c: ClientId)
    requires Enabled(s, NewClient(c, false)) && NobodyInside(s.adders)
    ensures var m := Next(s, NewClient(c, false));
      Enabled(m, TryRemove) && Next(m, TryRemove) == Put(s, c, Disconnected(FRESH_CLIENT.(inPool := false)))
  {
  }

  lemma NewClientRuns(s: State, c: ClientId, added: bool) returns (steps: seq<Step>)
    requires Enabled(s, NewClient(c, added)) && (!added ==> NobodyInside(s.adders))
    ensures steps != [] && steps[0] == NewClient(c, added)
    ensures var cl := FRESH_CLIENT.(inPool := added);
      Run(s, steps, Put(s, c, if added then cl else Disconnected(cl)))
  {
    hide Run;
    OneStep(s, NewClient(c, added));
    steps := [NewClient(c, added)];
    if !added {
      RemovesNew(s, c);
      Extend(s, steps, Next(s, NewClient(c, added)), TryRemove);
      steps := steps + [TryRemove];
    }
  }

  lemma SameClient(s: State, c: ClientId)
    requires c in s.clients
    ensures Put(s, c, s.clients[c]) == s
  {
  }

  lemma PutTwice(s: State, c: ClientId, first: Client, second: Client)
    ensures Put(Put(s, c, first), c, second) == Put(s, c, second)
  {
    assert s.clients[c := first][c := second] == s.clients[c := second];
  }

  /** A client in the pool has not been disconnected. */
  lemma IdleIsLive(s: State, c: ClientId)
    requires Inv(s) && c in s.clients && s.clients[c].inPool
    ensures s.clients[c].phase == Live
  {
    hide GoodResponses;
    assert GoodClient(ViewOf(s, c));
  }

  /** The step that brings a thread inside the guard one stage further. */
  function NextStage(t: ThreadId, stage: Stage, enough: bool): Step {
    match stage
    case Checked => CountUp(t)
    case Counted => Push(t, enough)
    case Failed => GiveUp(t)
  }

  lemma InsideCanMove(s: State, t: ThreadId, enough: bool)
    requires Inv(s) && t in s.adders && s.adders[t].guard.Inside?
    ensures var step := NextStage(t, s.adders[t].guard.stage, enough);
      IsThread(step) && IsInside(step) && Enabled(s, step)
  {
    hide GoodResponses, GoodClient;
  }

  // ----- what is left when a batch is over, by the fields -----

  /** Every response of the list has been sent once more; the last one that it waited for deletes it. */
  ghost predicate EachSent(rs: seq<Resp>, live: map<Resp, Rec>, live': map<Resp, Rec>) {
    && (forall r :: r !in rs ==> (r in live' <==> r in live))
    && (forall r :: r !in rs && r in live ==> live'[r] == live[r])
    && (forall r :: r in rs ==> r in live)
    && (forall r :: r in rs && live[r].sent + 1 == live[r].refs ==> r !in live')
    && (forall r :: r in rs && live[r].sent + 1 != live[r].refs ==>
          r in live' && live'[r] == live[r].(sent := live[r].sent + 1))
  }

  /** The client is in the set of a queue if it was, or if there was memory for it and the queue has something. */
  ghost function Joined(joined: set<ClientId>, c: ClientId, q: seq<Resp>, enough: bool): set<ClientId> {
    if q != [] && enough then joined + {c} else joined
  }

  ghost function BothJoined(s: State, c: ClientId, enough: Pair<bool>): Pair<set<ClientId>>
    requires c in s.clients
  {
    Pair(Joined(s.sets.one, c, s.clients[c].q.one, enough.one), Joined(s.sets.two, c, s.clients[c].q.two, enough.two))
  }

  /** A marked client for which nothing is left is out of the pool, and its disconnection is queued. */
  ghost predicate GoneIfDone(cl: Client, cl': Client) {
    if cl'.marked && Empty(cl) && cl.phase.Live? && !cl.busy && (cl.inPool ==> cl.requests == 0 && cl'.responses == 0)
    then cl'.phase == DisconnectQueued && !cl'.inPool
    else cl'.phase == cl.phase && cl'.inPool == cl.inPool
  }

  /** Only this client, the sets and the responses have changed. */
  ghost predicate OnlyClient(s: State, c: ClientId, s': State) {
    && c in s.clients && c in s'.clients
    && s' == s.(sets := s'.sets, clients := s.clients[c := s'.clients[c]], live := s'.live, inQueue := s'.inQueue,
                memory := s'.memory, lost := s'.lost, act := s'.act, drain := s'.drain)
  }

  /** In the middle of a batch: n > 0 more of its responses are done with. */
  ghost predicate Completed(s: State, n: nat, enough: Pair<bool>, s': State) {
    && n > 0 && s.act.Complete? && s'.act == s.act && s'.drain == s.drain
    && var c := s.act.c;
    && OnlyClient(s, c, s') && s'.sets == BothJoined(s, c, enough)
    && var cl, cl' := s.clients[c], s'.clients[c];
    && cl.completed + n <= |cl.batch|
    && cl' == cl.(completed := cl.completed + n, responses := cl.responses - n, marked := cl.marked || !s.act.ok,
                  phase := cl'.phase, inPool := cl'.inPool)
    && GoneIfDone(cl, cl')
    && EachSent(cl.batch[cl.completed..cl.completed + n], s.live, s'.live)
  }

  /** A completion up to the point where the response itself is dealt with. */
  lemma ClientCompleted(s: State, enough: Pair<bool>)
    requires Enabled(s, CompleteCount)
    ensures var c, m := s.act.c, MaybeDisconnected(Rejoined(CountedDown(s), enough));
      && c in m.clients && m.act == Requeue(c, s.act.ok, s.act.cut)
      && m == s.(sets := BothJoined(s, c, enough), clients := s.clients[c := m.clients[c]], lost := m.lost,
                 act := m.act)
      && var cl, cl' := s.clients[c], m.clients[c];
      && cl' == cl.(completed := cl.completed + 1, responses := cl.responses - 1, marked := cl.marked || !s.act.ok,
                    phase := cl'.phase, inPool := cl'.inPool)
      && GoneIfDone(cl, cl')
  {
    hide Rejoined;
    JoinsAgain(CountedDown(s), enough);
    var c, s1 := s.act.c, CountedDown(s);
    var cl' := MaybeDisconnected(Rejoined(s1, enough)).clients[c];
    assert s.clients[c := s1.clients[c]][c := cl'] == s.clients[c := cl'];
  }

  lemma OneSent(s: State, r: Resp, act: Act)
    requires r in s.live
    ensures var s' := Sent(s, r, act);
      && EachSent([r], s.live, s'.live)
      && s' == s.(live := s'.live, inQueue := s'.inQueue, memory := s'.memory, act := act)
  {
  }

  lemma OneCompleted(s: State, enough: Pair<bool>)
    requires Enabled(s, CompleteCount) && s.clients[s.act.c].batch[s.clients[s.act.c].completed] in s.live
    ensures Completed(s, 1, enough, Completion(s, enough))
  {
    hide Settle, Rejoined, MaybeDisconnected, CountedDown, GoneIfDone, EachSent, BothJoined, Sent;
    var cl, m := s.clients[s.act.c], MaybeDisconnected(Rejoined(CountedDown(s), enough));
    var r := cl.batch[cl.completed];
    ClientCompleted(s, enough);
    SettleSends(m, s.act.c, s.act.ok, s.act.cut);
    OneSent(m, r, s.act);
    assert cl.batch[cl.completed..cl.completed + 1] == [r];
  }

  // ----- one completion after another -----

  /** No response occurs twice in what is left of a batch. */
  lemma BatchDistinct(s: State, c: ClientId, k: nat)
    requires Inv(s) && c in s.clients && s.clients[c].completed <= k < |s.clients[c].batch|
    ensures s.clients[c].batch[k] !in s.clients[c].batch[s.clients[c].completed..k]
  {
    hide GoodClients, GoodAdders, GoodUnderWay, GoodCounters, GoodResponse;
    var batch, i := s.clients[c].batch, s.clients[c].completed;
    assert GoodEntries(s, c);
    assert batch[i..] == batch[i..k] + ([batch[k]] + batch[k + 1..]);
    assert Entries(s.clients[c])[batch[k]] == 1;
  }

  lemma SentOneMore(rs: seq<Resp>, r: Resp, live: map<Resp, Rec>, live1: map<Resp, Rec>, live2: map<Resp, Rec>)
    requires EachSent(rs, live, live1) && EachSent([r], live1, live2) && r !in rs
    ensures EachSent(rs + [r], live, live2)
  {
  }

  lemma StillCounted(s: State, c: ClientId)
    requires Inv(s) && c in s.clients && s.clients[c].completed < |s.clients[c].batch|
    ensures s.clients[c].responses > 0
  {
    hide GoodResponses;
    assert GoodClient(ViewOf(s, c));
  }

  lemma GoneLater(cl: Client, cl1: Client, cl2: Client)
    requires GoneIfDone(cl, cl1) && GoneIfDone(cl1, cl2)
    requires cl1 == cl.(completed := cl1.completed, responses := cl1.responses, marked := cl1.marked,
                        phase := cl1.phase, inPool := cl1.inPool)
    requires cl1.responses > 0 && (cl1.marked ==> cl2.marked) && cl2.responses <= cl1.responses
    ensures GoneIfDone(cl, cl2)
  {
  }

  ghost function Either(a: Pair<bool>, b: Pair<bool>): Pair<bool> {
    Pair(a.one || b.one, a.two || b.two)
  }

  lemma OneMoreCompleted(s: State, n: nat, a: Pair<bool>, m: State, b: Pair<bool>, s': State)
    requires Inv(s) && Inv(m) && Completed(s, n, a, m) && Completed(m, 1, b, s')
    ensures Completed(s, n + 1, Either(a, b), s')
  {
    hide Inv, EachSent, GoneIfDone;
    var c := s.act.c;
    var cl, cl1, cl2 := s.clients[c], m.clients[c], s'.clients[c];
    var k := cl.completed;
    BatchDistinct(s, c, k + n);
    StillCounted(m, c);
    GoneLater(cl, cl1, cl2);
    assert cl.batch[k + n..k + n + 1] == [cl.batch[k + n]];
    assert cl.batch[k..k + n + 1] == cl.batch[k..k + n] + [cl.batch[k + n]];
    SentOneMore(cl.batch[k..k + n], cl.batch[k + n], s.live, m.live, s'.live);
    assert s.clients[c := cl1][c := cl2] == s.clients[c := cl2];
  }

  /** Whether there was memory for a queue's set in at least one of the first n completions. */
  ghost function Once(enough: nat -> Pair<bool>, n: nat): Pair<bool> {
    Pair(exists i: nat :: i < n && enough(i).one, exists i: nat :: i < n && enough(i).two)
  }

  lemma OnceMore(enough: nat -> Pair<bool>, n: nat)
    ensures Once(enough, n + 1) == Either(Once(enough, n), enough(n))
    ensures n == 0 ==> Once(enough, n + 1) == enough(0)
  {
  }

  // ----- a write that is over, and a round of the drain -----

  /** What the callback after a write comes to; `enough` says for which sets there was memory. */
  ghost predicate Written(s: State, c: ClientId, ok: bool, enough: Pair<bool>, s': State) {
    && OnlyClient(s, c, s') && s'.act.NoAct? && s'.drain == s.drain && s'.sets == BothJoined(s, c, enough)
    && var cl, cl' := s.clients[c], s'.clients[c];
    && cl' == cl.(batch := [], completed := 0, responses := cl.responses - |cl.batch|, marked := cl.marked || !ok,
                  phase := cl'.phase, inPool := cl'.inPool)
    && GoneIfDone(cl, cl')
    && EachSent(cl.batch, s.live, s'.live)
  }

  lemma BatchWritten(s: State, c: ClientId, ok: bool, enough: Pair<bool>, done: State)
    requires s.act.NoAct? && c in s.clients && s.clients[c].completed == 0
    requires Completed(s.(act := Complete(c, ok, false)), |s.clients[c].batch|, enough, done)
    ensures Written(s, c, ok, enough, Cleared(done))
  {
    hide EachSent;
    var cl, cl' := s.clients[c], done.clients[c];
    assert cl.batch[0..|cl.batch|] == cl.batch;
    assert s.clients[c := cl'][c := cl'.(batch := [], completed := 0)] ==
      s.clients[c := cl'.(batch := [], completed := 0)];
  }

  /** The client once the first n responses of a queue have been moved to its batch. */
  ghost function Moved(cl: Client, side: bool, n: nat): Client
    requires n <= |cl.q.At(side)|
  {
    var q := cl.q.At(side);
    var fatal := cl.marked || MarkedByHead(q);
    cl.(q := cl.q.With(side, q[n..]), batch := q[..n], marked := fatal,
        taken := cl.taken.With(side, cl.taken.At(side) + q[..n]),
        handed := if fatal then cl.handed else cl.handed.With(side, cl.handed.At(side) + q[..n]))
  }

  /**
    One round of the drain.  A client with a batch in flight is passed over.  Of any other a batch is taken
    off its queue, which is in flight afterwards if uv_write takes it; if not, or if the client is marked, it is over
    at once.
  */
  ghost predicate Drained(s: State, c: ClientId, accepted: bool, enough: nat -> Pair<bool>, s': State) {
    && s.drain.Draining? && OnlyClient(s, c, s') && s'.act.NoAct? && s'.drain == Draining(s.drain.todo - {c})
    && var side, cl, cl' := !s.flag, s.clients[c], s'.clients[c];
    && var left := s.sets.At(side) - {c};
    if cl.batch != [] then cl' == cl && s'.live == s.live && s'.sets == s.sets.With(side, left)
    else
      var n := BatchLength(cl.q.At(side), cl.marked);
      var taken := Moved(cl, side, n);
      if accepted && !taken.marked then cl' == taken && s'.live == s.live && s'.sets == s.sets.With(side, left)
      else
        && cl' == taken.(batch := [], completed := 0, responses := cl.responses - n, marked := true,
                         phase := cl'.phase, inPool := cl'.inPool)
        && GoneIfDone(taken, cl')
        && EachSent(cl.q.At(side)[..n], s.live, s'.live)
        && s'.sets == s.sets.With(side, left)
             .With(!side, Joined(s.sets.At(!side), c, cl.q.At(!side), Once(enough, n).At(!side)))
  }

  lemma HasResponses(s: State, c: ClientId)
    requires Inv(s) && s.drain.Draining? && s.act.NoAct? && c in s.drain.todo && c in s.clients
    ensures s.clients[c].q.At(!s.flag) != []
  {
    hide GoodResponses;
    assert GoodClient(ViewOf(s, c));
  }

  lemma RoundTaken(s: State, c: ClientId, accepted: bool, enough: nat -> Pair<bool>)
    requires Enabled(s, DrainClient(c, accepted))
    requires s.clients[c].batch != [] || (accepted && !TakeBatch(s.clients[c], !s.flag).marked)
    ensures Drained(s, c, accepted, enough, DrainClientStep(s, c, accepted))
  {
    hide BatchLength, EachSent, GoneIfDone, Once;
    assert s.clients == s.clients[c := s.clients[c]];
  }

  lemma ErasedShape(done: State, c: ClientId, cut: bool)
    requires done.act.Complete? && done.act.c == c && c in done.clients && done.drain.Draining?
    ensures var s', side := Erased(Cleared(done), c, cut), !done.flag;
      s' == done.(clients := done.clients[c := done.clients[c].(batch := [], completed := 0)], act := NoAct,
                  sets := done.sets.With(side, done.sets.At(side) - {c}), drain := Draining(done.drain.todo - {c}),
                  lost := s'.lost)
  {
  }

  lemma RoundRefused(s: State, c: ClientId, accepted: bool, enough: nat -> Pair<bool>, done: State, cut: bool)
    requires Enabled(s, DrainClient(c, accepted)) && s.clients[c].batch == [] && s.clients[c].completed == 0
    requires !accepted || TakeBatch(s.clients[c], !s.flag).marked
    requires var cl := TakeBatch(s.clients[c], !s.flag);
      Completed(Put(s, c, cl).(act := Complete(c, false, cut)), |cl.batch|, Once(enough, |cl.batch|), done)
    ensures Drained(s, c, accepted, enough, Erased(Cleared(done), c, cut))
  {
    ErasedShape(done, c, cut);
    hide BatchLength, EachSent, Once, Erased, Cleared;
    var cl, cl' := TakeBatch(s.clients[c], !s.flag), done.clients[c];
    assert cl.batch[0..|cl.batch|] == cl.batch;
    assert done.sets.At(!s.flag) - {c} == s.sets.At(!s.flag) - {c};
    assert s.clients[c := cl][c := cl'][c := cl'.(batch := [], completed := 0)] ==
      s.clients[c := cl'.(batch := [], completed := 0)];
  }

  // ----- a response for many clients -----

  /** The client gets a response: it is in the pool and not marked, its queue has room, and memory suffices. */
  ghost predicate Takes(s: State, c: ClientId, enough: bool) {
    && c in s.clients && s.clients[c].inPool && !s.clients[c].marked
    && |s.clients[c].q.At(s.flag)| < s.half && enough
  }

  ghost function Takers(s: State, handles: set<ClientId>, enough: ClientId -> bool): set<ClientId> {
    set c | c in handles && Takes(s, c, enough(c))
  }

  /** The response is the last one in the queue on the threads' side, and counted. */
  ghost function WithResponse(cl: Client, side: bool, r: Resp): Client {
    cl.(q := cl.q.With(side, cl.q.At(side) + [r]), pushed := cl.pushed.With(side, cl.pushed.At(side) + [r]),
        responses := cl.responses + 1)
  }

  /** These clients have got the response and joined the threads' set; all else is as it was but what threads know. */
  ghost predicate GivenTo(s: State, r: Resp, takers: set<ClientId>, s': State) {
    && takers <= s.clients.Keys == s'.clients.Keys
    && (forall c :: c in takers ==> s'.clients[c] == WithResponse(s.clients[c], s.flag, r))
    && (forall c :: c in s.clients && c !in takers ==> s'.clients[c] == s.clients[c])
    && s' == s.(clients := s'.clients, sets := s.sets.With(s.flag, s.sets.At(s.flag) + takers), lost := s'.lost,
                adders := s'.adders)
  }

  lemma NotFound(s: State, t: ThreadId, c: ClientId, enough: bool)
    requires Enabled(s, CheckClient(t, c)) && CheckClientStep(s, t, c).adders[t].guard.Outside?
    ensures var s', a := CheckClientStep(s, t, c), s.adders[t];
      && !Takes(s, c, enough) && GivenTo(s, a.resp, {}, s')
      && s'.adders == s.adders[t := a.(todo := a.todo - {c}, guard := Outside)]
  {
    assert s.sets.At(s.flag) + {} == s.sets.At(s.flag);
  }

  lemma FoundAndCounted(s: State, t: ThreadId, c: ClientId)
    requires Enabled(s, CheckClient(t, c)) && CheckClientStep(s, t, c).adders[t].guard.Inside?
    ensures c in s.clients && s.clients[c].inPool && !s.clients[c].marked
    ensures InStage(CheckClientStep(s, t, c), t, Checked)
    ensures var m, a := CountUpStep(CheckClientStep(s, t, c), t), s.adders[t];
      && InStage(m, t, Counted) && m.adders[t].guard.client == c
      && m == s.(clients := s.clients[c := s.clients[c].(responses := s.clients[c].responses + 1)],
                 adders := s.adders[t := a.(todo := a.todo - {c}, guard := Inside(c, Counted))])
  {
  }

  lemma PushedOrNot(s: State, c: ClientId, m: State, t: ThreadId, enough: bool)
    requires c in s.clients && s.clients[c].inPool && !s.clients[c].marked && InStage(m, t, Counted)
    requires m.adders[t].guard.client == c && m == s.(adders := m.adders,
        clients := s.clients[c := s.clients[c].(responses := s.clients[c].responses + 1)])
    ensures t in PushStep(m, t, enough).adders
    ensures var s', a := PushStep(m, t, enough), m.adders[t];
      if s'.adders[t].guard.Outside? then
        && Takes(s, c, enough) && GivenTo(s, a.resp, {c}, s')
        && s'.adders == m.adders[t := a.(added := a.added + 1, guard := Outside)]
      else
        && !Takes(s, c, enough) && InStage(s', t, Failed) && GivenTo(s, a.resp, {}, GiveUpStep(s', t))
        && GiveUpStep(s', t).adders == m.adders[t := a.(guard := Outside)]
  {
    assert s.sets.At(s.flag) + {} == s.sets.At(s.flag);
    assert s.clients[c := s.clients[c]] == s.clients;
  }

  /** One round of the loop over the clients: up to four steps of the thread. */
  ghost function Given(s: State, t: ThreadId, c: ClientId, enough: bool): State
    requires Enabled(s, CheckClient(t, c))
  {
    var s1 := CheckClientStep(s, t, c);
    if s1.adders[t].guard.Outside? then s1 else
      var s2 := CountUpStep(s1, t);
      var s3 := PushStep(s2, t, enough);
      if s3.adders[t].guard.Outside? then s3 else GiveUpStep(s3, t)
  }

  lemma GivenFacts(s: State, t: ThreadId, c: ClientId, enough: bool)
    requires Enabled(s, CheckClient(t, c))
    ensures var s', a := Given(s, t, c, enough), s.adders[t];
      var takes := Takes(s, c, enough);
      && GivenTo(s, a.resp, if takes then {c} else {}, s')
      && s'.adders ==
        s.adders[t := a.(todo := a.todo - {c}, added := if takes then a.added + 1 else a.added, guard := Outside)]
  {
    hide GivenTo, Takes, PushStep, CountUpStep, GiveUpStep;
    var s1 := CheckClientStep(s, t, c);
    if s1.adders[t].guard.Outside? {
      NotFound(s, t, c, enough);
    } else {
      FoundAndCounted(s, t, c);
      PushedOrNot(s, c, CountUpStep(s1, t), t, enough);
    }
  }

  lemma PushRuns(m: State, t: ThreadId, enough: bool) returns (steps: seq<Step>)
    requires InStage(m, t, Counted)
    ensures var s' := PushStep(m, t, enough);
      && t in s'.adders && (s'.adders[t].guard.Inside? ==> InStage(s', t, Failed))
      && Run(m, steps, if s'.adders[t].guard.Outside? then s' else GiveUpStep(s', t))
  {
    hide Run;
    var s' := PushStep(m, t, enough);
    OneStep(m, Push(t, enough));
    steps := [Push(t, enough)];
    if s'.adders[t].guard.Inside? {
      Extend(m, steps, s', GiveUp(t));
      steps := steps + [GiveUp(t)];
    }
  }

  lemma CountRuns(s: State, t: ThreadId, c: ClientId)
    requires Enabled(s, CheckClient(t, c)) && CheckClientStep(s, t, c).adders[t].guard.Inside?
    requires InStage(CheckClientStep(s, t, c), t, Checked)
    ensures Run(s, [CheckClient(t, c), CountUp(t)], CountUpStep(CheckClientStep(s, t, c), t))
  {
    hide Run, CheckClientStep, CountUpStep;
    var s1 := CheckClientStep(s, t, c);
    OneStep(s, CheckClient(t, c));
    Extend(s, [CheckClient(t, c)], s1, CountUp(t));
    assert [CheckClient(t, c)] + [CountUp(t)] == [CheckClient(t, c), CountUp(t)];
  }

  lemma GivenRuns(s: State, t: ThreadId, c: ClientId, enough: bool) returns (steps: seq<Step>)
    requires Enabled(s, CheckClient(t, c))
    ensures Run(s, steps, Given(s, t, c, enough))
  {
    hide Run, PushStep, CountUpStep, GiveUpStep;
    var s1 := CheckClientStep(s, t, c);
    if s1.adders[t].guard.Outside? {
      OneStep(s, CheckClient(t, c));
      steps := [CheckClient(t, c)];
    } else {
      FoundAndCounted(s, t, c);
      CountRuns(s, t, c);
      var s2 := CountUpStep(s1, t);
      steps := PushRuns(s2, t, enough);
      RunAppend(s, [CheckClient(t, c), CountUp(t)], s2, steps, Given(s, t, c, enough));
      steps := [CheckClient(t, c), CountUp(t)] + steps;
    }
  }

  lemma GivenTwice(s: State, r: Resp, a: set<ClientId>, m: State, b: set<ClientId>, s': State)
    requires GivenTo(s, r, a, m) && GivenTo(m, r, b, s') && a !! b
    ensures GivenTo(s, r, a + b, s')
  {
    hide WithResponse;
    assert s.sets.At(s.flag) + a + b == s.sets.At(s.flag) + (a + b);
  }

  /** Whether a client takes the response does not depend on those that have. */
  lemma TakesStill(s: State, r: Resp, a: set<ClientId>, m: State, c: ClientId, enough: bool)
    requires GivenTo(s, r, a, m) && c !in a
    ensures Takes(m, c, enough) == Takes(s, c, enough)
  {
    hide WithResponse;
  }

  /** The loop over these clients is through: so many have got the response. */
  ghost predicate Reached(s: State, r: Resp, handles: set<ClientId>, enough: ClientId -> bool, count: nat, s': State) {
    count == |Takers(s, handles, enough)| && GivenTo(s, r, Takers(s, handles, enough), s')
  }

  lemma NobodyReached(s: State, r: Resp, enough: ClientId -> bool)
    ensures Reached(s, r, {}, enough, 0, s)
  {
    assert s.sets.At(s.flag) + {} == s.sets.At(s.flag);
  }

  lemma OneMoreReached(s: State, r: Resp, done: set<ClientId>, c: ClientId, enough: ClientId -> bool, count: nat,
                       m: State, added: bool, s': State)
    requires c !in done && Reached(s, r, done, enough, count, m) && added == Takes(m, c, enough(c))
    requires GivenTo(m, r, if added then {c} else {}, s')
    ensures Reached(s, r, done + {c}, enough, if added then count + 1 else count, s')
  {
    hide GivenTo, Takes;
    var more := if added then {c} else {};
    TakesStill(s, r, Takers(s, done, enough), m, c, enough(c));
    assert Takers(s, done + {c}, enough) == Takers(s, done, enough) + more;
    GivenTwice(s, r, Takers(s, done, enough), m, more, s');
  }

  /**
    AddResponseToQueues as a whole: these clients have got the new response and nobody else, and it waits for just
    as many, or is deleted again if there is none.
  */
  ghost predicate Spread(s: State, r: Resp, takers: set<ClientId>, s': State) {
    && GivenTo(s, r, takers, s'.(live := s.live, nextId := s.nextId, inQueue := s.inQueue, memory := s.memory))
    && s'.adders == s.adders && s'.nextId == s.nextId + 1
    && if takers == {} then s'.live == s.live - {r} && s'.inQueue == s.inQueue && s'.memory == s.memory
       else
         && s'.live == s.live[r := Rec(|takers|, 0, true)]
         && s'.inQueue == s.inQueue + 1 && s'.memory == s.memory + r.size + s.overhead
  }

  /** The new response object makes no difference to who takes it. */
  lemma SameTakers(s: State, t: ThreadId, fatal: bool, size: nat, handles: set<ClientId>, enough: ClientId -> bool)
    ensures Takers(BeginAddStep(s, t, fatal, size, handles), handles, enough) == Takers(s, handles, enough)
  {
  }

  lemma AllGiven(s: State, t: ThreadId, fatal: bool, size: nat, todo: set<ClientId>, takers: set<ClientId>, m: State)
    requires t !in s.adders && t in m.adders && m.adders == s.adders[t := m.adders[t]]
    requires m.adders[t].resp == Resp(s.nextId, fatal, size) && m.adders[t].added == |takers|
    requires GivenTo(BeginAddStep(s, t, fatal, size, todo), Resp(s.nextId, fatal, size), takers, m)
    ensures Spread(s, Resp(s.nextId, fatal, size), takers, EndAddStep(m, t))
  {
    hide WithResponse;
    assert m.adders - {t} == s.adders;
    var r := Resp(s.nextId, fatal, size);
    assert s.live[r := Rec(0, 0, false)] - {r} == s.live - {r};
  }

  // ----- a whole drain, while threads add -----

  /** Threads may add to the queue on their side, and count; everything else of a client is the loop's. */
  ghost predicate SameForLoop(cl: Client, cl': Client, side: bool) {
    && cl' == cl.(q := cl'.q, pushed := cl'.pushed, responses := cl'.responses)
    && cl'.q.At(side) == cl.q.At(side) && cl'.pushed.At(side) == cl.pushed.At(side)
    && cl.q.At(!side) <= cl'.q.At(!side) && cl.pushed.At(!side) <= cl'.pushed.At(!side)
  }

  ghost predicate ThreadsMoved(s: State, s': State) {
    && s'.half == s.half && s'.overhead == s.overhead && s'.flag == s.flag && s'.drain == s.drain && s'.act == s.act
    && s'.sets.At(!s.flag) == s.sets.At(!s.flag) && s.sets.At(s.flag) <= s'.sets.At(s.flag)
    && s'.clients.Keys == s.clients.Keys
    && forall c :: c in s.clients ==> SameForLoop(s.clients[c], s'.clients[c], !s.flag)
  }

  /** One move, if it is a step of a thread and possible now. */
  ghost function AfterMove(s: State, move: Step): State {
    if IsThread(move) && Enabled(s, move) then Next(s, move) else s
  }

  ghost function AfterMoves(s: State, moves: seq<Step>): State {
    if moves == [] then s else AfterMove(AfterMoves(s, moves[..|moves| - 1]), moves[|moves| - 1])
  }

  lemma SameAtOnce(s: State)
    ensures ThreadsMoved(s, s)
  {
  }

  lemma OneMoreMove(s: State, moves: seq<Step>, i: nat)
    requires i < |moves|
    ensures AfterMoves(s, moves[..i + 1]) == AfterMove(AfterMoves(s, moves[..i]), moves[i])
  {
    hide AfterMove;
    assert moves[..i + 1][..i] == moves[..i];
  }

  lemma PushMoves(s: State, t: ThreadId, memory: bool)
    requires Enabled(s, Push(t, memory))
    ensures ThreadsMoved(s, PushStep(s, t, memory))
  {
  }

  lemma ThreadMoves(s: State, step: Step)
    requires Enabled(s, step) && IsThread(step)
    ensures ThreadsMoved(s, Next(s, step))
  {
    if step.Push? {
      hide PushStep, ThreadsMoved;
      PushMoves(s, step.t, step.memory);
    }
  }

  lemma SameTwice(cl: Client, cl1: Client, cl2: Client, side: bool)
    requires SameForLoop(cl, cl1, side) && SameForLoop(cl1, cl2, side)
    ensures SameForLoop(cl, cl2, side)
  {
  }

  lemma MovedTwice(s: State, m: State, s': State)
    requires ThreadsMoved(s, m) && ThreadsMoved(m, s')
    ensures ThreadsMoved(s, s')
  {
    hide SameForLoop;
    forall c | c in s.clients ensures SameForLoop(s.clients[c], s'.clients[c], !s.flag) {
      SameTwice(s.clients[c], m.clients[c], s'.clients[c], !s.flag);
    }
  }

  lemma ItsMove(s: State, step: Step, steps: seq<Step>, s': State)
    requires Run(s, steps, s')
    requires if IsThread(step) && Enabled(s, step) then steps == [step] && s' == Next(s, step) else steps == []
    ensures s' == AfterMove(s, step) && ThreadsMoved(s, s')
  {
    hide ThreadsMoved, Next, Enabled;
    if IsThread(step) && Enabled(s, step) {
      ThreadMoves(s, step);
    } else {
      SameAtOnce(s);
    }
  }

  /** What is the loop's of a client once its round is over: the batch is in flight, or has failed. */
  ghost predicate DrainedFor(cl: Client, side: bool, accepted: bool, cl': Client) {
    if cl.batch != [] then SameForLoop(cl, cl', side)
    else
      var taken := Moved(cl, side, BatchLength(cl.q.At(side), cl.marked));
      if accepted && !taken.marked then SameForLoop(taken, cl', side)
      else
        && SameForLoop(taken.(batch := [], completed := 0, marked := true, phase := cl'.phase, inPool := cl'.inPool),
                       cl', side)
        && ((cl'.phase == cl.phase && cl'.inPool == cl.inPool) || (cl'.phase == DisconnectQueued && !cl'.inPool))
  }

  /** In the middle of a drain: these clients have had their round, each with its answer from uv_write. */
  ghost predicate DrainedSome(s: State, done: set<ClientId>, accepts: ClientId -> bool, s': State) {
    && s'.flag == s.flag && s'.clients.Keys == s.clients.Keys
    && s'.sets.At(!s.flag) == s.sets.At(!s.flag) - done
    && (forall c :: c in s.clients && c in done ==> DrainedFor(s.clients[c], !s.flag, accepts(c), s'.clients[c]))
    && (forall c :: c in s.clients && c !in done ==> SameForLoop(s.clients[c], s'.clients[c], !s.flag))
  }

  lemma NoneDrained(s: State, accepts: ClientId -> bool)
    ensures DrainedSome(s, {}, accepts, s)
  {
  }

  lemma SameThenDrained(cl: Client, cl1: Client, cl2: Client, side: bool, accepted: bool)
    requires SameForLoop(cl, cl1, side) && DrainedFor(cl1, side, accepted, cl2)
    ensures DrainedFor(cl, side, accepted, cl2)
  {
    hide BatchLength;
  }

  lemma DrainedThenSame(cl: Client, cl1: Client, cl2: Client, side: bool, accepted: bool)
    requires DrainedFor(cl, side, accepted, cl1) && SameForLoop(cl1, cl2, side)
    ensures DrainedFor(cl, side, accepted, cl2)
  {
    hide BatchLength, Moved;
  }

  lemma RoundDrains(s: State, c: ClientId, accepted: bool, enough: nat -> Pair<bool>, s': State)
    requires Drained(s, c, accepted, enough, s')
    ensures c in s.clients && s'.clients == s.clients[c := s'.clients[c]]
    ensures DrainedFor(s.clients[c], !s.flag, accepted, s'.clients[c])
    ensures s'.flag == s.flag && s'.sets.At(!s.flag) == s.sets.At(!s.flag) - {c}
  {
    hide BatchLength;
  }

  lemma OneMoreDrained(s: State, done: set<ClientId>, accepts: ClientId -> bool, m: State, m': State, c: ClientId,
                       enough: nat -> Pair<bool>, s': State)
    requires DrainedSome(s, done, accepts, m) && ThreadsMoved(m, m') && Drained(m', c, accepts(c), enough, s')
    requires c !in done
    ensures DrainedSome(s, done + {c}, accepts, s')
  {
    hide Drained, DrainedFor, SameForLoop;
    RoundDrains(m', c, accepts(c), enough, s');
    forall d | d in s.clients && d in done + {c} ensures DrainedFor(s.clients[d], !s.flag, accepts(d), s'.clients[d]) {
      if d == c {
        SameTwice(s.clients[c], m.clients[c], m'.clients[c], !s.flag);
        SameThenDrained(s.clients[c], m'.clients[c], s'.clients[c], !s.flag, accepts(c));
      } else {
        DrainedThenSame(s.clients[d], m.clients[d], s'.clients[d], !s.flag, accepts(d));
      }
    }
    forall d | d in s.clients && d !in done + {c} ensures SameForLoop(s.clients[d], s'.clients[d], !s.flag) {
      SameTwice(s.clients[d], m.clients[d], s'.clients[d], !s.flag);
    }
    assert s.sets.At(!s.flag) - done - {c} == s.sets.At(!s.flag) - (done + {c});
  }

  /**
    SendResponses as a whole: the flag is flipped, the set that the threads had used is empty, and
    just its clients have had their round.
  */
  ghost predicate AllDrained(s: State, accepts: ClientId -> bool, s': State) {
    && s'.flag == !s.flag && s'.clients.Keys == s.clients.Keys && s'.sets.At(s.flag) == {}
    && (forall c :: c in s.clients && c in s.sets.At(s.flag) ==>
          DrainedFor(s.clients[c], s.flag, accepts(c), s'.clients[c]))
    && (forall c :: c in s.clients && c !in s.sets.At(s.flag) ==> SameForLoop(s.clients[c], s'.clients[c], s.flag))
  }

  lemma ToggledAndDrained(s: State, accepts: ClientId -> bool, s': State)
    requires DrainedSome(s.(flag := !s.flag, drain := Draining(s.sets.At(s.flag))), s.sets.At(s.flag), accepts, s')
    ensures AllDrained(s, accepts, s'.(drain := NotDraining))
  {
    hide DrainedFor, SameForLoop;
  }
}
