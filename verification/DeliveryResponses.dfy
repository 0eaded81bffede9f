/** Every step keeps what is known of response objects, of their counts and of the server's counters. */
module DeliveryResponses {
  import opened Delivery
  import opened DeliveryInvariant
  import opened DeliverySteps

  /** Sums over sets do not depend on the order of summation. */
  lemma {:induction false} SizeOfRemove(rs: set<Resp>, overhead: nat, x: Resp)
    requires x in rs
    ensures SizeOf(rs, overhead) == x.size + overhead + SizeOf(rs - {x}, overhead)
  {
    var y :| y in rs && SizeOf(rs, overhead) == y.size + overhead + SizeOf(rs - {y}, overhead);
    if y != x {
      SizeOfRemove(rs - {y}, overhead, x);
      SizeOfRemove(rs - {x}, overhead, y);
      assert rs - {y} - {x} == rs - {x} - {y};
    }
  }

  /** Steps after which the same clients hold the same responses. */
  ghost predicate SameEntries(s: State, s': State) {
    && s'.live == s.live && s'.nextId == s.nextId && s'.inQueue == s.inQueue && s'.memory == s.memory
    && s'.overhead == s.overhead
    && s.clients.Keys <= s'.clients.Keys
    && (forall c :: c in s'.clients ==>
          Entries(s'.clients[c]) == if c in s.clients then Entries(s.clients[c]) else multiset{})
    && (forall c, r :: c in s.clients && r in s.clients[c].q.At(s.flag) && Unqueued(s, r) ==>
        r in s'.clients[c].q.At(s'.flag))
    && (forall r :: UnderWay(s', r) <==> UnderWay(s, r))
    && (s'.act == s.act || forall r :: UnderWay(s, r) ==> s'.act != NoAct && s.act.c == s'.act.c)
  }

  ghost predicate SameAdders(s: State, s': State) {
    && s'.adders.Keys == s.adders.Keys
    && (forall t :: t in s.adders ==>
          && s'.adders[t].resp == s.adders[t].resp && s'.adders[t].added == s.adders[t].added
          && s'.adders[t].todo <= s.adders[t].todo
          && (s'.adders[t].guard.Inside? ==>
                if s.adders[t].guard.Inside? then s'.adders[t].guard.client == s.adders[t].guard.client
                else s'.adders[t].guard.client in s.adders[t].todo - s'.adders[t].todo))
  }

  lemma SameHolders(s: State, s': State, r: Resp)
    requires SameEntries(s, s')
    ensures Holders(s'.clients, r) == Holders(s.clients, r)
  {
    hide Entries;
  }

  lemma FrameAdders(s: State, s': State)
    requires GoodAdders(s) && SameEntries(s, s') && SameAdders(s, s')
    ensures GoodAdders(s')
  {
    forall t | t in s'.adders ensures GoodAdder(s', t) {
      assert GoodAdder(s, t);
      SameHolders(s, s', s.adders[t].resp);
      hide SameEntries, Holders;
    }
  }

  lemma FrameRecords(s: State, s': State, r: Resp)
    requires r in s.live && GoodResponse(s, r) && SameEntries(s, s') && SameAdders(s, s')
    ensures GoodResponse(s', r)
  {
    hide Entries, UnderWay;
    SameHolders(s, s', r);
  }

  lemma FrameUnderWay(s: State, s': State)
    requires GoodUnderWay(s) && SameEntries(s, s')
    ensures GoodUnderWay(s')
  {
    hide Entries, Holders;
    forall r | UnderWay(s', r) ensures r in s'.live && s'.live[r].queued && s'.act.c !in Holders(s'.clients, r) {
      SameHolders(s, s', r);
    }
  }

  lemma FrameResponses(s: State, s': State)
    requires GoodResponses(s) && SameEntries(s, s') && SameAdders(s, s')
    ensures GoodResponses(s')
  {
    hide Entries, GoodResponse, GoodAdders, GoodUnderWay, SizeOf;
    FrameAdders(s, s');
    FrameUnderWay(s, s');
    forall r | r in s'.live ensures GoodResponse(s', r) { FrameRecords(s, s', r); }
    forall c | c in s'.clients ensures GoodEntries(s', c) {
      if c in s.clients {
        assert GoodEntries(s, c);
        forall r | r in Entries(s'.clients[c]) && !s'.live[r].queued ensures r in s'.clients[c].q.At(s'.flag) {
          assert r in s.clients[c].q.At(s.flag) && Unqueued(s, r);
        }
      }
    }
  }

  // ----- steps after which the same clients hold the same responses -----

  ghost predicate SameQueues(a: Client, b: Client) {
    a.q == b.q && a.batch == b.batch && a.completed == b.completed
  }

  /** The event loop changes one client without changing what it holds, and completes nothing. */
  lemma OneClientResponses(s: State, s': State, c: ClientId)
    requires GoodResponses(s)
    requires s' == s.(clients := s'.clients, act := s'.act, sets := s'.sets, drain := s'.drain, lost := s'.lost)
    requires c in s'.clients && s'.clients == s.clients[c := s'.clients[c]]
    requires Entries(s'.clients[c]) == if c in s.clients then Entries(s.clients[c]) else multiset{}
    requires c in s.clients ==> s'.clients[c].q.At(s.flag) == s.clients[c].q.At(s.flag)
    requires !s.act.Requeue? && !(s.act.Remove? && s.act.resume.Item?)
    requires !s'.act.Requeue? && !(s'.act.Remove? && s'.act.resume.Item?)
    ensures GoodResponses(s')
  {
    hide GoodResponses, Entries;
    FrameResponses(s, s');
  }

  /** While no thread is inside AddResponseToQueues every reference count is final. */
  lemma AllQueued(s: State)
    requires GoodResponses(s) && s.adders == map[]
    ensures forall r :: !Unqueued(s, r)
  {
    hide Holders, UnderWay, GoodEntries, GoodUnderWay, GoodCounters;
  }

  lemma FlagResponses(s: State, s': State)
    requires GoodResponses(s) && forall r :: !Unqueued(s, r)
    requires s' == s.(flag := s'.flag, drain := s'.drain)
    ensures GoodResponses(s')
  {
    hide GoodResponses, Entries, Unqueued;
    FrameResponses(s, s');
  }

  lemma ToggleResponses(s: State)
    requires GoodResponses(s) && Enabled(s, Toggle)
    ensures GoodResponses(ToggleStep(s))
  {
    hide GoodResponses, Unqueued;
    AllQueued(s);
    FlagResponses(s, ToggleStep(s));
  }

  lemma TakeEntries(cl: Client, side: bool)
    requires cl.batch == [] && cl.completed == 0
    ensures Entries(TakeBatch(cl, side)) == Entries(cl)
    ensures TakeBatch(cl, side).q.At(!side) == cl.q.At(!side)
  {
    var q := cl.q.At(side);
    var n := BatchLength(q, cl.marked);
    assert q == q[..n] + q[n..];
    assert q[..n][0..] == q[..n];
  }

  lemma DrainResponses(s: State, c: ClientId, accepted: bool)
    requires GoodResponses(s) && Enabled(s, DrainClient(c, accepted)) && s.clients[c].completed == 0
    ensures GoodResponses(DrainClientStep(s, c, accepted))
  {
    hide GoodResponses, Entries, TakeBatch;
    var s' := DrainClientStep(s, c, accepted);
    if s.clients[c].batch == [] {
      TakeEntries(s.clients[c], !s.flag);
      assert s'.clients == s.clients[c := TakeBatch(s.clients[c], !s.flag)];
    } else {
      assert s.clients == s.clients[c := s.clients[c]];
    }
    OneClientResponses(s, s', c);
  }

  lemma FinishBatchResponses(s: State)
    requires GoodResponses(s) && Enabled(s, FinishBatch)
    ensures GoodResponses(FinishBatchStep(s))
  {
    hide GoodResponses;
    assert s.clients[s.act.c].batch[s.clients[s.act.c].completed..] == [];
    OneClientResponses(s, FinishBatchStep(s), s.act.c);
  }

  lemma GuardResponses(s: State, s': State, t: ThreadId)
    requires GoodResponses(s) && t in s.adders && t in s'.adders
    requires s' == s.(clients := s'.clients, adders := s.adders[t := s'.adders[t]])
    requires s'.clients.Keys == s.clients.Keys && forall c :: c in s.clients ==> SameQueues(s.clients[c], s'.clients[c])
    requires SameAdders(s, s')
    ensures GoodResponses(s')
  {
    hide GoodResponses;
    FrameResponses(s, s');
  }

  lemma CheckClientResponses(s: State, t: ThreadId, c: ClientId)
    requires GoodResponses(s) && Enabled(s, CheckClient(t, c))
    ensures GoodResponses(CheckClientStep(s, t, c))
  {
    hide GoodResponses;
    GuardResponses(s, CheckClientStep(s, t, c), t);
  }

  lemma CountUpResponses(s: State, t: ThreadId)
    requires GoodResponses(s) && Enabled(s, CountUp(t))
    ensures GoodResponses(CountUpStep(s, t))
  {
    hide GoodResponses;
    GuardResponses(s, CountUpStep(s, t), t);
  }

  lemma GiveUpResponses(s: State, t: ThreadId)
    requires GoodResponses(s) && Enabled(s, GiveUp(t))
    ensures GoodResponses(GiveUpStep(s, t))
  {
    hide GoodResponses;
    GuardResponses(s, GiveUpStep(s, t), t);
  }

  lemma PushFailsResponses(s: State, t: ThreadId)
    requires GoodResponses(s) && InStage(s, t, Counted)
    ensures GoodResponses(s.(adders := s.adders[t := s.adders[t].(guard := Inside(s.adders[t].guard.client, Failed))]))
  {
    hide GoodResponses;
    GuardResponses(s, s.(adders := s.adders[t := s.adders[t].(guard := Inside(s.adders[t].guard.client, Failed))]), t);
  }

  // ----- a response changes hands -----

  lemma HoldersUpdate(clients: map<ClientId, Client>, c: ClientId, cl: Client, r: Resp)
    requires c in clients
    ensures r in Entries(cl) ==> Holders(clients[c := cl], r) == Holders(clients, r) + {c}
    ensures r !in Entries(cl) ==> Holders(clients[c := cl], r) == Holders(clients, r) - {c}
    ensures c in Holders(clients, r) <==> r in Entries(clients[c])
  {
    hide Entries;
  }

  lemma HoldersSame(clients: map<ClientId, Client>, c: ClientId, cl: Client, r: Resp)
    requires c in clients && (r in Entries(cl) <==> r in Entries(clients[c]))
    ensures Holders(clients[c := cl], r) == Holders(clients, r)
  {
    hide Entries;
    HoldersUpdate(clients, c, cl, r);
  }

  lemma NextEntry(cl: Client, cl': Client)
    requires cl.completed < |cl.batch|
    requires cl'.q == cl.q && cl'.batch == cl.batch && cl'.completed == cl.completed + 1
    ensures Entries(cl) == Entries(cl') + multiset{cl.batch[cl.completed]}
  {
    assert cl.batch[cl.completed..] == [cl.batch[cl.completed]] + cl.batch[cl.completed + 1..];
  }

  /** One entry of client c leaves the batch; its completion is now under way. */
  ghost predicate StartsCompletion(s: State, s': State, c: ClientId, r: Resp) {
    && c in s.clients && c in s'.clients
    && s' == s.(clients := s.clients[c := s'.clients[c]], act := s'.act)
    && Entries(s.clients[c]) == Entries(s'.clients[c]) + multiset{r}
    && s'.clients[c].q == s.clients[c].q
    && (forall x :: !UnderWay(s, x))
    && (forall x :: UnderWay(s', x) <==> x == r)
    && s'.act != NoAct && s'.act.c == c
  }

  lemma CompletionQueued(s: State, s': State, c: ClientId, r: Resp)
    requires GoodEntries.requires(s, c) && GoodEntries(s, c) && StartsCompletion(s, s', c, r)
    ensures r in s.live && s.live[r].queued && r !in Entries(s'.clients[c]) && GoodEntries(s', c)
  {
    var cl := s.clients[c];
    assert r in Entries(cl) && Entries(cl)[r] == 1;
    hide Entries;
    forall x | x in Entries(s'.clients[c]) ensures x in Entries(cl) && Entries(s'.clients[c])[x] == 1 { }
  }

  lemma CompletionHolders(s: State, s': State, c: ClientId, r: Resp, x: Resp)
    requires StartsCompletion(s, s', c, r) && r in Entries(s.clients[c]) && r !in Entries(s'.clients[c])
    ensures if x == r then Holders(s'.clients, x) == Holders(s.clients, x) - {c} && c in Holders(s.clients, x)
            else Holders(s'.clients, x) == Holders(s.clients, x)
  {
    hide Entries, UnderWay;
    HoldersUpdate(s.clients, c, s'.clients[c], x);
    if x != r { HoldersSame(s.clients, c, s'.clients[c], x); }
  }

  lemma CompletionAdders(s: State, s': State, c: ClientId, r: Resp)
    requires GoodAdders(s) && StartsCompletion(s, s', c, r) && r in s.live && s.live[r].queued
    requires r in Entries(s.clients[c]) && r !in Entries(s'.clients[c])
    ensures GoodAdders(s')
  {
    hide Entries, UnderWay, Holders;
    forall t | t in s'.adders ensures GoodAdder(s', t) {
      assert GoodAdder(s, t);
      CompletionHolders(s, s', c, r, s.adders[t].resp);
    }
  }

  lemma CompletionEntries(s: State, s': State, c: ClientId, r: Resp, d: ClientId)
    requires StartsCompletion(s, s', c, r) && d in s.clients && d != c && GoodEntries(s, d)
    ensures GoodEntries(s', d)
  {
    hide Entries, UnderWay;
  }

  lemma CompletionResponses(s: State, s': State, c: ClientId, r: Resp)
    requires GoodResponses(s) && StartsCompletion(s, s', c, r)
    ensures GoodResponses(s')
  {
    hide Entries, SizeOf, UnderWay, GoodAdders, Holders, Queued;
    assert GoodEntries(s, c);
    CompletionQueued(s, s', c, r);
    CompletionAdders(s, s', c, r);
    forall x | x in s'.live ensures GoodResponse(s', x) {
      assert GoodResponse(s, x);
      CompletionHolders(s, s', c, r, x);
    }
    CompletionHolders(s, s', c, r, r);
    hide GoodEntries;
    forall d | d in s'.clients ensures GoodEntries(s', d) {
      if d != c { CompletionEntries(s, s', c, r, d); }
    }
  }

  lemma CompleteCountResponses(s: State)
    requires GoodResponses(s) && Enabled(s, CompleteCount)
    ensures GoodResponses(CompleteCountStep(s))
  {
    hide GoodResponses, Entries;
    var c, s' := s.act.c, CompleteCountStep(s);
    var cl := s.clients[c];
    NextEntry(cl, s'.clients[c]);
    CompletionResponses(s, s', c, cl.batch[cl.completed]);
  }

  // ----- a completed response is settled -----

  /** The response under way is done: it counts as sent, and the last one deletes it. */
  ghost predicate Settles(s: State, s': State, r: Resp) {
    && UnderWay(s, r) && (forall x :: UnderWay(s, x) ==> x == r) && (forall x :: !UnderWay(s', x))
    && r in s.live
    && if s.live[r].sent + 1 == s.live[r].refs
       then s' == s.(act := s'.act, live := s.live - {r}, inQueue := s.inQueue - 1,
           memory := s.memory - (r.size + s.overhead))
       else s' == s.(act := s'.act, live := s.live[r := s.live[r].(sent := s.live[r].sent + 1)])
  }

  lemma DeletedQueued(live: map<Resp, Rec>, r: Resp)
    requires r in live && live[r].queued
    ensures Queued(live - {r}) == Queued(live) - {r} && r in Queued(live)
  {
  }

  lemma SettleCounters(s: State, s': State, r: Resp)
    requires GoodCounters(s) && Settles(s, s', r) && s.live[r].queued
    ensures GoodCounters(s')
  {
    if s.live[r].sent + 1 == s.live[r].refs {
      DeletedQueued(s.live, r);
      SizeOfRemove(Queued(s.live), s.overhead, r);
    } else {
      assert Queued(s'.live) == Queued(s.live);
    }
  }

  /** The sent count reaches the reference count exactly when nobody holds the response any more. */
  lemma DeletedWhenUnheld(s: State, s': State, r: Resp)
    requires GoodResponses(s) && Settles(s, s', r)
    ensures s.live[r].queued
    ensures r !in s'.live <==> Holders(s.clients, r) == {}
  {
    hide Entries, SizeOf;
    assert GoodResponse(s, r);
  }

  lemma SettleEntries(s: State, s': State, r: Resp, c: ClientId)
    requires c in s.clients && GoodEntries(s, c) && Settles(s, s', r) && s.live[r].queued
    requires s.live[r].sent + 1 == s.live[r].refs ==> c !in Holders(s.clients, r)
    ensures GoodEntries(s', c)
  {
    hide Entries, UnderWay;
  }

  lemma SettleAdders(s: State, s': State, r: Resp)
    requires GoodAdders(s) && Settles(s, s', r) && s.live[r].queued
    ensures GoodAdders(s')
  {
    hide Holders, UnderWay;
    forall t | t in s'.adders ensures GoodAdder(s', t) { assert GoodAdder(s, t); }
  }

  lemma SettleRecord(s: State, s': State, r: Resp, x: Resp)
    requires x in s'.live && x in s.live && GoodResponse(s, x) && Settles(s, s', r) && s.live[r].queued
    ensures GoodResponse(s', x)
  {
    hide Holders;
  }

  lemma SettleResponses(s: State, s': State, r: Resp)
    requires GoodResponses(s) && Settles(s, s', r)
    ensures GoodResponses(s')
  {
    hide GoodEntries, GoodResponse, Holders, GoodCounters, GoodAdders, UnderWay;
    DeletedWhenUnheld(s, s', r);
    SettleCounters(s, s', r);
    SettleAdders(s, s', r);
    forall c | c in s'.clients ensures GoodEntries(s', c) { SettleEntries(s, s', r, c); }
    forall x | x in s'.live ensures GoodResponse(s', x) { SettleRecord(s, s', r, x); }
  }

  // ----- threads -----

  lemma UnknownUnheld(s: State, r: Resp)
    requires r !in s.live && forall c :: c in s.clients ==> GoodEntries(s, c)
    ensures Holders(s.clients, r) == {}
  {
    hide Entries;
  }

  lemma BeginAddAdders(s: State, t: ThreadId, r: Resp, todo: set<ClientId>, s': State)
    requires GoodAdders(s) && r !in s.live && Holders(s.clients, r) == {} && t !in s.adders
    requires s' == s.(live := s.live[r := Rec(0, 0, false)], nextId := s'.nextId,
        adders := s.adders[t := Adder(r, todo, 0, Outside)])
    ensures GoodAdders(s')
  {
    hide Holders;
    forall u | u in s'.adders ensures GoodAdder(s', u) {
      if u != t { assert GoodAdder(s, u); }
    }
    forall u, w | u in s'.adders && w in s'.adders && u != w ensures s'.adders[u].resp != s'.adders[w].resp {
      if u != t { assert GoodAdder(s, u); }
      if w != t { assert GoodAdder(s, w); }
    }
  }

  lemma BeginAddRecord(s: State, t: ThreadId, r: Resp, todo: set<ClientId>, s': State, x: Resp)
    requires x in s.live && GoodResponse(s, x) && r !in s.live && t !in s.adders && r.id == s.nextId
    requires s' == s.(live := s.live[r := Rec(0, 0, false)], nextId := s.nextId + 1,
        adders := s.adders[t := Adder(r, todo, 0, Outside)])
    ensures GoodResponse(s', x)
  {
    hide Holders;
    if !s.live[x].queued {
      var u :| u in s.adders && s.adders[u].resp == x;
      assert u in s'.adders && s'.adders[u].resp == x;
    }
    assert UnderWay(s', x) <==> UnderWay(s, x);
  }

  lemma OldId(s: State, r: Resp)
    requires r in s.live && GoodResponse(s, r)
    ensures r.id < s.nextId
  {
  }

  lemma NewRecord(s: State, t: ThreadId, r: Resp)
    requires r in s.live && !s.live[r].queued && t in s.adders && s.adders[t].resp == r && r.id < s.nextId
    ensures GoodResponse(s, r)
  {
    hide Holders, UnderWay;
  }

  lemma NewLiveEntries(s: State, s': State, c: ClientId, r: Resp)
    requires c in s.clients && GoodEntries(s, c) && r !in s.live
    requires s'.clients == s.clients && s'.flag == s.flag && r in s'.live && s'.live - {r} == s.live
    ensures GoodEntries(s', c)
  {
    hide Entries;
    assert forall x :: x in s.live ==> x in s'.live - {r};
  }

  lemma BeginAddResponses(s: State, t: ThreadId, fatal: bool, size: nat, todo: set<ClientId>)
    requires GoodResponses(s) && Enabled(s, BeginAdd(t, fatal, size, todo))
    ensures GoodResponses(BeginAddStep(s, t, fatal, size, todo))
  {
    hide GoodEntries, GoodResponse, GoodAdders, Holders, SizeOf;
    var s', r := BeginAddStep(s, t, fatal, size, todo), Resp(s.nextId, fatal, size);
    assert r !in s.live by { if r in s.live { OldId(s, r); } }
    UnknownUnheld(s, r);
    BeginAddAdders(s, t, r, todo, s');
    assert Queued(s'.live) == Queued(s.live);
    forall x | x in s'.live ensures GoodResponse(s', x) {
      if x == r { NewRecord(s', t, r); } else { BeginAddRecord(s, t, r, todo, s', x); }
    }
    forall c | c in s'.clients ensures GoodEntries(s', c) { NewLiveEntries(s, s', c, r); }
    assert forall x :: UnderWay(s', x) <==> UnderWay(s, x);
  }

  /** Client c gets an entry for the response that thread t is adding. */
  ghost predicate Pushes(s: State, s': State, t: ThreadId, c: ClientId) {
    && t in s.adders && t in s'.adders && c in s.clients && c in s'.clients
    && s.adders[t].guard.Inside? && s.adders[t].guard.client == c
    && s' == s.(clients := s.clients[c := s'.clients[c]], sets := s'.sets, lost := s'.lost,
                adders := s.adders[t := s'.adders[t]])
    && s'.adders[t] == s.adders[t].(added := s.adders[t].added + 1, guard := Outside)
    && Entries(s'.clients[c]) == Entries(s.clients[c]) + multiset{s.adders[t].resp}
    && (forall x :: x in s'.clients[c].q.At(s.flag) <==> x == s.adders[t].resp || x in s.clients[c].q.At(s.flag))
    && (forall x :: UnderWay(s', x) <==> UnderWay(s, x))
  }

  lemma PushHolders(s: State, s': State, t: ThreadId, c: ClientId, x: Resp)
    requires Pushes(s, s', t, c)
    ensures Holders(s'.clients, x) == if x == s.adders[t].resp then Holders(s.clients, x) + {c}
        else Holders(s.clients, x)
  {
    hide Entries, UnderWay;
    HoldersUpdate(s.clients, c, s'.clients[c], x);
    if x != s.adders[t].resp { HoldersSame(s.clients, c, s'.clients[c], x); }
  }

  lemma PushAdders(s: State, s': State, t: ThreadId, c: ClientId)
    requires GoodAdders(s) && Pushes(s, s', t, c)
    ensures GoodAdders(s')
  {
    hide Entries, UnderWay, Holders;
    assert GoodAdder(s, t);
    forall u | u in s'.adders ensures GoodAdder(s', u) {
      assert GoodAdder(s, u);
      PushHolders(s, s', t, c, s.adders[u].resp);
    }
  }

  lemma PushRecord(s: State, s': State, t: ThreadId, c: ClientId, x: Resp)
    requires x in s.live && GoodResponse(s, x) && GoodAdder.requires(s, t) && GoodAdder(s, t) && Pushes(s, s', t, c)
    ensures GoodResponse(s', x)
  {
    hide Entries, UnderWay, Holders;
    PushHolders(s, s', t, c, x);
    if !s.live[x].queued {
      var u :| u in s.adders && s.adders[u].resp == x;
      assert u in s'.adders && s'.adders[u].resp == x;
    }
  }

  lemma PushEntries(s: State, s': State, t: ThreadId, c: ClientId, d: ClientId)
    requires d in s.clients && GoodEntries(s, d) && GoodAdder.requires(s, t) && GoodAdder(s, t) && Pushes(s, s', t, c)
    ensures GoodEntries(s', d)
  {
    HoldersUpdate(s.clients, c, s.clients[c], s.adders[t].resp);
    hide Entries, UnderWay, Holders;
  }

  lemma PushUnderWay(s: State, s': State, t: ThreadId, c: ClientId)
    requires GoodUnderWay(s) && GoodAdder.requires(s, t) && GoodAdder(s, t) && Pushes(s, s', t, c)
    ensures GoodUnderWay(s')
  {
    hide Entries, Holders;
    forall x | UnderWay(s', x) ensures s'.live[x].queued && s'.act.c !in Holders(s'.clients, x) {
      PushHolders(s, s', t, c, x);
    }
  }

  lemma PushResponses(s: State, s': State, t: ThreadId, c: ClientId)
    requires GoodResponses(s) && Pushes(s, s', t, c)
    ensures GoodResponses(s')
  {
    hide Entries, UnderWay, Holders, GoodEntries, GoodResponse, SizeOf, Queued;
    PushAdders(s, s', t, c);
    assert GoodAdder(s, t);
    hide GoodAdders, GoodAdder;
    forall x | x in s'.live ensures GoodResponse(s', x) { PushRecord(s, s', t, c, x); }
    forall d | d in s'.clients ensures GoodEntries(s', d) { PushEntries(s, s', t, c, d); }
    PushUnderWay(s, s', t, c);
  }

  lemma PushedEntry(cl: Client, cl': Client, side: bool, r: Resp)
    requires cl'.q == cl.q.With(side, cl.q.At(side) + [r]) && cl'.batch == cl.batch && cl'.completed == cl.completed
    ensures Entries(cl') == Entries(cl) + multiset{r}
  {
  }

  lemma PushStepResponses(s: State, t: ThreadId, memory: bool)
    requires GoodResponses(s) && Enabled(s, Push(t, memory))
    ensures GoodResponses(PushStep(s, t, memory))
  {
    hide GoodResponses, Entries;
    var s', c := PushStep(s, t, memory), s.adders[t].guard.client;
    if s'.adders[t].guard.Inside? {
      PushFailsResponses(s, t);
    } else {
      PushedEntry(s.clients[c], s'.clients[c], s.flag, s.adders[t].resp);
      PushResponses(s, s', t, c);
    }
  }

  // ----- the end of AddResponseToQueues -----

  /** Thread t leaves; its response is deleted or becomes final. */
  ghost predicate Ends(s: State, s': State, t: ThreadId) {
    && t in s.adders && s.adders[t].resp in s.live
    && var r := s.adders[t].resp;
       var a := s.adders[t];
       if a.added == 0 then s' == s.(adders := s.adders - {t}, live := s.live - {r})
       else s' == s.(adders := s.adders - {t}, live := s.live[r := Rec(a.added, 0, true)],
                     inQueue := s.inQueue + 1, memory := s.memory + (r.size + s.overhead))
  }

  lemma EndAddAdders(s: State, s': State, t: ThreadId)
    requires GoodAdders(s) && Ends(s, s', t)
    ensures GoodAdders(s')
  {
    hide Holders;
    forall u | u in s'.adders ensures GoodAdder(s', u) { assert GoodAdder(s, u); }
  }

  lemma EndAddRecord(s: State, s': State, t: ThreadId, x: Resp)
    requires x in s.live && x in s'.live && GoodResponse(s, x) && Ends(s, s', t) && GoodAdder(s, t)
    requires !UnderWay(s, s.adders[t].resp)
    ensures GoodResponse(s', x)
  {
    hide Holders;
    if x != s.adders[t].resp && !s.live[x].queued {
      var u :| u in s.adders && s.adders[u].resp == x;
      assert u in s'.adders && s'.adders[u].resp == x;
    }
  }

  lemma EndAddEntries(s: State, s': State, t: ThreadId, c: ClientId)
    requires c in s.clients && GoodEntries(s, c) && Ends(s, s', t) && GoodAdder(s, t)
    ensures GoodEntries(s', c)
  {
    hide Entries;
    assert s.adders[t].added == 0 ==> c !in Holders(s.clients, s.adders[t].resp);
  }

  lemma EndAddCounters(s: State, s': State, t: ThreadId)
    requires GoodCounters(s) && Ends(s, s', t) && GoodAdder(s, t)
    ensures GoodCounters(s')
  {
    hide Holders;
    var r := s.adders[t].resp;
    if s.adders[t].added == 0 {
      assert Queued(s'.live) == Queued(s.live);
    } else {
      assert Queued(s'.live) == Queued(s.live) + {r} && r !in Queued(s.live);
      assert Queued(s'.live) - {r} == Queued(s.live);
      SizeOfRemove(Queued(s'.live), s.overhead, r);
    }
  }

  lemma EndAddUnderWay(s: State, s': State, t: ThreadId)
    requires GoodUnderWay(s) && Ends(s, s', t) && GoodAdder(s, t)
    ensures GoodUnderWay(s') && !UnderWay(s, s.adders[t].resp)
  {
    hide Holders;
  }

  lemma EndAddKeeps(s: State, s': State, t: ThreadId)
    requires GoodResponses(s) && Ends(s, s', t) && GoodAdder(s, t)
    ensures GoodResponses(s')
  {
    hide GoodEntries, GoodResponse, Holders, GoodCounters, GoodAdder, GoodAdders, GoodUnderWay, UnderWay;
    EndAddAdders(s, s', t);
    EndAddCounters(s, s', t);
    EndAddUnderWay(s, s', t);
    forall x | x in s'.live ensures GoodResponse(s', x) { EndAddRecord(s, s', t, x); }
    forall c | c in s'.clients ensures GoodEntries(s', c) { EndAddEntries(s, s', t, c); }
  }

  lemma AdderFacts(s: State, t: ThreadId)
    requires GoodResponses(s) && t in s.adders
    ensures GoodAdder(s, t) && s.adders[t].resp in s.live
  {
  }

  lemma EndAddResponses(s: State, t: ThreadId)
    requires GoodResponses(s) && Enabled(s, EndAdd(t))
    ensures GoodResponses(EndAddStep(s, t))
  {
    hide GoodResponses, GoodAdder;
    AdderFacts(s, t);
    EndAddKeeps(s, EndAddStep(s, t), t);
  }

  // ----- every step -----

  lemma UnderWayFacts(s: State, r: Resp)
    requires GoodResponses(s) && UnderWay(s, r)
    ensures r in s.live && s.live[r].queued
  {
  }

  lemma SettleStepResponses(s: State, c: ClientId, ok: bool, cut: bool)
    requires GoodResponses(s) && c in s.clients && 0 < s.clients[c].completed <= |s.clients[c].batch|
    requires s.act == Requeue(c, ok, cut) || s.act == Remove(c, Item(ok, cut))
    ensures GoodResponses(Settle(s, c, ok, cut))
  {
    hide GoodResponses;
    var r := s.clients[c].batch[s.clients[c].completed - 1];
    UnderWayFacts(s, r);
    SettleResponses(s, Settle(s, c, ok, cut), r);
  }

  /** Nothing but receiver sets, flags of clients and the event loop's place changes. */
  lemma MovesOn(s: State, s': State)
    requires GoodResponses(s)
    requires s' == s.(sets := s'.sets, lost := s'.lost, clients := s'.clients, act := s'.act)
    requires s'.clients.Keys == s.clients.Keys && forall c :: c in s.clients ==> SameQueues(s.clients[c], s'.clients[c])
    requires forall r :: UnderWay(s', r) <==> UnderWay(s, r)
    requires s'.act == s.act || (s'.act != NoAct && s.act != NoAct && s'.act.c == s.act.c)
    ensures GoodResponses(s')
  {
    hide GoodResponses;
    FrameResponses(s, s');
  }

  lemma CompleteRequeueResponses(s: State, enough: Pair<bool>)
    requires GoodResponses(s) && Enabled(s, CompleteRequeue(enough))
    ensures GoodResponses(CompleteRequeueStep(s, enough))
  {
    hide GoodResponses, Settle, Entries, AddToSets, LeftBehind;
    var c := s.act.c;
    var s1 := JoinAgain(s, c, enough);
    MovesOn(s, s1);
    if Disconnects(s.clients[c]) {
      assert s1.clients == s1.clients[c := s1.clients[c]];
      MovesOn(s1, s1.(act := Remove(c, Item(s.act.ok, s.act.cut))));
    } else {
      SettleStepResponses(s1, c, s.act.ok, s.act.cut);
    }
  }

  lemma ReturnResponses(s: State)
    requires GoodResponses(s) && s.act.Remove? && s.act.resume.Return?
    ensures GoodResponses(s.(act := NoAct))
  {
    hide GoodResponses, Entries;
    FrameResponses(s, s.(act := NoAct));
  }

  lemma TryRemoveResponses(s: State)
    requires GoodResponses(s) && Enabled(s, TryRemove)
    ensures GoodResponses(TryRemoveStep(s))
  {
    hide GoodResponses, Settle, Entries;
    var c := s.act.c;
    var cl := s.clients[c];
    var s1 := if !cl.inPool || (cl.requests == 0 && cl.responses == 0)
              then Put(s, c, cl.(inPool := false, phase := DisconnectQueued)) else s;
    MovesOn(s, s1);
    match s.act.resume
    case Return => ReturnResponses(s1);
    case Item(ok, cut) => SettleStepResponses(s1, c, ok, cut);
  }

  lemma FreshEntries(cl: Client)
    requires SameQueues(cl, FRESH_CLIENT)
    ensures Entries(cl) == multiset{}
  {
  }

  lemma RestFacts(s: State, c: ClientId)
    requires GoodClients(s) && c in s.clients && s.act.NoAct?
    ensures s.clients[c].completed == 0
  {
    assert GoodClient(ViewOf(s, c));
  }

  /** A callback about one client that leaves its queues and batch alone. */
  lemma CallbackResponses(s: State, s': State, c: ClientId)
    requires GoodResponses(s) && AtRest(s) && c in s.clients && c in s'.clients
    requires s' == s.(clients := s.clients[c := s'.clients[c]], act := s'.act)
    requires SameQueues(s'.clients[c], s.clients[c])
    requires s'.act == NoAct || s'.act == Remove(c, Return)
    ensures GoodResponses(s')
  {
    hide GoodResponses;
    OneClientResponses(s, s', c);
  }

  predicate IsCallback(step: Step) {
    || step.NewClient? || step.RequestArrives? || step.RequestDone? || step.RequestDeferred?
    || step.Disconnect? || step.DisconnectProcessed? || step.ClientClosed?
  }

  lemma CallbacksKept(s: State, step: Step)
    requires GoodResponses(s) && Enabled(s, step) && IsCallback(step)
    ensures GoodResponses(Next(s, step))
  {
    hide GoodResponses, Entries;
    var s' := Next(s, step);
    if step.NewClient? {
      FreshEntries(s'.clients[step.c]);
      OneClientResponses(s, s', step.c);
    } else {
      CallbackResponses(s, s', step.c);
    }
  }

  lemma FlagOrActResponses(s: State, s': State)
    requires GoodResponses(s) && s.act.NoAct? && (s'.act.NoAct? || s'.act.Complete?)
    requires s' == s.(drain := s'.drain, act := s'.act)
    ensures GoodResponses(s')
  {
    hide GoodResponses, Entries;
    FrameResponses(s, s');
  }

  lemma ResponsesKept(s: State, step: Step)
    requires GoodClients(s) && GoodResponses(s) && Enabled(s, step)
    ensures GoodResponses(Next(s, step))
  {
    hide GoodResponses, GoodClients, Settle, PushStep, TakeBatch;
    match step
    case Toggle => ToggleResponses(s);
    case DrainClient(c, accepted) => RestFacts(s, c); DrainResponses(s, c, accepted);
    case EndDrain => FlagOrActResponses(s, s.(drain := NotDraining));
    case WriteDone(c, ok) => FlagOrActResponses(s, s.(act := Complete(c, ok, false)));
    case CompleteCount => CompleteCountResponses(s);
    case CompleteRequeue(enough) => CompleteRequeueResponses(s, enough);
    case TryRemove => TryRemoveResponses(s);
    case FinishBatch => FinishBatchResponses(s);
    case BeginAdd(t, fatal, size, todo) => BeginAddResponses(s, t, fatal, size, todo);
    case CheckClient(t, c) => CheckClientResponses(s, t, c);
    case CountUp(t) => CountUpResponses(s, t);
    case Push(t, memory) => PushStepResponses(s, t, memory);
    case GiveUp(t) => GiveUpResponses(s, t);
    case EndAdd(t) => EndAddResponses(s, t);
    case _ => CallbacksKept(s, step);
  }
}
