/** A run that forgets a response: the drain stops short of a fatal error and uv_write refuses the batch. */
module DeliveryStranded {
  import opened Delivery
  import opened DeliveryTheorems

  const ORDINARY := Resp(0, false, 1)
  const FATAL := Resp(1, true, 1)

  /** The only client, with `queued` of the two responses pushed to its second queue. */
  function Waiting(queued: seq<Resp>): Client {
    FRESH_CLIENT.(q := Pair([], queued), pushed := Pair([], queued), responses := |queued|)
  }

  function Set(queued: seq<Resp>): set<ClientId> {
    if queued == [] then {} else {0}
  }

  /** The server between two adds. */
  function Between(queued: seq<Resp>, live: map<Resp, Rec>): State {
    State(2, 0, false, Pair({}, Set(queued)), map[0 := Waiting(queued)], live, |queued|, map[],
          NotDraining, NoAct, |queued|, |queued|, Pair({}, {}))
  }

  /** In the middle of an add by thread t. */
  function During(queued: seq<Resp>, live: map<Resp, Rec>, r: Resp, cl: Client, t: ThreadId, a: Adder): State {
    Between(queued, live).(live := live[r := Rec(0, 0, false)], nextId := r.id + 1, clients := map[0 := cl],
                           sets := Pair({}, Set(cl.q.two)), adders := map[t := a])
  }

  lemma Begins(queued: seq<Resp>, live: map<Resp, Rec>, r: Resp, t: ThreadId)
    requires r.id == |queued| && r.size == 1
    ensures var s, cl := Between(queued, live), Waiting(queued);
      var s1 := During(queued, live, r, cl, t, Adder(r, {0}, 0, Outside));
      && Enabled(s, BeginAdd(t, r.fatal, 1, {0})) && Next(s, BeginAdd(t, r.fatal, 1, {0})) == s1
      && Enabled(s1, CheckClient(t, 0))
      && Next(s1, CheckClient(t, 0)) == During(queued, live, r, cl, t, Adder(r, {}, 0, Inside(0, Checked)))
  {
    assert {0} - {0} == {};
  }

  lemma Counts(queued: seq<Resp>, live: map<Resp, Rec>, r: Resp, t: ThreadId)
    requires |queued| < 2
    ensures var s := During(queued, live, r, Waiting(queued), t, Adder(r, {}, 0, Inside(0, Checked)));
      var cl := Waiting(queued).(responses := |queued| + 1);
      var s1 := During(queued, live, r, cl, t, Adder(r, {}, 0, Inside(0, Counted)));
      Enabled(s, CountUp(t)) && Next(s, CountUp(t)) == s1
  {
  }

  lemma Pushes(queued: seq<Resp>, live: map<Resp, Rec>, r: Resp, t: ThreadId)
    requires |queued| < 2
    ensures var cl := Waiting(queued).(responses := |queued| + 1);
      var s := During(queued, live, r, cl, t, Adder(r, {}, 0, Inside(0, Counted)));
      var s1 := During(queued, live, r, Waiting(queued + [r]), t, Adder(r, {}, 1, Outside));
      Enabled(s, Push(t, true)) && Next(s, Push(t, true)) == s1
  {
    assert Set(queued) + {0} == {0} == Set(queued + [r]);
    assert {} - {0} == {};
    var cl := Waiting(queued).(responses := |queued| + 1);
    assert map[0 := cl][0 := Waiting(queued + [r])] == map[0 := Waiting(queued + [r])];
  }

  lemma Ends(queued: seq<Resp>, live: map<Resp, Rec>, r: Resp, t: ThreadId)
    requires r.id == |queued| && r.size == 1
    ensures var s := During(queued, live, r, Waiting(queued + [r]), t, Adder(r, {}, 1, Outside));
      && Enabled(s, EndAdd(t))
      && Next(s, EndAdd(t)) == Between(queued + [r], live[r := Rec(1, 0, true)])
  {
    var s := During(queued, live, r, Waiting(queued + [r]), t, Adder(r, {}, 1, Outside));
    assert s.adders - {t} == map[];
    assert s.live[r := Rec(1, 0, true)] == live[r := Rec(1, 0, true)];
  }

  /** One response added to the client, from BeginAdd to EndAdd. */
  lemma Add(queued: seq<Resp>, live: map<Resp, Rec>, r: Resp, t: ThreadId) returns (steps: seq<Step>)
    requires |queued| < 2 && r.id == |queued| && r.size == 1
    ensures Run(Between(queued, live), steps, Between(queued + [r], live[r := Rec(1, 0, true)]))
  {
    hide Run, Enabled, Next, During, Between;
    Begins(queued, live, r, t);
    Counts(queued, live, r, t);
    Pushes(queued, live, r, t);
    Ends(queued, live, r, t);
    var s := Between(queued, live);
    var s1 := Next(s, BeginAdd(t, r.fatal, 1, {0}));
    var s2 := Next(s1, CheckClient(t, 0));
    var s3 := Next(s2, CountUp(t));
    var s4 := Next(s3, Push(t, true));
    steps := [BeginAdd(t, r.fatal, 1, {0})];
    OneStep(s, steps[0]);
    Extend(s, steps, s1, CheckClient(t, 0));
    steps := steps + [CheckClient(t, 0)];
    Extend(s, steps, s2, CountUp(t));
    steps := steps + [CountUp(t)];
    Extend(s, steps, s3, Push(t, true));
    steps := steps + [Push(t, true)];
    Extend(s, steps, s4, EndAdd(t));
    steps := steps + [EndAdd(t)];
  }

  /** In the middle of the drain: what is left of the two responses, and what the event loop is doing. */
  function MidDrain(cl: Client, live: map<Resp, Rec>, todo: set<ClientId>, act: Act, lost: Pair<set<ClientId>>): State {
    State(2, 0, true, Pair({}, todo), map[0 := cl], live, 2, map[], Draining(todo), act, |live|, |live|, lost)
  }

  const CUT :=
    Client(Pair([], [FATAL]), [ORDINARY], 0, 2, 0, false, true, false, Live,
           Pair([], [ORDINARY, FATAL]), Pair([], [ORDINARY]), Pair([], [ORDINARY]))
  /** No shortage of memory. */
  const BOTH_FIT := Pair(true, true)
  const BOTH := map[ORDINARY := Rec(1, 0, true), FATAL := Rec(1, 0, true)]
  const LAST := map[FATAL := Rec(1, 0, true)]

  lemma Refused()
    ensures var s := Between([ORDINARY, FATAL], BOTH);
      && Enabled(s, Toggle)
      && Next(s, Toggle) == MidDrain(Waiting([ORDINARY, FATAL]), BOTH, {0}, NoAct, Pair({}, {}))
    ensures var s := MidDrain(Waiting([ORDINARY, FATAL]), BOTH, {0}, NoAct, Pair({}, {}));
      && Enabled(s, DrainClient(0, false))
      && Next(s, DrainClient(0, false)) == MidDrain(CUT, BOTH, {0}, Complete(0, false, true), Pair({}, {}))
  {
    var q := [ORDINARY, FATAL];
    assert |BOTH| == 2;
    assert FirstFatal(q) == 1;
    assert q[..1] == [ORDINARY] && q[1..] == [FATAL] && [] + [ORDINARY] == [ORDINARY];
    assert TakeBatch(Waiting(q), false) == CUT;
    assert map[0 := Waiting(q)][0 := CUT] == map[0 := CUT];
  }

  lemma Completed()
    ensures var s := MidDrain(CUT, BOTH, {0}, Complete(0, false, true), Pair({}, {}));
      var s' := MidDrain(CUT.(marked := true, responses := 1, completed := 1), BOTH, {0}, Requeue(0, false, true),
          Pair({}, {}));
      Enabled(s, CompleteCount) && Next(s, CompleteCount) == s'
  {
    hide TakeBatch, FirstFatal;
  }

  lemma Deleted()
    ensures
      var s := MidDrain(CUT.(marked := true, responses := 1, completed := 1), BOTH, {0}, Requeue(0, false, true),
          Pair({}, {}));
      var s' := MidDrain(CUT.(marked := true, responses := 1, completed := 1), LAST, {0}, Complete(0, false, true),
          Pair({}, {}));
      Enabled(s, CompleteRequeue(BOTH_FIT)) && Next(s, CompleteRequeue(BOTH_FIT)) == s'
  {
    hide TakeBatch, FirstFatal;
    assert |BOTH| == 2 && |LAST| == 1;
    assert BOTH - {ORDINARY} == LAST;
    assert {0} + {0} == {0} && {} - {0} == {};
  }

  lemma Forgotten()
    ensures
      var s := MidDrain(CUT.(marked := true, responses := 1, completed := 1), LAST, {0}, Complete(0, false, true),
          Pair({}, {}));
      var s' := MidDrain(CUT.(marked := true, responses := 1, batch := []), LAST, {}, NoAct, Pair({}, {0}));
      && Enabled(s, FinishBatch) && Next(s, FinishBatch) == s'
      && Enabled(s', EndDrain) && AtRest(Next(s', EndDrain)) && Next(s', EndDrain).clients == s'.clients
      && !Served(Next(s', EndDrain), 0)
  {
    hide TakeBatch, FirstFatal;
    assert {0} - {0} == {};
    assert {} + {0} == {0};
  }

  /** The drain that follows leaves the fatal error in a queue that no set refers to. */
  lemma Drained() returns (steps: seq<Step>, s': State)
    ensures Run(Between([ORDINARY, FATAL], BOTH), steps, s')
    ensures AtRest(s') && 0 in s'.clients && !Served(s', 0) && s'.clients[0].q.two == [FATAL]
  {
    hide Run, Enabled, Next, Served;
    Refused();
    Completed();
    Deleted();
    Forgotten();
    var s := Between([ORDINARY, FATAL], BOTH);
    var s1 := MidDrain(Waiting([ORDINARY, FATAL]), BOTH, {0}, NoAct, Pair({}, {}));
    var s2 := Next(s1, DrainClient(0, false));
    var s3 := Next(s2, CompleteCount);
    var s4 := Next(s3, CompleteRequeue(BOTH_FIT));
    var s5 := Next(s4, FinishBatch);
    s' := Next(s5, EndDrain);
    OneStep(s, Toggle);
    steps := [Toggle];
    Extend(s, steps, s1, DrainClient(0, false));
    steps := steps + [DrainClient(0, false)];
    Extend(s, steps, s2, CompleteCount);
    steps := steps + [CompleteCount];
    Extend(s, steps, s3, CompleteRequeue(BOTH_FIT));
    steps := steps + [CompleteRequeue(BOTH_FIT)];
    Extend(s, steps, s4, FinishBatch);
    steps := steps + [FinishBatch];
    Extend(s, steps, s5, EndDrain);
    steps := steps + [EndDrain];
  }

  /** So the exception is real: a reachable state between callbacks with a forgotten response. */
  lemma ResponseForgotten()
    ensures exists s :: Reachable(s) && AtRest(s) && 0 in s.clients && s.clients[0].q.two == [FATAL] && !Served(s, 0)
  {
    hide Run, Served;
    var s0 := Init(2, 0);
    assert Next(s0, NewClient(0, true)) == Between([], map[]);
    OneStep(s0, NewClient(0, true));
    var one := Add([], map[], ORDINARY, 0);
    var two := Add([ORDINARY], map[ORDINARY := Rec(1, 0, true)], FATAL, 1);
    var live := BOTH;
    assert [ORDINARY] + [FATAL] == [ORDINARY, FATAL];
    assert map[ORDINARY := Rec(1, 0, true)][FATAL := Rec(1, 0, true)] == live;
    var drain, s' := Drained();
    assert [] + [ORDINARY] == [ORDINARY];
    RunAppend(s0, [NewClient(0, true)], Between([], map[]), one, Between([ORDINARY], map[ORDINARY := Rec(1, 0, true)]));
    RunAppend(s0, [NewClient(0, true)] + one, Between([ORDINARY], map[ORDINARY := Rec(1, 0, true)]), two,
              Between([ORDINARY, FATAL], live));
    RunAppend(s0, [NewClient(0, true)] + one + two, Between([ORDINARY, FATAL], live), drain, s');
    assert Reachable(s');
  }
}
