/** A write that fails marks its client, whatever threads do until the event loop is at rest again. */
module DeliveryWrites {
  import opened Delivery
  import opened DeliveryInvariant
  import opened DeliverySteps
  import opened DeliveryTheorems

  /** The result of the write whose batch the event loop is going through. */
  ghost function ResultOf(act: Act): bool
    requires InBatch(act)
  {
    if act.Remove? then act.resume.ok else act.ok
  }

  /** The client's write is over, with this result: from the first completion on a failure has marked it. */
  ghost predicate Writing(s: State, c: ClientId, ok: bool, was: bool) {
    && c in s.clients && s.act != NoAct && s.act.c == c && InBatch(s.act) && ResultOf(s.act) == ok
    && var cl := s.clients[c];
    && cl.batch != [] && cl.completed <= |cl.batch| && cl.marked == (was || (!ok && cl.completed > 0))
    && (!s.act.Complete? ==> cl.completed > 0) && (s.act.Remove? ==> cl.marked)
  }

  lemma ThreadWriting(s: State, step: Step, c: ClientId, ok: bool, was: bool)
    requires Writing(s, c, ok, was) && Enabled(s, step) && IsThread(step)
    ensures Writing(Next(s, step), c, ok, was) && Next(s, step).drain == s.drain
  {
    hide Next;
    ThreadLoss(s, step);
    ThreadKeepsBatches(s, step, c);
  }

  lemma WritingStep(s: State, step: Step, c: ClientId, ok: bool, was: bool)
    requires Writing(s, c, ok, was) && Enabled(s, step)
    ensures !step.FinishBatch? ==> Writing(Next(s, step), c, ok, was) && Next(s, step).drain == s.drain
    ensures step.FinishBatch? ==>
      && c in Next(s, step).clients && Next(s, step).clients[c].batch == [] && Next(s, step).act == NoAct
      && Next(s, step).clients[c].marked == (was || !ok) && (s.drain.NotDraining? ==> AtRest(Next(s, step)))
  {
    if IsThread(step) {
      hide Next, Writing;
      ThreadWriting(s, step, c, ok, was);
    } else {
      hide TryRemoveStep, CompleteRequeueStep;
      match step
      case TryRemove => TryRemoveShape(s);
      case CompleteRequeue(enough) => CompleteRequeueShape(s, enough);
      case _ =>
    }
  }

  lemma WritingIsBusy(s: State, c: ClientId, ok: bool, was: bool)
    requires Writing(s, c, ok, was)
    ensures !AtRest(s)
  {
  }

  lemma {:induction false} WritingRun(s: State, steps: seq<Step>, s': State, c: ClientId, ok: bool, was: bool)
    requires Writing(s, c, ok, was) && s.drain.NotDraining? && RunToRest(s, steps, s')
    ensures c in s'.clients && s'.clients[c].batch == [] && s'.clients[c].marked == (was || !ok)
    decreases |steps|
  {
    hide Next;
    WritingStep(s, steps[0], c, ok, was);
    if |steps| > 1 {
      WritingRun(Next(s, steps[0]), steps[1..], s', c, ok, was);
    }
  }

  lemma WriteDoneBegins(s: State, c: ClientId, ok: bool)
    requires Inv(s) && Enabled(s, WriteDone(c, ok))
    ensures Writing(Next(s, WriteDone(c, ok)), c, ok, s.clients[c].marked)
    ensures Next(s, WriteDone(c, ok)).drain.NotDraining?
  {
    hide GoodResponses;
    assert GoodClient(ViewOf(s, c));
  }

  /** Whatever threads do meanwhile: the callback after a write marks the client exactly if the write has failed. */
  lemma WriteMarksExactly(s: State, c: ClientId, ok: bool, steps: seq<Step>, s': State)
    requires Reachable(s) && RunToRest(s, [WriteDone(c, ok)] + steps, s')
    ensures c in s'.clients && s'.clients[c].batch == [] && s'.clients[c].marked == (s.clients[c].marked || !ok)
  {
    hide Next, Writing, Reachable, Inv;
    var all := [WriteDone(c, ok)] + steps;
    assert all[1..] == steps;
    ReachableGood(s);
    WriteDoneBegins(s, c, ok);
    WritingIsBusy(Next(s, all[0]), c, ok, s.clients[c].marked);
    WritingRun(Next(s, all[0]), steps, s', c, ok, s.clients[c].marked);
  }

  lemma {:induction false} FailureMarks(s: State, steps: seq<Step>, s': State, c: ClientId, was: bool)
    requires Writing(s, c, false, was) && Run(s, steps, s') && AtRest(s')
    ensures c in s'.clients && s'.clients[c].marked
    decreases |steps|
  {
    hide Next, Writing;
    if steps == [] {
      WritingIsBusy(s, c, false, was);
    } else {
      WritingStep(s, steps[0], c, false, was);
      if steps[0].FinishBatch? {
        NothingSentOnceMarked(Next(s, steps[0]), steps[1..], s', c);
      } else {
        FailureMarks(Next(s, steps[0]), steps[1..], s', c, was);
      }
    }
  }

  lemma RefusalBegins(s: State, c: ClientId, accepted: bool)
    requires Inv(s) && Enabled(s, DrainClient(c, accepted)) && s.clients[c].batch == []
    requires !accepted || s.clients[c].marked || MarkedByHead(s.clients[c].q.At(!s.flag))
    ensures var s' := Next(s, DrainClient(c, accepted)); c in s'.clients && Writing(s', c, false, s'.clients[c].marked)
  {
    hide GoodResponses;
    assert GoodClient(ViewOf(s, c));
    TakeBatchKeeps(s.clients[c], !s.flag);
  }

  /**
    After a failed write every run that comes to rest leaves the client marked, and so it is after a round of
    the drain in which uv_write refuses or a fatal error is at the head of the queue.
  */
  lemma FailedWriteMarks(s: State, step: Step, steps: seq<Step>, s': State)
    requires Reachable(s) && Run(s, [step] + steps, s') && AtRest(s')
    requires match step
      case WriteDone(c, ok) => !ok
      case DrainClient(c, accepted) => Enabled(s, step) && s.clients[c].batch == []
          && (!accepted || MarkedByHead(s.clients[c].q.At(!s.flag)))
      case _ => false
    ensures step.c in s'.clients && s'.clients[step.c].marked
  {
    hide Next, Writing, Reachable, Inv;
    var all := [step] + steps;
    assert all[1..] == steps;
    ReachableGood(s);
    if step.WriteDone? {
      WriteDoneBegins(s, step.c, false);
      FailureMarks(Next(s, step), steps, s', step.c, s.clients[step.c].marked);
    } else {
      RefusalBegins(s, step.c, step.accepted);
      FailureMarks(Next(s, step), steps, s', step.c, Next(s, step).clients[step.c].marked);
    }
  }
}
