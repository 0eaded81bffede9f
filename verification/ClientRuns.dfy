/**
  A client's reader as a machine on values: what alloc_buffer, on_read and the end of a request do with
  the bytes, the length and the version, whatever buffer they are in.  The source's assertions that can
  fail are part of the machine, because a failing assertion ends the server.
*/
module ClientRuns {
  import opened Wire
  import opened Wrappers
  import Forwarding

  /**
    Waiting for bytes, a request under way, the connection given up for want of memory or for an
    invalid header, or the server ended by an assertion.
  */
  datatype Status = Reading | Processing | Leaving | Invalid | Stopped

  /**
    The bytes in the buffer, the length up to which it may be filled, the size that a complete header
    announced, and the room last offered; then everything read so far, and the payloads of all requests
    taken off the buffer, of those created, and of those dropped.
  */
  datatype State = State(
    b: Bytes, len: nat, sizeFound: nat, version: nat, offered: nat, status: Status,
    consumed: Bytes, taken: seq<Bytes>, found: seq<Bytes>, lost: seq<Bytes>)

  function Start(): State {
    State([], HEADER_SIZE + 1, 0, UNINITIALIZED_VERSION, 0, Reading, [], [], [], [])
  }

  /**
    alloc_buffer, with or without memory for a body; on_read, with or without memory for a request;
    the end of a request.
  */
  datatype Event = Poll(grows: bool) | Read(chunk: Bytes, created: bool) | Finish

  /** libuv reads no more than it was offered, and polls only a connection that has not been given up. */
  ghost predicate Possible(s: State, e: Event) {
    match e
    case Poll(_) => s.status.Reading? || s.status.Processing?
    case Read(chunk, _) => 0 < |chunk| <= s.offered
    case Finish => s.status.Processing?
  }

  ghost function Polled(s: State, grows: bool): State {
    var t := if s.sizeFound > 0 && s.len <= |s.b| && grows then s.(len := s.sizeFound + HEADER_SIZE, sizeFound := 0)
        else s;
    if t.len <= |t.b| then t.(offered := 0)
    else if t.status.Processing? then t.(offered := 0, status := Stopped)
    else t.(offered := t.len - |t.b|)
  }

  ghost function Judged(s: State, created: bool, params: Params): State {
    var (verdict, v) := Extract(s.b, s.version, params);
    var t := s.(version := v, offered := 0);
    match verdict
    case Found(payload) =>
      if created then t.(status := Processing, taken := s.taken + [payload], found := s.found + [payload])
      else
        var status := if v == Forwarding.SPECIAL_COMMUNICATION then Reading else Leaving;
        t.(b := [], status := status, taken := s.taken + [payload], lost := s.lost + [payload])
    case Wait(size) =>
      if s.len != (if |s.b| <= HEADER_SIZE + 1 then HEADER_SIZE + 1 else size + HEADER_SIZE) then t.(status := Stopped)
      else if |s.b| == HEADER_SIZE + 1 then t.(sizeFound := size)
      else t
    case _ => t.(b := [], status := Invalid)
  }

  ghost function Step(s: State, e: Event, params: Params): State {
    match e
    case Poll(grows) => Polled(s, grows)
    case Read(chunk, created) => Judged(s.(b := s.b + chunk, consumed := s.consumed + chunk), created, params)
    case Finish => s.(b := [], len := HEADER_SIZE + 1, status := Reading)
  }

  ghost function Run(s: State, es: seq<Event>, params: Params): State {
    if es == [] then s else Step(Run(s, es[..|es| - 1], params), es[|es| - 1], params)
  }

  ghost predicate Feasible(s: State, es: seq<Event>, params: Params) {
    es == [] ||
    var front := es[..|es| - 1];
    Feasible(s, front, params) && Possible(Run(s, front, params), es[|es| - 1])
  }

  lemma Snoc(s: State, es: seq<Event>, e: Event, params: Params)
    ensures Run(s, es + [e], params) == Step(Run(s, es, params), e, params)
    ensures Feasible(s, es + [e], params) <==> Feasible(s, es, params) && Possible(Run(s, es, params), e)
  {
    assert (es + [e])[..|es|] == es;
  }

  lemma NoEvents(s: State, params: Params)
    ensures Run(s, [], params) == s && Feasible(s, [], params)
  {
  }

  // ----- what every run keeps -----

  /** Where a reader is that has read b of a request: the header, all of the header, the body. */
  ghost predicate PhaseOf(b: Bytes, len: nat, sizeFound: nat, version: nat, params: Params) {
    if sizeFound > 0 then
      |b| == len == HEADER_SIZE + 1 && version in params && Extract(b, version, params) == (Wait(sizeFound), version)
    else
      && |b| < len
      && if len == HEADER_SIZE + 1 then true
         else HEADER_SIZE + 1 <= |b| && HEADER_SIZE + 1 < len && version in params
              && Extract(b, version, params) == (Wait(len - HEADER_SIZE), version)
  }

  /** Nothing has been read of the next request, and the length is still that of the dropped one. */
  ghost predicate Stale(s: State) {
    s.status.Reading? && s.b == [] && s.len != HEADER_SIZE + 1
  }

  /** The number of bytes in the frames of these payloads. */
  ghost function Weight(payloads: seq<Bytes>): nat {
    if payloads == [] then 0 else HEADER_SIZE + |payloads[0]| + Weight(payloads[1..])
  }

  ghost predicate FitsVersion(s: State, params: Params) {
    s.version in params && s.len <= params[s.version] + HEADER_SIZE
  }

  ghost predicate Sound(s: State, params: Params) {
    && |s.b| <= s.len && HEADER_SIZE < s.len && s.offered <= s.len - |s.b|
    && (s.offered > 0 ==> s.status.Reading? && s.sizeFound == 0)
    && (s.lost == [] ==> s.found == s.taken)
    && Weight(s.found) + Weight(s.lost) + (if s.status.Reading? then |s.b| else 0) <= |s.consumed|
    && match s.status
       case Reading =>
         && (s.version != UNINITIALIZED_VERSION ==> FitsVersion(s, params))
         && if Stale(s) then s.sizeFound == 0 && s.version in params
            else PhaseOf(s.b, s.len, s.sizeFound, s.version, params)
       case Processing => s.sizeFound == 0 && FitsVersion(s, params) && HEADER_SIZE < |s.b|
       case Leaving => s.b == [] && s.sizeFound == 0
       case Invalid => s.b == [] && s.sizeFound == 0
       case Stopped => true
  }

  lemma {:induction false} WeightSnoc(payloads: seq<Bytes>, p: Bytes)
    ensures Weight(payloads + [p]) == Weight(payloads) + HEADER_SIZE + |p|
    decreases |payloads|
  {
    if payloads == [] {
      assert payloads + [p] == [p] && [p][1..] == [];
    } else {
      WeightSnoc(payloads[1..], p);
      assert (payloads + [p])[1..] == payloads[1..] + [p];
    }
  }

  lemma {:induction false} WeightFrames(v: nat, payloads: seq<Bytes>)
    ensures |Frames(v, payloads)| == Weight(payloads)
    decreases |payloads|
  {
    if payloads != [] {
      WeightFrames(v, payloads[1..]);
    }
  }

  lemma ExtractVersion(b: Bytes, version: nat, params: Params)
    requires GoodParams(params) && |b| > HEADER_SIZE
    ensures var (verdict, v) := Extract(b, version, params);
      && (verdict.Found? ==> v in params && |verdict.payload| <= params[v])
      && (verdict.Wait? ==> v in params && 0 < verdict.len <= params[v] && Extract(b, v, params) == (verdict, v))
  {
  }

  /** A known version does not change. */
  lemma ExtractSame(b: Bytes, version: nat, params: Params)
    ensures version != UNINITIALIZED_VERSION ==> Extract(b, version, params).1 == version
    ensures |b| <= HEADER_SIZE ==> Extract(b, version, params) == (Wait(0), version)
  {
  }

  /** A body that has its header goes on waiting for the same size. */
  lemma ExtractLonger(b: Bytes, c: Bytes, version: nat, params: Params)
    requires |b| > HEADER_SIZE && Extract(b, version, params).0.Wait?
    ensures var (verdict, v) := Extract(b, version, params);
      Extract(b + c, version, params) ==
      if |b + c| < verdict.len + HEADER_SIZE then (verdict, v) else (Found((b + c)[9..9 + verdict.len]), v)
  {
    var d := b + c;
    assert d[..3] == b[..3] && d[3..5] == b[3..5] && d[5..9] == b[5..9];
  }

  /** What a read can lead to. */
  lemma ReadPhase(b: Bytes, c: Bytes, len: nat, version: nat, params: Params)
    requires GoodParams(params) && PhaseOf(b, len, 0, version, params) && |b + c| <= len && c != []
    ensures var (verdict, v) := Extract(b + c, version, params);
      && (verdict.Found? ==>
            |b + c| == len == HEADER_SIZE + |verdict.payload| && verdict.payload == (b + c)[HEADER_SIZE..])
      && (verdict.Wait? ==> PhaseOf(b + c, len, if |b + c| == HEADER_SIZE + 1 then verdict.len else 0, v, params))
      && (verdict.Wait? && |b + c| == HEADER_SIZE + 1 ==> verdict.len > 1)
      && (verdict.Wait? ==> len == if |b + c| <= HEADER_SIZE + 1 then HEADER_SIZE + 1 else verdict.len + HEADER_SIZE)
  {
    if len > HEADER_SIZE + 1 { ExtractLonger(b, c, version, params); }
    if |b + c| > HEADER_SIZE { ExtractVersion(b + c, version, params); }
  }

  /** A complete header makes way for the body. */
  lemma GrowPhase(b: Bytes, len: nat, sizeFound: nat, version: nat, params: Params)
    requires GoodParams(params) && PhaseOf(b, len, sizeFound, version, params) && sizeFound > 0
    ensures PhaseOf(b, sizeFound + HEADER_SIZE, 0, version, params)
    ensures version in params && 1 < sizeFound <= params[version] && |b| == len == HEADER_SIZE + 1
  {
    ExtractVersion(b, version, params);
  }

  /**
    A frame of the dropped one's length, of which more than the header has come, goes on as if
    nothing had been dropped.
  */
  lemma StalePhase(c: Bytes, len: nat, version: nat, params: Params)
    requires GoodParams(params) && 0 < |c| <= len && Extract(c, version, params).0.Wait?
    requires len == if |c| <= HEADER_SIZE + 1 then HEADER_SIZE + 1 else Extract(c, version, params).0.len + HEADER_SIZE
    requires len > HEADER_SIZE + 1
    ensures PhaseOf(c, len, 0, Extract(c, version, params).1, params)
  {
    ExtractVersion(c, version, params);
  }

  lemma SoundPolled(s: State, grows: bool, params: Params)
    requires GoodParams(params) && Sound(s, params) && Possible(s, Poll(grows))
    ensures Sound(Polled(s, grows), params)
  {
    if s.sizeFound > 0 && s.len <= |s.b| && grows {
      GrowPhase(s.b, s.len, s.sizeFound, s.version, params);
    }
    hide Extract, Weight;
  }

  /** What is offered: nothing behind a request under way, otherwise the rest of the header or of the frame. */
  lemma PollCases(s: State, grows: bool, params: Params)
    requires GoodParams(params) && Sound(s, params) && Possible(s, Poll(grows))
    ensures Step(s, Poll(grows), params) == Polled(s, grows)
    ensures var t := Polled(s, grows);
      && |t.b| <= t.len && (!t.status.Stopped? ==> t.offered == t.len - |t.b|)
      && (s.status.Processing? ==> t.len == s.len)
      && t.b == s.b && t.version == s.version && (t.status.Stopped? || t.status == s.status)
      && (t.status.Stopped? <==> s.status.Processing? && |s.b| < s.len)
      && (s.status.Processing? ==> t.offered == 0)
      && (s.status.Reading? && grows ==> t.offered > 0)
      && (s.version != UNINITIALIZED_VERSION ==> s.version in params && t.offered <= params[s.version] + HEADER_SIZE)
      && (t.offered > 0 && |s.b| > HEADER_SIZE ==>
            Extract(s.b, s.version, params) == (Wait(|s.b| + t.offered - HEADER_SIZE), s.version))
      && (t.offered > 0 && |s.b| <= HEADER_SIZE && !Stale(s) ==> |s.b| + t.offered == HEADER_SIZE + 1)
      && (Stale(s) ==> t.offered == s.len)
  {
    if s.sizeFound > 0 { GrowPhase(s.b, s.len, s.sizeFound, s.version, params); }
    hide Weight;
  }

  /** The verdict on a buffer with a read's bytes behind those it had. */
  lemma ReadVerdict(s: State, chunk: Bytes, params: Params)
    requires GoodParams(params) && Sound(s, params) && 0 < |chunk| <= s.offered
    ensures var b := s.b + chunk; var (verdict, v) := Extract(b, s.version, params);
      && s.status.Reading? && s.sizeFound == 0 && |b| <= s.len
      && match verdict
         case Found(payload) =>
           && HEADER_SIZE + |payload| <= |b| && v in params && |payload| <= params[v]
               && s.len <= params[v] + HEADER_SIZE
           && (!Stale(s) ==> |b| == s.len == HEADER_SIZE + |payload|)
         case Wait(size) =>
           && (v != UNINITIALIZED_VERSION ==> v in params && s.len <= params[v] + HEADER_SIZE)
           && var want := if |b| <= HEADER_SIZE + 1 then HEADER_SIZE + 1 else size + HEADER_SIZE;
           && (!Stale(s) ==> s.len == want)
           && (s.len == want ==> PhaseOf(b, s.len, if |b| == HEADER_SIZE + 1 then size else 0, v, params))
         case _ => true
  {
    var b := s.b + chunk;
    if |b| > HEADER_SIZE { ExtractVersion(b, s.version, params); }
    ExtractSame(b, s.version, params);
    if !Stale(s) {
      ReadPhase(s.b, chunk, s.len, s.version, params);
    } else {
      assert b == chunk;
      var verdict := Extract(b, s.version, params).0;
      if verdict.Wait? && s.len == if |b| <= HEADER_SIZE + 1 then HEADER_SIZE + 1 else verdict.len + HEADER_SIZE {
        StalePhase(chunk, s.len, s.version, params);
      }
    }
    hide Extract, Weight;
  }

  /** What a read does. */
  lemma ReadCases(s: State, chunk: Bytes, created: bool, params: Params)
    requires GoodParams(params) && Sound(s, params) && Possible(s, Read(chunk, created))
    ensures var b := s.b + chunk; var (verdict, v) := Extract(b, s.version, params);
      var t := Step(s, Read(chunk, created), params);
      && s.status.Reading? && s.sizeFound == 0 && |b| <= s.len
      && t.consumed == s.consumed + chunk && t.len == s.len && t.offered == 0
      && match verdict
         case Found(payload) =>
           && HEADER_SIZE + |payload| <= |b| && v in params && |payload| <= params[v]
           && t.version == v && FitsVersion(t, params) && t.taken == s.taken + [payload]
           && (!Stale(s) ==> |b| == s.len == HEADER_SIZE + |payload|)
           && (created ==> t.status.Processing? && t.b == b && t.sizeFound == 0)
           && (created ==> t.found == s.found + [payload] && t.lost == s.lost)
           && (!created ==> t.b == [] && t.sizeFound == 0 && t.found == s.found && t.lost == s.lost + [payload])
           && (!created ==> t.status == if v == Forwarding.SPECIAL_COMMUNICATION then Reading else Leaving)
         case Wait(size) =>
           && t.b == b && t.version == v && t.taken == s.taken && t.found == s.found && t.lost == s.lost
           && (!Stale(s) ==> t.status.Reading?)
           && (t.status.Reading? ==> PhaseOf(b, s.len, t.sizeFound, v, params))
           && (t.status.Reading? ==> t.sizeFound == if |b| == HEADER_SIZE + 1 then size else 0)
           && (t.status.Reading? && v != UNINITIALIZED_VERSION ==> FitsVersion(t, params))
           && (t.status.Reading? || t.status.Stopped?)
           && (t.status.Reading? <==> s.len == if |b| <= HEADER_SIZE + 1 then HEADER_SIZE + 1 else size + HEADER_SIZE)
         case _ =>
           && t.b == [] && t.sizeFound == 0 && t.version == v && t.status.Invalid?
           && t.taken == s.taken && t.found == s.found && t.lost == s.lost
  {
    hide Extract, Sound, PhaseOf, Stale;
    ReadVerdict(s, chunk, params);
  }

  /** The connection is given up as invalid exactly if what is in the buffer cannot become an allowed frame. */
  lemma InvalidExactly(s: State, chunk: Bytes, created: bool, params: Params)
    requires GoodParams(params) && Sound(s, params) && Possible(s, Read(chunk, created))
    ensures var b := s.b + chunk;
      Step(s, Read(chunk, created), params).status.Invalid? <==>
      && |b| > HEADER_SIZE && !StartsWithFrame(b, s.version, params)
      && forall len: nat :: !IsPart(b, len, s.version, params)
  {
    hide Step, Sound, PhaseOf, Stale, IsPart, StartsWithFrame, Extract;
    var b := s.b + chunk;
    var verdict := Extract(b, s.version, params).0;
    ReadCases(s, chunk, created, params);
    VerdictExactly(b, s.version, params);
    if verdict.Wait? && |b| > HEADER_SIZE {
      assert IsPart(b, verdict.len, s.version, params);
    }
  }

  lemma SoundRead(s: State, chunk: Bytes, created: bool, params: Params)
    requires GoodParams(params) && Sound(s, params) && Possible(s, Read(chunk, created))
    ensures Sound(Step(s, Read(chunk, created), params), params)
  {
    ReadCases(s, chunk, created, params);
    hide Extract, Step, Weight;
    var verdict := Extract(s.b + chunk, s.version, params).0;
    if verdict.Found? {
      WeightSnoc(s.found, verdict.payload);
      WeightSnoc(s.lost, verdict.payload);
    }
  }

  lemma SoundStep(s: State, e: Event, params: Params)
    requires GoodParams(params) && Sound(s, params) && Possible(s, e)
    ensures Sound(Step(s, e, params), params)
  {
    match e {
      case Poll(grows) => SoundPolled(s, grows, params);
      case Read(chunk, created) => SoundRead(s, chunk, created, params);
      case Finish =>
    }
  }

  /** Whatever happens, dropped requests included. */
  lemma {:induction false} SoundRun(s: State, es: seq<Event>, params: Params)
    requires GoodParams(params) && Sound(s, params) && Feasible(s, es, params)
    ensures Sound(Run(s, es, params), params)
    decreases |es|
  {
    hide Sound, Step, Possible;
    if es != [] {
      var front := es[..|es| - 1];
      SoundRun(s, front, params);
      SoundStep(Run(s, front, params), es[|es| - 1], params);
    }
  }

  lemma SoundStart(params: Params)
    ensures Sound(Start(), params)
  {
  }

  /** One more poll, as far as a buffer shows it. */
  lemma PollRun(es: seq<Event>, grows: bool, params: Params)
    requires GoodParams(params) && Feasible(Start(), es, params)
    requires var status := Run(Start(), es, params).status; status.Reading? || status.Processing?
    ensures Feasible(Start(), es + [Poll(grows)], params)
    ensures var s := Run(Start(), es, params); var t := Polled(s, grows);
      && Run(Start(), es + [Poll(grows)], params) == Step(s, Poll(grows), params) == t
      && (t.status.Stopped? <==> s.status.Processing? && |s.b| < s.len)
      && (!t.status.Stopped? ==> t.status == s.status && t.offered == t.len - |t.b|)
      && (s.status.Processing? ==> t.len == s.len && t.b == s.b)
  {
    hide Run, Feasible, Sound, Polled, Extract;
    SoundStart(params);
    SoundRun(Start(), es, params);
    Snoc(Start(), es, Poll(grows), params);
    PollCases(Run(Start(), es, params), grows, params);
  }

  /** A poll that finds a complete header, as far as a buffer shows it. */
  lemma GrowRun(es: seq<Event>, params: Params)
    requires GoodParams(params) && Feasible(Start(), es, params)
    requires var s := Run(Start(), es, params); s.sizeFound > 0 && !s.status.Stopped?
    ensures var s := Run(Start(), es, params);
      && s.status.Reading? && |s.b| == s.len == HEADER_SIZE + 1
      && s.version in params && 1 < s.sizeFound <= params[s.version]
      && Polled(s, true) == s.(len := s.sizeFound + HEADER_SIZE, sizeFound := 0, offered := s.sizeFound - 1)
      && Polled(s, false) == s.(offered := 0)
  {
    hide Run, Feasible, Extract;
    var s := Run(Start(), es, params);
    SoundStart(params);
    SoundRun(Start(), es, params);
    GrowPhase(s.b, s.len, s.sizeFound, s.version, params);
    hide PhaseOf;
  }

  // ----- when no assertion fails -----

  /** All the room there is belongs to the request that the reader is at. */
  ghost predicate Steady(s: State) {
    match s.status
    case Reading => !Stale(s)
    case Processing => |s.b| == s.len
    case Stopped => false
    case _ => true
  }

  lemma SteadyStep(s: State, e: Event, params: Params)
    requires GoodParams(params) && Sound(s, params) && Steady(s) && Possible(s, e)
    requires Step(s, e, params).lost == s.lost
    ensures Steady(Step(s, e, params))
  {
    match e {
      case Poll(grows) => if s.sizeFound > 0 { GrowPhase(s.b, s.len, s.sizeFound, s.version, params); }
      case Read(chunk, created) =>
        ReadCases(s, chunk, created, params);
        hide Extract, Step;
        assert Extract(s.b + chunk, s.version, params).0.Found? && !created ==>
            |Step(s, e, params).lost| == |s.lost| + 1;
      case Finish =>
    }
  }

  lemma {:induction false} LostGrows(s: State, es: seq<Event>, params: Params)
    ensures |s.lost| <= |Run(s, es, params).lost|
    decreases |es|
  {
    if es != [] {
      LostGrows(s, es[..|es| - 1], params);
    }
  }

  /** If nothing more has been dropped in the end, nothing has been before. */
  lemma {:induction false} NothingLostBefore(s: State, es: seq<Event>, params: Params)
    requires es != [] && Run(s, es, params).lost == s.lost
    ensures Run(s, es[..|es| - 1], params).lost == s.lost
  {
    var before := Run(s, es[..|es| - 1], params);
    LostGrows(s, es[..|es| - 1], params);
    hide Extract;
    assert Run(s, es, params) == Step(before, es[|es| - 1], params);
    assert Run(s, es, params).lost == before.lost || |Run(s, es, params).lost| == |before.lost| + 1;
  }

  lemma {:induction false} SteadyRun(s: State, es: seq<Event>, params: Params)
    requires GoodParams(params) && Sound(s, params) && Steady(s) && Feasible(s, es, params)
    requires Run(s, es, params).lost == s.lost
    ensures Steady(Run(s, es, params))
    decreases |es|
  {
    hide Sound, Steady, Step, Possible;
    if es != [] {
      var front := es[..|es| - 1];
      NothingLostBefore(s, es, params);
      SteadyRun(s, front, params);
      SoundRun(s, front, params);
      SteadyStep(Run(s, front, params), es[|es| - 1], params);
    }
  }

  /** Whatever comes, no assertion fails as long as no other request is dropped. */
  ghost predicate NeverStops(s: State, params: Params) {
    forall es: seq<Event> :: Feasible(s, es, params) && Run(s, es, params).lost == s.lost ==>
      !Run(s, es, params).status.Stopped?
  }

  lemma One(s: State, e: Event, params: Params)
    ensures Run(s, [e], params) == Step(s, e, params) && (Feasible(s, [e], params) <==> Possible(s, e))
  {
    hide Run, Feasible;
    NoEvents(s, params);
    Snoc(s, [], e, params);
    assert [] + [e] == [e];
  }

  lemma Two(s: State, d: Event, e: Event, params: Params)
    ensures Run(s, [d, e], params) == Step(Step(s, d, params), e, params)
    ensures Feasible(s, [d, e], params) <==> Possible(s, d) && Possible(Step(s, d, params), e)
  {
    hide Run, Feasible, Step;
    One(s, d, params);
    Snoc(s, [d], e, params);
    assert [d] + [e] == [d, e];
  }

  /** Behind a dropped request a single byte, read alone, is enough. */
  lemma ByteStops(s: State, byte: Byte, created: bool, params: Params)
    requires GoodParams(params) && Sound(s, params) && Stale(s)
    ensures var es := [Poll(true), Read([byte], created)];
      Feasible(s, es, params) && Run(s, es, params).status.Stopped? && Run(s, es, params).lost == s.lost
  {
    Two(s, Poll(true), Read([byte], created), params);
    ExtractSame([byte], s.version, params);
    hide Extract, Run, Feasible;
    assert s.b + [byte] == [byte];
  }

  /** So is a shorter frame, read whole, and one more poll: the assertion in alloc_buffer. */
  lemma ShorterFrameStops(s: State, payload: Bytes, params: Params)
    requires GoodParams(params) && Sound(s, params) && Stale(s)
    requires Allowed(params, s.version, payload) && HEADER_SIZE + |payload| < s.len
    ensures var d, e := Poll(true), Read(Frame(s.version, payload), true); var t := Step(Step(s, d, params), e, params);
      && Possible(s, d) && Possible(Step(s, d, params), e) && Possible(t, Poll(true))
      && t.taken == s.taken + [payload] && t.found == s.found + [payload] && t.lost == s.lost
      && t.status.Processing? && Step(t, Poll(true), params) == t.(offered := 0, status := Stopped)
  {
    var f := Frame(s.version, payload);
    ExtractFrame(s.version, payload, [], s.version, params);
    hide Extract, Frame;
    assert s.b + f == f && f + [] == f;
  }

  /** And so is a longer frame, of which as much is read as the old length allows. */
  lemma LongerFrameStops(s: State, payload: Bytes, created: bool, params: Params)
    requires GoodParams(params) && Sound(s, params) && Stale(s)
    requires Allowed(params, s.version, payload) && HEADER_SIZE + |payload| > s.len
    ensures var es := [Poll(true), Read(Frame(s.version, payload)[..s.len], created)];
      Feasible(s, es, params) && Run(s, es, params).status.Stopped? && Run(s, es, params).lost == s.lost
  {
    var part := Frame(s.version, payload)[..s.len];
    Two(s, Poll(true), Read(part, created), params);
    ExtractPart(s.version, payload, s.len, s.version, params);
    hide Extract, Run, Feasible, Frame;
    assert s.b + part == part;
  }

  /** With room left behind a request under way the next poll is the end. */
  lemma RoomStops(s: State, params: Params)
    requires s.status.Processing? && |s.b| < s.len && s.sizeFound == 0
    ensures Feasible(s, [Poll(true)], params) && Run(s, [Poll(true)], params) == s.(offered := 0, status := Stopped)
  {
    One(s, Poll(true), params);
    hide Run, Feasible;
  }

  /** Exactly when all the room belongs to the request that the reader is at. */
  lemma NeverStopsExactly(s: State, params: Params)
    requires GoodParams(params) && Sound(s, params)
    ensures NeverStops(s, params) <==> Steady(s)
  {
    hide Extract, Run, Feasible, Weight;
    if Steady(s) {
      forall es: seq<Event> | Feasible(s, es, params) && Run(s, es, params).lost == s.lost
        ensures !Run(s, es, params).status.Stopped?
      {
        SteadyRun(s, es, params);
      }
    } else if s.status.Stopped? {
      NoEvents(s, params);
    } else if Stale(s) {
      ByteStops(s, 0, true, params);
    } else {
      RoomStops(s, params);
    }
  }

  // ----- staying in step with the bytes read -----

  /** All whole frames read so far have been taken off the buffer, and nothing of a later one is gone. */
  ghost predicate InStep(s: State, params: Params) {
    var p := Split(s.consumed, UNINITIALIZED_VERSION, params);
    match s.status
    case Reading => p == Parse(s.taken, s.b, s.version, false)
    case Processing => |s.b| == s.len && p == Parse(s.taken, [], s.version, false)
    case Leaving => p == Parse(s.taken, [], s.version, false)
    case Invalid => p.failed && p.found == s.taken
    case Stopped => false
  }

  /** A buffer with at most one frame in it. */
  lemma SplitOnce(b: Bytes, version: nat, params: Params)
    ensures var (verdict, v) := Extract(b, version, params); var p := Split(b, version, params);
      match verdict
      case Found(payload) => p == Parse([payload], [], v, false) <==> |b| == HEADER_SIZE + |payload|
      case Wait(_) => p == Parse([], b, v, false)
      case _ => p == Parse([], b, v, true)
  {
    var (verdict, v) := Extract(b, version, params);
    if verdict.Found? {
      var rest := b[HEADER_SIZE + |verdict.payload|..];
      assert Split([], v, params) == Parse([], [], v, false);
      var q := Split(rest, v, params);
      assert Split(b, version, params) == q.(found := [verdict.payload] + q.found);
      assert rest == [] <==> |b| == HEADER_SIZE + |verdict.payload|;
      if rest != [] {
        assert |Split(rest, v, params).rest| > 0 || |Split(rest, v, params).found| > 0;
      }
    }
  }

  lemma Cancel(a: seq<Bytes>, f: seq<Bytes>, g: seq<Bytes>)
    ensures a + f == a + g <==> f == g
  {
    if a + f == a + g {
      assert f == (a + f)[|a|..] && g == (a + g)[|a|..];
    }
  }

  /** Whether a read leaves the reader in step is decided by the buffer alone. */
  lemma InStepRead(s: State, chunk: Bytes, created: bool, params: Params)
    requires GoodParams(params) && Sound(s, params) && InStep(s, params) && Possible(s, Read(chunk, created))
    ensures var t := Step(s, Read(chunk, created), params); var b := s.b + chunk;
      var verdict := Extract(b, s.version, params).0;
      && (verdict.Found? && created ==> (InStep(t, params) <==> |b| == s.len == HEADER_SIZE + |verdict.payload|))
      && (verdict.Found? && !created ==> (InStep(t, params) <==> |b| == HEADER_SIZE + |verdict.payload|))
      && (!verdict.Found? ==> (InStep(t, params) <==> !t.status.Stopped?))
  {
    ReadCases(s, chunk, created, params);
    SplitAppend(s.consumed, chunk, UNINITIALIZED_VERSION, params);
    SplitOnce(s.b + chunk, s.version, params);
    hide Extract, Step, Split, Sound;
    var q := Split(s.b + chunk, s.version, params);
    assert s.taken + [] == s.taken;
    if Extract(s.b + chunk, s.version, params).0.Found? {
      Cancel(s.taken, q.found, [Extract(s.b + chunk, s.version, params).0.payload]);
    }
  }

  lemma InStepStep(s: State, e: Event, params: Params)
    requires GoodParams(params) && Sound(s, params) && Steady(s) && InStep(s, params) && Possible(s, e)
    requires Step(s, e, params).lost == s.lost
    ensures InStep(Step(s, e, params), params)
  {
    SteadyStep(s, e, params);
    match e {
      case Poll(grows) => hide Split, Extract;
      case Read(chunk, created) =>
        ReadCases(s, chunk, created, params);
        InStepRead(s, chunk, created, params);
        hide Extract, Step, Split, InStep;
        assert Extract(s.b + chunk, s.version, params).0.Found? && !created ==>
            |Step(s, e, params).lost| == |s.lost| + 1;
      case Finish => hide Split, Extract;
    }
  }

  lemma {:induction false} InStepRun(s: State, es: seq<Event>, params: Params)
    requires GoodParams(params) && Sound(s, params) && Steady(s) && InStep(s, params) && Feasible(s, es, params)
    requires Run(s, es, params).lost == s.lost
    ensures InStep(Run(s, es, params), params)
    decreases |es|
  {
    hide Sound, Steady, InStep, Step, Possible;
    if es != [] {
      var front := es[..|es| - 1];
      NothingLostBefore(s, es, params);
      InStepRun(s, front, params);
      SteadyRun(s, front, params);
      SoundRun(s, front, params);
      InStepStep(Run(s, front, params), es[|es| - 1], params);
    }
  }

  /** Whatever comes, the reader stays in step as long as no other request is dropped. */
  ghost predicate Safe(s: State, params: Params) {
    forall es: seq<Event> :: Feasible(s, es, params) && Run(s, es, params).lost == s.lost ==>
      InStep(Run(s, es, params), params)
  }

  lemma SafeExactly(s: State, params: Params)
    requires GoodParams(params) && Sound(s, params)
    ensures Safe(s, params) <==> InStep(s, params) && Steady(s)
  {
    hide Extract, Run, Feasible, Sound, Split;
    NoEvents(s, params);
    if InStep(s, params) && Steady(s) {
      forall es: seq<Event> | Feasible(s, es, params) && Run(s, es, params).lost == s.lost
        ensures InStep(Run(s, es, params), params)
      {
        InStepRun(s, es, params);
      }
    } else if Stale(s) {
      ByteStops(s, 0, true, params);
    }
  }

  /**
    The dropped request.  A whole frame for which there is no memory is dropped, and nothing else is;
    what comes then is safe, and no assertion can fail, exactly when the connection is given up or the
    request was a single byte.
  */
  lemma DropExactly(s: State, chunk: Bytes, params: Params)
    requires GoodParams(params) && Sound(s, params) && Steady(s) && InStep(s, params) && Possible(s, Read(chunk, false))
    ensures var t := Step(s, Read(chunk, false), params); var (verdict, v) := Extract(s.b + chunk, s.version, params);
      match verdict
      case Found(payload) =>
        var harmless := v != Forwarding.SPECIAL_COMMUNICATION || |payload| == 1;
        && t.lost == s.lost + [payload] && InStep(t, params)
        && (Safe(t, params) <==> harmless) && (NeverStops(t, params) <==> harmless)
      case _ => t.lost == s.lost && Safe(t, params) && NeverStops(t, params)
  {
    var t := Step(s, Read(chunk, false), params);
    SoundStep(s, Read(chunk, false), params);
    ReadCases(s, chunk, false, params);
    InStepRead(s, chunk, false, params);
    SafeExactly(t, params);
    NeverStopsExactly(t, params);
    if t.lost == s.lost {
      SteadyStep(s, Read(chunk, false), params);
    }
    hide Extract, Step, InStep, Safe, NeverStops, Sound;
  }

  /**
    After a dropped request of more than one byte: the next read makes up for it exactly if it
    brings more than ten bytes of a frame of the same length (or an invalid header, with which the
    connection ends).
  */
  lemma NextReadExactly(s: State, chunk: Bytes, params: Params)
    requires GoodParams(params) && Sound(s, params) && InStep(s, params) && Stale(s) && Possible(s, Read(chunk, true))
    ensures var t := Step(s, Read(chunk, true), params);
      Safe(t, params) <==>
      match Extract(chunk, s.version, params).0
      case Found(payload) => HEADER_SIZE + |payload| == s.len
      case Wait(size) => |chunk| > HEADER_SIZE + 1 && HEADER_SIZE + size == s.len
      case _ => true
  {
    var t := Step(s, Read(chunk, true), params);
    assert s.b + chunk == chunk;
    SoundStep(s, Read(chunk, true), params);
    ReadCases(s, chunk, true, params);
    InStepRead(s, chunk, true, params);
    SafeExactly(t, params);
    hide Extract, Step, Safe, Sound, Split;
  }

  // ----- from the beginning -----

  /** Every request dropped so far was a single byte. */
  ghost predicate SmallLosses(s: State) {
    forall i :: 0 <= i < |s.lost| ==> |s.lost[i]| == 1
  }

  lemma SmallLossesBefore(s: State, e: Event, params: Params)
    requires SmallLosses(Step(s, e, params))
    ensures SmallLosses(s)
  {
    var t := Step(s, e, params);
    hide Extract;
    assert t.lost[..|s.lost|] == s.lost;
  }

  lemma SmallStep(s: State, e: Event, params: Params)
    requires GoodParams(params) && Sound(s, params) && Steady(s) && InStep(s, params) && Possible(s, e)
    requires SmallLosses(Step(s, e, params))
    ensures SmallLosses(s) && Steady(Step(s, e, params)) && InStep(Step(s, e, params), params)
  {
    var t := Step(s, e, params);
    if t.lost == s.lost {
      SteadyStep(s, e, params);
      InStepStep(s, e, params);
    } else {
      assert e.Read?;
      ReadCases(s, e.chunk, e.created, params);
      InStepRead(s, e.chunk, e.created, params);
      hide Extract, Step, InStep, Split;
      assert t.lost[|s.lost|] == Extract(s.b + e.chunk, s.version, params).0.payload;
      assert t.lost[..|s.lost|] == s.lost;
    }
  }

  /** Every run in which no longer request was dropped is in step, and no assertion has failed. */
  lemma {:induction false} SmallLossesInStep(es: seq<Event>, params: Params)
    requires GoodParams(params) && Feasible(Start(), es, params) && SmallLosses(Run(Start(), es, params))
    ensures var s := Run(Start(), es, params); InStep(s, params) && Steady(s)
    decreases |es|
  {
    if es == [] {
      assert Split([], UNINITIALIZED_VERSION, params) == Parse([], [], UNINITIALIZED_VERSION, false);
    } else {
      hide Sound, Steady, InStep, Step, Possible, Split;
      var front := es[..|es| - 1];
      SoundStart(params);
      SoundRun(Start(), front, params);
      SmallLossesBefore(Run(Start(), front, params), es[|es| - 1], params);
      SmallLossesInStep(front, params);
      SmallStep(Run(Start(), front, params), es[|es| - 1], params);
    }
  }

  /** A frame on a peer server's connection, its header read first, and no memory for its request. */
  lemma DropRun(p: Bytes, params: Params)
    requires GoodParams(params) && Allowed(params, Forwarding.SPECIAL_COMMUNICATION, p) && |p| > 1
    ensures var v := Forwarding.SPECIAL_COMMUNICATION; var f := Frame(v, p);
      var a := Step(Start(), Poll(true), params);
      var b := Step(a, Read(f[..HEADER_SIZE + 1], true), params);
      var c := Step(b, Poll(true), params);
      var d := Step(c, Read(f[HEADER_SIZE + 1..], false), params);
      && a.offered == HEADER_SIZE + 1 && a.status.Reading? && b.status.Reading? && c.offered == |p| - 1
          && c.status.Reading?
      && d.status.Reading? && Stale(d) && d.len == HEADER_SIZE + |p| && d.version == v
      && d.taken == [p] && d.lost == [p] && d.found == []
  {
    var v := Forwarding.SPECIAL_COMMUNICATION;
    var f, n := Frame(v, p), HEADER_SIZE + 1;
    ExtractPart(v, p, n, UNINITIALIZED_VERSION, params);
    ExtractFrame(v, p, [], v, params);
    hide Extract, Frame;
    assert [] + f[..n] == f[..n] && f[..n] + f[n..] == f && f + [] == f;
    assert [] + [p] == [p];
  }
}
