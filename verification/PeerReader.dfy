/** Reading acknowledgements off a connection to a peer server: frames are shifted off a fixed buffer. */
module PeerReader {
  import opened Wire
  import opened Wrappers
  import Forwarding

  const BUFFER_SIZE := 1024 * (HEADER_SIZE + 1)

  // ----- one read after another, as a specification -----

  /** What the loop in on_read does with a buffer: an invalid header throws all of it away. */
  function Drain(b: Bytes, version: nat, params: Params): Parse {
    var p := Split(b, version, params);
    if p.failed then p.(rest := []) else p
  }

  /** The next read goes on with what the reads before have left over. */
  function Then(p: Parse, chunk: Bytes, params: Params): Parse {
    var q := Drain(p.rest + chunk, p.version, params);
    Parse(p.found + q.found, q.rest, q.version, p.failed || q.failed)
  }

  function Received(chunks: seq<Bytes>, params: Params): Parse {
    if chunks == [] then Parse([], [], UNINITIALIZED_VERSION, false)
    else Then(Received(chunks[..|chunks| - 1], params), chunks[|chunks| - 1], params)
  }

  function Joined(chunks: seq<Bytes>): Bytes {
    if chunks == [] then [] else Joined(chunks[..|chunks| - 1]) + chunks[|chunks| - 1]
  }

  /** Every read fits the room that the buffer still has: libuv is offered no more. */
  ghost predicate Delivered(chunks: seq<Bytes>, params: Params) {
    chunks == [] ||
    var front := chunks[..|chunks| - 1];
    Delivered(front, params) && |Received(front, params).rest| + |chunks[|chunks| - 1]| <= BUFFER_SIZE
  }

  lemma Snoc(chunks: seq<Bytes>, chunk: Bytes, params: Params)
    ensures Received(chunks + [chunk], params) == Then(Received(chunks, params), chunk, params)
    ensures Joined(chunks + [chunk]) == Joined(chunks) + chunk
    ensures Delivered(chunks + [chunk], params) <==>
            Delivered(chunks, params) && |Received(chunks, params).rest| + |chunk| <= BUFFER_SIZE
  {
    assert (chunks + [chunk])[..|chunks|] == chunks;
  }

  /** What is left over is always the beginning of a frame, or nothing. */
  lemma DrainWaits(b: Bytes, version: nat, params: Params)
    ensures var p := Drain(b, version, params); Extract(p.rest, p.version, params).0.Wait?
  {
    if !Split(b, version, params).failed {
      SplitSound(b, version, params);
    }
  }

  lemma ReceivedWaits(chunks: seq<Bytes>, params: Params)
    ensures var p := Received(chunks, params); Extract(p.rest, p.version, params).0.Wait?
  {
    hide Drain;
    if chunks != [] {
      var p := Received(chunks[..|chunks| - 1], params);
      DrainWaits(p.rest + chunks[|chunks| - 1], p.version, params);
    }
  }

  // ----- when cuts do not matter -----

  /** Going on with the rest of a valid beginning is parsing all of it. */
  lemma ValidThen(b: Bytes, c: Bytes, existing: nat, params: Params)
    requires !Split(b, existing, params).failed
    ensures Then(Drain(b, existing, params), c, params) == Drain(b + c, existing, params)
  {
    hide Split;
    SplitAppend(b, c, existing, params);
  }

  /** As long as no header is invalid the reads come to what their bytes come to, however they are cut. */
  lemma {:induction false} ReceivedSplits(chunks: seq<Bytes>, params: Params)
    ensures var w := Split(Joined(chunks), UNINITIALIZED_VERSION, params);
      Received(chunks, params).failed == w.failed && (!w.failed ==> Received(chunks, params) == w)
    decreases |chunks|
  {
    if chunks == [] {
      assert Split([], UNINITIALIZED_VERSION, params) == Parse([], [], UNINITIALIZED_VERSION, false);
    } else {
      var front, chunk := chunks[..|chunks| - 1], chunks[|chunks| - 1];
      hide Split;
      ReceivedSplits(front, params);
      if Received(front, params).failed {
        SplitFails(Joined(front), chunk, UNINITIALIZED_VERSION, params);
      } else {
        ValidThen(Joined(front), chunk, UNINITIALIZED_VERSION, params);
      }
    }
  }

  ghost predicate SameAfter(b: Bytes, c: Bytes, existing: nat, params: Params) {
    var p, q := Then(Drain(b, existing, params), c, params), Drain(b + c, existing, params);
    p.found == q.found && p.rest == q.rest
  }

  /** A cut after b makes no difference to what is found and what is left over, whatever comes behind. */
  ghost predicate Harmless(b: Bytes, existing: nat, params: Params) {
    forall c: Bytes :: SameAfter(b, c, existing, params)
  }

  /** One byte behind an invalid header is thrown away with it, or kept. */
  lemma OneByteStays(b: Bytes, existing: nat, params: Params)
    requires Split(b, existing, params).failed
    ensures !SameAfter(b, [0], existing, params)
  {
    var p := Split(b, existing, params);
    SplitFails(b, [0], existing, params);
    assert [] + [0] == [0];
    assert Extract([0], p.version, params) == (Wait(0), p.version);
    assert Split([0], p.version, params).rest == [0];
  }

  /** It makes none exactly when no header in b is invalid. */
  lemma HarmlessExactly(b: Bytes, existing: nat, params: Params)
    ensures Harmless(b, existing, params) <==> !Split(b, existing, params).failed
  {
    if Split(b, existing, params).failed {
      OneByteStays(b, existing, params);
    } else {
      forall c: Bytes ensures SameAfter(b, c, existing, params) { ValidThen(b, c, existing, params); }
    }
  }

  /** Some frame is acceptable on a connection of this version. */
  ghost predicate Acceptable(version: nat, params: Params) {
    exists v: nat :: v in params && params[v] >= 1 && (version == UNINITIALIZED_VERSION || version == v)
  }

  ghost predicate SameFound(b: Bytes, c: Bytes, existing: nat, params: Params) {
    Then(Drain(b, existing, params), c, params).found == Drain(b + c, existing, params).found
  }

  lemma SameWhenValid(b: Bytes, c: Bytes, existing: nat, params: Params)
    requires !Split(b, existing, params).failed
    ensures SameFound(b, c, existing, params)
  {
    ValidThen(b, c, existing, params);
  }

  lemma OneFrame(v: nat, payload: Bytes, existing: nat, params: Params)
    requires GoodParams(params) && Allowed(params, v, payload) && existing in {UNINITIALIZED_VERSION, v}
    ensures Split(Frame(v, payload), existing, params) == Parse([payload], [], v, false)
  {
    var f := Frame(v, payload);
    ExtractFrame(v, payload, [], existing, params);
    assert f + [] == f && f[HEADER_SIZE + |payload|..] == [];
    assert Split([], v, params) == Parse([], [], v, false);
  }

  /** Any acceptable frame behind an invalid header is lost with it, or found after it. */
  lemma FrameFoundAgain(b: Bytes, existing: nat, params: Params, v: nat, payload: Bytes)
    requires GoodParams(params) && Split(b, existing, params).failed && Allowed(params, v, payload)
    requires var version := Split(b, existing, params).version; version == UNINITIALIZED_VERSION || version == v
    ensures var p, f := Split(b, existing, params), Frame(v, payload);
      && Drain(b + f, existing, params).found == p.found
      && Then(Drain(b, existing, params), f, params).found == p.found + [payload]
    ensures !SameFound(b, Frame(v, payload), existing, params)
  {
    var p, f := Split(b, existing, params), Frame(v, payload);
    SplitFails(b, f, existing, params);
    OneFrame(v, payload, p.version, params);
    hide Split;
    assert [] + f == f;
  }

  lemma NothingFound(b: Bytes, c: Bytes, existing: nat, params: Params)
    requires Split(b, existing, params).failed && !Acceptable(Split(b, existing, params).version, params)
    ensures SameFound(b, c, existing, params)
  {
    var p := Split(b, existing, params);
    SplitFails(b, c, existing, params);
    assert [] + c == c;
    if Extract(c, p.version, params).0.Found? {
      FoundFrame(c, p.version, params);
    }
    assert p.found + [] == p.found;
  }

  /** The responses found are the same exactly when, besides, no frame could be acceptable behind the invalid header. */
  lemma FoundExactly(b: Bytes, existing: nat, params: Params)
    requires GoodParams(params)
    ensures (forall c: Bytes :: SameFound(b, c, existing, params)) <==>
            !Split(b, existing, params).failed || !Acceptable(Split(b, existing, params).version, params)
  {
    hide SameFound;
    var p := Split(b, existing, params);
    if !p.failed {
      forall c: Bytes ensures SameFound(b, c, existing, params) { SameWhenValid(b, c, existing, params); }
    } else if Acceptable(p.version, params) {
      var v: nat :| v in params && params[v] >= 1 && (p.version == UNINITIALIZED_VERSION || p.version == v);
      FrameFoundAgain(b, existing, params, v, [0]);
      assert !SameFound(b, Frame(v, [0]), existing, params);
    } else {
      forall c: Bytes ensures SameFound(b, c, existing, params) { NothingFound(b, c, existing, params); }
    }
  }

  /** A witness: ten zero bytes, and any frame behind them. */
  lemma CutsMatterAfterErrors(v: nat, payload: Bytes, params: Params)
    requires GoodParams(params) && Allowed(params, v, payload)
    ensures var bad: Bytes := [0, 0, 0, 0, 0, 0, 0, 0, 0, 0];
      && Split(bad, UNINITIALIZED_VERSION, params) == Parse([], bad, UNINITIALIZED_VERSION, true)
      && !SameFound(bad, Frame(v, payload), UNINITIALIZED_VERSION, params)
  {
    var bad: Bytes := [0, 0, 0, 0, 0, 0, 0, 0, 0, 0];
    assert bad[..3][0] == 0 && Extract(bad, UNINITIALIZED_VERSION, params) == (InvalidHeader, UNINITIALIZED_VERSION);
    assert Split(bad, UNINITIALIZED_VERSION, params) == Parse([], bad, UNINITIALIZED_VERSION, true);
    FrameFoundAgain(bad, UNINITIALIZED_VERSION, params, v, payload);
  }

  // ----- when the buffer keeps room -----

  /** Every frame of a registered version fits the buffer. */
  ghost predicate AllFit(params: Params) {
    forall v :: v in params ==> params[v] + HEADER_SIZE <= BUFFER_SIZE
  }

  /** The beginning of a frame that fits leaves room. */
  lemma BeginningLeavesRoom(b: Bytes, version: nat, params: Params)
    requires Extract(b, version, params).0.Wait? && Extract(b, version, params).0.len + HEADER_SIZE <= BUFFER_SIZE
    ensures |b| < BUFFER_SIZE
  {
  }

  lemma AnnouncedIsAllowed(b: Bytes, version: nat, params: Params)
    requires Extract(b, version, params).0.Wait?
    ensures var len := Extract(b, version, params).0.len; len == 0 || exists v :: v in params && len <= params[v]
  {
  }

  lemma ReceivedNothing(params: Params)
    ensures Received([], params) == Parse([], [], UNINITIALIZED_VERSION, false) && Delivered([], params)
  {
  }

  /** The first part of a frame that does not fit fills the buffer. */
  lemma PartFills(v: nat, payload: Bytes, params: Params)
    requires GoodParams(params) && Allowed(params, v, payload) && HEADER_SIZE + |payload| > BUFFER_SIZE
    ensures var part := Frame(v, payload)[..BUFFER_SIZE];
      Delivered([part], params) && Received([part], params) == Parse([], part, v, false)
  {
    var part := Frame(v, payload)[..BUFFER_SIZE];
    ExtractPart(v, payload, BUFFER_SIZE, UNINITIALIZED_VERSION, params);
    hide Frame, Extract, Received, Delivered;
    ReceivedNothing(params);
    Snoc([], part, params);
    assert [] + [part] == [part] && [] + part == part;
    assert [] + Drain(part, UNINITIALIZED_VERSION, params).found == [];
  }

  /**
    The index is below the buffer's length after every possible series of reads, valid or not, if and
    only if every registered version's frames fit the buffer.
  */
  lemma RoomExactly(params: Params)
    requires GoodParams(params)
    ensures AllFit(params) <==>
            forall chunks :: Delivered(chunks, params) ==> |Received(chunks, params).rest| < BUFFER_SIZE
  {
    hide Received, Delivered;
    if AllFit(params) {
      forall chunks ensures |Received(chunks, params).rest| < BUFFER_SIZE {
        var p := Received(chunks, params);
        ReceivedWaits(chunks, params);
        AnnouncedIsAllowed(p.rest, p.version, params);
        BeginningLeavesRoom(p.rest, p.version, params);
      }
    } else {
      var v :| v in params && params[v] + HEADER_SIZE > BUFFER_SIZE;
      var payload: Bytes := seq(params[v], _ => 0);
      PartFills(v, payload, params);
      var chunks := [Frame(v, payload)[..BUFFER_SIZE]];
      assert Delivered(chunks, params) && |Received(chunks, params).rest| == BUFFER_SIZE;
    }
  }

  /** With the reserved version registered, as it always is, they do not all fit. */
  lemma ReservedVersionOverflows(params: Params)
    requires Forwarding.SPECIAL_COMMUNICATION in params
    requires params[Forwarding.SPECIAL_COMMUNICATION] == Forwarding.FORWARD_LIMIT
    ensures !AllFit(params)
  {
    assert Forwarding.FORWARD_LIMIT + HEADER_SIZE > BUFFER_SIZE;
  }

  // ----- the reader -----

  ghost function Later(f: seq<Bytes>, p: Parse): Parse {
    p.(found := f + p.found)
  }

  lemma LaterTwice(taken: seq<Bytes>, payload: Bytes, p: Parse)
    ensures Later(taken, Later([payload], p)) == Later(taken + [payload], p)
  {
    assert taken + ([payload] + p.found) == taken + [payload] + p.found;
  }

  lemma LaterNone(taken: seq<Bytes>, b: Bytes, version: nat, failed: bool)
    ensures Later(taken, Parse([], b, version, failed)) == Parse(taken, b, version, failed)
  {
  }

  lemma LaterNothing(p: Parse)
    ensures Later([], p) == p
  {
  }

  lemma DrainSplits(b: Bytes, version: nat, params: Params)
    ensures var p := Split(b, version, params); Drain(b, version, params) == if p.failed then p.(rest := []) else p
  {
  }

  lemma StepSplit(b: Bytes, version: nat, params: Params)
    ensures var (verdict, v) := Extract(b, version, params); var p := Split(b, version, params);
      (!verdict.Wait? ==> |b| > HEADER_SIZE) && (b == [] ==> v == version) &&
      match verdict
      case Found(payload) =>
        HEADER_SIZE + |payload| <= |b| && p == Later([payload], Split(b[HEADER_SIZE + |payload|..], v, params))
      case Wait(_) => p == Parse([], b, v, false)
      case _ => p == Parse([], b, v, true)
  {
  }

  class Reader {
    const buffer: array<Byte>
    const params: Params
    var index: nat
    var version: nat
    var found: seq<Bytes>
    ghost var chunks: seq<Bytes>
    ghost var failed: bool

    /** The reader is where the reads so far lead to, also after invalid headers. */
    ghost predicate Valid()
      reads this, buffer
    {
      && GoodParams(params) && buffer.Length == BUFFER_SIZE && index <= BUFFER_SIZE
      && Delivered(chunks, params)
      && Parse(found, buffer[..index], version, failed) == Received(chunks, params)
    }

    constructor (params: Params)
      requires GoodParams(params)
      ensures Valid() && chunks == [] && this.params == params && fresh(buffer)
    {
      this.params := params;
      buffer := new Byte[BUFFER_SIZE](_ => 0);
      index, version, found := 0, UNINITIALIZED_VERSION, [];
      chunks, failed := [], false;
    }

    /** The loop that removes the first n bytes of the buffer. */
    method ShiftLeft(n: nat)
      requires n <= index <= buffer.Length
      modifies `index, buffer
      ensures index == old(index) - n && buffer[..index] == old(buffer[n..index])
    {
      var i := n;
      while i < index
        invariant n <= i <= index == old(index)
        invariant forall k :: 0 <= k < i - n ==> buffer[k] == old(buffer[k + n])
        invariant forall k :: i - n <= k < buffer.Length ==> buffer[k] == old(buffer[k])
      {
        buffer[i - n] := buffer[i];
        i := i + 1;
      }
      index := index - n;
    }

    /** The loop of on_read: every complete frame is taken off the buffer. */
    method ExtractAll() returns (ghost ok: bool)
      requires index <= buffer.Length
      modifies `index, `version, `found, buffer
      ensures var p := old(Drain(buffer[..index], version, params));
        && index <= old(index) && found == old(found) + p.found && buffer[..index] == p.rest && version == p.version
            && ok == !p.failed
    {
      hide Extract, Split, Drain, Later;
      ghost var p0, f0 := Split(buffer[..index], version, params), found;
      DrainSplits(buffer[..index], version, params);
      LaterNothing(p0);
      ghost var taken: seq<Bytes> := [];
      ok := true;
      while true
        invariant index <= buffer.Length && index <= old(index) && found == f0 + taken
        invariant ok ==> p0 == Later(taken, Split(buffer[..index], version, params))
        invariant !ok ==> p0.failed && taken == p0.found && version == p0.version && index == 0
        decreases index
      {
        ghost var b := buffer[..index];
        StepSplit(b, version, params);
        var verdict;
        verdict, version := ValidateProtocolAndExtractRequest(buffer[..index], version, params);
        match verdict {
          case Found(payload) =>
            found := found + [payload];
            ShiftLeft(HEADER_SIZE + |payload|);
            assert buffer[..index] == b[HEADER_SIZE + |payload|..];
            LaterTwice(taken, payload, Split(buffer[..index], version, params));
            taken := taken + [payload];
          case Wait(_) =>
            LaterNone(taken, b, version, false);
            break;
          case _ =>
            LaterNone(taken, b, version, true);
            index := 0;
            ok := false;
        }
      }
    }

    method Fill(chunk: Bytes)
      requires buffer.Length == BUFFER_SIZE && index + |chunk| <= BUFFER_SIZE
      modifies `index, buffer
      ensures index == old(index) + |chunk| && buffer[..index] == old(buffer[..index]) + chunk
    {
      var i := 0;
      while i < |chunk|
        invariant 0 <= i <= |chunk| && index == old(index)
        invariant buffer[..index + i] == old(buffer[..index]) + chunk[..i]
      {
        buffer[index + i] := chunk[i];
        i := i + 1;
      }
      index := index + |chunk|;
    }

    /** on_read; the bytes have been read in behind those left over. */
    method OnRead(chunk: Bytes)
      requires Valid() && index + |chunk| <= BUFFER_SIZE
      modifies this, buffer
      ensures Valid() && chunks == old(chunks) + [chunk]
      ensures AllFit(params) ==> index < BUFFER_SIZE
    {
      hide Extract, Drain, Received, Delivered;
      Snoc(chunks, chunk, params);
      Fill(chunk);
      chunks := chunks + [chunk];
      ghost var ok := ExtractAll();
      failed := failed || !ok;
      RoomExactly(params);
    }

    /** The index is below the buffer's length as long as the frame that has begun fits. */
    lemma RoomLeft()
      requires Valid()
      requires var verdict := Extract(buffer[..index], version, params).0;
        verdict.Wait? ==> verdict.len + HEADER_SIZE <= BUFFER_SIZE
      ensures index < BUFFER_SIZE
    {
      hide Received, Delivered, Extract;
      ReceivedWaits(chunks, params);
      BeginningLeavesRoom(buffer[..index], version, params);
    }

    /** Whatever the cuts: frames of one version give their payloads in order, and a proper part of one is left over. */
    lemma ReadsFrames(v: nat, payloads: seq<Bytes>, part: Bytes)
      requires Valid() && Joined(chunks) == Frames(v, payloads) + part
      requires forall i :: 0 <= i < |payloads| ==> Allowed(params, v, payloads[i])
      requires Extract(part, if payloads == [] then UNINITIALIZED_VERSION else v, params).0.Wait?
      ensures !failed && found == payloads && buffer[..index] == part
    {
      hide Split, Extract, Received;
      ReceivedSplits(chunks, params);
      SplitFrames(v, payloads, part, UNINITIALIZED_VERSION, params);
    }
  }

  /** One read of the first part of a frame that does not fit: the source's last assertion fails. */
  method FillUp(v: nat, payload: Bytes, params: Params) returns (reader: Reader)
    requires GoodParams(params) && Allowed(params, v, payload) && HEADER_SIZE + |payload| > BUFFER_SIZE
    ensures fresh(reader) && reader.Valid() && reader.index == BUFFER_SIZE
  {
    PartFills(v, payload, params);
    hide Received, Delivered, Frame;
    reader := new Reader(params);
    var part := Frame(v, payload)[..BUFFER_SIZE];
    ReceivedNothing(params);
    reader.OnRead(part);
    assert [] + [part] == [part];
  }
}
