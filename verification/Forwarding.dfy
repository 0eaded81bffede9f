/**
  Responses for clients of another server travel there inside a request of the reserved version:
  the sender's version, the number of handles, the handles, the response.  The receiver decodes
  this and builds the frame again for its own clients.
*/
module Forwarding {
  import opened Wire
  import opened Wrappers

  const SPECIAL_COMMUNICATION := 0xFFFF
  const MAX_HANDLES := 16384
  const MAX_RESPONSE := 1024 * 1024
  const FORWARD_LIMIT := 2 + 4 + MAX_HANDLES * 8 + MAX_RESPONSE

  /** Why a response object cannot be created. */
  datatype Failure = CreationError

  /** Registration numbers in network byte order. */
  function HandleBytes(handles: seq<nat>): (b: Bytes)
    ensures |b| == 8 * |handles|
  {
    if handles == [] then [] else HandleBytes(handles[..|handles| - 1]) + Big(handles[|handles| - 1], 8)
  }

  function ForwardPayload(version: nat, handles: seq<nat>, response: Bytes): (b: Bytes)
    ensures |b| == 6 + 8 * |handles| + |response|
  {
    Big(version, 2) + Big(|handles|, 4) + HandleBytes(handles) + response
  }

  ghost predicate GoodHandles(handles: seq<nat>) {
    forall i :: 0 <= i < |handles| ==> handles[i] < 0x1_0000_0000_0000_0000
  }

  // ----- encoding: buffers filled at offsets -----

  /** memcpy_s */
  method Copy(b: array<Byte>, offset: nat, data: Bytes)
    requires offset + |data| <= b.Length
    modifies b
    ensures b[..offset + |data|] == old(b[..offset]) + data
    ensures b[offset + |data|..] == old(b[offset + |data|..])
  {
    forall i | 0 <= i < |data| { b[offset + i] := data[i]; }
  }

  /** Preamble, version and size. */
  method PutHeader(b: array<Byte>, version: nat, size: nat)
    requires b.Length >= HEADER_SIZE
    modifies b
    ensures b[..9] == PREAMBLE + Big(version, 2) + Big(size, 4) && b[9..] == old(b[9..])
  {
    Copy(b, 0, PREAMBLE);
    Copy(b, 3, Big(version, 2));
    Copy(b, 5, Big(size, 4));
  }

  /** ConstructResponseForLocalClients; `limits` holds the largest response of each registered version. */
  method ConstructForLocalClients(response: Bytes, version: nat, limits: Params)
    returns (r: Result<array<Byte>, Failure>)
    requires version < 0x1_0000
    ensures r.Ok? <==> version in limits && |response| <= limits[version]
    ensures r.Ok? ==> fresh(r.value) && r.value[..] == Frame(version, response)
  {
    if version !in limits || |response| > limits[version] {
      return Err(CreationError);
    }
    var b := new Byte[|response| + HEADER_SIZE](_ => 0);
    PutHeader(b, version, |response|);
    Copy(b, 9, response);
    assert b[..] == b[..9 + |response|];
    return Ok(b);
  }

  /** The loop that lays the handles out. */
  method LayOutHandles(handles: seq<nat>) returns (b: array<Byte>)
    ensures fresh(b) && b[..] == HandleBytes(handles)
  {
    b := new Byte[8 * |handles|](_ => 0);
    var i := 0;
    while i < |handles|
      invariant 0 <= i <= |handles| && b[..8 * i] == HandleBytes(handles[..i])
    {
      assert handles[..i + 1][..i] == handles[..i];
      ghost var before := b[..8 * i];
      Copy(b, 8 * i, Big(handles[i], 8));
      i := i + 1;
    }
    assert handles[..i] == handles && b[..8 * i] == b[..];
  }

  /** The buffer of a forwarded response, part after part. */
  method FillForwarded(response: Bytes, n: nat, laid: array<Byte>, version: nat) returns (b: array<Byte>)
    ensures fresh(b)
    ensures b[..] ==
      PREAMBLE + Big(SPECIAL_COMMUNICATION, 2) + Big(2 + 4 + laid.Length + |response|, 4)
      + Big(version, 2) + Big(n, 4) + laid[..] + response
  {
    hide Big;
    var extra := 2 + 4 + laid.Length;
    b := new Byte[|response| + HEADER_SIZE + extra](_ => 0);
    PutHeader(b, SPECIAL_COMMUNICATION, |response| + extra);
    Copy(b, 9, Big(version, 2));
    Copy(b, 11, Big(n, 4));
    Copy(b, 15, laid[..]);
    Copy(b, 15 + laid.Length, response);
    assert b[..] == b[..15 + laid.Length + |response|];
  }

  lemma InOneFrame(a: Bytes, b: Bytes, c: Bytes, d: Bytes, e: Bytes)
    ensures a + b + c + d + e == a + (b + c + d + e)
  {
  }

  /** ConstructResponseForRemoteClients */
  method ConstructForRemoteClients(response: Bytes, handles: seq<nat>, version: nat, limits: Params)
    returns (r: Result<array<Byte>, Failure>)
    requires version < 0x1_0000
    ensures r.Ok? <==>
      && SPECIAL_COMMUNICATION in limits
      && |ForwardPayload(version, handles, response)| <= limits[SPECIAL_COMMUNICATION]
    ensures r.Ok? ==>
      fresh(r.value) && r.value[..] == Frame(SPECIAL_COMMUNICATION, ForwardPayload(version, handles, response))
  {
    var laid := LayOutHandles(handles);
    var extra := 2 + 4 + laid.Length;
    if SPECIAL_COMMUNICATION !in limits || |response| + extra > limits[SPECIAL_COMMUNICATION] {
      return Err(CreationError);
    }
    var b := FillForwarded(response, |handles|, laid, version);
    assert b[..] == Frame(SPECIAL_COMMUNICATION, ForwardPayload(version, handles, response)) by {
      hide Big, HandleBytes;
      InOneFrame(PREAMBLE + Big(SPECIAL_COMMUNICATION, 2) + Big(|response| + extra, 4),
                 Big(version, 2), Big(|handles|, 4), HandleBytes(handles), response);
    }
    return Ok(b);
  }

  /**
    The constructor of a response: no response is empty, and one for another server has a limited
    number of handles.
  */
  method Construct(response: Bytes, local: bool, handles: seq<nat>, version: nat, limits: Params)
    returns (r: Result<array<Byte>, Failure>)
    requires version < 0x1_0000 && handles != []
    ensures response == [] ==> r.Err?
    ensures response != [] && local ==> (r.Ok? <==> version in limits && |response| <= limits[version])
    ensures response != [] && !local ==>
      (r.Ok? <==>
         && |handles| <= MAX_HANDLES && SPECIAL_COMMUNICATION in limits
         && |ForwardPayload(version, handles, response)| <= limits[SPECIAL_COMMUNICATION])
    ensures r.Ok? ==>
      && fresh(r.value)
      && r.value[..] == if local then Frame(version, response)
                        else Frame(SPECIAL_COMMUNICATION, ForwardPayload(version, handles, response))
  {
    if response == [] {
      return Err(CreationError);
    }
    if local {
      r := ConstructForLocalClients(response, version, limits);
    } else {
      if |handles| > MAX_HANDLES {
        return Err(CreationError);
      }
      r := ConstructForRemoteClients(response, handles, version, limits);
    }
  }

  // ----- decoding -----

  datatype Message = Message(version: nat, handles: seq<nat>, response: Bytes)

  function HandlesAt(b: Bytes, at: nat, n: nat): (h: seq<nat>)
    requires at + 8 * n <= |b|
    ensures |h| == n
  {
    if n == 0 then [] else HandlesAt(b, at, n - 1) + [Value(b[at + 8 * (n - 1)..at + 8 * n])]
  }

  /** What the receiver makes of a request of the reserved version. */
  function Decode(b: Bytes): Option<Message> {
    if |b| < 6 then None
    else
      var n := Value(b[2..6]);
      if |b| < 7 + 8 * n then None
      else Some(Message(Value(b[..2]), HandlesAt(b, 6, n), b[6 + 8 * n..]))
  }

  /**
    ProcessRequest up to the point where the response is sent on.  The length that the source asks
    for first is cut off to 32 bits, but its loop asks again, so just the right lengths pass.
  */
  method ProcessRequest(b: Bytes) returns (r: Option<(nat, seq<nat>, set<nat>, Bytes)>)
    requires |b| < 0x8000_0000
    ensures match Decode(b)
      case None => r.None?
      case Some(m) =>
        && r.Some? && r.value.0 == m.version && r.value.1 == m.handles && r.value.3 == m.response
        && forall h :: h in r.value.2 <==> h in m.handles
  {
    if |b| < 2 + 4 {
      return None;
    }
    var version := Value(b[..2]);
    var numberOfHandles := Value(b[2..6]);
    ValueBig(b[2..6]);
    Limits();
    var minimumLength := (2 + 4 + numberOfHandles * 8 + 1) % 0x1_0000_0000;
    if |b| < minimumLength {
      return None;
    }
    var index := 6;
    var order, handles := [], {};
    var count := 0;
    while count < numberOfHandles
      invariant 0 <= count <= numberOfHandles && index == 6 + 8 * count && (count > 0 ==> index < |b|)
      invariant index <= |b| && order == HandlesAt(b, 6, count) && forall h :: h in handles <==> h in order
    {
      if index + 8 >= |b| {
        return None;
      }
      var h := Value(b[index..index + 8]);
      index := index + 8;
      order := order + [h];
      handles := handles + {h};
      count := count + 1;
    }
    return Some((version, order, handles, b[index..]));
  }

  // ----- transparency -----

  lemma SliceTwo(b: Bytes, at: nat, front: Bytes, last: Bytes)
    requires at + |front| + |last| <= |b| && b[at..at + |front| + |last|] == front + last
    ensures b[at..at + |front|] == front && b[at + |front|..at + |front| + |last|] == last
  {
    var w := b[at..at + |front| + |last|];
    assert b[at..at + |front|] == w[..|front|] && b[at + |front|..at + |front| + |last|] == w[|front|..];
  }

  lemma BackAgain(h: nat)
    requires h < 0x1_0000_0000_0000_0000
    ensures Value(Big(h, 8)) == h
  {
    Limits();
    BigValue(h, 8);
  }

  lemma {:induction false} HandlesBack(b: Bytes, at: nat, handles: seq<nat>)
    requires GoodHandles(handles) && at + 8 * |handles| <= |b| && b[at..at + 8 * |handles|] == HandleBytes(handles)
    ensures HandlesAt(b, at, |handles|) == handles
    decreases |handles|
  {
    hide Big, Value;
    if handles != [] {
      var k := |handles| - 1;
      SliceTwo(b, at, HandleBytes(handles[..k]), Big(handles[k], 8));
      HandlesBack(b, at, handles[..k]);
      BackAgain(handles[k]);
      assert handles == handles[..k] + [handles[k]];
    }
  }

  /** The decoder undoes the encoder. */
  lemma DecodeForward(version: nat, handles: seq<nat>, response: Bytes)
    requires version < 0x1_0000 && GoodHandles(handles) && |handles| < 0x1_0000_0000 && response != []
    ensures Decode(ForwardPayload(version, handles, response)) == Some(Message(version, handles, response))
  {
    var b, n := ForwardPayload(version, handles, response), |handles|;
    assert b[..2] == Big(version, 2) && b[2..6] == Big(n, 4);
    assert b[6..6 + 8 * n] == HandleBytes(handles) && b[6 + 8 * n..] == response;
    Limits();
    BigValue(version, 2);
    BigValue(n, 4);
    HandlesBack(b, 6, handles);
  }

  lemma FourParts(b: Bytes, n: nat)
    requires 6 + 8 * n <= |b|
    ensures b == b[..2] + b[2..6] + b[6..6 + 8 * n] + b[6 + 8 * n..]
  {
  }

  lemma {:induction false} HandlesForth(b: Bytes, at: nat, n: nat)
    requires at + 8 * n <= |b|
    ensures HandleBytes(HandlesAt(b, at, n)) == b[at..at + 8 * n] && GoodHandles(HandlesAt(b, at, n))
    decreases n
  {
    if n > 0 {
      HandlesForth(b, at, n - 1);
      ValueBig(b[at + 8 * (n - 1)..at + 8 * n]);
      Limits();
      var h := HandlesAt(b, at, n);
      assert h[..n - 1] == HandlesAt(b, at, n - 1);
      assert b[at..at + 8 * n] == b[at..at + 8 * (n - 1)] + b[at + 8 * (n - 1)..at + 8 * n];
    }
  }

  /** The encoder undoes the decoder. */
  lemma ForwardDecode(b: Bytes)
    requires Decode(b).Some?
    ensures var m := Decode(b).value;
      ForwardPayload(m.version, m.handles, m.response) == b && m.response != [] && GoodHandles(m.handles)
          && m.version < 0x1_0000
  {
    hide Value, Big, Limit, HandlesAt, HandleBytes;
    var n := Value(b[2..6]);
    ValueBig(b[..2]);
    ValueBig(b[2..6]);
    Limits();
    HandlesForth(b, 6, n);
    FourParts(b, n);
  }

  /** What every allowed forwarded response takes up fits the limit of the reserved version. */
  lemma ForwardFits(version: nat, handles: seq<nat>, response: Bytes)
    requires |handles| <= MAX_HANDLES && |response| <= MAX_RESPONSE
    ensures |ForwardPayload(version, handles, response)| <= FORWARD_LIMIT
    ensures FORWARD_LIMIT + HEADER_SIZE < 0x8000_0000
  {
  }

  /**
    One server forwards, the other parses, decodes and builds the frame: the receivers are the
    handles that were sent, and what they get is what a client of the first server gets.
    `requests` and `limits` hold the largest request and response of each version, on both servers;
    the version may be the reserved one itself.  By ForwardFits no response up to MAX_RESPONSE is too
    large to be forwarded.
  */
  method ForwardAndDeliver(response: Bytes, handles: seq<nat>, version: nat, requests: Params, limits: Params)
    returns (receivers: set<nat>, delivered: array<Byte>, kept: array<Byte>)
    requires GoodParams(requests) && version in limits && version < 0x1_0000
    requires SPECIAL_COMMUNICATION in requests && requests[SPECIAL_COMMUNICATION] == FORWARD_LIMIT
    requires SPECIAL_COMMUNICATION in limits && limits[SPECIAL_COMMUNICATION] == FORWARD_LIMIT
    requires GoodHandles(handles) && 1 <= |handles| <= MAX_HANDLES
    requires 1 <= |response| <= limits[version] && |ForwardPayload(version, handles, response)| <= FORWARD_LIMIT
    ensures forall h :: h in receivers <==> h in handles
    ensures delivered[..] == kept[..] == Frame(version, response)
  {
    var here := Construct(response, true, handles, version, limits);
    var sent := Construct(response, false, handles, version, limits);
    var payload := ForwardPayload(version, handles, response);
    assert Frame(SPECIAL_COMMUNICATION, payload) + [] == Frame(SPECIAL_COMMUNICATION, payload);
    ExtractFrame(SPECIAL_COMMUNICATION, payload, [], UNINITIALIZED_VERSION, requests);
    var verdict, v := ValidateProtocolAndExtractRequest(sent.value[..], UNINITIALIZED_VERSION, requests);
    DecodeForward(version, handles, response);
    var m := ProcessRequest(verdict.payload);
    var there := Construct(m.value.3, true, handles, m.value.0, limits);
    receivers, delivered, kept := m.value.2, there.value, here.value;
  }
}
