/** StoreMessage groups the handles of a message by server; groups for other servers are sent in bounded parts. */
module Multicast {
  import opened Forwarding
  import opened Wire
  import opened Wrappers

  /** A server's address and a registration number there. */
  datatype Handle = Handle(server: nat, registration: nat)

  ghost function At(handles: set<Handle>, server: nat): set<Handle> {
    set h | h in handles && h.server == server
  }

  /** A response object: the handles it was created for and the bytes that are written. */
  datatype Response = Response(part: set<Handle>, bytes: Bytes)

  /** The handles of the responses in a list. */
  ghost function All(responses: seq<Response>): set<Handle> {
    if responses == [] then {} else All(responses[..|responses| - 1]) + responses[|responses| - 1].part
  }

  function Ceiling(n: nat): nat {
    (n + MAX_HANDLES - 1) / MAX_HANDLES
  }

  lemma Difference(s: set<Handle>, t: set<Handle>)
    requires t <= s
    ensures |s - t| == |s| - |t|
  {
    assert s == (s - t) + t && (s - t) !! t;
  }

  lemma LastPart(handles: nat, left: nat, parts: nat)
    requires handles == left + parts * MAX_HANDLES && 0 < left <= MAX_HANDLES
    ensures Ceiling(handles) == parts + 1
  {
  }

  /** One element after another: std::advance over a set. */
  method Take(s: set<Handle>, n: nat) returns (t: set<Handle>)
    requires n <= |s|
    ensures t <= s && |t| == n
  {
    t := {};
    while |t| < n
      invariant t <= s && |t| <= n
      decreases n - |t|
    {
      Difference(s, t);
      var h :| h in s - t;
      t := t + {h};
    }
  }

  /** The list of responses that one group of handles ends up in. */
  ghost predicate Covers(responses: seq<Response>, handles: set<Handle>, local: bool) {
    && All(responses) == handles
    && (forall i, j :: 0 <= i < j < |responses| ==> responses[i].part !! responses[j].part)
    && (forall i :: 0 <= i < |responses| ==> responses[i].part != {} && responses[i].part <= handles)
    && |responses| == (if handles == {} then 0 else if local then 1 else Ceiling(|handles|))
    && (!local ==> forall i :: 0 <= i < |responses| ==> |responses[i].part| <= MAX_HANDLES)
    && (!local ==> forall i :: 0 <= i < |responses| - 1 ==> |responses[i].part| == MAX_HANDLES)
  }

  /** Some parts have been split off, `left` is still to go. */
  ghost predicate Partial(responses: seq<Response>, handles: set<Handle>, left: set<Handle>, local: bool) {
    if left == {} then Covers(responses, handles, local)
    else
      && left <= handles && All(responses) == handles - left
      && (forall i, j :: 0 <= i < j < |responses| ==> responses[i].part !! responses[j].part)
      && (forall i :: 0 <= i < |responses| ==> responses[i].part != {} && responses[i].part <= handles - left)
      && (local ==> responses == [])
      && (!local ==> |handles| == |left| + |responses| * MAX_HANDLES)
      && (!local ==> forall i :: 0 <= i < |responses| ==> |responses[i].part| == MAX_HANDLES)
  }

  lemma AllSnoc(responses: seq<Response>, r: Response)
    ensures All(responses + [r]) == All(responses) + r.part
  {
    assert (responses + [r])[..|responses|] == responses;
  }

  lemma NoneTaken(handles: set<Handle>, local: bool)
    ensures Partial([], handles, handles, local)
  {
  }

  lemma AllTaken(responses: seq<Response>, handles: set<Handle>, local: bool)
    ensures Partial(responses, handles, {}, local) == Covers(responses, handles, local)
  {
  }

  lemma PartTaken(responses: seq<Response>, handles: set<Handle>, left: set<Handle>, r: Response, local: bool)
    requires left != {} && Partial(responses, handles, left, local) && r.part <= left
    requires if local || |left| <= MAX_HANDLES then r.part == left else |r.part| == MAX_HANDLES
    ensures r.part != {} && Partial(responses + [r], handles, left - r.part, local)
  {
    hide All;
    var part := r.part;
    AllSnoc(responses, r);
    Difference(left, part);
    if !local && |left| <= MAX_HANDLES {
      LastPart(|handles|, |left|, |responses|);
    }
    assert (handles - left) + part == handles - (left - part);
    if left - part == {} {
      assert part == left && handles - (left - part) == handles;
    }
  }

  function Smaller(a: nat, b: nat): nat {
    if a < b then a else b
  }

  /** The first part of a group of n handles, which is its largest, makes a response within the limits. */
  ghost predicate Fits(n: nat, local: bool, response: Bytes, version: nat, limits: Params) {
    && response != []
    && if local then version in limits && |response| <= limits[version]
       else SPECIAL_COMMUNICATION in limits
            && 6 + 8 * Smaller(n, MAX_HANDLES) + |response| <= limits[SPECIAL_COMMUNICATION]
  }

  /** Each part can be sent if and only if the first one can. */
  lemma PartFits(responses: seq<Response>, handles: set<Handle>, left: set<Handle>, part: set<Handle>, local: bool,
                 response: Bytes, version: nat, limits: Params)
    requires left != {} && Partial(responses, handles, left, local) && part <= left
    requires if local || |left| <= MAX_HANDLES then part == left else |part| == MAX_HANDLES
    requires responses != [] ==> Fits(|handles|, local, response, version, limits)
    ensures part != {}
    ensures Fits(|part|, local, response, version, limits) <==> Fits(|handles|, local, response, version, limits)
    ensures !local ==> |part| <= MAX_HANDLES
  {
    if responses == [] {
      assert handles - left == All([]) == {};
      assert forall h :: h in handles && h !in left ==> h in handles - left;
      assert left == handles;
    }
  }

  /** No response up to the largest allowed size is too large to be forwarded, to however many handles. */
  lemma AllowedFits(n: nat, response: Bytes, version: nat, limits: Params)
    requires 1 <= |response| <= MAX_RESPONSE
    requires SPECIAL_COMMUNICATION in limits && limits[SPECIAL_COMMUNICATION] == FORWARD_LIMIT
    ensures Fits(n, false, response, version, limits)
  {
  }

  /** These are the registration numbers of these handles, each as often as there is a handle with it. */
  ghost predicate Lists(order: seq<nat>, part: set<Handle>) {
    |order| == |part| && forall r :: r in order <==> exists h :: h in part && h.registration == r
  }

  /** The registration numbers of a set of handles, one after the other. */
  method Numbers(part: set<Handle>) returns (order: seq<nat>)
    ensures Lists(order, part)
  {
    order := [];
    var todo := part;
    ghost var done: set<Handle> := {};
    while todo != {}
      invariant done !! todo && done + todo == part && |order| == |done|
      invariant forall r :: r in order <==> exists h :: h in done && h.registration == r
      decreases todo
    {
      var h :| h in todo;
      order := order + [h.registration];
      todo := todo - {h};
      done := done + {h};
    }
    assert done == part;
  }

  /**
    What a response consists of: for the clients of this server it is the frame itself, for those of
    another it is forwarded with the registration numbers of its part.
  */
  ghost predicate Carries(r: Response, local: bool, response: Bytes, version: nat) {
    if local then r.bytes == Frame(version, response)
    else exists order: seq<nat> ::
      Lists(order, r.part) && r.bytes == Frame(SPECIAL_COMMUNICATION, ForwardPayload(version, order, response))
  }

  /** The response of one part, if its constructor does not fail. */
  method CreateResponse(part: set<Handle>, local: bool, response: Bytes, version: nat, limits: Params)
    returns (created: Option<Response>)
    requires version < 0x1_0000 && part != {} && (!local ==> |part| <= MAX_HANDLES)
    ensures created.Some? <==> Fits(|part|, local, response, version, limits)
    ensures created.Some? ==> created.value.part == part && Carries(created.value, local, response, version)
  {
    hide Frame, ForwardPayload;
    var order := Numbers(part);
    var r := Construct(response, local, order, version, limits);
    return if r.Ok? then Some(Response(part, r.value[..])) else None;
  }

  /**
    CreateResponseAndAddToQueues: parts are split off until no handle is left, or until a response
    cannot be created.  So a group is sent as a whole, or not at all when its first part does not fit.
  */
  method SplitGroup(handles: set<Handle>, local: bool, response: Bytes, version: nat, limits: Params)
    returns (responses: seq<Response>)
    requires version < 0x1_0000
    ensures handles == {} || Fits(|handles|, local, response, version, limits) ==> Covers(responses, handles, local)
    ensures handles != {} && !Fits(|handles|, local, response, version, limits) ==> responses == []
    ensures forall i :: 0 <= i < |responses| ==> Carries(responses[i], local, response, version)
  {
    hide Carries, Fits, Covers, Partial;
    responses := [];
    var left := handles;
    NoneTaken(handles, local);
    while left != {}
      invariant Partial(responses, handles, left, local)
      invariant responses != [] ==> Fits(|handles|, local, response, version, limits)
      invariant forall i :: 0 <= i < |responses| ==> Carries(responses[i], local, response, version)
      decreases left
    {
      var part := left;
      if !local && |left| > MAX_HANDLES {
        part := Take(left, MAX_HANDLES);
      }
      PartFits(responses, handles, left, part, local, response, version, limits);
      var created := CreateResponse(part, local, response, version, limits);
      if created.None? {
        return;
      }
      PartTaken(responses, handles, left, created.value, local);
      responses := responses + [created.value];
      left := left - part;
    }
    AllTaken(responses, handles, local);
  }

  // ----- grouping by server -----

  /** StoreMessage: a map from servers to handles. */
  method GroupByServer(handles: set<Handle>) returns (groups: map<nat, set<Handle>>)
    ensures forall server :: server in groups <==> At(handles, server) != {}
    ensures forall server :: server in groups ==> groups[server] == At(handles, server)
  {
    groups := map[];
    var todo := handles;
    ghost var done: set<Handle> := {};
    while todo != {}
      invariant done !! todo && done + todo == handles
      invariant forall server :: server in groups <==> At(done, server) != {}
      invariant forall server :: server in groups ==> groups[server] == At(done, server)
      decreases todo
    {
      var h :| h in todo;
      var group := if h.server in groups then groups[h.server] else {};
      ghost var more := done + {h};
      assert forall server :: At(more, server) == At(done, server) + (if server == h.server then {h} else {});
      groups := groups[h.server := group + {h}];
      todo := todo - {h};
      done := more;
    }
    assert done == handles;
  }

  /** What is sent to one server: its whole group in as many parts as needed, or nothing. */
  ghost predicate Sent(responses: seq<Response>, group: set<Handle>, local: bool, response: Bytes, version: nat,
      limits: Params)
  {
    && (if Fits(|group|, local, response, version, limits) then Covers(responses, group, local) else responses == [])
    && forall i :: 0 <= i < |responses| ==> Carries(responses[i], local, response, version)
  }

  /**
    The whole of StoreMessage: every handle gets exactly one response, all handles of a response are
    at one server, the local server's group is one response, a group of n handles elsewhere
    makes ceil(n / 16384) of them.
  */
  method StoreMessage(handles: set<Handle>, response: Bytes, version: nat, limits: Params, local: nat)
    returns (sent: map<nat, seq<Response>>)
    requires version < 0x1_0000
    ensures version !in limits || response == [] || |response| > limits[version] ==> sent == map[]
    ensures version in limits && 1 <= |response| <= limits[version] ==>
      && (forall server :: server in sent <==> At(handles, server) != {})
      && (forall server :: server in sent ==>
            Sent(sent[server], At(handles, server), server == local, response, version, limits))
  {
    sent := map[];
    if version !in limits || handles == {} || response == [] || |response| > limits[version] {
      return;
    }
    var groups := GroupByServer(handles);
    var todo := groups.Keys;
    while todo != {}
      invariant todo <= groups.Keys && sent.Keys == groups.Keys - todo
      invariant forall server :: server in sent ==>
        Sent(sent[server], At(handles, server), server == local, response, version, limits)
      decreases todo
    {
      var server :| server in todo;
      var responses := SplitGroup(groups[server], server == local, response, version, limits);
      sent := sent[server := responses];
      todo := todo - {server};
    }
  }

  lemma {:induction false} InAll(responses: seq<Response>, h: Handle) returns (i: nat)
    requires h in All(responses)
    ensures i < |responses| && h in responses[i].part
    decreases |responses|
  {
    var k := |responses| - 1;
    if h in responses[k].part { i := k; } else { i := InAll(responses[..k], h); }
  }

  // ----- from one server to the clients of all -----

  /** What a server reads off the bytes that another one wrote to it. */
  function Received(bytes: Bytes, existing: nat, requests: Params): Option<Message> {
    match Extract(bytes, existing, requests)
    case (Found(payload), version) => if version == SPECIAL_COMMUNICATION then Decode(payload) else None
    case _ => None
  }

  /**
    By this response the client of that handle gets that frame: on the local server the response goes
    to the handles of its part, on another to those that its bytes name.
  */
  ghost predicate Delivers(r: Response, local: nat, h: Handle, frame: Bytes, existing: nat, requests: Params) {
    if h.server == local then h in r.part && frame == r.bytes
    else
      var m := Received(r.bytes, existing, requests);
      m.Some? && h.registration in m.value.handles && frame == Frame(m.value.version, m.value.response)
  }

  /** Another server reads off just the registrations of the part, and the frame. */
  lemma CarriedIsDelivered(r: Response, local: nat, response: Bytes, version: nat, h: Handle, frame: Bytes,
                           existing: nat, requests: Params)
    requires Carries(r, h.server == local, response, version) && (forall g :: g in r.part ==> g.server == h.server)
    requires forall g :: g in r.part ==> g.registration < 0x1_0000_0000_0000_0000
    requires h.server != local ==> 1 <= |r.part| <= MAX_HANDLES
    requires 1 <= |response| <= MAX_RESPONSE && version < 0x1_0000
    requires GoodParams(requests) && existing in {UNINITIALIZED_VERSION, SPECIAL_COMMUNICATION}
    requires SPECIAL_COMMUNICATION in requests && requests[SPECIAL_COMMUNICATION] == FORWARD_LIMIT
    ensures Delivers(r, local, h, frame, existing, requests) <==> h in r.part && frame == Frame(version, response)
  {
    hide Frame, Extract, Decode, ForwardPayload;
    if h.server != local {
      var order: seq<nat> :|
        Lists(order, r.part) && r.bytes == Frame(SPECIAL_COMMUNICATION, ForwardPayload(version, order, response));
      var payload := ForwardPayload(version, order, response);
      ForwardFits(version, order, response);
      ExtractFrame(SPECIAL_COMMUNICATION, payload, [], existing, requests);
      assert r.bytes + [] == r.bytes;
      forall k | 0 <= k < |order| ensures order[k] < 0x1_0000_0000_0000_0000 {
        assert order[k] in order;
      }
      DecodeForward(version, order, response);
      assert h.registration in order <==> h in r.part by {
        assert forall g :: g in r.part && g.registration == h.registration ==> g == h;
      }
    }
  }

  /**
    The law of StoreMessage, end to end: every handle of a message that its version allows gets the
    message's frame by exactly one of the responses sent, at its own server; nobody else gets
    anything and nobody gets anything else.
  */
  lemma ExactlyOne(handles: set<Handle>, response: Bytes, version: nat, limits: Params, local: nat,
                   sent: map<nat, seq<Response>>, h: Handle, existing: nat, requests: Params)
    returns (i: nat)
    requires version in limits && version < 0x1_0000 && 1 <= |response| <= limits[version] && |response| <= MAX_RESPONSE
    requires SPECIAL_COMMUNICATION in limits && limits[SPECIAL_COMMUNICATION] == FORWARD_LIMIT
    requires forall server :: server in sent <==> At(handles, server) != {}
    requires forall server :: server in sent ==>
      Sent(sent[server], At(handles, server), server == local, response, version, limits)
    requires forall g :: g in handles ==> g.registration < 0x1_0000_0000_0000_0000
    requires GoodParams(requests) && existing in {UNINITIALIZED_VERSION, SPECIAL_COMMUNICATION}
    requires SPECIAL_COMMUNICATION in requests && requests[SPECIAL_COMMUNICATION] == FORWARD_LIMIT
    ensures h in handles ==> h.server in sent && i < |sent[h.server]|
    ensures forall j, frame :: h.server in sent && 0 <= j < |sent[h.server]| ==>
        (Delivers(sent[h.server][j], local, h, frame, existing, requests) <==>
           h in handles && j == i && frame == Frame(version, response))
  {
    i := 0;
    if h.server in sent {
      var group, responses := At(handles, h.server), sent[h.server];
      AllowedFits(|group|, response, version, limits);
      if h in handles {
        i := InAll(responses, h);
      }
      forall j, frame | 0 <= j < |responses|
        ensures Delivers(responses[j], local, h, frame, existing, requests) <==>
                h in handles && j == i && frame == Frame(version, response)
      {
        assert forall g :: g in responses[j].part ==> g in group;
        CarriedIsDelivered(responses[j], local, response, version, h, frame, existing, requests);
      }
    } else {
      assert h !in At(handles, h.server);
    }
  }
}
