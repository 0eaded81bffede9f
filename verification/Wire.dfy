/**
  The master protocol's frames: a header of nine bytes (preamble, version, size) and a payload.
  `Extract` is the decision that RequestParser takes on a buffer; `Split` takes it again and again.
*/
module Wire {
  import opened Wrappers

  type Bytes = seq<Byte>

  const HEADER_SIZE := 9
  /** "MAI" */
  const PREAMBLE: Bytes := [77, 65, 73]
  const UNINITIALIZED_VERSION := 0

  /** Registered versions and the request size that each allows. */
  type Params = map<nat, nat>

  ghost predicate GoodParams(params: Params) {
    forall v :: v in params ==> 1 <= v < 0x1_0000 && params[v] + HEADER_SIZE < 0x8000_0000
  }

  // ----- numbers in network byte order -----

  function Big(n: nat, width: nat): (b: Bytes)
    ensures |b| == width
  {
    if width == 0 then [] else Big(n / 256, width - 1) + [n % 256]
  }

  function Value(b: Bytes): nat {
    if b == [] then 0 else Value(b[..|b| - 1]) * 256 + b[|b| - 1]
  }

  function Limit(width: nat): nat {
    if width == 0 then 1 else 256 * Limit(width - 1)
  }

  lemma {:induction false} BigValue(n: nat, width: nat)
    requires n < Limit(width)
    ensures Value(Big(n, width)) == n
    decreases width
  {
    if width > 0 {
      BigValue(n / 256, width - 1);
      assert Big(n, width)[..width - 1] == Big(n / 256, width - 1);
    }
  }

  lemma {:induction false} ValueBig(b: Bytes)
    ensures Big(Value(b), |b|) == b && Value(b) < Limit(|b|)
    decreases |b|
  {
    if b != [] {
      ValueBig(b[..|b| - 1]);
      assert (Value(b[..|b| - 1]) * 256 + b[|b| - 1]) / 256 == Value(b[..|b| - 1]);
    }
  }

  lemma TimesKeeps(a: nat, b: nat, d: nat)
    ensures a <= b ==> a * d <= b * d
  {
  }

  lemma DivisionUnique(n: nat, d: nat, q: nat, r: nat)
    requires d >= 1 && n == d * q + r && r < d
    ensures n / d == q
  {
    var m := n / d;
    assert m * d <= n < (m + 1) * d;
    TimesKeeps(m + 1, q, d);
    TimesKeeps(q + 1, m, d);
  }

  lemma DivideTwice(n: nat, a: nat, b: nat)
    requires a >= 1 && b >= 1
    ensures a * b >= 1 && n / a / b == n / (a * b)
  {
    var q, r := n / a / b, n / a % b;
    assert n == a * (b * q + r) + n % a;
    assert a * (b * q + r) == a * b * q + a * r;
    assert a * r + n % a < a * b by { assert a * r <= a * (b - 1); }
    DivisionUnique(n, a * b, q, a * r + n % a);
  }

  lemma {:induction false} LimitPositive(width: nat)
    ensures Limit(width) >= 1
  {
    if width > 0 { LimitPositive(width - 1); }
  }

  /** Network byte order: the most significant byte comes first. */
  lemma {:induction false} BigAt(n: nat, width: nat, i: nat)
    requires i < width
    ensures Limit(width - 1 - i) >= 1 && Big(n, width)[i] == n / Limit(width - 1 - i) % 256
    decreases width
  {
    LimitPositive(width - 1 - i);
    if i < width - 1 {
      BigAt(n / 256, width - 1, i);
      DivideTwice(n, 256, Limit(width - 2 - i));
    } else {
      assert Limit(0) == 1;
    }
  }

  lemma Limits()
    ensures Limit(2) == 0x1_0000 && Limit(4) == 0x1_0000_0000 && Limit(8) == 0x1_0000_0000_0000_0000
  {
    assert Limit(1) == 256 && Limit(2) == 65536 && Limit(3) == 16777216 && Limit(4) == 4294967296;
    assert Limit(5) == 1099511627776 && Limit(6) == 281474976710656;
    assert Limit(7) == 72057594037927936;
  }

  // ----- frames -----

  function Frame(version: nat, payload: Bytes): (b: Bytes)
    ensures |b| == HEADER_SIZE + |payload|
  {
    PREAMBLE + Big(version, 2) + Big(|payload|, 4) + payload
  }

  function Frames(version: nat, payloads: seq<Bytes>): Bytes {
    if payloads == [] then [] else Frame(version, payloads[0]) + Frames(version, payloads[1..])
  }

  /** A payload that this version may carry in a request. */
  predicate Allowed(params: Params, version: nat, payload: Bytes) {
    version in params && 1 <= |payload| <= params[version]
  }

  // ----- ValidateProtocolAndExtractRequest -----

  datatype Verdict = Wait(len: nat) | InvalidHeader | InvalidVersion | InvalidSize | Found(payload: Bytes)

  /** The verdict on a buffer, and the version as it is known afterwards. */
  function Extract(b: Bytes, existing: nat, params: Params): (r: (Verdict, nat))
    ensures r.0.Found? ==> r.0.payload != [] && HEADER_SIZE + |r.0.payload| <= |b|
  {
    if |b| < HEADER_SIZE + 1 then (Wait(0), existing)
    else if b[..3] != PREAMBLE then (InvalidHeader, existing)
    else
      var version := Value(b[3..5]);
      if version == UNINITIALIZED_VERSION || (existing != UNINITIALIZED_VERSION && existing != version)
      then (InvalidVersion, existing)
      else
        var size := Value(b[5..9]);
        if size == 0 then (InvalidSize, version)
        else if version !in params then (InvalidVersion, version)
        else if size > params[version] then (InvalidSize, version)
        else if size + HEADER_SIZE > |b| then (Wait(size), version)
        else (Found(b[9..9 + size]), version)
  }

  lemma FrameParts(version: nat, payload: Bytes, rest: Bytes)
    requires version < 0x1_0000 && |payload| < 0x1_0000_0000
    ensures var b := Frame(version, payload) + rest;
      && b[..3] == PREAMBLE && Value(b[3..5]) == version && Value(b[5..9]) == |payload|
      && b[9..9 + |payload|] == payload && b[9 + |payload|..] == rest
  {
    var b := Frame(version, payload) + rest;
    assert b[3..5] == Big(version, 2) && b[5..9] == Big(|payload|, 4);
    Limits();
    BigValue(version, 2);
    BigValue(|payload|, 4);
  }

  /** A buffer that starts with a whole allowed frame yields its payload. */
  lemma ExtractFrame(version: nat, payload: Bytes, rest: Bytes, existing: nat, params: Params)
    requires GoodParams(params) && Allowed(params, version, payload) && existing in {UNINITIALIZED_VERSION, version}
    ensures Extract(Frame(version, payload) + rest, existing, params) == (Found(payload), version)
  {
    FrameParts(version, payload, rest);
    hide Frame, Value;
  }

  /** And conversely: what is found comes in exactly that frame. */
  lemma FoundFrame(b: Bytes, existing: nat, params: Params)
    requires Extract(b, existing, params).0.Found?
    ensures var payload, version := Extract(b, existing, params).0.payload, Extract(b, existing, params).1;
      && Allowed(params, version, payload) && b[..HEADER_SIZE + |payload|] == Frame(version, payload)
      && existing in {UNINITIALIZED_VERSION, version}
  {
    ValueBig(b[3..5]);
    ValueBig(b[5..9]);
    var payload, version := Extract(b, existing, params).0.payload, Extract(b, existing, params).1;
    assert b[..9 + |payload|] == b[..3] + b[3..5] + b[5..9] + b[9..9 + |payload|];
  }

  /** A proper part of a frame is waited on, and from ten bytes on its size is known. */
  lemma ExtractPart(version: nat, payload: Bytes, n: nat, existing: nat, params: Params)
    requires GoodParams(params) && Allowed(params, version, payload) && existing in {UNINITIALIZED_VERSION, version}
    requires n < HEADER_SIZE + |payload|
    ensures var b := Frame(version, payload)[..n];
      Extract(b, existing, params) == if n < HEADER_SIZE + 1 then (Wait(0), existing) else (Wait(|payload|), version)
  {
    var f := Frame(version, payload);
    FrameParts(version, payload, []);
    assert f + [] == f;
    if n >= 10 {
      assert f[..n][..3] == f[..3] && f[..n][3..5] == f[3..5] && f[..n][5..9] == f[5..9];
    }
    hide Frame, Value;
  }

  /** The buffer starts with a whole frame that this connection may carry. */
  ghost predicate StartsWithFrame(b: Bytes, existing: nat, params: Params) {
    exists version, payload :: Allowed(params, version, payload) && existing in {UNINITIALIZED_VERSION, version}
        && Frame(version, payload) <= b
  }

  /** The buffer is a proper part, in front, of a frame with a payload of this size. */
  ghost predicate IsPart(b: Bytes, size: nat, existing: nat, params: Params) {
    exists version, payload :: Allowed(params, version, payload) && existing in {UNINITIALIZED_VERSION, version}
        && |payload| == size && b < Frame(version, payload)
  }

  lemma WaitIsPart(b: Bytes, existing: nat, params: Params)
    requires |b| > HEADER_SIZE && Extract(b, existing, params).0.Wait?
    ensures IsPart(b, Extract(b, existing, params).0.len, existing, params)
  {
    ValueBig(b[3..5]);
    ValueBig(b[5..9]);
    var (verdict, version) := Extract(b, existing, params);
    var payload: Bytes := b[9..] + seq(verdict.len + 9 - |b|, _ => 0);
    assert b == b[..3] + b[3..5] + b[5..9] + b[9..];
    assert b == Frame(version, payload)[..|b|];
    assert Allowed(params, version, payload);
  }

  lemma FoundStarts(b: Bytes, existing: nat, params: Params)
    requires Extract(b, existing, params).0.Found?
    ensures StartsWithFrame(b, existing, params)
  {
    hide Extract, Frame;
    FoundFrame(b, existing, params);
    var (verdict, version) := Extract(b, existing, params);
    assert Frame(version, verdict.payload) <= b;
  }

  lemma StartsFound(b: Bytes, existing: nat, params: Params)
    requires GoodParams(params) && StartsWithFrame(b, existing, params)
    ensures Extract(b, existing, params).0.Found?
  {
    hide Extract, Frame;
    var version, payload :| Allowed(params, version, payload) && existing in {UNINITIALIZED_VERSION, version}
        && Frame(version, payload) <= b;
    ExtractFrame(version, payload, b[HEADER_SIZE + |payload|..], existing, params);
    assert b == Frame(version, payload) + b[HEADER_SIZE + |payload|..];
  }

  lemma PartWaits(b: Bytes, size: nat, existing: nat, params: Params)
    requires GoodParams(params) && IsPart(b, size, existing, params)
    ensures Extract(b, existing, params).0 == Wait(if |b| <= HEADER_SIZE then 0 else size)
  {
    hide Extract, Frame;
    var version, payload :| Allowed(params, version, payload) && existing in {UNINITIALIZED_VERSION, version}
        && |payload| == size && b < Frame(version, payload);
    ExtractPart(version, payload, |b|, existing, params);
    assert b == Frame(version, payload)[..|b|];
  }

  /**
    The verdict, without the parser: nothing is decided on up to nine bytes; behind that a buffer that starts with
    an allowed frame is a find, one that may still become such a frame is waited on, and any other is invalid.
  */
  lemma VerdictExactly(b: Bytes, existing: nat, params: Params)
    requires GoodParams(params)
    ensures var verdict := Extract(b, existing, params).0;
      && (|b| <= HEADER_SIZE ==> verdict == Wait(0))
      && (verdict.Found? <==> StartsWithFrame(b, existing, params))
      && (|b| > HEADER_SIZE ==> forall len :: verdict == Wait(len) <==> IsPart(b, len, existing, params))
  {
    hide IsPart, StartsWithFrame;
    var verdict := Extract(b, existing, params).0;
    assert |b| <= HEADER_SIZE ==> verdict == Wait(0);
    hide Extract;
    if verdict.Found? {
      FoundStarts(b, existing, params);
    }
    if StartsWithFrame(b, existing, params) {
      StartsFound(b, existing, params);
    }
    if |b| > HEADER_SIZE && verdict.Wait? {
      WaitIsPart(b, existing, params);
    }
    forall len: nat | |b| > HEADER_SIZE && IsPart(b, len, existing, params) ensures verdict == Wait(len) {
      PartWaits(b, len, existing, params);
    }
  }

  /** The parser itself: a decision with a short loop over the preamble. */
  method ValidateProtocolAndExtractRequest(b: Bytes, existing: nat, params: Params)
    returns (verdict: Verdict, version: nat)
    ensures (verdict, version) == Extract(b, existing, params)
  {
    version := existing;
    if |b| < HEADER_SIZE + 1 {
      return Wait(0), existing;
    }
    var i := 0;
    while i < 3
      invariant 0 <= i <= 3 && b[..i] == PREAMBLE[..i]
    {
      if b[i] != PREAMBLE[i] {
        assert b[..3][i] != PREAMBLE[i];
        return InvalidHeader, existing;
      }
      i := i + 1;
    }
    var v := Value(b[3..5]);
    if v == UNINITIALIZED_VERSION || (existing != UNINITIALIZED_VERSION && existing != v) {
      return InvalidVersion, existing;
    }
    version := v;
    var size := Value(b[5..9]);
    if size == 0 {
      return InvalidSize, version;
    }
    if version !in params {
      return InvalidVersion, version;
    }
    if size > params[version] {
      return InvalidSize, version;
    }
    if size + HEADER_SIZE > |b| {
      return Wait(size), version;
    }
    return Found(b[9..9 + size]), version;
  }

  // ----- one verdict after another -----

  /** Payloads found, bytes left over, the version, and whether a header was invalid. */
  datatype Parse = Parse(found: seq<Bytes>, rest: Bytes, version: nat, failed: bool)

  function Split(b: Bytes, existing: nat, params: Params): (p: Parse)
    ensures |p.rest| <= |b|
    decreases |b|
  {
    match Extract(b, existing, params)
    case (Wait(len), version) => Parse([], b, version, false)
    case (Found(payload), version) =>
      var p := Split(b[HEADER_SIZE + |payload|..], version, params);
      p.(found := [payload] + p.found)
    case (_, version) => Parse([], b, version, true)
  }

  lemma WaitLonger(b: Bytes, c: Bytes, existing: nat, params: Params)
    requires Extract(b, existing, params).0.Found?
    ensures Extract(b + c, existing, params) == Extract(b, existing, params)
  {
    var d := b + c;
    assert d[..3] == b[..3] && d[3..5] == b[3..5] && d[5..9] == b[5..9];
    var n := 9 + |Extract(b, existing, params).0.payload|;
    assert d[9..n] == b[9..n];
  }

  lemma WaitVersion(b: Bytes, c: Bytes, existing: nat, params: Params)
    requires Extract(b, existing, params).0.Wait?
    ensures Extract(b + c, Extract(b, existing, params).1, params) == Extract(b + c, existing, params)
    ensures Split(b + c, Extract(b, existing, params).1, params) == Split(b + c, existing, params)
  {
    var d := b + c;
    if |b| >= 10 {
      assert d[..3] == b[..3] && d[3..5] == b[3..5] && d[5..9] == b[5..9];
    }
  }

  /** It does not matter how the bytes are cut: going on with what was left over gives the same. */
  lemma {:induction false} SplitAppend(b: Bytes, c: Bytes, existing: nat, params: Params)
    requires !Split(b, existing, params).failed
    ensures var p := Split(b, existing, params); var q := Split(p.rest + c, p.version, params);
      Split(b + c, existing, params) == q.(found := p.found + q.found)
    decreases |b|
  {
    hide Extract;
    var (verdict, version) := Extract(b, existing, params);
    if verdict.Found? {
      var n := HEADER_SIZE + |verdict.payload|;
      WaitLonger(b, c, existing, params);
      assert (b + c)[n..] == b[n..] + c;
      SplitAppend(b[n..], c, version, params);
      var p := Split(b[n..], version, params);
      var q := Split(p.rest + c, p.version, params);
      assert [verdict.payload] + (p.found + q.found) == ([verdict.payload] + p.found) + q.found;
    } else {
      WaitVersion(b, c, existing, params);
      var q := Split(b + c, version, params);
      assert [] + q.found == q.found;
    }
  }

  lemma StaysInvalid(b: Bytes, c: Bytes, existing: nat, params: Params)
    requires !Extract(b, existing, params).0.Found? && !Extract(b, existing, params).0.Wait?
    ensures Extract(b + c, existing, params) == Extract(b, existing, params)
  {
    var d := b + c;
    assert d[..3] == b[..3] && d[3..5] == b[3..5] && d[5..9] == b[5..9];
  }

  /** What comes behind an invalid header is not looked at. */
  lemma {:induction false} SplitFails(b: Bytes, c: Bytes, existing: nat, params: Params)
    requires Split(b, existing, params).failed
    ensures var p, q := Split(b, existing, params), Split(b + c, existing, params);
      q.failed && q.found == p.found && q.version == p.version
    decreases |b|
  {
    hide Extract;
    var (verdict, version) := Extract(b, existing, params);
    if verdict.Found? {
      var n := HEADER_SIZE + |verdict.payload|;
      WaitLonger(b, c, existing, params);
      assert (b + c)[n..] == b[n..] + c;
      SplitFails(b[n..], c, version, params);
    } else {
      StaysInvalid(b, c, existing, params);
    }
  }

  /** A concatenation of allowed frames of one version splits into its payloads. */
  lemma {:induction false} SplitFrames(version: nat, payloads: seq<Bytes>, part: Bytes, existing: nat, params: Params)
    requires GoodParams(params) && existing in {UNINITIALIZED_VERSION, version}
    requires forall i :: 0 <= i < |payloads| ==> Allowed(params, version, payloads[i])
    requires Extract(part, if payloads == [] then existing else version, params).0.Wait?
    ensures var p := Split(Frames(version, payloads) + part, existing, params);
      !p.failed && p.found == payloads && p.rest == part
    decreases |payloads|
  {
    hide Extract, Frame;
    if payloads == [] {
      assert Frames(version, payloads) + part == part;
    } else {
      var f, tail := Frame(version, payloads[0]), Frames(version, payloads[1..]) + part;
      assert Frames(version, payloads) + part == f + tail;
      ExtractFrame(version, payloads[0], tail, existing, params);
      assert (f + tail)[|f|..] == tail;
      SplitFrames(version, payloads[1..], part, version, params);
    }
  }

  lemma FramesCons(version: nat, payload: Bytes, payloads: seq<Bytes>)
    ensures Frames(version, [payload] + payloads) == Frame(version, payload) + Frames(version, payloads)
  {
    assert ([payload] + payloads)[1..] == payloads;
  }

  lemma NoFrames(version: nat)
    ensures Frames(version, []) == []
  {
  }

  lemma Rejoin(b: Bytes, n: nat, front: Bytes, middle: Bytes, rest: Bytes)
    requires n <= |b| && b[..n] == front && b[n..] == middle + rest
    ensures b == front + middle + rest
  {
    assert b == b[..n] + b[n..];
  }

  /** What has been found and what is left over are the bytes, frame by frame. */
  lemma {:induction false} SplitSound(b: Bytes, existing: nat, params: Params)
    requires !Split(b, existing, params).failed
    ensures var p := Split(b, existing, params);
      && b == Frames(p.version, p.found) + p.rest && Extract(p.rest, p.version, params).0.Wait?
      && (existing == p.version || existing == UNINITIALIZED_VERSION)
      && (forall i :: 0 <= i < |p.found| ==> Allowed(params, p.version, p.found[i]))
    decreases |b|
  {
    hide Frame, Frames, Value;
    var (verdict, version) := Extract(b, existing, params);
    if verdict.Found? {
      var n := HEADER_SIZE + |verdict.payload|;
      FoundFrame(b, existing, params);
      SplitSound(b[n..], version, params);
      var p := Split(b[n..], version, params);
      FramesCons(p.version, verdict.payload, p.found);
      Rejoin(b, n, Frame(version, verdict.payload), Frames(version, p.found), p.rest);
    } else {
      NoFrames(version);
      assert Frames(version, []) + b == b;
      WaitVersion(b, [], existing, params);
      assert b + [] == b;
    }
  }
}
