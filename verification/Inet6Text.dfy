/** The text form of IPv6 addresses: what inet_ntop6 prints, and why inet_pton6 reads it back. */
module Inet6Text {
  import opened InetText
  import opened Wrappers

  function WordAt(b: seq<Byte>, i: nat): Word
    requires |b| == 16 && i < 8
  {
    b[2 * i] as int * 256 + b[2 * i + 1]
  }

  function Words(b: seq<Byte>): (w: seq<Word>)
    requires |b| == 16
    ensures |w| == 8 && forall i :: 0 <= i < 8 ==> w[i] == WordAt(b, i)
  {
    seq(8, i requires 0 <= i < 8 => WordAt(b, i))
  }

  function WordBytes(w: Word): (b: seq<Byte>)
    ensures |b| == 2
  {
    [w / 256, w % 256]
  }

  function Bytes(ws: seq<Word>): (b: seq<Byte>)
    ensures |b| == 2 * |ws|
  {
    if ws == [] then [] else Bytes(ws[..|ws| - 1]) + WordBytes(ws[|ws| - 1])
  }

  lemma {:induction false} BytesAt(ws: seq<Word>, k: nat)
    requires k < |ws|
    ensures Bytes(ws)[2 * k] == ws[k] / 256 && Bytes(ws)[2 * k + 1] == ws[k] % 256
    decreases |ws|
  {
    if k < |ws| - 1 { BytesAt(ws[..|ws| - 1], k); }
  }

  lemma BytesOfWords(b: seq<Byte>)
    requires |b| == 16
    ensures Bytes(Words(b)) == b
  {
    forall i | 0 <= i < 16 ensures Bytes(Words(b))[i] == b[i] {
      BytesAt(Words(b), i / 2);
      assert i == 2 * (i / 2) || i == 2 * (i / 2) + 1;
    }
  }

  lemma {:induction false} BytesConcat(a: seq<Word>, c: seq<Word>)
    ensures Bytes(a + c) == Bytes(a) + Bytes(c)
    decreases |c|
  {
    if c == [] {
      assert a + c == a;
    } else {
      BytesConcat(a, c[..|c| - 1]);
      assert (a + c)[..|a + c| - 1] == a + c[..|c| - 1];
    }
  }

  // ----- the run of zeros that "::" stands for -----

  datatype Run = Run(base: nat, len: nat)

  ghost predicate Zeros(w: seq<Word>, base: nat, len: nat) {
    base + len <= |w| && forall i :: base <= i < base + len ==> w[i] == 0
  }

  /** The leftmost longest run of at least two zero words. */
  ghost predicate LeftmostLongest(w: seq<Word>, best: Option<Run>) {
    match best
    case None => forall base: nat, len: nat :: len >= 2 ==> !Zeros(w, base, len)
    case Some(r) =>
      && r.len >= 2 && Zeros(w, r.base, r.len)
      && forall base: nat, len: nat :: Zeros(w, base, len) && len >= 1 ==>
          len < r.len || (len == r.len && base >= r.base)
  }

  // ----- the text -----

  function Hex(w: Word): string {
    Number(w, 16)
  }

  /** Words in hexadecimal with colons between them. */
  function Joined(ws: seq<Word>): string {
    if ws == [] then [] else if |ws| == 1 then Hex(ws[0])
    else Joined(ws[..|ws| - 1]) + ":" + Hex(ws[|ws| - 1])
  }

  /** The last four bytes are printed as an IPv4 address. */
  predicate Embeds4(w: seq<Word>, best: Option<Run>)
    requires |w| == 8
  {
    best.Some? && best.value.base == 0 && (best.value.len == 6 || (best.value.len == 5 && w[5] == 0xffff))
  }

  function Print6(b: seq<Byte>, best: Option<Run>): string
    requires |b| == 16 && (best.Some? ==> best.value.base + best.value.len <= 8)
  {
    var w := Words(b);
    match best
    case None => Joined(w)
    case Some(r) =>
      if Embeds4(w, best) then "::" + (if r.len == 5 then Hex(w[5]) + ":" else []) + Print4(b[12..])
      else Joined(w[..r.base]) + "::" + Joined(w[r.base + r.len..])
  }

  // ----- the parser, as one pass -----

  /** What inet_pton6 has read: the bytes, where "::" was, the digits of the current word. */
  datatype Scan6 = Scan6(out: seq<Byte>, colon: Option<nat>, val: nat, seen: nat)

  predicate Sound6(st: Scan6) {
    && st.seen <= 4 && st.val < Power(16, st.seen) && |st.out| <= 16
    && (st.colon.Some? ==> st.colon.value <= |st.out|)
  }

  lemma WordFits(val: nat, seen: nat)
    requires val < Power(16, seen) && seen <= 4
    ensures val < 0x1_0000
  {
    assert Power(16, 0) == 1 && Power(16, 1) == 16 && Power(16, 2) == 256 && Power(16, 3) == 4096
        && Power(16, 4) == 65536;
  }

  /** A word goes out, if there is room for it. */
  function Emit(st: Scan6): (r: Option<Scan6>)
    requires Sound6(st)
    ensures r.Some? ==> Sound6(r.value)
  {
    WordFits(st.val, st.seen);
    if |st.out| + 2 > 16 then None
    else Some(st.(out := st.out + WordBytes(st.val), val := 0, seen := 0))
  }

  /** From position i on; the current token starts at tok. */
  function Run6(s: string, i: nat, tok: nat, st: Scan6): (r: Option<Scan6>)
    requires tok <= i <= |s| && Sound6(st)
    ensures r.Some? ==> Sound6(r.value)
    decreases |s| - i
  {
    if i == |s| then Some(st)
    else if DigitOf(s[i]).Some? then
      if st.seen + 1 > 4 then None
      else Run6(s, i + 1, tok, st.(val := st.val * 16 + DigitOf(s[i]).value, seen := st.seen + 1))
    else if s[i] == ':' then
      if st.seen == 0 then
        if st.colon.Some? then None else Run6(s, i + 1, i + 1, st.(colon := Some(|st.out|)))
      else if i + 1 == |s| then None
      else
        match Emit(st)
        case None => None
        case Some(next) => Run6(s, i + 1, i + 1, next)
    else if s[i] == '.' && |st.out| + 4 <= 16 then
      match Parse4(s[tok..])
      case None => None
      case Some(b) => Some(st.(out := st.out + b, val := 0, seen := 0))
    else None
  }

  /** The bytes after "::" move to the end. */
  function Spread(out: seq<Byte>, colon: Option<nat>): Option<seq<Byte>>
    requires colon.Some? ==> colon.value <= |out|
  {
    match colon
    case None => if |out| == 16 then Some(out) else None
    case Some(c) =>
      if |out| >= 16 then None
      else Some(out[..c] + seq(16 - |out|, i => 0) + out[c..])
  }

  /** The word that the text ends in goes out as well. */
  function Last(st: Scan6): (r: Option<Scan6>)
    requires Sound6(st)
    ensures r.Some? ==> Sound6(r.value)
  {
    if st.seen == 0 then Some(st) else Emit(st)
  }

  function Parse6(s: string): Option<seq<Byte>> {
    var lead := s != [] && s[0] == ':';
    if lead && (|s| == 1 || s[1] != ':') then None
    else
      var start := if lead then 1 else 0;
      match Run6(s, start, start, Scan6([], None, 0, 0))
      case None => None
      case Some(st) =>
        match Last(st)
        case None => None
        case Some(last) => Spread(last.out, last.colon)
  }

  // ----- reading back what was printed -----

  lemma HexLength(w: Word)
    ensures 1 <= |Hex(w)| <= 4
  {
    assert Power(16, 0) == 1 && Power(16, 1) == 16 && Power(16, 2) == 256 && Power(16, 3) == 4096
        && Power(16, 4) == 65536;
    NumberLength(w, 16, 4, 65536);
  }

  ghost predicate Reads(s: string, i: nat, t: string) {
    i + |t| <= |s| && s[i..i + |t|] == t
  }

  lemma ReadsSplit(s: string, i: nat, a: string, b: string)
    requires Reads(s, i, a + b)
    ensures Reads(s, i, a) && Reads(s, i + |a|, b)
  {
    assert s[i..i + |a|] == (a + b)[..|a|] == a;
    assert s[i + |a|..i + |a| + |b|] == (a + b)[|a|..] == b;
  }

  // one character

  lemma ReadDigit(s: string, i: nat, tok: nat, st: Scan6, d: nat)
    requires tok <= i < |s| && Sound6(st) && DigitOf(s[i]) == Some(d) && st.seen < 4
    ensures var st' := st.(val := st.val * 16 + d, seen := st.seen + 1);
      Sound6(st') && Run6(s, i, tok, st) == Run6(s, i + 1, tok, st')
  {
  }

  lemma ReadColon(s: string, i: nat, tok: nat, st: Scan6)
    requires tok <= i < |s| - 1 && Sound6(st) && s[i] == ':' && st.seen > 0 && |st.out| + 2 <= 16
    ensures Emit(st).Some? && Run6(s, i, tok, st) == Run6(s, i + 1, i + 1, Emit(st).value)
  {
  }

  lemma ReadDouble(s: string, i: nat, tok: nat, st: Scan6)
    requires tok <= i < |s| && Sound6(st) && s[i] == ':' && st.seen == 0 && st.colon.None?
    ensures Run6(s, i, tok, st) == Run6(s, i + 1, i + 1, st.(colon := Some(|st.out|)))
  {
  }

  lemma ReadsLast(s: string, i: nat, front: string, c: char)
    requires Reads(s, i, front + [c])
    ensures Reads(s, i, front) && i + |front| < |s| && s[i + |front|] == c
  {
    ReadsSplit(s, i, front, [c]);
    assert s[i + |front|] == s[i + |front|..i + |front| + 1][0];
  }

  lemma OneDigit(n: nat, base: nat)
    requires 2 <= base <= 16 && n < base
    ensures Number(n, base) == [] + [DIGITS[n]] && |Number(n, base)| == 1
  {
  }

  lemma ReadSound(st: Scan6, val: nat, seen: nat)
    requires Sound6(st) && seen <= 4
    ensures val < Power(16, seen) <==> Sound6(st.(val := val, seen := seen))
  {
  }

  /** A decimal number of at most four digits, read as if it were hexadecimal. */
  lemma {:induction false} SkipDecimal(s: string, i: nat, tok: nat, st: Scan6, n: nat) returns (val: nat)
    requires tok <= i && Sound6(st) && st.val == 0 && st.seen == 0
    requires Reads(s, i, Number(n, 10)) && |Number(n, 10)| <= 4
    ensures val < Power(16, |Number(n, 10)|)
    ensures Run6(s, i, tok, st) == Run6(s, i + |Number(n, 10)|, tok, st.(val := val, seen := |Number(n, 10)|))
    decreases n
  {
    hide Run6, Reads, Number, Sound6, Power;
    if n < 10 {
      DigitOfDigits(n);
      OneDigit(n, 10);
      ReadsLast(s, i, [], DIGITS[n]);
      val := n;
      ReadDigit(s, i, tok, st, n);
    } else {
      var front, d := Number(n / 10, 10), n % 10;
      NumberUnfold(n, 10);
      ReadsLast(s, i, front, DIGITS[d]);
      var v := SkipDecimal(s, i, tok, st, n / 10);
      DigitOfDigits(d);
      val := v * 16 + d;
      ReadSound(st, v, |front|);
      ReadDigit(s, i + |front|, tok, st.(val := v, seen := |front|), d);
    }
    ReadSound(st, val, |Number(n, 10)|);
  }

  lemma Associate(a: seq<Byte>, b: seq<Byte>, c: seq<Byte>)
    ensures a + b + c == a + (b + c)
  {
  }

  // ----- the round trip -----

  lemma BytesSlice(b: seq<Byte>, i: nat, j: nat)
    requires |b| == 16 && i <= j <= 8
    ensures Bytes(Words(b)[i..j]) == b[2 * i..2 * j]
  {
    var w := Words(b);
    BytesOfWords(b);
    BytesConcat(w[..i], w[i..j]);
    BytesConcat(w[..j], w[j..]);
    assert w[..i] + w[i..j] == w[..j] && w[..j] + w[j..] == w;
    assert Bytes(w)[..2 * j] == Bytes(w[..j]);
    assert Bytes(w[..j])[2 * i..] == Bytes(w[i..j]);
  }

  lemma {:induction false} NumberStart(n: nat, base: nat)
    requires 2 <= base <= 16
    ensures DigitOf(Number(n, base)[0]).Some?
    decreases n
  {
    if n < base {
      DigitOfDigits(n);
    } else {
      DivideSmaller(n, base);
      NumberStart(n / base, base);
    }
  }

  lemma ReadEnd(s: string, tok: nat, st: Scan6)
    requires tok <= |s| && Sound6(st)
    ensures Run6(s, |s|, tok, st) == Some(st)
  {
  }

  lemma LastWord(st: Scan6)
    requires Sound6(st) && st.seen > 0
    ensures Last(st) == Emit(st)
  {
  }

  lemma ToEnd(s: string, i: nat, t: string)
    requires i <= |s| && s[i..] == t
    ensures Reads(s, i, t) && i + |t| == |s|
  {
  }

  lemma NoWord(st: Scan6)
    requires Sound6(st) && st.seen == 0
    ensures Last(st) == Some(st)
  {
  }

  ghost function Start(s: string): nat {
    if s != [] && s[0] == ':' then 1 else 0
  }

  lemma FrontAt(s: string, a: string, rest: string)
    requires s == a + "::" + rest
    ensures s[|a|] == ':' && s[|a| + 1] == ':' && s[|a| + 2..] == rest && s[..|a|] == a && Reads(s, 0, a)
    ensures a != [] ==> s[0] == a[0]
  {
  }

  lemma StartState(b: seq<Byte>)
    ensures Sound6(Scan6([], None, 0, 0)) && [] + b == b
    ensures |b| <= 16 ==> Sound6(Scan6(b, None, 0, 0))
  {
    assert Power(16, 0) == 1;
  }

  lemma ColonIsNoDigit()
    ensures DigitOf(':').None?
  {
  }

  /** What the whole parse comes to. */
  lemma ParseFrom(s: string, i: nat, st: Scan6, last: Scan6)
    requires s != [] && (s[0] == ':' ==> |s| > 1 && s[1] == ':')
    requires i <= |s| && Sound6(st) && Run6(s, Start(s), Start(s), Scan6([], None, 0, 0)) == Run6(s, i, i, st)
    requires Run6(s, i, i, st).Some? && Last(Run6(s, i, i, st).value) == Some(last)
    ensures Parse6(s) == Spread(last.out, last.colon)
  {
  }

  lemma AtOctet(s: string, i: nat, n: string, rest: string)
    requires i <= |s| && s[i..] == n + "." + rest
    ensures Reads(s, i, n) && i + |n| < |s| && s[i + |n|] == '.'
  {
    assert s[i..][..|n|] == s[i..i + |n|];
    assert s[i..][|n|] == '.';
  }

  lemma FirstPart(a: string, b: string, c: string, d: string)
    ensures a + "." + b + "." + c + "." + d == a + "." + (b + "." + c + "." + d)
  {
  }

  lemma FirstOctet(s: string, i: nat, b: seq<Byte>)
    requires i <= |s| && |b| == 4 && s[i..] == Print4(b)
    ensures var n := Number(b[0], 10); Reads(s, i, n) && i + |n| < |s| && s[i + |n|] == '.'
  {
    hide Number, Reads;
    var n1, n2, n3 := Number(b[1], 10), Number(b[2], 10), Number(b[3], 10);
    FirstPart(Number(b[0], 10), n1, n2, n3);
    AtOctet(s, i, Number(b[0], 10), n1 + "." + n2 + "." + n3);
  }

  lemma ReadFour(s: string, i: nat, tok: nat, st: Scan6, b: seq<Byte>)
    requires tok <= i < |s| && Sound6(st) && s[i] == '.' && |st.out| + 4 <= 16 && Parse4(s[tok..]) == Some(b)
    ensures Run6(s, i, tok, st) == Some(st.(out := st.out + b, val := 0, seen := 0))
  {
  }

  /** The IPv4 form at the end of the text. */
  lemma Read4(s: string, i: nat, st: Scan6, b: seq<Byte>)
    requires Sound6(st) && st.val == 0 && st.seen == 0 && |st.out| + 4 <= 16 && |b| == 4
    requires i <= |s| && s[i..] == Print4(b)
    ensures Run6(s, i, i, st) == Some(st.(out := st.out + b))
  {
    hide Number, Print4, Parse4, Run6, Reads, Sound6;
    NumberShort(b[0]);
    Parse4Exact(s[i..], b);
    FirstOctet(s, i, b);
    var n := Number(b[0], 10);
    var val := SkipDecimal(s, i, i, st, b[0]);
    ReadSound(st, val, |n|);
    ReadFour(s, i + |n|, i, st.(val := val, seen := |n|), b);
  }

  lemma Grouping(a: string, b: string)
    ensures "::" + a + b == "::" + (a + b)
  {
  }

  lemma Print4Form(b: seq<Byte>, r: Run)
    requires |b| == 16 && r.base + r.len <= 8 && Embeds4(Words(b), Some(r))
    ensures Print6(b, Some(r)) == "::" + ((if r.len == 5 then Hex(Words(b)[5]) + ":" else []) + Print4(b[12..]))
  {
    hide Print4, Hex, Words;
    Grouping(if r.len == 5 then Hex(Words(b)[5]) + ":" else [], Print4(b[12..]));
  }
}
