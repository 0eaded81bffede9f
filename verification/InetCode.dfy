/** inet_ntop4, inet_ntop6, inet_pton4 and inet_pton6 with their loops, against module Inet6Text. */
module InetCode {
  import opened InetText
  import opened Inet6Forms
  import opened Inet6Text
  import opened Wrappers

  datatype Failure = NoSpace | Invalid

  /** UV__INET6_ADDRSTRLEN, with the closing zero. */
  const ADDRSTRLEN := 46

  /** inet_ntop4 */
  method Ntop4(src: seq<Byte>, size: nat) returns (r: Result<string, Failure>)
    requires |src| == 4
    ensures r == if |Print4(src)| < size then Ok(Print4(src)) else Err(NoSpace)
    ensures size >= 16 ==> r.Ok?
  {
    Print4Length(src);
    var tmp := Number(src[0], 10) + "." + Number(src[1], 10) + "." + Number(src[2], 10) + "." + Number(src[3], 10);
    if |tmp| >= size {
      return Err(NoSpace);
    }
    return Ok(tmp);
  }

  /** inet_pton4 */
  method Pton4(src: string) returns (r: Result<seq<Byte>, Failure>)
    ensures match Parse4(src) case None => r == Err(Invalid) case Some(b) => r == Ok(b)
  {
    var sawDigit, octets, tp := false, 0, 0;
    var tmp: seq<Byte> := [0];
    var i := 0;
    while i < |src|
      invariant i <= |src| && |tmp| == tp + 1 && tp <= 3
      invariant octets == tp + (if sawDigit then 1 else 0) && (!sawDigit ==> tmp[tp] == 0)
      invariant Run4(Scan4([], 0, false), src) == Run4(Scan4(tmp[..tp], tmp[tp], sawDigit), src[i..])
    {
      var ch := src[i];
      ghost var st := Scan4(tmp[..tp], tmp[tp], sawDigit);
      assert src[i..][0] == ch && src[i..][1..] == src[i + 1..];
      i := i + 1;
      if '0' <= ch <= '9' {
        var nw := tmp[tp] * 10 + (ch as int - '0' as int);
        if sawDigit && tmp[tp] == 0 {
          return Err(Invalid);
        }
        if nw > 255 {
          return Err(Invalid);
        }
        tmp := tmp[tp := nw];
        if !sawDigit {
          octets := octets + 1;
          if octets > 4 {
            return Err(Invalid);
          }
          sawDigit := true;
        }
        assert Step4(st, ch) == Some(Scan4(tmp[..tp], tmp[tp], sawDigit));
      } else if ch == '.' && sawDigit {
        if octets == 4 {
          return Err(Invalid);
        }
        assert tmp[..tp] + [tmp[tp]] == tmp;
        tmp := tmp + [0];
        tp := tp + 1;
        sawDigit := false;
        assert Step4(st, ch) == Some(Scan4(tmp[..tp], tmp[tp], sawDigit));
      } else {
        return Err(Invalid);
      }
    }
    assert src[i..] == [];
    if octets < 4 {
      return Err(Invalid);
    }
    assert tmp[..tp] + [tmp[tp]] == tmp;
    return Ok(tmp);
  }

  // ----- inet_ntop6 -----

  /** `best` is the leftmost longest of the runs of zeros that end before `limit`. */
  ghost predicate BestBefore(w: seq<Word>, limit: int, base: int, len: int) {
    && (base != -1 ==> base >= 0 && len >= 1 && base + len <= limit <= |w| && Zeros(w, base, len))
    && forall b: nat, n: nat :: n >= 1 && b + n <= limit && Zeros(w, b, n) ==>
         base != -1 && (n < len || (n == len && b >= base))
  }

  /** The run under way, or none. */
  ghost predicate Current(w: seq<Word>, i: nat, base: int, len: int) {
    if base == -1 then i == 0 || (i <= |w| && w[i - 1] != 0)
    else 0 <= base < i <= |w| && len == i - base && Zeros(w, base, len) && (base == 0 || w[base - 1] != 0)
  }

  /** A run that a non-zero word, or the end, has just closed competes with the best one. */
  lemma CloseRun(w: seq<Word>, i: nat, base: int, len: int, curBase: int, curLen: int)
    requires Current(w, i, curBase, curLen) && curBase != -1
    requires BestBefore(w, curBase, base, len)
    ensures base == -1 || curLen > len ==> BestBefore(w, i, curBase, curLen)
    ensures base != -1 && curLen <= len ==> BestBefore(w, i, base, len)
  {
    assert curBase > 0 ==> w[curBase - 1] != 0;
  }

  lemma SkipWord(w: seq<Word>, i: nat, base: int, len: int)
    requires i < |w| && w[i] != 0 && BestBefore(w, i, base, len)
    ensures BestBefore(w, i + 1, base, len)
  {
    forall b: nat, n: nat | n >= 1 && b + n <= i + 1 && Zeros(w, b, n) ensures b + n <= i {}
  }

  /** The loop that looks for the run that "::" will stand for. */
  method FindRun(w: seq<Word>) returns (base: int, len: int, ghost best: Option<Run>)
    requires |w| == 8
    ensures -1 <= base && len >= 0 && (base != -1 ==> base + len <= 8)
    ensures best == if base == -1 then None else Some(Run(base, len))
    ensures LeftmostLongest(w, best)
  {
    base, len := -1, 0;
    var curBase, curLen := -1, 0;
    var i := 0;
    while i < |w|
      invariant 0 <= i <= |w| && -1 <= base && -1 <= curBase
      invariant Current(w, i, curBase, curLen)
      invariant BestBefore(w, if curBase == -1 then i else curBase, base, len)
      invariant len >= 0
    {
      if w[i] == 0 {
        if curBase == -1 {
          curBase, curLen := i, 1;
        } else {
          curLen := curLen + 1;
        }
      } else {
        if curBase != -1 {
          CloseRun(w, i, base, len, curBase, curLen);
          if base == -1 || curLen > len {
            base, len := curBase, curLen;
          }
          curBase := -1;
        }
        SkipWord(w, i, base, len);
      }
      i := i + 1;
    }
    if curBase != -1 {
      CloseRun(w, i, base, len, curBase, curLen);
      if base == -1 || curLen > len {
        base, len := curBase, curLen;
      }
    }
    assert BestBefore(w, 8, base, len);
    if base != -1 && len < 2 {
      base := -1;
    }
    best := if base == -1 then None else Some(Run(base, len));
  }

  /** What has been printed before word i. */
  ghost function Printed(w: seq<Word>, best: Option<Run>, i: nat): string
    requires |w| == 8 && i <= 8 && (best.Some? ==> best.value.base + best.value.len <= 8)
  {
    match best
    case None => Joined(w[..i])
    case Some(r) =>
      if i <= r.base then Joined(w[..i])
      else if i <= r.base + r.len then Joined(w[..r.base]) + ":"
      else Joined(w[..r.base]) + "::" + Joined(w[r.base + r.len..i])
  }

  lemma JoinedSnoc(w: seq<Word>, a: nat, i: nat)
    requires a <= i < |w|
    ensures Joined(w[a..i + 1]) == if a == i then Hex(w[i]) else Joined(w[a..i]) + ":" + Hex(w[i])
  {
    assert w[a..i + 1][..i - a] == w[a..i];
  }

  ghost predicate GoodRun(best: Option<Run>) {
    best.Some? ==> best.value.len >= 1 && best.value.base + best.value.len <= 8
  }

  lemma PrintedEnd(b: seq<Byte>, best: Option<Run>)
    requires |b| == 16 && GoodRun(best) && !Embeds4(Words(b), best)
    ensures Print6(b, best) ==
            Printed(Words(b), best, 8) + if best.Some? && best.value.base + best.value.len == 8 then ":" else []
  {
    var w := Words(b);
    assert w[..8] == w;
    if best.Some? {
      var r := best.value;
      assert w[r.base + r.len..8] == w[r.base + r.len..];
      if r.base + r.len == 8 { assert w[r.base + r.len..] == []; }
      hide Number;
    }
  }

  lemma PrintedInside(w: seq<Word>, best: Option<Run>, i: nat)
    requires |w| == 8 && i < 8 && GoodRun(best) && best.Some? && best.value.base <= i < best.value.base + best.value.len
    ensures Printed(w, best, i + 1) == Printed(w, best, i) + if i == best.value.base then ":" else []
  {
    hide Number, Joined;
  }

  lemma EmptyWords()
    ensures Joined([]) == []
  {
  }

  lemma Nothing(h: string)
    ensures [] + [] + h == h
  {
  }

  lemma PrintedBeforeRun(w: seq<Word>, best: Option<Run>, i: nat)
    requires |w| == 8 && i < 8 && GoodRun(best) && (best.Some? ==> i < best.value.base)
    ensures Printed(w, best, i + 1) == Printed(w, best, i) + (if i != 0 then ":" else []) + Hex(w[i])
  {
    JoinedSnoc(w, 0, i);
    assert w[0..i] == w[..i] && w[0..i + 1] == w[..i + 1];
    hide Number, Hex;
    EmptyWords();
    Nothing(Hex(w[i]));
  }

  lemma Double(f: string, t: string, h: string)
    ensures f + "::" + (t + ":" + h) == f + "::" + t + ":" + h && f + ":" + ":" + h == f + "::" + h
        && f + "::" + [] == f + "::"
  {
  }

  lemma PrintedAfterRun(w: seq<Word>, best: Option<Run>, i: nat)
    requires |w| == 8 && i < 8 && GoodRun(best) && best.Some? && i >= best.value.base + best.value.len
    ensures Printed(w, best, i + 1) == Printed(w, best, i) + (if i != 0 then ":" else []) + Hex(w[i])
  {
    var a := best.value.base + best.value.len;
    JoinedSnoc(w, a, i);
    if i == a { assert w[a..i] == []; }
    hide Number, Hex, Joined;
    EmptyWords();
    Double(Joined(w[..best.value.base]), Joined(w[a..i]), Hex(w[i]));
  }

  lemma PrintedWord(w: seq<Word>, best: Option<Run>, i: nat)
    requires |w| == 8 && i < 8 && GoodRun(best)
    requires best.Some? ==> i < best.value.base || i >= best.value.base + best.value.len
    ensures Printed(w, best, i + 1) == Printed(w, best, i) + (if i != 0 then ":" else []) + Hex(w[i])
  {
    hide Printed, Hex;
    if best.None? || i < best.value.base { PrintedBeforeRun(w, best, i); } else { PrintedAfterRun(w, best, i); }
  }

  lemma PrintedNothing(w: seq<Word>, best: Option<Run>)
    requires |w| == 8 && GoodRun(best)
    ensures Printed(w, best, 0) == []
  {
    assert w[..0] == [];
  }

  lemma AppendNothing(t: string)
    ensures t + [] == t
  {
  }

  lemma HexIs(w: Word)
    ensures Hex(w) == Number(w, 16)
  {
  }

  lemma Around5(h: string, four: string)
    ensures "::" + (h + ":") + four == "::" + h + ":" + four
  {
  }

  /** The text in front of the IPv4 form. */
  lemma PrintedBefore4(b: seq<Byte>, best: Option<Run>)
    requires |b| == 16 && GoodRun(best) && Embeds4(Words(b), best)
    ensures var front := Printed(Words(b), best, 6) + ":";
      Print6(b, best) == front + Print4(b[12..]) && |front| <= 7
  {
    var w, r := Words(b), best.value;
    assert w[..0] == [];
    HexLength(w[5]);
    if r.len == 5 {
      JoinedSnoc(w, 5, 5);
      assert Printed(w, best, 6) == "::" + Hex(w[5]);
      hide Hex, Print4;
      Around5(Hex(w[5]), Print4(b[12..]));
    } else {
      assert Printed(w, best, 6) == ":";
      assert ":" + ":" == "::";
      assert "::" + [] + Print4(b[12..]) == "::" + Print4(b[12..]);
    }
  }

  /** The test for an encapsulated IPv4 address behind a run of len words; after a run of seven it is not reached. */
  predicate Encapsulates4(w: seq<Word>, len: int)
    requires |w| == 8
  {
    len == 6 || (len == 7 && w[7] != 1) || (len == 5 && w[5] == 0xffff)
  }

  /** The loop that formats the words. */
  method Format(src: seq<Byte>, w: seq<Word>, base: int, len: int, ghost best: Option<Run>) returns (tp: string)
    requires |src| == 16 && w == Words(src) && GoodRun(best) && -1 <= base && 0 <= len
    requires best == if base == -1 then None else Some(Run(base, len))
    ensures tp == if Embeds4(w, best) then Print6(src, best) else Printed(w, best, 8)
  {
    hide Print6, Printed, Hex, Words, Print4;
    tp := "";
    PrintedNothing(w, best);
    var i := 0;
    while i < 8
      invariant 0 <= i <= 8 && tp == Printed(w, best, i) && (Embeds4(w, best) ==> i <= 6)
    {
      if base != -1 && i >= base && i < base + len {
        PrintedInside(w, best, i);
        AppendNothing(tp);
        if i == base {
          tp := tp + ":";
        }
        i := i + 1;
        continue;
      }
      PrintedWord(w, best, i);
      AppendNothing(tp);
      if i != 0 {
        tp := tp + ":";
      }
      if i == 6 && base == 0 && Encapsulates4(w, len) {
        PrintedBefore4(src, best);
        var four := Ntop4(src[12..], ADDRSTRLEN - |tp|);
        tp := tp + four.value;
        return;
      }
      tp := tp + Number(w[i], 16);
      HexIs(w[i]);
      i := i + 1;
    }
  }

  /** The loop that copies the bytes into words. */
  method ToWords(src: seq<Byte>) returns (words: seq<Word>)
    requires |src| == 16
    ensures words == Words(src)
  {
    words := seq(8, i => 0);
    var i := 0;
    while i < 16
      invariant 0 <= i <= 16 && |words| == 8
      invariant forall k :: 0 <= k < 8 ==>
        words[k] == (if 2 * k < i then src[2 * k] as int * 256 else 0) + (if 2 * k + 1 < i then src[2 * k + 1] else 0)
    {
      words := words[i / 2 := words[i / 2] + src[i] as int * (if i % 2 == 0 then 256 else 1)];
      i := i + 1;
    }
  }

  lemma {:induction false} JoinedLength(ws: seq<Word>)
    ensures |Joined(ws)| <= 5 * |ws|
    decreases |ws|
  {
    if ws != [] {
      HexLength(ws[|ws| - 1]);
      JoinedLength(ws[..|ws| - 1]);
    }
  }

  /** No address takes more than 45 characters. */
  lemma Print6Length(b: seq<Byte>, best: Option<Run>)
    requires |b| == 16 && GoodRun(best)
    ensures |Print6(b, best)| < ADDRSTRLEN
  {
    var w := Words(b);
    JoinedLength(w);
    HexLength(w[5]);
    Print4Length(b[12..]);
    if best.Some? {
      JoinedLength(w[..best.value.base]);
      JoinedLength(w[best.value.base + best.value.len..]);
    }
    hide Number, Joined, Print4;
  }

  /** inet_ntop6 */
  method Ntop6(src: seq<Byte>, size: nat) returns (r: Result<string, Failure>, ghost best: Option<Run>)
    requires |src| == 16
    ensures LeftmostLongest(Words(src), best) && GoodRun(best)
    ensures r == if |Print6(src, best)| + 1 <= size then Ok(Print6(src, best)) else Err(NoSpace)
    ensures size >= ADDRSTRLEN ==> r.Ok?
  {
    var w := ToWords(src);
    var base, len;
    base, len, best := FindRun(w);
    Print6Length(src, best);
    var tp := Format(src, w, base, len, best);
    if !Embeds4(w, best) { PrintedEnd(src, best); }
    hide Print6, Printed, LeftmostLongest;
    AppendNothing(tp);
    if base != -1 && base + len == 8 {
      tp := tp + ":";
    }
    if |tp| + 1 > size {
      return Err(NoSpace), best;
    }
    return Ok(tp), best;
  }

  // ----- inet_pton6 -----

  /** The loop that moves the bytes after "::" to the end of the buffer. */
  method Shift(tmp: array<Byte>, colonp: nat, tp: nat)
    requires tmp.Length == 16 && colonp <= tp < 16
    requires forall k :: tp <= k < 16 ==> tmp[k] == 0
    modifies tmp
    ensures Spread(old(tmp[..tp]), Some(colonp)) == Some(tmp[..])
  {
    var n := tp - colonp;
    var i := 1;
    while i <= n
      invariant 1 <= i <= n + 1
      invariant forall k :: 0 <= k < tp - (i - 1) ==> tmp[k] == old(tmp[k])
      invariant forall k :: 16 - (i - 1) <= k < 16 ==> tmp[k] == old(tmp[k - (16 - tp)])
      invariant forall k :: tp - (i - 1) <= k < 16 - (i - 1) ==> tmp[k] == 0
    {
      tmp[16 - i] := tmp[colonp + (n - i)];
      tmp[colonp + (n - i)] := 0;
      i := i + 1;
    }
    ghost var out := old(tmp[..tp]);
    assert tmp[..] == out[..colonp] + seq(16 - tp, k => 0) + out[colonp..];
  }

  /** A word goes into the buffer, high byte first. */
  method Put(tmp: array<Byte>, tp: nat, val: nat)
    requires tmp.Length == 16 && tp + 2 <= 16 && val < 0x1_0000
    modifies tmp
    ensures tmp[..tp + 2] == old(tmp[..tp]) + WordBytes(val)
    ensures forall k :: tp + 2 <= k < 16 ==> tmp[k] == old(tmp[k])
  {
    tmp[tp] := val / 256;
    tmp[tp + 1] := val % 256;
  }

  /** What the end of inet_pton6 makes of what has been read. */
  ghost function Ended(st: Option<Scan6>): Option<seq<Byte>>
    requires st.Some? ==> Sound6(st.value)
  {
    match st
    case None => None
    case Some(s) =>
      match Last(s)
      case None => None
      case Some(last) => Spread(last.out, last.colon)
  }

  /** The state of the loop in the parser's own variables. */
  ghost predicate Holds(st: Scan6, tmp: seq<Byte>, tp: nat, colonp: int, val: nat, seen: nat) {
    && |tmp| == 16 && tp <= 16 && st.out == tmp[..tp] && (forall k :: tp <= k < 16 ==> tmp[k] == 0)
    && st.colon == (if colonp == -1 then None else if colonp >= 0 then Some(colonp as nat) else None)
    && -1 <= colonp <= tp && st.val == val && st.seen == seen
  }

  method Finish(tmp: array<Byte>, tp0: nat, colonp: int, val: nat, seen: nat, ghost st: Scan6)
    returns (r: Result<seq<Byte>, Failure>)
    requires Sound6(st) && tmp.Length == 16 && Holds(st, tmp[..], tp0, colonp, val, seen)
    modifies tmp
    ensures match Ended(Some(st)) case None => r == Err(Invalid) case Some(b) => r == Ok(b)
  {
    var tp := tp0;
    ghost var last := st;
    WordFits(val, seen);
    if seen != 0 {
      if tp + 2 > 16 {
        return Err(Invalid);
      }
      Put(tmp, tp, val);
      tp := tp + 2;
      last := Emit(st).value;
    }
    assert tmp[..tp] == last.out;
    if colonp != -1 {
      if tp == 16 {
        return Err(Invalid);
      }
      Shift(tmp, colonp, tp);
      tp := 16;
    }
    if tp != 16 {
      return Err(Invalid);
    }
    assert colonp == -1 ==> tmp[..tp] == tmp[..];
    return Ok(tmp[..]);
  }

  /** The characters at which the parser gives up. */
  lemma ReadNone(s: string, i: nat, tok: nat, st: Scan6)
    requires tok <= i < |s| && Sound6(st)
    requires
      if DigitOf(s[i]).Some? then st.seen == 4
      else if s[i] == ':' then if st.seen == 0 then st.colon.Some? else i + 1 == |s| || |st.out| + 2 > 16
      else s[i] != '.' || |st.out| + 4 > 16 || Parse4(s[tok..]).None?
    ensures Run6(s, i, tok, st) == None
  {
    hide Parse4;
  }

  lemma EmitFits(st: Scan6)
    requires Sound6(st) && |st.out| + 2 <= 16
    ensures st.val < 0x1_0000 && Emit(st) == Some(st.(out := st.out + WordBytes(st.val), val := 0, seen := 0))
  {
    WordFits(st.val, st.seen);
  }

  /** One round of the loop. */
  method Pton6Once(s: string, i: nat, curtok: nat, tmp: array<Byte>, tp: nat, colonp: int, val: nat, seen: nat,
      ghost st: Scan6)
    returns (ok: bool, done: bool, i': nat, curtok': nat, tp': nat, colonp': int, val': nat, seen': nat,
        ghost st': Scan6)
    requires curtok <= i < |s| && tmp.Length == 16 && Sound6(st) && Holds(st, tmp[..], tp, colonp, val, seen)
    modifies tmp
    ensures !ok ==> Run6(s, i, curtok, st) == None
    ensures ok ==> Sound6(st') && Holds(st', tmp[..], tp', colonp', val', seen')
    ensures ok && done ==> Run6(s, i, curtok, st) == Some(st')
    ensures ok && !done ==> curtok' <= i' <= |s| && i' == i + 1 && Run6(s, i, curtok, st) == Run6(s, i', curtok', st')
  {
    hide Run6, Emit, Parse4, DigitOf;
    ok, done, i', curtok', tp', colonp', val', seen', st' := true, false, i + 1, curtok, tp, colonp, val, seen, st;
    var ch := s[i];
    var digit := DigitOf(ch);
    if digit.Some? {
      val' := val * 16 + digit.value;
      seen' := seen + 1;
      if seen' > 4 {
        ReadNone(s, i, curtok, st);
        return false, false, i, curtok, tp, colonp, val, seen, st;
      }
      st' := st.(val := val', seen := seen');
      ReadDigit(s, i, curtok, st, digit.value);
      return;
    }
    if ch == ':' {
      curtok' := i + 1;
      if seen == 0 {
        if colonp != -1 {
          ReadNone(s, i, curtok, st);
          return false, false, i, curtok, tp, colonp, val, seen, st;
        }
        colonp' := tp;
        st' := st.(colon := Some(|st.out|));
        ReadDouble(s, i, curtok, st);
        return;
      } else if i + 1 == |s| {
        ReadNone(s, i, curtok, st);
        return false, false, i, curtok, tp, colonp, val, seen, st;
      }
      if tp + 2 > 16 {
        ReadNone(s, i, curtok, st);
        return false, false, i, curtok, tp, colonp, val, seen, st;
      }
      EmitFits(st);
      ReadColon(s, i, curtok, st);
      Put(tmp, tp, val);
      tp', seen', val' := tp + 2, 0, 0;
      st' := Emit(st).value;
      return;
    }
    if ch == '.' && tp + 4 <= 16 {
      var four := Pton4(s[curtok..]);
      if four.Ok? {
        ReadFour(s, i, curtok, st, four.value);
        Put(tmp, tp, four.value[0] as int * 256 + four.value[1]);
        Put(tmp, tp + 2, four.value[2] as int * 256 + four.value[3]);
        tp', seen', val' := tp + 4, 0, 0;
        st' := st.(out := st.out + four.value, val := 0, seen := 0);
        done := true;
        return;
      }
    }
    ReadNone(s, i, curtok, st);
    return false, false, i, curtok, tp, colonp, val, seen, st;
  }

  /** inet_pton6 */
  method Pton6(s: string) returns (r: Result<seq<Byte>, Failure>)
    ensures match Parse6(s) case None => r == Err(Invalid) case Some(b) => r == Ok(b)
    ensures r.Ok? ==> TextForm(s, r.value)
    ensures r.Err? ==> forall b :: !TextForm(s, b)
  {
    hide TextForm;
    FormsOf(s);
    var tmp := new Byte[16](_ => 0);
    var tp: nat, colonp: int := 0, -1;
    var i: nat := 0;
    if |s| > 0 && s[0] == ':' {
      if |s| == 1 || s[1] != ':' {
        return Err(Invalid);
      }
      i := 1;
    }
    var curtok: nat, seen: nat, val: nat := i, 0, 0;
    ghost var st := Scan6([], None, 0, 0);
    ghost var start := i;
    assert Sound6(st) by { assert Power(16, 0) == 1; }
    ghost var whole := Run6(s, start, start, st);
    assert Parse6(s) == Ended(whole);
    hide Run6, Emit, Parse6, Parse4, Last, Spread, DigitOf;
    while i < |s|
      invariant curtok <= i <= |s| && Sound6(st) && Holds(st, tmp[..], tp, colonp, val, seen)
      invariant whole == Run6(s, i, curtok, st)
    {
      var ok, done;
      ok, done, i, curtok, tp, colonp, val, seen, st := Pton6Once(s, i, curtok, tmp, tp, colonp, val, seen, st);
      if !ok {
        return Err(Invalid);
      }
      if done {
        r := Finish(tmp, tp, colonp, val, seen, st);
        return;
      }
    }
    ReadEnd(s, curtok, st);
    r := Finish(tmp, tp, colonp, val, seen, st);
  }

  lemma RoundTrip(b: seq<Byte>, best: Option<Run>)
    requires |b| == 16 && LeftmostLongest(Words(b), best)
    ensures GoodRun(best) && Parse6(Print6(b, best)) == Some(b)
  {
    hide Parse6, Print6;
    match best
    case None => RoundTripPlain(b);
    case Some(r) => if Embeds4(Words(b), best) { RoundTrip4(b, r); } else { RoundTripRun(b, r); }
  }

  /** Printing an address and reading it back gives the address. */
  method PrintThenParse(src: seq<Byte>) returns (back: Result<seq<Byte>, Failure>)
    requires |src| == 16
    ensures back == Ok(src)
  {
    var r; ghost var best;
    r, best := Ntop6(src, ADDRSTRLEN);
    RoundTrip(src, best);
    back := Pton6(r.value);
  }
}
