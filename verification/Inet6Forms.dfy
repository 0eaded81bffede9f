/**
  The text forms of IPv6 addresses of section 2.2 of RFC 4291, stated without a scanner, and the
  proof that inet_pton6 accepts exactly these.  That it reads back what inet_ntop6 prints follows.
*/
module Inet6Forms {
  import opened InetText
  import opened Inet6Text
  import opened Wrappers

  // ----- the forms -----

  /** The two alphabets. */
  predicate IsDigit(c: char, d: nat) {
    d < 16 && (c == DIGITS[d] || c == UPPER_DIGITS[d])
  }

  /** Hexadecimal digits of either case, the most significant one first. */
  ghost predicate Denotes(t: string, n: nat) {
    if t == [] then n == 0 else IsDigit(t[|t| - 1], n % 16) && Denotes(t[..|t| - 1], n / 16)
  }

  /** One to four digits and the 16-bit value that they stand for. */
  datatype Group = Group(text: string, word: Word)

  ghost predicate GoodGroups(gs: seq<Group>) {
    forall i :: 0 <= i < |gs| ==> 1 <= |gs[i].text| <= 4 && Denotes(gs[i].text, gs[i].word)
  }

  /** Groups with colons between them. */
  function Listed(gs: seq<Group>): string {
    if gs == [] then [] else if |gs| == 1 then gs[0].text
    else Listed(gs[..|gs| - 1]) + ":" + gs[|gs| - 1].text
  }

  /** The same as bytes, the high byte of each first. */
  function Value(gs: seq<Group>): (b: seq<Byte>)
    ensures |b| == 2 * |gs|
  {
    if gs == [] then [] else Value(gs[..|gs| - 1]) + WordBytes(gs[|gs| - 1].word)
  }

  /** Groups, and perhaps an IPv4 address in dotted decimals as the last item. */
  function Tail(gs: seq<Group>, four: Option<seq<Byte>>): string
    requires four.Some? ==> |four.value| == 4
  {
    match four
    case None => Listed(gs)
    case Some(b) => (if gs == [] then [] else Listed(gs) + ":") + Print4(b)
  }

  function TailBytes(gs: seq<Group>, four: Option<seq<Byte>>): seq<Byte> {
    Value(gs) + if four.Some? then four.value else []
  }

  /** What stands before "::", if there is one, and what stands behind it; the last item may be an IPv4 address. */
  datatype Form = Whole(all: seq<Group>, four: Option<seq<Byte>>)
                | Gap(left: seq<Group>, right: seq<Group>, four: Option<seq<Byte>>)

  /** Sixteen bytes without "::"; with it at least one pair of bytes is left out. */
  ghost predicate GoodForm(f: Form) {
    && (f.four.Some? ==> |f.four.value| == 4)
    && match f
       case Whole(all, four) => GoodGroups(all) && |TailBytes(all, four)| == 16
       case Gap(left, right, four) =>
         GoodGroups(left) && GoodGroups(right) && |Value(left)| + |TailBytes(right, four)| <= 14
  }

  function Written(f: Form): string
    requires f.four.Some? ==> |f.four.value| == 4
  {
    match f
    case Whole(all, four) => Tail(all, four)
    case Gap(left, right, four) => Listed(left) + "::" + Tail(right, four)
  }

  /** What is left out is zero. */
  function Filled(front: seq<Byte>, back: seq<Byte>): seq<Byte>
    requires |front| + |back| <= 16
  {
    front + seq(16 - |front| - |back|, i => 0) + back
  }

  ghost function Stands(f: Form): seq<Byte>
    requires GoodForm(f)
  {
    match f
    case Whole(all, four) => TailBytes(all, four)
    case Gap(left, right, four) => Filled(Value(left), TailBytes(right, four))
  }

  ghost predicate TextForm(s: string, b: seq<Byte>) {
    exists f :: GoodForm(f) && Written(f) == s && Stands(f) == b
  }

  // ----- every form is accepted -----

  lemma DigitIs(c: char, d: nat)
    ensures DigitOf(c) == Some(d) <==> IsDigit(c, d)
  {
    if d < 16 { DigitOfDigits(d); }
  }

  /** The digits of a group, as the scanner takes them. */
  lemma {:induction false} ReadDigits(s: string, i: nat, tok: nat, st: Scan6, t: string, n: nat)
    requires tok <= i && Sound6(st) && st.val == 0 && st.seen == 0
    requires Reads(s, i, t) && |t| <= 4 && Denotes(t, n)
    ensures Sound6(st.(val := n, seen := |t|))
    ensures Run6(s, i, tok, st) == Run6(s, i + |t|, tok, st.(val := n, seen := |t|))
    decreases |t|
  {
    hide Run6, Reads, Sound6;
    if t != [] {
      var front, c := t[..|t| - 1], t[|t| - 1];
      assert t == front + [c];
      ReadsLast(s, i, front, c);
      ReadDigits(s, i, tok, st, front, n / 16);
      DigitIs(c, n % 16);
      ReadDigit(s, i + |front|, tok, st.(val := n / 16, seen := |front|), n % 16);
    } else {
      assert st.(val := n, seen := |t|) == st;
    }
  }

  /** All groups but the last have gone out, the last is still being read. */
  ghost function Half(st: Scan6, gs: seq<Group>): Scan6
    requires gs != []
  {
    Scan6(st.out + Value(gs[..|gs| - 1]), st.colon, gs[|gs| - 1].word, |gs[|gs| - 1].text|)
  }

  ghost function Through(st: Scan6, gs: seq<Group>): Scan6 {
    Scan6(st.out + Value(gs), st.colon, 0, 0)
  }

  lemma ValueSnoc(out: seq<Byte>, gs: seq<Group>)
    requires gs != []
    ensures out + Value(gs[..|gs| - 1]) + WordBytes(gs[|gs| - 1].word) == out + Value(gs)
  {
    Associate(out, Value(gs[..|gs| - 1]), WordBytes(gs[|gs| - 1].word));
  }

  lemma EmitGroup(st: Scan6, gs: seq<Group>)
    requires gs != [] && GoodGroups(gs) && |st.out| + 2 * |gs| <= 16 && Sound6(Half(st, gs))
    ensures Emit(Half(st, gs)) == Some(Through(st, gs)) && Half(st, gs).seen > 0 && |Half(st, gs).out| + 2 <= 16
  {
    hide Power, Value, WordBytes;
    ValueSnoc(st.out, gs);
  }

  lemma NoGroups(out: seq<Byte>)
    ensures Listed([]) == [] && Value([]) == [] && out + [] == out
  {
  }

  lemma ListedOne(gs: seq<Group>)
    requires |gs| == 1
    ensures Listed(gs) == gs[0].text
  {
  }

  lemma {:induction false} ReadListed(s: string, i: nat, st: Scan6, gs: seq<Group>)
    requires Sound6(st) && st.val == 0 && st.seen == 0 && gs != [] && GoodGroups(gs)
    requires Reads(s, i, Listed(gs)) && |st.out| + 2 * |gs| <= 16
    ensures var h := |gs[|gs| - 1].text|;
      && i + |Listed(gs)| <= |s| && h <= |Listed(gs)| && Sound6(Half(st, gs))
      && Run6(s, i, i, st) == Run6(s, i + |Listed(gs)|, i + |Listed(gs)| - h, Half(st, gs))
    decreases |gs|
  {
    hide Run6, Emit, Denotes, Power;
    var k := |gs| - 1;
    if k == 0 {
      NoGroups(st.out);
      ReadDigits(s, i, i, st, gs[0].text, gs[0].word);
      assert gs[..0] == [];
    } else {
      var front, h := Listed(gs[..k]), gs[k].text;
      assert Listed(gs) == (front + ":") + h;
      ReadsSplit(s, i, front + ":", h);
      ReadsSplit(s, i, front, ":");
      ReadListed(s, i, st, gs[..k]);
      var p := i + |front|;
      assert s[p] == ":"[0];
      EmitGroup(st, gs[..k]);
      ReadColon(s, p, p - |gs[..k][k - 1].text|, Half(st, gs[..k]));
      ReadDigits(s, p + 1, p + 1, Through(st, gs[..k]), h, gs[k].word);
    }
  }

  /** Groups and the colon after them. */
  lemma ReadGroups(s: string, i: nat, st: Scan6, gs: seq<Group>)
    requires Sound6(st) && st.val == 0 && st.seen == 0 && |st.out| + 2 * |gs| <= 16 && gs != [] && GoodGroups(gs)
    requires Reads(s, i, Listed(gs)) && i + |Listed(gs)| + 1 < |s| && s[i + |Listed(gs)|] == ':'
    ensures var p := i + |Listed(gs)| + 1;
      Sound6(Through(st, gs)) && Run6(s, i, i, st) == Run6(s, p, p, Through(st, gs))
  {
    hide Run6, Emit, Listed, Reads, Value, Sound6, Half, Through, GoodGroups;
    ReadListed(s, i, st, gs);
    EmitGroup(st, gs);
    var p := i + |Listed(gs)|;
    ReadColon(s, p, p - |gs[|gs| - 1].text|, Half(st, gs));
  }

  /** Groups up to the end of the text. */
  lemma ReadToEnd(s: string, i: nat, st: Scan6, gs: seq<Group>)
    requires Sound6(st) && st.val == 0 && st.seen == 0 && i <= |s| && s[i..] == Listed(gs) && GoodGroups(gs)
    requires |st.out| + 2 * |gs| <= 16
    ensures Run6(s, i, i, st).Some? && Last(Run6(s, i, i, st).value) == Some(st.(out := st.out + Value(gs)))
  {
    hide Run6, Emit, Listed, Last, Reads, Value, Sound6, Half, GoodGroups;
    NoGroups(st.out);
    ToEnd(s, i, Listed(gs));
    if gs == [] {
      ReadEnd(s, i, st);
      NoWord(st);
    } else {
      ReadListed(s, i, st, gs);
      EmitGroup(st, gs);
      ReadEnd(s, |s| - |gs[|gs| - 1].text|, Half(st, gs));
      LastWord(Half(st, gs));
    }
  }

  lemma ColonBehind(s: string, i: nat, a: string, rest: string)
    requires i <= |s| && s[i..] == a + ":" + rest && rest != []
    ensures Reads(s, i, a) && i + |a| + 1 < |s| && s[i + |a|] == ':' && s[i + |a| + 1..] == rest
  {
    assert s[i..][..|a|] == s[i..i + |a|];
    assert s[i..][|a|] == ':';
    assert s[i..][|a| + 1..] == rest;
  }

  lemma FourOut(out: seq<Byte>, v: seq<Byte>, b: seq<Byte>)
    ensures out + v + b == out + (v + b) && [] + b == b && out + ([] + b) == out + b && v + [] == v
  {
  }

  lemma SoundLonger(st: Scan6, more: seq<Byte>)
    requires Sound6(st) && |st.out| + |more| <= 16
    ensures Sound6(st.(out := st.out + more))
  {
  }

  /** Groups and the IPv4 address up to the end of the text. */
  lemma ReadToEnd4(s: string, i: nat, st: Scan6, gs: seq<Group>, b: seq<Byte>)
    requires Sound6(st) && st.val == 0 && st.seen == 0 && i <= |s| && |b| == 4 && s[i..] == Tail(gs, Some(b))
    requires |st.out| + 2 * |gs| + 4 <= 16 && GoodGroups(gs)
    ensures Run6(s, i, i, st).Some?
        && Last(Run6(s, i, i, st).value) == Some(st.(out := st.out + TailBytes(gs, Some(b))))
  {
    hide Run6, Emit, Listed, Last, Reads, Value, Sound6, Print4, GoodGroups;
    Print4Length(b);
    NoGroups([]);
    FourOut(st.out, Value(gs), b);
    var st', j := st, i;
    if gs == [] {
      assert [] + Print4(b) == Print4(b);
    } else {
      ColonBehind(s, i, Listed(gs), Print4(b));
      ReadGroups(s, i, st, gs);
      st', j := Through(st, gs), i + |Listed(gs)| + 1;
    }
    Read4(s, j, st', b);
    assert st'.(out := st'.out + b) == st.(out := st.out + TailBytes(gs, Some(b)));
    SoundLonger(st, TailBytes(gs, Some(b)));
    NoWord(st'.(out := st'.out + b));
  }

  lemma ReadTail(s: string, i: nat, st: Scan6, gs: seq<Group>, four: Option<seq<Byte>>)
    requires Sound6(st) && st.val == 0 && st.seen == 0 && i <= |s| && GoodGroups(gs)
    requires (four.Some? ==> |four.value| == 4) && s[i..] == Tail(gs, four) && |st.out| + |TailBytes(gs, four)| <= 16
    ensures Run6(s, i, i, st).Some? && Last(Run6(s, i, i, st).value) == Some(st.(out := st.out + TailBytes(gs, four)))
  {
    hide Run6, Last, Value, Sound6, Print4, GoodGroups, Listed;
    match four
    case None => ReadToEnd(s, i, st, gs); FourOut([], Value(gs), []);
    case Some(b) => ReadToEnd4(s, i, st, gs, b);
  }

  lemma {:induction false} DenotesStart(t: string, n: nat)
    requires t != [] && Denotes(t, n)
    ensures DigitOf(t[0]).Some?
    decreases |t|
  {
    if |t| > 1 {
      DenotesStart(t[..|t| - 1], n / 16);
    } else {
      DigitIs(t[0], n % 16);
    }
  }

  lemma {:induction false} ListedStart(gs: seq<Group>)
    requires gs != [] && GoodGroups(gs)
    ensures Listed(gs) != [] && DigitOf(Listed(gs)[0]).Some?
    decreases |gs|
  {
    hide DigitOf;
    if |gs| > 1 {
      ListedStart(gs[..|gs| - 1]);
    } else {
      DenotesStart(gs[0].text, gs[0].word);
    }
  }

  /** The part before "::", and "::" itself. */
  lemma ReadFront(s: string, gs: seq<Group>, rest: string)
    requires s == Listed(gs) + "::" + rest && |gs| <= 8 && GoodGroups(gs)
    ensures var i, st := |Listed(gs)| + 2, Scan6(Value(gs), Some(2 * |gs|), 0, 0);
      && (s[0] == ':' ==> s[1] == ':') && Sound6(st) && i <= |s| && s[i..] == rest
      && Run6(s, Start(s), Start(s), Scan6([], None, 0, 0)) == Run6(s, i, i, st)
  {
    assert Power(16, 0) == 1;
    hide Run6, Emit, Listed, Reads, Value, DigitOf, GoodGroups;
    FrontAt(s, Listed(gs), rest);
    NoGroups([]);
    if gs == [] {
      ReadDouble(s, 1, 1, Scan6([], None, 0, 0));
    } else {
      ListedStart(gs);
      ColonIsNoDigit();
      StartState(Value(gs));
      ReadGroups(s, 0, Scan6([], None, 0, 0), gs);
      var p := |Listed(gs)|;
      ReadDouble(s, p + 1, p + 1, Scan6(Value(gs), None, 0, 0));
    }
  }

  lemma TailStart(gs: seq<Group>, four: Option<seq<Byte>>)
    requires (four.Some? ==> |four.value| == 4) && GoodGroups(gs) && TailBytes(gs, four) != []
    ensures Tail(gs, four) != [] && DigitOf(Tail(gs, four)[0]).Some?
  {
    hide DigitOf, GoodGroups, Number;
    NoGroups([]);
    if gs != [] {
      ListedStart(gs);
    } else {
      NumberStart(four.value[0], 10);
      FirstPart(Number(four.value[0], 10), Number(four.value[1], 10), Number(four.value[2], 10),
          Number(four.value[3], 10));
    }
  }

  lemma SpreadFills(front: seq<Byte>, back: seq<Byte>)
    requires |front| + |back| <= 14
    ensures Spread(front + back, Some(|front|)) == Some(Filled(front, back))
  {
    var out := front + back;
    assert out[..|front|] == front && out[|front|..] == back;
  }

  lemma SpreadWhole(b: seq<Byte>)
    requires |b| == 16
    ensures Spread(b, None) == Some(b)
  {
  }

  lemma FormAccepted(f: Form)
    requires GoodForm(f)
    ensures Parse6(Written(f)) == Some(Stands(f))
  {
    var s := Written(f);
    StartState([]);
    hide Run6, Emit, Listed, Last, Value, Tail, Spread, Filled, GoodGroups, DigitOf, Sound6, Parse6, TailBytes;
    match f
    case Whole(all, four) =>
      TailStart(all, four);
      ColonIsNoDigit();
      assert s[0..] == s;
      var st := Scan6([], None, 0, 0);
      ReadTail(s, 0, st, all, four);
      NoGroups([]);
      FourOut([], [], TailBytes(all, four));
      ParseFrom(s, 0, st, st.(out := TailBytes(all, four)));
      SpreadWhole(TailBytes(all, four));
    case Gap(left, right, four) =>
      var i, st := |Listed(left)| + 2, Scan6(Value(left), Some(2 * |left|), 0, 0);
      ReadFront(s, left, Tail(right, four));
      ReadTail(s, i, st, right, four);
      ParseFrom(s, i, st, st.(out := Value(left) + TailBytes(right, four)));
      SpreadFills(Value(left), TailBytes(right, four));
  }

  // ----- nothing else is accepted -----

  /** What has been read of a form: groups with their colons, "::" if it has come, the digits of the current group. */
  datatype Partial = Partial(left: seq<Group>, gap: bool, right: seq<Group>, cur: string)

  function Lead(gs: seq<Group>): string {
    if gs == [] then [] else Listed(gs) + ":"
  }

  function Ahead(p: Partial): string {
    if p.gap then Listed(p.left) + "::" + Lead(p.right) else Lead(p.left)
  }

  /** The scanner at position i has read p. */
  ghost predicate Matches(s: string, i: nat, st: Scan6, p: Partial) {
    && i <= |s| && s[..i] == Ahead(p) + p.cur
    && GoodGroups(p.left) && GoodGroups(p.right) && (!p.gap ==> p.right == [])
    && st.seen == |p.cur| <= 4 && Denotes(p.cur, st.val)
    && st.out == Value(p.left) + Value(p.right)
    && st.colon == (if p.gap then Some(2 * |p.left|) else None)
    && (p.cur == [] && i == |s| ==> p.right == [] && (p.gap || p.left == []))
    && (p.cur == [] && !p.gap && p.left == [] ==> s == [] || s[0] != ':')
  }

  lemma ListedSnoc(gs: seq<Group>, g: Group)
    ensures Listed(gs + [g]) == Lead(gs) + g.text && Value(gs + [g]) == Value(gs) + WordBytes(g.word)
    ensures Lead(gs + [g]) == Lead(gs) + g.text + ":"
  {
    assert (gs + [g])[..|gs|] == gs;
    hide WordBytes;
  }

  lemma GoodSnoc(gs: seq<Group>, t: string, w: Word)
    requires GoodGroups(gs) && 1 <= |t| <= 4 && Denotes(t, w)
    ensures GoodGroups(gs + [Group(t, w)])
  {
    hide Denotes;
  }

  lemma TakenBy(out: seq<Byte>, front: seq<Byte>, back: seq<Byte>, b: seq<Byte>)
    requires out == front + back && Spread(out, Some(|front|)) == Some(b)
    ensures |front| + |back| < 16 && b == Filled(front, back)
  {
    assert out[..|front|] == front && out[|front|..] == back;
  }

  lemma Cut(s: string, i: nat, a: string, c: string)
    requires i <= |s| && s[..i] == a + c
    ensures s[..i - |c|] == a && s == a + s[i - |c|..] && s[i - |c|..i] == c
    ensures i < |s| ==> s[..i + 1] == a + (c + [s[i]])
    ensures i == |s| ==> s == a + c
  {
    assert (a + c)[..|a|] == a && s[..i][..i - |c|] == s[..i - |c|];
    assert (a + c)[|a|..] == c && s[..i][i - |c|..] == s[i - |c|..i];
    assert s == s[..i - |c|] + s[i - |c|..];
    if i < |s| { assert s[..i + 1] == s[..i] + [s[i]]; }
    if i == |s| { assert s[..i] == s; }
  }

  lemma Triple(a: string, b: string, c: string, d: string)
    ensures a + b + c + d == a + b + (c + d) && a + [] == a
  {
  }

  lemma EvenValue(gs: seq<Group>)
    ensures |Value(gs)| == 2 * |gs| && Value(gs) + [] == Value(gs)
  {
  }

  /** The form of a text that has been read to its end, or to its IPv4 address. */
  ghost function Finished(p: Partial, four: Option<seq<Byte>>): Form {
    if p.gap then Gap(p.left, p.right, four) else Whole(p.left, four)
  }

  lemma FinishedIs(s: string, p: Partial, four: Option<seq<Byte>>, out: seq<Byte>, b: seq<Byte>)
    requires GoodGroups(p.left) && GoodGroups(p.right) && (!p.gap ==> p.right == [])
    requires four.Some? ==> |four.value| == 4
    requires out == Value(p.left) + TailBytes(p.right, four)
    requires Spread(out, if p.gap then Some(2 * |p.left|) else None) == Some(b)
    ensures GoodForm(Finished(p, four)) && Stands(Finished(p, four)) == b
  {
    EvenValue(p.left);
    EvenValue(p.right);
    hide Filled, Value, GoodGroups;
    NoGroups([]);
    if p.gap {
      TakenBy(out, Value(p.left), TailBytes(p.right, four), b);
    } else {
      FourOut([], Value(p.left), if four.Some? then four.value else []);
    }
  }

  /** With its last group in place. */
  ghost function Closed(p: Partial, w: Word): Partial {
    var g := Group(p.cur, w);
    if p.gap then p.(right := p.right + [g], cur := []) else p.(left := p.left + [g], cur := [])
  }

  lemma ClosedText(p: Partial, w: Word)
    requires !p.gap ==> p.right == []
    ensures var q := Closed(p, w);
      && (if q.gap then Listed(q.left) + "::" + Listed(q.right) else Listed(q.left)) == Ahead(p) + p.cur
      && Ahead(q) == Ahead(p) + (p.cur + ":")
      && Value(q.left) + Value(q.right) == Value(p.left) + Value(p.right) + WordBytes(w)
  {
    hide Listed, Value, WordBytes, Lead;
    NoGroups([]);
    if p.gap {
      ListedSnoc(p.right, Group(p.cur, w));
      Triple(Listed(p.left), "::", Lead(p.right), p.cur);
      Triple(Listed(p.left), "::", Lead(p.right), p.cur + ":");
      FourOut(Value(p.left), Value(p.right), WordBytes(w));
      assert Lead(p.right) + p.cur + ":" == Lead(p.right) + (p.cur + ":");
    } else {
      ListedSnoc(p.left, Group(p.cur, w));
      assert Lead(p.left) + p.cur + ":" == Lead(p.left) + (p.cur + ":");
      NoGroups(Value(p.left) + WordBytes(w));
      NoGroups(Value(p.left));
    }
  }

  lemma ClosedGood(p: Partial, w: Word)
    requires GoodGroups(p.left) && GoodGroups(p.right) && 1 <= |p.cur| <= 4 && Denotes(p.cur, w)
    ensures GoodGroups(Closed(p, w).left) && GoodGroups(Closed(p, w).right)
  {
    GoodSnoc(if p.gap then p.right else p.left, p.cur, w);
  }

  /** At the end of the text. */
  lemma EndForm(s: string, st: Scan6, p: Partial, b: seq<Byte>) returns (f: Form)
    requires Sound6(st) && Matches(s, |s|, st, p) && Last(st).Some?
    requires Spread(Last(st).value.out, Last(st).value.colon) == Some(b)
    ensures GoodForm(f) && Written(f) == s && Stands(f) == b
  {
    WordFits(st.val, st.seen);
    Cut(s, |s|, Ahead(p), p.cur);
    NoGroups(Value(p.left));
    var q := if p.cur == [] then p else Closed(p, st.val);
    if p.cur != [] {
      ClosedText(p, st.val);
      ClosedGood(p, st.val);
    }
    hide Listed, Value, WordBytes, Spread, GoodGroups, Denotes, Stands, GoodForm, Power;
    FourOut(Value(q.left), Value(q.right), []);
    FinishedIs(s, q, None, Last(st).value.out, b);
    f := Finished(q, None);
    Triple(Listed(p.left), "::", [], []);
  }

  /** At the first dot. */
  lemma FourForm(s: string, i: nat, st: Scan6, p: Partial, v: seq<Byte>, b: seq<Byte>) returns (f: Form)
    requires Matches(s, i, st, p) && |v| == 4 && s[i - |p.cur|..] == Print4(v)
    requires Spread(st.out + v, st.colon) == Some(b)
    ensures GoodForm(f) && Written(f) == s && Stands(f) == b
  {
    Cut(s, i, Ahead(p), p.cur);
    hide Listed, Value, Print4, Spread, GoodGroups, Denotes, Stands, GoodForm;
    FourOut(Value(p.left), Value(p.right), v);
    NoGroups(Value(p.left));
    FinishedIs(s, p, Some(v), st.out + v, b);
    f := Finished(p, Some(v));
    assert [] + Print4(v) == Print4(v);
    Triple(Listed(p.left), "::", Lead(p.right), Print4(v));
  }

  lemma OneDigitOn(s: string, i: nat, st: Scan6, p: Partial, d: nat)
    requires Matches(s, i, st, p) && i < |s| && DigitOf(s[i]) == Some(d) && st.seen < 4
    ensures Matches(s, i + 1, st.(val := st.val * 16 + d, seen := st.seen + 1), p.(cur := p.cur + [s[i]]))
  {
    DigitIs(s[i], d);
    var cur := p.cur + [s[i]];
    assert cur[..|cur| - 1] == p.cur && (st.val * 16 + d) / 16 == st.val && (st.val * 16 + d) % 16 == d;
    hide Listed, Value, GoodGroups, DigitOf, Ahead;
    Cut(s, i, Ahead(p), p.cur);
  }

  lemma ClosedNotEmpty(p: Partial, w: Word)
    ensures var q := Closed(p, w); q.gap == p.gap && q.cur == [] && (q.gap || (q.left != [] && q.right == p.right))
    ensures p.gap ==> Closed(p, w).left == p.left
  {
  }

  lemma GroupOver(s: string, i: nat, st: Scan6, p: Partial)
    requires Sound6(st) && Matches(s, i, st, p) && i + 1 < |s| && s[i] == ':' && st.seen > 0 && Emit(st).Some?
    ensures st.val < 0x1_0000 && Matches(s, i + 1, Emit(st).value, Closed(p, st.val))
  {
    hide Listed, Value, GoodGroups, Ahead, WordBytes, Power, Lead, Closed;
    WordFits(st.val, st.seen);
    ClosedText(p, st.val);
    ClosedGood(p, st.val);
    Cut(s, i, Ahead(p), p.cur);
    Triple(Ahead(p), p.cur, ":", []);
    assert Ahead(Closed(p, st.val)) + [] == Ahead(Closed(p, st.val));
    ClosedNotEmpty(p, st.val);
  }

  lemma DoubleOn(s: string, i: nat, st: Scan6, p: Partial)
    requires Matches(s, i, st, p) && i < |s| && s[i] == ':' && st.seen == 0 && !p.gap
    ensures Matches(s, i + 1, st.(colon := Some(|st.out|)), p.(gap := true))
  {
    EvenValue(p.left);
    NoGroups(Value(p.left));
    assert |s[..i]| == i;
    assert p.left != [];
    Cut(s, i, Ahead(p), p.cur);
    hide Value, GoodGroups, Denotes;
    assert s[..i + 1] == Listed(p.left) + ":" + ([] + ":");
    assert Listed(p.left) + ":" + ([] + ":") == Listed(p.left) + "::" + [] + [];
  }

  lemma MatchesParts(s: string, i: nat, st: Scan6, p: Partial)
    requires Matches(s, i, st, p)
    ensures i <= |s| && st.seen == |p.cur| && (st.colon.Some? <==> p.gap)
  {
  }

  /** From any point on: the text that the scanner accepts is a form. */
  lemma {:induction false} Rebuilt(s: string, i: nat, st: Scan6, p: Partial, b: seq<Byte>) returns (f: Form)
    requires Sound6(st) && Matches(s, i, st, p) && |p.cur| <= i
    requires var r := Run6(s, i, i - |p.cur|, st);
      r.Some? && Last(r.value).Some? && Spread(Last(r.value).value.out, Last(r.value).value.colon) == Some(b)
    ensures GoodForm(f) && Written(f) == s && Stands(f) == b
    decreases |s| - i
  {
    hide Last, Spread, Matches, GoodForm, Written, Stands, Parse4;
    MatchesParts(s, i, st, p);
    if i == |s| {
      f := EndForm(s, st, p, b);
    } else if DigitOf(s[i]).Some? {
      OneDigitOn(s, i, st, p, DigitOf(s[i]).value);
      f := Rebuilt(s, i + 1, st.(val := st.val * 16 + DigitOf(s[i]).value, seen := st.seen + 1),
          p.(cur := p.cur + [s[i]]), b);
    } else if s[i] == ':' {
      if st.seen == 0 {
        DoubleOn(s, i, st, p);
        f := Rebuilt(s, i + 1, st.(colon := Some(|st.out|)), p.(gap := true), b);
      } else {
        GroupOver(s, i, st, p);
        f := Rebuilt(s, i + 1, Emit(st).value, Closed(p, st.val), b);
      }
    } else {
      var v := Parse4(s[i - |p.cur|..]).value;
      Parse4Exact(s[i - |p.cur|..], v);
      NoWord(st.(out := st.out + v, val := 0, seen := 0));
      f := FourForm(s, i, st, p, v, b);
    }
  }

  lemma AcceptedIsForm(s: string, b: seq<Byte>) returns (f: Form)
    requires Parse6(s) == Some(b)
    ensures GoodForm(f) && Written(f) == s && Stands(f) == b
  {
    StartState([]);
    NoGroups([]);
    var st := Scan6([], None, 0, 0);
    if s != [] && s[0] == ':' {
      ColonIsNoDigit();
      ReadDouble(s, 1, 1, st);
      assert s[..2] == "::";
      assert Listed([]) + "::" + Lead([]) + [] == "::";
      f := Rebuilt(s, 2, st.(colon := Some(0)), Partial([], true, [], []), b);
    } else {
      assert s[..0] == [];
      f := Rebuilt(s, 0, st, Partial([], false, [], []), b);
    }
  }

  /** inet_pton6 accepts exactly the text forms, and gives the address that each stands for. */
  lemma Parse6Exact(s: string, b: seq<Byte>)
    ensures Parse6(s) == Some(b) <==> TextForm(s, b)
  {
    hide Parse6, GoodGroups, Written, Stands;
    if Parse6(s) == Some(b) {
      var f := AcceptedIsForm(s, b);
    }
    if TextForm(s, b) {
      var f :| GoodForm(f) && Written(f) == s && Stands(f) == b;
      FormAccepted(f);
    }
  }

  lemma FormsOf(s: string)
    ensures forall b :: Parse6(s) == Some(b) <==> TextForm(s, b)
  {
    hide Parse6, TextForm;
    forall b ensures Parse6(s) == Some(b) <==> TextForm(s, b) { Parse6Exact(s, b); }
  }

  // ----- what is printed is a form -----

  lemma {:induction false} NumberDenotes(n: nat)
    ensures Denotes(Number(n, 16), n)
    decreases n
  {
    if n >= 16 {
      NumberDenotes(n / 16);
      NumberUnfold(n, 16);
      var front, c := Number(n / 16, 16), DIGITS[n % 16];
      assert (front + [c])[..|front|] == front;
    }
  }

  function Groups(ws: seq<Word>): (gs: seq<Group>)
    ensures |gs| == |ws|
  {
    if ws == [] then [] else Groups(ws[..|ws| - 1]) + [Group(Hex(ws[|ws| - 1]), ws[|ws| - 1])]
  }

  lemma {:induction false} GroupsPrinted(ws: seq<Word>)
    ensures GoodGroups(Groups(ws)) && Listed(Groups(ws)) == Joined(ws) && Value(Groups(ws)) == Bytes(ws)
    decreases |ws|
  {
    if ws != [] {
      var front, w := ws[..|ws| - 1], ws[|ws| - 1];
      GroupsPrinted(front);
      NumberDenotes(w);
      HexLength(w);
      hide Number, Denotes, WordBytes;
      GoodSnoc(Groups(front), Hex(w), w);
      ListedSnoc(Groups(front), Group(Hex(w), w));
    }
  }

  lemma ZerosFill(b: seq<Byte>, r: Run)
    requires |b| == 16 && Zeros(Words(b), r.base, r.len) && r.len >= 1
    ensures Filled(b[..2 * r.base], b[2 * (r.base + r.len)..]) == b
  {
    var c, d := 2 * r.base, 2 * (r.base + r.len);
    forall j | c <= j < d ensures b[j] == 0 { assert Words(b)[j / 2] == WordAt(b, j / 2) == 0; }
    assert b == b[..c] + seq(d - c, i => 0) + b[d..];
  }

  lemma RoundTripPlain(b: seq<Byte>)
    requires |b| == 16
    ensures Parse6(Print6(b, None)) == Some(b)
  {
    hide Listed, Value, Joined, Groups, GoodGroups, Words, Bytes, Parse6;
    GroupsPrinted(Words(b));
    BytesOfWords(b);
    EvenValue(Groups(Words(b)));
    FormAccepted(Whole(Groups(Words(b)), None));
  }

  lemma GapForm(left: seq<Group>, right: seq<Group>, four: Option<seq<Byte>>, front: seq<Byte>, back: seq<Byte>)
    requires GoodGroups(left) && GoodGroups(right) && (four.Some? ==> |four.value| == 4)
    requires Value(left) == front && TailBytes(right, four) == back && |front| + |back| <= 14
    ensures Parse6(Listed(left) + "::" + Tail(right, four)) == Some(Filled(front, back))
  {
    hide Listed, Value, GoodGroups, Tail, TailBytes, Filled, Parse6;
    FormAccepted(Gap(left, right, four));
  }

  /** Printed words around "::". */
  lemma PrintedAround(left: seq<Word>, right: seq<Word>)
    requires 2 * |left| + 2 * |right| <= 14
    ensures Parse6(Joined(left) + "::" + Joined(right)) == Some(Filled(Bytes(left), Bytes(right)))
  {
    hide Listed, Value, Joined, Groups, GoodGroups, Bytes, Filled, Parse6;
    GroupsPrinted(left);
    GroupsPrinted(right);
    EvenValue(Groups(right));
    GapForm(Groups(left), Groups(right), None, Bytes(left), Bytes(right));
  }

  lemma RunSlices(b: seq<Byte>, r: Run)
    requires |b| == 16 && r.base + r.len <= 8
    ensures Bytes(Words(b)[..r.base]) == b[..2 * r.base]
    ensures Bytes(Words(b)[r.base + r.len..]) == b[2 * (r.base + r.len)..]
  {
    hide Words, Bytes;
    BytesSlice(b, 0, r.base);
    BytesSlice(b, r.base + r.len, 8);
    assert Words(b)[0..r.base] == Words(b)[..r.base] && Words(b)[r.base + r.len..8] == Words(b)[r.base + r.len..];
    assert b[0..2 * r.base] == b[..2 * r.base] && b[2 * (r.base + r.len)..16] == b[2 * (r.base + r.len)..];
  }

  /** inet_pton6 reads back what inet_ntop6 prints, whichever run of zeros is left out. */
  lemma RoundTripRun(b: seq<Byte>, r: Run)
    requires |b| == 16 && Zeros(Words(b), r.base, r.len) && r.len >= 1 && !Embeds4(Words(b), Some(r))
    ensures Parse6(Print6(b, Some(r))) == Some(b)
  {
    ZerosFill(b, r);
    assert r.base + r.len <= 8;
    hide Joined, Words, Bytes, Filled, Zeros, Parse6, Embeds4;
    RunSlices(b, r);
    PrintedAround(Words(b)[..r.base], Words(b)[r.base + r.len..]);
  }

  lemma NoGroupIsBad()
    ensures GoodGroups([])
  {
  }

  /** "::", perhaps a printed word, and an IPv4 address. */
  lemma PrintedBefore4(right: seq<Word>, four: seq<Byte>)
    requires |right| <= 1 && |four| == 4
    ensures Parse6("::" + ((if right == [] then [] else Joined(right) + ":") + Print4(four))) ==
            Some(Filled([], Bytes(right) + four))
  {
    NoGroupIsBad();
    hide Listed, Value, Joined, Groups, GoodGroups, Bytes, Filled, Parse6, Print4;
    NoGroups([]);
    GroupsPrinted(right);
    GapForm([], Groups(right), Some(four), [], Bytes(right) + four);
    assert [] + "::" == "::";
  }

  lemma BehindRun(b: seq<Byte>, r: Run)
    requires |b| == 16 && r.base == 0 && (r.len == 5 || r.len == 6)
    ensures var right := Words(b)[r.len..6];
      && |right| == 6 - r.len && Bytes(right) + b[12..] == b[2 * r.len..]
      && (if right == [] then [] else Joined(right) + ":") == if r.len == 5 then Hex(Words(b)[5]) + ":" else []
  {
    BytesSlice(b, r.len, 6);
    assert b[2 * r.len..12] + b[12..] == b[2 * r.len..];
    hide Hex;
  }

  lemma RoundTrip4(b: seq<Byte>, r: Run)
    requires |b| == 16 && Zeros(Words(b), r.base, r.len) && Embeds4(Words(b), Some(r))
    ensures Parse6(Print6(b, Some(r))) == Some(b)
  {
    ZerosFill(b, r);
    BehindRun(b, r);
    Print4Form(b, r);
    hide Joined, Bytes, Filled, Print4, Print6, Parse6, Hex, Words, Zeros;
    PrintedBefore4(Words(b)[r.len..6], b[12..]);
    assert b[..0] == [];
  }

  // ----- which of the forms is printed -----

  predicate LowerHex(c: char) {
    '0' <= c <= '9' || 'a' <= c <= 'f'
  }

  /** Lower case, and no leading zero. */
  lemma {:induction false} NumberPlain(n: nat, base: nat)
    requires 2 <= base <= 16
    ensures forall i :: 0 <= i < |Number(n, base)| ==> LowerHex(Number(n, base)[i])
    ensures Number(n, base)[0] == '0' ==> n == 0
    decreases n
  {
    if n >= base {
      DivideSmaller(n, base);
      NumberPlain(n / base, base);
    }
  }

  ghost predicate Plain(t: string) {
    forall i :: 0 <= i < |t| ==> LowerHex(t[i]) || t[i] == ':'
  }

  lemma {:induction false} JoinedPlain(ws: seq<Word>)
    ensures Plain(Joined(ws))
    decreases |ws|
  {
    if ws != [] {
      NumberPlain(ws[|ws| - 1], 16);
      JoinedPlain(ws[..|ws| - 1]);
    }
  }

  /** No two colons side by side, and none at either end. */
  ghost predicate SingleColons(t: string) {
    && (forall i :: 0 <= i < |t| - 1 ==> !(t[i] == ':' && t[i + 1] == ':'))
    && (t != [] ==> t[0] != ':' && t[|t| - 1] != ':')
  }

  lemma {:induction false} JoinedSingle(ws: seq<Word>)
    ensures SingleColons(Joined(ws)) && (ws != [] ==> Joined(ws) != [])
    decreases |ws|
  {
    if ws != [] {
      NumberPlain(ws[|ws| - 1], 16);
      HexLength(ws[|ws| - 1]);
      JoinedSingle(ws[..|ws| - 1]);
    }
  }

  lemma Adjacent(w: seq<Word>, best: Option<Run>)
    requires |w| == 8 && LeftmostLongest(w, best)
    ensures best.Some? <==> exists i :: 0 <= i < 7 && w[i] == 0 && w[i + 1] == 0
  {
    match best
    case None =>
      forall i | 0 <= i < 7 ensures !(w[i] == 0 && w[i + 1] == 0) {
        if w[i] == 0 && w[i + 1] == 0 { assert Zeros(w, i, 2); }
      }
    case Some(r) => assert w[r.base] == 0 && w[r.base + 1] == 0;
  }

  /**
    Two colons side by side stand for the leftmost longest run, and are there exactly if two words
    in a row are zero.
  */
  lemma DoubleColonExactly(b: seq<Byte>, best: Option<Run>)
    requires |b| == 16 && LeftmostLongest(Words(b), best)
    ensures var t := Print6(b, best);
      (exists i :: 0 <= i < |t| - 1 && t[i] == ':' && t[i + 1] == ':') <==>
      (exists i :: 0 <= i < 7 && Words(b)[i] == 0 && Words(b)[i + 1] == 0)
  {
    var w, t := Words(b), Print6(b, best);
    Adjacent(w, best);
    hide Words, LeftmostLongest;
    match best
    case None => JoinedSingle(w);
    case Some(r) =>
      if Embeds4(w, best) {
        assert t[0] == ':' && t[1] == ':';
      } else {
        var k := |Joined(w[..r.base])|;
        assert t[k] == ':' && t[k + 1] == ':';
      }
  }

  lemma Embeds4Exactly(w: seq<Word>, best: Option<Run>)
    requires |w| == 8 && LeftmostLongest(w, best)
    ensures Embeds4(w, best) <==>
            (forall i :: 0 <= i < 5 ==> w[i] == 0) && (w[5] == 0xffff || (w[5] == 0 && w[6] != 0))
  {
    if (forall i :: 0 <= i < 5 ==> w[i] == 0) && (w[5] == 0xffff || (w[5] == 0 && w[6] != 0)) {
      var len := if w[5] == 0 then 6 else 5;
      assert Zeros(w, 0, len);
      var r := best.value;
      assert len <= r.len && w[len] != 0;
      assert !(r.base <= len < r.base + r.len);
    }
    if Embeds4(w, best) && best.value.len == 6 {
      assert w[6] == 0 ==> Zeros(w, 0, 7);
    }
  }

  lemma Print4Dotted(b: seq<Byte>)
    requires |b| == 4
    ensures '.' in Print4(b) && forall i :: 0 <= i < |Print4(b)| ==> LowerHex(Print4(b)[i]) || Print4(b)[i] == '.'
  {
    NumberPlain(b[0], 10);
    NumberPlain(b[1], 10);
    NumberPlain(b[2], 10);
    NumberPlain(b[3], 10);
    hide Number;
    assert Print4(b)[|Number(b[0], 10)|] == '.';
  }

  /** Lower case, and an IPv4 address at the end exactly for the IPv4-compatible and IPv4-mapped addresses. */
  lemma DottedExactly(b: seq<Byte>, best: Option<Run>)
    requires |b| == 16 && LeftmostLongest(Words(b), best)
    ensures var w, t := Words(b), Print6(b, best);
      && (forall i :: 0 <= i < |t| ==> LowerHex(t[i]) || t[i] == ':' || t[i] == '.')
      && ('.' in t <==> (forall i :: 0 <= i < 5 ==> w[i] == 0) && (w[5] == 0xffff || (w[5] == 0 && w[6] != 0)))
  {
    var w := Words(b);
    Embeds4Exactly(w, best);
    Print4Dotted(b[12..]);
    NumberPlain(w[5], 16);
    JoinedPlain(w);
    if best.Some? {
      JoinedPlain(w[..best.value.base]);
      JoinedPlain(w[best.value.base + best.value.len..]);
    }
    hide Words, LeftmostLongest, Number, Print4, Joined;
  }
}
