/**
  The text forms of IPv4 and IPv6 addresses: what the printers print, stated without their loops,
  and what the parsers accept, stated as one pass over the text.
*/
module InetText {
  import opened Wrappers

  type Word = x: int | 0 <= x < 0x1_0000

  // ----- numbers -----

  const DIGITS := "0123456789abcdef"
  const UPPER_DIGITS := "0123456789ABCDEF"

  lemma DivideSmaller(n: nat, base: nat)
    requires 2 <= base <= n
    ensures 0 < n / base < n && 0 <= n % base < base
  {
  }

  /** "%u" (base 10) and "%x" (base 16). */
  function Number(n: nat, base: nat): (s: string)
    requires 2 <= base <= 16
    ensures |s| >= 1
    decreases n
  {
    if n < base then [DIGITS[n]]
    else
      DivideSmaller(n, base);
      Number(n / base, base) + [DIGITS[n % base]]
  }

  /** The digit that a character stands for, in either alphabet. */
  function DigitOf(c: char): (d: Option<nat>)
    ensures d.Some? ==> d.value < 16
  {
    if '0' <= c <= '9' then Some(c as int - '0' as int)
    else if 'a' <= c <= 'f' then Some(c as int - 'a' as int + 10)
    else if 'A' <= c <= 'F' then Some(c as int - 'A' as int + 10)
    else None
  }

  /** strchr in the two alphabets comes to the same. */
  lemma DigitOfDigits(d: nat)
    requires d < 16
    ensures DigitOf(DIGITS[d]) == Some(d) == DigitOf(UPPER_DIGITS[d])
    ensures d < 10 ==> '0' <= DIGITS[d] <= '9'
  {
  }

  lemma DivideLess(n: nat, base: nat, limit: nat)
    requires base >= 1 && n < base * limit
    ensures n / base < limit
  {
  }

  function Power(base: nat, k: nat): nat {
    if k == 0 then 1 else base * Power(base, k - 1)
  }

  lemma {:induction false} NumberLength(n: nat, base: nat, k: nat, limit: nat)
    requires 2 <= base <= 16 && k >= 1 && n < limit && limit == Power(base, k)
    ensures |Number(n, base)| <= k
    decreases k
  {
    if n >= base {
      assert k > 1;
      assert n / base < Power(base, k - 1) by { DivideLess(n, base, Power(base, k - 1)); }
      NumberLength(n / base, base, k - 1, Power(base, k - 1));
    }
  }

  // ----- IPv4 -----

  /** "%u.%u.%u.%u" */
  function Print4(b: seq<Byte>): string
    requires |b| == 4
  {
    Number(b[0], 10) + "." + Number(b[1], 10) + "." + Number(b[2], 10) + "." + Number(b[3], 10)
  }

  /** Inside inet_pton4: the finished octets, the current one, whether it has a digit yet. */
  datatype Scan4 = Scan4(done: seq<Byte>, current: Byte, sawDigit: bool)

  function Step4(st: Scan4, c: char): Option<Scan4> {
    if '0' <= c <= '9' then
      var nw := st.current * 10 + (c as int - '0' as int);
      if st.sawDigit && st.current == 0 then None
      else if nw > 255 then None
      else if !st.sawDigit && |st.done| >= 4 then None
      else Some(Scan4(st.done, nw, true))
    else if c == '.' && st.sawDigit then
      if |st.done| == 3 then None else Some(Scan4(st.done + [st.current], 0, false))
    else None
  }

  function Run4(st: Scan4, s: string): Option<Scan4>
    decreases |s|
  {
    if s == [] then Some(st) else
      match Step4(st, s[0])
      case None => None
      case Some(next) => Run4(next, s[1..])
  }

  function Parse4(s: string): (r: Option<seq<Byte>>)
    ensures r.Some? ==> |r.value| == 4
  {
    match Run4(Scan4([], 0, false), s)
    case None => None
    case Some(st) =>
      if |st.done| == 3 && st.sawDigit then Some(st.done + [st.current]) else None
  }

  function Dotted(b: seq<Byte>): string {
    if b == [] then [] else Dotted(b[..|b| - 1]) + Number(b[|b| - 1], 10) + "."
  }

  /** The text that leads to a state, and no other does. */
  function Text4(st: Scan4): string {
    Dotted(st.done) + if st.sawDigit then Number(st.current, 10) else []
  }

  ghost predicate Good4(st: Scan4) {
    |st.done| <= 3 && (!st.sawDigit ==> st.current == 0)
  }

  lemma NumberUnfold(n: nat, base: nat)
    requires 2 <= base <= 16 && n >= base
    ensures Number(n, base) == Number(n / base, base) + [DIGITS[n % base]]
  {
  }

  lemma AppendDigit(n: Byte, d: nat)
    requires n > 0 && d < 10 && n * 10 + d <= 255
    ensures Number(n * 10 + d, 10) == Number(n, 10) + [DIGITS[d]]
  {
    assert (n * 10 + d) / 10 == n && (n * 10 + d) % 10 == d;
    NumberUnfold(n * 10 + d, 10);
    hide Number;
  }

  lemma FirstDigit(d: nat)
    requires d < 10
    ensures Number(d, 10) == [DIGITS[d]]
  {
  }

  lemma Regroup(a: string, b: string, c: string)
    ensures a + b + c == a + (b + c) && a + [] == a && [] + c == c
  {
  }

  lemma DigitChar(c: char)
    requires '0' <= c <= '9'
    ensures DIGITS[c as int - '0' as int] == c
  {
  }

  /** The text of a number grows with its digits; a zero takes no further digit. */
  lemma DigitText(n: Byte, sawDigit: bool, c: char)
    requires '0' <= c <= '9' && (sawDigit ==> n > 0) && (!sawDigit ==> n == 0)
    ensures var next := n * 10 + (c as int - '0' as int);
      next <= 255 ==> Number(next, 10) == (if sawDigit then Number(n, 10) else []) + [c]
  {
    hide Number;
    var d := c as int - '0' as int;
    DigitChar(c);
    if n * 10 + d <= 255 {
      if sawDigit {
        AppendDigit(n, d);
      } else {
        FirstDigit(d);
        Regroup([], [], [c]);
      }
    }
  }

  lemma Step4Digit(st: Scan4, c: char)
    requires Good4(st) && '0' <= c <= '9' && Step4(st, c).Some?
    ensures Good4(Step4(st, c).value) && Text4(Step4(st, c).value) == Text4(st) + [c]
  {
    hide Number, Dotted;
    DigitText(st.current, st.sawDigit, c);
    Regroup(Dotted(st.done), if st.sawDigit then Number(st.current, 10) else [], [c]);
  }

  lemma Step4Dot(st: Scan4)
    requires Good4(st) && Step4(st, '.').Some?
    ensures Good4(Step4(st, '.').value) && Text4(Step4(st, '.').value) == Text4(st) + "."
  {
    assert (st.done + [st.current])[..|st.done|] == st.done;
    hide Number;
    Regroup(Dotted(st.done), Number(st.current, 10), ".");
  }

  lemma Step4Text(st: Scan4, c: char)
    requires Good4(st) && Step4(st, c).Some?
    ensures Good4(Step4(st, c).value) && Text4(Step4(st, c).value) == Text4(st) + [c]
  {
    hide Text4, Good4;
    if '0' <= c <= '9' {
      Step4Digit(st, c);
    } else {
      Step4Dot(st);
    }
  }

  lemma {:induction false} Run4Text(st: Scan4, s: string)
    requires Good4(st) && Run4(st, s).Some?
    ensures Good4(Run4(st, s).value) && Text4(Run4(st, s).value) == Text4(st) + s
    decreases |s|
  {
    hide Text4, Step4, Good4;
    if s != [] {
      Step4Text(st, s[0]);
      Run4Text(Step4(st, s[0]).value, s[1..]);
      assert Text4(st) + [s[0]] + s[1..] == Text4(st) + s;
    } else {
      assert Text4(st) + s == Text4(st);
    }
  }

  lemma {:induction false} Run4Append(st: Scan4, a: string, b: string)
    requires Run4(st, a).Some?
    ensures Run4(st, a + b) == Run4(Run4(st, a).value, b)
    decreases |a|
  {
    if a == [] {
      assert a + b == b;
    } else {
      assert (a + b)[1..] == a[1..] + b;
      Run4Append(Step4(st, a[0]).value, a[1..], b);
    }
  }

  lemma {:induction false} Run4Number(done: seq<Byte>, n: Byte)
    requires |done| <= 3
    ensures Run4(Scan4(done, 0, false), Number(n, 10)) == Some(Scan4(done, n, true))
    decreases n
  {
    var st := Scan4(done, 0, false);
    if n < 10 {
      DigitOfDigits(n);
      assert Number(n, 10)[1..] == [];
    } else {
      Run4Number(done, n / 10);
      DigitOfDigits(n % 10);
      Run4Append(st, Number(n / 10, 10), [DIGITS[n % 10]]);
      assert [DIGITS[n % 10]][1..] == [];
    }
  }

  lemma Run4Dot(done: seq<Byte>, n: Byte)
    requires |done| <= 2
    ensures Run4(Scan4(done, n, true), ".") == Some(Scan4(done + [n], 0, false))
  {
    assert "."[1..] == [];
  }

  /** One octet and its dot. */
  lemma Run4Octet(done: seq<Byte>, n: Byte, rest: string)
    requires |done| <= 2
    ensures Run4(Scan4(done, 0, false), Number(n, 10) + "." + rest) == Run4(Scan4(done + [n], 0, false), rest)
  {
    hide Run4, Number;
    var st := Scan4(done, 0, false);
    Run4Number(done, n);
    Run4Dot(done, n);
    Run4Append(st, Number(n, 10), "." + rest);
    Run4Append(Scan4(done, n, true), ".", rest);
    assert Number(n, 10) + "." + rest == Number(n, 10) + ("." + rest);
  }

  lemma Dotted3(b: seq<Byte>)
    requires |b| == 4
    ensures Dotted(b[..3]) + Number(b[3], 10) == Print4(b)
  {
    assert b[..3][..2] == b[..2] && b[..2][..1] == b[..1] && b[..1][..0] == [];
    assert Dotted(b[..1]) == Number(b[0], 10) + ".";
    assert Dotted(b[..2]) == Number(b[0], 10) + "." + Number(b[1], 10) + ".";
    hide Number;
  }

  lemma Reassociate(a: string, b: string, c: string, d: string)
    ensures a + "." + b + "." + c + "." + d == a + "." + (b + "." + (c + "." + d))
  {
  }

  lemma FourOctets(b: seq<Byte>)
    requires |b| == 4
    ensures [] + [b[0]] == [b[0]] && [b[0]] + [b[1]] == [b[0], b[1]] && [b[0], b[1]] + [b[2]] == [b[0], b[1], b[2]]
    ensures [b[0], b[1], b[2]] + [b[3]] == b
  {
  }

  lemma Parse4Printed(b: seq<Byte>)
    requires |b| == 4
    ensures Parse4(Print4(b)) == Some(b)
  {
    hide Run4, Number, Step4;
    var n0, n1, n2, n3 := Number(b[0], 10), Number(b[1], 10), Number(b[2], 10), Number(b[3], 10);
    Reassociate(n0, n1, n2, n3);
    Run4Octet([], b[0], n1 + "." + (n2 + "." + n3));
    Run4Octet([b[0]], b[1], n2 + "." + n3);
    Run4Octet([b[0], b[1]], b[2], n3);
    Run4Number([b[0], b[1], b[2]], b[3]);
    FourOctets(b);
  }

  /** The strings that inet_pton4 accepts are exactly those that inet_ntop4 prints. */
  lemma Parse4Exact(s: string, b: seq<Byte>)
    requires |b| == 4
    ensures Parse4(s) == Some(b) <==> s == Print4(b)
  {
    if Parse4(s) == Some(b) {
      var st := Run4(Scan4([], 0, false), s).value;
      Run4Text(Scan4([], 0, false), s);
      assert Text4(Scan4([], 0, false)) == [];
      assert b[..3] == st.done;
      Dotted3(b);
    }
    Parse4Printed(b);
  }

  function DecimalDigit(d: nat): char
    requires d < 10
  {
    ('0' as int + d) as char
  }

  /** A byte in decimal, without leading zeros. */
  function Octet(n: Byte): string {
    (if n >= 100 then [DecimalDigit(n / 100)] else [])
    + (if n >= 10 then [DecimalDigit(n / 10 % 10)] else [])
    + [DecimalDigit(n % 10)]
  }

  lemma NumberIsOctet(n: Byte)
    ensures Number(n, 10) == Octet(n)
  {
    assert forall d :: 0 <= d < 10 ==> DIGITS[d] == DecimalDigit(d);
    if n >= 10 {
      NumberUnfold(n, 10);
      if n >= 100 {
        NumberUnfold(n / 10, 10);
        assert n / 10 / 10 == n / 100;
      }
    }
  }

  /** What inet_pton4 accepts, without the scanner: four octets in decimal, with three dots between them. */
  lemma Parse4Decimal(s: string, b: seq<Byte>)
    requires |b| == 4
    ensures Parse4(s) == Some(b) <==> s == Octet(b[0]) + "." + Octet(b[1]) + "." + Octet(b[2]) + "." + Octet(b[3])
  {
    hide Parse4, Octet, Number;
    NumberIsOctet(b[0]);
    NumberIsOctet(b[1]);
    NumberIsOctet(b[2]);
    NumberIsOctet(b[3]);
    Parse4Exact(s, b);
  }

  lemma NumberShort(n: Byte)
    ensures 1 <= |Number(n, 10)| <= 3
  {
    assert Power(10, 0) == 1 && Power(10, 1) == 10 && Power(10, 2) == 100 && Power(10, 3) == 1000;
    NumberLength(n, 10, 3, 1000);
  }

  lemma Print4Length(b: seq<Byte>)
    requires |b| == 4
    ensures 7 <= |Print4(b)| <= 15
  {
    assert Power(10, 3) == 1000 by { assert Power(10, 2) == 100 && Power(10, 1) == 10; }
    NumberShort(b[0]);
    NumberShort(b[1]);
    NumberShort(b[2]);
    NumberShort(b[3]);
  }
}
