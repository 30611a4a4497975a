/** `ll2string` and `string2ll`: 64-bit integers and their decimal text. */
module IntText {
  import opened Basics

  const ULLONG_MAX: int := 0xffff_ffff_ffff_ffff
  const LLONG_MAX: int := 0x7fff_ffff_ffff_ffff
  const LLONG_MIN: int := -0x8000_0000_0000_0000

  predicate IsLongLong(v: int) {
    LLONG_MIN <= v <= LLONG_MAX
  }

  predicate IsDigit(c: char) {
    '0' <= c <= '9'
  }

  function DigitOf(n: nat): (c: char)
    requires n < 10
    ensures IsDigit(c)
  {
    ('0' as int + n) as char
  }

  function ValueOf(c: char): (n: nat)
    requires IsDigit(c)
    ensures n < 10
  {
    c as int - '0' as int
  }

  /** The decimal digits of a number, without leading zeros. */
  function Digits(n: nat): (s: string)
    ensures s != [] && forall c <- s :: IsDigit(c)
  {
    if n < 10 then [DigitOf(n)] else Digits(n / 10) + [DigitOf(n % 10)]
  }

  function Text(v: int): string {
    if v < 0 then ['-'] + Digits(-v) else Digits(v)
  }

  predicate AllDigits(s: string) {
    forall c <- s :: IsDigit(c)
  }

  function Number(s: string): nat
    requires AllDigits(s)
    decreases |s|
  {
    if s == [] then 0 else Number(s[..|s| - 1]) * 10 + ValueOf(s[|s| - 1])
  }

  // The two are inverse.

  lemma {:induction false} NumberOfDigits(n: nat)
    ensures Number(Digits(n)) == n
  {
    if n >= 10 {
      NumberOfDigits(n / 10);
      var s := Digits(n);
      assert s[..|s| - 1] == Digits(n / 10);
    } else {
      assert Digits(n)[..0] == [];
    }
  }

  lemma {:induction false} DigitsOfNumber(s: string)
    requires s != [] && AllDigits(s) && (s[0] != '0' || |s| == 1)
    ensures Digits(Number(s)) == s && (|s| > 1 ==> Number(s) >= 10)
    decreases |s|
  {
    var t := s[..|s| - 1];
    assert s == t + [s[|s| - 1]];
    if |s| == 1 {
      assert t == [];
    } else {
      assert t[0] == s[0];
      DigitsOfNumber(t);
      if |t| == 1 { assert t[..0] == [] && Number(t) == ValueOf(t[0]) > 0; }
    }
  }

  lemma {:induction false} NoLeadingZero(n: nat)
    ensures Digits(n)[0] != '0' || n == 0
  {
    if n >= 10 { NoLeadingZero(n / 10); }
  }

  lemma NumberGrows(s: string, k: nat)
    requires AllDigits(s) && k <= |s|
    ensures AllDigits(s[..k]) && Number(s[..k]) <= Number(s)
    decreases |s| - k
  {
    if k == |s| {
      assert s[..k] == s;
    } else {
      NumberGrows(s, k + 1);
      assert s[..k + 1][..k] == s[..k];
    }
  }

  /** No two integers have the same text. */
  lemma TextInjective(v: int, w: int)
    requires Text(v) == Text(w)
    ensures v == w
  {
    NumberOfDigits(if v < 0 then -v else v);
    NumberOfDigits(if w < 0 then -w else w);
    var d, e := Digits(if v < 0 then -v else v), Digits(if w < 0 then -w else w);
    assert IsDigit(d[0]) && IsDigit(e[0]);
    if v < 0 { assert Text(v)[1..] == d; }
    if w < 0 { assert Text(w)[1..] == e; }
  }

  function Pow10(k: nat): nat {
    if k == 0 then 1 else 10 * Pow10(k - 1)
  }

  lemma {:induction false} DigitCount(n: nat, k: nat)
    requires k > 0 && n < Pow10(k)
    ensures |Digits(n)| <= k
    decreases k
  {
    if n >= 10 { DigitCount(n / 10, k - 1); }
  }

  lemma TwentyDigits(n: nat)
    requires n <= ULLONG_MAX
    ensures |Digits(n)| <= 20
  {
    assert Pow10(5) == 100_000;
    assert Pow10(10) == 10_000_000_000 by { assert Pow10(7) == 100 * Pow10(5); assert Pow10(9) == 100 * Pow10(7); }
    assert Pow10(15) == 1_000_000_000_000_000 by {
      assert Pow10(12) == 100 * Pow10(10);
      assert Pow10(14) == 100 * Pow10(12);
    }
    assert Pow10(20) == 100_000_000_000_000_000_000 by {
      assert Pow10(17) == 100 * Pow10(15);
      assert Pow10(19) == 100 * Pow10(17);
    }
    DigitCount(n, 20);
  }

  /** `ll2string` into a buffer of `len` octets: the text, cut to fit with its NUL. */
  method Ll2String(s: array<char>, len: nat, value: int) returns (l: nat)
    requires len <= s.Length && IsLongLong(value)
    modifies s
    ensures len == 0 ==> l == 0 && s[..] == old(s[..])
    ensures len > 0 ==>
      && l == (if |Text(value)| < len then |Text(value)| else len - 1)
      && s[..l] == Text(value)[..l] && s[l] == '\0' && s[l + 1..] == old(s[l + 1..])
  {
    if len == 0 { return 0; }
    var text := Format(value);
    l := |text|;
    if l + 1 > len { l := len - 1; }
    hide Text;
    forall i | 0 <= i < l { s[i] := text[i]; }
    s[l] := '\0';
    assert s[..l] == text[..l];
  }

  /** The part of `ll2string` that builds the text in a local buffer. */
  method Format(value: int) returns (text: string)
    requires IsLongLong(value)
    ensures text == Text(value)
  {
    hide Digits;
    var buf := new char[32](_ => '\0');
    var p := FillDigits(buf, if value < 0 then -value else value);
    if value < 0 {
      buf[p] := '-';
      p := p - 1;
      assert buf[p + 1..] == ['-'] + buf[p + 2..];
    }
    text := buf[p + 1..];
  }

  /** The digit loop of `ll2string`, from the end of the buffer backwards. */
  method FillDigits(buf: array<char>, n: nat) returns (p: nat)
    requires buf.Length == 32 && n <= ULLONG_MAX
    modifies buf
    ensures 0 < p < 31 && buf[p + 1..] == Digits(n)
  {
    TwentyDigits(n);
    var v: nat := n;
    p := 31;
    assert buf[32..] == [] && Digits(n) + [] == Digits(n);
    while true
      invariant 11 < p <= 31 && v <= n && Digits(n) == Digits(v) + buf[p + 1..]
      decreases v
    {
      buf[p] := DigitOf(v % 10);
      assert buf[p..] == [DigitOf(v % 10)] + buf[p + 1..];
      p := p - 1;
      if v / 10 == 0 { return; }
      assert Digits(v) + buf[p + 2..] == Digits(v / 10) + buf[p + 1..];
      v := v / 10;
    }
  }

  /** `string2ll`: exactly the texts of 64-bit integers are accepted, each as its
      integer. */
  method String2Ll(s: string) returns (r: Option<int>)
    ensures r.Some? ==> IsLongLong(r.value) && Text(r.value) == s
    ensures r.None? ==> forall v :: IsLongLong(v) ==> Text(v) != s
  {
    if |s| == 0 { return None; }
    if |s| == 1 && s[0] == '0' { return Some(0); }
    hide Number, Digits, Text;
    var negative, plen := false, 0;
    if s[0] == '-' {
      negative, plen := true, 1;
      if plen == |s| {
        OnlySign(s);
        return None;
      }
    }
    ghost var start := plen;
    if !('1' <= s[plen] <= '9') {
      BadStart(s, start);
      return None;
    }
    var fits, v, end := ReadDigits(s, plen);
    if !fits { return None; }
    plen := end;
    if plen < |s| {
      BadOctet(s, start, plen);
      return None;
    }
    Whole(s, start);
    if negative {
      if v > -(LLONG_MIN + 1) + 1 {
        TooBig(s, start, plen);
        return None;
      }
      return Some(-v);
    }
    if v > LLONG_MAX {
      NotSigned(s, v);
      return None;
    }
    return Some(v);
  }

  /** The digit loop of `string2ll`, with its two overflow tests. */
  method ReadDigits(s: string, start: nat) returns (fits: bool, v: nat, plen: nat)
    requires start < |s| && start == (if s[0] == '-' then 1 else 0) && '1' <= s[start] <= '9'
    ensures !fits ==> forall v :: IsLongLong(v) ==> Text(v) != s
    ensures fits ==> start < plen <= |s| && AllDigits(s[start..plen]) && v == Number(s[start..plen])
    ensures fits && plen < |s| ==> !IsDigit(s[plen])
  {
    hide Number, Digits, Text;
    fits, v, plen := true, s[start] as int - '0' as int, start + 1;
    OneDigit(s, start);
    while plen < |s| && IsDigit(s[plen])
      invariant start < plen <= |s| && AllDigits(s[start..plen]) && v == Number(s[start..plen]) && v <= ULLONG_MAX
    {
      NextDigit(s, start, plen);
      if v > ULLONG_MAX / 10 {
        TooBig(s, start, plen + 1);
        fits := false;
        return;
      }
      v := v * 10;
      if v > ULLONG_MAX - (s[plen] as int - '0' as int) {
        TooBig(s, start, plen + 1);
        fits := false;
        return;
      }
      v := v + (s[plen] as int - '0' as int);
      plen := plen + 1;
    }
  }

  lemma OneDigit(s: string, k: nat)
    requires k < |s| && IsDigit(s[k])
    ensures AllDigits(s[k..k + 1]) && Number(s[k..k + 1]) == ValueOf(s[k])
  {
    assert s[k..k + 1] == [s[k]] && [s[k]][..0] == [];
  }

  lemma NextDigit(s: string, start: nat, k: nat)
    requires start < k < |s| && AllDigits(s[start..k]) && IsDigit(s[k])
    ensures AllDigits(s[start..k + 1]) && Number(s[start..k + 1]) == Number(s[start..k]) * 10 + ValueOf(s[k])
  {
    var t := s[start..k + 1];
    assert t == s[start..k] + [s[k]] && t[..|t| - 1] == s[start..k];
  }

  /** All octets used: the string is the text of what was read. */
  lemma Whole(s: string, start: nat)
    requires start < |s| && start == (if s[0] == '-' then 1 else 0) && AllDigits(s[start..|s|]) && s[start] != '0'
    ensures var v: int := Number(s[start..|s|]); v > 0 && s == (if start == 1 then Text(-v) else Text(v))
    ensures start == 0 ==> s == Digits(Number(s[start..|s|]))
  {
    var ds := s[start..|s|];
    DigitsOfNumber(ds);
    assert ds[0] == s[start];
    assert s == (if start == 1 then ['-'] else []) + ds;
    assert Digits(0) == ['0'];
  }

  // Why the rejected strings are no texts.

  lemma OnlySign(s: string)
    requires s == ['-']
    ensures forall v: int :: Text(v) != s
  {
    forall v: int ensures Text(v) != s { assert IsDigit(Digits(if v < 0 then -v else v)[0]); }
  }

  /** The digits of a text start behind its sign. */
  lemma TextFrom(s: string, start: nat, v: int)
    requires start < |s| && start == (if s[0] == '-' then 1 else 0) && Text(v) == s
    ensures v < 0 <==> start == 1
    ensures s[start..] == Digits(if v < 0 then -v else v)
  {
    var d := Digits(if v < 0 then -v else v);
    assert IsDigit(d[0]);
    if v < 0 { assert Text(v)[0] == '-' && Text(v)[1..] == d; } else { assert s[0] == d[0] && s[0..] == s; }
  }

  /** A text starts with a digit other than zero, unless it is zero, and goes on with
      digits. */
  lemma TextShape(s: string, start: nat, v: int)
    requires start < |s| && start == (if s[0] == '-' then 1 else 0) && Text(v) == s
    ensures '1' <= s[start] <= '9' || s == "0"
    ensures forall k :: start <= k < |s| ==> IsDigit(s[k])
  {
    TextFrom(s, start, v);
    var n, d := if v < 0 then -v else v, s[start..];
    NoLeadingZero(n);
    assert s[start] == d[0] && d[0] in d;
    forall k | start <= k < |s| ensures IsDigit(s[k]) { assert d[k - start] in d; }
  }

  lemma BadStart(s: string, start: nat)
    requires start < |s| && start == (if s[0] == '-' then 1 else 0) && !('1' <= s[start] <= '9') && s != "0"
    ensures forall v: int :: Text(v) != s
  {
    forall v: int ensures Text(v) != s { if Text(v) == s { TextShape(s, start, v); } }
  }

  lemma BadOctet(s: string, start: nat, k: nat)
    requires start <= k < |s| && start == (if s[0] == '-' then 1 else 0) && !IsDigit(s[k])
    ensures forall v: int :: Text(v) != s
  {
    forall v: int ensures Text(v) != s { if Text(v) == s { TextShape(s, start, v); } }
  }

  /** No 64-bit magnitude is below what its first digits say. */
  lemma Magnitude(s: string, start: nat, k: nat, v: int)
    requires start < k <= |s| && start == (if s[0] == '-' then 1 else 0)
    requires AllDigits(s[start..k]) && Text(v) == s
    ensures Number(s[start..k]) <= if v < 0 then -v else v
  {
    TextFrom(s, start, v);
    NumberOfDigits(if v < 0 then -v else v);
    assert s[start..][..k - start] == s[start..k];
    NumberGrows(s[start..], k - start);
  }

  /** The digits read so far already exceed every 64-bit magnitude. */
  lemma TooBig(s: string, start: nat, k: nat)
    requires start < k <= |s| && start == (if s[0] == '-' then 1 else 0)
    requires AllDigits(s[start..k]) && Number(s[start..k]) > -LLONG_MIN
    ensures forall v :: IsLongLong(v) ==> Text(v) != s
  {
    forall v | IsLongLong(v) ensures Text(v) != s { if Text(v) == s { Magnitude(s, start, k, v); } }
  }

  lemma NotSigned(s: string, n: nat)
    requires s == Digits(n) && n > LLONG_MAX
    ensures forall v :: IsLongLong(v) ==> Text(v) != s
  {
    forall v | IsLongLong(v) ensures Text(v) != s {
      if Text(v) == s { TextInjective(v, n); }
    }
  }

  /** Through a buffer that is long enough and back: every 64-bit integer survives. */
  method RoundTrip(value: int) returns (r: Option<int>)
    requires IsLongLong(value)
    ensures r == Some(value)
  {
    var s := new char[32](_ => '\0');
    TwentyDigits(if value < 0 then -value else value);
    var l := Ll2String(s, 32, value);
    assert Text(value)[..l] == Text(value);
    r := String2Ll(s[..l]);
    if r.Some? { TextInjective(r.value, value); }
  }
}
