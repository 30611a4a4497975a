/** Quoting and splitting of argument lines: `sdscatrepr` and `sdssplitargs`. */
module SdsQuote {
  import opened Basics

  const NUL: byte := '\0'
  const BEL: byte := 7 as char
  const BS: byte := 8 as char

  /** `isspace` and `isprint` of the C locale. */
  predicate IsSpace(c: byte) {
    c == ' ' || 9 <= c as int <= 13
  }

  predicate IsPrint(c: byte) {
    32 <= c as int <= 126
  }

  predicate IsHexDigit(c: byte) {
    '0' <= c <= '9' || 'a' <= c <= 'f' || 'A' <= c <= 'F'
  }

  function HexDigitToInt(c: byte): (n: nat)
    ensures n < 16
  {
    if '0' <= c <= '9' then c as int - '0' as int
    else if 'a' <= c <= 'f' then c as int - 'a' as int + 10
    else if 'A' <= c <= 'F' then c as int - 'A' as int + 10
    else 0
  }

  function HexDigit(n: nat): byte
    requires n < 16
  {
    if n < 10 then ('0' as int + n) as char else ('a' as int + n - 10) as char
  }

  // Quoting.

  function Escaped(c: byte): seq<byte> {
    if c == '\\' || c == '"' then ['\\', c]
    else if c == '\n' then ['\\', 'n']
    else if c == '\r' then ['\\', 'r']
    else if c == '\t' then ['\\', 't']
    else if c == BEL then ['\\', 'a']
    else if c == BS then ['\\', 'b']
    else if IsPrint(c) then [c]
    else ['\\', 'x', HexDigit(c as int / 16), HexDigit(c as int % 16)]
  }

  function AllEscaped(s: seq<byte>): seq<byte> {
    if s == [] then [] else Escaped(s[0]) + AllEscaped(s[1..])
  }

  function Repr(s: seq<byte>): seq<byte> {
    ['"'] + AllEscaped(s) + ['"']
  }

  /** The switch of `sdscatrepr`. */
  method CatEscaped(s: seq<byte>, c: byte) returns (r: seq<byte>)
    ensures r == s + Escaped(c)
  {
    if c == '\\' || c == '"' { r := s + ['\\', c]; }
    else if c == '\n' { r := s + ['\\', 'n']; }
    else if c == '\r' { r := s + ['\\', 'r']; }
    else if c == '\t' { r := s + ['\\', 't']; }
    else if c == BEL { r := s + ['\\', 'a']; }
    else if c == BS { r := s + ['\\', 'b']; }
    else if IsPrint(c) { r := s + [c]; }
    else { r := s + ['\\', 'x', HexDigit(c as int / 16), HexDigit(c as int % 16)]; }
  }

  /** `sdscatrepr`. */
  method CatRepr(s: seq<byte>, p: seq<byte>) returns (r: seq<byte>)
    ensures r == s + Repr(p)
  {
    hide Escaped, AllEscaped;
    var open := s + ['"'];
    r := open;
    var i := 0;
    EscapedNone();
    assert p[..0] == [] && open + [] == open;
    while i < |p|
      invariant 0 <= i <= |p| && r == open + AllEscaped(p[..i])
    {
      EscapedSnoc(p[..i], p[i]);
      assert p[..i + 1] == p[..i] + [p[i]];
      r := CatEscaped(r, p[i]);
      i := i + 1;
    }
    assert p[..i] == p;
    r := r + ['"'];
  }

  lemma EscapedNone()
    ensures AllEscaped([]) == []
  {
  }

  lemma {:induction false} EscapedSnoc(s: seq<byte>, c: byte)
    ensures AllEscaped(s + [c]) == AllEscaped(s) + Escaped(c)
  {
    if s == [] {
      assert s + [c] == [c] && Escaped(c) + [] == Escaped(c);
    } else {
      assert (s + [c])[1..] == s[1..] + [c];
      EscapedSnoc(s[1..], c);
    }
  }

  // Splitting. A line ends at its first NUL, or at its end.

  function At(r: seq<byte>, k: nat): byte {
    if k < |r| then r[k] else NUL
  }

  function Unescape(c: byte): byte {
    if c == 'n' then '\n' else if c == 'r' then '\r' else if c == 't' then '\t'
    else if c == 'b' then BS else if c == 'a' then BEL else c
  }

  datatype Mode = Bare | Quoted | Single

  datatype Outcome = Bad | Done(rest: seq<byte>, token: seq<byte>)

  predicate HexEscape(r: seq<byte>) {
    At(r, 0) == '\\' && At(r, 1) == 'x' && IsHexDigit(At(r, 2)) && IsHexDigit(At(r, 3))
  }

  function HexValue(r: seq<byte>): byte
    requires HexEscape(r)
  {
    (HexDigitToInt(r[2]) * 16 + HexDigitToInt(r[3])) as char
  }

  predicate EndsToken(c: byte) {
    c == NUL || IsSpace(c)
  }

  /** The rest of a token and of the line behind it. */
  function Token(r: seq<byte>, m: Mode, cur: seq<byte>): (o: Outcome)
    ensures o.Done? ==> |o.rest| <= |r| && (m != Bare || (At(r, 0) != NUL) ==> |o.rest| < |r|)
    decreases |r|
  {
    var c := At(r, 0);
    match m
    case Quoted =>
      if HexEscape(r) then Token(r[4..], Quoted, cur + [HexValue(r)])
      else if c == '\\' && At(r, 1) != NUL then Token(r[2..], Quoted, cur + [Unescape(r[1])])
      else if c == '"' then if EndsToken(At(r, 1)) then Done(r[1..], cur) else Bad
      else if c == NUL then Bad
      else Token(r[1..], Quoted, cur + [c])
    case Single =>
      if c == '\\' && At(r, 1) == '\'' then Token(r[2..], Single, cur + ['\''])
      else if c == '\'' then if EndsToken(At(r, 1)) then Done(r[1..], cur) else Bad
      else if c == NUL then Bad
      else Token(r[1..], Single, cur + [c])
    case Bare =>
      if c == NUL then Done(r, cur)
      else if c == ' ' || c == '\n' || c == '\r' || c == '\t' then Done(r[1..], cur)
      else if c == '"' then Token(r[1..], Quoted, cur)
      else if c == '\'' then Token(r[1..], Single, cur)
      else Token(r[1..], Bare, cur + [c])
  }

  function SkipSpace(r: seq<byte>): (r': seq<byte>)
    ensures |r'| <= |r|
  {
    if r != [] && IsSpace(r[0]) then SkipSpace(r[1..]) else r
  }

  function Split(r: seq<byte>): Option<seq<seq<byte>>>
    decreases |r|
  {
    var r' := SkipSpace(r);
    if At(r', 0) == NUL then Some([])
    else
      var o := Token(r', Bare, []);
      if o.Bad? then None
      else
        var more := Split(o.rest);
        if more.None? then None else Some([o.token] + more.value)
  }

  /** `sdssplitargs`, as the loops of the source; an error gives up every token. */
  method SplitArgs(line: seq<byte>) returns (r: Option<seq<seq<byte>>>)
    ensures r == Split(line)
  {
    hide Token, Split;
    var p, vector: seq<seq<byte>> := 0, [];
    assert line[0..] == line;
    PrependNone(Split(line));
    while true
      invariant 0 <= p <= |line|
      invariant Split(line) == Prepend(vector, Split(line[p..]))
      decreases |line| - p
    {
      ghost var start := p;
      while At(line, p) != NUL && IsSpace(At(line, p))
        invariant start <= p <= |line| && SkipSpace(line[p..]) == SkipSpace(line[start..])
        decreases |line| - p
      {
        assert line[p..][1..] == line[p + 1..];
        p := p + 1;
      }
      SplitStep(line[start..]);
      if At(line, p) == NUL {
        assert vector + [] == vector;
        return Some(vector);
      }
      var ok, p', token := ReadToken(line, p);
      if !ok { return None; }
      PrependMore(vector, token, Split(line[p'..]));
      p := p';
      vector := vector + [token];
    }
  }

  /** Where the cursor stands after the end of the inner loop's body. */
  function Next(line: seq<byte>, p: nat): nat {
    if At(line, p) != NUL then p + 1 else p
  }

  /** What one round of the inner loop may do: fail, finish, or go on. */
  ghost predicate Stepped(line: seq<byte>, p: nat, m: Mode, cur: seq<byte>, ok: bool, done: bool, p': nat, m': Mode, cur': seq<byte>)
    requires p <= |line|
  {
    var o := Token(line[p..], m, cur);
    if !ok then o == Bad
    else
      && Next(line, p') <= |line|
      && if done then o == Done(line[Next(line, p')..], cur')
         else p < Next(line, p') && o == Token(line[Next(line, p')..], m', cur')
  }

  method QuotedStep(line: seq<byte>, p: nat, cur: seq<byte>) returns (ok: bool, done: bool, p': nat, cur': seq<byte>)
    requires p <= |line|
    ensures Stepped(line, p, Quoted, cur, ok, done, p', Quoted, cur')
  {
    var c := At(line, p);
    ok, done, p', cur' := true, false, p, cur;
    Tail(line, p);
    if c == '\\' && At(line, p + 1) == 'x' && IsHexDigit(At(line, p + 2)) && IsHexDigit(At(line, p + 3)) {
      cur' := cur + [(HexDigitToInt(line[p + 2]) * 16 + HexDigitToInt(line[p + 3])) as char];
      p' := p + 3;
    } else if c == '\\' && At(line, p + 1) != NUL {
      p' := p + 1;
      cur' := cur + [Unescape(line[p'])];
    } else if c == '"' {
      if At(line, p + 1) != NUL && !IsSpace(At(line, p + 1)) { ok := false; return; }
      done := true;
    } else if c == NUL {
      ok := false;
    } else {
      cur' := cur + [c];
    }
  }

  method SingleStep(line: seq<byte>, p: nat, cur: seq<byte>) returns (ok: bool, done: bool, p': nat, cur': seq<byte>)
    requires p <= |line|
    ensures Stepped(line, p, Single, cur, ok, done, p', Single, cur')
  {
    var c := At(line, p);
    ok, done, p', cur' := true, false, p, cur;
    Tail(line, p);
    if c == '\\' && At(line, p + 1) == '\'' {
      p' := p + 1;
      cur' := cur + ['\''];
    } else if c == '\'' {
      if At(line, p + 1) != NUL && !IsSpace(At(line, p + 1)) { ok := false; return; }
      done := true;
    } else if c == NUL {
      ok := false;
    } else {
      cur' := cur + [c];
    }
  }

  method BareStep(line: seq<byte>, p: nat, cur: seq<byte>) returns (done: bool, m: Mode, cur': seq<byte>)
    requires p <= |line|
    ensures Stepped(line, p, Bare, cur, true, done, p, m, cur')
  {
    var c := At(line, p);
    done, m, cur' := false, Bare, cur;
    Tail(line, p);
    if c == ' ' || c == '\n' || c == '\r' || c == '\t' || c == NUL {
      done := true;
    } else if c == '"' {
      m := Quoted;
    } else if c == '\'' {
      m := Single;
    } else {
      cur' := cur + [c];
    }
  }

  /** The inner loop of `sdssplitargs`. */
  method ReadToken(line: seq<byte>, start: nat) returns (ok: bool, p: nat, current: seq<byte>)
    requires start < |line| && line[start] != NUL
    ensures ok <==> Token(line[start..], Bare, []).Done?
    ensures ok ==> start < p <= |line| && Token(line[start..], Bare, []) == Done(line[p..], current)
  {
    hide Token;
    var mode, done := Bare, false;
    p, current, ok := start, [], true;
    ghost var goal := Token(line[start..], Bare, []);
    while !done
      invariant start <= p <= |line|
      invariant if done then goal == Done(line[p..], current) else goal == Token(line[p..], mode, current)
      decreases !done, |line| - p
    {
      match mode {
        case Quoted => ok, done, p, current := QuotedStep(line, p, current);
        case Single => ok, done, p, current := SingleStep(line, p, current);
        case Bare => done, mode, current := BareStep(line, p, current);
      }
      if !ok { return; }
      p := Next(line, p);
    }
  }

  lemma SplitStep(r: seq<byte>)
    ensures At(SkipSpace(r), 0) == NUL ==> Split(r) == Some([])
    ensures At(SkipSpace(r), 0) != NUL ==>
      var o := Token(SkipSpace(r), Bare, []);
      Split(r) == if o.Bad? then None else Prepend([o.token], Split(o.rest))
  {
  }

  lemma PrependNone(o: Option<seq<seq<byte>>>)
    ensures Prepend([], o) == o
  {
    if o.Some? { assert [] + o.value == o.value; }
  }

  lemma PrependMore(v: seq<seq<byte>>, t: seq<byte>, o: Option<seq<seq<byte>>>)
    ensures Prepend(v, Prepend([t], o)) == Prepend(v + [t], o)
  {
    if o.Some? { assert v + ([t] + o.value) == (v + [t]) + o.value; }
  }

  function Prepend(v: seq<seq<byte>>, o: Option<seq<seq<byte>>>): Option<seq<seq<byte>>> {
    if o.None? then None else Some(v + o.value)
  }

  lemma Tail(line: seq<byte>, p: nat)
    requires p <= |line|
    ensures forall k: nat :: At(line[p..], k) == At(line, p + k)
    ensures forall k: nat :: p + k <= |line| ==> line[p..][k..] == line[p + k..]
  {
  }

  // The round trip.

  function ReprLine(args: seq<seq<byte>>): seq<byte> {
    if args == [] then [] else if |args| == 1 then Repr(args[0]) else Repr(args[0]) + [' '] + ReprLine(args[1..])
  }

  lemma HexBack(n: nat)
    requires n < 16
    ensures IsHexDigit(HexDigit(n)) && HexDigitToInt(HexDigit(n)) == n && HexDigit(n) != NUL
  {
  }

  /** Inside quotes, the escape of a byte reads back as the byte. */
  lemma ReadsEscape(c: byte, r: seq<byte>, cur: seq<byte>)
    ensures Token(Escaped(c) + r, Quoted, cur) == Token(r, Quoted, cur + [c])
  {
    var e := Escaped(c);
    assert (e + r)[|e|..] == r;
    HexBack(c as int / 16);
    HexBack(c as int % 16);
  }

  lemma {:induction false} ReadsEscaped(s: seq<byte>, r: seq<byte>, cur: seq<byte>)
    ensures Token(AllEscaped(s) + r, Quoted, cur) == Token(r, Quoted, cur + s)
    decreases |s|
  {
    hide Token, Escaped;
    if s == [] {
      assert AllEscaped(s) + r == r && cur + s == cur;
    } else {
      assert AllEscaped(s) + r == Escaped(s[0]) + (AllEscaped(s[1..]) + r);
      ReadsEscape(s[0], AllEscaped(s[1..]) + r, cur);
      ReadsEscaped(s[1..], r, cur + [s[0]]);
      assert cur + [s[0]] + s[1..] == cur + s;
    }
  }

  lemma ReadsRepr(s: seq<byte>, r: seq<byte>)
    requires EndsToken(At(r, 0))
    ensures Token(Repr(s) + r, Bare, []) == Done(r, s)
  {
    var inner := AllEscaped(s) + (['"'] + r);
    assert Repr(s) + r == ['"'] + inner;
    assert (['"'] + inner)[1..] == inner;
    ReadsEscaped(s, ['"'] + r, []);
    assert [] + s == s && (['"'] + r)[1..] == r;
  }

  lemma SplitsRepr(s: seq<byte>, r: seq<byte>)
    requires EndsToken(At(r, 0))
    ensures Split(Repr(s) + r) == Prepend([s], Split(r))
  {
    hide Token;
    ReadsRepr(s, r);
    assert (Repr(s) + r)[0] == '"';
  }

  /** Quoting any byte strings, joining them with spaces and splitting the line gives
      the strings back. */
  lemma {:induction false} QuoteRoundTrip(args: seq<seq<byte>>)
    ensures Split(ReprLine(args)) == Some(args)
    decreases |args|
  {
    hide Repr;
    if args == [] {
    } else if |args| == 1 {
      SplitsRepr(args[0], []);
      assert Repr(args[0]) + [] == Repr(args[0]);
      assert [args[0]] + [] == args;
    } else {
      var rest := ReprLine(args[1..]);
      SplitsRepr(args[0], [' '] + rest);
      assert Repr(args[0]) + [' '] + rest == Repr(args[0]) + ([' '] + rest);
      assert ([' '] + rest)[1..] == rest;
      SplitSkips(rest);
      QuoteRoundTrip(args[1..]);
      assert [args[0]] + args[1..] == args;
    }
  }

  lemma SplitSkips(r: seq<byte>)
    ensures Split([' '] + r) == Split(r)
  {
    assert ([' '] + r)[1..] == r;
  }
}
