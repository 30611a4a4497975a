/** Header lines: the octet-by-octet matchers recognise exactly the header names
    and values that decide how the body is delimited. */
module HttpHeaders {
  import opened Basics
  import opened HttpSyntax
  import opened HttpParser
  import opened HttpStream
  import opened HttpReads

  // Names.

  function LowerName(name: seq<byte>): (w: seq<byte>)
    ensures |w| == |name|
  {
    seq(|name|, i requires 0 <= i < |name| => Token(name[i]))
  }

  /** Which header a lower-cased name denotes. */
  function NameClass(w: seq<byte>): HeaderState {
    if w == "connection" || w == "proxy-connection" then Connection
    else if w == "content-length" then ContentLength
    else if w == "transfer-encoding" then TransferEncoding
    else if w == "upgrade" then Upgrade
    else General
  }

  predicate Begins(w: seq<byte>, word: seq<byte>) {
    |w| <= |word| && forall i :: 0 <= i < |w| ==> w[i] == word[i]
  }

  /** `w` can still become one of the header names of interest. */
  predicate Promising(w: seq<byte>) {
    || Begins(w, "connection") || Begins(w, "proxy-connection") || Begins(w, "content-length")
    || Begins(w, "transfer-encoding") || Begins(w, "upgrade")
  }

  /** The matcher state `h`, `index` is the right one after the name prefix `w`. */
  predicate Tracks(h: HeaderState, index: nat, w: seq<byte>) {
    if h.C? then w == "c" && index == 0
    else if h.CO? then w == "co" && index == 1
    else if h.CON? then w == "con" && index == 2
    else if IsFieldMatcher(h) then
      && |w| == index + 1 < |Keyword(h).0| && Begins(w, Keyword(h).0)
      && (h.MatchingConnection? || h.MatchingContentLength? ==> |w| >= 4)
    else if h.General? then !Promising(w)
    else (h.Connection? || h.ContentLength? || h.TransferEncoding? || h.Upgrade?) && NameClass(w) == h
  }

  lemma BeginsSnoc(w: seq<byte>, c: byte, word: seq<byte>)
    ensures Begins(w + [c], word) <==> Begins(w, word) && |w| < |word| && c == word[|w|]
  {
    var v := w + [c];
    assert v[|w|] == c && forall i :: 0 <= i < |w| ==> v[i] == w[i];
    if Begins(v, word) {
      forall i | 0 <= i < |w| ensures w[i] == word[i] { assert v[i] == word[i]; }
    }
  }

  lemma PromisingSnoc(w: seq<byte>, c: byte)
    ensures Promising(w + [c]) <==>
      || (Begins(w, "connection") && |w| < 10 && c == "connection"[|w|])
      || (Begins(w, "proxy-connection") && |w| < 16 && c == "proxy-connection"[|w|])
      || (Begins(w, "content-length") && |w| < 14 && c == "content-length"[|w|])
      || (Begins(w, "transfer-encoding") && |w| < 17 && c == "transfer-encoding"[|w|])
      || (Begins(w, "upgrade") && |w| < 7 && c == "upgrade"[|w|])
  {
    hide Begins;
    BeginsSnoc(w, c, "connection");
    BeginsSnoc(w, c, "proxy-connection");
    BeginsSnoc(w, c, "content-length");
    BeginsSnoc(w, c, "transfer-encoding");
    BeginsSnoc(w, c, "upgrade");
  }

  lemma TracksFirst(c: byte)
    ensures Tracks(StartFieldState(c), 0, [c])
  {
    assert [] + [c] == [c];
    PromisingSnoc([], c);
  }

  lemma FirstOctet(w: seq<byte>, word: seq<byte>)
    requires Begins(w, word) && w != []
    ensures w[0] == word[0] && (|w| >= 4 ==> w[3] == word[3])
  {
  }

  lemma TracksEarly(w: seq<byte>, ch: byte, p: Parser)
    requires (p.hstate.C? || p.hstate.CO? || p.hstate.CON?) && Tracks(p.hstate, p.index, w)
    ensures var q := FieldOctet(p, ch).value; Tracks(q.hstate, q.index, w + [Token(ch)])
  {
    assert w[0] == 'c';
    PromisingSnoc(w, Token(ch));
  }

  /** The five names part at their first or fourth octet. */
  lemma OnlyOneName(w: seq<byte>)
    requires |w| >= 4
    ensures Begins(w, "connection") ==> w[0] == 'c' && w[3] == 'n'
    ensures Begins(w, "content-length") ==> w[0] == 'c' && w[3] == 't'
    ensures Begins(w, "proxy-connection") ==> w[0] == 'p'
    ensures Begins(w, "transfer-encoding") ==> w[0] == 't'
    ensures Begins(w, "upgrade") ==> w[0] == 'u'
  {
  }

  /** A prefix long enough to be in a matcher begins that matcher's name only. */
  lemma OneNameLeft(h: HeaderState, w: seq<byte>)
    requires IsFieldMatcher(h) && w != [] && Begins(w, Keyword(h).0)
    requires h.MatchingConnection? || h.MatchingContentLength? ==> |w| >= 4
    ensures Begins(w, "connection") <==> h.MatchingConnection?
    ensures Begins(w, "proxy-connection") <==> h.MatchingProxyConnection?
    ensures Begins(w, "content-length") <==> h.MatchingContentLength?
    ensures Begins(w, "transfer-encoding") <==> h.MatchingTransferEncoding?
    ensures Begins(w, "upgrade") <==> h.MatchingUpgrade?
  {
    assert w[0] == Keyword(h).0[0];
    if |w| >= 4 { assert w[3] == Keyword(h).0[3]; }
  }

  /** A mismatch leaves no name possible. */
  lemma NameLost(h: HeaderState, w: seq<byte>, c: byte)
    requires IsFieldMatcher(h) && w != [] && |w| < |Keyword(h).0| && Begins(w, Keyword(h).0)
    requires h.MatchingConnection? || h.MatchingContentLength? ==> |w| >= 4
    requires c != Keyword(h).0[|w|]
    ensures !Promising(w + [c])
  {
    OneNameLeft(h, w);
    PromisingSnoc(w, c);
    hide Begins, Promising;
  }

  lemma NameDone(h: HeaderState, w: seq<byte>)
    requires IsFieldMatcher(h) && Begins(w, Keyword(h).0) && |w| == |Keyword(h).0|
    ensures Tracks(Keyword(h).1, 0, w) && forall i: nat :: Tracks(Keyword(h).1, i, w)
  {
    WholeName(w, Keyword(h).0);
  }

  lemma TracksMatching(w: seq<byte>, ch: byte, p: Parser)
    requires IsFieldMatcher(p.hstate) && Tracks(p.hstate, p.index, w)
    ensures var q := FieldOctet(p, ch).value; Tracks(q.hstate, q.index, w + [Token(ch)])
  {
    hide Token, Promising;
    var h, c, word := p.hstate, Token(ch), Keyword(p.hstate).0;
    var q := FieldOctet(p, ch).value;
    assert q == MatchKeyword(p, c) && q.index == |w|;
    BeginsSnoc(w, c, word);
    if c != word[|w|] {
      NameLost(h, w, c);
    } else if |w| == |word| - 1 {
      NameDone(h, w + [c]);
    } else {
      hide Begins;
    }
  }

  lemma WholeName(w: seq<byte>, word: seq<byte>)
    requires Begins(w, word) && |w| == |word|
    ensures w == word
  {
  }

  lemma TracksDone(w: seq<byte>, ch: byte, p: Parser)
    requires p.hstate.Connection? || p.hstate.ContentLength? || p.hstate.TransferEncoding? || p.hstate.Upgrade?
    requires Tracks(p.hstate, p.index, w) && IsToken(ch)
    ensures var q := FieldOctet(p, ch).value; Tracks(q.hstate, q.index, w + [Token(ch)])
  {
    OnlyOneName(w);
    PromisingSnoc(w, Token(ch));
  }

  /** One more octet of the name keeps the matcher right. */
  lemma TracksNext(w: seq<byte>, ch: byte, p: Parser)
    requires Tracks(p.hstate, p.index, w) && IsToken(ch)
    ensures FieldOctet(p, ch).Some?
    ensures var q := FieldOctet(p, ch).value; Tracks(q.hstate, q.index, w + [Token(ch)])
  {
    if p.hstate.C? || p.hstate.CO? || p.hstate.CON? { TracksEarly(w, ch, p); }
    else if IsFieldMatcher(p.hstate) { TracksMatching(w, ch, p); }
    else if p.hstate.General? { PromisingSnoc(w, Token(ch)); }
    else { TracksDone(w, ch, p); }
  }

  /** A finished name: the matcher names a special header exactly when the name
      is that header's. */
  lemma TracksClass(h: HeaderState, index: nat, w: seq<byte>)
    requires Tracks(h, index, w)
    ensures !NameClass(w).General? ==> h == NameClass(w)
    ensures h.Connection? || h.ContentLength? || h.TransferEncoding? || h.Upgrade? ==> NameClass(w) == h
  {
    if |w| >= 4 { OnlyOneName(w); }
  }

  predicate IsName(name: seq<byte>) {
    name != [] && forall c <- name :: IsToken(c)
  }

  /** Nothing but the matcher, the position and the state differs. */
  predicate SameBut(p: Parser, q: Parser, n: nat, s: State) {
    q == Advance(p, n).(hstate := q.hstate, index := q.index, state := s)
  }

  lemma ReadsFieldFirst(env: Env, p: Parser, ch: byte)
    requires p.state.HeaderFieldStart? && IsToken(ch) && p.nread < env.limit
    ensures Reads(env, p, [ch], [Octet(Field, ch)],
                  Advance(p, 1).(index := 0, hstate := StartFieldState(Token(ch)), state := HeaderField))
  {
    assert ch != CR && ch != LF;
    hide Reads, IsToken, Token;
    var q := Advance(p, 1);
    FieldSwitch(env, q, ch, 1);
    var s := StepHeaderField(q, ch, 1);
    ReadsOctet(env, p, ch, s);
    assert [] + [Octet(Field, ch)] == [Octet(Field, ch)];
  }

  lemma ReadsFieldOctet(env: Env, p: Parser, ch: byte, q: Parser)
    requires p.state.HeaderField? && IsToken(ch) && p.nread < env.limit
    requires FieldOctet(Advance(p, 1), ch) == Some(q) && q.state.HeaderField?
    ensures Reads(env, p, [ch], [Octet(Field, ch)], q)
  {
    hide Reads, IsToken, FieldOctet;
    FieldSwitch(env, Advance(p, 1), ch, 1);
    var s := StepHeaderField(Advance(p, 1), ch, 1);
    assert s == On(q);
    ReadsOctet(env, p, ch, s);
    assert [] + [Octet(Field, ch)] == [Octet(Field, ch)];
  }

  lemma {:induction false} ReadsFieldRest(env: Env, p: Parser, w: seq<byte>, rest: seq<byte>) returns (q: Parser)
    requires p.state.HeaderField? && Tracks(p.hstate, p.index, w) && p.nread + |rest| <= env.limit
    requires forall c <- rest :: IsToken(c)
    ensures Reads(env, p, rest, Octets(Field, rest), q)
    ensures SameBut(p, q, |rest|, HeaderField) && Tracks(q.hstate, q.index, w + LowerName(rest))
    decreases |rest|
  {
    hide Reads, Tracks, IsToken, Token;
    if rest == [] {
      ReadsNothing(env, p);
      q := p;
      assert w + LowerName(rest) == w && Octets(Field, rest) == [];
    } else {
      var c := rest[0];
      TracksNext(w, c, Advance(p, 1));
      var a := FieldOctet(Advance(p, 1), c).value;
      ReadsFieldOctet(env, p, c, a);
      q := ReadsFieldRest(env, a, w + [Token(c)], rest[1..]);
      ReadsThen(env, p, [c], [Octet(Field, c)], a, rest[1..], Octets(Field, rest[1..]), q);
      assert [c] + rest[1..] == rest;
      assert [Octet(Field, c)] + Octets(Field, rest[1..]) == Octets(Field, rest);
      assert w + [Token(c)] + LowerName(rest[1..]) == w + LowerName(rest);
    }
  }

  lemma ReadsColon(env: Env, p: Parser)
    requires p.state.HeaderField? && p.nread + 2 <= env.limit
    ensures Reads(env, p, ": ", [], Advance(p, 2).(state := HeaderValueStart))
  {
    hide Reads;
    var a, b := Advance(p, 1).(state := HeaderValueStart), Advance(p, 2).(state := HeaderValueStart);
    FieldSwitch(env, Advance(p, 1), ':', 1);
    ReadsSilently(env, p, ':', a);
    ValueSwitch(env, Advance(a, 1), ' ', 1);
    ReadsSilently(env, a, ' ', b);
    ReadsOn(env, p, [':'], [], a, [' '], b);
    assert [':'] + [' '] == ": ";
  }

  lemma ReadsFieldName(env: Env, p: Parser, name: seq<byte>) returns (q: Parser)
    requires p.state.HeaderFieldStart? && IsName(name) && p.nread + |name| + 2 <= env.limit
    ensures Reads(env, p, name + ": ", Octets(Field, name), q)
    ensures SameBut(p, q, |name| + 2, HeaderValueStart) && Tracks(q.hstate, q.index, LowerName(name))
  {
    hide Reads, Tracks, IsToken, Token;
    var a := Advance(p, 1).(index := 0, hstate := StartFieldState(Token(name[0])), state := HeaderField);
    ReadsFieldFirst(env, p, name[0]);
    TracksFirst(Token(name[0]));
    var b := ReadsFieldRest(env, a, [Token(name[0])], name[1..]);
    q := Advance(b, 2).(state := HeaderValueStart);
    ReadsColon(env, b);
    ReadsThen(env, p, [name[0]], [Octet(Field, name[0])], a, name[1..], Octets(Field, name[1..]), b);
    assert [name[0]] + name[1..] == name;
    assert [Octet(Field, name[0])] + Octets(Field, name[1..]) == Octets(Field, name);
    assert [Token(name[0])] + LowerName(name[1..]) == LowerName(name);
    ReadsOn(env, p, name, Octets(Field, name), b, ": ", q);
  }

  // Values.

  /** The value octets after the first, as the matchers and the number reader
      see them; only the header state, index and content length change. */
  function FoldValue(p: Parser, v: seq<byte>): Parser
    decreases |v|
  {
    if v == [] then p else FoldValue(ValueOctet(p, v[0]).p, v[1..])
  }

  /** No octet of the value is rejected. */
  predicate Accepted(p: Parser, v: seq<byte>)
    decreases |v|
  {
    v == [] || (ValueOctet(p, v[0]).go.Break? && Accepted(ValueOctet(p, v[0]).p, v[1..]))
  }

  predicate IsLine(v: seq<byte>) {
    CR !in v && LF !in v
  }

  lemma ValueOctetCounts(p: Parser, ch: byte, n: nat)
    requires p.state.HeaderValue?
    ensures var s, t := ValueOctet(p, ch), ValueOctet(Advance(p, n), ch);
      t.go == s.go && (s.go.Break? ==> t == On(Advance(s.p, n)) && s.p.state.HeaderValue? && s == On(s.p))
  {
  }

  lemma ReadsValueOctet(env: Env, p: Parser, ch: byte)
    requires p.state.HeaderValue? && ch != CR && ch != LF && p.nread < env.limit
    requires ValueOctet(p, ch).go.Break?
    ensures Reads(env, p, [ch], [Octet(Value, ch)], Advance(ValueOctet(p, ch).p, 1))
  {
    hide Reads, ValueOctet;
    ValueOctetCounts(p, ch, 1);
    ValueSwitch(env, Advance(p, 1), ch, 1);
    var s := StepHeaderValue(Advance(p, 1), ch, 1);
    ReadsOctet(env, p, ch, s);
    assert [] + [Octet(Value, ch)] == [Octet(Value, ch)];
  }

  lemma {:induction false} FoldCounts(p: Parser, v: seq<byte>, n: nat)
    requires p.state.HeaderValue? && Accepted(p, v)
    ensures FoldValue(p, v).state.HeaderValue?
    ensures Accepted(Advance(p, n), v) && FoldValue(Advance(p, n), v) == Advance(FoldValue(p, v), n)
    decreases |v|
  {
    hide ValueOctet;
    if v != [] {
      ValueOctetCounts(p, v[0], n);
      FoldCounts(ValueOctet(p, v[0]).p, v[1..], n);
    }
  }

  lemma {:induction false} ReadsValueRest(env: Env, p: Parser, v: seq<byte>)
    requires p.state.HeaderValue? && IsLine(v) && Accepted(p, v) && p.nread + |v| <= env.limit
    ensures Reads(env, p, v, Octets(Value, v), Advance(FoldValue(p, v), |v|))
    decreases |v|
  {
    hide Reads, ValueOctet;
    if v == [] {
      ReadsNothing(env, p);
      assert Octets(Value, v) == [];
    } else {
      ReadsValueOctet(env, p, v[0]);
      var q := ValueOctet(p, v[0]).p;
      ValueOctetCounts(p, v[0], 1);
      FoldCounts(q, v[1..], 1);
      NreadUnchanged(p, v[0]);
      ReadsValueRest(env, Advance(q, 1), v[1..]);
      var r := Advance(FoldValue(p, v), |v|);
      ReadsThen(env, p, [v[0]], [Octet(Value, v[0])], Advance(q, 1), v[1..], Octets(Value, v[1..]), r);
      assert [v[0]] + v[1..] == v;
      assert [Octet(Value, v[0])] + Octets(Value, v[1..]) == Octets(Value, v);
    }
  }

  lemma NreadUnchanged(p: Parser, ch: byte)
    ensures ValueOctet(p, ch).p.nread == p.nread
  {
  }

  // Keywords in values.

  predicate LowBegins(v: seq<byte>, word: seq<byte>) {
    |v| <= |word| && forall i :: 0 <= i < |v| ==> Lower(v[i]) == word[i]
  }

  /** `v` is the keyword in any letter case, followed by spaces only. */
  predicate IsWord(v: seq<byte>, word: seq<byte>) {
    && |v| >= |word| && (forall i :: 0 <= i < |word| ==> Lower(v[i]) == word[i])
    && forall i :: |word| <= i < |v| ==> v[i] == ' '
  }

  predicate IsValueMatcher(h: HeaderState) {
    h.MatchingChunked? || h.MatchingKeepAlive? || h.MatchingClose?
  }

  /** The value matcher that started as `m` is right after the prefix `v`. */
  predicate ValueTracks(m: HeaderState, h: HeaderState, index: nat, v: seq<byte>) {
    var (word, full) := Keyword(m);
    if h == m then |v| == index + 1 < |word| && LowBegins(v, word)
    else if h == full then IsWord(v, word)
    else h.General? && !LowBegins(v, word) && !IsWord(v, word)
  }

  lemma LowBeginsSnoc(v: seq<byte>, c: byte, word: seq<byte>)
    ensures LowBegins(v + [c], word) <==> LowBegins(v, word) && |v| < |word| && Lower(c) == word[|v|]
    ensures IsWord(v + [c], word) <==>
      || (IsWord(v, word) && c == ' ' && |v| >= |word|)
      || (|v| + 1 == |word| && LowBegins(v, word) && Lower(c) == word[|v|])
      || (word == [] && IsWord(v, word) && c == ' ')
  {
    hide Lower;
    var u := v + [c];
    assert u[|v|] == c && forall i :: 0 <= i < |v| ==> u[i] == v[i];
    if LowBegins(u, word) {
      forall i | 0 <= i < |v| ensures Lower(v[i]) == word[i] { assert Lower(u[i]) == word[i]; }
    }
    if IsWord(u, word) {
      forall i | 0 <= i < |v| && i < |word| ensures Lower(v[i]) == word[i] { assert Lower(u[i]) == word[i]; }
      forall i | |word| <= i < |v| ensures v[i] == ' ' { assert u[i] == ' '; }
    }
  }

  lemma LongWord(v: seq<byte>, word: seq<byte>)
    ensures IsWord(v, word) ==> |v| >= |word|
  {
  }

  lemma ValueTracksNext(m: HeaderState, p: Parser, v: seq<byte>, ch: byte)
    requires IsValueMatcher(m) && v != [] && ValueTracks(m, p.hstate, p.index, v) && p.state.HeaderValue?
    ensures var s := ValueOctet(p, ch);
      && s.go.Break? && s.p == p.(hstate := s.p.hstate, index := s.p.index)
      && ValueTracks(m, s.p.hstate, s.p.index, v + [ch])
  {
    hide Lower;
    LowBeginsSnoc(v, ch, Keyword(m).0);
    LongWord(v, Keyword(m).0);
    hide LowBegins, IsWord;
  }

  lemma {:induction false} MatchesWord(m: HeaderState, p: Parser, v: seq<byte>, rest: seq<byte>)
    requires IsValueMatcher(m) && v != [] && ValueTracks(m, p.hstate, p.index, v) && p.state.HeaderValue?
    ensures var q := FoldValue(p, rest);
      && Accepted(p, rest) && q == p.(hstate := q.hstate, index := q.index)
      && ValueTracks(m, q.hstate, q.index, v + rest)
    decreases |rest|
  {
    hide ValueOctet, ValueTracks;
    if rest == [] {
      assert v + rest == v;
    } else {
      ValueTracksNext(m, p, v, rest[0]);
      MatchesWord(m, ValueOctet(p, rest[0]).p, v + [rest[0]], rest[1..]);
      assert v + [rest[0]] + rest[1..] == v + rest;
    }
  }

  lemma {:induction false} IgnoresValue(p: Parser, v: seq<byte>)
    requires p.state.HeaderValue? && p.hstate.General?
    ensures Accepted(p, v) && FoldValue(p, v) == p
    decreases |v|
  {
    if v != [] { IgnoresValue(p, v[1..]); }
  }

  // Numbers.

  lemma {:induction false} ReadsNumber(p: Parser, ds: seq<byte>)
    requires p.state.HeaderValue? && p.hstate.ContentLength? && AllDigits(ds)
    requires DecimalFrom(p.contentLength, ds) < ULLONG_MAX
    ensures Accepted(p, ds) && FoldValue(p, ds) == p.(contentLength := DecimalFrom(p.contentLength, ds))
    decreases |ds|
  {
    if ds != [] {
      var n := p.contentLength * 10 + DigitValue(ds[0]);
      assert n <= DecimalFrom(n, ds[1..]);
      assert n % U64 == n;
      assert ValueOctet(p, ds[0]) == On(p.(contentLength := n));
      ReadsNumber(p.(contentLength := n), ds[1..]);
    }
  }

  lemma {:induction false} NumberBound(p: Parser, ds: seq<byte>)
    requires p.state.HeaderValue? && p.hstate.ContentLength? && AllDigits(ds) && p.contentLength < ULLONG_MAX
    requires Accepted(p, ds)
    ensures FoldValue(p, ds).contentLength < ULLONG_MAX
    decreases |ds|
  {
    if ds != [] {
      hide AddDigit;
      NumberBound(ValueOctet(p, ds[0]).p, ds[1..]);
    }
  }

  /** The overflow test is partial, but a length that comes out right is exactly
      one below 2^64 - 1. */
  lemma NumberExact(p: Parser, ds: seq<byte>)
    requires p.state.HeaderValue? && p.hstate.ContentLength? && AllDigits(ds) && p.contentLength < ULLONG_MAX
    ensures Accepted(p, ds) && FoldValue(p, ds).contentLength == DecimalFrom(p.contentLength, ds)
      <==> DecimalFrom(p.contentLength, ds) < ULLONG_MAX
  {
    if DecimalFrom(p.contentLength, ds) < ULLONG_MAX {
      ReadsNumber(p, ds);
    } else if Accepted(p, ds) {
      NumberBound(p, ds);
    }
  }

  function Zeros(k: nat): seq<byte> {
    seq(k, _ => '0')
  }

  function Pow10(k: nat): nat {
    if k == 0 then 1 else 10 * Pow10(k - 1)
  }

  lemma {:induction false} DecimalZeros(n: nat, k: nat)
    ensures AllDigits(Zeros(k)) && DecimalFrom(n, Zeros(k)) == n * Pow10(k)
    decreases k
  {
    if k > 0 {
      assert Zeros(k)[1..] == Zeros(k - 1);
      DecimalZeros(n * 10, k - 1);
    }
  }

  lemma Pow18()
    ensures Pow10(18) == 1_000_000_000_000_000_000
  {
    assert Pow10(6) == 1_000_000;
    assert Pow10(12) == 1_000_000_000_000 by {
      assert Pow10(8) == 100 * Pow10(6);
      assert Pow10(10) == 100 * Pow10(8);
    }
    assert Pow10(14) == 100 * Pow10(12);
    assert Pow10(16) == 100 * Pow10(14);
  }

  /** A three and nineteen zeros are accepted, as a number below 2^64. */
  lemma NumberWraps(p: Parser)
    requires p.state.HeaderValue? && p.hstate.ContentLength? && p.contentLength == 3
    ensures Accepted(p, Zeros(19)) && FoldValue(p, Zeros(19)).contentLength == 11_553_255_926_290_448_384
    ensures AllDigits(Zeros(19)) && DecimalFrom(3, Zeros(19)) == 30_000_000_000_000_000_000
  {
    hide FoldValue, Accepted, DecimalFrom, ValueOctet, Zeros;
    DecimalZeros(3, 18);
    DecimalZeros(3, 19);
    Pow18();
    ZerosSnoc(18);
    ReadsNumber(p, Zeros(18));
    FoldSnoc(p, Zeros(18), '0');
    WrappedOctet(p.(contentLength := 3_000_000_000_000_000_000));
  }

  lemma ZerosSnoc(k: nat)
    ensures Zeros(k + 1) == Zeros(k) + ['0']
  {
  }

  lemma WrappedOctet(p: Parser)
    requires p.hstate.ContentLength? && p.contentLength == 3_000_000_000_000_000_000
    ensures ValueOctet(p, '0') == On(p.(contentLength := 11_553_255_926_290_448_384))
  {
  }

  lemma {:induction false} FoldSnoc(p: Parser, v: seq<byte>, c: byte)
    requires Accepted(p, v)
    ensures FoldValue(p, v + [c]) == ValueOctet(FoldValue(p, v), c).p
    ensures ValueOctet(FoldValue(p, v), c).go.Break? ==> Accepted(p, v + [c])
    decreases |v|
  {
    hide ValueOctet;
    if v == [] {
      assert v + [c] == [c];
    } else {
      assert (v + [c])[1..] == v[1..] + [c];
      FoldSnoc(ValueOctet(p, v[0]).p, v[1..], c);
    }
  }

  // Header lines.

  datatype Header = Header(name: seq<byte>, value: seq<byte>)

  predicate IsHeader(h: Header) {
    && IsName(h.name) && IsLine(h.value)
    && (h.value != [] ==> h.value[0] != ' ' && h.value[0] != '\t')
    && (NameClass(LowerName(h.name)).ContentLength? && h.value != [] ==>
          AllDigits(h.value) && Decimal(h.value) < ULLONG_MAX)
  }

  function PrintHeader(h: Header): seq<byte> {
    h.name + ": " + h.value + "\r\n"
  }

  function HeaderAtoms(h: Header): seq<Atom> {
    Octets(Field, h.name) + Octets(Value, h.value)
  }

  /** What is known about the body so far. */
  datatype Framing = Framing(flags: Flags, contentLength: nat)

  /** What one header line says about the connection and the body. */
  function Effect(f: Framing, h: Header): Framing
    requires IsHeader(h)
  {
    var c := NameClass(LowerName(h.name));
    if h.value == [] then f
    else if c.Upgrade? then f.(flags := f.flags.(upgrade := true))
    else if c.TransferEncoding? && IsWord(h.value, "chunked") then f.(flags := f.flags.(chunked := true))
    else if c.Connection? && IsWord(h.value, "keep-alive") then f.(flags := f.flags.(keepAlive := true))
    else if c.Connection? && IsWord(h.value, "close") then f.(flags := f.flags.(close := true))
    else if c.ContentLength? then f.(contentLength := Decimal(h.value))
    else f
  }

  /** The parser after a whole non-empty value, before the line end. */
  function AfterValue(p: Parser, v: seq<byte>): Parser
    requires v != []
  {
    FoldValue(ValueStart(p, v[0]).p, v[1..])
  }

  /** Reading the value of `h` has the effect the header calls for, once the end
      of the line records the flag. */
  ghost predicate Effective(p: Parser, h: Header)
    requires IsHeader(h) && h.value != []
  {
    var s, q, e := ValueStart(p, h.value[0]), AfterValue(p, h.value), Effect(Framing(p.flags, p.contentLength), h);
    && s.go.Break? && s.p.state.HeaderValue? && Accepted(s.p, h.value[1..])
    && q == p.(state := HeaderValue, hstate := q.hstate, index := q.index, flags := q.flags, contentLength := q.contentLength)
    && RecordFlag(q) == e.flags && q.contentLength == e.contentLength
  }

  lemma {:induction false} WordFromStart(m: HeaderState, p: Parser, v: seq<byte>)
    requires IsValueMatcher(m) && v != [] && p.state.HeaderValue? && p.hstate == m && p.index == 0
    requires Lower(v[0]) == Keyword(m).0[0]
    ensures var q := FoldValue(p, v[1..]);
      && Accepted(p, v[1..]) && q == p.(hstate := q.hstate, index := q.index)
      && (q.hstate == Keyword(m).1 <==> IsWord(v, Keyword(m).0))
      && (q.hstate == m || q.hstate == Keyword(m).1 || q.hstate.General?)
  {
    assert LowBegins([v[0]], Keyword(m).0);
    MatchesWord(m, p, [v[0]], v[1..]);
    assert [v[0]] + v[1..] == v;
    LongWord(v, Keyword(m).0);
  }

  lemma WordNeedsFirst(v: seq<byte>, word: seq<byte>)
    requires IsWord(v, word) && word != []
    ensures v != [] && Lower(v[0]) == word[0]
  {
  }

  lemma EffectOfPlain(p: Parser, h: Header)
    requires IsHeader(h) && h.value != [] && p.state.HeaderValueStart?
    requires Tracks(p.hstate, p.index, LowerName(h.name))
    requires NameClass(LowerName(h.name)).General? || NameClass(LowerName(h.name)).Upgrade?
    ensures Effective(p, h)
  {
    TracksClass(p.hstate, p.index, LowerName(h.name));
    hide Tracks, NameClass;
    IgnoresValue(ValueStart(p, h.value[0]).p, h.value[1..]);
  }

  lemma EffectOfLength(p: Parser, h: Header)
    requires IsHeader(h) && h.value != [] && p.state.HeaderValueStart?
    requires Tracks(p.hstate, p.index, LowerName(h.name))
    requires NameClass(LowerName(h.name)).ContentLength?
    ensures Effective(p, h)
  {
    TracksClass(p.hstate, p.index, LowerName(h.name));
    hide Tracks, NameClass;
    var v := h.value;
    assert Decimal(v) == DecimalFrom(DigitValue(v[0]), v[1..]);
    ReadsNumber(ValueStart(p, v[0]).p, v[1..]);
  }

  lemma EffectOfEncoding(p: Parser, h: Header)
    requires IsHeader(h) && h.value != [] && p.state.HeaderValueStart?
    requires Tracks(p.hstate, p.index, LowerName(h.name))
    requires NameClass(LowerName(h.name)).TransferEncoding?
    ensures Effective(p, h)
  {
    TracksClass(p.hstate, p.index, LowerName(h.name));
    hide Tracks, NameClass, IsWord, Lower;
    var v, q := h.value, ValueStart(p, h.value[0]).p;
    if IsWord(v, "chunked") { WordNeedsFirst(v, "chunked"); }
    if Lower(v[0]) == 'c' {
      WordFromStart(MatchingChunked, q, v);
    } else {
      IgnoresValue(q, v[1..]);
    }
  }

  lemma EffectOfConnection(p: Parser, h: Header)
    requires IsHeader(h) && h.value != [] && p.state.HeaderValueStart?
    requires Tracks(p.hstate, p.index, LowerName(h.name))
    requires NameClass(LowerName(h.name)).Connection?
    ensures Effective(p, h)
  {
    TracksClass(p.hstate, p.index, LowerName(h.name));
    hide Tracks, NameClass, IsWord, Lower;
    var v, q := h.value, ValueStart(p, h.value[0]).p;
    if IsWord(v, "keep-alive") { WordNeedsFirst(v, "keep-alive"); }
    if IsWord(v, "close") { WordNeedsFirst(v, "close"); }
    if Lower(v[0]) == 'k' {
      WordFromStart(MatchingKeepAlive, q, v);
    } else if Lower(v[0]) == 'c' {
      WordFromStart(MatchingClose, q, v);
    } else {
      IgnoresValue(q, v[1..]);
    }
  }

  /** The matchers give every header line the effect its text calls for. */
  lemma EffectOfHeader(p: Parser, h: Header)
    requires IsHeader(h) && h.value != [] && p.state.HeaderValueStart?
    requires Tracks(p.hstate, p.index, LowerName(h.name))
    ensures Effective(p, h)
  {
    hide Tracks, Effective;
    var c := NameClass(LowerName(h.name));
    if c.ContentLength? { EffectOfLength(p, h); }
    else if c.TransferEncoding? { EffectOfEncoding(p, h); }
    else if c.Connection? { EffectOfConnection(p, h); }
    else { EffectOfPlain(p, h); }
  }

  lemma ReadsValueFirst(env: Env, p: Parser, ch: byte)
    requires p.state.HeaderValueStart? && p.nread < env.limit
    requires ch != ' ' && ch != '\t' && ch != CR && ch != LF && ValueStart(p, ch).go.Break?
    ensures ValueStart(p, ch).p.nread == p.nread
    ensures Reads(env, p, [ch], [Octet(Value, ch)], Advance(ValueStart(p, ch).p, 1))
  {
    hide Reads, Lower;
    var s := ValueStart(p, ch);
    assert ValueStart(Advance(p, 1), ch) == On(Advance(s.p, 1));
    hide ValueStart;
    ValueSwitch(env, Advance(p, 1), ch, 1);
    ReadsOctet(env, p, ch, StepHeaderValue(Advance(p, 1), ch, 1));
    assert [] + [Octet(Value, ch)] == [Octet(Value, ch)];
  }

  /** The end of a header line, which records the flag the value asked for. */
  lemma ReadsLineEnd(env: Env, p: Parser)
    requires p.state.HeaderValue? && p.nread + 2 <= env.limit
    ensures Reads(env, p, "\r\n", [], Advance(p, 2).(flags := RecordFlag(p), state := HeaderValueLws))
  {
    hide Reads, ValueOctet;
    var a := Advance(p, 1).(state := HeaderAlmostDone);
    var b := Advance(p, 2).(flags := RecordFlag(p), state := HeaderValueLws);
    ValueSwitch(env, Advance(p, 1), CR, 1);
    ReadsSilently(env, p, CR, a);
    ValueSwitch(env, Advance(a, 1), LF, 1);
    ReadsSilently(env, a, LF, b);
    ReadsOn(env, p, [CR], [], a, [LF], b);
    assert [CR] + [LF] == "\r\n";
  }

  lemma ReadsEmptyValue(env: Env, p: Parser)
    requires p.state.HeaderValueStart? && p.nread + 2 <= env.limit
    ensures Reads(env, p, "\r\n", [], Advance(p, 2).(index := 0, hstate := General, state := HeaderValueLws))
  {
    hide Reads, ValueStart;
    var a := Advance(p, 1).(index := 0, hstate := General, state := HeaderAlmostDone);
    var b := Advance(p, 2).(index := 0, hstate := General, state := HeaderValueLws);
    ValueSwitch(env, Advance(p, 1), CR, 1);
    ReadsOctet(env, p, CR, StepHeaderValue(Advance(p, 1), CR, 1));
    var none: seq<Atom> := [];
    assert none + none == none;
    ValueSwitch(env, Advance(a, 1), LF, 1);
    ReadsSilently(env, a, LF, b);
    ReadsOn(env, p, [CR], [], a, [LF], b);
    assert [CR] + [LF] == "\r\n";
  }

  /** The parser after the header lines so far. */
  predicate Framed(p: Parser, q: Parser, n: nat, f: Framing, s: State) {
    q == Advance(p, n).(hstate := q.hstate, index := q.index, flags := f.flags, contentLength := f.contentLength, state := s)
  }

  lemma ReadsValue(env: Env, p: Parser, h: Header) returns (q: Parser)
    requires p.state.HeaderValueStart? && IsHeader(h) && p.nread + |h.value| + 2 <= env.limit
    requires Tracks(p.hstate, p.index, LowerName(h.name))
    ensures Reads(env, p, h.value + "\r\n", Octets(Value, h.value), q)
    ensures Framed(p, q, |h.value| + 2, Effect(Framing(p.flags, p.contentLength), h), HeaderValueLws)
  {
    hide Reads, Tracks, NameClass, IsWord, ValueStart, ValueOctet;
    var v := h.value;
    if v == [] {
      ReadsEmptyValue(env, p);
      q := Advance(p, 2).(index := 0, hstate := General, state := HeaderValueLws);
      assert v + "\r\n" == "\r\n" && Octets(Value, v) == [];
    } else {
      EffectOfHeader(p, h);
      ReadsValueFirst(env, p, v[0]);
      var a, tail := ValueStart(p, v[0]).p, v[1..];
      FoldCounts(a, tail, 1);
      ReadsValueRest(env, Advance(a, 1), tail);
      var b := Advance(AfterValue(p, v), |v|);
      assert Advance(FoldValue(Advance(a, 1), tail), |tail|) == b;
      ReadsThen(env, p, [v[0]], [Octet(Value, v[0])], Advance(a, 1), tail, Octets(Value, tail), b);
      assert [v[0]] + tail == v;
      assert [Octet(Value, v[0])] + Octets(Value, tail) == Octets(Value, v);
      q := Advance(b, 2).(flags := RecordFlag(b), state := HeaderValueLws);
      ReadsLineEnd(env, b);
      ReadsOn(env, p, v, Octets(Value, v), b, "\r\n", q);
    }
  }

  /** A printed header line is read back and has its effect. */
  lemma ReadsHeader(env: Env, p: Parser, h: Header) returns (q: Parser)
    requires p.state.HeaderFieldStart? && IsHeader(h) && p.nread + |PrintHeader(h)| <= env.limit
    ensures Reads(env, p, PrintHeader(h), HeaderAtoms(h), q)
    ensures Framed(p, q, |PrintHeader(h)|, Effect(Framing(p.flags, p.contentLength), h), HeaderValueLws)
  {
    hide Reads, Tracks, NameClass, Effect, IsToken;
    var a := ReadsFieldName(env, p, h.name);
    q := ReadsValue(env, a, h);
    ReadsThen(env, p, h.name + ": ", Octets(Field, h.name), a, h.value + "\r\n", Octets(Value, h.value), q);
    assert h.name + ": " + (h.value + "\r\n") == PrintHeader(h);
  }

  lemma LwsStep(env: Env, p: Parser, ch: byte)
    requires p.state.HeaderValueLws? && ch != ' ' && ch != '\t'
    ensures Exec(env, p, ch) == Exec(env, p.(state := HeaderFieldStart), ch)
  {
    ValueSwitch(env, p, ch, 1);
    hide Switch;
    var f := Exec(env, p.(state := HeaderFieldStart), ch);
    assert [] + [] + f.out == f.out;
  }

  /** The octet after a header line starts the next line unless it is blank. */
  lemma LwsIsLineStart(env: Env, p: Parser, data: seq<byte>, out: seq<Atom>, q: Parser)
    requires p.state.HeaderValueLws? && p.nread < env.limit
    requires data != [] && data[0] != ' ' && data[0] != '\t'
    requires Reads(env, p.(state := HeaderFieldStart), data, out, q)
    ensures Reads(env, p, data, out, q)
  {
    hide Exec;
    LwsStep(env, Count(p), data[0]);
    assert Feed(env, p, data[0]) == Feed(env, p.(state := HeaderFieldStart), data[0]);
    hide Feed;
    assert Parse(env, p, data) == Parse(env, p.(state := HeaderFieldStart), data);
  }
}
