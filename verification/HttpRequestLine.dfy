/** Request lines: every method name of the table, every accepted target and
    every version up to 999.999 are read back from their printed form. */
module HttpRequestLine {
  import opened Basics
  import opened HttpSyntax
  import opened HttpParser
  import opened HttpStream
  import opened HttpReads

  // Method names.

  /** The guess a method is reached from, and the index where it is corrected. */
  function Origin(m: Method): Option<(Method, nat)> {
    match m
    case CHECKOUT => Some((CONNECT, 1))
    case COPY => Some((CONNECT, 2))
    case MOVE => Some((MKCOL, 1))
    case MERGE => Some((MKCOL, 1))
    case MSEARCH => Some((MKCOL, 1))
    case MKACTIVITY => Some((MKCOL, 2))
    case SEARCH => Some((SUBSCRIBE, 1))
    case PROPFIND => Some((POST, 1))
    case PUT => Some((POST, 1))
    case PATCH => Some((POST, 1))
    case PURGE => Some((PUT, 2))
    case UNSUBSCRIBE => Some((UNLOCK, 2))
    case PROPPATCH => Some((PROPFIND, 4))
    case _ => None
  }

  /** Length of the prefix after which the method is settled. */
  function Settled(m: Method): nat {
    if Origin(m).None? then 1 else Origin(m).value.1 + 1
  }

  lemma MethodOctets(m: Method)
    ensures forall i :: 0 <= i < |MethodString(m)| ==> MethodString(m)[i] != '\0'
  {
  }

  lemma DirectStart(m: Method)
    requires Origin(m).None?
    ensures StartMethod(MethodString(m)[0]) == Some(m) && IsAlpha(MethodString(m)[0])
  {
  }

  lemma OriginFits(m: Method)
    requires Origin(m).Some?
    ensures var (g, k) := Origin(m).value;
      && Settled(g) <= k < |MethodString(m)| && k < |MethodString(g)|
      && MethodString(m)[k] != MethodString(g)[k] && MethodString(m)[k] != ' '
      && Settled(g) < Settled(m)
  {
  }

  lemma SettledFits(m: Method)
    ensures Settled(m) <= |MethodString(m)|
  {
    if Origin(m).Some? { OriginFits(m); }
  }

  lemma OriginCorrected(m: Method)
    requires Origin(m).Some?
    ensures Origin(m).value.1 < |MethodString(m)|
    ensures Reguess(Origin(m).value.0, Origin(m).value.1, MethodString(m)[Origin(m).value.1]) == Some(m)
  {
  }

  lemma OriginPrefix(m: Method, i: nat)
    requires Origin(m).Some? && i < Origin(m).value.1
    ensures i < |MethodString(m)| && i < |MethodString(Origin(m).value.0)|
    ensures MethodString(m)[i] == MethodString(Origin(m).value.0)[i]
  {
  }

  /** A parser whose method is `m` as far as octet `n` of its name. */
  function Naming(p: Parser, m: Method, n: nat): Parser {
    Advance(p, n).(flags := NO_FLAGS, contentLength := ULLONG_MAX, meth := m, index := n, state := ReqMethod)
  }

  lemma ReadsFirst(env: Env, p: Parser, m: Method)
    requires p.state.StartReq? && p.nread < env.limit && Origin(m).None?
    ensures Reads(env, p, MethodString(m)[..1], [Notice(MessageBegin)], Naming(p, m, 1))
  {
    var ch := MethodString(m)[0];
    DirectStart(m);
    var s := Switch(env, Advance(p, 1), ch, 1);
    assert s == Notify(Naming(p, m, 1), MessageBegin);
    ReadsOctet(env, p, ch, s);
    assert MethodString(m)[..1] == [ch];
    assert [Notice(MessageBegin)] + [] == [Notice(MessageBegin)];
  }

  /** The next octet of the name: matches the guess or corrects it. */
  lemma ReadsNext(env: Env, p: Parser, g: Method, m: Method, n: nat)
    requires p.nread + n < env.limit && n < |MethodString(m)| && n < |MethodString(g)|
    requires var ch := MethodString(m)[n];
      ch != '\0' && if g == m then true else ch != MethodString(g)[n] && ch != ' ' && Reguess(g, n, ch) == Some(m)
    ensures Reads(env, Naming(p, g, n), [MethodString(m)[n]], [], Naming(p, m, n + 1))
  {
    hide Reguess, MethodString;
    var q, ch := Advance(Naming(p, g, n), 1), MethodString(m)[n];
    MethodSwitch(env, q, ch, 1);
    assert StepMethod(q, ch, 1) == On(Naming(p, m, n + 1));
    ReadsSilently(env, Naming(p, g, n), ch, Naming(p, m, n + 1));
  }

  /** Any long enough prefix of a method name settles that method. */
  lemma {:induction false} ReadsName(env: Env, p: Parser, m: Method, n: nat)
    requires p.state.StartReq? && p.nread + n <= env.limit
    requires Settled(m) <= n <= |MethodString(m)|
    ensures Reads(env, p, MethodString(m)[..n], [Notice(MessageBegin)], Naming(p, m, n))
    decreases n
  {
    hide Reguess, Reads, MethodString, Origin;
    var w := MethodString(m);
    MethodOctets(m);
    if n == Settled(m) && Origin(m).None? {
      ReadsFirst(env, p, m);
    } else {
      var g := m;
      if n == Settled(m) {
        OriginFits(m);
        OriginCorrected(m);
        g := Origin(m).value.0;
        forall i | 0 <= i < n - 1 ensures MethodString(g)[i] == w[i] { OriginPrefix(m, i); }
      }
      ReadsName(env, p, g, n - 1);
      assert MethodString(g)[..n - 1] == w[..n - 1];
      ReadsNext(env, p, g, m, n - 1);
      ReadsThen(env, p, w[..n - 1], [Notice(MessageBegin)], Naming(p, g, n - 1), [w[n - 1]], [], Naming(p, m, n));
      assert w[..n] == w[..n - 1] + [w[n - 1]];
      assert [Notice(MessageBegin)] + [] == [Notice(MessageBegin)];
    }
  }

  /** Every method of the table is recognised by name. */
  lemma ReadsMethod(env: Env, p: Parser, m: Method)
    requires p.state.StartReq? && p.nread + |MethodString(m)| + 1 <= env.limit
    ensures var n := |MethodString(m)|;
      Reads(env, p, MethodString(m) + " ", [Notice(MessageBegin)],
            Naming(p, m, n + 1).(state := SpacesBeforeUrl))
  {
    hide Reads, MethodString, Settled;
    var w, n := MethodString(m), |MethodString(m)|;
    SettledFits(m);
    ReadsName(env, p, m, n);
    assert w[..n] == w;
    var q := Naming(p, m, n);
    MethodSwitch(env, Advance(q, 1), ' ', 1);
    var r := Naming(p, m, n + 1).(state := SpacesBeforeUrl);
    assert StepMethod(Advance(q, 1), ' ', 1) == On(r);
    ReadsSilently(env, q, ' ', r);
    ReadsThen(env, p, w, [Notice(MessageBegin)], q, " ", [], r);
    assert [Notice(MessageBegin)] + [] == [Notice(MessageBegin)];
  }

  // Request targets.

  /** `parse_url_char` over a whole string. */
  function UrlFold(s: State, t: seq<byte>): State
    decreases |t|
  {
    if t == [] then s else UrlFold(ParseUrlChar(s, t[0]), t[1..])
  }

  function TargetStart(m: Method): State {
    if m.CONNECT? then ServerStart else SpacesBeforeUrl
  }

  /** States in which a space ends the target. */
  predicate EndsTarget(s: State) {
    s.Server? || s.ServerWithAt? || s.Path? || s.QueryStart? || s.Query? || s.FragmentStart? || s.Fragment?
  }

  predicate IsTarget(m: Method, t: seq<byte>) {
    t != [] && EndsTarget(UrlFold(TargetStart(m), t))
  }

  lemma {:induction false} DeadStaysDead(t: seq<byte>)
    ensures UrlFold(Dead, t).Dead?
    decreases |t|
  {
    if t != [] { DeadStaysDead(t[1..]); }
  }

  predicate IsGraph(c: byte) {
    '!' <= c <= '~'
  }

  predicate InTail(s: State) {
    s.Path? || s.QueryStart? || s.Query? || s.FragmentStart? || s.Fragment?
  }

  /** From the path on, exactly the printable ASCII octets other than space are taken. */
  lemma {:induction false} TailExact(s: State, t: seq<byte>)
    requires InTail(s)
    ensures EndsTarget(UrlFold(s, t)) <==> forall c <- t :: IsGraph(c)
    decreases |t|
  {
    if t != [] {
      assert t == [t[0]] + t[1..];
      if IsGraph(t[0]) {
        TailExact(ParseUrlChar(s, t[0]), t[1..]);
      } else {
        DeadStaysDead(t[1..]);
      }
    }
  }

  /** The targets in origin form, and `*` forms, that are accepted. */
  lemma OriginTarget(m: Method, t: seq<byte>)
    requires !m.CONNECT? && t != [] && (t[0] == '/' || t[0] == '*')
    ensures IsTarget(m, t) <==> forall c <- t :: IsGraph(c)
  {
    TailExact(Path, t[1..]);
    assert t == [t[0]] + t[1..];
  }

  /** One octet of a target: url data, whatever the state. */
  lemma ReadsUrlOctet(env: Env, p: Parser, ch: byte)
    requires p.state.SpacesBeforeUrl? || IsUrlState(p.state)
    requires p.nread < env.limit
    requires var from := if p.state.SpacesBeforeUrl? then TargetStart(p.meth) else p.state; !ParseUrlChar(from, ch).Dead?
    ensures var from := if p.state.SpacesBeforeUrl? then TargetStart(p.meth) else p.state;
      Reads(env, p, [ch], [Octet(Url, ch)], Advance(p, 1).(state := ParseUrlChar(from, ch)))
  {
    var from := if p.state.SpacesBeforeUrl? then TargetStart(p.meth) else p.state;
    assert ch != ' ' && ch != CR && ch != LF;
    hide ParseUrlChar, Reads;
    var q := Advance(p, 1);
    UrlSwitch(env, q, ch, 1);
    var s := StepUrl(q, ch, 1);
    assert s.p == q.(state := ParseUrlChar(from, ch)) && s.go.Break? && s.note.None?;
    ReadsOctet(env, p, ch, s);
    assert [] + [Octet(Url, ch)] == [Octet(Url, ch)];
  }

  lemma {:induction false} ReadsTarget(env: Env, p: Parser, t: seq<byte>)
    requires p.state.SpacesBeforeUrl? || IsUrlState(p.state)
    requires p.state.SpacesBeforeUrl? ==> t != []
    requires p.nread + |t| <= env.limit
    requires var from := if p.state.SpacesBeforeUrl? then TargetStart(p.meth) else p.state; !UrlFold(from, t).Dead?
    ensures var from := if p.state.SpacesBeforeUrl? then TargetStart(p.meth) else p.state;
      Reads(env, p, t, Octets(Url, t), Advance(p, |t|).(state := UrlFold(from, t)))
    decreases |t|
  {
    hide Reads, ParseUrlChar;
    if t == [] {
      ReadsNothing(env, p);
      assert Octets(Url, t) == [];
    } else {
      var from := if p.state.SpacesBeforeUrl? then TargetStart(p.meth) else p.state;
      if ParseUrlChar(from, t[0]).Dead? { DeadStaysDead(t[1..]); }
      ReadsUrlOctet(env, p, t[0]);
      var q := Advance(p, 1).(state := ParseUrlChar(from, t[0]));
      ReadsTarget(env, q, t[1..]);
      var r := Advance(p, |t|).(state := UrlFold(from, t));
      assert Advance(q, |t| - 1).(state := UrlFold(q.state, t[1..])) == r;
      ReadsThen(env, p, [t[0]], [Octet(Url, t[0])], q, t[1..], Octets(Url, t[1..]), r);
      assert [t[0]] + t[1..] == t;
      assert [Octet(Url, t[0])] + Octets(Url, t[1..]) == Octets(Url, t);
    }
  }

  lemma ReadsTargetEnd(env: Env, p: Parser)
    requires EndsTarget(p.state) && p.nread < env.limit
    ensures Reads(env, p, " ", [], Advance(p, 1).(state := ReqHttpStart))
  {
    hide Reads;
    UrlSwitch(env, Advance(p, 1), ' ', 1);
    ReadsSilently(env, p, ' ', Advance(p, 1).(state := ReqHttpStart));
  }

  // Protocol versions.

  lemma ReadsLineOctet(env: Env, p: Parser, ch: byte, q: Parser)
    requires IsRequestLineState(p.state) && p.nread < env.limit
    requires StepRequestLine(Advance(p, 1), ch) == On(q)
    ensures Reads(env, p, [ch], [], q)
  {
    hide Reads;
    hide StepRequestLine;
    LineSwitch(env, Advance(p, 1), ch, 1);
    hide Switch;
    ReadsSilently(env, p, ch, q);
  }

  lemma ReadsHttp(env: Env, p: Parser)
    requires p.state.ReqHttpStart? && p.nread + 5 <= env.limit
    ensures Reads(env, p, "HTTP/", [], Advance(p, 5).(state := ReqFirstMajor))
  {
    hide Reads;
    var a, b, c := Advance(p, 1).(state := ReqH), Advance(p, 2).(state := ReqHT), Advance(p, 3).(state := ReqHTT);
    var d, e := Advance(p, 4).(state := ReqHTTP), Advance(p, 5).(state := ReqFirstMajor);
    ReadsLineOctet(env, p, 'H', a);
    ReadsLineOctet(env, a, 'T', b);
    ReadsLineOctet(env, b, 'T', c);
    ReadsLineOctet(env, c, 'P', d);
    ReadsLineOctet(env, d, '/', e);
    ReadsOn(env, p, ['H'], [], a, ['T'], b);
    ReadsOn(env, p, ['H'] + ['T'], [], b, ['T'], c);
    ReadsOn(env, p, ['H'] + ['T'] + ['T'], [], c, ['P'], d);
    ReadsOn(env, p, ['H'] + ['T'] + ['T'] + ['P'], [], d, ['/'], e);
    assert ['H'] + ['T'] + ['T'] + ['P'] + ['/'] == "HTTP/";
  }

  /** A version number after its first digit. */
  /** The number of the version that is being read. */
  function VersionIn(p: Parser): nat {
    if p.state.ReqMajor? then p.major else p.minor
  }

  function WithVersion(p: Parser, n: nat): Parser {
    if p.state.ReqMajor? then p.(major := n) else p.(minor := n)
  }

  lemma ReadsNextDigit(env: Env, p: Parser, d: byte)
    requires (p.state.ReqMajor? || p.state.ReqMinor?) && IsNum(d) && p.nread < env.limit
    requires VersionIn(p) * 10 + DigitValue(d) <= 999
    ensures Reads(env, p, [d], [], WithVersion(Advance(p, 1), VersionIn(p) * 10 + DigitValue(d)))
  {
    hide Reads;
    ReadsLineOctet(env, p, d, WithVersion(Advance(p, 1), VersionIn(p) * 10 + DigitValue(d)));
  }

  lemma VersionMoves(p: Parser, k: nat, n: nat, m: nat)
    requires p.state.ReqMajor? || p.state.ReqMinor?
    ensures var q := WithVersion(Advance(p, k), n);
      && q.state == p.state && q.nread == p.nread + k && VersionIn(q) == n
      && forall v: nat :: WithVersion(Advance(q, m), v) == WithVersion(Advance(p, k + m), v)
  {
  }

  lemma {:induction false} ReadsMoreDigits(env: Env, p: Parser, ds: seq<byte>)
    requires p.state.ReqMajor? || p.state.ReqMinor?
    requires AllDigits(ds) && p.nread + |ds| <= env.limit && DecimalFrom(VersionIn(p), ds) <= 999
    ensures Reads(env, p, ds, [], WithVersion(Advance(p, |ds|), DecimalFrom(VersionIn(p), ds)))
    decreases |ds|
  {
    hide Reads, DigitValue;
    if ds == [] {
      ReadsNothing(env, p);
    } else {
      assert IsNum(ds[0]) by { assert ds[0] in ds; }
      var n := VersionIn(p) * 10 + DigitValue(ds[0]);
      var q := WithVersion(Advance(p, 1), n);
      var v := DecimalFrom(n, ds[1..]);
      assert v == DecimalFrom(VersionIn(p), ds);
      VersionMoves(p, 1, n, |ds| - 1);
      hide DecimalFrom, WithVersion;
      ReadsNextDigit(env, p, ds[0]);
      ReadsMoreDigits(env, q, ds[1..]);
      ReadsOn(env, p, [ds[0]], [], q, ds[1..], WithVersion(Advance(p, |ds|), v));
      assert [ds[0]] + ds[1..] == ds;
    }
  }

  predicate IsMajor(ds: seq<byte>) {
    AllDigits(ds) && ds != [] && ds[0] != '0' && Decimal(ds) <= 999
  }

  predicate IsMinor(ds: seq<byte>) {
    AllDigits(ds) && ds != [] && Decimal(ds) <= 999
  }

  lemma ReadsFirstDigit(env: Env, p: Parser, d: byte)
    requires (p.state.ReqFirstMajor? && d != '0') || p.state.ReqFirstMinor?
    requires IsNum(d) && p.nread < env.limit
    ensures Reads(env, p, [d], [],
                  if p.state.ReqFirstMajor? then Advance(p, 1).(major := DigitValue(d), state := ReqMajor)
                  else Advance(p, 1).(minor := DigitValue(d), state := ReqMinor))
  {
    hide Reads;
    ReadsLineOctet(env, p, d, if p.state.ReqFirstMajor? then Advance(p, 1).(major := DigitValue(d), state := ReqMajor)
                             else Advance(p, 1).(minor := DigitValue(d), state := ReqMinor));
  }

  lemma ReadsLineEnd(env: Env, p: Parser)
    requires p.state.ReqMinor? && p.nread + 2 <= env.limit
    ensures Reads(env, p, "\r\n", [], Advance(p, 2).(state := HeaderFieldStart))
  {
    hide Reads;
    var a, b := Advance(p, 1).(state := ReqLineAlmostDone), Advance(p, 2).(state := HeaderFieldStart);
    ReadsLineOctet(env, p, CR, a);
    ReadsLineOctet(env, a, LF, b);
    ReadsOn(env, p, [CR], [], a, [LF], b);
    assert [CR] + [LF] == "\r\n";
  }

  lemma ReadsDot(env: Env, p: Parser)
    requires p.state.ReqMajor? && p.nread < env.limit
    ensures Reads(env, p, ".", [], Advance(p, 1).(state := ReqFirstMinor))
  {
    hide Reads;
    ReadsLineOctet(env, p, '.', Advance(p, 1).(state := ReqFirstMinor));
  }

  lemma ReadsMajor(env: Env, p: Parser, ds: seq<byte>)
    requires p.state.ReqFirstMajor? && IsMajor(ds) && p.nread + |ds| + 1 <= env.limit
    ensures Reads(env, p, ds + ".", [], Advance(p, |ds| + 1).(major := Decimal(ds), state := ReqFirstMinor))
  {
    hide Reads, StepRequestLine;
    var a := Advance(p, 1).(major := DigitValue(ds[0]), state := ReqMajor);
    var b := Advance(p, |ds|).(major := Decimal(ds), state := ReqMajor);
    var c := Advance(p, |ds| + 1).(major := Decimal(ds), state := ReqFirstMinor);
    ReadsFirstDigit(env, p, ds[0]);
    ReadsMoreDigits(env, a, ds[1..]);
    ReadsDot(env, b);
    ReadsOn(env, p, [ds[0]], [], a, ds[1..], b);
    assert [ds[0]] + ds[1..] == ds;
    ReadsOn(env, p, ds, [], b, ".", c);
  }

  lemma ReadsMinor(env: Env, p: Parser, ds: seq<byte>)
    requires p.state.ReqFirstMinor? && IsMinor(ds) && p.nread + |ds| + 2 <= env.limit
    ensures Reads(env, p, ds + "\r\n", [], Advance(p, |ds| + 2).(minor := Decimal(ds), state := HeaderFieldStart))
  {
    hide Reads, StepRequestLine;
    var a := Advance(p, 1).(minor := DigitValue(ds[0]), state := ReqMinor);
    var b := Advance(p, |ds|).(minor := Decimal(ds), state := ReqMinor);
    ReadsFirstDigit(env, p, ds[0]);
    ReadsMoreDigits(env, a, ds[1..]);
    ReadsLineEnd(env, b);
    ReadsOn(env, p, [ds[0]], [], a, ds[1..], b);
    assert [ds[0]] + ds[1..] == ds;
    ReadsOn(env, p, ds, [], b, "\r\n", Advance(b, 2).(state := HeaderFieldStart));
  }

  // The whole line.

  function PrintLine(m: Method, target: seq<byte>, major: seq<byte>, minor: seq<byte>): seq<byte> {
    MethodString(m) + " " + target + " HTTP/" + major + "." + minor + "\r\n"
  }

  /** A printed request line is read back: its method and version end up in the
      parser, its target goes to the url callback octet by octet. */
  lemma ReadsRequestLine(env: Env, p: Parser, m: Method, target: seq<byte>, major: seq<byte>, minor: seq<byte>)
    requires p.state.StartReq? && IsTarget(m, target) && IsMajor(major) && IsMinor(minor)
    requires p.nread + |PrintLine(m, target, major, minor)| <= env.limit
    ensures var line := PrintLine(m, target, major, minor);
      Reads(env, p, line, [Notice(MessageBegin)] + Octets(Url, target),
            Advance(p, |line|).(flags := NO_FLAGS, contentLength := ULLONG_MAX, meth := m,
                                index := |MethodString(m)| + 1, major := Decimal(major), minor := Decimal(minor),
                                state := HeaderFieldStart))
  {
    hide Reads, UrlFold, MethodString, Decimal;
    var w := MethodString(m);
    var begin, url := [Notice(MessageBegin)], Octets(Url, target);
    var a := Naming(p, m, |w| + 1).(state := SpacesBeforeUrl);
    var b := Advance(a, |target|).(state := UrlFold(TargetStart(m), target));
    var c := Advance(b, 1).(state := ReqHttpStart);
    var d := Advance(c, 5).(state := ReqFirstMajor);
    var e := Advance(d, |major| + 1).(major := Decimal(major), state := ReqFirstMinor);
    var f := Advance(e, |minor| + 2).(minor := Decimal(minor), state := HeaderFieldStart);
    ReadsMethod(env, p, m);
    ReadsTarget(env, a, target);
    ReadsTargetEnd(env, b);
    ReadsHttp(env, c);
    ReadsMajor(env, d, major);
    ReadsMinor(env, e, minor);
    ReadsThen(env, p, w + " ", begin, a, target, url, b);
    ReadsOn(env, p, w + " " + target, begin + url, b, " ", c);
    ReadsOn(env, p, w + " " + target + " ", begin + url, c, "HTTP/", d);
    ReadsOn(env, p, w + " " + target + " " + "HTTP/", begin + url, d, major + ".", e);
    ReadsOn(env, p, w + " " + target + " " + "HTTP/" + (major + "."), begin + url, e, minor + "\r\n", f);
    assert w + " " + target + " " + "HTTP/" + (major + ".") + (minor + "\r\n") == PrintLine(m, target, major, minor);
  }
}
