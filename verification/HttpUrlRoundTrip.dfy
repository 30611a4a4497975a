/** A printed URL is taken apart into exactly the parts it was printed from. */
module HttpUrlRoundTrip {
  import opened Basics
  import opened HttpSyntax
  import opened HttpUrl
  import P = HttpParser

  // Runs over the authority.

  function HostField(s: HostState): Option<Field> {
    if s.Userinfo? then Some(UserinfoF) else if s.Name? || s.V6? then Some(HostF) else if s.Port? then Some(PortF) else None
  }

  predicate HostStays(st: HostState, run: seq<byte>) {
    forall ch <- run :: HostChar(st, ch) == st
  }

  predicate HostRuns(from: HostState, st: HostState, run: seq<byte>) {
    run != [] && HostChar(from, run[0]) == st && HostStays(st, run[1..])
  }

  predicate HostInside(c: HostScan, uf: Field) {
    c.HostScan? && HostField(c.s) == Some(uf) && uf in c.f
  }

  function HostLonger(c: HostScan, uf: Field, n: nat): HostScan
    requires HostInside(c, uf)
  {
    c.(f := c.f[uf := Slice(c.f[uf].off, c.f[uf].len + n)])
  }

  lemma HostLongerStep(c: HostScan, ch: byte, p: nat, uf: Field, n: nat)
    requires HostInside(c, uf) && HostChar(c.s, ch) == c.s && c.f[uf].len + 1 < 0x10000
    ensures HostStep(c, ch, p) == HostLonger(c, uf, 1)
    ensures HostLonger(HostLonger(c, uf, 1), uf, n) == HostLonger(c, uf, n + 1)
  {
    hide HostChar;
    assert c.f[uf := Slice(c.f[uf].off, c.f[uf].len + 1)][uf := Slice(c.f[uf].off, c.f[uf].len + 1 + n)]
        == c.f[uf := Slice(c.f[uf].off, c.f[uf].len + n + 1)];
  }

  lemma {:induction false} HostContinue(run: seq<byte>, rest: seq<byte>, p: nat, c: HostScan, uf: Field)
    requires HostInside(c, uf) && HostStays(c.s, run) && c.f[uf].len + |run| < 0x10000
    ensures HostAll(run + rest, p, c) == HostAll(rest, p + |run|, HostLonger(c, uf, |run|))
    decreases |run|
  {
    hide HostChar, HostStep;
    if run == [] {
      assert run + rest == rest;
      assert c.f[uf := Slice(c.f[uf].off, c.f[uf].len + 0)] == c.f;
    } else {
      assert (run + rest)[1..] == run[1..] + rest;
      HostLongerStep(c, run[0], p, uf, |run| - 1);
      HostContinue(run[1..], rest, p + 1, HostLonger(c, uf, 1), uf);
    }
  }

  lemma HostEnter(run: seq<byte>, rest: seq<byte>, p: nat, c: HostScan, st: HostState, uf: Field)
    requires c.HostScan? && HostRuns(c.s, st, run) && c.s != st && HostField(st) == Some(uf) && p + |run| < 0x10000
    requires uf == HostF ==> HostF in c.f && c.f[HostF].len == 0
    ensures HostAll(run + rest, p, c) == HostAll(rest, p + |run|, HostScan(st, c.f[uf := Slice(p, |run|)]))
  {
    hide HostChar;
    assert (run + rest)[1..] == run[1..] + rest;
    var c' := HostScan(st, c.f[uf := Slice(p, 1)]);
    assert HostStep(c, run[0], p) == c';
    HostContinue(run[1..], rest, p + 1, c', uf);
    assert c.f[uf := Slice(p, 1)][uf := Slice(p, |run|)] == c.f[uf := Slice(p, |run|)];
  }

  lemma HostSkip(ch: byte, rest: seq<byte>, p: nat, c: HostScan)
    requires c.HostScan? && !HostChar(c.s, ch).HostDead? && HostField(HostChar(c.s, ch)).None?
    ensures HostAll([ch] + rest, p, c) == HostAll(rest, p + 1, c.(s := HostChar(c.s, ch)))
  {
    assert ([ch] + rest)[1..] == rest;
  }

  // The parts of the authority.

  lemma HostParts(u: Parts)
    requires WellFormed(u)
    ensures u.userinfo.Some? ==> HostRuns(UserinfoStart, Userinfo, u.userinfo.value)
    ensures u.host.NameText? ==> HostRuns(HostStart, Name, u.host.s)
    ensures u.host.V6Text? ==> HostRuns(V6Start, V6, u.host.s)
    ensures u.port.Some? ==> HostRuns(PortStart, Port, u.port.value)
  {
    hide Print;
    if u.userinfo.Some? {
      var s := u.userinfo.value;
      assert s[0] in s;
      forall c <- s[1..] ensures HostChar(Userinfo, c) == Userinfo { assert c in s; }
    }
    var s := u.host.s;
    assert s[0] in s;
    forall c <- s[1..] ensures HostChar(if u.host.NameText? then Name else V6, c) == if u.host.NameText? then Name else V6 {
      assert c in s;
    }
    if u.port.Some? {
      var d := u.port.value;
      assert d[0] in d;
      forall c <- d[1..] ensures HostChar(Port, c) == Port { assert c in d; }
    }
  }

  lemma AuthoritySizes(u: Parts, p: nat)
    requires p + |Authority(u)| < 0x10000
    ensures p + |UserPart(u)| + |HostPart(u.host)| + |PortPart(u)| < 0x10000
    ensures |HostPart(u.host)| == |u.host.s| + if u.host.V6Text? then 2 else 0
  {
  }

  lemma ParsesUser(u: Parts, rest: seq<byte>, p: nat, f: Fields)
    requires WellFormed(u) && u.userinfo.Some? && p + |Authority(u)| < 0x10000
    ensures HostAll(UserPart(u) + rest, p, HostScan(UserinfoStart, f)) ==
      HostAll(rest, p + |UserPart(u)|, HostScan(HostStart, f[UserinfoF := Slice(p, |u.userinfo.value|)]))
  {
    hide HostAll, HostStep, HostRuns, WellFormed, ServerPart;
    HostParts(u);
    var who := u.userinfo.value;
    assert UserPart(u) + rest == who + (['@'] + rest);
    HostEnter(who, ['@'] + rest, p, HostScan(UserinfoStart, f), Userinfo, UserinfoF);
    HostSkip('@', rest, p + |who|, HostScan(Userinfo, f[UserinfoF := Slice(p, |who|)]));
  }

  function EndOfHost(h: HostText): HostState {
    if h.NameText? then Name else V6End
  }

  lemma ParsesHost(u: Parts, rest: seq<byte>, p: nat, f: Fields)
    requires WellFormed(u) && HostF in f && f[HostF].len == 0 && p + |HostPart(u.host)| < 0x10000
    ensures HostAll(HostPart(u.host) + rest, p, HostScan(HostStart, f)) ==
      HostAll(rest, p + |HostPart(u.host)|,
              HostScan(EndOfHost(u.host), f[HostF := Slice(p + if u.host.V6Text? then 1 else 0, |u.host.s|)]))
  {
    hide HostAll, HostStep, HostRuns, WellFormed;
    HostParts(u);
    var s := u.host.s;
    if u.host.NameText? {
      HostEnter(s, rest, p, HostScan(HostStart, f), Name, HostF);
    } else {
      assert HostPart(u.host) + rest == ['['] + (s + ([']'] + rest));
      HostSkip('[', s + ([']'] + rest), p, HostScan(HostStart, f));
      HostEnter(s, [']'] + rest, p + 1, HostScan(V6Start, f), V6, HostF);
      HostSkip(']', rest, p + 1 + |s|, HostScan(V6, f[HostF := Slice(p + 1, |s|)]));
    }
  }

  lemma ParsesPort(u: Parts, p: nat, f: Fields)
    requires WellFormed(u) && p + |PortPart(u)| < 0x10000
    ensures var c := HostAll(PortPart(u), p, HostScan(EndOfHost(u.host), f));
      && c.HostScan? && HostEndsWell(c.s)
      && c.f == if u.port.Some? then f[PortF := Slice(p + 1, |u.port.value|)] else f
  {
    hide HostStep, HostRuns, WellFormed;
    HostParts(u);
    if u.port.Some? {
      var d := u.port.value;
      HostSkip(':', d, p, HostScan(EndOfHost(u.host), f));
      assert d + [] == d;
      HostEnter(d, [], p + 1, HostScan(PortStart, f), Port, PortF);
    }
  }

  lemma ParsesAuthority(u: Parts, p: nat, f: Fields)
    requires WellFormed(u) && p + |Authority(u)| < 0x10000 && HostF in f && f[HostF] == Slice(p, |Authority(u)|)
    ensures var c := HostAll(Authority(u), p, HostBegin(f, HostPlace(f, Slice(0, 0)), u.userinfo.Some?));
      c.HostScan? && HostEndsWell(c.s) && c.f == Fine(u, f, p)
  {
    hide HostAll, WellFormed, HostPart, PortPart;
    AuthoritySizes(u, p);
    var f0 := f[HostF := Slice(p, 0)];
    var f1 := if u.userinfo.Some? then f0[UserinfoF := Slice(p, |u.userinfo.value|)] else f0;
    var q := p + |UserPart(u)|;
    if u.userinfo.Some? {
      ParsesUser(u, ServerPart(u), p, f0);
    } else {
      assert Authority(u) == ServerPart(u);
    }
    ParsesHost(u, PortPart(u), q, f1);
    var host := Slice(q + if u.host.V6Text? then 1 else 0, |u.host.s|);
    ParsesPort(u, q + |HostPart(u.host)|, f1[HostF := host]);
    var g := if u.userinfo.Some? then f[UserinfoF := Slice(p, |u.userinfo.value|)] else f;
    assert f1[HostF := host] == g[HostF := host];
  }

  // The port.

  lemma {:induction false} DigitsOf(d: seq<byte>, rest: seq<byte>)
    requires AllDigits(d) && (rest != [] ==> !IsNum(rest[0]))
    ensures Digits(d + rest) == d
    decreases |d|
  {
    if d == [] {
      assert d + rest == rest;
    } else {
      assert d[0] in d;
      assert (d + rest)[1..] == d[1..] + rest;
      DigitsOf(d[1..], rest);
    }
  }

  function PortValue(u: Parts): nat
    requires u.port.Some? ==> AllDigits(u.port.value)
  {
    if u.port.Some? then Decimal(u.port.value) else 0
  }

  lemma PortDigits(u: Parts)
    requires WellFormed(u)
    ensures u.port.Some? ==> AllDigits(u.port.value)
  {
  }

  lemma FinishesWith(u: Parts, before: seq<byte>, rest: seq<byte>, f: Fields, isConnect: bool)
    requires WellFormed(u) && (u.port.Some? <==> PortF in f) && (isConnect ==> f.Keys == {HostF, PortF})
    requires u.port.Some? ==> f[PortF] == Slice(|before|, |u.port.value|) && (rest != [] ==> !IsNum(rest[0]))
    ensures Finish(before + ((if u.port.Some? then u.port.value else []) + rest), f, isConnect) == Some(Url(f, PortValue(u)))
  {
    hide Print;
    if u.port.Some? {
      var memory := before + (u.port.value + rest);
      assert memory[|before|..] == u.port.value + rest;
      DigitsOf(u.port.value, rest);
    }
  }

  function AfterAuthority(u: Parts): seq<byte> {
    u.path + (QueryPart(u) + FragmentPart(u))
  }

  /** What stands in front of the port in a printed URL. */
  function BeforePort(u: Parts): seq<byte> {
    u.scheme + [':', '/', '/'] + UserPart(u) + HostPart(u.host) + if u.port.Some? then [':'] else []
  }

  lemma Regroup(a: seq<byte>, b: seq<byte>, c: seq<byte>, d: seq<byte>, e: seq<byte>, f: seq<byte>, g: seq<byte>)
    ensures a + (b + ((c + (d + (e + f))) + g)) == (a + b) + (c + (d + (e + f))) + g
    ensures (a + b) + (c + (d + (e + f))) + g == (a + b + c + d + e) + (f + g)
  {
    assert (c + (d + (e + f))) + g == (c + d + e) + (f + g);
  }

  lemma PrintSplits(u: Parts)
    ensures Print(u) == (u.scheme + [':', '/', '/']) + Authority(u) + AfterAuthority(u)
    ensures Print(u) == BeforePort(u) + ((if u.port.Some? then u.port.value else []) + AfterAuthority(u))
  {
    hide AfterAuthority, UserPart, HostPart;
    var colon, d := if u.port.Some? then [':'] else [], if u.port.Some? then u.port.value else [];
    assert PortPart(u) == colon + d;
    Regroup(u.scheme, [':', '/', '/'], UserPart(u), HostPart(u.host), colon, d, AfterAuthority(u));
    PrintUnfolds(u);
  }

  lemma PrintUnfolds(u: Parts)
    ensures Print(u) == u.scheme + ([':', '/', '/'] + (Authority(u) + AfterAuthority(u)))
    ensures Authority(u) == UserPart(u) + (HostPart(u.host) + PortPart(u))
  {
  }

  /** Scheme and authority, which the second pass goes back to, lie below 65536. */
  predicate FrontFits(u: Parts) {
    PathOff(u) < 0x10000
  }

  /** Every offset and every length has 16 bits. */
  predicate Fits16(u: Parts) {
    && FrontFits(u) && |u.path| < 0x10000
    && (u.query.Some? ==> PathOff(u) + |u.path| + 1 < 0x10000 && |u.query.value| < 0x10000)
    && (u.fragment.Some? ==> FragmentOff(u) + 1 < 0x10000 && |u.fragment.value| < 0x10000)
  }

  lemma FrontWraps(u: Parts)
    requires FrontFits(u)
    ensures var f := Wraps(Coarse(u));
      SchemaF in f && HostF in f && f[HostF] == Slice(|u.scheme| + 3, |Authority(u)|)
    ensures |u.scheme| + 3 + |Authority(u)| < 0x10000
  {
    hide PathOff, FragmentOff, Authority, Coarse, Print, QueryPart, FragmentPart, Wrap;
    Sizes(u);
    CoarseFront(u);
    WrapExact(Slice(|u.scheme| + 3, |Authority(u)|));
  }

  lemma CoarseFront(u: Parts)
    ensures SchemaF in Coarse(u) && HostF in Coarse(u) && Coarse(u)[HostF] == Slice(|u.scheme| + 3, |Authority(u)|)
  {
    hide PathOff, FragmentOff, Authority;
  }

  /** A printed URL whose scheme and authority lie below 65536: path, query and fragment
      have their offsets and lengths modulo 65536, everything else is as printed. */
  lemma LongUrl(u: Parts, after: seq<byte>, stale: Slice)
    requires WellFormed(u) && FrontFits(u)
    ensures ParseUrl(Print(u), after, false, stale) == Some(Url(Fine(u, Wraps(Coarse(u)), |u.scheme| + 3), PortValue(u)))
  {
    hide ScanAll, HostAll, Finish, WellFormed, Print, Authority, AfterAuthority, BeforePort, Coarse, Fine, PortValue,
         PathOff, FragmentOff, Wraps, FrontFits;
    ScanPrinted(u);
    var p, f := |u.scheme| + 3, Wraps(Coarse(u));
    FrontWraps(u);
    AuthorityPlace(u);
    ParsesAuthority(u, p, f);
    TextInside(Print(u), after, f[HostF]);
    FinishesPrinted(u, after);
  }

  predicate InAuthority(uf: Field) {
    uf.HostF? || uf.PortF? || uf.UserinfoF?
  }

  /** The second pass changes no other field. */
  lemma {:induction false} HostLeaves(text: seq<byte>, p: nat, c: HostScan, uf: Field)
    requires !InAuthority(uf)
    ensures var c' := HostAll(text, p, c);
      c'.HostScan? ==> c.HostScan? && (uf in c'.f <==> uf in c.f) && (uf in c.f ==> c'.f[uf] == c.f[uf])
    decreases |text|
  {
    hide HostChar;
    if text != [] { HostLeaves(text[1..], p + 1, HostStep(c, text[0], p), uf); }
  }

  /** Whatever the length of a printed URL: if it is accepted, scheme, path, query and
      fragment have their offsets and lengths modulo 65536. */
  lemma AnyUrl(u: Parts, after: seq<byte>, stale: Slice, uf: Field)
    requires WellFormed(u) && !InAuthority(uf)
    ensures var r, f := ParseUrl(Print(u), after, false, stale), Coarse(u);
      r.Some? ==> (uf in r.value.f <==> uf in f) && (uf in f ==> r.value.f[uf] == Wrap(f[uf]))
  {
    hide ScanAll, HostAll, WellFormed, Print, Coarse, Wrap;
    ScanPrinted(u);
    var f := Wraps(Coarse(u));
    var h := HostPlace(f, stale);
    HostLeaves(TextAt(Print(u) + after, h), h.off, HostBegin(f, h, u.userinfo.Some?), uf);
  }

  lemma WrapExact(h: Slice)
    ensures Wrap(h) == h <==> h.off < 0x10000 && h.len < 0x10000
  {
  }

  lemma TailsAre(u: Parts)
    ensures var f := Coarse(u);
      && PathF in f && f[PathF] == Slice(PathOff(u), |u.path|)
      && (u.query.Some? ==> QueryF in f && f[QueryF] == Slice(PathOff(u) + |u.path| + 1, |u.query.value|))
      && (u.fragment.Some? ==> FragmentF in f && f[FragmentF] == Slice(FragmentOff(u) + 1, |u.fragment.value|))
  {
    hide PathOff, FragmentOff, Authority;
  }

  lemma FineLeaves(u: Parts, f: Fields, p: nat, uf: Field)
    requires !InAuthority(uf)
    ensures (uf in Fine(u, f, p) <==> uf in f) && (uf in f ==> Fine(u, f, p)[uf] == f[uf])
  {
  }

  /** Nothing wraps exactly when everything has 16 bits. */
  lemma WrapsNothing(u: Parts)
    requires Fits16(u)
    ensures Wraps(Coarse(u)) == Coarse(u)
  {
    hide PathOff, FragmentOff, Authority;
    Sizes(u);
    forall uf | uf in Coarse(u) ensures Wrap(Coarse(u)[uf]) == Coarse(u)[uf] { WrapExact(Coarse(u)[uf]); }
  }

  /** Printing a URL and parsing it gives back every part, at its place, and the value of
      the port, whatever follows the buffer in memory and was in the structure before,
      exactly when no offset and no length needs more than 16 bits. */
  lemma UrlRoundTrip(u: Parts, after: seq<byte>, stale: Slice)
    requires WellFormed(u)
    ensures ParseUrl(Print(u), after, false, stale) == Some(Url(Fine(u, Coarse(u), |u.scheme| + 3), PortValue(u)))
            <==> Fits16(u)
    ensures |Print(u)| < 0x10000 ==> Fits16(u)
  {
    hide ParseUrl, WellFormed, Authority, Coarse, Fine, PortValue, PathOff, FragmentOff, Print, Wrap, Wraps;
    Sizes(u);
    PortDigits(u);
    if Fits16(u) {
      LongUrl(u, after, stale);
      WrapsNothing(u);
    } else {
      var f, printed := Coarse(u), PortValue(u);
      TailsAre(u);
      forall uf | !InAuthority(uf) && uf in f && Wrap(f[uf]) != f[uf]
        ensures ParseUrl(Print(u), after, false, stale) != Some(Url(Fine(u, f, |u.scheme| + 3), printed)) {
        AnyUrl(u, after, stale, uf);
        FineLeaves(u, f, |u.scheme| + 3, uf);
      }
      WrapExact(f[PathF]);
      if u.query.Some? { WrapExact(f[QueryF]); }
      if u.fragment.Some? { WrapExact(f[FragmentF]); }
    }
  }

  lemma AuthorityPlace(u: Parts)
    ensures |Print(u)| >= |u.scheme| + 3 + |Authority(u)|
    ensures Print(u)[|u.scheme| + 3..|u.scheme| + 3 + |Authority(u)|] == Authority(u)
  {
    hide Authority, Print, AfterAuthority, BeforePort;
    PrintSplits(u);
  }

  lemma FinishesPrinted(u: Parts, after: seq<byte>)
    requires WellFormed(u)
    ensures u.port.Some? ==> AllDigits(u.port.value)
    ensures var g := Fine(u, Wraps(Coarse(u)), |u.scheme| + 3);
      Finish(Print(u) + after, g, false) == Some(Url(g, PortValue(u)))
  {
    hide Finish, WellFormed, Print, Authority, AfterAuthority, BeforePort, Coarse, Fine, PortValue, Wraps;
    PrintSplits(u);
    PortsPlace(u, Wraps(Coarse(u)));
    PathFollows(u, after);
    var d, rest := if u.port.Some? then u.port.value else [], AfterAuthority(u) + after;
    assert Print(u) + after == BeforePort(u) + (d + rest);
    FinishesWith(u, BeforePort(u), rest, Fine(u, Wraps(Coarse(u)), |u.scheme| + 3), false);
  }

  lemma PathFollows(u: Parts, after: seq<byte>)
    requires WellFormed(u)
    ensures AfterAuthority(u) != [] && !IsNum((AfterAuthority(u) + after)[0])
    ensures u.port.Some? ==> AllDigits(u.port.value)
  {
  }

  lemma PortsPlace(u: Parts, f: Fields)
    requires f == Wraps(Coarse(u))
    ensures var g := Fine(u, f, |u.scheme| + 3);
      (u.port.Some? <==> PortF in g) && (u.port.Some? ==> g[PortF] == Slice(|BeforePort(u)|, |u.port.value|))
  {
  }

  /** The text of a slice. */
  ghost predicate Shows(buf: seq<byte>, f: Fields, uf: Field, part: Option<seq<byte>>) {
    if part.None? then uf !in f
    else uf in f && f[uf].off + f[uf].len <= |buf| && buf[f[uf].off..f[uf].off + f[uf].len] == part.value
  }

  /** `part` stands in `buf` behind `before`. */
  predicate Stands(buf: seq<byte>, before: seq<byte>, part: seq<byte>) {
    |before| + |part| <= |buf| && buf[|before|..|before| + |part|] == part
  }

  lemma InMiddle(a: seq<byte>, b: seq<byte>, c: seq<byte>)
    ensures Stands(a + b + c, a, b)
  {
  }

  function Slashed(u: Parts): seq<byte> {
    u.scheme + [':', '/', '/']
  }

  function BeforeHost(u: Parts): seq<byte> {
    Slashed(u) + UserPart(u) + if u.host.V6Text? then ['['] else []
  }

  lemma SchemeStands(u: Parts)
    ensures Stands(Print(u), [], u.scheme)
  {
    var rest := [':', '/', '/'] + (Authority(u) + AfterAuthority(u));
    InMiddle([], u.scheme, rest);
    assert Print(u) == [] + u.scheme + rest;
  }

  lemma UserStands(u: Parts)
    requires u.userinfo.Some?
    ensures Stands(Print(u), Slashed(u), u.userinfo.value)
  {
    hide AfterAuthority, HostPart, PortPart, Stands, Print;
    PrintUnfolds(u);
    var server := HostPart(u.host) + PortPart(u);
    InMiddle(Slashed(u), u.userinfo.value, ['@'] + server + AfterAuthority(u));
    UserInMiddle(u.scheme, [':', '/', '/'], u.userinfo.value, server, AfterAuthority(u));
  }

  lemma UserInMiddle(a: seq<byte>, b: seq<byte>, who: seq<byte>, d: seq<byte>, e: seq<byte>)
    ensures a + (b + (((who + ['@']) + d) + e)) == (a + b) + who + (['@'] + d + e)
  {
    assert ((who + ['@']) + d) + e == who + (['@'] + d + e);
  }

  lemma HostStands(u: Parts)
    ensures Stands(Print(u), BeforeHost(u), u.host.s)
  {
    hide AfterAuthority, UserPart, PortPart, Stands, Print;
    var open, close := if u.host.V6Text? then ['['] else [], if u.host.V6Text? then [']'] else [];
    PrintUnfolds(u);
    assert HostPart(u.host) == open + (u.host.s + close);
    var rest := close + PortPart(u) + AfterAuthority(u);
    InMiddle(BeforeHost(u), u.host.s, rest);
    HostInMiddle(u.scheme, [':', '/', '/'], UserPart(u), open, u.host.s, close, PortPart(u), AfterAuthority(u));
  }

  lemma HostInMiddle(a: seq<byte>, b: seq<byte>, c: seq<byte>, open: seq<byte>, h: seq<byte>, close: seq<byte>, d: seq<byte>, e: seq<byte>)
    ensures a + (b + ((c + ((open + (h + close)) + d)) + e)) == (a + b + c + open) + h + (close + d + e)
  {
    assert ((c + ((open + (h + close)) + d)) + e) == (c + open) + (h + (close + d + e));
  }

  lemma PortStands(u: Parts)
    requires u.port.Some?
    ensures Stands(Print(u), BeforePort(u), u.port.value)
  {
    hide AfterAuthority, BeforePort;
    PrintSplits(u);
    InMiddle(BeforePort(u), u.port.value, AfterAuthority(u));
    assert BeforePort(u) + (u.port.value + AfterAuthority(u)) == BeforePort(u) + u.port.value + AfterAuthority(u);
  }

  function BeforePath(u: Parts): seq<byte> {
    Slashed(u) + Authority(u)
  }

  lemma TailStands(u: Parts)
    ensures Stands(Print(u), BeforePath(u), u.path)
    ensures u.query.Some? ==> Stands(Print(u), BeforePath(u) + u.path + ['?'], u.query.value)
    ensures u.fragment.Some? ==> Stands(Print(u), BeforePath(u) + u.path + QueryPart(u) + ['#'], u.fragment.value)
  {
    hide BeforePath, Print, Stands;
    var front := BeforePath(u);
    PathSplits(u);
    TailInMiddle(front, u.path, QueryPart(u), FragmentPart(u));
    InMiddle(front, u.path, QueryPart(u) + FragmentPart(u));
    if u.query.Some? {
      InMiddle(front + u.path + ['?'], u.query.value, FragmentPart(u));
      QueryInMiddle(front + u.path, u.query.value, FragmentPart(u));
    }
    if u.fragment.Some? {
      InMiddle(front + u.path + QueryPart(u) + ['#'], u.fragment.value, []);
      FragmentInMiddle(front + u.path + QueryPart(u), u.fragment.value);
    }
  }

  lemma TailInMiddle(a: seq<byte>, b: seq<byte>, c: seq<byte>, d: seq<byte>)
    ensures a + (b + (c + d)) == a + b + (c + d) && a + (b + (c + d)) == (a + b) + c + d && a + (b + (c + d)) == (a + b + c) + d
  {
  }

  lemma QueryInMiddle(a: seq<byte>, q: seq<byte>, d: seq<byte>)
    ensures a + (['?'] + q) + d == (a + ['?']) + q + d
  {
  }

  lemma FragmentInMiddle(a: seq<byte>, q: seq<byte>)
    ensures a + (['#'] + q) == (a + ['#']) + q + []
  {
  }

  lemma PathSplits(u: Parts)
    ensures Print(u) == BeforePath(u) + AfterAuthority(u)
  {
    PrintSplits(u);
  }

  /** Where each field is said to be. */
  lemma FieldsAt(u: Parts)
    ensures var f := Fine(u, Coarse(u), |u.scheme| + 3);
      && SchemaF in f && f[SchemaF] == Slice(0, |u.scheme|)
      && HostF in f && f[HostF] == Slice(|BeforeHost(u)|, |u.host.s|)
      && PathF in f && f[PathF] == Slice(|BeforePath(u)|, |u.path|)
      && (if u.userinfo.Some? then UserinfoF in f && f[UserinfoF] == Slice(|Slashed(u)|, |u.userinfo.value|) else UserinfoF !in f)
      && (if u.port.Some? then PortF in f && f[PortF] == Slice(|BeforePort(u)|, |u.port.value|) else PortF !in f)
      && (if u.query.Some? then QueryF in f && f[QueryF] == Slice(|BeforePath(u)| + |u.path| + 1, |u.query.value|) else QueryF !in f)
      && (if u.fragment.Some? then FragmentF in f && f[FragmentF] == Slice(|BeforePath(u)| + |u.path| + |QueryPart(u)| + 1, |u.fragment.value|)
          else FragmentF !in f)
  {
  }

  /** The slices show the parts, and there are no others. */
  lemma FieldsShowParts(u: Parts)
    ensures var f := Fine(u, Coarse(u), |u.scheme| + 3);
      && Shows(Print(u), f, SchemaF, Some(u.scheme)) && Shows(Print(u), f, UserinfoF, u.userinfo)
      && Shows(Print(u), f, HostF, Some(u.host.s)) && Shows(Print(u), f, PortF, u.port)
      && Shows(Print(u), f, PathF, Some(u.path))
      && Shows(Print(u), f, QueryF, u.query) && Shows(Print(u), f, FragmentF, u.fragment)
  {
    hide Fine, Coarse, Print, Slashed, BeforeHost, BeforePort, BeforePath, QueryPart;
    FieldsAt(u);
    SchemeStands(u);
    HostStands(u);
    TailStands(u);
    if u.userinfo.Some? { UserStands(u); }
    if u.port.Some? { PortStands(u); }
  }

  // CONNECT.

  /** The fields of a host and a port. */
  function ServerFields(u: Parts): Fields
    requires u.port.Some?
  {
    map[HostF := Slice(if u.host.V6Text? then 1 else 0, |u.host.s|),
        PortF := Slice(|HostPart(u.host)| + 1, |u.port.value|)]
  }

  /** The authority form of a CONNECT request, host and port, parses to just these, exactly
      when it is shorter than 65536 octets. */
  lemma ConnectRoundTrip(u: Parts, after: seq<byte>, stale: Slice)
    requires WellFormed(u) && u.userinfo.None? && u.port.Some? && (after != [] ==> !IsNum(after[0]))
    ensures ParseUrl(ServerPart(u), after, true, stale) == Some(Url(ServerFields(u), PortValue(u)))
            <==> |ServerPart(u)| < 0x10000
  {
    hide ScanAll, HostAll, Finish, WellFormed, Print, PortValue, Fine, ServerPart, HostPart;
    var s := ServerPart(u);
    var f: Fields := map[HostF := Slice(0, U16(|s|))];
    ConnectScans(u);
    if |s| < 0x10000 {
      ConnectFields(u, f);
      assert s[0..0 + |s|] == s;
      ParsesAuthority(u, 0, f);
      TextInside(s, after, f[HostF]);
      ConnectFinishes(u, after, Fine(u, f, 0));
    } else {
      HostWithin(TextAt(s + after, f[HostF]), 0, HostBegin(f, f[HostF], false));
      ServerLength(u);
      FinishKeeps(s + after, true);
    }
  }

  lemma FinishKeeps(memory: seq<byte>, isConnect: bool)
    ensures forall f :: Finish(memory, f, isConnect).Some? ==> Finish(memory, f, isConnect).value.f == f
  {
  }

  lemma ServerLength(u: Parts)
    requires u.port.Some?
    ensures |ServerPart(u)| == |HostPart(u.host)| + 1 + |u.port.value|
  {
  }

  /** No field of the second pass reaches past what has been read. */
  lemma {:induction false} HostWithin(text: seq<byte>, p: nat, c: HostScan)
    requires c.HostScan? && PortF in c.f ==> c.f[PortF].off + c.f[PortF].len <= p
    ensures var c' := HostAll(text, p, c);
      c'.HostScan? && PortF in c'.f ==> c'.f[PortF].off + c'.f[PortF].len <= p + |text|
    decreases |text|
  {
    hide HostChar;
    if text != [] { HostWithin(text[1..], p + 1, HostStep(c, text[0], p)); }
  }

  lemma ConnectFields(u: Parts, f: Fields)
    requires u.userinfo.None? && u.port.Some? && f.Keys == {HostF}
    ensures Authority(u) == ServerPart(u) && Fine(u, f, 0) == ServerFields(u)
  {
    hide Print, ServerPart, HostPart;
  }

  lemma ConnectFinishes(u: Parts, after: seq<byte>, g: Fields)
    requires WellFormed(u) && u.port.Some? && (after != [] ==> !IsNum(after[0]))
    requires g.Keys == {HostF, PortF} && g[PortF] == Slice(|HostPart(u.host)| + 1, |u.port.value|)
    ensures AllDigits(u.port.value) && Finish(ServerPart(u) + after, g, true) == Some(Url(g, PortValue(u)))
  {
    hide Print, HostPart, Finish, PortValue;
    var before := HostPart(u.host) + [':'];
    assert ServerPart(u) + after == before + (u.port.value + after);
    FinishesWith(u, before, after, g, true);
  }

  lemma ConnectScans(u: Parts)
    requires WellFormed(u) && u.userinfo.None?
    ensures var c := ScanAll(ServerPart(u), 0, ScanStart(true));
      c.Scan? && c.f == map[HostF := Slice(0, U16(|ServerPart(u)|))] && !c.at
    ensures u.port.Some? ==> AllDigits(u.port.value)
  {
    hide Runs, P.ParseUrlChar, ScanStep, ScanAll, Print, PathOff, FragmentOff, WellFormed, ServerPart;
    PortDigits(u);
    PartRuns(u);
    var s := ServerPart(u);
    var f: Fields := map[HostF := Slice(0, U16(|s|))];
    assert s + [] == s;
    Enter(s, [], 0, ScanStart(true), P.Server, HostF);
    assert map[][HostF := Slice(0, U16(|s|))] == f;
    ScanNone(|s|, Scan(P.Server, Some(HostF), f, false));
  }
}
