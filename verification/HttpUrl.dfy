/** URL splitting: `http_parser_parse_url` and `http_parse_host`, and that they take a
    printed URL apart again. */
module HttpUrl {
  import opened Basics
  import opened HttpSyntax
  import P = HttpParser

  datatype Field = SchemaF | HostF | PortF | PathF | QueryF | FragmentF | UserinfoF

  /** Offset and length, both 16 bits wide in the result. */
  datatype Slice = Slice(off: nat, len: nat)

  /** The fields that are set. */
  type Fields = map<Field, Slice>

  function U16(n: nat): nat {
    n % 0x10000
  }

  // The pass over the URL.

  /** The field a state belongs to; delimiter states belong to none. */
  function FieldOf(s: P.State): Option<Field> {
    if s.Schema? then Some(SchemaF)
    else if s.Server? || s.ServerWithAt? then Some(HostF)
    else if s.Path? then Some(PathF)
    else if s.Query? then Some(QueryF)
    else if s.Fragment? then Some(FragmentF)
    else None
  }

  datatype Scan = Failed | Scan(s: P.State, prev: Option<Field>, f: Fields, at: bool)

  /** One octet more for a field, or a new field at `p`. */
  function Extended(f: Fields, same: bool, uf: Field, p: nat): Fields {
    if same && uf in f then f[uf := Slice(f[uf].off, U16(f[uf].len + 1))] else f[uf := Slice(U16(p), 1)]
  }

  function ScanStep(c: Scan, ch: byte, p: nat): Scan {
    if c.Failed? then Failed
    else
      var s := P.ParseUrlChar(c.s, ch);
      if s.Dead? then Failed
      else if FieldOf(s).None? then c.(s := s)
      else
        var uf := FieldOf(s).value;
        Scan(s, Some(uf), Extended(c.f, c.prev == Some(uf), uf, p), c.at || s.ServerWithAt?)
  }

  function ScanAll(rest: seq<byte>, p: nat, c: Scan): Scan
    decreases |rest|
  {
    if rest == [] then c else ScanAll(rest[1..], p + 1, ScanStep(c, rest[0], p))
  }

  /** No field reaches past what has been read. */
  predicate Within(c: Scan, p: nat) {
    c.Scan? ==> forall uf <- c.f :: c.f[uf].off + c.f[uf].len <= p
  }

  lemma {:induction false} ScanFits(rest: seq<byte>, p: nat, c: Scan)
    requires Within(c, p)
    ensures Within(ScanAll(rest, p, c), p + |rest|)
    decreases |rest|
  {
    if rest != [] {
      assert Within(ScanStep(c, rest[0], p), p + 1) by {
        hide P.ParseUrlChar;
      }
      ScanFits(rest[1..], p + 1, ScanStep(c, rest[0], p));
    }
  }

  function ScanStart(isConnect: bool): Scan {
    Scan(if isConnect then P.ServerStart else P.SpacesBeforeUrl, None, map[], false)
  }

  // The pass over the authority.

  datatype HostState =
    HostDead | UserinfoStart | Userinfo | HostStart | V6Start | Name | V6 | V6End | PortStart | Port

  function HostChar(s: HostState, ch: byte): HostState {
    if s.UserinfoStart? || s.Userinfo? then
      if ch == '@' then HostStart else if IsUserinfoChar(ch) then Userinfo else HostDead
    else if s.HostStart? then
      if ch == '[' then V6Start else if IsHostChar(ch) then Name else HostDead
    else if s.Name? then
      if IsHostChar(ch) then Name else if ch == ':' then PortStart else HostDead
    else if s.V6End? then if ch == ':' then PortStart else HostDead
    else if s.V6? then if ch == ']' then V6End else if IsHex(ch) || ch == ':' then V6 else HostDead
    else if s.V6Start? then if IsHex(ch) || ch == ':' then V6 else HostDead
    else if s.Port? || s.PortStart? then if IsNum(ch) then Port else HostDead
    else HostDead
  }

  datatype HostScan = HostFailed | HostScan(s: HostState, f: Fields)

  /** The host field keeps its count from zero and moves to where the host starts. */
  function HostExtended(f: Fields, same: bool, p: nat): Fields {
    var h := if HostF in f then f[HostF] else Slice(0, 0);
    f[HostF := Slice(if same then h.off else U16(p), U16(h.len + 1))]
  }

  function HostStep(c: HostScan, ch: byte, p: nat): HostScan {
    if c.HostFailed? then c
    else
      var s := HostChar(c.s, ch);
      if s.HostDead? then HostFailed
      else if s.Name? || s.V6? then HostScan(s, HostExtended(c.f, c.s == s, p))
      else if s.Port? then HostScan(s, Extended(c.f, c.s == s, PortF, p))
      else if s.Userinfo? then HostScan(s, Extended(c.f, c.s == s, UserinfoF, p))
      else HostScan(s, c.f)
  }

  function HostAll(rest: seq<byte>, p: nat, c: HostScan): HostScan
    decreases |rest|
  {
    if rest == [] then c else HostAll(rest[1..], p + 1, HostStep(c, rest[0], p))
  }

  predicate HostEndsWell(s: HostState) {
    s.Name? || s.V6End? || s.Port?
  }

  /** The slice the authority is read from. It is never cleared, so that without a host
      in the URL the one left from an earlier use counts. */
  function HostPlace(f: Fields, stale: Slice): Slice {
    if HostF in f then f[HostF] else stale
  }

  function HostBegin(f: Fields, h: Slice, at: bool): HostScan {
    HostScan(if at then UserinfoStart else HostStart, f[HostF := h.(len := 0)])
  }

  /** What stands in a slice of memory; behind the known memory are zeros. */
  function TextAt(memory: seq<byte>, h: Slice): seq<byte> {
    seq(h.len, i requires 0 <= i < h.len => if h.off + i < |memory| then memory[h.off + i] else '\0')
  }

  lemma TextInside(buf: seq<byte>, after: seq<byte>, h: Slice)
    requires h.off + h.len <= |buf|
    ensures TextAt(buf + after, h) == buf[h.off..h.off + h.len]
  {
  }

  /** The bit for the host stays as the first pass left it. */
  function ParseHost(memory: seq<byte>, f: Fields, h: Slice, at: bool): Option<Fields> {
    var c := HostAll(TextAt(memory, h), h.off, HostBegin(f, h, at));
    if c.HostFailed? || !HostEndsWell(c.s) then None else Some(if HostF in f then c.f else c.f - {HostF})
  }

  // The result.

  function Digits(s: seq<byte>): (d: seq<byte>)
    ensures AllDigits(d)
  {
    if s != [] && IsNum(s[0]) then [s[0]] + Digits(s[1..]) else []
  }

  datatype Url = Url(f: Fields, port: nat)

  /** What is wrong or right with the fields: CONNECT takes host and port only, and a
      port must fit 16 bits. `memory` is the buffer and what follows it. */
  function Finish(memory: seq<byte>, f: Fields, isConnect: bool): Option<Url> {
    if isConnect && f.Keys != {HostF, PortF} then None
    else if PortF !in f then Some(Url(f, 0))
    else
      var v := Decimal(Digits(if f[PortF].off <= |memory| then memory[f[PortF].off..] else []));
      if v > 0xffff then None else Some(Url(f, v))
  }

  /** `http_parser_parse_url`; `after` is what follows the buffer in memory, and `stale` the
      host slice that the result structure held before. */
  function ParseUrl(buf: seq<byte>, after: seq<byte>, isConnect: bool, stale: Slice): Option<Url> {
    var c := ScanAll(buf, 0, ScanStart(isConnect));
    if c.Failed? then None
    else if SchemaF !in c.f && HostF !in c.f then Finish(buf + after, c.f, isConnect)
    else
      var f := ParseHost(buf + after, c.f, HostPlace(c.f, stale), c.at);
      if f.None? then None else Finish(buf + after, f.value, isConnect)
  }

  /** The loop of `http_parse_host`. */
  method HostLoop(memory: seq<byte>, f: Fields, h: Slice, at: bool) returns (r: Option<Fields>)
    ensures r == ParseHost(memory, f, h, at)
  {
    hide HostStep;
    var c := HostBegin(f, h, at);
    ghost var c0 := c;
    var text, i := TextAt(memory, h), 0;
    assert text[0..] == text;
    while i < |text|
      invariant 0 <= i <= |text| && HostAll(text, h.off, c0) == HostAll(text[i..], h.off + i, c)
    {
      assert text[i..][1..] == text[i + 1..];
      c := HostStep(c, text[i], h.off + i);
      i := i + 1;
    }
    assert text[i..] == [];
    if c.HostFailed? || !HostEndsWell(c.s) { return None; }
    return Some(if HostF in f then c.f else c.f - {HostF});
  }

  /** The loop of `http_parser_parse_url`. */
  method UrlLoop(buf: seq<byte>, after: seq<byte>, isConnect: bool, stale: Slice) returns (r: Option<Url>)
    ensures r == ParseUrl(buf, after, isConnect, stale)
  {
    hide ScanStep, Finish, ParseHost;
    var c, p := ScanStart(isConnect), 0;
    assert buf[0..] == buf;
    while p < |buf|
      invariant 0 <= p <= |buf| && ScanAll(buf, 0, ScanStart(isConnect)) == ScanAll(buf[p..], p, c)
    {
      assert buf[p..][1..] == buf[p + 1..];
      c := ScanStep(c, buf[p], p);
      p := p + 1;
    }
    if c.Failed? { return None; }
    var f := c.f;
    if SchemaF in f || HostF in f {
      var g := HostLoop(buf + after, f, HostPlace(f, stale), c.at);
      if g.None? { return None; }
      f := g.value;
    }
    r := Finish(buf + after, f, isConnect);
  }

  // What is left from an earlier use.

  /** The first pass has no field but its own five, and an `@` comes with a host. */
  predicate Coherent(c: Scan) {
    c.Scan? ==> PortF !in c.f && UserinfoF !in c.f && (c.at ==> HostF in c.f)
  }

  /** The scheme can no longer begin. */
  predicate PastScheme(c: Scan) {
    c.Scan? ==> SchemaF !in c.f && !c.s.SpacesBeforeUrl? && !c.s.Schema?
  }

  lemma {:induction false} ScanCoherent(rest: seq<byte>, p: nat, c: Scan)
    requires Coherent(c)
    ensures Coherent(ScanAll(rest, p, c))
    ensures PastScheme(c) ==> PastScheme(ScanAll(rest, p, c))
    decreases |rest|
  {
    if rest != [] {
      ScanCoherent(rest[1..], p + 1, ScanStep(c, rest[0], p));
    }
  }

  /** A scheme in the result came from a letter at the start of something else than CONNECT. */
  lemma SchemeBegins(buf: seq<byte>, isConnect: bool)
    ensures var c := ScanAll(buf, 0, ScanStart(isConnect));
      c.Scan? && SchemaF in c.f ==> !isConnect && buf != [] && IsAlpha(buf[0])
  {
    if buf != [] {
      var c := ScanStep(ScanStart(isConnect), buf[0], 0);
      ScanCoherent(buf[1..], 1, c);
      assert isConnect || !IsAlpha(buf[0]) ==> PastScheme(c);
    }
  }

  /** The URL has a scheme and no host. */
  predicate SchemeOnly(buf: seq<byte>, isConnect: bool) {
    var c := ScanAll(buf, 0, ScanStart(isConnect));
    c.Scan? && SchemaF in c.f && HostF !in c.f
  }

  lemma OneLetter(memory: seq<byte>, f: Fields)
    requires memory != [] && IsAlpha(memory[0]) && HostF !in f
    ensures ParseHost(memory, f, Slice(0, 1), false) == Some(f)
  {
    var text := TextAt(memory, Slice(0, 1));
    assert text == [memory[0]] && text[1..] == [];
    var g: Fields := f[HostF := Slice(0, 0)];
    var c := HostStep(HostScan(HostStart, g), memory[0], 0);
    assert c.HostScan? && c.s.Name? && c.f == g[HostF := Slice(0, 1)];
    assert HostAll(text, 0, HostScan(HostStart, g)) == c;
    assert c.f - {HostF} == f;
  }

  lemma NoLetter(memory: seq<byte>, f: Fields)
    ensures ParseHost(memory, f, Slice(0, 0), false) == None
  {
    assert TextAt(memory, Slice(0, 0)) == [];
  }

  /** Without a host but with a scheme the outcome is decided by the slice that the result
      structure held before: an empty one fails, one over the first octet succeeds. */
  lemma StaleDecides(buf: seq<byte>, after: seq<byte>, isConnect: bool)
    requires SchemeOnly(buf, isConnect)
    ensures ParseUrl(buf, after, isConnect, Slice(0, 0)) == None
    ensures ParseUrl(buf, after, isConnect, Slice(0, 1)).Some?
  {
    hide HostAll, ParseHost;
    var c := ScanAll(buf, 0, ScanStart(isConnect));
    SchemeBegins(buf, isConnect);
    ScanCoherent(buf, 0, ScanStart(isConnect));
    hide ScanAll;
    OneLetter(buf + after, c.f);
    NoLetter(buf + after, c.f);
  }

  /** The result does not depend on what the structure held before exactly when the URL is
      not one with a scheme and no host. */
  lemma StaleExact(buf: seq<byte>, after: seq<byte>, isConnect: bool)
    ensures (forall g, h :: ParseUrl(buf, after, isConnect, g) == ParseUrl(buf, after, isConnect, h))
            <==> !SchemeOnly(buf, isConnect)
  {
    hide ScanAll, ParseHost, Finish;
    if SchemeOnly(buf, isConnect) {
      StaleDecides(buf, after, isConnect);
    }
  }

  /** Such a URL. */
  lemma SchemeAlone(after: seq<byte>)
    ensures ParseUrl("http", after, false, Slice(0, 0)) == None
    ensures ParseUrl("http", after, false, Slice(0, 1)) == Some(Url(map[SchemaF := Slice(0, 4)], 0))
  {
    var c := Scan(P.Schema, Some(SchemaF), map[SchemaF := Slice(0, 4)], false);
    SchemeScans(c);
    hide ScanAll, HostAll, ParseHost;
    StaleDecides("http", after, false);
    OneLetter("http" + after, c.f);
  }

  lemma SchemeScans(c: Scan)
    requires c == Scan(P.Schema, Some(SchemaF), map[SchemaF := Slice(0, 4)], false)
    ensures ScanAll("http", 0, ScanStart(false)) == c
  {
    hide ScanStep, Runs, P.ParseUrlChar;
    assert "http" + [] == "http";
    SchemeChars("http");
    Enter("http", [], 0, ScanStart(false), P.Schema, SchemaF);
    assert map[][SchemaF := Slice(0, 4)] == c.f;
  }

  // Runs.

  lemma Skip(ch: byte, rest: seq<byte>, p: nat, c: Scan)
    requires c.Scan? && !P.ParseUrlChar(c.s, ch).Dead? && FieldOf(P.ParseUrlChar(c.s, ch)).None?
    ensures ScanAll([ch] + rest, p, c) == ScanAll(rest, p + 1, c.(s := P.ParseUrlChar(c.s, ch)))
  {
    assert ([ch] + rest)[1..] == rest;
  }

  predicate Stays(st: P.State, run: seq<byte>) {
    forall ch <- run :: P.ParseUrlChar(st, ch) == st
  }

  /** From `from`, the octets of `run` lead to `st` and stay there. */
  predicate Runs(from: P.State, st: P.State, run: seq<byte>) {
    run != [] && P.ParseUrlChar(from, run[0]) == st && Stays(st, run[1..])
  }

  /** The scan inside a field. */
  predicate Inside(c: Scan, uf: Field) {
    c.Scan? && FieldOf(c.s) == Some(uf) && c.prev == Some(uf) && uf in c.f && !c.s.ServerWithAt? && !c.s.Dead?
  }

  /** The same with `n` more octets in the field, of which the length counts 16 bits. */
  function Longer(c: Scan, uf: Field, n: nat): Scan
    requires Inside(c, uf)
  {
    c.(f := c.f[uf := Slice(c.f[uf].off, U16(c.f[uf].len + n))])
  }

  lemma U16Sum(a: nat, b: nat)
    ensures U16(U16(a) + b) == U16(a + b)
  {
  }

  lemma LongerStep(c: Scan, ch: byte, p: nat, uf: Field, n: nat)
    requires Inside(c, uf) && P.ParseUrlChar(c.s, ch) == c.s
    ensures ScanStep(c, ch, p) == Longer(c, uf, 1) && Inside(Longer(c, uf, 1), uf)
    ensures Longer(Longer(c, uf, 1), uf, n) == Longer(c, uf, n + 1)
  {
    hide P.ParseUrlChar, U16;
    var off, len := c.f[uf].off, c.f[uf].len;
    U16Sum(len + 1, n);
    assert c.f[uf := Slice(off, U16(len + 1))][uf := Slice(off, U16(len + 1 + n))] == c.f[uf := Slice(off, U16(len + 1 + n))];
  }

  lemma LongerNone(c: Scan, uf: Field)
    requires Inside(c, uf) && c.f[uf].len < 0x10000
    ensures Longer(c, uf, 0) == c
  {
    assert c.f[uf := Slice(c.f[uf].off, U16(c.f[uf].len + 0))] == c.f;
  }

  lemma {:induction false} Continue(run: seq<byte>, rest: seq<byte>, p: nat, c: Scan, uf: Field)
    requires Inside(c, uf) && Stays(c.s, run) && c.f[uf].len < 0x10000
    ensures ScanAll(run + rest, p, c) == ScanAll(rest, p + |run|, Longer(c, uf, |run|))
    decreases |run|
  {
    hide P.ParseUrlChar, ScanStep;
    if run == [] {
      assert run + rest == rest;
      LongerNone(c, uf);
    } else {
      assert (run + rest)[1..] == run[1..] + rest;
      LongerStep(c, run[0], p, uf, |run| - 1);
      Continue(run[1..], rest, p + 1, Longer(c, uf, 1), uf);
    }
  }

  lemma FirstOctet(c: Scan, ch: byte, p: nat, st: P.State, uf: Field)
    requires c.Scan? && P.ParseUrlChar(c.s, ch) == st && FieldOf(st) == Some(uf) && c.prev != Some(uf)
    requires !st.ServerWithAt? && !st.Dead?
    ensures ScanStep(c, ch, p) == Scan(st, Some(uf), c.f[uf := Slice(U16(p), 1)], c.at)
  {
    hide P.ParseUrlChar;
  }

  /** A field is read from its first octet to its last. */
  lemma Enter(run: seq<byte>, rest: seq<byte>, p: nat, c: Scan, st: P.State, uf: Field)
    requires c.Scan? && Runs(c.s, st, run)
    requires FieldOf(st) == Some(uf) && c.prev != Some(uf) && !st.ServerWithAt? && !st.Dead?
    ensures ScanAll(run + rest, p, c) ==
      ScanAll(rest, p + |run|, Scan(st, Some(uf), c.f[uf := Slice(U16(p), U16(|run|))], c.at))
  {
    hide P.ParseUrlChar, Stays, U16;
    assert (run + rest)[1..] == run[1..] + rest;
    var c' := Scan(st, Some(uf), c.f[uf := Slice(U16(p), 1)], c.at);
    FirstOctet(c, run[0], p, st, uf);
    hide ScanStep;
    Continue(run[1..], rest, p + 1, c', uf);
    assert c.f[uf := Slice(U16(p), 1)][uf := Slice(U16(p), U16(|run|))] == c.f[uf := Slice(U16(p), U16(|run|))];
  }

  /** A path alone: its slice shows the path exactly when that is shorter than 65536 octets. */
  lemma PathExact(t: seq<byte>, after: seq<byte>, stale: Slice)
    requires t != [] && t[0] == '/' && forall c <- t :: IsUrlChar(c)
    ensures ParseUrl(t, after, false, stale) == Some(Url(map[PathF := Slice(0, U16(|t|))], 0))
    ensures U16(|t|) == |t| <==> |t| < 0x10000
  {
    PathChars(t);
    assert Runs(P.SpacesBeforeUrl, P.Path, t);
    hide P.ParseUrlChar, Runs, ScanStep;
    assert t + [] == t;
    Enter(t, [], 0, ScanStart(false), P.Path, PathF);
    assert map[][PathF := Slice(0, U16(|t|))] == map[PathF := Slice(0, U16(|t|))];
  }

  // Printed URLs.

  datatype HostText = NameText(s: seq<byte>) | V6Text(s: seq<byte>)

  datatype Parts = Parts(scheme: seq<byte>, userinfo: Option<seq<byte>>, host: HostText, port: Option<seq<byte>>,
                         path: seq<byte>, query: Option<seq<byte>>, fragment: Option<seq<byte>>)

  function UserPart(u: Parts): seq<byte> {
    if u.userinfo.Some? then u.userinfo.value + ['@'] else []
  }

  function HostPart(h: HostText): seq<byte> {
    if h.NameText? then h.s else ['['] + h.s + [']']
  }

  function PortPart(u: Parts): seq<byte> {
    if u.port.Some? then [':'] + u.port.value else []
  }

  function ServerPart(u: Parts): seq<byte> {
    HostPart(u.host) + PortPart(u)
  }

  function Authority(u: Parts): seq<byte> {
    UserPart(u) + ServerPart(u)
  }

  function FragmentPart(u: Parts): seq<byte> {
    if u.fragment.Some? then ['#'] + u.fragment.value else []
  }

  function QueryPart(u: Parts): seq<byte> {
    if u.query.Some? then ['?'] + u.query.value else []
  }

  function Print(u: Parts): seq<byte> {
    u.scheme + ([':', '/', '/'] + (Authority(u) + (u.path + (QueryPart(u) + FragmentPart(u)))))
  }

  /** The grammar of each part, over the strict character classes. */
  predicate WellFormed(u: Parts) {
    && u.scheme != [] && (forall c <- u.scheme :: IsAlpha(c))
    && (u.userinfo.Some? ==> u.userinfo.value != [] && forall c <- u.userinfo.value :: IsUserinfoChar(c))
    && u.host.s != [] && (forall c <- u.host.s :: if u.host.NameText? then IsHostChar(c) else IsHex(c) || c == ':')
    && (u.port.Some? ==> u.port.value != [] && AllDigits(u.port.value) && Decimal(u.port.value) <= 0xffff)
    && u.path != [] && u.path[0] == '/' && (forall c <- u.path :: IsUrlChar(c))
    && (u.query.Some? ==> u.query.value != [] && forall c <- u.query.value :: IsUrlChar(c) || c == '?')
    && (u.fragment.Some? ==> u.fragment.value != [] && u.fragment.value[0] != '#')
    && (u.fragment.Some? ==> forall c <- u.fragment.value :: IsUrlChar(c) || c == '?' || c == '#')
  }

  // Where the parts are.

  function ServerOff(u: Parts): nat {
    |u.scheme| + 3 + |UserPart(u)|
  }

  function PathOff(u: Parts): nat {
    ServerOff(u) + |ServerPart(u)|
  }

  function FragmentOff(u: Parts): nat {
    PathOff(u) + |u.path| + |QueryPart(u)|
  }

  /** The fields after the first pass, with the whole authority as host. */
  function Coarse(u: Parts): Fields {
    var f := map[SchemaF := Slice(0, |u.scheme|)][HostF := Slice(|u.scheme| + 3, |Authority(u)|)]
      [PathF := Slice(PathOff(u), |u.path|)];
    var g := if u.query.Some? then f[QueryF := Slice(PathOff(u) + |u.path| + 1, |u.query.value|)] else f;
    if u.fragment.Some? then g[FragmentF := Slice(FragmentOff(u) + 1, |u.fragment.value|)] else g
  }

  /** Offset and length as the result has room for them. */
  function Wrap(h: Slice): Slice {
    Slice(U16(h.off), U16(h.len))
  }

  function Wraps(f: Fields): Fields {
    map uf | uf in f :: Wrap(f[uf])
  }

  /** The fields with the authority at `p` taken apart. */
  function Fine(u: Parts, f: Fields, p: nat): Fields {
    var server := p + |UserPart(u)|;
    var g := if u.userinfo.Some? then f[UserinfoF := Slice(p, |u.userinfo.value|)] else f;
    var h := g[HostF := Slice(server + if u.host.V6Text? then 1 else 0, |u.host.s|)];
    if u.port.Some? then h[PortF := Slice(server + |HostPart(u.host)| + 1, |u.port.value|)] else h
  }

  // The first pass.

  lemma Sizes(u: Parts)
    ensures PathOff(u) == |u.scheme| + 3 + |Authority(u)| && PathOff(u) + |u.path| + |QueryPart(u)| == FragmentOff(u)
    ensures FragmentOff(u) + |FragmentPart(u)| == |Print(u)|
  {
  }

  lemma SchemeChars(s: seq<byte>)
    requires s != [] && forall c <- s :: IsAlpha(c)
    ensures Runs(P.SpacesBeforeUrl, P.Schema, s)
  {
    assert IsAlpha(s[0]);
    forall c <- s[1..] ensures P.ParseUrlChar(P.Schema, c) == P.Schema { assert c in s; }
  }

  lemma PathChars(s: seq<byte>)
    requires s != [] && s[0] == '/' && forall c <- s :: IsUrlChar(c)
    ensures Runs(P.Server, P.Path, s)
  {
    forall c <- s[1..] ensures P.ParseUrlChar(P.Path, c) == P.Path { assert c in s; }
  }

  lemma QueryChars(s: seq<byte>)
    requires s != [] && forall c <- s :: IsUrlChar(c) || c == '?'
    ensures Runs(P.QueryStart, P.Query, s)
  {
    assert s[0] in s;
    forall c <- s[1..] ensures P.ParseUrlChar(P.Query, c) == P.Query { assert c in s; }
  }

  lemma FragmentChars(s: seq<byte>)
    requires s != [] && s[0] != '#' && forall c <- s :: IsUrlChar(c) || c == '?' || c == '#'
    ensures Runs(P.FragmentStart, P.Fragment, s)
  {
    assert s[0] in s;
    forall c <- s[1..] ensures P.ParseUrlChar(P.Fragment, c) == P.Fragment { assert c in s; }
  }

  lemma SchemeDelimiters()
    ensures P.ParseUrlChar(P.Schema, ':') == P.SchemaSlash && P.ParseUrlChar(P.SchemaSlash, '/') == P.SchemaSlashSlash
    ensures P.ParseUrlChar(P.SchemaSlashSlash, '/') == P.ServerStart
  {
  }

  lemma ScanSlashes(rest: seq<byte>, p: nat, f: Fields)
    ensures ScanAll([':', '/', '/'] + rest, p, Scan(P.Schema, Some(SchemaF), f, false)) ==
      ScanAll(rest, p + 3, Scan(P.ServerStart, Some(SchemaF), f, false))
  {
    hide P.ParseUrlChar, ScanStep, ScanAll;
    SchemeDelimiters();
    Skip(':', ['/', '/'] + rest, p, Scan(P.Schema, Some(SchemaF), f, false));
    assert [':', '/', '/'] + rest == [':'] + (['/', '/'] + rest) && ['/', '/'] + rest == ['/'] + (['/'] + rest);
    Skip('/', ['/'] + rest, p + 1, Scan(P.SchemaSlash, Some(SchemaF), f, false));
    Skip('/', rest, p + 2, Scan(P.SchemaSlashSlash, Some(SchemaF), f, false));
  }

  /** Every part is a run of its field's state. */
  lemma PartRuns(u: Parts)
    requires WellFormed(u)
    ensures Runs(P.SpacesBeforeUrl, P.Schema, u.scheme) && Runs(P.Server, P.Path, u.path)
    ensures ServerText(ServerPart(u)) && Runs(P.ServerStart, P.Server, ServerPart(u))
    ensures u.userinfo.Some? ==> ServerText(u.userinfo.value)
    ensures u.query.Some? ==> Runs(P.QueryStart, P.Query, u.query.value)
    ensures u.fragment.Some? ==> Runs(P.FragmentStart, P.Fragment, u.fragment.value)
  {
    hide P.ParseUrlChar, Runs, Print;
    SchemeChars(u.scheme);
    PathChars(u.path);
    ServerPartText(u);
    ServerStays(ServerPart(u));
    if u.query.Some? { QueryChars(u.query.value); }
    if u.fragment.Some? { FragmentChars(u.fragment.value); }
  }

  lemma ScanScheme(u: Parts, rest: seq<byte>)
    requires WellFormed(u)
    ensures ScanAll(u.scheme + ([':', '/', '/'] + rest), 0, ScanStart(false)) ==
      ScanAll(rest, |u.scheme| + 3, Scan(P.ServerStart, Some(SchemaF), map[SchemaF := Slice(0, U16(|u.scheme|))], false))
  {
    hide P.ParseUrlChar, Runs, ScanStep, ScanAll, Print, Authority, WellFormed;
    PartRuns(u);
    SchemeDelimiters();
    var run, f: Fields := u.scheme, map[SchemaF := Slice(0, U16(|u.scheme|))];
    Enter(run, [':', '/', '/'] + rest, 0, ScanStart(false), P.Schema, SchemaF);
    assert map[][SchemaF := Slice(0, U16(|run|))] == f;
    ScanSlashes(rest, |run|, f);
  }

  predicate ServerText(s: seq<byte>) {
    s != [] && forall c <- s :: IsUserinfoChar(c) || c == '[' || c == ']'
  }

  lemma ServerStays(s: seq<byte>)
    requires ServerText(s)
    ensures Runs(P.ServerStart, P.Server, s) && Runs(P.ServerWithAt, P.Server, s)
  {
    assert s[0] in s;
    forall c <- s[1..] ensures P.ParseUrlChar(P.Server, c) == P.Server { assert c in s; }
  }

  lemma {:induction false} ServerPartText(u: Parts)
    requires WellFormed(u)
    ensures ServerText(ServerPart(u))
  {
    forall c <- ServerPart(u) ensures IsUserinfoChar(c) || c == '[' || c == ']' {
      if c in u.host.s {
      } else if u.port.Some? && c in u.port.value {
        assert IsNum(c);
      } else {
        assert c == '[' || c == ']' || c == ':';
      }
    }
  }

  lemma AtSteps(c: Scan, ch: byte, p: nat)
    requires c.Scan? && c.s.Server? && c.prev == Some(HostF) && HostF in c.f
    requires P.ParseUrlChar(P.ServerWithAt, ch) == P.Server
    ensures var h := c.f[HostF];
      ScanStep(ScanStep(c, '@', p), ch, p + 1) == Scan(P.Server, Some(HostF), c.f[HostF := Slice(h.off, U16(h.len + 2))], true)
  {
    var h := c.f[HostF];
    var f1 := c.f[HostF := Slice(h.off, U16(h.len + 1))];
    assert ScanStep(c, '@', p) == Scan(P.ServerWithAt, Some(HostF), f1, true);
    hide U16;
    U16Sum(h.len + 1, 1);
    assert f1[HostF := Slice(h.off, U16(h.len + 2))] == c.f[HostF := Slice(h.off, U16(h.len + 2))];
  }

  /** Behind the `@`. */
  lemma ScanAfterAt(run: seq<byte>, rest: seq<byte>, p: nat, c: Scan)
    requires ServerText(run) && c.Scan? && c.s.Server? && c.prev == Some(HostF) && HostF in c.f
    ensures ScanAll(['@'] + (run + rest), p, c) ==
      ScanAll(rest, p + 1 + |run|, Scan(P.Server, Some(HostF),
        c.f[HostF := Slice(c.f[HostF].off, U16(c.f[HostF].len + 1 + |run|))], true))
  {
    hide P.ParseUrlChar, ScanStep, ServerText, Stays;
    var h := c.f[HostF];
    ServerStays(run);
    AtSteps(c, run[0], p);
    assert (['@'] + (run + rest))[1..] == run + rest;
    assert (run + rest)[1..] == run[1..] + rest;
    var f2 := c.f[HostF := Slice(h.off, U16(h.len + 2))];
    Continue(run[1..], rest, p + 2, Scan(P.Server, Some(HostF), f2, true), HostF);
    U16Sum(h.len + 2, |run| - 1);
    assert f2[HostF := Slice(h.off, U16(h.len + 1 + |run|))] == c.f[HostF := Slice(h.off, U16(h.len + 1 + |run|))];
  }

  lemma ScanWithUser(who: seq<byte>, run: seq<byte>, rest: seq<byte>, p: nat, c: Scan)
    requires ServerText(who) && ServerText(run) && c.Scan? && c.s.ServerStart? && c.prev != Some(HostF)
    ensures ScanAll(who + (['@'] + (run + rest)), p, c) ==
      ScanAll(rest, p + |who| + 1 + |run|,
              Scan(P.Server, Some(HostF), c.f[HostF := Slice(U16(p), U16(|who| + 1 + |run|))], true))
  {
    hide P.ParseUrlChar, Runs, ScanStep, ScanAll, ServerText, U16;
    ServerStays(who);
    Enter(who, ['@'] + (run + rest), p, c, P.Server, HostF);
    var c1 := Scan(P.Server, Some(HostF), c.f[HostF := Slice(U16(p), U16(|who|))], c.at);
    ScanAfterAt(run, rest, p + |who|, c1);
    U16Sum(|who|, 1 + |run|);
    var all := U16(|who| + 1 + |run|);
    assert c1.f[HostF := Slice(U16(p), all)] == c.f[HostF := Slice(U16(p), all)];
  }

  lemma TailDelimiters()
    ensures P.ParseUrlChar(P.Path, '?') == P.QueryStart
    ensures P.ParseUrlChar(P.Path, '#') == P.FragmentStart && P.ParseUrlChar(P.Query, '#') == P.FragmentStart
  {
  }

  lemma ScanAuthority(u: Parts, rest: seq<byte>, c: Scan)
    requires WellFormed(u) && c.Scan? && c.s.ServerStart? && c.prev != Some(HostF) && !c.at
    ensures ScanAll(Authority(u) + rest, |u.scheme| + 3, c) ==
      ScanAll(rest, PathOff(u), Scan(P.Server, Some(HostF), c.f[HostF := Wrap(Slice(|u.scheme| + 3, |Authority(u)|))], u.userinfo.Some?))
  {
    hide P.ParseUrlChar, Runs, ScanStep, ScanAll, Print, WellFormed, ServerPart, ServerText, FragmentOff, U16;
    var p, run := |u.scheme| + 3, ServerPart(u);
    PartRuns(u);
    Sizes(u);
    if u.userinfo.Some? {
      ScanWithUser(u.userinfo.value, run, rest, p, c);
      assert Authority(u) + rest == u.userinfo.value + (['@'] + (run + rest));
    } else {
      assert Authority(u) == run;
      Enter(run, rest, p, c, P.Server, HostF);
    }
  }

  lemma ScanPath(u: Parts, rest: seq<byte>, c: Scan)
    requires WellFormed(u) && c.Scan? && c.s.Server? && c.prev == Some(HostF)
    ensures ScanAll(u.path + rest, PathOff(u), c) ==
      ScanAll(rest, PathOff(u) + |u.path|, Scan(P.Path, Some(PathF), c.f[PathF := Wrap(Slice(PathOff(u), |u.path|))], c.at))
  {
    hide P.ParseUrlChar, Runs, ScanStep, ScanAll, Print, WellFormed, PathOff, U16;
    PartRuns(u);
    Enter(u.path, rest, PathOff(u), c, P.Path, PathF);
  }

  lemma ScanQuery(u: Parts, rest: seq<byte>, c: Scan)
    requires WellFormed(u) && u.query.Some? && c.Scan? && c.s.Path? && c.prev == Some(PathF)
    ensures var p, q := PathOff(u) + |u.path|, u.query.value;
      ScanAll((['?'] + q) + rest, p, c) ==
        ScanAll(rest, p + 1 + |q|, Scan(P.Query, Some(QueryF), c.f[QueryF := Wrap(Slice(p + 1, |q|))], c.at))
  {
    hide P.ParseUrlChar, Runs, ScanStep, ScanAll, Print, WellFormed, PathOff, U16;
    var p, q := PathOff(u) + |u.path|, u.query.value;
    PartRuns(u);
    TailDelimiters();
    assert (['?'] + q) + rest == ['?'] + (q + rest);
    Skip('?', q + rest, p, c);
    Enter(q, rest, p + 1, c.(s := P.QueryStart), P.Query, QueryF);
  }

  lemma ScanFragment(u: Parts, c: Scan)
    requires WellFormed(u) && u.fragment.Some? && c.Scan? && (c.s.Path? || c.s.Query?) && c.prev != Some(FragmentF)
    ensures var p, q := FragmentOff(u), u.fragment.value;
      ScanAll(['#'] + q, p, c) == Scan(P.Fragment, Some(FragmentF), c.f[FragmentF := Wrap(Slice(p + 1, |q|))], c.at)
  {
    hide P.ParseUrlChar, Runs, ScanStep, ScanAll, Print, WellFormed, FragmentOff, U16;
    var p, q := FragmentOff(u), u.fragment.value;
    PartRuns(u);
    TailDelimiters();
    ScanNone(p + 1 + |q|, Scan(P.Fragment, Some(FragmentF), c.f[FragmentF := Wrap(Slice(p + 1, |q|))], c.at));
    Skip('#', q, p, c);
    assert q + [] == q;
    Enter(q, [], p + 1, c.(s := P.FragmentStart), P.Fragment, FragmentF);
  }

  lemma ScanNone(p: nat, c: Scan)
    ensures ScanAll([], p, c) == c
  {
  }

  /** The first pass over a printed URL of any length finds every part, with the offsets
      and lengths that the result has room for. */
  lemma ScanPrinted(u: Parts)
    requires WellFormed(u)
    ensures var c := ScanAll(Print(u), 0, ScanStart(false)); c.Scan? && c.f == Wraps(Coarse(u)) && c.at == u.userinfo.Some?
  {
    hide ScanAll, P.ParseUrlChar, WellFormed, U16, PathOff, FragmentOff;
    var rest := QueryPart(u) + FragmentPart(u);
    ScanScheme(u, Authority(u) + (u.path + rest));
    var f1: Fields := map[SchemaF := Slice(0, U16(|u.scheme|))];
    ScanAuthority(u, u.path + rest, Scan(P.ServerStart, Some(SchemaF), f1, false));
    var f2 := f1[HostF := Wrap(Slice(|u.scheme| + 3, |Authority(u)|))];
    ScanPath(u, rest, Scan(P.Server, Some(HostF), f2, u.userinfo.Some?));
    ScanTail(u, Scan(P.Path, Some(PathF), f2[PathF := Wrap(Slice(PathOff(u), |u.path|))], u.userinfo.Some?));
    CoarseWraps(u);
  }

  lemma CoarseWraps(u: Parts)
    ensures Wraps(Coarse(u)) ==
      TailFields(u, map[SchemaF := Slice(0, U16(|u.scheme|))][HostF := Wrap(Slice(|u.scheme| + 3, |Authority(u)|))]
                    [PathF := Wrap(Slice(PathOff(u), |u.path|))])
  {
    hide PathOff, FragmentOff, Authority;
  }

  function TailFields(u: Parts, f: Fields): Fields {
    var g := if u.query.Some? then f[QueryF := Wrap(Slice(PathOff(u) + |u.path| + 1, |u.query.value|))] else f;
    if u.fragment.Some? then g[FragmentF := Wrap(Slice(FragmentOff(u) + 1, |u.fragment.value|))] else g
  }

  lemma ScanTail(u: Parts, c: Scan)
    requires WellFormed(u) && c.Scan? && c.s.Path? && c.prev == Some(PathF)
    ensures var c' := ScanAll(QueryPart(u) + FragmentPart(u), PathOff(u) + |u.path|, c);
      c'.Scan? && c'.at == c.at && c'.f == TailFields(u, c.f)
  {
    hide P.ParseUrlChar, WellFormed, U16;
    var c1 := c;
    if u.query.Some? {
      ScanQuery(u, FragmentPart(u), c);
      c1 := Scan(P.Query, Some(QueryF), c.f[QueryF := Wrap(Slice(PathOff(u) + |u.path| + 1, |u.query.value|))], c.at);
    } else {
      assert QueryPart(u) + FragmentPart(u) == FragmentPart(u);
    }
    if u.fragment.Some? { ScanFragment(u, c1); }
  }
}
