/** Whole requests: printing a request and parsing the result gives back its
    method, target, version, headers and body, for single requests and for any
    number of them on one connection. */
module HttpMessages {
  import opened Basics
  import opened HttpSyntax
  import opened HttpParser
  import opened HttpStream
  import opened HttpReads
  import opened HttpRequestLine
  import opened HttpHeaders
  import opened HttpBodies

  datatype Content = NoContent | Sized(bytes: seq<byte>) | InChunks(body: ChunkedBody)

  datatype HttpRequest = HttpRequest(
    verb: Method, target: seq<byte>, major: seq<byte>, minor: seq<byte>, headers: seq<Header>, content: Content)

  const FRESH := Framing(NO_FLAGS, ULLONG_MAX)

  /** What the headers announce about the body. */
  function Announced(r: HttpRequest): Framing
    requires AreHeaders(r.headers)
  {
    EffectAll(FRESH, r.headers)
  }

  /** A printed head up to the line feed that ends it. */
  function OpenHead(r: HttpRequest): seq<byte> {
    PrintLine(r.verb, r.target, r.major, r.minor) + PrintHeaders(r.headers) + [CR]
  }

  function PrintHead(r: HttpRequest): seq<byte> {
    OpenHead(r) + [LF]
  }

  function PrintContent(c: Content): seq<byte> {
    match c
    case NoContent => []
    case Sized(b) => b
    case InChunks(b) => PrintChunked(b)
  }

  function PrintRequest(r: HttpRequest): seq<byte> {
    PrintHead(r) + PrintContent(r.content)
  }

  /** The connection is given up to another protocol after the head. */
  predicate Upgrades(r: HttpRequest)
    requires AreHeaders(r.headers)
  {
    Announced(r).flags.upgrade || r.verb.CONNECT?
  }

  /** The content is the one the headers announce, and no upgrade is asked for. */
  predicate ContentFits(r: HttpRequest)
    requires AreHeaders(r.headers)
  {
    var f := Announced(r);
    && !Upgrades(r)
    && match r.content
       case NoContent => !f.flags.chunked && (f.contentLength == 0 || f.contentLength == ULLONG_MAX)
       case Sized(b) => !f.flags.chunked && 0 < |b| == f.contentLength < ULLONG_MAX
       case InChunks(b) => f.flags.chunked && IsChunkedBody(b)
  }

  /** A well-formed head, whatever it announces. */
  predicate IsHead(r: HttpRequest) {
    IsTarget(r.verb, r.target) && IsMajor(r.major) && IsMinor(r.minor) && AreHeaders(r.headers)
  }

  predicate IsRequest(r: HttpRequest) {
    IsHead(r) && ContentFits(r)
  }

  function ContentAtoms(c: Content): seq<Atom> {
    match c
    case NoContent => [Notice(MessageComplete)]
    case Sized(b) => Octets(Body, b) + [Notice(MessageComplete)]
    case InChunks(b) => ChunkedAtoms(b)
  }

  /** What the callbacks are to be told about a request. */
  function RequestAtoms(r: HttpRequest): seq<Atom> {
    [Notice(MessageBegin)] + Octets(Url, r.target) + HeadersAtoms(r.headers) + [Notice(HeadersComplete)]
    + ContentAtoms(r.content)
  }

  /** Framing after the whole request; trailer lines may still change it. */
  function FinalFraming(r: HttpRequest): Framing
    requires IsRequest(r)
  {
    var f := Announced(r);
    match r.content
    case NoContent => f
    case Sized(_) => f.(contentLength := 0)
    case InChunks(b) => EffectAll(Framing(f.flags.(trailing := true), 0), b.trailer)
  }

  /** Whether another request may follow on the connection. */
  predicate KeepsAlive(r: HttpRequest)
    requires IsRequest(r)
  {
    var flags := FinalFraming(r).flags;
    if Decimal(r.major) > 0 && Decimal(r.minor) > 0 then !flags.close else flags.keepAlive
  }

  /** Header octets that a chunked request leaves counted for its successor. */
  function Carried(r: HttpRequest): nat {
    if r.content.InChunks? then |PrintHeaders(r.content.body.trailer)| + 2 else 0
  }

  /** The parser after a request: everything but the header matcher is known. */
  predicate After(p: Parser, q: Parser, r: HttpRequest)
    requires IsRequest(r)
  {
    q == p.(flags := FinalFraming(r).flags, contentLength := FinalFraming(r).contentLength,
            state := if KeepsAlive(r) then StartReq else Dead,
            hstate := q.hstate, index := q.index, nread := Carried(r),
            major := Decimal(r.major), minor := Decimal(r.minor), meth := r.verb, upgrade := false)
  }

  ghost predicate Accepts(env: Env) {
    forall p :: env.headersComplete(p) == 0
  }

  // End of the head.

  /** The parser at the end of the head of a request without an upgrade. */
  function HeadDone(p: Parser): Parser {
    var q := p.(nread := 0, upgrade := false);
    q.(state := if q.flags.chunked then ChunkSizeStart
                else if q.contentLength == 0 || q.contentLength == ULLONG_MAX then NewMessage(q)
                else BodyIdentity)
  }

  function HeadNotices(p: Parser): seq<Atom> {
    [Notice(HeadersComplete)]
    + if !p.flags.chunked && (p.contentLength == 0 || p.contentLength == ULLONG_MAX) then [Notice(MessageComplete)] else []
  }

  lemma HeadersDoneStep(env: Env, p: Parser)
    requires p.state.HeadersDone? && p.typ.Request? && !p.upgrade && !p.flags.skipBody
    ensures Exec(env, p, LF) == Fed(HeadDone(p), HeadNotices(p)[1..], More)
  {
    var s := Switch(env, p, LF, 1);
    HeadersEndSwitch(env, p, LF, 1);
    hide Switch;
    assert s == On(HeadDone(p)).(note := s.note);
    assert Open(HeadDone(p).state).None?;
    assert [] + NoteAtoms(s.note) + [] == NoteAtoms(s.note);
    assert HeadNotices(p)[1..] == NoteAtoms(s.note);
  }

  lemma HeadersAlmostDoneStep(env: Env, p: Parser)
    requires p.state.HeadersAlmostDone? && Accepts(env)
    requires !p.flags.trailing && !p.flags.upgrade && !p.meth.CONNECT?
    ensures Switch(env, p, LF, 1) == Notify(p.(state := HeadersDone, upgrade := false), HeadersComplete).(go := Reexecute)
  {
    HeadersEndSwitch(env, p, LF, 1);
    hide Switch;
  }

  lemma ReadsHeadLf(env: Env, p: Parser)
    requires p.state.HeadersAlmostDone? && p.typ.Request? && Accepts(env) && p.nread < env.limit
    requires !p.flags.trailing && !p.flags.upgrade && !p.flags.skipBody && !p.meth.CONNECT?
    ensures Reads(env, p, [LF], HeadNotices(p), HeadDone(p))
  {
    var a := Advance(p, 1);
    HeadersAlmostDoneStep(env, a);
    var b := a.(state := HeadersDone, upgrade := false);
    HeadersDoneStep(env, b);
    hide Switch;
    var f := Exec(env, b, LF);
    assert Exec(env, a, LF) == f.(out := [] + [Notice(HeadersComplete)] + f.out);
    assert [] + [Notice(HeadersComplete)] + f.out == HeadNotices(p);
    assert HeadDone(b) == HeadDone(p);
    ReadsFed(env, p, LF, HeadNotices(p), HeadDone(p));
  }

  /** What the callbacks are told before the head is complete. */
  function HeadAtoms(r: HttpRequest): seq<Atom> {
    [Notice(MessageBegin)] + Octets(Url, r.target) + HeadersAtoms(r.headers)
  }

  /** The parser with everything the head of a request says, but for the matcher. */
  function Headed(p: Parser, r: HttpRequest, hstate: HeaderState, index: nat): Parser
    requires IsHead(r)
  {
    var f := Announced(r);
    p.(flags := f.flags, contentLength := f.contentLength, hstate := hstate, index := index,
       major := Decimal(r.major), minor := Decimal(r.minor), meth := r.verb)
  }

  /** Any well-formed head up to its last octet. */
  lemma ReadsOpenHead(env: Env, p: Parser, r: HttpRequest) returns (q: Parser)
    requires p.state.StartReq? && IsHead(r) && p.nread + |OpenHead(r)| <= env.limit
    ensures q == Advance(Headed(p, r, q.hstate, q.index), |OpenHead(r)|).(state := HeadersAlmostDone)
    ensures !q.flags.trailing && !q.flags.skipBody
    ensures Reads(env, p, OpenHead(r), HeadAtoms(r), q)
  {
    hide Reads, PrintLine, PrintHeaders, HeadersAtoms, EffectAll, Effect, IsHeader, Decimal;
    var line := PrintLine(r.verb, r.target, r.major, r.minor);
    var begun := [Notice(MessageBegin)] + Octets(Url, r.target);
    ReadsRequestLine(env, p, r.verb, r.target, r.major, r.minor);
    var a := Advance(p, |line|).(flags := NO_FLAGS, contentLength := ULLONG_MAX, meth := r.verb,
                                 index := |MethodString(r.verb)| + 1, major := Decimal(r.major),
                                 minor := Decimal(r.minor), state := HeaderFieldStart);
    var b := ReadsHeaders(env, a, r.headers);
    EffectKeepsTrailing(FRESH, r.headers);
    ReadsThen(env, p, line, begun, a, PrintHeaders(r.headers), HeadersAtoms(r.headers), b);
    ReadsHeadCr(env, b);
    q := Advance(b, 1).(state := HeadersAlmostDone);
    ReadsOn(env, p, line + PrintHeaders(r.headers), HeadAtoms(r), b, [CR], q);
  }

  /** The head of a request. */
  lemma ReadsHead(env: Env, p: Parser, r: HttpRequest) returns (q: Parser)
    requires p.state.StartReq? && p.typ.Request? && IsRequest(r) && Accepts(env)
    requires p.nread + |PrintHead(r)| <= env.limit
    ensures q == HeadDone(Headed(p, r, q.hstate, q.index))
    ensures Reads(env, p, PrintHead(r), HeadAtoms(r) + HeadNotices(q), q)
  {
    hide Reads, OpenHead, HeadAtoms, EffectAll, IsHead, Decimal, ShouldKeepAlive;
    var a := ReadsOpenHead(env, p, r);
    ReadsHeadLf(env, a);
    q := HeadDone(a);
    KeepAliveFields(a.(nread := 0, upgrade := false), Headed(p, r, a.hstate, a.index).(nread := 0, upgrade := false));
    ReadsThen(env, p, OpenHead(r), HeadAtoms(r), a, [LF], HeadNotices(a), q);
  }

  /** Print-then-parse for one request: the callbacks are told exactly what was
      printed, and the parser is ready for the next request or closed. */
  lemma ReadsRequest(env: Env, p: Parser, r: HttpRequest) returns (q: Parser)
    requires env.limit >= MAX_HEADER_SIZE
    requires p.state.StartReq? && p.typ.Request? && IsRequest(r) && Accepts(env)
    requires p.nread + |PrintHead(r)| <= env.limit
    ensures Reads(env, p, PrintRequest(r), RequestAtoms(r), q) && After(p, q, r)
  {
    hide Reads, PrintHead, HeadersAtoms, EffectAll, PrintHeaders, IsChunkedBody, ChunkedAtoms, PrintChunked;
    var a := ReadsHead(env, p, r);
    var told := HeadAtoms(r);
    match r.content
    case NoContent =>
      q := a;
      assert PrintRequest(r) == PrintHead(r);
      assert told + HeadNotices(a) == RequestAtoms(r);
    case Sized(b) =>
      ReadsIdentity(env, a, b);
      q := a.(contentLength := 0).(state := NewMessage(a.(contentLength := 0)));
      ReadsThen(env, p, PrintHead(r), told + HeadNotices(a), a, b, ContentAtoms(r.content), q);
      assert told + HeadNotices(a) == told + [Notice(HeadersComplete)];
    case InChunks(b) =>
      q := ReadsChunked(env, a, b);
      ReadsThen(env, p, PrintHead(r), told + HeadNotices(a), a, PrintChunked(b), ChunkedAtoms(b), q);
      assert told + HeadNotices(a) == told + [Notice(HeadersComplete)];
  }

  // Several requests on one connection.

  function PrintAll(rs: seq<HttpRequest>): seq<byte> {
    if rs == [] then [] else PrintRequest(rs[0]) + PrintAll(rs[1..])
  }

  function AllAtoms(rs: seq<HttpRequest>): seq<Atom> {
    if rs == [] then [] else RequestAtoms(rs[0]) + AllAtoms(rs[1..])
  }

  predicate AreRequests(rs: seq<HttpRequest>) {
    forall r <- rs :: IsRequest(r)
  }

  /** All but the last keep the connection alive. */
  predicate Persistent(rs: seq<HttpRequest>)
    requires AreRequests(rs)
  {
    forall i :: 0 <= i < |rs| - 1 ==> KeepsAlive(rs[i])
  }

  /** No head is too long, where `carried` header octets already count for the first. */
  predicate HeadsFit(rs: seq<HttpRequest>, carried: nat)
    decreases |rs|
  {
    rs != [] ==> carried + |PrintHead(rs[0])| <= MAX_HEADER_SIZE && HeadsFit(rs[1..], Carried(rs[0]))
  }

  /** Requests that may follow each other. */
  predicate IsPipeline(rs: seq<HttpRequest>, carried: nat)
    requires AreRequests(rs)
  {
    Persistent(rs) && HeadsFit(rs, carried)
  }

  /** Header octets still counted after the last of `rs`. */
  function LeftCounted(rs: seq<HttpRequest>, carried: nat): nat {
    if rs == [] then carried else Carried(rs[|rs| - 1])
  }

  /** Print-then-parse for any number of requests on one connection. */
  lemma {:induction false} ReadsPipeline(env: Env, p: Parser, rs: seq<HttpRequest>) returns (q: Parser)
    requires env.limit >= MAX_HEADER_SIZE
    requires p.state.StartReq? && p.typ.Request? && Accepts(env) && AreRequests(rs) && IsPipeline(rs, p.nread)
    ensures Reads(env, p, PrintAll(rs), AllAtoms(rs), q)
    ensures q.state == if rs == [] || KeepsAlive(rs[|rs| - 1]) then StartReq else Dead
    ensures q.typ.Request? && q.nread == LeftCounted(rs, p.nread)
    decreases |rs|
  {
    hide Reads, PrintRequest, RequestAtoms, IsRequest, KeepsAlive, PrintHead, Carried;
    if rs == [] {
      ReadsNothing(env, p);
      q := p;
    } else {
      var a := ReadsRequest(env, p, rs[0]);
      if |rs| == 1 {
        q := a;
        ReadsNothing(env, a);
        assert PrintAll(rs[1..]) == [] && AllAtoms(rs[1..]) == [];
      } else {
        q := ReadsPipeline(env, a, rs[1..]);
      }
      ReadsThen(env, p, PrintRequest(rs[0]), RequestAtoms(rs[0]), a, PrintAll(rs[1..]), AllAtoms(rs[1..]), q);
    }
  }
}
