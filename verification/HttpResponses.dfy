/** Whole responses: printing a response and parsing the result gives back its
    version, status, headers and body, whether the body is announced by a length, in
    chunks, absent, or delimited by the end of the connection. */
module HttpResponses {
  import opened Basics
  import opened HttpSyntax
  import opened HttpParser
  import opened HttpStream
  import opened HttpReads
  import opened HttpRequestLine
  import opened HttpHeaders
  import opened HttpBodies
  import opened HttpMessages

  // The status line.

  lemma ResponseSwitch(env: Env, p: Parser, ch: byte, n: nat)
    requires n > 0 && (IsResponseState(p.state) || IsStatusState(p.state))
    ensures Switch(env, p, ch, n) == if IsResponseState(p.state) then StepResponse(p, ch) else StepStatus(p, ch)
  {
    hide StepStart, StepResponse, StepStatus, StepMethod, StepUrl, StepRequestLine, StepHeaderField, StepHeaderValue,
         StepHeadersEnd, StepBody;
  }

  lemma ReadsResponseOctet(env: Env, p: Parser, ch: byte, q: Parser)
    requires (IsResponseState(p.state) || IsStatusState(p.state)) && p.nread < env.limit
    requires (if IsResponseState(p.state) then StepResponse(Advance(p, 1), ch) else StepStatus(Advance(p, 1), ch)) == On(q)
    ensures Reads(env, p, [ch], [], q)
  {
    hide Reads, StepResponse, StepStatus;
    ResponseSwitch(env, Advance(p, 1), ch, 1);
    hide Switch;
    ReadsSilently(env, p, ch, q);
  }

  /** A response begins: the framing of the message before is forgotten. */
  function Begun(p: Parser, n: nat): Parser {
    Advance(p, n).(flags := NO_FLAGS, contentLength := ULLONG_MAX)
  }

  lemma ReadsH(env: Env, p: Parser)
    requires p.state.StartRes? && p.nread < env.limit
    ensures Reads(env, p, ['H'], [Notice(MessageBegin)], Begun(p, 1).(state := ResH))
  {
    hide StepResponse, StepStatus, StepMethod, StepUrl, StepRequestLine, StepHeaderField, StepHeaderValue,
         StepHeadersEnd, StepBody;
    var s := Switch(env, Advance(p, 1), 'H', 1);
    assert s == Notify(Begun(p, 1).(state := ResH), MessageBegin);
    ReadsOctet(env, p, 'H', s);
    assert [Notice(MessageBegin)] + [] == [Notice(MessageBegin)];
  }

  lemma ReadsHttpSlash(env: Env, p: Parser)
    requires p.state.StartRes? && p.nread + 5 <= env.limit
    ensures Reads(env, p, "HTTP/", [Notice(MessageBegin)], Begun(p, 5).(state := ResFirstMajor))
  {
    hide Reads;
    var begin := [Notice(MessageBegin)];
    var a, b, c := Begun(p, 1).(state := ResH), Begun(p, 2).(state := ResHT), Begun(p, 3).(state := ResHTT);
    var d, e := Begun(p, 4).(state := ResHTTP), Begun(p, 5).(state := ResFirstMajor);
    ReadsH(env, p);
    ReadsResponseOctet(env, a, 'T', b);
    ReadsResponseOctet(env, b, 'T', c);
    ReadsResponseOctet(env, c, 'P', d);
    ReadsResponseOctet(env, d, '/', e);
    ReadsOn(env, p, ['H'], begin, a, ['T'], b);
    ReadsOn(env, p, ['H'] + ['T'], begin, b, ['T'], c);
    ReadsOn(env, p, ['H'] + ['T'] + ['T'], begin, c, ['P'], d);
    ReadsOn(env, p, ['H'] + ['T'] + ['T'] + ['P'], begin, d, ['/'], e);
    assert ['H'] + ['T'] + ['T'] + ['P'] + ['/'] == "HTTP/";
  }

  predicate InNumber(s: State) {
    s.ResMajor? || s.ResMinor? || s.ResStatusCode?
  }

  /** The number a state is reading. */
  function NumberIn(p: Parser): nat {
    if p.state.ResMajor? then p.major else if p.state.ResMinor? then p.minor else p.status
  }

  function WithNumber(p: Parser, n: nat): Parser {
    if p.state.ResMajor? then p.(major := n) else if p.state.ResMinor? then p.(minor := n) else p.(status := n)
  }

  lemma ReadsDigit(env: Env, p: Parser, d: byte)
    requires InNumber(p.state) && IsNum(d) && p.nread < env.limit && NumberIn(p) * 10 + DigitValue(d) <= 999
    ensures Reads(env, p, [d], [], WithNumber(Advance(p, 1), NumberIn(p) * 10 + DigitValue(d)))
  {
    hide Reads;
    ReadsResponseOctet(env, p, d, WithNumber(Advance(p, 1), NumberIn(p) * 10 + DigitValue(d)));
  }

  lemma {:induction false} ReadsDigits(env: Env, p: Parser, ds: seq<byte>)
    requires InNumber(p.state) && AllDigits(ds) && p.nread + |ds| <= env.limit && DecimalFrom(NumberIn(p), ds) <= 999
    ensures Reads(env, p, ds, [], WithNumber(Advance(p, |ds|), DecimalFrom(NumberIn(p), ds)))
    decreases |ds|
  {
    hide Reads;
    if ds == [] {
      ReadsNothing(env, p);
    } else {
      var n := NumberIn(p) * 10 + DigitValue(ds[0]);
      var q := WithNumber(Advance(p, 1), n);
      assert n <= DecimalFrom(n, ds[1..]);
      ReadsDigit(env, p, ds[0]);
      ReadsDigits(env, q, ds[1..]);
      ReadsOn(env, p, [ds[0]], [], q, ds[1..], WithNumber(Advance(q, |ds| - 1), DecimalFrom(n, ds[1..])));
      assert [ds[0]] + ds[1..] == ds;
    }
  }

  /** The state in front of a number and the one inside it. */
  function Inside(s: State): State {
    if s.ResFirstMajor? then ResMajor else if s.ResFirstMinor? then ResMinor else ResStatusCode
  }

  lemma ReadsNumberAfter(env: Env, p: Parser, ds: seq<byte>)
    requires p.state.ResFirstMajor? || p.state.ResFirstMinor? || p.state.ResFirstStatus?
    requires IsMinor(ds) && p.nread + |ds| <= env.limit
    ensures Reads(env, p, ds, [], WithNumber(Advance(p, |ds|).(state := Inside(p.state)), Decimal(ds)))
  {
    hide Reads;
    var a := WithNumber(Advance(p, 1).(state := Inside(p.state)), DigitValue(ds[0]));
    ReadsResponseOctet(env, p, ds[0], a);
    assert DecimalFrom(0, ds) == DecimalFrom(DigitValue(ds[0]), ds[1..]);
    ReadsDigits(env, a, ds[1..]);
    ReadsOn(env, p, [ds[0]], [], a, ds[1..], WithNumber(Advance(p, |ds|).(state := Inside(p.state)), Decimal(ds)));
    assert [ds[0]] + ds[1..] == ds;
  }

  predicate IsReason(s: seq<byte>) {
    CR !in s && LF !in s
  }

  lemma {:induction false} ReadsReason(env: Env, p: Parser, s: seq<byte>)
    requires p.state.ResStatus? && IsReason(s) && p.nread + |s| <= env.limit
    ensures Reads(env, p, s, [], Advance(p, |s|))
    decreases |s|
  {
    hide Reads;
    if s == [] {
      ReadsNothing(env, p);
    } else {
      assert s[0] in s;
      ReadsResponseOctet(env, p, s[0], Advance(p, 1));
      ReadsReason(env, Advance(p, 1), s[1..]);
      ReadsOn(env, p, [s[0]], [], Advance(p, 1), s[1..], Advance(p, |s|));
      assert [s[0]] + s[1..] == s;
    }
  }

  lemma ReadsStatusEnd(env: Env, p: Parser)
    requires (p.state.ResStatusCode? || p.state.ResStatus?) && p.nread + 2 <= env.limit
    ensures Reads(env, p, "\r\n", [], Advance(p, 2).(state := HeaderFieldStart))
  {
    hide Reads;
    var a, b := Advance(p, 1).(state := ResLineAlmostDone), Advance(p, 2).(state := HeaderFieldStart);
    ReadsResponseOctet(env, p, CR, a);
    ReadsResponseOctet(env, a, LF, b);
    ReadsOn(env, p, [CR], [], a, [LF], b);
    assert [CR] + [LF] == "\r\n";
  }

  function ReasonPart(reason: Option<seq<byte>>): seq<byte> {
    if reason.Some? then " " + reason.value else []
  }

  lemma ReadsReasonPart(env: Env, p: Parser, reason: Option<seq<byte>>)
    requires p.state.ResStatusCode? && (reason.Some? ==> IsReason(reason.value))
    requires p.nread + |ReasonPart(reason)| + 2 <= env.limit
    ensures Reads(env, p, ReasonPart(reason) + "\r\n", [], Advance(p, |ReasonPart(reason)| + 2).(state := HeaderFieldStart))
  {
    hide Reads, IsReason;
    if reason.None? {
      ReadsStatusEnd(env, p);
      assert ReasonPart(reason) + "\r\n" == "\r\n";
    } else {
      var s := reason.value;
      var a := Advance(p, 1).(state := ResStatus);
      ReadsResponseOctet(env, p, ' ', a);
      ReadsReason(env, a, s);
      ReadsStatusEnd(env, Advance(a, |s|));
      ReadsOn(env, p, " ", [], a, s, Advance(a, |s|));
      ReadsOn(env, p, " " + s, [], Advance(a, |s|), "\r\n", Advance(p, |s| + 3).(state := HeaderFieldStart));
    }
  }

  // Responses.

  datatype ReplyContent = Empty | Bytes(bytes: seq<byte>) | Chunks(body: ChunkedBody) | UntilClose(rest: seq<byte>)

  datatype HttpReply = HttpReply(
    major: seq<byte>, minor: seq<byte>, status: seq<byte>, reason: Option<seq<byte>>, headers: seq<Header>,
    content: ReplyContent)

  function PrintStatusLine(r: HttpReply): seq<byte> {
    "HTTP/" + (r.major + ".") + (r.minor + " ") + r.status + (ReasonPart(r.reason) + "\r\n")
  }

  /** A printed head up to the line feed that ends it. */
  function OpenReplyHead(r: HttpReply): seq<byte> {
    PrintStatusLine(r) + PrintHeaders(r.headers) + [CR]
  }

  function PrintReplyHead(r: HttpReply): seq<byte> {
    OpenReplyHead(r) + [LF]
  }

  function PrintReplyContent(c: ReplyContent): seq<byte> {
    match c
    case Empty => []
    case Bytes(b) => b
    case Chunks(b) => PrintChunked(b)
    case UntilClose(b) => b
  }

  function PrintReply(r: HttpReply): seq<byte> {
    PrintReplyHead(r) + PrintReplyContent(r.content)
  }

  function ReplyFraming(r: HttpReply): Framing
    requires AreHeaders(r.headers)
  {
    EffectAll(FRESH, r.headers)
  }

  /** Statuses that section 4.4 of RFC 2616 gives no body. The parser lets a length or
      chunked coding in the headers prevail, see `BodilessExact`. */
  predicate Bodiless(status: nat) {
    status / 100 == 1 || status == 204 || status == 304
  }

  /** The content is the one that the parser takes status and headers to announce. */
  predicate ReplyFits(r: HttpReply)
    requires AreHeaders(r.headers) && IsMinor(r.status)
  {
    var f := ReplyFraming(r);
    && !f.flags.upgrade
    && match r.content
       case Empty => !f.flags.chunked && (f.contentLength == 0 || (f.contentLength == ULLONG_MAX && Bodiless(Decimal(r.status))))
       case Bytes(b) => !f.flags.chunked && 0 < |b| == f.contentLength < ULLONG_MAX
       case Chunks(b) => f.flags.chunked && IsChunkedBody(b)
       case UntilClose(_) => !f.flags.chunked && f.contentLength == ULLONG_MAX && !Bodiless(Decimal(r.status))
  }

  /** A well-formed head, whatever it announces. */
  predicate IsReplyHead(r: HttpReply) {
    && IsMinor(r.major) && IsMinor(r.minor) && IsMinor(r.status) && (r.reason.Some? ==> IsReason(r.reason.value))
    && AreHeaders(r.headers)
  }

  predicate IsReply(r: HttpReply) {
    IsReplyHead(r) && ReplyFits(r)
  }

  /** A printed status line is read back into the version and the status. */
  lemma ReadsStatusLine(env: Env, p: Parser, r: HttpReply)
    requires p.state.StartRes? && IsMinor(r.major) && IsMinor(r.minor) && IsMinor(r.status)
    requires (r.reason.Some? ==> IsReason(r.reason.value)) && p.nread + |PrintStatusLine(r)| <= env.limit
    ensures Reads(env, p, PrintStatusLine(r), [Notice(MessageBegin)],
                  Begun(p, |PrintStatusLine(r)|).(major := Decimal(r.major), minor := Decimal(r.minor),
                                                  status := Decimal(r.status), state := HeaderFieldStart))
  {
    hide Reads, Decimal, IsReason, ReasonPart;
    var begin := [Notice(MessageBegin)];
    var a := Begun(p, 5).(state := ResFirstMajor);
    var b := Advance(a, |r.major|).(state := ResMajor, major := Decimal(r.major));
    var c := Advance(b, 1).(state := ResFirstMinor);
    var d := Advance(c, |r.minor|).(state := ResMinor, minor := Decimal(r.minor));
    var e := Advance(d, 1).(state := ResFirstStatus);
    var f := Advance(e, |r.status|).(state := ResStatusCode, status := Decimal(r.status));
    var g := Advance(f, |ReasonPart(r.reason)| + 2).(state := HeaderFieldStart);
    ReadsHttpSlash(env, p);
    ReadsNumberAfter(env, a, r.major);
    ReadsResponseOctet(env, b, '.', c);
    ReadsNumberAfter(env, c, r.minor);
    ReadsResponseOctet(env, d, ' ', e);
    ReadsNumberAfter(env, e, r.status);
    ReadsReasonPart(env, f, r.reason);
    ReadsOn(env, a, r.major, [], b, ".", c);
    ReadsOn(env, c, r.minor, [], d, " ", e);
    ReadsOn(env, p, "HTTP/", begin, a, r.major + ".", c);
    ReadsOn(env, p, "HTTP/" + (r.major + "."), begin, c, r.minor + " ", e);
    ReadsOn(env, p, "HTTP/" + (r.major + ".") + (r.minor + " "), begin, e, r.status, f);
    ReadsOn(env, p, "HTTP/" + (r.major + ".") + (r.minor + " ") + r.status, begin, f, ReasonPart(r.reason) + "\r\n", g);
  }

  // The end of the head.

  /** The parser at the end of the head of a response without an upgrade. */
  function ReplyHeadDone(p: Parser): Parser {
    var q := p.(nread := 0, upgrade := false);
    q.(state := if q.flags.chunked then ChunkSizeStart
                else if q.contentLength == 0 then NewMessage(q)
                else if q.contentLength != ULLONG_MAX then BodyIdentity
                else if NeedsEof(q) then BodyIdentityEof
                else NewMessage(q))
  }

  function ReplyNotices(p: Parser): seq<Atom> {
    [Notice(HeadersComplete)]
    + if !p.flags.chunked && (p.contentLength == 0 || (p.contentLength == ULLONG_MAX && !NeedsEof(p)))
      then [Notice(MessageComplete)] else []
  }

  lemma ReplyDoneStep(env: Env, p: Parser)
    requires p.state.HeadersDone? && !p.upgrade && !p.flags.skipBody
    ensures Exec(env, p, LF) == Fed(ReplyHeadDone(p), ReplyNotices(p)[1..], More)
  {
    var s := Switch(env, p, LF, 1);
    HeadersEndSwitch(env, p, LF, 1);
    hide Switch;
    assert s == On(ReplyHeadDone(p)).(note := s.note);
    assert Open(ReplyHeadDone(p).state).None?;
    assert [] + NoteAtoms(s.note) + [] == NoteAtoms(s.note);
    assert ReplyNotices(p)[1..] == NoteAtoms(s.note);
  }

  lemma NeedsEofFields(p: Parser, q: Parser)
    requires q == p.(state := q.state, nread := q.nread, upgrade := q.upgrade)
    ensures NeedsEof(p) == NeedsEof(q) && ShouldKeepAlive(p) == ShouldKeepAlive(q)
    ensures ReplyHeadDone(p) == ReplyHeadDone(q) && ReplyNotices(p) == ReplyNotices(q)
  {
  }

  lemma ReadsReplyLf(env: Env, p: Parser)
    requires p.state.HeadersAlmostDone? && Accepts(env) && p.nread < env.limit
    requires !p.flags.trailing && !p.flags.upgrade && !p.flags.skipBody && !p.meth.CONNECT?
    ensures Reads(env, p, [LF], ReplyNotices(p), ReplyHeadDone(p))
  {
    hide Switch, NeedsEof, ShouldKeepAlive, ReplyHeadDone, ReplyNotices;
    var a := Advance(p, 1);
    HeadersAlmostDoneStep(env, a);
    var b := a.(state := HeadersDone, upgrade := false);
    ReplyDoneStep(env, b);
    NeedsEofFields(p, b);
    NoticesStart(p);
    var f := Exec(env, b, LF);
    assert Exec(env, a, LF) == f.(out := [] + [Notice(HeadersComplete)] + f.out);
    assert [] + [Notice(HeadersComplete)] + f.out == ReplyNotices(p);
    ReadsFed(env, p, LF, ReplyNotices(p), ReplyHeadDone(p));
  }

  lemma NoticesStart(p: Parser)
    ensures ReplyNotices(p) == [Notice(HeadersComplete)] + ReplyNotices(p)[1..]
  {
  }

  /** What the callbacks are told before the head is complete. */
  function ReplyHeadAtoms(r: HttpReply): seq<Atom> {
    [Notice(MessageBegin)] + HeadersAtoms(r.headers)
  }

  /** The parser with everything the head of a response says, but for the matcher. */
  function ReplyHeaded(p: Parser, r: HttpReply, hstate: HeaderState, index: nat): Parser
    requires IsReplyHead(r)
  {
    var f := ReplyFraming(r);
    p.(flags := f.flags, contentLength := f.contentLength, hstate := hstate, index := index,
       major := Decimal(r.major), minor := Decimal(r.minor), status := Decimal(r.status))
  }

  /** Any well-formed head up to its last octet. */
  lemma ReadsOpenReplyHead(env: Env, p: Parser, r: HttpReply) returns (q: Parser)
    requires p.state.StartRes? && IsReplyHead(r) && p.nread + |OpenReplyHead(r)| <= env.limit
    ensures q == Advance(ReplyHeaded(p, r, q.hstate, q.index), |OpenReplyHead(r)|).(state := HeadersAlmostDone)
    ensures !q.flags.trailing && !q.flags.skipBody
    ensures Reads(env, p, OpenReplyHead(r), ReplyHeadAtoms(r), q)
  {
    hide Reads, PrintStatusLine, PrintHeaders, HeadersAtoms, EffectAll, Effect, IsHeader, Decimal;
    var line, begin := PrintStatusLine(r), [Notice(MessageBegin)];
    ReadsStatusLine(env, p, r);
    var a := Begun(p, |line|).(major := Decimal(r.major), minor := Decimal(r.minor), status := Decimal(r.status),
                               state := HeaderFieldStart);
    var b := ReadsHeaders(env, a, r.headers);
    EffectKeepsTrailing(FRESH, r.headers);
    ReadsThen(env, p, line, begin, a, PrintHeaders(r.headers), HeadersAtoms(r.headers), b);
    ReadsHeadCr(env, b);
    q := Advance(b, 1).(state := HeadersAlmostDone);
    ReadsOn(env, p, line + PrintHeaders(r.headers), ReplyHeadAtoms(r), b, [CR], q);
  }

  lemma ReadsReplyHead(env: Env, p: Parser, r: HttpReply) returns (q: Parser)
    requires p.state.StartRes? && IsReply(r) && Accepts(env) && !p.meth.CONNECT?
    requires p.nread + |PrintReplyHead(r)| <= env.limit
    ensures q == ReplyHeadDone(ReplyHeaded(p, r, q.hstate, q.index))
    ensures Reads(env, p, PrintReplyHead(r), ReplyHeadAtoms(r) + ReplyNotices(ReplyHeaded(p, r, q.hstate, q.index)), q)
  {
    hide Reads, OpenReplyHead, ReplyHeadAtoms, EffectAll, IsReplyHead, Decimal, ShouldKeepAlive, NeedsEof,
         ReplyHeadDone, ReplyNotices;
    var a := ReadsOpenReplyHead(env, p, r);
    ReadsReplyLf(env, a);
    q := ReplyHeadDone(a);
    DoneKeepsMatcher(a);
    NeedsEofFields(a, ReplyHeaded(p, r, q.hstate, q.index));
    ReadsThen(env, p, OpenReplyHead(r), ReplyHeadAtoms(r), a, [LF], ReplyNotices(a), q);
  }

  lemma DoneKeepsMatcher(p: Parser)
    ensures ReplyHeadDone(p).hstate == p.hstate && ReplyHeadDone(p).index == p.index
  {
  }

  // Whole responses.

  function ReplyContentAtoms(c: ReplyContent): seq<Atom> {
    match c
    case Empty => [Notice(MessageComplete)]
    case Bytes(b) => Octets(Body, b) + [Notice(MessageComplete)]
    case Chunks(b) => ChunkedAtoms(b)
    case UntilClose(b) => Octets(Body, b)
  }

  /** What the callbacks are to be told; a body without an end of its own is completed
      by the end of the connection only. */
  function ReplyAtoms(r: HttpReply): seq<Atom> {
    [Notice(MessageBegin)] + HeadersAtoms(r.headers) + [Notice(HeadersComplete)] + ReplyContentAtoms(r.content)
  }

  function FinalReplyFraming(r: HttpReply): Framing
    requires IsReply(r)
  {
    var f := ReplyFraming(r);
    match r.content
    case Bytes(_) => f.(contentLength := 0)
    case Chunks(b) => EffectAll(Framing(f.flags.(trailing := true), 0), b.trailer)
    case _ => f
  }

  /** Whether another response may follow on the connection. */
  predicate ReplyKeepsAlive(r: HttpReply)
    requires IsReply(r)
  {
    var flags := FinalReplyFraming(r).flags;
    !r.content.UntilClose? && if Decimal(r.major) > 0 && Decimal(r.minor) > 0 then !flags.close else flags.keepAlive
  }

  function ReplyCarried(r: HttpReply): nat {
    if r.content.Chunks? then |PrintHeaders(r.content.body.trailer)| + 2 else 0
  }

  predicate ReplyAfter(p: Parser, q: Parser, r: HttpReply)
    requires IsReply(r)
  {
    var f := FinalReplyFraming(r);
    q == p.(flags := f.flags, contentLength := f.contentLength, hstate := q.hstate, index := q.index,
            state := if r.content.UntilClose? then BodyIdentityEof else if ReplyKeepsAlive(r) then StartRes else Dead,
            nread := ReplyCarried(r), major := Decimal(r.major), minor := Decimal(r.minor), status := Decimal(r.status),
            upgrade := false)
  }

  /** A trailer cannot take back that the body is chunked. */
  lemma {:induction false} EffectKeepsChunked(f: Framing, hs: seq<Header>)
    requires AreHeaders(hs) && f.flags.chunked
    ensures EffectAll(f, hs).flags.chunked
    decreases |hs|
  {
    hide IsWord, NameClass, LowerName, Decimal, IsHeader;
    if hs != [] { EffectKeepsChunked(Effect(f, hs[0]), hs[1..]); }
  }

  lemma ReadsUntilClose(env: Env, p: Parser, data: seq<byte>)
    requires p.state.BodyIdentityEof?
    ensures Reads(env, p, data, Octets(Body, data), p)
  {
    BodyInterior(env, p, data, |data|);
    assert data[|data|..] == [] && data[..|data|] == data;
    assert Octets(Body, data) + [] == Octets(Body, data);
  }

  /** Print-then-parse for one response. */
  lemma ReadsReply(env: Env, p: Parser, r: HttpReply) returns (q: Parser)
    requires env.limit >= MAX_HEADER_SIZE
    requires p.state.StartRes? && p.typ.Response? && IsReply(r) && Accepts(env) && !p.meth.CONNECT?
    requires p.nread + |PrintReplyHead(r)| <= env.limit
    ensures Reads(env, p, PrintReply(r), ReplyAtoms(r), q) && ReplyAfter(p, q, r)
  {
    hide Reads, PrintReplyHead, HeadersAtoms, EffectAll, PrintHeaders, ChunkedAtoms, PrintChunked, Decimal;
    var a := ReadsReplyHead(env, p, r);
    EffectKeepsTrailing(FRESH, r.headers);
    var told := ReplyHeadAtoms(r);
    var notices := ReplyNotices(ReplyHeaded(p, r, a.hstate, a.index));
    match r.content
    case Empty =>
      q := a;
      assert PrintReply(r) == PrintReplyHead(r);
      assert told + notices == ReplyAtoms(r);
    case Bytes(b) =>
      ReadsIdentity(env, a, b);
      q := a.(contentLength := 0).(state := NewMessage(a.(contentLength := 0)));
      ReadsThen(env, p, PrintReplyHead(r), told + notices, a, b, ReplyContentAtoms(r.content), q);
      assert told + notices == told + [Notice(HeadersComplete)];
    case Chunks(b) =>
      q := ReadsChunked(env, a, b);
      EffectKeepsChunked(Framing(a.flags.(trailing := true), 0), b.trailer);
      ReadsThen(env, p, PrintReplyHead(r), told + notices, a, PrintChunked(b), ChunkedAtoms(b), q);
      assert told + notices == told + [Notice(HeadersComplete)];
    case UntilClose(b) =>
      ReadsUntilClose(env, a, b);
      q := a;
      ReadsThen(env, p, PrintReplyHead(r), told + notices, a, b, Octets(Body, b), q);
      assert told + notices == told + [Notice(HeadersComplete)];
  }

  // Several responses on one connection.

  function PrintReplies(rs: seq<HttpReply>): seq<byte> {
    if rs == [] then [] else PrintReply(rs[0]) + PrintReplies(rs[1..])
  }

  function RepliesAtoms(rs: seq<HttpReply>): seq<Atom> {
    if rs == [] then [] else ReplyAtoms(rs[0]) + RepliesAtoms(rs[1..])
  }

  predicate AreReplies(rs: seq<HttpReply>) {
    forall r <- rs :: IsReply(r)
  }

  /** All but the last keep the connection alive. */
  predicate RepliesPersist(rs: seq<HttpReply>)
    requires AreReplies(rs)
  {
    forall i :: 0 <= i < |rs| - 1 ==> ReplyKeepsAlive(rs[i])
  }

  /** No head is too long, where `carried` header octets already count for the first. */
  predicate ReplyHeadsFit(rs: seq<HttpReply>, carried: nat)
    decreases |rs|
  {
    rs != [] ==> carried + |PrintReplyHead(rs[0])| <= MAX_HEADER_SIZE && ReplyHeadsFit(rs[1..], ReplyCarried(rs[0]))
  }

  /** Responses that may follow each other. */
  predicate IsReplyStream(rs: seq<HttpReply>, carried: nat)
    requires AreReplies(rs)
  {
    RepliesPersist(rs) && ReplyHeadsFit(rs, carried)
  }

  /** The state after a response. */
  function EndState(r: HttpReply): State
    requires IsReply(r)
  {
    if r.content.UntilClose? then BodyIdentityEof else if ReplyKeepsAlive(r) then StartRes else Dead
  }

  /** Print-then-parse for any number of responses on one connection. */
  lemma {:induction false} ReadsReplies(env: Env, p: Parser, rs: seq<HttpReply>) returns (q: Parser)
    requires env.limit >= MAX_HEADER_SIZE
    requires p.state.StartRes? && p.typ.Response? && !p.meth.CONNECT? && Accepts(env)
    requires AreReplies(rs) && IsReplyStream(rs, p.nread)
    ensures Reads(env, p, PrintReplies(rs), RepliesAtoms(rs), q)
    ensures rs != [] ==> q.state == EndState(rs[|rs| - 1])
    decreases |rs|
  {
    hide Reads, PrintReply, ReplyAtoms, IsReply, ReplyKeepsAlive, PrintReplyHead, ReplyCarried;
    if rs == [] {
      ReadsNothing(env, p);
      q := p;
    } else {
      var a := ReadsReply(env, p, rs[0]);
      if |rs| == 1 {
        q := a;
        ReadsNothing(env, a);
        assert PrintReplies(rs[1..]) == [] && RepliesAtoms(rs[1..]) == [];
      } else {
        KeptAlive(rs[0]);
        q := ReadsReplies(env, a, rs[1..]);
      }
      ReadsThen(env, p, PrintReply(rs[0]), ReplyAtoms(rs[0]), a, PrintReplies(rs[1..]), RepliesAtoms(rs[1..]), q);
    }
  }

  lemma KeptAlive(r: HttpReply)
    requires IsReply(r) && ReplyKeepsAlive(r)
    ensures !r.content.UntilClose?
  {
  }
}
