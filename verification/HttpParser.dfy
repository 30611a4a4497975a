/** The state machine of `http_parser_execute`, strict mode.

    `Switch` is one execution of the big `switch` for one octet: the new parser
    fields, which data mark it sets or flushes, which notification callback it
    runs, how many further octets it skips, and how control leaves it. */
module HttpParser {
  import opened Basics
  import opened HttpSyntax

  datatype State =
    | Dead
    | StartReqOrRes | ResOrRespH | StartRes
    | ResH | ResHT | ResHTT | ResHTTP | ResFirstMajor | ResMajor | ResFirstMinor | ResMinor
    | ResFirstStatus | ResStatusCode | ResStatus | ResLineAlmostDone
    | StartReq | ReqMethod | SpacesBeforeUrl
    | Schema | SchemaSlash | SchemaSlashSlash | ServerStart | Server | ServerWithAt
    | Path | QueryStart | Query | FragmentStart | Fragment
    | ReqHttpStart | ReqH | ReqHT | ReqHTT | ReqHTTP | ReqFirstMajor | ReqMajor | ReqFirstMinor | ReqMinor
    | ReqLineAlmostDone
    | HeaderFieldStart | HeaderField | HeaderValueStart | HeaderValue | HeaderValueLws | HeaderAlmostDone
    | ChunkSizeStart | ChunkSize | ChunkParameters | ChunkSizeAlmostDone
    | HeadersAlmostDone | HeadersDone
    | ChunkData | ChunkDataAlmostDone | ChunkDataDone
    | BodyIdentity | BodyIdentityEof | MessageDone

  datatype HeaderState =
    | General | C | CO | CON
    | MatchingConnection | MatchingProxyConnection | MatchingContentLength
    | MatchingTransferEncoding | MatchingUpgrade
    | Connection | ContentLength | TransferEncoding | Upgrade
    | MatchingChunked | MatchingKeepAlive | MatchingClose
    | TransferEncodingChunked | ConnectionKeepAlive | ConnectionClose

  datatype Method =
    | DELETE | GET | HEAD | POST | PUT | CONNECT | OPTIONS | TRACE | COPY | LOCK | MKCOL | MOVE
    | PROPFIND | PROPPATCH | SEARCH | UNLOCK | REPORT | MKACTIVITY | CHECKOUT | MERGE | MSEARCH
    | NOTIFY | SUBSCRIBE | UNSUBSCRIBE | PATCH | PURGE

  datatype ParserType = Request | Response | Both

  datatype Errno =
    | OK | CbHeadersComplete | InvalidEofState | HeaderOverflow | ClosedConnection | InvalidVersion
    | InvalidStatus | InvalidMethod | InvalidUrl | LfExpected | InvalidHeaderToken | InvalidContentLength
    | InvalidChunkSize | InvalidConstant | Strict | Unknown

  datatype Flags = Flags(chunked: bool, keepAlive: bool, close: bool, trailing: bool, upgrade: bool, skipBody: bool)

  const NO_FLAGS := Flags(false, false, false, false, false, false)

  const U64: nat := 0x1_0000_0000_0000_0000
  const ULLONG_MAX: nat := 0xFFFF_FFFF_FFFF_FFFF
  const MAX_HEADER_SIZE: nat := 80 * 1024

  datatype Parser = Parser(
    typ: ParserType, flags: Flags, state: State, hstate: HeaderState, index: nat,
    nread: nat, contentLength: nat, major: nat, minor: nat, status: nat,
    meth: Method, errno: Errno, upgrade: bool)

  /** `http_parser_init`. */
  function Init(t: ParserType): Parser {
    Parser(t, NO_FLAGS,
           match t { case Request => StartReq case Response => StartRes case Both => StartReqOrRes },
           General, 0, 0, 0, 0, 0, 0, DELETE, OK, false)
  }

  /** What surrounds a parser: the return value of its `on_headers_complete` callback,
      where the other callbacks only record the event they are given, and the limit on
      header octets, which is MAX_HEADER_SIZE in the source. */
  datatype Env = Env(headersComplete: Parser -> int, limit: nat)

  datatype Kind = Url | Field | Value | Body
  datatype Note = MessageBegin | HeadersComplete | MessageComplete

  /** How one execution of the switch ends: `break`, `goto reexecute_byte`,
      an error, a failed `assert`, or the early return on an upgrade. */
  datatype Go = Break | Reexecute | Fail | Abort | Leave

  datatype Step = Step(p: Parser, mark: Option<Kind>, flush: Option<Kind>, note: Option<Note>, skip: nat, go: Go)

  /** States that `PARSING_HEADER` counts towards the header size. */
  predicate ParsingHeader(s: State) {
    && !s.ChunkData? && !s.ChunkDataAlmostDone? && !s.ChunkDataDone?
    && !s.BodyIdentity? && !s.BodyIdentityEof? && !s.MessageDone?
  }

  predicate IsUrlState(s: State) {
    || s.Schema? || s.SchemaSlash? || s.SchemaSlashSlash? || s.ServerStart? || s.Server? || s.ServerWithAt?
    || s.Path? || s.QueryStart? || s.Query? || s.FragmentStart? || s.Fragment?
  }

  /** States in which every octet read belongs to the body. */
  predicate IsBodyState(s: State) {
    s.BodyIdentity? || s.BodyIdentityEof? || s.ChunkData?
  }

  /** The data kind that a state leaves open between two octets. */
  function Open(s: State): Option<Kind> {
    if IsUrlState(s) then Some(Url)
    else if s.HeaderField? then Some(Field)
    else if s.HeaderValue? then Some(Value)
    else None
  }

  /** Bound on the number of `reexecute_byte` jumps still possible. */
  function Rank(s: State): nat {
    if s.HeaderValueLws? then 3
    else if s.HeaderFieldStart? then 2
    else if s.HeadersAlmostDone? || s.StartReqOrRes? || s.HeaderValue? || s.BodyIdentity? then 1
    else 0
  }

  /** What every execution of the switch does with marks: a mark is set only
      when its kind is then open, a flush closes exactly the open kind, body
      marks only come from body states, and a re-execution makes progress. */
  ghost predicate Disciplined(p: Parser, remaining: nat, s: Step) {
    && (s.go.Reexecute? ==> Rank(s.p.state) < Rank(p.state))
    && (s.skip > 0 ==> IsBodyState(p.state))
    && s.skip < remaining
    && (s.mark.Some? ==>
          Open(p.state).None? && !p.state.ChunkDataAlmostDone? && (s.mark == Some(Body) <==> IsBodyState(p.state)))
    && (s.note.Some? ==>
          Open(p.state).None? && s.mark.None? && !IsBodyState(p.state) && !p.state.ChunkDataAlmostDone?)
    && (s.go.Break? || s.go.Reexecute? || s.go.Leave? ==>
          && s.p.errno == p.errno
          && if IsBodyState(p.state) then
               && s.mark == Some(Body)
               && Open(s.p.state).None?
               && (s.flush == if s.go.Reexecute? then Some(Body) else None)
               && (s.go.Reexecute? || s.p.state.ChunkDataAlmostDone? || (s.skip + 1 == remaining && s.p.state == p.state))
             else if p.state.ChunkDataAlmostDone? then
               s.mark.None? && s.flush == Some(Body) && Open(s.p.state).None?
             else
               var marked := if s.mark.Some? then s.mark else Open(p.state);
               && (s.flush.Some? ==> s.flush == marked)
               && Open(s.p.state) == if s.flush.Some? then None else marked)
    && (s.go.Fail? ==>
          && s.p.errno != OK && s.flush.None? && !IsBodyState(p.state)
          && (s.note.Some? ==> p.state.HeadersAlmostDone?))
    && (s.go.Leave? ==> p.state.HeadersDone? && s.mark.None?)
  }

  /** A step that touches no mark: the two states leave nothing open. */
  ghost predicate Plain(p: Parser, s: Step) {
    && s.mark.None? && s.flush.None? && s.skip == 0
    && (s.go.Break? || s.go.Fail?)
    && (s.go.Break? ==> s.p.errno == p.errno && Open(s.p.state).None?)
    && (s.go.Fail? ==> s.p.errno != OK && s.note.None?)
  }

  // Shapes of a step.

  function On(p: Parser): Step { Step(p, None, None, None, 0, Break) }
  function To(p: Parser, s: State): Step { On(p.(state := s)) }
  function Again(p: Parser, s: State): Step { On(p.(state := s)).(go := Reexecute) }
  function Err(p: Parser, e: Errno): Step { On(p.(errno := e)).(go := Fail) }
  function Notify(p: Parser, n: Note): Step { On(p).(note := Some(n)) }

  /** `http_message_needs_eof`. */
  predicate NeedsEof(p: Parser) {
    && !p.typ.Request?
    && !(p.status / 100 == 1 || p.status == 204 || p.status == 304 || p.flags.skipBody)
    && !(p.flags.chunked || p.contentLength != ULLONG_MAX)
  }

  /** `http_should_keep_alive`. */
  predicate ShouldKeepAlive(p: Parser) {
    && (if p.major > 0 && p.minor > 0 then !p.flags.close else p.flags.keepAlive)
    && !NeedsEof(p)
  }

  function NewMessage(p: Parser): State {
    if !ShouldKeepAlive(p) then Dead else if p.typ.Request? then StartReq else StartRes
  }

  function Complete(p: Parser): Step {
    Notify(p.(state := NewMessage(p)), MessageComplete)
  }

  // Start of a message.

  function StartMethod(ch: byte): Option<Method> {
    if ch == 'C' then Some(CONNECT)
    else if ch == 'D' then Some(DELETE)
    else if ch == 'G' then Some(GET)
    else if ch == 'H' then Some(HEAD)
    else if ch == 'L' then Some(LOCK)
    else if ch == 'M' then Some(MKCOL)
    else if ch == 'N' then Some(NOTIFY)
    else if ch == 'O' then Some(OPTIONS)
    else if ch == 'P' then Some(POST)
    else if ch == 'R' then Some(REPORT)
    else if ch == 'S' then Some(SUBSCRIBE)
    else if ch == 'T' then Some(TRACE)
    else if ch == 'U' then Some(UNLOCK)
    else None
  }

  predicate IsStartState(s: State) {
    s.Dead? || s.StartReqOrRes? || s.ResOrRespH? || s.StartRes? || s.StartReq?
  }

  function StepStart(p: Parser, ch: byte, remaining: nat): (s: Step)
    requires IsStartState(p.state) && remaining > 0
    ensures Disciplined(p, remaining, s)
  {
    hide StartMethod, IsAlpha;
    var q := p.(flags := NO_FLAGS, contentLength := ULLONG_MAX);
    if p.state.Dead? then if ch == CR || ch == LF then On(p) else Err(p, ClosedConnection)
    else if p.state.StartReqOrRes? then
      if ch == CR || ch == LF then On(p)
      else if ch == 'H' then Notify(q.(state := ResOrRespH), MessageBegin)
      else Again(q.(typ := Request), StartReq)
    else if p.state.ResOrRespH? then
      if ch == 'T' then To(p.(typ := Response), ResHT)
      else if ch != 'E' then Err(p, InvalidConstant)
      else To(p.(typ := Request, meth := HEAD, index := 2), ReqMethod)
    else if p.state.StartRes? then
      if ch == 'H' then Notify(q.(state := ResH), MessageBegin)
      else if ch == CR || ch == LF then Notify(q, MessageBegin)
      else Err(q, InvalidConstant)
    else
      if ch == CR || ch == LF then On(p)
      else if !IsAlpha(ch) then Err(q, InvalidMethod)
      else
        var m := q.(index := 1);
        if StartMethod(ch).None? then Err(m.(meth := DELETE), InvalidMethod)
        else Notify(m.(meth := StartMethod(ch).value, state := ReqMethod), MessageBegin)
  }

  // Response line.

  predicate IsStatusState(s: State) {
    s.ResFirstStatus? || s.ResStatusCode? || s.ResStatus? || s.ResLineAlmostDone?
  }

  predicate IsResponseState(s: State) {
    || s.ResH? || s.ResHT? || s.ResHTT? || s.ResHTTP?
    || s.ResFirstMajor? || s.ResMajor? || s.ResFirstMinor? || s.ResMinor?
  }

  function Expect(p: Parser, ch: byte, want: byte, next: State): (s: Step)
    ensures Open(next).None? ==> Plain(p, s)
  {
    if ch != want then Err(p, Strict) else To(p, next)
  }

  function StepMajor(p: Parser, ch: byte, next: State): (s: Step)
    ensures Open(p.state).None? && Open(next).None? ==> Plain(p, s)
  {
    if ch == '.' then To(p, next)
    else if !IsNum(ch) then Err(p, InvalidVersion)
    else
      var q := p.(major := p.major * 10 + DigitValue(ch));
      if q.major > 999 then Err(q, InvalidVersion) else On(q)
  }

  function StepMinor(p: Parser, ch: byte): (s: Step)
    ensures Open(p.state).None? ==> Plain(p, s)
  {
    if !IsNum(ch) then Err(p, InvalidVersion)
    else
      var q := p.(minor := p.minor * 10 + DigitValue(ch));
      if q.minor > 999 then Err(q, InvalidVersion) else On(q)
  }

  function StepResponse(p: Parser, ch: byte): (s: Step)
    requires IsResponseState(p.state)
    ensures Plain(p, s)
  {
    if p.state.ResH? then Expect(p, ch, 'T', ResHT)
    else if p.state.ResHT? then Expect(p, ch, 'T', ResHTT)
    else if p.state.ResHTT? then Expect(p, ch, 'P', ResHTTP)
    else if p.state.ResHTTP? then Expect(p, ch, '/', ResFirstMajor)
    else if p.state.ResFirstMajor? then
      if !IsNum(ch) then Err(p, InvalidVersion) else To(p.(major := DigitValue(ch)), ResMajor)
    else if p.state.ResMajor? then StepMajor(p, ch, ResFirstMinor)
    else if p.state.ResFirstMinor? then
      if !IsNum(ch) then Err(p, InvalidVersion) else To(p.(minor := DigitValue(ch)), ResMinor)
    else if ch == ' ' then To(p, ResFirstStatus)
    else StepMinor(p, ch)
  }

  function StepStatus(p: Parser, ch: byte): (s: Step)
    requires IsStatusState(p.state)
    ensures Plain(p, s)
  {
    if p.state.ResFirstStatus? then
      if IsNum(ch) then To(p.(status := DigitValue(ch)), ResStatusCode)
      else if ch == ' ' then On(p)
      else Err(p, InvalidStatus)
    else if p.state.ResStatusCode? then
      if IsNum(ch) then
        var q := p.(status := p.status * 10 + DigitValue(ch));
        if q.status > 999 then Err(q, InvalidStatus) else On(q)
      else if ch == ' ' then To(p, ResStatus)
      else if ch == CR then To(p, ResLineAlmostDone)
      else if ch == LF then To(p, HeaderFieldStart)
      else Err(p, InvalidStatus)
    else if p.state.ResStatus? then
      if ch == CR then To(p, ResLineAlmostDone)
      else if ch == LF then To(p, HeaderFieldStart)
      else On(p)
    else Expect(p, ch, LF, HeaderFieldStart)
  }

  // Request method.

  function MethodString(m: Method): (s: seq<byte>)
    ensures 3 <= |s| <= 11
  {
    match m
    case DELETE => "DELETE" case GET => "GET" case HEAD => "HEAD" case POST => "POST"
    case PUT => "PUT" case CONNECT => "CONNECT" case OPTIONS => "OPTIONS" case TRACE => "TRACE"
    case COPY => "COPY" case LOCK => "LOCK" case MKCOL => "MKCOL" case MOVE => "MOVE"
    case PROPFIND => "PROPFIND" case PROPPATCH => "PROPPATCH" case SEARCH => "SEARCH"
    case UNLOCK => "UNLOCK" case REPORT => "REPORT" case MKACTIVITY => "MKACTIVITY"
    case CHECKOUT => "CHECKOUT" case MERGE => "MERGE" case MSEARCH => "M-SEARCH"
    case NOTIFY => "NOTIFY" case SUBSCRIBE => "SUBSCRIBE" case UNSUBSCRIBE => "UNSUBSCRIBE"
    case PATCH => "PATCH" case PURGE => "PURGE"
  }

  /** A read of a NUL-terminated keyword, `word[i]`. */
  function At(word: seq<byte>, i: nat): byte
    requires i <= |word|
  {
    if i == |word| then '\0' else word[i]
  }

  /** What a mismatching octet does to the guessed method: another method, no
      change, or an error. */
  function Reguess(m: Method, index: nat, ch: byte): Option<Method> {
    if m.CONNECT? then
      if index == 1 && ch == 'H' then Some(CHECKOUT) else if index == 2 && ch == 'P' then Some(COPY) else None
    else if m.MKCOL? then
      if index == 1 && ch == 'O' then Some(MOVE)
      else if index == 1 && ch == 'E' then Some(MERGE)
      else if index == 1 && ch == '-' then Some(MSEARCH)
      else if index == 2 && ch == 'A' then Some(MKACTIVITY)
      else None
    else if m.SUBSCRIBE? then if index == 1 && ch == 'E' then Some(SEARCH) else None
    else
      if index == 1 && m.POST? then
        if ch == 'R' then Some(PROPFIND) else if ch == 'U' then Some(PUT) else if ch == 'A' then Some(PATCH) else None
      else if index == 2 then
        if m.PUT? && ch == 'R' then Some(PURGE) else if m.UNLOCK? && ch == 'S' then Some(UNSUBSCRIBE) else Some(m)
      else if index == 4 && m.PROPFIND? && ch == 'P' then Some(PROPPATCH)
      else None
  }

  /** The errno of a method mismatch: three of the branches reach the error
      label without setting one, which the label turns into `Unknown`. */
  function MethodErrno(m: Method, index: nat): Errno {
    if m.CONNECT? || m.MKCOL? || m.SUBSCRIBE? || (index == 1 && m.POST?) then Unknown else InvalidMethod
  }

  function StepMethod(p: Parser, ch: byte, remaining: nat): (s: Step)
    requires p.state.ReqMethod? && remaining > 0
    ensures Disciplined(p, remaining, s)
  {
    var word := MethodString(p.meth);
    var q := p.(index := p.index + 1);
    if p.index > |word| then On(p).(go := Abort)
    else if ch == '\0' then Err(p, InvalidMethod)
    else if ch == ' ' && p.index == |word| then To(q, SpacesBeforeUrl)
    else if ch == At(word, p.index) then On(q)
    else if Reguess(p.meth, p.index, ch).Some? then On(q.(meth := Reguess(p.meth, p.index, ch).value))
    else Err(p, MethodErrno(p.meth, p.index))
  }

  // Request target.

  /** `parse_url_char`. */
  function ParseUrlChar(s: State, ch: byte): (r: State)
    ensures IsUrlState(r) || r.Dead?
  {
    if ch == ' ' || ch == '\r' || ch == '\n' || ch == '\t' || ch as int == 12 then Dead
    else
      if s.SpacesBeforeUrl? then if ch == '/' || ch == '*' then Path else if IsAlpha(ch) then Schema else Dead
      else if s.Schema? then if IsAlpha(ch) then Schema else if ch == ':' then SchemaSlash else Dead
      else if s.SchemaSlash? then if ch == '/' then SchemaSlashSlash else Dead
      else if s.SchemaSlashSlash? then if ch == '/' then ServerStart else Dead
      else if s.ServerStart? || s.Server? || s.ServerWithAt? then
        if s.ServerWithAt? && ch == '@' then Dead
        else if ch == '/' then Path
        else if ch == '?' then QueryStart
        else if ch == '@' then ServerWithAt
        else if IsUserinfoChar(ch) || ch == '[' || ch == ']' then Server
        else Dead
      else if s.Path? then
        if IsUrlChar(ch) then Path else if ch == '?' then QueryStart else if ch == '#' then FragmentStart else Dead
      else if s.QueryStart? || s.Query? then
        if IsUrlChar(ch) || ch == '?' then Query else if ch == '#' then FragmentStart else Dead
      else if s.FragmentStart? then
        if IsUrlChar(ch) || ch == '?' then Fragment else if ch == '#' then FragmentStart else Dead
      else if s.Fragment? then if IsUrlChar(ch) || ch == '?' || ch == '#' then Fragment else Dead
      else Dead
  }

  function UrlStep(p: Parser, from: State, ch: byte): Step {
    hide ParseUrlChar;
    var q := p.(state := ParseUrlChar(from, ch));
    if q.state.Dead? then Err(q, InvalidUrl) else On(q)
  }

  function StepUrl(p: Parser, ch: byte, remaining: nat): (s: Step)
    requires (p.state.SpacesBeforeUrl? || IsUrlState(p.state)) && remaining > 0
    ensures Disciplined(p, remaining, s)
  {
    hide ParseUrlChar;
    if p.state.SpacesBeforeUrl? then
      if ch == ' ' then On(p)
      else UrlStep(p, if p.meth.CONNECT? then ServerStart else p.state, ch).(mark := Some(Url))
    else if p.state.Schema? || p.state.SchemaSlash? || p.state.SchemaSlashSlash? || p.state.ServerStart? then
      if ch == ' ' || ch == CR || ch == LF then Err(p, InvalidUrl) else UrlStep(p, p.state, ch)
    else
      if ch == ' ' then To(p, ReqHttpStart).(flush := Some(Url))
      else if ch == CR || ch == LF then
        To(p.(major := 0, minor := 9), if ch == CR then ReqLineAlmostDone else HeaderFieldStart).(flush := Some(Url))
      else UrlStep(p, p.state, ch)
  }

  // Rest of the request line.

  predicate IsRequestLineState(s: State) {
    || s.ReqHttpStart? || s.ReqH? || s.ReqHT? || s.ReqHTT? || s.ReqHTTP? || s.ReqFirstMajor? || s.ReqMajor?
    || s.ReqFirstMinor? || s.ReqMinor? || s.ReqLineAlmostDone?
  }

  function StepRequestLine(p: Parser, ch: byte): (s: Step)
    requires IsRequestLineState(p.state)
    ensures Plain(p, s)
  {
    if p.state.ReqHttpStart? then
      if ch == 'H' then To(p, ReqH) else if ch == ' ' then On(p) else Err(p, InvalidConstant)
    else if p.state.ReqH? then Expect(p, ch, 'T', ReqHT)
    else if p.state.ReqHT? then Expect(p, ch, 'T', ReqHTT)
    else if p.state.ReqHTT? then Expect(p, ch, 'P', ReqHTTP)
    else if p.state.ReqHTTP? then Expect(p, ch, '/', ReqFirstMajor)
    else if p.state.ReqFirstMajor? then
      if !IsNum(ch) || ch == '0' then Err(p, InvalidVersion) else To(p.(major := DigitValue(ch)), ReqMajor)
    else if p.state.ReqMajor? then StepMajor(p, ch, ReqFirstMinor)
    else if p.state.ReqFirstMinor? then
      if !IsNum(ch) then Err(p, InvalidVersion) else To(p.(minor := DigitValue(ch)), ReqMinor)
    else if p.state.ReqMinor? then
      if ch == CR then To(p, ReqLineAlmostDone)
      else if ch == LF then To(p, HeaderFieldStart)
      else StepMinor(p, ch)
    else if ch != LF then Err(p, LfExpected) else To(p, HeaderFieldStart)
  }

  // Header names and values.

  /** The keyword a matching header state compares against, and the state that
      a full match leads to. */
  function Keyword(h: HeaderState): (k: (seq<byte>, HeaderState))
    ensures |k.0| <= 17
  {
    if h.MatchingConnection? then ("connection", Connection)
    else if h.MatchingProxyConnection? then ("proxy-connection", Connection)
    else if h.MatchingContentLength? then ("content-length", ContentLength)
    else if h.MatchingTransferEncoding? then ("transfer-encoding", TransferEncoding)
    else if h.MatchingUpgrade? then ("upgrade", Upgrade)
    else if h.MatchingChunked? then ("chunked", TransferEncodingChunked)
    else if h.MatchingKeepAlive? then ("keep-alive", ConnectionKeepAlive)
    else if h.MatchingClose? then ("close", ConnectionClose)
    else ("", General)
  }

  /** One octet of a keyword matcher. `index` was already advanced. */
  function MatchKeyword(p: Parser, c: byte): Parser {
    var (word, full) := Keyword(p.hstate);
    var q := p.(index := p.index + 1);
    if q.index > |word| || c != At(word, q.index) then q.(hstate := General)
    else if q.index == |word| - 1 then q.(hstate := full)
    else q
  }

  function StartFieldState(c: byte): HeaderState {
    if c == 'c' then C
    else if c == 'p' then MatchingProxyConnection
    else if c == 't' then MatchingTransferEncoding
    else if c == 'u' then MatchingUpgrade
    else General
  }

  predicate IsFieldMatcher(h: HeaderState) {
    || h.MatchingConnection? || h.MatchingProxyConnection? || h.MatchingContentLength?
    || h.MatchingTransferEncoding? || h.MatchingUpgrade?
  }

  /** The name matcher on one more token octet; `None` is the failed assertion. */
  function FieldOctet(p: Parser, ch: byte): (r: Option<Parser>)
    ensures r.Some? ==> r.value == p.(hstate := r.value.hstate, index := r.value.index)
  {
    var c := Token(ch);
    var q := p.(index := p.index + 1);
    if p.hstate.General? then Some(p)
    else if p.hstate.C? then Some(q.(hstate := if c == 'o' then CO else General))
    else if p.hstate.CO? then Some(q.(hstate := if c == 'n' then CON else General))
    else if p.hstate.CON? then
      Some(q.(hstate := if c == 'n' then MatchingConnection else if c == 't' then MatchingContentLength else General))
    else if p.hstate.Connection? || p.hstate.ContentLength? || p.hstate.TransferEncoding? || p.hstate.Upgrade? then
      Some(if ch != ' ' then p.(hstate := General) else p)
    else if IsFieldMatcher(p.hstate) then Some(MatchKeyword(p, c)) else None
  }

  function StepHeaderField(p: Parser, ch: byte, remaining: nat): (s: Step)
    requires (p.state.HeaderFieldStart? || p.state.HeaderField?) && remaining > 0
    ensures Disciplined(p, remaining, s)
  {
    hide StartFieldState, FieldOctet, Token, IsToken;
    if p.state.HeaderFieldStart? then
      if ch == CR then To(p, HeadersAlmostDone)
      else if ch == LF then Again(p, HeadersAlmostDone)
      else if !IsToken(ch) then Err(p, InvalidHeaderToken)
      else To(p.(index := 0, hstate := StartFieldState(Token(ch))), HeaderField).(mark := Some(Field))
    else if IsToken(ch) then
      if FieldOctet(p, ch).None? then On(p).(go := Abort) else On(FieldOctet(p, ch).value)
    else if ch == ':' then To(p, HeaderValueStart).(flush := Some(Field))
    else if ch == CR then To(p, HeaderAlmostDone).(flush := Some(Field))
    else if ch == LF then To(p, HeaderFieldStart).(flush := Some(Field))
    else Err(p, InvalidHeaderToken)
  }

  /** A step that stays inside one header value. */
  ghost predicate InValue(p: Parser, s: Step) {
    && s.mark.None? && s.flush.None? && s.note.None? && s.skip == 0
    && !s.go.Reexecute? && !s.go.Leave?
    && (s.go.Break? ==> s.p.errno == p.errno && s.p.state.HeaderValue?)
    && (s.go.Fail? ==> s.p.errno != OK)
  }

  /** First octet of a header value. */
  function ValueStart(p: Parser, ch: byte): (s: Step)
    ensures InValue(p, s)
  {
    var q := p.(state := HeaderValue, index := 0);
    var c := Lower(ch);
    if p.hstate.Upgrade? then On(q.(flags := q.flags.(upgrade := true), hstate := General))
    else if p.hstate.TransferEncoding? then On(q.(hstate := if c == 'c' then MatchingChunked else General))
    else if p.hstate.ContentLength? then
      if !IsNum(ch) then Err(q, InvalidContentLength) else On(q.(contentLength := DigitValue(ch)))
    else if p.hstate.Connection? then
      On(q.(hstate := if c == 'k' then MatchingKeepAlive else if c == 'c' then MatchingClose else General))
    else On(q.(hstate := General))
  }

  /** One more digit of a 64-bit number: wraps, and rejects only what the
      partial overflow test of the source catches. */
  function AddDigit(n: nat, base: nat, digit: nat): (r: Option<nat>)
    ensures r.Some? ==> n <= r.value < ULLONG_MAX
  {
    var t := (n * base + digit) % U64;
    if t < n || t == ULLONG_MAX then None else Some(t)
  }

  /** A digit is taken with the value it stands for exactly when that is below the mark
      for "no length". */
  lemma AddDigitExact(n: nat, base: nat, digit: nat)
    requires 0 < base && n < U64
    ensures AddDigit(n, base, digit) == Some(n * base + digit) <==> n * base + digit < ULLONG_MAX
  {
    assert n <= n * base;
  }

  /** Later octets of a header value. */
  function ValueOctet(p: Parser, ch: byte): (s: Step)
    ensures p.state.HeaderValue? ==> InValue(p, s)
  {
    if p.hstate.General? then On(p)
    else if p.hstate.Connection? || p.hstate.TransferEncoding? then On(p).(go := Abort)
    else if p.hstate.ContentLength? then
      if ch == ' ' then On(p)
      else if !IsNum(ch) then Err(p, InvalidContentLength)
      else
        var t := AddDigit(p.contentLength, 10, DigitValue(ch));
        if t.None? then Err(p, InvalidContentLength) else On(p.(contentLength := t.value))
    else if p.hstate.MatchingChunked? || p.hstate.MatchingKeepAlive? || p.hstate.MatchingClose? then
      On(MatchKeyword(p, Lower(ch)))
    else if p.hstate.TransferEncodingChunked? || p.hstate.ConnectionKeepAlive? || p.hstate.ConnectionClose? then
      On(if ch != ' ' then p.(hstate := General) else p)
    else On(p.(hstate := General))
  }

  predicate IsHeaderValueState(s: State) {
    s.HeaderValueStart? || s.HeaderValue? || s.HeaderAlmostDone? || s.HeaderValueLws?
  }

  function RecordFlag(p: Parser): Flags {
    if p.hstate.ConnectionKeepAlive? then p.flags.(keepAlive := true)
    else if p.hstate.ConnectionClose? then p.flags.(close := true)
    else if p.hstate.TransferEncodingChunked? then p.flags.(chunked := true)
    else p.flags
  }

  function StepHeaderValue(p: Parser, ch: byte, remaining: nat): (s: Step)
    requires IsHeaderValueState(p.state) && remaining > 0
    ensures Disciplined(p, remaining, s)
  {
    hide ValueStart, ValueOctet, RecordFlag;
    if p.state.HeaderValueStart? then
      if ch == ' ' || ch == '\t' then On(p)
      else if ch == CR then
        To(p.(index := 0, hstate := General), HeaderAlmostDone).(mark := Some(Value), flush := Some(Value))
      else if ch == LF then
        To(p.(index := 0), HeaderFieldStart).(mark := Some(Value), flush := Some(Value))
      else ValueStart(p, ch).(mark := Some(Value))
    else if p.state.HeaderValue? then
      if ch == CR then To(p, HeaderAlmostDone).(flush := Some(Value))
      else if ch == LF then Again(p, HeaderAlmostDone).(flush := Some(Value))
      else ValueOctet(p, ch)
    else if p.state.HeaderAlmostDone? then
      if ch != LF then Err(p, Strict) else To(p.(flags := RecordFlag(p)), HeaderValueLws)
    else
      if ch == ' ' || ch == '\t' then To(p, HeaderValueStart) else Again(p, HeaderFieldStart)
  }

  // End of the headers.

  function StepHeadersEnd(env: Env, p: Parser, ch: byte, remaining: nat): (s: Step)
    requires (p.state.HeadersAlmostDone? || p.state.HeadersDone?) && remaining > 0
    ensures Disciplined(p, remaining, s)
  {
    hide ShouldKeepAlive, NeedsEof;
    if ch != LF then Err(p, Strict)
    else if p.state.HeadersAlmostDone? then
      if p.flags.trailing then Complete(p)
      else
        var q := p.(state := HeadersDone, upgrade := p.flags.upgrade || p.meth.CONNECT?);
        var r := env.headersComplete(q);
        if r == 0 then Notify(q, HeadersComplete).(go := Reexecute)
        else if r == 1 then Notify(q.(flags := q.flags.(skipBody := true)), HeadersComplete).(go := Reexecute)
        else Err(q, CbHeadersComplete).(note := Some(HeadersComplete))
    else
      var q := p.(nread := 0);
      if p.upgrade then Complete(q).(go := Leave)
      else if p.flags.skipBody then Complete(q)
      else if p.flags.chunked then To(q, ChunkSizeStart)
      else if p.contentLength == 0 then Complete(q)
      else if p.contentLength != ULLONG_MAX then To(q, BodyIdentity)
      else if p.typ.Request? || !NeedsEof(q) then Complete(q)
      else To(q, BodyIdentityEof)
  }

  // Bodies.

  predicate IsBodyPhase(s: State) {
    IsChunkState(s) || s.BodyIdentity? || s.BodyIdentityEof? || s.MessageDone?
  }

  predicate IsChunkState(s: State) {
    || s.ChunkSizeStart? || s.ChunkSize? || s.ChunkParameters? || s.ChunkSizeAlmostDone?
    || s.ChunkData? || s.ChunkDataAlmostDone? || s.ChunkDataDone?
  }

  /** The `assert`s at the head of the body cases. */
  predicate BodyAsserts(p: Parser) {
    && (p.state.ChunkSizeStart? ==> p.nread == 1)
    && (p.state.BodyIdentity? || p.state.ChunkData? ==> p.contentLength != 0 && p.contentLength != ULLONG_MAX)
    && (p.state.ChunkDataAlmostDone? ==> p.contentLength == 0)
    && (IsChunkState(p.state) ==> p.flags.chunked)
  }

  function StepChunkHead(p: Parser, ch: byte): (s: Step)
    requires p.state.ChunkSizeStart? || p.state.ChunkSize? || p.state.ChunkParameters? || p.state.ChunkSizeAlmostDone?
    ensures Plain(p, s)
  {
    if p.state.ChunkSizeStart? then
      if Unhex(ch) == -1 then Err(p, InvalidChunkSize)
      else To(p.(contentLength := Unhex(ch)), ChunkSize)
    else if p.state.ChunkSize? then
      if ch == CR then To(p, ChunkSizeAlmostDone)
      else if Unhex(ch) == -1 then
        if ch == ';' || ch == ' ' then To(p, ChunkParameters) else Err(p, InvalidChunkSize)
      else
        var t := AddDigit(p.contentLength, 16, Unhex(ch));
        if t.None? then Err(p, InvalidContentLength) else On(p.(contentLength := t.value))
    else if p.state.ChunkParameters? then
      if ch == CR then To(p, ChunkSizeAlmostDone) else On(p)
    else if ch != LF then Err(p, Strict)
    else if p.contentLength == 0 then
      To(p.(nread := 0, flags := p.flags.(trailing := true)), HeaderFieldStart)
    else To(p.(nread := 0), ChunkData)
  }

  function StepBodyData(p: Parser, remaining: nat): (s: Step)
    requires IsBodyState(p.state) && BodyAsserts(p) && remaining > 0
    ensures Disciplined(p, remaining, s)
  {
    var n := Min(p.contentLength, remaining);
    var q := p.(contentLength := p.contentLength - n);
    if p.state.BodyIdentityEof? then On(p).(mark := Some(Body), skip := remaining - 1)
    else if q.contentLength > 0 then On(q).(mark := Some(Body), skip := n - 1)
    else if p.state.BodyIdentity? then
      Again(q, MessageDone).(mark := Some(Body), flush := Some(Body), skip := n - 1)
    else To(q, ChunkDataAlmostDone).(mark := Some(Body), skip := n - 1)
  }

  function StepBody(p: Parser, ch: byte, remaining: nat): (s: Step)
    requires IsBodyPhase(p.state) && remaining > 0
    ensures Disciplined(p, remaining, s)
  {
    if !BodyAsserts(p) then On(p).(go := Abort)
    else if IsBodyState(p.state) then StepBodyData(p, remaining)
    else if p.state.MessageDone? then Complete(p)
    else if p.state.ChunkDataAlmostDone? then
      if ch != CR then Err(p, Strict) else To(p, ChunkDataDone).(flush := Some(Body))
    else if p.state.ChunkDataDone? then
      if ch != LF then Err(p, Strict) else To(p.(nread := 0), ChunkSizeStart)
    else StepChunkHead(p, ch)
  }

  function Switch(env: Env, p: Parser, ch: byte, remaining: nat): (s: Step)
    requires remaining > 0
    ensures Disciplined(p, remaining, s)
  {
    if IsStartState(p.state) then StepStart(p, ch, remaining)
    else if IsResponseState(p.state) then StepResponse(p, ch)
    else if IsStatusState(p.state) then StepStatus(p, ch)
    else if p.state.ReqMethod? then StepMethod(p, ch, remaining)
    else if p.state.SpacesBeforeUrl? || IsUrlState(p.state) then StepUrl(p, ch, remaining)
    else if IsRequestLineState(p.state) then StepRequestLine(p, ch)
    else if p.state.HeaderFieldStart? || p.state.HeaderField? then StepHeaderField(p, ch, remaining)
    else if IsHeaderValueState(p.state) then StepHeaderValue(p, ch, remaining)
    else if p.state.HeadersAlmostDone? || p.state.HeadersDone? then StepHeadersEnd(env, p, ch, remaining)
    else StepBody(p, ch, remaining)
  }
}
