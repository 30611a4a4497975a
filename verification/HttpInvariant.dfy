/** The reachable states of the parser, and why none of its internal
    assertions can fail in them. */
module HttpInvariant {
  import opened Basics
  import opened HttpSyntax
  import opened HttpParser

  predicate IsMatcher(h: HeaderState) {
    IsFieldMatcher(h) || h.MatchingChunked? || h.MatchingKeepAlive? || h.MatchingClose?
  }

  /** Header states that can occur while a header name is being read, with the
      matcher index strictly before the last octet of its keyword. */
  predicate FieldInv(p: Parser) {
    || (p.hstate.C? && p.index == 0) || (p.hstate.CO? && p.index == 1) || (p.hstate.CON? && p.index == 2)
    || (IsFieldMatcher(p.hstate) && p.index + 1 < |Keyword(p.hstate).0|)
    || p.hstate.General? || p.hstate.Connection? || p.hstate.ContentLength? || p.hstate.TransferEncoding?
    || p.hstate.Upgrade?
  }

  predicate ValueInv(p: Parser) {
    && !p.hstate.Connection? && !p.hstate.TransferEncoding?
    && (IsMatcher(p.hstate) ==> p.index + 1 < |Keyword(p.hstate).0|)
  }

  /** What holds of a parser without an error. `counted` says whether the octet
      at hand was already added to `nread`. */
  predicate Inv(p: Parser, counted: bool) {
    && (p.state.ReqMethod? ==> p.index <= |MethodString(p.meth)|)
    && (p.state.HeaderField? ==> FieldInv(p))
    && (p.state.HeaderValue? ==> ValueInv(p))
    && (p.state.ChunkSizeStart? ==> p.nread == if counted then 1 else 0)
    && (IsChunkState(p.state) ==> p.flags.chunked)
    && (IsChunkState(p.state) && !p.state.ChunkSizeStart? ==> p.contentLength < ULLONG_MAX)
    && (p.state.BodyIdentity? || p.state.ChunkData? ==> p.contentLength != 0 && p.contentLength < ULLONG_MAX)
    && (p.state.ChunkDataAlmostDone? ==> p.contentLength == 0)
    && p.index <= 18 && p.contentLength < U64 && p.nread <= MAX_HEADER_SIZE
    && p.major <= 999 && p.minor <= 999 && p.status <= 999
  }

  /** A parser between two calls: once an error is recorded nothing is read again. */
  predicate Valid(p: Parser) {
    p.errno.OK? ==> Inv(p, false)
  }

  lemma InitValid(t: ParserType)
    ensures Valid(Init(t))
  {
  }

  /** A step that keeps the invariant and cannot fail an assertion. */
  ghost predicate Keeps(s: Step) {
    && !s.go.Abort?
    && (!s.go.Fail? ==> Inv(s.p, s.go.Reexecute?))
  }

  lemma StartKeeps(p: Parser, ch: byte, remaining: nat)
    requires IsStartState(p.state) && remaining > 0 && Inv(p, true)
    ensures Keeps(StepStart(p, ch, remaining))
  {
    hide FieldInv, ValueInv, IsAlpha;
  }

  lemma ResponseKeeps(p: Parser, ch: byte)
    requires Inv(p, true) && IsResponseState(p.state)
    ensures Keeps(StepResponse(p, ch))
  {
    hide MethodString, FieldInv, ValueInv;
  }

  lemma StatusKeeps(p: Parser, ch: byte)
    requires Inv(p, true) && IsStatusState(p.state)
    ensures Keeps(StepStatus(p, ch))
  {
    hide MethodString, FieldInv, ValueInv;
  }

  lemma MethodKeeps(p: Parser, ch: byte, remaining: nat)
    requires p.state.ReqMethod? && remaining > 0 && Inv(p, true)
    ensures Keeps(StepMethod(p, ch, remaining))
  {
    var word := MethodString(p.meth);
    if ch != '\0' && !(ch == ' ' && p.index == |word|) && ch != At(word, p.index) && Reguess(p.meth, p.index, ch).Some? {
      assert p.index + 1 <= |MethodString(Reguess(p.meth, p.index, ch).value)|;
    }
  }

  lemma UrlKeeps(p: Parser, ch: byte, remaining: nat)
    requires (p.state.SpacesBeforeUrl? || IsUrlState(p.state)) && remaining > 0 && Inv(p, true)
    ensures Keeps(StepUrl(p, ch, remaining))
  {
    hide ParseUrlChar, MethodString, FieldInv, ValueInv;
  }

  lemma RequestLineKeeps(p: Parser, ch: byte)
    requires IsRequestLineState(p.state) && Inv(p, true)
    ensures Keeps(StepRequestLine(p, ch))
  {
    hide MethodString, FieldInv, ValueInv;
  }

  /** A matcher octet: the keyword is abandoned, completed, or one octet
      further and still before its last one. */
  lemma MatchKeywordInv(p: Parser, c: byte)
    requires IsMatcher(p.hstate) && p.index + 1 < |Keyword(p.hstate).0|
    ensures var q := MatchKeyword(p, c);
      && q == p.(hstate := q.hstate, index := p.index + 1)
      && (q.hstate.General? || q.hstate == Keyword(p.hstate).1 || (q.hstate == p.hstate && q.index + 1 < |Keyword(q.hstate).0|))
  {
  }

  lemma FieldOctetInv(p: Parser, ch: byte)
    requires FieldInv(p) && p.index <= 18
    ensures FieldOctet(p, ch).Some?
    ensures var q := FieldOctet(p, ch).value;
      q == p.(hstate := q.hstate, index := q.index) && FieldInv(q) && q.index <= 18
  {
    if IsFieldMatcher(p.hstate) { MatchKeywordInv(p, Token(ch)); }
  }

  lemma HeaderFieldKeeps(p: Parser, ch: byte, remaining: nat)
    requires (p.state.HeaderFieldStart? || p.state.HeaderField?) && remaining > 0 && Inv(p, true)
    ensures Keeps(StepHeaderField(p, ch, remaining))
  {
    hide FieldOctet, ValueInv, MethodString, IsToken, Token;
    if p.state.HeaderField? { FieldOctetInv(p, ch); }
  }

  lemma ValueStartKeeps(p: Parser, ch: byte)
    requires p.state.HeaderValueStart? && Inv(p, true)
    ensures Keeps(ValueStart(p, ch))
  {
    hide MethodString, FieldInv;
  }

  lemma ValueOctetKeeps(p: Parser, ch: byte)
    requires p.state.HeaderValue? && Inv(p, true)
    ensures Keeps(ValueOctet(p, ch))
  {
    hide MethodString, FieldInv, AddDigit;
    if IsMatcher(p.hstate) { MatchKeywordInv(p, Lower(ch)); }
  }

  lemma HeaderValueKeeps(p: Parser, ch: byte, remaining: nat)
    requires IsHeaderValueState(p.state) && remaining > 0 && Inv(p, true)
    ensures Keeps(StepHeaderValue(p, ch, remaining))
  {
    hide ValueStart, ValueOctet, FieldInv, ValueInv, MethodString;
    if p.state.HeaderValueStart? { ValueStartKeeps(p, ch); }
    if p.state.HeaderValue? { ValueOctetKeeps(p, ch); }
  }

  lemma HeadersEndKeeps(env: Env, p: Parser, ch: byte, remaining: nat)
    requires (p.state.HeadersAlmostDone? || p.state.HeadersDone?) && remaining > 0 && Inv(p, true)
    ensures Keeps(StepHeadersEnd(env, p, ch, remaining))
  {
    hide MethodString, FieldInv, ValueInv, ShouldKeepAlive;
  }

  lemma ChunkHeadKeeps(p: Parser, ch: byte)
    requires p.state.ChunkSizeStart? || p.state.ChunkSize? || p.state.ChunkParameters? || p.state.ChunkSizeAlmostDone?
    requires Inv(p, true)
    ensures Keeps(StepChunkHead(p, ch))
  {
    hide MethodString, FieldInv, ValueInv, AddDigit;
  }

  lemma BodyDataKeeps(p: Parser, remaining: nat)
    requires IsBodyState(p.state) && remaining > 0 && Inv(p, true)
    ensures BodyAsserts(p) && Keeps(StepBodyData(p, remaining))
  {
    hide MethodString, FieldInv, ValueInv;
  }

  lemma BodyKeeps(p: Parser, ch: byte, remaining: nat)
    requires IsBodyPhase(p.state) && remaining > 0 && Inv(p, true)
    ensures Keeps(StepBody(p, ch, remaining))
  {
    hide MethodString, FieldInv, ValueInv, StepChunkHead, StepBodyData;
    if IsBodyState(p.state) {
      BodyDataKeeps(p, remaining);
    } else if p.state.ChunkSizeStart? || p.state.ChunkSize? || p.state.ChunkParameters? || p.state.ChunkSizeAlmostDone? {
      ChunkHeadKeeps(p, ch);
    }
  }

  /** No internal assertion of `http_parser_execute` fails in a reachable state,
      and every step leads to a reachable state. */
  lemma SwitchKeeps(env: Env, p: Parser, ch: byte, remaining: nat)
    requires remaining > 0 && Inv(p, true)
    ensures Keeps(Switch(env, p, ch, remaining))
  {
    hide Inv, StepStart, StepResponse, StepStatus, StepMethod, StepUrl, StepRequestLine, StepHeaderField, StepHeaderValue, StepHeadersEnd, StepBody;
    if IsStartState(p.state) { StartKeeps(p, ch, remaining); }
    else if IsResponseState(p.state) { ResponseKeeps(p, ch); }
    else if IsStatusState(p.state) { StatusKeeps(p, ch); }
    else if p.state.ReqMethod? { MethodKeeps(p, ch, remaining); }
    else if p.state.SpacesBeforeUrl? || IsUrlState(p.state) { UrlKeeps(p, ch, remaining); }
    else if IsRequestLineState(p.state) { RequestLineKeeps(p, ch); }
    else if p.state.HeaderFieldStart? || p.state.HeaderField? { HeaderFieldKeeps(p, ch, remaining); }
    else if IsHeaderValueState(p.state) { HeaderValueKeeps(p, ch, remaining); }
    else if p.state.HeadersAlmostDone? || p.state.HeadersDone? { HeadersEndKeeps(env, p, ch, remaining); }
    else { BodyKeeps(p, ch, remaining); }
  }
}
