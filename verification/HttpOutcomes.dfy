/** What becomes of a printed head in every case: it fits or is too long, the
    `on_headers_complete` callback lets the message pass, has its body skipped or
    rejects it, and the message may give the connection up to another protocol. */
module HttpOutcomes {
  import opened Basics
  import opened HttpSyntax
  import opened HttpParser
  import opened HttpStream
  import opened HttpReads
  import opened HttpRequestLine
  import opened HttpHeaders
  import opened HttpBodies
  import opened HttpMessages
  import opened HttpResponses

  // The answer of the callback.

  /** The parser that the callback is shown. */
  function Shown(p: Parser): Parser {
    Advance(p, 1).(state := HeadersDone, upgrade := p.flags.upgrade || p.meth.CONNECT?)
  }

  /** The end of the head after the callback returned `v`. */
  function Answered(b: Parser, v: int): Fed {
    var c := b.(nread := 0, flags := b.flags.(skipBody := b.flags.skipBody || v == 1));
    if v != 0 && v != 1 then Fed(b.(errno := CbHeadersComplete), [Notice(HeadersComplete)], Failed)
    else if b.upgrade || v == 1 then
      Fed(c.(state := NewMessage(c)), [Notice(HeadersComplete), Notice(MessageComplete)], if b.upgrade then Upgraded else More)
    else Fed(ReplyHeadDone(b), ReplyNotices(b), More)
  }

  lemma AskStep(env: Env, p: Parser)
    requires p.state.HeadersAlmostDone? && !p.flags.trailing
    ensures var b := p.(state := HeadersDone, upgrade := p.flags.upgrade || p.meth.CONNECT?);
      Switch(env, p, LF, 1) ==
        var v := env.headersComplete(b);
        if v == 0 then Notify(b, HeadersComplete).(go := Reexecute)
        else if v == 1 then Notify(b.(flags := b.flags.(skipBody := true)), HeadersComplete).(go := Reexecute)
        else Err(b, CbHeadersComplete).(note := Some(HeadersComplete))
  {
    HeadersEndSwitch(env, p, LF, 1);
    hide Switch;
  }

  lemma EndsAtOnce(env: Env, b: Parser)
    requires b.state.HeadersDone? && (b.upgrade || b.flags.skipBody)
    ensures var c := b.(nread := 0);
      Exec(env, b, LF) == Fed(c.(state := NewMessage(c)), [Notice(MessageComplete)], if b.upgrade then Upgraded else More)
  {
    var c := b.(nread := 0);
    HeadersEndSwitch(env, b, LF, 1);
    hide Switch, ShouldKeepAlive;
    assert Switch(env, b, LF, 1) == Complete(c).(go := if b.upgrade then Leave else Break);
    assert Open(NewMessage(c)).None?;
    assert [] + [Notice(MessageComplete)] == [Notice(MessageComplete)];
    assert [Notice(MessageComplete)] + [] == [Notice(MessageComplete)];
  }

  /** The line feed that ends a head, for every callback. */
  lemma LfOutcome(env: Env, p: Parser)
    requires p.state.HeadersAlmostDone? && !p.flags.trailing && !p.flags.skipBody && p.nread < env.limit
    ensures Feed(env, p, LF) == Answered(Shown(p), env.headersComplete(Shown(p)))
  {
    hide Switch, NewMessage, ReplyHeadDone, ReplyNotices;
    var a, b := Advance(p, 1), Shown(p);
    var v := env.headersComplete(b);
    AskStep(env, a);
    var told := [Notice(HeadersComplete)];
    assert [] + told == told;
    if v == 1 {
      EndsAtOnce(env, b.(flags := b.flags.(skipBody := true)));
    } else if v == 0 && b.upgrade {
      EndsAtOnce(env, b);
    } else if v == 0 {
      ReplyDoneStep(env, b);
      NoticesStart(b);
    }
    assert told + [Notice(MessageComplete)] == [Notice(HeadersComplete), Notice(MessageComplete)];
  }

  // Heads that are too long.

  predicate Overflowed(r: Run) {
    r.end.Failed? && r.p.errno.HeaderOverflow?
  }

  lemma SwitchIgnoresLimit(env: Env, wide: Env, p: Parser, ch: byte)
    requires wide == env.(limit := wide.limit)
    ensures Switch(env, p, ch, 1) == Switch(wide, p, ch, 1)
  {
    hide StepStart, StepResponse, StepStatus, StepMethod, StepUrl, StepRequestLine, StepHeaderField, StepHeaderValue,
         StepBody, ShouldKeepAlive, NeedsEof;
  }

  lemma {:induction false} ExecIgnoresLimit(env: Env, wide: Env, p: Parser, ch: byte)
    requires wide == env.(limit := wide.limit)
    ensures Exec(env, p, ch) == Exec(wide, p, ch)
    decreases Rank(p.state)
  {
    SwitchIgnoresLimit(env, wide, p, ch);
    hide Switch;
    var s := Switch(env, p, ch, 1);
    if s.go.Reexecute? { ExecIgnoresLimit(env, wide, s.p, ch); }
  }

  /** A smaller limit changes nothing but that the header may overflow. */
  lemma {:induction false} SmallerLimit(env: Env, wide: Env, p: Parser, data: seq<byte>)
    requires wide == env.(limit := wide.limit) && env.limit <= wide.limit
    ensures Parse(env, p, data) == Parse(wide, p, data) || Overflowed(Parse(env, p, data))
    decreases |data|
  {
    hide Exec;
    if data != [] {
      ExecIgnoresLimit(env, wide, Count(p), data[0]);
      var f := Feed(env, p, data[0]);
      if f.end.More? { SmallerLimit(env, wide, f.p, data[1..]); }
    }
  }

  /** A head that would be read in full but for the limit, from which its last octet
      is missing, overflows with that octet at the latest. */
  lemma TooLong(env: Env, wide: Env, p: Parser, head: seq<byte>, out: seq<Atom>, q: Parser, last: byte)
    requires wide == env.(limit := wide.limit) && env.limit <= wide.limit
    requires Reads(wide, p, head, out, q) && ParsingHeader(q.state) && q.nread >= env.limit
    ensures Overflowed(Parse(env, p, head + [last]))
  {
    SmallerLimit(env, wide, p, head);
    ParseConcat(env, p, head, [last]);
    hide Exec;
    assert Overflows(env, Count(q));
  }

  // Heads of requests.

  /** A head that fits ends as the callback decides. */
  lemma HeadOutcome(env: Env, p: Parser, r: HttpRequest) returns (b: Parser)
    requires p.state.StartReq? && IsHead(r) && p.nread + |PrintHead(r)| <= env.limit
    ensures b == Advance(Headed(p, r, b.hstate, b.index), |PrintHead(r)|).(state := HeadersDone, upgrade := Upgrades(r))
    ensures var f := Answered(b, env.headersComplete(b));
      Parse(env, p, PrintHead(r)) ==
        Run(f.p, HeadAtoms(r) + f.out, |PrintHead(r)| - (if f.end.Failed? then 1 else 0), f.end)
  {
    hide Reads, OpenHead, HeadAtoms, EffectAll, IsHead, Decimal, NewMessage, ReplyHeadDone, ReplyNotices, Feed;
    var a := ReadsOpenHead(env, p, r);
    LfOutcome(env, a);
    b := Shown(a);
    EndsWith(env, p, OpenHead(r), HeadAtoms(r), a, LF);
  }

  /** A head is read to its end exactly when it fits into what the octets already
      counted leave of the limit; otherwise the parser reports the overflow. */
  lemma HeadExact(env: Env, p: Parser, r: HttpRequest)
    requires p.state.StartReq? && IsHead(r) && Accepts(env)
    ensures var run := Parse(env, p, PrintHead(r));
      && (!run.end.Failed? <==> p.nread + |PrintHead(r)| <= env.limit)
      && (run.end.Failed? ==> run.p.errno.HeaderOverflow?)
  {
    hide Reads, OpenHead, HeadAtoms, EffectAll, IsHead, Decimal, NewMessage, Parse, Answered;
    if p.nread + |PrintHead(r)| <= env.limit {
      var b := HeadOutcome(env, p, r);
      NeverFails(b);
    } else {
      var wide := env.(limit := p.nread + |PrintHead(r)|);
      var a := ReadsOpenHead(wide, p, r);
      TooLong(env, wide, p, OpenHead(r), HeadAtoms(r), a, LF);
    }
  }

  lemma NeverFails(b: Parser)
    ensures !Answered(b, 0).end.Failed?
  {
  }

  // Heads of responses.

  lemma ReplyHeadOutcome(env: Env, p: Parser, r: HttpReply) returns (b: Parser)
    requires p.state.StartRes? && IsReplyHead(r) && p.nread + |PrintReplyHead(r)| <= env.limit
    ensures b == Advance(ReplyHeaded(p, r, b.hstate, b.index), |PrintReplyHead(r)|)
                 .(state := HeadersDone, upgrade := ReplyFraming(r).flags.upgrade || p.meth.CONNECT?)
    ensures var f := Answered(b, env.headersComplete(b));
      Parse(env, p, PrintReplyHead(r)) ==
        Run(f.p, ReplyHeadAtoms(r) + f.out, |PrintReplyHead(r)| - (if f.end.Failed? then 1 else 0), f.end)
  {
    hide Reads, OpenReplyHead, ReplyHeadAtoms, EffectAll, IsReplyHead, Decimal, NewMessage, ReplyHeadDone, ReplyNotices, Feed;
    var a := ReadsOpenReplyHead(env, p, r);
    LfOutcome(env, a);
    b := Shown(a);
    EndsWith(env, p, OpenReplyHead(r), ReplyHeadAtoms(r), a, LF);
  }

  lemma ReplyHeadExact(env: Env, p: Parser, r: HttpReply)
    requires p.state.StartRes? && IsReplyHead(r) && Accepts(env)
    ensures var run := Parse(env, p, PrintReplyHead(r));
      && (!run.end.Failed? <==> p.nread + |PrintReplyHead(r)| <= env.limit)
      && (run.end.Failed? ==> run.p.errno.HeaderOverflow?)
  {
    hide Reads, OpenReplyHead, ReplyHeadAtoms, EffectAll, IsReplyHead, Decimal, NewMessage, Parse, Answered;
    if p.nread + |PrintReplyHead(r)| <= env.limit {
      var b := ReplyHeadOutcome(env, p, r);
      NeverFails(b);
    } else {
      var wide := env.(limit := p.nread + |PrintReplyHead(r)|);
      var a := ReadsOpenReplyHead(wide, p, r);
      TooLong(env, wide, p, OpenReplyHead(r), ReplyHeadAtoms(r), a, LF);
    }
  }

  /** A response with a status that has no body is complete at the blank line exactly
      when its headers announce neither chunks nor a positive length. */
  lemma BodilessExact(env: Env, p: Parser, r: HttpReply)
    requires p.state.StartRes? && p.typ.Response? && !p.meth.CONNECT? && Accepts(env)
    requires IsReplyHead(r) && Bodiless(Decimal(r.status)) && !ReplyFraming(r).flags.upgrade
    requires p.nread + |PrintReplyHead(r)| <= env.limit
    ensures var f, run := ReplyFraming(r), Parse(env, p, PrintReplyHead(r));
      && run.end.More?
      && run.out == ReplyHeadAtoms(r) + [Notice(HeadersComplete)]
                    + if !f.flags.chunked && (f.contentLength == 0 || f.contentLength == ULLONG_MAX)
                      then [Notice(MessageComplete)] else []
  {
    hide Parse, OpenReplyHead, ReplyHeadAtoms, EffectAll, IsReplyHead, Decimal, NewMessage, ReplyHeadDone;
    var b := ReplyHeadOutcome(env, p, r);
  }

  /** A 304 with a length: five body octets are read and reported. */
  lemma NotModifiedBody(env: Env)
    requires Accepts(env) && env.limit == MAX_HEADER_SIZE
    ensures var r := HttpReply("1", "1", "304", None, [Header("content-length", "5")], Bytes("hello"));
      Bodiless(304) && IsReply(r) && Parse(env, Init(Response), PrintReply(r)).out == ReplyAtoms(r)
  {
    hide EffectAll, Effect, IsHeader, Decimal, ReplyAtoms, Parse, PrintHeaders;
    var r := HttpReply("1", "1", "304", None, [Header("content-length", "5")], Bytes("hello"));
    Ones();
    Statuses();
    LengthSays();
    OneHeader(FRESH, Header("content-length", "5"));
    OneHeaderLine(Header("content-length", "5"));
    var q := ReadsReply(env, Init(Response), r);
    ReadsIs(env, Init(Response), PrintReply(r), ReplyAtoms(r), q);
  }

  lemma LengthSays()
    ensures var h := Header("content-length", "5"); IsHeader(h) && Effect(FRESH, h) == FRESH.(contentLength := 5)
  {
    hide LowerName, IsToken;
    LowerCaseName("content-length");
    assert DecimalFrom(0, "5") == 5;
  }

  // Several messages on one connection.

  lemma ReadsIs(env: Env, p: Parser, data: seq<byte>, out: seq<Atom>, q: Parser)
    requires Reads(env, p, data, out, q)
    ensures Parse(env, p, data) == Run(q, out, |data|, More)
  {
  }

  /** The two ways in which well-formed requests can fail on one connection. */
  predicate Refused(r: Run) {
    r.end.Failed? && (r.p.errno.HeaderOverflow? || r.p.errno.ClosedConnection?)
  }

  /** Requests are read in order exactly when all but the last keep the connection alive
      and every head fits together with the header octets that the trailer of its
      predecessor left counted. */
  lemma {:induction false} PipelineExact(env: Env, p: Parser, rs: seq<HttpRequest>)
    requires p.state.StartReq? && p.typ.Request? && Accepts(env) && env.limit == MAX_HEADER_SIZE && AreRequests(rs)
    ensures var run := Parse(env, p, PrintAll(rs));
      && (run.end.More? <==> IsPipeline(rs, p.nread))
      && (!run.end.More? ==> Refused(run))
      && (Persistent(rs) && !run.end.More? ==> Overflowed(run))
    decreases |rs|
  {
    hide Reads, PrintRequest, RequestAtoms, IsRequest, KeepsAlive, PrintHead, Carried, Parse;
    if rs == [] {
      ReadsNothing(env, p);
      ReadsIs(env, p, [], [], p);
    } else {
      var rest := PrintAll(rs[1..]);
      if p.nread + |PrintHead(rs[0])| <= MAX_HEADER_SIZE {
        var a := ReadsRequest(env, p, rs[0]);
        ReadsGoesOn(env, p, PrintRequest(rs[0]), RequestAtoms(rs[0]), a, rest);
        if |rs| == 1 {
          assert rest == [] && HeadsFit(rs[1..], Carried(rs[0]));
          assert Persistent(rs);
          ReadsNothing(env, a);
          ReadsIs(env, a, [], [], a);
        } else if KeepsAlive(rs[0]) {
          PersistentTail(rs);
          PipelineExact(env, a, rs[1..]);
        } else {
          StartsWithMethod(rs[1..]);
          DeadRefuses(env, a, rest);
        }
      } else {
        FirstHeadFails(env, p, rs[0], rest);
      }
    }
  }

  lemma PersistentTail(rs: seq<HttpRequest>)
    requires AreRequests(rs) && |rs| > 1
    ensures AreRequests(rs[1..]) && (Persistent(rs) <==> KeepsAlive(rs[0]) && Persistent(rs[1..]))
  {
    hide IsRequest, KeepsAlive;
    assert forall i :: 1 <= i < |rs| ==> rs[i] == rs[1..][i - 1];
  }

  lemma StartsWithMethod(rs: seq<HttpRequest>)
    requires rs != []
    ensures PrintAll(rs) != [] && PrintAll(rs)[0] != CR && PrintAll(rs)[0] != LF
  {
    hide PrintHeaders;
    var m := MethodString(rs[0].verb);
    assert m[0] != CR && m[0] != LF;
    assert m <= PrintLine(rs[0].verb, rs[0].target, rs[0].major, rs[0].minor) <= PrintAll(rs);
  }

  /** A closed connection takes no further request. */
  lemma DeadRefuses(env: Env, p: Parser, data: seq<byte>)
    requires p.state.Dead? && data != [] && data[0] != CR && data[0] != LF
    ensures Refused(Parse(env, p, data))
  {
    hide StepResponse, StepStatus, StepMethod, StepUrl, StepRequestLine, StepHeaderField, StepHeaderValue,
         StepHeadersEnd, StepBody;
  }

  /** What follows an orderly read decides how the whole ends. */
  lemma ReadsGoesOn(env: Env, p: Parser, a: seq<byte>, out: seq<Atom>, q: Parser, b: seq<byte>)
    requires Reads(env, p, a, out, q)
    ensures Parse(env, p, a + b).end == Parse(env, q, b).end && Parse(env, p, a + b).p == Parse(env, q, b).p
  {
    hide Parse;
    ParseConcat(env, p, a, b);
  }

  lemma FirstHeadFails(env: Env, p: Parser, r: HttpRequest, rest: seq<byte>)
    requires p.state.StartReq? && Accepts(env) && IsRequest(r) && p.nread + |PrintHead(r)| > env.limit
    ensures Overflowed(Parse(env, p, PrintRequest(r) + rest))
  {
    hide Parse, PrintHead, IsHead;
    HeadExact(env, p, r);
    ParseConcat(env, p, PrintHead(r), PrintContent(r.content) + rest);
    assert PrintRequest(r) + rest == PrintHead(r) + (PrintContent(r.content) + rest);
  }

  // A response whose body ends with the connection takes what follows for its body.

  function Swallow(r: HttpReply, rest: seq<byte>): HttpReply
    requires r.content.UntilClose?
  {
    r.(content := UntilClose(r.content.rest + rest))
  }

  /** The responses as the receiver takes them: from the first body without an end of
      its own on, everything is that body. */
  function Heard(rs: seq<HttpReply>): seq<HttpReply> {
    if rs == [] then []
    else if rs[0].content.UntilClose? then [Swallow(rs[0], PrintReplies(rs[1..]))]
    else [rs[0]] + Heard(rs[1..])
  }

  /** Only the last may have a body that ends with the connection. */
  predicate Delimited(rs: seq<HttpReply>) {
    forall i :: 0 <= i < |rs| - 1 ==> !rs[i].content.UntilClose?
  }

  lemma SwallowIsReply(r: HttpReply, rest: seq<byte>)
    requires IsReply(r) && r.content.UntilClose?
    ensures IsReply(Swallow(r, rest)) && PrintReply(Swallow(r, rest)) == PrintReply(r) + rest
  {
    hide EffectAll, Decimal, IsHeader, PrintHeaders;
    var s := Swallow(r, rest);
    assert OpenReplyHead(s) == OpenReplyHead(r);
    assert PrintReplyHead(r) + (r.content.rest + rest) == PrintReplyHead(r) + r.content.rest + rest;
  }

  /** It is the same text, taken for other responses. */
  lemma {:induction false} HeardPrints(rs: seq<HttpReply>)
    requires AreReplies(rs)
    ensures AreReplies(Heard(rs)) && Delimited(Heard(rs)) && PrintReplies(Heard(rs)) == PrintReplies(rs)
    decreases |rs|
  {
    hide IsReply, PrintReply;
    if rs != [] {
      var rest := PrintReplies(rs[1..]);
      if rs[0].content.UntilClose? {
        SwallowIsReply(rs[0], rest);
        var s := Swallow(rs[0], rest);
        assert [s][1..] == [] && PrintReplies([s]) == PrintReply(s) + [];
      } else {
        HeardPrints(rs[1..]);
        assert Heard(rs)[1..] == Heard(rs[1..]);
        assert forall i :: 1 <= i < |Heard(rs)| ==> Heard(rs)[i] == Heard(rs[1..])[i - 1];
      }
    }
  }

  /** Responses that persist are taken for what they are. */
  lemma PersistHeard(rs: seq<HttpReply>)
    requires AreReplies(rs) && RepliesPersist(rs)
    ensures Delimited(rs) && Heard(rs) == rs
  {
    hide IsReply, ReplyKeepsAlive;
    forall i | 0 <= i < |rs| - 1 ensures !rs[i].content.UntilClose? { KeptAlive(rs[i]); }
    DelimitedHeard(rs);
  }

  lemma {:induction false} DelimitedHeard(rs: seq<HttpReply>)
    requires Delimited(rs)
    ensures Heard(rs) == rs
    decreases |rs|
  {
    if |rs| == 1 {
      assert rs[0].content.UntilClose? ==> rs[0].content.rest + [] == rs[0].content.rest;
      assert rs == [rs[0]] && rs[1..] == [];
    } else if |rs| > 1 {
      assert forall i :: 1 <= i < |rs| ==> rs[i] == rs[1..][i - 1];
      assert !rs[0].content.UntilClose?;
      DelimitedHeard(rs[1..]);
    }
  }

  /** Responses are read in order exactly when, taken as the receiver takes them, all but
      the last keep the connection alive and every head fits together with the header
      octets that the trailer of its predecessor left counted. */
  lemma RepliesExact(env: Env, p: Parser, rs: seq<HttpReply>)
    requires p.state.StartRes? && p.typ.Response? && !p.meth.CONNECT? && Accepts(env) && env.limit == MAX_HEADER_SIZE
    requires AreReplies(rs)
    ensures AreReplies(Heard(rs)) && (RepliesPersist(rs) ==> Heard(rs) == rs)
    ensures var run := Parse(env, p, PrintReplies(rs));
      && (run.end.More? <==> IsReplyStream(Heard(rs), p.nread))
      && (run.end.More? ==> run.out == RepliesAtoms(Heard(rs)))
      && (!run.end.More? ==> Refused(run))
      && (RepliesPersist(Heard(rs)) && !run.end.More? ==> Overflowed(run))
  {
    hide Reads, PrintReplies, RepliesAtoms, IsReply, ReplyKeepsAlive, ReplyHeadsFit, Parse, Heard, Refused, Overflowed, Delimited;
    HeardPrints(rs);
    if RepliesPersist(rs) { PersistHeard(rs); }
    DelimitedExact(env, p, Heard(rs));
    if IsReplyStream(Heard(rs), p.nread) {
      var q := ReadsReplies(env, p, Heard(rs));
      ReadsIs(env, p, PrintReplies(rs), RepliesAtoms(Heard(rs)), q);
    }
  }

  lemma {:induction false} DelimitedExact(env: Env, p: Parser, rs: seq<HttpReply>)
    requires p.state.StartRes? && p.typ.Response? && !p.meth.CONNECT? && Accepts(env) && env.limit == MAX_HEADER_SIZE
    requires AreReplies(rs) && Delimited(rs)
    ensures var run := Parse(env, p, PrintReplies(rs));
      && (run.end.More? <==> IsReplyStream(rs, p.nread))
      && (!run.end.More? ==> Refused(run))
      && (RepliesPersist(rs) && !run.end.More? ==> Overflowed(run))
    decreases |rs|
  {
    hide Reads, PrintReply, ReplyAtoms, IsReply, ReplyKeepsAlive, PrintReplyHead, ReplyCarried, Parse;
    if rs == [] {
      ReadsNothing(env, p);
      ReadsIs(env, p, [], [], p);
    } else {
      var rest := PrintReplies(rs[1..]);
      if p.nread + |PrintReplyHead(rs[0])| <= MAX_HEADER_SIZE {
        var a := ReadsReply(env, p, rs[0]);
        ReadsGoesOn(env, p, PrintReply(rs[0]), ReplyAtoms(rs[0]), a, rest);
        if |rs| == 1 {
          assert rest == [] && ReplyHeadsFit(rs[1..], ReplyCarried(rs[0]));
          ReadsNothing(env, a);
          ReadsIs(env, a, [], [], a);
        } else {
          PersistTail(rs);
          if ReplyKeepsAlive(rs[0]) {
            DelimitedExact(env, a, rs[1..]);
          } else {
            StartsWithH(rs[1..]);
            DeadRefuses(env, a, rest);
          }
        }
      } else {
        FirstReplyHeadFails(env, p, rs[0], rest);
      }
    }
  }

  lemma PersistTail(rs: seq<HttpReply>)
    requires AreReplies(rs) && |rs| > 1
    ensures AreReplies(rs[1..]) && (RepliesPersist(rs) <==> ReplyKeepsAlive(rs[0]) && RepliesPersist(rs[1..]))
    ensures Delimited(rs) ==> Delimited(rs[1..]) && !rs[0].content.UntilClose?
  {
    hide IsReply, ReplyKeepsAlive;
    assert forall i :: 1 <= i < |rs| ==> rs[i] == rs[1..][i - 1];
  }

  lemma StartsWithH(rs: seq<HttpReply>)
    requires rs != []
    ensures PrintReplies(rs) != [] && PrintReplies(rs)[0] == 'H'
  {
    hide PrintHeaders, ReasonPart;
    assert "HTTP/" <= PrintStatusLine(rs[0]) <= PrintReplies(rs);
    assert "HTTP/"[0] == 'H';
  }

  lemma FirstReplyHeadFails(env: Env, p: Parser, r: HttpReply, rest: seq<byte>)
    requires p.state.StartRes? && Accepts(env) && IsReply(r) && p.nread + |PrintReplyHead(r)| > env.limit
    ensures Overflowed(Parse(env, p, PrintReply(r) + rest))
  {
    hide Parse, PrintReplyHead, IsReplyHead;
    ReplyHeadExact(env, p, r);
    ParseConcat(env, p, PrintReplyHead(r), PrintReplyContent(r.content) + rest);
    assert PrintReply(r) + rest == PrintReplyHead(r) + (PrintReplyContent(r.content) + rest);
  }

  /** A pipeline whose last request upgrades: parsing stops behind the head of that
      request, whatever follows it, and the callbacks were told all of it. */
  lemma PipelineUpgrades(env: Env, p: Parser, rs: seq<HttpRequest>, u: HttpRequest, rest: seq<byte>)
    requires p.state.StartReq? && p.typ.Request? && Accepts(env) && env.limit == MAX_HEADER_SIZE
    requires AreRequests(rs) && IsPipeline(rs, p.nread) && (rs != [] ==> KeepsAlive(rs[|rs| - 1]))
    requires IsHead(u) && Upgrades(u) && LeftCounted(rs, p.nread) + |PrintHead(u)| <= MAX_HEADER_SIZE
    ensures var run := Parse(env, p, PrintAll(rs) + PrintHead(u) + rest);
      && run.end.Upgraded? && run.used == |PrintAll(rs)| + |PrintHead(u)|
      && run.out == AllAtoms(rs) + HeadAtoms(u) + [Notice(HeadersComplete), Notice(MessageComplete)]
  {
    hide Reads, PrintAll, AllAtoms, IsRequest, IsHead, KeepsAlive, PrintHead, HeadAtoms, Carried, Parse, EffectAll, NewMessage;
    var a := ReadsPipeline(env, p, rs);
    var b := HeadOutcome(env, a, u);
    ParseConcat(env, a, PrintHead(u), rest);
    ParseConcat(env, p, PrintAll(rs), PrintHead(u) + rest);
    assert PrintAll(rs) + PrintHead(u) + rest == PrintAll(rs) + (PrintHead(u) + rest);
    ReadsIs(env, p, PrintAll(rs), AllAtoms(rs), a);
  }

  // Header octets carried over from a trailer.

  /** `n` times the letter `a`. */
  function As(n: nat): (s: seq<byte>)
    ensures |s| == n && forall c <- s :: c == 'a'
  {
    seq(n, _ => 'a')
  }

  const CHUNKED := Header("transfer-encoding", "chunked")

  /** No chunks, and a trailer of one line with a value of `n` octets. */
  function TrailerOnly(n: nat): ChunkedBody {
    ChunkedBody([], SizeLine("0", []), [Header("x", As(n))])
  }

  predicate InLowerCase(w: seq<byte>) {
    forall c <- w :: 'a' <= c <= 'z' || c == '-'
  }

  lemma LowerCaseName(w: seq<byte>)
    requires InLowerCase(w)
    ensures LowerName(w) == w && forall c <- w :: IsToken(c)
  {
    forall i | 0 <= i < |w| ensures LowerName(w)[i] == w[i] {
      assert w[i] in w;
    }
  }

  lemma LowerCaseWord(w: seq<byte>)
    requires InLowerCase(w)
    ensures IsWord(w, w) && IsLine(w)
  {
    forall i | 0 <= i < |w| ensures Lower(w[i]) == w[i] {
      assert w[i] in w;
    }
  }

  lemma ChunkedSays()
    ensures IsHeader(CHUNKED) && Effect(FRESH, CHUNKED) == FRESH.(flags := NO_FLAGS.(chunked := true))
  {
    hide LowerName, IsToken, IsWord, IsLine, InLowerCase;
    ChunkedLetters();
    LowerCaseName(CHUNKED.name);
    LowerCaseWord(CHUNKED.value);
  }

  lemma ChunkedLetters()
    ensures InLowerCase(CHUNKED.name) && InLowerCase(CHUNKED.value)
  {
  }

  lemma TrailerLine(f: Framing, n: nat)
    ensures IsHeader(Header("x", As(n))) && Effect(f, Header("x", As(n))) == f
    ensures |PrintHeaders([Header("x", As(n))])| == n + 5
  {
    var h := Header("x", As(n));
    assert LowerName(h.name) == "x";
    assert [h][1..] == [];
  }

  lemma TrailerBody(n: nat)
    requires n + 7 <= MAX_HEADER_SIZE
    ensures IsChunkedBody(TrailerOnly(n))
  {
    hide PrintHeaders, IsHeader;
    TrailerLine(FRESH, n);
    assert HexFrom(0, "0") == 0;
  }

  lemma OneHeader(f: Framing, h: Header)
    requires IsHeader(h)
    ensures AreHeaders([h]) && EffectAll(f, [h]) == Effect(f, h)
  {
    hide IsHeader, Effect;
    assert [h][1..] == [];
  }

  /** A chunked request without chunks, whose trailer counts `n + 7` octets. */
  function TrailerRequest(n: nat): HttpRequest {
    HttpRequest(GET, "/", "1", "1", [CHUNKED], InChunks(TrailerOnly(n)))
  }

  /** A request whose head counts `n + 18` octets. */
  function LongRequest(n: nat): HttpRequest {
    HttpRequest(GET, "/" + As(n), "1", "1", [], NoContent)
  }

  lemma Ones()
    ensures IsMajor("1") && IsMinor("1") && Decimal("1") == 1
  {
    assert DecimalFrom(0, "1") == 1;
  }

  lemma TrailerRequestFits(n: nat)
    requires n + 7 <= MAX_HEADER_SIZE
    ensures var r := TrailerRequest(n);
      IsRequest(r) && KeepsAlive(r) && Carried(r) == n + 7 && |PrintHead(r)| <= 100
  {
    hide PrintHeaders, IsHeader, IsChunkedBody, Decimal, IsMajor, IsMinor, UrlFold, EffectAll, Effect;
    var r := TrailerRequest(n);
    Ones();
    OriginTarget(GET, "/");
    ChunkedSays();
    OneHeader(FRESH, CHUNKED);
    TrailerBody(n);
    TrailerLine(Framing(NO_FLAGS.(chunked := true, trailing := true), 0), n);
    OneHeader(Framing(NO_FLAGS.(chunked := true, trailing := true), 0), Header("x", As(n)));
    OneHeaderLine(CHUNKED);
  }

  lemma OneHeaderLine(h: Header)
    ensures |PrintHeaders([h])| == |h.name| + |h.value| + 4
  {
    assert [h][1..] == [];
  }

  lemma LongRequestFits(n: nat)
    ensures IsRequest(LongRequest(n)) && |PrintHead(LongRequest(n))| == n + 18
  {
    hide Decimal, IsMajor, IsMinor, UrlFold;
    Ones();
    OriginTarget(GET, "/" + As(n));
  }

  lemma TwoHeads(a: HttpRequest, b: HttpRequest)
    ensures HeadsFit([a], 0) <==> |PrintHead(a)| <= MAX_HEADER_SIZE
    ensures HeadsFit([a, b], 0) <==> |PrintHead(a)| <= MAX_HEADER_SIZE && Carried(a) + |PrintHead(b)| <= MAX_HEADER_SIZE
  {
    hide PrintHead, Carried;
    assert [a][1..] == [] && [b][1..] == [] && [a, b][1..] == [b];
    assert HeadsFit([b], Carried(a)) <==> Carried(a) + |PrintHead(b)| <= MAX_HEADER_SIZE;
  }

  /** Both requests are read on a connection of their own; on one connection the octets
      of the trailer make the second head overflow. */
  lemma TrailerCounts(env: Env)
    requires Accepts(env) && env.limit == MAX_HEADER_SIZE
    ensures var p, a, b := Init(Request), TrailerRequest(40000), LongRequest(45000);
      && Parse(env, p, PrintAll([a])).end.More? && Parse(env, p, PrintAll([b])).end.More?
      && AreRequests([a, b]) && Persistent([a, b]) && Overflowed(Parse(env, p, PrintAll([a, b])))
  {
    hide IsRequest, KeepsAlive, PrintHead, Carried, Parse, PrintAll, TrailerRequest, LongRequest, HeadsFit;
    var p, a, b := Init(Request), TrailerRequest(40000), LongRequest(45000);
    TrailerRequestFits(40000);
    LongRequestFits(45000);
    TwoHeads(a, b);
    TwoHeads(b, b);
    PipelineExact(env, p, [a]);
    PipelineExact(env, p, [b]);
    PipelineExact(env, p, [a, b]);
  }

  // The same for responses.

  function TrailerReply(n: nat): HttpReply {
    HttpReply("1", "1", "200", None, [CHUNKED], Chunks(TrailerOnly(n)))
  }

  /** A response whose head counts `n + 17` octets. */
  function LongReply(n: nat): HttpReply {
    HttpReply("1", "1", "204", Some(As(n)), [], Empty)
  }

  lemma Statuses()
    ensures IsMinor("200") && Decimal("200") == 200
    ensures IsMinor("204") && Decimal("204") == 204
    ensures IsMinor("304") && Decimal("304") == 304
  {
    ThreeDigits('2', '0', '0');
    ThreeDigits('2', '0', '4');
    ThreeDigits('3', '0', '4');
  }

  lemma ThreeDigits(a: byte, b: byte, c: byte)
    requires IsNum(a) && IsNum(b) && IsNum(c)
    ensures IsMinor([a, b, c]) && Decimal([a, b, c]) == DigitValue(a) * 100 + DigitValue(b) * 10 + DigitValue(c)
  {
    hide DigitValue;
    var x, y, z := DigitValue(a), DigitValue(b), DigitValue(c);
    assert [a, b, c][1..] == [b, c] && [b, c][1..] == [c] && [c][1..] == [];
    assert DecimalFrom(x * 10 + y, [c]) == (x * 10 + y) * 10 + z;
    assert DecimalFrom(x, [b, c]) == DecimalFrom(x * 10 + y, [c]);
  }

  lemma TrailerReplyFits(n: nat)
    requires n + 7 <= MAX_HEADER_SIZE
    ensures var r := TrailerReply(n);
      IsReply(r) && ReplyKeepsAlive(r) && ReplyCarried(r) == n + 7 && |PrintReplyHead(r)| <= 100
  {
    hide PrintHeaders, IsHeader, IsChunkedBody, Decimal, IsMinor, EffectAll, Effect;
    Ones();
    Statuses();
    ChunkedSays();
    OneHeader(FRESH, CHUNKED);
    TrailerBody(n);
    TrailerLine(Framing(NO_FLAGS.(chunked := true, trailing := true), 0), n);
    OneHeader(Framing(NO_FLAGS.(chunked := true, trailing := true), 0), Header("x", As(n)));
    OneHeaderLine(CHUNKED);
  }

  lemma LongReplyFits(n: nat)
    ensures IsReply(LongReply(n)) && |PrintReplyHead(LongReply(n))| == n + 17
  {
    hide Decimal, IsMinor;
    Ones();
    Statuses();
  }

  lemma TwoReplyHeads(a: HttpReply, b: HttpReply)
    ensures ReplyHeadsFit([a], 0) <==> |PrintReplyHead(a)| <= MAX_HEADER_SIZE
    ensures ReplyHeadsFit([a, b], 0) <==>
            |PrintReplyHead(a)| <= MAX_HEADER_SIZE && ReplyCarried(a) + |PrintReplyHead(b)| <= MAX_HEADER_SIZE
  {
    hide PrintReplyHead, ReplyCarried;
    assert [a][1..] == [] && [b][1..] == [] && [a, b][1..] == [b];
    assert ReplyHeadsFit([b], ReplyCarried(a)) <==> ReplyCarried(a) + |PrintReplyHead(b)| <= MAX_HEADER_SIZE;
  }

  lemma ReplyTrailerCounts(env: Env)
    requires Accepts(env) && env.limit == MAX_HEADER_SIZE
    ensures var p, a, b := Init(Response), TrailerReply(40000), LongReply(45000);
      && Parse(env, p, PrintReplies([a])).end.More? && Parse(env, p, PrintReplies([b])).end.More?
      && AreReplies([a, b]) && RepliesPersist([a, b]) && Overflowed(Parse(env, p, PrintReplies([a, b])))
  {
    hide IsReply, ReplyKeepsAlive, PrintReplyHead, ReplyCarried, Parse, PrintReplies, TrailerReply, LongReply, ReplyHeadsFit;
    var p, a, b := Init(Response), TrailerReply(40000), LongReply(45000);
    TrailerReplyFits(40000);
    LongReplyFits(45000);
    TwoReplyHeads(a, b);
    TwoReplyHeads(b, b);
    PersistHeard([a, b]);
    DelimitedExact(env, p, [a]);
    DelimitedExact(env, p, [b]);
    DelimitedExact(env, p, [a, b]);
  }
}
