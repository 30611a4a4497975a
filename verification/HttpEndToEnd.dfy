/** The octet stream of printed requests or responses, delivered to `http_parser_execute` in
    arbitrary pieces. */
module HttpEndToEnd {
  import opened Basics
  import opened HttpSyntax
  import opened HttpParser
  import opened HttpInvariant
  import opened HttpStream
  import opened HttpReads
  import opened HttpFragments
  import opened HttpExecute
  import opened HttpMessages
  import opened HttpResponses
  import opened HttpOutcomes

  function Join(pieces: seq<seq<byte>>): seq<byte> {
    if pieces == [] then [] else Join(pieces[..|pieces| - 1]) + pieces[|pieces| - 1]
  }

  lemma JoinNext(pieces: seq<seq<byte>>, i: nat)
    requires i < |pieces|
    ensures Join(pieces[..i + 1]) == Join(pieces[..i]) + pieces[i]
  {
    assert pieces[..i + 1][..i] == pieces[..i];
  }

  lemma {:induction false} JoinPrefix(pieces: seq<seq<byte>>, i: nat) returns (rest: seq<byte>)
    requires i <= |pieces|
    ensures Join(pieces) == Join(pieces[..i]) + rest
    decreases |pieces| - i
  {
    if i == |pieces| {
      assert pieces[..i] == pieces;
      rest := [];
    } else {
      JoinNext(pieces, i);
      rest := JoinPrefix(pieces, i + 1);
      rest := pieces[i] + rest;
    }
  }

  /** The upgrade flag is only set on the way to the early return. */
  predicate UpgradeKept(p: Parser) {
    p.upgrade ==> p.state.HeadersDone?
  }

  lemma LineKeepsUpgrade(p: Parser, ch: byte)
    ensures IsStartState(p.state) ==> StepStart(p, ch, 1).p.upgrade == p.upgrade
    ensures IsResponseState(p.state) ==> StepResponse(p, ch).p.upgrade == p.upgrade
    ensures IsStatusState(p.state) ==> StepStatus(p, ch).p.upgrade == p.upgrade
    ensures p.state.ReqMethod? ==> StepMethod(p, ch, 1).p.upgrade == p.upgrade
    ensures p.state.SpacesBeforeUrl? || IsUrlState(p.state) ==> StepUrl(p, ch, 1).p.upgrade == p.upgrade
    ensures IsRequestLineState(p.state) ==> StepRequestLine(p, ch).p.upgrade == p.upgrade
  {
    hide ParseUrlChar, MethodString, Reguess, StartMethod, Plain, Disciplined;
  }

  lemma HeaderKeepsUpgrade(p: Parser, ch: byte)
    ensures p.state.HeaderFieldStart? || p.state.HeaderField? ==> StepHeaderField(p, ch, 1).p.upgrade == p.upgrade
    ensures IsHeaderValueState(p.state) ==> StepHeaderValue(p, ch, 1).p.upgrade == p.upgrade
  {
    hide FieldOctet, Keyword, Token, IsToken, RecordFlag, Plain, Disciplined;
  }

  lemma BodyKeepsUpgrade(p: Parser, ch: byte)
    requires IsBodyPhase(p.state)
    ensures StepBody(p, ch, 1).p.upgrade == p.upgrade && !StepBody(p, ch, 1).go.Leave?
  {
    hide Unhex, ShouldKeepAlive;
  }

  lemma EndSetsUpgrade(env: Env, p: Parser, ch: byte)
    requires UpgradeKept(p) && (p.state.HeadersAlmostDone? || p.state.HeadersDone?)
    ensures var s := StepHeadersEnd(env, p, ch, 1);
      && (s.go.Break? ==> !s.p.upgrade) && (s.go.Reexecute? ==> UpgradeKept(s.p)) && (s.go.Leave? ==> s.p.upgrade)
  {
    hide ShouldKeepAlive, NeedsEof;
  }

  lemma SwitchUpgrade(env: Env, p: Parser, ch: byte)
    requires UpgradeKept(p)
    ensures var s := Switch(env, p, ch, 1);
      && (s.go.Break? ==> !s.p.upgrade) && (s.go.Reexecute? ==> UpgradeKept(s.p)) && (s.go.Leave? ==> s.p.upgrade)
  {
    hide StepStart, StepResponse, StepStatus, StepMethod, StepUrl, StepRequestLine, StepHeaderField, StepHeaderValue,
         StepHeadersEnd, StepBody;
    LineKeepsUpgrade(p, ch);
    HeaderKeepsUpgrade(p, ch);
    if IsBodyPhase(p.state) { BodyKeepsUpgrade(p, ch); }
    if p.state.HeadersAlmostDone? || p.state.HeadersDone? { EndSetsUpgrade(env, p, ch); }
  }

  lemma {:induction false} ExecUpgrade(env: Env, p: Parser, ch: byte)
    requires UpgradeKept(p)
    ensures var f := Exec(env, p, ch); (f.end.More? ==> !f.p.upgrade) && (f.end.Upgraded? ==> f.p.upgrade)
    decreases Rank(p.state)
  {
    hide Switch;
    SwitchUpgrade(env, p, ch);
    var s := Switch(env, p, ch, 1);
    if s.go.Reexecute? { ExecUpgrade(env, s.p, ch); }
  }

  /** The flag tells an upgrade from the end of the input. */
  lemma {:induction false} ParseUpgrade(env: Env, p: Parser, data: seq<byte>)
    requires !p.upgrade
    ensures var r := Parse(env, p, data); (r.end.More? ==> !r.p.upgrade) && (r.end.Upgraded? ==> r.p.upgrade)
    decreases |data|
  {
    hide Exec;
    if data != [] && !Overflows(env, Count(p)) {
      ExecUpgrade(env, Count(p), data[0]);
      var f := Feed(env, p, data[0]);
      if f.end.More? { ParseUpgrade(env, f.p, data[1..]); }
    }
  }

  /** One more piece: what the two reports say about the stream so far. */
  lemma AddPiece(env: Env, p: Parser, a: seq<byte>, b: seq<byte>, before: seq<Atom>, now: seq<Atom>)
    requires Parse(env, p, a).end.More?
    requires var r := Parse(env, p, a);
      Reported(before + r.out, Parse(env, r.p, b), now, b, Since(env, r.p, b))
    ensures var r, s := Parse(env, p, a + b), Parse(env, Parse(env, p, a).p, b);
      && r.p == s.p && r.end == s.end && r.used == |a| + s.used
      && Reported(before, r, now, a + b, Since(env, Parse(env, p, a).p, b))
      && Since(env, Parse(env, p, a).p, b) <= Since(env, p, a + b)
  {
    hide Parse, SinceFrom, Octets;
    ParseConcat(env, p, a, b);
    ParseUsed(env, p, a);
    ParseUsed(env, Parse(env, p, a).p, b);
    SinceConcat(env, p, a, b, 0);
    var r := Parse(env, p, a);
    var s, n := Parse(env, r.p, b), Since(env, r.p, b);
    SinceMonotone(env, r.p, b, 0, Since(env, p, a));
    assert before + r.out + s.out == before + (r.out + s.out);
    if s.end.Failed? {
      assert (a + b)[|a| + s.used - n..|a| + s.used] == b[s.used - n..s.used];
    }
  }

  /** What is true while all pieces so far were read in order. */
  ghost predicate InOrder(env: Env, p: Parser, read: seq<byte>, before: seq<Atom>, now: Parser, told: seq<Atom>, taken: nat) {
    var r := Parse(env, p, read);
    r.end.More? && r.p == now && told == before + r.out && taken == r.used
  }

  /** What is true of the stream after it was received. */
  ghost predicate Received(env: Env, p: Parser, stream: seq<byte>, before: seq<Atom>, now: Parser, told: seq<Atom>, taken: nat) {
    var r := Parse(env, p, stream);
    r.p == now && taken == r.used && exists n: nat :: n <= Since(env, p, stream) && Reported(before, r, told, stream, n)
  }

  /** A stream that stops is not changed by what follows. */
  lemma StopsThere(env: Env, p: Parser, a: seq<byte>, rest: seq<byte>, before: seq<Atom>, now: Parser, told: seq<Atom>,
                   taken: nat, n: nat)
    requires var r := Parse(env, p, a);
      !r.end.More? && r.p == now && taken == r.used && n <= Since(env, p, a) && Reported(before, r, told, a, n)
    ensures Received(env, p, a + rest, before, now, told, taken)
  {
    hide Parse, SinceFrom, Octets;
    ParseConcat(env, p, a, rest);
    SinceConcat(env, p, a, rest, 0);
    var r := Parse(env, p, a);
    if r.end.Failed? { assert (a + rest)[r.used - n..r.used] == a[r.used - n..r.used]; }
    assert Reported(before, r, told, a + rest, n);
  }

  /** A stream received in any non-empty pieces, until it ends, fails or upgrades: the
      parser, the octets taken and the callbacks are those of the whole stream, except
      that an error loses no more of the open fragment than in a single call. */
  method Receive(c: Connection, env: Env, pieces: seq<seq<byte>>) returns (taken: nat)
    requires env.limit == MAX_HEADER_SIZE
    requires Valid(c.p) && c.p.errno.OK? && !c.p.upgrade
    requires forall i :: 0 <= i < |pieces| ==> pieces[i] != []
    modifies c
    ensures Valid(c.p)
    ensures Received(env, old(c.p), Join(pieces), old(Flatten(c.log)), c.p, Flatten(c.log), taken)
  {
    hide Parse, Inv, Flatten, Join, Reported, SinceFrom;
    ghost var p0, before := c.p, Flatten(c.log);
    var i := 0;
    taken := 0;
    NothingYet(env, p0, pieces, before);
    while i < |pieces|
      invariant i <= |pieces|
      invariant Valid(c.p) && c.p.errno.OK? && !c.p.upgrade
      invariant InOrder(env, p0, Join(pieces[..i]), before, c.p, Flatten(c.log), taken)
    {
      ghost var was, read := c.p, Join(pieces[..i]);
      JoinNext(pieces, i);
      ParseErrno(env, was, pieces[i]);
      ParseUpgrade(env, was, pieces[i]);
      ParseUsed(env, p0, read);
      var used := c.Execute(env, pieces[i]);
      taken := taken + used;
      AddPiece(env, p0, read, pieces[i], before, Flatten(c.log));
      i := i + 1;
      if c.p.upgrade || !c.p.errno.OK? {
        ghost var rest := JoinPrefix(pieces, i);
        if !Parse(env, was, pieces[i - 1]).end.More? {
          StopsThere(env, p0, Join(pieces[..i]), rest, before, c.p, Flatten(c.log), taken, Since(env, was, pieces[i - 1]));
        }
        return;
      }
      ToldAll(before, Parse(env, p0, Join(pieces[..i])), Flatten(c.log), Join(pieces[..i]), Since(env, was, pieces[i - 1]));
    }
    assert pieces[..i] == pieces;
    AllReceived(env, p0, Join(pieces), before, c.p, Flatten(c.log), taken);
  }

  lemma NothingYet(env: Env, p: Parser, pieces: seq<seq<byte>>, before: seq<Atom>)
    ensures InOrder(env, p, Join(pieces[..0]), before, p, before, 0)
  {
    assert before + [] == before;
  }

  lemma AllReceived(env: Env, p: Parser, stream: seq<byte>, before: seq<Atom>, now: Parser, told: seq<Atom>, taken: nat)
    requires InOrder(env, p, stream, before, now, told, taken)
    ensures Received(env, p, stream, before, now, told, taken)
  {
    hide Parse, SinceFrom;
    assert Reported(before, Parse(env, p, stream), told, stream, 0);
  }

  lemma ReceivedReads(env: Env, p: Parser, stream: seq<byte>, before: seq<Atom>, now: Parser, told: seq<Atom>, taken: nat,
                      out: seq<Atom>, q: Parser)
    requires Received(env, p, stream, before, now, told, taken) && Reads(env, p, stream, out, q)
    ensures now == q && told == before + out
  {
    hide Parse, SinceFrom;
  }

  /** Requests printed one after another and received in any non-empty pieces:
      the callbacks are told exactly the requests, however the stream was cut. */
  method ReceiveRequests(c: Connection, env: Env, pieces: seq<seq<byte>>, ghost rs: seq<HttpRequest>)
    requires env.limit == MAX_HEADER_SIZE
    requires Valid(c.p) && c.p.errno.OK? && !c.p.upgrade && c.p.state.StartReq? && c.p.typ.Request? && Accepts(env)
    requires AreRequests(rs) && IsPipeline(rs, c.p.nread)
    requires Join(pieces) == PrintAll(rs) && forall i :: 0 <= i < |pieces| ==> pieces[i] != []
    modifies c
    ensures Valid(c.p) && c.p.errno.OK?
    ensures Flatten(c.log) == old(Flatten(c.log)) + AllAtoms(rs)
    ensures c.p.state == if rs == [] || KeepsAlive(rs[|rs| - 1]) then StartReq else Dead
  {
    hide Reads, Inv, Flatten, IsPipeline, PrintAll, AllAtoms, AreRequests, Join, Received;
    ghost var p0, before := c.p, Flatten(c.log);
    ghost var q := ReadsPipeline(env, p0, rs);
    ReadsNoError(env, p0, PrintAll(rs), AllAtoms(rs), q);
    var taken := Receive(c, env, pieces);
    ReceivedReads(env, p0, PrintAll(rs), before, c.p, Flatten(c.log), taken, AllAtoms(rs), q);
  }

  lemma ReadsNoError(env: Env, p: Parser, data: seq<byte>, out: seq<Atom>, q: Parser)
    requires Reads(env, p, data, out, q) && env.limit == MAX_HEADER_SIZE && p.errno.OK? && Inv(p, false)
    ensures q.errno.OK?
  {
    hide Parse, Inv;
    ParseErrno(env, p, data);
  }

  /** Requests of which the last one upgrades, and octets of the other protocol behind it,
      in any non-empty pieces: the callbacks are told the requests, the flag is set, and
      exactly the octets of the requests are taken. */
  method ReceiveUpgrade(c: Connection, env: Env, pieces: seq<seq<byte>>, ghost rs: seq<HttpRequest>, ghost u: HttpRequest,
                        ghost rest: seq<byte>) returns (taken: nat)
    requires env.limit == MAX_HEADER_SIZE
    requires Valid(c.p) && c.p.errno.OK? && !c.p.upgrade && c.p.state.StartReq? && c.p.typ.Request? && Accepts(env)
    requires AreRequests(rs) && IsPipeline(rs, c.p.nread) && (rs != [] ==> KeepsAlive(rs[|rs| - 1]))
    requires IsHead(u) && Upgrades(u) && LeftCounted(rs, c.p.nread) + |PrintHead(u)| <= MAX_HEADER_SIZE
    requires Join(pieces) == PrintAll(rs) + PrintHead(u) + rest && forall i :: 0 <= i < |pieces| ==> pieces[i] != []
    modifies c
    ensures Valid(c.p) && c.p.errno.OK? && c.p.upgrade && taken == |PrintAll(rs)| + |PrintHead(u)|
    ensures Flatten(c.log)
            == old(Flatten(c.log)) + (AllAtoms(rs) + HeadAtoms(u) + [Notice(HeadersComplete), Notice(MessageComplete)])
  {
    hide Parse, Inv, Flatten, IsPipeline, PrintAll, PrintHead, AllAtoms, HeadAtoms, AreRequests, Join, KeepsAlive, IsHead,
         Upgrades, Since;
    ghost var p0, stream := c.p, PrintAll(rs) + PrintHead(u) + rest;
    PipelineUpgrades(env, p0, rs, u, rest);
    ParseUpgrade(env, p0, stream);
    ParseErrno(env, p0, stream);
    taken := Receive(c, env, pieces);
  }

  /** A complete chunk that is not followed by a carriage return: its data in the same
      buffer is read and never reported. */
  method LosesChunk(c: Connection, env: Env, data: seq<byte>, x: byte) returns (used: nat)
    requires env.limit == MAX_HEADER_SIZE
    requires Valid(c.p) && c.p.errno.OK? && c.p.state.ChunkData? && |data| == c.p.contentLength && x != CR
    modifies c
    ensures used == |data| > 0 && c.p.errno.Strict? && Flatten(c.log) == old(Flatten(c.log))
    ensures Parse(env, old(c.p), data + [x]).out == Octets(Body, data)
  {
    hide Parse, SinceFrom, Flatten;
    ghost var p0, before := c.p, Flatten(c.log);
    SinceChunk(env, p0, data, x);
    used := c.Execute(env, data + [x]);
    LostAll(before, Flatten(c.log), data + [x], |data|, Octets(Body, data));
  }

  lemma LostAll(before: seq<Atom>, told: seq<Atom>, data: seq<byte>, n: nat, out: seq<Atom>)
    requires n <= |data| && |out| == n && LosesSome(data[0..n], told, before + out)
    ensures told == before
  {
    var k: Kind :| Loses(k, data[0..n], told, before + out);
    assert |told| == |before|;
    assert told == (before + out)[..|told|] == before;
  }


  /** Responses received in any non-empty pieces until the peer closes: the callbacks
      are told exactly the responses, and a body that only the close delimits is
      completed by it. */
  method ReceiveReplies(c: Connection, env: Env, pieces: seq<seq<byte>>, ghost rs: seq<HttpReply>)
    returns (used: nat)
    requires env.limit == MAX_HEADER_SIZE
    requires Valid(c.p) && c.p.errno.OK? && !c.p.upgrade
    requires c.p.state.StartRes? && c.p.typ.Response? && !c.p.meth.CONNECT? && Accepts(env)
    requires AreReplies(rs) && IsReplyStream(rs, c.p.nread)
    requires Join(pieces) == PrintReplies(rs) && forall i :: 0 <= i < |pieces| ==> pieces[i] != []
    modifies c
    ensures Valid(c.p) && c.p.errno.OK? && used == 0
    ensures Flatten(c.log) == old(Flatten(c.log)) + RepliesAtoms(rs)
      + if rs != [] && rs[|rs| - 1].content.UntilClose? then [Notice(MessageComplete)] else []
  {
    hide Reads, Inv, Flatten, IsReplyStream, PrintReplies, RepliesAtoms, AreReplies, Join, ReplyKeepsAlive, IsReply, Received;
    ghost var p0, before := c.p, Flatten(c.log);
    ghost var q := ReadsReplies(env, p0, rs);
    ReadsNoError(env, p0, PrintReplies(rs), RepliesAtoms(rs), q);
    if rs == [] { NoReplies(env, p0, q); }
    var taken := Receive(c, env, pieces);
    ReceivedReads(env, p0, PrintReplies(rs), before, c.p, Flatten(c.log), taken, RepliesAtoms(rs), q);
    ghost var told := Flatten(c.log);
    used := c.ExecuteEof();
    assert told + [] == told;
  }

  lemma NoReplies(env: Env, p: Parser, q: Parser)
    requires Reads(env, p, PrintReplies([]), RepliesAtoms([]), q)
    ensures q == p
  {
  }
}
