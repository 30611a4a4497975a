/** How much of the current buffer belongs to the data fragment that is open, told from
    the states between the octets alone. */
module HttpFragments {
  import opened Basics
  import opened HttpSyntax
  import opened HttpParser
  import opened HttpInvariant
  import opened HttpStream
  import opened HttpReads

  /** A body fragment can be open in this state. */
  predicate HoldsBody(s: State) {
    IsBodyState(s) || s.ChunkDataAlmostDone?
  }

  /** Octets of the open fragment after one more octet, read from state `s` to `t`. */
  function NextSince(s: State, t: State, since: nat): nat {
    if Open(t).Some? then if Open(s) == Open(t) then since + 1 else 1
    else if IsBodyState(s) && HoldsBody(t) then since + 1
    else 0
  }

  /** The octets of `data`, and `since` before them, in the fragment that is open where
      reading stops. */
  function SinceFrom(env: Env, p: Parser, data: seq<byte>, since: nat): nat
    decreases |data|, 0
  {
    if data == [] then since else SinceThen(env, p.state, Feed(env, p, data[0]), data[1..], since)
  }

  function SinceThen(env: Env, s: State, f: Fed, rest: seq<byte>, since: nat): nat
    decreases |rest|, 1
  {
    if f.end.More? then SinceFrom(env, f.p, rest, NextSince(s, f.p.state, since)) else since
  }

  function Since(env: Env, p: Parser, data: seq<byte>): nat {
    SinceFrom(env, p, data, 0)
  }

  /** The count goes on where the first part of the input ends in order, and stops where
      it does not. */
  lemma {:induction false} SinceConcat(env: Env, p: Parser, a: seq<byte>, b: seq<byte>, since: nat)
    ensures var r, n := Parse(env, p, a), SinceFrom(env, p, a, since);
      SinceFrom(env, p, a + b, since) == if r.end.More? then SinceFrom(env, r.p, b, n) else n
    decreases |a|
  {
    hide Feed, NextSince;
    if a == [] {
      assert a + b == b;
    } else {
      assert (a + b)[1..] == a[1..] + b;
      var f := Feed(env, p, a[0]);
      if f.end.More? { SinceConcat(env, f.p, a[1..], b, NextSince(p.state, f.p.state, since)); }
    }
  }

  /** A fragment that was open before is no shorter than its part in this input. */
  lemma {:induction false} SinceMonotone(env: Env, p: Parser, data: seq<byte>, m: nat, n: nat)
    requires m <= n
    ensures SinceFrom(env, p, data, m) <= SinceFrom(env, p, data, n)
    decreases |data|
  {
    hide Feed;
    if data != [] {
      var f := Feed(env, p, data[0]);
      if f.end.More? {
        SinceMonotone(env, f.p, data[1..], NextSince(p.state, f.p.state, m), NextSince(p.state, f.p.state, n));
      }
    }
  }

  /** Inside a body every octet adds to the fragment. */
  lemma {:induction false} SinceInterior(env: Env, p: Parser, data: seq<byte>, n: nat, since: nat)
    requires IsBodyState(p.state) && BodyAsserts(p) && n <= |data|
    requires p.state.BodyIdentityEof? || n < p.contentLength <= ULLONG_MAX
    ensures SinceFrom(env, p, data, since) == SinceFrom(env, BodyRest(p, n), data[n..], since + n)
    decreases n
  {
    hide Feed;
    if n == 0 {
      assert data[0..] == data && BodyRest(p, 0) == p;
    } else {
      BodyOctet(env, p, data[0]);
      var q := BodyRest(p, 1);
      SinceInterior(env, q, data[1..], n - 1, since + 1);
      assert data[1..][n - 1..] == data[n..] && BodyRest(q, n - 1) == BodyRest(p, n);
    }
  }

  /** A complete chunk is one open fragment until the octet after it was read. */
  lemma SinceChunk(env: Env, p: Parser, data: seq<byte>, x: byte)
    requires p.state.ChunkData? && BodyAsserts(p) && |data| == p.contentLength < ULLONG_MAX && x != CR
    ensures var r := Parse(env, p, data + [x]);
      && r.end.Failed? && r.p.errno.Strict? && r.used == |data| && r.out == Octets(Body, data)
      && Since(env, p, data + [x]) == |data|
  {
    hide Parse, SinceFrom;
    var n := |data| - 1;
    var all, a := data + [x], BodyRest(p, n);
    BodyInterior(env, p, all, n);
    SinceInterior(env, p, all, n, 0);
    assert all[n..] == [data[n], x] && all[..n] == data[..n];
    ChunkEnds(env, a, data[n], x, n);
    assert Octets(Body, data[..n]) + [Octet(Body, data[n])] == Octets(Body, data);
  }

  lemma ChunkFeeds(env: Env, p: Parser, last: byte, x: byte)
    requires p.state.ChunkData? && BodyAsserts(p) && p.contentLength == 1 && x != CR
    ensures var q := p.(contentLength := 0, state := ChunkDataAlmostDone);
      && Feed(env, p, last) == Fed(q, [Octet(Body, last)], More)
      && Feed(env, q, x) == Fed(q.(errno := Strict), [], Failed)
  {
    var q := p.(contentLength := 0, state := ChunkDataAlmostDone);
    BodyDataSwitch(env, p, last, 1);
    BodySwitch(env, q, x, 1);
    hide Switch;
    assert [Octet(Body, last)] + [] + [] == [Octet(Body, last)];
  }

  lemma ChunkEnds(env: Env, p: Parser, last: byte, x: byte, since: nat)
    requires p.state.ChunkData? && BodyAsserts(p) && p.contentLength == 1 && x != CR
    ensures var q := p.(contentLength := 0, state := ChunkDataAlmostDone, errno := Strict);
      Parse(env, p, [last, x]) == Run(q, [Octet(Body, last)], 1, Failed)
    ensures SinceFrom(env, p, [last, x], since) == since + 1
  {
    var q := p.(contentLength := 0, state := ChunkDataAlmostDone);
    hide Feed, Exec;
    ChunkFeeds(env, p, last, x);
    assert [last, x][1..] == [x] && [x][1..] == [];
    assert Parse(env, q, [x]) == Run(q.(errno := Strict), [], 0, Failed);
    assert SinceFrom(env, q, [x], since + 1) == since + 1;
    assert [Octet(Body, last)] + [] == [Octet(Body, last)];
  }

  /** What is left to count after one execution of the switch that ends at octet `ch`. */
  function SinceAfter(env: Env, from: State, s: Step, ch: byte, rest: seq<byte>, since: nat): nat {
    if s.go.Break? then SinceFrom(env, s.p, rest, NextSince(from, s.p.state, since))
    else if s.go.Reexecute? then SinceThen(env, from, Exec(env, s.p, ch), rest, since)
    else since
  }

  lemma SinceOnce(env: Env, from: State, p: Parser, ch: byte, rest: seq<byte>, since: nat)
    ensures SinceThen(env, from, Exec(env, p, ch), rest, since)
            == SinceAfter(env, from, Switch(env, p, ch, 1), ch, rest, since)
  {
    hide Switch, SinceFrom, NextSince;
  }

  /** The last octet of a bulk skip acts like the whole skip. */
  lemma BulkIsLast(p: Parser, n: nat)
    requires n > 0 && IsBodyState(p.state) && BodyAsserts(p) && p.contentLength < U64
    ensures var s := StepBodyData(p, n);
      && (p.state.BodyIdentityEof? || s.skip < p.contentLength)
      && BodyAsserts(BodyRest(p, s.skip)) && BodyRest(p, s.skip).state == p.state
      && StepBodyData(BodyRest(p, s.skip), 1) == s.(skip := 0)
  {
  }

  /** A bulk skip counts like its octets. */
  lemma SinceBulk(env: Env, p: Parser, data: seq<byte>, s: Step, since: nat)
    requires data != [] && IsBodyState(p.state) && BodyAsserts(p) && p.contentLength < U64
    requires s == StepBodyData(p, |data|) && s.skip < |data|
    ensures var n := s.skip;
      SinceFrom(env, p, data, since) == SinceAfter(env, p.state, s, data[n], data[n + 1..], since + n)
  {
    hide StepBodyData, BodyRest, BodyAsserts, SinceAfter;
    BulkIsLast(p, |data|);
    SinceBulkTail(env, p, data, s, since, BodyRest(p, s.skip));
  }

  lemma SinceBulkTail(env: Env, p: Parser, data: seq<byte>, s: Step, since: nat, q: Parser)
    requires IsBodyState(p.state) && BodyAsserts(p) && s.skip < |data|
    requires p.state.BodyIdentityEof? || s.skip < p.contentLength <= ULLONG_MAX
    requires q == BodyRest(p, s.skip) && q.state == p.state && BodyAsserts(q) && StepBodyData(q, 1) == s.(skip := 0)
    ensures var n := s.skip;
      SinceFrom(env, p, data, since) == SinceAfter(env, p.state, s, data[n], data[n + 1..], since + n)
  {
    hide *;
    var n := s.skip;
    SinceInterior(env, p, data, n, since);
    assert data[n..][0] == data[n] && data[n..][1..] == data[n + 1..];
    SinceBodyOctet(env, q, data[n..], since + n);
    SkipIrrelevant(env, p.state, s, data[n], data[n + 1..], since + n);
  }

  lemma SkipIrrelevant(env: Env, from: State, s: Step, ch: byte, rest: seq<byte>, since: nat)
    ensures SinceAfter(env, from, s.(skip := 0), ch, rest, since) == SinceAfter(env, from, s, ch, rest, since)
  {
  }

  lemma SinceBodyOctet(env: Env, p: Parser, data: seq<byte>, since: nat)
    requires data != [] && IsBodyState(p.state) && BodyAsserts(p)
    ensures SinceFrom(env, p, data, since) == SinceAfter(env, p.state, StepBodyData(p, 1), data[0], data[1..], since)
  {
    BodyDataSwitch(env, p, data[0], 1);
    SinceOnce(env, p.state, p, data[0], data[1..], since);
    hide Switch, StepBodyData, SinceThen, NextSince, SinceAfter, Exec;
    assert Count(p) == p;
  }

  /** One execution of the switch at octet `i` of the buffer. */
  lemma StepCounts(env: Env, from: State, p: Parser, data: seq<byte>, i: nat, s: Step, since: nat)
    requires i < |data| && Inv(p, true) && (IsBodyState(p.state) ==> from == p.state)
    requires s == Switch(env, p, data[i], |data| - i)
    ensures var j := i + s.skip;
      SinceThen(env, from, Exec(env, p, data[i]), data[i + 1..], since)
      == SinceAfter(env, from, s, data[j], data[j + 1..], since + s.skip)
  {
    hide Exec, SinceThen, SinceAfter, Switch, StepBodyData, Inv, NextSince;
    if IsBodyState(p.state) {
      InvBody(p);
      BodyDataSwitch(env, p, data[i], |data| - i);
      var tail := data[i..];
      SinceBulk(env, p, tail, s, since);
      assert tail[s.skip] == data[i + s.skip] && tail[s.skip + 1..] == data[i + s.skip + 1..] && tail[1..] == data[i + 1..];
      assert Count(p) == p;
    } else {
      SwitchIgnoresRemaining(env, p, data[i], |data| - i);
      SinceOnce(env, from, p, data[i], data[i + 1..], since);
    }
  }

  lemma InvBody(p: Parser)
    requires Inv(p, true)
    ensures BodyAsserts(p) && p.contentLength < U64
  {
  }

  /** Where a re-execution starts nothing is open. */
  lemma AgainIsQuiet(env: Env, p: Parser, ch: byte, n: nat)
    requires n > 0 && Switch(env, p, ch, n).go.Reexecute?
    ensures var t := Switch(env, p, ch, n).p.state; Open(t).None? && !HoldsBody(t)
    ensures Open(p.state).Some? ==> ch == LF && Switch(env, p, ch, n).p.state.HeaderAlmostDone?
    ensures IsBodyState(p.state) ==> Switch(env, p, ch, n).p.state.MessageDone?
    ensures !p.state.ChunkDataAlmostDone?
  {
    hide StepResponse, StepStatus, StepRequestLine, StepChunkHead, ShouldKeepAlive, NeedsEof, ParseUrlChar, MethodString,
         Reguess, FieldOctet, ValueStart, ValueOctet, RecordFlag, StartMethod;
  }

  /** After a fragment was closed within an octet, that octet opens no other and is no error. */
  lemma ClosedStaysClosed(env: Env, p: Parser, ch: byte, n: nat)
    requires n > 0 && ((p.state.HeaderAlmostDone? && ch == LF) || p.state.MessageDone?)
    ensures var s := Switch(env, p, ch, n); s.go.Break? && Open(s.p.state).None? && !HoldsBody(s.p.state)
  {
    hide StepStart, StepResponse, StepStatus, StepMethod, StepUrl, StepRequestLine, StepHeaderField,
         StepHeadersEnd, StepChunkHead, StepBodyData, ShouldKeepAlive;
  }
}
