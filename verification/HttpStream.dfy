/** Octet-at-a-time meaning of the parser, without marks or bulk skips.

    Every octet is attributed to a data kind by the state it is read in (body)
    or leads to (request target, header name, header value). */
module HttpStream {
  import opened Basics
  import opened HttpParser
  import opened HttpInvariant

  /** What the callbacks are told, cut into single octets (`HttpGlue.SameGlue`). */
  datatype Atom = Octet(kind: Kind, ch: byte) | Notice(note: Note)

  /** How reading stops: input used up, an error, or a protocol upgrade. */
  datatype End = More | Failed | Upgraded

  datatype Fed = Fed(p: Parser, out: seq<Atom>, end: End)
  datatype Run = Run(p: Parser, out: seq<Atom>, used: nat, end: End)

  function NoteAtoms(n: Option<Note>): seq<Atom> {
    if n.Some? then [Notice(n.value)] else []
  }

  function OpenAtoms(s: State, ch: byte): seq<Atom> {
    if Open(s).Some? then [Octet(Open(s).value, ch)] else []
  }

  function BodyAtoms(s: State, ch: byte): seq<Atom> {
    if IsBodyState(s) then [Octet(Body, ch)] else []
  }

  /** One octet, followed through all its re-executions. */
  function Exec(env: Env, p: Parser, ch: byte): Fed
    decreases Rank(p.state)
  {
    var s := Switch(env, p, ch, 1);
    var here := BodyAtoms(p.state, ch) + NoteAtoms(s.note);
    if s.go.Break? then Fed(s.p, here + OpenAtoms(s.p.state, ch), More)
    else if s.go.Reexecute? then var r := Exec(env, s.p, ch); r.(out := here + r.out)
    else Fed(s.p, here, if s.go.Leave? then Upgraded else Failed)
  }

  function Count(p: Parser): Parser {
    if ParsingHeader(p.state) then p.(nread := p.nread + 1) else p
  }

  predicate Overflows(env: Env, p: Parser) {
    ParsingHeader(p.state) && p.nread > env.limit
  }

  lemma CountKeeps(env: Env, p: Parser)
    requires Inv(p, false) && !Overflows(env, Count(p)) && env.limit <= MAX_HEADER_SIZE
    ensures Inv(Count(p), true)
  {
  }

  function Feed(env: Env, p: Parser, ch: byte): Fed {
    var q := Count(p);
    if Overflows(env, q) then Fed(q.(errno := HeaderOverflow), [], Failed) else Exec(env, q, ch)
  }

  function Prefix(out: seq<Atom>, n: nat, r: Run): Run {
    Run(r.p, out + r.out, n + r.used, r.end)
  }

  /** The run that goes on with `rest` after one octet was fed. */
  function Then(env: Env, f: Fed, rest: seq<byte>): Run
    decreases |rest|, 1
  {
    if f.end.More? then Prefix(f.out, 1, Parse(env, f.p, rest))
    else Run(f.p, f.out, if f.end.Upgraded? then 1 else 0, f.end)
  }

  function Parse(env: Env, p: Parser, data: seq<byte>): Run
    decreases |data|, 0
  {
    if data == [] then Run(p, [], 0, More) else Then(env, Feed(env, p, data[0]), data[1..])
  }

  lemma PrefixTwice(o1: seq<Atom>, n1: nat, o2: seq<Atom>, n2: nat, r: Run)
    ensures Prefix(o1, n1, Prefix(o2, n2, r)) == Prefix(o1 + o2, n1 + n2, r)
  {
    assert o1 + (o2 + r.out) == o1 + o2 + r.out;
  }

  /** Reading `a ++ b` is reading `a` and then, if that neither failed nor
      upgraded, reading `b` with what is left of the parser. */
  lemma {:induction false} ParseConcat(env: Env, p: Parser, a: seq<byte>, b: seq<byte>)
    ensures var r := Parse(env, p, a);
      Parse(env, p, a + b) == if r.end.More? then Prefix(r.out, r.used, Parse(env, r.p, b)) else r
    decreases |a|
  {
    if a == [] {
      assert a + b == b;
      var r := Parse(env, p, b);
      assert [] + r.out == r.out;
    } else {
      assert (a + b)[1..] == a[1..] + b;
      var f := Feed(env, p, a[0]);
      if f.end.More? {
        ParseConcat(env, f.p, a[1..], b);
        var r := Parse(env, f.p, a[1..]);
        if r.end.More? {
          PrefixTwice(f.out, 1, r.out, r.used, Parse(env, r.p, b));
        }
      }
    }
  }

  lemma {:induction false} ParseUsed(env: Env, p: Parser, data: seq<byte>)
    ensures var r := Parse(env, p, data);
      r.used <= |data| && (r.end.More? ==> r.used == |data|)
    decreases |data|
  {
    if data != [] {
      var f := Feed(env, p, data[0]);
      if f.end.More? { ParseUsed(env, f.p, data[1..]); }
    }
  }

  /** Outside the body states the switch does not look at how much input is left. */
  lemma SwitchIgnoresRemaining(env: Env, p: Parser, ch: byte, n: nat)
    requires n > 0 && !IsBodyState(p.state)
    ensures Switch(env, p, ch, n) == Switch(env, p, ch, 1)
  {
    hide StepResponse, StepStatus, StepRequestLine, StepBodyData, StepChunkHead;
  }

  function Octets(k: Kind, s: seq<byte>): (r: seq<Atom>)
    ensures |r| == |s|
  {
    seq(|s|, i requires 0 <= i < |s| => Octet(k, s[i]))
  }

  lemma OctetsConcat(k: Kind, a: seq<byte>, b: seq<byte>)
    ensures Octets(k, a + b) == Octets(k, a) + Octets(k, b)
  {
  }

  /** The parser after `n` octets of a body that is longer than that. */
  function BodyRest(p: Parser, n: nat): Parser
    requires p.state.BodyIdentityEof? || n < p.contentLength
  {
    if p.state.BodyIdentityEof? then p else p.(contentLength := p.contentLength - n)
  }

  lemma BodyOctet(env: Env, p: Parser, ch: byte)
    requires IsBodyState(p.state) && BodyAsserts(p)
    requires p.state.BodyIdentityEof? || 1 < p.contentLength
    ensures Feed(env, p, ch) == Fed(BodyRest(p, 1), [Octet(Body, ch)], More)
  {
    assert Switch(env, p, ch, 1) == StepBodyData(p, 1);
  }

  /** Reading `n` octets of a longer body one by one: they all are body octets
      and nothing but the remaining length changes. */
  lemma {:induction false} BodyInterior(env: Env, p: Parser, data: seq<byte>, n: nat)
    requires IsBodyState(p.state) && BodyAsserts(p) && n <= |data|
    requires p.state.BodyIdentityEof? || n < p.contentLength <= ULLONG_MAX
    ensures Parse(env, p, data) == Prefix(Octets(Body, data[..n]), n, Parse(env, BodyRest(p, n), data[n..]))
    decreases n
  {
    hide Feed;
    if n == 0 {
      assert data[0..] == data && Octets(Body, data[..0]) == [] && BodyRest(p, 0) == p;
      var r := Parse(env, p, data);
      assert [] + r.out == r.out;
    } else {
      BodyOctet(env, p, data[0]);
      var p1, head, rest := BodyRest(p, 1), [Octet(Body, data[0])], Octets(Body, data[1..][..n - 1]);
      BodyInterior(env, p1, data[1..], n - 1);
      assert data[1..][n - 1..] == data[n..] && BodyRest(p1, n - 1) == BodyRest(p, n);
      PrefixTwice(head, 1, rest, n - 1, Parse(env, BodyRest(p, n), data[n..]));
      assert Octets(Body, data[..n]) == head + rest;
    }
  }

  lemma {:induction false} ExecErrno(env: Env, p: Parser, ch: byte)
    requires p.errno.OK? && Inv(p, true)
    ensures Exec(env, p, ch).p.errno.OK? <==> !Exec(env, p, ch).end.Failed?
    ensures !Exec(env, p, ch).end.Failed? ==> Inv(Exec(env, p, ch).p, false)
    decreases Rank(p.state)
  {
    hide Switch, Inv;
    var s := Switch(env, p, ch, 1);
    SwitchKeeps(env, p, ch, 1);
    if s.go.Reexecute? { ExecErrno(env, s.p, ch); }
  }

  /** A run fails exactly when it leaves an error number. */
  lemma {:induction false} ParseErrno(env: Env, p: Parser, data: seq<byte>)
    requires env.limit <= MAX_HEADER_SIZE
    requires p.errno.OK? && Inv(p, false)
    ensures var r := Parse(env, p, data);
      (r.p.errno.OK? <==> !r.end.Failed?) && (!r.end.Failed? ==> Inv(r.p, false))
    decreases |data|
  {
    hide Exec, Inv;
    if data != [] && !Overflows(env, Count(p)) {
      CountKeeps(env, p);
      ExecErrno(env, Count(p), data[0]);
      var f := Feed(env, p, data[0]);
      if f.end.More? { ParseErrno(env, f.p, data[1..]); }
    }
  }
}
