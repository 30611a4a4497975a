/** Composition of error-free reads, and the reads of single header octets. */
module HttpReads {
  import opened Basics
  import opened HttpParser
  import opened HttpStream

  /** All of `data` is read without error or upgrade, from `p` to `q`. */
  ghost predicate Reads(env: Env, p: Parser, data: seq<byte>, out: seq<Atom>, q: Parser) {
    Parse(env, p, data) == Run(q, out, |data|, More)
  }

  lemma ReadsNothing(env: Env, p: Parser)
    ensures Reads(env, p, [], [], p)
  {
  }

  lemma ReadsThen(env: Env, p: Parser, a: seq<byte>, o1: seq<Atom>, q: Parser,
                  b: seq<byte>, o2: seq<Atom>, r: Parser)
    requires Reads(env, p, a, o1, q) && Reads(env, q, b, o2, r)
    ensures Reads(env, p, a + b, o1 + o2, r)
  {
    hide Parse;
    ParseConcat(env, p, a, b);
  }

  /** The second part tells the callbacks nothing. */
  lemma ReadsOn(env: Env, p: Parser, a: seq<byte>, out: seq<Atom>, q: Parser, b: seq<byte>, r: Parser)
    requires Reads(env, p, a, out, q) && Reads(env, q, b, [], r)
    ensures Reads(env, p, a + b, out, r)
  {
    ReadsThen(env, p, a, out, q, b, [], r);
    assert out + [] == out;
  }

  lemma ReadsFed(env: Env, p: Parser, ch: byte, out: seq<Atom>, q: Parser)
    requires Feed(env, p, ch) == Fed(q, out, More)
    ensures Reads(env, p, [ch], out, q)
  {
    hide Feed;
    assert [ch][1..] == [];
    ReadsNothing(env, q);
    assert Then(env, Fed(q, out, More), []) == Prefix(out, 1, Run(q, [], 0, More));
    assert out + [] == out;
  }

  /** One octet more, however it ends. */
  lemma EndsWith(env: Env, p: Parser, data: seq<byte>, out: seq<Atom>, q: Parser, ch: byte)
    requires Reads(env, p, data, out, q)
    ensures var f := Feed(env, q, ch);
      Parse(env, p, data + [ch]) == Run(f.p, out + f.out, |data| + (if f.end.Failed? then 0 else 1), f.end)
  {
    hide Feed;
    ParseConcat(env, p, data, [ch]);
    var f := Feed(env, q, ch);
    assert [ch][1..] == [];
    assert Parse(env, q, [ch]) == Then(env, f, []);
    if f.end.More? {
      ReadsNothing(env, f.p);
      assert Then(env, f, []) == Prefix(f.out, 1, Run(f.p, [], 0, More));
      assert f.out + [] == f.out;
    }
  }

  function Advance(p: Parser, n: nat): Parser {
    p.(nread := p.nread + n)
  }

  /** One counted octet that is handled by a single execution of the switch. */
  lemma ReadsOctet(env: Env, p: Parser, ch: byte, s: Step)
    requires ParsingHeader(p.state) && p.nread < env.limit
    requires s == Switch(env, Advance(p, 1), ch, 1) && s.go.Break?
    ensures Reads(env, p, [ch], NoteAtoms(s.note) + OpenAtoms(s.p.state, ch), s.p)
  {
    hide Switch;
    var q := Advance(p, 1);
    assert !IsBodyState(q.state);
    assert Exec(env, q, ch) == Fed(s.p, [] + NoteAtoms(s.note) + OpenAtoms(s.p.state, ch), More);
    assert [] + NoteAtoms(s.note) == NoteAtoms(s.note);
    ReadsFed(env, p, ch, NoteAtoms(s.note) + OpenAtoms(s.p.state, ch), s.p);
  }

  /** The same, for a step that neither notifies nor leaves data open. */
  lemma ReadsSilently(env: Env, p: Parser, ch: byte, q: Parser)
    requires ParsingHeader(p.state) && p.nread < env.limit
    requires Switch(env, Advance(p, 1), ch, 1) == On(q).(flush := Switch(env, Advance(p, 1), ch, 1).flush)
    requires Open(q.state).None?
    ensures Reads(env, p, [ch], [], q)
  {
    hide Switch;
    ReadsOctet(env, p, ch, Switch(env, Advance(p, 1), ch, 1));
  }

  /** One octet in a state that does not count towards the header size. */
  lemma ReadsUncounted(env: Env, p: Parser, ch: byte, q: Parser)
    requires !ParsingHeader(p.state) && Open(q.state).None?
    requires var s := Switch(env, p, ch, 1); s == On(q).(mark := s.mark, flush := s.flush)
    ensures Reads(env, p, [ch], BodyAtoms(p.state, ch), q)
  {
    hide Switch;
    var b := BodyAtoms(p.state, ch);
    assert b + [] + [] == b;
    assert Exec(env, p, ch) == Fed(q, b + [] + [], More);
    ReadsFed(env, p, ch, b, q);
  }

  // Which case of the switch a state belongs to.

  lemma MethodSwitch(env: Env, p: Parser, ch: byte, n: nat)
    requires n > 0 && (p.state.ReqMethod?)
    ensures Switch(env, p, ch, n) == StepMethod(p, ch, n)
  {
    hide StepStart, StepResponse, StepStatus, StepMethod, StepUrl, StepRequestLine, StepHeaderField, StepHeaderValue,
         StepHeadersEnd, StepBody;
  }

  lemma UrlSwitch(env: Env, p: Parser, ch: byte, n: nat)
    requires n > 0 && (p.state.SpacesBeforeUrl? || IsUrlState(p.state))
    ensures Switch(env, p, ch, n) == StepUrl(p, ch, n)
  {
    hide StepStart, StepResponse, StepStatus, StepMethod, StepUrl, StepRequestLine, StepHeaderField, StepHeaderValue,
         StepHeadersEnd, StepBody;
  }

  lemma LineSwitch(env: Env, p: Parser, ch: byte, n: nat)
    requires n > 0 && (IsRequestLineState(p.state))
    ensures Switch(env, p, ch, n) == StepRequestLine(p, ch)
  {
    hide StepStart, StepResponse, StepStatus, StepMethod, StepUrl, StepRequestLine, StepHeaderField, StepHeaderValue,
         StepHeadersEnd, StepBody;
  }

  lemma FieldSwitch(env: Env, p: Parser, ch: byte, n: nat)
    requires n > 0 && (p.state.HeaderFieldStart? || p.state.HeaderField?)
    ensures Switch(env, p, ch, n) == StepHeaderField(p, ch, n)
  {
    hide StepStart, StepResponse, StepStatus, StepMethod, StepUrl, StepRequestLine, StepHeaderField, StepHeaderValue,
         StepHeadersEnd, StepBody;
  }

  lemma ValueSwitch(env: Env, p: Parser, ch: byte, n: nat)
    requires n > 0 && (IsHeaderValueState(p.state))
    ensures Switch(env, p, ch, n) == StepHeaderValue(p, ch, n)
  {
    hide StepStart, StepResponse, StepStatus, StepMethod, StepUrl, StepRequestLine, StepHeaderField, StepHeaderValue,
         StepHeadersEnd, StepBody;
  }

  lemma HeadersEndSwitch(env: Env, p: Parser, ch: byte, n: nat)
    requires n > 0 && (p.state.HeadersAlmostDone? || p.state.HeadersDone?)
    ensures Switch(env, p, ch, n) == StepHeadersEnd(env, p, ch, n)
  {
    hide StepStart, StepResponse, StepStatus, StepMethod, StepUrl, StepRequestLine, StepHeaderField, StepHeaderValue,
         StepHeadersEnd, StepBody;
  }

  lemma BodySwitch(env: Env, p: Parser, ch: byte, n: nat)
    requires n > 0 && (IsBodyPhase(p.state))
    ensures Switch(env, p, ch, n) == StepBody(p, ch, n)
  {
    hide StepStart, StepResponse, StepStatus, StepMethod, StepUrl, StepRequestLine, StepHeaderField, StepHeaderValue,
         StepHeadersEnd, StepBody;
  }

  lemma BodyDataSwitch(env: Env, p: Parser, ch: byte, n: nat)
    requires n > 0 && IsBodyState(p.state) && BodyAsserts(p)
    ensures Switch(env, p, ch, n) == StepBodyData(p, n)
  {
    BodySwitch(env, p, ch, n);
    hide Switch, StepBodyData;
  }
}
