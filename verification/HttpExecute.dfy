/** `http_parser_execute` itself: marks into the current buffer, bulk skips over
    body data, and the flush of a mark left open at the end of the buffer. */
module HttpExecute {
  import opened Basics
  import opened HttpSyntax
  import opened HttpParser
  import opened HttpInvariant
  import opened HttpStream
  import opened HttpReads
  import opened HttpFragments

  /** One callback invocation. */
  datatype Callback = Data(kind: Kind, bytes: seq<byte>) | Plainly(note: Note)

  function AtomsOf(e: Callback): seq<Atom> {
    match e
    case Data(k, b) => Octets(k, b)
    case Plainly(n) => [Notice(n)]
  }

  /** A callback log with all fragments cut into single octets. */
  function Flatten(es: seq<Callback>): seq<Atom> {
    if es == [] then [] else Flatten(es[..|es| - 1]) + AtomsOf(es[|es| - 1])
  }

  lemma FlattenPush(es: seq<Callback>, e: Callback)
    ensures Flatten(es + [e]) == Flatten(es) + AtomsOf(e)
  {
    assert (es + [e])[..|es|] == es;
  }

  /** The four `*_mark` pointers; a kind outside the map is a null mark. */
  type Marks = map<Kind, nat>

  ghost function Marked(marks: Marks, k: Kind, data: seq<byte>, i: nat): seq<Atom> {
    if k in marks && marks[k] <= i <= |data| then Octets(k, data[marks[k]..i]) else []
  }

  /** Octets read but not yet given to a callback. */
  ghost function Unreported(marks: Marks, data: seq<byte>, i: nat): seq<Atom> {
    Marked(marks, Field, data, i) + Marked(marks, Value, data, i) + Marked(marks, Url, data, i)
    + Marked(marks, Body, data, i)
  }

  /** At most one mark is set, and it is the one the state calls for. */
  ghost predicate MarksFit(marks: Marks, s: State, i: nat, n: nat) {
    && (forall k <- marks :: marks[k] <= i)
    && (forall k <- marks :: k == Body || Open(s) == Some(k))
    && (Open(s).Some? ==> Open(s).value in marks)
    && (Body in marks ==> s.ChunkDataAlmostDone? || (i == n && IsBodyState(s)))
  }

  ghost predicate OneMark(marks: Marks) {
    exists k: Kind :: marks.Keys <= {k}
  }

  /** The marks that are set stand `since` octets before `i`. */
  ghost predicate MarksAt(marks: Marks, i: nat, since: nat) {
    since <= i && (forall k <- marks :: marks[k] == i - since) && (since > 0 ==> marks != map[])
  }

  /** Inside the octet that is read from state `from`: before any re-execution the marks
      count `since` octets; after one nothing is marked, and what was counted is closed. */
  ghost predicate Counting(from: State, t: State, ch: byte, marks: Marks, i: nat, since: nat, again: bool) {
    if again then
      && marks == map[] && Open(t).None? && !HoldsBody(t)
      && ((Open(from).None? && !IsBodyState(from) && since == 0) || (t.HeaderAlmostDone? && ch == LF) || t.MessageDone?)
    else
      from == t && MarksAt(marks, i, since)
  }

  function OpeningMarks(s: State): Marks {
    if Open(s).Some? then map[Open(s).value := 0] else map[]
  }

  /** The atoms that one execution of the switch accounts for. */
  ghost function StepAtoms(p: Parser, s: Step, data: seq<byte>, i: nat): seq<Atom>
    requires i + s.skip < |data|
  {
    (if IsBodyState(p.state) then Octets(Body, data[i..i + s.skip + 1]) else [])
    + NoteAtoms(s.note)
    + (if s.go.Break? then OpenAtoms(s.p.state, data[i]) else [])
  }

  /** What is left to read after one execution of the switch that ends at octet
      `ch`, with `rest` behind it. */
  ghost function Remainder(env: Env, s: Step, ch: byte, rest: seq<byte>): Run {
    if s.go.Break? then Prefix([], 1, Parse(env, s.p, rest))
    else if s.go.Reexecute? then Then(env, Exec(env, s.p, ch), rest)
    else if s.go.Leave? then Run(s.p, [], 1, Upgraded)
    else Run(s.p, [], 0, Failed)
  }

  /** One execution of the switch on one octet. */
  lemma ExecOnce(env: Env, p: Parser, ch: byte, rest: seq<byte>)
    ensures var s := Switch(env, p, ch, 1);
      Then(env, Exec(env, p, ch), rest)
      == Prefix(BodyAtoms(p.state, ch) + NoteAtoms(s.note) + (if s.go.Break? then OpenAtoms(s.p.state, ch) else []),
                0, Remainder(env, s, ch, rest))
  {
    var s := Switch(env, p, ch, 1);
    var here := BodyAtoms(p.state, ch) + NoteAtoms(s.note);
    if s.go.Break? {
      PrefixTwice(here + OpenAtoms(s.p.state, ch), 0, [], 1, Parse(env, s.p, rest));
      assert here + OpenAtoms(s.p.state, ch) + [] == here + OpenAtoms(s.p.state, ch);
    } else if s.go.Reexecute? {
      var f := Exec(env, s.p, ch);
      assert here + [] == here;
      if f.end.More? {
        PrefixTwice(here, 0, f.out, 1, Parse(env, f.p, rest));
      }
    } else {
      assert here + [] == here && here + [] + [] == here;
    }
  }

  lemma BodyNote(p: Parser, n: nat)
    requires n > 0 && IsBodyState(p.state) && BodyAsserts(p)
    ensures StepBodyData(p, n).note.None? && !ParsingHeader(p.state)
  {
  }

  /** One octet read in a body state. */
  lemma LastBodyOctet(env: Env, p: Parser, data: seq<byte>)
    requires data != [] && IsBodyState(p.state) && BodyAsserts(p)
    ensures Parse(env, p, data) == Prefix([Octet(Body, data[0])], 0, Remainder(env, StepBodyData(p, 1), data[0], data[1..]))
  {
    hide Switch, StepBodyData, Remainder;
    BodyDataSwitch(env, p, data[0], 1);
    BodyNote(p, 1);
    ExecOnce(env, p, data[0], data[1..]);
    assert [Octet(Body, data[0])] + [] + [] == [Octet(Body, data[0])];
  }

  lemma OctetsSnoc(k: Kind, data: seq<byte>, a: nat, b: nat)
    requires a <= b < |data|
    ensures Octets(k, data[a..b + 1]) == Octets(k, data[a..b]) + [Octet(k, data[b])]
  {
  }

  /** A bulk skip over body data has the meaning of reading it octet by octet. */
  lemma BulkMeaning(env: Env, p: Parser, data: seq<byte>, s: Step)
    requires data != [] && IsBodyState(p.state) && BodyAsserts(p) && p.contentLength < U64
    requires s == StepBodyData(p, |data|) && s.skip < |data|
    ensures var n := s.skip;
      Parse(env, p, data) == Prefix(Octets(Body, data[..n + 1]), n, Remainder(env, s, data[n], data[n + 1..]))
  {
    var n := s.skip;
    BulkIsLast(p, |data|);
    BulkTail(env, p, data, s, BodyRest(p, n));
  }

  lemma BulkTail(env: Env, p: Parser, data: seq<byte>, s: Step, q: Parser)
    requires IsBodyState(p.state) && BodyAsserts(p) && s.skip < |data|
    requires p.state.BodyIdentityEof? || s.skip < p.contentLength <= ULLONG_MAX
    requires q == BodyRest(p, s.skip) && IsBodyState(q.state) && BodyAsserts(q)
    requires Remainder(env, StepBodyData(q, 1), data[s.skip], data[s.skip + 1..]) == Remainder(env, s, data[s.skip], data[s.skip + 1..])
    ensures var n := s.skip;
      Parse(env, p, data) == Prefix(Octets(Body, data[..n + 1]), n, Remainder(env, s, data[n], data[n + 1..]))
  {
    hide *;
    var n := s.skip;
    BodyInterior(env, p, data, n);
    assert data[n..][0] == data[n] && data[n..][1..] == data[n + 1..];
    LastBodyOctet(env, q, data[n..]);
    PrefixTwice(Octets(Body, data[..n]), n, [Octet(Body, data[n])], 0, Remainder(env, s, data[n], data[n + 1..]));
    assert data[0..n] == data[..n] && data[0..n + 1] == data[..n + 1];
    OctetsSnoc(Body, data, 0, n);
  }

  lemma PlainMeaning(env: Env, p: Parser, data: seq<byte>, i: nat)
    requires i < |data| && !IsBodyState(p.state)
    ensures var s := Switch(env, p, data[i], |data| - i);
      s.skip == 0
      && Then(env, Exec(env, p, data[i]), data[i + 1..])
         == Prefix(StepAtoms(p, s, data, i), 0, Remainder(env, s, data[i], data[i + 1..]))
  {
    hide Switch, Exec, Then, Remainder;
    SwitchIgnoresRemaining(env, p, data[i], |data| - i);
    ExecOnce(env, p, data[i], data[i + 1..]);
  }

  lemma SkipMeaning(env: Env, p: Parser, data: seq<byte>, i: nat, s: Step)
    requires i < |data| && IsBodyState(p.state) && BodyAsserts(p) && p.contentLength < U64
    requires s == StepBodyData(p, |data| - i) && i + s.skip < |data|
    ensures var j := i + s.skip;
      Parse(env, p, data[i..]) == Prefix(Octets(Body, data[i..j + 1]), s.skip, Remainder(env, s, data[j], data[j + 1..]))
  {
    hide *;
    var tail, n := data[i..], s.skip;
    BulkMeaning(env, p, tail, s);
    assert tail[n] == data[i + n] && tail[n + 1..] == data[i + n + 1..];
    assert tail[..n + 1] == data[i..i + n + 1];
  }

  lemma BodyThen(env: Env, p: Parser, data: seq<byte>, i: nat)
    requires i < |data| && !ParsingHeader(p.state)
    ensures Parse(env, p, data[i..]) == Then(env, Exec(env, p, data[i]), data[i + 1..])
  {
    assert data[i..][1..] == data[i + 1..];
  }

  /** Meaning of one execution of the switch at octet `i` of the buffer. */
  lemma StepMeaning(env: Env, p: Parser, data: seq<byte>, i: nat, s: Step)
    requires i < |data| && Inv(p, true)
    requires s == Switch(env, p, data[i], |data| - i)
    ensures var j := i + s.skip;
      Then(env, Exec(env, p, data[i]), data[i + 1..])
      == Prefix(StepAtoms(p, s, data, i), s.skip, Remainder(env, s, data[j], data[j + 1..]))
  {
    hide Parse, Exec, Then, Switch, StepBodyData, Remainder;
    if IsBodyState(p.state) {
      BodyDataSwitch(env, p, data[i], |data| - i);
      BodyNote(p, |data| - i);
      SkipMeaning(env, p, data, i, s);
      BodyThen(env, p, data, i);
      var all := Octets(Body, data[i..i + s.skip + 1]);
      assert all + [] == all && all + [] + [] == all;
    } else {
      PlainMeaning(env, p, data, i);
    }
  }

  /** The marks before a flush. */
  function SetMark(marks: Marks, k: Option<Kind>, i: nat): Marks {
    if k.Some? && k.value !in marks then marks[k.value := i] else marks
  }

  function Unmark(marks: Marks, k: Option<Kind>): Marks {
    if k.Some? then marks - {k.value} else marks
  }

  /** Where the next unread octet is after a step. */
  function NextPos(s: Step, i: nat): nat {
    if s.go.Break? then i + s.skip + 1 else i + s.skip
  }

  /** After a step the marks again fit the state. */
  lemma MarksStayFit(p: Parser, s: Step, marks: Marks, i: nat, n: nat)
    requires i < n && Disciplined(p, n - i, s) && MarksFit(marks, p.state, i, n)
    requires s.go.Break? || s.go.Reexecute?
    ensures MarksFit(Unmark(SetMark(marks, s.mark, i), s.flush), s.p.state, NextPos(s, i), n)
  {
  }

  /** The octets that the flush of a step hands to a callback. */
  ghost function Flushed(p: Parser, s: Step, marks: Marks, data: seq<byte>, i: nat): seq<Atom> {
    if s.flush.None? then []
    else Marked(SetMark(marks, s.mark, i), s.flush.value, data, i + s.skip + if IsBodyState(p.state) then 1 else 0)
  }

  lemma UnreportedOne(marks: Marks, k: Kind, data: seq<byte>, i: nat)
    requires forall x <- marks :: x == k
    ensures Unreported(marks, data, i) == Marked(marks, k, data, i)
  {
  }

  /** What a step flushes, notifies and leaves marked is what was marked before
      plus what the step accounts for. */
  ghost predicate Accounts(p: Parser, s: Step, marks: Marks, data: seq<byte>, i: nat)
    requires i + s.skip < |data|
  {
    Flushed(p, s, marks, data, i) + NoteAtoms(s.note)
    + Unreported(Unmark(SetMark(marks, s.mark, i), s.flush), data, NextPos(s, i))
    == Unreported(marks, data, i) + StepAtoms(p, s, data, i)
  }

  lemma AccountsBody(p: Parser, s: Step, marks: Marks, data: seq<byte>, i: nat)
    requires i < |data| && Disciplined(p, |data| - i, s) && MarksFit(marks, p.state, i, |data|)
    requires IsBodyState(p.state) && (s.go.Break? || s.go.Reexecute?)
    ensures Accounts(p, s, marks, data, i)
  {
    var j := i + s.skip;
    assert marks == map[];
    var m1 := SetMark(marks, s.mark, i);
    assert m1 == map[Body := i];
    UnreportedOne(marks, Body, data, i);
    UnreportedOne(Unmark(m1, s.flush), Body, data, NextPos(s, i));
  }

  lemma AccountsFlush(p: Parser, s: Step, marks: Marks, data: seq<byte>, i: nat)
    requires i < |data| && Disciplined(p, |data| - i, s) && MarksFit(marks, p.state, i, |data|)
    requires !IsBodyState(p.state) && !s.go.Abort? && s.note.None? && s.flush.Some?
    ensures Accounts(p, s, marks, data, i)
  {
    hide Disciplined, MarksFit, IsBodyState, Open, SetMark, Unmark;
    var k := s.flush.value;
    FlushFacts(p, s, marks, data, i);
    UnreportedOne(marks, k, data, i);
    UnreportedOne(map[], k, data, NextPos(s, i));
  }

  lemma FlushFacts(p: Parser, s: Step, marks: Marks, data: seq<byte>, i: nat)
    requires i < |data| && Disciplined(p, |data| - i, s) && MarksFit(marks, p.state, i, |data|)
    requires !IsBodyState(p.state) && !s.go.Abort? && s.note.None? && s.flush.Some?
    ensures var m1, k := SetMark(marks, s.mark, i), s.flush.value;
      && (forall x <- marks :: x == k) && Unmark(m1, s.flush) == map[] && s.skip == 0 && StepAtoms(p, s, data, i) == []
      && Marked(m1, k, data, i) == Marked(marks, k, data, i)
  {
    var m1, k := SetMark(marks, s.mark, i), s.flush.value;
    assert forall x <- m1 :: x == k;
    FreshMarkEmpty(marks, s.mark, k, data, i);
  }

  /** The one kind that can be marked after a step that flushes nothing. */
  ghost function MarkedKind(p: Parser, s: Step): Kind {
    if s.mark.Some? then s.mark.value else if Open(p.state).Some? then Open(p.state).value else Body
  }

  lemma OnlyMark(p: Parser, s: Step, marks: Marks, i: nat, n: nat)
    requires i < n && Disciplined(p, n - i, s) && MarksFit(marks, p.state, i, n)
    requires !IsBodyState(p.state) && !s.go.Abort? && s.flush.None?
    ensures var m1 := SetMark(marks, s.mark, i);
      && (forall x <- marks :: x == MarkedKind(p, s)) && (forall x <- m1 :: x == MarkedKind(p, s) && m1[x] <= i)
      && (s.go.Break? ==> (MarkedKind(p, s) in m1 <==> Open(s.p.state) == Some(MarkedKind(p, s))))
      && (s.go.Break? ==> Open(s.p.state).None? || Open(s.p.state) == Some(MarkedKind(p, s)))
  {
  }

  lemma MarkedGrows(marks: Marks, k: Kind, data: seq<byte>, i: nat)
    requires i < |data| && (k in marks ==> marks[k] <= i)
    ensures Marked(marks, k, data, i + 1) == Marked(marks, k, data, i) + if k in marks then [Octet(k, data[i])] else []
  {
    if k in marks { OctetsSnoc(k, data, marks[k], i); }
  }

  lemma FreshMarkEmpty(marks: Marks, mark: Option<Kind>, k: Kind, data: seq<byte>, i: nat)
    requires i < |data|
    ensures Marked(SetMark(marks, mark, i), k, data, i) == Marked(marks, k, data, i)
  {
  }

  lemma AccountsMark(p: Parser, s: Step, marks: Marks, data: seq<byte>, i: nat)
    requires i < |data| && Disciplined(p, |data| - i, s) && MarksFit(marks, p.state, i, |data|)
    requires !IsBodyState(p.state) && !s.go.Abort? && s.note.None? && s.flush.None?
    ensures Accounts(p, s, marks, data, i)
  {
    hide Marked;
    var m1, k := SetMark(marks, s.mark, i), MarkedKind(p, s);
    OnlyMark(p, s, marks, i, |data|);
    UnreportedOne(marks, k, data, i);
    UnreportedOne(m1, k, data, NextPos(s, i));
    FreshMarkEmpty(marks, s.mark, k, data, i);
    MarkedGrows(m1, k, data, i);
  }

  lemma AccountsNote(p: Parser, s: Step, marks: Marks, data: seq<byte>, i: nat)
    requires i < |data| && Disciplined(p, |data| - i, s) && MarksFit(marks, p.state, i, |data|)
    requires !s.go.Abort? && s.note.Some?
    ensures Accounts(p, s, marks, data, i) && marks == map[]
  {
    assert marks == map[];
  }

  lemma StepAccounts(p: Parser, s: Step, marks: Marks, data: seq<byte>, i: nat)
    requires i < |data| && Disciplined(p, |data| - i, s) && MarksFit(marks, p.state, i, |data|) && !s.go.Abort?
    ensures Accounts(p, s, marks, data, i)
  {
    if s.note.Some? { AccountsNote(p, s, marks, data, i); }
    else if IsBodyState(p.state) { AccountsBody(p, s, marks, data, i); }
    else if s.flush.Some? { AccountsFlush(p, s, marks, data, i); }
    else { AccountsMark(p, s, marks, data, i); }
  }

  /** No more than one kind is marked. */
  lemma OneMarkStays(p: Parser, s: Step, marks: Marks, i: nat, n: nat)
    requires i < n && Disciplined(p, n - i, s) && MarksFit(marks, p.state, i, n) && !s.go.Abort?
    ensures var rest := Unmark(SetMark(marks, s.mark, i), s.flush); OneMark(rest) && (s.go.Leave? ==> rest == map[])
  {
    var rest := Unmark(SetMark(marks, s.mark, i), s.flush);
    var k := if s.flush.Some? || IsBodyState(p.state) then Body else MarkedKind(p, s);
    assert rest.Keys <= {k};
  }

  lemma OnlyBody(marks: Marks, s: State, i: nat, n: nat)
    requires MarksFit(marks, s, i, n) && i < n && Open(s).None? && !s.ChunkDataAlmostDone?
    ensures marks == map[]
  {
  }

  /** The first execution of the switch for an octet. */
  lemma FirstCounts(p: Parser, s: Step, marks: Marks, i: nat, n: nat, since: nat)
    requires i < n && Disciplined(p, n - i, s) && MarksFit(marks, p.state, i, n) && MarksAt(marks, i, since)
    requires s.go.Break? || s.go.Fail?
    ensures var rest := Unmark(SetMark(marks, s.mark, i), s.flush);
      MarksAt(rest, NextPos(s, i), if s.go.Break? then NextSince(p.state, s.p.state, since + s.skip) else since + s.skip)
  {
    if Open(p.state).None? && !p.state.ChunkDataAlmostDone? { OnlyBody(marks, p.state, i, n); }
  }

  /** A later one. */
  lemma AgainCounts(from: State, p: Parser, s: Step, i: nat, n: nat, since: nat)
    requires i < n && Disciplined(p, n - i, s) && Open(p.state).None? && !HoldsBody(p.state)
    requires (Open(from).None? && !IsBodyState(from) && since == 0)
             || (s.go.Break? && Open(s.p.state).None? && !HoldsBody(s.p.state))
    requires s.go.Break? || s.go.Fail?
    ensures var rest := Unmark(SetMark(map[], s.mark, i), s.flush);
      MarksAt(rest, NextPos(s, i), if s.go.Break? then NextSince(from, s.p.state, since + s.skip) else since + s.skip)
  {
  }

  lemma AgainStarts(p: Parser, s: Step, marks: Marks, i: nat, n: nat, since: nat)
    requires i < n && Disciplined(p, n - i, s) && MarksFit(marks, p.state, i, n) && MarksAt(marks, i, since)
    requires !p.state.ChunkDataAlmostDone?
    ensures Open(p.state).Some? || IsBodyState(p.state) || since + s.skip == 0
    ensures s.skip == 0 || IsBodyState(p.state)
  {
    if Open(p.state).None? { OnlyBody(marks, p.state, i, n); }
  }

  lemma SkipsOnlyBody(p: Parser, n: nat, s: Step)
    requires Disciplined(p, n, s)
    ensures s.skip < n && (s.skip > 0 ==> IsBodyState(p.state))
    ensures s.go.Reexecute? ==> Rank(s.p.state) < Rank(p.state)
  {
  }

  /** The counts follow the marks through one execution of the switch. */
  lemma CountStep(env: Env, from: State, p: Parser, s: Step, marks: Marks, data: seq<byte>, i: nat, since: nat, again: bool)
    requires i < |data| && s == Switch(env, p, data[i], |data| - i) && !s.go.Abort?
    requires MarksFit(marks, p.state, i, |data|) && Counting(from, p.state, data[i], marks, i, since, again)
    ensures IsBodyState(p.state) ==> from == p.state
    ensures i + s.skip < |data|
    ensures var rest, c := Unmark(SetMark(marks, s.mark, i), s.flush), since + s.skip;
      && (s.go.Break? ==> MarksAt(rest, NextPos(s, i), NextSince(from, s.p.state, c)))
      && (s.go.Fail? ==> MarksAt(rest, NextPos(s, i), c))
      && (s.go.Reexecute? ==>
            MarksFit(rest, s.p.state, NextPos(s, i), |data|) ==>
              Counting(from, s.p.state, data[i + s.skip], rest, NextPos(s, i), c, true))
  {
    hide Switch, NextSince, MarksAt, MarksFit, SetMark, Unmark;
    if s.go.Reexecute? {
      hide Disciplined;
      AgainIsQuiet(env, p, data[i], |data| - i);
      if !again { AgainStarts(p, s, marks, i, |data|, since); }
      SkipsOnlyBody(p, |data| - i, s);
      var rest := Unmark(SetMark(marks, s.mark, i), s.flush);
      if MarksFit(rest, s.p.state, NextPos(s, i), |data|) { OnlyBody(rest, s.p.state, NextPos(s, i), |data|); }
    } else if again {
      if !(Open(from).None? && !IsBodyState(from) && since == 0) { ClosedStaysClosed(env, p, data[i], |data| - i); }
      if s.go.Break? || s.go.Fail? { AgainCounts(from, p, s, i, |data|, since); }
    } else if s.go.Break? || s.go.Fail? {
      FirstCounts(p, s, marks, i, |data|, since);
    }
  }
  lemma FlushInRange(p: Parser, s: Step, marks: Marks, i: nat, n: nat)
    requires i < n && Disciplined(p, n - i, s) && MarksFit(marks, p.state, i, n)
    ensures var m1 := SetMark(marks, s.mark, i); var end := i + s.skip + if IsBodyState(p.state) then 1 else 0;
      i + s.skip < n && end <= n && forall k <- m1 :: m1[k] <= end
  {
  }

  lemma StepBasics(p: Parser, n: nat, s: Step)
    requires Disciplined(p, n, s) && p.errno.OK? && !s.go.Abort?
    ensures s.skip < n
    ensures s.go.Reexecute? ==> Rank(s.p.state) < Rank(p.state)
    ensures s.p.errno.OK? <==> !s.go.Fail?
  {
  }

  lemma Rearrange(before: seq<Atom>, a: seq<Atom>, b: seq<Atom>, c: seq<Atom>, x: seq<Atom>, y: seq<Atom>)
    requires a + b + c == x + y
    ensures before + a + b + c == before + x + y
  {
    assert before + a + b + c == before + (a + b + c);
    assert before + x + y == before + (x + y);
  }

  /** Composition of the part read so far with one more step. */
  lemma AddStep(env: Env, out: seq<Atom>, n: nat, atoms: seq<Atom>, s: Step, ch: byte, rest: seq<byte>)
    ensures var r := Prefix(out, n, Prefix(atoms, s.skip, Remainder(env, s, ch, rest))); var m := n + s.skip;
      r == if s.go.Break? then Prefix(out + atoms, m + 1, Parse(env, s.p, rest))
           else if s.go.Reexecute? then Prefix(out + atoms, m, Then(env, Exec(env, s.p, ch), rest))
           else if s.go.Leave? then Run(s.p, out + atoms, m + 1, Upgraded)
           else Run(s.p, out + atoms, m, Failed)
  {
    hide Parse, Then, Exec;
    PrefixTwice(out, n, atoms, s.skip, Remainder(env, s, ch, rest));
    if s.go.Break? { PrefixTwice(out + atoms, n + s.skip, [], 1, Parse(env, s.p, rest)); }
    assert out + atoms + [] == out + atoms;
  }

  /** The start of a call: the mark that the state asks for is at octet 0. */
  lemma StartOfBuffer(env: Env, p: Parser, data: seq<byte>)
    requires data != []
    ensures MarksFit(OpeningMarks(p.state), p.state, 0, |data|)
    ensures Unreported(OpeningMarks(p.state), data, 0) == []
    ensures data[0..] == data && Parse(env, p, data) == Prefix([], 0, Parse(env, p, data[0..]))
  {
    assert data[0..] == data;
    var r := Parse(env, p, data);
    assert [] + r.out == r.out;
  }

  /** Reading from octet `i` on. */
  lemma ParseNext(env: Env, p: Parser, data: seq<byte>, i: nat)
    requires i < |data|
    ensures var q := Count(p);
      Parse(env, p, data[i..])
      == if Overflows(env, q) then Run(q.(errno := HeaderOverflow), [], 0, Failed)
         else Then(env, Exec(env, q, data[i]), data[i + 1..])
  {
    hide Exec;
    assert data[i..][1..] == data[i + 1..];
  }

  lemma SinceNext(env: Env, p: Parser, data: seq<byte>, i: nat, since: nat)
    requires i < |data|
    ensures var q := Count(p);
      SinceFrom(env, p, data[i..], since)
      == if Overflows(env, q) then since else SinceThen(env, q.state, Exec(env, q, data[i]), data[i + 1..], since)
  {
    hide Exec;
    assert data[i..][1..] == data[i + 1..];
  }

  lemma MarksAtStart(s: State)
    ensures MarksAt(OpeningMarks(s), 0, 0)
  {
  }

  lemma CountingStarts(from: State, ch: byte, marks: Marks, i: nat, since: nat)
    requires MarksAt(marks, i, since)
    ensures Counting(from, from, ch, marks, i, since, false)
  {
  }

  /** At most one mark is set: the assertion before the final callbacks. */
  lemma AtMostOneMark(marks: Marks, st: State, i: nat, n: nat)
    requires MarksFit(marks, st, i, n)
    ensures |marks| <= 1 && OneMark(marks)
  {
    var k := if Open(st).Some? then Open(st).value else Body;
    assert marks.Keys <= {k};
    assert |marks| == |marks.Keys|;
    if marks.Keys != {} { assert marks.Keys == {k}; }
  }

  lemma MarkPositions(marks: Marks, st: State, n: nat)
    requires MarksFit(marks, st, n, n)
    ensures forall k <- marks :: marks[k] <= n
  {
  }

  lemma NothingUnreported(data: seq<byte>, i: nat)
    ensures Unreported(map[], data, i) == []
  {
  }

  lemma EndOfBuffer(env: Env, p: Parser, data: seq<byte>, out: seq<Atom>)
    ensures Prefix(out, |data|, Parse(env, p, data[|data|..])) == Run(p, out, |data|, More)
  {
    assert data[|data|..] == [];
    assert out + [] == out;
  }

  /** All was told but the fragment `lost` at the end. */
  ghost predicate Loses(k: Kind, lost: seq<byte>, told: seq<Atom>, all: seq<Atom>) {
    told + Octets(k, lost) == all
  }

  ghost predicate LosesSome(lost: seq<byte>, told: seq<Atom>, all: seq<Atom>) {
    exists k: Kind :: Loses(k, lost, told, all)
  }

  /** What the callbacks were told, compared with the octet-at-a-time meaning:
      everything, except that an error leaves the open fragment unreported, which is
      the last `since` octets before the one that is in error. */
  ghost predicate Reported(before: seq<Atom>, r: Run, now: seq<Atom>, data: seq<byte>, since: nat) {
    if r.end.Failed? then
      since <= r.used <= |data| && LosesSome(data[r.used - since..r.used], now, before + r.out)
    else
      now == before + r.out
  }

  lemma ReportedAtStop(before: seq<Atom>, r: Run, told: seq<Atom>, marks: Marks, data: seq<byte>, since: nat)
    requires r.end.Failed? && r.used <= |data| && told + Unreported(marks, data, r.used) == before + r.out
    requires OneMark(marks) && MarksAt(marks, r.used, since)
    ensures Reported(before, r, told, data, since)
  {
    var k: Kind :| marks.Keys <= {k};
    UnreportedOne(marks, k, data, r.used);
    if k in marks {
      assert Loses(k, data[r.used - since..r.used], told, before + r.out);
    } else {
      assert marks == map[];
      assert data[r.used - since..r.used] == [];
      assert Loses(k, data[r.used - since..r.used], told, before + r.out);
    }
  }

  lemma NoneLeft(before: seq<Atom>, r: Run, data: seq<byte>, since: nat)
    requires !r.end.Failed?
    ensures Reported(before, r, before + r.out, data, since)
  {
  }

  /** Everything is told exactly when no octet of this buffer is in the open fragment. */
  lemma AllTold(before: seq<Atom>, r: Run, now: seq<Atom>, data: seq<byte>, since: nat)
    requires Reported(before, r, now, data, since)
    ensures now == before + r.out <==> !r.end.Failed? || since == 0
  {
    if r.end.Failed? {
      var k: Kind :| Loses(k, data[r.used - since..r.used], now, before + r.out);
      assert |now| + since == |before + r.out|;
      if since == 0 { assert now + [] == now; }
    }
  }

  lemma OverflowRun(out: seq<Atom>, n: nat, p: Parser)
    ensures Prefix(out, n, Run(p, [], 0, Failed)) == Run(p, out, n, Failed)
  {
    assert out + [] == out;
  }

  lemma MarkedWithout(marks: Marks, k: Kind, other: Kind, data: seq<byte>, i: nat)
    requires k != other
    ensures Marked(marks - {other}, k, data, i) == Marked(marks, k, data, i)
  {
  }

  /** Reading the octet at `i` to its end accounts for `out` and stops at `j`. */
  ghost predicate ReadsTo(env: Env, p0: Parser, data: seq<byte>, i: nat, out: seq<Atom>, p1: Parser, j: nat, end: End) {
    && i < |data| && i <= j <= |data|
    && Then(env, Exec(env, p0, data[i]), data[i + 1..])
       == if end.More? then Prefix(out, j - i, Parse(env, p1, data[j..]))
          else Run(p1, out, j - i + (if end.Upgraded? then 1 else 0), end)
  }

  /** From `told` and `marks` at `i` to `told'` and `marks'` at `j` by way of `out`. */
  ghost predicate Tells(told: seq<Atom>, marks: Marks, data: seq<byte>, i: nat, out: seq<Atom>, told': seq<Atom>, marks': Marks, j: nat) {
    && told' + Unreported(marks', data, j) == told + Unreported(marks, data, i) + out
    && OneMark(marks')
  }

  ghost predicate Resumable(p: Parser, marks: Marks, i: nat, n: nat, counted: bool) {
    p.errno.OK? && Inv(p, counted) && MarksFit(marks, p.state, i, n)
  }

  lemma ReadOn(env: Env, whole: Run, out: seq<Atom>, p0: Parser, data: seq<byte>, i: nat, more: seq<Atom>, p1: Parser, j: nat, end: End)
    requires ReadsTo(env, p0, data, i, more, p1, j, end)
    requires whole == Prefix(out, i, Then(env, Exec(env, p0, data[i]), data[i + 1..]))
    ensures whole == if end.More? then Prefix(out + more, j, Parse(env, p1, data[j..]))
                     else Run(p1, out + more, j + (if end.Upgraded? then 1 else 0), end)
  {
    hide Then, Exec, Parse;
    PrefixTwice(out, i, more, j - i, Parse(env, p1, data[j..]));
  }

  lemma TellOn(before: seq<Atom>, out: seq<Atom>, told: seq<Atom>, marks: Marks, data: seq<byte>, i: nat, more: seq<Atom>, told': seq<Atom>, marks': Marks, j: nat)
    requires told + Unreported(marks, data, i) == before + out
    requires Tells(told, marks, data, i, more, told', marks', j)
    ensures told' + Unreported(marks', data, j) == before + (out + more)
    ensures OneMark(marks')
  {
    hide Unreported, OneMark;
    assert before + out + more == before + (out + more);
  }

  class Connection {
    var p: Parser
    var log: seq<Callback>

    constructor (t: ParserType)
      ensures p == Init(t) && log == [] && Valid(p)
    {
      p, log := Init(t), [];
    }

    /** CALLBACK_DATA: report the marked octets before `end`, drop the mark. */
    method FlushMark(k: Kind, marks: Marks, data: seq<byte>, end: nat) returns (rest: Marks)
      requires k in marks ==> marks[k] <= end <= |data|
      modifies this`log
      ensures rest == marks - {k}
      ensures Flatten(log) == old(Flatten(log)) + Marked(marks, k, data, end)
    {
      rest := marks;
      if k in marks {
        FlattenPush(log, Data(k, data[marks[k]..end]));
        log := log + [Data(k, data[marks[k]..end])];
        rest := marks - {k};
      } else {
        assert marks - {k} == marks;
      }
    }

    /** CALLBACK_NOTIFY. */
    method Report(n: Option<Note>)
      modifies this`log
      ensures Flatten(log) == old(Flatten(log)) + NoteAtoms(n)
    {
      if n.Some? {
        FlattenPush(log, Plainly(n.value));
        log := log + [Plainly(n.value)];
      }
    }

    /** End of input: a body that runs until the connection closes is complete. */
    method ExecuteEof() returns (used: nat)
      requires Valid(p) && p.errno.OK?
      modifies this
      ensures Valid(p)
      ensures old(p).state.BodyIdentityEof? ==>
        used == 0 && p == old(p) && Flatten(log) == old(Flatten(log)) + [Notice(MessageComplete)]
      ensures old(p).state.Dead? || old(p).state.StartReqOrRes? || old(p).state.StartRes? || old(p).state.StartReq? ==>
        used == 0 && p == old(p) && log == old(log)
      ensures !p.errno.OK? ==> used == 1 && p == old(p).(errno := InvalidEofState) && log == old(log)
      ensures p.errno.OK? ==> old(p).state.BodyIdentityEof? || (IsStartState(old(p).state) && !old(p).state.ResOrRespH?)
    {
      used := 0;
      if p.state.BodyIdentityEof? {
        Report(Some(MessageComplete));
      } else if !(p.state.Dead? || p.state.StartReqOrRes? || p.state.StartRes? || p.state.StartReq?) {
        p := p.(errno := InvalidEofState);
        used := 1;
      }
    }

    /** The callbacks for a mark left over at the end of the buffer. */
    method FlushLeftovers(marks: Marks, data: seq<byte>)
      requires forall k <- marks :: marks[k] <= |data|
      modifies this`log
      ensures Flatten(log) == old(Flatten(log)) + Unreported(marks, data, |data|)
    {
      hide Flatten, Marked;
      ghost var before, n := Flatten(log), |data|;
      var m1 := FlushMark(Field, marks, data, |data|);
      var m2 := FlushMark(Value, m1, data, |data|);
      var m3 := FlushMark(Url, m2, data, |data|);
      var m4 := FlushMark(Body, m3, data, |data|);
      MarkedWithout(marks, Value, Field, data, n);
      MarkedWithout(marks, Url, Field, data, n);
      MarkedWithout(m1, Url, Value, data, n);
      MarkedWithout(marks, Body, Field, data, n);
      MarkedWithout(m1, Body, Value, data, n);
      MarkedWithout(m2, Body, Url, data, n);
      ghost var a, b, c, d := Marked(marks, Field, data, n), Marked(marks, Value, data, n),
                              Marked(marks, Url, data, n), Marked(marks, Body, data, n);
      assert before + a + b + c + d == before + (a + b + c + d);
    }

    /** The effects of one execution of the switch at octet `i`: MARK, new
        fields, move, CALLBACK_DATA, CALLBACK_NOTIFY. */
    method Apply(s: Step, marks: Marks, data: seq<byte>, i: nat) returns (rest: Marks, j: nat)
      requires i < |data| && Disciplined(p, |data| - i, s) && MarksFit(marks, p.state, i, |data|) && !s.go.Abort?
      modifies this
      ensures p == s.p
      ensures j == NextPos(s, i) == if s.go.Break? then i + s.skip + 1 else i + s.skip
      ensures s.go.Break? || s.go.Reexecute? ==> MarksFit(rest, p.state, j, |data|)
      ensures s.go.Leave? ==> rest == map[]
      ensures i + s.skip < |data|
      ensures rest == Unmark(SetMark(marks, s.mark, i), s.flush)
      ensures Tells(old(Flatten(log)), marks, data, i, StepAtoms(old(p), s, data, i), Flatten(log), rest, j)
    {
      hide MarksFit, Disciplined, OneMark, StepAtoms, Unreported, Marked, Octets, IsBodyState, SetMark;
      ghost var before, pending := Flatten(log), Unreported(marks, data, i);
      FlushInRange(p, s, marks, i, |data|);
      StepAccounts(p, s, marks, data, i);
      OneMarkStays(p, s, marks, i, |data|);
      if s.go.Break? || s.go.Reexecute? { MarksStayFit(p, s, marks, i, |data|); }
      ghost var flushed, atoms := Flushed(p, s, marks, data, i), StepAtoms(p, s, data, i);
      var end := i + s.skip + if IsBodyState(p.state) then 1 else 0;
      rest := SetMark(marks, s.mark, i);
      if s.flush.Some? {
        rest := FlushMark(s.flush.value, rest, data, end);
      }
      assert Flatten(log) == before + flushed;
      Report(s.note);
      assert Flatten(log) == before + flushed + NoteAtoms(s.note);
      p := s.p;
      j := NextPos(s, i);
      ghost var left := Unreported(rest, data, j);
      Rearrange(before, flushed, NoteAtoms(s.note), left, pending, atoms);
    }

    /** One execution of the switch at octet `i`, with what it means for the rest of the
        input and for the octets that are marked. */
    method ExecuteSwitch(env: Env, data: seq<byte>, marks: Marks, i: nat, ghost from: State, ghost since: nat, ghost again: bool)
      returns (s: Step, rest: Marks, j: nat, ghost atoms: seq<Atom>)
      requires i < |data| && Resumable(p, marks, i, |data|, true)
      requires Counting(from, p.state, data[i], marks, i, since, again)
      modifies this
      ensures p == s.p && i + s.skip < |data| && j == NextPos(s, i)
      ensures var l := i + s.skip;
        && Then(env, Exec(env, old(p), data[i]), data[i + 1..])
           == Prefix(atoms, s.skip, Remainder(env, s, data[l], data[l + 1..]))
        && SinceThen(env, from, Exec(env, old(p), data[i]), data[i + 1..], since)
           == SinceAfter(env, from, s, data[l], data[l + 1..], since + s.skip)
      ensures Tells(old(Flatten(log)), marks, data, i, atoms, Flatten(log), rest, j)
      ensures s.go.Break? ==>
        Resumable(p, rest, j, |data|, false) && MarksAt(rest, j, NextSince(from, p.state, since + s.skip))
      ensures s.go.Reexecute? ==>
        && Resumable(p, rest, j, |data|, true) && Rank(p.state) < Rank(old(p).state)
        && Counting(from, p.state, data[j], rest, j, since + s.skip, true)
      ensures s.go.Leave? ==> rest == map[] && Inv(p, false)
      ensures s.go.Fail? || s.go.Abort? ==> s.go.Fail? && !p.errno.OK? && MarksAt(rest, j, since + s.skip)
    {
      hide Exec, Then, Parse, Switch, Inv, MarksFit, MarksAt, Disciplined, StepAtoms, Unreported, OneMark, Flatten,
           SinceThen, SinceAfter, Remainder, NextSince, Counting, SetMark, Unmark, Tells;
      s := Switch(env, p, data[i], |data| - i);
      SwitchKeeps(env, p, data[i], |data| - i);
      StepBasics(p, |data| - i, s);
      StepMeaning(env, p, data, i, s);
      CountStep(env, from, p, s, marks, data, i, since, again);
      StepCounts(env, from, p, data, i, s, since);
      atoms := StepAtoms(p, s, data, i);
      rest, j := Apply(s, marks, data, i);
    }

    /** The octet at `i`, with all its re-executions: ends at the next octet to
        read, or at the octet where reading stops. */
    method ReadOctet(env: Env, data: seq<byte>, marks0: Marks, i: nat, ghost since0: nat)
      returns (marks: Marks, j: nat, end: End, ghost out: seq<Atom>, ghost since: nat)
      requires i < |data| && Resumable(p, marks0, i, |data|, true) && MarksAt(marks0, i, since0)
      modifies this
      ensures i <= j <= |data|
      ensures end.More? ==> i < j && Resumable(p, marks, j, |data|, false)
      ensures end.Failed? ==> !p.errno.OK?
      ensures end.Upgraded? ==> marks == map[] && Inv(p, false)
      ensures ReadsTo(env, old(p), data, i, out, p, j, end)
      ensures Tells(old(Flatten(log)), marks0, data, i, out, Flatten(log), marks, j)
      ensures !end.Upgraded? ==> MarksAt(marks, j, since)
      ensures SinceThen(env, old(p).state, Exec(env, old(p), data[i]), data[i + 1..], since0)
              == if end.More? then SinceFrom(env, p, data[j..], since) else since
    {
      hide Exec, Then, Parse, Inv, MarksFit, MarksAt, Unreported, OneMark, Flatten, SinceThen, SinceFrom, NextSince, Counting;
      ghost var from, again := p.state, false;
      ghost var target := Then(env, Exec(env, p, data[i]), data[i + 1..]);
      ghost var count := SinceThen(env, from, Exec(env, p, data[i]), data[i + 1..], since0);
      ghost var before := Flatten(log) + Unreported(marks0, data, i);
      CountingStarts(from, data[i], marks0, i, since0);
      marks, j, out, since := marks0, i, [], since0;
      while true
        invariant i <= j < |data| && Resumable(p, marks, j, |data|, true)
        invariant target == Prefix(out, j - i, Then(env, Exec(env, p, data[j]), data[j + 1..]))
        invariant Flatten(log) + Unreported(marks, data, j) == before + out
        invariant Counting(from, p.state, data[j], marks, j, since, again)
        invariant count == SinceThen(env, from, Exec(env, p, data[j]), data[j + 1..], since)
        decreases Rank(p.state)
      {
        ghost var at, atoms := j, [];
        var s;
        s, marks, j, atoms := ExecuteSwitch(env, data, marks, j, from, since, again);
        AddStep(env, out, at - i, atoms, s, data[at + s.skip], data[at + s.skip + 1..]);
        since, again := if s.go.Break? then NextSince(from, p.state, since + s.skip) else since + s.skip, true;
        assert before + out + atoms == before + (out + atoms);
        out := out + atoms;
        if s.go.Break? { break; }
        if s.go.Leave? { end := Upgraded; return; }
        if !s.go.Reexecute? { end := Failed; return; }
      }
      end := More;
    }

    /** `http_parser_execute` on a non-empty buffer. The parser fields, the octet
        count and the callbacks are those of the octet-at-a-time meaning; on an
        error the octets of the one open fragment go unreported. */
    method Execute(env: Env, data: seq<byte>) returns (used: nat)
      requires env.limit == MAX_HEADER_SIZE
      requires Valid(p) && p.errno.OK? && data != []
      modifies this
      ensures Valid(p)
      ensures var r := Parse(env, old(p), data);
        p == r.p && used == r.used && Reported(old(Flatten(log)), r, Flatten(log), data, Since(env, old(p), data))
    {
      hide Exec, Then, Parse, Inv, MarksFit, MarksAt, Unreported, OneMark, Flatten, Reported, Tells, ReadsTo, OpeningMarks,
           SinceFrom, SinceThen;
      ghost var before, out, since := Flatten(log), [], 0;
      ghost var whole := Parse(env, p, data);
      var marks := OpeningMarks(p.state);
      var i, n := 0, |data|;
      StartOfBuffer(env, p, data);
      MarksAtStart(p.state);
      while i < n
        invariant i <= n
        invariant Resumable(p, marks, i, n, false)
        invariant whole == Prefix(out, i, Parse(env, p, data[i..]))
        invariant Flatten(log) + Unreported(marks, data, i) == before + out
        invariant MarksAt(marks, i, since) && Since(env, old(p), data) == SinceFrom(env, p, data[i..], since)
        decreases n - i
      {
        ParseNext(env, p, data, i);
        SinceNext(env, p, data, i, since);
        ghost var was := p;
        p := Count(p);
        if Overflows(env, p) {
          p := p.(errno := HeaderOverflow);
          OverflowRun(out, i, p);
          AtMostOneMark(marks, was.state, i, n);
          ReportedAtStop(before, whole, Flatten(log), marks, data, since);
          return i;
        }
        CountKeeps(env, was);
        var end;
        ghost var from, told, marked, at, more := p, Flatten(log), marks, i, [];
        marks, i, end, more, since := ReadOctet(env, data, marks, i, since);
        ReadOn(env, whole, out, from, data, at, more, p, i, end);
        TellOn(before, out, told, marked, data, at, more, Flatten(log), marks, i);
        out := out + more;
        if !end.More? {
          NothingUnreported(data, i);
          if end.Upgraded? {
            assert Flatten(log) + [] == Flatten(log);
            NoneLeft(before, whole, data, Since(env, old(p), data));
            return i + 1;
          }
          ReportedAtStop(before, whole, Flatten(log), marks, data, since);
          return i;
        }
      }
      EndOfBuffer(env, p, data, out);
      AtMostOneMark(marks, p.state, n, n);
      assert |marks| <= 1;
      MarkPositions(marks, p.state, n);
      FlushLeftovers(marks, data);
      NoneLeft(before, whole, data, Since(env, old(p), data));
      used := n;
    }
  }

  /** Of two reports of one failed run, the one that lost no more octets tells no less. */
  lemma TellsMore(before: seq<Atom>, mid: seq<Atom>, r: Run, now: seq<Atom>, data: seq<byte>, since: nat,
                  s: Run, told: seq<Atom>, later: seq<byte>, fewer: nat)
    requires r.end.Failed? && s.end.Failed? && before + r.out == mid + s.out && fewer <= since
    requires Reported(before, r, now, data, since) && Reported(mid, s, told, later, fewer)
    ensures now <= told
  {
    hide Octets;
    var k: Kind :| Loses(k, data[r.used - since..r.used], now, before + r.out);
    var l: Kind :| Loses(l, later[s.used - fewer..s.used], told, mid + s.out);
    ShorterTail(now, Octets(k, data[r.used - since..r.used]), told, Octets(l, later[s.used - fewer..s.used]));
  }

  lemma ShorterTail(a: seq<Atom>, x: seq<Atom>, b: seq<Atom>, y: seq<Atom>)
    requires a + x == b + y && |y| <= |x|
    ensures a <= b
  {
    assert a == (a + x)[..|a|] && b == (b + y)[..|b|];
  }

  /** Split independence. Two parsers in the same state, one fed `a ++ b` in one call and
      the other fed `a` and then, unless that stopped, `b`: short of an upgrade both end as
      reading `a ++ b` ends, and if that is without error their callbacks received the same
      data, up to how it was cut into fragments. After an error the second has been told
      all that the first was, and possibly more of the open fragment. */
  method SplitIndependence(env: Env, one: Connection, two: Connection, a: seq<byte>, b: seq<byte>)
    requires env.limit == MAX_HEADER_SIZE
    requires one != two && one.p == two.p && Flatten(one.log) == Flatten(two.log)
    requires Valid(one.p) && one.p.errno.OK? && a != [] && b != []
    modifies one, two
    ensures var r := Parse(env, old(one.p), a + b);
      && one.p == r.p && Reported(old(Flatten(one.log)), r, Flatten(one.log), a + b, Since(env, old(one.p), a + b))
      && (!r.end.Upgraded? ==> two.p == r.p && Flatten(one.log) <= Flatten(two.log))
      && (r.end.More? ==> Flatten(two.log) == Flatten(one.log) == old(Flatten(one.log)) + r.out)
    ensures var ra := Parse(env, old(one.p), a); var rb := Parse(env, ra.p, b);
      && (ra.end.Failed? ==> Reported(old(Flatten(one.log)), ra, Flatten(two.log), a, Since(env, old(one.p), a)))
      && (ra.end.More? ==> Reported(old(Flatten(one.log)) + ra.out, rb, Flatten(two.log), b, Since(env, ra.p, b)))
  {
    hide Parse, Inv, SinceFrom, Reported, Flatten;
    ghost var p0, before := one.p, Flatten(one.log);
    ghost var r, ra := Parse(env, p0, a + b), Parse(env, p0, a);
    var used := one.Execute(env, a + b);
    var first := two.Execute(env, a);
    ParseConcat(env, p0, a, b);
    SinceConcat(env, p0, a, b, 0);
    ParseErrno(env, p0, a);
    if two.p.errno.OK? {
      ghost var mid := Flatten(two.log);
      var second := two.Execute(env, b);
      ghost var rb := Parse(env, ra.p, b);
      if ra.end.More? {
        ToldAll(before, ra, mid, a, Since(env, p0, a));
        assert before + ra.out + rb.out == before + (ra.out + rb.out);
        SinceMonotone(env, ra.p, b, 0, Since(env, p0, a));
        if r.end.Failed? {
          TellsMore(before, mid, r, Flatten(one.log), a + b, Since(env, p0, a + b), rb, Flatten(two.log), b, Since(env, ra.p, b));
        } else {
          ToldAll(before, r, Flatten(one.log), a + b, Since(env, p0, a + b));
          ToldAll(mid, rb, Flatten(two.log), b, Since(env, ra.p, b));
        }
      }
    } else {
      TellsMore(before, before, r, Flatten(one.log), a + b, Since(env, p0, a + b), ra, Flatten(two.log), a, Since(env, p0, a));
    }
  }

  lemma ToldAll(before: seq<Atom>, r: Run, now: seq<Atom>, data: seq<byte>, since: nat)
    requires Reported(before, r, now, data, since) && !r.end.Failed?
    ensures now == before + r.out
  {
  }
}
