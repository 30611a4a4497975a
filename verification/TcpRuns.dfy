/** Whole runs of a connection's input side: one stream, cut by the network in any way,
    and a handler that decides by the texts it was handed what it wants next. */
module TcpRuns {
  import opened Basics
  import opened TcpConnection

  /** What the handler does when it is handed the last of these texts. */
  type Handler = seq<seq<byte>> -> Action

  /** Where in the stream the next text begins, where the buffer begins, how long the text
      is to be, and the state the handler set. */
  datatype Cursor = Cursor(at: nat, base: nat, expected: nat, state: int)

  function Moved(c: Cursor, a: Action): Cursor {
    match a
    case GiveUp => c
    case ExpectNext(state, n) => Cursor(c.at + c.expected, c.base, n, state)
    case ShrinkProcessed(state, n) => Cursor(c.at + c.expected, c.at + c.expected, n, state)
    case Reset(state, n) => Cursor(c.base, c.base, n, state)
  }

  /** The cursor after these texts; a connection begins with one octet. */
  function Where(h: Handler, calls: seq<seq<byte>>): Cursor {
    if calls == [] then Cursor(0, 0, 1, 0) else Moved(Where(h, calls[..|calls| - 1]), h(calls))
  }

  /** The texts handed over, the octets taken from the socket, and whether the connection
      has been closed. */
  datatype Table = Table(calls: seq<seq<byte>>, taken: nat, closed: bool)

  const START := Table([], 0, false)

  /** How much a read event brings: what the network has, what was asked for, what is left. */
  function Brought(h: Handler, stream: seq<byte>, t: Table, cut: nat): nat
    requires t.taken <= |stream|
  {
    Min(Min(cut, Where(h, t.calls).expected), |stream| - t.taken)
  }

  /** One read event. A connection that asks for nothing is told that its peer closed. */
  function After(h: Handler, stream: seq<byte>, t: Table, cut: nat): (r: Table)
    requires t.taken <= |stream|
    ensures r.taken <= |stream|
  {
    var c, taken := Where(h, t.calls), t.taken + Brought(h, stream, t, cut);
    if t.closed then t
    else if c.expected == 0 then t.(closed := true)
    else if c.at + c.expected <= taken then
      var calls := t.calls + [stream[c.at..c.at + c.expected]];
      Table(calls, taken, h(calls).GiveUp?)
    else t.(taken := taken)
  }

  function Last(h: Handler, stream: seq<byte>, cuts: seq<nat>): (t: Table)
    ensures t.taken <= |stream|
  {
    if cuts == [] then START else After(h, stream, Last(h, stream, cuts[..|cuts| - 1]), cuts[|cuts| - 1])
  }

  // Any two runs over one stream.

  /** The texts are those parts of the stream that the handler asked for, and nothing was
      asked of it after it gave up. */
  ghost predicate Handed(h: Handler, stream: seq<byte>, calls: seq<seq<byte>>) {
    forall k :: 0 <= k < |calls| ==> HandedAt(h, stream, calls, k)
  }

  ghost predicate HandedAt(h: Handler, stream: seq<byte>, calls: seq<seq<byte>>, k: nat)
    requires k < |calls|
  {
    var c := Where(h, calls[..k]);
    && 0 < c.expected && c.at + c.expected <= |stream| && calls[k] == stream[c.at..c.at + c.expected]
    && (k > 0 ==> !h(calls[..k]).GiveUp?)
  }

  lemma HandedSnoc(h: Handler, stream: seq<byte>, calls: seq<seq<byte>>)
    requires Handed(h, stream, calls) && (calls != [] ==> !h(calls).GiveUp?)
    requires var c := Where(h, calls); 0 < c.expected && c.at + c.expected <= |stream|
    ensures var c := Where(h, calls); Handed(h, stream, calls + [stream[c.at..c.at + c.expected]])
  {
    hide Where;
    var c := Where(h, calls);
    var all := calls + [stream[c.at..c.at + c.expected]];
    forall k | 0 <= k < |all| ensures HandedAt(h, stream, all, k) {
      assert all[..k] == calls[..k];
      if k < |calls| { assert HandedAt(h, stream, calls, k); } else { assert calls[..k] == calls; }
    }
  }

  /** What every run keeps: it is closed exactly if the handler gave up, or asked for
      nothing and was asked again. */
  ghost predicate Sound(h: Handler, stream: seq<byte>, t: Table) {
    && t.taken <= |stream| && Handed(h, stream, t.calls)
    && (t.calls != [] && h(t.calls).GiveUp? ==> t.closed)
    && (t.closed ==> (t.calls != [] && h(t.calls).GiveUp?) || Where(h, t.calls).expected == 0)
  }

  lemma {:induction false} RunSound(h: Handler, stream: seq<byte>, cuts: seq<nat>)
    ensures Sound(h, stream, Last(h, stream, cuts))
  {
    if cuts != [] {
      RunSound(h, stream, cuts[..|cuts| - 1]);
      StepSound(h, stream, Last(h, stream, cuts[..|cuts| - 1]), cuts[|cuts| - 1]);
    }
  }

  lemma StepSound(h: Handler, stream: seq<byte>, t: Table, cut: nat)
    requires Sound(h, stream, t)
    ensures Sound(h, stream, After(h, stream, t, cut))
  {
    hide Where, Handed;
    var c := Where(h, t.calls);
    if !t.closed && c.expected > 0 && c.at + c.expected <= t.taken + Brought(h, stream, t, cut) {
      HandedSnoc(h, stream, t.calls);
    }
  }

  /** A run is closed exactly if the handler gave up, or had asked for nothing when the last
      event came. */
  lemma ClosedExact(h: Handler, stream: seq<byte>, cuts: seq<nat>)
    requires cuts != []
    ensures var t, before := Last(h, stream, cuts), Last(h, stream, cuts[..|cuts| - 1]);
      t.closed <==> (t.calls != [] && h(t.calls).GiveUp?) || Where(h, before.calls).expected == 0
  {
    hide Where, Handed;
    RunSound(h, stream, cuts);
    RunSound(h, stream, cuts[..|cuts| - 1]);
  }

  lemma {:induction false} SamePrefix(h: Handler, s: seq<byte>, f: seq<seq<byte>>, g: seq<seq<byte>>, k: nat)
    requires Handed(h, s, f) && Handed(h, s, g) && k <= |f| && k <= |g|
    ensures f[..k] == g[..k]
    decreases k
  {
    hide Where;
    if k > 0 {
      SamePrefix(h, s, f, g, k - 1);
      assert HandedAt(h, s, f, k - 1) && HandedAt(h, s, g, k - 1);
      assert f[..k] == f[..k - 1] + [f[k - 1]] && g[..k] == g[..k - 1] + [g[k - 1]];
    }
  }

  /** Two lists of texts from one stream and one handler: one continues the other. */
  lemma Comparable(h: Handler, s: seq<byte>, f: seq<seq<byte>>, g: seq<seq<byte>>)
    requires Handed(h, s, f) && Handed(h, s, g)
    ensures f <= g || g <= f
  {
    var k := Min(|f|, |g|);
    SamePrefix(h, s, f, g, k);
    assert if |f| <= |g| then f[..k] == f else g[..k] == g;
  }

  /** The text behind `f` in a list that goes on. */
  lemma NextText(h: Handler, s: seq<byte>, f: seq<seq<byte>>, g: seq<seq<byte>>)
    requires Handed(h, s, g) && f <= g && |f| < |g|
    ensures var c := Where(h, f); 0 < c.expected && c.at + c.expected <= |s|
    ensures f != [] ==> !h(f).GiveUp?
  {
    hide Where;
    assert g[..|f|] == f;
    assert HandedAt(h, s, g, |f|);
  }

  lemma NotLonger(f: seq<seq<byte>>, g: seq<seq<byte>>)
    requires f <= g && |f| >= |g|
    ensures f == g
  {
  }

  /** The connection has a complete text that it was not yet handed. */
  predicate Waits(h: Handler, t: Table) {
    var c := Where(h, t.calls);
    c.at + c.expected <= t.taken
  }

  lemma Ahead(h: Handler, stream: seq<byte>, t: Table, u: Table)
    requires Sound(h, stream, t) && Sound(h, stream, u) && t.calls <= u.calls
    ensures t.closed ==> t.calls == u.calls
    ensures t.taken == |stream| && !Waits(h, t) ==> t.calls == u.calls
  {
    hide Where, Handed;
    if |t.calls| < |u.calls| { NextText(h, stream, t.calls, u.calls); } else { NotLonger(t.calls, u.calls); }
  }

  /** One stream cut in two ways: one list of texts continues the other, neither goes past the
      point where the other connection was closed, and they are equal once both connections
      have all of the stream and neither leaves a complete text waiting. */
  lemma CutsDoNotMatter(h: Handler, stream: seq<byte>, cuts: seq<nat>, others: seq<nat>)
    ensures var t, u := Last(h, stream, cuts), Last(h, stream, others);
      && (t.calls <= u.calls || u.calls <= t.calls)
      && (t.closed ==> u.calls <= t.calls) && (u.closed ==> t.calls <= u.calls)
      && (t.taken == u.taken == |stream| && !Waits(h, t) && !Waits(h, u) ==> t.calls == u.calls)
  {
    hide Where, Last, Sound, Waits;
    var t, u := Last(h, stream, cuts), Last(h, stream, others);
    RunSound(h, stream, cuts);
    RunSound(h, stream, others);
    SoundHanded(h, stream, t);
    SoundHanded(h, stream, u);
    Comparable(h, stream, t.calls, u.calls);
    if t.calls <= u.calls { Ahead(h, stream, t, u); } else { Ahead(h, stream, u, t); }
  }

  lemma SoundHanded(h: Handler, stream: seq<byte>, t: Table)
    requires Sound(h, stream, t)
    ensures Handed(h, stream, t.calls)
  {
  }

  // The connection follows the table.

  /** The intake of a connection shows the table. */
  ghost predicate Matches(h: Handler, stream: seq<byte>, t: Table, i: Intake) {
    && i.handed == t.calls && t.taken <= |stream| && Flatten(i.frames) + i.rest == stream[..t.taken] && i.dropped <= |i.frames|
    && Where(h, t.calls) == Cursor(|Flatten(i.frames)|, |Flatten(i.frames[..i.dropped])|, i.expected, i.state)
  }

  /** The text that is complete is the one of the table. */
  lemma TextIs(h: Handler, stream: seq<byte>, t: Table, i: Intake, n: nat)
    requires Matches(h, stream, t, i) && t.taken + n <= |stream|
    ensures var c, rest := Where(h, t.calls), i.rest + stream[t.taken..t.taken + n];
      && Flatten(i.frames) + rest == stream[..t.taken + n]
      && (|rest| >= i.expected <==> c.at + c.expected <= t.taken + n)
      && (|rest| >= i.expected ==> rest[..i.expected] == stream[c.at..c.at + c.expected])
  {
    hide Flatten;
    var a, piece := Flatten(i.frames), stream[t.taken..t.taken + n];
    assert a + (i.rest + piece) == stream[..t.taken] + piece == stream[..t.taken + n];
    var rest := i.rest + piece;
    if |rest| >= i.expected { Middle(a, rest, stream, i.expected); }
  }

  lemma Middle(a: seq<byte>, b: seq<byte>, s: seq<byte>, n: nat)
    requires a + b <= s && n <= |b|
    ensures |a| + n <= |s| && b[..n] == s[|a|..|a| + n]
  {
    var t := a + b;
    assert b[..n] == t[|a|..|a| + n] == s[|a|..|a| + n];
  }

  lemma WhereNext(h: Handler, calls: seq<seq<byte>>, x: seq<byte>)
    ensures Where(h, calls + [x]) == Moved(Where(h, calls), h(calls + [x]))
  {
    assert (calls + [x])[..|calls|] == calls;
  }

  /** What the handler does moves the cursor as it moves the intake. */
  lemma HandledMoves(t: Intake, a: Action)
    requires t.expected <= |t.rest| && t.dropped <= |t.frames|
    ensures var r := Handled(t, a);
      && Flatten(r.frames) + r.rest == Flatten(t.frames) + t.rest && r.dropped <= |r.frames|
      && Cursor(|Flatten(r.frames)|, |Flatten(r.frames[..r.dropped])|, r.expected, r.state)
         == Moved(Cursor(|Flatten(t.frames)|, |Flatten(t.frames[..t.dropped])|, t.expected, t.state), a)
  {
    hide Flatten;
    var x := t.rest[..t.expected];
    match a
    case GiveUp =>
    case Reset(_, _) =>
      var before, kept := t.frames[..t.dropped], t.frames[t.dropped..];
      assert t.frames == before + kept && before[..t.dropped] == before;
      FlattenConcat(before, kept);
      assert Flatten(before) + (Flatten(kept) + t.rest) == Flatten(before) + Flatten(kept) + t.rest;
    case _ =>
      FrameTaken(t.frames, t.rest, t.expected);
      FlattenSnoc(t.frames, x);
      assert (t.frames + [x])[..t.dropped] == t.frames[..t.dropped];
      assert (t.frames + [x])[..|t.frames| + 1] == t.frames + [x];
  }

  /** One read event on the intake is one on the table. */
  lemma EventMatches(h: Handler, stream: seq<byte>, t: Table, i: Intake, cut: nat, a: Action)
    requires Matches(h, stream, t, i) && !t.closed && i.expected > 0
    requires var rest := i.rest + stream[t.taken..t.taken + Brought(h, stream, t, cut)];
      |rest| >= i.expected ==> a == h(i.handed + [rest[..i.expected]])
    ensures var piece := stream[t.taken..t.taken + Brought(h, stream, t, cut)];
      && Matches(h, stream, After(h, stream, t, cut), Taken(i, piece, a))
      && (After(h, stream, t, cut).closed <==> |i.rest + piece| >= i.expected && a.GiveUp?)
  {
    hide Flatten, Handled, Where;
    var n := Brought(h, stream, t, cut);
    TextIs(h, stream, t, i, n);
    var u := i.(rest := i.rest + stream[t.taken..t.taken + n]);
    if |u.rest| >= u.expected {
      WhereNext(h, t.calls, u.rest[..u.expected]);
      HandledMoves(u, a);
      HandledHands(u, a);
    }
  }

  lemma HandledHands(t: Intake, a: Action)
    requires t.expected <= |t.rest| && t.dropped <= |t.frames|
    ensures Handled(t, a).handed == t.handed + [t.rest[..t.expected]]
  {
  }

  /** The connection is in the state that the table gives. */
  ghost predicate Shows(c: Connection, h: Handler, stream: seq<byte>, t: Table)
    reads c, c.ioBuffer, c.ioBuffer.buf
  {
    && c.ReadInv() && c.closed == t.closed && t.taken <= |stream| && c.received == stream[..t.taken]
    && Matches(h, stream, t, c.IntakeOf())
  }

  /** A new connection is given the stream, a read event for each of `cuts`. */
  method Deliver(stream: seq<byte>, cuts: seq<nat>, h: Handler) returns (c: Connection)
    ensures fresh(c) && fresh(c.ioBuffer) && fresh(c.ioBuffer.buf)
    ensures Shows(c, h, stream, Last(h, stream, cuts))
  {
    hide DataOf, IdsOf, Unsent, Connection.WriteInv, After, Where, Last, Shows, Moved;
    c := Fresh(h, stream);
    ghost var t := START;
    var taken, seen: seq<seq<byte>>, i := 0, [], 0;
    LastNone(h, stream, cuts);
    while i < |cuts|
      invariant i <= |cuts| && fresh(c) && fresh(c.ioBuffer) && fresh(c.ioBuffer.buf)
      invariant !c.closed ==> c.WriteInv()
      invariant t == Last(h, stream, cuts[..i]) && Shows(c, h, stream, t) && taken == t.taken && seen == c.handed
    {
      LastNext(h, stream, cuts, i);
      if !c.closed {
        taken, seen := Event(c, stream, taken, cuts[i], h, seen, t);
      } else {
        ShowsClosed(c, h, stream, t);
        ClosedStays(h, stream, t, cuts[i]);
      }
      t := After(h, stream, t, cuts[i]);
      i := i + 1;
    }
    assert cuts[..i] == cuts;
  }

  method Fresh(ghost h: Handler, ghost stream: seq<byte>) returns (c: Connection)
    ensures fresh(c) && fresh(c.ioBuffer) && fresh(c.ioBuffer.buf)
    ensures !c.closed && c.WriteInv() && c.handed == [] && Shows(c, h, stream, START)
  {
    hide Flatten, DataOf, IdsOf, Unsent, Matches;
    c := new Connection();
    StartMatches(h, stream);
  }

  lemma LastNone(h: Handler, stream: seq<byte>, cuts: seq<nat>)
    ensures Last(h, stream, cuts[..0]) == START
  {
    assert cuts[..0] == [];
  }

  lemma LastNext(h: Handler, stream: seq<byte>, cuts: seq<nat>, i: nat)
    requires i < |cuts|
    ensures Last(h, stream, cuts[..i + 1]) == After(h, stream, Last(h, stream, cuts[..i]), cuts[i])
  {
    hide After;
    assert cuts[..i + 1][..i] == cuts[..i];
  }

  lemma ShowsClosed(c: Connection, h: Handler, stream: seq<byte>, t: Table)
    requires Shows(c, h, stream, t)
    ensures c.closed == t.closed
  {
  }

  /** One read event. */
  method Event(c: Connection, stream: seq<byte>, taken: nat, cut: nat, h: Handler, seen: seq<seq<byte>>, ghost t: Table)
    returns (taken': nat, seen': seq<seq<byte>>)
    requires Shows(c, h, stream, t) && !c.closed && c.WriteInv() && taken == t.taken && seen == c.handed
    modifies c, c.ioBuffer, c.ioBuffer.buf
    ensures c.ioBuffer.buf == old(c.ioBuffer.buf) || fresh(c.ioBuffer.buf)
    ensures Shows(c, h, stream, After(h, stream, t, cut)) && (!c.closed ==> c.WriteInv())
    ensures taken' == After(h, stream, t, cut).taken && seen' == c.handed
  {
    hide Flatten, DataOf, IdsOf, Unsent, Taken, Handled, Connection.WriteInv, Matches, After;
    ghost var before := c.IntakeOf();
    MatchesParts(h, stream, t, before);
    seen' := seen;
    if c.bytesExpected == 0 {
      EmptyCloses(h, stream, t, before, cut);
      c.ReadIo(PeerClosed, GiveUp);
      assert c.received == stream[..t.taken];
      taken' := taken;
      return;
    }
    var n := Min(Min(cut, c.bytesExpected), |stream| - taken);
    var piece := stream[taken..taken + n];
    var text := c.ioBuffer.buf[c.bytesProcessed..c.ioBuffer.len] + piece;
    assert text == c.Unprocessed() + piece;
    assert stream[..taken + n] == stream[..taken] + piece;
    var action := GiveUp;
    if |text| >= c.bytesExpected {
      action := h(seen + [text[..c.bytesExpected]]);
      seen' := seen + [text[..c.bytesExpected]];
    }
    EventMatches(h, stream, t, before, cut, action);
    TakenParts(h, stream, t, before, cut, piece, action);
    c.ReadIo(Got(piece), action);
    taken' := taken + n;
  }

  lemma MatchesParts(h: Handler, stream: seq<byte>, t: Table, i: Intake)
    requires Matches(h, stream, t, i)
    ensures i.handed == t.calls && t.taken <= |stream| && Where(h, t.calls).expected == i.expected && i.dropped <= |i.frames|
  {
  }

  lemma EmptyCloses(h: Handler, stream: seq<byte>, t: Table, i: Intake, cut: nat)
    requires Matches(h, stream, t, i) && !t.closed && i.expected == 0
    ensures After(h, stream, t, cut) == t.(closed := true) && Matches(h, stream, t.(closed := true), i)
  {
    hide Flatten, Where;
  }

  lemma TakenParts(h: Handler, stream: seq<byte>, t: Table, i: Intake, cut: nat, piece: seq<byte>, a: Action)
    requires Matches(h, stream, t, i) && !t.closed && i.expected > 0
    requires piece == stream[t.taken..t.taken + Brought(h, stream, t, cut)]
    ensures After(h, stream, t, cut).taken == t.taken + |piece|
    ensures Taken(i, piece, a).handed == i.handed + if |i.rest + piece| >= i.expected then [(i.rest + piece)[..i.expected]] else []
  {
    hide Flatten, Where;
    assert i.handed + [] == i.handed;
  }

  lemma ClosedStays(h: Handler, stream: seq<byte>, t: Table, cut: nat)
    requires t.closed && t.taken <= |stream|
    ensures After(h, stream, t, cut) == t
  {
  }

  lemma StartMatches(h: Handler, stream: seq<byte>)
    ensures Matches(h, stream, START, Intake([], [], 0, [], 0, 1))
  {
  }
}
