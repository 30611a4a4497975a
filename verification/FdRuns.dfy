/** Every sequence of fd operations does what it does on a plain table of watchers:
    who is active, what the backend is asked for, and what is queued for whom. */
module FdRuns {
  import opened Basics
  import opened Pending
  import opened FdInterest

  datatype Op =
    | StartIo(w: Id)
    | StopIo(w: Id)
    | Kill(fd: nat)
    | Event(fd: nat, revents: Mask)
    | Reify(refuses: nat -> bool)

  /** The watchers, the interest the backend has been given, the fds changed since and
      among them those set anew, and the mask queued for each watcher. */
  datatype Table = Table(ws: Ios, asked: map<nat, Mask>, changed: set<nat>, anew: set<nat>, queued: map<Id, Option<Mask>>)

  /** The OR of the masks of the active watchers of an fd. */
  function Wants(ws: Ios, fd: nat): Mask {
    set w, b | w in ws && ws[w].active && ws[w].fd == fd && b in ws[w].events :: b
  }

  function AskedFor(asked: map<nat, Mask>, fd: nat): Mask {
    if fd in asked then asked[fd] else {}
  }

  function ActiveFds(ws: Ios): set<nat> {
    set w | w in ws && ws[w].active && ws[w].fd >= 0 :: ws[w].fd
  }

  function WantsAll(ws: Ios): map<nat, Mask> {
    map fd | fd in ActiveFds(ws) && Wants(ws, fd) != {} :: Wants(ws, fd)
  }

  function Stopped(ws: Ios, gone: set<Id>): Ios {
    map w | w in ws :: if w in gone then ws[w].(active := false) else ws[w]
  }

  function ToldOfDeath(queued: map<Id, Option<Mask>>, gone: set<Id>): map<Id, Option<Mask>> {
    map w | w in queued :: if w in gone then Some(DEATH) else queued[w]
  }

  /** The active watchers of the fds that the backend is called for and refuses. */
  function Victims(t: Table, refuses: nat -> bool): set<Id> {
    set w | w in t.ws && t.ws[w].active && t.ws[w].fd >= 0 && refuses(t.ws[w].fd)
            && (t.ws[w].fd in t.anew || AskedFor(t.asked, t.ws[w].fd) != Wants(t.ws, t.ws[w].fd))
  }

  /** What `ev_io_start` asserts of every watcher. */
  predicate Legal(ws: Ios) {
    forall w <- ws :: ws[w].fd >= 0 && ws[w].events <= EV_READ + EV_WRITE + IOFDSET
  }

  predicate Enabled(t: Table, op: Op) {
    Legal(t.ws) && t.queued.Keys == t.ws.Keys && (op.StartIo? || op.StopIo? ==> op.w in t.ws)
  }

  function After(t: Table, op: Op): Table
    requires Enabled(t, op)
  {
    match op
    case StartIo(w) =>
      var io := t.ws[w];
      if io.active then t
      else t.(ws := t.ws[w := Io(io.fd, io.events - IOFDSET, true)], changed := t.changed + {io.fd},
              anew := t.anew + if io.events * IOFDSET != {} then {io.fd} else {})
    case StopIo(w) =>
      t.(ws := t.ws[w := t.ws[w].(active := false)], queued := t.queued[w := None],
         changed := t.changed + if t.ws[w].active then {t.ws[w].fd} else {})
    case Kill(fd) =>
      var gone := OnFds(t.ws, {fd});
      t.(ws := Stopped(t.ws, gone), queued := ToldOfDeath(t.queued, gone), changed := t.changed + if gone != {} then {fd} else {})
    case Event(fd, revents) =>
      t.(queued := map w | w in t.queued ::
           var ev := t.ws[w].events * revents;
           if fd !in t.changed && t.ws[w].active && t.ws[w].fd == fd && ev != {} then Some(Joined(t.queued[w], ev)) else t.queued[w])
    case Reify(refuses) =>
      var gone := Victims(t, refuses);
      var ws := Stopped(t.ws, gone);
      Table(ws, WantsAll(ws), {}, {}, ToldOfDeath(t.queued, gone))
  }

  // The bookkeeping as such a table.

  ghost function AskedOf(a: seq<Anfd>): map<nat, Mask> {
    map fd: nat | fd < |a| && a[fd].events != {} :: a[fd].events
  }

  ghost function ChangedOf(a: seq<Anfd>): set<nat> {
    set fd: nat | fd < |a| && a[fd].reify != {}
  }

  ghost function AnewOf(a: seq<Anfd>): set<nat> {
    set fd: nat | fd < |a| && a[fd].reify * IOFDSET != {}
  }

  ghost function QueuedOf(ws: Ios, q: Queues): map<Id, Option<Mask>> {
    map w | w in ws :: Queued(q, w)
  }

  ghost function TableFrom(ws: Ios, a: seq<Anfd>, q: Queues): Table {
    Table(ws, AskedOf(a), ChangedOf(a), AnewOf(a), QueuedOf(ws, q))
  }

  ghost function TableOf(f: Fds): Table
    reads f
  {
    TableFrom(f.ws, f.anfds, f.queues)
  }

  /** The lists say what the active watchers want. */
  lemma WantedIsWants(a: seq<Anfd>, ws: Ios, fd: nat)
    requires Listed(a, ws)
    ensures Wants(ws, fd) == if fd < |a| then Wanted(a[fd].head, ws) else {}
  {
    if fd < |a| {
      var head := a[fd].head;
      assert ListOf(head, ws, fd);
      forall b: nat ensures b in Wants(ws, fd) <==> b in Wanted(head, ws) {
        WantedHas(head, ws, b);
        if b in Wants(ws, fd) {
          var w :| w in ws && ws[w].active && ws[w].fd == fd && b in ws[w].events;
          assert w in head;
        }
        if b in Wanted(head, ws) {
          var w :| w in head && w in ws && b in ws[w].events;
          assert ws[w].active && ws[w].fd == fd;
        }
      }
    }
  }

  lemma {:induction false} WantedHas(head: seq<Id>, ws: Ios, b: nat)
    ensures b in Wanted(head, ws) <==> exists w :: w in head && w in ws && b in ws[w].events
  {
    if head != [] {
      WantedHas(head[1..], ws, b);
      if exists w :: w in head && w in ws && b in ws[w].events {
        var w :| w in head && w in ws && b in ws[w].events;
        assert w == head[0] || w in head[1..];
      }
    }
  }

  /** A backend that refuses by fd. */
  function ByFd(refuses: nat -> bool): (nat, nat) -> bool {
    (n: nat, fd: nat) => refuses(fd)
  }

  // Each operation.

  lemma StartMeans(ws: Ios, a: seq<Anfd>, q: Queues, w: Id, a': seq<Anfd>)
    requires w in ws && !ws[w].active && Legal(ws) && ws[w].fd < |a'| && |a| <= |a'|
    requires var was := AnfdOf(a, ws[w].fd);
      a'[ws[w].fd] == Anfd([w] + was.head, was.events, was.reify + (ws[w].events * IOFDSET + ANFD_REIFY))
    requires forall fd: nat :: fd != ws[w].fd ==> AnfdOf(a', fd) == AnfdOf(a, fd)
    requires Enabled(TableFrom(ws, a, q), StartIo(w))
    ensures TableFrom(ws[w := Io(ws[w].fd, ws[w].events - IOFDSET, true)], a', q) == After(TableFrom(ws, a, q), StartIo(w))
  {
    hide Queued;
    var io := ws[w];
    var fd: nat := io.fd;
    assert 0 in ANFD_REIFY;
    forall x: nat ensures x in ChangedOf(a') <==> x in ChangedOf(a) + {fd} {
      assert AnfdOf(a', x) == if x < |a'| then a'[x] else Anfd([], {}, {});
      assert x == fd ==> 0 in a'[x].reify;
    }
    forall x: nat ensures AskedFor(AskedOf(a'), x) == AskedFor(AskedOf(a), x) {
      assert AnfdOf(a', x).events == AnfdOf(a, x).events;
    }
    AskedSame(a, a');
    forall x: nat ensures x in AnewOf(a') <==> x in AnewOf(a) + if io.events * IOFDSET != {} then {fd} else {} {
      AnewAt(AnfdOf(a, fd).reify, io.events);
      assert x != fd ==> AnfdOf(a', x) == AnfdOf(a, x);
    }
  }

  lemma AskedSame(a: seq<Anfd>, a': seq<Anfd>)
    requires forall x: nat :: AskedFor(AskedOf(a'), x) == AskedFor(AskedOf(a), x)
    ensures AskedOf(a') == AskedOf(a)
  {
    forall x: nat ensures x in AskedOf(a') <==> x in AskedOf(a) {
      assert AskedFor(AskedOf(a'), x) == AskedFor(AskedOf(a), x);
    }
    forall x: nat | x in AskedOf(a) ensures AskedOf(a')[x] == AskedOf(a)[x] {
      assert AskedFor(AskedOf(a'), x) == AskedFor(AskedOf(a), x);
    }
  }

  lemma AnewAt(r: Mask, ev: Mask)
    ensures (r + (ev * IOFDSET + ANFD_REIFY)) * IOFDSET != {} <==> r * IOFDSET != {} || ev * IOFDSET != {}
  {
    var all := (r + (ev * IOFDSET + ANFD_REIFY)) * IOFDSET;
    assert 7 in all <==> 7 in r || 7 in ev;
    assert all != {} <==> 7 in all;
    assert r * IOFDSET != {} <==> 7 in r * IOFDSET;
    assert ev * IOFDSET != {} <==> 7 in ev * IOFDSET;
  }

  /** A record that gets one more flag and another list. */
  lemma FlagMeans(a: seq<Anfd>, fd: nat, head: seq<Id>)
    requires fd < |a|
    ensures var a' := a[fd := Anfd(head, a[fd].events, a[fd].reify + ANFD_REIFY)];
      AskedOf(a') == AskedOf(a) && ChangedOf(a') == ChangedOf(a) + {fd} && AnewOf(a') == AnewOf(a)
  {
    var a' := a[fd := Anfd(head, a[fd].events, a[fd].reify + ANFD_REIFY)];
    assert 0 in a'[fd].reify;
    assert (a[fd].reify + ANFD_REIFY) * IOFDSET == a[fd].reify * IOFDSET;
  }

  lemma StopMeans(ws: Ios, a: seq<Anfd>, q: Queues, w: Id, a': seq<Anfd>)
    requires Pending.Valid(q) && w in ws && w in q.pri && Pending.Known(q, w) && q.pending[w] <= |q.slots[q.pri[w]]|
    requires Enabled(TableFrom(ws, a, q), StopIo(w))
    requires if ws[w].active then
        0 <= ws[w].fd < |a| && a' == a[ws[w].fd := Anfd(Without(a[ws[w].fd].head, w), a[ws[w].fd].events, a[ws[w].fd].reify + ANFD_REIFY)]
      else a' == a
    ensures TableFrom(ws[w := ws[w].(active := false)], a', Clear(q, w)) == After(TableFrom(ws, a, q), StopIo(w))
  {
    hide Queued, AskedOf, ChangedOf, AnewOf, Pending.Valid, Without;
    if ws[w].active {
      FlagMeans(a, ws[w].fd, Without(a[ws[w].fd].head, w));
    } else {
      assert ChangedOf(a) + {} == ChangedOf(a);
    }
    forall x: Id ensures Queued(Clear(q, w), x) == if x != w then Queued(q, x) else None { ClearQueued(q, w, x); }
  }

  lemma KilledTables(ws: Ios, q: Queues, gone: set<Id>, ws': Ios, q': Queues)
    requires Killed(ws, q, gone, ws', q')
    ensures ws' == Stopped(ws, gone) && QueuedOf(ws', q') == ToldOfDeath(QueuedOf(ws, q), gone)
  {
    hide Queued;
  }

  lemma KillMeans(ws: Ios, a: seq<Anfd>, q: Queues, fd: nat, ws': Ios, a': seq<Anfd>, q': Queues)
    requires Listed(a, ws) && Enabled(TableFrom(ws, a, q), Kill(fd))
    requires fd < |a| && Killed(ws, q, OnFds(ws, {fd}), ws', q')
    requires a' == if a[fd].head == [] then a else a[fd := Anfd([], a[fd].events, a[fd].reify + ANFD_REIFY)]
    ensures TableFrom(ws', a', q') == After(TableFrom(ws, a, q), Kill(fd))
  {
    hide Queued, AskedOf, ChangedOf, AnewOf, Killed, Stopped, ToldOfDeath, QueuedOf;
    KilledTables(ws, q, OnFds(ws, {fd}), ws', q');
    if a[fd].head == [] {
      NoneListed(a, ws, fd);
      assert ChangedOf(a) + {} == ChangedOf(a);
    } else {
      FlagMeans(a, fd, []);
      HeadActive(a, ws, fd);
      assert a[fd].head[0] in OnFds(ws, {fd});
    }
  }

  /** An fd the array does not reach has no watchers. */
  lemma KillNothing(ws: Ios, a: seq<Anfd>, q: Queues, fd: nat)
    requires Listed(a, ws) && Enabled(TableFrom(ws, a, q), Kill(fd)) && fd >= |a|
    ensures TableFrom(ws, a, q) == After(TableFrom(ws, a, q), Kill(fd))
  {
    hide Queued;
    assert OnFds(ws, {fd}) == {};
    assert Stopped(ws, {}) == ws && ToldOfDeath(QueuedOf(ws, q), {}) == QueuedOf(ws, q);
    assert ChangedOf(a) + {} == ChangedOf(a);
  }

  lemma EventMeans(ws: Ios, a: seq<Anfd>, q: Queues, fd: nat, revents: Mask, q': Queues)
    requires Listed(a, ws) && Enabled(TableFrom(ws, a, q), Event(fd, revents))
    requires if fd < |a| then forall w <- ws :: Queued(q', w) == Told(q, ws, w, a[fd].reify == {} && w in a[fd].head, revents)
             else q' == q
    ensures TableFrom(ws, a, q') == After(TableFrom(ws, a, q), Event(fd, revents))
  {
    hide Queued;
    var t := After(TableFrom(ws, a, q), Event(fd, revents));
    if fd < |a| { assert ListOf(a[fd].head, ws, fd); }
    assert QueuedOf(ws, q') == t.queued;
  }

  lemma VictimsRight(ws: Ios, a: seq<Anfd>, q: Queues, refuses: nat -> bool, calls: seq<nat>)
    requires Listed(a, ws)
    requires forall fd: nat :: fd in calls <==> fd < |a| && NeedsCall(a[fd], ws)
    ensures OnFds(ws, Refused(ByFd(refuses), calls)) == Victims(TableFrom(ws, a, q), refuses)
  {
    hide Queued, Wanted;
    var dead := Refused(ByFd(refuses), calls);
    forall fd: nat ensures fd in dead <==> fd in calls && refuses(fd) {
      if fd in calls {
        var n :| 0 <= n < |calls| && calls[n] == fd;
      }
    }
    forall w: Id ensures w in OnFds(ws, dead) <==> w in Victims(TableFrom(ws, a, q), refuses) {
      if w in ws && ws[w].active { WantedIsWants(a, ws, ws[w].fd); }
    }
  }

  lemma ReifyMeans(ws: Ios, a: seq<Anfd>, q: Queues, refuses: nat -> bool, calls: seq<nat>, ws': Ios, a': seq<Anfd>, q': Queues)
    requires Listed(a, ws) && Enabled(TableFrom(ws, a, q), Reify(refuses))
    requires forall fd: nat :: fd in calls <==> fd < |a| && NeedsCall(a[fd], ws)
    requires Killed(ws, q, OnFds(ws, Refused(ByFd(refuses), calls)), ws', q')
    requires Listed(a', ws') && Synced(a', ws') && Flagged(a', [])
    ensures TableFrom(ws', a', q') == After(TableFrom(ws, a, q), Reify(refuses))
  {
    VictimsRight(ws, a, q, refuses, calls);
    KilledTables(ws, q, OnFds(ws, Refused(ByFd(refuses), calls)), ws', q');
    AskedExact(a', ws');
    hide Queued, Wanted, Wants, Killed, Stopped, ToldOfDeath, QueuedOf, Victims, Refused;
    assert ChangedOf(a') == {};
    assert AnewOf(a') == {};
  }

  /** With nothing changed, the interest is what the active watchers want. */
  lemma AskedExact(a: seq<Anfd>, ws: Ios)
    requires Listed(a, ws) && Synced(a, ws) && Flagged(a, [])
    ensures AskedOf(a) == WantsAll(ws)
  {
    hide Wanted, Wants;
    forall fd: nat ensures AskedFor(AskedOf(a), fd) == Wants(ws, fd) {
      WantedIsWants(a, ws, fd);
      if fd < |a| { assert a[fd].reify == {}; }
    }
    forall fd: nat ensures fd in WantsAll(ws) <==> Wants(ws, fd) != {} {
      if Wants(ws, fd) != {} { WantsSomebody(ws, fd); }
    }
    assert forall fd: nat :: fd in AskedOf(a) <==> AskedFor(AskedOf(a), fd) != {};
  }

  lemma WantsSomebody(ws: Ios, fd: nat)
    requires Wants(ws, fd) != {}
    ensures fd in ActiveFds(ws)
  {
    var b :| b in Wants(ws, fd);
  }

  // Runs.

  method Perform(f: Fds, op: Op)
    requires f.Valid() && Enabled(TableOf(f), op)
    modifies f
    ensures f.Valid() && TableOf(f) == After(old(TableOf(f)), op)
  {
    hide PollMatch, Pending.Valid, Flagged, Listed, Synced, Interest, Killed, OnFds, Queued, After, Refused, NeedsCall, Told,
         AskedOf, ChangedOf, AnewOf, QueuedOf, Wanted, Without;
    ghost var ws, a, q := f.ws, f.anfds, f.queues;
    match op {
      case StartIo(w) =>
        if f.ws[w].active { StartNothing(TableOf(f), w); } else { StartOne(f, w); }
      case StopIo(w) =>
        f.IoStop(w, 0);
        StopMeans(ws, a, q, w, f.anfds);
      case Kill(fd) =>
        if fd < |f.anfds| {
          f.FdKill(fd, 0);
          KillMeans(ws, a, q, fd, f.ws, f.anfds, f.queues);
        } else {
          KillNothing(ws, a, q, fd);
        }
      case Event(fd, revents) =>
        if fd < |f.anfds| { f.FdEvent(fd, revents); }
        EventMeans(ws, a, q, fd, revents, f.queues);
      case Reify(refuses) =>
        ghost var calls := f.FdReify(ByFd(refuses));
        assert f.fdchanges[0..] == [];
        ReifyMeans(ws, a, q, refuses, calls, f.ws, f.anfds, f.queues);
    }
  }

  lemma StartNothing(t: Table, w: Id)
    requires Enabled(t, StartIo(w)) && t.ws[w].active
    ensures After(t, StartIo(w)) == t
  {
  }

  method StartOne(f: Fds, w: Id)
    requires f.Valid() && Enabled(TableOf(f), StartIo(w)) && !f.ws[w].active
    modifies f
    ensures f.Valid() && TableOf(f) == After(old(TableOf(f)), StartIo(w))
  {
    hide PollMatch, Pending.Valid, Flagged, Listed, Synced, Interest, Queued, After, AskedOf, ChangedOf, AnewOf, QueuedOf;
    ghost var ws, a, q := f.ws, f.anfds, f.queues;
    f.IoStart(w);
    StartMeans(ws, a, q, w, f.anfds);
  }

  predicate IsRun(t: Table, ops: seq<Op>)
    decreases |ops|
  {
    ops == [] || (Enabled(t, ops[0]) && IsRun(After(t, ops[0]), ops[1..]))
  }

  function Last(t: Table, ops: seq<Op>): Table
    requires IsRun(t, ops)
    decreases |ops|
  {
    if ops == [] then t else Last(After(t, ops[0]), ops[1..])
  }

  lemma {:induction false} RunStaysLegal(t: Table, ops: seq<Op>)
    requires Legal(t.ws) && t.queued.Keys == t.ws.Keys && IsRun(t, ops)
    ensures var u := Last(t, ops); Legal(u.ws) && u.queued.Keys == u.ws.Keys
    decreases |ops|
  {
    if ops != [] {
      StepStaysLegal(t, ops[0]);
      RunStaysLegal(After(t, ops[0]), ops[1..]);
    }
  }

  lemma StepStaysLegal(t: Table, op: Op)
    requires Enabled(t, op)
    ensures var u := After(t, op); Legal(u.ws) && u.queued.Keys == u.ws.Keys
  {
    hide Wants, WantsAll, Victims;
    if op.Kill? || op.Reify? {
      var gone := if op.Kill? then OnFds(t.ws, {op.fd}) else Victims(t, op.refuses);
      assert forall w <- t.ws :: Stopped(t.ws, gone)[w].fd == t.ws[w].fd && Stopped(t.ws, gone)[w].events == t.ws[w].events;
    }
  }

  /** The bookkeeping refines the table over every run, refusals included. */
  method PerformAll(f: Fds, ops: seq<Op>)
    requires f.Valid() && IsRun(TableOf(f), ops)
    modifies f
    ensures f.Valid() && TableOf(f) == Last(old(TableOf(f)), ops)
    ensures PollsShow(f.polls, TableOf(f).asked)
  {
    hide After, Enabled, TableOf, PollsShow;
    ghost var t0 := TableOf(f);
    var i := 0;
    assert ops[0..] == ops;
    while i < |ops|
      invariant 0 <= i <= |ops| && f.Valid()
      invariant IsRun(TableOf(f), ops[i..]) && Last(TableOf(f), ops[i..]) == Last(t0, ops)
    {
      assert ops[i..][1..] == ops[i + 1..];
      Perform(f, ops[i]);
      i := i + 1;
    }
    ValidShows(f);
  }

  // The poll array.

  /** One entry per fd the backend is asked about, with its events, and no other. */
  ghost predicate PollsShow(polls: seq<Pollfd>, asked: map<nat, Mask>) {
    && (forall k :: 0 <= k < |polls| ==> polls[k].fd in asked && polls[k].events == ToPoll(asked[polls[k].fd]))
    && (forall j, k :: 0 <= j < k < |polls| ==> polls[j].fd != polls[k].fd)
    && forall fd <- asked :: exists k :: 0 <= k < |polls| && polls[k].fd == fd
  }

  lemma ValidShows(f: Fds)
    requires f.Valid()
    ensures PollsShow(f.polls, TableOf(f).asked)
  {
    hide Queued, Flagged, Listed, Synced, Pending.Valid;
    var e, asked := Interest(f.anfds), AskedOf(f.anfds);
    forall k | 0 <= k < |f.polls| ensures f.polls[k].fd in asked && f.polls[k].events == ToPoll(asked[f.polls[k].fd]) {
      assert IdxOf(f.pollidxs, f.polls[k].fd) == k;
    }
    forall j, k | 0 <= j < k < |f.polls| ensures f.polls[j].fd != f.polls[k].fd {
      assert IdxOf(f.pollidxs, f.polls[j].fd) == j && IdxOf(f.pollidxs, f.polls[k].fd) == k;
    }
    forall fd <- asked ensures exists k :: 0 <= k < |f.polls| && f.polls[k].fd == fd {
      assert e[fd] != {} && IdxOf(f.pollidxs, fd) >= 0;
      assert f.polls[IdxOf(f.pollidxs, fd)].fd == fd;
    }
  }

  /** Settling after any run: the poll array asks for exactly the OR over the watchers
      that the run leaves active. */
  method Settle(f: Fds, ops: seq<Op>)
    requires f.Valid() && Legal(f.ws) && IsRun(TableOf(f), ops)
    modifies f
    ensures f.Valid() && f.ws == Last(old(TableOf(f)), ops).ws
    ensures PollsShow(f.polls, WantsAll(Last(old(TableOf(f)), ops).ws))
  {
    TableParts(f);
    RunStaysLegal(TableOf(f), ops);
    hide Last, IsRun, TableOf, PollsShow, WantsAll;
    PerformAll(f, ops);
    ghost var t := TableOf(f);
    Perform(f, Reify(fd => false));
    SettledTable(t, fd => false);
    ValidShows(f);
    TableParts(f);
  }

  lemma TableParts(f: Fds)
    ensures TableOf(f).ws == f.ws && TableOf(f).queued.Keys == f.ws.Keys
  {
  }

  lemma SettledTable(t: Table, refuses: nat -> bool)
    requires Enabled(t, Reify(refuses)) && forall fd: nat :: !refuses(fd)
    ensures After(t, Reify(refuses)).ws == t.ws && After(t, Reify(refuses)).asked == WantsAll(t.ws)
  {
    assert Victims(t, refuses) == {};
    assert Stopped(t.ws, {}) == t.ws;
  }
}
