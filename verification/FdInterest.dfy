/** The fd bookkeeping of libev: watcher lists per fd, the list of changed fds that
    `fd_reify` works off, and the dense array of the poll backend. */
module FdInterest {
  import opened Basics
  import opened Pending

  // Masks are the sets of their bits.
  const EV_READ: Mask := {0}
  const EV_WRITE: Mask := {1}
  const EV_ERROR: Mask := {31}
  const IOFDSET: Mask := {7}
  const ANFD_REIFY: Mask := {0}
  const POLLIN: Mask := {0}
  const POLLOUT: Mask := {2}

  /** An `ev_io`. */
  datatype Io = Io(fd: int, events: Mask, active: bool)

  datatype Anfd = Anfd(head: seq<Id>, events: Mask, reify: Mask)

  datatype Pollfd = Pollfd(fd: nat, events: Mask)

  type Ios = map<Id, Io>

  // What the fields must say of each other.

  /** The OR of the masks of the listed watchers. */
  function Wanted(head: seq<Id>, ws: Ios): Mask {
    if head == [] then {}
    else (if head[0] in ws then ws[head[0]].events else {}) + Wanted(head[1..], ws)
  }

  /** The fds in `pend` are exactly those with a flag set, each once. */
  predicate Flagged(a: seq<Anfd>, pend: seq<nat>) {
    && Distinct(pend)
    && (forall fd <- pend :: fd < |a| && a[fd].reify != {})
    && forall fd :: 0 <= fd < |a| && a[fd].reify != {} ==> fd in pend
  }

  predicate ListOf(head: seq<Id>, ws: Ios, fd: int) {
    Distinct(head) && forall w <- head :: w in ws && ws[w].active && ws[w].fd == fd && ws[w].events <= EV_READ + EV_WRITE
  }

  /** A watcher is active just when it is on the list of its fd, once. */
  predicate Listed(a: seq<Anfd>, ws: Ios) {
    && (forall fd :: 0 <= fd < |a| ==> ListOf(a[fd].head, ws, fd))
    && forall w <- ws :: ws[w].active ==> 0 <= ws[w].fd < |a| && w in a[ws[w].fd].head
  }

  /** Every fd without a flag has the interest its watchers want. */
  predicate Synced(a: seq<Anfd>, ws: Ios) {
    forall fd :: 0 <= fd < |a| && a[fd].reify == {} ==> a[fd].events == Wanted(a[fd].head, ws)
  }

  ghost function Interest(a: seq<Anfd>): (e: seq<Mask>)
    ensures |e| == |a| && forall fd :: 0 <= fd < |a| ==> e[fd] == a[fd].events
  {
    seq(|a|, i requires 0 <= i < |a| => a[i].events)
  }

  function ToPoll(m: Mask): Mask {
    (if EV_READ <= m then POLLIN else {}) + (if EV_WRITE <= m then POLLOUT else {})
  }

  function IdxOf(idxs: seq<int>, fd: nat): int {
    if fd < |idxs| then idxs[fd] else -1
  }

  /** `polls` holds exactly one entry per fd with an interest, with its events, and
      `idxs` is its inverse. */
  ghost predicate PollMatch(polls: seq<Pollfd>, idxs: seq<int>, e: seq<Mask>) {
    && (forall k :: 0 <= k < |polls| ==> polls[k].fd < |e| && e[polls[k].fd] != {} && IdxOf(idxs, polls[k].fd) == k)
    && (forall fd: nat :: IdxOf(idxs, fd) >= 0 ==>
          fd < |e| && IdxOf(idxs, fd) < |polls| && polls[IdxOf(idxs, fd)] == Pollfd(fd, ToPoll(e[fd])))
    && (forall fd: nat :: IdxOf(idxs, fd) < 0 ==> IdxOf(idxs, fd) == -1 && (fd < |e| ==> e[fd] == {}))
  }

  /** What a watcher of a dead fd is told. */
  const DEATH: Mask := EV_ERROR + EV_READ + EV_WRITE

  /** Exactly the watchers in `gone` have been stopped, each with the error event in
      place of whatever was pending; all others are as they were. */
  ghost predicate Killed(ws: Ios, q: Queues, gone: set<Id>, ws': Ios, q': Queues) {
    && ws'.Keys == ws.Keys && q'.pri == q.pri && gone <= ws.Keys
    && forall w <- ws ::
         && ws'[w] == (if w in gone then ws[w].(active := false) else ws[w])
         && Queued(q', w) == (if w in gone then Some(DEATH) else Queued(q, w))
  }

  /** The active watchers of some fds. */
  function OnFds(ws: Ios, fds: set<nat>): set<Id> {
    set w | w in ws && ws[w].active && ws[w].fd in fds
  }

  /** Whether working off a change calls the backend. */
  predicate NeedsCall(x: Anfd, ws: Ios) {
    x.reify * IOFDSET != {} || x.events != Wanted(x.head, ws)
  }

  /** The fds of the calls that the backend refuses. */
  function Refused(refuses: (nat, nat) -> bool, calls: seq<nat>): set<nat> {
    set n | 0 <= n < |calls| && refuses(n, calls[n]) :: calls[n]
  }

  /** What is queued for a watcher once `revents` has been reported to it, or not. */
  ghost function Told(q: Queues, ws: Ios, w: Id, reported: bool, revents: Mask): Option<Mask>
    requires w in ws
  {
    var ev := ws[w].events * revents;
    if reported && ev != {} then Some((if Queued(q, w).Some? then Queued(q, w).value else {}) + ev) else Queued(q, w)
  }

  /** The record of an fd, zeroed where the array does not reach. */
  function AnfdOf(a: seq<Anfd>, fd: nat): Anfd {
    if fd < |a| then a[fd] else Anfd([], {}, {})
  }

  ghost function Active(ws: Ios): set<Id> {
    set w | w in ws && ws[w].active
  }

  /** The list without its first occurrence of `w`. */
  function Without(head: seq<Id>, w: Id): seq<Id> {
    if head == [] then [] else if head[0] == w then head[1..] else [head[0]] + Without(head[1..], w)
  }

  class Fds {
    var anfds: seq<Anfd>
    var fdchanges: seq<nat>
    var ws: Ios
    var queues: Queues
    var polls: seq<Pollfd>
    var pollidxs: seq<int>

    /** The invariant while the changes before `i` have been worked off. */
    ghost predicate Inv(i: nat)
      reads this
    {
      && i <= |fdchanges| && Flagged(anfds, fdchanges[i..])
      && Listed(anfds, ws) && Synced(anfds, ws)
      && PollMatch(polls, pollidxs, Interest(anfds))
      && Pending.Valid(queues) && queues.pri.Keys == ws.Keys
    }

    ghost predicate Valid()
      reads this
    {
      Inv(0)
    }

    constructor (pri: map<Id, nat>, ws: Ios)
      requires (forall w <- pri :: pri[w] < NUMPRI) && pri.Keys == ws.Keys && forall w <- ws :: !ws[w].active
      ensures Valid() && this.ws == ws && queues == Empty(pri) && anfds == [] && polls == []
    {
      anfds, fdchanges, polls, pollidxs := [], [], [], [];
      this.ws, queues := ws, Empty(pri);
    }

    method FdChange(fd: nat, flags: Mask)
      requires fd < |anfds|
      modifies this`anfds, this`fdchanges
      ensures anfds == old(anfds)[fd := old(anfds)[fd].(reify := old(anfds)[fd].reify + flags)]
      ensures fdchanges == if old(anfds)[fd].reify == {} then old(fdchanges) + [fd] else old(fdchanges)
    {
      var reify := anfds[fd].reify;
      anfds := anfds[fd := anfds[fd].(reify := reify + flags)];
      if reify == {} { fdchanges := fdchanges + [fd]; }
    }

    /** `ev_io_start`: the mask may carry IOFDSET, which becomes a flag of the fd. */
    method IoStart(w: Id)
      requires Valid() && w in ws && ws[w].fd >= 0 && ws[w].events <= EV_READ + EV_WRITE + IOFDSET
      modifies this`anfds, this`fdchanges, this`ws
      ensures Valid()
      ensures old(ws[w].active) ==> ws == old(ws) && anfds == old(anfds)
      ensures !old(ws[w].active) ==>
        && ws == old(ws)[w := Io(old(ws[w].fd), old(ws[w].events) - IOFDSET, true)]
        && ws[w].fd < |anfds| && |old(anfds)| <= |anfds|
        && (var was := AnfdOf(old(anfds), ws[w].fd);
            anfds[ws[w].fd] == Anfd([w] + was.head, was.events, was.reify + (old(ws[w].events) * IOFDSET + ANFD_REIFY)))
        && (forall fd: nat :: fd != ws[w].fd ==> AnfdOf(anfds, fd) == AnfdOf(old(anfds), fd))
    {
      hide PollMatch, Pending.Valid, Flagged, Listed, Synced, Interest;
      if ws[w].active { return; }
      ghost var a0, ws0 := anfds, ws;
      var fd := ws[w].fd;
      var flags := ws[w].events * IOFDSET + ANFD_REIFY;
      if |anfds| <= fd {
        anfds := anfds + seq(fd + 1 - |anfds|, _ => Anfd([], {}, {}));
      }
      assert fdchanges[0..] == fdchanges;
      GrowKeeps(a0, anfds, ws, fdchanges, polls, pollidxs);
      ghost var a1 := anfds;
      anfds := anfds[fd := anfds[fd].(head := [w] + anfds[fd].head)];
      FdChange(fd, flags);
      assert fdchanges[0..] == fdchanges;
      assert anfds == a1[fd := Anfd([w] + a1[fd].head, a1[fd].events, a1[fd].reify + flags)];
      assert 0 in flags;
      ws := ws[w := ws[w].(events := ws[w].events - IOFDSET, active := true)];
      ChangeKeeps(a1, old(fdchanges), fd, [w] + a1[fd].head, flags);
      StartKeeps(a1, ws0, w, ws, anfds);
    }

    /** `wlist_del` on the list of an fd. */
    method WlistDel(fd: nat, w: Id)
      requires fd < |anfds|
      modifies this`anfds
      ensures anfds == old(anfds)[fd := old(anfds)[fd].(head := Without(old(anfds)[fd].head, w))]
    {
      var head, k := anfds[fd].head, 0;
      assert head[0..] == head && head[..0] + Without(head, w) == Without(head, w);
      while k < |head|
        invariant 0 <= k <= |head| && Without(head, w) == head[..k] + Without(head[k..], w)
        invariant anfds == old(anfds)
      {
        assert head[k..][1..] == head[k + 1..];
        if head[k] == w {
          anfds := anfds[fd := anfds[fd].(head := head[..k] + head[k + 1..])];
          return;
        }
        assert head[..k] + ([head[k]] + Without(head[k + 1..], w)) == head[..k + 1] + Without(head[k + 1..], w);
        k := k + 1;
      }
      assert head[..k] + [] == head;
    }

    /** `ev_io_stop`, at any point of a pass over the changes. */
    method IoStop(w: Id, ghost i: nat)
      requires Inv(i) && w in ws
      modifies this`anfds, this`fdchanges, this`ws, this`queues
      ensures Inv(i) && ws == old(ws)[w := old(ws)[w].(active := false)] && |anfds| == |old(anfds)|
      ensures Known(old(queues), w) && old(queues).pending[w] <= |old(queues).slots[old(queues).pri[w]]|
      ensures queues == Clear(old(queues), w)
      ensures !old(ws[w].active) ==> anfds == old(anfds) && fdchanges == old(fdchanges)
      ensures old(ws[w].active) ==>
        && 0 <= ws[w].fd < |anfds|
        && (var was := old(anfds)[ws[w].fd];
            && anfds == old(anfds)[ws[w].fd := Anfd(Without(was.head, w), was.events, was.reify + ANFD_REIFY)]
            && fdchanges == old(fdchanges) + if was.reify == {} then [ws[w].fd as nat] else [])
    {
      hide PollMatch, Pending.Valid, Flagged, Listed, Synced, Without, Interest;
      InRange(queues, w);
      ClearValid(queues, w);
      queues := Clear(queues, w);
      if !ws[w].active { return; }
      ghost var a0, ws0, c0 := anfds, ws, fdchanges;
      ListedAt(anfds, ws, w);
      var fd := ws[w].fd;
      WlistDel(fd, w);
      ghost var rest := anfds[fd].head;
      ws := ws[w := ws[w].(active := false)];
      FdChange(fd, ANFD_REIFY);
      assert (c0 + [fd])[i..] == c0[i..] + [fd];
      assert anfds == a0[fd := Anfd(rest, a0[fd].events, a0[fd].reify + ANFD_REIFY)];
      assert 0 in ANFD_REIFY;
      ChangeKeeps(a0, c0[i..], fd, rest, ANFD_REIFY);
      StopKeeps(a0, ws0, w, anfds);
    }

    /** `fd_kill`: the active watchers of the fd, and no others, are stopped and told. */
    method FdKill(fd: nat, ghost i: nat)
      requires Inv(i) && fd < |anfds|
      modifies this`anfds, this`fdchanges, this`ws, this`queues
      ensures Inv(i) && Killed(old(ws), old(queues), OnFds(old(ws), {fd}), ws, queues) && old(fdchanges) <= fdchanges
      ensures var was := old(anfds)[fd];
        if was.head == [] then anfds == old(anfds) && fdchanges == old(fdchanges) && ws == old(ws)
        else anfds == old(anfds)[fd := Anfd([], was.events, was.reify + ANFD_REIFY)] && Active(ws) < old(Active(ws))
    {
      hide PollMatch, Pending.Valid, Flagged, Listed, Synced, Killed, OnFds, Active, Without, Queued, Interest;
      ghost var ws0, q0, was := ws, queues, anfds[fd];
      KilledNone(ws, queues, {fd});
      while anfds[fd].head != []
        invariant Inv(i) && |anfds| == |old(anfds)| && old(fdchanges) <= fdchanges && Killed(ws0, q0, OnFds(ws0, {fd}) - OnFds(ws, {fd}), ws, queues)
        invariant || (anfds == old(anfds) && fdchanges == old(fdchanges) && ws == ws0)
                  || (was.head != [] && Active(ws) < Active(ws0) &&
                      anfds == old(anfds)[fd := Anfd(anfds[fd].head, was.events, was.reify + ANFD_REIFY)])
        decreases |anfds[fd].head|
      {
        ghost var us, q, head, a := ws, queues, anfds[fd].head, anfds;
        var w := anfds[fd].head[0];
        HeadActive(anfds, ws, fd);
        IoStop(w, i);
        WithoutFirst(head);
        InRange(queues, w);
        FeedValid(queues, w, DEATH);
        queues := Feed(queues, w, DEATH);
        KilledStep(ws0, q0, us, q, fd, w, queues);
        assert was.reify + ANFD_REIFY + ANFD_REIFY == was.reify + ANFD_REIFY;
      }
      NoneListed(anfds, ws, fd);
      assert OnFds(ws0, {fd}) - {} == OnFds(ws0, {fd});
    }

    /** `poll_modify`. */
    method PollModify(fd: nat, oev: Mask, nev: Mask, ghost e: seq<Mask>)
      requires PollMatch(polls, pollidxs, e) && fd < |e| && e[fd] == oev && nev <= EV_READ + EV_WRITE
      modifies this`polls, this`pollidxs
      ensures PollMatch(polls, pollidxs, e[fd := nev])
    {
      if oev == nev {
        assert e[fd := nev] == e;
        return;
      }
      if |pollidxs| <= fd {
        PollGrow(polls, pollidxs, e, fd + 1);
        pollidxs := pollidxs + seq(fd + 1 - |pollidxs|, _ => -1);
      }
      ghost var p0, x0 := polls, pollidxs;
      hide PollMatch;
      PollFound(p0, x0, e, fd);
      var idx := pollidxs[fd];
      if idx < 0 {
        idx := |polls|;
        pollidxs := pollidxs[fd := idx];
        polls := polls + [Pollfd(fd, {})];
      }
      assert polls[idx].fd == fd;
      if nev != {} {
        polls := polls[idx := Pollfd(fd, ToPoll(nev))];
        PollPut(p0, x0, e, fd, nev, polls, pollidxs);
      } else {
        pollidxs := pollidxs[fd := -1];
        var last := |polls| - 1;
        PollLast(p0, x0, e, fd);
        if idx < last {
          polls := polls[idx := polls[last]];
          pollidxs := pollidxs[polls[idx].fd := idx];
        }
        polls := polls[..last];
        PollDrop(p0, x0, e, fd, polls, pollidxs);
      }
    }

    /** One round of `fd_reify`. A refusing backend kills the fd, which can put it
        back on the list being worked off. */
    method ReifyOne(i: nat, refuse: bool) returns (called: bool)
      requires Inv(i) && i < |fdchanges| && fdchanges[i] < |anfds|
      modifies this
      ensures Inv(i + 1) && old(fdchanges) <= fdchanges
      ensures var fd := old(fdchanges)[i]; var was := old(anfds)[fd];
        && called == NeedsCall(was, old(ws))
        && Killed(old(ws), old(queues), if called && refuse then OnFds(old(ws), {fd}) else {}, ws, queues)
        && anfds == old(anfds)[fd := if called && refuse && was.head != [] then Anfd([], Wanted(was.head, old(ws)), ANFD_REIFY)
                                     else Anfd(was.head, Wanted(was.head, old(ws)), {})]
        && if called && refuse && was.head != [] then Active(ws) < old(Active(ws))
           else ws == old(ws) && fdchanges == old(fdchanges)
    {
      hide PollMatch, Pending.Valid, Flagged, Listed, Synced, Killed, OnFds, Active, Interest, Queued, Wanted;
      KilledNobody(ws, queues);
      var fd := fdchanges[i];
      ghost var a0 := anfds;
      ReifyFacts(a0, ws, fdchanges, i);
      var oEvents, oReify := anfds[fd].events, anfds[fd].reify;
      var events := WantedBy(anfds[fd].head);
      anfds := anfds[fd := Anfd(anfds[fd].head, events, {})];
      InterestAt(a0, fd, anfds[fd]);
      if oEvents != events { oReify := IOFDSET; }
      assert 7 in IOFDSET * IOFDSET;
      called := oReify * IOFDSET != {};
      if called {
        PollModify(fd, oEvents, events, Interest(a0));
        if refuse {
          FdKill(fd, i + 1);
          assert {} + ANFD_REIFY == ANFD_REIFY;
        }
      } else {
        assert Interest(a0)[fd := events] == Interest(a0);
      }
    }

    /** `fd_reify`, whatever calls the backend refuses: it ends with no fd flagged. The
        backend is called for exactly the fds whose interest changed or was set anew,
        and exactly the watchers of the refused ones die. */
    method FdReify(refuses: (nat, nat) -> bool) returns (ghost calls: seq<nat>)
      requires Valid()
      modifies this
      ensures Valid() && fdchanges == [] && |anfds| == |old(anfds)|
      ensures Killed(old(ws), old(queues), OnFds(old(ws), Refused(refuses, calls)), ws, queues)
      ensures forall fd: nat :: fd in calls <==> fd < |old(anfds)| && NeedsCall(old(anfds)[fd], old(ws))
    {
      hide PollMatch, Pending.Valid, Flagged, Listed, Synced, Killed, OnFds, Refused, Active, Interest, Queued, Visited, NeedsCall;
      calls := [];
      var i, made := 0, 0;
      ghost var a0, ws0, q0 := anfds, ws, queues;
      RefusedNone(refuses, ws, queues);
      VisitStart(a0, ws0, fdchanges);
      while i < |fdchanges|
        invariant Inv(i) && |anfds| == |a0| && made == |calls|
        invariant Killed(ws0, q0, OnFds(ws0, Refused(refuses, calls)), ws, queues)
        invariant Visited(a0, ws0, anfds, fdchanges[..i], calls)
        decreases Active(ws), |fdchanges| - i
      {
        ghost var us, q, a, seen := ws, queues, anfds, fdchanges[..i];
        FlaggedHere(a, fdchanges, i);
        var fd := fdchanges[i];
        var called := ReifyOne(i, refuses(made, fd));
        assert fdchanges[..i + 1] == seen + [fd];
        VisitStep(a0, ws0, q0, a, us, q, fd, seen, calls, refuses, called, ws, queues, anfds);
        if called {
          calls := calls + [fd];
          made := made + 1;
        }
        i := i + 1;
      }
      VisitEnd(a0, ws0, anfds, fdchanges, calls);
      assert fdchanges[i..] == [];
      fdchanges := [];
      assert fdchanges[0..] == [];
    }

    /** `fd_event`: what the backend saw on an fd goes to the watchers that want it,
        unless the fd changed since. */
    method FdEvent(fd: nat, revents: Mask)
      requires Valid() && fd < |anfds|
      modifies this`queues
      ensures Valid() && queues.pri == old(queues).pri
      ensures forall w <- ws :: Queued(queues, w) == Told(old(queues), ws, w, anfds[fd].reify == {} && w in anfds[fd].head, revents)
    {
      hide PollMatch, Pending.Valid, Flagged, Listed, Synced, Interest, Queued;
      if anfds[fd].reify != {} { return; }
      var head, k := anfds[fd].head, 0;
      HeadKnown(anfds, ws, fd);
      ghost var q0 := queues;
      while k < |head|
        invariant 0 <= k <= |head| && Pending.Valid(queues) && queues.pri == q0.pri
        invariant forall w <- ws :: Queued(queues, w) == Told(q0, ws, w, w in head[..k], revents)
      {
        var w := head[k];
        assert head[..k + 1] == head[..k] + [w] && w !in head[..k];
        var ev := ws[w].events * revents;
        if ev != {} {
          InRange(queues, w);
          FeedValid(queues, w, ev);
          forall x: Id ensures Queued(Feed(queues, w, ev), x) ==
            if x != w then Queued(queues, x) else Some((if Queued(queues, w).Some? then Queued(queues, w).value else {}) + ev) {
            FeedQueued(queues, w, ev, x);
          }
          queues := Feed(queues, w, ev);
        }
        k := k + 1;
      }
      assert head[..k] == head;
    }

    /** Hence the backend's interest is exactly what the active watchers want. */
    ghost predicate InterestExact()
      reads this
    {
      && (forall fd :: 0 <= fd < |anfds| ==> anfds[fd].events == Wanted(anfds[fd].head, ws))
      && (forall k :: 0 <= k < |polls| ==> polls[k].fd < |anfds|)
      && forall fd :: 0 <= fd < |anfds| ==>
           if anfds[fd].events == {} then forall k :: 0 <= k < |polls| ==> polls[k].fd != fd
           else exists k :: 0 <= k < |polls| && polls[k] == Pollfd(fd, ToPoll(anfds[fd].events))
                  && forall j :: 0 <= j < |polls| && polls[j].fd == fd ==> j == k
    }

    method WantedBy(head: seq<Id>) returns (m: Mask)
      requires forall w <- head :: w in ws
      ensures m == Wanted(head, ws)
    {
      m := {};
      var k := 0;
      assert head[0..] == head;
      while k < |head|
        invariant 0 <= k <= |head| && m + Wanted(head[k..], ws) == Wanted(head, ws)
      {
        assert head[k..][1..] == head[k + 1..];
        m := m + ws[head[k]].events;
        k := k + 1;
      }
    }
  }

  lemma PollGrow(polls: seq<Pollfd>, idxs: seq<int>, e: seq<Mask>, n: nat)
    requires PollMatch(polls, idxs, e) && n >= |idxs|
    ensures PollMatch(polls, idxs + seq(n - |idxs|, _ => -1), e)
  {
    var idxs' := idxs + seq(n - |idxs|, _ => -1);
    assert forall fd: nat :: IdxOf(idxs', fd) == IdxOf(idxs, fd);
  }

  lemma PollFound(polls: seq<Pollfd>, idxs: seq<int>, e: seq<Mask>, fd: nat)
    requires PollMatch(polls, idxs, e) && fd < |e| && fd < |idxs|
    ensures idxs[fd] < 0 <==> e[fd] == {}
    ensures idxs[fd] >= 0 ==> idxs[fd] < |polls| && polls[idxs[fd]].fd == fd
  {
    assert IdxOf(idxs, fd) == idxs[fd];
    if idxs[fd] >= 0 { assert IdxOf(idxs, polls[idxs[fd]].fd) == idxs[fd]; }
  }

  lemma PollPut(polls: seq<Pollfd>, idxs: seq<int>, e: seq<Mask>, fd: nat, nev: Mask, polls': seq<Pollfd>, idxs': seq<int>)
    requires PollMatch(polls, idxs, e) && fd < |e| && fd < |idxs| && nev != {}
    requires idxs[fd] < 0 || idxs[fd] < |polls|
    requires if idxs[fd] < 0 then polls' == polls + [Pollfd(fd, ToPoll(nev))] && idxs' == idxs[fd := |polls|]
             else polls' == polls[idxs[fd] := Pollfd(fd, ToPoll(nev))] && idxs' == idxs
    ensures PollMatch(polls', idxs', e[fd := nev])
  {
    assert IdxOf(idxs, fd) == idxs[fd];
    forall x: nat ensures IdxOf(idxs', x) == if x == fd && idxs[fd] < 0 then |polls| else IdxOf(idxs, x) {}
  }

  /** The entry that fills the gap belongs to another fd. */
  lemma PollLast(polls: seq<Pollfd>, idxs: seq<int>, e: seq<Mask>, fd: nat)
    requires PollMatch(polls, idxs, e) && fd < |e| && fd < |idxs| && e[fd] != {}
    ensures polls != [] && 0 <= idxs[fd] < |polls|
    ensures var last := |polls| - 1;
      polls[last].fd < |idxs| && idxs[polls[last].fd] == last && (idxs[fd] < last ==> polls[last].fd != fd)
  {
    assert IdxOf(idxs, fd) == idxs[fd];
    assert IdxOf(idxs, polls[|polls| - 1].fd) == |polls| - 1;
  }

  lemma PollDrop(polls: seq<Pollfd>, idxs: seq<int>, e: seq<Mask>, fd: nat, polls': seq<Pollfd>, idxs': seq<int>)
    requires PollMatch(polls, idxs, e) && fd < |e| && fd < |idxs| && 0 <= idxs[fd] < |polls|
    requires var idx, last := idxs[fd], |polls| - 1;
      if idx < last then
        && polls[last].fd < |idxs| && polls[last].fd != fd
        && polls' == polls[idx := polls[last]][..last] && idxs' == idxs[fd := -1][polls[last].fd := idx]
      else polls' == polls[..last] && idxs' == idxs[fd := -1]
    ensures PollMatch(polls', idxs', e[fd := {}])
  {
    var idx, last := idxs[fd], |polls| - 1;
    assert IdxOf(idxs, fd) == idx;
    assert IdxOf(idxs, polls[last].fd) == last;
    forall x: nat ensures IdxOf(idxs', x) ==
      if x == fd then -1 else if idx < last && x == polls[last].fd then idx else IdxOf(idxs, x) {}
    forall k | 0 <= k < |polls'| ensures polls'[k].fd != fd {
      assert IdxOf(idxs, polls[k].fd) == k;
    }
  }

  lemma GrowKeeps(a: seq<Anfd>, a': seq<Anfd>, ws: Ios, c: seq<nat>, polls: seq<Pollfd>, idxs: seq<int>)
    requires a <= a' && forall k :: |a| <= k < |a'| ==> a'[k] == Anfd([], {}, {})
    requires Flagged(a, c) && Listed(a, ws) && Synced(a, ws) && PollMatch(polls, idxs, Interest(a))
    ensures Flagged(a', c) && Listed(a', ws) && Synced(a', ws) && PollMatch(polls, idxs, Interest(a'))
  {
    forall fd | 0 <= fd < |a'| ensures ListOf(a'[fd].head, ws, fd) { assert fd < |a| ==> ListOf(a[fd].head, ws, fd); }
  }

  /** A change to the list of an fd, with the flags raised for it. */
  lemma ChangeKeeps(a: seq<Anfd>, pend: seq<nat>, fd: nat, head: seq<Id>, flags: Mask)
    requires Flagged(a, pend) && fd < |a| && flags != {}
    ensures var a' := a[fd := Anfd(head, a[fd].events, a[fd].reify + flags)];
      Flagged(a', if a[fd].reify == {} then pend + [fd] else pend) && Interest(a') == Interest(a)
  {
    var a' := a[fd := Anfd(head, a[fd].events, a[fd].reify + flags)];
    var x :| x in flags;
    assert x in a'[fd].reify;
  }

  lemma {:induction false} WantedFrame(head: seq<Id>, ws: Ios, ws': Ios)
    requires forall w <- head :: w in ws && w in ws' && ws'[w].events == ws[w].events
    ensures Wanted(head, ws') == Wanted(head, ws)
  {
    if head != [] { WantedFrame(head[1..], ws, ws'); }
  }

  lemma StartKeeps(a: seq<Anfd>, ws: Ios, w: Id, ws': Ios, a': seq<Anfd>)
    requires Listed(a, ws) && Synced(a, ws) && w in ws && !ws[w].active && 0 <= ws[w].fd < |a|
    requires ws[w].events <= EV_READ + EV_WRITE + IOFDSET
    requires ws' == ws[w := Io(ws[w].fd, ws[w].events - IOFDSET, true)]
    requires |a'| == |a| && a'[ws[w].fd].head == [w] + a[ws[w].fd].head && a'[ws[w].fd].reify != {}
    requires forall fd :: 0 <= fd < |a| && fd != ws[w].fd ==> a'[fd] == a[fd]
    ensures Listed(a', ws') && Synced(a', ws')
  {
    hide Wanted;
    forall fd | 0 <= fd < |a| ensures ListOf(a'[fd].head, ws', fd) && (a'[fd].reify == {} ==> a'[fd].events == Wanted(a'[fd].head, ws')) {
      assert ListOf(a[fd].head, ws, fd);
      if fd != ws[w].fd { WantedFrame(a[fd].head, ws, ws'); }
    }
  }

  lemma ListedAt(a: seq<Anfd>, ws: Ios, w: Id)
    requires Listed(a, ws) && w in ws && ws[w].active
    ensures 0 <= ws[w].fd < |a| && w in a[ws[w].fd].head
  {
  }

  lemma HeadActive(a: seq<Anfd>, ws: Ios, fd: nat)
    requires Listed(a, ws) && fd < |a| && a[fd].head != []
    ensures a[fd].head[0] in ws && ws[a[fd].head[0]].active && ws[a[fd].head[0]].fd == fd
  {
    assert ListOf(a[fd].head, ws, fd);
  }

  lemma HeadKnown(a: seq<Anfd>, ws: Ios, fd: nat)
    requires Listed(a, ws) && fd < |a|
    ensures Distinct(a[fd].head) && forall w <- a[fd].head :: w in ws
  {
    assert ListOf(a[fd].head, ws, fd);
  }

  lemma WithoutFirst(head: seq<Id>)
    requires head != []
    ensures Without(head, head[0]) == head[1..]
  {
  }

  lemma {:induction false} WithoutMeans(head: seq<Id>, w: Id)
    requires Distinct(head)
    ensures var r := Without(head, w); Distinct(r) && forall x :: x in r <==> x in head && x != w
  {
    if head != [] {
      var rest := head[1..];
      assert head == [head[0]] + rest && head[0] !in rest;
      if head[0] != w {
        WithoutMeans(rest, w);
        assert head[0] !in Without(rest, w);
      }
    }
  }

  lemma StopKeeps(a: seq<Anfd>, ws: Ios, w: Id, a': seq<Anfd>)
    requires Listed(a, ws) && Synced(a, ws) && w in ws && ws[w].active && 0 <= ws[w].fd < |a| == |a'|
    requires a'[ws[w].fd].head == Without(a[ws[w].fd].head, w) && a'[ws[w].fd].reify != {}
    requires forall fd :: 0 <= fd < |a| && fd != ws[w].fd ==> a'[fd] == a[fd]
    ensures var ws' := ws[w := ws[w].(active := false)]; Listed(a', ws') && Synced(a', ws')
  {
    hide Wanted, Without;
    var ws' := ws[w := ws[w].(active := false)];
    assert ListOf(a[ws[w].fd].head, ws, ws[w].fd);
    WithoutMeans(a[ws[w].fd].head, w);
    forall fd | 0 <= fd < |a| ensures ListOf(a'[fd].head, ws', fd) && (a'[fd].reify == {} ==> a'[fd].events == Wanted(a'[fd].head, ws')) {
      assert ListOf(a[fd].head, ws, fd);
      if fd != ws[w].fd { WantedFrame(a[fd].head, ws, ws'); }
    }
  }

  lemma KilledNobody(ws: Ios, q: Queues)
    ensures Killed(ws, q, {}, ws, q)
  {
  }

  lemma KilledNone(ws: Ios, q: Queues, fds: set<nat>)
    ensures Killed(ws, q, OnFds(ws, fds) - OnFds(ws, fds), ws, q)
  {
    assert OnFds(ws, fds) - OnFds(ws, fds) == {};
  }

  lemma KilledStep(ws0: Ios, q0: Queues, ws: Ios, q: Queues, fd: nat, w: Id, q': Queues)
    requires Killed(ws0, q0, OnFds(ws0, {fd}) - OnFds(ws, {fd}), ws, q)
    requires Pending.Valid(q) && w in ws && ws[w].active && ws[w].fd == fd && w in q.pri
    requires Pending.Known(q, w) && q.pending[w] <= |q.slots[q.pri[w]]| && Pending.Valid(Clear(q, w))
    requires Pending.Known(Clear(q, w), w) && Clear(q, w).pending[w] <= |Clear(q, w).slots[q.pri[w]]|
    requires q' == Feed(Clear(q, w), w, DEATH)
    ensures var ws' := ws[w := ws[w].(active := false)];
      Killed(ws0, q0, OnFds(ws0, {fd}) - OnFds(ws', {fd}), ws', q') && Active(ws') < Active(ws) <= Active(ws0)
  {
    hide Queued, Pending.Valid;
    forall x: Id ensures Queued(q', x) == if x == w then Some(DEATH) else Queued(q, x) {
      ClearQueued(q, w, x);
      FeedQueued(Clear(q, w), w, DEATH, x);
      assert {} + DEATH == DEATH;
    }
    assert w in Active(ws) && w in OnFds(ws, {fd}) && w in OnFds(ws0, {fd});
    var ws' := ws[w := ws[w].(active := false)];
    assert OnFds(ws0, {fd}) - OnFds(ws', {fd}) == OnFds(ws0, {fd}) - OnFds(ws, {fd}) + {w};
  }

  lemma NoneListed(a: seq<Anfd>, ws: Ios, fd: nat)
    requires Listed(a, ws) && fd < |a| && a[fd].head == []
    ensures OnFds(ws, {fd}) == {}
  {
  }

  lemma KilledTrans(ws0: Ios, q0: Queues, g1: set<Id>, ws1: Ios, q1: Queues, g2: set<Id>, ws2: Ios, q2: Queues)
    requires Killed(ws0, q0, g1, ws1, q1) && Killed(ws1, q1, g2, ws2, q2)
    ensures Killed(ws0, q0, g1 + g2, ws2, q2)
  {
    hide Queued;
  }

  // The pass over the changes.

  /** The fds seen in the pass have been called for if they needed it and are flagged
      again only if they were refused; the others are as at the start. */
  ghost predicate Visited(a0: seq<Anfd>, ws0: Ios, a: seq<Anfd>, seen: seq<nat>, calls: seq<nat>) {
    && |a| == |a0|
    && (forall fd <- calls :: fd in seen && fd < |a0|)
    && forall fd :: 0 <= fd < |a0| ==>
         if fd in seen then (fd in calls <==> NeedsCall(a0[fd], ws0)) && (a[fd].reify != {} ==> fd in calls)
         else a[fd] == a0[fd]
  }

  lemma VisitStart(a: seq<Anfd>, ws: Ios, c: seq<nat>)
    ensures Visited(a, ws, a, c[..0], [])
  {
  }

  lemma RefusedNone(refuses: (nat, nat) -> bool, ws: Ios, q: Queues)
    ensures Killed(ws, q, OnFds(ws, Refused(refuses, [])), ws, q)
  {
    assert Refused(refuses, []) == {};
    assert OnFds(ws, {}) == {};
  }

  lemma RefusedSnoc(refuses: (nat, nat) -> bool, calls: seq<nat>, fd: nat)
    ensures Refused(refuses, calls + [fd]) == Refused(refuses, calls) + if refuses(|calls|, fd) then {fd} else {}
  {
    var all := calls + [fd];
    forall x: nat ensures x in Refused(refuses, all) <==> x in Refused(refuses, calls) || (refuses(|calls|, fd) && x == fd) {
      if x in Refused(refuses, calls) {
        var n :| 0 <= n < |calls| && refuses(n, calls[n]) && calls[n] == x;
        assert all[n] == calls[n];
      }
      if refuses(|calls|, fd) { assert all[|calls|] == fd; }
    }
  }

  lemma FlaggedHere(a: seq<Anfd>, c: seq<nat>, i: nat)
    requires i < |c| && Flagged(a, c[i..])
    ensures c[i] < |a| && a[c[i]].reify != {}
  {
    assert c[i] in c[i..];
  }

  /** Stopping watchers of any fds leaves what the lists want. */
  lemma WantedAfterDeath(head: seq<Id>, ws0: Ios, q0: Queues, gone: set<Id>, ws: Ios, q: Queues)
    requires Killed(ws0, q0, gone, ws, q)
    ensures Wanted(head, ws) == Wanted(head, ws0)
  {
    hide Queued;
    WantedSame(head, ws0, ws);
  }

  lemma {:induction false} WantedSame(head: seq<Id>, ws: Ios, ws': Ios)
    requires ws'.Keys == ws.Keys && forall w <- ws :: ws'[w].events == ws[w].events
    ensures Wanted(head, ws') == Wanted(head, ws)
  {
    if head != [] { WantedSame(head[1..], ws, ws'); }
  }

  /** One more fd of the pass. */
  lemma VisitStep(a0: seq<Anfd>, ws0: Ios, q0: Queues, a: seq<Anfd>, ws: Ios, q: Queues, fd: nat, seen: seq<nat>, calls: seq<nat>,
                  refuses: (nat, nat) -> bool, called: bool, ws': Ios, q': Queues, a': seq<Anfd>)
    requires Visited(a0, ws0, a, seen, calls) && fd < |a| && a[fd].reify != {}
    requires Killed(ws0, q0, OnFds(ws0, Refused(refuses, calls)), ws, q)
    requires called == NeedsCall(a[fd], ws) && |a'| == |a|
    requires Killed(ws, q, if called && refuses(|calls|, fd) then OnFds(ws, {fd}) else {}, ws', q')
    requires (forall x :: 0 <= x < |a| && x != fd ==> a'[x] == a[x]) && (a'[fd].reify != {} ==> called)
    ensures var calls' := if called then calls + [fd] else calls;
      && Visited(a0, ws0, a', seen + [fd], calls')
      && Killed(ws0, q0, OnFds(ws0, Refused(refuses, calls')), ws', q')
  {
    VisitSeen(a0, ws0, q0, a, ws, q, fd, seen, calls, OnFds(ws0, Refused(refuses, calls)), called, a');
    hide Visited, NeedsCall, Queued;
    var dead := Refused(refuses, calls);
    RefusedSnoc(refuses, calls, fd);
    var now := if called && refuses(|calls|, fd) then {fd} else {};
    DeathAdds(ws0, q0, dead, ws, q, now);
    assert OnFds(ws, {}) == {};
    KilledTrans(ws0, q0, OnFds(ws0, dead), ws, q, OnFds(ws, now), ws', q');
    assert dead + {} == dead;
  }

  lemma DeathAdds(ws0: Ios, q0: Queues, dead: set<nat>, ws: Ios, q: Queues, now: set<nat>)
    requires Killed(ws0, q0, OnFds(ws0, dead), ws, q)
    ensures OnFds(ws0, dead) + OnFds(ws, now) == OnFds(ws0, dead + now)
  {
    hide Queued;
    forall w: Id ensures w in OnFds(ws0, dead) + OnFds(ws, now) <==> w in OnFds(ws0, dead + now) {
      if w in ws0 { assert w in ws; }
    }
  }

  lemma VisitSeen(a0: seq<Anfd>, ws0: Ios, q0: Queues, a: seq<Anfd>, ws: Ios, q: Queues, fd: nat, seen: seq<nat>, calls: seq<nat>,
                  gone: set<Id>, called: bool, a': seq<Anfd>)
    requires Visited(a0, ws0, a, seen, calls) && fd < |a| && a[fd].reify != {} && Killed(ws0, q0, gone, ws, q)
    requires called == NeedsCall(a[fd], ws) && |a'| == |a|
    requires (forall x :: 0 <= x < |a| && x != fd ==> a'[x] == a[x]) && (a'[fd].reify != {} ==> called)
    ensures Visited(a0, ws0, a', seen + [fd], if called then calls + [fd] else calls)
  {
    hide Killed, Wanted;
    WantedAfterDeath(a[fd].head, ws0, q0, gone, ws, q);
    var calls' := if called then calls + [fd] else calls;
    forall x | 0 <= x < |a0| ensures
      if x in seen + [fd] then (x in calls' <==> NeedsCall(a0[x], ws0)) && (a'[x].reify != {} ==> x in calls')
      else a'[x] == a0[x] {
      if x == fd && fd !in seen { assert fd !in calls; }
    }
  }

  lemma VisitEnd(a0: seq<Anfd>, ws0: Ios, a: seq<Anfd>, c: seq<nat>, calls: seq<nat>)
    requires Visited(a0, ws0, a, c[..|c|], calls) && Flagged(a, c[|c|..]) && Synced(a0, ws0)
    ensures forall fd: nat :: fd in calls <==> fd < |a0| && NeedsCall(a0[fd], ws0)
  {
    assert c[|c|..] == [];
    forall fd: nat ensures fd in calls <==> fd < |a0| && NeedsCall(a0[fd], ws0) {
      if fd < |a0| && fd !in c[..|c|] { assert a[fd].reify == {}; }
    }
  }

  lemma InterestAt(a: seq<Anfd>, fd: nat, x: Anfd)
    requires fd < |a|
    ensures Interest(a[fd := x]) == Interest(a)[fd := x.events] && Interest(a)[fd] == a[fd].events
  {
  }

  lemma {:induction false} WantedBounded(head: seq<Id>, ws: Ios)
    requires forall w <- head :: w in ws && ws[w].events <= EV_READ + EV_WRITE
    ensures Wanted(head, ws) <= EV_READ + EV_WRITE
  {
    if head != [] { WantedBounded(head[1..], ws); }
  }

  lemma FlaggedTail(a: seq<Anfd>, c: seq<nat>, i: nat)
    requires i < |c| && Flagged(a, c[i..])
    ensures c[i] < |a| && forall x: Anfd :: x.reify == {} ==> Flagged(a[c[i] := x], c[i + 1..])
  {
    var pend, rest := c[i..], c[i + 1..];
    assert pend == [c[i]] + rest && c[i] in pend;
    assert forall k :: 0 <= k < |rest| ==> rest[k] == pend[k + 1];
    assert c[i] !in rest;
    forall x: Anfd | x.reify == {} ensures Flagged(a[c[i] := x], rest) {
      forall fd <- rest ensures fd < |a| && a[c[i] := x][fd].reify != {} { assert fd in pend; }
      forall fd | 0 <= fd < |a| && a[c[i] := x][fd].reify != {} ensures fd in rest { assert fd in pend; }
    }
  }

  /** Working off the change at `i`. */
  lemma ReifyFacts(a: seq<Anfd>, ws: Ios, c: seq<nat>, i: nat)
    requires i < |c| && Flagged(a, c[i..]) && Listed(a, ws) && Synced(a, ws)
    ensures c[i] < |a| && forall w <- a[c[i]].head :: w in ws
    ensures Wanted(a[c[i]].head, ws) <= EV_READ + EV_WRITE
    ensures var a' := a[c[i] := Anfd(a[c[i]].head, Wanted(a[c[i]].head, ws), {})];
      Flagged(a', c[i + 1..]) && Listed(a', ws) && Synced(a', ws)
  {
    FlaggedTail(a, c, i);
    assert ListOf(a[c[i]].head, ws, c[i]);
    WantedBounded(a[c[i]].head, ws);
    var a' := a[c[i] := Anfd(a[c[i]].head, Wanted(a[c[i]].head, ws), {})];
    forall fd | 0 <= fd < |a'| ensures ListOf(a'[fd].head, ws, fd) { assert ListOf(a[fd].head, ws, fd); }
  }

  /** With no change left to work off, the poll array asks for exactly what the
      active watchers want: one entry per fd they want anything of. */
  lemma ReifiedExact(f: Fds)
    requires f.Valid() && f.fdchanges == []
    ensures f.InterestExact()
  {
    var a, e := f.anfds, Interest(f.anfds);
    assert f.fdchanges[0..] == [];
    forall fd | 0 <= fd < |a|
      ensures if a[fd].events == {} then forall k :: 0 <= k < |f.polls| ==> f.polls[k].fd != fd
              else exists k :: 0 <= k < |f.polls| && f.polls[k] == Pollfd(fd, ToPoll(a[fd].events))
                     && forall j :: 0 <= j < |f.polls| && f.polls[j].fd == fd ==> j == k {
      var k := IdxOf(f.pollidxs, fd);
      assert e[fd] == a[fd].events;
      if k >= 0 { assert e[f.polls[k].fd] != {}; }
    }
  }
}
