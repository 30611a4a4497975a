/** The wake-up handshake between `evpipe_write` and the event loop, as atomic
    steps under sequential consistency with any number of senders. */
module Wakeup {
  /** Signals and async watchers share the handshake; each has its own pending
      flag (`sig_pending`, `async_pending`) and its own per-watcher bits. */
  datatype Channel = Sig | Async

  /** A sender between two shared accesses of `ev_async_send` or `ev_feed_signal`,
      named after the access that comes next. */
  datatype SenderPc = TestFlag | SetFlag | SetSkipped | TestWanted | ClearSkipped | WritePipe

  datatype Sender = Sender(channel: Channel, item: nat, pc: SenderPc)

  /** Where the loop is: outside the polling part, inside it, or inside `pipecb`. */
  datatype LoopPc =
    | Running
    | Checking
    | Polling(block: bool)
    | Returned(readable: bool)
    | Rechecking(readable: bool)
    | Invoking(readable: bool, custom: bool)
    | Draining(readable: bool)
    | ClearingSkipped
    | Testing(channel: Channel)
    | ClearingFlag(channel: Channel)
    | Scanning(channel: Channel, pos: nat)
    | Feeding(channel: Channel, pos: nat)

  datatype State = State(
    signals: nat, asyncs: nat,                    // number of watchers per channel
    sent: set<(Channel, nat)>, flags: set<Channel>,
    wanted: bool, skipped: bool, pipe: nat,       // pipe_write_wanted, pipe_write_skipped, unread wake-ups
    senders: map<nat, Sender>, loop: LoopPc)

  function Count(s: State, c: Channel): nat {
    if c.Sig? then s.signals else s.asyncs
  }

  function Init(signals: nat, asyncs: nat): State {
    State(signals, asyncs, {}, {}, false, false, 0, map[], Running)
  }

  /** `full` is a pipe that takes no more; `all` is an eventfd read, which takes
      the whole count, against one byte of a pipe; `ready` is what a poll sees. */
  datatype Step =
    | Send(id: nat, channel: Channel, item: nat)
    | Advance(id: nat, full: bool)
    | Loop(ready: bool, all: bool)

  predicate Enabled(s: State, t: Step) {
    match t
    case Send(id, c, i) => id !in s.senders && i < Count(s, c)
    case Advance(id, full) => id in s.senders && (full ==> s.pipe > 0)
    case Loop(ready, _) => s.loop.Polling? && ready ==> s.pipe > 0
  }

  function AfterSender(s: State, id: nat, full: bool): State
    requires id in s.senders
  {
    var w := s.senders[id];
    var done := s.(senders := s.senders - {id});
    match w.pc
    case TestFlag => if w.channel in s.flags then done else s.(senders := s.senders[id := w.(pc := SetFlag)])
    case SetFlag => s.(flags := s.flags + {w.channel}, senders := s.senders[id := w.(pc := SetSkipped)])
    case SetSkipped => s.(skipped := true, senders := s.senders[id := w.(pc := TestWanted)])
    case TestWanted => if s.wanted then s.(senders := s.senders[id := w.(pc := ClearSkipped)]) else done
    case ClearSkipped => s.(skipped := false, senders := s.senders[id := w.(pc := WritePipe)])
    case WritePipe => done.(pipe := if full then s.pipe else s.pipe + 1)
  }

  function NextChannel(c: Channel): LoopPc {
    if c.Sig? then Testing(Async) else Running
  }

  function AfterLoop(s: State, ready: bool, all: bool): State {
    match s.loop
    case Running => s.(wanted := true, loop := Checking)
    case Checking => s.(loop := Polling(!s.skipped))
    case Polling(_) => s.(loop := Returned(ready))
    case Returned(r) => s.(wanted := false, loop := Rechecking(r))
    case Rechecking(r) => s.(loop := Invoking(r, s.skipped))
    case Invoking(r, c) => s.(loop := if r || c then Draining(r) else Running)
    case Draining(r) => s.(pipe := if !r || s.pipe == 0 then s.pipe else if all then 0 else s.pipe - 1, loop := ClearingSkipped)
    case ClearingSkipped => s.(skipped := false, loop := Testing(Sig))
    case Testing(c) => s.(loop := if c in s.flags then ClearingFlag(c) else NextChannel(c))
    case ClearingFlag(c) => s.(flags := s.flags - {c}, loop := Scanning(c, Count(s, c)))
    case Scanning(c, n) =>
      s.(loop := if n == 0 then NextChannel(c) else if (c, n - 1) in s.sent then Feeding(c, n) else Scanning(c, n - 1))
    case Feeding(c, n) => s.(sent := s.sent - {(c, n - 1)}, loop := Scanning(c, if n == 0 then 0 else n - 1))
  }

  function After(s: State, t: Step): State
    requires Enabled(s, t)
  {
    match t
    case Send(id, c, i) => s.(sent := s.sent + {(c, i)}, senders := s.senders[id := Sender(c, i, TestFlag)])
    case Advance(id, full) => AfterSender(s, id, full)
    case Loop(ready, all) => AfterLoop(s, ready, all)
  }

  // The invariant.

  ghost predicate SomeSender(s: State, pcs: set<SenderPc>) {
    exists id <- s.senders :: s.senders[id].pc in pcs
  }

  /** The loop is bound to look at the flag of `c` before it polls again. */
  predicate WillTest(l: LoopPc, c: Channel) {
    match l
    case Invoking(r, k) => r || k
    case Draining(_) => true
    case ClearingSkipped => true
    case Testing(d) => d.Sig? || c.Async?
    case ClearingFlag(d) => d.Sig? || c.Async?
    case Scanning(d, _) => d.Sig? && c.Async?
    case Feeding(d, _) => d.Sig? && c.Async?
    case _ => false
  }

  /** A set flag will be noticed: the loop skips blocking, the pipe is readable,
      a sender will see to one of these, or the loop is on its way to the flag. */
  ghost predicate FlagCovered(s: State, c: Channel) {
    || s.skipped || s.pipe > 0 || WillTest(s.loop, c)
    || SomeSender(s, {SetSkipped, ClearSkipped, WritePipe})
  }

  /** The scan of the channel has not passed the item yet. */
  predicate ScanAhead(l: LoopPc, c: Channel, i: nat) {
    (l.Scanning? || l.Feeding?) && l.channel == c && i < l.pos
  }

  /** A sender of this item that has not met the flag, or one about to set it. */
  ghost predicate SenderBehind(s: State, c: Channel, i: nat) {
    exists id <- s.senders :: s.senders[id].channel == c
      && (s.senders[id].pc.SetFlag? || (s.senders[id].pc.TestFlag? && s.senders[id].item == i))
  }

  ghost predicate SentCovered(s: State, c: Channel, i: nat) {
    c in s.flags || ScanAhead(s.loop, c, i) || SenderBehind(s, c, i)
  }

  ghost predicate Inv(s: State) {
    && (s.wanted <==> s.loop.Checking? || s.loop.Polling? || s.loop.Returned?)
    && (s.loop.Feeding? ==> s.loop.pos > 0)
    && (forall c <- s.flags :: FlagCovered(s, c))
    && (s.loop.Polling? && s.loop.block && s.skipped ==> SomeSender(s, {TestWanted, ClearSkipped}))
    && (forall x <- s.sent :: x.1 < Count(s, x.0) && SentCovered(s, x.0, x.1))
  }

  lemma SendKeeps(s: State, id: nat, c: Channel, i: nat)
    requires Inv(s) && Enabled(s, Send(id, c, i))
    ensures Inv(After(s, Send(id, c, i)))
  {
    var s' := After(s, Send(id, c, i));
    assert forall k <- s.senders :: k in s'.senders && s'.senders[k] == s.senders[k];
    assert s'.senders[id] == Sender(c, i, TestFlag);
  }

  /** The other senders are as they were. */
  lemma OthersStay(s: State, s': State, id: nat, pcs: set<SenderPc>)
    requires id in s.senders && s'.senders - {id} == s.senders - {id}
    requires SomeSender(s, pcs) && s.senders[id].pc !in pcs
    ensures SomeSender(s', pcs)
  {
    var k :| k in s.senders && s.senders[k].pc in pcs;
    assert k in s'.senders - {id};
    assert s'.senders[k] == s.senders[k];
  }

  lemma OthersBehind(s: State, s': State, id: nat, c: Channel, i: nat)
    requires id in s.senders && s'.senders - {id} == s.senders - {id}
    requires SenderBehind(s, c, i)
    requires s.senders[id].channel != c || !(s.senders[id].pc.SetFlag? || (s.senders[id].pc.TestFlag? && s.senders[id].item == i))
    ensures SenderBehind(s', c, i)
  {
    var k :| k in s.senders && s.senders[k].channel == c
             && (s.senders[k].pc.SetFlag? || (s.senders[k].pc.TestFlag? && s.senders[k].item == i));
    assert k in s'.senders - {id};
    assert s'.senders[k] == s.senders[k];
  }

  lemma SenderFrame(s: State, id: nat, full: bool)
    requires id in s.senders
    ensures AfterSender(s, id, full).senders - {id} == s.senders - {id}
  {
  }

  lemma FlagsStayCovered(s: State, id: nat, full: bool)
    requires Inv(s) && Enabled(s, Advance(id, full))
    ensures forall c <- AfterSender(s, id, full).flags :: FlagCovered(AfterSender(s, id, full), c)
  {
    var s' := AfterSender(s, id, full);
    SenderFrame(s, id, full);
    forall c | c in s'.flags ensures FlagCovered(s', c) {
      var w := s.senders[id];
      if w.pc in {SetSkipped, ClearSkipped, WritePipe} || w.pc.SetFlag? {
        assert w.pc.SetFlag? || w.pc.ClearSkipped? ==> id in s'.senders && s'.senders[id].pc in {SetSkipped, WritePipe};
      } else if SomeSender(s, {SetSkipped, ClearSkipped, WritePipe}) {
        OthersStay(s, s', id, {SetSkipped, ClearSkipped, WritePipe});
      }
    }
  }

  lemma BlockedStaysCovered(s: State, id: nat, full: bool)
    requires Inv(s) && Enabled(s, Advance(id, full))
    ensures var s' := AfterSender(s, id, full);
      s'.loop.Polling? && s'.loop.block && s'.skipped ==> SomeSender(s', {TestWanted, ClearSkipped})
  {
    var s' := AfterSender(s, id, full);
    SenderFrame(s, id, full);
    if s'.loop.Polling? && s'.loop.block && s'.skipped {
      var w := s.senders[id];
      if w.pc.SetSkipped? || w.pc.TestWanted? {
        assert id in s'.senders && s'.senders[id].pc in {TestWanted, ClearSkipped};
      } else {
        assert !w.pc.ClearSkipped?;
        OthersStay(s, s', id, {TestWanted, ClearSkipped});
      }
    }
  }

  lemma SentStaysCovered(s: State, id: nat, full: bool)
    requires Inv(s) && Enabled(s, Advance(id, full))
    ensures var s' := AfterSender(s, id, full); forall x <- s'.sent :: x.1 < Count(s', x.0) && SentCovered(s', x.0, x.1)
  {
    var s' := AfterSender(s, id, full);
    SenderFrame(s, id, full);
    forall x | x in s'.sent ensures x.1 < Count(s', x.0) && SentCovered(s', x.0, x.1) {
      var w := s.senders[id];
      assert SentCovered(s, x.0, x.1);
      if w.channel == x.0 && (w.pc.SetFlag? || (w.pc.TestFlag? && w.item == x.1)) {
        if w.pc.TestFlag? && w.channel !in s.flags { assert s'.senders[id].pc.SetFlag?; }
      } else if SenderBehind(s, x.0, x.1) {
        OthersBehind(s, s', id, x.0, x.1);
      }
    }
  }

  lemma SenderKeeps(s: State, id: nat, full: bool)
    requires Inv(s) && Enabled(s, Advance(id, full))
    ensures Inv(AfterSender(s, id, full))
  {
    FlagsStayCovered(s, id, full);
    BlockedStaysCovered(s, id, full);
    SentStaysCovered(s, id, full);
  }

  lemma LoopKeepsFlags(s: State, ready: bool, all: bool, c: Channel)
    requires Inv(s) && Enabled(s, Loop(ready, all)) && c in AfterLoop(s, ready, all).flags
    ensures FlagCovered(AfterLoop(s, ready, all), c)
  {
    var s' := AfterLoop(s, ready, all);
    assert c in s.flags && FlagCovered(s, c);
    assert s'.senders == s.senders;
    hide Inv;
    if SomeSender(s, {SetSkipped, ClearSkipped, WritePipe}) {
      assert SomeSender(s', {SetSkipped, ClearSkipped, WritePipe});
    }
  }

  lemma LoopKeepsSent(s: State, ready: bool, all: bool, c: Channel, i: nat)
    requires Inv(s) && Enabled(s, Loop(ready, all)) && (c, i) in AfterLoop(s, ready, all).sent
    ensures i < Count(s, c) && SentCovered(AfterLoop(s, ready, all), c, i)
  {
    LoopOnlyFeeds(s, ready, all);
    assert (c, i) in s.sent && SentCovered(s, c, i) && i < Count(s, c);
    hide Inv, AfterLoop, Count;
    var s' := AfterLoop(s, ready, all);
    if SenderBehind(s, c, i) {
      assert SenderBehind(s', c, i);
    } else {
      hide SenderBehind;
      ScanGoesOn(s, ready, all, c, i);
    }
  }

  lemma LoopOnlyFeeds(s: State, ready: bool, all: bool)
    ensures var s' := AfterLoop(s, ready, all); s'.sent <= s.sent && s'.senders == s.senders
  {
  }

  /** A set bit whose flag is set or that the scan has yet to reach stays so. */
  lemma ScanGoesOn(s: State, ready: bool, all: bool, c: Channel, i: nat)
    requires (c, i) in AfterLoop(s, ready, all).sent && i < Count(s, c)
    requires c in s.flags || ScanAhead(s.loop, c, i)
    ensures var s' := AfterLoop(s, ready, all); c in s'.flags || ScanAhead(s'.loop, c, i)
  {
  }

  lemma LoopKeeps(s: State, ready: bool, all: bool)
    requires Inv(s) && Enabled(s, Loop(ready, all))
    ensures Inv(AfterLoop(s, ready, all))
  {
    var s' := AfterLoop(s, ready, all);
    hide FlagCovered, SentCovered, SomeSender;
    forall c | c in s'.flags ensures FlagCovered(s', c) { LoopKeepsFlags(s, ready, all, c); }
    forall x | x in s'.sent ensures x.1 < Count(s', x.0) && SentCovered(s', x.0, x.1) {
      LoopKeepsSent(s, ready, all, x.0, x.1);
    }
  }

  /** Every step of every participant keeps the invariant. */
  lemma StepKeeps(s: State, t: Step)
    requires Inv(s) && Enabled(s, t)
    ensures Inv(After(s, t))
  {
    match t
    case Send(id, c, i) => SendKeeps(s, id, c, i);
    case Advance(id, full) => SenderKeeps(s, id, full);
    case Loop(ready, all) => LoopKeeps(s, ready, all);
  }

  // Runs.

  /** The steps can be taken one after the other from `s`. */
  predicate IsRun(s: State, ts: seq<Step>)
    decreases |ts|
  {
    ts == [] || (Enabled(s, ts[0]) && IsRun(After(s, ts[0]), ts[1..]))
  }

  function Last(s: State, ts: seq<Step>): State
    requires IsRun(s, ts)
    decreases |ts|
  {
    if ts == [] then s else Last(After(s, ts[0]), ts[1..])
  }

  lemma {:induction false} RunKeeps(s: State, ts: seq<Step>)
    requires Inv(s) && IsRun(s, ts)
    ensures Inv(Last(s, ts))
    decreases |ts|
  {
    if ts != [] {
      StepKeeps(s, ts[0]);
      RunKeeps(After(s, ts[0]), ts[1..]);
    }
  }

  /** No lost wake-up. In every interleaving, a loop blocked in the backend while
      a flag is set has a readable pipe or a sender on its way to the write; with
      all senders done, the pipe is readable. */
  lemma NoLostWakeup(signals: nat, asyncs: nat, ts: seq<Step>)
    requires IsRun(Init(signals, asyncs), ts)
    ensures var s := Last(Init(signals, asyncs), ts);
      s.loop == Polling(true) && s.flags != {} ==>
        && (s.pipe > 0 || SomeSender(s, {SetSkipped, TestWanted, ClearSkipped, WritePipe}))
        && (s.senders == map[] ==> s.pipe > 0)
  {
    RunKeeps(Init(signals, asyncs), ts);
    var s := Last(Init(signals, asyncs), ts);
    if s.loop == Polling(true) && s.flags != {} {
      var c :| c in s.flags;
      assert FlagCovered(s, c);
    }
  }

  /** No event is forgotten: in every interleaving, a set per-watcher bit is
      covered by its flag, by the running scan, or by a sender in flight. */
  lemma NoLostEvent(signals: nat, asyncs: nat, ts: seq<Step>, c: Channel, i: nat)
    requires IsRun(Init(signals, asyncs), ts)
    requires (c, i) in Last(Init(signals, asyncs), ts).sent
    ensures SentCovered(Last(Init(signals, asyncs), ts), c, i)
  {
    RunKeeps(Init(signals, asyncs), ts);
  }

  // Delivery, once the senders are quiet.

  /** The loop on its own: a blocking poll returns exactly when the pipe is
      readable; `all` tells an eventfd from a pipe. */
  function Alone(s: State, all: bool): State {
    if s.loop == Polling(true) && s.pipe == 0 then s else AfterLoop(s, s.pipe > 0, all)
  }

  function AloneFor(s: State, all: bool, n: nat): State
    decreases n
  {
    if n == 0 then s else AloneFor(Alone(s, all), all, n - 1)
  }

  /** The item will be fed before the loop is next at the top of its cycle. */
  predicate Ahead(s: State, c: Channel, i: nat) {
    match s.loop
    case Running => true
    case Checking => true
    case Polling(_) => true
    case Returned(r) => r || s.skipped
    case Rechecking(r) => r || s.skipped
    case Invoking(r, k) => r || k
    case Draining(_) => true
    case ClearingSkipped => true
    case Testing(d) => d.Sig? || c.Async?
    case ClearingFlag(d) => d.Sig? || c.Async?
    case Scanning(d, n) => (d == c && i < n) || (d.Sig? && c.Async?)
    case Feeding(d, n) => (d == c && i < n) || (d.Sig? && c.Async?)
  }

  predicate Committed(s: State) {
    forall x <- s.sent :: Ahead(s, x.0, x.1)
  }

  /** How far the loop is from the top of its cycle: the stage, and within a
      scan the items left. */
  function Stage(l: LoopPc): nat {
    match l
    case Running => 13
    case Checking => 12
    case Polling(_) => 11
    case Returned(_) => 10
    case Rechecking(_) => 9
    case Invoking(_, _) => 8
    case Draining(_) => 7
    case ClearingSkipped => 6
    case Testing(d) => if d.Sig? then 5 else 2
    case ClearingFlag(d) => if d.Sig? then 4 else 1
    case Scanning(d, _) => if d.Sig? then 3 else 0
    case Feeding(d, _) => if d.Sig? then 3 else 0
  }

  function ItemsLeft(l: LoopPc): nat {
    if l.Scanning? then 2 * l.pos + 1 else if l.Feeding? then 2 * l.pos else 0
  }

  predicate Nearer(l': LoopPc, l: LoopPc) {
    Stage(l') < Stage(l) || (Stage(l') == Stage(l) && ItemsLeft(l') < ItemsLeft(l))
  }

  lemma AloneKeeps(s: State, all: bool)
    requires Inv(s) && s.senders == map[]
    ensures Inv(Alone(s, all)) && Alone(s, all).senders == map[]
  {
    if !(s.loop == Polling(true) && s.pipe == 0) { LoopKeeps(s, s.pipe > 0, all); }
  }

  /** Without senders a set bit means a set flag outside the scans, and then the
      loop neither blocks nor overlooks it. */
  lemma QuietFacts(s: State)
    requires Inv(s) && s.senders == map[]
    ensures forall x <- s.sent :: x.0 in s.flags || ScanAhead(s.loop, x.0, x.1)
    ensures forall c <- s.flags :: s.skipped || s.pipe > 0 || WillTest(s.loop, c)
    ensures s.loop == Polling(true) ==> !s.skipped
  {
    forall x | x in s.sent ensures x.0 in s.flags || ScanAhead(s.loop, x.0, x.1) { assert SentCovered(s, x.0, x.1); }
    forall c | c in s.flags ensures s.skipped || s.pipe > 0 || WillTest(s.loop, c) { assert FlagCovered(s, c); }
  }

  /** The steps that stay within one cycle. */
  lemma CycleNearer(s: State, all: bool)
    requires s.loop.Feeding? ==> s.loop.pos > 0
    requires !(s.loop == Polling(true) && s.pipe == 0)
    requires s.loop.Invoking? ==> s.loop.readable || s.loop.custom
    requires s.loop == Testing(Async) ==> Async in s.flags
    requires s.loop.Scanning? && s.loop.channel.Async? ==> s.loop.pos > 0
    ensures Nearer(Alone(s, all).loop, s.loop)
  {
    var l := Alone(s, all).loop;
    if s.loop.Scanning? {
      var (c, n) := (s.loop.channel, s.loop.pos);
      assert if n == 0 then l == Testing(Async) else l == Feeding(c, n) || l == Scanning(c, n - 1);
    } else if s.loop.Feeding? {
      assert l == Scanning(s.loop.channel, s.loop.pos - 1);
    } else {
      assert ItemsLeft(s.loop) == 0;
    }
  }

  lemma CommittedNearer(s: State, all: bool)
    requires Inv(s) && s.senders == map[] && Committed(s) && s.sent != {}
    ensures Nearer(Alone(s, all).loop, s.loop)
  {
    QuietFacts(s);
    var x :| x in s.sent;
    assert Ahead(s, x.0, x.1);
    assert x.0 in s.flags || ScanAhead(s.loop, x.0, x.1);
    hide Nearer;
    CycleNearer(s, all);
  }

  lemma CommittedStays(s: State, all: bool, c: Channel, i: nat)
    requires Inv(s) && s.senders == map[] && Committed(s) && (c, i) in Alone(s, all).sent
    ensures Ahead(Alone(s, all), c, i)
  {
    QuietFacts(s);
    assert (c, i) in s.sent && Ahead(s, c, i);
    assert c in s.flags || ScanAhead(s.loop, c, i);
    hide Inv, Committed;
  }

  lemma CommittedStep(s: State, all: bool)
    requires Inv(s) && s.senders == map[] && Committed(s) && s.sent != {}
    ensures Committed(Alone(s, all)) && Nearer(Alone(s, all).loop, s.loop)
  {
    CommittedNearer(s, all);
    forall y | y in Alone(s, all).sent ensures Ahead(Alone(s, all), y.0, y.1) { CommittedStays(s, all, y.0, y.1); }
  }

  lemma UncommittedStep(s: State, all: bool)
    requires Inv(s) && s.senders == map[] && !Committed(s)
    ensures Committed(Alone(s, all)) || Nearer(Alone(s, all).loop, s.loop)
  {
  }

  /** Eventual delivery: from every reachable state, once no sender is in flight,
      the loop feeds every event that was sent. */
  lemma {:induction false} Delivers(s: State, all: bool) returns (n: nat)
    requires Inv(s) && s.senders == map[]
    ensures AloneFor(s, all, n).sent == {}
    decreases if Committed(s) then 0 else 1, Stage(s.loop), ItemsLeft(s.loop)
  {
    if s.sent == {} {
      n := 0;
    } else {
      AloneKeeps(s, all);
      if Committed(s) { CommittedStep(s, all); } else { UncommittedStep(s, all); }
      n := Delivers(Alone(s, all), all);
      n := n + 1;
    }
  }

  lemma EventualDelivery(signals: nat, asyncs: nat, ts: seq<Step>, all: bool) returns (n: nat)
    requires IsRun(Init(signals, asyncs), ts)
    requires Last(Init(signals, asyncs), ts).senders == map[]
    ensures AloneFor(Last(Init(signals, asyncs), ts), all, n).sent == {}
  {
    RunKeeps(Init(signals, asyncs), ts);
    n := Delivers(Last(Init(signals, asyncs), ts), all);
  }
}
