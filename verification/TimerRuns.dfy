/** Every sequence of timer operations on the heap does what it does on a plain
    table of timers: which are active, when each is due, and what is queued for it. */
module TimerRuns {
  import opened Basics
  import opened TimerHeap
  import opened Expiry
  import opened Heap = Timers
  import Pending
  import ReverseFeed

  datatype Op =
    | Set(w: Id, after: real, repeat: real)
    | Start(w: Id)
    | Stop(w: Id)
    | Again(w: Id)
    | Reschedule(adjust: real)
    | Tick(now: real)
    | Expire
    | Invoke

  datatype Table = Table(timers: Timers, now: real, queued: map<Id, Option<Pending.Mask>>)

  /** A timer may be set only while it is inactive, and never to a negative interval. */
  predicate Enabled(t: Table, op: Op) {
    t.queued.Keys == t.timers.Keys &&
    match op
    case Set(w, _, repeat) => w in t.timers && t.timers[w].active == 0 && repeat >= 0.0
    case Start(w) => w in t.timers
    case Stop(w) => w in t.timers
    case Again(w) => w in t.timers
    case _ => true
  }

  /** A timer that goes off has its event queued, beside what was pending for it
      if it repeats and in place of that otherwise. */
  function QueuedAfterExpiry(t: Table): map<Id, Option<Pending.Mask>>
    requires t.queued.Keys == t.timers.Keys
  {
    map w | w in t.timers ::
      if !Overdue(t.timers, w, t.now) then t.queued[w]
      else Some(Pending.Joined(if t.timers[w].repeat != 0.0 then t.queued[w] else None, TIMER_EVENT))
  }

  function After(t: Table, op: Op): Table
    requires Enabled(t, op)
  {
    match op
    case Set(w, after, repeat) => t.(timers := t.timers[w := Timer(after, repeat, 0)])
    case Start(w) => t.(timers := Started(t.timers, w, t.now))
    case Stop(w) => t.(timers := Stopped(t.timers, w, t.now), queued := t.queued[w := None])
    case Again(w) => t.(timers := Restarted(t.timers, w, t.now), queued := t.queued[w := None])
    case Reschedule(adjust) => t.(timers := Shifted(t.timers, adjust))
    case Tick(now) => t.(now := now)
    case Expire => t.(timers := Expired(t.timers, t.now), queued := QueuedAfterExpiry(t))
    case Invoke => t.(queued := map w | w in t.queued :: None)
  }

  predicate IsRun(t: Table, ops: seq<Op>)
    decreases |ops|
  {
    ops == [] || (Enabled(t, ops[0]) && IsRun(After(t, ops[0]), ops[1..]))
  }

  function Last(t: Table, ops: seq<Op>): Table
    requires IsRun(t, ops)
    decreases |ops|
  {
    if ops == [] then t else Last(After(t, ops[0]), ops[1..])
  }

  ghost function QueuedOf(ws: Timers, q: Pending.Queues): map<Id, Option<Pending.Mask>> {
    map w | w in ws :: Pending.Queued(q, w)
  }

  ghost function TableOf(l: Loop): Table
    reads l
  {
    Table(View(l.ws), l.now, QueuedOf(l.ws, l.queues))
  }

  lemma SameQueued(ws: Timers, q: Pending.Queues, ws': Timers)
    requires ws'.Keys == ws.Keys
    ensures QueuedOf(ws', q) == QueuedOf(ws, q)
  {
  }

  lemma QueuedCleared(ws: Timers, q: Pending.Queues, w: Id, ws': Timers)
    requires Pending.Valid(q) && w in q.pri && Pending.Known(q, w) && q.pending[w] <= |q.slots[q.pri[w]]|
    requires w in ws && ws'.Keys == ws.Keys
    ensures QueuedOf(ws', Pending.Clear(q, w)) == QueuedOf(ws, q)[w := None]
  {
    hide Pending.Valid, Pending.Queued;
    forall x: Id ensures Pending.Queued(Pending.Clear(q, w), x) == if x != w then Pending.Queued(q, x) else None {
      Pending.ClearQueued(q, w, x);
    }
  }

  lemma QueuedExpired(t: Table, ws: Timers, q: Pending.Queues, fired: seq<Id>, ws': Timers, q': Pending.Queues)
    requires t.timers == View(ws) && t.queued == QueuedOf(ws, q) && ws'.Keys == ws.Keys == View(ws).Keys
    requires forall w :: w in fired <==> Overdue(View(ws), w, t.now)
    requires forall w <- View(ws) :: Pending.Queued(q', w) == AfterExpiry(q, View(ws), fired, w)
    ensures QueuedOf(ws', q') == QueuedAfterExpiry(t)
  {
    hide Pending.Queued, View, Overdue;
  }

  lemma NoneQueued(ws: Timers, q: Pending.Queues, q': Pending.Queues)
    requires ReverseFeed.Idle(q')
    ensures QueuedOf(ws, q') == map w | w in QueuedOf(ws, q) :: None
  {
  }

  lemma KeysStay(l: Loop)
    ensures View(l.ws).Keys == l.ws.Keys && forall w <- l.ws :: View(l.ws)[w].active == 0 <==> l.ws[w].active == 0
  {
  }

  lemma SetLeaves(l: Loop, w: Id, after: real, repeat: real)
    requires l.Valid() && w in l.ws && l.ws[w].active == 0 && repeat >= 0.0
    ensures var ws' := l.ws[w := Timer(after, repeat, 0)];
      && Indexed(l.timers[..], l.timercnt, ws') && Cached(l.timers[..], l.timercnt, ws') && RepeatsFit(ws')
      && ws'.Keys == l.ws.Keys && View(ws') == View(l.ws)[w := Timer(after, repeat, 0)]
  {
  }

  method Perform(l: Loop, op: Op)
    requires l.Valid() && l.rfeeds == [] && Enabled(TableOf(l), op)
    modifies l, l.timers
    ensures l.Valid() && l.rfeeds == [] && TableOf(l) == After(old(TableOf(l)), op)
    ensures l.timers == old(l.timers) || fresh(l.timers)
  {
    hide Indexed, IsHeap, Cached, RepeatsFit, Pending.Valid, View, Started, Stopped, Restarted, Shifted, Expired,
         QueuedOf, QueuedAfterExpiry, Overdue, ReverseFeed.Idle;
    ghost var t, ws, q := TableOf(l), l.ws, l.queues;
    KeysStay(l);
    match op {
      case Set(w, after, repeat) =>
        SetLeaves(l, w, after, repeat);
        l.ws := l.ws[w := Timer(after, repeat, 0)];
        SameQueued(ws, q, l.ws);
      case Start(w) => l.TimerStart(w); SameQueued(ws, q, l.ws);
      case Stop(w) => l.TimerStop(w); QueuedCleared(ws, q, w, l.ws);
      case Again(w) => l.TimerAgain(w); QueuedCleared(ws, q, w, l.ws);
      case Reschedule(adjust) => l.TimersReschedule(adjust); SameQueued(ws, q, l.ws);
      case Tick(now) => l.now := now;
      case Expire => ghost var fired := l.TimersReify(); QueuedExpired(t, ws, q, fired, l.ws, l.queues);
      case Invoke => var ran := l.InvokePending(); NoneQueued(ws, q, l.queues);
    }
  }

  /** The heap refines the table over every run, and every invariant of the heap
      holds at its end. */
  method PerformAll(l: Loop, ops: seq<Op>)
    requires l.Valid() && l.rfeeds == [] && IsRun(TableOf(l), ops)
    modifies l, l.timers
    ensures l.Valid() && TableOf(l) == Last(old(TableOf(l)), ops)
  {
    hide After, Enabled, TableOf;
    ghost var t0 := TableOf(l);
    var i := 0;
    assert ops[0..] == ops;
    while i < |ops|
      invariant 0 <= i <= |ops| && l.Valid() && l.rfeeds == []
      invariant l.timers == old(l.timers) || fresh(l.timers)
      invariant IsRun(TableOf(l), ops[i..]) && Last(TableOf(l), ops[i..]) == Last(t0, ops)
    {
      assert ops[i..][1..] == ops[i + 1..];
      Perform(l, ops[i]);
      i := i + 1;
    }
  }
}
