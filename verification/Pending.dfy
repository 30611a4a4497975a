/** The per-priority pending queues of libev: `ev_feed_event`, `clear_pending` and
    the pops of `ev_invoke_pending`. */
module Pending {
  import opened Basics

  /** An event mask, as the set of its bits. */
  type Mask = set<nat>

  const NUMPRI: nat := 5

  /** An ANPENDING; a cleared slot holds the dummy watcher. */
  datatype Slot = Slot(w: Option<Id>, events: Mask)

  /** `pending[w]` is the 1-based slot of `w`, 0 when it is not pending; `pri` is
      the fixed priority of each watcher. */
  datatype Queues = Queues(slots: seq<seq<Slot>>, pending: map<Id, nat>, pri: map<Id, nat>)

  predicate Known(q: Queues, w: Id) {
    w in q.pri && w in q.pending && q.pri[w] < NUMPRI && |q.slots| == NUMPRI
  }

  function Feed(q: Queues, w: Id, m: Mask): Queues
    requires Known(q, w) && q.pending[w] <= |q.slots[q.pri[w]]|
  {
    var p, k := q.pri[w], q.pending[w];
    var row := q.slots[p];
    if k > 0 then
      q.(slots := q.slots[p := row[k - 1 := row[k - 1].(events := row[k - 1].events + m)]])
    else
      q.(slots := q.slots[p := row + [Slot(Some(w), m)]], pending := q.pending[w := |row| + 1])
  }

  function Clear(q: Queues, w: Id): Queues
    requires Known(q, w) && q.pending[w] <= |q.slots[q.pri[w]]|
  {
    var p, k := q.pri[w], q.pending[w];
    var row := q.slots[p];
    if k == 0 then q
    else q.(slots := q.slots[p := row[k - 1 := row[k - 1].(w := None)]], pending := q.pending[w := 0])
  }

  /** One round of the inner loop of `ev_invoke_pending` at priority `p`. */
  function Pop(q: Queues, p: nat): Queues
    requires p < |q.slots| && q.slots[p] != []
  {
    var row := q.slots[p];
    var last := row[|row| - 1];
    q.(slots := q.slots[p := row[..|row| - 1]],
       pending := if last.w.Some? then q.pending[last.w.value := 0] else q.pending)
  }

  // Back-indices.

  /** Each watcher is in at most one slot, and `pending` names it. */
  ghost predicate Valid(q: Queues) {
    && |q.slots| == NUMPRI && q.pri.Keys == q.pending.Keys
    && (forall w <- q.pri :: q.pri[w] < NUMPRI)
    && (forall w <- q.pending :: q.pending[w] > 0 ==> IsAt(q, w, q.pri[w], q.pending[w] - 1))
    && (forall p, i :: 0 <= p < NUMPRI && 0 <= i < |q.slots[p]| && q.slots[p][i].w.Some? ==> Names(q, p, i))
  }

  predicate IsAt(q: Queues, w: Id, p: nat, i: nat) {
    p < |q.slots| && i < |q.slots[p]| && q.slots[p][i].w == Some(w)
  }

  predicate Names(q: Queues, p: nat, i: nat)
    requires p < |q.slots| && i < |q.slots[p]| && q.slots[p][i].w.Some?
  {
    var w := q.slots[p][i].w.value;
    w in q.pending && w in q.pri && q.pri[w] == p && q.pending[w] == i + 1
  }

  /** Events that are queued for a watcher, if any, and more of them. */
  function Joined(o: Option<Mask>, m: Mask): Mask {
    (if o.Some? then o.value else {}) + m
  }

  /** The mask queued for a watcher. */
  function Queued(q: Queues, w: Id): Option<Mask> {
    if Known(q, w) && 0 < q.pending[w] <= |q.slots[q.pri[w]]| then Some(q.slots[q.pri[w]][q.pending[w] - 1].events) else None
  }

  lemma InRange(q: Queues, w: Id)
    requires Valid(q) && w in q.pri
    ensures Known(q, w) && q.pending[w] <= |q.slots[q.pri[w]]|
  {
    if q.pending[w] > 0 { assert IsAt(q, w, q.pri[w], q.pending[w] - 1); }
  }

  lemma RowCount(q: Queues)
    requires Valid(q)
    ensures |q.slots| == NUMPRI
  {
  }

  lemma FeedValid(q: Queues, w: Id, m: Mask)
    requires Valid(q) && w in q.pri && Known(q, w) && q.pending[w] <= |q.slots[q.pri[w]]|
    ensures Valid(Feed(q, w, m))
  {
    var q' := Feed(q, w, m);
    assert q.pending[w] > 0 ==> IsAt(q, w, q.pri[w], q.pending[w] - 1);
    forall x: Id | x in q'.pending && q'.pending[x] > 0 ensures IsAt(q', x, q'.pri[x], q'.pending[x] - 1) {
      if x != w { assert IsAt(q, x, q.pri[x], q.pending[x] - 1); }
    }
    forall r, i | 0 <= r < NUMPRI && 0 <= i < |q'.slots[r]| && q'.slots[r][i].w.Some? ensures Names(q', r, i) {
      if i < |q.slots[r]| { assert Names(q, r, i); }
    }
  }

  /** Feeding ors the mask into what is queued for the watcher. */
  lemma FeedQueued(q: Queues, w: Id, m: Mask, x: Id)
    requires Valid(q) && w in q.pri && Known(q, w) && q.pending[w] <= |q.slots[q.pri[w]]|
    ensures Queued(Feed(q, w, m), x) ==
      if x != w then Queued(q, x) else Some((if Queued(q, w).Some? then Queued(q, w).value else {}) + m)
  {
    if x in q.pending && x in q.pri && q.pending[x] > 0 { assert IsAt(q, x, q.pri[x], q.pending[x] - 1); }
    if q.pending[w] > 0 && x in q.pending && x in q.pri && q.pending[x] > 0 && x != w {
      assert IsAt(q, w, q.pri[w], q.pending[w] - 1);
      assert Names(q, q.pri[w], q.pending[w] - 1) && Names(q, q.pri[x], q.pending[x] - 1);
    }
    assert {} + m == m;
  }

  lemma ClearValid(q: Queues, w: Id)
    requires Valid(q) && w in q.pri && Known(q, w) && q.pending[w] <= |q.slots[q.pri[w]]|
    ensures Valid(Clear(q, w))
  {
    var q' := Clear(q, w);
    assert q.pending[w] > 0 ==> IsAt(q, w, q.pri[w], q.pending[w] - 1);
    forall x: Id | x in q'.pending && q'.pending[x] > 0 ensures IsAt(q', x, q'.pri[x], q'.pending[x] - 1) {
      if x != w { assert IsAt(q, x, q.pri[x], q.pending[x] - 1); }
    }
    forall r, i | 0 <= r < NUMPRI && 0 <= i < |q'.slots[r]| && q'.slots[r][i].w.Some? ensures Names(q', r, i) {
      assert Names(q, r, i);
    }
  }

  lemma ClearQueued(q: Queues, w: Id, x: Id)
    requires Valid(q) && w in q.pri && Known(q, w) && q.pending[w] <= |q.slots[q.pri[w]]|
    ensures Queued(Clear(q, w), x) == if x != w then Queued(q, x) else None
  {
    if x in q.pending && x in q.pri && q.pending[x] > 0 { assert IsAt(q, x, q.pri[x], q.pending[x] - 1); }
    if q.pending[w] > 0 { assert IsAt(q, w, q.pri[w], q.pending[w] - 1); }
  }

  lemma PopValid(q: Queues, p: nat)
    requires Valid(q) && p < NUMPRI && q.slots[p] != []
    ensures Valid(Pop(q, p))
  {
    var q', n := Pop(q, p), |q.slots[p]| - 1;
    if q.slots[p][n].w.Some? { assert Names(q, p, n); }
    forall x: Id | x in q'.pending && q'.pending[x] > 0 ensures IsAt(q', x, q'.pri[x], q'.pending[x] - 1) {
      assert IsAt(q, x, q.pri[x], q.pending[x] - 1);
    }
    forall r, i | 0 <= r < NUMPRI && 0 <= i < |q'.slots[r]| && q'.slots[r][i].w.Some? ensures Names(q', r, i) {
      assert Names(q, r, i);
    }
  }

  /** A pop takes exactly what is queued for the watcher it meets. */
  lemma PopQueued(q: Queues, p: nat, x: Id)
    requires Valid(q) && p < NUMPRI && q.slots[p] != []
    ensures var last := q.slots[p][|q.slots[p]| - 1];
      if last.w == Some(x) then Queued(q, x) == Some(last.events) && Queued(Pop(q, p), x) == None
      else Queued(Pop(q, p), x) == Queued(q, x)
  {
    var n := |q.slots[p]| - 1;
    if q.slots[p][n].w.Some? { assert Names(q, p, n); }
    if x in q.pending && x in q.pri && q.pending[x] > 0 { assert IsAt(q, x, q.pri[x], q.pending[x] - 1); }
  }

  // The ledger of a run.

  /** The steps of a run: what the loop and any callback may do. */
  datatype Step = FeedEvent(w: Id, m: Mask) | ClearPending(w: Id) | InvokeOne(p: nat)

  datatype Record = Fed(w: Id, m: Mask) | Delivered(w: Id, m: Mask) | Dropped(w: Id, m: Mask)

  ghost predicate Enabled(q: Queues, t: Step) {
    match t
    case FeedEvent(w, _) => w in q.pri
    case ClearPending(w) => w in q.pri
    case InvokeOne(p) => p < |q.slots| && q.slots[p] != []
  }

  ghost function After(q: Queues, t: Step): Queues
    requires Valid(q) && Enabled(q, t)
  {
    match t
    case FeedEvent(w, m) => InRange(q, w); Feed(q, w, m)
    case ClearPending(w) => InRange(q, w); Clear(q, w)
    case InvokeOne(p) => Pop(q, p)
  }

  /** What a step hands to a callback or throws away. */
  ghost function Records(q: Queues, t: Step): seq<Record>
    requires Valid(q) && Enabled(q, t)
  {
    match t
    case FeedEvent(w, m) => [Fed(w, m)]
    case ClearPending(w) => if Queued(q, w).Some? then [Dropped(w, Queued(q, w).value)] else []
    case InvokeOne(p) =>
      var last := q.slots[p][|q.slots[p]| - 1];
      if last.w.Some? then [Delivered(last.w.value, last.events)] else []
  }

  /** What has been fed to `w` since its last delivery or drop, or-ed together. */
  function Outstanding(log: seq<Record>, w: Id): Option<Mask>
    decreases |log|
  {
    if log == [] then None
    else
      var before, r := Outstanding(log[..|log| - 1], w), log[|log| - 1];
      if r.w != w then before
      else if r.Fed? then Some((if before.Some? then before.value else {}) + r.m)
      else None
  }

  /** Every delivery and every drop takes exactly what was outstanding. */
  predicate Balanced(log: seq<Record>)
    decreases |log|
  {
    log == [] ||
      (var before, r := log[..|log| - 1], log[|log| - 1];
       Balanced(before) && (!r.Fed? ==> Outstanding(before, r.w) == Some(r.m)))
  }

  ghost predicate IsRun(q: Queues, ts: seq<Step>)
    decreases |ts|
  {
    ts == [] || (Valid(q) && Enabled(q, ts[0]) && IsRun(After(q, ts[0]), ts[1..]))
  }

  ghost function Last(q: Queues, ts: seq<Step>): Queues
    requires IsRun(q, ts)
    decreases |ts|
  {
    if ts == [] then q else Last(After(q, ts[0]), ts[1..])
  }

  ghost function Log(q: Queues, ts: seq<Step>, log: seq<Record>): seq<Record>
    requires IsRun(q, ts)
    decreases |ts|
  {
    if ts == [] then log else Log(After(q, ts[0]), ts[1..], log + Records(q, ts[0]))
  }

  /** The queue holds exactly what the ledger says is outstanding. */
  ghost predicate Accounts(q: Queues, log: seq<Record>) {
    Valid(q) && Balanced(log) && forall w :: Queued(q, w) == Outstanding(log, w)
  }

  lemma OutstandingSnoc(log: seq<Record>, r: Record, w: Id)
    ensures Outstanding(log + [r], w) ==
      if r.w != w then Outstanding(log, w)
      else if r.Fed? then Some((if Outstanding(log, w).Some? then Outstanding(log, w).value else {}) + r.m)
      else None
  {
    assert (log + [r])[..|log|] == log;
  }

  lemma StepKeepsQueues(q: Queues, t: Step)
    requires Valid(q) && Enabled(q, t)
    ensures Valid(After(q, t))
  {
    match t {
      case FeedEvent(w, m) => InRange(q, w); FeedValid(q, w, m);
      case ClearPending(w) => InRange(q, w); ClearValid(q, w);
      case InvokeOne(p) => PopValid(q, p);
    }
  }

  lemma StepQueued(q: Queues, t: Step, log: seq<Record>, x: Id)
    requires Accounts(q, log) && Enabled(q, t)
    ensures Queued(After(q, t), x) == Outstanding(log + Records(q, t), x)
  {
    assert Queued(q, x) == Outstanding(log, x);
    match t {
      case FeedEvent(w, m) => InRange(q, w); FeedQueued(q, w, m, x);
      case ClearPending(w) => InRange(q, w); ClearQueued(q, w, x);
      case InvokeOne(p) => PopQueued(q, p, x);
    }
    var rs := Records(q, t);
    if rs == [] { assert log + rs == log; } else { OutstandingSnoc(log, rs[0], x); assert rs == [rs[0]]; }
  }

  lemma StepAccounts(q: Queues, t: Step, log: seq<Record>)
    requires Accounts(q, log) && Enabled(q, t)
    ensures Accounts(After(q, t), log + Records(q, t))
  {
    StepKeepsQueues(q, t);
    var q', rs := After(q, t), Records(q, t);
    forall x: Id ensures Queued(q', x) == Outstanding(log + rs, x) { StepQueued(q, t, log, x); }
    if t.InvokeOne? {
      var last := q.slots[t.p][|q.slots[t.p]| - 1];
      if last.w.Some? { PopQueued(q, t.p, last.w.value); }
    }
    if rs == [] { assert log + rs == log; } else { assert rs == [rs[0]] && (log + [rs[0]])[..|log|] == log; }
    hide Valid, Queued, After, Outstanding;
  }

  /** Conservation over every run, callbacks included: each fed mask is delivered
      once together with its companions, dropped by a clear, or still queued. */
  lemma {:induction false} RunAccounts(q: Queues, ts: seq<Step>, log: seq<Record>)
    requires Accounts(q, log) && IsRun(q, ts)
    ensures Accounts(Last(q, ts), Log(q, ts, log))
    decreases |ts|
  {
    if ts != [] {
      StepAccounts(q, ts[0], log);
      RunAccounts(After(q, ts[0]), ts[1..], log + Records(q, ts[0]));
    }
  }

  function Empty(pri: map<Id, nat>): Queues {
    Queues([[], [], [], [], []], map w | w in pri :: 0, pri)
  }

  lemma PendingConserved(pri: map<Id, nat>, ts: seq<Step>)
    requires (forall w <- pri :: pri[w] < NUMPRI) && IsRun(Empty(pri), ts)
    ensures Accounts(Last(Empty(pri), ts), Log(Empty(pri), ts, []))
  {
    RunAccounts(Empty(pri), ts, []);
  }
}
