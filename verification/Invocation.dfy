/** `ev_invoke_pending` with callbacks that feed and clear events while it runs. */
module Invocation {
  import opened Basics
  import opened Pending

  /** What the n-th callback does when it is handed `m` for `w`. */
  type Script = (nat, Id, Mask) -> seq<Step>

  /** Callbacks feed or clear known watchers; they do not start the loop again. */
  ghost predicate Callbacks(script: Script, pri: map<Id, nat>) {
    forall n: nat, w: Id, m: Mask, i :: 0 <= i < |script(n, w, m)| ==> IsCallback(script(n, w, m)[i], pri)
  }

  predicate IsCallback(t: Step, pri: map<Id, nat>) {
    !t.InvokeOne? && t.w in pri
  }

  /** From the `quiet`-th callback on nothing more is done; without such a point the loop
      of the source does not end either. */
  ghost predicate QuietFrom(script: Script, quiet: nat) {
    forall n: nat, w: Id, m: Mask :: n >= quiet ==> script(n, w, m) == []
  }

  // Rounds.

  /** One round of the loop: a slot popped at a priority, and what its callback did. */
  datatype Round = Round(p: nat, slot: Slot, ops: seq<Step>)

  /** What one callback does to the queues. */
  ghost function Acted(q: Queues, ops: seq<Step>): Queues
    requires Valid(q) && forall i :: 0 <= i < |ops| ==> IsCallback(ops[i], q.pri)
    ensures Valid(Acted(q, ops)) && Acted(q, ops).pri == q.pri
    decreases |ops|
  {
    hide Valid, After;
    if ops == [] then q
    else
      var n := |ops| - 1;
      var before := Acted(q, ops[..n]);
      assert IsCallback(ops[n], q.pri);
      StepKeepsQueues(before, ops[n]);
      SamePriorities(before, ops[n]);
      After(before, ops[n])
  }

  lemma SamePriorities(q: Queues, t: Step)
    requires Valid(q) && Enabled(q, t)
    ensures After(q, t).pri == q.pri
  {
    if !t.InvokeOne? { InRange(q, t.w); }
  }

  /** The callbacks that were run. */
  function Calls(rounds: seq<Round>): seq<(Id, Mask)> {
    if rounds == [] then []
    else
      var n := |rounds| - 1;
      Calls(rounds[..n])
      + if rounds[n].slot.w.Some? then [(rounds[n].slot.w.value, rounds[n].slot.events)] else []
  }

  /** The priority the loop is at after these rounds. */
  function Level(rounds: seq<Round>): nat {
    if rounds == [] then NUMPRI - 1 else rounds[|rounds| - 1].p
  }

  predicate HasMore(q: Queues, p: nat) {
    p < |q.slots| && q.slots[p] != []
  }

  /** The next round of the loop of the source: the highest priority from the present one
      down that has anything, its last slot, and what the script has the callback do. */
  ghost predicate IsNext(q: Queues, level: nat, calls: nat, script: Script, r: Round) {
    && r.p <= level && HasMore(q, r.p) && (forall k :: r.p < k <= level ==> !HasMore(q, k))
    && r.slot == q.slots[r.p][|q.slots[r.p]| - 1]
    && r.ops == (if r.slot.w.Some? then script(calls, r.slot.w.value, r.slot.events) else [])
    && forall i :: 0 <= i < |r.ops| ==> IsCallback(r.ops[i], q.pri)
  }

  ghost function AfterRound(q: Queues, r: Round): Queues
    requires Valid(q) && HasMore(q, r.p) && forall i :: 0 <= i < |r.ops| ==> IsCallback(r.ops[i], q.pri)
    ensures Valid(AfterRound(q, r)) && AfterRound(q, r).pri == q.pri
  {
    RowCount(q);
    PopValid(q, r.p);
    Acted(Pop(q, r.p), r.ops)
  }

  /** The queues after these rounds, if they are rounds of the loop. */
  ghost function Served(q: Queues, rounds: seq<Round>, script: Script): (r: Option<Queues>)
    requires Valid(q)
    ensures r.Some? ==> Valid(r.value) && r.value.pri == q.pri
    decreases |rounds|
  {
    if rounds == [] then Some(q)
    else
      var n := |rounds| - 1;
      var before := Served(q, rounds[..n], script);
      if before.None? || !IsNext(before.value, Level(rounds[..n]), |Calls(rounds[..n])|, script, rounds[n]) then None
      else Some(AfterRound(before.value, rounds[n]))
  }

  /** The loop has come to its end. */
  ghost predicate Ended(q: Queues, rounds: seq<Round>) {
    forall k :: 0 <= k <= Level(rounds) ==> !HasMore(q, k)
  }

  lemma ServedSnoc(q: Queues, rounds: seq<Round>, script: Script, r: Round)
    requires Valid(q) && Served(q, rounds, script).Some?
    requires IsNext(Served(q, rounds, script).value, Level(rounds), |Calls(rounds)|, script, r)
    ensures Served(q, rounds + [r], script) == Some(AfterRound(Served(q, rounds, script).value, r))
    ensures Calls(rounds + [r]) == Calls(rounds) + (if r.slot.w.Some? then [(r.slot.w.value, r.slot.events)] else [])
    ensures Level(rounds + [r]) == r.p
  {
    hide IsNext, AfterRound;
    assert (rounds + [r])[..|rounds|] == rounds;
  }

  lemma ServedPrefix(q: Queues, rounds: seq<Round>, script: Script, k: nat)
    requires Valid(q) && Served(q, rounds, script).Some? && k <= |rounds|
    ensures Served(q, rounds[..k], script).Some?
    decreases |rounds|
  {
    hide IsNext, AfterRound;
    if k == |rounds| {
      assert rounds[..k] == rounds;
    } else {
      var v := rounds[..|rounds| - 1];
      ServedPrefix(q, v, script, k);
      assert v[..k] == rounds[..k];
    }
  }

  /** From one state there is one next round. */
  lemma OneNext(q: Queues, level: nat, calls: nat, script: Script, r: Round, s: Round)
    requires IsNext(q, level, calls, script, r) && IsNext(q, level, calls, script, s)
    ensures r == s
  {
  }

  lemma {:induction false} SameRounds(q: Queues, a: seq<Round>, b: seq<Round>, script: Script, k: nat)
    requires Valid(q) && Served(q, a, script).Some? && Served(q, b, script).Some? && k <= |a| && k <= |b|
    ensures a[..k] == b[..k]
    decreases k
  {
    hide IsNext, Served, Level, Calls, Valid;
    if k > 0 {
      SameRounds(q, a, b, script, k - 1);
      NextAt(q, a, script, k - 1);
      NextAt(q, b, script, k - 1);
      var v := a[..k - 1];
      OneNext(Served(q, v, script).value, Level(v), |Calls(v)|, script, a[k - 1], b[k - 1]);
      assert a[..k] == v + [a[k - 1]] && b[..k] == v + [b[k - 1]];
    }
  }

  lemma NextAt(q: Queues, rounds: seq<Round>, script: Script, k: nat)
    requires Valid(q) && Served(q, rounds, script).Some? && k < |rounds|
    ensures Served(q, rounds[..k], script).Some?
    ensures IsNext(Served(q, rounds[..k], script).value, Level(rounds[..k]), |Calls(rounds[..k])|, script, rounds[k])
  {
    hide IsNext, AfterRound;
    ServedPrefix(q, rounds, script, k + 1);
    ServedPrefix(q, rounds, script, k);
    assert rounds[..k + 1][..k] == rounds[..k] && rounds[..k + 1][k] == rounds[k];
  }

  lemma NoneNext(q: Queues, rounds: seq<Round>, calls: nat, script: Script, r: Round)
    requires Ended(q, rounds)
    ensures !IsNext(q, Level(rounds), calls, script, r)
  {
  }

  /** A run that has ended is not continued. */
  lemma NotLonger(q: Queues, a: seq<Round>, b: seq<Round>, script: Script)
    requires Valid(q) && Served(q, a, script).Some? && Served(q, b, script).Some? && Ended(Served(q, a, script).value, a)
    requires |a| < |b| ==> b[..|a|] == a
    ensures |b| <= |a|
  {
    hide IsNext, Served, Level, Ended, Valid;
    if |a| < |b| {
      NoneNext(Served(q, a, script).value, a, |Calls(a)|, script, b[|a|]);
      NextAt(q, b, script, |a|);
    }
  }

  /** The loop has one run: its rounds are determined by the queues and the callbacks. */
  lemma OneRun(q: Queues, a: seq<Round>, b: seq<Round>, script: Script)
    requires Valid(q) && Served(q, a, script).Some? && Served(q, b, script).Some?
    requires Ended(Served(q, a, script).value, a) && Ended(Served(q, b, script).value, b)
    ensures a == b
  {
    hide IsNext, Served, Level, Ended, Valid;
    var k := Min(|a|, |b|);
    SameRounds(q, a, b, script, k);
    assert k == |a| ==> a[..k] == a;
    assert k == |b| ==> b[..k] == b;
    NotLonger(q, a, b, script);
    NotLonger(q, b, a, script);
  }

  // What is left.

  predicate FeedsTo(t: Step, pri: map<Id, nat>, k: nat) {
    t.FeedEvent? && t.w in pri && pri[t.w] == k
  }

  predicate FeedsAny(ops: seq<Step>, pri: map<Id, nat>, k: nat) {
    exists i :: 0 <= i < |ops| && FeedsTo(ops[i], pri, k)
  }

  /** The n-th callback belongs to a priority below `k` and feeds an event of that priority. */
  predicate FeedsUp(script: Script, calls: seq<(Id, Mask)>, pri: map<Id, nat>, k: nat, n: nat)
    requires n < |calls|
  {
    var (w, m) := calls[n];
    w in pri && pri[w] < k && FeedsAny(script(n, w, m), pri, k)
  }

  predicate FedFromBelow(script: Script, calls: seq<(Id, Mask)>, pri: map<Id, nat>, k: nat) {
    exists n :: 0 <= n < |calls| && FeedsUp(script, calls, pri, k, n)
  }

  lemma FedSnoc(script: Script, calls: seq<(Id, Mask)>, c: (Id, Mask), pri: map<Id, nat>, k: nat)
    ensures FedFromBelow(script, calls + [c], pri, k)
            <==> FedFromBelow(script, calls, pri, k)
                 || (c.0 in pri && pri[c.0] < k && FeedsAny(script(|calls|, c.0, c.1), pri, k))
  {
    hide FeedsAny;
    var all := calls + [c];
    forall n | 0 <= n < |calls| ensures FeedsUp(script, all, pri, k, n) <==> FeedsUp(script, calls, pri, k, n) {
      assert all[n] == calls[n];
    }
    if FedFromBelow(script, calls, pri, k) {
      var n :| 0 <= n < |calls| && FeedsUp(script, calls, pri, k, n);
      assert FeedsUp(script, all, pri, k, n);
    }
    if c.0 in pri && pri[c.0] < k && FeedsAny(script(|calls|, c.0, c.1), pri, k) {
      assert FeedsUp(script, all, pri, k, |calls|);
    }
    if FedFromBelow(script, all, pri, k) {
      var n :| 0 <= n < |all| && FeedsUp(script, all, pri, k, n);
      assert n < |calls| ==> FeedsUp(script, calls, pri, k, n);
    }
  }

  /** A row that is not popped only grows. */
  lemma RowAfter(q: Queues, t: Step, k: nat)
    requires Valid(q) && Enabled(q, t) && k < NUMPRI && !t.InvokeOne?
    ensures HasMore(After(q, t), k) <==> HasMore(q, k) || FeedsTo(t, q.pri, k)
  {
    InRange(q, t.w);
  }

  lemma {:induction false} RowActed(q: Queues, ops: seq<Step>, k: nat)
    requires Valid(q) && k < NUMPRI && forall i :: 0 <= i < |ops| ==> IsCallback(ops[i], q.pri)
    ensures HasMore(Acted(q, ops), k) <==> HasMore(q, k) || FeedsAny(ops, q.pri, k)
    decreases |ops|
  {
    hide HasMore, FeedsTo, After;
    if ops != [] {
      var n := |ops| - 1;
      var v := ops[..n];
      RowActed(q, v, k);
      RowAfter(Acted(q, v), ops[n], k);
      FeedsSnoc(v, ops[n], q.pri, k);
      assert ops == v + [ops[n]];
    }
  }

  lemma FeedsSnoc(ops: seq<Step>, t: Step, pri: map<Id, nat>, k: nat)
    ensures FeedsAny(ops + [t], pri, k) <==> FeedsAny(ops, pri, k) || FeedsTo(t, pri, k)
  {
    var all := ops + [t];
    if FeedsAny(ops, pri, k) {
      var i :| 0 <= i < |ops| && FeedsTo(ops[i], pri, k);
      assert FeedsTo(all[i], pri, k);
    }
    if FeedsTo(t, pri, k) { assert FeedsTo(all[|ops|], pri, k); }
    if FeedsAny(all, pri, k) {
      var i :| 0 <= i < |all| && FeedsTo(all[i], pri, k);
      assert i < |ops| ==> FeedsTo(ops[i], pri, k);
    }
  }

  lemma RowPopped(q: Queues, p: nat, k: nat)
    requires Valid(q) && HasMore(q, p) && k < NUMPRI && k != p
    ensures HasMore(Pop(q, p), k) <==> HasMore(q, k)
  {
  }

  /** The watcher of a slot has the priority of its row. */
  lemma SlotPriority(q: Queues, p: nat)
    requires Valid(q) && HasMore(q, p)
    ensures var s := q.slots[p][|q.slots[p]| - 1]; s.w.Some? ==> s.w.value in q.pri && q.pri[s.w.value] == p
  {
    var n := |q.slots[p]| - 1;
    if q.slots[p][n].w.Some? { assert Names(q, p, n); }
  }

  /** Above the present priority exactly those rows hold anything that were fed from below. */
  lemma {:induction false} LeftAbove(q: Queues, rounds: seq<Round>, script: Script, k: nat)
    requires Valid(q) && Served(q, rounds, script).Some? && Level(rounds) < k < NUMPRI
    ensures HasMore(Served(q, rounds, script).value, k) <==> FedFromBelow(script, Calls(rounds), q.pri, k)
    decreases |rounds|
  {
    hide FedFromBelow, FeedsAny, Acted;
    if rounds != [] {
      var n := |rounds| - 1;
      var v, r := rounds[..n], rounds[n];
      NextAt(q, rounds, script, n);
      var b := Served(q, v, script).value;
      RowCount(b);
      PopValid(b, r.p);
      SlotPriority(b, r.p);
      RowPopped(b, r.p, k);
      RowActed(Pop(b, r.p), r.ops, k);
      if k > Level(v) {
        LeftAbove(q, v, script, k);
      } else {
        NotFedYet(q, v, script, k);
      }
      if r.slot.w.Some? { FedSnoc(script, Calls(v), (r.slot.w.value, r.slot.events), q.pri, k); }
      assert r.slot.w.None? ==> Calls(rounds) == Calls(v) + [] == Calls(v) && !FeedsAny(r.ops, q.pri, k) by {
        NoOps(q.pri, k);
      }
    }
  }

  lemma NoOps(pri: map<Id, nat>, k: nat)
    ensures !FeedsAny([], pri, k)
  {
  }

  /** No callback ran below the present priority. */
  lemma {:induction false} NotFedYet(q: Queues, rounds: seq<Round>, script: Script, k: nat)
    requires Valid(q) && Served(q, rounds, script).Some? && k <= Level(rounds)
    ensures !FedFromBelow(script, Calls(rounds), q.pri, k)
    decreases |rounds|
  {
    hide FedFromBelow, FeedsAny, AfterRound;
    if rounds == [] {
      NoCalls(script, q.pri, k);
    } else {
      var n := |rounds| - 1;
      var v, r := rounds[..n], rounds[n];
      NextAt(q, rounds, script, n);
      SlotPriority(Served(q, v, script).value, r.p);
      NotFedYet(q, v, script, k);
      if r.slot.w.Some? { FedSnoc(script, Calls(v), (r.slot.w.value, r.slot.events), q.pri, k); }
      assert r.slot.w.None? ==> Calls(rounds) == Calls(v) + [] == Calls(v);
    }
  }

  lemma NoCalls(script: Script, pri: map<Id, nat>, k: nat)
    ensures !FedFromBelow(script, [], pri, k)
  {
  }

  /** After the loop exactly those priorities have anything queued to which a callback of a
      lower priority fed an event. */
  lemma LeftExact(q: Queues, rounds: seq<Round>, script: Script, k: nat)
    requires Valid(q) && Served(q, rounds, script).Some? && Ended(Served(q, rounds, script).value, rounds) && k < NUMPRI
    ensures HasMore(Served(q, rounds, script).value, k) <==> FedFromBelow(script, Calls(rounds), q.pri, k)
  {
    hide Served, FedFromBelow, HasMore;
    if k <= Level(rounds) {
      NotFedYet(q, rounds, script, k);
    } else {
      LeftAbove(q, rounds, script, k);
    }
  }

  // The ledger.

  /** The rounds as steps of the queues. */
  function Steps(rounds: seq<Round>): seq<Step> {
    if rounds == [] then []
    else
      var n := |rounds| - 1;
      Steps(rounds[..n]) + [InvokeOne(rounds[n].p)] + rounds[n].ops
  }

  lemma {:induction false} RunSnoc(q: Queues, ts: seq<Step>, t: Step)
    requires IsRun(q, ts) && Valid(Last(q, ts)) && Enabled(Last(q, ts), t)
    ensures IsRun(q, ts + [t]) && Last(q, ts + [t]) == After(Last(q, ts), t)
    decreases |ts|
  {
    hide Valid, Enabled, After;
    if ts == [] {
      assert ts + [t] == [t] && [t][1..] == [];
      StepKeepsQueues(q, t);
    } else {
      assert (ts + [t])[1..] == ts[1..] + [t];
      RunSnoc(After(q, ts[0]), ts[1..], t);
    }
  }

  lemma {:induction false} RunActs(q: Queues, ts: seq<Step>, ops: seq<Step>)
    requires IsRun(q, ts) && Valid(Last(q, ts)) && forall i :: 0 <= i < |ops| ==> IsCallback(ops[i], Last(q, ts).pri)
    ensures IsRun(q, ts + ops) && Last(q, ts + ops) == Acted(Last(q, ts), ops)
    decreases |ops|
  {
    hide Valid, After, IsRun, Last;
    if ops == [] {
      assert ts + ops == ts;
    } else {
      var n := |ops| - 1;
      RunActs(q, ts, ops[..n]);
      assert ts + ops == (ts + ops[..n]) + [ops[n]];
      RunSnoc(q, ts + ops[..n], ops[n]);
    }
  }

  /** The rounds are a run of feeds, clears and invocations, so that the ledger of such runs
      accounts for them. */
  lemma {:induction false} RoundsRun(q: Queues, rounds: seq<Round>, script: Script)
    requires Valid(q) && Served(q, rounds, script).Some?
    ensures IsRun(q, Steps(rounds)) && Last(q, Steps(rounds)) == Served(q, rounds, script).value
    decreases |rounds|
  {
    hide Acted;
    if rounds != [] {
      var n := |rounds| - 1;
      var v, r := rounds[..n], rounds[n];
      NextAt(q, rounds, script, n);
      RoundsRun(q, v, script);
      var b := Served(q, v, script).value;
      RowCount(b);
      PopValid(b, r.p);
      hide Served, IsRun, Last, Valid;
      RunSnoc(q, Steps(v), InvokeOne(r.p));
      RunActs(q, Steps(v) + [InvokeOne(r.p)], r.ops);
    }
  }

  class Loop {
    var queues: Queues

    constructor (q: Queues)
      ensures queues == q
    {
      queues := q;
    }

    /** What one callback does. */
    method Callback(ops: seq<Step>)
      requires Valid(queues) && forall i :: 0 <= i < |ops| ==> IsCallback(ops[i], queues.pri)
      modifies this
      ensures Valid(queues) && queues.pri == old(queues).pri && queues == Acted(old(queues), ops)
      ensures ops == [] ==> queues == old(queues)
    {
      hide Valid, Feed, Clear, After;
      ghost var q0 := queues;
      var i := 0;
      while i < |ops|
        invariant i <= |ops| && Valid(queues) && queues.pri == q0.pri && queues == Acted(q0, ops[..i])
        invariant i == 0 ==> queues == q0
      {
        ghost var q := queues;
        InRange(q, ops[i].w);
        AfterIs(q, ops[i]);
        match ops[i] {
          case FeedEvent(w, m) => queues := Feed(queues, w, m);
          case ClearPending(w) => queues := Clear(queues, w);
        }
        assert ops[..i + 1][..i] == ops[..i];
        i := i + 1;
      }
      assert ops[..i] == ops;
    }

    /** `ev_invoke_pending`: its rounds are those of the source, and afterwards exactly
        those priorities have anything queued to which a callback of a lower priority fed
        an event. */
    method InvokePending(script: Script, ghost quiet: nat)
      returns (calls: seq<(Id, Mask)>, ghost rounds: seq<Round>)
      requires Valid(queues) && Callbacks(script, queues.pri) && QuietFrom(script, quiet)
      modifies this
      ensures Valid(queues) && queues.pri == old(queues).pri
      ensures Served(old(queues), rounds, script) == Some(queues) && Ended(queues, rounds) && calls == Calls(rounds)
      ensures forall k :: 0 <= k < NUMPRI ==> (queues.slots[k] != [] <==> FedFromBelow(script, calls, queues.pri, k))
      ensures IsRun(old(queues), Steps(rounds)) && queues == Last(old(queues), Steps(rounds))
    {
      hide Served, Valid, Calls, Callbacks, QuietFrom, FedFromBelow, Acted, IsRun, Last, Steps, AfterRound, IsNext, Level;
      ghost var q0 := queues;
      RowCount(queues);
      calls, rounds := [], [];
      var p: nat, n: nat := NUMPRI, 0;
      NoRounds(q0, script);
      while p > 0
        invariant p <= NUMPRI && n == |calls| && AtLevel(q0, rounds, script, queues, calls, p)
      {
        p := p - 1;
        while HasMore(queues, p)
          invariant p < NUMPRI && n == |calls| && AtLevel(q0, rounds, script, queues, calls, p + 1)
          decreases if n < quiet then quiet - n else 0, if HasMore(queues, p) then |queues.slots[p]| else 0
        {
          ghost var q := queues;
          var last := queues.slots[p][|queues.slots[p]| - 1];
          LevelFacts(q0, rounds, script, q, calls, p + 1);
          PopFacts(q, p);
          queues := Pop(queues, p);
          var ops := [];
          if last.w.Some? {
            ops := script(n, last.w.value, last.events);
            ScriptIs(script, q0.pri, quiet, n, last.w.value, last.events);
            calls := calls + [(last.w.value, last.events)];
            n := n + 1;
          }
          Callback(ops);
          NextRound(q0, rounds, script, q, p, ops);
          rounds := rounds + [Round(p, last, ops)];
        }
        LevelDone(q0, rounds, script, queues, calls, p);
      }
      AllDone(q0, rounds, script, queues, calls);
    }
  }

  lemma AfterIs(q: Queues, t: Step)
    requires Valid(q) && Enabled(q, t) && !t.InvokeOne? && Known(q, t.w) && q.pending[t.w] <= |q.slots[q.pri[t.w]]|
    ensures After(q, t) == if t.FeedEvent? then Feed(q, t.w, t.m) else Clear(q, t.w)
    ensures Valid(After(q, t)) && After(q, t).pri == q.pri
  {
    StepKeepsQueues(q, t);
    SamePriorities(q, t);
  }

  /** The rounds so far; from `p` down to the present priority nothing is left. */
  ghost predicate AtLevel(q0: Queues, rounds: seq<Round>, script: Script, q: Queues, calls: seq<(Id, Mask)>, p: nat) {
    && Valid(q0) && Served(q0, rounds, script) == Some(q) && calls == Calls(rounds)
    && p <= Level(rounds) + 1 && forall k :: p <= k <= Level(rounds) ==> !HasMore(q, k)
  }

  lemma NoRounds(q: Queues, script: Script)
    requires Valid(q)
    ensures AtLevel(q, [], script, q, [], NUMPRI)
  {
  }

  lemma LevelFacts(q0: Queues, rounds: seq<Round>, script: Script, q: Queues, calls: seq<(Id, Mask)>, p: nat)
    requires AtLevel(q0, rounds, script, q, calls, p)
    ensures Valid(q) && q.pri == q0.pri && |q.slots| == NUMPRI
  {
  }

  lemma PopFacts(q: Queues, p: nat)
    requires Valid(q) && HasMore(q, p)
    ensures Valid(Pop(q, p)) && Pop(q, p).pri == q.pri
    ensures |Pop(q, p).slots| == |q.slots| && |Pop(q, p).slots[p]| == |q.slots[p]| - 1
  {
    RowCount(q);
    PopValid(q, p);
  }

  lemma NextRound(q0: Queues, rounds: seq<Round>, script: Script, q: Queues, p: nat, ops: seq<Step>)
    requires AtLevel(q0, rounds, script, q, Calls(rounds), p + 1) && HasMore(q, p)
    requires var s := q.slots[p][|q.slots[p]| - 1];
      ops == if s.w.Some? then script(|Calls(rounds)|, s.w.value, s.events) else []
    requires Valid(Pop(q, p)) && Pop(q, p).pri == q.pri && forall i :: 0 <= i < |ops| ==> IsCallback(ops[i], q.pri)
    ensures var s := q.slots[p][|q.slots[p]| - 1];
      AtLevel(q0, rounds + [Round(p, s, ops)], script, Acted(Pop(q, p), ops),
              Calls(rounds) + (if s.w.Some? then [(s.w.value, s.events)] else []), p + 1)
  {
    hide Served, Valid, Calls, Acted, Pop;
    var r := Round(p, q.slots[p][|q.slots[p]| - 1], ops);
    ServedSnoc(q0, rounds, script, r);
  }

  lemma LevelDone(q0: Queues, rounds: seq<Round>, script: Script, q: Queues, calls: seq<(Id, Mask)>, p: nat)
    requires AtLevel(q0, rounds, script, q, calls, p + 1) && !HasMore(q, p)
    ensures AtLevel(q0, rounds, script, q, calls, p)
  {
    hide Served, Valid, Calls, HasMore;
  }

  lemma AllDone(q0: Queues, rounds: seq<Round>, script: Script, q: Queues, calls: seq<(Id, Mask)>)
    requires AtLevel(q0, rounds, script, q, calls, 0)
    ensures Valid(q) && q.pri == q0.pri && |q.slots| == NUMPRI
    ensures Served(q0, rounds, script) == Some(q) && Ended(q, rounds) && calls == Calls(rounds)
    ensures forall k :: 0 <= k < NUMPRI ==> (q.slots[k] != [] <==> FedFromBelow(script, calls, q.pri, k))
    ensures IsRun(q0, Steps(rounds)) && q == Last(q0, Steps(rounds))
  {
    LevelFacts(q0, rounds, script, q, calls, 0);
    RoundsRun(q0, rounds, script);
    hide Served, Valid, Calls, FedFromBelow, Level, IsRun, Last;
    forall k | 0 <= k < NUMPRI ensures q.slots[k] != [] <==> FedFromBelow(script, calls, q.pri, k) {
      LeftExact(q0, rounds, script, k);
    }
  }

  lemma ScriptIs(script: Script, pri: map<Id, nat>, quiet: nat, n: nat, w: Id, m: Mask)
    requires Callbacks(script, pri) && QuietFrom(script, quiet)
    ensures forall i :: 0 <= i < |script(n, w, m)| ==> IsCallback(script(n, w, m)[i], pri)
    ensures n >= quiet ==> script(n, w, m) == []
  {
  }

  // An event that stays queued.

  const TWO_WATCHERS: map<Id, nat> := map[0 := 1, 1 := 3]

  /** The first callback feeds watcher 1. */
  function FeedOnce(n: nat, w: Id, m: Mask): seq<Step> {
    if n == 0 then [FeedEvent(1, {2})] else []
  }

  function OnePending(): Queues {
    Queues([[], [Slot(Some(0), {1})], [], [], []], map[0 := 1, 1 := 0], TWO_WATCHERS)
  }

  lemma OnePendingValid()
    ensures Valid(OnePending())
  {
    var q := OnePending();
    assert IsAt(q, 0, 1, 0);
    forall p, i | 0 <= p < NUMPRI && 0 <= i < |q.slots[p]| && q.slots[p][i].w.Some? ensures Names(q, p, i) {
      assert p == 1 && i == 0;
    }
  }

  const ONLY_ROUND := Round(1, Slot(Some(0), {1}), [FeedEvent(1, {2})])

  lemma OnlyRoundNext()
    ensures IsNext(OnePending(), NUMPRI - 1, 0, FeedOnce, ONLY_ROUND)
  {
    assert IsCallback(ONLY_ROUND.ops[0], TWO_WATCHERS);
  }

  lemma OnlyRoundActs()
    requires Valid(OnePending()) && Valid(Pop(OnePending(), 1))
    ensures After(Pop(OnePending(), 1), FeedEvent(1, {2})).slots == [[], [], [], [Slot(Some(1), {2})], []]
  {
    hide Valid;
    var q := Pop(OnePending(), 1);
    assert q == Queues([[], [], [], [], []], map[0 := 0, 1 := 0], TWO_WATCHERS);
    var row: seq<Slot> := [];
    assert row + [Slot(Some(1), {2})] == [Slot(Some(1), {2})];
    assert Feed(q, 1, {2}).slots == [[], [], [], [Slot(Some(1), {2})], []];
  }

  lemma StartsSo(q: Queues, script: Script)
    requires Valid(q)
    ensures Served(q, [], script) == Some(q) && Level([]) == NUMPRI - 1 && Calls([]) == []
  {
  }

  lemma EndsSo(q: Queues)
    requires q.slots == [[], [], [], [Slot(Some(1), {2})], []]
    ensures Ended(q, [ONLY_ROUND]) && Calls([ONLY_ROUND]) == [(0, {1})]
  {
    assert [ONLY_ROUND][..0] == [];
  }

  lemma OnlyRoundLeaves(q: Queues)
    requires Valid(OnePending()) && IsNext(OnePending(), NUMPRI - 1, 0, FeedOnce, ONLY_ROUND)
    requires q == AfterRound(OnePending(), ONLY_ROUND)
    ensures q.slots == [[], [], [], [Slot(Some(1), {2})], []]
  {
    hide Valid, Acted, After, IsNext, Pop;
    assert HasMore(OnePending(), 1);
    PopFacts(OnePending(), 1);
    ActsOnce(Pop(OnePending(), 1), FeedEvent(1, {2}));
    OnlyRoundActs();
    assert ONLY_ROUND.ops == [FeedEvent(1, {2})];
  }

  /** Watcher 0 of priority 1 is pending, and its callback feeds watcher 1 of priority 3: after
      its one round the loop is at its end, with that event queued. */
  lemma StaysQueued()
    ensures Valid(OnePending())
    ensures var q := Served(OnePending(), [ONLY_ROUND], FeedOnce);
      q.Some? && Ended(q.value, [ONLY_ROUND]) && q.value.slots == [[], [], [], [Slot(Some(1), {2})], []]
  {
    OnePendingValid();
    var q, r := OnePending(), ONLY_ROUND;
    hide Valid, IsNext, Served, OnePending, AfterRound, Ended, Level, Calls, HasMore, IsCallback;
    StartsSo(q, FeedOnce);
    OnlyRoundNext();
    ServedSnoc(q, [], FeedOnce, r);
    assert [] + [r] == [r];
    var q' := Served(q, [r], FeedOnce).value;
    NextFacts(q, NUMPRI - 1, 0, FeedOnce, r);
    OnlyRoundLeaves(q');
    EndsSo(q');
  }

  /** The same run of the loop itself. */
  method LeavesEvent() returns (l: Loop, calls: seq<(Id, Mask)>)
    ensures calls == [(0, {1})] && l.queues.slots == [[], [], [], [Slot(Some(1), {2})], []]
  {
    hide Valid, Served, Ended, IsNext;
    StaysQueued();
    l := new Loop(OnePending());
    ghost var rounds;
    FeedsKnown();
    calls, rounds := l.InvokePending(FeedOnce, 1);
    OneRun(OnePending(), rounds, [ONLY_ROUND], FeedOnce);
    EndsSo(l.queues);
  }

  lemma FeedsKnown()
    ensures Callbacks(FeedOnce, TWO_WATCHERS) && QuietFrom(FeedOnce, 1)
  {
  }

  lemma NextFacts(q: Queues, level: nat, calls: nat, script: Script, r: Round)
    requires IsNext(q, level, calls, script, r)
    ensures HasMore(q, r.p) && forall i :: 0 <= i < |r.ops| ==> IsCallback(r.ops[i], q.pri)
  {
  }

  lemma ActsOnce(q: Queues, t: Step)
    requires Valid(q) && IsCallback(t, q.pri)
    ensures Acted(q, [t]) == After(q, t)
  {
    assert [t][..0] == [];
    assert Acted(q, []) == q;
  }
}
