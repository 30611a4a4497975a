/** `feed_reverse` and `feed_reverse_done`, and the order in which
    `ev_invoke_pending` then runs the watchers. */
module ReverseFeed {
  import opened Basics
  import opened Pending

  ghost predicate Fits(q: Queues, ws: seq<Id>) {
    Valid(q) && forall w <- ws :: w in q.pri
  }

  /** Feeding a list from its end. */
  ghost function FeedBack(q: Queues, ws: seq<Id>, m: Mask): (r: Queues)
    requires Fits(q, ws)
    ensures Valid(r) && r.pri == q.pri
    decreases |ws|
  {
    if ws == [] then q
    else
      var w := ws[|ws| - 1];
      InRange(q, w);
      FeedValid(q, w, m);
      FeedBack(Feed(q, w, m), ws[..|ws| - 1], m)
  }

  lemma FeedBackNone(q: Queues, m: Mask)
    requires Valid(q)
    ensures FeedBack(q, [], m) == q
  {
  }

  lemma {:induction false} FeedBackQueued(q: Queues, ws: seq<Id>, m: Mask, x: Id)
    requires Fits(q, ws)
    ensures Queued(FeedBack(q, ws, m), x) == if x in ws then Some(Joined(Queued(q, x), m)) else Queued(q, x)
    decreases |ws|
  {
    hide Queued, Valid;
    if ws != [] {
      var n := |ws| - 1;
      var w, rest := ws[n], ws[..n];
      assert ws == rest + [w];
      InRange(q, w);
      FeedValid(q, w, m);
      FeedQueued(q, w, m, x);
      FeedBackQueued(Feed(q, w, m), rest, m, x);
      if x == w { assert Joined(Some(Joined(Queued(q, x), m)), m) == Joined(Queued(q, x), m); }
    }
  }

  // The order of invocation.

  /** The watchers a priority's row runs, from its end. */
  function RowOrder(row: seq<Slot>): seq<Id>
    decreases |row|
  {
    if row == [] then []
    else
      var last := row[|row| - 1];
      (if last.w.Some? then [last.w.value] else []) + RowOrder(row[..|row| - 1])
  }

  /** The watchers run from the rows below priority `p`, highest first. */
  function InvokeOrder(slots: seq<seq<Slot>>, p: nat): seq<Id>
    requires p <= |slots|
  {
    if p == 0 then [] else RowOrder(slots[p - 1]) + InvokeOrder(slots, p - 1)
  }

  predicate Idle(q: Queues) {
    forall p :: 0 <= p < |q.slots| ==> q.slots[p] == []
  }

  /** The watchers of priority `p`, in order. */
  function AtPri(pri: map<Id, nat>, ws: seq<Id>, p: nat): seq<Id> {
    if ws == [] then []
    else (if ws[0] in pri && pri[ws[0]] == p then [ws[0]] else []) + AtPri(pri, ws[1..], p)
  }

  function ByPriority(pri: map<Id, nat>, ws: seq<Id>, p: nat): seq<Id> {
    if p == 0 then [] else AtPri(pri, ws, p - 1) + ByPriority(pri, ws, p - 1)
  }

  /** The row that running `ws` in order takes. */
  function Backwards(ws: seq<Id>, m: Mask): seq<Slot> {
    if ws == [] then [] else Backwards(ws[1..], m) + [Slot(Some(ws[0]), m)]
  }

  lemma {:induction false} BackwardsRuns(ws: seq<Id>, m: Mask)
    ensures RowOrder(Backwards(ws, m)) == ws
  {
    if ws != [] {
      var row := Backwards(ws, m);
      assert row[..|row| - 1] == Backwards(ws[1..], m);
      BackwardsRuns(ws[1..], m);
    }
  }

  ghost predicate RowsOf(q: Queues, ws: seq<Id>, m: Mask) {
    |q.slots| == NUMPRI && forall p :: 0 <= p < NUMPRI ==> q.slots[p] == Backwards(AtPri(q.pri, ws, p), m)
  }

  lemma FeedRow(q: Queues, w: Id, t: seq<Id>, m: Mask)
    requires Known(q, w) && q.pending[w] == 0 && RowsOf(q, t, m)
    ensures RowsOf(Feed(q, w, m), [w] + t, m)
  {
    assert ([w] + t)[1..] == t;
    var q' := Feed(q, w, m);
    forall p | 0 <= p < NUMPRI ensures q'.slots[p] == Backwards(AtPri(q.pri, [w] + t, p), m) {
      if p == q.pri[w] {
        assert ([w] + AtPri(q.pri, t, p))[1..] == AtPri(q.pri, t, p);
      } else {
        assert [] + AtPri(q.pri, t, p) == AtPri(q.pri, t, p);
      }
    }
  }

  lemma {:induction false} FeedBackRows(q: Queues, ws: seq<Id>, t: seq<Id>, m: Mask)
    requires Fits(q, ws) && RowsOf(q, t, m) && Distinct(ws)
    requires forall w <- ws :: w in q.pending && q.pending[w] == 0
    ensures RowsOf(FeedBack(q, ws, m), ws + t, m)
    decreases |ws|
  {
    hide Valid, RowsOf;
    if ws == [] {
      assert ws + t == t;
    } else {
      var n := |ws| - 1;
      var w, rest := ws[n], ws[..n];
      InRange(q, w);
      FeedValid(q, w, m);
      FeedRow(q, w, t, m);
      FeedBackRows(Feed(q, w, m), rest, [w] + t, m);
      assert rest + ([w] + t) == ws + t;
    }
  }

  lemma IdleRows(q: Queues, m: Mask)
    requires Valid(q) && Idle(q)
    ensures RowsOf(q, [], m) && forall w <- q.pri :: w in q.pending && q.pending[w] == 0
  {
    forall w: Id | w in q.pri ensures w in q.pending && q.pending[w] == 0 { InRange(q, w); }
  }

  lemma {:induction false} RowsRun(q: Queues, ws: seq<Id>, m: Mask, p: nat)
    requires RowsOf(q, ws, m) && p <= NUMPRI
    ensures InvokeOrder(q.slots, p) == ByPriority(q.pri, ws, p)
  {
    if p > 0 {
      BackwardsRuns(AtPri(q.pri, ws, p - 1), m);
      RowsRun(q, ws, m, p - 1);
    }
  }

  // The order is the one wanted.

  predicate Sorted(key: map<Id, real>, ws: seq<Id>) {
    && (forall w <- ws :: w in key)
    && forall i, j :: 0 <= i < j < |ws| ==> key[ws[i]] <= key[ws[j]]
  }

  /** Higher priority first, and within a priority by key. */
  predicate RunsInOrder(pri: map<Id, nat>, key: map<Id, real>, ws: seq<Id>) {
    && (forall w <- ws :: w in key && w in pri)
    && forall i, j :: 0 <= i < j < |ws| ==>
         pri[ws[i]] > pri[ws[j]] || (pri[ws[i]] == pri[ws[j]] && key[ws[i]] <= key[ws[j]])
  }

  lemma {:induction false} AtPriSorted(pri: map<Id, nat>, key: map<Id, real>, ws: seq<Id>, p: nat)
    requires Sorted(key, ws)
    ensures Sorted(key, AtPri(pri, ws, p)) && forall w <- AtPri(pri, ws, p) :: w in ws && w in pri && pri[w] == p
  {
    if ws != [] {
      AtPriSorted(pri, key, ws[1..], p);
      var rest := AtPri(pri, ws[1..], p);
      assert forall w <- rest :: w in ws[1..] ==> w in ws;
      hide AtPri;
      SortedCons(key, ws, rest);
    }
  }

  lemma SortedCons(key: map<Id, real>, ws: seq<Id>, rest: seq<Id>)
    requires ws != [] && Sorted(key, ws) && Sorted(key, rest) && forall w <- rest :: w in ws[1..]
    ensures Sorted(key, [ws[0]] + rest)
  {
    var all := [ws[0]] + rest;
    forall i, j | 0 <= i < j < |all| && all[i] in key && all[j] in key ensures key[all[i]] <= key[all[j]] {
      assert all[j] == rest[j - 1] && all[j] in ws[1..];
    }
  }

  lemma {:induction false} ByPrioritySorted(pri: map<Id, nat>, key: map<Id, real>, ws: seq<Id>, p: nat)
    requires Sorted(key, ws)
    ensures RunsInOrder(pri, key, ByPriority(pri, ws, p)) && forall w <- ByPriority(pri, ws, p) :: w in pri && pri[w] < p
  {
    hide AtPri;
    if p > 0 {
      AtPriSorted(pri, key, ws, p - 1);
      ByPrioritySorted(pri, key, ws, p - 1);
    }
  }

  lemma {:induction false} AtPriCount(pri: map<Id, nat>, ws: seq<Id>, p: nat, x: Id)
    ensures multiset(AtPri(pri, ws, p))[x] == if x in pri && pri[x] == p then multiset(ws)[x] else 0
  {
    if ws != [] {
      AtPriCount(pri, ws[1..], p, x);
      assert ws == [ws[0]] + ws[1..];
    }
  }

  lemma {:induction false} ByPriorityCount(pri: map<Id, nat>, ws: seq<Id>, p: nat, x: Id)
    ensures multiset(ByPriority(pri, ws, p))[x] == if x in pri && pri[x] < p then multiset(ws)[x] else 0
  {
    hide AtPri;
    if p > 0 {
      AtPriCount(pri, ws, p - 1, x);
      ByPriorityCount(pri, ws, p - 1, x);
    }
  }

  /** From idle queues, a list sorted by key and fed from its end is invoked in
      full, each watcher once, by priority and then by key. */
  lemma FeedBackOrder(q: Queues, key: map<Id, real>, ws: seq<Id>, m: Mask)
    requires Fits(q, ws) && Idle(q) && Distinct(ws) && Sorted(key, ws)
    ensures var ran := InvokeOrder(FeedBack(q, ws, m).slots, NUMPRI);
      RunsInOrder(q.pri, key, ran) && multiset(ran) == multiset(ws)
  {
    hide RowsOf, Valid, FeedBack, ByPriority, InvokeOrder, RunsInOrder, Sorted, Idle;
    IdleRows(q, m);
    FeedBackRows(q, ws, [], m);
    assert ws + [] == ws;
    RowsRun(FeedBack(q, ws, m), ws, m, NUMPRI);
    ByPrioritySorted(q.pri, key, ws, NUMPRI);
    forall x: Id ensures multiset(ByPriority(q.pri, ws, NUMPRI))[x] == multiset(ws)[x] {
      ByPriorityCount(q.pri, ws, NUMPRI, x);
      if x in q.pri { InRange(q, x); }
    }
  }

  // Popping follows the order.

  lemma {:induction false} OrderBelow(slots: seq<seq<Slot>>, p: nat, row: seq<Slot>, k: nat)
    requires k <= p < |slots|
    ensures InvokeOrder(slots[p := row], k) == InvokeOrder(slots, k)
  {
    if k > 0 { OrderBelow(slots, p, row, k - 1); }
  }

  lemma PopOrder(q: Queues, p: nat)
    requires p < |q.slots| && q.slots[p] != []
    ensures var last := q.slots[p][|q.slots[p]| - 1];
      InvokeOrder(q.slots, p + 1) ==
        (if last.w.Some? then [last.w.value] else []) + InvokeOrder(Pop(q, p).slots, p + 1)
  {
    var row := q.slots[p];
    OrderBelow(q.slots, p, row[..|row| - 1], p);
  }

  lemma OrderSkips(slots: seq<seq<Slot>>, p: nat)
    requires p < |slots| && slots[p] == []
    ensures InvokeOrder(slots, p + 1) == InvokeOrder(slots, p)
  {
    assert [] + InvokeOrder(slots, p) == InvokeOrder(slots, p);
  }

  lemma OrderNone(slots: seq<seq<Slot>>)
    ensures InvokeOrder(slots, 0) == []
  {
  }

  lemma {:induction false} DistinctCount(ws: seq<Id>, x: Id)
    requires Distinct(ws)
    ensures multiset(ws)[x] == if x in ws then 1 else 0
  {
    if ws != [] {
      DistinctCount(ws[1..], x);
      assert ws == [ws[0]] + ws[1..];
    }
  }

  lemma DistinctCounts(ws: seq<Id>)
    requires Distinct(ws)
    ensures forall x: Id :: multiset(ws)[x] == if x in ws then 1 else 0
  {
    forall x: Id { DistinctCount(ws, x); }
  }
}
