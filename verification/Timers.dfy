/** The timers of an event loop: starting, stopping, restarting, shifting and
    expiring them on the heap, with their pending queues. */
module Timers {
  import opened Basics
  import opened TimerHeap
  import opened Expiry
  import Pending
  import ReverseFeed

  const TIMER_EVENT: Pending.Mask := {8}

  /** The cached keys are the watchers' keys. */
  ghost predicate Cached(h: seq<Entry>, n: nat, ws: Timers)
    requires Fits(h, n)
  {
    forall i :: HEAP0 <= i < HEAP0 + n ==> h[i].w in ws && ws[h[i].w].at == h[i].at
  }

  class Loop {
    var timers: array<Entry>
    var timercnt: nat
    var ws: Timers
    var queues: Pending.Queues
    var rfeeds: seq<Id>
    var now: real

    /** What `verify_heap` asserts, and that the active timers are exactly those
        on the heap. */
    ghost predicate Valid()
      reads this, timers
    {
      && Fits(timers[..], timercnt)
      && IsHeap(timers[..], timercnt)
      && Indexed(timers[..], timercnt, ws)
      && Cached(timers[..], timercnt, ws)
      && Pending.Valid(queues) && queues.pri.Keys == ws.Keys
      && RepeatsFit(ws)
    }

    constructor (pri: map<Id, nat>, ws: Timers, now: real)
      requires (forall w <- pri :: pri[w] < Pending.NUMPRI) && pri.Keys == ws.Keys && RepeatsFit(ws)
      requires forall w <- ws :: ws[w].active == 0
      ensures Valid() && fresh(timers) && this.ws == ws && this.now == now
      ensures queues == Pending.Empty(pri) && rfeeds == []
    {
      // the slots in front of the root are never used
      timers := new Entry[HEAP0](_ => Entry(0.0, 0));
      timercnt, this.ws, this.now, rfeeds := 0, ws, now, [];
      queues := Pending.Empty(pri);
      new;
    }

    method UpHeap(ghost n: nat, k: nat, ghost x: Id)
      requires Fits(timers[..], n) && InHeap(k, n) && Tracks(timers[..], n, ws, k, x)
      requires timers[k].w in ws && ws[timers[k].w].active != 0
      modifies this`ws, timers
      ensures timers[..] == Up(old(timers[..]), k)
      ensures SameButSlots(old(ws), ws) && IndexedBut(timers[..], n, ws, x)
      ensures x == old(timers[k].w) ==> Indexed(timers[..], n, ws)
      ensures x in ws && x != old(timers[k].w) ==> ws[x] == old(ws[x])
    {
      hide Tracks, Indexed, IndexedBut, Up, SameButSlots, SetActive;
      ghost var h0, ws0 := timers[..], ws;
      var he, j := timers[k], k;
      SameSlots(ws0);
      assert timers[..][k := he] == h0;
      while true
        invariant InHeap(j, n) && Fits(timers[..], n)
        invariant Up(h0, k) == Up(timers[..][j := he], j)
        invariant Tracks(timers[..][j := he], n, ws, j, x)
        invariant ws.Keys == ws0.Keys && SameButSlots(ws0, ws)
        invariant x in ws0 && x != he.w ==> ws[x] == ws0[x]
        decreases j
      {
        var p := Parent(j);
        ghost var g := timers[..][j := he];
        UpStep(g, j);
        if p == j || timers[p].at <= he.at { break; }
        TracksSwap(g, n, ws, j, p, x);
        TracksKnows(g, n, ws, j, p, x);
        MoveKeeps(ws0, ws, timers[p].w, j, x);
        timers[j] := timers[p];
        ws := SetActive(ws, timers[j].w, j);
        assert timers[..][p := he] == Swap(g, j, p);
        j := p;
      }
      ghost var g := timers[..][j := he];
      TracksSettles(g, n, ws, j, x);
      TracksHead(g, n, ws, j, x);
      MoveKeeps(ws0, ws, he.w, j, x);
      timers[j] := he;
      ws := SetActive(ws, he.w, j);
      assert timers[..] == g;
    }

    /** The scan for the smallest child, with its unchecked fast path for four
        children and its checked slow path. */
    method FindMinChild(n: nat, k: nat) returns (m: nat)
      requires Fits(timers[..], n) && InHeap(k, n) && FirstChild(k) < HEAP0 + n
      ensures m == MinChild(timers[..], n, k)
    {
      var pos, e := FirstChild(k), HEAP0 + n;
      m := pos;
      var minat := timers[m].at;
      if pos + DHEAP - 1 < e {
        if timers[pos + 1].at < minat { m, minat := pos + 1, timers[pos + 1].at; }
        if timers[pos + 2].at < minat { m, minat := pos + 2, timers[pos + 2].at; }
        if timers[pos + 3].at < minat { m, minat := pos + 3, timers[pos + 3].at; }
      } else {
        if pos + 1 < e && timers[pos + 1].at < minat { m, minat := pos + 1, timers[pos + 1].at; }
        if pos + 2 < e && timers[pos + 2].at < minat { m, minat := pos + 2, timers[pos + 2].at; }
        // where the source tests a fourth child too, there is none
        assert pos + 3 >= e;
      }
    }

    method DownHeap(n: nat, k: nat, ghost x: Id)
      requires Fits(timers[..], n) && InHeap(k, n) && Tracks(timers[..], n, ws, k, x)
      requires timers[k].w in ws && ws[timers[k].w].active != 0
      modifies this`ws, timers
      ensures timers[..] == Down(old(timers[..]), n, k)
      ensures SameButSlots(old(ws), ws) && IndexedBut(timers[..], n, ws, x)
      ensures x == old(timers[k].w) ==> Indexed(timers[..], n, ws)
      ensures x in ws && x != old(timers[k].w) ==> ws[x] == old(ws[x])
    {
      hide Tracks, Indexed, IndexedBut, MinChild, FirstChild, Down, SameButSlots, SetActive;
      ghost var h0, ws0 := timers[..], ws;
      var he, j := timers[k], k;
      SameSlots(ws0);
      assert timers[..][k := he] == h0;
      while FirstChild(j) < HEAP0 + n
        invariant InHeap(j, n) && Fits(timers[..], n)
        invariant Down(h0, n, k) == Down(timers[..][j := he], n, j)
        invariant Tracks(timers[..][j := he], n, ws, j, x)
        invariant ws.Keys == ws0.Keys && SameButSlots(ws0, ws)
        invariant x in ws0 && x != he.w ==> ws[x] == ws0[x]
        decreases HEAP0 + n - j
      {
        var m := FindMinChild(n, j);
        ghost var g := timers[..][j := he];
        MinChildIgnores(timers[..], n, j, he);
        DownStep(g, n, j);
        if he.at <= timers[m].at { break; }
        TracksSwap(g, n, ws, j, m, x);
        TracksKnows(g, n, ws, j, m, x);
        MoveKeeps(ws0, ws, timers[m].w, j, x);
        timers[j] := timers[m];
        ws := SetActive(ws, timers[m].w, j);
        assert timers[..][m := he] == Swap(g, j, m);
        j := m;
      }
      ghost var g := timers[..][j := he];
      DownStep(g, n, j);
      TracksSettles(g, n, ws, j, x);
      TracksHead(g, n, ws, j, x);
      MoveKeeps(ws0, ws, he.w, j, x);
      timers[j] := he;
      ws := SetActive(ws, he.w, j);
      assert timers[..] == g;
    }

    method AdjustHeap(n: nat, k: nat, ghost x: Id)
      requires Fits(timers[..], n) && InHeap(k, n) && Tracks(timers[..], n, ws, k, x)
      requires timers[k].w in ws && ws[timers[k].w].active != 0
      modifies this`ws, timers
      ensures timers[..] == Adjust(old(timers[..]), n, k) && Shuffled(old(timers[..]), timers[..], n)
      ensures SameButSlots(old(ws), ws) && IndexedBut(timers[..], n, ws, x)
      ensures x == old(timers[k].w) ==> Indexed(timers[..], n, ws)
      ensures x in ws && x != old(timers[k].w) ==> ws[x] == old(ws[x])
    {
      hide Tracks, Indexed, IndexedBut, Up, Down, Shuffled;
      AdjustShuffles(timers[..], n, k);
      if k > HEAP0 && timers[k].at <= timers[Parent(k)].at {
        UpHeap(n, k, x);
      } else {
        DownHeap(n, k, x);
      }
    }

    /** `array_needsize`: room for slot `k`, old contents kept. */
    method NeedSize(k: nat)
      modifies this`timers
      ensures timers == old(timers) || fresh(timers)
      ensures timers.Length > k && old(timers.Length) <= timers.Length
      ensures timers[..old(timers.Length)] == old(timers[..])
    {
      if timers.Length <= k {
        var bigger := new Entry[k + 1 + timers.Length](_ => Entry(0.0, 0));
        forall i | 0 <= i < timers.Length { bigger[i] := timers[i]; }
        timers := bigger;
      }
    }

    /** `ev_timer_start`: an inactive timer becomes active, its relative time
        counted from now. */
    method TimerStart(w: Id)
      requires Valid() && w in ws
      modifies this`timers, this`timercnt, this`ws, timers
      ensures Valid() && (timers == old(timers) || fresh(timers))
      ensures View(ws) == Started(old(View(ws)), w, now)
    {
      hide Up, Tracks, Indexed, IsHeap, Cached, IndexedBut, HeapAbove, AllHeap, KeyOf, SameButSlots, View, Started, RepeatsFit, Pending.Valid;
      if ws[w].active != 0 { AlreadyStarted(ws, w, now); return; }
      ghost var h0, n, ws0 := timers[..], timercnt, ws;
      var t := ws[w].at + now;
      timercnt := timercnt + 1;
      var k := timercnt + HEAP0 - 1;
      ws := ws[w := ws[w].(at := t, active := k)];
      NeedSize(k);
      timers[k] := Entry(t, w);
      ghost var h1, ws1 := timers[..], ws;
      assert forall i :: 0 <= i < HEAP0 + n ==> h1[i] == h0[i];
      StartFacts(h0, n, ws0, w, t, h1);
      UpHeaps(h1, n + 1, k);
      UpAll(h1, n + 1, k, KeyOf(ws1));
      UpHeap(timercnt, k, w);
      CachedAfter(timers[..], timercnt, ws1, ws);
      StartResult(ws0, w, now, k, ws);
    }

    /** The part of `ev_timer_stop` behind the activity test: the last element
        fills the slot and is sifted into place. */
    method Remove(w: Id)
      requires Valid() && w in ws && ws[w].active != 0
      modifies this`timercnt, this`ws, timers
      ensures Valid()
      ensures View(ws) == Stopped(old(View(ws)), w, now)
    {
      hide Adjust, Tracks, Indexed, IsHeap, Cached, IndexedBut, HeapAround, SameButSlots, View, RepeatsFit,
           AllHeap, KeyOf, NotOf, Pending.Valid;
      ghost var h0, ws0 := timers[..], ws;
      ViewAt(ws, w);
      var slot := ws[w].active;
      StopFacts(h0, timercnt, ws0, w);
      timercnt := timercnt - 1;
      if slot < timercnt + HEAP0 {
        timers[slot] := timers[timercnt + HEAP0];
        ghost var h1 := timers[..];
        assert h1 == h0[slot := h0[timercnt + HEAP0]];
        AdjustHeaps(h1, timercnt, slot);
        AdjustAll(h1, timercnt, slot, KeyOf(ws0));
        AdjustAll(h1, timercnt, slot, NotOf(w));
        AdjustHeap(timercnt, slot, w);
      } else {
        SameSlots(ws0);
      }
      StopSettles(timers[..], timercnt, ws0, ws, w, now);
      ws := ws[w := ws[w].(at := ws[w].at - now, active := 0)];
    }

    /** `ev_timer_stop`. A pending event of the timer is dropped in any case. */
    method TimerStop(w: Id)
      requires Valid() && w in ws
      modifies this`timercnt, this`ws, this`queues, timers
      ensures Valid()
      ensures View(ws) == Stopped(old(View(ws)), w, now)
      ensures Pending.Known(old(queues), w) && old(queues).pending[w] <= |old(queues).slots[old(queues).pri[w]]|
      ensures queues == Pending.Clear(old(queues), w)
    {
      hide Adjust, Tracks, Indexed, IsHeap, Cached, IndexedBut, SameButSlots, View, RepeatsFit, Pending.Valid;
      ViewAt(ws, w);
      Pending.InRange(queues, w);
      Pending.ClearValid(queues, w);
      queues := Pending.Clear(queues, w);
      if ws[w].active == 0 { return; }
      Remove(w);
    }

    /** `ev_timer_again`: a repeating timer is due one interval from now, whether
        it was active or not; any other is stopped. */
    method TimerAgain(w: Id)
      requires Valid() && w in ws
      modifies this`timers, this`timercnt, this`ws, this`queues, timers
      ensures Valid() && (timers == old(timers) || fresh(timers))
      ensures View(ws) == Restarted(old(View(ws)), w, now)
      ensures Pending.Known(old(queues), w) && old(queues).pending[w] <= |old(queues).slots[old(queues).pri[w]]|
      ensures queues == Pending.Clear(old(queues), w)
    {
      hide Adjust, Tracks, Indexed, IsHeap, Cached, IndexedBut, HeapAround, SameButSlots, View, RepeatsFit,
           AllHeap, KeyOf, Pending.Valid, Started, Stopped, Restarted;
      Pending.InRange(queues, w);
      Pending.ClearValid(queues, w);
      queues := Pending.Clear(queues, w);
      ghost var h0, ws0 := timers[..], ws;
      RestartMeans(ws0, w, now);
      if ws[w].active != 0 {
        if ws[w].repeat != 0.0 {
          var t, slot := now + ws[w].repeat, ws[w].active;
          AgainFacts(h0, timercnt, ws0, w, t);
          ws := ws[w := ws[w].(at := t)];
          ghost var ws1 := ws;
          timers[slot] := Entry(t, w);
          ghost var h1 := timers[..];
          assert h1 == h0[slot := Entry(t, w)];
          AdjustHeaps(h1, timercnt, slot);
          AdjustAll(h1, timercnt, slot, KeyOf(ws1));
          AdjustHeap(timercnt, slot, w);
          CachedAfter(timers[..], timercnt, ws1, ws);
          AgainResult(ws0, w, t, ws);
        } else {
          Remove(w);
        }
      } else if ws[w].repeat != 0.0 {
        InactiveChange(h0, timercnt, ws0, w, ws[w].repeat);
        ws := ws[w := ws[w].(at := ws[w].repeat)];
        TimerStart(w);
      }
    }

    /** `timers_reschedule`: every expiry is shifted, so the heap stays one. */
    method TimersReschedule(adjust: real)
      requires Valid()
      modifies this`ws, timers
      ensures Valid() && View(ws) == Shifted(old(View(ws)), adjust)
    {
      hide Indexed, IsHeap, Cached, View, Shifted, RepeatsFit, Pending.Valid, ShiftedTo;
      ghost var h0, ws0 := timers[..], ws;
      ShiftStart(h0, timercnt, ws0, adjust);
      var i := 0;
      while i < timercnt
        invariant 0 <= i <= timercnt && Fits(timers[..], timercnt)
        invariant ShiftedTo(h0, timercnt, ws0, adjust, i, timers[..], ws)
      {
        ghost var h := timers[..];
        ShiftStep(h0, timercnt, ws0, adjust, i, h, ws);
        var w := timers[i + HEAP0].w;
        ws := ws[w := ws[w].(at := ws[w].at + adjust)];
        timers[i + HEAP0] := Entry(ws[w].at, w);
        assert timers[..] == h[i + HEAP0 := Entry(ws[w].at, w)];
        i := i + 1;
      }
      ShiftEnd(h0, timercnt, ws0, adjust, timers[..], ws);
    }

    /** One round of the loop of `timers_reify`: the root goes off. */
    method ExpireRoot() returns (w: Id)
      requires Valid() && timercnt > 0 && timers[HEAP0].at < now
      modifies this`timercnt, this`ws, this`queues, timers
      ensures Valid() && w in old(ws) && w in old(View(ws)) && Overdue(old(View(ws)), w, now)
      ensures Least(Expiries(old(View(ws))), w)
      ensures View(ws) == old(View(ws))[w := GoneOff(old(View(ws))[w], now)]
      ensures Pending.Known(old(queues), w) && old(queues).pending[w] <= |old(queues).slots[old(queues).pri[w]]|
      ensures queues == if old(View(ws))[w].repeat != 0.0 then old(queues) else Pending.Clear(old(queues), w)
    {
      hide Adjust, Tracks, Indexed, IsHeap, Cached, IndexedBut, HeapAround, SameButSlots, View, RepeatsFit,
           AllHeap, KeyOf, Pending.Valid, Expiries, Least, Overdue;
      ghost var h0, n, ws0 := timers[..], timercnt, ws;
      w := timers[HEAP0].w;
      RootFacts(h0, n, ws0, now);
      ViewAt(ws, w);
      Pending.InRange(queues, w);
      if ws[w].repeat != 0.0 {
        var t := NextExpiry(ws[w], now);
        AgainFacts(h0, n, ws0, w, t);
        ws := ws[w := ws[w].(at := t)];
        ghost var ws1 := ws;
        timers[HEAP0] := Entry(t, w);
        ghost var h1 := timers[..];
        assert h1 == h0[HEAP0 := Entry(t, w)];
        AdjustHeaps(h1, n, HEAP0);
        AdjustAll(h1, n, HEAP0, KeyOf(ws1));
        AdjustRoot(h1, n);
        DownHeap(timercnt, HEAP0, w);
        CachedAfter(timers[..], timercnt, ws1, ws);
        AgainResult(ws0, w, t, ws);
      } else {
        TimerStop(w);
      }
    }

    /** `feed_reverse_done`. */
    method FeedReverseDone(m: Pending.Mask)
      requires ReverseFeed.Fits(queues, rfeeds)
      modifies this`rfeeds, this`queues
      ensures rfeeds == [] && queues == ReverseFeed.FeedBack(old(queues), old(rfeeds), m)
    {
      hide Pending.Valid;
      while rfeeds != []
        invariant ReverseFeed.Fits(queues, rfeeds)
        invariant ReverseFeed.FeedBack(queues, rfeeds, m) == ReverseFeed.FeedBack(old(queues), old(rfeeds), m)
        decreases |rfeeds|
      {
        var n := |rfeeds| - 1;
        var w := rfeeds[n];
        Pending.InRange(queues, w);
        Pending.FeedValid(queues, w, m);
        rfeeds := rfeeds[..n];
        queues := Pending.Feed(queues, w, m);
      }
    }

    /** `timers_reify`: the overdue timers go off, each once and in order of expiry;
        afterwards none is overdue. A timer that does not repeat loses what was
        pending for it before it is fed. */
    method TimersReify() returns (ghost fired: seq<Id>)
      requires Valid() && rfeeds == []
      modifies this`timercnt, this`ws, this`queues, this`rfeeds, timers
      ensures Valid() && rfeeds == [] && queues.pri == old(queues).pri
      ensures View(ws) == Expired(old(View(ws)), now)
      ensures forall w :: w in fired <==> Overdue(old(View(ws)), w, now)
      ensures Distinct(fired) && ReverseFeed.Sorted(Expiries(old(View(ws))), fired)
      ensures forall w <- old(View(ws)) :: Pending.Queued(queues, w) == AfterExpiry(old(queues), old(View(ws)), fired, w)
      ensures ReverseFeed.Idle(old(queues)) ==>
        ReverseFeed.Fits(old(queues), fired) && queues == ReverseFeed.FeedBack(old(queues), fired, TIMER_EVENT)
    {
      hide Indexed, IsHeap, Cached, Expiries, RepeatsFit, Pending.Valid, Expired, Least, Overdue, Reifying,
           Pending.Queued, ReverseFeed.FeedBack, View;
      ghost var v0, q0 := View(ws), queues;
      ViewRepeats(ws);
      ReifyStart(v0, now);
      while timercnt > 0 && timers[HEAP0].at < now
        invariant Valid() && Reifying(v0, now, rfeeds, View(ws)) && Dropped(q0, v0, rfeeds, queues)
        decreases v0.Keys - set w | w in rfeeds
      {
        ghost var v, q, done := View(ws), queues, rfeeds;
        var w := ExpireRoot();
        ReifyStep(v0, now, done, v, w);
        DroppedStep(q0, v0, done, q, w, queues);
        assert w in v0.Keys - set x | x in done;
        rfeeds := rfeeds + [w];
      }
      fired := rfeeds;
      NoneOverdue(timers[..], timercnt, ws, now);
      ReifyEnd(v0, now, fired, View(ws));
      FeedsTimers(q0, v0, fired, queues);
      ReverseFeed.FeedBackNone(queues, TIMER_EVENT);
      if rfeeds != [] {
        FeedReverseDone(TIMER_EVENT);
      }
    }

    /** `ev_invoke_pending`, with callbacks that leave the queues alone. */
    method InvokePending() returns (ran: seq<Id>)
      requires Pending.Valid(queues)
      modifies this`queues
      ensures ran == ReverseFeed.InvokeOrder(old(queues).slots, Pending.NUMPRI)
      ensures Pending.Valid(queues) && ReverseFeed.Idle(queues) && queues.pri == old(queues).pri
    {
      hide Pending.Valid, ReverseFeed.InvokeOrder;
      Pending.RowCount(queues);
      ghost var all := ReverseFeed.InvokeOrder(queues.slots, Pending.NUMPRI);
      ran := [];
      var p: nat := Pending.NUMPRI;
      assert [] + all == all;
      while p > 0
        invariant p <= |queues.slots| == Pending.NUMPRI && Pending.Valid(queues) && queues.pri == old(queues).pri
        invariant forall k :: p <= k < Pending.NUMPRI ==> queues.slots[k] == []
        invariant ran + ReverseFeed.InvokeOrder(queues.slots, p) == all
      {
        p := p - 1;
        while queues.slots[p] != []
          invariant p < |queues.slots| == Pending.NUMPRI && Pending.Valid(queues) && queues.pri == old(queues).pri
          invariant forall k :: p < k < Pending.NUMPRI ==> queues.slots[k] == []
          invariant ran + ReverseFeed.InvokeOrder(queues.slots, p + 1) == all
          decreases |queues.slots[p]|
        {
          Pending.PopValid(queues, p);
          ReverseFeed.PopOrder(queues, p);
          var last := queues.slots[p][|queues.slots[p]| - 1];
          queues := Pending.Pop(queues, p);
          ghost var rest := ReverseFeed.InvokeOrder(queues.slots, p + 1);
          if last.w.Some? {
            assert ran + ([last.w.value] + rest) == (ran + [last.w.value]) + rest;
            ran := ran + [last.w.value];
          } else {
            assert [] + rest == rest;
          }
        }
        ReverseFeed.OrderSkips(queues.slots, p);
      }
      ReverseFeed.OrderNone(queues.slots);
      assert ran + [] == ran;
    }

    /** The end of a round of `ev_run` with nothing else pending: every overdue
        timer's callback runs exactly once, by priority and then by expiry. */
    method ExpireAndInvoke() returns (ran: seq<Id>)
      requires Valid() && rfeeds == [] && ReverseFeed.Idle(queues)
      modifies this`timercnt, this`ws, this`queues, this`rfeeds, timers
      ensures Valid() && rfeeds == [] && ReverseFeed.Idle(queues)
      ensures View(ws) == Expired(old(View(ws)), now)
      ensures ReverseFeed.RunsInOrder(old(queues).pri, Expiries(old(View(ws))), ran)
      ensures forall w: Id :: multiset(ran)[w] == if Overdue(old(View(ws)), w, now) then 1 else 0
    {
      hide Indexed, IsHeap, Cached, Expiries, RepeatsFit, Pending.Valid, Expired, Overdue, Pending.Queued,
           ReverseFeed.FeedBack, View, ReverseFeed.InvokeOrder, ReverseFeed.RunsInOrder, ReverseFeed.Sorted, ReverseFeed.Idle;
      ghost var key, q0 := Expiries(View(ws)), queues;
      ghost var fired := TimersReify();
      ReverseFeed.FeedBackOrder(q0, key, fired, TIMER_EVENT);
      ran := InvokePending();
      ReverseFeed.DistinctCounts(fired);
    }

    /** A heap from any array of active watchers, by sifting each one up. */
    method Reheap()
      requires Fits(timers[..], timercnt) && Indexed(timers[..], timercnt, ws) && Cached(timers[..], timercnt, ws)
      modifies this`ws, timers
      ensures Shuffled(old(timers[..]), timers[..], timercnt)
      ensures IsHeap(timers[..], timercnt) && Indexed(timers[..], timercnt, ws) && Cached(timers[..], timercnt, ws)
      ensures SameButSlots(old(ws), ws)
    {
      hide Up, Indexed, Tracks, IndexedBut;
      ghost var h0, ws0 := timers[..], ws;
      var i := 0;
      while i < timercnt
        invariant i <= timercnt && Fits(timers[..], timercnt)
        invariant IsHeap(timers[..], i) && Indexed(timers[..], timercnt, ws) && Cached(timers[..], timercnt, ws)
        invariant SameButSlots(ws0, ws) && Shuffled(h0, timers[..], timercnt)
      {
        ghost var h, k, us := timers[..], i + HEAP0, ws;
        IndexedTracks(h, timercnt, ws, k);
        IndexedAt(h, timercnt, ws, k);
        NewLeaf(h, i);
        UpHeaps(h, i + 1, k);
        UpShuffles(h, timercnt, k);
        UpAll(h, timercnt, k, KeyOf(us));
        UpHeap(timercnt, i + HEAP0, h[k].w);
        CachedAfter(timers[..], timercnt, us, ws);
        i := i + 1;
      }
    }
  }

  lemma ViewAt(ws: Timers, w: Id)
    requires w in ws
    ensures View(ws).Keys == ws.Keys && View(ws)[w] == ws[w].(active := if ws[w].active != 0 then 1 else 0)
  {
  }

  /** The first `i` elements are shifted, as are their watchers. */
  ghost predicate ShiftedTo(h0: seq<Entry>, n: nat, ws0: Timers, adjust: real, i: nat, h: seq<Entry>, ws: Timers)
    requires Fits(h0, n) && i <= n
  {
    && |h| == |h0| && ws.Keys == ws0.Keys
    && (forall k :: HEAP0 <= k < HEAP0 + n ==> h[k] == h0[k].(at := h0[k].at + if k < HEAP0 + i then adjust else 0.0))
    && forall w <- ws0 ::
         ws[w] == ws0[w].(at := ws0[w].at + if ws0[w].active != 0 && ws0[w].active < HEAP0 + i then adjust else 0.0)
  }

  lemma ShiftStart(h: seq<Entry>, n: nat, ws: Timers, adjust: real)
    requires Fits(h, n) && Indexed(h, n, ws)
    ensures ShiftedTo(h, n, ws, adjust, 0, h, ws)
  {
  }

  lemma ShiftStep(h0: seq<Entry>, n: nat, ws0: Timers, adjust: real, i: nat, h: seq<Entry>, ws: Timers)
    requires Fits(h0, n) && Fits(h, n) && i < n && Indexed(h0, n, ws0) && Cached(h0, n, ws0)
    requires ShiftedTo(h0, n, ws0, adjust, i, h, ws)
    ensures h[HEAP0 + i].w in ws
    ensures var w := h[HEAP0 + i].w; var t := ws[w].at + adjust;
      ShiftedTo(h0, n, ws0, adjust, i + 1, h[HEAP0 + i := Entry(t, w)], ws[w := ws[w].(at := t)])
  {
    var w := h[HEAP0 + i].w;
    assert h0[HEAP0 + i].w == w && ws0[w].active == HEAP0 + i && ws0[w].at == h0[HEAP0 + i].at;
  }

  lemma ShiftEnd(h0: seq<Entry>, n: nat, ws0: Timers, adjust: real, h: seq<Entry>, ws: Timers)
    requires Fits(h0, n) && Fits(h, n) && Indexed(h0, n, ws0) && Cached(h0, n, ws0) && IsHeap(h0, n) && RepeatsFit(ws0)
    requires ShiftedTo(h0, n, ws0, adjust, n, h, ws)
    ensures Indexed(h, n, ws) && Cached(h, n, ws) && IsHeap(h, n) && RepeatsFit(ws) && ws.Keys == ws0.Keys
    ensures View(ws) == Shifted(View(ws0), adjust)
  {
    forall k | HEAP0 < k < HEAP0 + n ensures Ordered(h, k) { assert Ordered(h0, k); }
  }

  lemma RootFacts(h: seq<Entry>, n: nat, ws: Timers, now: real)
    requires Fits(h, n) && n > 0 && Indexed(h, n, ws) && Cached(h, n, ws) && IsHeap(h, n) && h[HEAP0].at < now
    ensures var w := h[HEAP0].w;
      w in ws && ws[w].active == HEAP0 && Overdue(View(ws), w, now) && Least(Expiries(View(ws)), w)
  {
    var w, key := h[HEAP0].w, Expiries(View(ws));
    forall x: Id | x in key ensures key[w] <= key[x] { RootIsLeast(h, n, ws[x].active); }
  }

  lemma NoneOverdue(h: seq<Entry>, n: nat, ws: Timers, now: real)
    requires Fits(h, n) && Indexed(h, n, ws) && Cached(h, n, ws) && IsHeap(h, n) && (n > 0 ==> h[HEAP0].at >= now)
    ensures forall w :: !Overdue(View(ws), w, now)
  {
    forall w: Id ensures !Overdue(View(ws), w, now) {
      if w in ws && ws[w].active != 0 { RootIsLeast(h, n, ws[w].active); }
    }
  }

  /** At the root, adjusting is sifting down. */
  lemma AdjustRoot(h: seq<Entry>, n: nat)
    requires Fits(h, n) && n > 0
    ensures Adjust(h, n, HEAP0) == Down(h, n, HEAP0)
  {
  }

  /** What the loop of `timers_reify` does to the queues: timers that do not repeat
      lose their pending event. */
  ghost predicate Dropped(q0: Pending.Queues, ws0: Timers, fired: seq<Id>, q: Pending.Queues) {
    && Pending.Valid(q) && q.pri == q0.pri && q.pri.Keys == ws0.Keys
    && (forall w <- fired :: w in ws0)
    && (ReverseFeed.Idle(q0) ==> q == q0)
    && forall w <- ws0 :: Pending.Queued(q, w) ==
         if w in fired && ws0[w].repeat == 0.0 then None else Pending.Queued(q0, w)
  }

  lemma DroppedStep(q0: Pending.Queues, ws0: Timers, fired: seq<Id>, q: Pending.Queues, w: Id, q': Pending.Queues)
    requires Dropped(q0, ws0, fired, q) && w in ws0 && w !in fired
    requires Pending.Known(q, w) && q.pending[w] <= |q.slots[q.pri[w]]|
    requires q' == if ws0[w].repeat != 0.0 then q else Pending.Clear(q, w)
    ensures Dropped(q0, ws0, fired + [w], q')
  {
    hide Pending.Queued, Pending.Valid;
    if ws0[w].repeat == 0.0 {
      Pending.ClearValid(q, w);
      forall x: Id ensures Pending.Queued(q', x) == if x != w then Pending.Queued(q, x) else None {
        Pending.ClearQueued(q, w, x);
      }
    }
  }

  /** What is queued for a watcher once the timers of `fired` have been fed. */
  ghost function AfterExpiry(q: Pending.Queues, ws: Timers, fired: seq<Id>, w: Id): Option<Pending.Mask>
    requires w in ws
  {
    if w !in fired then Pending.Queued(q, w)
    else Some(Pending.Joined(if ws[w].repeat != 0.0 then Pending.Queued(q, w) else None, TIMER_EVENT))
  }

  lemma FeedsTimers(q0: Pending.Queues, ws0: Timers, fired: seq<Id>, q: Pending.Queues)
    requires Dropped(q0, ws0, fired, q)
    ensures ReverseFeed.Fits(q, fired)
    ensures var q' := ReverseFeed.FeedBack(q, fired, TIMER_EVENT);
      && Pending.Valid(q') && q'.pri == q0.pri
      && forall w <- ws0 :: Pending.Queued(q', w) == AfterExpiry(q0, ws0, fired, w)
  {
    hide Pending.Queued, Pending.Valid, ReverseFeed.FeedBack;
    forall w: Id ensures Pending.Queued(ReverseFeed.FeedBack(q, fired, TIMER_EVENT), w) ==
      if w in fired then Some(Pending.Joined(Pending.Queued(q, w), TIMER_EVENT)) else Pending.Queued(q, w) {
      ReverseFeed.FeedBackQueued(q, fired, TIMER_EVENT, w);
    }
  }

  lemma IndexedAt(h: seq<Entry>, n: nat, ws: Timers, k: nat)
    requires Fits(h, n) && InHeap(k, n) && Indexed(h, n, ws)
    ensures h[k].w in ws && ws[h[k].w].active == k
  {
  }

  /** The element carries the key of its watcher. */
  ghost function KeyOf(ws: Timers): Entry -> bool {
    (e: Entry) => e.w in ws && ws[e.w].at == e.at
  }

  lemma CachedAfter(g: seq<Entry>, n: nat, ws: Timers, ws': Timers)
    requires Fits(g, n) && AllHeap(g, n, KeyOf(ws)) && SameButSlots(ws, ws')
    ensures Cached(g, n, ws')
  {
    forall i | HEAP0 <= i < HEAP0 + n ensures g[i].w in ws' && ws'[g[i].w].at == g[i].at {
      assert KeyOf(ws)(g[i]);
    }
  }

  lemma AlreadyStarted(ws: Timers, w: Id, now: real)
    requires w in ws && ws[w].active != 0
    ensures w in View(ws) && View(ws) == Started(View(ws), w, now)
  {
  }

  lemma StartResult(ws0: Timers, w: Id, now: real, k: nat, ws: Timers)
    requires w in ws0 && ws0[w].active == 0 && k > 0 && RepeatsFit(ws0)
    requires SameButSlots(ws0[w := ws0[w].(at := ws0[w].at + now, active := k)], ws)
    ensures w in View(ws0) && View(ws) == Started(View(ws0), w, now) && RepeatsFit(ws) && ws.Keys == ws0.Keys
  {
    var ws1 := ws0[w := ws0[w].(at := ws0[w].at + now, active := k)];
    assert forall x <- ws0 :: x in ws1 && x in ws;
  }

  /** The element is of another watcher. */
  ghost function NotOf(w: Id): Entry -> bool {
    (e: Entry) => e.w != w
  }

  lemma SameSlots(ws: Timers)
    ensures SameButSlots(ws, ws)
  {
  }

  /** Moving an active timer to another slot. */
  lemma MoveKeeps(ws0: Timers, ws: Timers, w: Id, k: nat, x: Id)
    requires SameButSlots(ws0, ws) && w in ws && k > 0 && (ws[w].active != 0 || (w in ws0 && ws0[w].active != 0))
    ensures SameButSlots(ws0, SetActive(ws, w, k))
    ensures x in ws && x != w ==> x in SetActive(ws, w, k) && SetActive(ws, w, k)[x] == ws[x]
    ensures ws.Keys == ws0.Keys
  {
  }

  /** The last element in the slot of a stopped timer. */
  lemma StopFacts(h: seq<Entry>, n: nat, ws: Timers, w: Id)
    requires Fits(h, n) && Indexed(h, n, ws) && Cached(h, n, ws) && IsHeap(h, n) && w in ws && ws[w].active != 0
    ensures n > 0 && InHeap(ws[w].active, n) && h[ws[w].active].w == w
    ensures var slot, last := ws[w].active, HEAP0 + n - 1;
      if slot < last then
        var h1 := h[slot := h[last]];
        && Tracks(h1, n - 1, ws, slot, w) && HeapAround(h1, n - 1, slot)
        && AllHeap(h1, n - 1, KeyOf(ws)) && AllHeap(h1, n - 1, NotOf(w))
        && h[last].w in ws && ws[h[last].w].active != 0
      else
        && IndexedBut(h, n - 1, ws, w) && IsHeap(h, n - 1)
        && AllHeap(h, n - 1, KeyOf(ws)) && AllHeap(h, n - 1, NotOf(w))
  {
    var slot, last := ws[w].active, HEAP0 + n - 1;
    if slot < last {
      assert IsHeap(h, n - 1);
      ReplaceLeavesAround(h, n - 1, slot, h[last]);
    }
  }

  lemma StopSettles(h: seq<Entry>, n: nat, ws0: Timers, ws: Timers, w: Id, now: real)
    requires Fits(h, n) && w in ws0 && ws0[w].active != 0 && SameButSlots(ws0, ws) && IndexedBut(h, n, ws, w)
    requires AllHeap(h, n, KeyOf(ws0)) && AllHeap(h, n, NotOf(w)) && RepeatsFit(ws0)
    ensures w in ws
    ensures var ws' := ws[w := ws[w].(at := ws[w].at - now, active := 0)];
      && Indexed(h, n, ws') && Cached(h, n, ws') && RepeatsFit(ws') && ws'.Keys == ws0.Keys
      && View(ws') == View(ws0)[w := ws0[w].(at := ws0[w].at - now, active := 0)]
  {
    forall i | HEAP0 <= i < HEAP0 + n ensures h[i].w != w && h[i].w in ws0 && ws0[h[i].w].at == h[i].at {
      assert NotOf(w)(h[i]) && KeyOf(ws0)(h[i]);
    }
  }

  /** A new key for an active timer. */
  lemma AgainFacts(h: seq<Entry>, n: nat, ws: Timers, w: Id, t: real)
    requires Fits(h, n) && Indexed(h, n, ws) && Cached(h, n, ws) && IsHeap(h, n) && w in ws && ws[w].active != 0
    ensures InHeap(ws[w].active, n) && h[ws[w].active].w == w
    ensures var slot, ws1 := ws[w].active, ws[w := ws[w].(at := t)]; var h1 := h[slot := Entry(t, w)];
      Tracks(h1, n, ws1, slot, w) && HeapAround(h1, n, slot) && AllHeap(h1, n, KeyOf(ws1))
  {
    ReplaceLeavesAround(h, n, ws[w].active, Entry(t, w));
  }

  /** The three ways to restart a timer that is not both active and repeating. */
  lemma RestartMeans(ws: Timers, w: Id, now: real)
    requires w in ws
    ensures w in View(ws)
    ensures ws[w].repeat == 0.0 ==> Restarted(View(ws), w, now) == Stopped(View(ws), w, now)
    ensures ws[w].repeat == 0.0 && ws[w].active == 0 ==> Restarted(View(ws), w, now) == View(ws)
    ensures ws[w].repeat != 0.0 && ws[w].active == 0 ==>
      var ws' := ws[w := ws[w].(at := ws[w].repeat)];
      w in View(ws') && Restarted(View(ws), w, now) == Started(View(ws'), w, now)
    ensures ws[w].repeat != 0.0 && ws[w].active != 0 ==>
      Restarted(View(ws), w, now) == View(ws)[w := ws[w].(at := now + ws[w].repeat, active := 1)]
  {
  }

  lemma AgainResult(ws0: Timers, w: Id, t: real, ws: Timers)
    requires w in ws0 && ws0[w].active != 0 && RepeatsFit(ws0) && SameButSlots(ws0[w := ws0[w].(at := t)], ws)
    ensures View(ws) == View(ws0)[w := ws0[w].(at := t, active := 1)] && RepeatsFit(ws) && ws.Keys == ws0.Keys
  {
    var ws1 := ws0[w := ws0[w].(at := t)];
    assert forall x <- ws0 :: x in ws1 && x in ws;
  }

  /** The time of an inactive timer concerns nobody. */
  lemma InactiveChange(h: seq<Entry>, n: nat, ws: Timers, w: Id, t: real)
    requires Fits(h, n) && Indexed(h, n, ws) && Cached(h, n, ws) && RepeatsFit(ws) && w in ws && ws[w].active == 0
    ensures var ws' := ws[w := ws[w].(at := t)];
      Indexed(h, n, ws') && Cached(h, n, ws') && RepeatsFit(ws') && ws'.Keys == ws.Keys
  {
  }

  /** A new timer in the slot behind the heap. */
  lemma StartFacts(h0: seq<Entry>, n: nat, ws0: Timers, w: Id, t: real, h1: seq<Entry>)
    requires Fits(h0, n) && Fits(h1, n + 1) && Indexed(h0, n, ws0) && Cached(h0, n, ws0) && IsHeap(h0, n)
    requires w in ws0 && ws0[w].active == 0
    requires forall i :: 0 <= i < HEAP0 + n ==> h1[i] == h0[i]
    requires h1[HEAP0 + n] == Entry(t, w)
    ensures var k := HEAP0 + n; var ws1 := ws0[w := ws0[w].(at := t, active := k)];
      && Tracks(h1, n + 1, ws1, k, w) && HeapAbove(h1, n + 1, k) && AllHeap(h1, n + 1, KeyOf(ws1))
  {
    forall i | HEAP0 < i < HEAP0 + n ensures Ordered(h1, i) { assert Ordered(h0, i); }
    NewLeaf(h1, n);
  }

  lemma NewLeaf(h: seq<Entry>, n: nat)
    requires Fits(h, n + 1) && IsHeap(h, n)
    ensures HeapAbove(h, n + 1, n + HEAP0)
  {
    forall i | HEAP0 < i < HEAP0 + n + 1 && i != n + HEAP0 ensures Ordered(h, i) {}
  }

  lemma UpStep(h: seq<Entry>, k: nat)
    requires HEAP0 <= k < |h|
    ensures Up(h, k) ==
      var p := Parent(k);
      if p == k || h[p].at <= h[k].at then h else Up(Swap(h, k, p), p)
  {
  }

  lemma DownStep(h: seq<Entry>, n: nat, k: nat)
    requires Fits(h, n) && InHeap(k, n)
    ensures Down(h, n, k) ==
      if FirstChild(k) >= HEAP0 + n then h
      else
        var m := MinChild(h, n, k);
        if h[k].at <= h[m].at then h else Down(Swap(h, k, m), n, m)
  {
  }

  lemma MinChildIgnores(h: seq<Entry>, n: nat, k: nat, e: Entry)
    requires Fits(h, n) && InHeap(k, n) && FirstChild(k) < HEAP0 + n
    ensures MinChild(h[k := e], n, k) == MinChild(h, n, k)
  {
  }

  lemma TracksKnows(h: seq<Entry>, n: nat, ws: Timers, k: nat, p: nat, x: Id)
    requires Fits(h, n) && InHeap(k, n) && InHeap(p, n) && p != k && Tracks(h, n, ws, k, x)
    ensures h[p].w in ws && h[p].w != x && ws[h[p].w].active == p
  {
  }

  lemma TracksHead(h: seq<Entry>, n: nat, ws: Timers, k: nat, x: Id)
    requires Fits(h, n) && InHeap(k, n) && Tracks(h, n, ws, k, x)
    ensures h[k].w in ws
  {
  }
}
