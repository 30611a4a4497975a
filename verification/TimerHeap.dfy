/** The 4-ary timer heap of libev: `upheap`, `downheap`, `adjustheap` and `reheap`
    on an array whose first element is at index 3. */
module TimerHeap {
  import opened Basics

  /** A heap element: the cached expiry time and the watcher. */
  datatype Entry = Entry(at: real, w: Id)

  const DHEAP: nat := 4
  const HEAP0: nat := 3

  /** C division truncates toward zero. */
  function TruncDiv(a: int, b: nat): int
    requires b > 0
  {
    if a >= 0 then a / b else -((-a) / b)
  }

  /** HPARENT; the root is its own parent. */
  function Parent(k: nat): (p: nat)
    requires k >= HEAP0
    ensures HEAP0 <= p <= k && (p == k <==> k == HEAP0)
  {
    TruncDiv(k - HEAP0 - 1, DHEAP) + HEAP0
  }

  /** Index of the first child. */
  function FirstChild(k: nat): (c: nat)
    requires k >= HEAP0
    ensures c > k
  {
    DHEAP * (k - HEAP0) + HEAP0 + 1
  }

  lemma ParentChild(k: nat, i: nat)
    requires k >= HEAP0 && i > HEAP0
    ensures Parent(i) == k <==> FirstChild(k) <= i < FirstChild(k) + DHEAP
  {
  }

  /** `h` has room for `n` elements from HEAP0 on. */
  predicate Fits(h: seq<Entry>, n: nat) {
    HEAP0 + n <= |h|
  }

  predicate InHeap(i: int, n: nat) {
    HEAP0 <= i < HEAP0 + n
  }

  predicate Ordered(h: seq<Entry>, i: nat)
    requires HEAP0 <= i < |h|
  {
    h[Parent(i)].at <= h[i].at
  }

  predicate IsHeap(h: seq<Entry>, n: nat)
    requires Fits(h, n)
  {
    forall i :: HEAP0 < i < HEAP0 + n ==> Ordered(h, i)
  }

  function Swap(h: seq<Entry>, i: nat, j: nat): (r: seq<Entry>)
    requires i < |h| && j < |h|
    ensures |r| == |h|
  {
    h[i := h[j]][j := h[i]]
  }

  // Towards the root.

  function Up(h: seq<Entry>, k: nat): (r: seq<Entry>)
    requires HEAP0 <= k < |h|
    ensures |r| == |h|
    decreases k
  {
    var p := Parent(k);
    if p == k || h[p].at <= h[k].at then h else Up(Swap(h, k, p), p)
  }

  // Away from the root.

  /** The leftmost smallest of the children that exist. */
  function MinChild(h: seq<Entry>, n: nat, k: nat): (m: nat)
    requires Fits(h, n) && InHeap(k, n) && FirstChild(k) < HEAP0 + n
    ensures FirstChild(k) <= m < FirstChild(k) + DHEAP && m < HEAP0 + n
    ensures forall i :: FirstChild(k) <= i < FirstChild(k) + DHEAP && i < HEAP0 + n ==> h[m].at <= h[i].at
  {
    var c, e := FirstChild(k), HEAP0 + n;
    var m0 := c;
    var m1 := if c + 1 < e && h[c + 1].at < h[m0].at then c + 1 else m0;
    var m2 := if c + 2 < e && h[c + 2].at < h[m1].at then c + 2 else m1;
    if c + 3 < e && h[c + 3].at < h[m2].at then c + 3 else m2
  }

  function Down(h: seq<Entry>, n: nat, k: nat): (r: seq<Entry>)
    requires Fits(h, n) && InHeap(k, n)
    ensures |r| == |h|
    decreases HEAP0 + n - k
  {
    if FirstChild(k) >= HEAP0 + n then h
    else
      var m := MinChild(h, n, k);
      if h[k].at <= h[m].at then h else Down(Swap(h, k, m), n, m)
  }

  function Adjust(h: seq<Entry>, n: nat, k: nat): (r: seq<Entry>)
    requires Fits(h, n) && InHeap(k, n)
    ensures |r| == |h|
  {
    if k > HEAP0 && h[k].at <= h[Parent(k)].at then Up(h, k) else Down(h, n, k)
  }

  // Heap order.

  /** Ordered everywhere but between `k` and its parent, and the children of `k`
      are also ordered with that parent. */
  predicate HeapAbove(h: seq<Entry>, n: nat, k: nat)
    requires Fits(h, n) && InHeap(k, n)
  {
    && (forall i :: HEAP0 < i < HEAP0 + n && i != k ==> Ordered(h, i))
    && (forall i :: HEAP0 < i < HEAP0 + n && Parent(i) == k ==> h[Parent(k)].at <= h[i].at)
  }

  /** Ordered everywhere but between `k` and its children, which are ordered with
      the parent of `k`. */
  predicate HeapBelow(h: seq<Entry>, n: nat, k: nat)
    requires Fits(h, n) && InHeap(k, n)
  {
    && (forall i :: HEAP0 < i < HEAP0 + n && Parent(i) != k ==> Ordered(h, i))
    && (forall i :: HEAP0 < i < HEAP0 + n && Parent(i) == k && k > HEAP0 ==> h[Parent(k)].at <= h[i].at)
  }

  lemma {:induction false} UpHeaps(h: seq<Entry>, n: nat, k: nat)
    requires Fits(h, n) && InHeap(k, n) && HeapAbove(h, n, k)
    ensures IsHeap(Up(h, k), n)
    decreases k
  {
    var p := Parent(k);
    if p == k || h[p].at <= h[k].at {
    } else {
      var g := Swap(h, k, p);
      forall i | HEAP0 < i < HEAP0 + n && i != p ensures Ordered(g, i) {
        assert i != k ==> Ordered(h, i);
        if p > HEAP0 { assert Ordered(h, p); }
      }
      forall i | HEAP0 < i < HEAP0 + n && Parent(i) == p ensures g[Parent(p)].at <= g[i].at {
        if i != k { assert Ordered(h, i); }
        if p > HEAP0 { assert Ordered(h, p); }
      }
      UpHeaps(g, n, p);
    }
  }

  lemma {:induction false} DownHeaps(h: seq<Entry>, n: nat, k: nat)
    requires Fits(h, n) && InHeap(k, n) && HeapBelow(h, n, k)
    ensures IsHeap(Down(h, n, k), n)
    decreases HEAP0 + n - k
  {
    if FirstChild(k) >= HEAP0 + n {
      forall i | HEAP0 < i < HEAP0 + n ensures Ordered(h, i) { ParentChild(k, i); }
    } else {
      var m := MinChild(h, n, k);
      forall i | HEAP0 < i < HEAP0 + n && Parent(i) == k ensures h[m].at <= h[i].at { ParentChild(k, i); }
      ParentChild(k, m);
      if h[k].at > h[m].at {
        var g := Swap(h, k, m);
        forall i | HEAP0 < i < HEAP0 + n && Parent(i) != m ensures Ordered(g, i) {
          if Parent(i) != k { assert Ordered(h, i); }
        }
        forall i | HEAP0 < i < HEAP0 + n && Parent(i) == m ensures g[Parent(m)].at <= g[i].at {
          assert Ordered(h, i);
        }
        DownHeaps(g, n, m);
      }
    }
  }

  /** A heap apart from whatever now stands at `k`. */
  predicate HeapAround(h: seq<Entry>, n: nat, k: nat)
    requires Fits(h, n) && InHeap(k, n)
  {
    && (forall i :: HEAP0 < i < HEAP0 + n && i != k && Parent(i) != k ==> Ordered(h, i))
    && (forall i :: HEAP0 < i < HEAP0 + n && Parent(i) == k && k > HEAP0 ==> h[Parent(k)].at <= h[i].at)
  }

  lemma AdjustHeaps(h: seq<Entry>, n: nat, k: nat)
    requires Fits(h, n) && InHeap(k, n) && HeapAround(h, n, k)
    ensures IsHeap(Adjust(h, n, k), n)
  {
    if k > HEAP0 && h[k].at <= h[Parent(k)].at {
      forall i | HEAP0 < i < HEAP0 + n && i != k ensures Ordered(h, i) {}
      UpHeaps(h, n, k);
    } else {
      forall i | HEAP0 < i < HEAP0 + n && Parent(i) != k ensures Ordered(h, i) {}
      DownHeaps(h, n, k);
    }
  }

  /** Replacing one element of a heap leaves a heap around it. */
  lemma ReplaceLeavesAround(h: seq<Entry>, n: nat, k: nat, e: Entry)
    requires Fits(h, n) && InHeap(k, n) && IsHeap(h, n)
    ensures HeapAround(h[k := e], n, k)
  {
    var g := h[k := e];
    forall i | HEAP0 < i < HEAP0 + n && i != k && Parent(i) != k ensures Ordered(g, i) { assert Ordered(h, i); }
    forall i | HEAP0 < i < HEAP0 + n && Parent(i) == k && k > HEAP0 ensures g[Parent(k)].at <= g[i].at {
      assert Ordered(h, i) && Ordered(h, k);
    }
  }

  /** The root of a heap is a smallest element. */
  lemma {:induction false} RootIsLeast(h: seq<Entry>, n: nat, i: nat)
    requires Fits(h, n) && IsHeap(h, n) && InHeap(i, n)
    ensures h[HEAP0].at <= h[i].at
    decreases i
  {
    if i > HEAP0 {
      RootIsLeast(h, n, Parent(i));
      assert Ordered(h, i);
    }
  }

  // What moves and what stays.

  /** Same elements in the heap, same array outside it. */
  ghost predicate Shuffled(h: seq<Entry>, g: seq<Entry>, n: nat) {
    && |g| == |h| && Fits(h, n)
    && multiset(g) == multiset(h)
    && (forall i :: 0 <= i < |h| && !InHeap(i, n) ==> g[i] == h[i])
  }

  lemma SwapShuffles(h: seq<Entry>, n: nat, i: nat, j: nat)
    requires Fits(h, n) && InHeap(i, n) && InHeap(j, n)
    ensures Shuffled(h, Swap(h, i, j), n)
  {
  }

  lemma {:induction false} UpShuffles(h: seq<Entry>, n: nat, k: nat)
    requires Fits(h, n) && InHeap(k, n)
    ensures Shuffled(h, Up(h, k), n)
    decreases k
  {
    var p := Parent(k);
    if p != k && h[p].at > h[k].at {
      SwapShuffles(h, n, k, p);
      UpShuffles(Swap(h, k, p), n, p);
    }
  }

  lemma {:induction false} DownShuffles(h: seq<Entry>, n: nat, k: nat)
    requires Fits(h, n) && InHeap(k, n)
    ensures Shuffled(h, Down(h, n, k), n)
    decreases HEAP0 + n - k
  {
    if FirstChild(k) < HEAP0 + n {
      var m := MinChild(h, n, k);
      if h[k].at > h[m].at {
        SwapShuffles(h, n, k, m);
        DownShuffles(Swap(h, k, m), n, m);
      }
    }
  }

  lemma AdjustShuffles(h: seq<Entry>, n: nat, k: nat)
    requires Fits(h, n) && InHeap(k, n)
    ensures Shuffled(h, Adjust(h, n, k), n)
  {
    if k > HEAP0 && h[k].at <= h[Parent(k)].at { UpShuffles(h, n, k); } else { DownShuffles(h, n, k); }
  }

  /** Every element of the heap satisfies `P`. */
  predicate AllHeap(h: seq<Entry>, n: nat, P: Entry -> bool)
    requires Fits(h, n)
  {
    forall i :: HEAP0 <= i < HEAP0 + n ==> P(h[i])
  }

  lemma {:induction false} UpAll(h: seq<Entry>, n: nat, k: nat, P: Entry -> bool)
    requires Fits(h, n) && InHeap(k, n) && AllHeap(h, n, P)
    ensures AllHeap(Up(h, k), n, P)
    decreases k
  {
    var p := Parent(k);
    if p != k && h[p].at > h[k].at { UpAll(Swap(h, k, p), n, p, P); }
  }

  lemma {:induction false} DownAll(h: seq<Entry>, n: nat, k: nat, P: Entry -> bool)
    requires Fits(h, n) && InHeap(k, n) && AllHeap(h, n, P)
    ensures AllHeap(Down(h, n, k), n, P)
    decreases HEAP0 + n - k
  {
    if FirstChild(k) < HEAP0 + n {
      var m := MinChild(h, n, k);
      if h[k].at > h[m].at { DownAll(Swap(h, k, m), n, m, P); }
    }
  }

  lemma AdjustAll(h: seq<Entry>, n: nat, k: nat, P: Entry -> bool)
    requires Fits(h, n) && InHeap(k, n) && AllHeap(h, n, P)
    ensures AllHeap(Adjust(h, n, k), n, P)
  {
    if k > HEAP0 && h[k].at <= h[Parent(k)].at { UpAll(h, n, k, P); } else { DownAll(h, n, k, P); }
  }

  // Back-indices.

  /** An `ev_timer`: expiry time, repeat interval and, while active, its slot. */
  datatype Timer = Timer(at: real, repeat: real, active: nat)

  type Timers = map<Id, Timer>

  function SetActive(ws: Timers, w: Id, k: nat): Timers
    requires w in ws
  {
    ws[w := ws[w].(active := k)]
  }

  /** `active` names the slot of every watcher in the heap but the one at `k`, and
      every other active watcher apart from `x` is in the heap. */
  predicate Tracks(h: seq<Entry>, n: nat, ws: Timers, k: nat, x: Id)
    requires Fits(h, n) && InHeap(k, n)
  {
    && h[k].w in ws
    && (forall i :: HEAP0 <= i < HEAP0 + n && i != k ==>
          h[i].w in ws && ws[h[i].w].active == i && h[i].w != h[k].w && h[i].w != x)
    && (forall w <- ws :: w != h[k].w && w != x && ws[w].active != 0 ==>
          InHeap(ws[w].active, n) && ws[w].active != k && h[ws[w].active].w == w)
  }

  /** The same with nothing at `k` left out. */
  predicate IndexedBut(h: seq<Entry>, n: nat, ws: Timers, x: Id)
    requires Fits(h, n)
  {
    && (forall i :: HEAP0 <= i < HEAP0 + n ==> h[i].w in ws && ws[h[i].w].active == i)
    && (forall w <- ws :: w != x && ws[w].active != 0 ==> InHeap(ws[w].active, n) && h[ws[w].active].w == w)
  }

  /** `active` names the slot of every watcher in the heap, and the active
      watchers are exactly those. */
  predicate Indexed(h: seq<Entry>, n: nat, ws: Timers)
    requires Fits(h, n)
  {
    && (forall i :: HEAP0 <= i < HEAP0 + n ==> h[i].w in ws && ws[h[i].w].active == i)
    && (forall w <- ws :: ws[w].active != 0 ==> InHeap(ws[w].active, n) && h[ws[w].active].w == w)
  }

  /** One level of sifting: the neighbour moves into the hole and is told so. */
  lemma TracksSwap(h: seq<Entry>, n: nat, ws: Timers, k: nat, p: nat, x: Id)
    requires Fits(h, n) && InHeap(k, n) && InHeap(p, n) && k != p && Tracks(h, n, ws, k, x)
    ensures Tracks(Swap(h, k, p), n, SetActive(ws, h[p].w, k), p, x)
  {
  }

  lemma TracksSettles(h: seq<Entry>, n: nat, ws: Timers, k: nat, x: Id)
    requires Fits(h, n) && InHeap(k, n) && Tracks(h, n, ws, k, x)
    ensures IndexedBut(h, n, SetActive(ws, h[k].w, k), x)
    ensures x == h[k].w ==> Indexed(h, n, SetActive(ws, h[k].w, k))
  {
  }

  lemma IndexedTracks(h: seq<Entry>, n: nat, ws: Timers, k: nat)
    requires Fits(h, n) && InHeap(k, n) && Indexed(h, n, ws)
    ensures Tracks(h, n, ws, k, h[k].w)
  {
    forall i | HEAP0 <= i < HEAP0 + n && i != k ensures h[i].w != h[k].w {
      assert ws[h[i].w].active == i && ws[h[k].w].active == k;
    }
  }

  /** Only slots changed, and nobody was started or stopped. */
  predicate SameButSlots(ws: Timers, ws': Timers) {
    && ws'.Keys == ws.Keys
    && forall w <- ws :: ws'[w] == ws[w].(active := ws'[w].active) && (ws'[w].active != 0 <==> ws[w].active != 0)
  }
}
