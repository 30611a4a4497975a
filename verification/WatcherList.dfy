/** The singly linked watcher lists of libev, changed through pointers to links, and that
    they hold what the sequences of `FdInterest` say. */
module WatcherList {
  import opened Basics
  import opened Pending
  import opened FdInterest

  /** A place that holds a pointer to a list element: the head of an fd's list, or the
      `next` member of a watcher. */
  datatype Link = HeadOf(fd: nat) | NextOf(w: Id)

  type Heads = map<nat, Option<Id>>

  type Nexts = map<Id, Option<Id>>

  /** From `p` on the links lead through `s` and then end. */
  predicate Chained(next: Nexts, p: Option<Id>, s: seq<Id>)
    decreases |s|
  {
    if s == [] then p.None? else p == Some(s[0]) && s[0] in next && Chained(next, next[s[0]], s[1..])
  }

  /** Links outside a list do not matter to it. */
  lemma {:induction false} ChainedFrame(next: Nexts, next': Nexts, p: Option<Id>, s: seq<Id>)
    requires Chained(next, p, s) && forall x <- s :: x in next ==> x in next' && next'[x] == next[x]
    ensures Chained(next', p, s)
    decreases |s|
  {
    if s != [] { ChainedFrame(next, next', next[s[0]], s[1..]); }
  }

  /** The link of `s[k]` bent around the element behind it. */
  lemma {:induction false} Bend(next: Nexts, p: Option<Id>, s: seq<Id>, k: nat, next': Nexts)
    requires Chained(next, p, s) && k + 1 < |s| && s[k + 1] in next && next' == next[s[k] := next[s[k + 1]]]
    requires forall i :: 0 <= i < |s| && i != k ==> s[i] != s[k]
    ensures Chained(next', p, s[..k + 1] + s[k + 2..])
    decreases k
  {
    var rest, tail := s[..k + 1] + s[k + 2..], s[1..];
    assert rest[0] == s[0];
    if k == 0 {
      assert rest[1..] == tail[1..];
      ChainedFrame(next, next', next[s[1]], tail[1..]);
    } else {
      assert rest[1..] == tail[..k] + tail[k + 1..];
      Bend(next, next[s[0]], tail, k - 1, next');
    }
  }

  lemma BendAt(next: Nexts, p: Option<Id>, s: seq<Id>, k: nat, next': Nexts, p': Option<Id>)
    requires Chained(next, p, s) && Distinct(s) && k < |s| && s[k] in next
    requires if k == 0 then p' == next[s[0]] && next' == next else p' == p && next' == next[s[k - 1] := next[s[k]]]
    ensures Chained(next', p', s[..k] + s[k + 1..])
  {
    if k == 0 {
      assert s[..0] + s[1..] == s[1..];
    } else {
      Bend(next, p, s, k - 1, next');
    }
  }

  lemma {:induction false} WithoutAt(s: seq<Id>, w: Id, k: nat)
    requires k <= |s| && w !in s[..k] && (k < |s| ==> s[k] == w)
    ensures Without(s, w) == if k < |s| then s[..k] + s[k + 1..] else s
    decreases k
  {
    if k == 0 {
      if s != [] { assert s[..0] + s[1..] == s[1..]; }
    } else {
      assert s[..k][0] == s[0] && s[..k][1..] == s[1..][..k - 1];
      WithoutAt(s[1..], w, k - 1);
      if k < |s| { assert s[..k] + s[k + 1..] == [s[0]] + (s[1..][..k - 1] + s[1..][k..]); }
    }
  }

  class Lists {
    var head: Heads
    var next: Nexts

    /** The list of an fd. */
    ghost predicate Holds(fd: nat, s: seq<Id>)
      reads this
    {
      fd in head && Chained(next, head[fd], s)
    }

    function Read(l: Link): Option<Id>
      requires if l.HeadOf? then l.fd in head else l.w in next
      reads this
    {
      match l case HeadOf(fd) => head[fd] case NextOf(w) => next[w]
    }

    method Write(l: Link, v: Option<Id>)
      requires if l.HeadOf? then l.fd in head else l.w in next
      modifies this
      ensures l.HeadOf? ==> head == old(head)[l.fd := v] && next == old(next)
      ensures l.NextOf? ==> next == old(next)[l.w := v] && head == old(head)
    {
      match l
      case HeadOf(fd) => head := head[fd := v];
      case NextOf(w) => next := next[w := v];
    }

    /** `wlist_add`: the watcher becomes the first of its list; other lists stay. */
    method Add(fd: nat, elem: Id, ghost s: seq<Id>)
      requires Holds(fd, s) && elem !in s
      modifies this
      ensures Holds(fd, [elem] + s)
      ensures head == old(head)[fd := Some(elem)] && next.Keys == old(next).Keys + {elem}
      ensures forall x <- old(next) :: x != elem ==> next[x] == old(next)[x]
    {
      ghost var next0 := next;
      next := next[elem := head[fd]];
      head := head[fd := Some(elem)];
      ChainedFrame(next0, next, next[elem], s);
      assert ([elem] + s)[1..] == s;
    }

    /** `wlist_del`: the walk follows the links by their addresses and bends the one that
        leads to the watcher; other lists stay. */
    method Delete(fd: nat, elem: Id, ghost s: seq<Id>)
      requires Holds(fd, s) && Distinct(s)
      modifies this
      ensures Holds(fd, Without(s, elem))
      ensures head.Keys == old(head).Keys && forall f <- head :: f != fd ==> head[f] == old(head)[f]
      ensures next.Keys == old(next).Keys && forall x <- next :: x !in s ==> next[x] == old(next)[x]
    {
      hide Chained, Distinct, Without;
      var l := HeadOf(fd);
      ghost var k: nat := 0;
      assert s[0..] == s && s[..0] == [];
      while Read(l).Some?
        invariant k <= |s| && l == (if k == 0 then HeadOf(fd) else NextOf(s[k - 1])) && elem !in s[..k]
        invariant head == old(head) && next == old(next)
        invariant if l.HeadOf? then l.fd in head else l.w in next
        invariant Chained(next, Read(l), s[k..])
        decreases |s| - k
      {
        var at := Read(l).value;
        ChainedFirst(next, Read(l), s[k..]);
        assert at == s[k];
        if at == elem {
          ghost var next0, head0 := next, head;
          Write(l, next[elem]);
          BendAt(next0, head0[fd], s, k, next, head[fd]);
          WithoutAt(s, elem, k);
          return;
        }
        l := NextOf(at);
        assert s[..k + 1] == s[..k] + [s[k]];
        assert s[k..][1..] == s[k + 1..];
        k := k + 1;
      }
      ChainedEnds(next, Read(l), s[k..]);
      WithoutAt(s, elem, k);
    }
  }

  lemma ChainedFirst(next: Nexts, p: Option<Id>, s: seq<Id>)
    requires Chained(next, p, s) && p.Some?
    ensures s != [] && p.value == s[0] && s[0] in next && Chained(next, next[s[0]], s[1..])
  {
  }

  lemma ChainedEnds(next: Nexts, p: Option<Id>, s: seq<Id>)
    requires Chained(next, p, s) && p.None?
    ensures s == []
  {
  }
}
