/** SDS strings: a buffer with its length, its free space and a terminating NUL, all
    updated in place. */
module Sds {
  import opened Basics

  const NUL: byte := '\0'
  const MAX_PREALLOC: nat := 1024 * 1024

  /** The size `sdsMakeRoomFor` grows to. */
  function Grown(need: nat): (n: nat)
    ensures n >= need
  {
    if need < MAX_PREALLOC then need * 2 else need + MAX_PREALLOC
  }

  // The interval `sdsrange` keeps.

  function Bound(i: int, len: nat): int {
    if i >= 0 then i else if len + i < 0 then 0 else len + i
  }

  /** The positions from `start` to `end`, both counted from the end when negative,
      clipped to the string. */
  predicate InRange(k: int, start: int, end: int, len: nat) {
    Bound(start, len) <= k <= Bound(end, len) && 0 <= k < len
  }

  /** Where the kept part starts and how long it is, by the branches of `sdsrange`. */
  function Kept(start: int, end: int, len: nat): (r: (nat, nat))
    requires len > 0
    ensures r.0 + r.1 <= len || r.1 == 0
    ensures r.1 > 0 ==> forall k :: InRange(k, start, end, len) <==> r.0 <= k < r.0 + r.1
    ensures r.1 == 0 ==> forall k :: !InRange(k, start, end, len)
  {
    var s, e := Bound(start, len), Bound(end, len);
    var n := if s > e then 0 else e - s + 1;
    if n == 0 then (0, 0)
    else if s >= len then (s, 0)
    else if e >= len then (s, len - 1 - s + 1)
    else (s, n)
  }

  /** The kept part itself. */
  function Ranged(s: seq<byte>, start: int, end: int): (r: seq<byte>)
    ensures start >= 0 && end == -1 ==> r == if start <= |s| then s[start..] else []
  {
    if s == [] then s
    else
      var (from, n) := Kept(start, end, |s|);
      if n == 0 then [] else s[from..from + n]
  }

  class Sds {
    var buf: array<byte>
    var len: nat
    var free: nat

    ghost predicate Valid()
      reads this, buf
    {
      buf.Length == len + free + 1 && buf[len] == NUL
    }

    ghost function Contents(): seq<byte>
      requires Valid()
      reads this, buf
    {
      buf[..len]
    }

    constructor ()
      ensures Valid() && fresh(buf) && Contents() == []
    {
      len, free := 0, 0;
      buf := new byte[1](_ => NUL);
    }

    /** Room behind the string; the string itself stays. */
    method MakeRoomFor(addlen: nat)
      requires Valid()
      modifies this`buf, this`free
      ensures Valid() && Contents() == old(Contents()) && (buf == old(buf) || fresh(buf))
      ensures free == if old(free) >= addlen then old(free) else Grown(len + addlen) - len
      ensures free >= addlen
    {
      if free >= addlen { return; }
      var size := Grown(len + addlen);
      var bigger := new byte[size + 1](_ => NUL);
      forall i | 0 <= i <= len { bigger[i] := buf[i]; }
      buf, free := bigger, size - len;
    }

    /** The octets the kernel puts behind the string. */
    method Fill(data: seq<byte>)
      requires Valid() && |data| <= free
      modifies buf
      ensures buf.Length == len + free + 1 && buf[..len] == old(buf[..len]) && buf[len..len + |data|] == data
    {
      forall i | 0 <= i < |data| { buf[len + i] := data[i]; }
    }

    /** `sdsIncrLen`: what lies behind the string becomes part of it, or its end is
        cut off. */
    method IncrLen(incr: int)
      requires buf.Length == len + free + 1 && incr <= free && len + incr >= 0
      modifies this`len, this`free, buf
      ensures Valid() && len == old(len) + incr && Contents() == old(buf[..len + incr])
    {
      len := len + incr;
      free := free - incr;
      buf[len] := NUL;
    }

    /** `sdscatlen`. */
    method CatLen(t: seq<byte>)
      requires Valid()
      modifies this, buf
      ensures Valid() && Contents() == old(Contents()) + t && (buf == old(buf) || fresh(buf))
    {
      MakeRoomFor(|t|);
      Fill(t);
      IncrLen(|t|);
      assert buf[..len] == buf[..old(len)] + buf[old(len)..len];
    }

    /** `sdsrange`. */
    method Range(start: int, end: int)
      requires Valid()
      modifies this`len, this`free, buf
      ensures Valid() && Contents() == Ranged(old(Contents()), start, end)
    {
      if len == 0 { return; }
      var (from, n) := Kept(start, end, len);
      if from != 0 && n != 0 {
        forall i | 0 <= i < n { buf[i] := buf[from + i]; }
      }
      buf[n] := NUL;
      free := free + (len - n);
      len := n;
    }
  }
}
