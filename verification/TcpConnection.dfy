/** One TCP connection of a worker: replies drained under partial writes, and input
    cut into frames of the lengths the handler asks for. */
module TcpConnection {
  import opened Basics
  import Sds

  /** A queued reply: the address of its buffer and what it holds. */
  datatype Reply = Reply(id: nat, data: seq<byte>)

  function Flatten(parts: seq<seq<byte>>): seq<byte> {
    if parts == [] then [] else parts[0] + Flatten(parts[1..])
  }

  function DataOf(rs: seq<Reply>): seq<byte> {
    if rs == [] then [] else rs[0].data + DataOf(rs[1..])
  }

  /** What is queued and not yet written. */
  function Unsent(list: seq<Reply>, written: nat): seq<byte>
    requires list != [] ==> written <= |list[0].data|
  {
    if list == [] then [] else list[0].data[written..] + DataOf(list[1..])
  }

  function IdsOf(rs: seq<Reply>): seq<nat> {
    if rs == [] then [] else [rs[0].id] + IdsOf(rs[1..])
  }

  lemma {:induction false} FlattenSnoc(parts: seq<seq<byte>>, x: seq<byte>)
    ensures Flatten(parts + [x]) == Flatten(parts) + x
  {
    if parts == [] {
      assert parts + [x] == [x] && x + [] == x;
    } else {
      assert (parts + [x])[1..] == parts[1..] + [x];
      FlattenSnoc(parts[1..], x);
    }
  }

  lemma {:induction false} FlattenConcat(a: seq<seq<byte>>, b: seq<seq<byte>>)
    ensures Flatten(a + b) == Flatten(a) + Flatten(b)
    decreases |a|
  {
    if a == [] {
      assert a + b == b;
    } else {
      assert (a + b)[1..] == a[1..] + b;
      FlattenConcat(a[1..], b);
    }
  }

  lemma SplitMore(all: seq<byte>, data: seq<byte>, n: nat)
    requires n <= |all|
    ensures (all + data)[n..] == all[n..] + data && (all + data)[..n] == all[..n]
  {
  }

  lemma NothingKept(frames: seq<seq<byte>>)
    ensures Flatten(frames[|frames|..]) == []
  {
  }

  lemma {:induction false} DataSnoc(rs: seq<Reply>, r: Reply)
    ensures DataOf(rs + [r]) == DataOf(rs) + r.data && IdsOf(rs + [r]) == IdsOf(rs) + [r.id]
  {
    if rs == [] {
      assert rs + [r] == [r] && r.data + [] == r.data;
    } else {
      assert (rs + [r])[1..] == rs[1..] + [r];
      DataSnoc(rs[1..], r);
    }
  }

  /** How a kernel may answer the n-th write of `want` octets: -1 for an error, or how
      many it took. */
  ghost predicate IsKernel(kernel: (nat, nat) -> int) {
    forall n: nat, want: nat :: -1 <= kernel(n, want) <= want
  }

  /** What a read may bring. */
  datatype Input = ReadError | PeerClosed | Got(data: seq<byte>)

  /** A read asks for `want` octets. One that asks for none brings none, which the socket
      takes for a closed peer; with something to ask for, an empty read is one that would
      block. */
  predicate Brings(input: Input, want: nat) {
    input.Got? ==> 0 < want && |input.data| <= want
  }

  /** What a handler does with the text it is handed: go on behind it, drop what is
      processed, start again at the front of the buffer, or give up the connection. */
  datatype Action =
    | ExpectNext(state: int, bytes: nat)
    | ShrinkProcessed(state: int, bytes: nat)
    | Reset(state: int, bytes: nat)
    | GiveUp

  /** The input side of a connection: the texts handed over, the frames they left consumed
      and how many of those are gone from the buffer, the unprocessed rest, and what the
      handler waits for. */
  datatype Intake = Intake(
    handed: seq<seq<byte>>, frames: seq<seq<byte>>, dropped: nat, rest: seq<byte>, state: int, expected: nat)

  /** The handler is handed the next `expected` octets. */
  function Handled(t: Intake, a: Action): Intake
    requires t.expected <= |t.rest| && t.dropped <= |t.frames|
  {
    var x, rest := t.rest[..t.expected], t.rest[t.expected..];
    var u := t.(handed := t.handed + [x]);
    match a
    case GiveUp => u
    case ExpectNext(state, n) => u.(frames := t.frames + [x], rest := rest, state := state, expected := n)
    case ShrinkProcessed(state, n) =>
      u.(frames := t.frames + [x], dropped := |t.frames| + 1, rest := rest, state := state, expected := n)
    case Reset(state, n) =>
      u.(frames := t.frames[..t.dropped], rest := Flatten(t.frames[t.dropped..]) + t.rest, state := state, expected := n)
  }

  /** A read that brought `data`; the handler is called when enough is there. */
  function Taken(t: Intake, data: seq<byte>, a: Action): Intake
    requires t.dropped <= |t.frames|
  {
    var u := t.(rest := t.rest + data);
    if |u.rest| >= u.expected then Handled(u, a) else u
  }

  class Connection {
    var replyList: seq<Reply>
    var replyListSize: nat
    var bytesWritten: nat
    var writeEnabled: bool
    var closed: bool
    ghost var sent: seq<byte>
    ghost var added: seq<Reply>
    ghost var freed: seq<nat>

    const ioBuffer: Sds.Sds
    var receiveState: int
    var bytesExpected: nat
    var bytesProcessed: nat
    ghost var received: seq<byte>
    ghost var frames: seq<seq<byte>>
    ghost var dropped: nat
    ghost var handed: seq<seq<byte>>

    /** Octets sent ++ octets queued are all replies in order; the buffers of the
        replies written in full, and no others, have been freed, each once; and as
        long as anything is queued the loop watches for writability. */
    ghost predicate WriteInv()
      reads this`replyList, this`replyListSize, this`bytesWritten, this`writeEnabled, this`sent, this`added, this`freed
    {
      && (replyList == [] ==> bytesWritten == 0)
      && (replyList != [] ==> bytesWritten <= |replyList[0].data| && (bytesWritten > 0 ==> bytesWritten < |replyList[0].data|))
      && sent + Unsent(replyList, bytesWritten) == DataOf(added)
      && freed + IdsOf(replyList) == IdsOf(added)
      && replyListSize == |replyList|
      && (replyList != [] ==> writeEnabled)
    }

    ghost predicate ReadInv()
      reads this, ioBuffer, ioBuffer.buf
    {
      && ioBuffer.Valid() && bytesProcessed <= ioBuffer.len && dropped <= |frames|
      && Flatten(frames) + Unprocessed() == received
      && Flatten(frames[dropped..]) == ioBuffer.Contents()[..bytesProcessed]
    }

    ghost function IntakeOf(): Intake
      requires ioBuffer.Valid() && bytesProcessed <= ioBuffer.len
      reads this, ioBuffer, ioBuffer.buf
    {
      Intake(handed, frames, dropped, Unprocessed(), receiveState, bytesExpected)
    }

    ghost function Unprocessed(): seq<byte>
      requires ioBuffer.Valid() && bytesProcessed <= ioBuffer.len
      reads this, ioBuffer, ioBuffer.buf
    {
      ioBuffer.Contents()[bytesProcessed..]
    }

    constructor ()
      ensures WriteInv() && ReadInv() && !closed && sent == [] && received == [] && frames == [] && added == [] && freed == []
      ensures IntakeOf() == Intake([], [], 0, [], 0, 1)
      ensures fresh(ioBuffer) && fresh(ioBuffer.buf)
    {
      replyList, replyListSize, bytesWritten, writeEnabled, closed := [], 0, 0, false, false;
      sent, added, freed := [], [], [];
      receiveState, bytesExpected, bytesProcessed := 0, 1, 0;
      received, frames, dropped, handed := [], [], 0, [];
      ioBuffer := new Sds.Sds();
    }

    // Output.

    /** `add_reply`. */
    method AddReply(r: Reply) returns (size: nat)
      requires WriteInv() && !closed
      modifies this`replyList, this`replyListSize, this`writeEnabled, this`added
      ensures WriteInv() && added == old(added) + [r] && size == |replyList|
      ensures replyList == old(replyList) + [r]
    {
      hide DataOf, IdsOf, Unsent;
      DataSnoc(added, r);
      DataSnoc(replyList, r);
      AddUnsent(replyList, bytesWritten, r);
      replyList := replyList + [r];
      replyListSize := replyListSize + 1;
      writeEnabled := true;
      added := added + [r];
      return replyListSize;
    }

    /** The destructor: the buffers still queued are freed. */
    method Close()
      requires WriteInv() && !closed
      modifies this`replyList, this`replyListSize, this`bytesWritten, this`freed, this`closed
      ensures closed && replyList == [] && freed == IdsOf(added)
    {
      hide IdsOf, DataOf, Unsent;
      var i := 0;
      assert replyList[0..] == replyList;
      while i < |replyList|
        invariant 0 <= i <= |replyList| && freed + IdsOf(replyList[i..]) == IdsOf(added)
      {
        FreeNext(freed, replyList, i);
        freed := freed + [replyList[i].id];
        i := i + 1;
      }
      NoneQueued(freed, replyList);
      replyList, replyListSize, bytesWritten, closed := [], 0, 0, true;
    }

    /** The accounting of `tcp_write_io` for `w` octets taken of the first reply. */
    method Took(w: nat)
      requires WriteInv() && replyList != [] && 0 < w <= |replyList[0].data| - bytesWritten
      modifies this`replyList, this`replyListSize, this`bytesWritten, this`freed, this`sent
      ensures WriteInv() && sent == old(sent) + old(replyList)[0].data[old(bytesWritten)..old(bytesWritten) + w]
      ensures sent <= DataOf(added)
      ensures if old(bytesWritten) + w == |old(replyList)[0].data| then replyList == old(replyList)[1..]
              else replyList == old(replyList) && bytesWritten == old(bytesWritten) + w
    {
      hide DataOf, IdsOf, Unsent;
      var reply := replyList[0];
      WriteStep(sent, freed, bytesWritten, w, replyList);
      sent := sent + reply.data[bytesWritten..bytesWritten + w];
      if w + bytesWritten == |reply.data| {
        replyList := replyList[1..];
        replyListSize := replyListSize - 1;
        bytesWritten := 0;
        freed := freed + [reply.id];
        SentPrefix(sent, Unsent(replyList, bytesWritten), DataOf(added));
      } else {
        bytesWritten := bytesWritten + w;
        SentPrefix(sent, Unsent(replyList, bytesWritten), DataOf(added));
      }
    }

    /** `tcp_write_io`. */
    method WriteIo(kernel: (nat, nat) -> int) returns (calls: nat)
      requires WriteInv() && !closed && IsKernel(kernel)
      modifies this`replyList, this`replyListSize, this`bytesWritten, this`writeEnabled, this`closed, this`sent, this`freed
      ensures !closed ==> WriteInv()
      ensures closed ==> freed == IdsOf(added)
      ensures old(sent) <= sent <= DataOf(added)
      ensures closed ==> calls > 0 && FailedSomewhere(old(replyList), kernel, calls - 1, sent, added)
      ensures !closed && replyList != [] ==>
        calls > 0 && kernel(calls - 1, |replyList[0].data| - bytesWritten) == 0
      ensures !closed && replyList == [] ==> !writeEnabled && sent == DataOf(added)
      ensures !closed ==> exists k: nat :: Popped(old(replyList), k, replyList)
    {
      hide DataOf, IdsOf, Popped;
      calls := 0;
      PopNone(replyList);
      SentPrefix(sent, Unsent(replyList, bytesWritten), DataOf(added));
      while replyList != []
        invariant WriteInv() && !closed && old(sent) <= sent <= DataOf(added)
        invariant exists k: nat :: Popped(old(replyList), k, replyList)
        decreases |replyList|, if replyList == [] then 0 else |replyList[0].data| - bytesWritten
      {
        var reply := replyList[0];
        var want := |reply.data| - bytesWritten;
        var w := kernel(calls, want);
        calls := calls + 1;
        if w == -1 {
          FailedNow(old(replyList), replyList, bytesWritten, kernel, calls - 1, sent, added);
          Close();
          return;
        } else if w == 0 {
          return;
        }
        if w == want { PopOne(old(replyList), replyList); }
        Took(w);
      }
      assert sent + Unsent([], 0) == sent;
      writeEnabled := false;
    }

    /** A kernel that takes everything drains the list exactly when no queued reply is
        empty: writing nothing looks like a full socket buffer, and the empty reply
        stays at the front for good. */
    method WriteAll()
      requires WriteInv() && !closed
      modifies this
      ensures !closed && WriteInv()
      ensures replyList == [] <==> forall i :: 0 <= i < |old(replyList)| ==> old(replyList)[i].data != []
    {
      var calls := WriteIo((n, want) => want);
      ghost var k: nat :| Popped(old(replyList), k, replyList);
      assert replyList != [] ==> replyList[0] == old(replyList)[k];
    }

    // Input.

    /** A complete frame that no further event is due for. */
    ghost predicate Waiting()
      requires ioBuffer.Valid() && bytesProcessed <= ioBuffer.len
      reads this, ioBuffer, ioBuffer.buf
    {
      |Unprocessed()| >= bytesExpected
    }

    /** `expect_next`. */
    method ExpectNextFrame(state: int, bytes: nat)
      requires ReadInv() && |Unprocessed()| >= bytesExpected
      modifies this`bytesProcessed, this`receiveState, this`bytesExpected, this`frames, this`handed
      ensures ReadInv() && IntakeOf() == Handled(old(IntakeOf()), ExpectNext(state, bytes))
    {
      hide Flatten;
      ghost var u, kept, n := Unprocessed(), frames[dropped..], bytesProcessed;
      ghost var x := u[..bytesExpected];
      FrameTaken(frames, u, bytesExpected);
      FlattenSnoc(kept, x);
      frames, handed := frames + [x], handed + [x];
      assert frames[dropped..] == kept + [x];
      bytesProcessed := bytesProcessed + bytesExpected;
      assert ioBuffer.Contents()[..bytesProcessed] == ioBuffer.Contents()[..n] + x;
      receiveState := state;
      bytesExpected := bytes;
      assert Unprocessed() == u[old(bytesExpected)..];
    }

    /** `shrink_processed`: the same, with the processed part dropped from the buffer. */
    method ShrinkProcessedFrame(state: int, bytes: nat)
      requires ReadInv() && |Unprocessed()| >= bytesExpected
      modifies this`bytesProcessed, this`receiveState, this`bytesExpected, this`frames, this`dropped, this`handed, ioBuffer, ioBuffer.buf
      ensures ReadInv() && bytesProcessed == 0 && IntakeOf() == Handled(old(IntakeOf()), ShrinkProcessed(state, bytes))
      ensures ioBuffer.buf == old(ioBuffer.buf)
    {
      ghost var u, all := Unprocessed(), ioBuffer.Contents();
      ghost var x := u[..bytesExpected];
      FrameTaken(frames, u, bytesExpected);
      frames, handed := frames + [x], handed + [x];
      bytesProcessed := bytesProcessed + bytesExpected;
      ioBuffer.Range(bytesProcessed, -1);
      assert all[bytesProcessed..] == u[old(bytesExpected)..];
      bytesProcessed := 0;
      dropped := |frames|;
      receiveState := state;
      bytesExpected := bytes;
    }

    /** `reset`: the frames that are still in the buffer are taken back. */
    method ResetFrame(state: int, bytes: nat)
      requires ReadInv() && |Unprocessed()| >= bytesExpected
      modifies this`bytesProcessed, this`receiveState, this`bytesExpected, this`frames, this`handed
      ensures ReadInv() && bytesProcessed == 0 && IntakeOf() == Handled(old(IntakeOf()), Reset(state, bytes))
    {
      hide Flatten;
      ghost var u, all, kept := Unprocessed(), ioBuffer.Contents(), frames[dropped..];
      assert frames == frames[..dropped] + kept;
      FlattenConcat(frames[..dropped], kept);
      assert all == all[..bytesProcessed] + all[bytesProcessed..];
      ghost var before := Flatten(frames[..dropped]);
      assert before + Flatten(kept) + u == before + (Flatten(kept) + u);
      handed := handed + [u[..bytesExpected]];
      frames := frames[..dropped];
      NothingKept(frames);
      bytesProcessed := 0;
      receiveState := state;
      bytesExpected := bytes;
    }

    /** `tcp_read_io`, with what the socket brings and what the handler does if it is
        called. */
    method ReadIo(input: Input, action: Action)
      requires ReadInv() && WriteInv() && !closed && Brings(input, bytesExpected)
      modifies this, ioBuffer, ioBuffer.buf
      ensures ReadInv() && (ioBuffer.buf == old(ioBuffer.buf) || fresh(ioBuffer.buf))
      ensures sent == old(sent) && added == old(added) && (!closed ==> WriteInv()) && (closed ==> freed == IdsOf(added))
      ensures received == old(received) + if input.Got? then input.data else []
      ensures IntakeOf() == if input.Got? then Taken(old(IntakeOf()), input.data, action) else old(IntakeOf())
      ensures var complete := input.Got? && |old(Unprocessed())| + |input.data| >= old(bytesExpected);
        && (closed <==> !input.Got? || (complete && action.GiveUp?))
        && (!closed && !old(Waiting()) ==>
              && (Waiting() <==> complete && |Unprocessed()| >= action.bytes)
              && (complete && !action.Reset? && action.bytes >= old(bytesExpected) ==> !Waiting()))
    {
      hide Flatten, DataOf, IdsOf, Unsent, Handled, Taken, WriteInv;
      ghost var t := IntakeOf();
      if !input.Got? {
        ioBuffer.MakeRoomFor(bytesExpected);
        assert Unprocessed() == old(Unprocessed());
        assert received + [] == received;
        Close();
        return;
      }
      Arrive(input.data);
      TakenIs(t, input.data, action);
      if ioBuffer.len - bytesProcessed >= bytesExpected {
        HandOver(action);
      }
    }

    /** `process_io_buffer`, and what its result is taken for. */
    method HandOver(action: Action)
      requires ReadInv() && WriteInv() && !closed && |Unprocessed()| >= bytesExpected
      modifies this, ioBuffer, ioBuffer.buf
      ensures ReadInv() && IntakeOf() == Handled(old(IntakeOf()), action) && ioBuffer.buf == old(ioBuffer.buf)
      ensures received == old(received) && sent == old(sent) && added == old(added)
      ensures closed == action.GiveUp? && (!closed ==> WriteInv()) && (closed ==> freed == IdsOf(added))
    {
      hide Flatten, DataOf, IdsOf, Unsent, WriteInv;
      if action.GiveUp? {
        handed := handed + [Unprocessed()[..bytesExpected]];
        Close();
      } else {
        Handle(action);
      }
    }

    method Handle(action: Action)
      requires ReadInv() && |Unprocessed()| >= bytesExpected && !action.GiveUp?
      modifies this`bytesProcessed, this`receiveState, this`bytesExpected, this`frames, this`dropped, this`handed, ioBuffer, ioBuffer.buf
      ensures ReadInv() && IntakeOf() == Handled(old(IntakeOf()), action) && ioBuffer.buf == old(ioBuffer.buf)
    {
      hide Flatten;
      match action {
        case ExpectNext(state, bytes) => ExpectNextFrame(state, bytes);
        case ShrinkProcessed(state, bytes) => ShrinkProcessedFrame(state, bytes);
        case Reset(state, bytes) => ResetFrame(state, bytes);
      }
    }

    /** The octets read become part of the buffer. */
    method Arrive(data: seq<byte>)
      requires ReadInv() && |data| <= bytesExpected
      modifies this`received, ioBuffer, ioBuffer.buf
      ensures ReadInv() && received == old(received) + data && IntakeOf() == old(IntakeOf()).(rest := old(Unprocessed()) + data)
      ensures ioBuffer.buf == old(ioBuffer.buf) || fresh(ioBuffer.buf)
    {
      hide Flatten;
      ghost var u, all := Unprocessed(), ioBuffer.Contents();
      ioBuffer.MakeRoomFor(bytesExpected);
      Append(data);
      SplitMore(all, data, bytesProcessed);
      assert Flatten(frames) + (u + data) == (Flatten(frames) + u) + data;
      received := received + data;
    }

    /** `read` into the free part of the buffer, and `sdsIncrLen`. */
    method Append(data: seq<byte>)
      requires ioBuffer.Valid() && |data| <= ioBuffer.free
      modifies ioBuffer, ioBuffer.buf
      ensures ioBuffer.Valid() && ioBuffer.Contents() == old(ioBuffer.Contents()) + data && ioBuffer.buf == old(ioBuffer.buf)
    {
      ghost var n := ioBuffer.len;
      if |data| > 0 {
        ioBuffer.Fill(data);
        ioBuffer.IncrLen(|data|);
        assert ioBuffer.buf[..ioBuffer.len] == ioBuffer.buf[..n] + ioBuffer.buf[n..ioBuffer.len];
      }
    }
  }

  lemma FreeNext(freed: seq<nat>, list: seq<Reply>, i: nat)
    requires i < |list|
    ensures (freed + [list[i].id]) + IdsOf(list[i + 1..]) == freed + IdsOf(list[i..])
  {
    assert list[i..][1..] == list[i + 1..];
    assert (freed + [list[i].id]) + IdsOf(list[i + 1..]) == freed + ([list[i].id] + IdsOf(list[i + 1..]));
  }

  lemma NoneQueued(freed: seq<nat>, list: seq<Reply>)
    ensures freed + IdsOf(list[|list|..]) == freed
  {
  }

  /** The first `k` replies are gone, and none of them was empty. */
  predicate Popped(list: seq<Reply>, k: nat, rest: seq<Reply>) {
    k <= |list| && rest == list[k..] && forall i :: 0 <= i < k ==> list[i].data != []
  }

  /** After `k` replies the kernel refused what was left of the next one. */
  predicate Failed(list: seq<Reply>, k: nat, written: nat, kernel: (nat, nat) -> int, call: nat, sent: seq<byte>, added: seq<Reply>) {
    && k < |list| && written <= |list[k].data| && Popped(list, k, list[k..])
    && sent + Unsent(list[k..], written) == DataOf(added) && kernel(call, |list[k].data| - written) == -1
  }

  ghost predicate FailedSomewhere(list: seq<Reply>, kernel: (nat, nat) -> int, call: nat, sent: seq<byte>, added: seq<Reply>) {
    exists k: nat, written: nat :: Failed(list, k, written, kernel, call, sent, added)
  }

  lemma FailedNow(list: seq<Reply>, rest: seq<Reply>, written: nat, kernel: (nat, nat) -> int, call: nat, sent: seq<byte>, added: seq<Reply>)
    requires rest != [] && written <= |rest[0].data| && (exists k: nat :: Popped(list, k, rest))
    requires sent + Unsent(rest, written) == DataOf(added) && kernel(call, |rest[0].data| - written) == -1
    ensures FailedSomewhere(list, kernel, call, sent, added)
  {
    hide Unsent, DataOf;
    var k: nat :| Popped(list, k, rest);
    assert Failed(list, k, written, kernel, call, sent, added);
  }

  lemma TakenIs(t: Intake, data: seq<byte>, a: Action)
    requires t.dropped <= |t.frames|
    ensures var u := t.(rest := t.rest + data);
      if |u.rest| < u.expected then Taken(t, data, a) == u
      else Taken(t, data, a) == Handled(u, a) && (a.GiveUp? ==> Handled(u, a) == u.(handed := u.handed + [u.rest[..u.expected]]))
    ensures var u, r := t.(rest := t.rest + data), Taken(t, data, a);
      |t.rest| < t.expected && |data| <= t.expected && !a.GiveUp? ==>
        && (|r.rest| >= r.expected <==> |u.rest| >= u.expected && |r.rest| >= a.bytes)
        && (|u.rest| >= u.expected && !a.Reset? && a.bytes >= t.expected ==> |r.rest| < r.expected)
  {
  }

  lemma PopNone(list: seq<Reply>)
    ensures exists k: nat :: Popped(list, k, list)
  {
    assert Popped(list, 0, list);
  }

  lemma UnsentRest(list: seq<Reply>)
    ensures Unsent(list, 0) == DataOf(list)
  {
  }

  lemma PopOne(list: seq<Reply>, rest: seq<Reply>)
    requires rest != [] && rest[0].data != [] && exists k: nat :: Popped(list, k, rest)
    ensures exists k: nat :: Popped(list, k, rest[1..])
  {
    var k: nat :| Popped(list, k, rest);
    assert list[k..][1..] == list[k + 1..];
    assert Popped(list, k + 1, rest[1..]);
  }

  lemma FrameTaken(frames: seq<seq<byte>>, u: seq<byte>, n: nat)
    requires n <= |u|
    ensures Flatten(frames + [u[..n]]) + u[n..] == Flatten(frames) + u
  {
    FlattenSnoc(frames, u[..n]);
    assert u == u[..n] + u[n..];
    assert Flatten(frames) + u[..n] + u[n..] == Flatten(frames) + (u[..n] + u[n..]);
  }

  /** A shorter frame can be complete in the buffer and still wait for a read event:
      here three octets are asked for, four arrive, and one is asked for next. */
  method LeavesFrameWaiting() returns (c: Connection)
    ensures c.ReadInv() && !c.closed && c.Waiting() && c.bytesExpected == 1 && |c.Unprocessed()| == 1
  {
    hide Flatten, DataOf, IdsOf, Unsent, Taken, Handled, Connection.WriteInv;
    c := new Connection();
    FourthWaits();
    c.ReadIo(Got(['a']), ExpectNext(1, 3));
    assert !c.closed && c.IntakeOf() == FIRST;
    c.ReadIo(Got(['b']), GiveUp);
    assert !c.closed && c.IntakeOf() == SECOND;
    c.ReadIo(Got(['c', 'd', 'e']), ExpectNext(2, 1));
    assert !c.closed && c.IntakeOf() == THIRD;
  }

  const FIRST := Intake([['a']], [['a']], 0, [], 1, 3)
  const SECOND := FIRST.(rest := ['b'])
  const THIRD := Intake([['a'], ['b', 'c', 'd']], [['a'], ['b', 'c', 'd']], 0, ['e'], 2, 1)

  lemma FourthWaits()
    ensures Taken(Intake([], [], 0, [], 0, 1), ['a'], ExpectNext(1, 3)) == FIRST
    ensures Taken(FIRST, ['b'], GiveUp) == SECOND
    ensures Taken(SECOND, ['c', 'd', 'e'], ExpectNext(2, 1)) == THIRD
  {
    var none: seq<byte> := [];
    assert none + ['a'] == ['a'] && ['a'][..1] == ['a'] && ['a'][1..] == [] && none + ['b'] == ['b'];
    var four := ['b'] + ['c', 'd', 'e'];
    assert four[..3] == ['b', 'c', 'd'] && four[3..] == ['e'];
  }

  /** A handler that asks for no octets: the next read event asks the socket for none, is
      told that the peer closed, and ends the connection, whatever the peer has sent. */
  method ClosesOnEmptyFrame(input: Input) returns (c: Connection)
    requires Brings(input, 0)
    ensures c.closed && c.handed == [['a']] && c.received == ['a']
  {
    hide Flatten, DataOf, IdsOf, Unsent, Taken, Handled, Connection.WriteInv;
    c := new Connection();
    EmptyNext(c.IntakeOf());
    c.ReadIo(Got(['a']), ExpectNext(1, 0));
    c.ReadIo(input, GiveUp);
  }

  lemma EmptyNext(t: Intake)
    requires t == Intake([], [], 0, [], 0, 1)
    ensures Taken(t, ['a'], ExpectNext(1, 0)) == Intake([['a']], [['a']], 0, [], 1, 0)
  {
    assert t.rest + ['a'] == ['a'] && ['a'][..1] == ['a'] && ['a'][1..] == [];
  }

  lemma AddUnsent(list: seq<Reply>, written: nat, r: Reply)
    requires if list == [] then written == 0 else written <= |list[0].data|
    ensures Unsent(list + [r], written) == Unsent(list, written) + r.data
  {
    if list == [] {
      assert (list + [r])[1..] == [];
    } else {
      assert (list + [r])[1..] == list[1..] + [r];
      DataSnoc(list[1..], r);
    }
  }

  lemma SentPrefix(sent: seq<byte>, unsent: seq<byte>, all: seq<byte>)
    requires sent + unsent == all
    ensures sent <= all
  {
  }

  lemma WriteStep(sent: seq<byte>, freed: seq<nat>, written: nat, w: nat, list: seq<Reply>)
    requires list != [] && written + w <= |list[0].data|
    ensures var sent' := sent + list[0].data[written..written + w];
      if written + w == |list[0].data| then
        && sent' + Unsent(list[1..], 0) == sent + Unsent(list, written)
        && (freed + [list[0].id]) + IdsOf(list[1..]) == freed + IdsOf(list)
      else sent' + Unsent(list, written + w) == sent + Unsent(list, written)
  {
    var d, rest := list[0].data, list[1..];
    UnsentRest(rest);
    assert d[written..] == d[written..written + w] + d[written + w..];
    assert (sent + d[written..written + w]) + (d[written + w..] + DataOf(rest)) == sent + (d[written..] + DataOf(rest));
    assert (freed + [list[0].id]) + IdsOf(rest) == freed + ([list[0].id] + IdsOf(rest));
    if written + w == |d| { assert d[written + w..] + DataOf(rest) == DataOf(rest); }
  }
}
