/** The dispatcher hands accepted sockets to its workers: a push on the worker's
    queue, then one byte-message on the worker's pipe, which may fail. The queues
    are the atomic FIFOs that `SpscQueue` refines. */
module Handoff {
  type Socket = int

  /** `given` lists what the dispatcher ever pushed to this worker. */
  datatype Worker = Worker(queue: seq<Socket>, messages: nat, adopted: seq<Socket>, given: seq<Socket>, failed: nat)

  /** `dispatch_new_conn` between its push and its notification. */
  datatype DispatcherPc = Idle | Notifying(worker: nat)

  datatype State = State(workers: seq<Worker>, next: nat, pc: DispatcherPc, dispatched: seq<Socket>)

  function Init(n: nat): State {
    State(seq(n, _ => Worker([], 0, [], [], 0)), 0, Idle, [])
  }

  datatype Step =
    | Push(s: Socket)
    | Notify(ok: bool)
    | Receive(worker: nat)

  predicate Enabled(s: State, t: Step) {
    match t
    case Push(_) => s.pc.Idle? && s.next < |s.workers|
    case Notify(_) => s.pc.Notifying? && s.pc.worker < |s.workers|
    case Receive(w) => w < |s.workers| && s.workers[w].messages > 0
  }

  function AfterReceive(w: Worker): Worker
    requires w.messages > 0
  {
    var r := w.(messages := w.messages - 1);
    if w.queue == [] then r else r.(queue := w.queue[1..], adopted := w.adopted + [w.queue[0]])
  }

  function After(s: State, t: Step): State
    requires Enabled(s, t)
  {
    match t
    case Push(c) =>
      var w := s.workers[s.next];
      s.(workers := s.workers[s.next := w.(queue := w.queue + [c], given := w.given + [c])],
         next := (s.next + 1) % |s.workers|, pc := Notifying(s.next), dispatched := s.dispatched + [c])
    case Notify(ok) =>
      var w := s.workers[s.pc.worker];
      s.(workers := s.workers[s.pc.worker := if ok then w.(messages := w.messages + 1) else w.(failed := w.failed + 1)],
         pc := Idle)
    case Receive(i) => s.(workers := s.workers[i := AfterReceive(s.workers[i])])
  }

  /** A worker's account: pushed sockets are adopted in order or still queued,
      and every queued one has a message, a failed message or one on its way. */
  predicate WorkerInv(w: Worker, notifying: bool) {
    && w.given == w.adopted + w.queue
    && |w.queue| == w.messages + w.failed + if notifying then 1 else 0
  }

  /** Position of socket `k` of worker `i` in the dispatch order. */
  function Slot(k: nat, n: nat, i: nat): nat {
    k * n + i
  }

  lemma SlotNext(k: nat, n: nat, i: nat)
    ensures Slot(k, n, i + 1) == Slot(k, n, i) + 1
    ensures Slot(k + 1, n, 0) == Slot(k, n, n)
  {
    assert (k + 1) * n == k * n + n;
  }

  /** Round robin after `rounds` full rounds and `next` more sockets: worker `i`
      was given exactly the sockets `i`, `i + n`, `i + 2n`, ... */
  ghost predicate Share(s: State, rounds: nat, i: nat)
    requires i < |s.workers|
  {
    var given, n := s.workers[i].given, |s.workers|;
    && |given| == rounds + (if i < s.next then 1 else 0)
    && forall k :: 0 <= k < |given| ==> Slot(k, n, i) < |s.dispatched| && given[k] == s.dispatched[Slot(k, n, i)]
  }

  ghost predicate Inv(s: State, rounds: nat) {
    && s.next < |s.workers|
    && |s.dispatched| == Slot(rounds, |s.workers|, s.next)
    && (s.pc.Notifying? ==> s.pc.worker < |s.workers|)
    && (forall i :: 0 <= i < |s.workers| ==> WorkerInv(s.workers[i], s.pc == Notifying(i)))
    && (forall i :: 0 <= i < |s.workers| ==> Share(s, rounds, i))
  }

  function NextRounds(s: State, t: Step, rounds: nat): nat {
    if t.Push? && s.next + 1 == |s.workers| then rounds + 1 else rounds
  }

  lemma Wrap(i: nat, n: nat)
    requires i < n
    ensures (i + 1) % n == if i + 1 == n then 0 else i + 1
  {
  }

  lemma PushShares(s: State, c: Socket, rounds: nat, i: nat)
    requires Inv(s, rounds) && Enabled(s, Push(c)) && i < |s.workers|
    ensures Share(After(s, Push(c)), NextRounds(s, Push(c), rounds), i)
  {
    hide Slot;
    Wrap(s.next, |s.workers|);
    assert Share(s, rounds, i);
  }

  lemma PushKeeps(s: State, c: Socket, rounds: nat)
    requires Inv(s, rounds) && Enabled(s, Push(c))
    ensures Inv(After(s, Push(c)), NextRounds(s, Push(c), rounds))
  {
    hide Slot;
    var s', n, r' := After(s, Push(c)), |s.workers|, NextRounds(s, Push(c), rounds);
    Wrap(s.next, n);
    SlotNext(rounds, n, s.next);
    forall i | 0 <= i < n ensures Share(s', r', i) { PushShares(s, c, rounds, i); }
    hide Share;
    forall i | 0 <= i < n ensures WorkerInv(s'.workers[i], s'.pc == Notifying(i)) {
      var w := s.workers[i];
      assert WorkerInv(w, false);
      if i == s.next { assert w.adopted + (w.queue + [c]) == w.adopted + w.queue + [c]; }
    }
  }

  lemma NotifyKeeps(s: State, ok: bool, rounds: nat)
    requires Inv(s, rounds) && Enabled(s, Notify(ok))
    ensures Inv(After(s, Notify(ok)), rounds)
  {
    var s' := After(s, Notify(ok));
    forall i | 0 <= i < |s.workers|
      ensures Share(s', rounds, i) && WorkerInv(s'.workers[i], s'.pc == Notifying(i)) {
      assert Share(s, rounds, i) && WorkerInv(s.workers[i], s.pc == Notifying(i));
    }
  }

  /** A NEW_CONNECTION message always finds a queued socket. */
  lemma MessageFindsSocket(s: State, rounds: nat, i: nat)
    requires Inv(s, rounds) && Enabled(s, Receive(i))
    ensures s.workers[i].queue != []
  {
    assert WorkerInv(s.workers[i], s.pc == Notifying(i));
  }

  lemma ReceiveKeeps(s: State, i: nat, rounds: nat)
    requires Inv(s, rounds) && Enabled(s, Receive(i))
    ensures Inv(After(s, Receive(i)), rounds)
  {
    var s', w := After(s, Receive(i)), s.workers[i];
    MessageFindsSocket(s, rounds, i);
    assert w.queue == [w.queue[0]] + w.queue[1..];
    assert w.adopted + ([w.queue[0]] + w.queue[1..]) == w.adopted + [w.queue[0]] + w.queue[1..];
    forall j | 0 <= j < |s.workers|
      ensures Share(s', rounds, j) && WorkerInv(s'.workers[j], s'.pc == Notifying(j)) {
      assert Share(s, rounds, j) && WorkerInv(s.workers[j], s.pc == Notifying(j));
    }
  }

  predicate IsRun(s: State, ts: seq<Step>)
    decreases |ts|
  {
    ts == [] || (Enabled(s, ts[0]) && IsRun(After(s, ts[0]), ts[1..]))
  }

  function Last(s: State, ts: seq<Step>): State
    requires IsRun(s, ts)
    decreases |ts|
  {
    if ts == [] then s else Last(After(s, ts[0]), ts[1..])
  }

  lemma {:induction false} RunKeeps(s: State, ts: seq<Step>, rounds: nat) returns (r: nat)
    requires Inv(s, rounds) && IsRun(s, ts)
    ensures Inv(Last(s, ts), r)
    decreases |ts|
  {
    if ts == [] {
      r := rounds;
    } else {
      match ts[0] {
        case Push(c) => PushKeeps(s, c, rounds);
        case Notify(ok) => NotifyKeeps(s, ok, rounds);
        case Receive(i) => ReceiveKeeps(s, i, rounds);
      }
      r := RunKeeps(After(s, ts[0]), ts[1..], NextRounds(s, ts[0], rounds));
    }
  }

  /** In every run, with any pattern of failed notifications: a message finds its
      socket; worker `i` adopts a prefix of the sockets `i`, `i + n`, `i + 2n`, ...
      in that order, so none twice and none of another worker's; shares differ by
      at most one; and at rest a worker lacks exactly its failed messages. */
  lemma HandoffCorrect(n: nat, ts: seq<Step>, i: nat, j: nat)
    requires i < n && j < n && IsRun(Init(n), ts)
    ensures var s := Last(Init(n), ts);
      && |s.workers| == n
      && (s.workers[i].messages > 0 ==> s.workers[i].queue != [])
      && (forall k :: 0 <= k < |s.workers[i].adopted| ==>
            Slot(k, n, i) < |s.dispatched| && s.workers[i].adopted[k] == s.dispatched[Slot(k, n, i)])
      && |s.workers[i].given| <= |s.workers[j].given| + 1
      && (s.pc.Idle? && s.workers[i].messages == 0 ==>
            |s.workers[i].given| == |s.workers[i].adopted| + s.workers[i].failed)
  {
    var s0 := Init(n);
    assert Inv(s0, 0);
    var r := RunKeeps(s0, ts, 0);
    WorkersStay(s0, ts);
    var s := Last(s0, ts);
    assert Share(s, r, i) && Share(s, r, j) && WorkerInv(s.workers[i], s.pc == Notifying(i));
    var w := s.workers[i];
    forall k | 0 <= k < |w.adopted| ensures Slot(k, n, i) < |s.dispatched| && w.adopted[k] == s.dispatched[Slot(k, n, i)] {
      assert w.given[k] == w.adopted[k];
    }
  }

  lemma {:induction false} WorkersStay(s: State, ts: seq<Step>)
    requires IsRun(s, ts)
    ensures |Last(s, ts).workers| == |s.workers|
    decreases |ts|
  {
    if ts != [] { WorkersStay(After(s, ts[0]), ts[1..]); }
  }
}
