/** `LockFreeQueue`: one producer and one consumer, as atomic memory accesses
    that interleave freely, over a heap in which freed addresses are reused. */
module SpscQueue {
  import opened Basics

  type Addr = nat

  /** The queued `void*`. */
  type Item = int

  const NULL: Addr := 0

  datatype Node = Node(value: Item, next: Addr)

  /** The producer between two accesses of `produce`. */
  datatype ProducerPc =
    | ProducerIdle
    | Link(node: Addr, item: Item) // about to store last->next
    | Publish(item: Item)          // about to store last
    | Compare                      // about to compare first with divider
    | Advance                      // about to load first->next into first
    | Delete(node: Addr)           // about to delete the old first

  /** The consumer between two accesses of `consume`. */
  datatype ConsumerPc =
    | ConsumerIdle
    | LoadNext              // divider != last was seen
    | LoadValue(node: Addr) // about to load divider->next->value
    | Move(item: Item)      // about to store divider

  /** The shared and private variables, and what has gone in and come out.
      `chain`, `d` and `l` record the list from `first` on and the positions of
      `divider` and `last` in it. */
  datatype State = State(
    mem: map<Addr, Node>, first: Addr, divider: Addr, last: Addr,
    producer: ProducerPc, consumer: ConsumerPc,
    produced: seq<Item>, consumed: seq<Item>,
    chain: seq<Addr>, d: nat, l: nat)

  function Init(dummy: Item): State {
    State(map[1 := Node(dummy, NULL)], 1, 1, 1, ProducerIdle, ConsumerIdle, [], [], [1], 0, 0)
  }

  datatype Step =
    | Produce(item: Item, node: Addr)   // allocate a node at an unused address
    | ProducerStep
    | Consume                        // compare divider with last
    | ConsumerStep

  predicate Enabled(s: State, t: Step) {
    match t
    case Produce(_, n) => s.producer.ProducerIdle? && n != NULL && n !in s.mem
    case ProducerStep => !s.producer.ProducerIdle?
    case Consume => s.consumer.ConsumerIdle?
    case ConsumerStep => !s.consumer.ConsumerIdle?
  }

  /** The addresses a step dereferences or frees. */
  function Touches(s: State, t: Step): set<Addr> {
    match t
    case Produce(_, _) => {}
    case Consume => {}
    case ProducerStep =>
      (match s.producer
       case Link(_, _) => {s.last}
       case Publish(_) => {s.last}
       case Advance => {s.first}
       case Delete(n) => {n}
       case _ => {})
    case ConsumerStep =>
      (match s.consumer
       case LoadNext => {s.divider}
       case LoadValue(n) => {n}
       case Move(_) => {s.divider}
       case _ => {})
  }

  /** No step touches memory that is not allocated. */
  predicate Safe(s: State, t: Step) {
    Touches(s, t) <= s.mem.Keys
  }

  function AfterProducer(s: State): State
    requires !s.producer.ProducerIdle? && Safe(s, ProducerStep)
  {
    match s.producer
    case Link(n, v) =>
      s.(mem := s.mem[s.last := s.mem[s.last].(next := n)], producer := Publish(v), chain := s.chain + [n])
    case Publish(v) => s.(last := s.mem[s.last].next, l := s.l + 1, produced := s.produced + [v], producer := Compare)
    case Compare => s.(producer := if s.first == s.divider then ProducerIdle else Advance)
    case Advance =>
      s.(first := s.mem[s.first].next, producer := Delete(s.first),
         chain := if s.chain == [] then [] else s.chain[1..],
         d := if s.d == 0 then 0 else s.d - 1, l := if s.l == 0 then 0 else s.l - 1)
    case Delete(n) => s.(mem := s.mem - {n}, producer := Compare)
  }

  function AfterConsumer(s: State): State
    requires !s.consumer.ConsumerIdle? && Safe(s, ConsumerStep)
  {
    match s.consumer
    case LoadNext => s.(consumer := LoadValue(s.mem[s.divider].next))
    case LoadValue(n) => s.(consumer := Move(s.mem[n].value))
    case Move(v) => s.(divider := s.mem[s.divider].next, d := s.d + 1, consumed := s.consumed + [v], consumer := ConsumerIdle)
  }

  function After(s: State, t: Step): State
    requires Enabled(s, t) && Safe(s, t)
  {
    match t
    case Produce(v, n) => s.(mem := s.mem[n := Node(v, NULL)], producer := Link(n, v))
    case ProducerStep => AfterProducer(s)
    case Consume => if s.divider == s.last then s else s.(consumer := LoadNext)
    case ConsumerStep => AfterConsumer(s)
  }

  // The invariant.

  predicate Linked(mem: map<Addr, Node>, chain: seq<Addr>) {
    && (forall i :: 0 <= i < |chain| ==> chain[i] in mem && chain[i] != NULL)
    && (forall i :: 0 <= i < |chain| - 1 ==> mem[chain[i]].next == chain[i + 1])
    && (|chain| > 0 ==> mem[chain[|chain| - 1]].next == NULL)
  }

  /** The node that the producer holds outside the chain. */
  function Private(p: ProducerPc): set<Addr> {
    if p.Link? || p.Delete? then {p.node} else {}
  }

  function Values(mem: map<Addr, Node>, chain: seq<Addr>): (vs: seq<Item>)
    requires forall i :: 0 <= i < |chain| ==> chain[i] in mem
    ensures |vs| == |chain|
  {
    seq(|chain|, i requires 0 <= i < |chain| => mem[chain[i]].value)
  }

  /** first <= divider <= last along the chain. */
  predicate Pointers(s: State) {
    && s.d <= s.l < |s.chain|
    && s.chain[0] == s.first && s.chain[s.d] == s.divider && s.chain[s.l] == s.last
    && (if s.producer.Publish? then s.l + 2 == |s.chain| else s.l + 1 == |s.chain|)
    && (s.producer.Publish? ==> s.chain[s.l + 1] in s.mem && s.mem[s.chain[s.l + 1]].value == s.producer.item)
    && (s.producer.Advance? ==> s.d > 0)
  }

  /** Nothing is lost: exactly the chain and the producer's own node are allocated. */
  ghost predicate Allocated(s: State) {
    && (forall a :: a in s.mem <==> a in s.chain || a in Private(s.producer))
    && (s.producer.Link? || s.producer.Delete? ==> s.producer.node !in s.chain)
    && (s.producer.Link? ==> s.producer.node != NULL && s.mem[s.producer.node] == Node(s.producer.item, NULL))
  }

  predicate ConsumerInv(s: State)
    requires Pointers(s) && Linked(s.mem, s.chain)
  {
    && (!s.consumer.ConsumerIdle? ==> s.d < s.l)
    && (s.consumer.LoadValue? ==> s.consumer.node == s.chain[s.d + 1])
    && (s.consumer.Move? ==> s.consumer.item == s.mem[s.chain[s.d + 1]].value)
  }

  /** The items between divider and last. */
  function Queue(s: State): seq<Item>
    requires Pointers(s) && Linked(s.mem, s.chain)
  {
    Values(s.mem, s.chain[s.d + 1..s.l + 1])
  }

  ghost predicate Inv(s: State) {
    && Linked(s.mem, s.chain) && Distinct(s.chain) && Pointers(s) && Allocated(s) && ConsumerInv(s)
    && s.produced == s.consumed + Queue(s)
  }

  lemma InitInv(dummy: Item)
    ensures Inv(Init(dummy))
  {
    var s := Init(dummy);
    assert s.chain[1..1] == [] && Queue(s) == [];
  }

  /** No use after free, for either side, whatever the other one does. */
  lemma StepSafe(s: State, t: Step)
    requires Inv(s) && Enabled(s, t)
    ensures Safe(s, t)
  {
  }

  // Every access keeps the invariant.

  lemma ValuesSame(m: map<Addr, Node>, m': map<Addr, Node>, chain: seq<Addr>)
    requires forall i :: 0 <= i < |chain| ==> chain[i] in m && chain[i] in m' && m'[chain[i]].value == m[chain[i]].value
    ensures Values(m', chain) == Values(m, chain)
  {
  }

  lemma ProduceKeeps(s: State, v: Item, n: Addr)
    requires Inv(s) && Enabled(s, Produce(v, n))
    ensures Inv(After(s, Produce(v, n))) && Queue(After(s, Produce(v, n))) == Queue(s)
  {
    var s' := After(s, Produce(v, n));
    assert n !in s.chain;
    ValuesSame(s.mem, s'.mem, s.chain[s.d + 1..s.l + 1]);
  }

  lemma LinkedAppend(mem: map<Addr, Node>, chain: seq<Addr>, n: Addr)
    requires Linked(mem, chain) && Distinct(chain) && chain != []
    requires n in mem && n != NULL && n !in chain && mem[n].next == NULL
    ensures var last := chain[|chain| - 1]; var mem' := mem[last := mem[last].(next := n)];
      Linked(mem', chain + [n]) && Distinct(chain + [n])
  {
    var chain', k := chain + [n], |chain| - 1;
    var mem' := mem[chain[k] := mem[chain[k]].(next := n)];
    assert forall i :: 0 <= i < k ==> chain[i] != chain[k];
    forall i | 0 <= i < |chain'| - 1 ensures mem'[chain'[i]].next == chain'[i + 1] {
      if i < k { assert mem'[chain[i]] == mem[chain[i]]; }
    }
  }

  lemma SliceOfAppend(chain: seq<Addr>, n: Addr, a: nat, b: nat)
    requires a <= b <= |chain|
    ensures (chain + [n])[a..b] == chain[a..b]
  {
  }

  lemma LinkQueue(s: State)
    requires Linked(s.mem, s.chain) && Pointers(s) && s.producer.Link? && Safe(s, ProducerStep)
    requires Pointers(AfterProducer(s)) && Linked(AfterProducer(s).mem, AfterProducer(s).chain)
    ensures Queue(AfterProducer(s)) == Queue(s)
  {
    var s' := AfterProducer(s);
    SliceOfAppend(s.chain, s.producer.node, s.d + 1, s.l + 1);
    ValuesSame(s.mem, s'.mem, s.chain[s.d + 1..s.l + 1]);
  }

  lemma LinkParts(s: State)
    requires Linked(s.mem, s.chain) && Pointers(s) && Allocated(s) && s.producer.Link? && Safe(s, ProducerStep)
    ensures Pointers(AfterProducer(s)) && Allocated(AfterProducer(s))
  {
    var s' := AfterProducer(s);
    assert s'.chain[..|s.chain|] == s.chain && s'.chain[|s.chain|] == s.producer.node;
  }

  lemma LinkConsumer(s: State)
    requires Linked(s.mem, s.chain) && Distinct(s.chain) && Pointers(s) && ConsumerInv(s)
    requires s.producer.Link? && Safe(s, ProducerStep)
    requires Pointers(AfterProducer(s)) && Linked(AfterProducer(s).mem, AfterProducer(s).chain)
    ensures ConsumerInv(AfterProducer(s))
  {
    if !s.consumer.ConsumerIdle? { assert (s.chain + [s.producer.node])[s.d + 1] == s.chain[s.d + 1]; }
  }

  lemma LinkKeeps(s: State)
    requires Inv(s) && s.producer.Link?
    ensures Inv(AfterProducer(s)) && Queue(AfterProducer(s)) == Queue(s)
  {
    assert s.chain[|s.chain| - 1] == s.last;
    LinkedAppend(s.mem, s.chain, s.producer.node);
    LinkParts(s);
    LinkQueue(s);
    LinkConsumer(s);
    hide Linked, Distinct, Allocated, Queue, ConsumerInv, Pointers;
  }

  lemma PublishKeeps(s: State)
    requires Inv(s) && s.producer.Publish?
    ensures Inv(AfterProducer(s)) && Queue(AfterProducer(s)) == Queue(s) + [s.producer.item]
  {
    var s' := AfterProducer(s);
    assert s'.last == s.chain[s.l + 1];
    assert s.chain[s.d + 1..s.l + 2] == s.chain[s.d + 1..s.l + 1] + [s.chain[s.l + 1]];
    assert Queue(s') == Queue(s) + [s.producer.item];
  }

  lemma CompareKeeps(s: State)
    requires Inv(s) && s.producer.Compare?
    ensures Inv(AfterProducer(s)) && Queue(AfterProducer(s)) == Queue(s)
  {
    if s.d == 0 { assert s.first == s.divider; }
  }

  lemma LinkedTail(mem: map<Addr, Node>, chain: seq<Addr>)
    requires Linked(mem, chain) && Distinct(chain) && |chain| > 1
    ensures Linked(mem, chain[1..]) && Distinct(chain[1..])
    ensures mem[chain[0]].next == chain[1] && chain[0] !in chain[1..]
  {
    var rest := chain[1..];
    assert forall i :: 0 <= i < |rest| ==> rest[i] == chain[i + 1];
  }

  lemma SliceOfTail(chain: seq<Addr>, a: nat, b: nat)
    requires a <= b < |chain|
    ensures chain[1..][a..b] == chain[a + 1..b + 1]
    ensures chain == [chain[0]] + chain[1..]
  {
  }

  lemma AdvanceParts(s: State)
    requires Pointers(s) && Allocated(s) && s.producer.Advance? && Safe(s, ProducerStep)
    requires |s.chain| > 1 && s.mem[s.first].next == s.chain[1] && s.first !in s.chain[1..]
    ensures Pointers(AfterProducer(s)) && Allocated(AfterProducer(s))
  {
    SliceOfTail(s.chain, s.d, s.l);
  }

  lemma AdvanceRest(s: State)
    requires Pointers(s) && Linked(s.mem, s.chain) && ConsumerInv(s) && s.producer.Advance? && Safe(s, ProducerStep)
    requires Pointers(AfterProducer(s)) && Linked(s.mem, s.chain[1..])
    ensures ConsumerInv(AfterProducer(s)) && Queue(AfterProducer(s)) == Queue(s)
  {
    SliceOfTail(s.chain, s.d, s.l);
    hide Linked, Values;
  }

  lemma AdvanceKeeps(s: State)
    requires Inv(s) && s.producer.Advance?
    ensures Inv(AfterProducer(s)) && Queue(AfterProducer(s)) == Queue(s)
  {
    LinkedTail(s.mem, s.chain);
    AdvanceParts(s);
    AdvanceRest(s);
    hide Linked, Distinct, Queue, Allocated, ConsumerInv, Pointers;
  }

  lemma LinkedWithout(mem: map<Addr, Node>, chain: seq<Addr>, n: Addr)
    requires Linked(mem, chain) && n !in chain
    ensures Linked(mem - {n}, chain)
    ensures forall i :: 0 <= i < |chain| ==> (mem - {n})[chain[i]] == mem[chain[i]]
  {
    assert forall i :: 0 <= i < |chain| ==> chain[i] in mem - {n} && (mem - {n})[chain[i]] == mem[chain[i]];
  }

  lemma DeleteParts(s: State)
    requires Pointers(s) && Allocated(s) && Linked(s.mem, s.chain) && s.producer.Delete? && Safe(s, ProducerStep)
    ensures Pointers(AfterProducer(s)) && Allocated(AfterProducer(s))
  {
  }

  lemma DeleteRest(s: State)
    requires Pointers(s) && Linked(s.mem, s.chain) && ConsumerInv(s) && s.producer.Delete? && Safe(s, ProducerStep)
    requires s.producer.node !in s.chain
    requires Pointers(AfterProducer(s)) && Linked(AfterProducer(s).mem, s.chain)
    ensures ConsumerInv(AfterProducer(s)) && Queue(AfterProducer(s)) == Queue(s)
  {
    LinkedWithout(s.mem, s.chain, s.producer.node);
    ValuesSame(s.mem, AfterProducer(s).mem, s.chain[s.d + 1..s.l + 1]);
  }

  lemma DeleteKeeps(s: State)
    requires Inv(s) && s.producer.Delete?
    ensures Inv(AfterProducer(s)) && Queue(AfterProducer(s)) == Queue(s)
  {
    LinkedWithout(s.mem, s.chain, s.producer.node);
    DeleteParts(s);
    DeleteRest(s);
    hide Linked, Distinct, Queue, Allocated, ConsumerInv, Pointers;
  }

  lemma LoadKeeps(s: State)
    requires Inv(s) && (s.consumer.LoadNext? || s.consumer.LoadValue?)
    ensures Inv(AfterConsumer(s)) && Queue(AfterConsumer(s)) == Queue(s)
  {
    assert s.mem[s.chain[s.d]].next == s.chain[s.d + 1];
  }

  lemma ValuesHead(mem: map<Addr, Node>, chain: seq<Addr>, a: nat, b: nat)
    requires Linked(mem, chain) && a < b <= |chain|
    ensures Values(mem, chain[a..b]) == [mem[chain[a]].value] + Values(mem, chain[a + 1..b])
  {
  }

  lemma MoveParts(s: State)
    requires Pointers(s) && Linked(s.mem, s.chain) && ConsumerInv(s) && s.consumer.Move? && Safe(s, ConsumerStep)
    ensures Pointers(AfterConsumer(s)) && ConsumerInv(AfterConsumer(s))
    ensures Queue(s) == [s.consumer.item] + Queue(AfterConsumer(s))
  {
    assert s.mem[s.chain[s.d]].next == s.chain[s.d + 1];
    ValuesHead(s.mem, s.chain, s.d + 1, s.l + 1);
    hide Values, Linked;
  }

  lemma MoveKeeps(s: State)
    requires Inv(s) && s.consumer.Move?
    ensures Inv(AfterConsumer(s)) && Queue(s) == [s.consumer.item] + Queue(AfterConsumer(s))
  {
    var s' := AfterConsumer(s);
    MoveParts(s);
    assert Allocated(s');
    hide Linked, Distinct, Queue, Allocated, Pointers, ConsumerInv;
    assert s.consumed + ([s.consumer.item] + Queue(s')) == s.consumed + [s.consumer.item] + Queue(s');
  }

  // The queue refines an atomic FIFO.

  /** One access seen from outside: nothing, an item added at the end, the first
      item taken, or an empty queue reported. */
  datatype Effect = Nothing | Added(item: Item) | Taken(item: Item) | FoundEmpty

  function EffectOf(s: State, t: Step): Effect {
    if t.ProducerStep? && s.producer.Publish? then Added(s.producer.item)
    else if t.ConsumerStep? && s.consumer.Move? then Taken(s.consumer.item)
    else if t.Consume? && s.divider == s.last then FoundEmpty
    else Nothing
  }

  /** What an atomic FIFO allows. */
  predicate FifoAllows(q: seq<Item>, e: Effect, q': seq<Item>) {
    match e
    case Nothing => q' == q
    case Added(v) => q' == q + [v]
    case Taken(v) => q == [v] + q'
    case FoundEmpty => q == [] && q' == q
  }

  /** Every access of either side, in every reachable state, keeps the invariant
      and is a step of an atomic FIFO. */
  lemma StepRefines(s: State, t: Step)
    requires Inv(s) && Enabled(s, t)
    ensures Safe(s, t) && Inv(After(s, t))
    ensures FifoAllows(Queue(s), EffectOf(s, t), Queue(After(s, t)))
  {
    StepSafe(s, t);
    match t
    case Produce(v, n) => ProduceKeeps(s, v, n);
    case ProducerStep =>
      match s.producer {
        case Link(_, _) => LinkKeeps(s);
        case Publish(_) => PublishKeeps(s);
        case Compare => CompareKeeps(s);
        case Advance => AdvanceKeeps(s);
        case Delete(_) => DeleteKeeps(s);
      }
    case Consume => ConsumeKeeps(s);
    case ConsumerStep => if s.consumer.Move? { MoveKeeps(s); } else { LoadKeeps(s); }
  }

  /** `divider == last` exactly when the queue is empty. */
  lemma ConsumeKeeps(s: State)
    requires Inv(s) && s.consumer.ConsumerIdle?
    ensures Inv(After(s, Consume)) && Queue(After(s, Consume)) == Queue(s)
    ensures s.divider == s.last <==> Queue(s) == []
  {
    if s.d < s.l { assert s.chain[s.d] != s.chain[s.l]; }
  }

  // Runs.

  predicate IsRun(s: State, ts: seq<Step>)
    decreases |ts|
  {
    ts == [] || (Enabled(s, ts[0]) && Safe(s, ts[0]) && IsRun(After(s, ts[0]), ts[1..]))
  }

  function Last(s: State, ts: seq<Step>): State
    requires IsRun(s, ts)
    decreases |ts|
  {
    if ts == [] then s else Last(After(s, ts[0]), ts[1..])
  }

  lemma {:induction false} RunKeeps(s: State, ts: seq<Step>)
    requires Inv(s) && IsRun(s, ts)
    ensures Inv(Last(s, ts))
    decreases |ts|
  {
    hide Inv, After, Queue, Safe;
    if ts != [] {
      StepRefines(s, ts[0]);
      RunKeeps(After(s, ts[0]), ts[1..]);
    }
  }

  /** For every interleaving: items come out once each in production order, the
      pointers stay in order, nothing freed is touched, nothing is leaked, and no
      step can get stuck on unallocated memory. */
  lemma QueueCorrect(dummy: Item, ts: seq<Step>)
    requires IsRun(Init(dummy), ts)
    ensures var s := Last(Init(dummy), ts);
      && s.consumed <= s.produced
      && s.d <= s.l < |s.chain| && s.chain[0] == s.first && s.chain[s.d] == s.divider && s.chain[s.l] == s.last
      && (forall t :: Enabled(s, t) ==> Safe(s, t))
      && (forall a :: a in s.mem <==> a in s.chain || a in Private(s.producer))
  {
    InitInv(dummy);
    RunKeeps(Init(dummy), ts);
    var s := Last(Init(dummy), ts);
    forall t | Enabled(s, t) ensures Safe(s, t) { StepSafe(s, t); }
  }
}
