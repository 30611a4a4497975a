/** Whole lives of configuration trees: any sequence of allocations, keys and additions,
    ended by the destruction of what was built. */
module ConfigRuns {
  import opened Basics
  import opened ConfigTree

  /** The trees that nobody is parent of, and the key buffer and key of each node. */
  datatype Forest = Forest(trees: seq<Tree>, keys: map<Ptr, (Ptr, string)>)

  datatype Op = New(p: Ptr) | Key(p: Ptr, b: Ptr, text: string) | Add(parent: Ptr, child: Ptr)

  /** Where the tree with this root is. */
  function Find(q: seq<Tree>, root: Ptr): (i: nat)
    ensures i <= |q| && (i < |q| ==> q[i].id == root)
  {
    if q == [] then 0 else if q[0].id == root then 0 else 1 + Find(q[1..], root)
  }

  function Without(q: seq<Tree>, i: nat): seq<Tree>
    requires i < |q|
  {
    q[..i] + q[i + 1..]
  }

  function After(f: Forest, op: Op): Forest {
    match op
    case New(p) => f.(trees := f.trees + [Tree(p, [])])
    case Key(p, b, text) => f.(keys := f.keys[p := (b, text)])
    case Add(parent, child) =>
      var i := Find(f.trees, child);
      if i < |f.trees| then f.(trees := GrowAll(Without(f.trees, i), parent, f.trees[i])) else f
  }

  function Last(f: Forest, ops: seq<Op>): Forest
    decreases |ops|
  {
    if ops == [] then f else Last(After(f, ops[0]), ops[1..])
  }

  /** New addresses are unused, a node gets one key, and a root becomes the child of a node
      of another tree. */
  predicate Legal(f: Forest, op: Op) {
    match op
    case New(p) => p != NULL && p !in Nodes(f.trees)
    case Key(p, b, _) => p in Nodes(f.trees) && p !in f.keys && b != NULL && forall x <- f.keys :: f.keys[x].0 != b
    case Add(parent, child) =>
      var i := Find(f.trees, child);
      i < |f.trees| && parent in Nodes(Without(f.trees, i))
  }

  predicate LegalRun(f: Forest, ops: seq<Op>)
    decreases |ops|
  {
    ops != [] ==> Legal(f, ops[0]) && LegalRun(After(f, ops[0]), ops[1..])
  }

  /** Memory holds exactly the forest. */
  ghost predicate Shows(mem: Memory, bufs: Buffers, f: Forest) {
    && Unique(f.trees) && Standing(mem, f.trees) && mem.Keys == NodeSet(f.trees)
    && KeysOwned(mem, bufs) && Keyed(mem, bufs, f.keys)
  }

  ghost predicate Standing(mem: Memory, q: seq<Tree>) {
    forall i :: 0 <= i < |q| ==> Represents(mem, q[i])
  }

  ghost predicate Keyed(mem: Memory, bufs: Buffers, keys: map<Ptr, (Ptr, string)>) {
    && keys.Keys <= mem.Keys
    && forall p <- mem ::
         if p in keys then mem[p].key == keys[p].0 && mem[p].key in bufs && bufs[mem[p].key] == keys[p].1 else mem[p].key == NULL
  }

  // Trees of one forest.

  lemma NodesWithout(q: seq<Tree>, i: nat)
    requires i < |q|
    ensures Nodes(q) == Nodes(Without(q, i)) + Nodes([q[i]])
  {
    hide Nodes;
    assert q == q[..i] + ([q[i]] + q[i + 1..]);
    NodesConcat(q[..i], [q[i]] + q[i + 1..]);
    NodesConcat([q[i]], q[i + 1..]);
    NodesConcat(q[..i], q[i + 1..]);
  }

  lemma NodesOfTree(q: seq<Tree>, i: nat, p: Ptr)
    requires i < |q|
    ensures Nodes([q[i]])[p] <= Nodes(q)[p]
  {
    hide Nodes;
    NodesWithout(q, i);
  }

  lemma UniqueApart(q: seq<Tree>, i: nat, j: nat)
    requires Unique(q) && i < |q| && j < |q| && i != j
    ensures Nodes([q[i]]) !! Nodes([q[j]])
  {
    hide Nodes;
    NodesWithout(q, i);
    var w, k := Without(q, i), if j < i then j else j - 1;
    assert w[k] == q[j];
    forall p <- Nodes([q[i]]) ensures p !in Nodes([q[j]]) {
      NodesOfTree(w, k, p);
      assert p in Nodes(q) && Nodes(q)[p] == 1;
    }
  }

  lemma UniqueWithout(q: seq<Tree>, i: nat)
    requires Unique(q) && i < |q|
    ensures Unique(Without(q, i)) && Nodes(Without(q, i)) !! Nodes([q[i]])
  {
    hide Nodes;
    NodesWithout(q, i);
    forall p <- Nodes(Without(q, i)) ensures Nodes(Without(q, i))[p] == 1 && p !in Nodes([q[i]]) {
      assert p in Nodes(q);
    }
  }

  /** The tree a node belongs to. */
  lemma {:induction false} TreeOf(q: seq<Tree>, p: Ptr) returns (i: nat)
    requires p in Nodes(q)
    ensures i < |q| && p in Nodes([q[i]])
  {
    assert q == [q[0]] + q[1..];
    NodesConcat([q[0]], q[1..]);
    if p in Nodes([q[0]]) {
      i := 0;
    } else {
      i := TreeOf(q[1..], p);
      i := i + 1;
    }
  }

  lemma {:induction false} GrowOutside(q: seq<Tree>, p: Ptr, u: Tree)
    requires p !in Nodes(q)
    ensures GrowAll(q, p, u) == q
  {
    if q != [] {
      GrowOutside(q[0].kids, p, u);
      GrowOutside(q[1..], p, u);
      assert Grow(q[0], p, u) == q[0];
    }
  }

  lemma GrowOther(t: Tree, p: Ptr, u: Tree)
    requires p !in Nodes([t])
    ensures Grow(t, p, u) == t
  {
    GrowOutside([t], p, u);
    assert GrowAll([t], p, u)[0] == Grow(t, p, u);
  }

  lemma GrowAllNodes(q: seq<Tree>, p: Ptr, u: Tree)
    requires Unique(q) && p in Nodes(q)
    ensures Nodes(GrowAll(q, p, u)) == Nodes(q) + Nodes([u])
  {
    hide Nodes, GrowAll;
    assert Nodes(q)[p] == 1;
    forall x: Ptr ensures Nodes(GrowAll(q, p, u))[x] == Nodes(q)[x] + Nodes([u])[x] { GrowNodes(q, p, u, x); }
  }

  // The operations.

  lemma NewShows(mem: Memory, bufs: Buffers, f: Forest, p: Ptr, mem': Memory)
    requires Shows(mem, bufs, f) && Legal(f, New(p)) && KeysOwned(mem', bufs)
    requires mem' == mem[p := Node(NULL, NULL, NULL, NULL, NULL, NULL, 0, 0)] && Represents(mem', Tree(p, []))
    requires forall t :: Represents(mem, t) ==> Represents(mem', t)
    ensures Shows(mem', bufs, After(f, New(p)))
  {
    hide Represents, KeysOwned, Nodes;
    NewUnique(f.trees, p);
  }

  lemma NewUnique(q: seq<Tree>, p: Ptr)
    requires Unique(q) && p !in Nodes(q)
    ensures Unique(q + [Tree(p, [])]) && NodeSet(q + [Tree(p, [])]) == NodeSet(q) + {p}
  {
    hide Nodes;
    NodesConcat(q, [Tree(p, [])]);
    OneNode(p);
    OneMore(Nodes(q), Nodes(q + [Tree(p, [])]), p);
  }

  lemma OneMore(m: multiset<Ptr>, n: multiset<Ptr>, p: Ptr)
    requires n == m + multiset{p} && p !in m && forall x <- m :: m[x] == 1
    ensures (forall x <- n :: n[x] == 1) && (set x | x in n) == (set x | x in m) + {p}
  {
    forall x: Ptr ensures n[x] == m[x] + (if x == p then 1 else 0) { }
  }

  lemma KeyShows(mem: Memory, bufs: Buffers, f: Forest, p: Ptr, b: Ptr, text: string, mem': Memory, bufs': Buffers)
    requires Shows(mem, bufs, f) && Legal(f, Key(p, b, text)) && KeysOwned(mem', bufs') && p in mem && b !in bufs
    requires mem' == mem[p := mem[p].(key := b)] && bufs' == bufs[b := text]
    requires forall t :: Represents(mem, t) ==> Represents(mem', t)
    ensures Shows(mem', bufs', After(f, Key(p, b, text)))
  {
    hide Represents, KeysOwned, Nodes;
    assert mem'.Keys == mem.Keys;
  }

  /** An unused buffer address, seen from the forest. */
  lemma UnusedBuffer(mem: Memory, bufs: Buffers, f: Forest, b: Ptr)
    requires Shows(mem, bufs, f) && forall x <- f.keys :: f.keys[x].0 != b
    ensures b == NULL || b !in bufs
  {
    hide Represents, Nodes;
    assert b != NULL ==> forall p <- mem :: mem[p].key != b;
  }

  lemma AddShows(mem: Memory, bufs: Buffers, f: Forest, p: Ptr, c: Ptr, i: nat, mem': Memory)
    requires Shows(mem, bufs, f) && Legal(f, Add(p, c)) && KeysOwned(mem', bufs) && SameKeys(mem, mem') && mem'.Keys == mem.Keys
    requires var j := Find(f.trees, c); var w, u := Without(f.trees, j), f.trees[j];
      && i < |w| && p in Nodes([w[i]]) && Represents(mem', Grow(w[i], p, u))
      && forall x <- mem' :: x !in Nodes([w[i]]) + Nodes([u]) ==> mem'[x] == mem[x]
    ensures Shows(mem', bufs, After(f, Add(p, c)))
  {
    hide Represents, KeysOwned, Nodes, GrowAll;
    var j := Find(f.trees, c);
    var w, u := Without(f.trees, j), f.trees[j];
    UniqueWithout(f.trees, j);
    NodesWithout(f.trees, j);
    NodesOfTree(w, i, p);
    GrowAllNodes(w, p, u);
    var q := GrowAll(w, p, u);
    forall k | 0 <= k < |q| ensures Represents(mem', q[k]) {
      assert q[k] == Grow(w[k], p, u);
      if k != i { OtherStands(mem, mem', f.trees, j, i, k, p); }
    }
  }

  lemma OtherStands(mem: Memory, mem': Memory, q: seq<Tree>, j: nat, i: nat, k: nat, p: Ptr)
    requires Unique(q) && Standing(mem, q) && j < |q| && mem'.Keys == mem.Keys
    requires var w := Without(q, j);
      i < |w| && k < |w| && i != k && p in Nodes([w[i]])
      && forall x <- mem' :: x !in Nodes([w[i]]) + Nodes([q[j]]) ==> mem'[x] == mem[x]
    ensures var t := Without(q, j)[k]; Grow(t, p, q[j]) == t && Represents(mem', t)
  {
    hide Nodes, Chain, GrowAll;
    var w := Without(q, j);
    UniqueWithout(q, j);
    UniqueApart(w, i, k);
    GrowOther(w[k], p, q[j]);
    var at := if k < j then k else k + 1;
    assert w[k] == q[at];
    NodesInMemory(mem, w[k]);
    forall x <- Nodes([w[k]]) ensures x in mem' && mem'[x] == mem[x] { NodesOfTree(w, k, x); }
    StandsElsewhere(mem, mem', w[k]);
  }

  method Perform(c: Config, op: Op, f: Forest)
    requires Shows(c.mem, c.bufs, f) && Legal(f, op)
    modifies c
    ensures Shows(c.mem, c.bufs, After(f, op)) && c.freed == old(c.freed) && c.freedKeys == old(c.freedKeys)
  {
    hide Represents, KeysOwned, Nodes, GrowAll, Unique, Find;
    ghost var m0, b0 := c.mem, c.bufs;
    match op
    case New(p) =>
      c.NewNode(p);
      NewShows(m0, b0, f, p, c.mem);
    case Key(p, b, text) =>
      UnusedBuffer(m0, b0, f, b);
      c.CopyKey(p, b, text);
      KeyShows(m0, b0, f, p, b, text, c.mem, c.bufs);
    case Add(parent, child) =>
      ghost var j := Find(f.trees, child);
      ghost var w, u := Without(f.trees, j), f.trees[j];
      ghost var i := TreeOf(w, parent);
      AddReady(m0, f.trees, j, i);
      c.AddChild(parent, child, w[i], u);
      AddShows(m0, b0, f, parent, child, i, c.mem);
  }

  lemma AddReady(mem: Memory, q: seq<Tree>, j: nat, i: nat)
    requires Unique(q) && Standing(mem, q) && j < |q| && i < |Without(q, j)|
    ensures Represents(mem, q[j]) && Represents(mem, Without(q, j)[i]) && Nodes([Without(q, j)[i]]) !! Nodes([q[j]])
  {
    hide Represents, Nodes;
    var at := if i < j then i else i + 1;
    assert Without(q, j)[i] == q[at];
    UniqueApart(q, at, j);
  }

  /** Any legal run: memory holds exactly the forest that the run describes. */
  method PerformAll(c: Config, ops: seq<Op>, first: Forest) returns (f: Forest)
    requires Shows(c.mem, c.bufs, first) && LegalRun(first, ops)
    modifies c
    ensures f == Last(first, ops) && Shows(c.mem, c.bufs, f)
    ensures c.freed == old(c.freed) && c.freedKeys == old(c.freedKeys)
  {
    hide Shows, Legal, After;
    f := first;
    var i := 0;
    assert ops[0..] == ops;
    while i < |ops|
      invariant i <= |ops| && Shows(c.mem, c.bufs, f) && LegalRun(f, ops[i..]) && Last(first, ops) == Last(f, ops[i..])
      invariant c.freed == old(c.freed) && c.freedKeys == old(c.freedKeys)
    {
      assert ops[i..][1..] == ops[i + 1..];
      Perform(c, ops[i], f);
      f := After(f, ops[i]);
      i := i + 1;
    }
    assert ops[i..] == [];
  }

  // The end.

  /** The order in which the trees of a forest are freed. */
  function Order(q: seq<Tree>): seq<Ptr> {
    if q == [] then [] else LevelOrder([q[0]]) + Order(q[1..])
  }

  lemma {:induction false} OrderNodes(q: seq<Tree>)
    ensures multiset(Order(q)) == Nodes(q)
  {
    hide LevelOrder, Nodes;
    if q == [] {
      NoNodes();
    } else {
      LevelOrderNodes([q[0]]);
      OrderNodes(q[1..]);
      assert q == [q[0]] + q[1..];
      NodesConcat([q[0]], q[1..]);
    }
  }

  lemma NoNodes()
    ensures Nodes([]) == multiset{}
  {
  }

  lemma {:induction false} KeyListConcat(mem: Memory, a: seq<Ptr>, b: seq<Ptr>)
    ensures KeyList(mem, a + b) == KeyList(mem, a) + KeyList(mem, b)
  {
    if a == [] {
      assert a + b == b;
    } else {
      assert (a + b)[1..] == a[1..] + b;
      KeyListConcat(mem, a[1..], b);
    }
  }

  lemma {:induction false} KeyListSame(mem: Memory, mem': Memory, ps: seq<Ptr>)
    requires forall p <- ps :: p in mem && p in mem' && mem'[p].key == mem[p].key
    ensures KeyList(mem, ps) == KeyList(mem', ps)
  {
    if ps != [] { KeyListSame(mem, mem', ps[1..]); }
  }

  lemma {:induction false} KeyListMembers(mem: Memory, ps: seq<Ptr>, b: Ptr)
    ensures b in KeyList(mem, ps) <==> b != NULL && exists p :: p in ps && p in mem && mem[p].key == b
  {
    if ps != [] {
      KeyListMembers(mem, ps[1..], b);
      assert ps == [ps[0]] + ps[1..];
    }
  }

  /** Nodes freed once each mean keys freed once each. */
  lemma {:induction false} KeysFreedOnce(mem: Memory, bufs: Buffers, ps: seq<Ptr>)
    requires KeysOwned(mem, bufs) && Distinct(ps)
    ensures Distinct(KeyList(mem, ps))
  {
    if ps != [] {
      var rest := KeyList(mem, ps[1..]);
      assert Distinct(ps[1..]);
      KeysFreedOnce(mem, bufs, ps[1..]);
      if ps[0] in mem && mem[ps[0]].key != NULL {
        KeyListMembers(mem, ps[1..], mem[ps[0]].key);
        assert mem[ps[0]].key !in rest;
        assert KeyList(mem, ps) == [mem[ps[0]].key] + rest;
      } else {
        assert KeyList(mem, ps) == [] + rest == rest;
      }
    }
  }

  lemma UniqueOrder(q: seq<Tree>)
    requires Unique(q)
    ensures Distinct(Order(q))
  {
    hide Nodes;
    var s := Order(q);
    OrderNodes(q);
    forall i, j | 0 <= i < j < |s| ensures s[i] != s[j] {
      assert s[i] in multiset(s);
      if s[i] == s[j] { SeqCounts(s, i, j); }
    }
  }

  lemma OneTreeLess(mem: Memory, q: seq<Tree>)
    requires q != [] && Unique(q) && Standing(mem, q) && mem.Keys == NodeSet(q)
    ensures var mem' := mem - NodeSet([q[0]]);
      Unique(q[1..]) && Standing(mem', q[1..]) && mem'.Keys == NodeSet(q[1..]) && SameKeys(mem, mem')
  {
    hide Nodes, Represents;
    var mem' := mem - NodeSet([q[0]]);
    assert q[1..] == Without(q, 0);
    UniqueWithout(q, 0);
    NodesWithout(q, 0);
    forall i | 0 <= i < |q[1..]| ensures Represents(mem', q[1..][i]) {
      assert q[1..][i] == q[i + 1];
      UniqueApart(q, 0, i + 1);
      NodesInMemory(mem, q[i + 1]);
      StandsElsewhere(mem, mem', q[i + 1]);
    }
  }

  /** All of `q` was freed in order, with its keys, and nothing is left in memory but `rest`. */
  ghost predicate Ended(m0: Memory, q: seq<Tree>, done: seq<Ptr>, keys: seq<Ptr>, mem: Memory, rest: seq<Tree>,
                        freed: seq<Ptr>, freedKeys: seq<Ptr>) {
    && Unique(rest) && Standing(mem, rest) && mem.Keys == NodeSet(rest) && SameKeys(m0, mem)
    && freed + Order(rest) == done + Order(q) && freedKeys + KeyList(m0, Order(rest)) == keys + KeyList(m0, Order(q))
  }

  lemma EndStep(m0: Memory, q: seq<Tree>, done: seq<Ptr>, keys: seq<Ptr>, mem: Memory, rest: seq<Tree>,
                freed: seq<Ptr>, freedKeys: seq<Ptr>)
    requires rest != [] && Ended(m0, q, done, keys, mem, rest, freed, freedKeys)
    ensures var order := LevelOrder([rest[0]]);
      Ended(m0, q, done, keys, mem - NodeSet([rest[0]]), rest[1..], freed + order, freedKeys + KeyList(mem, order))
  {
    hide Nodes, Represents, LevelOrder, KeyList;
    var order := LevelOrder([rest[0]]);
    OneTreeLess(mem, rest);
    assert freed + (order + Order(rest[1..])) == (freed + order) + Order(rest[1..]);
    KeyListConcat(m0, order, Order(rest[1..]));
    var a, b := KeyList(m0, order), KeyList(m0, Order(rest[1..]));
    assert freedKeys + (a + b) == (freedKeys + a) + b;
    LevelOrderNodes([rest[0]]);
    NodesInMemory(mem, rest[0]);
    forall p <- order ensures p in m0 && p in mem && m0[p].key == mem[p].key { assert p in multiset(order); }
    KeyListSame(m0, mem, order);
  }

  /** Destroying every tree of a forest leaves nothing: each node and each key buffer was
      freed once. */
  method DestroyAll(c: Config, f: Forest)
    requires Shows(c.mem, c.bufs, f)
    modifies c
    ensures c.mem == map[] && c.bufs == map[]
    ensures c.freed == old(c.freed) + Order(f.trees) && multiset(Order(f.trees)) == Nodes(f.trees)
    ensures c.freedKeys == old(c.freedKeys) + KeyList(old(c.mem), Order(f.trees))
    ensures Distinct(Order(f.trees)) && Distinct(KeyList(old(c.mem), Order(f.trees)))
  {
    hide Nodes, Represents, LevelOrder, KeyList, KeysOwned, Ended, Order;
    ghost var m0, done, keys := c.mem, c.freed, c.freedKeys;
    OrderNodes(f.trees);
    UniqueOrder(f.trees);
    KeysFreedOnce(m0, c.bufs, Order(f.trees));
    var rest := f.trees;
    EndStart(m0, rest, done, keys);
    while rest != []
      invariant KeysOwned(c.mem, c.bufs) && Ended(m0, f.trees, done, keys, c.mem, rest, c.freed, c.freedKeys)
      decreases |rest|
    {
      ghost var mem, freed, freedKeys := c.mem, c.freed, c.freedKeys;
      FirstStands(m0, f.trees, done, keys, mem, rest, freed, freedKeys);
      c.Destroy(rest[0].id, rest[0]);
      EndStep(m0, f.trees, done, keys, mem, rest, freed, freedKeys);
      rest := rest[1..];
    }
    NothingLeft(m0, f.trees, done, keys, c.mem, c.bufs, c.freed, c.freedKeys);
  }

  lemma EndStart(mem: Memory, q: seq<Tree>, done: seq<Ptr>, keys: seq<Ptr>)
    requires Unique(q) && Standing(mem, q) && mem.Keys == NodeSet(q)
    ensures Ended(mem, q, done, keys, mem, q, done, keys)
  {
    hide Nodes, Represents, LevelOrder, KeyList;
  }

  lemma FirstStands(m0: Memory, q: seq<Tree>, done: seq<Ptr>, keys: seq<Ptr>, mem: Memory, rest: seq<Tree>,
                    freed: seq<Ptr>, freedKeys: seq<Ptr>)
    requires rest != [] && Ended(m0, q, done, keys, mem, rest, freed, freedKeys)
    ensures Represents(mem, rest[0]) && rest[0].id != NULL
  {
    hide Nodes;
    assert ChainAt(mem, [rest[0]], 0);
  }

  lemma NothingLeft(m0: Memory, q: seq<Tree>, done: seq<Ptr>, keys: seq<Ptr>, mem: Memory, bufs: Buffers,
                    freed: seq<Ptr>, freedKeys: seq<Ptr>)
    requires Ended(m0, q, done, keys, mem, [], freed, freedKeys) && KeysOwned(mem, bufs)
    ensures mem == map[] && bufs == map[]
    ensures freed == done + Order(q) && freedKeys == keys + KeyList(m0, Order(q))
  {
    assert NodeSet([]) == {};
    assert freed + [] == freed && freedKeys + [] == freedKeys;
  }

  /** The addresses that a run gets from the allocator. */
  function Allocated(ops: seq<Op>): multiset<Ptr> {
    if ops == [] then multiset{} else (if ops[0].New? then multiset{ops[0].p} else multiset{}) + Allocated(ops[1..])
  }

  lemma {:induction false} RunNodes(f: Forest, ops: seq<Op>)
    requires Unique(f.trees) && LegalRun(f, ops)
    ensures Nodes(Last(f, ops).trees) == Nodes(f.trees) + Allocated(ops)
    decreases |ops|
  {
    hide Nodes, GrowAll, Find;
    if ops != [] {
      StepNodes(f, ops[0]);
      RunNodes(After(f, ops[0]), ops[1..]);
    }
  }

  lemma StepNodes(f: Forest, op: Op)
    requires Unique(f.trees) && Legal(f, op)
    ensures Unique(After(f, op).trees)
    ensures Nodes(After(f, op).trees) == Nodes(f.trees) + if op.New? then multiset{op.p} else multiset{}
  {
    hide Nodes, GrowAll, Find;
    match op
    case New(p) =>
      NewUnique(f.trees, p);
      NodesConcat(f.trees, [Tree(p, [])]);
      OneNode(p);
    case Key(p, b, text) =>
    case Add(parent, child) =>
      var j := Find(f.trees, child);
      UniqueWithout(f.trees, j);
      NodesWithout(f.trees, j);
      GrowAllNodes(Without(f.trees, j), parent, f.trees[j]);
  }

  lemma OneNode(p: Ptr)
    ensures Nodes([Tree(p, [])]) == multiset{p}
  {
  }

  /** The key buffers that a run gets from the allocator. */
  function KeyBuffers(ops: seq<Op>): multiset<Ptr> {
    if ops == [] then multiset{} else (if ops[0].Key? then multiset{ops[0].b} else multiset{}) + KeyBuffers(ops[1..])
  }

  predicate IsKey(f: Forest, b: Ptr) {
    exists p :: p in f.keys && f.keys[p].0 == b
  }

  lemma StepKeys(f: Forest, op: Op, b: Ptr)
    requires Legal(f, op)
    ensures IsKey(After(f, op), b) <==> IsKey(f, b) || (op.Key? && op.b == b)
    ensures op.Key? && op.b == b ==> !IsKey(f, b)
  {
    hide Nodes, GrowAll, Find;
    var g := After(f, op);
    if op.Key? {
      assert op.p in g.keys && g.keys[op.p].0 == op.b;
      if IsKey(f, b) {
        var p :| p in f.keys && f.keys[p].0 == b;
        assert p in g.keys && g.keys[p].0 == b;
      }
    }
  }

  /** Over a legal run each buffer is allocated at most once, and is then somebody's key. */
  lemma {:induction false} RunKeys(f: Forest, ops: seq<Op>, b: Ptr)
    requires LegalRun(f, ops)
    ensures IsKey(f, b) ==> IsKey(Last(f, ops), b)
    ensures KeyBuffers(ops)[b] == if IsKey(Last(f, ops), b) && !IsKey(f, b) then 1 else 0
    decreases |ops|
  {
    hide IsKey, Legal, After;
    if ops != [] {
      StepKeys(f, ops[0], b);
      RunKeys(After(f, ops[0]), ops[1..], b);
    }
  }

  /** The buffers freed with the nodes of a forest are its keys. */
  lemma FreedIsKey(mem: Memory, bufs: Buffers, f: Forest, b: Ptr)
    requires Shows(mem, bufs, f)
    ensures b in KeyList(mem, Order(f.trees)) <==> IsKey(f, b)
  {
    hide Represents, Nodes, Order, KeyList;
    OrderNodes(f.trees);
    var order := Order(f.trees);
    KeyListMembers(mem, order, b);
    if IsKey(f, b) {
      var p :| p in f.keys && f.keys[p].0 == b;
      assert p in mem && p in multiset(order);
    }
  }

  lemma DistinctCount(s: seq<Ptr>, b: Ptr)
    requires Distinct(s)
    ensures multiset(s)[b] == if b in s then 1 else 0
  {
    if s != [] {
      assert s == [s[0]] + s[1..];
      DistinctCount(s[1..], b);
    }
  }

  /** A whole life: whatever a legal run builds from nothing, destroying it frees every
      node that was allocated, once, and every key buffer, once, and nothing is left. */
  method BuildAndDestroy(ops: seq<Op>) returns (c: Config)
    requires LegalRun(Forest([], map[]), ops)
    ensures c.mem == map[] && c.bufs == map[]
    ensures multiset(c.freed) == Allocated(ops) && multiset(c.freedKeys) == KeyBuffers(ops)
    ensures Distinct(c.freed) && Distinct(c.freedKeys)
  {
    hide Shows, LegalRun, Last, Order, KeyList, Nodes, KeyBuffers, IsKey;
    c := new Config();
    var none := Forest([], map[]);
    ShowsNothing(c.mem, c.bufs);
    var f := PerformAll(c, ops, none);
    RunNodes(none, ops);
    NoNodes();
    ghost var order, keys := Order(f.trees), KeyList(c.mem, Order(f.trees));
    ghost var mem, bufs := c.mem, c.bufs;
    DestroyAll(c, f);
    assert [] + order == order && [] + keys == keys;
    KeysOfRun(mem, bufs, f, ops);
  }

  lemma KeysOfRun(mem: Memory, bufs: Buffers, f: Forest, ops: seq<Op>)
    requires LegalRun(Forest([], map[]), ops) && f == Last(Forest([], map[]), ops) && Shows(mem, bufs, f)
    requires Distinct(KeyList(mem, Order(f.trees)))
    ensures multiset(KeyList(mem, Order(f.trees))) == KeyBuffers(ops)
  {
    hide Shows, LegalRun, Last, Order, KeyList, KeyBuffers, IsKey;
    var m: multiset<Ptr> := multiset(KeyList(mem, Order(f.trees)));
    forall b: Ptr ensures m[b] == KeyBuffers(ops)[b] {
      RunKeys(Forest([], map[]), ops, b);
      NoKey(b);
      FreedIsKey(mem, bufs, f, b);
      DistinctCount(KeyList(mem, Order(f.trees)), b);
    }
  }

  lemma NoKey(b: Ptr)
    ensures !IsKey(Forest([], map[]), b)
  {
  }

  lemma ShowsNothing(mem: Memory, bufs: Buffers)
    requires mem == map[] && bufs == map[]
    ensures Shows(mem, bufs, Forest([], map[])) && Unique([])
  {
  }
}
