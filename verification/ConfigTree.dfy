/** The configuration tree of new-config: children linked as siblings, and a
    destroyer that turns the tree into one sibling list while it frees it. Memory is
    two maps, from addresses to nodes and to key buffers, so that touching what was freed
    is an error. */
module ConfigTree {
  type Ptr = nat

  const NULL: Ptr := 0

  /** `key` is the address of the buffer with the key, or null. */
  datatype Node = Node(parent: Ptr, prev: Ptr, next: Ptr, first: Ptr, last: Ptr, key: Ptr, length: nat, index: nat)

  type Memory = map<Ptr, Node>

  type Buffers = map<Ptr, string>

  /** The shape of a tree of nodes. */
  datatype Tree = Tree(id: Ptr, kids: seq<Tree>)

  // The nodes of a list of trees.

  function Nodes(q: seq<Tree>): multiset<Ptr> {
    if q == [] then multiset{} else multiset{q[0].id} + Nodes(q[0].kids) + Nodes(q[1..])
  }

  function Ids(q: seq<Tree>): (s: seq<Ptr>)
    ensures |s| == |q| && forall i :: 0 <= i < |q| ==> s[i] == q[i].id
  {
    if q == [] then [] else [q[0].id] + Ids(q[1..])
  }

  /** All children of the trees, in order. */
  function Kids(q: seq<Tree>): seq<Tree> {
    if q == [] then [] else q[0].kids + Kids(q[1..])
  }

  function NodeSet(q: seq<Tree>): set<Ptr> {
    set p | p in Nodes(q)
  }

  predicate Unique(q: seq<Tree>) {
    forall p <- Nodes(q) :: Nodes(q)[p] == 1
  }

  lemma {:induction false} NodesConcat(a: seq<Tree>, b: seq<Tree>)
    ensures Nodes(a + b) == Nodes(a) + Nodes(b)
  {
    if a == [] {
      assert a + b == b;
    } else {
      assert (a + b)[1..] == a[1..] + b;
      NodesConcat(a[1..], b);
    }
  }

  lemma {:induction false} NodesSplit(q: seq<Tree>)
    ensures Nodes(q) == multiset(Ids(q)) + Nodes(Kids(q))
  {
    if q != [] {
      NodesSplit(q[1..]);
      NodesConcat(q[0].kids, Kids(q[1..]));
    }
  }

  lemma {:induction false} NodesOfKid(q: seq<Tree>, i: nat, p: Ptr)
    requires i < |q|
    ensures Nodes(q[i].kids)[p] <= Nodes(Kids(q))[p]
  {
    hide Nodes;
    NodesConcat(q[0].kids, Kids(q[1..]));
    if i > 0 { NodesOfKid(q[1..], i - 1, p); }
  }

  lemma SeqCounts(s: seq<Ptr>, i: nat, j: nat)
    requires i < j < |s| && s[i] == s[j]
    ensures multiset(s)[s[i]] >= 2
  {
    assert s == s[..j] + [s[j]] + s[j + 1..];
    assert s[..j][i] == s[i];
  }

  /** In a list of trees without shared nodes, roots differ from each other and from
      everything below any root. */
  lemma Apart(q: seq<Tree>, i: nat, j: nat)
    requires Unique(q) && i < |q| && j < |q|
    ensures q[j].id !in Nodes(q[i].kids) && (i != j ==> q[i].id != q[j].id)
  {
    NodesSplit(q);
    var p := q[j].id;
    NodesOfKid(q, i, p);
    assert p == Ids(q)[j];
    assert p in Nodes(q);
    if i != j && q[i].id == p {
      if i < j { SeqCounts(Ids(q), i, j); } else { SeqCounts(Ids(q), j, i); }
    }
  }

  lemma UniqueKids(q: seq<Tree>)
    requires q != [] && Unique(q)
    ensures Unique(q[1..] + q[0].kids)
    ensures Nodes(q) == Nodes(q[1..] + q[0].kids) + multiset{q[0].id}
    ensures NodeSet(q[1..] + q[0].kids) == NodeSet(q) - {q[0].id}
  {
    NodesConcat(q[1..], q[0].kids);
    Take(Nodes(q), Nodes(q[1..] + q[0].kids), q[0].id);
  }

  lemma Take(all: multiset<Ptr>, rest: multiset<Ptr>, p: Ptr)
    requires all == rest + multiset{p} && forall x <- all :: all[x] == 1
    ensures forall x <- rest :: rest[x] == 1
    ensures (set x | x in rest) == (set x | x in all) - {p}
  {
    assert all[p] == 1;
    forall x: Ptr ensures x in rest <==> x in all && x != p {
      assert all[x] == rest[x] + multiset{p}[x];
    }
    forall x: Ptr | x in rest ensures rest[x] == 1 {
      assert x in all;
    }
  }

  // Representation in memory.

  predicate Linked(mem: Memory, p: Ptr, kids: seq<Tree>) {
    && p in mem && mem[p].length == |kids|
    && (if kids == [] then mem[p].first == NULL else mem[p].first == kids[0].id && mem[p].last == kids[|kids| - 1].id)
    && forall i :: 0 <= i < |kids| ==> Sibling(mem, p, kids, i)
  }

  predicate Sibling(mem: Memory, p: Ptr, kids: seq<Tree>, i: nat)
    requires i < |kids|
  {
    && kids[i].id != NULL && kids[i].id in mem
    && var n := mem[kids[i].id];
       && n.parent == p && n.index == i
       && n.prev == (if i > 0 then kids[i - 1].id else NULL)
       && n.next == (if i + 1 < |kids| then kids[i + 1].id else NULL)
  }

  /** The tree hangs together below its root. */
  predicate Below(mem: Memory, t: Tree) {
    Linked(mem, t.id, t.kids) && forall i :: 0 <= i < |t.kids| ==> Below(mem, t.kids[i])
  }

  /** A list of trees strung together by their sibling links, as the destroyer
      keeps it. */
  predicate Chain(mem: Memory, q: seq<Tree>) {
    forall i :: 0 <= i < |q| ==> ChainAt(mem, q, i)
  }

  predicate ChainAt(mem: Memory, q: seq<Tree>, i: nat)
    requires i < |q|
  {
    && q[i].id != NULL && q[i].id in mem && Below(mem, q[i])
    && mem[q[i].id].next == (if i + 1 < |q| then q[i + 1].id else NULL)
  }

  predicate Represents(mem: Memory, t: Tree) {
    Unique([t]) && Chain(mem, [t])
  }

  lemma NodesOfMember(q: seq<Tree>, i: nat)
    requires i < |q|
    ensures q[i].id in Nodes(q) && forall p <- Nodes(q[i].kids) :: p in Nodes(q)
  {
    hide Nodes;
    NodesSplit(q);
    assert q[i].id == Ids(q)[i];
    forall p <- Nodes(q[i].kids) ensures p in Nodes(q) { NodesOfKid(q, i, p); }
  }

  /** Changes outside the nodes below `t` that leave its own links alone. */
  lemma {:induction false} BelowFrame(mem: Memory, mem': Memory, t: Tree)
    requires Below(mem, t) && t.id in mem'
    requires mem'[t.id].first == mem[t.id].first && mem'[t.id].last == mem[t.id].last && mem'[t.id].length == mem[t.id].length
    requires forall p <- Nodes(t.kids) :: p in mem && p in mem' && mem'[p] == mem[p]
    ensures Below(mem', t)
    decreases t
  {
    forall i | 0 <= i < |t.kids| ensures Sibling(mem', t.id, t.kids, i) && Below(mem', t.kids[i]) {
      assert Sibling(mem, t.id, t.kids, i);
      NodesOfMember(t.kids, i);
      BelowFrame(mem, mem', t.kids[i]);
    }
  }

  // Breadth-first order.

  function Size(q: seq<Tree>): nat {
    |Nodes(q)|
  }

  /** The order in which a queue visits the nodes. */
  function Visit(q: seq<Tree>): seq<Ptr>
    decreases Size(q)
  {
    if q == [] then []
    else
      NodesConcat(q[1..], q[0].kids);
      [q[0].id] + Visit(q[1..] + q[0].kids)
  }

  /** Level by level. */
  function LevelOrder(q: seq<Tree>): seq<Ptr>
    decreases Size(q)
  {
    if q == [] then []
    else
      NodesSplit(q);
      Ids(q) + LevelOrder(Kids(q))
  }

  lemma {:induction false} VisitSkips(a: seq<Tree>, b: seq<Tree>)
    ensures Visit(a + b) == Ids(a) + Visit(b + Kids(a))
    decreases |a|
  {
    if a == [] {
      assert a + b == b && b + Kids(a) == b;
    } else {
      assert (a + b)[1..] + a[0].kids == a[1..] + (b + a[0].kids);
      VisitSkips(a[1..], b + a[0].kids);
      assert (b + a[0].kids) + Kids(a[1..]) == b + Kids(a);
    }
  }

  /** The queue goes level by level. */
  lemma {:induction false} VisitIsLevelOrder(q: seq<Tree>)
    ensures Visit(q) == LevelOrder(q)
    decreases Size(q)
  {
    if q != [] {
      NodesSplit(q);
      VisitSkips(q, []);
      assert q + [] == q && [] + Kids(q) == Kids(q);
      VisitIsLevelOrder(Kids(q));
    }
  }

  lemma {:induction false} LevelOrderNodes(q: seq<Tree>)
    ensures multiset(LevelOrder(q)) == Nodes(q)
    decreases Size(q)
  {
    if q != [] {
      NodesSplit(q);
      LevelOrderNodes(Kids(q));
    }
  }

  // Key buffers.

  /** Every key is a buffer of its own, and there are no other buffers. */
  ghost predicate KeysOwned(mem: Memory, bufs: Buffers) {
    && NULL !in bufs
    && (forall p <- mem :: mem[p].key != NULL ==> mem[p].key in bufs)
    && (forall p <- mem, q <- mem :: mem[p].key == mem[q].key != NULL ==> p == q)
    && forall b <- bufs :: exists p :: p in mem && mem[p].key == b
  }

  /** The text of a node's key; without a buffer its length is zero. */
  function KeyText(mem: Memory, bufs: Buffers, p: Ptr): string {
    if p in mem && mem[p].key in bufs then bufs[mem[p].key] else ""
  }

  /** The key buffers of some nodes. */
  function KeysOf(mem: Memory, ps: set<Ptr>): set<Ptr> {
    set p | p in ps && p in mem && mem[p].key != NULL :: mem[p].key
  }

  /** The same in the order of the nodes. */
  function KeyList(mem: Memory, ps: seq<Ptr>): seq<Ptr> {
    if ps == [] then []
    else (if ps[0] in mem && mem[ps[0]].key != NULL then [mem[ps[0]].key] else []) + KeyList(mem, ps[1..])
  }

  predicate SameKeys(mem: Memory, mem': Memory) {
    forall p <- mem' :: p in mem && mem'[p].key == mem[p].key
  }

  /** A node goes together with its key buffer. */
  lemma KeysLessOne(mem: Memory, bufs: Buffers, mem': Memory, bufs': Buffers, p: Ptr)
    requires KeysOwned(mem, bufs) && p in mem && SameKeys(mem, mem') && mem'.Keys == mem.Keys - {p}
    requires bufs' == bufs - {mem[p].key}
    ensures KeysOwned(mem', bufs')
  {
    forall b <- bufs' ensures exists x :: x in mem' && mem'[x].key == b {
      var x :| x in mem && mem[x].key == b;
      assert x in mem';
    }
  }

  // Growing a tree.

  /** `u` becomes the last child of the node `p` of `t`. */
  function Grow(t: Tree, p: Ptr, u: Tree): Tree {
    Tree(t.id, GrowAll(t.kids, p, u) + if t.id == p then [u] else [])
  }

  function GrowAll(q: seq<Tree>, p: Ptr, u: Tree): (r: seq<Tree>)
    ensures |r| == |q| && forall i :: 0 <= i < |q| ==> r[i] == Grow(q[i], p, u)
  {
    if q == [] then [] else [Grow(q[0], p, u)] + GrowAll(q[1..], p, u)
  }

  lemma {:induction false} GrowNodes(q: seq<Tree>, p: Ptr, u: Tree, x: Ptr)
    requires Nodes(q)[p] <= 1
    ensures Nodes(GrowAll(q, p, u))[x] == Nodes(q)[x] + if p in Nodes(q) then Nodes([u])[x] else 0
  {
    if q != [] {
      var t, kids := q[0], GrowAll(q[0].kids, p, u);
      GrowNodes(t.kids, p, u, x);
      GrowNodes(q[1..], p, u, x);
      NodesConcat(kids, if t.id == p then [u] else []);
      var q' := GrowAll(q, p, u);
      assert q'[1..] == GrowAll(q[1..], p, u) && q'[0] == Grow(t, p, u);
    }
  }

  lemma GrowUnique(t: Tree, p: Ptr, u: Tree)
    requires Unique([t]) && Unique([u]) && p in Nodes([t]) && Nodes([t]) !! Nodes([u])
    ensures Nodes([Grow(t, p, u)]) == Nodes([t]) + Nodes([u]) && Unique([Grow(t, p, u)])
  {
    hide Nodes;
    var a, b := Nodes([t]), Nodes([u]);
    assert GrowAll([t], p, u) == [Grow(t, p, u)];
    forall x: Ptr ensures Nodes([Grow(t, p, u)])[x] == a[x] + b[x] { GrowNodes([t], p, u, x); }
    forall x: Ptr | x in a + b ensures (a + b)[x] == 1 { assert x !in a || x !in b; }
  }

  /** What `add_child` writes to string the child behind the last one. */
  ghost predicate Strung(mem: Memory, mem': Memory, p: Ptr, c: Ptr) {
    && p in mem && c in mem && p != c && mem'.Keys == mem.Keys
    && var (first, last) := (mem[p].first, mem[p].last);
    && (first != NULL ==> last in mem && last != c)
    && mem'[p] == mem[p].(first := if first == NULL then c else first, last := c, next := mem'[p].next)
    && mem'[c] == mem[c].(parent := p, next := NULL, prev := if first == NULL then NULL else last)
    && (first != NULL ==> mem'[last].next == c)
    && (forall x <- mem :: x != p && x != c ==> mem'[x] == mem[x].(next := mem'[x].next))
    && (forall x <- mem :: x != c && (first == NULL || x != last) ==> mem'[x].next == mem[x].next)
  }

  /** What `add_child` writes in all. */
  ghost predicate Added(mem: Memory, mem': Memory, p: Ptr, c: Ptr) {
    && p in mem && c in mem && p != c && mem'.Keys == mem.Keys
    && var (first, last, n) := (mem[p].first, mem[p].last, mem[p].length);
    && (first != NULL ==> last in mem && last != c)
    && mem'[p].first == (if first == NULL then c else first) && mem'[p].last == c && mem'[p].length == n + 1
    && mem'[c].parent == p && mem'[c].index == n && mem'[c].next == NULL
    && mem'[c].prev == (if first == NULL then NULL else last)
    && (first != NULL ==> mem'[last].next == c)
    && mem'[p].key == mem[p].key
    && (forall x <- mem :: x != p ==> SameKids(mem[x], mem'[x]))
    && (forall x <- mem :: x != c ==> SamePlace(mem[x], mem'[x]))
    && (forall x <- mem :: x != c && (first == NULL || x != last) ==> mem'[x].next == mem[x].next)
  }

  predicate SameKids(n: Node, n': Node) {
    n'.first == n.first && n'.last == n.last && n'.length == n.length && n'.key == n.key
  }

  predicate SamePlace(n: Node, n': Node) {
    n'.parent == n.parent && n'.prev == n.prev && n'.index == n.index
  }

  /** The last child of `p` knows that it is. */
  predicate LastKnowsPlace(mem: Memory, p: Ptr) {
    p in mem && (mem[p].first == NULL <==> mem[p].length == 0) &&
    (mem[p].first != NULL ==> var l := mem[p].last; l in mem && mem[l].parent == p && mem[l].index == mem[p].length - 1)
  }

  /** Away from `p` the links stay; only the last child of `p` has a new sibling. */
  lemma ElsewhereLinked(mem: Memory, mem': Memory, x: Ptr, kids: seq<Tree>, p: Ptr, c: Ptr, kids': seq<Tree>)
    requires Linked(mem, x, kids) && Added(mem, mem', p, c) && LastKnowsPlace(mem, p) && x != p
    requires |kids'| == |kids| && forall i :: 0 <= i < |kids| ==> kids[i].id != c && kids'[i].id == kids[i].id
    ensures Linked(mem', x, kids')
  {
    assert SameKids(mem[x], mem'[x]);
    forall i | 0 <= i < |kids| ensures Sibling(mem', x, kids', i) {
      assert Sibling(mem, x, kids, i);
      assert SamePlace(mem[kids[i].id], mem'[kids[i].id]);
    }
  }

  lemma HereLinked(mem: Memory, mem': Memory, kids: seq<Tree>, p: Ptr, u: Tree, kids': seq<Tree>)
    requires Linked(mem, p, kids) && Added(mem, mem', p, u.id) && u.id != NULL
    requires |kids'| == |kids| + 1 && kids'[|kids|] == u
    requires forall i :: 0 <= i < |kids| ==> kids[i].id != u.id && kids'[i].id == kids[i].id
    ensures Linked(mem', p, kids')
  {
    if kids != [] { assert Sibling(mem, p, kids, 0) && Sibling(mem, p, kids, |kids| - 1); }
    forall i | 0 <= i < |kids'| ensures Sibling(mem', p, kids', i) {
      if i < |kids| {
        assert Sibling(mem, p, kids, i);
        assert SamePlace(mem[kids[i].id], mem'[kids[i].id]);
      }
    }
  }

  lemma {:induction false} GrowBelow(mem: Memory, mem': Memory, t: Tree, p: Ptr, u: Tree)
    requires Below(mem, t) && Added(mem, mem', p, u.id) && LastKnowsPlace(mem, p) && u.id != NULL
    requires t.id != u.id && u.id !in Nodes(t.kids) && Below(mem', u)
    ensures Below(mem', Grow(t, p, u))
    decreases t
  {
    hide Added, LastKnowsPlace, Nodes, Linked, GrowAll;
    var kids' := Grow(t, p, u).kids;
    forall i | 0 <= i < |t.kids| ensures t.kids[i].id != u.id && Below(mem', kids'[i]) {
      NodesOfMember(t.kids, i);
      GrowBelow(mem, mem', t.kids[i], p, u);
    }
    if t.id == p {
      HereLinked(mem, mem', t.kids, p, u, kids');
    } else {
      ElsewhereLinked(mem, mem', t.id, t.kids, p, u.id, kids');
    }
  }

  /** The links of any node of a tree. */
  lemma {:induction false} NodeLinked(mem: Memory, q: seq<Tree>, p: Ptr)
    requires p in Nodes(q) && forall i :: 0 <= i < |q| ==> Below(mem, q[i])
    ensures LastKnowsPlace(mem, p) && (mem[p].first != NULL ==> mem[p].last in Nodes(Kids(q)))
  {
    NodesConcat(q[0].kids, Kids(q[1..]));
    if p == q[0].id {
      var kids := q[0].kids;
      if kids != [] {
        assert Sibling(mem, p, kids, 0) && Sibling(mem, p, kids, |kids| - 1);
        NodesOfMember(kids, |kids| - 1);
      }
    } else if p in Nodes(q[0].kids) {
      NodesSplit(q[0].kids);
      NodeLinked(mem, q[0].kids, p);
    } else {
      NodeLinked(mem, q[1..], p);
    }
  }

  class Config {
    var mem: Memory
    var bufs: Buffers
    ghost var freed: seq<Ptr>
    ghost var freedKeys: seq<Ptr>

    constructor ()
      ensures mem == map[] && bufs == map[] && freed == [] && freedKeys == []
    {
      mem, bufs, freed, freedKeys := map[], map[], [], [];
    }

    /** `new_config_node`, at the address the allocator returns. */
    method NewNode(p: Ptr)
      requires p != NULL && p !in mem && KeysOwned(mem, bufs)
      modifies this`mem
      ensures mem == old(mem)[p := Node(NULL, NULL, NULL, NULL, NULL, NULL, 0, 0)] && Represents(mem, Tree(p, []))
      ensures KeysOwned(mem, bufs)
      ensures forall t :: Represents(old(mem), t) ==> Represents(mem, t) && p !in Nodes([t])
    {
      hide Nodes, Unique, Chain, KeysOwned;
      ghost var m0 := mem;
      mem := mem[p := Node(NULL, NULL, NULL, NULL, NULL, NULL, 0, 0)];
      NewKeys(m0, mem, bufs, p);
      NewTree(mem, p);
      forall t | Represents(m0, t) ensures Represents(mem, t) && p !in Nodes([t]) {
        NodesInMemory(m0, t);
        StandsElsewhere(m0, mem, t);
      }
    }

    /** `copy_output_node`, as far as the key goes, on a node that has none yet. */
    method CopyKey(p: Ptr, b: Ptr, text: string)
      requires p in mem && mem[p].key == NULL && b != NULL && b !in bufs && KeysOwned(mem, bufs)
      modifies this`mem, this`bufs
      ensures mem == old(mem)[p := old(mem)[p].(key := b)] && bufs == old(bufs)[b := text]
      ensures KeysOwned(mem, bufs) && KeyText(mem, bufs, p) == text
      ensures forall t :: Represents(old(mem), t) ==> Represents(mem, t)
    {
      ghost var m0, b0 := mem, bufs;
      bufs := bufs[b := text];
      mem := mem[p := mem[p].(key := b)];
      forall x <- bufs ensures exists y :: y in mem && mem[y].key == x {
        if x == b {
          assert p in mem;
        } else {
          var y :| y in m0 && m0[y].key == x;
          assert y in mem;
        }
      }
      forall t | Represents(m0, t) ensures Represents(mem, t) {
        KeyKeepsTree(m0, mem, t);
      }
    }

    /** The links that `add_child` writes. */
    method Link(parent: Ptr, child: Ptr)
      requires parent in mem && child in mem && parent != child && child != NULL
      requires mem[parent].first != NULL ==> mem[parent].last in mem && mem[parent].last != child
      modifies this`mem
      ensures Strung(old(mem), mem, parent, child)
    {
      mem := mem[child := mem[child].(parent := parent)];
      if mem[parent].first == NULL {
        mem := mem[parent := mem[parent].(first := child, last := child)];
        mem := mem[child := mem[child].(prev := NULL, next := NULL)];
      } else {
        mem := mem[child := mem[child].(prev := mem[parent].last, next := NULL)];
        mem := mem[mem[child].prev := mem[mem[child].prev].(next := child)];
        mem := mem[parent := mem[parent].(last := child)];
      }
    }

    /** `add_child`: the tree `u` becomes the last child of the node `parent` of `t`. */
    method AddChild(parent: Ptr, child: Ptr, ghost t: Tree, ghost u: Tree)
      requires Represents(mem, t) && parent in Nodes([t]) && Represents(mem, u) && child == u.id
      requires Nodes([t]) !! Nodes([u]) && KeysOwned(mem, bufs)
      modifies this`mem
      ensures Represents(mem, Grow(t, parent, u)) && Nodes([Grow(t, parent, u)]) == Nodes([t]) + Nodes([u])
      ensures KeysOwned(mem, bufs) && SameKeys(old(mem), mem)
      ensures mem.Keys == old(mem).Keys && forall p <- mem :: p !in Nodes([t]) + Nodes([u]) ==> mem[p] == old(mem)[p]
    {
      hide Nodes, Represents, Added, KeysOwned, SameKeys;
      ghost var m0 := mem;
      AddFacts(mem, t, parent, u);
      Link(parent, child);
      ghost var m1 := mem;
      mem := mem[child := mem[child].(index := mem[parent].length)];
      mem := mem[parent := mem[parent].(length := mem[parent].length + 1)];
      AddMeans(m0, m1, mem, parent, child);
      AddKeeps(m0, mem, t, parent, u);
      AddKeys(m0, mem, bufs, parent, child);
    }

    /** `find_child`: the first child with the key. */
    method FindChild(parent: Ptr, key: string, ghost kids: seq<Tree>) returns (cur: Ptr)
      requires parent != NULL ==> Linked(mem, parent, kids)
      ensures parent == NULL ==> cur == NULL
      ensures parent != NULL && cur == NULL ==> forall i :: 0 <= i < |kids| ==> KeyText(mem, bufs, kids[i].id) != key
      ensures parent != NULL && cur != NULL ==> exists i :: 0 <= i < |kids| && FirstWith(mem, bufs, kids, key, i) && cur == kids[i].id
    {
      if parent == NULL { return NULL; }
      cur := mem[parent].first;
      ghost var i := 0;
      if kids != [] { assert Sibling(mem, parent, kids, 0); }
      while cur != NULL
        invariant 0 <= i <= |kids| && cur == (if i < |kids| then kids[i].id else NULL)
        invariant forall j :: 0 <= j < i ==> KeyText(mem, bufs, kids[j].id) != key
        decreases |kids| - i
      {
        assert Sibling(mem, parent, kids, i);
        if KeyText(mem, bufs, cur) == key {
          assert FirstWith(mem, bufs, kids, key, i);
          break;
        }
        if i + 1 < |kids| { assert Sibling(mem, parent, kids, i + 1); }
        cur := mem[cur].next;
        i := i + 1;
      }
      if i < |kids| { assert Sibling(mem, parent, kids, i); }
    }

    /** One round of the loop of `config_node_destroy`: the front of the list is freed with
        its key, after its children were put behind the list. */
    method FreeFront(cur: Ptr, last: Ptr, ghost q: seq<Tree>) returns (next: Ptr, tail: Ptr)
      requires q != [] && cur == q[0].id && last == q[|q| - 1].id && Unique(q) && Chain(mem, q) && KeysOwned(mem, bufs)
      modifies this
      ensures var q' := q[1..] + q[0].kids;
        && Unique(q') && Chain(mem, q') && NodeSet(q') == NodeSet(q) - {cur} && Size(q') < Size(q)
        && next == (if q' == [] then NULL else q'[0].id) && (q' != [] ==> next != NULL && tail == q'[|q'| - 1].id)
      ensures KeysOwned(mem, bufs) && FreedOne(old(mem), old(bufs), NodeSet(q), mem, bufs, cur)
      ensures freed == old(freed) + [cur] && freedKeys == old(freedKeys) + KeyList(old(mem), [cur])
    {
      hide Nodes, NodeSet, Unique, Chain, KeysOwned, FreedOne, SameKeys, KeyList;
      ghost var m0, b0 := mem, bufs;
      HeadFacts(mem, q);
      UniqueKids(q);
      LastKnown(mem, q);
      tail := last;
      if mem[cur].first != NULL {
        mem := mem[last := mem[last].(next := mem[cur].first)];
        tail := mem[cur].last;
      }
      SpliceKeeps(m0, q, mem);
      ghost var m1 := mem;
      if mem[cur].key != NULL {
        freedKeys := freedKeys + [mem[cur].key];
        bufs := bufs - {mem[cur].key};
      }
      freed := freed + [cur];
      next := mem[cur].next;
      mem := mem - {cur};
      NoNullBuffer(m0, b0, cur, bufs);
      FrontFreed(m0, b0, NodeSet(q), m1, cur, last);
      KeysLessOne(m0, b0, mem, bufs, cur);
    }

    /** `config_node_destroy`: every node of the tree is freed once, level by level, each
        with its key, and nothing else is touched. */
    method Destroy(node: Ptr, ghost t: Tree)
      requires KeysOwned(mem, bufs) && (node != NULL ==> node == t.id && Represents(mem, t))
      modifies this
      ensures KeysOwned(mem, bufs)
      ensures node == NULL ==> mem == old(mem) && bufs == old(bufs) && freed == old(freed) && freedKeys == old(freedKeys)
      ensures node != NULL ==>
        && mem == old(mem) - NodeSet([t]) && bufs == old(bufs) - KeysOf(old(mem), NodeSet([t]))
        && freed == old(freed) + LevelOrder([t]) && multiset(LevelOrder([t])) == Nodes([t])
        && freedKeys == old(freedKeys) + KeyList(old(mem), LevelOrder([t]))
    {
      hide Nodes, NodeSet, Unique, Chain, Visit, LevelOrder, KeysOwned, KeyList, KeysOf, Remaining, FreedOne, Size;
      ghost var q, order := if node == NULL then [] else [t], if node == NULL then [] else LevelOrder([t]);
      ghost var m0, b0, all, f0, k0 := mem, bufs, NodeSet(q), freed, freedKeys;
      Start(mem, bufs, q, freed, freedKeys);
      VisitIsLevelOrder([t]);
      LevelOrderNodes([t]);
      var last, cur := node, node;
      while cur != NULL
        invariant cur == (if q == [] then NULL else q[0].id) && (q != [] ==> last == q[|q| - 1].id)
        invariant Unique(q) && Chain(mem, q) && KeysOwned(mem, bufs) && (cur == NULL <==> q == [])
        invariant Remaining(m0, b0, all, mem, bufs, NodeSet(q))
        invariant freed + Visit(q) == f0 + order && freedKeys + KeyList(m0, Visit(q)) == k0 + KeyList(m0, order)
        decreases Size(q)
      {
        ghost var m1, b1, f1, k1 := mem, bufs, freed, freedKeys;
        HeadFacts(mem, q);
        cur, last := FreeFront(cur, last, q);
        OneLess(m0, b0, all, m1, b1, NodeSet(q), mem, bufs, q[0].id);
        VisitStep(m0, m1, q, f1, k1);
        q := q[1..] + q[0].kids;
      }
      Finish(m0, b0, all, mem, bufs, freed, freedKeys);
    }
  }

  predicate FirstWith(mem: Memory, bufs: Buffers, kids: seq<Tree>, key: string, i: nat)
    requires i < |kids|
  {
    KeyText(mem, bufs, kids[i].id) == key && forall j :: 0 <= j < i ==> KeyText(mem, bufs, kids[j].id) != key
  }

  lemma AddKeys(mem: Memory, mem': Memory, bufs: Buffers, p: Ptr, c: Ptr)
    requires KeysOwned(mem, bufs) && Added(mem, mem', p, c)
    ensures SameKeys(mem, mem') && KeysOwned(mem', bufs)
  {
    forall x <- mem' ensures mem'[x].key == mem[x].key {
      if x != p { assert SameKids(mem[x], mem'[x]); }
    }
    forall b <- bufs ensures exists x :: x in mem' && mem'[x].key == b {
      var x :| x in mem && mem[x].key == b;
      assert x in mem';
    }
  }

  lemma NewKeys(mem: Memory, mem': Memory, bufs: Buffers, p: Ptr)
    requires KeysOwned(mem, bufs) && p !in mem && mem' == mem[p := Node(NULL, NULL, NULL, NULL, NULL, NULL, 0, 0)]
    ensures KeysOwned(mem', bufs)
  {
    forall b <- bufs ensures exists x :: x in mem' && mem'[x].key == b {
      var x :| x in mem && mem[x].key == b;
      assert x in mem';
    }
  }

  lemma NewTree(mem: Memory, p: Ptr)
    requires p != NULL && p in mem && mem[p] == Node(NULL, NULL, NULL, NULL, NULL, NULL, 0, 0)
    ensures Represents(mem, Tree(p, []))
  {
    assert Nodes([Tree(p, [])]) == multiset{p};
  }

  lemma FrontFreed(m0: Memory, b0: Buffers, nodes: set<Ptr>, m1: Memory, p: Ptr, last: Ptr)
    requires p in m0 && last in m0 && last in nodes
    requires m1 == if m0[p].first != NULL then m0[last := m0[last].(next := m0[p].first)] else m0
    ensures FreedOne(m0, b0, nodes, m1 - {p}, b0 - {m0[p].key}, p) && SameKeys(m0, m1 - {p})
    ensures KeyList(m0, [p]) == if m0[p].key != NULL then [m0[p].key] else []
    ensures m1[p].key == m0[p].key
  {
    assert [p][1..] == [];
  }

  lemma NoNullBuffer(mem: Memory, bufs: Buffers, p: Ptr, bufs': Buffers)
    requires KeysOwned(mem, bufs) && p in mem
    requires bufs' == if mem[p].key != NULL then bufs - {mem[p].key} else bufs
    ensures bufs' == bufs - {mem[p].key}
  {
  }

  /** All nodes of a tree in memory are there. */
  lemma NodesInMemory(mem: Memory, t: Tree)
    requires Represents(mem, t)
    ensures forall p <- Nodes([t]) :: p in mem && p != NULL
  {
    assert ChainAt(mem, [t], 0);
    ChainedNodes(mem, t);
    NodesSplit([t]);
    assert Kids([t]) == t.kids;
  }

  /** A tree stands as long as its nodes stay as they are. */
  lemma StandsElsewhere(mem: Memory, mem': Memory, t: Tree)
    requires Represents(mem, t) && forall p <- Nodes([t]) :: p in mem && p in mem' && mem'[p] == mem[p]
    ensures Represents(mem', t)
  {
    hide Nodes, Unique, Below;
    assert ChainAt(mem, [t], 0);
    NodesOfMember([t], 0);
    BelowFrame(mem, mem', t);
    assert ChainAt(mem', [t], 0);
  }

  /** Keys are no part of the links. */
  lemma KeyKeepsTree(mem: Memory, mem': Memory, t: Tree)
    requires Represents(mem, t) && mem'.Keys == mem.Keys && forall p <- mem :: mem'[p] == mem[p].(key := mem'[p].key)
    ensures Represents(mem', t)
  {
    hide Nodes, Unique, Below;
    assert ChainAt(mem, [t], 0);
    KeyKeepsBelow(mem, mem', t);
    assert ChainAt(mem', [t], 0);
  }

  lemma {:induction false} KeyKeepsBelow(mem: Memory, mem': Memory, t: Tree)
    requires Below(mem, t) && mem'.Keys == mem.Keys && forall p <- mem :: mem'[p] == mem[p].(key := mem'[p].key)
    ensures Below(mem', t)
    decreases t
  {
    forall i | 0 <= i < |t.kids| ensures Sibling(mem', t.id, t.kids, i) && Below(mem', t.kids[i]) {
      assert Sibling(mem, t.id, t.kids, i);
      KeyKeepsBelow(mem, mem', t.kids[i]);
    }
  }

  lemma AddFacts(mem: Memory, t: Tree, p: Ptr, u: Tree)
    requires Represents(mem, t) && p in Nodes([t]) && Represents(mem, u) && Nodes([t]) !! Nodes([u])
    ensures p in mem && u.id in mem && u.id != NULL && p != u.id && p != NULL
    ensures mem[p].first != NULL ==> mem[p].last in mem && mem[p].last != u.id
  {
    assert ChainAt(mem, [t], 0) && ChainAt(mem, [u], 0);
    NodesOfMember([t], 0);
    NodesOfMember([u], 0);
    assert Kids([t]) == t.kids;
    NodeLinked(mem, [t], p);
    ChainedNodes(mem, t);
    NodesSplit([t]);
  }

  lemma AddMeans(mem: Memory, mem1: Memory, mem': Memory, p: Ptr, c: Ptr)
    requires Strung(mem, mem1, p, c)
    requires mem' == mem1[c := mem1[c].(index := mem1[p].length)][p := mem1[p].(length := mem1[p].length + 1)]
    ensures Added(mem, mem', p, c)
  {
  }

  lemma RootsApart(mem: Memory, t: Tree, p: Ptr, u: Tree)
    requires Represents(mem, t) && p in Nodes([t]) && Represents(mem, u) && Nodes([t]) !! Nodes([u])
    ensures LastKnowsPlace(mem, p) && t.id in Nodes([t]) && u.id in Nodes([u]) && u.id !in Nodes(u.kids)
    ensures mem[p].first != NULL ==> mem[p].last in Nodes([t]) && mem[p].last != t.id
    ensures forall x <- Nodes(t.kids) :: x in Nodes([t])
    ensures forall x <- Nodes(u.kids) :: x in Nodes([u])
  {
    assert ChainAt(mem, [t], 0);
    assert Kids([t]) == t.kids;
    NodeLinked(mem, [t], p);
    NodesOfMember([t], 0);
    NodesOfMember([u], 0);
    Apart([t], 0, 0);
    Apart([u], 0, 0);
  }

  lemma AddFrame(mem: Memory, mem': Memory, t: Tree, p: Ptr, u: Tree)
    requires Added(mem, mem', p, u.id) && p in Nodes([t]) && u.id in Nodes([u]) && Nodes([t]) !! Nodes([u])
    requires mem[p].first != NULL ==> mem[p].last in Nodes([t])
    ensures forall x <- mem :: x !in Nodes([t]) && x != u.id ==> mem'[x] == mem[x]
    ensures mem'.Keys == mem.Keys && SameKids(mem[u.id], mem'[u.id])
    ensures t.id in mem && t.id != u.id && (mem[p].first != NULL ==> mem[p].last != t.id) ==> mem'[t.id].next == mem[t.id].next
  {
    forall x <- mem | x !in Nodes([t]) && x != u.id ensures mem'[x] == mem[x] {
      assert SameKids(mem[x], mem'[x]) && SamePlace(mem[x], mem'[x]);
    }
  }

  lemma AddKeeps(mem: Memory, mem': Memory, t: Tree, p: Ptr, u: Tree)
    requires Represents(mem, t) && p in Nodes([t]) && Represents(mem, u) && Nodes([t]) !! Nodes([u])
    requires Added(mem, mem', p, u.id)
    ensures Represents(mem', Grow(t, p, u)) && Nodes([Grow(t, p, u)]) == Nodes([t]) + Nodes([u])
    ensures mem'.Keys == mem.Keys && forall x <- mem :: x !in Nodes([t]) + Nodes([u]) ==> mem'[x] == mem[x]
  {
    hide Nodes, Unique, Added, GrowAll, Below, LastKnowsPlace;
    AddFacts(mem, t, p, u);
    GrowUnique(t, p, u);
    RootsApart(mem, t, p, u);
    AddFrame(mem, mem', t, p, u);
    assert ChainAt(mem, [t], 0) && ChainAt(mem, [u], 0);
    ChainedNodes(mem, u);
    BelowFrame(mem, mem', u);
    GrowBelow(mem, mem', t, p, u);
    assert ChainAt(mem', [Grow(t, p, u)], 0);
  }

  /** One node of `nodes` and its key are gone; outside `nodes` nothing else changed, and no
      key moved. */
  ghost predicate FreedOne(m0: Memory, b0: Buffers, nodes: set<Ptr>, mem: Memory, bufs: Buffers, p: Ptr) {
    && p in m0 && mem.Keys == m0.Keys - {p} && bufs == b0 - {m0[p].key} && SameKeys(m0, mem)
    && forall x <- m0 :: x !in nodes && x in mem ==> mem[x] == m0[x]
  }

  /** Of the nodes in `all` exactly those in `left` are there, with their keys, and nothing
      else has changed. */
  ghost predicate Remaining(m0: Memory, b0: Buffers, all: set<Ptr>, mem: Memory, bufs: Buffers, left: set<Ptr>) {
    && left <= all <= m0.Keys && mem.Keys == m0.Keys - (all - left) && SameKeys(m0, mem)
    && bufs == b0 - KeysOf(m0, all - left)
    && forall p <- m0 :: p !in all ==> mem[p] == m0[p]
  }

  lemma OneLess(m0: Memory, b0: Buffers, all: set<Ptr>, m1: Memory, b1: Buffers, left: set<Ptr>, mem: Memory, bufs: Buffers, p: Ptr)
    requires Remaining(m0, b0, all, m1, b1, left) && p in left && KeysOwned(m1, b1) && FreedOne(m1, b1, left, mem, bufs, p)
    ensures Remaining(m0, b0, all, mem, bufs, left - {p}) && SameKeys(m0, m1)
  {
    var gone := all - left;
    assert all - (left - {p}) == gone + {p};
    assert m1[p].key == m0[p].key;
    assert NULL !in b1;
    KeysAndOne(m0, gone, p);
    hide KeysOf, KeysOwned;
  }

  lemma KeysAndOne(mem: Memory, ps: set<Ptr>, p: Ptr)
    requires p in mem
    ensures KeysOf(mem, ps + {p}) == KeysOf(mem, ps) + (if mem[p].key != NULL then {mem[p].key} else {})
  {
  }

  lemma Start(mem: Memory, bufs: Buffers, q: seq<Tree>, done: seq<Ptr>, keys: seq<Ptr>)
    requires |q| <= 1 && (q != [] ==> Represents(mem, q[0]))
    ensures Unique(q) && Chain(mem, q) && Remaining(mem, bufs, NodeSet(q), mem, bufs, NodeSet(q))
    ensures q == [] ==> Visit(q) == [] && KeyList(mem, []) == []
    ensures q != [] ==> q[0].id != NULL
  {
    assert KeysOf(mem, NodeSet(q) - NodeSet(q)) == {};
    if q != [] {
      assert q == [q[0]];
      HeadFacts(mem, q);
      NodesInMemory(mem, q[0]);
    }
  }

  lemma VisitStep(m0: Memory, m1: Memory, q: seq<Tree>, done: seq<Ptr>, keys: seq<Ptr>)
    requires q != [] && SameKeys(m0, m1) && q[0].id in m1
    ensures var q', p := q[1..] + q[0].kids, q[0].id;
      && done + Visit(q) == (done + [p]) + Visit(q')
      && keys + KeyList(m0, Visit(q)) == (keys + KeyList(m1, [p])) + KeyList(m0, Visit(q'))
  {
    hide Visit, Nodes, KeyList;
    var q', p := q[1..] + q[0].kids, q[0].id;
    VisitOnce(q);
    KeysOfCons(m0, p, Visit(q'));
    KeysOfOne(m0, m1, p);
    assert done + ([p] + Visit(q')) == (done + [p]) + Visit(q');
    var a, b := KeyList(m1, [p]), KeyList(m0, Visit(q'));
    assert keys + (a + b) == (keys + a) + b;
  }

  lemma VisitOnce(q: seq<Tree>)
    requires q != []
    ensures Visit(q) == [q[0].id] + Visit(q[1..] + q[0].kids)
  {
    NodesConcat(q[1..], q[0].kids);
  }

  lemma KeysOfCons(mem: Memory, p: Ptr, ps: seq<Ptr>)
    ensures KeyList(mem, [p] + ps) == KeyList(mem, [p]) + KeyList(mem, ps)
  {
    assert ([p] + ps)[1..] == ps && [p][1..] == [];
    var head: seq<Ptr> := if p in mem && mem[p].key != NULL then [mem[p].key] else [];
    assert KeyList(mem, [p]) == head + [];
  }

  lemma KeysOfOne(mem: Memory, mem': Memory, p: Ptr)
    requires SameKeys(mem, mem') && p in mem'
    ensures KeyList(mem, [p]) == KeyList(mem', [p])
  {
    assert [p][1..] == [];
  }

  lemma Finish(m0: Memory, b0: Buffers, all: set<Ptr>, mem: Memory, bufs: Buffers, done: seq<Ptr>, keys: seq<Ptr>)
    requires Remaining(m0, b0, all, mem, bufs, NodeSet([]))
    ensures mem == m0 - all && bufs == b0 - KeysOf(m0, all)
    ensures all == NodeSet([]) ==> mem == m0 && bufs == b0
    ensures done + Visit([]) == done && keys + KeyList(m0, Visit([])) == keys
  {
    assert all - NodeSet([]) == all;
  }

  /** The node at the front of the queue. */
  lemma HeadFacts(mem: Memory, q: seq<Tree>)
    requires q != [] && Chain(mem, q)
    ensures q[0].id != NULL && q[0].id in mem && Below(mem, q[0]) && q[0].id in NodeSet(q)
    ensures var n, kids := mem[q[0].id], q[0].kids;
      if kids == [] then n.first == NULL else n.first == kids[0].id != NULL && n.last == kids[|kids| - 1].id
  {
    assert ChainAt(mem, q, 0);
    var kids := q[0].kids;
    if kids != [] { assert Sibling(mem, q[0].id, kids, 0); }
  }

  lemma LastKnown(mem: Memory, q: seq<Tree>)
    requires q != [] && Chain(mem, q)
    ensures q[|q| - 1].id in mem && q[|q| - 1].id in NodeSet(q)
  {
    hide Nodes, Below;
    assert ChainAt(mem, q, |q| - 1);
    NodesOfMember(q, |q| - 1);
  }

  lemma KidFacts(mem: Memory, t: Tree, k: nat)
    requires Below(mem, t) && k < |t.kids|
    ensures Sibling(mem, t.id, t.kids, k) && Below(mem, t.kids[k])
  {
  }

  /** Memory with the children of the front spliced behind the queue, and the front
      freed. */
  function Spliced(mem: Memory, q: seq<Tree>): Memory
    requires q != [] && q[0].id in mem && q[|q| - 1].id in mem
  {
    var n, last := mem[q[0].id], q[|q| - 1].id;
    (if n.first != NULL then mem[last := mem[last].(next := n.first)] else mem) - {q[0].id}
  }

  lemma SplicedRest(mem: Memory, q: seq<Tree>, i: nat)
    requires q != [] && Unique(q) && Chain(mem, q) && q[0].id in mem && q[|q| - 1].id in mem && i + 1 < |q|
    ensures ChainAt(Spliced(mem, q), q[1..] + q[0].kids, i)
  {
    hide Nodes, Unique, Below;
    HeadFacts(mem, q);
    var last := |q| - 1;
    assert ChainAt(mem, q, i + 1);
    Apart(q, 0, i + 1);
    Apart(q, i + 1, 0);
    Apart(q, i + 1, last);
    ChainedNodes(mem, q[i + 1]);
    BelowFrame(mem, Spliced(mem, q), q[i + 1]);
  }

  lemma SplicedKids(mem: Memory, q: seq<Tree>, k: nat)
    requires q != [] && Unique(q) && Chain(mem, q) && q[0].id in mem && q[|q| - 1].id in mem && k < |q[0].kids|
    ensures ChainAt(Spliced(mem, q), q[1..] + q[0].kids, |q| - 1 + k)
  {
    hide Nodes, Unique, Below;
    assert ChainAt(mem, q, 0);
    KidFacts(mem, q[0], k);
    NodesOfMember(q[0].kids, k);
    Apart(q, 0, 0);
    Apart(q, 0, |q| - 1);
    ChainedNodes(mem, q[0]);
    BelowFrame(mem, Spliced(mem, q), q[0].kids[k]);
  }

  /** Splicing the children behind the queue and dropping its front gives the next
      queue. */
  lemma SpliceKeeps(mem: Memory, q: seq<Tree>, mem': Memory)
    requires q != [] && Unique(q) && Chain(mem, q) && q[0].id in mem && q[|q| - 1].id in mem
    requires var n, last := mem[q[0].id], q[|q| - 1].id;
      mem' == if n.first != NULL then mem[last := mem[last].(next := n.first)] else mem
    ensures var q' := q[1..] + q[0].kids;
      && Chain(mem' - {q[0].id}, q') && (q' != [] ==> q'[0].id != NULL)
      && mem'[q[0].id].next == if q' == [] then NULL else q'[0].id
  {
    hide Nodes, Unique, Below;
    var q', last := q[1..] + q[0].kids, |q| - 1;
    HeadFacts(mem, q);
    assert ChainAt(mem, q, 0);
    if last > 0 { Apart(q, 0, last); }
    forall i | 0 <= i < |q'| ensures ChainAt(mem' - {q[0].id}, q', i) {
      if i < last { SplicedRest(mem, q, i); } else { SplicedKids(mem, q, i - last); }
    }
    if q' != [] { assert ChainAt(mem' - {q[0].id}, q', 0); }
  }

  /** Every node below a linked tree is in memory. */
  lemma {:induction false} ChainedNodes(mem: Memory, t: Tree)
    requires Below(mem, t)
    ensures forall p <- Nodes(t.kids) :: p in mem && p != NULL
    decreases t
  {
    ChainedAll(mem, t.id, t.kids, 0);
    assert t.kids[0..] == t.kids;
  }

  lemma {:induction false} ChainedAll(mem: Memory, parent: Ptr, kids: seq<Tree>, k: nat)
    requires k <= |kids| && Linked(mem, parent, kids) && forall i :: 0 <= i < |kids| ==> Below(mem, kids[i])
    ensures forall p <- Nodes(kids[k..]) :: p in mem && p != NULL
    decreases kids, |kids| - k
  {
    if k < |kids| {
      assert Sibling(mem, parent, kids, k);
      ChainedNodes(mem, kids[k]);
      ChainedAll(mem, parent, kids, k + 1);
      assert kids[k..][1..] == kids[k + 1..];
    }
  }
}
