/** The life of a `config_t`: files are read into it one after another, each replacing the
    tree of the one before, and at the end it is destroyed. */
module ConfigLife {
  import opened Basics
  import opened ConfigTree
  import opened ConfigRuns

  const NOTHING := Forest([], map[])

  /** What the parser builds of a file, and whether it comes to the end of it. */
  datatype Outcome = Outcome(ops: seq<Op>, parsed: bool)

  /** The parser works on one tree from the root on. */
  predicate IsOutcome(o: Outcome) {
    LegalRun(NOTHING, o.ops) && |Last(NOTHING, o.ops).trees| == 1
  }

  /** No file that parses is followed by one that does not. */
  predicate NoneFailsLate(os: seq<Outcome>) {
    forall i :: 0 <= i < |os| - 1 ==> !(os[i].parsed && !os[i + 1].parsed)
  }

  function AllocatedIn(os: seq<Outcome>): multiset<Ptr> {
    if os == [] then multiset{} else AllocatedIn(os[..|os| - 1]) + Allocated(os[|os| - 1].ops)
  }

  class ConfigT {
    const c: Config
    var root: Ptr
    ghost var forest: Forest

    /** The root is null and memory empty, or memory holds its tree. */
    ghost predicate Live()
      reads this, c
    {
      && Shows(c.mem, c.bufs, forest)
      && if root == NULL then forest == NOTHING else |forest.trees| == 1 && forest.trees[0].id == root
    }

    /** The root points to a node that was freed. */
    ghost predicate Dangling()
      reads this, c
    {
      root != NULL && c.mem == map[] && root in c.freed
    }

    /** The nodes freed so far and the nodes still there. */
    ghost function Account(): multiset<Ptr>
      reads this, c
    {
      multiset(c.freed) + Nodes(forest.trees)
    }

    /** `config_init`. */
    constructor ()
      ensures Live() && root == NULL && fresh(c) && Account() == multiset{}
    {
      c := new Config();
      root, forest := NULL, NOTHING;
      new;
      NoNodes();
      ShowsNothing(c.mem, c.bufs);
    }

    /** The call of `config_node_destroy` with the root. */
    method DestroyRoot()
      requires Live() && root != NULL
      modifies c, this`forest
      ensures c.mem == map[] && c.bufs == map[] && forest == NOTHING && Account() == multiset(c.freed) == old(Account())
      ensures Dangling()
    {
      hide Nodes, KeyList, LevelOrder, KeysOwned, Represents;
      ghost var t := forest.trees[0];
      assert forest.trees == [t] && Represents(c.mem, t);
      RootFirst(t);
      c.Destroy(root, t);
      NoBuffers(c.mem, c.bufs);
      NoNodes();
      forest := NOTHING;
    }

    /** `config_read_file`: the old tree goes, whatever becomes of the file. */
    method ReadFile(o: Outcome)
      requires Live() && IsOutcome(o)
      modifies this, c
      ensures o.parsed || old(root) == NULL ==> Live() && (root != NULL <==> o.parsed)
      ensures !o.parsed && old(root) != NULL ==> Dangling() && root == old(root)
      ensures Account() == old(Account()) + Allocated(o.ops)
    {
      hide Nodes, LegalRun, ConfigRuns.Last, Shows, Allocated, Order;
      ghost var account := Account();
      if root != NULL {
        DestroyRoot();
      } else {
        NothingShown(c.mem, c.bufs);
      }
      assert Account() == account && forest == NOTHING && c.mem == map[] && c.bufs == map[];
      ghost var was := c.freed;
      NoNodes();
      var f := Parse(o);
      OrderCounts(was, f);
      if o.parsed {
        root, forest := f.trees[0].id, f;
      } else {
        DestroyAll(c, f);
        ShowsNothing(c.mem, c.bufs);
      }
    }

    /** `config_parse_file` up to where it returns or fails. */
    method Parse(o: Outcome) returns (f: Forest)
      requires c.mem == map[] && c.bufs == map[] && IsOutcome(o)
      modifies c
      ensures Shows(c.mem, c.bufs, f) && |f.trees| == 1 && f.trees[0].id != NULL
      ensures c.freed == old(c.freed) && Nodes(f.trees) == Allocated(o.ops)
    {
      hide Nodes, LegalRun, ConfigRuns.Last, Shows, Allocated;
      ShowsNothing(c.mem, c.bufs);
      f := PerformAll(c, o.ops, NOTHING);
      RootStands(c.mem, c.bufs, f);
      RunNodes(NOTHING, o.ops);
      NoNodes();
    }
  }

  lemma RootFirst(t: Tree)
    ensures t.id in LevelOrder([t])
  {
    assert Ids([t])[0] == t.id;
    assert LevelOrder([t]) == Ids([t]) + LevelOrder(Kids([t])) by { NodesSplit([t]); }
  }

  lemma NoBuffers(mem: Memory, bufs: Buffers)
    requires mem == map[] && KeysOwned(mem, bufs)
    ensures bufs == map[]
  {
  }

  lemma NothingShown(mem: Memory, bufs: Buffers)
    requires Shows(mem, bufs, NOTHING)
    ensures mem == map[] && bufs == map[]
  {
    assert NodeSet([]) == {};
  }

  lemma RootStands(mem: Memory, bufs: Buffers, f: Forest)
    requires Shows(mem, bufs, f) && |f.trees| == 1
    ensures f.trees[0].id != NULL
  {
    hide Nodes;
    assert Represents(mem, f.trees[0]);
    assert ChainAt(mem, [f.trees[0]], 0);
  }

  lemma OrderCounts(done: seq<Ptr>, f: Forest)
    ensures multiset(done + Order(f.trees)) == multiset(done) + Nodes(f.trees)
  {
    OrderNodes(f.trees);
  }

  /** Any files read one after another, and the end. As soon as a file fails after one that
      parsed, the root points to freed memory, and whatever comes next, the next file or
      `config_destroy`, destroys it again; if that never happens everything that was
      allocated is freed once. */
  method Life(outcomes: seq<Outcome>) returns (t: ConfigT, safe: bool)
    requires forall o <- outcomes :: IsOutcome(o)
    ensures safe <==> NoneFailsLate(outcomes)
    ensures !safe ==> t.Dangling()
    ensures safe ==> t.c.mem == map[] && t.c.bufs == map[] && multiset(t.c.freed) == AllocatedIn(outcomes)
  {
    hide IsOutcome, ConfigT.Account, Allocated, Shows, NoneFailsLate, AllocatedIn;
    t := new ConfigT();
    var i := 0;
    NoFiles(outcomes);
    while i < |outcomes|
      invariant i <= |outcomes| && fresh(t) && fresh(t.c) && t.Live() && NoneFailsLate(outcomes[..i])
      invariant t.root != NULL <==> i > 0 && outcomes[i - 1].parsed
      invariant t.Account() == AllocatedIn(outcomes[..i])
    {
      OneMoreFile(outcomes, i);
      var had := t.root != NULL;
      t.ReadFile(outcomes[i]);
      if had && !outcomes[i].parsed {
        FailsLate(outcomes, i);
        return t, false;
      }
      i := i + 1;
    }
    assert outcomes[..i] == outcomes;
    if t.root != NULL {
      t.DestroyRoot();
    } else {
      NothingShown(t.c.mem, t.c.bufs);
      EmptyAccount(t);
    }
    safe := true;
  }

  lemma OneMoreFile(os: seq<Outcome>, i: nat)
    requires i < |os| && NoneFailsLate(os[..i])
    ensures NoneFailsLate(os[..i + 1]) <==> !(i > 0 && os[i - 1].parsed && !os[i].parsed)
    ensures AllocatedIn(os[..i + 1]) == AllocatedIn(os[..i]) + Allocated(os[i].ops)
  {
    assert os[..i + 1][..i] == os[..i];
    var v := os[..i + 1];
    assert forall k :: 0 <= k < i ==> v[k] == os[..i][k];
    if i > 0 && os[i - 1].parsed && !os[i].parsed { assert v[i - 1].parsed && !v[i - 1 + 1].parsed; }
  }

  lemma NoFiles(os: seq<Outcome>)
    ensures NoneFailsLate(os[..0]) && AllocatedIn(os[..0]) == multiset{}
  {
  }

  lemma EmptyAccount(t: ConfigT)
    requires t.forest == NOTHING
    ensures t.Account() == multiset(t.c.freed)
  {
    NoNodes();
  }

  lemma FailsLate(os: seq<Outcome>, i: nat)
    requires 0 < i < |os| && os[i - 1].parsed && !os[i].parsed
    ensures !NoneFailsLate(os)
  {
    assert os[i - 1].parsed && !os[i - 1 + 1].parsed;
  }

  /** Two files, of which the first parses and the second does not. */
  lemma SecondFileFails(p: Ptr, q: Ptr)
    requires p != NULL && q != NULL
    ensures var os := [Outcome([New(p)], true), Outcome([New(q)], false)];
      (forall o <- os :: IsOutcome(o)) && !NoneFailsLate(os)
  {
    OneRoot(p);
    OneRoot(q);
    FailsLate([Outcome([New(p)], true), Outcome([New(q)], false)], 1);
  }

  lemma OneRoot(p: Ptr)
    requires p != NULL
    ensures LegalRun(NOTHING, [New(p)]) && ConfigRuns.Last(NOTHING, [New(p)]).trees == [Tree(p, [])]
  {
    assert [New(p)][1..] == [] && Nodes([]) == multiset{};
    assert [] + [Tree(p, [])] == [Tree(p, [])];
  }
}
