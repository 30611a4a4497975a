/** Callback logs up to the places where fragments are cut: gluing neighbouring
    fragments of one kind is the same as comparing logs octet by octet. */
module HttpGlue {
  import opened Basics
  import opened HttpParser
  import opened HttpInvariant
  import opened HttpStream
  import opened HttpExecute

  predicate Joins(g: seq<Callback>, k: Kind) {
    g != [] && g[|g| - 1].Data? && g[|g| - 1].kind == k
  }

  /** One more callback: a fragment goes on from a fragment of its kind, and an
      empty one is nothing. */
  function Append(g: seq<Callback>, e: Callback): seq<Callback> {
    if e.Plainly? then g + [e]
    else if e.bytes == [] then g
    else if Joins(g, e.kind) then g[..|g| - 1] + [Data(e.kind, g[|g| - 1].bytes + e.bytes)]
    else g + [e]
  }

  function Glue(es: seq<Callback>): seq<Callback> {
    if es == [] then [] else Append(Glue(es[..|es| - 1]), es[|es| - 1])
  }

  /** No empty fragment, and no two of one kind side by side. */
  predicate Glued(g: seq<Callback>) {
    && (forall i :: 0 <= i < |g| && g[i].Data? ==> g[i].bytes != [])
    && (forall i :: 0 < i < |g| && g[i].Data? ==> !(g[i - 1].Data? && g[i - 1].kind == g[i].kind))
  }

  function AsCallback(x: Atom): Callback {
    match x
    case Octet(k, ch) => Data(k, [ch])
    case Notice(n) => Plainly(n)
  }

  /** The log with the fewest callbacks that has these atoms. */
  function FromAtoms(xs: seq<Atom>): seq<Callback> {
    if xs == [] then [] else Append(FromAtoms(xs[..|xs| - 1]), AsCallback(xs[|xs| - 1]))
  }

  lemma FlattenAppend(g: seq<Callback>, e: Callback)
    ensures Flatten(Append(g, e)) == Flatten(g) + AtomsOf(e)
  {
    if e.Plainly? {
      FlattenPush(g, e);
    } else if e.bytes == [] {
      assert Flatten(g) + AtomsOf(e) == Flatten(g);
    } else if Joins(g, e.kind) {
      var n := |g| - 1;
      FlattenPush(g[..n], Data(e.kind, g[n].bytes + e.bytes));
      OctetsConcat(e.kind, g[n].bytes, e.bytes);
    } else {
      FlattenPush(g, e);
    }
  }

  /** Gluing changes no atom. */
  lemma {:induction false} FlattenGlue(es: seq<Callback>)
    ensures Flatten(Glue(es)) == Flatten(es)
  {
    if es != [] {
      var n := |es| - 1;
      FlattenGlue(es[..n]);
      FlattenAppend(Glue(es[..n]), es[n]);
    }
  }

  lemma FromAtomsPush(xs: seq<Atom>, x: Atom)
    ensures FromAtoms(xs + [x]) == Append(FromAtoms(xs), AsCallback(x))
  {
    assert (xs + [x])[..|xs|] == xs;
  }

  /** Octet by octet or all at once, a fragment is appended the same. */
  lemma AppendSnoc(g: seq<Callback>, k: Kind, b: seq<byte>, ch: byte)
    ensures Append(Append(g, Data(k, b)), Data(k, [ch])) == Append(g, Data(k, b + [ch]))
  {
    if b == [] {
      assert b + [ch] == [ch];
    } else if Joins(g, k) {
      var n := |g| - 1;
      assert g[n].bytes + b + [ch] == g[n].bytes + (b + [ch]);
    }
  }

  lemma OctetsPush(xs: seq<Atom>, k: Kind, b: seq<byte>)
    requires b != []
    ensures var n := |b| - 1; xs + Octets(k, b) == xs + Octets(k, b[..n]) + [Octet(k, b[n])]
  {
  }

  lemma {:induction false} FromOctets(xs: seq<Atom>, k: Kind, b: seq<byte>)
    ensures FromAtoms(xs + Octets(k, b)) == Append(FromAtoms(xs), Data(k, b))
    decreases |b|
  {
    if b == [] {
      assert xs + Octets(k, b) == xs;
    } else {
      hide FromAtoms, Append, Octets;
      var n := |b| - 1;
      FromOctets(xs, k, b[..n]);
      OctetsPush(xs, k, b);
      FromAtomsPush(xs + Octets(k, b[..n]), Octet(k, b[n]));
      AppendSnoc(FromAtoms(xs), k, b[..n], b[n]);
      assert b[..n] + [b[n]] == b;
    }
  }

  lemma {:induction false} GlueFromAtoms(es: seq<Callback>)
    ensures Glue(es) == FromAtoms(Flatten(es))
  {
    if es != [] {
      var n := |es| - 1;
      GlueFromAtoms(es[..n]);
      match es[n] {
        case Data(k, b) => FromOctets(Flatten(es[..n]), k, b);
        case Plainly(note) => FromAtomsPush(Flatten(es[..n]), Notice(note));
      }
    }
  }

  /** Two logs have the same atoms exactly when they are the same once adjacent
      fragments of a kind are glued. */
  lemma SameGlue(a: seq<Callback>, b: seq<Callback>)
    ensures Flatten(a) == Flatten(b) <==> Glue(a) == Glue(b)
  {
    GlueFromAtoms(a);
    GlueFromAtoms(b);
    FlattenGlue(a);
    FlattenGlue(b);
  }

  lemma {:induction false} GlueIsGlued(es: seq<Callback>)
    ensures Glued(Glue(es))
  {
    if es != [] {
      GlueIsGlued(es[..|es| - 1]);
    }
  }

  /** A log in which nothing can be glued is its own gluing, so among the logs with
      its atoms it is the only such one. */
  lemma {:induction false} GluedStays(g: seq<Callback>)
    requires Glued(g)
    ensures Glue(g) == g
  {
    if g != [] {
      var n := |g| - 1;
      GluedStays(g[..n]);
      assert g == g[..n] + [g[n]];
    }
  }

  /** A stream read to its end in one buffer or in two brings the same callbacks, once
      adjacent fragments are glued. */
  method SplitGlued(env: Env, one: Connection, two: Connection, a: seq<byte>, b: seq<byte>)
    requires env.limit == MAX_HEADER_SIZE
    requires one != two && one.p == two.p && Glue(one.log) == Glue(two.log)
    requires Valid(one.p) && one.p.errno.OK? && a != [] && b != []
    modifies one, two
    ensures var r := Parse(env, old(one.p), a + b);
      r.end.More? ==> one.p == two.p == r.p && Glue(one.log) == Glue(two.log) == FromAtoms(old(Flatten(one.log)) + r.out)
  {
    hide Parse, Flatten, Glue, FromAtoms;
    SameGlue(one.log, two.log);
    SplitIndependence(env, one, two, a, b);
    SameGlue(one.log, two.log);
    GlueFromAtoms(one.log);
  }
}
