/** Finite directed graphs: paths, reachability and cycles.
    An edge (er, ee) is drawn from the item depended on to the item that depends on it. */
module Graphs {
  import opened Sequences

  /** A CalcItem is known to the scheduler only by its address. */
  datatype Item = Item(address: int)

  type Edge = (Item, Item)

  ghost predicate IsPath(es: set<Edge>, p: seq<Item>) {
    && |p| > 0
    && forall i :: 0 <= i < |p| - 1 ==> (p[i], p[i + 1]) in es
  }

  ghost predicate IsPathFromTo(es: set<Edge>, p: seq<Item>, u: Item, v: Item) {
    IsPath(es, p) && p[0] == u && p[|p| - 1] == v
  }

  /** Reachability in any number of steps, zero included. */
  ghost predicate Reaches(es: set<Edge>, u: Item, v: Item) {
    exists p: seq<Item> :: IsPathFromTo(es, p, u, v)
  }

  ghost predicate IsCycle(es: set<Edge>, p: seq<Item>) {
    IsPath(es, p) && |p| > 1 && p[0] == p[|p| - 1]
  }

  ghost predicate Acyclic(es: set<Edge>) {
    forall p: seq<Item> :: !IsCycle(es, p)
  }

  /** No edge of es points to v. */
  predicate Source(es: set<Edge>, v: Item) {
    forall e :: e in es ==> e.1 != v
  }

  /** The edges whose two ends both survive. */
  ghost function Among(es: set<Edge>, vs: set<Item>): (r: set<Edge>) {
    set e | e in es && e.0 in vs && e.1 in vs
  }

  ghost predicate Closed(es: set<Edge>, vs: set<Item>) {
    forall e :: e in es ==> e.0 in vs && e.1 in vs
  }

  lemma ReachesSelf(es: set<Edge>, u: Item)
    ensures Reaches(es, u, u)
  {
    assert IsPathFromTo(es, [u], u, u);
  }

  lemma ReachesStep(es: set<Edge>, u: Item, v: Item, w: Item)
    requires Reaches(es, u, v) && (v, w) in es
    ensures Reaches(es, u, w)
  {
    var p :| IsPathFromTo(es, p, u, v);
    assert IsPathFromTo(es, p + [w], u, w);
  }

  lemma ReachesTrans(es: set<Edge>, u: Item, v: Item, w: Item)
    requires Reaches(es, u, v) && Reaches(es, v, w)
    ensures Reaches(es, u, w)
  {
    var p :| IsPathFromTo(es, p, u, v);
    var q :| IsPathFromTo(es, q, v, w);
    var r := p + q[1..];
    forall i | 0 <= i < |r| - 1 ensures (r[i], r[i + 1]) in es {
      if i < |p| - 1 {
      } else {
        assert r[i] == q[i - (|p| - 1)] && r[i + 1] == q[i + 1 - (|p| - 1)];
      }
    }
    assert IsPathFromTo(es, r, u, w);
  }

  lemma ReachesMono(es: set<Edge>, fs: set<Edge>, u: Item, v: Item)
    requires es <= fs && Reaches(es, u, v)
    ensures Reaches(fs, u, v)
  {
    var p :| IsPathFromTo(es, p, u, v);
    assert IsPathFromTo(fs, p, u, v);
  }

  /** A set that holds u and is closed under the edges holds all that u reaches. */
  lemma {:induction false} ReachesStaysIn(es: set<Edge>, vs: set<Item>, p: seq<Item>)
    requires IsPath(es, p) && p[0] in vs
    requires forall e :: e in es && e.0 in vs ==> e.1 in vs
    ensures p[|p| - 1] in vs
  {
    if |p| == 1 {
    } else {
      var q := p[..|p| - 1];
      ReachesStaysIn(es, vs, q);
      var e := (p[|p| - 2], p[|p| - 1]);
      assert e in es;
    }
  }

  /** An item other than u that u reaches has an incoming edge. */
  lemma ReachedHasIncoming(es: set<Edge>, u: Item, v: Item)
    requires Reaches(es, u, v) && u != v
    ensures !Source(es, v)
  {
    var p :| IsPathFromTo(es, p, u, v);
    var e := (p[|p| - 2], p[|p| - 1]);
    assert e in es;
  }

  ghost function NotFrom(es: set<Edge>, u: Item): set<Edge> {
    set e | e in es && e.0 != u
  }

  /** Deleting the edges that leave an item without incoming edges neither makes nor breaks a cycle. */
  lemma CutSource(es: set<Edge>, u: Item)
    requires Source(es, u)
    ensures Acyclic(es) <==> Acyclic(NotFrom(es, u))
  {
    var fs := NotFrom(es, u);
    if !Acyclic(fs) {
      var p :| IsCycle(fs, p);
      assert IsCycle(es, p);
    }
    if !Acyclic(es) {
      var p :| IsCycle(es, p);
      forall i | 0 <= i < |p| - 1 ensures (p[i], p[i + 1]) in fs {
        var into := if i > 0 then (p[i - 1], p[i]) else (p[|p| - 2], p[|p| - 1]);
        assert into in es && into.1 == p[i];
      }
      assert IsCycle(fs, p);
    }
  }

  ghost predicate HasPredIn(es: set<Edge>, vs: set<Item>, v: Item) {
    exists u :: u in vs && (u, v) in es
  }

  /** Every item of vs has a predecessor in vs. */
  ghost predicate NoSourceIn(es: set<Edge>, vs: set<Item>) {
    forall v {:trigger HasPredIn(es, vs, v)} :: v in vs ==> HasPredIn(es, vs, v)
  }

  /** The pigeonhole step: a duplicate-free path inside vs can be walked backwards until it closes. */
  lemma {:induction false} WalkBack(es: set<Edge>, vs: set<Item>, p: seq<Item>)
    requires IsPath(es, p) && NoSourceIn(es, vs)
    requires forall x :: x in p ==> x in vs
    requires Distinct(p)
    ensures !Acyclic(es)
    decreases |vs| - |p|
  {
    DistinctSize(p, vs);
    var u, q := OneBack(es, vs, p);
    if k :| 0 <= k < |p| && p[k] == u {
      ClosePath(es, q, k + 1);
    } else {
      DistinctSize(q, vs);
      WalkBack(es, vs, q);
    }
  }

  lemma ClosePath(es: set<Edge>, q: seq<Item>, k: nat)
    requires IsPath(es, q) && 0 < k < |q| && q[k] == q[0]
    ensures !Acyclic(es)
  {
    var c := q[..k + 1];
    assert IsCycle(es, c);
  }

  lemma OneBack(es: set<Edge>, vs: set<Item>, p: seq<Item>) returns (u: Item, q: seq<Item>)
    requires IsPath(es, p) && NoSourceIn(es, vs) && p[0] in vs
    ensures u in vs && q == [u] + p && IsPath(es, q)
  {
    assert HasPredIn(es, vs, p[0]);
    u :| u in vs && (u, p[0]) in es;
    q := [u] + p;
    forall i | 0 <= i < |q| - 1 ensures (q[i], q[i + 1]) in es {
      if i > 0 {
        assert q[i] == p[i - 1] && q[i + 1] == p[i];
      }
    }
  }

  lemma PathStarts(es: set<Edge>, p: seq<Item>)
    requires IsPath(es, p) && |p| > 1
    ensures es != {}
  {
    assert (p[0], p[0 + 1]) in es;
  }

  /** When every tail of an edge has an incoming edge, only the edgeless graph has no cycle. */
  lemma NoSourceMeansCycle(es: set<Edge>)
    requires forall e :: e in es ==> !Source(es, e.0)
    ensures Acyclic(es) <==> es == {}
  {
    if es == {} {
      forall p: seq<Item> ensures !IsCycle(es, p) {
        if IsCycle(es, p) {
          PathStarts(es, p);
        }
      }
    } else {
      var vs := TailsHavePreds(es);
      var e :| e in es;
      assert IsPath(es, [e.0]);
      WalkBack(es, vs, [e.0]);
    }
  }

  lemma TailsHavePreds(es: set<Edge>) returns (vs: set<Item>)
    requires forall e :: e in es ==> !Source(es, e.0)
    ensures NoSourceIn(es, vs) && forall e :: e in es ==> e.0 in vs
  {
    vs := set e | e in es :: e.0;
    forall v | v in vs ensures HasPredIn(es, vs, v) {
      var e :| e in es && e.0 == v;
      assert !Source(es, e.0);
      var d :| d in es && d.1 == v;
      assert d.0 in vs && (d.0, v) in es;
    }
  }

  /** A non-empty acyclic graph has a node without incoming edges. */
  lemma AcyclicHasSource(es: set<Edge>, vs: set<Item>)
    requires Acyclic(es) && Closed(es, vs) && vs != {}
    ensures exists v :: v in vs && Source(es, v)
  {
    var v :| v in vs;
    if e :| e in es && Source(es, e.0) {
      assert e.0 in vs;
    } else if es != {} {
      NoSourceMeansCycle(es);
    } else {
      assert Source(es, v);
    }
  }

  lemma AcyclicSubset(es: set<Edge>, fs: set<Edge>)
    requires Acyclic(fs) && es <= fs
    ensures Acyclic(es)
  {
    forall p: seq<Item> ensures !IsCycle(es, p) {
      if IsCycle(es, p) {
        assert IsCycle(fs, p);
      }
    }
  }

  // ----- copies of a graph

  predicate Injective(copy: map<Item, Item>) {
    forall u, v :: u in copy && v in copy && copy[u] == copy[v] ==> u == v
  }

  predicate Covers(copy: map<Item, Item>, es: set<Edge>) {
    forall e :: e in es ==> e.0 in copy && e.1 in copy
  }

  /** The edges between the copies. */
  function Image(es: set<Edge>, copy: map<Item, Item>): set<Edge>
    requires Covers(copy, es)
  {
    set e | e in es :: (copy[e.0], copy[e.1])
  }

  lemma PathCopied(es: set<Edge>, copy: map<Item, Item>, p: seq<Item>) returns (q: seq<Item>)
    requires Covers(copy, es) && IsPath(es, p) && p[0] in copy
    ensures IsPath(Image(es, copy), q) && |q| == |p|
    ensures p[|p| - 1] in copy && q[0] == copy[p[0]] && q[|p| - 1] == copy[p[|p| - 1]]
  {
    forall i | 0 <= i < |p| ensures p[i] in copy {
      if i > 0 {
        assert (p[i - 1], p[i - 1 + 1]) in es;
      }
    }
    q := seq(|p|, i requires 0 <= i < |p| => copy[p[i]]);
    forall i | 0 <= i < |q| - 1 ensures (q[i], q[i + 1]) in Image(es, copy) {
      var e := (p[i], p[i + 1]);
      assert e in es;
    }
  }

  ghost function Inverse(copy: map<Item, Item>): (back: map<Item, Item>)
    requires Injective(copy)
    ensures Injective(back) && back.Keys == copy.Values
    ensures forall u :: u in copy ==> back[copy[u]] == u
  {
    assert forall u :: u in copy ==> copy[u] in copy.Values;
    map v | v in copy.Values :: var u :| u in copy && copy[u] == v; u
  }

  lemma CopiedBack(es: set<Edge>, copy: map<Item, Item>)
    requires Covers(copy, es) && Injective(copy)
    ensures Covers(Inverse(copy), Image(es, copy)) && Image(Image(es, copy), Inverse(copy)) == es
  {
    var fs, back := Image(es, copy), Inverse(copy);
    forall e | e in es ensures e in Image(fs, back) {
      var f := (copy[e.0], copy[e.1]);
      assert f in fs && e == (back[f.0], back[f.1]);
    }
  }

  lemma ReachesCopied(es: set<Edge>, copy: map<Item, Item>, u: Item, v: Item)
    requires Covers(copy, es) && u in copy && v in copy && Reaches(es, u, v)
    ensures Reaches(Image(es, copy), copy[u], copy[v])
  {
    var p :| IsPathFromTo(es, p, u, v);
    var q := PathCopied(es, copy, p);
    assert IsPathFromTo(Image(es, copy), q, copy[u], copy[v]);
  }

  lemma CycleCopied(es: set<Edge>, copy: map<Item, Item>)
    requires Covers(copy, es) && !Acyclic(es)
    ensures !Acyclic(Image(es, copy))
  {
    var p :| IsCycle(es, p);
    assert (p[0], p[0 + 1]) in es;
    var q := PathCopied(es, copy, p);
    assert IsCycle(Image(es, copy), q);
  }

  /** A graph and its copy have the same cycles and the same reachability. */
  lemma CopyMeansSame(es: set<Edge>, copy: map<Item, Item>, u: Item, v: Item)
    requires Covers(copy, es) && Injective(copy) && u in copy && v in copy
    ensures Acyclic(es) <==> Acyclic(Image(es, copy))
    ensures Reaches(es, u, v) <==> Reaches(Image(es, copy), copy[u], copy[v])
  {
    var fs, back := Image(es, copy), Inverse(copy);
    CopiedBack(es, copy);
    if !Acyclic(es) {
      CycleCopied(es, copy);
    }
    if !Acyclic(fs) {
      CycleCopied(fs, back);
    }
    if Reaches(es, u, v) {
      ReachesCopied(es, copy, u, v);
    }
    if Reaches(fs, copy[u], copy[v]) {
      ReachesCopied(fs, back, copy[u], copy[v]);
    }
  }
}
