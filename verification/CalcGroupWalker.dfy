/** The scheduler of depend_calc/calc_group_walker.cc. The first module gives the meaning of its
    operations and proves what holds over every sequence of them; the second is the class. */
module WalkerSpec {
  import opened Graphs
  import opened Sequences
  import opened CalcGroups

  datatype Walker = Walker(nodes: set<Item>, edges: set<Edge>, runnable: seq<Item>, current: seq<Item>)

  datatype Action = StartOne | StartAll | Mark(item: Item, success: bool)

  /** Finish() of the source. */
  predicate Finished(w: Walker) {
    |w.current| + |w.runnable| == 0
  }

  predicate Enabled(w: Walker, a: Action) {
    match a
    case StartOne => |w.runnable| > 0
    case StartAll => true
    case Mark(item, _) => item in w.current
  }

  /** freed lists, in any order, the items that had item as their last open dependency. */
  ghost predicate Frees(es: set<Edge>, item: Item, freed: seq<Item>) {
    Distinct(freed) && forall d :: d in freed <==> (item, d) in es && Source(NotFrom(es, item), d)
  }

  ghost predicate Next(w: Walker, a: Action, w': Walker)
    requires Enabled(w, a)
  {
    match a
    case StartOne =>
      w' == w.(runnable := w.runnable[1..], current := w.current + [w.runnable[0]])
    case StartAll =>
      w' == w.(runnable := [], current := w.current + w.runnable)
    case Mark(item, true) =>
      exists freed: seq<Item> ::
        && Frees(w.edges, item, freed)
        && w' == Walker(w.nodes - {item}, NotFrom(w.edges, item),
                        w.runnable + freed, Keep(w.current, v => v != item))
    case Mark(item, false) =>
      var survivors := w.nodes - Downstream(w.edges, w.nodes, item);
      w' == Walker(survivors, Among(w.edges, survivors), w.runnable, Keep(w.current, v => v != item))
  }

  /** runnable and current are disjoint, free of duplicates and together list exactly the items
      without incoming edges. */
  ghost predicate Frontier(w: Walker) {
    && Closed(w.edges, w.nodes)
    && Distinct(w.runnable) && Distinct(w.current)
    && (forall v :: v in w.runnable ==> v !in w.current)
    && (forall v :: v in w.runnable || v in w.current <==> v in w.nodes && Source(w.edges, v))
  }

  lemma FrontierKept(w: Walker, a: Action, w': Walker)
    requires Frontier(w) && Enabled(w, a) && Next(w, a, w')
    ensures Frontier(w')
  {
    match a
    case StartOne =>
      DistinctConcat(w.current, [w.runnable[0]]);
      assert w.runnable == [w.runnable[0]] + w.runnable[1..];
    case StartAll =>
      DistinctConcat(w.current, w.runnable);
    case Mark(item, true) =>
      SuccessKeepsFrontier(w, item, w');
    case Mark(item, false) =>
      FailureKeepsFrontier(w, item, w');
  }

  lemma SuccessKeepsFrontier(w: Walker, item: Item, w': Walker)
    requires Frontier(w) && item in w.current && Next(w, Mark(item, true), w')
    ensures Frontier(w')
  {
    var freed :| Frees(w.edges, item, freed) && w'.runnable == w.runnable + freed;
    NewSources(w.edges, item);
    forall d | d in freed ensures !Source(w.edges, d) && d in w.nodes {
      var e := (item, d);
      assert e in w.edges;
    }
    DistinctConcat(w.runnable, freed);
    KeepMembers(w.current, v => v != item);
    KeepDistinct(w.current, v => v != item);
  }

  /** No survivor of a failure becomes a source, and no other started item is deleted. */
  lemma FailureKeepsFrontier(w: Walker, item: Item, w': Walker)
    requires Frontier(w) && item in w.current && Next(w, Mark(item, false), w')
    ensures Frontier(w')
  {
    var dead := Downstream(w.edges, w.nodes, item);
    KeepMembers(w.current, v => v != item);
    KeepDistinct(w.current, v => v != item);
    ReachesSelf(w.edges, item);
    forall v | v in dead && v != item ensures !Source(w.edges, v) {
      ReachedHasIncoming(w.edges, item, v);
    }
    forall e | e in w.edges && e.1 !in dead ensures e in w'.edges {
      if e.0 in dead {
        ReachesStep(w.edges, item, e.0, e.1);
      }
    }
  }

  /** A walker together with what has happened so far. */
  datatype History = History(w: Walker, started: seq<Item>, ok: set<Item>, bad: set<Item>)

  ghost predicate Begins(vs: set<Item>, es: set<Edge>, h: History) {
    && h.w.nodes == vs && h.w.edges == es && h.w.current == []
    && Distinct(h.w.runnable) && (forall v :: v in h.w.runnable <==> v in vs && Source(es, v))
    && h.started == [] && h.ok == {} && h.bad == {}
  }

  ghost predicate NextHistory(h: History, a: Action, h': History) {
    && Enabled(h.w, a) && Next(h.w, a, h'.w)
    && match a
       case StartOne => h' == h.(w := h'.w, started := h.started + [h.w.runnable[0]])
       case StartAll => h' == h.(w := h'.w, started := h.started + h.w.runnable)
       case Mark(item, true) => h' == h.(w := h'.w, ok := h.ok + {item})
       case Mark(item, false) => h' == h.(w := h'.w, bad := h.bad + {item})
  }

  /** The original items that some failed item reaches. */
  ghost function Lost(vs: set<Item>, es: set<Edge>, bad: set<Item>): (r: set<Item>) {
    set v | v in vs && exists b :: b in bad && Reaches(es, b, v)
  }

  ghost predicate Scheduled(vs: set<Item>, es: set<Edge>, h: History) {
    && Closed(es, vs) && Acyclic(es) && Frontier(h.w)
    && h.w.nodes == vs - h.ok - Lost(vs, es, h.bad)
    && h.w.edges == Among(es, h.w.nodes)
    && h.ok !! Lost(vs, es, h.bad) && h.ok <= vs && h.bad <= vs
    && Distinct(h.started) && Elements(h.started) == Elements(h.w.current) + h.ok + h.bad
    && (forall e :: e in es && e.1 in h.started ==> e.0 in h.ok)
  }

  lemma BeginsScheduled(vs: set<Item>, es: set<Edge>, h: History)
    requires Closed(es, vs) && Acyclic(es) && Begins(vs, es, h)
    ensures Scheduled(vs, es, h)
  {
    assert h.w.edges == Among(es, h.w.nodes);
  }

  lemma LostItself(vs: set<Item>, es: set<Edge>, bad: set<Item>)
    requires bad <= vs
    ensures bad <= Lost(vs, es, bad)
  {
    forall b | b in bad ensures b in Lost(vs, es, bad) {
      ReachesSelf(es, b);
    }
  }

  lemma LostClosed(vs: set<Item>, es: set<Edge>, bad: set<Item>)
    requires Closed(es, vs)
    ensures forall e :: e in es && e.0 in Lost(vs, es, bad) ==> e.1 in Lost(vs, es, bad)
  {
    forall e | e in es && e.0 in Lost(vs, es, bad) ensures e.1 in Lost(vs, es, bad) {
      var b :| b in bad && Reaches(es, b, e.0);
      ReachesStep(es, b, e.0, e.1);
    }
  }

  /** Items about to start have all their original dependencies behind them. */
  lemma RunnableIsReady(vs: set<Item>, es: set<Edge>, h: History)
    requires Scheduled(vs, es, h)
    ensures forall e :: e in es && e.1 in h.w.runnable ==> e.0 in h.ok
    ensures forall v :: v in h.w.runnable ==> v !in h.started
  {
    LostItself(vs, es, h.bad);
    LostClosed(vs, es, h.bad);
    forall e | e in es && e.1 in h.w.runnable ensures e.0 in h.ok {
      assert e.0 in h.w.nodes ==> e in h.w.edges;
    }
    assert forall v :: v in h.started ==> v in Elements(h.started);
  }

  lemma StartKeeps(vs: set<Item>, es: set<Edge>, h: History, a: Action, h': History)
    requires Scheduled(vs, es, h) && !a.Mark? && NextHistory(h, a, h')
    ensures Scheduled(vs, es, h')
  {
    FrontierKept(h.w, a, h'.w);
    RunnableIsReady(vs, es, h);
    var more := if a.StartOne? then [h.w.runnable[0]] else h.w.runnable;
    DistinctConcat(h.started, more);
    assert Elements(h'.started) == Elements(h.started) + Elements(more);
    assert Elements(h'.w.current) == Elements(h.w.current) + Elements(more);
  }

  lemma CurrentSplit(h: History, item: Item, cur: seq<Item>)
    requires item in h.w.current && cur == Keep(h.w.current, v => v != item)
    ensures Elements(h.w.current) == Elements(cur) + {item}
  {
    KeepMembers(h.w.current, v => v != item);
  }

  lemma SuccessKeeps(vs: set<Item>, es: set<Edge>, h: History, item: Item, h': History)
    requires Scheduled(vs, es, h) && NextHistory(h, Mark(item, true), h')
    ensures Scheduled(vs, es, h')
  {
    FrontierKept(h.w, Mark(item, true), h'.w);
    CurrentSplit(h, item, h'.w.current);
    assert Source(h.w.edges, item) && item in h.w.nodes;
    assert h'.w.edges == Among(es, h'.w.nodes);
  }

  /** A path of the original graph between survivors runs through survivors only. */
  lemma {:induction false} PathSurvives(vs: set<Item>, es: set<Edge>, h: History, p: seq<Item>)
    requires Scheduled(vs, es, h) && IsPath(es, p)
    requires p[0] in h.w.nodes && p[|p| - 1] in h.w.nodes
    ensures IsPath(h.w.edges, p)
  {
    assert forall v :: v in h.ok ==> v in Elements(h.started);
    if |p| == 1 {
    } else {
      var q := p[1..];
      assert (p[0], p[0 + 1]) in es;
      assert IsPath(es, q) by {
        forall i | 0 <= i < |q| - 1 ensures (q[i], q[i + 1]) in es {
          assert q[i] == p[i + 1] && q[i + 1] == p[i + 1 + 1];
        }
      }
      assert IsPathFromTo(es, q, p[1], p[|p| - 1]);
      if p[1] in Lost(vs, es, h.bad) {
        var b :| b in h.bad && Reaches(es, b, p[1]);
        ReachesTrans(es, b, p[1], p[|p| - 1]);
      }
      PathSurvives(vs, es, h, q);
      forall i | 0 <= i < |p| - 1 ensures (p[i], p[i + 1]) in h.w.edges {
        if i > 0 {
          assert q[i - 1] == p[i] && q[i - 1 + 1] == p[i + 1];
        }
      }
    }
  }

  /** What a failed item takes with it now is what it reached in the original graph. */
  lemma FailureLoses(vs: set<Item>, es: set<Edge>, h: History, item: Item)
    requires Scheduled(vs, es, h) && item in h.w.current
    ensures h.w.nodes - Downstream(h.w.edges, h.w.nodes, item) == vs - h.ok - Lost(vs, es, h.bad + {item})
    ensures h.ok !! Lost(vs, es, h.bad + {item})
  {
    forall v | v in h.w.nodes && Reaches(es, item, v) ensures Reaches(h.w.edges, item, v) {
      var p :| IsPathFromTo(es, p, item, v);
      PathSurvives(vs, es, h, p);
      assert IsPathFromTo(h.w.edges, p, item, v);
    }
    forall v | Reaches(h.w.edges, item, v) ensures Reaches(es, item, v) {
      ReachesMono(h.w.edges, es, item, v);
    }
    forall v | v in vs && Reaches(es, item, v) ensures v !in h.ok {
      var p :| IsPathFromTo(es, p, item, v);
      assert forall x :: x in h.ok ==> x in Elements(h.started);
      ReachesStaysIn(es, vs - h.ok, p);
    }
  }

  lemma FailureKeeps(vs: set<Item>, es: set<Edge>, h: History, item: Item, h': History)
    requires Scheduled(vs, es, h) && NextHistory(h, Mark(item, false), h')
    ensures Scheduled(vs, es, h')
  {
    FrontierKept(h.w, Mark(item, false), h'.w);
    CurrentSplit(h, item, h'.w.current);
    FailureLoses(vs, es, h, item);
    assert h'.w.edges == Among(es, h'.w.nodes);
  }

  lemma ScheduledKept(vs: set<Item>, es: set<Edge>, h: History, a: Action, h': History)
    requires Scheduled(vs, es, h) && NextHistory(h, a, h')
    ensures Scheduled(vs, es, h')
  {
    match a
    case StartOne => StartKeeps(vs, es, h, a, h');
    case StartAll => StartKeeps(vs, es, h, a, h');
    case Mark(item, true) => SuccessKeeps(vs, es, h, item, h');
    case Mark(item, false) => FailureKeeps(vs, es, h, item, h');
  }

  /** A run: a start state and any sequence of calls whose results are arbitrary. */
  ghost predicate IsRun(vs: set<Item>, es: set<Edge>, hs: seq<History>, acts: seq<Action>) {
    && |hs| == |acts| + 1
    && Begins(vs, es, hs[0])
    && forall i {:trigger acts[i]} :: 0 <= i < |acts| ==> NextHistory(hs[i], acts[i], hs[i + 1])
  }

  lemma {:induction false} RunScheduled(vs: set<Item>, es: set<Edge>, hs: seq<History>, acts: seq<Action>)
    requires Closed(es, vs) && Acyclic(es) && IsRun(vs, es, hs, acts)
    ensures Scheduled(vs, es, hs[|acts|])
  {
    if acts == [] {
      BeginsScheduled(vs, es, hs[0]);
    } else {
      var n := |acts| - 1;
      RunScheduled(vs, es, hs[..n + 1], acts[..n]);
      ScheduledKept(vs, es, hs[n], acts[n], hs[n + 1]);
    }
  }

  // ----- first come, first served

  /** All items that were ever runnable, in the order in which they became so. */
  function Line(h: History): seq<Item> {
    h.started + h.w.runnable
  }

  /** Items join the line at its end and never change places in it; only a success makes some join, and
      those are exactly the items it freed. */
  lemma LineGrows(h: History, a: Action, h': History)
    requires NextHistory(h, a, h')
    ensures Line(h) <= Line(h') && h.started <= h'.started
    ensures forall v :: v in Line(h')[|Line(h)|..] <==>
              a.Mark? && a.success && (a.item, v) in h.w.edges && Source(NotFrom(h.w.edges, a.item), v)
  {
    match a
    case Mark(item, true) =>
      var freed :| Frees(h.w.edges, item, freed) && h'.w.runnable == h.w.runnable + freed;
      assert Line(h') == Line(h) + freed;
    case StartOne =>
      assert h.w.runnable == [h.w.runnable[0]] + h.w.runnable[1..];
      assert Line(h') == Line(h);
    case _ =>
      assert Line(h') == Line(h);
  }

  lemma {:induction false} LineKept(vs: set<Item>, es: set<Edge>, hs: seq<History>, acts: seq<Action>, i: nat, j: nat)
    requires IsRun(vs, es, hs, acts) && i <= j <= |acts|
    ensures Line(hs[i]) <= Line(hs[j]) && hs[i].started <= hs[j].started
    decreases j - i
  {
    if i == j {
    } else {
      LineKept(vs, es, hs, acts, i, j - 1);
      var a := acts[j - 1];
      LineGrows(hs[j - 1], a, hs[j]);
    }
  }

  /** Items start in the order in which they became free: when v starts, every item that was free before
      v was has started, and starts are never reordered. */
  lemma StartsInTurn(vs: set<Item>, es: set<Edge>, hs: seq<History>, acts: seq<Action>,
                     i: nat, j: nat, u: Item, v: Item)
    requires IsRun(vs, es, hs, acts) && i <= j <= |acts|
    requires u in Line(hs[i]) && v !in Line(hs[i]) && v in hs[j].started
    ensures u in hs[j].started && hs[i].started <= hs[j].started
    ensures Before(hs[j].started, u, v)
  {
    LineKept(vs, es, hs, acts, i, j);
    var line := Line(hs[j]);
    var k :| 0 <= k < |Line(hs[i])| && Line(hs[i])[k] == u;
    var l :| 0 <= l < |hs[j].started| && hs[j].started[l] == v;
    assert line[k] == u && line[l] == v;
    assert forall x :: 0 <= x < |Line(hs[i])| ==> line[x] == Line(hs[i])[x] && Line(hs[i])[x] in Line(hs[i]);
    assert hs[j].started[k] == u;
  }

  lemma FinishedMeansEmpty(w: Walker)
    requires Frontier(w) && Acyclic(w.edges)
    ensures Finished(w) <==> w.nodes == {}
  {
    if !Finished(w) {
      var v := if |w.runnable| > 0 then w.runnable[0] else w.current[0];
      assert v in w.nodes;
    } else if w.nodes != {} {
      AcyclicHasSource(w.edges, w.nodes);
    }
  }

  /** Over every run: an item starts at most once and only after all items it depends on were
      marked successful; the walker reports the end exactly when every item was marked successful
      or depends on a failed one; without failures that means every item ran. */
  lemma RunTheorem(vs: set<Item>, es: set<Edge>, hs: seq<History>, acts: seq<Action>)
    requires Closed(es, vs) && Acyclic(es) && IsRun(vs, es, hs, acts)
    ensures var h := hs[|acts|];
            && Distinct(h.started)
            && (forall e :: e in es && e.1 in h.started ==> e.0 in h.ok)
            && (Finished(h.w) <==> vs == h.ok + Lost(vs, es, h.bad))
            && (Finished(h.w) && h.bad == {} ==> Elements(h.started) == vs == h.ok)
  {
    RunScheduled(vs, es, hs, acts);
    var h := hs[|acts|];
    AcyclicSubset(h.w.edges, es);
    FinishedMeansEmpty(h.w);
  }
}

module CalcGroupWalkers {
  import opened Graphs
  import opened Sequences
  import opened CalcGroups
  import opened EdgeMaps
  import opened WalkerSpec

  /** The list behind the edges of the walker's graph, before and after a call. */
  ghost predicate Lists(w: Walker, a: Action, edges: seq<Edge>, edges': seq<Edge>) {
    match a
    case Mark(item, success) => edges' == LeftBy(w.nodes, edges, item, success)
    case _ => edges' == edges
  }

  lemma ListsKept(w: Walker, a: Action, w': Walker, edges: seq<Edge>, edges': seq<Edge>)
    requires Frontier(w) && Enabled(w, a) && Next(w, a, w') && Lists(w, a, edges, edges')
    requires Elements(edges) == w.edges && Sorted(edges) && TargetsDiffer(edges)
    ensures Elements(edges') == w'.edges && Sorted(edges') && TargetsDiffer(edges')
  {
    match a
    case Mark(item, true) =>
      LeftByKeeps(w.nodes, edges, item, true);
      KeepMembers(edges, (e: Edge) => e.0 != item);
    case Mark(item, false) =>
      LeftByKeeps(w.nodes, edges, item, false);
      var dead := Downstream(w.edges, w.nodes, item);
      KeepMembers(edges, (e: Edge) => e.0 !in dead && e.1 !in dead);
    case _ =>
  }

  ghost predicate IsListedRun(vs: set<Item>, hs: seq<History>, acts: seq<Action>, lists: seq<seq<Edge>>) {
    && |lists| == |hs| > 0
    && IsRun(vs, Elements(lists[0]), hs, acts)
    && forall k {:trigger acts[k]} :: 0 <= k < |acts| ==> Lists(hs[k].w, acts[k], lists[k], lists[k + 1])
  }

  lemma {:induction false} ListsFit(vs: set<Item>, hs: seq<History>, acts: seq<Action>, lists: seq<seq<Edge>>, n: nat)
    requires IsListedRun(vs, hs, acts, lists) && n <= |acts|
    requires Closed(Elements(lists[0]), vs) && Sorted(lists[0]) && TargetsDiffer(lists[0])
    ensures Frontier(hs[n].w)
    ensures Elements(lists[n]) == hs[n].w.edges && Sorted(lists[n]) && TargetsDiffer(lists[n])
  {
    if n == 0 {
    } else {
      ListsFit(vs, hs, acts, lists, n - 1);
      var a := acts[n - 1];
      ListsKept(hs[n - 1].w, a, hs[n].w, lists[n - 1], lists[n]);
      FrontierKept(hs[n - 1].w, a, hs[n].w);
    }
  }

  /** In a group in which no item waits for two entries every failure of every run is defined: the
      theorems about runs then apply whatever fails. */
  lemma EveryFailureDefined(vs: set<Item>, hs: seq<History>, acts: seq<Action>, lists: seq<seq<Edge>>)
    requires IsListedRun(vs, hs, acts, lists)
    requires Closed(Elements(lists[0]), vs) && Sorted(lists[0]) && TargetsDiffer(lists[0])
    ensures forall k :: 0 <= k < |acts| ==> Sorted(lists[k])
    ensures forall k :: 0 <= k < |acts| && acts[k].Mark? ==> RoundsKept(lists[k], [acts[k].item])
  {
    forall k | 0 <= k < |acts| ensures Sorted(lists[k]) && (acts[k].Mark? ==> RoundsKept(lists[k], [acts[k].item])) {
      ListsFit(vs, hs, acts, lists, k);
      if acts[k].Mark? {
        SingleDependencies(lists[k], [acts[k].item]);
      }
    }
  }

  class CalcGroupWalker {
    const graph: CalcGroup
    var runnable: seq<Item>
    var current: seq<Item>

    ghost function View(): (w: Walker)
      reads this, graph
    {
      Walker(Elements(graph.allNodes), Elements(graph.edges), runnable, current)
    }

    ghost predicate Valid()
      reads this, graph
    {
      graph.Valid() && Frontier(View())
    }

    /** Walks a clone of the group; clones names the new item objects. */
    constructor (group: CalcGroup, clones: map<Item, Item>)
      requires group.Valid() && Acyclic(Elements(group.edges))
      requires Injective(clones) && forall v :: v in group.allNodes ==> v in clones
      ensures Valid() && fresh(graph)
      ensures Covers(clones, Elements(group.edges))
      ensures Begins(Elements(Renamed(group.allNodes, clones)), Image(Elements(group.edges), clones),
                     History(View(), [], {}, {}))
      ensures TargetsDiffer(group.edges) ==> TargetsDiffer(graph.edges)
      ensures runnable == Sources(Renamed(group.allNodes, clones), Elements(graph.edges))
    {
      var clone := group.Clone(clones);
      graph := clone;
      var freeNode := clone.FreeNode();
      runnable, current := freeNode, [];
      new;
      ghost var es := Elements(graph.edges);
      KeepMembers(graph.allNodes, v => Source(es, v));
      KeepDistinct(graph.allNodes, v => Source(es, v));
    }

    method StartOne() returns (item: Item)
      requires Valid() && |runnable| > 0
      modifies this
      ensures Valid() && Next(old(View()), Action.StartOne, View()) && item == old(runnable)[0]
    {
      ghost var w := View();
      item := runnable[0];
      runnable := runnable[1..];
      current := current + [item];
      FrontierKept(w, Action.StartOne, View());
    }

    method StartAll() returns (items: seq<Item>)
      requires Valid()
      modifies this
      ensures Valid() && Next(old(View()), Action.StartAll, View()) && items == old(runnable)
    {
      ghost var w := View();
      items := runnable;
      runnable := [];
      current := current + items;
      FrontierKept(w, Action.StartAll, View());
    }

    /** A failure is passed on for as long as the loop of NodeFailed is defined on what is left. */
    method Mark(item: Item, success: bool)
      requires Valid() && item in current
      requires success || RoundsKept(graph.edges, [item])
      modifies this, graph
      ensures Valid() && Next(old(View()), Action.Mark(item, success), View())
      ensures graph.edges == LeftBy(Elements(old(graph.allNodes)), old(graph.edges), item, success)
      ensures old(runnable) <= runnable
      ensures success ==> InEntryOrder(old(graph.edges), item, runnable[|old(runnable)|..])
      ensures !success ==> runnable == old(runnable)
    {
      ghost var w, nodes0, edges0 := View(), graph.allNodes, graph.edges;
      current := Keep(current, v => v != item);
      KeepMembers(graph.allNodes, v => v != item);
      KeepMembers(graph.edges, (e: Edge) => e.0 != item);
      if success {
        var freeNode := graph.NodeSuccess(item);
        runnable := runnable + freeNode;
        assert runnable[|old(runnable)|..] == freeNode;
        assert Elements(graph.edges) == NotFrom(Elements(edges0), item);
        assert Frees(w.edges, item, freeNode);
        assert Elements(graph.allNodes) == w.nodes - {item};
      } else {
        FailureExact(graph.allNodes, graph.edges, item);
        var defined := graph.NodeFailed(item);
        assert defined;
        ghost var dead := Downstream(w.edges, w.nodes, item);
        KeepMembers(nodes0, v => v !in dead);
        KeepMembers(edges0, (e: Edge) => e.0 !in dead && e.1 !in dead);
        assert Elements(graph.allNodes) == w.nodes - dead;
        assert Elements(graph.edges) == Among(w.edges, w.nodes - dead);
      }
      FrontierKept(w, Action.Mark(item, success), View());
    }

    method Finish() returns (done: bool)
      ensures done <==> Finished(View())
    {
      done := |current| + |runnable| == 0;
    }
  }
}
