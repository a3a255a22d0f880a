/** The dependency group of depend_calc/calc_group.cc: a list of items and a multimap of
    dependency edges, both changed in place. */
module CalcGroups {
  import opened EdgeMaps
  import opened Graphs
  import opened Sequences

  /** The items of vs that u reaches, u included. */
  ghost function Downstream(es: set<Edge>, vs: set<Item>, u: Item): (r: set<Item>) {
    set v | v in vs && Reaches(es, u, v)
  }

  /** The items without incoming edges, in their listed order. */
  function Sources(nodes: seq<Item>, es: set<Edge>): seq<Item> {
    Keep(nodes, v => Source(es, v))
  }

  /** They are exactly those, and none is listed before one that stands before it. */
  lemma SourcesInOrder(nodes: seq<Item>, es: set<Edge>)
    ensures forall v :: v in Sources(nodes, es) <==> v in nodes && Source(es, v)
    ensures forall i, j :: 0 <= i < j < |Sources(nodes, es)| ==>
              Before(nodes, Sources(nodes, es)[i], Sources(nodes, es)[j])
  {
    var p := (v: Item) => Source(es, v);
    assert Sources(nodes, es) == Keep(nodes, p);
    KeepMembers(nodes, p);
    forall i, j | 0 <= i < j < |Keep(nodes, p)| ensures Before(nodes, Keep(nodes, p)[i], Keep(nodes, p)[j]) {
      KeepInOrder(nodes, p, i, j);
    }
  }

  method HasIncoming(edges: seq<Edge>, dest: Item) returns (has: bool)
    ensures has <==> !Source(Elements(edges), dest)
  {
    has := false;
    for j := 0 to |edges|
      invariant forall k :: 0 <= k < j ==> edges[k].1 != dest
    {
      if edges[j].1 == dest {
        assert edges[j] in Elements(edges);
        return true;
      }
    }
  }

  /** The place of the last entry equal to e. */
  function LastOf(edges: seq<Edge>, e: Edge): (k: nat)
    requires e in edges
    ensures k < |edges| && edges[k] == e && forall l :: k < l < |edges| ==> edges[l] != e
  {
    if edges[|edges| - 1] == e then |edges| - 1 else LastOf(edges[..|edges| - 1], e)
  }

  /** freed stand in the order of their last entries under node. */
  ghost predicate InEntryOrder(edges: seq<Edge>, node: Item, freed: seq<Item>) {
    && (forall d :: d in freed ==> (node, d) in edges)
    && forall i, j :: 0 <= i < j < |freed| ==> LastOf(edges, (node, freed[i])) < LastOf(edges, (node, freed[j]))
  }

  lemma OneMoreInOrder(edges: seq<Edge>, node: Item, freed: seq<Item>, k: nat)
    requires InEntryOrder(edges, node, freed) && k < |edges| && edges[k].0 == node
    requires forall d :: d in freed ==> LastOf(edges, (node, d)) < k
    requires forall l :: k < l < |edges| ==> edges[l].1 != edges[k].1
    ensures InEntryOrder(edges, node, freed + [edges[k].1]) && LastOf(edges, (node, edges[k].1)) == k
  {
    assert edges[k] == (node, edges[k].1);
    var more := freed + [edges[k].1];
    forall i, j | 0 <= i < j < |more| ensures LastOf(edges, (node, more[i])) < LastOf(edges, (node, more[j])) {
      assert i < |freed| && freed[i] in freed;
    }
  }

  /** A target that no entry left points to is not met again. */
  lemma LastEntry(edges: seq<Edge>, rest: seq<Edge>, it: nat, at: nat, dest: Item)
    requires it <= |rest| && at < |edges| && rest[it..] == edges[at + 1..] && Source(Elements(rest), dest)
    ensures forall l :: at < l < |edges| ==> edges[l].1 != dest
  {
    forall l | at < l < |edges| ensures edges[l].1 != dest {
      assert edges[l] == edges[at + 1..][l - at - 1] == rest[it..][l - at - 1];
      assert edges[l] in Elements(rest);
    }
  }

  /** The walk stands at entry at of edges, which is entry it of what is left. */
  ghost predicate Peeling(edges: seq<Edge>, node: Item, rest: seq<Edge>, it: nat, at: nat, freed: seq<Item>) {
    && it <= |rest| && at <= |edges| && rest[it..] == edges[at..]
    && InEntryOrder(edges, node, freed) && forall d :: d in freed ==> LastOf(edges, (node, d)) < at
  }

  lemma PeelSkips(edges: seq<Edge>, node: Item, rest: seq<Edge>, it: nat, at: nat, freed: seq<Item>)
    requires Peeling(edges, node, rest, it, at, freed) && it < |rest|
    ensures Peeling(edges, node, rest, it + 1, at + 1, freed)
  {
    assert rest[it + 1..] == rest[it..][1..] && edges[at + 1..] == edges[at..][1..];
  }

  lemma PeelTakes(edges: seq<Edge>, node: Item, rest: seq<Edge>, it: nat, at: nat, freed: seq<Item>)
    requires Peeling(edges, node, rest, it, at, freed) && it < |rest| && rest[it].0 == node
    ensures Peeling(edges, node, Dropped(rest, it), it, at + 1, freed)
    ensures Source(Elements(Dropped(rest, it)), rest[it].1) ==>
              Peeling(edges, node, Dropped(rest, it), it, at + 1, freed + [rest[it].1])
  {
    var left := Dropped(rest, it);
    assert left[it..] == rest[it..][1..] && edges[at + 1..] == edges[at..][1..];
    assert rest[it] == rest[it..][0] == edges[at..][0] == edges[at];
    if Source(Elements(left), rest[it].1) {
      LastEntry(edges, left, it, at, rest[it].1);
      OneMoreInOrder(edges, node, freed, at);
    }
  }

  /** What the walk has erased and collected so far. */
  ghost predicate Peeled(edges: seq<Edge>, node: Item, rest: seq<Edge>, freed: seq<Item>) {
    && Keep(rest, (e: Edge) => e.0 != node) == Keep(edges, (e: Edge) => e.0 != node)
    && (forall e :: e in rest ==> e in edges)
    && (forall e :: e in edges && e.0 != node ==> e in rest)
    && Distinct(freed)
    && (forall d :: d in freed <==> (node, d) in edges && Source(Elements(rest), d))
  }

  lemma PeelOne(edges: seq<Edge>, node: Item, rest: seq<Edge>, it: nat, freed: seq<Item>)
    requires Peeled(edges, node, rest, freed) && it < |rest| && rest[it].0 == node
    ensures var left, dest := Dropped(rest, it), rest[it].1;
            Peeled(edges, node, left, if Source(Elements(left), dest) then freed + [dest] else freed)
  {
    var left, dest := Dropped(rest, it), rest[it].1;
    assert rest[it] in Elements(rest) && !Source(Elements(rest), dest);
    KeepErased(rest, it, (e: Edge) => e.0 != node);
    assert forall e :: e in rest <==> e in left || e == (node, dest);
  }

  /** Erases the entries of one key and collects the targets left without incoming edges. */
  method PeelOff(edges: seq<Edge>, node: Item) returns (rest: seq<Edge>, freed: seq<Item>)
    ensures rest == Keep(edges, (e: Edge) => e.0 != node)
    ensures Distinct(freed)
    ensures forall d :: d in freed <==> (node, d) in edges && Source(Elements(rest), d)
    ensures InEntryOrder(edges, node, freed)
  {
    rest, freed := edges, [];
    ghost var at := 0;
    var it := 0;
    while it < |rest|
      invariant it <= |rest|
      invariant forall j :: 0 <= j < it ==> rest[j].0 != node
      invariant Peeled(edges, node, rest, freed)
      invariant Peeling(edges, node, rest, it, at, freed)
      decreases |rest| - it
    {
      if rest[it].0 != node {
        PeelSkips(edges, node, rest, it, at, freed);
        it, at := it + 1, at + 1;
      } else {
        var dest := rest[it].1;
        PeelOne(edges, node, rest, it, freed);
        PeelTakes(edges, node, rest, it, at, freed);
        rest := Dropped(rest, it);
        var has := HasIncoming(rest, dest);
        if !has {
          freed := freed + [dest];
        }
        at := at + 1;
      }
    }
    KeepAll(rest, (e: Edge) => e.0 != node);
  }

  /** Erases every entry that starts or ends at item. */
  method EraseTouching(edges: seq<Edge>, item: Item) returns (rest: seq<Edge>)
    ensures rest == Keep(edges, (e: Edge) => e.0 != item && e.1 != item)
  {
    rest := edges;
    ghost var p := (e: Edge) => e.0 != item && e.1 != item;
    var it := 0;
    while it < |rest|
      invariant it <= |rest|
      invariant forall j :: 0 <= j < it ==> rest[j].0 != item && rest[j].1 != item
      invariant Keep(rest, p) == Keep(edges, p)
      decreases |rest| - it
    {
      if rest[it].0 == item || rest[it].1 == item {
        KeepErased(rest, it, p);
        rest := Dropped(rest, it);
      } else {
        it := it + 1;
      }
    }
    KeepAll(rest, p);
  }

  /** One round of the failure loop, as written: the walk over the range of cur holds its end and the
      next entry while it erases. When it would step from an erased entry or from end(), the rest of
      the program is undefined. */
  method Condemn(edges: seq<Edge>, cur: Item) returns (defined: bool, rest: seq<Edge>, queued: seq<Item>)
    ensures defined <==> Round(edges, cur).Done?
    ensures defined ==> queued == Round(edges, cur).queued && rest == Survivors(edges, Round(edges, cur).alive, 0)
  {
    var n, it, rangeEnd := |edges|, LowerBound(edges, cur), UpperBound(edges, cur);
    var alive: set<nat> := Places(n);
    rest, queued := edges, [];
    while it != rangeEnd
      invariant it <= n
      invariant WalkFrom(edges, alive, it, rangeEnd, queued) == Round(edges, cur)
      decreases n - it
    {
      if it !in alive || it == n {
        return false, rest, queued;
      }
      var dest, temp := edges[it].1, it;
      it := NextAlive(alive, it + 1, n);
      ghost var was := alive;
      alive := alive - {temp};
      queued := queued + [dest];
      for jt := 0 to n
        invariant forall j :: j in alive <==> j in was && j != temp && (j < jt ==> j < n && edges[j].1 != dest)
      {
        if jt in alive && edges[jt].1 == dest {
          alive := alive - {jt};
        }
      }
      alive := set j | j in alive && j < n;
      assert alive == Cleared(edges, was, dest);
    }
    defined, rest := true, Survivors(edges, alive, 0);
  }

  /** What the sorting loop keeps: the queue holds every source that still has outgoing edges,
      and dropping the edges so far has neither made nor broken a cycle. */
  ghost predicate Sorting(es: set<Edge>, edges: seq<Edge>, queue: seq<Item>) {
    var fs := Elements(edges);
    && Distinct(queue)
    && (forall v :: v in queue ==> Source(fs, v))
    && (forall e :: e in fs && Source(fs, e.0) ==> e.0 in queue)
    && (Acyclic(es) <==> Acyclic(fs))
  }

  lemma SortingGoesOn(es: set<Edge>, edges: seq<Edge>, queue: seq<Item>, rest: seq<Edge>, freed: seq<Item>)
    requires Sorting(es, edges, queue) && |queue| > 0
    requires rest == Keep(edges, (e: Edge) => e.0 != queue[0])
    requires Distinct(freed)
    requires forall d :: d in freed <==> (queue[0], d) in edges && Source(Elements(rest), d)
    ensures Sorting(es, rest, queue[1..] + freed)
    ensures |rest| <= |edges| && (freed != [] ==> |rest| < |edges|)
  {
    var node, fs, gs := queue[0], Elements(edges), Elements(rest);
    KeepMembers(edges, (e: Edge) => e.0 != node);
    KeepShrinks(edges, (e: Edge) => e.0 != node);
    assert gs == NotFrom(fs, node);
    CutSource(fs, node);
    NewSources(fs, node);
    forall d | d in freed ensures !Source(fs, d) {
      assert (node, d) in fs;
    }
    DistinctConcat(queue[1..], freed);
    if freed != [] {
      assert freed[0] in freed && (node, freed[0]) in edges;
    }
  }

  /** An item is a source after the edges of node are dropped just when it was one before
      or node alone pointed to it. */
  lemma NewSources(fs: set<Edge>, node: Item)
    ensures forall v :: Source(fs, v) ==> Source(NotFrom(fs, node), v)
    ensures forall v :: Source(NotFrom(fs, node), v) && !Source(fs, v) ==> (node, v) in fs
  {
    forall v | Source(NotFrom(fs, node), v) && !Source(fs, v) ensures (node, v) in fs {
      var into :| into in fs && into.1 == v;
      assert into !in NotFrom(fs, node);
    }
  }

  /** What the failure loop keeps: done are the deleted items, queue those waiting for deletion. */
  ghost predicate Failing(nodes0: seq<Item>, edges0: seq<Edge>, node: Item,
                          nodes: seq<Item>, edges: seq<Edge>, queue: seq<Item>, done: set<Item>)
  {
    var es, seen := Elements(edges0), done + Elements(queue);
    && Distinct(queue) && done !! Elements(queue)
    && node in seen && seen <= Elements(nodes0)
    && (forall v :: v in seen ==> Reaches(es, node, v))
    && (forall e :: e in es && e.0 in done ==> e.1 in seen)
    && nodes == Keep(nodes0, v => v !in done)
    && edges == Keep(edges0, (e: Edge) => e.1 !in seen)
  }

  lemma FailingStarts(nodes0: seq<Item>, edges0: seq<Edge>, node: Item)
    requires node in nodes0 && Source(Elements(edges0), node)
    ensures Failing(nodes0, edges0, node, nodes0, edges0, [node], {})
  {
    var none: set<Item>, seen := {}, {} + Elements([node]);
    ReachesSelf(Elements(edges0), node);
    KeepAll(nodes0, v => v !in none);
    assert forall e :: e in edges0 ==> e in Elements(edges0);
    KeepAll(edges0, (e: Edge) => e.1 !in seen);
  }

  lemma FailingFits(nodes0: seq<Item>, edges0: seq<Edge>, node: Item,
                    nodes: seq<Item>, edges: seq<Edge>, queue: seq<Item>, done: set<Item>)
    requires Distinct(nodes0) && Sorted(edges0)
    requires Failing(nodes0, edges0, node, nodes, edges, queue, done)
    ensures Distinct(nodes) && Sorted(edges)
    ensures forall v :: v in queue ==> v in nodes
    ensures forall e :: e in edges ==> e.1 !in queue
  {
    var seen := done + Elements(queue);
    KeepMembers(edges0, (e: Edge) => e.1 !in seen);
    KeepSorted(edges0, (e: Edge) => e.1 !in seen);
    KeepMembers(nodes0, v => v !in done);
    KeepDistinct(nodes0, v => v !in done);
    assert forall v :: v in queue ==> v in Elements(queue);
  }

  lemma FailingGoesOn(nodes0: seq<Item>, edges0: seq<Edge>, node: Item,
                      nodes: seq<Item>, edges: seq<Edge>, queue: seq<Item>, done: set<Item>,
                      rest: seq<Edge>, queued: seq<Item>)
    requires Distinct(nodes0) && Closed(Elements(edges0), Elements(nodes0))
    requires Failing(nodes0, edges0, node, nodes, edges, queue, done) && |queue| > 0
    requires Distinct(queued) && Elements(queued) == Elements(queue[1..]) + Targets(edges, queue[0])
    requires rest == Keep(edges, (e: Edge) => e.1 !in Targets(edges, queue[0]))
    ensures Failing(nodes0, edges0, node, Keep(nodes, v => v != queue[0]), rest, queued, done + {queue[0]})
  {
    var cur := queue[0];
    var es, seen := Elements(edges0), done + Elements(queue);
    var done', seen' := done + {cur}, done + {cur} + Elements(queued);
    var hit := Targets(edges, cur);
    KeepMembers(edges0, (e: Edge) => e.1 !in seen);
    assert Elements(queue) == {cur} + Elements(queue[1..]);
    assert seen' == seen + hit;
    forall v | v in hit ensures Reaches(es, node, v) && v in nodes0 && v !in seen {
      var e :| e in edges && e.0 == cur && e.1 == v;
      assert e in es && e == (cur, v);
      ReachesStep(es, node, cur, v);
    }
    forall e | e in es && e.0 in done' ensures e.1 in seen' {
      if e.0 == cur && e.1 !in seen {
        assert e in edges;
      }
    }
    KeepTwice(edges0, (e: Edge) => e.1 !in seen, (e: Edge) => e.1 !in hit, (e: Edge) => e.1 !in seen');
    KeepTwice(nodes0, v => v !in done, v => v != cur, v => v !in done');
  }

  /** When nothing waits any more, the deleted items are exactly those the failed item reaches. */
  lemma FailingEnds(nodes0: seq<Item>, edges0: seq<Edge>, node: Item,
                    nodes: seq<Item>, edges: seq<Edge>, done: set<Item>)
    requires Distinct(nodes0) && Sorted(edges0) && Closed(Elements(edges0), Elements(nodes0))
    requires Failing(nodes0, edges0, node, nodes, edges, [], done)
    ensures done == Downstream(Elements(edges0), Elements(nodes0), node)
    ensures edges == Keep(edges0, (e: Edge) => e.0 !in done && e.1 !in done)
    ensures Distinct(nodes) && Sorted(edges) && Closed(Elements(edges), Elements(nodes))
  {
    var es, seen := Elements(edges0), done + Elements([]);
    assert seen == done;
    forall v | v in nodes0 && Reaches(es, node, v) ensures v in done {
      var p :| IsPathFromTo(es, p, node, v);
      ReachesStaysIn(es, done, p);
    }
    assert forall e :: e in edges0 ==> e in es;
    KeepSame(edges0, (e: Edge) => e.1 !in seen, (e: Edge) => e.0 !in done && e.1 !in done);
    KeepMembers(edges0, (e: Edge) => e.1 !in seen);
    KeepSorted(edges0, (e: Edge) => e.1 !in seen);
    KeepMembers(nodes0, v => v !in done);
    KeepDistinct(nodes0, v => v !in done);
  }

  // ----- all rounds of a failure

  /** What NodeFailed leaves, or that its behaviour is undefined: it lost an iterator or deleted an
      item twice. */
  datatype Failure = Crashed | Cut(nodes: seq<Item>, edges: seq<Edge>)

  ghost function FailFrom(nodes: seq<Item>, edges: seq<Edge>, queue: seq<Item>): Failure
    requires Sorted(edges)
    decreases |edges|, |queue|
  {
    if queue == [] then Cut(nodes, edges)
    else
      var cur := queue[0];
      RoundExact(edges, cur);
      RestSmaller(edges, cur);
      match Round(edges, cur)
      case Undefined => Crashed
      case Done(alive, more) =>
        if cur !in nodes then Crashed
        else FailFrom(Keep(nodes, v => v != cur), Survivors(edges, alive, 0), queue[1..] + more)
  }

  lemma {:induction false} FailRounds(nodes0: seq<Item>, edges0: seq<Edge>, node: Item,
                                      nodes: seq<Item>, edges: seq<Edge>, queue: seq<Item>, done: set<Item>)
    requires Distinct(nodes0) && Sorted(edges0) && Closed(Elements(edges0), Elements(nodes0))
    requires Failing(nodes0, edges0, node, nodes, edges, queue, done) && Sorted(edges)
    ensures FailFrom(nodes, edges, queue) == if RoundsKept(edges, queue) then Remains(nodes0, edges0, node) else Crashed
    decreases |edges|, |queue|
  {
    if queue == [] {
      FailingEnds(nodes0, edges0, node, nodes, edges, done);
    } else {
      var cur := queue[0];
      var rest, queued := RoundRest(edges, cur), queue[1..] + TargetList(edges, cur);
      RoundExact(edges, cur);
      RestSmaller(edges, cur);
      if RoundKept(edges, cur) {
        RoundFails(nodes0, edges0, node, nodes, edges, queue, done);
        FailRounds(nodes0, edges0, node, Keep(nodes, v => v != cur), rest, queued, done + {cur});
      }
    }
  }

  lemma RoundFails(nodes0: seq<Item>, edges0: seq<Edge>, node: Item,
                   nodes: seq<Item>, edges: seq<Edge>, queue: seq<Item>, done: set<Item>)
    requires Distinct(nodes0) && Sorted(edges0) && Closed(Elements(edges0), Elements(nodes0))
    requires Failing(nodes0, edges0, node, nodes, edges, queue, done) && Sorted(edges) && |queue| > 0
    ensures queue[0] in nodes
    ensures Failing(nodes0, edges0, node, Keep(nodes, v => v != queue[0]), RoundRest(edges, queue[0]),
                    queue[1..] + TargetList(edges, queue[0]), done + {queue[0]})
  {
    var cur := queue[0];
    var more := TargetList(edges, cur);
    FailingFits(nodes0, edges0, node, nodes, edges, queue, done);
    RangeTargets(edges, cur);
    forall v | v in more ensures v !in queue {
      assert v in Targets(edges, cur);
    }
    DistinctConcat(queue[1..], more);
    assert Elements(queue[1..] + more) == Elements(queue[1..]) + Targets(edges, cur);
    FailingGoesOn(nodes0, edges0, node, nodes, edges, queue, done, RoundRest(edges, cur), queue[1..] + more);
  }

  /** The group without the items that node reaches and without the dependencies that touch them. */
  ghost function Remains(nodes: seq<Item>, edges: seq<Edge>, node: Item): Failure {
    var dead := Downstream(Elements(edges), Elements(nodes), node);
    Cut(Keep(nodes, v => v !in dead), Keep(edges, (e: Edge) => e.0 !in dead && e.1 !in dead))
  }

  /** A failed free item takes away exactly what it reaches, if every round of the loop is kept, and
      otherwise the behaviour is undefined. */
  lemma FailureExact(nodes: seq<Item>, edges: seq<Edge>, node: Item)
    requires Distinct(nodes) && Sorted(edges) && Closed(Elements(edges), Elements(nodes))
    requires node in nodes && Source(Elements(edges), node)
    ensures FailFrom(nodes, edges, [node]) == if RoundsKept(edges, [node]) then Remains(nodes, edges, node) else Crashed
  {
    FailingStarts(nodes, edges, node);
    FailRounds(nodes, edges, node, nodes, edges, [node], {});
  }

  lemma RemainsFits(nodes: seq<Item>, edges: seq<Edge>, node: Item)
    requires Distinct(nodes) && Sorted(edges) && Closed(Elements(edges), Elements(nodes))
    ensures var cut := Remains(nodes, edges, node);
            Distinct(cut.nodes) && Sorted(cut.edges) && Closed(Elements(cut.edges), Elements(cut.nodes))
  {
    var dead := Downstream(Elements(edges), Elements(nodes), node);
    KeepMembers(nodes, v => v !in dead);
    KeepDistinct(nodes, v => v !in dead);
    KeepMembers(edges, (e: Edge) => e.0 !in dead && e.1 !in dead);
    KeepSorted(edges, (e: Edge) => e.0 !in dead && e.1 !in dead);
    assert forall e :: e in edges ==> e in Elements(edges);
  }

  /** The entries that marking a free item leaves. */
  ghost function LeftBy(nodes: set<Item>, edges: seq<Edge>, item: Item, success: bool): seq<Edge> {
    if success then Keep(edges, (e: Edge) => e.0 != item)
    else
      var dead := Downstream(Elements(edges), nodes, item);
      Keep(edges, (e: Edge) => e.0 !in dead && e.1 !in dead)
  }

  /** Marking keeps a group in which no item waits for two entries. */
  lemma LeftByKeeps(nodes: set<Item>, edges: seq<Edge>, item: Item, success: bool)
    requires Sorted(edges) && TargetsDiffer(edges)
    ensures Sorted(LeftBy(nodes, edges, item, success)) && TargetsDiffer(LeftBy(nodes, edges, item, success))
  {
    var dead := Downstream(Elements(edges), nodes, item);
    if success {
      KeepSorted(edges, (e: Edge) => e.0 != item);
      KeptTargetsDiffer(edges, (e: Edge) => e.0 != item);
    } else {
      KeepSorted(edges, (e: Edge) => e.0 !in dead && e.1 !in dead);
      KeptTargetsDiffer(edges, (e: Edge) => e.0 !in dead && e.1 !in dead);
    }
  }

  /** Four dependencies without cycle or duplicate on which the loop goes wrong: a failed item 0, on
      which 2 and 3 depend, while 2 and 4 depend on 1. Erasing the dependencies of 2 erases the
      entry behind the range of 0. */
  lemma RangeEndErased()
    ensures var a, b, c, d, x := Item(0), Item(1), Item(2), Item(3), Item(4);
            var nodes, edges := [a, b, c, d, x], [(a, c), (a, d), (b, c), (b, x)];
            && Distinct(nodes) && Distinct(edges) && Sorted(edges)
            && Closed(Elements(edges), Elements(nodes)) && Acyclic(Elements(edges)) && Source(Elements(edges), a)
            && FailFrom(nodes, edges, [a]) == Crashed
  {
    var a, b, c, d, x := Item(0), Item(1), Item(2), Item(3), Item(4);
    var nodes, edges := [a, b, c, d, x], [(a, c), (a, d), (b, c), (b, x)];
    var es := Elements(edges);
    assert forall e :: e in edges <==> e == (a, c) || e == (a, d) || e == (b, c) || e == (b, x);
    assert NotFrom(NotFrom(es, a), b) == {};
    CutSource(es, a);
    CutSource(NotFrom(es, a), b);
    NoSourceMeansCycle({});
    CrashesAtOnce(edges, a, b, c);
  }

  /** The first round of a failure already loses its end. */
  lemma CrashesAtOnce(edges: seq<Edge>, a: Item, b: Item, c: Item)
    requires Sorted(edges) && Distinct(edges) && |edges| == 4 && a.address < b.address
    requires edges[0] == (a, c) && edges[1].0 == a && edges[2] == (b, c) && edges[3].0 == b
    ensures Round(edges, a).Undefined?
  {
    RangeIsKey(edges, a);
    RoundKeptWhenDistinct(edges, a);
    RoundExact(edges, a);
    assert edges[0].0 == edges[1].0 == a && edges[2].0 != a;
  }

  function Renamed(nodes: seq<Item>, clones: map<Item, Item>): (r: seq<Item>)
    requires forall v :: v in nodes ==> v in clones
  {
    seq(|nodes|, i requires 0 <= i < |nodes| => clones[nodes[i]])
  }

  function Redrawn(edges: seq<Edge>, clones: map<Item, Item>): (r: seq<Edge>)
    requires forall e :: e in edges ==> e.0 in clones && e.1 in clones
  {
    seq(|edges|, i requires 0 <= i < |edges| => (clones[edges[i].0], clones[edges[i].1]))
  }

  method RedrawAll(edges: seq<Edge>, itemMap: map<Item, Item>) returns (copied: seq<Edge>)
    requires forall e :: e in edges ==> e.0 in itemMap && e.1 in itemMap
    ensures Sorted(copied) && multiset(copied) == multiset(Redrawn(edges, itemMap))
  {
    copied := [];
    ghost var redrawn := Redrawn(edges, itemMap);
    for j := 0 to |edges|
      invariant Sorted(copied) && multiset(copied) == multiset(redrawn[..j])
    {
      var edge := (itemMap[edges[j].0], itemMap[edges[j].1]);
      InsertedFits(copied, edge);
      copied := Inserted(copied, edge);
      assert redrawn[..j + 1] == redrawn[..j] + [edge];
    }
    assert redrawn[..|edges|] == redrawn;
  }

  lemma CloneFits(nodes: seq<Item>, edges: seq<Edge>, clones: map<Item, Item>, copied: seq<Edge>)
    requires Distinct(nodes) && Closed(Elements(edges), Elements(nodes)) && Injective(clones)
    requires forall v :: v in nodes ==> v in clones
    requires forall e :: e in edges ==> e.0 in clones && e.1 in clones
    requires multiset(copied) == multiset(Redrawn(edges, clones))
    ensures Distinct(Renamed(nodes, clones)) && Closed(Elements(copied), Elements(Renamed(nodes, clones)))
    ensures Covers(clones, Elements(edges)) && Elements(copied) == Image(Elements(edges), clones)
  {
    var news, redrawn := Renamed(nodes, clones), Redrawn(edges, clones);
    forall e | e in Elements(edges) ensures (clones[e.0], clones[e.1]) in Elements(copied) {
      var k :| 0 <= k < |edges| && edges[k] == e;
      assert redrawn[k] in multiset(copied);
    }
    forall f | f in Elements(copied) ensures f in Image(Elements(edges), clones) && f.0 in news && f.1 in news {
      assert f in multiset(copied);
      var k :| 0 <= k < |redrawn| && redrawn[k] == f;
      assert edges[k] in Elements(edges);
      RenamedHas(nodes, clones, edges[k].0);
      RenamedHas(nodes, clones, edges[k].1);
    }
  }

  lemma RedrawnTargetsDiffer(edges: seq<Edge>, clones: map<Item, Item>, copied: seq<Edge>)
    requires TargetsDiffer(edges) && Injective(clones)
    requires forall e :: e in edges ==> e.0 in clones && e.1 in clones
    requires multiset(copied) == multiset(Redrawn(edges, clones))
    ensures TargetsDiffer(copied)
  {
    ReorderedTargetsDiffer(Redrawn(edges, clones), copied);
  }

  lemma RenamedHas(nodes: seq<Item>, clones: map<Item, Item>, v: Item)
    requires v in nodes && forall u :: u in nodes ==> u in clones
    ensures clones[v] in Renamed(nodes, clones)
  {
    var k :| 0 <= k < |nodes| && nodes[k] == v;
    assert Renamed(nodes, clones)[k] == clones[v];
  }

  class CalcGroup {
    var allNodes: seq<Item>
    var edges: seq<Edge>

    ghost predicate Valid()
      reads this
    {
      Distinct(allNodes) && Sorted(edges) && Closed(Elements(edges), Elements(allNodes))
    }

    constructor ()
      ensures Valid() && allNodes == [] && edges == []
    {
      allNodes, edges := [], [];
    }

    method AddCalcItem(item: Item)
      requires Valid() && item !in allNodes
      modifies this
      ensures Valid() && allNodes == old(allNodes) + [item] && edges == old(edges)
    {
      allNodes := allNodes + [item];
    }

    method SetDepend(er: Item, ee: Item)
      requires Valid() && er in allNodes && ee in allNodes
      modifies this
      ensures Valid() && allNodes == old(allNodes) && edges == Inserted(old(edges), (er, ee))
    {
      InsertedFits(edges, (er, ee));
      InsertedElements(edges, (er, ee));
      edges := Inserted(edges, (er, ee));
    }

    method RemoveCalcItem(item: Item)
      requires Valid() && item in allNodes
      modifies this
      ensures Valid()
      ensures allNodes == Keep(old(allNodes), v => v != item)
      ensures edges == Keep(old(edges), (e: Edge) => e.0 != item && e.1 != item)
    {
      edges := EraseTouching(edges, item);
      KeepMembers(old(edges), (e: Edge) => e.0 != item && e.1 != item);
      KeepSorted(old(edges), (e: Edge) => e.0 != item && e.1 != item);
      DeleteIsolateNode(item);
    }

    /** clones gives each item's new object; the dependencies are redrawn between the new objects. */
    method Clone(clones: map<Item, Item>) returns (group: CalcGroup)
      requires Valid() && Injective(clones) && forall v :: v in allNodes ==> v in clones
      ensures fresh(group) && group.Valid()
      ensures group.allNodes == Renamed(allNodes, clones)
      ensures Covers(clones, Elements(edges)) && Elements(group.edges) == Image(Elements(edges), clones)
      ensures multiset(group.edges) == multiset(Redrawn(edges, clones))
      ensures TargetsDiffer(edges) ==> TargetsDiffer(group.edges)
      ensures |group.allNodes| == |allNodes| && |group.edges| == |edges|
      ensures forall i :: 0 <= i < |allNodes| ==> group.allNodes[i] == clones[allNodes[i]]
    {
      group := new CalcGroup();
      var itemMap: map<Item, Item> := map[];
      for i := 0 to |allNodes|
        invariant group.allNodes == Renamed(allNodes[..i], clones)
        invariant group.edges == []
        invariant forall v :: v in itemMap <==> v in allNodes[..i]
        invariant forall v :: v in itemMap ==> itemMap[v] == clones[v]
      {
        var cloneItem := clones[allNodes[i]];
        group.allNodes := group.allNodes + [cloneItem];
        itemMap := itemMap[allNodes[i] := cloneItem];
      }
      assert allNodes[..|allNodes|] == allNodes;
      assert forall e :: e in edges ==> e in Elements(edges);
      group.edges := RedrawAll(edges, itemMap);
      assert Redrawn(edges, itemMap) == Redrawn(edges, clones);
      CloneFits(allNodes, edges, clones, group.edges);
      assert |multiset(group.edges)| == |multiset(Redrawn(edges, clones))|;
      if TargetsDiffer(edges) {
        RedrawnTargetsDiffer(edges, clones, group.edges);
      }
    }

    method FreeNode() returns (queue: seq<Item>)
      ensures queue == Sources(allNodes, Elements(edges))
    {
      queue := allNodes;
      ghost var none := Elements(edges[..0]);
      KeepAll(allNodes, v => Source(none, v));
      for it := 0 to |edges|
        invariant queue == Sources(allNodes, Elements(edges[..it]))
      {
        var dest := edges[it].1;
        ghost var es, fs := Elements(edges[..it]), Elements(edges[..it + 1]);
        assert fs == es + {edges[it]};
        assert forall v :: Source(fs, v) <==> Source(es, v) && v != dest;
        KeepTwice(allNodes, v => Source(es, v), v => v != dest, v => Source(fs, v));
        queue := Keep(queue, v => v != dest);
      }
      assert edges[..|edges|] == edges;
    }

    /** Kahn's algorithm on a copy of the edges. */
    method NoCycle() returns (ok: bool)
      requires Valid()
      ensures ok <==> Acyclic(Elements(edges))
    {
      var queue := FreeNode();
      var edges := this.edges;
      ghost var es := Elements(edges);
      KeepMembers(allNodes, v => Source(es, v));
      KeepDistinct(allNodes, v => Source(es, v));
      while |queue| > 0
        invariant Sorting(es, edges, queue)
        decreases |edges|, |queue|
      {
        var node := queue[0];
        var rest, freed := PeelOff(edges, node);
        SortingGoesOn(es, edges, queue, rest, freed);
        edges, queue := rest, queue[1..] + freed;
      }
      NoSourceMeansCycle(Elements(edges));
      assert edges != [] ==> edges[0] in Elements(edges);
      ok := edges == [];
    }

    /** Marks a free item as done; returns the items that only waited for it. */
    method NodeSuccess(node: Item) returns (output: seq<Item>)
      requires Valid() && node in allNodes && Source(Elements(edges), node)
      modifies this
      ensures Valid()
      ensures allNodes == Keep(old(allNodes), v => v != node)
      ensures edges == Keep(old(edges), (e: Edge) => e.0 != node)
      ensures Distinct(output)
      ensures forall d :: d in output <==> (node, d) in old(edges) && Source(Elements(edges), d)
      ensures InEntryOrder(old(edges), node, output)
    {
      KeepMembers(edges, (e: Edge) => e.0 != node);
      KeepSorted(edges, (e: Edge) => e.0 != node);
      edges, output := PeelOff(edges, node);
      DeleteIsolateNode(node);
    }

    /** Removes a free item together with everything that depends on it; defined tells whether the
        loop as written has a defined result. */
    method NodeFailed(node: Item) returns (defined: bool)
      requires Valid() && node in allNodes
      modifies this
      ensures defined <==> FailFrom(old(allNodes), old(edges), [node]).Cut?
      ensures defined ==> Cut(allNodes, edges) == FailFrom(old(allNodes), old(edges), [node])
      ensures old(Source(Elements(edges), node)) && defined ==>
                Valid() && Cut(allNodes, edges) == Remains(old(allNodes), old(edges), node)
    {
      if Source(Elements(edges), node) {
        FailureExact(allNodes, edges, node);
        RemainsFits(allNodes, edges, node);
      }
      var queue := [node];
      while |queue| > 0
        invariant Distinct(allNodes) && Sorted(edges)
        invariant FailFrom(allNodes, edges, queue) == FailFrom(old(allNodes), old(edges), [node])
        decreases |edges|, |queue|
      {
        var cur := queue[0];
        RoundExact(edges, cur);
        RestSmaller(edges, cur);
        var kept, rest, more := Condemn(edges, cur);
        if !kept || cur !in allNodes {
          return false;
        }
        edges, queue := rest, queue[1..] + more;
        DeleteIsolateNode(cur);
      }
      defined := true;
    }

    method DeleteIsolateNode(node: Item)
      requires Distinct(allNodes) && node in allNodes
      modifies this`allNodes
      ensures allNodes == Keep(old(allNodes), v => v != node)
      ensures Distinct(allNodes)
      ensures forall v :: v in allNodes <==> v in old(allNodes) && v != node
    {
      KeepMembers(allNodes, v => v != node);
      KeepDistinct(allNodes, v => v != node);
      allNodes := Keep(allNodes, v => v != node);
    }
  }
}
