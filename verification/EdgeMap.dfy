/** The EdgeMap of depend_calc/calc_group.h, a std::multimap from item to item, and the loop over one
    key's range in CalcGroup::NodeFailed, which erases entries while it holds two iterators. */
module EdgeMaps {
  import opened Graphs
  import opened Sequences

  /** Entries stand in the order of their keys, and entries of one key in insertion order. */
  predicate Sorted(edges: seq<Edge>) {
    forall i, j :: 0 <= i < j < |edges| ==> edges[i].0.address <= edges[j].0.address
  }

  /** The first entry of a key that is not smaller; past the end if there is none. */
  function LowerBound(edges: seq<Edge>, key: Item): (i: nat)
    ensures i <= |edges|
    ensures forall j :: 0 <= j < i ==> edges[j].0.address < key.address
    ensures i < |edges| ==> edges[i].0.address >= key.address
  {
    if edges == [] || edges[0].0.address >= key.address then 0 else 1 + LowerBound(edges[1..], key)
  }

  /** The first entry of a greater key; past the end if there is none. */
  function UpperBound(edges: seq<Edge>, key: Item): (i: nat)
    ensures i <= |edges|
    ensures forall j :: 0 <= j < i ==> edges[j].0.address <= key.address
    ensures i < |edges| ==> edges[i].0.address > key.address
  {
    if edges == [] || edges[0].0.address > key.address then 0 else 1 + UpperBound(edges[1..], key)
  }

  /** insert puts a new entry behind the others of its key. */
  function Inserted(edges: seq<Edge>, e: Edge): seq<Edge> {
    var i := UpperBound(edges, e.0);
    edges[..i] + [e] + edges[i..]
  }

  lemma InsertedSorted(edges: seq<Edge>, e: Edge)
    requires Sorted(edges)
    ensures Sorted(Inserted(edges, e))
  {
    var i, more := UpperBound(edges, e.0), Inserted(edges, e);
    forall j | 0 <= j < |more| ensures more[j] == if j < i then edges[j] else if j == i then e else edges[j - 1] {
    }
  }

  lemma InsertedFits(edges: seq<Edge>, e: Edge)
    requires Sorted(edges)
    ensures Sorted(Inserted(edges, e))
    ensures multiset(Inserted(edges, e)) == multiset(edges) + multiset{e}
  {
    InsertedSorted(edges, e);
    var a, b := edges[..UpperBound(edges, e.0)], edges[UpperBound(edges, e.0)..];
    assert edges == a + b;
    assert multiset(edges) == multiset(a) + multiset(b);
  }

  /** A new entry stands behind the others of its key, and no other entry changes its place among those of
      its own key. */
  lemma InsertedBehind(edges: seq<Edge>, e: Edge, key: Item)
    requires Sorted(edges)
    ensures Keep(Inserted(edges, e), (f: Edge) => f.0 == key)
            == Keep(edges, (f: Edge) => f.0 == key) + if key == e.0 then [e] else []
  {
    var i, p := UpperBound(edges, e.0), (f: Edge) => f.0 == key;
    assert edges == edges[..i] + edges[i..];
    KeepAppend(edges[..i], edges[i..], p);
    KeepAppend(edges[..i] + [e], edges[i..], p);
    KeepAppend(edges[..i], [e], p);
    assert Keep([e], p) == if key == e.0 then [e] else [];
    if key == e.0 {
      forall f | f in edges[i..] ensures !p(f) {
        var k :| i <= k < |edges| && edges[k] == f;
      }
      KeepNone(edges[i..], p);
    }
  }

  lemma InsertedElements(edges: seq<Edge>, e: Edge)
    ensures Elements(Inserted(edges, e)) == Elements(edges) + {e}
  {
    var i, more := UpperBound(edges, e.0), Inserted(edges, e);
    forall f | f in edges ensures f in more {
      var k :| 0 <= k < |edges| && edges[k] == f;
      assert more[if k < i then k else k + 1] == f;
    }
    assert more[i] == e;
  }

  lemma {:induction false} KeepSorted(edges: seq<Edge>, p: Edge -> bool)
    requires Sorted(edges)
    ensures Sorted(Keep(edges, p))
  {
    if edges == [] {
    } else {
      KeepSorted(edges[1..], p);
      KeepMembers(edges[1..], p);
      var rest := Keep(edges[1..], p);
      forall j | 0 <= j < |rest| ensures edges[0].0.address <= rest[j].0.address {
        assert rest[j] in edges[1..];
      }
    }
  }

  /** equal_range is exactly the entries of the key. */
  lemma RangeIsKey(edges: seq<Edge>, key: Item)
    requires Sorted(edges)
    ensures LowerBound(edges, key) <= UpperBound(edges, key)
    ensures forall k :: 0 <= k < |edges| ==>
              (edges[k].0 == key <==> LowerBound(edges, key) <= k < UpperBound(edges, key))
  {
    var s, t := LowerBound(edges, key), UpperBound(edges, key);
    assert t < |edges| ==> edges[t].0.address > key.address;
  }

  // ----- the walk as written

  /** An iterator is the place of its entry when the walk began; |edges| is end(). alive holds the
      places of the entries that have not been erased. */
  datatype Walk = Undefined | Done(alive: set<nat>, queued: seq<Item>)

  function Places(n: nat): (all: set<nat>)
    ensures forall j: nat :: j in all <==> j < n
  {
    if n == 0 then {} else Places(n - 1) + {n - 1}
  }

  /** Incrementing an iterator. */
  function NextAlive(alive: set<nat>, i: nat, n: nat): (j: nat)
    requires i <= n
    ensures i <= j <= n && (j < n ==> j in alive)
    ensures forall k :: i <= k < j ==> k !in alive
    decreases n - i
  {
    if i == n || i in alive then i else NextAlive(alive, i + 1, n)
  }

  /** The inner loop: every entry that points to dest is erased. */
  function Cleared(edges: seq<Edge>, alive: set<nat>, dest: Item): set<nat> {
    set j | j in alive && j < |edges| && edges[j].1 != dest
  }

  /** The loop from it to the range end. Iterators are compared by their entries, erased or not; to
      step from an erased entry or from end() is undefined. */
  function WalkFrom(edges: seq<Edge>, alive: set<nat>, it: nat, end: nat, queue: seq<Item>): (w: Walk)
    requires it <= |edges|
    decreases |edges| - it
  {
    if it == end then Done(alive, queue)
    else if it == |edges| || it !in alive then Undefined
    else
      WalkFrom(edges, Cleared(edges, alive, edges[it].1), NextAlive(alive, it + 1, |edges|), end,
               queue + [edges[it].1])
  }

  /** One round of NodeFailed: the walk over the range of cur. */
  function Round(edges: seq<Edge>, cur: Item): Walk {
    WalkFrom(edges, Places(|edges|), LowerBound(edges, cur), UpperBound(edges, cur), [])
  }

  /** The entries left, in order. */
  function Survivors(edges: seq<Edge>, alive: set<nat>, i: nat): (rest: seq<Edge>)
    requires i <= |edges|
    ensures |rest| <= |edges| - i
    decreases |edges| - i
  {
    if i == |edges| then []
    else (if i in alive then [edges[i]] else []) + Survivors(edges, alive, i + 1)
  }

  // ----- what the walk comes to

  /** The targets of the entries from s up to p. */
  function TargetsOf(edges: seq<Edge>, s: nat, p: nat): set<Item>
    requires p <= |edges|
  {
    set k | s <= k < p :: edges[k].1
  }

  /** What is alive when the walk that began at s has come to p. */
  function AliveAt(edges: seq<Edge>, s: nat, p: nat): set<nat>
    requires p <= |edges|
  {
    set j: nat | j < |edges| && edges[j].1 !in TargetsOf(edges, s, p)
  }

  /** Each target once, in the order of first mention. */
  function NewTargets(edges: seq<Edge>, s: nat, p: nat, t: nat): seq<Item>
    requires p <= t <= |edges|
    decreases t - p
  {
    if p == t then []
    else (if edges[p].1 in TargetsOf(edges, s, p) then [] else [edges[p].1]) + NewTargets(edges, s, p + 1, t)
  }

  /** The entry at p is the first of its target in the range, so the walk stops there. */
  predicate Visited(edges: seq<Edge>, s: nat, p: nat)
    requires p < |edges|
  {
    edges[p].1 !in TargetsOf(edges, s, p)
  }

  /** Stepping on from p leads to the range end, or to an entry of the range that clearing p's target
      does not erase. It fails when the range end was erased before, or when the next entry left has
      the same target. */
  predicate StepsOn(edges: seq<Edge>, s: nat, p: nat, t: nat)
    requires p < t <= |edges|
  {
    var q := NextAlive(AliveAt(edges, s, p), p + 1, |edges|);
    q == t || (q < t && edges[q].1 != edges[p].1)
  }

  predicate StepsOnFrom(edges: seq<Edge>, s: nat, p: nat, t: nat)
    requires p <= t <= |edges|
  {
    forall k :: p <= k < t && Visited(edges, s, k) ==> StepsOn(edges, s, k, t)
  }

  /** An iterator that is past the range end never meets it. */
  lemma {:induction false} PastTheEnd(edges: seq<Edge>, alive: set<nat>, it: nat, end: nat, queue: seq<Item>)
    requires end < it <= |edges|
    ensures WalkFrom(edges, alive, it, end, queue).Undefined?
    decreases |edges| - it
  {
    if it == |edges| || it !in alive {
    } else {
      var next := NextAlive(alive, it + 1, |edges|);
      PastTheEnd(edges, Cleared(edges, alive, edges[it].1), next, end, queue + [edges[it].1]);
    }
  }

  lemma OneMoreTarget(edges: seq<Edge>, s: nat, p: nat)
    requires s <= p < |edges|
    ensures TargetsOf(edges, s, p + 1) == TargetsOf(edges, s, p) + {edges[p].1}
  {
  }

  lemma {:induction false} TargetsGrow(edges: seq<Edge>, s: nat, p: nat, q: nat)
    requires s <= p < q <= |edges|
    requires forall k :: p < k < q ==> edges[k].1 in TargetsOf(edges, s, p)
    ensures TargetsOf(edges, s, q) == TargetsOf(edges, s, p) + {edges[p].1}
    ensures forall k :: p < k < q ==> !Visited(edges, s, k)
  {
    if q == p + 1 {
      OneMoreTarget(edges, s, p);
    } else {
      TargetsGrow(edges, s, p, q - 1);
      OneMoreTarget(edges, s, q - 1);
    }
  }

  lemma {:induction false} NoneNew(edges: seq<Edge>, s: nat, p: nat, q: nat, t: nat)
    requires p <= q <= t <= |edges| && forall k :: p <= k < q ==> !Visited(edges, s, k)
    ensures NewTargets(edges, s, p, t) == NewTargets(edges, s, q, t)
    decreases q - p
  {
    if p == q {
    } else {
      assert !Visited(edges, s, p);
      NoneNew(edges, s, p + 1, q, t);
    }
  }

  /** The entries skipped were erased together with an earlier target. */
  lemma SkippedTargets(edges: seq<Edge>, s: nat, p: nat, q: nat)
    requires p < q <= |edges| && q == NextAlive(AliveAt(edges, s, p), p + 1, |edges|)
    ensures forall k :: p < k < q ==> edges[k].1 in TargetsOf(edges, s, p)
  {
    forall k | p < k < q ensures edges[k].1 in TargetsOf(edges, s, p) {
      assert k !in AliveAt(edges, s, p);
    }
  }

  lemma StepLost(edges: seq<Edge>, s: nat, p: nat, t: nat, queue: seq<Item>)
    requires s <= p < t <= |edges| && Visited(edges, s, p) && !StepsOn(edges, s, p, t)
    ensures WalkFrom(edges, AliveAt(edges, s, p), p, t, queue).Undefined?
  {
    var dest, alive := edges[p].1, AliveAt(edges, s, p);
    var q := NextAlive(alive, p + 1, |edges|);
    var cleared := Cleared(edges, alive, dest);
    if q > t {
      PastTheEnd(edges, cleared, q, t, queue + [dest]);
    } else {
      assert q !in cleared;
    }
  }

  /** From a visited entry on, the walk ends well exactly when every further step does. */
  lemma {:induction false} WalkExact(edges: seq<Edge>, s: nat, p: nat, t: nat, queue: seq<Item>)
    requires s <= p < t <= |edges| && Visited(edges, s, p)
    ensures WalkFrom(edges, AliveAt(edges, s, p), p, t, queue)
            == if StepsOnFrom(edges, s, p, t)
               then Done(AliveAt(edges, s, t), queue + NewTargets(edges, s, p, t)) else Undefined
    decreases t - p
  {
    if !StepsOn(edges, s, p, t) {
      StepLost(edges, s, p, t, queue);
    } else {
      var q, more := StepDone(edges, s, p, t, queue);
      if q < t {
        WalkExact(edges, s, q, t, more);
      }
    }
  }

  lemma NewFirst(edges: seq<Edge>, s: nat, p: nat, q: nat, t: nat, queue: seq<Item>)
    requires s <= p < q <= t <= |edges| && Visited(edges, s, p)
    requires forall k :: p < k < q ==> !Visited(edges, s, k)
    ensures queue + NewTargets(edges, s, p, t) == queue + [edges[p].1] + NewTargets(edges, s, q, t)
  {
    NoneNew(edges, s, p + 1, q, t);
    assert NewTargets(edges, s, p, t) == [edges[p].1] + NewTargets(edges, s, q, t);
  }

  lemma ClearedThen(edges: seq<Edge>, s: nat, p: nat, q: nat)
    requires s <= p < q <= |edges| && TargetsOf(edges, s, q) == TargetsOf(edges, s, p) + {edges[p].1}
    ensures Cleared(edges, AliveAt(edges, s, p), edges[p].1) == AliveAt(edges, s, q)
  {
  }

  lemma StepDone(edges: seq<Edge>, s: nat, p: nat, t: nat, queue: seq<Item>) returns (q: nat, more: seq<Item>)
    requires s <= p < t <= |edges| && Visited(edges, s, p) && StepsOn(edges, s, p, t)
    ensures p < q <= t && (q < t ==> Visited(edges, s, q))
    ensures WalkFrom(edges, AliveAt(edges, s, p), p, t, queue) == WalkFrom(edges, AliveAt(edges, s, q), q, t, more)
    ensures StepsOnFrom(edges, s, p, t) <==> StepsOnFrom(edges, s, q, t)
    ensures queue + NewTargets(edges, s, p, t) == more + NewTargets(edges, s, q, t)
  {
    var dest, alive := edges[p].1, AliveAt(edges, s, p);
    q, more := NextAlive(alive, p + 1, |edges|), queue + [dest];
    SkippedTargets(edges, s, p, q);
    TargetsGrow(edges, s, p, q);
    ClearedThen(edges, s, p, q);
    StepSplits(edges, s, p, q, t);
    NewFirst(edges, s, p, q, t, queue);
    if q < t {
      assert q in alive;
    }
  }

  lemma StepSplits(edges: seq<Edge>, s: nat, p: nat, q: nat, t: nat)
    requires p < q <= t <= |edges| && StepsOn(edges, s, p, t)
    requires forall k :: p < k < q ==> !Visited(edges, s, k)
    ensures StepsOnFrom(edges, s, p, t) <==> StepsOnFrom(edges, s, q, t)
  {
  }

  lemma {:induction false} SurvivorsAreKept(edges: seq<Edge>, s: nat, p: nat, i: nat)
    requires p <= |edges| && i <= |edges|
    ensures var gone := TargetsOf(edges, s, p);
            Survivors(edges, AliveAt(edges, s, p), i) == Keep(edges[i..], (e: Edge) => e.1 !in gone)
    decreases |edges| - i
  {
    if i == |edges| {
    } else {
      SurvivorsAreKept(edges, s, p, i + 1);
      assert edges[i..][1..] == edges[i + 1..];
    }
  }

  lemma {:induction false} NewTargetsMeans(edges: seq<Edge>, s: nat, p: nat, t: nat)
    requires s <= p <= t <= |edges|
    ensures var more := NewTargets(edges, s, p, t);
            && Distinct(more)
            && forall v :: v in more <==> v in TargetsOf(edges, s, t) && v !in TargetsOf(edges, s, p)
    decreases t - p
  {
    if p == t {
    } else {
      NewTargetsMeans(edges, s, p + 1, t);
      assert TargetsOf(edges, s, p + 1) == TargetsOf(edges, s, p) + {edges[p].1};
      assert edges[p].1 in TargetsOf(edges, s, t);
      var later := NewTargets(edges, s, p + 1, t);
      if Visited(edges, s, p) {
        DistinctConcat([edges[p].1], later);
      }
    }
  }

  // ----- one round

  /** The targets of the entries of key u. */
  ghost function Targets(edges: seq<Edge>, u: Item): set<Item> {
    set e | e in edges && e.0 == u :: e.1
  }

  /** The same in the order in which NodeFailed queues them. */
  function TargetList(edges: seq<Edge>, u: Item): seq<Item>
    requires Sorted(edges)
  {
    RangeIsKey(edges, u);
    NewTargets(edges, LowerBound(edges, u), LowerBound(edges, u), UpperBound(edges, u))
  }

  /** The round never steps from an erased entry or past its range end. */
  predicate RoundKept(edges: seq<Edge>, u: Item)
    requires Sorted(edges)
  {
    RangeIsKey(edges, u);
    StepsOnFrom(edges, LowerBound(edges, u), LowerBound(edges, u), UpperBound(edges, u))
  }

  /** What one round leaves when nothing goes wrong. */
  ghost function RoundRest(edges: seq<Edge>, u: Item): seq<Edge> {
    var gone := Targets(edges, u);
    Keep(edges, (e: Edge) => e.1 !in gone)
  }

  lemma RangeTargets(edges: seq<Edge>, u: Item)
    requires Sorted(edges)
    ensures TargetsOf(edges, LowerBound(edges, u), UpperBound(edges, u)) == Targets(edges, u)
    ensures Distinct(TargetList(edges, u)) && Elements(TargetList(edges, u)) == Targets(edges, u)
  {
    RangeIsKey(edges, u);
    var s, t := LowerBound(edges, u), UpperBound(edges, u);
    forall v | v in Targets(edges, u) ensures v in TargetsOf(edges, s, t) {
      var e :| e in edges && e.0 == u && e.1 == v;
      var k :| 0 <= k < |edges| && edges[k] == e;
    }
    NewTargetsMeans(edges, s, s, t);
    assert TargetsOf(edges, s, s) == {};
  }

  /** The loop as written does the round exactly when it never loses an iterator; otherwise its
      behaviour is undefined. */
  lemma RoundExact(edges: seq<Edge>, u: Item)
    requires Sorted(edges)
    ensures Round(edges, u).Done? <==> RoundKept(edges, u)
    ensures Round(edges, u).Done? ==>
              && Round(edges, u).queued == TargetList(edges, u)
              && Survivors(edges, Round(edges, u).alive, 0) == RoundRest(edges, u)
  {
    RangeIsKey(edges, u);
    RangeTargets(edges, u);
    var s, t := LowerBound(edges, u), UpperBound(edges, u);
    assert TargetsOf(edges, s, s) == {};
    assert AliveAt(edges, s, s) == Places(|edges|);
    if s < t {
      WalkExact(edges, s, s, t, []);
      assert [] + NewTargets(edges, s, s, t) == TargetList(edges, u);
    }
    SurvivorsAreKept(edges, s, t, 0);
    assert edges[0..] == edges;
  }

  /** Without duplicate entries the only danger is the entry behind the range: the round is kept
      exactly when no entry of the key but the last points to where that entry points. */
  lemma RoundKeptWhenDistinct(edges: seq<Edge>, u: Item)
    requires Sorted(edges) && Distinct(edges)
    ensures var s, t := LowerBound(edges, u), UpperBound(edges, u);
            RoundKept(edges, u) <==>
              t == |edges| || forall k :: s <= k < t - 1 ==> edges[k].1 != edges[t].1
  {
    RangeIsKey(edges, u);
    var s, t := LowerBound(edges, u), UpperBound(edges, u);
    forall p | s <= p < t
      ensures Visited(edges, s, p) && (p < t - 1 ==> StepsOn(edges, s, p, t))
    {
      OwnTarget(edges, u, s, p);
      if p < t - 1 {
        OwnTarget(edges, u, s, p + 1);
        MiddleStepsOn(edges, s, p, t);
      }
    }
    if s < t {
      LastStepsOn(edges, s, t);
      assert RoundKept(edges, u) <==> StepsOn(edges, s, t - 1, t);
    }
  }

  lemma MiddleStepsOn(edges: seq<Edge>, s: nat, p: nat, t: nat)
    requires s <= p < t - 1 < |edges| && Visited(edges, s, p + 1)
    ensures StepsOn(edges, s, p, t)
  {
    assert edges[p].1 in TargetsOf(edges, s, p + 1);
    assert p + 1 in AliveAt(edges, s, p);
  }

  lemma LastStepsOn(edges: seq<Edge>, s: nat, t: nat)
    requires s < t <= |edges|
    ensures StepsOn(edges, s, t - 1, t) <==>
              t == |edges| || forall k :: s <= k < t - 1 ==> edges[k].1 != edges[t].1
  {
    assert t < |edges| ==> (t in AliveAt(edges, s, t - 1) <==> edges[t].1 !in TargetsOf(edges, s, t - 1));
  }

  lemma OwnTarget(edges: seq<Edge>, u: Item, s: nat, p: nat)
    requires Distinct(edges) && s <= p < |edges| && forall k :: s <= k <= p ==> edges[k].0 == u
    ensures Visited(edges, s, p)
  {
    forall k | s <= k < p ensures edges[k].1 != edges[p].1 {
      assert edges[k] != edges[p];
    }
  }

  // ----- all rounds

  /** Every round from the given queue on is kept. */
  ghost predicate RoundsKept(edges: seq<Edge>, queue: seq<Item>)
    requires Sorted(edges)
    decreases |edges|, |queue|
  {
    queue == [] ||
    (RoundKept(edges, queue[0]) && (
       RestSmaller(edges, queue[0]);
       RoundsKept(RoundRest(edges, queue[0]), queue[1..] + TargetList(edges, queue[0]))))
  }

  lemma RestSmaller(edges: seq<Edge>, u: Item)
    requires Sorted(edges)
    ensures Sorted(RoundRest(edges, u))
    ensures |RoundRest(edges, u)| <= |edges|
    ensures TargetList(edges, u) != [] ==> |RoundRest(edges, u)| < |edges|
  {
    var gone := Targets(edges, u);
    KeepSorted(edges, (e: Edge) => e.1 !in gone);
    KeepShrinks(edges, (e: Edge) => e.1 !in gone);
    RangeTargets(edges, u);
    if TargetList(edges, u) != [] {
      var v := TargetList(edges, u)[0];
      assert v in Elements(TargetList(edges, u));
      var e :| e in edges && e.0 == u && e.1 == v;
    }
  }

  /** A group in which no item waits for two entries is never in danger. */
  lemma {:induction false} SingleDependencies(edges: seq<Edge>, queue: seq<Item>)
    requires Sorted(edges) && TargetsDiffer(edges)
    ensures RoundsKept(edges, queue)
    decreases |edges|, |queue|
  {
    if queue == [] {
    } else {
      var u := queue[0];
      RoundKeptWhenDistinct(edges, u);
      RestSmaller(edges, u);
      var gone := Targets(edges, u);
      KeptTargetsDiffer(edges, (e: Edge) => e.1 !in gone);
      SingleDependencies(RoundRest(edges, u), queue[1..] + TargetList(edges, u));
    }
  }

  predicate TargetsDiffer(edges: seq<Edge>) {
    forall i, j :: 0 <= i < j < |edges| ==> edges[i].1 != edges[j].1
  }

  lemma {:induction false} KeptTargetsDiffer(edges: seq<Edge>, p: Edge -> bool)
    requires TargetsDiffer(edges)
    ensures TargetsDiffer(Keep(edges, p))
  {
    if edges == [] {
    } else {
      KeptTargetsDiffer(edges[1..], p);
      var tail := Keep(edges[1..], p);
      KeepMembers(edges[1..], p);
      forall j | 0 <= j < |tail| ensures tail[j].1 != edges[0].1 {
        assert tail[j] in tail && tail[j] in edges[1..];
      }
    }
  }

  lemma TwiceCounts<T>(s: seq<T>, i: nat, j: nat)
    requires i < j < |s| && s[i] == s[j]
    ensures multiset(s)[s[i]] >= 2
  {
    assert s == s[..j] + s[j..];
    assert s[..j][i] == s[i] && s[j..][0] == s[i];
    assert s[i] in multiset(s[..j]) && s[i] in multiset(s[j..]);
  }

  lemma {:induction false} TargetCountsOnce(edges: seq<Edge>, e: Edge)
    requires TargetsDiffer(edges)
    ensures multiset(edges)[e] <= 1
  {
    if edges == [] {
    } else {
      assert edges == [edges[0]] + edges[1..];
      TargetCountsOnce(edges[1..], e);
    }
  }

  /** The order of the entries does not matter. */
  lemma ReorderedTargetsDiffer(edges: seq<Edge>, other: seq<Edge>)
    requires TargetsDiffer(edges) && multiset(other) == multiset(edges)
    ensures TargetsDiffer(other)
  {
    forall i, j | 0 <= i < j < |other| ensures other[i].1 != other[j].1 {
      assert other[i] in multiset(other) && other[j] in multiset(other);
      assert other[i] in edges && other[j] in edges;
      if other[i] == other[j] {
        TwiceCounts(other, i, j);
        TargetCountsOnce(edges, other[i]);
      }
    }
  }
}
