/** wave_control/osc_wave_group/common_osc_wave_group.cc: waves that look the same share a part.
    The source keeps the bookkeeping three times over, for trigger, horizontal and vertical parts;
    here one layer stands for each of the three. */
module WaveLayers {
  import opened Sequences

  datatype Kind = Trigger | Horizontal | Vertical

  /** A wave and what it shows of each kind; two waves look the same when they show the same. */
  datatype Wave = Wave(address: nat, trigger: nat, horizontal: nat, vertical: nat) {
    function Show(kind: Kind): nat {
      match kind
      case Trigger => trigger
      case Horizontal => horizontal
      case Vertical => vertical
    }
  }

  datatype Part = Part(address: nat)

  /** IsSameTrigger, IsSameHorizontal and IsSameVertical. */
  predicate Same(kind: Kind, v: Wave, w: Wave) {
    v.Show(kind) == w.Show(kind)
  }

  /** of lists the part each record refers to, parts the part objects in the group, and owner the
      wave that each of them shows. */
  datatype Layer = Layer(of: seq<Part>, parts: seq<Part>, owner: map<Part, Wave>)

  /** The first record of a wave other than w that looks like w; past the end if there is none. */
  function FirstSame(waves: seq<Wave>, kind: Kind, w: Wave): (i: nat)
    ensures i <= |waves|
    ensures forall j :: 0 <= j < i ==> waves[j] == w || !Same(kind, waves[j], w)
    ensures i < |waves| ==> waves[i] != w && Same(kind, waves[i], w)
  {
    if waves == [] || (waves[0] != w && Same(kind, waves[0], w)) then 0 else 1 + FirstSame(waves[1..], kind, w)
  }

  /** A new record for w takes the part of the first wave that looks like it, or else a new part;
      the answer says whether a part was created. */
  function Added(l: Layer, waves: seq<Wave>, kind: Kind, w: Wave, blank: Part): (Layer, bool)
    requires |l.of| == |waves|
  {
    var i := FirstSame(waves, kind, w);
    if i < |waves| then (l.(of := l.of + [l.of[i]]), false)
    else (Layer(l.of + [blank], l.parts + [blank], l.owner[blank := w]), true)
  }

  /** Erasing record i deletes its part if that was the last reference to it. */
  function Forgotten(l: Layer, i: nat): (Layer, bool)
    requires i < |l.of|
  {
    var of := Dropped(l.of, i);
    if l.of[i] in of then (l.(of := of), false)
    else (Layer(of, Keep(l.parts, p => p != l.of[i]), l.owner - {l.of[i]}), true)
  }

  /** Parts that show w show v from now on. */
  function Renamed(owner: map<Part, Wave>, w: Wave, v: Wave): map<Part, Wave> {
    map p | p in owner :: if owner[p] == w then v else owner[p]
  }

  /** A part that survives the record of the wave it shows is handed on to another wave. */
  function Removed(l: Layer, waves: seq<Wave>, kind: Kind, i: nat): (Layer, bool)
    requires |l.of| == |waves| && i < |waves|
  {
    var (l1, changed) := Forgotten(l, i);
    var rest := Dropped(waves, i);
    var n := FirstSame(rest, kind, waves[i]);
    if changed || n == |rest| then (l1, changed)
    else (l1.(owner := Renamed(l1.owner, waves[i], rest[n])), false)
  }

  // ----- the invariant: the parts are the classes

  ghost predicate Shows(l: Layer, waves: seq<Wave>, p: Part)
    requires |l.of| == |waves|
  {
    p in l.owner && exists i :: 0 <= i < |waves| && l.of[i] == p && waves[i] == l.owner[p]
  }

  /** Two records share a part just when their waves look the kind, the listed parts are those in
      use, each once, and each shows a present member of its class. */
  ghost predicate Partition(l: Layer, waves: seq<Wave>, kind: Kind) {
    && |l.of| == |waves| && Distinct(waves) && Distinct(l.parts)
    && (forall i, j {:trigger Same(kind, waves[i], waves[j])} :: 0 <= i < |waves| && 0 <= j < |waves| ==>
          (l.of[i] == l.of[j] <==> Same(kind, waves[i], waves[j])))
    && (forall p :: p in l.parts <==> p in l.of)
    && (forall p :: p in l.owner <==> p in l.of)
    && (forall p :: p in l.of ==> Shows(l, waves, p))
  }

  lemma AddedPartition(l: Layer, waves: seq<Wave>, kind: Kind, w: Wave, blank: Part)
    requires Partition(l, waves, kind) && w !in waves && blank !in l.of
    ensures Partition(Added(l, waves, kind, w, blank).0, waves + [w], kind)
    ensures Added(l, waves, kind, w, blank).1 <==> forall v :: v in waves ==> !Same(kind, v, w)
  {
    var i := FirstSame(waves, kind, w);
    var l' := Added(l, waves, kind, w, blank).0;
    var all := waves + [w];
    if i < |waves| {
      assert waves[i] in waves;
    }
    forall j, k | 0 <= j < |all| && 0 <= k < |all| ensures l'.of[j] == l'.of[k] <==> Same(kind, all[j], all[k]) {
      SameWithNew(l, waves, kind, w, blank, j);
      SameWithNew(l, waves, kind, w, blank, k);
    }
    forall p | p in l'.of ensures Shows(l', all, p) {
      if p in l.of {
        assert Shows(l, waves, p);
        var j :| 0 <= j < |waves| && l.of[j] == p && waves[j] == l.owner[p];
        assert l'.of[j] == p && all[j] == l'.owner[p];
      } else {
        assert l'.of[|waves|] == p && all[|waves|] == l'.owner[p];
      }
    }
  }

  lemma SameWithNew(l: Layer, waves: seq<Wave>, kind: Kind, w: Wave, blank: Part, j: nat)
    requires Partition(l, waves, kind) && w !in waves && blank !in l.of
    requires j <= |waves|
    ensures var of := Added(l, waves, kind, w, blank).0.of;
            of[j] == of[|waves|] <==> Same(kind, (waves + [w])[j], w)
  {
    if j < |waves| {
      var i := FirstSame(waves, kind, w);
      assert waves[j] in waves && l.of[j] in l.of;
      if i < |waves| {
        assert Same(kind, waves[j], waves[i]) <==> l.of[j] == l.of[i];
      }
    }
  }

  /** What is left of records and waves when record i goes. */
  lemma RestMatches(l: Layer, waves: seq<Wave>, kind: Kind, i: nat)
    requires Partition(l, waves, kind) && i < |waves|
    ensures var of, rest := Dropped(l.of, i), Dropped(waves, i);
            && |of| == |rest| == |waves| - 1
            && (forall j, k :: 0 <= j < |rest| && 0 <= k < |rest| ==>
                  (of[j] == of[k] <==> Same(kind, rest[j], rest[k])))
            && (forall k :: 0 <= k < |rest| ==> (of[k] == l.of[i] <==> Same(kind, rest[k], waves[i])))
  {
    var of, rest := Dropped(l.of, i), Dropped(waves, i);
    forall k | 0 <= k < |rest|
      ensures var m := if k < i then k else k + 1; of[k] == l.of[m] && rest[k] == waves[m]
    {
    }
  }

  /** The new wave that RemoveOscWave looks for exists whenever the part survives. */
  lemma SuccessorExists(l: Layer, waves: seq<Wave>, kind: Kind, i: nat)
    requires Partition(l, waves, kind) && i < |waves|
    ensures var of, rest := Dropped(l.of, i), Dropped(waves, i);
            var n := FirstSame(rest, kind, waves[i]);
            && |of| == |rest| == |waves| - 1
            && (n < |rest| <==> l.of[i] in of)
            && (n < |rest| ==> of[n] == l.of[i])
  {
    RestMatches(l, waves, kind, i);
    DistinctDropped(waves, i);
    var of, rest := Dropped(l.of, i), Dropped(waves, i);
    var n := FirstSame(rest, kind, waves[i]);
    if l.of[i] in of {
      var k :| 0 <= k < |of| && of[k] == l.of[i];
      assert rest[k] in rest && Same(kind, rest[k], waves[i]);
    }
    if n < |rest| {
      assert of[n] in of;
    }
  }

  lemma RemovedOwner(l: Layer, waves: seq<Wave>, kind: Kind, i: nat, p: Part)
    requires |l.of| == |waves| && i < |waves| && p in l.owner && p in Dropped(l.of, i)
    requires FirstSame(Dropped(waves, i), kind, waves[i]) < |waves| - 1 <==> l.of[i] in Dropped(l.of, i)
    requires l.owner[p] == waves[i] ==> p == l.of[i]
    ensures var owner := Removed(l, waves, kind, i).0.owner;
            var rest := Dropped(waves, i);
            && p in owner
            && owner[p] == if l.owner[p] == waves[i] then rest[FirstSame(rest, kind, waves[i])] else l.owner[p]
  {
  }

  lemma StillThere<T, U>(of: seq<T>, waves: seq<U>, i: nat, j: nat)
    requires |of| == |waves| && i < |waves| && j < |waves| && i != j
    ensures exists k :: 0 <= k < |of| - 1 && Dropped(of, i)[k] == of[j] && Dropped(waves, i)[k] == waves[j]
  {
    var k := if j < i then j else j - 1;
    assert Dropped(of, i)[k] == of[j] && Dropped(waves, i)[k] == waves[j];
  }

  lemma RemovedShows(l: Layer, waves: seq<Wave>, kind: Kind, i: nat, p: Part)
    requires Partition(l, waves, kind) && i < |waves|
    requires p in Dropped(l.of, i) && p in l.of
    requires Removed(l, waves, kind, i).0.of == Dropped(l.of, i)
    ensures Shows(Removed(l, waves, kind, i).0, Dropped(waves, i), p)
  {
    assert Shows(l, waves, p);
    var j :| 0 <= j < |waves| && l.of[j] == p && waves[j] == l.owner[p];
    SuccessorExists(l, waves, kind, i);
    RemovedOwner(l, waves, kind, i, p);
    if j != i {
      StillThere(l.of, waves, i, j);
    }
  }

  /** Erasing a record keeps the listed and the shown parts those in use. */
  lemma ForgottenParts(l: Layer, i: nat)
    requires i < |l.of| && Distinct(l.parts)
    requires forall p :: p in l.parts <==> p in l.of
    requires forall p :: p in l.owner <==> p in l.of
    ensures var l' := Forgotten(l, i).0;
            && l'.of == Dropped(l.of, i) && Distinct(l'.parts)
            && (forall p :: p in l'.parts <==> p in l'.of)
            && (forall p :: p in l'.owner <==> p in l'.of)
  {
    DroppedAt(l.of, i);
    KeepMembers(l.parts, p => p != l.of[i]);
    KeepDistinct(l.parts, p => p != l.of[i]);
  }

  lemma RemovedPartition(l: Layer, waves: seq<Wave>, kind: Kind, i: nat)
    requires Partition(l, waves, kind) && i < |waves|
    ensures Partition(Removed(l, waves, kind, i).0, Dropped(waves, i), kind)
    ensures Removed(l, waves, kind, i).1 <==> forall v :: v in Dropped(waves, i) ==> !Same(kind, v, waves[i])
  {
    var of, rest := Dropped(l.of, i), Dropped(waves, i);
    DistinctDropped(waves, i);
    SuccessorExists(l, waves, kind, i);
    ForgottenParts(l, i);
    RestMatches(l, waves, kind, i);
    assert Removed(l, waves, kind, i).1 <==> l.of[i] !in of;
    DroppedAt(l.of, i);
    forall p | p in of ensures Shows(Removed(l, waves, kind, i).0, rest, p) {
      RemovedShows(l, waves, kind, i, p);
    }
  }

  /** What removing record i relies on, the DCHECK on the new wave included. */
  ghost predicate Removable(l: Layer, waves: seq<Wave>, kind: Kind, i: nat) {
    && |l.of| == |waves| && i < |waves| && Distinct(l.parts) && l.of[i] in l.parts
    && var (l1, changed) := Forgotten(l, i);
       && Distinct(l1.parts) && l1.owner.Keys == Elements(l1.parts)
       && (changed <==> l1.parts != l.parts)
       && (!changed ==> FirstSame(Dropped(waves, i), kind, waves[i]) < |waves| - 1)
  }

  lemma PartitionRemovable(l: Layer, waves: seq<Wave>, kind: Kind, i: nat)
    requires Partition(l, waves, kind) && i < |waves|
    ensures Removable(l, waves, kind, i)
  {
    SuccessorExists(l, waves, kind, i);
    ForgottenParts(l, i);
    KeepShrinks(l.parts, p => p != l.of[i]);
  }

  /** The places among the first n parts of those that showed w. */
  function ShowingAt(parts: seq<Part>, owner: map<Part, Wave>, w: Wave, n: nat): seq<nat>
    requires n <= |parts|
  {
    if n == 0 then []
    else
      var before := ShowingAt(parts, owner, w, n - 1);
      if parts[n - 1] in owner && owner[parts[n - 1]] == w then before + [n - 1] else before
  }

  lemma {:induction false} ShowingAtMeans(parts: seq<Part>, owner: map<Part, Wave>, w: Wave, n: nat, k: nat)
    requires n <= |parts|
    ensures k in ShowingAt(parts, owner, w, n) <==> k < n && parts[k] in owner && owner[parts[k]] == w
  {
    if n == 0 {
    } else {
      ShowingAtMeans(parts, owner, w, n - 1, k);
    }
  }

  /** The places of the parts that showed w and are still there. */
  function HandedOnAt(before: Layer, after: Layer, w: Wave): seq<nat> {
    if before.parts == after.parts then ShowingAt(before.parts, before.owner, w, |before.parts|) else []
  }

  lemma {:induction false} ShowingAtOnce(parts: seq<Part>, owner: map<Part, Wave>, w: Wave, n: nat)
    requires n <= |parts|
    ensures Distinct(ShowingAt(parts, owner, w, n))
  {
    if n == 0 {
    } else {
      ShowingAtOnce(parts, owner, w, n - 1);
      var before := ShowingAt(parts, owner, w, n - 1);
      forall j | 0 <= j < |before| ensures before[j] < n - 1 {
        ShowingAtMeans(parts, owner, w, n - 1, before[j]);
        assert before[j] in before;
      }
    }
  }

  function PlaceOf(parts: seq<Part>, p: Part): (k: nat)
    requires p in parts
    ensures k < |parts| && parts[k] == p
  {
    if parts[0] == p then 0 else 1 + PlaceOf(parts[1..], p)
  }

  /** The part of record i shows the wave of that record, and another wave needs it. */
  predicate HandsOn(l: Layer, waves: seq<Wave>, kind: Kind, i: nat)
    requires |l.of| == |waves| && i < |waves|
  {
    && !NoneLike(Dropped(waves, i), kind, waves[i])
    && l.of[i] in l.owner && l.owner[l.of[i]] == waves[i]
  }

  predicate NoneLike(waves: seq<Wave>, kind: Kind, w: Wave) {
    forall u :: u in waves ==> !Same(kind, u, w)
  }

  /** Removing record i hands on at most its own part, and that one exactly when it shows the removed
      wave and another wave needs it. */
  lemma HandedOnExact(l: Layer, waves: seq<Wave>, kind: Kind, i: nat)
    requires Partition(l, waves, kind) && i < |waves|
    ensures l.of[i] in l.parts
    ensures HandedOnAt(l, Removed(l, waves, kind, i).0, waves[i])
            == if HandsOn(l, waves, kind, i) then [PlaceOf(l.parts, l.of[i])] else []
  {
    PartsAfterRemoval(l, waves, kind, i);
    var places, k := ShowingAt(l.parts, l.owner, waves[i], |l.parts|), PlaceOf(l.parts, l.of[i]);
    ShowingAtMeans(l.parts, l.owner, waves[i], |l.parts|, k);
    ShowingAtOnce(l.parts, l.owner, waves[i], |l.parts|);
    forall j | j in places ensures j == k {
      ShowingAtMeans(l.parts, l.owner, waves[i], |l.parts|, j);
      assert Shows(l, waves, l.parts[j]);
    }
    assert |places| > 0 ==> places[0] in places;
    if k in places {
      OnlyMember(places, k);
    }
  }

  lemma OnlyMember(s: seq<nat>, k: nat)
    requires Distinct(s) && k in s && forall j :: j in s ==> j == k
    ensures s == [k]
  {
    DistinctSize(s, {k});
    assert s[0] in s;
  }

  /** A removal shortens the list of parts by one when no wave that is left looks like the removed. */
  lemma PartsAfterRemoval(l: Layer, waves: seq<Wave>, kind: Kind, i: nat)
    requires Partition(l, waves, kind) && i < |waves|
    ensures var none, after := NoneLike(Dropped(waves, i), kind, waves[i]), Removed(l, waves, kind, i).0;
            && l.of[i] in l.parts && l.of[i] in l.owner
            && (after.parts == l.parts <==> !none)
            && |after.parts| == |l.parts| - (if none then 1 else 0)
  {
    RemovedPartition(l, waves, kind, i);
    KeepOneLess(l.parts, l.of[i]);
  }

  lemma {:induction false} KeepOneLess(parts: seq<Part>, p: Part)
    requires Distinct(parts) && p in parts
    ensures |Keep(parts, x => x != p)| == |parts| - 1
  {
    if parts[0] == p {
      KeepAll(parts[1..], x => x != p);
    } else {
      KeepOneLess(parts[1..], p);
    }
  }

  /** A wave that looks like none gets a part of its own at the end of the list, which shows it; any other
      takes the part of whichever wave it looks like, and the list and what it shows stay as they are. */
  lemma AddedExactly(l: Layer, waves: seq<Wave>, kind: Kind, w: Wave, blank: Part)
    requires Partition(l, waves, kind) && w !in waves
    ensures var l' := Added(l, waves, kind, w, blank).0;
            if NoneLike(waves, kind, w)
            then l' == Layer(l.of + [blank], l.parts + [blank], l.owner[blank := w])
            else && l'.parts == l.parts && l'.owner == l.owner
                 && forall j :: 0 <= j < |waves| && Same(kind, waves[j], w) ==> l'.of == l.of + [l.of[j]]
  {
    var i := FirstSame(waves, kind, w);
    if i < |waves| {
      assert waves[i] in waves;
      forall j | 0 <= j < |waves| && Same(kind, waves[j], w) ensures l.of[j] == l.of[i] {
        assert Same(kind, waves[j], waves[i]);
      }
    }
  }

  /** v is the first of waves that looks like w. */
  ghost predicate FirstLike(waves: seq<Wave>, kind: Kind, w: Wave, v: Wave) {
    exists n :: 0 <= n < |waves| && waves[n] == v && Same(kind, v, w)
                && forall m :: 0 <= m < n ==> !Same(kind, waves[m], w)
  }

  lemma FirstIsFirst(waves: seq<Wave>, kind: Kind, w: Wave)
    requires w !in waves && FirstSame(waves, kind, w) < |waves|
    ensures FirstLike(waves, kind, w, waves[FirstSame(waves, kind, w)])
  {
    var n := FirstSame(waves, kind, w);
    forall m | 0 <= m < n ensures !Same(kind, waves[m], w) {
      assert waves[m] in waves;
    }
  }

  /** What a removal leaves of a layer in which at most part shows the removed wave. */
  ghost predicate LeavesLayer(l: Layer, part: Part, w: Wave, rest: seq<Wave>, kind: Kind, l': Layer)
    requires part in l.owner
  {
    && (forall p :: p in l'.owner && p != part ==> p in l.owner && l'.owner[p] == l.owner[p])
    && if NoneLike(rest, kind, w)
       then l'.parts == Keep(l.parts, p => p != part) && l'.owner.Keys == l.owner.Keys - {part}
       else && l'.parts == l.parts && l'.owner.Keys == l.owner.Keys
            && (l.owner[part] != w ==> l'.owner[part] == l.owner[part])
            && (l.owner[part] == w ==> FirstLike(rest, kind, w, l'.owner[part]))
  }

  lemma RemovedLeaves(l: Layer, waves: seq<Wave>, kind: Kind, i: nat)
    requires |l.of| == |waves| && i < |waves| && l.of[i] in l.owner && waves[i] !in Dropped(waves, i)
    requires forall p :: p in l.owner && l.owner[p] == waves[i] ==> p == l.of[i]
    requires l.of[i] in Dropped(l.of, i) <==> !NoneLike(Dropped(waves, i), kind, waves[i])
    requires l.of[i] in Dropped(l.of, i) <==> FirstSame(Dropped(waves, i), kind, waves[i]) < |Dropped(waves, i)|
    ensures LeavesLayer(l, l.of[i], waves[i], Dropped(waves, i), kind, Removed(l, waves, kind, i).0)
  {
    if l.of[i] in Dropped(l.of, i) {
      FirstIsFirst(Dropped(waves, i), kind, waves[i]);
    }
  }

  lemma OnlyOwnPartShows(l: Layer, waves: seq<Wave>, kind: Kind, i: nat)
    requires Partition(l, waves, kind) && i < |waves|
    ensures l.of[i] in l.owner
    ensures forall p :: p in l.owner && l.owner[p] == waves[i] ==> p == l.of[i]
  {
    forall p | p in l.owner && l.owner[p] == waves[i] ensures p == l.of[i] {
      assert Shows(l, waves, p);
    }
  }

  /** A removal takes the record, and its part when no wave that is left needs it; otherwise the list stays,
      and the part, if it showed the removed wave, shows the first one that looks like it. What the other
      parts show does not change. */
  lemma RemovedExactly(l: Layer, waves: seq<Wave>, kind: Kind, i: nat)
    requires Partition(l, waves, kind) && i < |waves|
    ensures Removed(l, waves, kind, i).0.of == Dropped(l.of, i) && l.of[i] in l.owner
    ensures LeavesLayer(l, l.of[i], waves[i], Dropped(waves, i), kind, Removed(l, waves, kind, i).0)
  {
    RemovedPartition(l, waves, kind, i);
    SuccessorExists(l, waves, kind, i);
    DistinctDropped(waves, i);
    OnlyOwnPartShows(l, waves, kind, i);
    RemovedLeaves(l, waves, kind, i);
  }

  /** One layer as the source changes it. */
  class PartLayer {
    var of: seq<Part>
    var parts: seq<Part>
    var owner: map<Part, Wave>

    function View(): Layer
      reads this
    {
      Layer(of, parts, owner)
    }

    constructor ()
      ensures View() == Layer([], [], map[])
    {
      of, parts, owner := [], [], map[];
    }

    /** The search of AddOscWave, and the part it creates when the search fails. */
    method Add(waves: seq<Wave>, kind: Kind, w: Wave, blank: Part) returns (created: bool)
      requires |of| == |waves| && w !in waves
      modifies this
      ensures View() == Added(old(View()), waves, kind, w, blank).0
      ensures created == Added(old(View()), waves, kind, w, blank).1
    {
      created := true;
      var target := blank;
      for i := 0 to |waves|
        invariant unchanged(this)
        invariant created ==> target == blank && FirstSame(waves, kind, w) >= i
        invariant !created ==> FirstSame(waves, kind, w) < i && target == of[FirstSame(waves, kind, w)]
      {
        if created {
          if Same(kind, waves[i], w) {
            created := false;
            target := of[i];
          }
        }
      }
      if created {
        parts := parts + [blank];
        owner := owner[blank := w];
      }
      of := of + [target];
    }

    /** Erases a record; the deleted part leaves the list. */
    method Erase(i: nat) returns (changed: bool)
      requires i < |of| && Distinct(parts) && of[i] in parts
      modifies this
      ensures View() == Forgotten(old(View()), i).0 && changed == Forgotten(old(View()), i).1
    {
      var part := of[i];
      of := Dropped(of, i);
      changed := part !in of;
      if changed {
        var it := 0;
        while parts[it] != part
          invariant 0 <= it < |parts| && part !in parts[..it]
          decreases |parts| - it
        {
          it := it + 1;
        }
        DroppedIsKeep(parts, it, part);
        parts := Dropped(parts, it);
        owner := owner - {part};
      }
    }

    /** SameTriggerWave and its siblings. */
    method SameWave(waves: seq<Wave>, kind: Kind, w: Wave) returns (i: nat)
      ensures i == FirstSame(waves, kind, w)
    {
      for it := 0 to |waves|
        invariant FirstSame(waves, kind, w) >= it
      {
        if waves[it] == w {
          continue;
        }
        if Same(kind, waves[it], w) {
          return it;
        }
      }
      i := |waves|;
    }

    /** Points the parts that show w at v and lists where they stand. */
    method Repoint(w: Wave, v: Wave) returns (indices: seq<nat>)
      requires w != v && Distinct(parts) && owner.Keys == Elements(parts)
      modifies this`owner
      ensures View() == old(View()).(owner := Renamed(old(owner), w, v))
      ensures indices == ShowingAt(parts, old(owner), w, |parts|)
    {
      indices := [];
      for i := 0 to |parts|
        invariant owner.Keys == old(owner).Keys
        invariant forall k :: 0 <= k < |parts| ==>
                    owner[parts[k]] == if k < i && old(owner)[parts[k]] == w then v else old(owner)[parts[k]]
        invariant indices == ShowingAt(parts, old(owner), w, i)
      {
        if owner[parts[i]] == w {
          owner := owner[parts[i] := v];
          indices := indices + [i];
        }
      }
      assert forall p :: p in owner ==> p in Elements(parts);
      assert owner == Renamed(old(owner), w, v);
    }

    /** The search for a new wave, and the parts that are handed on to it. */
    method HandOn(rest: seq<Wave>, kind: Kind, w: Wave) returns (indices: seq<nat>)
      requires FirstSame(rest, kind, w) < |rest| && Distinct(parts) && owner.Keys == Elements(parts)
      modifies this`owner
      ensures View() == old(View()).(owner := Renamed(old(owner), w, rest[FirstSame(rest, kind, w)]))
      ensures indices == HandedOnAt(old(View()), View(), w)
    {
      var n := SameWave(rest, kind, w);
      indices := Repoint(w, rest[n]);
    }

    /** What RemoveOscWave does to one kind of part. */
    method Remove(waves: seq<Wave>, kind: Kind, i: nat) returns (changed: bool, indices: seq<nat>)
      requires Removable(View(), waves, kind, i)
      modifies this
      ensures View() == Removed(old(View()), waves, kind, i).0 && changed == Removed(old(View()), waves, kind, i).1
      ensures changed <==> parts != old(parts)
      ensures indices == HandedOnAt(old(View()), View(), waves[i])
    {
      changed := Erase(i);
      indices := [];
      if !changed {
        indices := HandOn(Dropped(waves, i), kind, waves[i]);
      }
    }
  }

  lemma DroppedIsKeep(parts: seq<Part>, i: nat, part: Part)
    requires Distinct(parts) && i < |parts| && parts[i] == part
    ensures Dropped(parts, i) == Keep(parts, p => p != part)
  {
    KeepErased(parts, i, p => p != part);
    KeepAll(Dropped(parts, i), p => p != part);
  }
}

/** The group: one list of records, three layers of parts, and the notices its methods send. */
module CommonOscWaveGroups {
  import opened Sequences
  import opened WaveLayers

  datatype Notice =
    | TriggerChanged(index: nat) | HorizontalChanged(index: nat) | VerticalChanged(index: nat)
    | TriggerGroupChanged | HorizontalGroupChanged | VerticalGroupChanged

  function GroupNotices(trigger: bool, horizontal: bool, vertical: bool): (notices: seq<Notice>)
    ensures TriggerGroupChanged in notices <==> trigger
    ensures HorizontalGroupChanged in notices <==> horizontal
    ensures VerticalGroupChanged in notices <==> vertical
    ensures forall x :: x in notices ==> x.TriggerGroupChanged? || x.HorizontalGroupChanged? || x.VerticalGroupChanged?
  {
    (if trigger then [TriggerGroupChanged] else []) + (if horizontal then [HorizontalGroupChanged] else [])
    + (if vertical then [VerticalGroupChanged] else [])
  }

  function TriggerNotices(indices: seq<nat>): seq<Notice> {
    if indices == [] then [] else [TriggerChanged(indices[0])] + TriggerNotices(indices[1..])
  }

  function HorizontalNotices(indices: seq<nat>): seq<Notice> {
    if indices == [] then [] else [HorizontalChanged(indices[0])] + HorizontalNotices(indices[1..])
  }

  lemma {:induction false} TriggerNoticesMembers(indices: seq<nat>, x: Notice)
    ensures x in TriggerNotices(indices) <==> x.TriggerChanged? && x.index in indices
  {
    if indices == [] {
    } else {
      TriggerNoticesMembers(indices[1..], x);
    }
  }

  lemma {:induction false} HorizontalNoticesMembers(indices: seq<nat>, x: Notice)
    ensures x in HorizontalNotices(indices) <==> x.HorizontalChanged? && x.index in indices
  {
    if indices == [] {
    } else {
      HorizontalNoticesMembers(indices[1..], x);
    }
  }

  /** The third loop of the source calls NotifyHorizontalChanged as the second does. */
  function RemovalNotices(ti: seq<nat>, hi: seq<nat>, vi: seq<nat>): seq<Notice> {
    TriggerNotices(ti) + HorizontalNotices(hi) + HorizontalNotices(vi)
  }

  /** What RemoveOscWave announces: the parts handed on, then the lists that changed. */
  function NoticesOf(before: Group, after: Group, i: nat): seq<Notice>
    requires Sized(before) && i < |before.waves|
  {
    var w := before.waves[i];
    RemovalNotices(HandedOnAt(before.triggers, after.triggers, w),
                   HandedOnAt(before.horizontals, after.horizontals, w),
                   HandedOnAt(before.verticals, after.verticals, w))
    + GroupNotices(Removed(before.triggers, before.waves, Trigger, i).1,
                   Removed(before.horizontals, before.waves, Horizontal, i).1,
                   Removed(before.verticals, before.waves, Vertical, i).1)
  }

  lemma RemovalNoticesMembers(ti: seq<nat>, hi: seq<nat>, vi: seq<nat>, x: Notice)
    ensures x in RemovalNotices(ti, hi, vi) <==>
              || (x.TriggerChanged? && x.index in ti)
              || (x.HorizontalChanged? && (x.index in hi || x.index in vi))
  {
    TriggerNoticesMembers(ti, x);
    HorizontalNoticesMembers(hi, x);
    HorizontalNoticesMembers(vi, x);
  }

  datatype Group = Group(waves: seq<Wave>, triggers: Layer, horizontals: Layer, verticals: Layer)

  /** Each kind of part divides the waves by its own likeness. */
  ghost predicate Divided(g: Group) {
    && Partition(g.triggers, g.waves, Trigger)
    && Partition(g.horizontals, g.waves, Horizontal)
    && Partition(g.verticals, g.waves, Vertical)
  }

  predicate Sized(g: Group) {
    |g.triggers.of| == |g.horizontals.of| == |g.verticals.of| == |g.waves|
  }

  function AddedTo(g: Group, w: Wave, t: Part, h: Part, v: Part): Group
    requires Sized(g)
  {
    g.(waves := g.waves + [w],
       triggers := Added(g.triggers, g.waves, Trigger, w, t).0,
       horizontals := Added(g.horizontals, g.waves, Horizontal, w, h).0,
       verticals := Added(g.verticals, g.waves, Vertical, w, v).0)
  }

  function RemovedFrom(g: Group, i: nat): Group
    requires Sized(g) && i < |g.waves|
  {
    g.(waves := Dropped(g.waves, i),
       triggers := Removed(g.triggers, g.waves, Trigger, i).0,
       horizontals := Removed(g.horizontals, g.waves, Horizontal, i).0,
       verticals := Removed(g.verticals, g.waves, Vertical, i).0)
  }

  /** Adding a wave keeps every kind divided, and creates a part exactly when no present wave looks
      like the new one. */
  lemma AddKeeps(g: Group, w: Wave, t: Part, h: Part, v: Part)
    requires Divided(g) && w !in g.waves && t !in g.triggers.of && h !in g.horizontals.of && v !in g.verticals.of
    ensures Divided(AddedTo(g, w, t, h, v))
    ensures Added(g.triggers, g.waves, Trigger, w, t).1 <==> NoneLike(g.waves, Trigger, w)
    ensures Added(g.horizontals, g.waves, Horizontal, w, h).1 <==> NoneLike(g.waves, Horizontal, w)
    ensures Added(g.verticals, g.waves, Vertical, w, v).1 <==> NoneLike(g.waves, Vertical, w)
  {
    AddedPartition(g.triggers, g.waves, Trigger, w, t);
    AddedPartition(g.horizontals, g.waves, Horizontal, w, h);
    AddedPartition(g.verticals, g.waves, Vertical, w, v);
  }

  /** Removing a wave keeps every kind divided, and deletes a part exactly when no wave that is left
      looks like the removed one. */
  lemma RemoveKeeps(g: Group, i: nat)
    requires Divided(g) && i < |g.waves|
    ensures Divided(RemovedFrom(g, i))
    ensures Removed(g.triggers, g.waves, Trigger, i).1 <==> NoneLike(Dropped(g.waves, i), Trigger, g.waves[i])
    ensures Removed(g.horizontals, g.waves, Horizontal, i).1 <==> NoneLike(Dropped(g.waves, i), Horizontal, g.waves[i])
    ensures Removed(g.verticals, g.waves, Vertical, i).1 <==> NoneLike(Dropped(g.waves, i), Vertical, g.waves[i])
  {
    RemovedPartition(g.triggers, g.waves, Trigger, i);
    RemovedPartition(g.horizontals, g.waves, Horizontal, i);
    RemovedPartition(g.verticals, g.waves, Vertical, i);
  }

  /** What removing a wave relies on, in each layer. */
  ghost predicate Ready(g: Group, i: nat) {
    && Removable(g.triggers, g.waves, Trigger, i)
    && Removable(g.horizontals, g.waves, Horizontal, i)
    && Removable(g.verticals, g.waves, Vertical, i)
  }

  lemma DividedReady(g: Group, i: nat)
    requires Divided(g) && i < |g.waves|
    ensures Ready(g, i)
  {
    PartitionRemovable(g.triggers, g.waves, Trigger, i);
    PartitionRemovable(g.horizontals, g.waves, Horizontal, i);
    PartitionRemovable(g.verticals, g.waves, Vertical, i);
  }

  lemma NoticesMembers(g: Group, i: nat, k: nat)
    requires Sized(g) && i < |g.waves|
    ensures var w, after := g.waves[i], RemovedFrom(g, i);
            var notices := NoticesOf(g, after, i);
            && VerticalChanged(k) !in notices
            && (HorizontalChanged(k) in notices <==>
                  || k in HandedOnAt(g.horizontals, after.horizontals, w)
                  || k in HandedOnAt(g.verticals, after.verticals, w))
  {
    var w, after := g.waves[i], RemovedFrom(g, i);
    var ti := HandedOnAt(g.triggers, after.triggers, w);
    var hi := HandedOnAt(g.horizontals, after.horizontals, w);
    var vi := HandedOnAt(g.verticals, after.verticals, w);
    RemovalNoticesMembers(ti, hi, vi, VerticalChanged(k));
    RemovalNoticesMembers(ti, hi, vi, HorizontalChanged(k));
  }

  /** Exactly what RemoveOscWave announces about single parts. */
  lemma RemovalAnnounces(g: Group, i: nat, k: nat)
    requires Divided(g) && i < |g.waves|
    ensures g.horizontals.of[i] in g.horizontals.parts && g.verticals.of[i] in g.verticals.parts
    ensures var notices := NoticesOf(g, RemovedFrom(g, i), i);
            && VerticalChanged(k) !in notices
            && (HorizontalChanged(k) in notices <==>
                  || (HandsOn(g.horizontals, g.waves, Horizontal, i)
                      && k == PlaceOf(g.horizontals.parts, g.horizontals.of[i]))
                  || (HandsOn(g.verticals, g.waves, Vertical, i)
                      && k == PlaceOf(g.verticals.parts, g.verticals.of[i])))
  {
    HandedOnExact(g.horizontals, g.waves, Horizontal, i);
    HandedOnExact(g.verticals, g.waves, Vertical, i);
    NoticesMembers(g, i, k);
  }

  /** The notice about a part of one kind that is handed on, if one is. */
  function HandedOnNotice(l: Layer, waves: seq<Wave>, kind: Kind, i: nat, horizontal: bool): seq<Notice>
    requires |l.of| == |waves| && i < |waves| && l.of[i] in l.parts
  {
    var k := PlaceOf(l.parts, l.of[i]);
    if !HandsOn(l, waves, kind, i) then [] else if horizontal then [HorizontalChanged(k)] else [TriggerChanged(k)]
  }

  lemma AllNotices(ti: seq<nat>, hi: seq<nat>, vi: seq<nat>, trigger: bool, horizontal: bool, vertical: bool)
    requires |ti| <= 1 && |hi| <= 1 && |vi| <= 1
    ensures RemovalNotices(ti, hi, vi) + GroupNotices(trigger, horizontal, vertical)
            == (if ti == [] then [] else [TriggerChanged(ti[0])])
             + (if hi == [] then [] else [HorizontalChanged(hi[0])])
             + (if vi == [] then [] else [HorizontalChanged(vi[0])])
             + (if trigger then [TriggerGroupChanged] else [])
             + (if horizontal then [HorizontalGroupChanged] else [])
             + (if vertical then [VerticalGroupChanged] else [])
  {
    OneNotice(ti);
    OneNotice(hi);
    OneNotice(vi);
    Regrouped(RemovalNotices(ti, hi, vi), if trigger then [TriggerGroupChanged] else [],
              if horizontal then [HorizontalGroupChanged] else [], if vertical then [VerticalGroupChanged] else []);
  }

  lemma Regrouped<T>(a: seq<T>, b: seq<T>, c: seq<T>, d: seq<T>)
    ensures a + (b + c + d) == a + b + c + d
  {
  }

  lemma HandedOnOnce(l: Layer, waves: seq<Wave>, kind: Kind, i: nat) returns (at: seq<nat>)
    requires Partition(l, waves, kind) && i < |waves|
    ensures at == HandedOnAt(l, Removed(l, waves, kind, i).0, waves[i]) && l.of[i] in l.parts
    ensures at == if HandsOn(l, waves, kind, i) then [PlaceOf(l.parts, l.of[i])] else []
    ensures Removed(l, waves, kind, i).1 <==> NoneLike(Dropped(waves, i), kind, waves[i])
  {
    at := HandedOnAt(l, Removed(l, waves, kind, i).0, waves[i]);
    HandedOnExact(l, waves, kind, i);
    RemovedPartition(l, waves, kind, i);
  }

  /** All that RemoveOscWave announces, and in which order: the trigger part that is handed on, the horizontal
      one, the vertical one as a horizontal one, and then each kind of which a part is deleted. */
  lemma RemovalAnnouncesExactly(g: Group, i: nat)
    requires Divided(g) && i < |g.waves|
    ensures g.triggers.of[i] in g.triggers.parts && g.horizontals.of[i] in g.horizontals.parts
    ensures g.verticals.of[i] in g.verticals.parts
    ensures var rest, w := Dropped(g.waves, i), g.waves[i];
            NoticesOf(g, RemovedFrom(g, i), i)
            == HandedOnNotice(g.triggers, g.waves, Trigger, i, false)
             + HandedOnNotice(g.horizontals, g.waves, Horizontal, i, true)
             + HandedOnNotice(g.verticals, g.waves, Vertical, i, true)
             + (if NoneLike(rest, Trigger, w) then [TriggerGroupChanged] else [])
             + (if NoneLike(rest, Horizontal, w) then [HorizontalGroupChanged] else [])
             + (if NoneLike(rest, Vertical, w) then [VerticalGroupChanged] else [])
  {
    var ti := HandedOnOnce(g.triggers, g.waves, Trigger, i);
    var hi := HandedOnOnce(g.horizontals, g.waves, Horizontal, i);
    var vi := HandedOnOnce(g.verticals, g.waves, Vertical, i);
    AllNotices(ti, hi, vi, Removed(g.triggers, g.waves, Trigger, i).1,
               Removed(g.horizontals, g.waves, Horizontal, i).1, Removed(g.verticals, g.waves, Vertical, i).1);
  }

  lemma OneNotice(indices: seq<nat>)
    requires |indices| <= 1
    ensures TriggerNotices(indices) == if indices == [] then [] else [TriggerChanged(indices[0])]
    ensures HorizontalNotices(indices) == if indices == [] then [] else [HorizontalChanged(indices[0])]
  {
    if indices != [] {
      assert indices[1..] == [];
    }
  }

  /** All that AddOscWave announces, and in which order: each kind of which no present wave looks like the new
      one. */
  lemma AdditionAnnounces(g: Group, w: Wave, t: Part, h: Part, v: Part)
    requires Divided(g) && w !in g.waves && t !in g.triggers.of && h !in g.horizontals.of && v !in g.verticals.of
    ensures GroupNotices(Added(g.triggers, g.waves, Trigger, w, t).1,
                         Added(g.horizontals, g.waves, Horizontal, w, h).1,
                         Added(g.verticals, g.waves, Vertical, w, v).1)
            == (if NoneLike(g.waves, Trigger, w) then [TriggerGroupChanged] else [])
             + (if NoneLike(g.waves, Horizontal, w) then [HorizontalGroupChanged] else [])
             + (if NoneLike(g.waves, Vertical, w) then [VerticalGroupChanged] else [])
  {
    AddKeeps(g, w, t, h, v);
  }

  /** Every vertical part that the removal of record i hands on is announced as such. */
  ghost predicate VerticalsAnnounced(g: Group, i: nat)
    requires Sized(g) && i < |g.waves|
  {
    forall k: nat :: k in HandedOnAt(g.verticals, RemovedFrom(g, i).verticals, g.waves[i]) ==>
      VerticalChanged(k) in NoticesOf(g, RemovedFrom(g, i), i)
  }

  /** The announcement is right exactly when no vertical part is handed on, that is, unless the
      vertical part of the removed wave shows it and another wave needs that part. */
  lemma VerticalsAnnouncedExactly(g: Group, i: nat)
    requires Divided(g) && i < |g.waves|
    ensures VerticalsAnnounced(g, i) <==> !HandsOn(g.verticals, g.waves, Vertical, i)
  {
    HandedOnExact(g.verticals, g.waves, Vertical, i);
    var k := PlaceOf(g.verticals.parts, g.verticals.of[i]);
    RemovalAnnounces(g, i, k);
    assert k in [k];
  }

  predicate BeyondParts(g: Group, i: nat, k: nat)
    requires Sized(g) && i < |g.waves|
  {
    HorizontalChanged(k) in NoticesOf(g, RemovedFrom(g, i), i) && k >= |RemovedFrom(g, i).horizontals.parts|
  }

  lemma BeyondPartsExactly(g: Group, i: nat, k: nat)
    requires Divided(g) && i < |g.waves|
    ensures g.verticals.of[i] in g.verticals.parts
    ensures BeyondParts(g, i, k) <==>
              && HandsOn(g.verticals, g.waves, Vertical, i) && k == PlaceOf(g.verticals.parts, g.verticals.of[i])
              && k >= |g.horizontals.parts| - if NoneLike(Dropped(g.waves, i), Horizontal, g.waves[i]) then 1 else 0
  {
    PartsAfterRemoval(g.horizontals, g.waves, Horizontal, i);
    RemovalAnnounces(g, i, k);
  }

  /** A horizontal change is announced at an index at which there is no horizontal part. */
  ghost predicate AnnouncesNoPart(g: Group, i: nat)
    requires Sized(g) && i < |g.waves|
  {
    exists k: nat :: BeyondParts(g, i, k)
  }

  /** That happens exactly when the handed on vertical part stands further back than there are
      horizontal parts left. */
  lemma AnnouncesNoPartExactly(g: Group, i: nat)
    requires Divided(g) && i < |g.waves|
    ensures g.verticals.of[i] in g.verticals.parts
    ensures AnnouncesNoPart(g, i) <==>
              && HandsOn(g.verticals, g.waves, Vertical, i)
              && PlaceOf(g.verticals.parts, g.verticals.of[i])
                 >= |g.horizontals.parts| - if NoneLike(Dropped(g.waves, i), Horizontal, g.waves[i]) then 1 else 0
  {
    PartsAfterRemoval(g.verticals, g.waves, Vertical, i);
    BeyondPartsExactly(g, i, PlaceOf(g.verticals.parts, g.verticals.of[i]));
    if k: nat :| BeyondParts(g, i, k) {
      BeyondPartsExactly(g, i, k);
    }
  }

  datatype Call = Add(w: Wave, t: Part, h: Part, v: Part) | Remove(i: nat)

  ghost predicate Callable(g: Group, c: Call) {
    match c
    case Add(w, t, h, v) =>
      w !in g.waves && t !in g.triggers.of && h !in g.horizontals.of && v !in g.verticals.of
    case Remove(i) => i < |g.waves|
  }

  ghost predicate IsHistory(gs: seq<Group>, cs: seq<Call>) {
    && |gs| == |cs| + 1
    && gs[0] == Group([], Layer([], [], map[]), Layer([], [], map[]), Layer([], [], map[]))
    && forall k {:trigger cs[k]} :: 0 <= k < |cs| ==>
         && Sized(gs[k]) && Callable(gs[k], cs[k])
         && match cs[k]
            case Add(w, t, h, v) => gs[k + 1] == AddedTo(gs[k], w, t, h, v)
            case Remove(i) => gs[k + 1] == RemovedFrom(gs[k], i)
  }

  /** After any calls, two records share a part of a kind exactly when their waves look the same, the
      list of that kind holds just the parts in use, and each part shows a present wave. */
  lemma {:induction false} EveryHistory(gs: seq<Group>, cs: seq<Call>, n: nat)
    requires IsHistory(gs, cs) && n <= |cs|
    ensures Divided(gs[n])
  {
    if n == 0 {
    } else {
      EveryHistory(gs, cs, n - 1);
      match cs[n - 1]
      case Add(w, t, h, v) => AddKeeps(gs[n - 1], w, t, h, v);
      case Remove(i) => RemoveKeeps(gs[n - 1], i);
    }
  }

  /** Three waves share a horizontal part, the last two also a vertical part. */
  lemma ThreeWaves() returns (gs: seq<Group>, cs: seq<Call>)
    ensures IsHistory(gs, cs) && |cs| == 3 && gs[3].waves == [Wave(0, 0, 0, 0), Wave(1, 0, 0, 1), Wave(2, 0, 0, 1)]
    ensures Sized(gs[3]) && gs[3].verticals.of[1] == Part(1) && gs[3].horizontals.parts == [Part(0)]
    ensures gs[3].verticals.parts == [Part(0), Part(1)]
    ensures Part(1) in gs[3].verticals.owner && gs[3].verticals.owner[Part(1)] == gs[3].waves[1]
  {
    var a, b, c := Wave(0, 0, 0, 0), Wave(1, 0, 0, 1), Wave(2, 0, 0, 1);
    var p, q, r := Part(0), Part(1), Part(2);
    var none, shared := Layer([], [], map[]), map[p := a];
    var l1, l2, l3 := Layer([p], [p], shared), Layer([p, p], [p], shared), Layer([p, p, p], [p], shared);
    var g0, g1 := Group([], none, none, none), Group([a], l1, l1, l1);
    var g2 := Group([a, b], l2, l2, Layer([p, q], [p, q], map[p := a, q := b]));
    var g3 := Group([a, b, c], l3, l3, Layer([p, q, q], [p, q], map[p := a, q := b]));
    FirstsOfThree(b, c, a);
    assert g1 == AddedTo(g0, a, p, p, p);
    assert g2 == AddedTo(g1, b, q, q, q);
    assert g3 == AddedTo(g2, c, r, r, r);
    gs, cs := [g0, g1, g2, g3], [Add(a, p, p, p), Add(b, q, q, q), Add(c, r, r, r)];
  }

  /** It does happen: the second of the three waves is removed. Its vertical part, the second of two,
      goes to the third wave, and the change is announced for a second horizontal part, while there
      is one. */
  lemma VerticalsMisannounced() returns (gs: seq<Group>, cs: seq<Call>, g: Group)
    ensures IsHistory(gs, cs) && g == gs[|cs|] && Divided(g) && |g.waves| == 3
    ensures !VerticalsAnnounced(g, 1) && AnnouncesNoPart(g, 1)
  {
    gs, cs := ThreeWaves();
    g := gs[|cs|];
    EveryHistory(gs, cs, 3);
    var a, c := g.waves[0], g.waves[2];
    assert Dropped(g.waves, 1) == [a, c];
    assert c in [a, c] && Same(Vertical, c, g.waves[1]) && Same(Horizontal, c, g.waves[1]);
    VerticalsAnnouncedExactly(g, 1);
    AnnouncesNoPartExactly(g, 1);
  }

  lemma FirstsOfThree(b: Wave, c: Wave, a: Wave)
    requires a.trigger == b.trigger == c.trigger && a.horizontal == b.horizontal == c.horizontal
    requires a.vertical != b.vertical == c.vertical && a != b && b != c && a != c
    ensures FirstSame([a], Trigger, b) == FirstSame([a], Horizontal, b) == 0 && FirstSame([a], Vertical, b) == 1
    ensures FirstSame([a, b], Trigger, c) == FirstSame([a, b], Horizontal, c) == 0
    ensures FirstSame([a, b], Vertical, c) == 1
  {
    assert [a][1..] == [] && [a, b][1..] == [b];
  }

  class CommonOscWaveGroup {
    var waves: seq<Wave>
    const triggers: PartLayer
    const horizontals: PartLayer
    const verticals: PartLayer

    function View(): Group
      reads this, triggers, horizontals, verticals
    {
      Group(waves, triggers.View(), horizontals.View(), verticals.View())
    }

    ghost predicate Valid()
      reads this, triggers, horizontals, verticals
    {
      triggers != horizontals && horizontals != verticals && triggers != verticals && Sized(View())
    }

    constructor ()
      ensures Valid() && View() == Group([], Layer([], [], map[]), Layer([], [], map[]), Layer([], [], map[]))
      ensures fresh(triggers) && fresh(horizontals) && fresh(verticals)
    {
      waves := [];
      triggers := new PartLayer();
      horizontals := new PartLayer();
      verticals := new PartLayer();
    }

    method AddParts(w: Wave, t: Part, h: Part, v: Part) returns (trigger: bool, horizontal: bool, vertical: bool)
      requires triggers != horizontals && horizontals != verticals && triggers != verticals
      requires |triggers.of| == |horizontals.of| == |verticals.of| == |waves| && w !in waves
      modifies triggers, horizontals, verticals
      ensures triggers.View() == Added(old(triggers.View()), waves, Trigger, w, t).0
      ensures trigger == Added(old(triggers.View()), waves, Trigger, w, t).1
      ensures horizontals.View() == Added(old(horizontals.View()), waves, Horizontal, w, h).0
      ensures horizontal == Added(old(horizontals.View()), waves, Horizontal, w, h).1
      ensures verticals.View() == Added(old(verticals.View()), waves, Vertical, w, v).0
      ensures vertical == Added(old(verticals.View()), waves, Vertical, w, v).1
    {
      trigger := triggers.Add(waves, Trigger, w, t);
      horizontal := horizontals.Add(waves, Horizontal, w, h);
      vertical := verticals.Add(waves, Vertical, w, v);
    }

    /** t, h and v are the parts that are created if none can be shared. */
    method AddOscWave(w: Wave, t: Part, h: Part, v: Part) returns (notices: seq<Notice>)
      requires Valid() && w !in waves
      modifies this`waves, triggers, horizontals, verticals
      ensures Valid() && View() == AddedTo(old(View()), w, t, h, v)
      ensures notices == GroupNotices(Added(old(View()).triggers, old(waves), Trigger, w, t).1,
                                      Added(old(View()).horizontals, old(waves), Horizontal, w, h).1,
                                      Added(old(View()).verticals, old(waves), Vertical, w, v).1)
    {
      var trigger, horizontal, vertical := AddParts(w, t, h, v);
      waves := waves + [w];
      notices := GroupNotices(trigger, horizontal, vertical);
    }

    method IndexOf(w: Wave) returns (i: nat)
      requires w in waves
      ensures i < |waves| && waves[i] == w
    {
      i := 0;
      while waves[i] != w
        invariant i < |waves| && w !in waves[..i]
        decreases |waves| - i
      {
        i := i + 1;
      }
    }

    method HasOscWave(w: Wave) returns (has: bool)
      ensures has <==> w in waves
    {
      for i := 0 to |waves|
        invariant w !in waves[..i]
      {
        if waves[i] == w {
          return true;
        }
      }
      has := false;
    }

    /** Erases record it from the layers; the answers are what the notices are about. */
    method RemoveParts(it: nat) returns (trigger: bool, horizontal: bool, vertical: bool,
                                         ti: seq<nat>, hi: seq<nat>, vi: seq<nat>)
      requires Valid() && Ready(View(), it)
      modifies triggers, horizontals, verticals
      ensures triggers.View() == Removed(old(triggers.View()), waves, Trigger, it).0
      ensures horizontals.View() == Removed(old(horizontals.View()), waves, Horizontal, it).0
      ensures verticals.View() == Removed(old(verticals.View()), waves, Vertical, it).0
      ensures trigger == Removed(old(triggers.View()), waves, Trigger, it).1
      ensures horizontal == Removed(old(horizontals.View()), waves, Horizontal, it).1
      ensures vertical == Removed(old(verticals.View()), waves, Vertical, it).1
      ensures ti == HandedOnAt(old(triggers.View()), triggers.View(), waves[it])
      ensures hi == HandedOnAt(old(horizontals.View()), horizontals.View(), waves[it])
      ensures vi == HandedOnAt(old(verticals.View()), verticals.View(), waves[it])
    {
      trigger, ti := triggers.Remove(waves, Trigger, it);
      horizontal, hi := horizontals.Remove(waves, Horizontal, it);
      vertical, vi := verticals.Remove(waves, Vertical, it);
    }

    method RemoveAt(it: nat) returns (notices: seq<Notice>)
      requires Valid() && Ready(View(), it)
      modifies this`waves, triggers, horizontals, verticals
      ensures Valid() && View() == RemovedFrom(old(View()), it)
      ensures notices == NoticesOf(old(View()), View(), it)
    {
      var trigger, horizontal, vertical, ti, hi, vi := RemoveParts(it);
      waves := Dropped(waves, it);
      notices := RemovalNotices(ti, hi, vi) + GroupNotices(trigger, horizontal, vertical);
    }

    /** The source announces a vertical part that is handed on as a horizontal change. */
    method RemoveOscWave(w: Wave) returns (notices: seq<Notice>, ghost i: nat)
      requires Valid() && Divided(View()) && w in waves
      modifies this`waves, triggers, horizontals, verticals
      ensures i < |old(waves)| && old(waves)[i] == w
      ensures Valid() && View() == RemovedFrom(old(View()), i)
      ensures notices == NoticesOf(old(View()), View(), i)
    {
      var it := IndexOf(w);
      i := it;
      DividedReady(View(), it);
      notices := RemoveAt(it);
    }
  }
}
