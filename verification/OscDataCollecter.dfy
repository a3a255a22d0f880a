/** OscDataCollecter::AllocOscRawData: recycle queued bulks until the new buffer fits the pool. */
module OscDataCollecters {
  import opened Sequences
  import opened BulkQueue
  import opened SequencedBulkQueues
  import opened MemoryUsagePools

  /** The queue, the buffers that something else still refers to, and the pool. */
  datatype Depot = Depot(q: Queue, held: set<Bulk>, sizes: map<Bulk, nat>, limit: nat)

  function Queued(pieces: seq<Piece>): set<Bulk> {
    set p | p in pieces :: p.bulk
  }

  /** Exactly the referenced buffers are allocated, and they fit the pool. */
  ghost predicate Sound(d: Depot) {
    && Increasing(d.q.pieces)
    && d.sizes.Keys == Queued(d.q.pieces) + d.held
    && Total(d.sizes) <= d.limit
  }

  /** A buffer whose last reference is gone is freed. */
  ghost function Settled(d: Depot): Depot {
    d.(sizes := Part(d.sizes, Queued(d.q.pieces) + d.held))
  }

  ghost function RecycleStep(d: Depot): Depot {
    Settled(d.(q := Recycled(d.q).0))
  }

  ghost function Allocated(d: Depot, b: Bulk, size: nat): (res: (Depot, bool))
    decreases |d.q.pieces|
  {
    if Total(d.sizes) + size <= d.limit then (d.(sizes := d.sizes[b := size], held := d.held + {b}), true)
    else if Recycled(d.q).1 then Allocated(RecycleStep(d), b, size)
    else (d, false)
  }

  // ----- when it succeeds

  /** RecycleOne may take p out. */
  ghost predicate Takeable(q: Queue, p: Piece) {
    q.counts.Keys != {} && p.count > MinOf(q.counts)
  }

  /** The buffers that no amount of recycling frees. */
  ghost function Pinned(d: Depot): set<Bulk> {
    d.held + set p | p in d.q.pieces && !Takeable(d.q, p) :: p.bulk
  }

  /** What one recycling takes out is one entry that may be taken. */
  lemma StepTakes(q: Queue) returns (gone: Piece)
    requires Increasing(q.pieces) && Recycled(q).1
    ensures Increasing(Recycled(q).0.pieces) && Recycled(q).0 == q.(pieces := Recycled(q).0.pieces)
    ensures gone in q.pieces && Takeable(q, gone)
    ensures forall p :: p in Recycled(q).0.pieces <==> p in q.pieces && p != gone
  {
    RecycleMeans(q);
    var v := Victim(q.pieces, MinOf(q.counts), MaxOf(q.counts));
    gone := q.pieces[v];
    DroppedMembers(q.pieces, v);
    DroppedOne(q.pieces, v);
    KeepMembers(q.pieces, (x: Piece) => x != gone);
    MinMax(q.counts);
  }

  lemma StepKeeps(d: Depot)
    requires Sound(d) && Recycled(d.q).1
    ensures Sound(RecycleStep(d)) && Pinned(RecycleStep(d)) == Pinned(d)
    ensures Part(RecycleStep(d).sizes, Pinned(d)) == Part(d.sizes, Pinned(d))
  {
    var gone := StepTakes(d.q);
    var d' := RecycleStep(d);
    TotalPart(d.sizes, Queued(d'.q.pieces) + d'.held);
    assert forall p :: p in d.q.pieces && !Takeable(d.q, p) <==> p in d'.q.pieces && !Takeable(d'.q, p);
  }

  /** When nothing more can be recycled, only pinned buffers are left. */
  lemma AllPinned(d: Depot)
    requires Sound(d) && !Recycled(d.q).1
    ensures Part(d.sizes, Pinned(d)) == d.sizes
  {
    RecycleMeans(d.q);
    forall b | b in d.sizes ensures b in Pinned(d) {
      if b !in d.held {
        var p :| p in d.q.pieces && p.bulk == b;
        assert !Takeable(d.q, p);
      }
    }
  }

  /** The allocation succeeds exactly when the new buffer fits beside the pinned ones. */
  lemma {:induction false} AllocSucceeds(d: Depot, b: Bulk, size: nat)
    requires Sound(d)
    ensures Allocated(d, b, size).1 <==> Total(Part(d.sizes, Pinned(d))) + size <= d.limit
    decreases |d.q.pieces|
  {
    if Total(d.sizes) + size <= d.limit {
      TotalPart(d.sizes, Pinned(d));
    } else if Recycled(d.q).1 {
      StepKeeps(d);
      AllocSucceeds(RecycleStep(d), b, size);
    } else {
      AllPinned(d);
    }
  }

  /** With a reader, nothing held elsewhere and nothing that all readers have passed, any buffer
      that fits an empty pool is allocated. */
  lemma AllocSucceedsWithReader(d: Depot, b: Bulk, size: nat)
    requires Sound(d) && size <= d.limit
    requires d.held == {} && d.q.counts.Keys != {}
    requires forall p :: p in d.q.pieces ==> p.count > MinOf(d.q.counts)
    ensures Allocated(d, b, size).1
  {
    AllocSucceeds(d, b, size);
    assert Part(d.sizes, Pinned(d)) == map[];
  }

  // ----- what it leaves

  /** Nothing is recycled out of turn: an entry that some reader is already past goes only when
      no entry is left that no reader has reached. */
  ghost predicate InTurn(q: Queue, rest: seq<Piece>) {
    forall p, x :: p in q.pieces && p !in rest && x in rest ==>
      q.counts.Keys != {} && p.count > MinOf(q.counts)
      && (p.count <= MaxOf(q.counts) ==> x.count <= MaxOf(q.counts))
  }

  /** Pool and queue stay consistent, the readers are untouched, pinned buffers survive, and the
      queue loses entries in turn only. */
  lemma {:induction false} AllocKeeps(d: Depot, b: Bulk, size: nat)
    requires Sound(d) && b !in d.sizes
    ensures var (d', ok) := Allocated(d, b, size);
            && Sound(d') && (ok <==> b in d'.sizes) && (ok ==> d'.sizes[b] == size)
            && d'.q == d.q.(pieces := d'.q.pieces)
            && (forall p :: p in d'.q.pieces ==> p in d.q.pieces)
            && Part(d'.sizes, Pinned(d)) == Part(d.sizes, Pinned(d))
            && InTurn(d.q, d'.q.pieces)
    decreases |d.q.pieces|
  {
    if Total(d.sizes) + size <= d.limit {
      TotalAdd(d.sizes, b, size);
    } else if Recycled(d.q).1 {
      StepKeeps(d);
      AllocKeeps(RecycleStep(d), b, size);
      StepInTurn(d.q, Allocated(d, b, size).0.q.pieces);
    }
  }

  /** An entry that RecycleOne takes out before the fastest reader is taken when none is beyond. */
  lemma GoneInTurn(q: Queue, gone: Piece)
    requires Increasing(q.pieces) && Recycled(q).1 && gone in q.pieces && gone !in Recycled(q).0.pieces
    ensures gone.count <= MaxOf(q.counts) ==> forall x :: x in q.pieces ==> x.count <= MaxOf(q.counts)
  {
    RecycleMeans(q);
    var lo, hi := MinOf(q.counts), MaxOf(q.counts);
    var p :| TakesOut(q.pieces, lo, hi, p, Recycled(q).0.pieces);
    KeepMembers(q.pieces, (x: Piece) => x != p);
    assert gone == p;
  }

  lemma StepInTurn(q: Queue, rest: seq<Piece>)
    requires Increasing(q.pieces) && Recycled(q).1 && InTurn(Recycled(q).0, rest)
    requires forall p :: p in rest ==> p in Recycled(q).0.pieces
    ensures InTurn(q, rest)
    ensures forall p :: p in rest ==> p in q.pieces
  {
    var gone := StepTakes(q);
    GoneInTurn(q, gone);
  }

  // ----- no more is recycled than necessary

  /** Recycling the next bulk of q leaves rest. */
  ghost predicate RecyclesTo(q: Queue, rest: seq<Piece>) {
    Recycled(q).1 && Recycled(q).0.pieces == rest
  }

  /** The buffers that are left while the queue is q do not leave room for size bytes. */
  ghost predicate TooFull(d: Depot, q: Queue, size: nat) {
    Total(Part(d.sizes, Queued(q.pieces) + d.held)) + size > d.limit
  }

  /** The last bulk that went, went because the buffer did not fit with it. */
  ghost predicate LastOneNeeded(d: Depot, rest: seq<Piece>, size: nat) {
    exists q: Queue :: q == d.q.(pieces := q.pieces) && RecyclesTo(q, rest) && TooFull(d, q, size)
  }

  lemma PartTwice(sizes: map<Bulk, nat>, keys: set<Bulk>, fewer: set<Bulk>)
    requires fewer <= keys
    ensures Part(Part(sizes, keys), fewer) == Part(sizes, fewer)
  {
  }

  lemma SoundAll(d: Depot)
    requires Sound(d)
    ensures Part(d.sizes, Queued(d.q.pieces) + d.held) == d.sizes
  {
  }

  /** Where a later recycling is needed it was needed from the start. */
  lemma NeededFromStart(d: Depot, rest: seq<Piece>, size: nat)
    requires Sound(d) && Recycled(d.q).1 && LastOneNeeded(RecycleStep(d), rest, size)
    ensures LastOneNeeded(d, rest, size)
  {
    var gone := StepTakes(d.q);
    var d1 := RecycleStep(d);
    var q: Queue :| q == d1.q.(pieces := q.pieces) && RecyclesTo(q, rest) && TooFull(d1, q, size);
    FullerBefore(d, q, size);
    assert q == d.q.(pieces := q.pieces);
  }

  lemma FullerBefore(d: Depot, q: Queue, size: nat)
    requires TooFull(RecycleStep(d), q, size)
    ensures TooFull(d, q, size)
  {
    var keys, now := Queued(Recycled(d.q).0.pieces) + d.held, Queued(q.pieces) + d.held;
    assert RecycleStep(d).held == d.held && RecycleStep(d).sizes == Part(d.sizes, keys);
    assert Part(Part(d.sizes, keys), now) == Part(Part(d.sizes, now), keys);
    TotalPart(Part(d.sizes, now), keys);
  }

  /** A buffer that fits is allocated at once, and no bulk is touched; otherwise bulks go one by one, and
      only as long as the buffer does not fit. A call that fails leaves nothing that could be recycled. */
  lemma {:induction false} AllocSpares(d: Depot, b: Bulk, size: nat)
    requires Sound(d)
    ensures var (d', ok) := Allocated(d, b, size);
            && (Total(d.sizes) + size <= d.limit ==> ok && d'.q == d.q)
            && (d'.q != d.q ==> LastOneNeeded(d, d'.q.pieces, size))
            && (ok ==> d'.held == d.held + {b})
            && (!ok ==> d'.held == d.held && forall p :: p in d'.q.pieces ==> !Takeable(d'.q, p))
    decreases |d.q.pieces|
  {
    if Total(d.sizes) + size <= d.limit {
    } else if Recycled(d.q).1 {
      StepKeeps(d);
      var d1 := RecycleStep(d);
      AllocSpares(d1, b, size);
      var rest := Allocated(d, b, size).0.q.pieces;
      if rest == d1.q.pieces {
        FirstOneNeeded(d, size);
      } else {
        NeededFromStart(d, rest, size);
      }
    } else {
      NothingTakeable(d.q);
    }
  }

  lemma FirstOneNeeded(d: Depot, size: nat)
    requires Sound(d) && Recycled(d.q).1 && Total(d.sizes) + size > d.limit
    ensures LastOneNeeded(d, Recycled(d.q).0.pieces, size)
  {
    SoundAll(d);
    assert RecyclesTo(d.q, Recycled(d.q).0.pieces) && TooFull(d, d.q, size);
  }

  lemma NothingTakeable(q: Queue)
    requires Increasing(q.pieces) && !Recycled(q).1
    ensures forall p :: p in q.pieces ==> !Takeable(q, p)
  {
    RecycleMeans(q);
  }

  class OscDataCollecter {
    const pool: MemoryUsagePool
    const queue: SequencedBulkQueue
    var held: set<Bulk>

    ghost function View(): Depot
      reads this, pool, queue
    {
      Depot(queue.View().q, held, pool.alloced, pool.limit)
    }

    ghost predicate Valid()
      reads this, pool, queue
    {
      pool.Valid() && queue.Cached() && Sound(View())
    }

    constructor (limit: nat)
      ensures Valid() && fresh(pool) && fresh(queue)
      ensures View() == Depot(Queue([], 0, map[], false), {}, map[], limit)
    {
      pool := new MemoryUsagePool(limit);
      queue := new SequencedBulkQueue(false);
      held := {};
    }

    /** The destructor of PooledOscRawData runs with its last reference. */
    method Release(bulk: Bulk)
      requires pool.Valid() && bulk in pool.alloced
      modifies pool
      ensures pool.Valid()
      ensures pool.alloced == if bulk in held || bulk in Queued(queue.pieces) then old(pool.alloced)
                              else old(pool.alloced) - {bulk}
    {
      if bulk !in held && bulk !in Queued(queue.pieces) {
        var _, _ := pool.Free(bulk);
      }
    }

    /** One turn of the recycling loop. */
    method Recycle() returns (ret: bool)
      requires Valid()
      modifies pool, queue`pieces
      ensures Valid() && ret == Recycled(old(View()).q).1
      ensures View() == if ret then RecycleStep(old(View())) else old(View())
    {
      ghost var d := View();
      RecycleMeans(d.q);
      if Recycled(d.q).1 {
        StepKeeps(d);
      }
      var bulk;
      ret, bulk := queue.RecycleOne();
      if ret {
        ghost var i: nat :| LetsGo(d.q.pieces, i, bulk, queue.pieces);
        OneLess(d, i);
        Release(bulk);
      }
    }

    /** PooledOscRawData::AllocAgain; the caller's handle then refers to the buffer. */
    method AllocAgain(bulk: Bulk, size: nat) returns (ok: bool)
      requires pool.Valid() && bulk !in pool.alloced
      modifies this`held, pool
      ensures pool.Valid()
      ensures ok <==> Total(old(View()).sizes) + size <= pool.limit
      ensures View() == if ok then old(View()).(sizes := old(pool.alloced)[bulk := size], held := old(held) + {bulk})
                        else old(View())
    {
      var data := pool.Alloc(bulk, size);
      ok := data != Null;
      if ok {
        held := held + {bulk};
      }
    }

    /** Tries again after each recycling, and gives up when there is nothing to recycle. */
    method AllocOrRecycle(bulk: Bulk, size: nat) returns (ok: bool)
      requires Valid() && bulk !in pool.alloced
      modifies this`held, pool, queue`pieces
      ensures Valid() && (View(), ok) == Allocated(old(View()), bulk, size)
    {
      AllocKeeps(View(), bulk, size);
      ok := AllocAgain(bulk, size);
      while !ok
        invariant pool.Valid() && queue.Cached()
        invariant if ok then (View(), true) == Allocated(old(View()), bulk, size)
                  else && Sound(View()) && bulk !in pool.alloced && Total(View().sizes) + size > pool.limit
                       && Allocated(View(), bulk, size) == Allocated(old(View()), bulk, size)
        decreases !ok, |queue.pieces|
      {
        var ret := Recycle();
        if !ret {
          return false;
        }
        ok := AllocAgain(bulk, size);
      }
    }

    /** A buffer that fits costs no queued bulk, and no bulk goes that need not. */
    method AllocOscRawData(bulk: Bulk, size: nat) returns (ok: bool)
      requires Valid() && bulk !in pool.alloced
      modifies this`held, pool, queue`pieces
      ensures Valid() && (View(), ok) == Allocated(old(View()), bulk, size)
      ensures Total(old(pool.alloced)) + size <= pool.limit ==> ok && queue.pieces == old(queue.pieces)
      ensures queue.pieces != old(queue.pieces) ==> LastOneNeeded(old(View()), queue.pieces, size)
    {
      AllocSpares(View(), bulk, size);
      ok := AllocOrRecycle(bulk, size);
    }
  }

  /** Dropping one entry frees at most its own buffer. */
  lemma OneLess(d: Depot, i: nat)
    requires Sound(d) && i < |d.q.pieces|
    ensures var rest, bulk := Dropped(d.q.pieces, i), d.q.pieces[i].bulk;
            && bulk in d.sizes
            && Part(d.sizes, Queued(rest) + d.held)
               == if bulk in d.held || bulk in Queued(rest) then d.sizes else d.sizes - {bulk}
  {
    var rest := Dropped(d.q.pieces, i);
    assert d.q.pieces[i] in d.q.pieces;
    DroppedAt(d.q.pieces, i);
    assert Queued(d.q.pieces) == Queued(rest) + {d.q.pieces[i].bulk};
  }
}

/** The same loop while other threads read, wait, register, leave and drop references between its
    steps. Only the collecter pushes to this queue and recycles from it. */
module AllocTurns {
  import opened Sequences
  import opened BulkQueue
  import opened BulkQueueEffects
  import opened BulkQueueProtocol
  import opened MemoryUsagePools
  import opened OscDataCollecters

  datatype Stage = Trying | Recycling | Succeeded | Failed

  datatype Store = Store(w: World, held: set<Bulk>, sizes: map<Bulk, nat>, limit: nat, stage: Stage)

  /** Turn is the collecter's next step, Others a step of another thread after which held is what is
      referred to outside the queue. */
  datatype Event = Turn | Others(m: Move, held: set<Bulk>)

  function DepotOf(s: Store): Depot {
    Depot(s.w.q, s.held, s.sizes, s.limit)
  }

  function Stored(s: Store, d: Depot, stage: Stage): Store {
    Store(s.w.(q := d.q), d.held, d.sizes, d.limit, stage)
  }

  /** References come from the queue or from other references. */
  ghost predicate Possible(s: Store, e: Event) {
    match e
    case Turn => s.stage.Trying? || s.stage.Recycling?
    case Others(m, held) =>
      && Enabled(s.w, m) && !m.Push? && !m.Recycle?
      && held <= s.held + Queued(s.w.q.pieces)
  }

  ghost function TurnTaken(s: Store, b: Bulk, size: nat): Store {
    var d := DepotOf(s);
    if s.stage.Trying? then
      if Total(s.sizes) + size <= s.limit
      then Stored(s, d.(sizes := d.sizes[b := size], held := d.held + {b}), Succeeded)
      else s.(stage := Recycling)
    else if Recycled(d.q).1 then Stored(s, RecycleStep(d), Trying)
    else s.(stage := Failed)
  }

  ghost function Happen(s: Store, e: Event, b: Bulk, size: nat): Store
    requires Possible(s, e) && s.w.q.counts.Keys == s.w.readers.Keys
  {
    match e
    case Turn => TurnTaken(s, b, size)
    case Others(m, held) =>
      var s' := s.(w := Apply(s.w, m), held := held);
      Stored(s', Settled(DepotOf(s')), s.stage)
  }

  ghost predicate Consistent(s: Store) {
    Inv(s.w) && Sound(DepotOf(s))
  }

  lemma OthersLeaveLess(s: Store, m: Move, w': World)
    requires Inv(s.w) && Enabled(s.w, m) && !m.Push? && !m.Recycle? && w' == Apply(s.w, m)
    ensures Inv(w') && |w'.q.pieces| <= |s.w.q.pieces| && forall p :: p in w'.q.pieces ==> p in s.w.q.pieces
  {
    InvKept(s.w, m, w');
    if !m.Register? {
      OthersDrain(s.w, m, w');
    }
  }

  lemma OtherKeeps(s: Store, m: Move, held: set<Bulk>, w': World)
    requires Consistent(s) && Possible(s, Others(m, held)) && w' == Apply(s.w, m)
    ensures Sound(Settled(DepotOf(s.(w := w', held := held))))
  {
    OthersLeaveLess(s, m, w');
    LessIsSound(DepotOf(s), w'.q, held);
  }

  lemma LessIsSound(d: Depot, q: Queue, held: set<Bulk>)
    requires Sound(d) && Increasing(q.pieces) && forall p :: p in q.pieces ==> p in d.q.pieces
    requires held <= d.held + Queued(d.q.pieces)
    ensures Sound(Settled(d.(q := q, held := held)))
  {
    TotalPart(d.sizes, Queued(q.pieces) + held);
  }

  lemma TurnKeeps(s: Store, b: Bulk, size: nat)
    requires Consistent(s) && Possible(s, Turn) && b !in s.sizes
    ensures Consistent(TurnTaken(s, b, size))
    ensures !TurnTaken(s, b, size).stage.Succeeded? ==> b !in TurnTaken(s, b, size).sizes
  {
    var d := DepotOf(s);
    if s.stage.Trying? {
      TotalAdd(d.sizes, b, size);
    } else if Recycled(d.q).1 {
      StepKeeps(d);
      RecycleFits(s.w);
    }
  }

  /** Steps that the collecter may still have to take. */
  function StepsLeft(s: Store): nat {
    match s.stage
    case Trying => 2 * |s.w.q.pieces| + 2
    case Recycling => 2 * |s.w.q.pieces| + 1
    case _ => 0
  }

  lemma TurnShortens(s: Store, b: Bulk, size: nat)
    requires Consistent(s) && Possible(s, Turn)
    ensures StepsLeft(TurnTaken(s, b, size)) < StepsLeft(s)
  {
    if s.stage.Recycling? && Recycled(s.w.q).1 {
      var v := Victim(s.w.q.pieces, MinOf(s.w.q.counts), MaxOf(s.w.q.counts));
      assert |Dropped(s.w.q.pieces, v)| == |s.w.q.pieces| - 1;
    }
  }

  // ----- whole runs

  ghost predicate StoreStep(s: Store, e: Event, b: Bulk, size: nat, s': Store) {
    s.w.q.counts.Keys == s.w.readers.Keys && Possible(s, e) && s' == Happen(s, e, b, size)
  }

  /** One call of AllocOscRawData from a consistent state on, with any steps of others in between. */
  ghost predicate IsAlloc(ss: seq<Store>, es: seq<Event>, b: Bulk, size: nat) {
    && |ss| == |es| + 1 && Consistent(ss[0]) && ss[0].stage.Trying? && b !in ss[0].sizes
    && forall k {:trigger es[k]} :: 0 <= k < |es| ==> StoreStep(ss[k], es[k], b, size, ss[k + 1])
  }

  lemma StepKeepsStore(s: Store, e: Event, b: Bulk, size: nat, s': Store)
    requires Consistent(s) && StoreStep(s, e, b, size, s') && (!s.stage.Succeeded? ==> b !in s.sizes)
    ensures Consistent(s') && (!s'.stage.Succeeded? ==> b !in s'.sizes)
    ensures StepsLeft(s') <= StepsLeft(s) - if e.Turn? then 1 else 0
  {
    match e
    case Turn =>
      TurnKeeps(s, b, size);
      TurnShortens(s, b, size);
    case Others(m, held) =>
      OthersLeaveLess(s, m, Apply(s.w, m));
      OtherKeeps(s, m, held, Apply(s.w, m));
  }

  function Turns(es: seq<Event>, n: nat): nat
    requires n <= |es|
  {
    if n == 0 then 0 else Turns(es, n - 1) + if es[n - 1].Turn? then 1 else 0
  }

  lemma {:induction false} AllocRun(ss: seq<Store>, es: seq<Event>, b: Bulk, size: nat, n: nat)
    requires IsAlloc(ss, es, b, size) && n <= |es|
    ensures Consistent(ss[n]) && (!ss[n].stage.Succeeded? ==> b !in ss[n].sizes)
    ensures Turns(es, n) + StepsLeft(ss[n]) <= 2 * |ss[0].w.q.pieces| + 2
  {
    if n == 0 {
    } else {
      AllocRun(ss, es, b, size, n - 1);
      var e := es[n - 1];
      StepKeepsStore(ss[n - 1], e, b, size, ss[n]);
    }
  }

  /** The collecter is done after at most two steps for each entry queued at the start, and two more,
      whatever the others do; the pool's limit is kept throughout. */
  lemma AllocEnds(ss: seq<Store>, es: seq<Event>, b: Bulk, size: nat)
    requires IsAlloc(ss, es, b, size)
    ensures Turns(es, |es|) <= 2 * |ss[0].w.q.pieces| + 2
    ensures Total(ss[|es|].sizes) <= ss[|es|].limit
  {
    AllocRun(ss, es, b, size, |es|);
  }

  /** How far an undisturbed call has come towards what the specification says. */
  ghost predicate OnTheWay(s: Store, b: Bulk, size: nat, res: (Depot, bool)) {
    match s.stage
    case Trying => Allocated(DepotOf(s), b, size) == res
    case Recycling => Allocated(DepotOf(s), b, size) == res && Total(s.sizes) + size > s.limit
    case Succeeded => res == (DepotOf(s), true)
    case Failed => res == (DepotOf(s), false)
  }

  lemma TurnGoesOn(s: Store, b: Bulk, size: nat, s': Store, res: (Depot, bool))
    requires Possible(s, Turn) && s' == TurnTaken(s, b, size) && OnTheWay(s, b, size, res)
    ensures OnTheWay(s', b, size, res)
  {
  }

  /** When no other thread interferes the steps of the loop amount to what the specification says. */
  lemma {:induction false} UndisturbedAlloc(ss: seq<Store>, es: seq<Event>, b: Bulk, size: nat, n: nat)
    requires IsAlloc(ss, es, b, size) && n <= |es| && forall k :: 0 <= k < n ==> es[k].Turn?
    ensures OnTheWay(ss[n], b, size, Allocated(DepotOf(ss[0]), b, size))
  {
    if n == 0 {
    } else {
      UndisturbedAlloc(ss, es, b, size, n - 1);
      var e := es[n - 1];
      TurnGoesOn(ss[n - 1], b, size, ss[n], Allocated(DepotOf(ss[0]), b, size));
    }
  }

  /** A try succeeds exactly when the buffer fits. A recycling gives up exactly when no reader exists or
      nothing lies beyond the slowest; then only pinned buffers are left, and giving up was right
      exactly when the buffer does not fit by now. */
  lemma TurnDecides(s: Store, b: Bulk, size: nat)
    requires Consistent(s) && Possible(s, Turn)
    ensures var s', pinned := TurnTaken(s, b, size), Total(Part(s.sizes, Pinned(DepotOf(s))));
            && (s'.stage.Succeeded? <==> s.stage.Trying? && Total(s.sizes) + size <= s.limit)
            && (s'.stage.Succeeded? ==> pinned + size <= s.limit)
            && (s'.stage.Failed? <==> s.stage.Recycling? && Spent(s.w.q))
            && (s'.stage.Failed? ==> (pinned + size > s.limit <==> Total(s.sizes) + size > s.limit))
  {
    var d := DepotOf(s);
    RecycleMeans(d.q);
    TotalPart(s.sizes, Pinned(d));
    if !Recycled(d.q).1 {
      AllPinned(d);
    }
  }

  /** When no other step falls between a failed try and the recycling that follows, giving up is right:
      the buffer does not fit beside the pinned ones. */
  lemma GivingUpIsRight(ss: seq<Store>, es: seq<Event>, b: Bulk, size: nat, n: nat)
    requires IsAlloc(ss, es, b, size) && 2 <= n <= |es| && es[n - 2].Turn? && es[n - 1].Turn? && ss[n].stage.Failed?
    ensures Total(Part(ss[n].sizes, Pinned(DepotOf(ss[n])))) + size > ss[n].limit
  {
    AllocRun(ss, es, b, size, n - 2);
    var e, f := es[n - 2], es[n - 1];
    TwoTurns(ss[n - 2], ss[n - 1], ss[n], b, size);
  }

  lemma TwoTurns(s: Store, s1: Store, s2: Store, b: Bulk, size: nat)
    requires Consistent(s) && StoreStep(s, Turn, b, size, s1) && StoreStep(s1, Turn, b, size, s2) && s2.stage.Failed?
    ensures Total(Part(s2.sizes, Pinned(DepotOf(s2)))) + size > s2.limit
  {
    assert s1 == s.(stage := Recycling) && s2 == s1.(stage := Failed);
    TurnDecides(s1, b, size);
  }

  lemma FirstPush(w: World, r: ReaderId, b: Bulk)
    requires Inv(w) && w.q == Queue([], 0, map[r := -1], false) && w.pending == map[]
    ensures Pushed(w, b).q == Queue([Piece(b, 0)], 1, map[r := -1], false)
  {
    NobodyWaits(w, b);
    NewcomerNeedsAll(w, r);
    PushGrowsExactly(w, b);
    PushedQueue(w, b);
    var q := Appended(w.q, b).(counts := Pushed(w, b).q.counts);
    ReleaseShrinks(q);
    assert Release(q).pieces[0] in Release(q).pieces;
    assert q.pieces == [Piece(b, 0)];
  }

  /** One reader and one bulk that it has not read. */
  lemma OneUnread(r: ReaderId, b: Bulk) returns (w: World)
    ensures Inv(w) && w.q == Queue([Piece(b, 0)], 1, map[r := -1], false)
    ensures w.readers == map[r := Reader(0, false, [], true, Idle)] && w.pending == map[]
    ensures exists ws: seq<World>, ms: seq<Move> :: BulkQueueProtocol.IsRun(ws, ms) && ws[|ms|] == w
  {
    var w0 := World(Queue([], 0, map[], false), map[], map[], [], false);
    var w1 := Registered(w0, r);
    RegisterFits(w0, r);
    PushFits(w1, b);
    w := Pushed(w1, b);
    NobodyWaits(w1, b);
    FirstPush(w1, r, b);
    var ws, ms := [w0, w1, w], [Register(r), Push(b)];
    assert BulkQueueProtocol.IsRun(ws, ms) && ws[|ms|] == w;
  }

  /** In general it is not right: a reader that takes the only bulk between the failed try and the
      recycling, and drops it, empties the pool; the recycling then finds nothing and gives up,
      although the buffer fits. */
  lemma ReaderDefeatsAlloc() returns (ss: seq<Store>, es: seq<Event>, b: Bulk, size: nat)
    ensures IsAlloc(ss, es, b, size) && ss[|es|].stage.Failed?
    ensures Total(ss[|es|].sizes) + size <= ss[|es|].limit
  {
    var r, first := ReaderId(0), Bulk(0);
    b, size := Bulk(1), 1;
    var w := OneUnread(r, first);
    var s0 := Store(w, {}, map[first := 1], 1, Trying);
    TotalTake(s0.sizes, first);
    assert s0.sizes - {first} == map[];
    assert w.q.pieces[0] in w.q.pieces;
    var s1 := s0.(stage := Recycling);
    var s2 := AfterRead(s1, r, first);
    var s3 := s2.(stage := Failed);
    RecycleMeans(s2.w.q);
    ss, es := [s0, s1, s2, s3], [Turn, Others(Read(r), {}), Turn];
  }

  lemma AfterRead(s: Store, r: ReaderId, b: Bulk) returns (s': Store)
    requires Inv(s.w) && s.w.q.pieces == [Piece(b, 0)] && s.w.q.counts == map[r := -1] && s.w.q.total == 1
    requires s.w.readers == map[r := Reader(0, false, [], true, Idle)] && s.held == {}
    ensures Possible(s, Others(Read(r), {})) && s' == Happen(s, Others(Read(r), {}), Bulk(1), 1)
    ensures s'.w.q.pieces == [] && s'.sizes == map[] && s'.stage == s.stage && s'.limit == s.limit
    ensures s'.w.q.counts.Keys == s'.w.readers.Keys
  {
    s' := Happen(s, Others(Read(r), {}), Bulk(1), 1);
    var p := Piece(b, 0);
    assert s.w.q.pieces[0] == p && Found(s.w.q, 0) && Find(s.w.q, 0) == p;
    var counts := s.w.q.counts[r := 0];
    assert IsMin(counts, MinOf(counts)) && MinOf(counts) == 0;
    KeepNone(s.w.q.pieces, (x: Piece) => x.count > 0);
    assert s'.w.q.pieces == Above(s.w.q.pieces, 0);
  }
}
