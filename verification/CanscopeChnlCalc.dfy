/** The feed of the user interface in canscope/app/canscope_chnl_calc.cc: MayNotifyUI takes the
    queue's lock for each of its steps, and readers act between them. Nobody else pushes to this
    queue or recycles from it. */
module UiFeed {
  import opened Sequences
  import opened BulkQueue
  import opened BulkQueueEffects
  import opened BulkQueueProtocol

  const MAX_FREQ: real := 60.0
  const MIN_FREQ: real := 5.0
  const FREQ_STEP: real := 2.0
  const UI_QUEUE_MAX_SIZE: nat := 2

  /** How far a call of MayNotifyUI has come. */
  datatype Phase = Outside | Over | NotOver | AfterRecycle | AfterCheck

  datatype Feed = Feed(w: World, freq: real, phase: Phase)

  function Lowered(freq: real): (f: real)
    requires freq >= MIN_FREQ
    ensures MIN_FREQ <= f <= freq
  {
    if freq - FREQ_STEP < MIN_FREQ then MIN_FREQ else freq - FREQ_STEP
  }

  function Raised(freq: real): (f: real)
    requires freq <= MAX_FREQ
    ensures freq <= f <= MAX_FREQ
  {
    if freq + FREQ_STEP > MAX_FREQ then MAX_FREQ else freq + FREQ_STEP
  }

  function Max(a: real, b: real): real {
    if a < b then b else a
  }

  function Min(a: real, b: real): real {
    if a < b then a else b
  }

  ghost predicate InRange(u: Feed) {
    MIN_FREQ <= u.freq <= MAX_FREQ
  }

  /** The next step of the call that publishes b. */
  ghost function Advance(u: Feed, b: Bulk): Feed
    requires InRange(u)
  {
    match u.phase
    case Outside => u.(phase := if |u.w.q.pieces| > UI_QUEUE_MAX_SIZE then Over else NotOver)
    case Over => u.(w := u.w.(q := Recycled(u.w.q).0), freq := Lowered(u.freq), phase := AfterRecycle)
    case NotOver => u.(freq := if |u.w.q.pieces| == 0 then Raised(u.freq) else u.freq, phase := AfterCheck)
    case _ => u.(w := Pushed(u.w, b), phase := Outside)
  }

  datatype Event = Notify(b: Bulk) | Other(m: Move)

  ghost predicate Possible(u: Feed, e: Event) {
    e.Other? ==> Enabled(u.w, e.m) && !e.m.Push? && !e.m.Recycle?
  }

  /** No reader registers while the queue is full after a recycling. */
  ghost predicate Timely(u: Feed, e: Event) {
    e.Other? && e.m.Register? && u.phase.AfterRecycle? ==> |u.w.q.pieces| <= UI_QUEUE_MAX_SIZE
  }

  ghost function Happen(u: Feed, e: Event): Feed
    requires InRange(u) && Possible(u, e) && u.w.q.counts.Keys == u.w.readers.Keys
  {
    match e
    case Notify(b) => Advance(u, b)
    case Other(m) => u.(w := Apply(u.w, m))
  }

  // ----- the invariant

  /** Holds in every run. */
  ghost predicate Sane(u: Feed) {
    && Inv(u.w) && !u.w.q.keepIfNoReader && InRange(u)
    && (u.phase.NotOver? || u.phase.AfterCheck? ==> |u.w.q.pieces| <= UI_QUEUE_MAX_SIZE)
  }

  /** Holds while readers register timely. */
  ghost predicate Bounded(u: Feed) {
    && Sane(u)
    && |u.w.q.pieces| <= UI_QUEUE_MAX_SIZE + 1
    && (u.phase.AfterRecycle? ==> |u.w.q.pieces| <= UI_QUEUE_MAX_SIZE || Spent(u.w.q))
  }

  lemma SpentKept(q: Queue, q': Queue)
    requires Spent(q) && Drains(q, q')
    ensures Spent(q')
  {
    if q'.counts.Keys != {} {
      MinGrows(q.counts, q'.counts);
    }
  }

  lemma PushGrowsByOne(w: World, b: Bulk)
    requires Inv(w) && !w.q.keepIfNoReader
    ensures |Pushed(w, b).q.pieces| <= |w.q.pieces| + 1
    ensures Spent(w.q) ==> |Pushed(w, b).q.pieces| <= 1
  {
    PushedQueue(w, b);
    var q' := Pushed(w, b).q;
    if q'.counts.Keys != {} {
      var lo := MinOf(q'.counts);
      MinGrows(w.q.counts, q'.counts);
      KeepAppend(w.q.pieces, [Piece(b, w.q.total)], (p: Piece) => p.count > lo);
      KeepShrinks(w.q.pieces, (p: Piece) => p.count > lo);
      if Spent(w.q) {
        KeepNone(w.q.pieces, (p: Piece) => p.count > lo);
      }
    }
  }

  /** A recycling makes room, or nothing is left that the next release would keep. */
  lemma RecycledOrSpent(w: World)
    requires Inv(w)
    ensures |Recycled(w.q).0.pieces| < |w.q.pieces| || Spent(Recycled(w.q).0)
    ensures |Recycled(w.q).0.pieces| <= |w.q.pieces|
  {
    RecycleMeans(w.q);
  }

  lemma AdvanceSane(u: Feed, b: Bulk)
    requires Sane(u)
    ensures Sane(Advance(u, b))
  {
    if u.phase.Over? {
      RecycleFits(u.w);
    } else if u.phase.AfterRecycle? || u.phase.AfterCheck? {
      PushFits(u.w, b);
      PushedQueue(u.w, b);
    }
  }

  lemma AdvanceKeeps(u: Feed, b: Bulk)
    requires Bounded(u)
    ensures Bounded(Advance(u, b))
  {
    AdvanceSane(u, b);
    if u.phase.Over? {
      RecycledOrSpent(u.w);
    } else if u.phase.AfterRecycle? || u.phase.AfterCheck? {
      PushGrowsByOne(u.w, b);
    }
  }

  lemma OtherShrinks(u: Feed, m: Move, w': World)
    requires Sane(u) && Possible(u, Other(m)) && w' == Apply(u.w, m)
    ensures Sane(u.(w := w')) && |w'.q.pieces| <= |u.w.q.pieces|
    ensures !m.Register? ==> Drains(u.w.q, w'.q)
  {
    InvKept(u.w, m, w');
    if !m.Register? {
      OthersDrain(u.w, m, w');
    }
  }

  lemma OtherKeeps(u: Feed, m: Move, w': World)
    requires Bounded(u) && Possible(u, Other(m)) && Timely(u, Other(m)) && w' == Apply(u.w, m)
    ensures Bounded(u.(w := w'))
  {
    OtherShrinks(u, m, w');
    if !m.Register? && u.phase.AfterRecycle? && Spent(u.w.q) {
      SpentKept(u.w.q, w'.q);
    }
  }

  lemma HappenKeeps(u: Feed, e: Event, u': Feed)
    requires Bounded(u) && Possible(u, e) && Timely(u, e) && u' == Happen(u, e)
    ensures Bounded(u')
  {
    match e
    case Notify(b) => AdvanceKeeps(u, b);
    case Other(m) => OtherKeeps(u, m, u'.w);
  }

  // ----- whole runs

  ghost predicate FeedStep(u: Feed, e: Event, u': Feed) {
    InRange(u) && u.w.q.counts.Keys == u.w.readers.Keys && Possible(u, e) && u' == Happen(u, e)
  }

  ghost predicate FeedStarts(u: Feed) {
    Starts(u.w) && !u.w.q.keepIfNoReader && u.freq == MAX_FREQ && u.phase.Outside?
  }

  ghost predicate IsFeedRun(us: seq<Feed>, es: seq<Event>) {
    && |us| == |es| + 1 && FeedStarts(us[0])
    && forall k {:trigger es[k]} :: 0 <= k < |es| ==> FeedStep(us[k], es[k], us[k + 1])
  }

  lemma StartIsSound(w: World)
    requires Starts(w)
    ensures Inv(w)
  {
  }

  /** The queue never holds more than three results and the frequency stays within its limits,
      however the readers' steps fall between those of the calls, if they register timely. */
  lemma {:induction false} FeedStaysBounded(us: seq<Feed>, es: seq<Event>, n: nat)
    requires IsFeedRun(us, es) && n <= |es|
    requires forall k :: 0 <= k < n ==> Timely(us[k], es[k])
    ensures Bounded(us[n])
  {
    if n == 0 {
      StartIsSound(us[0].w);
    } else {
      FeedStaysBounded(us, es, n - 1);
      var e := es[n - 1];
      HappenKeeps(us[n - 1], e, us[n]);
    }
  }

  lemma StepSane(u: Feed, e: Event, u': Feed)
    requires Sane(u) && FeedStep(u, e, u')
    ensures Sane(u')
  {
    match e
    case Notify(b) => AdvanceSane(u, b);
    case Other(m) => OtherShrinks(u, m, u'.w);
  }

  lemma {:induction false} FeedStaysSane(us: seq<Feed>, es: seq<Event>, n: nat)
    requires IsFeedRun(us, es) && n <= |es|
    ensures Sane(us[n])
  {
    if n == 0 {
      StartIsSound(us[0].w);
    } else {
      FeedStaysSane(us, es, n - 1);
      var e := es[n - 1];
      StepSane(us[n - 1], e, us[n]);
    }
  }

  predicate Short(u: Feed) {
    |u.w.q.pieces| <= UI_QUEUE_MAX_SIZE + 1
  }

  /** The step is a push onto a full queue of which some reader needs every entry. */
  ghost predicate PushesOver(u: Feed, e: Event) {
    e.Notify? && u.phase.AfterRecycle? && |u.w.q.pieces| == UI_QUEUE_MAX_SIZE + 1 && SomeNeedsAll(u.w)
  }

  lemma StepExact(u: Feed, e: Event, u': Feed)
    requires Sane(u) && Short(u) && FeedStep(u, e, u')
    ensures Short(u') <==> !PushesOver(u, e)
  {
    match e
    case Notify(b) =>
      if u.phase.Over? {
        RecycledOrSpent(u.w);
      } else if u.phase.AfterRecycle? || u.phase.AfterCheck? {
        PushGrowsByOne(u.w, b);
        PushGrowsExactly(u.w, b);
      }
    case Other(m) => OtherShrinks(u, m, u'.w);
  }

  lemma RunStepExact(us: seq<Feed>, es: seq<Event>, n: nat)
    requires IsFeedRun(us, es) && n < |es| && Short(us[n])
    ensures Short(us[n + 1]) <==> !PushesOver(us[n], es[n])
  {
    FeedStaysSane(us, es, n);
    var e := es[n];
    StepExact(us[n], e, us[n + 1]);
  }

  /** Each step from a short queue leaves it short exactly when it does not push over. */
  ghost predicate StepsExact(us: seq<Feed>, es: seq<Event>) {
    && |us| == |es| + 1 && Short(us[0])
    && forall k {:trigger PushesOver(us[k], es[k])} :: 0 <= k < |es| && Short(us[k]) ==>
         (Short(us[k + 1]) <==> !PushesOver(us[k], es[k]))
  }

  lemma {:induction false} ShortExact(us: seq<Feed>, es: seq<Event>, n: nat)
    requires StepsExact(us, es) && n <= |es|
    ensures (forall k :: 0 <= k <= n ==> Short(us[k])) <==> (forall k :: 0 <= k < n ==> !PushesOver(us[k], es[k]))
  {
    if n == 0 {
    } else {
      ShortExact(us, es, n - 1);
      assert Short(us[n - 1]) ==> (Short(us[n - 1 + 1]) <==> !PushesOver(us[n - 1], es[n - 1]));
    }
  }

  /** Exactly when the bound holds: a run never exceeds three results if and only if it never
      pushes onto a full queue of which some reader that the push does not serve needs every entry. */
  lemma BoundExact(us: seq<Feed>, es: seq<Event>)
    requires IsFeedRun(us, es)
    ensures (forall k :: 0 <= k <= |es| ==> Short(us[k])) <==>
              (forall k :: 0 <= k < |es| ==> !PushesOver(us[k], es[k]))
  {
    forall k | 0 <= k < |es| && Short(us[k]) ensures Short(us[k + 1]) <==> !PushesOver(us[k], es[k]) {
      RunStepExact(us, es, k);
    }
    ShortExact(us, es, |es|);
  }

  // ----- the rate control

  /** The frequency that a call leaves which found before results in the queue when it looked first,
      and now results when it looked again. */
  function Controlled(freq: real, before: nat, now: nat): real {
    if before > UI_QUEUE_MAX_SIZE then Max(MIN_FREQ, freq - FREQ_STEP)
    else if now == 0 then Min(MAX_FREQ, freq + FREQ_STEP)
    else freq
  }

  lemma OthersLeaveRate(u: Feed, e: Event, u': Feed)
    requires e.Other? && FeedStep(u, e, u')
    ensures u'.freq == u.freq && u'.phase == u.phase
  {
  }

  lemma {:induction false} RateStays(us: seq<Feed>, es: seq<Event>, i: nat, j: nat)
    requires IsFeedRun(us, es) && i <= j <= |es|
    requires forall k :: i <= k < j ==> !es[k].Notify?
    ensures us[j].freq == us[i].freq && us[j].phase == us[i].phase
    decreases j - i
  {
    if i == j {
    } else {
      RateStays(us, es, i, j - 1);
      var e := es[j - 1];
      OthersLeaveRate(us[j - 1], e, us[j]);
    }
  }

  /** In every run the frequency goes down by one step, to the lower limit at most, when a call finds
      more than two results, goes up by one step, to the upper limit at most, when it finds none, and
      stays otherwise; i and j are the first two steps of the call, whatever readers do in between. */
  lemma RateControlled(us: seq<Feed>, es: seq<Event>, i: nat, j: nat)
    requires IsFeedRun(us, es) && i < j < |es| && es[i].Notify? && es[j].Notify? && us[i].phase.Outside?
    requires forall k :: i < k < j ==> !es[k].Notify?
    ensures us[j + 1].freq == Controlled(us[i].freq, |us[i].w.q.pieces|, |us[j].w.q.pieces|)
  {
    var e, f := es[i], es[j];
    assert FeedStep(us[i], e, us[i + 1]) && FeedStep(us[j], f, us[j + 1]);
    RateStays(us, es, i + 1, j);
  }

  /** The push that ends a call does not touch it. */
  lemma PushLeavesRate(us: seq<Feed>, es: seq<Event>, j: nat)
    requires IsFeedRun(us, es) && j < |es| && (us[j].phase.AfterRecycle? || us[j].phase.AfterCheck?)
    ensures us[j + 1].freq == us[j].freq
  {
    var e := es[j];
    assert FeedStep(us[j], e, us[j + 1]);
  }

  // ----- a run that exceeds the bound

  ghost predicate Reached(u: Feed) {
    exists us: seq<Feed>, es: seq<Event> :: IsFeedRun(us, es) && us[|es|] == u
  }

  lemma ReachedNext(u: Feed, e: Event, u': Feed)
    requires Reached(u) && FeedStep(u, e, u')
    ensures Reached(u')
  {
    var us: seq<Feed>, es: seq<Event> :| IsFeedRun(us, es) && us[|es|] == u;
    var us', es' := us + [u'], es + [e];
    forall k | 0 <= k < |es'| ensures FeedStep(us'[k], es'[k], us'[k + 1]) {
      if k < |es| {
        assert es'[k] == es[k] && us'[k] == us[k] && us'[k + 1] == us[k + 1];
      }
    }
    assert IsFeedRun(us', es') && us'[|es'|] == u';
  }

  lemma ReachedSane(u: Feed)
    requires Reached(u)
    ensures Sane(u)
  {
    var us: seq<Feed>, es: seq<Event> :| IsFeedRun(us, es) && us[|es|] == u;
    FeedStaysSane(us, es, |es|);
  }

  /** One reader that has read nothing and waits for nothing, and n retained results. */
  ghost predicate Filling(u: Feed, r: ReaderId, n: nat) {
    && Reached(u) && u.phase.Outside? && |u.w.q.pieces| == n
    && u.w.readers.Keys == {r} && u.w.readers[r].pc.Idle? && u.w.q.counts == map[r := -1] && u.w.pending == map[]
  }

  /** An undisturbed call onto a queue that is not over. */
  lemma FillOne(u: Feed, r: ReaderId, n: nat, b: Bulk) returns (u': Feed)
    requires Filling(u, r, n) && n <= UI_QUEUE_MAX_SIZE
    ensures Filling(u', r, n + 1)
  {
    ReachedSane(u);
    var u1 := Advance(u, b);
    ReachedNext(u, Notify(b), u1);
    var u2 := Advance(u1, b);
    ReachedNext(u1, Notify(b), u2);
    u' := Advance(u2, b);
    ReachedNext(u2, Notify(b), u');
    NobodyWaits(u.w, b);
    NewcomerNeedsAll(u.w, r);
    PushGrowsExactly(u.w, b);
  }

  lemma FirstReader(r: ReaderId) returns (u: Feed)
    ensures Filling(u, r, 0)
  {
    var w := World(Queue([], 0, map[], false), map[], map[], [], false);
    var u0 := Feed(w, MAX_FREQ, Outside);
    assert IsFeedRun([u0], []);
    u := Feed(Registered(w, r), MAX_FREQ, Outside);
    ReachedNext(u0, Other(Register(r)), u);
  }

  /** The only reader leaves and the next call recycles. */
  lemma ReaderLeaves(u: Feed, r: ReaderId, b: Bulk) returns (u3: Feed)
    requires Filling(u, r, UI_QUEUE_MAX_SIZE + 1)
    ensures Reached(u3) && u3.phase.AfterRecycle? && |u3.w.q.pieces| == UI_QUEUE_MAX_SIZE + 1
    ensures u3.w.readers.Keys == {}
  {
    ReachedSane(u);
    var u1 := u.(w := Unregistered(u.w, r));
    ReachedNext(u, Other(Unregister(r)), u1);
    var u2 := Advance(u1, b);
    ReachedNext(u1, Notify(b), u2);
    u3 := Advance(u2, b);
    ReachedNext(u2, Notify(b), u3);
  }

  lemma LateReader(u: Feed, r: ReaderId, b: Bulk) returns (u2: Feed)
    requires Reached(u) && u.phase.AfterRecycle? && |u.w.q.pieces| == UI_QUEUE_MAX_SIZE + 1
    requires u.w.readers.Keys == {}
    ensures Reached(u2) && |u2.w.q.pieces| == UI_QUEUE_MAX_SIZE + 2
  {
    ReachedSane(u);
    var u1 := u.(w := Registered(u.w, r));
    ReachedNext(u, Other(Register(r)), u1);
    ReachedSane(u1);
    u2 := Advance(u1, b);
    ReachedNext(u1, Notify(b), u2);
    NewcomerNeedsAll(u1.w, r);
    PushGrowsExactly(u1.w, b);
  }

  /** The bound is exceeded: three results are published for a reader that reads none and leaves; the
      next call finds the queue over its limit and can recycle nothing, for there is no reader; one
      that registers now makes the push keep a fourth result. */
  lemma LateReaderOverflows() returns (u: Feed)
    ensures Reached(u) && |u.w.q.pieces| == UI_QUEUE_MAX_SIZE + 2
  {
    var r, b := ReaderId(0), Bulk(0);
    u := FirstReader(r);
    u := FillOne(u, r, 0, b);
    u := FillOne(u, r, 1, b);
    u := FillOne(u, r, 2, b);
    u := ReaderLeaves(u, r, b);
    u := LateReader(u, r, b);
  }
}

/** MayNotifyUI itself, as it changes the two queues and the frequency when no reader interferes. */
module CanscopeChnlCalcs {
  import opened BulkQueue
  import opened BulkQueueProtocol
  import opened SequencedBulkQueues
  import opened UiFeed

  /** The three steps of one call. */
  ghost function Call(u: Feed, b: Bulk): Feed
    requires InRange(u) && u.phase.Outside?
  {
    Advance(Advance(Advance(u, b), b), b)
  }

  class CANScopeChnlCalc {
    const uiQueue: SequencedBulkQueue
    const chnlQueue: SequencedBulkQueue
    var freq: real

    ghost function View(): Feed
      reads this, uiQueue
    {
      Feed(uiQueue.View(), freq, Outside)
    }

    ghost predicate Valid()
      reads this, uiQueue, chnlQueue
    {
      && uiQueue != chnlQueue
      && uiQueue.Cached() && chnlQueue.Cached()
      && Sane(View()) && Inv(chnlQueue.View())
    }

    constructor ()
      ensures fresh(uiQueue) && fresh(chnlQueue) && uiQueue != chnlQueue
      ensures uiQueue.Cached() && Starts(uiQueue.View()) && !uiQueue.keepIfNoReader
      ensures chnlQueue.Cached() && Starts(chnlQueue.View()) && !chnlQueue.keepIfNoReader
      ensures freq == MAX_FREQ && Valid()
    {
      chnlQueue := new SequencedBulkQueue(false);
      uiQueue := new SequencedBulkQueue(false);
      freq := MAX_FREQ;
      new;
      StartIsSound(uiQueue.View());
      StartIsSound(chnlQueue.View());
    }

    /** The rate control, up to the push. */
    method Control()
      requires uiQueue.Cached() && InRange(View())
      modifies this, uiQueue`pieces
      ensures uiQueue.Cached()
      ensures View() == Advance(Advance(old(View()), Bulk(0)), Bulk(0)).(phase := Outside)
    {
      if |uiQueue.pieces| > UI_QUEUE_MAX_SIZE {
        var _, _ := uiQueue.RecycleOne();
        var f := freq - FREQ_STEP;
        if f < MIN_FREQ {
          f := MIN_FREQ;
        }
        freq := f;
      } else if |uiQueue.pieces| == 0 {
        var f := freq + FREQ_STEP;
        if f > MAX_FREQ {
          f := MAX_FREQ;
        }
        freq := f;
      }
    }

    /** All that concerns the user interface. */
    method Publish(result: Bulk)
      requires uiQueue.Cached() && Fits(uiQueue.View()) && InRange(View())
      modifies this, uiQueue
      ensures uiQueue.Cached() && View() == Call(old(View()), result)
      ensures freq == Controlled(old(freq), |old(uiQueue.pieces)|, |old(uiQueue.pieces)|)
    {
      ghost var w := uiQueue.View();
      Control();
      MayRecycleFits(w, uiQueue.View());
      uiQueue.PushBulk(result);
    }

    /** The second queue gets the result whatever the first has done with it. */
    method Record(result: Bulk)
      requires chnlQueue.Cached() && Inv(chnlQueue.View())
      modifies chnlQueue
      ensures chnlQueue.Cached() && Inv(chnlQueue.View())
      ensures chnlQueue.View() == Pushed(old(chnlQueue.View()), result)
    {
      PushFits(chnlQueue.View(), result);
      chnlQueue.PushBulk(result);
    }

    method MayNotifyUI(result: Bulk)
      requires Valid()
      modifies this, uiQueue, chnlQueue
      ensures View() == Call(old(View()), result)
      ensures chnlQueue.View() == Pushed(old(chnlQueue.View()), result)
      ensures freq == Controlled(old(freq), |old(uiQueue.pieces)|, |old(uiQueue.pieces)|)
      ensures Valid()
    {
      CallSane(View(), result);
      Publish(result);
      Record(result);
    }
  }

  /** A call leaves what the next call relies on. */
  lemma CallSane(u: Feed, b: Bulk)
    requires Sane(u) && u.phase.Outside?
    ensures Sane(Call(u, b)) && Call(u, b).phase.Outside?
  {
    AdvanceSane(u, b);
    AdvanceSane(Advance(u, b), b);
    AdvanceSane(Advance(Advance(u, b), b), b);
  }

  lemma MayRecycleFits(w: World, w': World)
    requires Fits(w) && (w' == w || w' == w.(q := Recycled(w.q).0))
    ensures Fits(w')
  {
    if Recycled(w.q).1 {
      DroppedMembers(w.q.pieces, Victim(w.q.pieces, MinOf(w.q.counts), MaxOf(w.q.counts)));
    }
  }
}
