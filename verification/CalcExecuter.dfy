/** The executer of depend_calc/calc_executer.cc together with the status machine of
    canscope/async_task.cc. Every lock-protected block is one atomic step; pool threads, the
    starting thread, the user's cancel and the message loop interleave freely. */
module ExecuterSpec {
  import opened Graphs
  import opened Sequences
  import opened CalcGroups
  import opened WalkerSpec

  /** What a task posts to the message loop of the thread that made it. */
  datatype Notice = NoticeStart | NoticeFinish | NoticeCancel

  datatype Status = NoStart | InRun | Canceled | Done

  /** The part of the executer and its task that the locks protect, the walker apart. */
  datatype Desk = Desk(notifyEnd: bool, refs: int, cancel: bool, posted: seq<Notice>)

  /** The terminal notice is posted by whoever finds notify_end_ unset, and only then. */
  function EndWith(d: Desk, notice: Notice): Desk {
    if d.notifyEnd then d
    else d.(notifyEnd := true, refs := d.refs - 1, posted := d.posted + [notice])
  }

  // ----- the lock-protected blocks

  /** The block of StartRun; go tells whether there is anything to run. */
  ghost predicate StartBlock(vs: set<Item>, es: set<Edge>, d: Desk, d': Desk, w': Walker, go: bool) {
    && Begins(vs, es, History(w', [], {}, {}))
    && go == !Finished(w')
    && d' == if go then d.(notifyEnd := false, refs := d.refs + 1, posted := d.posted + [NoticeStart])
             else d.(notifyEnd := true, posted := d.posted + [NoticeStart, NoticeFinish])
  }

  /** The block of StartAllRunnable; go tells whether the items taken are to be posted. */
  ghost predicate DispatchBlock(d: Desk, w: Walker, d': Desk, w': Walker, go: bool) {
    && go == !d.cancel
    && if go then d' == d && Next(w, StartAll, w') else d' == EndWith(d, NoticeCancel) && w' == w
  }

  /** The first block of RunItem; go tells whether the item is to run. */
  predicate EnterBlock(d: Desk, d': Desk, go: bool) {
    && go == !d.cancel
    && d' == if go then d else EndWith(d, NoticeCancel)
  }

  /** The second block of RunItem; go tells whether to look for more work. */
  ghost predicate LeaveBlock(d: Desk, w: Walker, item: Item, ok: bool, d': Desk, w': Walker, go: bool)
    requires item in w.current
  {
    && Next(w, Mark(item, ok), w')
    && go == !Finished(w')
    && d' == if go then d else EndWith(d, NoticeFinish)
  }

  // ----- the interleaved system

  /** Where a thread is between two blocks. A finished thread is not listed. */
  datatype Pc =
    | Begin                        // about to enter StartRun
    | Dispatching                  // about to enter StartAllRunnable
    | Posting(items: seq<Item>)    // handing the items taken to the pool, one by one
    | Queued(item: Item)           // posted to the pool, RunItem not begun
    | Running(item: Item)          // past the cancel test, the item computes

  datatype Exec = Exec(desk: Desk, h: History, threads: seq<Pc>,
                       delivered: nat, status: Status, checkFailed: bool)

  datatype Move =
    | UserCancel | Deliver
    | StartRun(i: nat) | Dispatch(i: nat) | Post(i: nat) | Return(i: nat)
    | Enter(i: nat) | Leave(i: nat, ok: bool)

  predicate Enabled(e: Exec, m: Move) {
    match m
    case UserCancel => true
    case Deliver => e.delivered < |e.desk.posted|
    case StartRun(i) => i < |e.threads| && e.threads[i].Begin?
    case Dispatch(i) => i < |e.threads| && e.threads[i].Dispatching?
    case Post(i) => i < |e.threads| && e.threads[i].Posting? && |e.threads[i].items| > 0
    case Return(i) => i < |e.threads| && e.threads[i].Posting? && |e.threads[i].items| == 0
    case Enter(i) => i < |e.threads| && e.threads[i].Queued?
    case Leave(i, _) => i < |e.threads| && e.threads[i].Running?
  }

  /** The status test of NotifyStartImpl and NotifyFinishImpl, and the status they set. */
  function Received(e: Exec): Exec
    requires e.delivered < |e.desk.posted|
  {
    var e' := e.(delivered := e.delivered + 1);
    match e.desk.posted[e.delivered]
    case NoticeStart => e'.(status := InRun, checkFailed := e.checkFailed || e.status != NoStart)
    case NoticeFinish => e'.(status := Done, checkFailed := e.checkFailed || e.status != InRun)
    case NoticeCancel => e'.(status := Canceled, checkFailed := e.checkFailed || e.status != InRun)
  }

  ghost predicate Step(vs: set<Item>, es: set<Edge>, e: Exec, m: Move, e': Exec)
    requires Enabled(e, m)
  {
    match m
    case UserCancel => e' == e.(desk := e.desk.(cancel := true))
    case Deliver => e' == Received(e)
    case StartRun(i) =>
      if !e.desk.notifyEnd then e' == e.(checkFailed := true)
      else
        var go := !Finished(e'.h.w);
        && StartBlock(vs, es, e.desk, e'.desk, e'.h.w, go)
        && e' == e.(desk := e'.desk, h := History(e'.h.w, [], {}, {}),
                    threads := if go then e.threads[i := Dispatching] else Dropped(e.threads, i))
    case Dispatch(i) =>
      var go := !e.desk.cancel;
      && DispatchBlock(e.desk, e.h.w, e'.desk, e'.h.w, go)
      && e'.h == (if go then e.h.(w := e'.h.w, started := e.h.started + e.h.w.runnable) else e.h)
      && e' == e.(desk := e'.desk, h := e'.h,
                  threads := if go then e.threads[i := Posting(e.h.w.runnable)] else Dropped(e.threads, i))
    case Post(i) =>
      var items := e.threads[i].items;
      e' == e.(threads := e.threads[i := Posting(items[1..])] + [Queued(items[0])])
    case Return(i) => e' == e.(threads := Dropped(e.threads, i))
    case Enter(i) =>
      var go := !e.desk.cancel;
      && EnterBlock(e.desk, e'.desk, go)
      && e' == e.(desk := e'.desk,
                  threads := if go then e.threads[i := Running(e.threads[i].item)] else Dropped(e.threads, i))
    case Leave(i, ok) =>
      var item := e.threads[i].item;
      if item !in e.h.w.current then e' == e.(checkFailed := true)
      else
        var go := !Finished(e'.h.w);
        && LeaveBlock(e.desk, e.h.w, item, ok, e'.desk, e'.h.w, go)
        && e'.h == (if ok then e.h.(w := e'.h.w, ok := e.h.ok + {item})
                    else e.h.(w := e'.h.w, bad := e.h.bad + {item}))
        && e' == e.(desk := e'.desk, h := e'.h,
                    threads := if go then e.threads[i := Dispatching] else Dropped(e.threads, i))
  }

  /** One thread is about to call StartRun on a fresh task; the user may have cancelled already. */
  ghost predicate Initial(e: Exec) {
    && e.threads == [Begin] && e.delivered == 0 && e.status == NoStart && !e.checkFailed
    && e.desk.notifyEnd && e.desk.refs == 0 && e.desk.posted == []
  }

  // ----- bookkeeping over the threads

  function Holds(pc: Pc): multiset<Item> {
    match pc
    case Posting(items) => multiset(items)
    case Queued(item) => multiset{item}
    case Running(item) => multiset{item}
    case _ => multiset{}
  }

  /** All items some thread still has in hand. */
  function Claimed(threads: seq<Pc>): multiset<Item> {
    if threads == [] then multiset{} else Holds(threads[0]) + Claimed(threads[1..])
  }

  function Weight(pc: Pc): nat {
    match pc
    case Begin => 5
    case Dispatching => 2
    case Posting(items) => 1 + 5 * |items|
    case Queued(_) => 4
    case Running(_) => 3
  }

  function Load(threads: seq<Pc>): nat {
    if threads == [] then 0 else Weight(threads[0]) + Load(threads[1..])
  }

  lemma {:induction false} SplitClaims(s: seq<Pc>, t: seq<Pc>)
    ensures Claimed(s + t) == Claimed(s) + Claimed(t)
  {
    if s == [] {
      assert s + t == t;
    } else {
      assert (s + t)[1..] == s[1..] + t;
      SplitClaims(s[1..], t);
    }
  }

  lemma {:induction false} SplitLoads(s: seq<Pc>, t: seq<Pc>)
    ensures Load(s + t) == Load(s) + Load(t)
  {
    if s == [] {
      assert s + t == t;
    } else {
      assert (s + t)[1..] == s[1..] + t;
      SplitLoads(s[1..], t);
    }
  }

  lemma {:induction false} RemovedClaims(s: seq<Pc>, i: nat)
    requires i < |s|
    ensures Claimed(s) == Claimed(Dropped(s, i)) + Holds(s[i])
  {
    if i == 0 {
      assert Dropped(s, 0) == s[1..];
    } else {
      assert Dropped(s, i)[1..] == Dropped(s[1..], i - 1);
      RemovedClaims(s[1..], i - 1);
    }
  }

  lemma {:induction false} RemovedLoad(s: seq<Pc>, i: nat)
    requires i < |s|
    ensures Load(s) == Load(Dropped(s, i)) + Weight(s[i])
  {
    if i == 0 {
      assert Dropped(s, 0) == s[1..];
    } else {
      assert Dropped(s, i)[1..] == Dropped(s[1..], i - 1);
      RemovedLoad(s[1..], i - 1);
    }
  }

  lemma Removed(s: seq<Pc>, i: nat)
    requires i < |s|
    ensures Claimed(s) == Claimed(Dropped(s, i)) + Holds(s[i])
    ensures Load(s) == Load(Dropped(s, i)) + Weight(s[i])
  {
    RemovedClaims(s, i);
    RemovedLoad(s, i);
  }

  lemma Replaced(s: seq<Pc>, i: nat, pc: Pc)
    requires i < |s|
    ensures Claimed(s[i := pc]) == Claimed(Dropped(s, i)) + Holds(pc)
    ensures Load(s[i := pc]) + Weight(s[i]) == Load(s) + Weight(pc)
  {
    Removed(s, i);
    Removed(s[i := pc], i);
    assert Dropped(s[i := pc], i) == Dropped(s, i);
  }

  /** The items in hand are started and unmarked; all of those are in hand unless a thread gave up. */
  ghost predicate InHand(threads: seq<Pc>, started: multiset<Item>, all: bool) {
    && Claimed(threads) <= started
    && (all ==> Claimed(threads) == started)
  }

  lemma DropInHand(s: seq<Pc>, i: nat, started: multiset<Item>, all: bool)
    requires i < |s| && InHand(s, started, all)
    ensures InHand(Dropped(s, i), started, all && Holds(s[i]) == multiset{})
  {
    Removed(s, i);
  }

  lemma SwapInHand(s: seq<Pc>, i: nat, pc: Pc, started: multiset<Item>, all: bool)
    requires i < |s| && Holds(s[i]) == Holds(pc) && InHand(s, started, all)
    ensures InHand(s[i := pc], started, all)
  {
    Removed(s, i);
    Replaced(s, i, pc);
  }

  lemma PostInHand(s: seq<Pc>, i: nat, items: seq<Item>, started: multiset<Item>, all: bool)
    requires i < |s| && |items| > 0 && s[i] == Posting(items) && InHand(s, started, all)
    ensures InHand(s[i := Posting(items[1..])] + [Queued(items[0])], started, all)
  {
    assert items == [items[0]] + items[1..];
    Removed(s, i);
    Replaced(s, i, Posting(items[1..]));
    SplitClaims(s[i := Posting(items[1..])], [Queued(items[0])]);
    SplitLoads(s[i := Posting(items[1..])], [Queued(items[0])]);
    assert Claimed([Queued(items[0])]) == multiset{items[0]};
    assert Claimed(s[i := Posting(items[1..])] + [Queued(items[0])]) == Claimed(s);
  }

  lemma TakeInHand(s: seq<Pc>, i: nat, items: seq<Item>, started: multiset<Item>, all: bool)
    requires i < |s| && Holds(s[i]) == multiset{} && InHand(s, started, all)
    ensures InHand(s[i := Posting(items)], started + multiset(items), all)
  {
    Removed(s, i);
    Replaced(s, i, Posting(items));
  }

  lemma GiveInHand(s: seq<Pc>, i: nat, item: Item, left: multiset<Item>, all: bool)
    requires i < |s| && s[i] == Running(item)
    requires InHand(s, left + multiset{item}, all)
    ensures InHand(Dropped(s, i), left, all) && InHand(s[i := Dispatching], left, all)
  {
    Removed(s, i);
    Replaced(s, i, Dispatching);
    assert Claimed(Dropped(s, i)) == Claimed(s) - multiset{item};
    assert left == left + multiset{item} - multiset{item};
  }

  lemma RunningIsStarted(s: seq<Pc>, i: nat, item: Item, started: multiset<Item>)
    requires i < |s| && s[i] == Running(item) && Claimed(s) <= started
    ensures item in started
  {
    Removed(s, i);
    assert item in Claimed(s);
  }

  lemma QueuedIsStarted(s: seq<Pc>, i: nat, item: Item, started: multiset<Item>)
    requires i < |s| && s[i] == Queued(item) && Claimed(s) <= started
    ensures item in started
  {
    Removed(s, i);
    assert item in Claimed(s);
  }

  lemma {:induction false} MarkedLeavesCurrent(current: seq<Item>, item: Item)
    requires Distinct(current) && item in current
    ensures multiset(current) == multiset(Keep(current, v => v != item)) + multiset{item}
  {
    assert current == [current[0]] + current[1..];
    if current[0] == item {
      KeepAll(current[1..], v => v != item);
    } else {
      MarkedLeavesCurrent(current[1..], item);
    }
  }

  // ----- the invariant

  function StatusOf(notices: seq<Notice>): Status {
    if notices == [] then NoStart
    else match notices[|notices| - 1]
         case NoticeStart => InRun
         case NoticeFinish => Done
         case NoticeCancel => Canceled
  }

  /** Start first, then at most one terminal notice, posted exactly when the run has ended. */
  ghost predicate Notices(d: Desk) {
    if d.notifyEnd
    then d.refs == 0 && (d.posted == [NoticeStart, NoticeFinish] || d.posted == [NoticeStart, NoticeCancel])
    else d.refs == 1 && d.posted == [NoticeStart]
  }

  /** What the threads and notices keep, whatever the graph. */
  ghost predicate Protocol(e: Exec) {
    && Begin !in e.threads
    && Notices(e.desk)
    && (NoticeFinish in e.desk.posted ==> Finished(e.h.w))
    && (NoticeCancel in e.desk.posted ==> e.desk.cancel)
    && InHand(e.threads, multiset(e.h.w.current), !e.desk.notifyEnd)
    && (!e.desk.notifyEnd ==>
          && !Finished(e.h.w)
          && (e.h.w.runnable != [] ==> Dispatching in e.threads))
  }

  ghost predicate StatusFits(e: Exec) {
    e.delivered <= |e.desk.posted| && e.status == StatusOf(e.desk.posted[..e.delivered])
  }

  ghost predicate Inv(vs: set<Item>, es: set<Edge>, e: Exec) {
    && Closed(es, vs) && Acyclic(es) && !e.checkFailed && StatusFits(e)
    && (Initial(e) || (Scheduled(vs, es, e.h) && Protocol(e)))
  }

  lemma EndKeeps(d: Desk, notice: Notice)
    requires Notices(d) && notice != NoticeStart
    ensures Notices(EndWith(d, notice)) && EndWith(d, notice).notifyEnd
    ensures d.posted <= EndWith(d, notice).posted && EndWith(d, notice).cancel == d.cancel
    ensures EndWith(d, notice).posted == d.posted || EndWith(d, notice).posted == d.posted + [notice]
  {
  }

  lemma DeliverKeeps(e: Exec)
    requires Notices(e.desk) && StatusFits(e) && Enabled(e, Deliver) && !e.checkFailed
    ensures StatusFits(Received(e)) && !Received(e).checkFailed
  {
    var n := e.delivered;
    assert e.desk.posted[..n + 1] == e.desk.posted[..n] + [e.desk.posted[n]];
    if n > 0 {
      assert e.desk.posted[..n] == [NoticeStart];
    }
  }

  lemma DispatchKeeps(e: Exec, i: nat, e': Exec)
    requires Protocol(e) && Enabled(e, Dispatch(i)) && Step({}, {}, e, Dispatch(i), e')
    ensures Protocol(e')
  {
    DropInHand(e.threads, i, multiset(e.h.w.current), !e.desk.notifyEnd);
    TakeInHand(e.threads, i, e.h.w.runnable, multiset(e.h.w.current), !e.desk.notifyEnd);
    EndKeeps(e.desk, NoticeCancel);
    OthersStay(e.threads, i, Posting(e.h.w.runnable));
  }

  lemma PostKeeps(e: Exec, i: nat, e': Exec)
    requires Protocol(e) && Enabled(e, Post(i)) && Step({}, {}, e, Post(i), e')
    ensures Protocol(e')
  {
    var items := e.threads[i].items;
    PostInHand(e.threads, i, items, multiset(e.h.w.current), !e.desk.notifyEnd);
    OthersStay(e.threads, i, Posting(items[1..]));
  }

  lemma ReturnKeeps(e: Exec, i: nat, e': Exec)
    requires Protocol(e) && Enabled(e, Return(i)) && Step({}, {}, e, Return(i), e')
    ensures Protocol(e')
  {
    DropInHand(e.threads, i, multiset(e.h.w.current), !e.desk.notifyEnd);
    OthersStay(e.threads, i, Dispatching);
  }

  lemma EnterKeeps(e: Exec, i: nat, e': Exec)
    requires Protocol(e) && Enabled(e, Enter(i)) && Step({}, {}, e, Enter(i), e')
    ensures Protocol(e')
  {
    var pc := Running(e.threads[i].item);
    OthersStay(e.threads, i, pc);
    if e.desk.cancel {
      DropInHand(e.threads, i, multiset(e.h.w.current), !e.desk.notifyEnd);
      EndKeeps(e.desk, NoticeCancel);
    } else {
      SwapInHand(e.threads, i, pc, multiset(e.h.w.current), !e.desk.notifyEnd);
    }
  }

  /** What Leave does, the change of the graph apart. */
  ghost predicate Left(e: Exec, i: nat, item: Item, e': Exec)
    requires i < |e.threads|
  {
    var go := !Finished(e'.h.w);
    && e'.h.w.current == Keep(e.h.w.current, v => v != item)
    && e'.desk == (if go then e.desk else EndWith(e.desk, NoticeFinish))
    && e'.threads == (if go then e.threads[i := Dispatching] else Dropped(e.threads, i))
  }

  lemma LeaveMeans(e: Exec, i: nat, ok: bool, e': Exec)
    requires Enabled(e, Leave(i, ok)) && Step({}, {}, e, Leave(i, ok), e')
    requires e.threads[i].item in e.h.w.current
    ensures Left(e, i, e.threads[i].item, e') && e'.checkFailed == e.checkFailed
  {
  }

  lemma LeftKeeps(e: Exec, i: nat, item: Item, e': Exec)
    requires i < |e.threads| && e.threads[i] == Running(item)
    requires Protocol(e) && Distinct(e.h.w.current) && item in e.h.w.current
    requires Left(e, i, item, e')
    ensures Protocol(e')
  {
    MarkedLeavesCurrent(e.h.w.current, item);
    GiveInHand(e.threads, i, item, multiset(e'.h.w.current), !e.desk.notifyEnd);
    OthersStay(e.threads, i, Dispatching);
    EndKeeps(e.desk, NoticeFinish);
  }

  lemma LeaveKeeps(e: Exec, i: nat, ok: bool, e': Exec)
    requires Protocol(e) && Distinct(e.h.w.current)
    requires Enabled(e, Leave(i, ok)) && Step({}, {}, e, Leave(i, ok), e')
    ensures Protocol(e') && e.threads[i].item in e.h.w.current
  {
    var item := e.threads[i].item;
    RunningIsStarted(e.threads, i, item, multiset(e.h.w.current));
    LeaveMeans(e, i, ok, e');
    LeftKeeps(e, i, item, e');
  }

  /** Changing or removing thread i touches no other thread. */
  lemma OthersStay(s: seq<Pc>, i: nat, pc: Pc)
    requires i < |s|
    ensures forall q :: q in s && q != s[i] ==> q in Dropped(s, i) && q in s[i := pc]
    ensures forall q :: q in Dropped(s, i) ==> q in s
    ensures forall q :: q in s[i := pc] ==> q in s || q == pc
    ensures pc in s[i := pc]
  {
    assert s[i := pc][i] == pc;
    forall q | q in s && q != s[i] ensures q in Dropped(s, i) && q in s[i := pc] {
      var k :| 0 <= k < |s| && s[k] == q;
      assert s[i := pc][k] == q;
      assert Dropped(s, i)[if k < i then k else k - 1] == q;
    }
  }

  /** Only StartRun and deliveries apart, a step prolongs the notices without touching the status. */
  lemma StatusStays(e: Exec, e': Exec)
    requires StatusFits(e) && e'.delivered == e.delivered && e'.status == e.status
    requires e.desk.posted <= e'.desk.posted
    ensures StatusFits(e')
  {
    assert e'.desk.posted[..e.delivered] == e.desk.posted[..e.delivered];
  }

  lemma ScheduleKept(vs: set<Item>, es: set<Edge>, e: Exec, m: Move, e': Exec)
    requires Scheduled(vs, es, e.h) && Enabled(e, m) && Step(vs, es, e, m, e') && !m.StartRun?
    ensures Scheduled(vs, es, e'.h)
  {
    match m
    case Dispatch(i) =>
      if !e.desk.cancel {
        ScheduledKept(vs, es, e.h, StartAll, e'.h);
      }
    case Leave(i, ok) =>
      if e.threads[i].item in e.h.w.current {
        ScheduledKept(vs, es, e.h, Mark(e.threads[i].item, ok), e'.h);
      }
    case _ =>
  }

  lemma ProtocolKept(vs: set<Item>, es: set<Edge>, e: Exec, m: Move, e': Exec)
    requires Protocol(e) && Distinct(e.h.w.current) && StatusFits(e) && !e.checkFailed
    requires Enabled(e, m) && Step(vs, es, e, m, e')
    ensures Protocol(e') && StatusFits(e') && !e'.checkFailed && !m.StartRun?
  {
    assert forall i :: 0 <= i < |e.threads| ==> e.threads[i] in e.threads;
    match m
    case UserCancel => StatusStays(e, e');
    case Deliver => DeliverKeeps(e);
    case Dispatch(i) => DispatchKeeps(e, i, e'); StatusStays(e, e');
    case Post(i) => PostKeeps(e, i, e'); StatusStays(e, e');
    case Return(i) => ReturnKeeps(e, i, e'); StatusStays(e, e');
    case Enter(i) => EnterKeeps(e, i, e'); StatusStays(e, e');
    case Leave(i, ok) => LeaveKeeps(e, i, ok, e'); StatusStays(e, e');
    case StartRun(i) =>
  }

  lemma StartRunBegins(vs: set<Item>, es: set<Edge>, e: Exec, m: Move, e': Exec)
    requires Closed(es, vs) && Acyclic(es)
    requires Initial(e) && Enabled(e, m) && Step(vs, es, e, m, e')
    ensures StatusFits(e') && !e'.checkFailed
    ensures Initial(e') || (Scheduled(vs, es, e'.h) && Protocol(e'))
  {
    if m.StartRun? {
      BeginsScheduled(vs, es, e'.h);
      assert Dropped(e.threads, 0) == [] && e.threads[0 := Dispatching] == [Dispatching];
      assert Claimed([Dispatching]) == multiset{};
    }
  }

  lemma InvKept(vs: set<Item>, es: set<Edge>, e: Exec, m: Move, e': Exec)
    requires Inv(vs, es, e) && Enabled(e, m) && Step(vs, es, e, m, e')
    ensures Inv(vs, es, e')
  {
    if Initial(e) {
      StartRunBegins(vs, es, e, m, e');
    } else {
      ProtocolKept(vs, es, e, m, e');
      ScheduleKept(vs, es, e, m, e');
    }
  }

  // ----- no interleaving gets stuck or goes on for ever

  ghost predicate CanStep(vs: set<Item>, es: set<Edge>, e: Exec, m: Move) {
    Enabled(e, m) && exists e' :: Step(vs, es, e, m, e')
  }

  /** Nothing is left to do but, perhaps, another cancel request. */
  ghost predicate Quiescent(e: Exec) {
    forall m: Move :: Enabled(e, m) ==> m.UserCancel?
  }

  lemma QuiescentMeans(e: Exec)
    ensures Quiescent(e) <==> e.threads == [] && e.delivered >= |e.desk.posted|
  {
    if e.threads != [] {
      var m := match e.threads[0]
               case Begin => StartRun(0)
               case Dispatching => Dispatch(0)
               case Posting(items) => if |items| > 0 then Post(0) else Return(0)
               case Queued(_) => Enter(0)
               case Running(_) => Leave(0, true);
      assert Enabled(e, m);
    } else if e.delivered < |e.desk.posted| {
      assert Enabled(e, Deliver);
    }
  }

  /** Every enabled move can be made, whatever the item's result. */
  lemma MoveExists(vs: set<Item>, es: set<Edge>, e: Exec, m: Move)
    requires Inv(vs, es, e) && Enabled(e, m)
    ensures CanStep(vs, es, e, m)
  {
    match m
    case UserCancel => assert Step(vs, es, e, m, e.(desk := e.desk.(cancel := true)));
    case Deliver => assert Step(vs, es, e, m, Received(e));
    case StartRun(i) => StartRunExists(vs, es, e, i);
    case Dispatch(i) =>
      var w := e.h.w.(runnable := [], current := e.h.w.current + e.h.w.runnable);
      var e' := if e.desk.cancel
                then e.(desk := EndWith(e.desk, NoticeCancel), threads := Dropped(e.threads, i))
                else e.(h := e.h.(w := w, started := e.h.started + e.h.w.runnable),
                        threads := e.threads[i := Posting(e.h.w.runnable)]);
      assert Step(vs, es, e, m, e');
    case Post(i) =>
      var items := e.threads[i].items;
      assert Step(vs, es, e, m, e.(threads := e.threads[i := Posting(items[1..])] + [Queued(items[0])]));
    case Return(i) => assert Step(vs, es, e, m, e.(threads := Dropped(e.threads, i)));
    case Enter(i) =>
      var e' := if e.desk.cancel
                then e.(desk := EndWith(e.desk, NoticeCancel), threads := Dropped(e.threads, i))
                else e.(threads := e.threads[i := Running(e.threads[i].item)]);
      assert Step(vs, es, e, m, e');
    case Leave(i, ok) => LeaveExists(vs, es, e, i, ok);
  }

  lemma StartRunExists(vs: set<Item>, es: set<Edge>, e: Exec, i: nat)
    requires Enabled(e, StartRun(i))
    ensures CanStep(vs, es, e, StartRun(i))
  {
    var sources := Listing(set v | v in vs && Source(es, v));
    var w := Walker(vs, es, sources, []);
    var e' :=
      if !e.desk.notifyEnd then e.(checkFailed := true)
      else if Finished(w)
      then e.(desk := e.desk.(notifyEnd := true, posted := e.desk.posted + [NoticeStart, NoticeFinish]),
              h := History(w, [], {}, {}), threads := Dropped(e.threads, i))
      else e.(desk := e.desk.(notifyEnd := false, refs := e.desk.refs + 1,
                              posted := e.desk.posted + [NoticeStart]),
              h := History(w, [], {}, {}), threads := e.threads[i := Dispatching]);
    assert Step(vs, es, e, StartRun(i), e');
  }

  lemma LeaveExists(vs: set<Item>, es: set<Edge>, e: Exec, i: nat, ok: bool)
    requires Enabled(e, Leave(i, ok))
    ensures CanStep(vs, es, e, Leave(i, ok))
  {
    var item := e.threads[i].item;
    if item !in e.h.w.current {
      assert Step(vs, es, e, Leave(i, ok), e.(checkFailed := true));
    } else {
      var w := MarkExists(e.h.w, item, ok);
      var h := if ok then e.h.(w := w, ok := e.h.ok + {item}) else e.h.(w := w, bad := e.h.bad + {item});
      var e' := if Finished(w)
                then e.(desk := EndWith(e.desk, NoticeFinish), h := h, threads := Dropped(e.threads, i))
                else e.(h := h, threads := e.threads[i := Dispatching]);
      assert Step(vs, es, e, Leave(i, ok), e');
    }
  }

  lemma MarkExists(w: Walker, item: Item, ok: bool) returns (w': Walker)
    requires item in w.current
    ensures Next(w, Mark(item, ok), w')
  {
    var left := Keep(w.current, v => v != item);
    if ok {
      var freed := Listing(set e | e in w.edges && e.0 == item && Source(NotFrom(w.edges, item), e.1) :: e.1);
      w' := Walker(w.nodes - {item}, NotFrom(w.edges, item), w.runnable + freed, left);
      assert Frees(w.edges, item, freed);
    } else {
      var survivors := w.nodes - Downstream(w.edges, w.nodes, item);
      w' := Walker(survivors, Among(w.edges, survivors), w.runnable, left);
    }
  }

  /** Items not started yet, threads under way and notices not delivered, suitably weighed. */
  function Work(vs: set<Item>, e: Exec): int {
    6 * (if Begin in e.threads then |vs| else |e.h.w.nodes| - |e.h.w.current|)
    + Load(e.threads) + |e.desk.posted| - e.delivered
  }

  lemma MarkWork(w: Walker, item: Item, ok: bool, w': Walker)
    requires Frontier(w) && item in w.current && Next(w, Mark(item, ok), w')
    ensures |w'.nodes| - |w'.current| <= |w.nodes| - |w.current|
  {
    MarkedLeavesCurrent(w.current, item);
    assert |multiset(w.current)| == |multiset(w'.current)| + 1;
    ReachesSelf(w.edges, item);
    assert w'.nodes <= w.nodes - {item};
    SubsetSize(w'.nodes, w.nodes - {item});
  }

  lemma {:induction false} SubsetSize(a: set<Item>, b: set<Item>)
    requires a <= b
    ensures |a| <= |b|
  {
    if a == {} {
    } else {
      var v :| v in a;
      SubsetSize(a - {v}, b - {v});
    }
  }

  lemma WorkNotNegative(vs: set<Item>, es: set<Edge>, e: Exec)
    requires Inv(vs, es, e)
    ensures Work(vs, e) >= 0
  {
    if Begin !in e.threads {
      DistinctSize(e.h.w.current, e.h.w.nodes);
    }
  }

  lemma LeftWork(e: Exec, i: nat, item: Item, e': Exec)
    requires i < |e.threads| && e.threads[i] == Running(item) && Left(e, i, item, e')
    ensures Load(e'.threads) + |e'.desk.posted| < Load(e.threads) + |e.desk.posted|
  {
    Removed(e.threads, i);
    Replaced(e.threads, i, Dispatching);
  }

  lemma DispatchWork(e: Exec, i: nat, e': Exec)
    requires Enabled(e, Dispatch(i)) && Step({}, {}, e, Dispatch(i), e')
    ensures Load(e'.threads) + |e'.desk.posted| - 6 * |e'.h.w.current|
            < Load(e.threads) + |e.desk.posted| - 6 * |e.h.w.current|
    ensures e'.h.w.nodes == e.h.w.nodes
  {
    Removed(e.threads, i);
    Replaced(e.threads, i, Posting(e.h.w.runnable));
  }

  lemma PostWork(s: seq<Pc>, i: nat, items: seq<Item>)
    requires i < |s| && s[i] == Posting(items) && |items| > 0
    ensures Load(s[i := Posting(items[1..])] + [Queued(items[0])]) < Load(s)
  {
    Replaced(s, i, Posting(items[1..]));
    SplitClaims(s[i := Posting(items[1..])], [Queued(items[0])]);
    SplitLoads(s[i := Posting(items[1..])], [Queued(items[0])]);
    assert Load([Queued(items[0])]) == 4;
  }

  lemma EnterWork(e: Exec, i: nat, e': Exec)
    requires Enabled(e, Enter(i)) && Step({}, {}, e, Enter(i), e')
    ensures Load(e'.threads) + |e'.desk.posted| < Load(e.threads) + |e.desk.posted|
    ensures e'.h == e.h && e'.delivered == e.delivered
  {
    if e.desk.cancel {
      Removed(e.threads, i);
    } else {
      Replaced(e.threads, i, Running(e.threads[i].item));
    }
  }

  lemma LeaveWork(vs: set<Item>, e: Exec, i: nat, ok: bool, e': Exec)
    requires Frontier(e.h.w) && Begin !in e.threads && Begin !in e'.threads
    requires Enabled(e, Leave(i, ok)) && Step({}, {}, e, Leave(i, ok), e')
    requires !e.checkFailed && !e'.checkFailed
    ensures Work(vs, e') < Work(vs, e)
  {
    LeaveMeans(e, i, ok, e');
    LeftWork(e, i, e.threads[i].item, e');
    MarkWork(e.h.w, e.threads[i].item, ok, e'.h.w);
  }

  /** Every move but a cancel request brings the run closer to its end. */
  lemma WorkShrinks(vs: set<Item>, es: set<Edge>, e: Exec, m: Move, e': Exec)
    requires Inv(vs, es, e) && Enabled(e, m) && Step(vs, es, e, m, e') && !m.UserCancel?
    ensures Work(vs, e') < Work(vs, e)
  {
    if Initial(e) {
      assert Dropped(e.threads, 0) == [] && e.threads[0 := Dispatching] == [Dispatching];
      assert Load([Dispatching]) == 2 && Load([Begin]) == 5;
    } else {
      ProtocolKept(vs, es, e, m, e');
      ThreadWorkShrinks(vs, es, e, m, e');
    }
  }

  lemma ThreadWorkShrinks(vs: set<Item>, es: set<Edge>, e: Exec, m: Move, e': Exec)
    requires Frontier(e.h.w) && Begin !in e.threads && Begin !in e'.threads
    requires Enabled(e, m) && Step(vs, es, e, m, e') && !m.UserCancel? && !m.StartRun?
    requires !e.checkFailed && !e'.checkFailed
    ensures Work(vs, e') < Work(vs, e)
  {
    match m
    case Deliver =>
    case Dispatch(i) => DispatchWork(e, i, e');
    case Post(i) => PostWork(e.threads, i, e.threads[i].items);
    case Return(i) => Removed(e.threads, i);
    case Enter(i) => EnterWork(e, i, e');
    case Leave(i, ok) => LeaveWork(vs, e, i, ok, e');
  }

  // ----- whole runs

  ghost predicate IsExecution(vs: set<Item>, es: set<Edge>, xs: seq<Exec>, ms: seq<Move>) {
    && |xs| == |ms| + 1
    && Initial(xs[0])
    && forall k {:trigger ms[k]} :: 0 <= k < |ms| ==> Enabled(xs[k], ms[k]) && Step(vs, es, xs[k], ms[k], xs[k + 1])
  }

  /** The moves that are not cancel requests. */
  function Effective(ms: seq<Move>): nat {
    if ms == [] then 0
    else Effective(ms[..|ms| - 1]) + (if ms[|ms| - 1].UserCancel? then 0 else 1)
  }

  lemma {:induction false} ExecutionInv(vs: set<Item>, es: set<Edge>, xs: seq<Exec>, ms: seq<Move>, n: nat)
    requires Closed(es, vs) && Acyclic(es) && IsExecution(vs, es, xs, ms) && n <= |ms|
    ensures Inv(vs, es, xs[n])
  {
    if n == 0 {
    } else {
      ExecutionInv(vs, es, xs, ms, n - 1);
      var m := ms[n - 1];
      InvKept(vs, es, xs[n - 1], m, xs[n]);
    }
  }

  lemma CancelWork(vs: set<Item>, es: set<Edge>, e: Exec, e': Exec)
    requires Enabled(e, UserCancel) && Step(vs, es, e, UserCancel, e')
    ensures Work(vs, e') == Work(vs, e)
  {
  }

  lemma {:induction false} ExecutionWork(vs: set<Item>, es: set<Edge>, xs: seq<Exec>, ms: seq<Move>, n: nat)
    requires Closed(es, vs) && Acyclic(es) && IsExecution(vs, es, xs, ms) && n <= |ms|
    ensures Work(vs, xs[n]) + Effective(ms[..n]) <= 6 * |vs| + 5
  {
    if n == 0 {
      assert Load([Begin]) == 5;
    } else {
      ExecutionWork(vs, es, xs, ms, n - 1);
      ExecutionInv(vs, es, xs, ms, n - 1);
      var m := ms[n - 1];
      assert ms[..n] == ms[..n - 1] + [m];
      if m.UserCancel? {
        CancelWork(vs, es, xs[n - 1], xs[n]);
      } else {
        WorkShrinks(vs, es, xs[n - 1], m, xs[n]);
      }
    }
  }

  /** While an item computes, the delegate it was given is held, unless the user has cancelled. */
  lemma RunningHoldsDelegate(vs: set<Item>, es: set<Edge>, x: Exec, i: nat)
    requires Inv(vs, es, x) && i < |x.threads| && x.threads[i].Running?
    ensures x.desk.refs == 1 || x.desk.cancel
  {
    RunningIsStarted(x.threads, i, x.threads[i].item, multiset(x.h.w.current));
  }

  lemma ExecutionNext(vs: set<Item>, es: set<Edge>, xs: seq<Exec>, ms: seq<Move>, m: Move, e': Exec)
    requires IsExecution(vs, es, xs, ms) && Enabled(xs[|ms|], m) && Step(vs, es, xs[|ms|], m, e')
    ensures IsExecution(vs, es, xs + [e'], ms + [m])
  {
    var xs', ms' := xs + [e'], ms + [m];
    forall k | 0 <= k < |ms'| ensures Enabled(xs'[k], ms'[k]) && Step(vs, es, xs'[k], ms'[k], xs'[k + 1]) {
      if k < |ms| {
        assert ms'[k] == ms[k] && xs'[k] == xs[k] && xs'[k + 1] == xs[k + 1];
      }
    }
  }

  /** Two independent items started and posted to the pool. */
  lemma TwoPosted(a: Item, b: Item, h1: History) returns (xs: seq<Exec>, ms: seq<Move>)
    requires a != b && h1 == History(Walker({a, b}, {}, [], [a, b]), [a, b], {}, {})
    ensures IsExecution({a, b}, {}, xs, ms)
    ensures xs[|ms|] == Exec(Desk(false, 1, false, [NoticeStart]), h1,
                             [Posting([]), Queued(a), Queued(b)], 0, NoStart, false)
  {
    var vs := {a, b};
    var h0 := History(Walker(vs, {}, [a, b], []), [], {}, {});
    var idle, open := Desk(true, 0, false, []), Desk(false, 1, false, [NoticeStart]);
    ms := [StartRun(0), Dispatch(0), Post(0), Post(0)];
    xs := [Exec(idle, h0, [Begin], 0, NoStart, false),
           Exec(open, h0, [Dispatching], 0, NoStart, false),
           Exec(open, h1, [Posting([a, b])], 0, NoStart, false),
           Exec(open, h1, [Posting([b]), Queued(a)], 0, NoStart, false),
           Exec(open, h1, [Posting([]), Queued(a), Queued(b)], 0, NoStart, false)];
    assert Begins(vs, {}, h0);
    assert Step(vs, {}, xs[0], ms[0], xs[1]);
    assert [a, b][1..] == [b] && [b][1..] == [];
    assert Step(vs, {}, xs[2], ms[2], xs[3]);
    assert Step(vs, {}, xs[3], ms[3], xs[4]);
  }

  /** The exception happens: a cancel request ends the run, and with it the reference on the
      delegate, while another item is still computing with it. */
  lemma DelegateReleasedEarly() returns (vs: set<Item>, xs: seq<Exec>, ms: seq<Move>, item: Item)
    ensures Closed({}, vs) && Acyclic({}) && IsExecution(vs, {}, xs, ms)
    ensures xs[|ms|].desk.refs == 0 && xs[|ms|].desk.cancel && Running(item) in xs[|ms|].threads
  {
    var a, b := Item(0), Item(1);
    item, vs := a, {a, b};
    NoSourceMeansCycle({});
    var h1 := History(Walker(vs, {}, [], [a, b]), [a, b], {}, {});
    xs, ms := TwoPosted(a, b, h1);
    var e := xs[|ms|];
    var e1 := e.(threads := [Posting([]), Running(a), Queued(b)]);
    ExecutionNext(vs, {}, xs, ms, Enter(1), e1);
    xs, ms := xs + [e1], ms + [Enter(1)];
    var e2 := e1.(desk := e1.desk.(cancel := true));
    ExecutionNext(vs, {}, xs, ms, UserCancel, e2);
    xs, ms := xs + [e2], ms + [UserCancel];
    var e3 := e2.(desk := Desk(true, 0, true, [NoticeStart, NoticeCancel]), threads := Dropped(e2.threads, 2));
    ExecutionNext(vs, {}, xs, ms, Enter(2), e3);
    xs, ms := xs + [e3], ms + [Enter(2)];
    assert e3.threads[1] == Running(a);
  }

  // ----- a cancel request is obeyed

  lemma NothingBegins(vs: set<Item>, es: set<Edge>, e: Exec, m: Move, e': Exec)
    requires Enabled(e, m) && Step(vs, es, e, m, e') && e.desk.cancel
    ensures e'.desk.cancel && forall pc :: pc in e'.threads && pc.Running? ==> pc in e.threads
    ensures Elements(e'.h.started) <= Elements(e.h.started)
  {
    match m
    case StartRun(i) => OthersStay(e.threads, i, Dispatching);
    case Dispatch(i) => OthersStay(e.threads, i, Dispatching);
    case Post(i) =>
      var items := e.threads[i].items;
      OthersStay(e.threads, i, Posting(items[1..]));
    case Return(i) => OthersStay(e.threads, i, Dispatching);
    case Enter(i) => OthersStay(e.threads, i, Dispatching);
    case Leave(i, ok) => OthersStay(e.threads, i, Dispatching);
    case _ =>
  }

  /** Once the user has cancelled no further item is taken from the walker, and none begins to compute:
      what computes later was computing already. */
  lemma {:induction false} CancelObeyed(vs: set<Item>, es: set<Edge>, xs: seq<Exec>, ms: seq<Move>, i: nat, j: nat)
    requires IsExecution(vs, es, xs, ms) && i <= j <= |ms| && xs[i].desk.cancel
    ensures xs[j].desk.cancel && forall pc :: pc in xs[j].threads && pc.Running? ==> pc in xs[i].threads
    ensures Elements(xs[j].h.started) <= Elements(xs[i].h.started)
    decreases j - i
  {
    if i == j {
    } else {
      CancelObeyed(vs, es, xs, ms, i, j - 1);
      var m := ms[j - 1];
      NothingBegins(vs, es, xs[j - 1], m, xs[j]);
    }
  }

  // ----- exactly when the delegate is held

  predicate Computes(threads: seq<Pc>) {
    exists pc :: pc in threads && pc.Running?
  }

  /** No item computes without the reference on the delegate it was given. */
  predicate Held(e: Exec) {
    Computes(e.threads) ==> e.desk.refs == 1
  }

  /** The step is the one that ends a cancelled run, and some item is still computing. */
  predicate ReleasesEarly(e: Exec, m: Move) {
    (m.Dispatch? || m.Enter?) && e.desk.cancel && !e.desk.notifyEnd && Computes(e.threads)
  }

  /** A thread that is not computing may go on to anything else without one more item computing. */
  lemma StillComputes(s: seq<Pc>, i: nat, pc: Pc)
    requires i < |s| && !s[i].Running? && !pc.Running?
    ensures Computes(s[i := pc]) <==> Computes(s)
    ensures Computes(Dropped(s, i)) <==> Computes(s)
  {
    OthersStay(s, i, pc);
  }

  lemma DispatchReleases(e: Exec, i: nat, e': Exec)
    requires Protocol(e) && Held(e) && Enabled(e, Dispatch(i)) && Step({}, {}, e, Dispatch(i), e')
    ensures Held(e') <==> !ReleasesEarly(e, Dispatch(i))
  {
    StillComputes(e.threads, i, Posting(e.h.w.runnable));
  }

  lemma PostReleases(e: Exec, i: nat, e': Exec)
    requires Held(e) && Enabled(e, Post(i)) && Step({}, {}, e, Post(i), e')
    ensures Held(e')
  {
    var items := e.threads[i].items;
    StillComputes(e.threads, i, Posting(items[1..]));
    assert forall pc :: pc in e'.threads ==> pc in e.threads[i := Posting(items[1..])] || pc == Queued(items[0]);
  }

  /** Without a cancel request an item that waits in the pool finds the run still open. */
  lemma QueuedIsOpen(e: Exec, i: nat)
    requires Protocol(e) && i < |e.threads| && e.threads[i].Queued? && !e.desk.cancel
    ensures e.desk.refs == 1
  {
    QueuedIsStarted(e.threads, i, e.threads[i].item, multiset(e.h.w.current));
    if e.desk.notifyEnd {
      assert false;
    }
  }

  lemma EnterReleases(e: Exec, i: nat, e': Exec)
    requires Protocol(e) && Held(e) && Enabled(e, Enter(i)) && Step({}, {}, e, Enter(i), e')
    ensures Held(e') <==> !ReleasesEarly(e, Enter(i))
  {
    if e.desk.cancel {
      StillComputes(e.threads, i, Dispatching);
    } else {
      QueuedIsOpen(e, i);
    }
  }

  lemma LeaveReleases(e: Exec, i: nat, item: Item, e': Exec)
    requires i < |e.threads| && Held(e) && Protocol(e') && Left(e, i, item, e')
    ensures Held(e')
  {
    OthersStay(e.threads, i, Dispatching);
    if Finished(e'.h.w) && Computes(e'.threads) {
      var pc :| pc in e'.threads && pc.Running?;
      var k :| 0 <= k < |e'.threads| && e'.threads[k] == pc;
      RunningIsStarted(e'.threads, k, pc.item, multiset(e'.h.w.current));
      assert false;
    }
  }

  lemma ReleaseExact(vs: set<Item>, es: set<Edge>, e: Exec, m: Move, e': Exec)
    requires Protocol(e) && Distinct(e.h.w.current) && Held(e)
    requires Enabled(e, m) && Step(vs, es, e, m, e') && !m.StartRun?
    ensures Held(e') <==> !ReleasesEarly(e, m)
  {
    match m
    case UserCancel =>
    case Deliver =>
    case Dispatch(i) => DispatchReleases(e, i, e');
    case Post(i) => PostReleases(e, i, e');
    case Return(i) => StillComputes(e.threads, i, Dispatching);
    case Enter(i) => EnterReleases(e, i, e');
    case Leave(i, ok) =>
      LeaveKeeps(e, i, ok, e');
      LeaveMeans(e, i, ok, e');
      LeaveReleases(e, i, e.threads[i].item, e');
  }

  /** The first step of a run gives no item to compute. */
  lemma StartHolds(vs: set<Item>, es: set<Edge>, e: Exec, m: Move, e': Exec)
    requires Initial(e) && Enabled(e, m) && Step(vs, es, e, m, e')
    ensures Held(e') && !ReleasesEarly(e, m)
  {
    match m
    case UserCancel =>
    case StartRun(i) => StillComputes(e.threads, i, Dispatching);
    case _ => assert false;
  }

  lemma ExecutionStepExact(vs: set<Item>, es: set<Edge>, xs: seq<Exec>, ms: seq<Move>, n: nat)
    requires Closed(es, vs) && Acyclic(es) && IsExecution(vs, es, xs, ms) && n < |ms| && Held(xs[n])
    ensures Held(xs[n + 1]) <==> !ReleasesEarly(xs[n], ms[n])
  {
    ExecutionInv(vs, es, xs, ms, n);
    var m := ms[n];
    if Initial(xs[n]) {
      StartHolds(vs, es, xs[n], m, xs[n + 1]);
    } else {
      ProtocolKept(vs, es, xs[n], m, xs[n + 1]);
      ReleaseExact(vs, es, xs[n], m, xs[n + 1]);
    }
  }

  /** Each step that finds the delegate held leaves it held exactly when it does not release it early. */
  ghost predicate ReleasesExact(xs: seq<Exec>, ms: seq<Move>) {
    && |xs| == |ms| + 1 && Held(xs[0])
    && forall k {:trigger ReleasesEarly(xs[k], ms[k])} :: 0 <= k < |ms| && Held(xs[k]) ==>
         (Held(xs[k + 1]) <==> !ReleasesEarly(xs[k], ms[k]))
  }

  lemma {:induction false} HeldExact(xs: seq<Exec>, ms: seq<Move>, n: nat)
    requires ReleasesExact(xs, ms) && n <= |ms|
    ensures (forall k :: 0 <= k <= n ==> Held(xs[k])) <==> (forall k :: 0 <= k < n ==> !ReleasesEarly(xs[k], ms[k]))
  {
    if n == 0 {
    } else {
      HeldExact(xs, ms, n - 1);
      assert Held(xs[n - 1]) ==> (Held(xs[n - 1 + 1]) <==> !ReleasesEarly(xs[n - 1], ms[n - 1]));
    }
  }

  /** Exactly when the delegate is held: over a whole execution every item computes with the reference
      on its delegate if and only if no dispatch and no pool thread ends the cancelled run while some
      item computes, which the two cancel tests could tell. */
  lemma DelegateHeldExactly(vs: set<Item>, es: set<Edge>, xs: seq<Exec>, ms: seq<Move>)
    requires Closed(es, vs) && Acyclic(es) && IsExecution(vs, es, xs, ms)
    ensures (forall k :: 0 <= k <= |ms| ==> Held(xs[k])) <==>
              (forall k :: 0 <= k < |ms| ==> !ReleasesEarly(xs[k], ms[k]))
  {
    forall k | 0 <= k < |ms| && Held(xs[k]) ensures Held(xs[k + 1]) <==> !ReleasesEarly(xs[k], ms[k]) {
      ExecutionStepExact(vs, es, xs, ms, k);
    }
    HeldExact(xs, ms, |ms|);
  }

  /** In every interleaving no check fails, every run is over after a bounded number of moves, each
      reference taken on the delegate is given back when the run ends, and without a cancel request
      not before the last item is done. */
  lemma EveryExecution(vs: set<Item>, es: set<Edge>, xs: seq<Exec>, ms: seq<Move>)
    requires Closed(es, vs) && Acyclic(es) && IsExecution(vs, es, xs, ms)
    ensures Effective(ms) <= 6 * |vs| + 5
    ensures var x := xs[|ms|];
            && !x.checkFailed
            && (x.desk.posted == [] || x.desk.posted == [NoticeStart]
                || x.desk.posted == [NoticeStart, NoticeFinish] || x.desk.posted == [NoticeStart, NoticeCancel])
            && x.desk.refs == (if x.desk.posted == [NoticeStart] then 1 else 0)
            && x.desk.notifyEnd == (x.desk.posted != [NoticeStart])
            && (forall i :: 0 <= i < |x.threads| && x.threads[i].Running? ==> x.desk.refs == 1 || x.desk.cancel)
    ensures !Quiescent(xs[|ms|]) ==> exists m: Move :: !m.UserCancel? && CanStep(vs, es, xs[|ms|], m)
  {
    ExecutionInv(vs, es, xs, ms, |ms|);
    ExecutionWork(vs, es, xs, ms, |ms|);
    assert ms[..|ms|] == ms;
    WorkNotNegative(vs, es, xs[|ms|]);
    forall i | 0 <= i < |xs[|ms|].threads| && xs[|ms|].threads[i].Running?
      ensures xs[|ms|].desk.refs == 1 || xs[|ms|].desk.cancel
    {
      RunningHoldsDelegate(vs, es, xs[|ms|], i);
    }
    if !Quiescent(xs[|ms|]) {
      var m: Move :| Enabled(xs[|ms|], m) && !m.UserCancel?;
      MoveExists(vs, es, xs[|ms|], m);
    }
  }

  ghost predicate EndsWell(vs: set<Item>, es: set<Edge>, x: Exec) {
    && x.desk.notifyEnd && x.desk.refs == 0
    && (x.desk.posted == [NoticeStart, NoticeFinish] || x.desk.posted == [NoticeStart, NoticeCancel])
    && x.status == (if x.desk.posted[1] == NoticeFinish then Done else Canceled)
    && (x.status == Canceled ==> x.desk.cancel)
    && (x.status == Done ==> vs == x.h.ok + Lost(vs, es, x.h.bad))
    && (x.status == Done && x.h.bad == {} ==> vs == x.h.ok == Elements(x.h.started))
  }

  lemma QuiescentEndsWell(vs: set<Item>, es: set<Edge>, x: Exec)
    requires Closed(es, vs) && Acyclic(es) && Inv(vs, es, x) && Quiescent(x)
    ensures EndsWell(vs, es, x)
  {
    QuiescentMeans(x);
    AcyclicSubset(x.h.w.edges, es);
    FinishedMeansEmpty(x.h.w);
  }

  /** When nothing can move any more, exactly one terminal notice was posted and received: Cancel
      only if the user asked for it, Finish only if every item succeeded or depends on a failed
      one. No completion is lost. */
  lemma EveryExecutionEnds(vs: set<Item>, es: set<Edge>, xs: seq<Exec>, ms: seq<Move>)
    requires Closed(es, vs) && Acyclic(es) && IsExecution(vs, es, xs, ms) && Quiescent(xs[|ms|])
    ensures EndsWell(vs, es, xs[|ms|])
  {
    ExecutionInv(vs, es, xs, ms, |ms|);
    QuiescentEndsWell(vs, es, xs[|ms|]);
  }
}

module CalcExecuters {
  import opened EdgeMaps
  import opened Graphs
  import opened Sequences
  import opened CalcGroups
  import opened WalkerSpec
  import opened CalcGroupWalkers
  import opened ExecuterSpec

  /** The list behind the edges of the walker's graph, before and after a move. */
  ghost predicate ListsAt(e: Exec, m: Move, edges: seq<Edge>, edges': seq<Edge>)
    requires ExecuterSpec.Enabled(e, m)
  {
    match m
    case Leave(i, ok) => Lists(e.h.w, Action.Mark(e.threads[i].item, ok), edges, edges')
    case _ => edges' == edges
  }

  /** Before StartRun the list is that of the clone to come. */
  ghost predicate ListFits(e: Exec, edges: seq<Edge>) {
    Sorted(edges) && TargetsDiffer(edges) && (Initial(e) || Elements(edges) == e.h.w.edges)
  }

  lemma LeaveListKept(e: Exec, i: nat, ok: bool, e': Exec, edges: seq<Edge>, edges': seq<Edge>)
    requires Protocol(e) && Frontier(e.h.w)
    requires ExecuterSpec.Enabled(e, Leave(i, ok)) && Step({}, {}, e, Leave(i, ok), e')
    requires ListsAt(e, Leave(i, ok), edges, edges')
    requires Elements(edges) == e.h.w.edges && Sorted(edges) && TargetsDiffer(edges)
    ensures Elements(edges') == e'.h.w.edges && Sorted(edges') && TargetsDiffer(edges')
  {
    var item := e.threads[i].item;
    RunningIsStarted(e.threads, i, item, multiset(e.h.w.current));
    ListsKept(e.h.w, Action.Mark(item, ok), e'.h.w, edges, edges');
  }

  lemma FirstListKept(vs: set<Item>, es: set<Edge>, e: Exec, m: Move, e': Exec, edges: seq<Edge>, edges': seq<Edge>)
    requires Initial(e) && ExecuterSpec.Enabled(e, m) && Step(vs, es, e, m, e')
    requires ListsAt(e, m, edges, edges') && Elements(edges) == es
    ensures edges' == edges && (Initial(e') || e'.h.w.edges == es)
  {
  }

  lemma OtherKeepsEdges(vs: set<Item>, es: set<Edge>, e: Exec, m: Move, e': Exec)
    requires ExecuterSpec.Enabled(e, m) && Step(vs, es, e, m, e') && !m.StartRun? && !m.Leave?
    ensures e'.h.w.edges == e.h.w.edges
  {
  }

  lemma LaterListKept(vs: set<Item>, es: set<Edge>, e: Exec, m: Move, e': Exec, edges: seq<Edge>, edges': seq<Edge>)
    requires Protocol(e) && Frontier(e.h.w)
    requires ExecuterSpec.Enabled(e, m) && Step(vs, es, e, m, e') && !m.StartRun?
    requires ListsAt(e, m, edges, edges')
    requires Elements(edges) == e.h.w.edges && Sorted(edges) && TargetsDiffer(edges)
    ensures Elements(edges') == e'.h.w.edges && Sorted(edges') && TargetsDiffer(edges')
  {
    if m.Leave? {
      LeaveListKept(e, m.i, m.ok, e', edges, edges');
    } else {
      OtherKeepsEdges(vs, es, e, m, e');
    }
  }

  lemma ListKept(vs: set<Item>, es: set<Edge>, e: Exec, m: Move, e': Exec, edges: seq<Edge>, edges': seq<Edge>)
    requires Inv(vs, es, e) && ExecuterSpec.Enabled(e, m) && Step(vs, es, e, m, e')
    requires ListFits(e, edges) && ListsAt(e, m, edges, edges') && (Initial(e) ==> Elements(edges) == es)
    ensures ListFits(e', edges') && (Initial(e') ==> Elements(edges') == es)
  {
    if Initial(e) {
      FirstListKept(vs, es, e, m, e', edges, edges');
    } else {
      ProtocolKept(vs, es, e, m, e');
      LaterListKept(vs, es, e, m, e', edges, edges');
    }
  }

  ghost predicate IsListedExecution(vs: set<Item>, xs: seq<Exec>, ms: seq<Move>, lists: seq<seq<Edge>>) {
    && |lists| == |xs| > 0
    && IsExecution(vs, Elements(lists[0]), xs, ms)
    && forall k {:trigger ms[k]} :: 0 <= k < |ms| ==> ListsAt(xs[k], ms[k], lists[k], lists[k + 1])
  }

  lemma {:induction false} ExecutionListFits(vs: set<Item>, xs: seq<Exec>, ms: seq<Move>, lists: seq<seq<Edge>>, n: nat)
    requires IsListedExecution(vs, xs, ms, lists) && n <= |ms|
    requires Closed(Elements(lists[0]), vs) && Acyclic(Elements(lists[0]))
    requires Sorted(lists[0]) && TargetsDiffer(lists[0])
    ensures ListFits(xs[n], lists[n]) && (Initial(xs[n]) ==> Elements(lists[n]) == Elements(lists[0]))
  {
    if n == 0 {
    } else {
      ExecutionListFits(vs, xs, ms, lists, n - 1);
      ExecutionInv(vs, Elements(lists[0]), xs, ms, n - 1);
      var m := ms[n - 1];
      ListKept(vs, Elements(lists[0]), xs[n - 1], m, xs[n], lists[n - 1], lists[n]);
    }
  }

  /** The executer never meets an undefined failure in a group in which no item waits for two entries. */
  lemma EveryItemEndDefined(vs: set<Item>, xs: seq<Exec>, ms: seq<Move>, lists: seq<seq<Edge>>)
    requires IsListedExecution(vs, xs, ms, lists)
    requires Closed(Elements(lists[0]), vs) && Acyclic(Elements(lists[0]))
    requires Sorted(lists[0]) && TargetsDiffer(lists[0])
    ensures forall k :: 0 <= k < |ms| ==> Sorted(lists[k])
    ensures forall k :: 0 <= k < |ms| && ms[k].Leave? ==> RoundsKept(lists[k], [xs[k].threads[ms[k].i].item])
  {
    forall k | 0 <= k < |ms|
      ensures Sorted(lists[k])
      ensures ms[k].Leave? ==> RoundsKept(lists[k], [xs[k].threads[ms[k].i].item])
    {
      ExecutionListFits(vs, xs, ms, lists, k);
      if ms[k].Leave? {
        SingleDependencies(lists[k], [xs[k].threads[ms[k].i].item]);
      }
    }
  }

  class AsyncTask {
    var status: Status
    var cancel: bool
    var posted: seq<Notice>  // all that was ever posted to the message loop
    var delivered: nat       // how much of it the loop has run

    constructor ()
      ensures status == NoStart && !cancel && posted == [] && delivered == 0
    {
      status, cancel, posted, delivered := NoStart, false, [], 0;
    }

    method Cancel()
      modifies this`cancel
      ensures cancel
    {
      cancel := true;
    }

    method Notify(notice: Notice)
      modifies this`posted
      ensures posted == old(posted) + [notice]
    {
      posted := posted + [notice];
    }

    /** The message loop runs the oldest notice; checked tells whether the CHECK held. */
    method RunNext() returns (checked: bool)
      requires delivered < |posted|
      modifies this`status, this`delivered
      ensures var desk := Desk(true, 0, cancel, posted);
              var h := History(Walker({}, {}, [], []), [], {}, {});
              Exec(desk, h, [], delivered, status, !checked)
              == Received(Exec(desk, h, [], old(delivered), old(status), false))
      ensures delivered == old(delivered) + 1
      ensures checked <==> old(status) == if posted[old(delivered)] == NoticeStart then NoStart else InRun
      ensures match posted[old(delivered)]
              case NoticeStart => status == InRun
              case NoticeFinish => status == Status.Done
              case NoticeCancel => status == Canceled
    {
      var notice := posted[delivered];
      delivered := delivered + 1;
      match notice
      case NoticeStart =>
        checked := status == NoStart;
        status := InRun;
      case NoticeFinish =>
        checked := status == InRun;
        status := Status.Done;
      case NoticeCancel =>
        checked := status == InRun;
        status := Canceled;
    }
  }

  class CalcExecuter {
    const group: CalcGroup
    var notifyEnd: bool
    var delegateRefs: int
    var task: AsyncTask
    var walker: CalcGroupWalker

    ghost function View(): (d: Desk)
      reads this, task
    {
      Desk(notifyEnd, delegateRefs, task.cancel, task.posted)
    }

    constructor (group: CalcGroup, task: AsyncTask, clones: map<Item, Item>)
      requires group.Valid() && Acyclic(Elements(group.edges))
      requires Injective(clones) && forall v :: v in group.allNodes ==> v in clones
      ensures this.group == group && this.task == task && notifyEnd && delegateRefs == 0
    {
      this.group, this.task, notifyEnd, delegateRefs := group, task, true, 0;
      var w := new CalcGroupWalker(group, clones);
      walker := w;
    }

    /** notify_end_ is tested and set under the lock, so only one caller posts. */
    method EndOnce(notice: Notice)
      modifies this`notifyEnd, this`delegateRefs, task`posted
      ensures View() == EndWith(old(View()), notice)
    {
      if !notifyEnd {
        notifyEnd := true;
        delegateRefs := delegateRefs - 1;
        task.Notify(notice);
      }
    }

    /** clones names the item objects made for this run. */
    method Reset(clones: map<Item, Item>)
      requires notifyEnd
      requires group.Valid() && Acyclic(Elements(group.edges))
      requires Injective(clones) && forall v :: v in group.allNodes ==> v in clones
      modifies this`walker, this`notifyEnd
      ensures !notifyEnd && walker.Valid() && fresh(walker) && fresh(walker.graph)
      ensures Covers(clones, Elements(group.edges))
      ensures Begins(Elements(Renamed(group.allNodes, clones)), Image(Elements(group.edges), clones),
                     History(walker.View(), [], {}, {}))
      ensures TargetsDiffer(group.edges) ==> TargetsDiffer(walker.graph.edges)
    {
      walker := new CalcGroupWalker(group, clones);
      notifyEnd := false;
    }

    /** The rest of the block; go tells whether there is anything to run. */
    method Open() returns (go: bool)
      modifies this`notifyEnd, this`delegateRefs, task`posted
      ensures go == !Finished(walker.View())
      ensures var d := old(View());
              View() == if go then d.(refs := d.refs + 1, posted := d.posted + [NoticeStart])
                        else d.(notifyEnd := true, posted := d.posted + [NoticeStart, NoticeFinish])
    {
      task.Notify(NoticeStart);
      var done := walker.Finish();
      if done {
        notifyEnd := true;
        task.Notify(NoticeFinish);
        return false;
      }
      delegateRefs := delegateRefs + 1;
      go := true;
    }

    method StartRun(clones: map<Item, Item>) returns (go: bool)
      requires notifyEnd
      requires group.Valid() && Acyclic(Elements(group.edges))
      requires Injective(clones) && forall v :: v in group.allNodes ==> v in clones
      modifies this, task`posted
      ensures task == old(task) && walker.Valid() && fresh(walker) && fresh(walker.graph)
      ensures Covers(clones, Elements(group.edges))
      ensures StartBlock(Elements(Renamed(group.allNodes, clones)), Image(Elements(group.edges), clones),
                         old(View()), View(), walker.View(), go)
      ensures TargetsDiffer(group.edges) ==> TargetsDiffer(walker.graph.edges)
    {
      Reset(clones);
      go := Open();
    }

    method StartAllRunnable() returns (go: bool, items: seq<Item>)
      requires walker.Valid()
      modifies this`notifyEnd, this`delegateRefs, task`posted, walker
      ensures walker.Valid()
      ensures DispatchBlock(old(View()), old(walker.View()), View(), walker.View(), go)
      ensures items == if go then old(walker.runnable) else []
    {
      if task.cancel {
        EndOnce(NoticeCancel);
        return false, [];
      }
      items := walker.StartAll();
      go := true;
    }

    method RunItemBegin() returns (go: bool)
      modifies this`notifyEnd, this`delegateRefs, task`posted
      ensures EnterBlock(old(View()), View(), go)
    {
      if task.cancel {
        EndOnce(NoticeCancel);
        return false;
      }
      go := true;
    }

    method RunItemEnd(item: Item, ok: bool) returns (go: bool)
      requires walker.Valid() && item in walker.current
      requires ok || RoundsKept(walker.graph.edges, [item])
      modifies this`notifyEnd, this`delegateRefs, task`posted, walker, walker.graph
      ensures walker.Valid()
      ensures LeaveBlock(old(View()), old(walker.View()), item, ok, View(), walker.View(), go)
      ensures walker == old(walker)
      ensures walker.graph.edges == LeftBy(Elements(old(walker.graph.allNodes)), old(walker.graph.edges), item, ok)
    {
      walker.Mark(item, ok);
      var done := walker.Finish();
      if done {
        EndOnce(NoticeFinish);
        return false;
      }
      go := true;
    }
  }
}
