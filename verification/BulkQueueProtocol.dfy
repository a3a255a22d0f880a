/** The readers of device/sequenced_bulk_queue.{h,cc} as an interleaved system: every
    lock-protected block is one step, every reader thread has a program counter, and log records
    all bulks ever pushed. Runs end before Quit. */
module BulkQueueProtocol {
  import opened BulkQueue

  /** WaitForReady, WaitTimeoutForReady and CallbackOnReady. */
  datatype WaitKind = Sync | Timed | Async

  /** Where a reader's thread is inside a wait. had and from are what the reader had got and
      wanted when the wait began. */
  datatype Pc =
    | Idle
    | Checked(kind: WaitKind, had: nat, from: int)   // CheckReady said no
    | Inserted(kind: WaitKind, had: nat, from: int)  // record inserted, MayFireCallback still to come
    | Waiting(kind: WaitKind, had: nat, from: int)   // at the event, or back in the message loop
    | TimedOut(had: nat, from: int)                  // TimedWait said no, CancelCallback still to come
    | Draining(had: nat, from: int)                  // the callback fired before the cancel
    | Leaving                                        // destructor between its two blocks

  /** next is the number wanted next, signaled the event (for Async: the posted callback), got
      what was received so far, early whether all bulks ever pushed were still retained when the reader
      registered. */
  datatype Reader = Reader(next: int, signaled: bool, got: seq<Piece>, early: bool, pc: Pc)

  datatype World = World(q: Queue, pending: map<ReaderId, int>, readers: map<ReaderId, Reader>,
                         log: seq<Bulk>, failed: bool)

  datatype Move =
    | Register(r: ReaderId) | Unregister(r: ReaderId) | CancelForGood(r: ReaderId)
    | Push(b: Bulk) | Recycle
    | Read(r: ReaderId) | Skip(r: ReaderId, n: nat)
    | BeginWait(r: ReaderId, kind: WaitKind)
    | Insert(r: ReaderId) | Fire(r: ReaderId)
    | Timeout(r: ReaderId) | Cancel(r: ReaderId) | Wake(r: ReaderId)

  predicate Enabled(w: World, m: Move) {
    match m
    case Register(r) => r !in w.readers
    case Push(_) => true
    case Recycle => true
    case Unregister(r) => r in w.readers && (w.readers[r].pc.Idle? || w.readers[r].pc.Leaving?)
    case CancelForGood(r) => r in w.readers && w.readers[r].pc.Waiting? && w.readers[r].pc.kind.Async?
    case Read(r) => r in w.readers && w.readers[r].pc.Idle?
    case Skip(r, _) => r in w.readers && w.readers[r].pc.Idle?
    case BeginWait(r, _) => r in w.readers && w.readers[r].pc.Idle?
    case Insert(r) => r in w.readers && w.readers[r].pc.Checked?
    case Fire(r) => r in w.readers && w.readers[r].pc.Inserted?
    case Timeout(r) => r in w.readers && w.readers[r].pc.Waiting? && w.readers[r].pc.kind.Timed?
    case Cancel(r) => r in w.readers && w.readers[r].pc.TimedOut?
    case Wake(r) =>
      r in w.readers && w.readers[r].signaled && (w.readers[r].pc.Waiting? || w.readers[r].pc.Draining?)
  }

  function Served(rd: Reader, p: Piece): Reader {
    rd.(next := p.count + 1, got := rd.got + [p])
  }

  function Skipped(rd: Reader, n: nat): Reader {
    rd.(next := rd.next + n)
  }

  /** GetBulk of one reader that finds an entry. */
  ghost function ReadBy(w: World, r: ReaderId): World
    requires r in w.readers && Found(w.q, w.readers[r].next)
  {
    var p := Find(w.q, w.readers[r].next);
    w.(q := Passed(w.q, r, p), readers := w.readers[r := Served(w.readers[r], p)])
  }

  /** The records that ask for reach or less. */
  function Due(w: World, reach: int): set<ReaderId> {
    set r | r in w.pending && w.pending[r] <= reach
  }

  ghost predicate AllFound(w: World, due: set<ReaderId>) {
    forall r :: r in due ==> r in w.readers && Found(w.q, w.readers[r].next)
  }

  ghost function CountsAfter(w: World, due: set<ReaderId>): map<ReaderId, int>
    requires AllFound(w, due)
  {
    map r | r in w.q.counts :: if r in due then Find(w.q, w.readers[r].next).count else w.q.counts[r]
  }

  ghost function ReadersAfter(w: World, due: set<ReaderId>): map<ReaderId, Reader>
    requires AllFound(w, due)
  {
    map r | r in w.readers ::
      if r in due then Served(w.readers[r], Find(w.q, w.readers[r].next)).(signaled := true) else w.readers[r]
  }

  /** Each reader of due consumes its entry and is signalled, all at once. */
  ghost function ServeAll(w: World, due: set<ReaderId>): (w': World)
    requires AllFound(w, due)
  {
    var q := w.q.(counts := CountsAfter(w, due));
    w.(q := if due == {} then q else Release(q), pending := w.pending - due, readers := ReadersAfter(w, due))
  }

  /** FireCallbackNoLock. A callback that finds no entry fails the DCHECK in Reader::GetBulk. */
  ghost function Fired(w: World, reach: int): World {
    var due := Due(w, reach);
    if AllFound(w, due) then ServeAll(w, due) else w.(failed := true)
  }

  // ----- the moves

  predicate At(w: World, r: ReaderId) {
    r in w.readers && r in w.q.counts
  }

  function SetReader(w: World, r: ReaderId, rd: Reader): World {
    w.(readers := w.readers[r := rd])
  }

  /** RegisterReader; new readers always start below number 0. */
  function Registered(w: World, r: ReaderId): World {
    w.(q := w.q.(counts := w.q.counts[r := -1]),
       readers := w.readers[r := Reader(0, false, [], |w.q.pieces| == w.q.total, Idle)])
  }

  /** UnRegisterReader; nothing is released here. */
  function Unregistered(w: World, r: ReaderId): World {
    w.(q := w.q.(counts := w.q.counts - {r}), readers := w.readers - {r})
  }

  /** PushBulk. */
  ghost function Pushed(w: World, b: Bulk): World {
    var w1 := Fired(w.(q := Appended(w.q, b), log := w.log + [b]), w.q.total);
    w1.(q := Release(w1.q))
  }

  /** Reader::GetBulkSameThread. */
  ghost function ReadOnce(w: World, r: ReaderId): World
    requires At(w, r)
  {
    if Found(w.q, w.readers[r].next) then ReadBy(w, r) else w
  }

  /** CheckReady at the start of a wait. A ready asynchronous wait posts its callback at once. */
  ghost function WaitBegun(w: World, r: ReaderId, kind: WaitKind): World
    requires At(w, r)
  {
    var rd := w.readers[r];
    if !Found(w.q, rd.next) then SetReader(w, r, rd.(pc := Checked(kind, |rd.got|, rd.next)))
    else
      var w1 := ReadBy(w, r);
      if kind.Async?
      then SetReader(w1, r, w1.readers[r].(signaled := true, pc := Waiting(kind, |rd.got|, rd.next)))
      else w1
  }

  /** The first block of SetReadyCallback. */
  function RecordInserted(w: World, r: ReaderId): World
    requires At(w, r) && w.readers[r].pc.Checked?
  {
    var rd := w.readers[r];
    SetReader(w, r, rd.(pc := Inserted(rd.pc.kind, rd.pc.had, rd.pc.from))).(pending := w.pending[r := rd.next])
  }

  /** MayFireCallback, the second block of SetReadyCallback. */
  ghost function CallbackFired(w: World, r: ReaderId): World
    requires At(w, r) && w.readers[r].pc.Inserted?
  {
    var w1 := if w.q.pieces == [] then w else Fired(w, w.q.pieces[|w.q.pieces| - 1].count);
    var pc := w.readers[r].pc;
    SetReader(w1, r, w1.readers[r].(pc := Waiting(pc.kind, pc.had, pc.from)))
  }

  /** CancelCallback after a timeout. */
  function Cancelled(w: World, r: ReaderId): World
    requires At(w, r) && w.readers[r].pc.TimedOut?
  {
    var rd := w.readers[r];
    if r in w.pending then SetReader(w, r, rd.(pc := Idle)).(pending := w.pending - {r})
    else SetReader(w, r, rd.(pc := Draining(rd.pc.had, rd.pc.from)))
  }

  /** CancelCallback in the reader's destructor. */
  function Left(w: World, r: ReaderId): World
    requires At(w, r)
  {
    SetReader(w, r, w.readers[r].(pc := Leaving)).(pending := w.pending - {r})
  }

  ghost function Apply(w: World, m: Move): World
    requires Enabled(w, m) && w.q.counts.Keys == w.readers.Keys
  {
    match m
    case Register(r) => Registered(w, r)
    case Unregister(r) => Unregistered(w, r)
    case CancelForGood(r) => Left(w, r)
    case Push(b) => Pushed(w, b)
    case Recycle => w.(q := Recycled(w.q).0)
    case Read(r) => ReadOnce(w, r)
    case Skip(r, n) => SetReader(w, r, Skipped(w.readers[r], n))
    case BeginWait(r, kind) => WaitBegun(w, r, kind)
    case Insert(r) => RecordInserted(w, r)
    case Fire(r) => CallbackFired(w, r)
    case Timeout(r) => SetReader(w, r, w.readers[r].(pc := TimedOut(w.readers[r].pc.had, w.readers[r].pc.from)))
    case Cancel(r) => Cancelled(w, r)
    case Wake(r) => SetReader(w, r, w.readers[r].(signaled := false, pc := Idle))
  }

  // ----- the invariant

  ghost predicate FromLog(log: seq<Bulk>, p: Piece) {
    0 <= p.count < |log| && p.bulk == log[p.count]
  }

  ghost predicate Shape(w: World) {
    && |w.log| == w.q.total
    && Increasing(w.q.pieces) && (forall p :: p in w.q.pieces ==> FromLog(w.log, p))
    && w.q.counts.Keys == w.readers.Keys
    && w.pending.Keys <= w.readers.Keys
    && !w.failed
  }

  /** The outcome of a wait so far: one entry numbered from or more was consumed just when the
      reader was signalled; otherwise nothing changed. */
  ghost predicate Since(rd: Reader, had: nat, from: int) {
    if rd.signaled
    then |rd.got| == had + 1 && rd.got[had].count >= from && rd.next == rd.got[had].count + 1
    else |rd.got| == had && rd.next == from
  }

  ghost predicate PcFits(rd: Reader, pending: bool) {
    match rd.pc
    case Idle => !pending && !rd.signaled
    case Checked(_, had, from) => !pending && !rd.signaled && Since(rd, had, from)
    case Inserted(_, had, from) => pending == !rd.signaled && Since(rd, had, from)
    case Waiting(_, had, from) => pending == !rd.signaled && Since(rd, had, from)
    case TimedOut(had, from) => pending == !rd.signaled && Since(rd, had, from)
    case Draining(had, from) => !pending && rd.signaled && Since(rd, had, from)
    case Leaving => !pending
  }

  /** read is the reader's entry in the queue's count map. */
  ghost predicate ReaderFits(log: seq<Bulk>, read: int, rd: Reader, pending: bool) {
    && -1 <= read < rd.next
    && Increasing(rd.got) && (forall p :: p in rd.got ==> FromLog(log, p))
    && read == (if rd.got == [] then -1 else rd.got[|rd.got| - 1].count)
    && PcFits(rd, pending)
  }

  ghost predicate Fits(w: World) {
    && Shape(w)
    && (forall r :: r in w.readers ==> ReaderFits(w.log, w.q.counts[r], w.readers[r], r in w.pending))
    && (forall r :: r in w.pending ==> w.pending[r] == w.readers[r].next)
  }

  /** No lost wakeup: a pending record asks for more than all that is retained, unless its owner
      has yet to call MayFireCallback. */
  ghost predicate Woken(w: World)
    requires w.pending.Keys <= w.readers.Keys
  {
    forall r, p :: r in w.pending && p in w.q.pieces && !w.readers[r].pc.Inserted? ==> p.count < w.pending[r]
  }

  ghost predicate Inv(w: World) {
    Fits(w) && Woken(w)
  }

  // ----- every move keeps it

  lemma ReleaseShrinks(q: Queue)
    requires Increasing(q.pieces)
    ensures Increasing(Release(q).pieces) && Release(q) == q.(pieces := Release(q).pieces)
    ensures forall p :: p in Release(q).pieces ==> p in q.pieces
  {
    if q.counts.Keys != {} {
      AboveMembers(q.pieces, MinOf(q.counts));
    }
  }

  lemma IncreasingLast(pieces: seq<Piece>)
    requires Increasing(pieces) && pieces != []
    ensures forall p :: p in pieces ==> p.count <= pieces[|pieces| - 1].count
  {
  }

  lemma FindsIt(q: Queue, c: int, p: Piece)
    requires p in q.pieces && c <= p.count < q.total
    ensures Found(q, c)
  {
    var k :| 0 <= k < |q.pieces| && q.pieces[k] == p;
  }

  /** Consuming p keeps a reader consistent. */
  lemma ServedFits(log: seq<Bulk>, read: int, rd: Reader, pending: bool, p: Piece)
    requires ReaderFits(log, read, rd, pending) && FromLog(log, p) && p.count >= rd.next
    ensures rd.pc.Idle? ==> ReaderFits(log, p.count, Served(rd, p), false)
    ensures pending ==> ReaderFits(log, p.count, Served(rd, p).(signaled := true), false)
  {
    var got := rd.got + [p];
    assert forall i :: 0 <= i < |rd.got| ==> rd.got[i].count <= read by {
      if rd.got != [] {
        IncreasingLast(rd.got);
      }
    }
  }

  lemma ServeAllFits(w: World, due: set<ReaderId>)
    requires Fits(w) && due <= w.pending.Keys && AllFound(w, due)
    ensures Fits(ServeAll(w, due))
    ensures forall p :: p in ServeAll(w, due).q.pieces ==> p in w.q.pieces
  {
    var w' := ServeAll(w, due);
    ReleaseShrinks(w.q.(counts := w'.q.counts));
    forall r | r in w'.readers ensures ReaderFits(w'.log, w'.q.counts[r], w'.readers[r], r in w'.pending) {
      if r in due {
        ServedFits(w.log, w.q.counts[r], w.readers[r], true, Find(w.q, w.readers[r].next));
      }
    }
  }

  /** Every callback that fires finds its entry, whatever the earlier ones released. */
  lemma FiredFits(w: World, reach: int, p: Piece)
    requires Fits(w) && p in w.q.pieces && reach <= p.count
    ensures AllFound(w, Due(w, reach)) && Fits(Fired(w, reach))
    ensures forall x :: x in Fired(w, reach).q.pieces ==> x in w.q.pieces
    ensures forall r :: r in Fired(w, reach).pending ==> Fired(w, reach).pending[r] > reach
  {
    forall r | r in Due(w, reach) ensures r in w.readers && Found(w.q, w.readers[r].next) {
      FindsIt(w.q, w.readers[r].next, p);
    }
    ServeAllFits(w, Due(w, reach));
  }

  lemma ReadByStaysFit(w: World, r: ReaderId)
    requires Fits(w) && r in w.readers && w.readers[r].pc.Idle? && Found(w.q, w.readers[r].next)
    ensures Fits(ReadBy(w, r))
  {
    var p := Find(w.q, w.readers[r].next);
    ServedFits(w.log, w.q.counts[r], w.readers[r], false, p);
    ReleaseShrinks(w.q.(counts := w.q.counts[r := p.count]));
  }

  lemma ReadByFits(w: World, r: ReaderId)
    requires Inv(w) && r in w.readers && w.readers[r].pc.Idle? && Found(w.q, w.readers[r].next)
    ensures Inv(ReadBy(w, r))
  {
    ReadByStaysFit(w, r);
    ReleaseShrinks(w.q.(counts := w.q.counts[r := Find(w.q, w.readers[r].next).count]));
  }

  lemma AppendedFits(w: World, b: Bulk)
    requires Fits(w)
    ensures Fits(w.(q := Appended(w.q, b), log := w.log + [b]))
  {
    var w' := w.(q := Appended(w.q, b), log := w.log + [b]);
    forall p | FromLog(w.log, p) ensures FromLog(w'.log, p) {
    }
    assert forall i :: 0 <= i < |w.q.pieces| ==> w.q.pieces[i] in w.q.pieces;
    forall r | r in w'.readers ensures ReaderFits(w'.log, w'.q.counts[r], w'.readers[r], r in w'.pending) {
      assert ReaderFits(w.log, w.q.counts[r], w.readers[r], r in w.pending);
    }
  }

  lemma PushFits(w: World, b: Bulk)
    requires Inv(w)
    ensures Inv(Pushed(w, b))
  {
    var w0 := w.(q := Appended(w.q, b), log := w.log + [b]);
    var p := Piece(b, w.q.total);
    assert w0.q.pieces[|w.q.pieces|] == p;
    AppendedFits(w, b);
    FiredFits(w0, w.q.total, p);
    var w1 := Fired(w0, w.q.total);
    ReleaseShrinks(w1.q);
    forall x | x in w0.q.pieces ensures x.count <= w.q.total {
      assert FromLog(w0.log, x);
    }
  }

  /** Changing one reader while the queue stays as it is. */
  lemma Retold(w: World, r: ReaderId, rd: Reader)
    requires Fits(w) && r in w.readers
    requires ReaderFits(w.log, w.q.counts[r], rd, r in w.pending)
    requires r in w.pending ==> rd.next == w.readers[r].next
    ensures Fits(SetReader(w, r, rd))
  {
  }

  lemma ServeAllKeepsPc(w: World, due: set<ReaderId>, r: ReaderId)
    requires AllFound(w, due) && r in w.readers
    ensures r in ServeAll(w, due).readers && ServeAll(w, due).readers[r].pc == w.readers[r].pc
  {
  }

  /** The part of Fire inside the lock. */
  lemma FiredLastFits(w: World, r: ReaderId) returns (w1: World)
    requires Inv(w) && r in w.readers
    ensures w1 == if w.q.pieces == [] then w else Fired(w, w.q.pieces[|w.q.pieces| - 1].count)
    ensures Fits(w1) && r in w1.readers && w1.readers[r].pc == w.readers[r].pc
    ensures forall s, p :: s in w1.pending && p in w1.q.pieces ==> p.count < w1.pending[s]
  {
    w1 := w;
    if w.q.pieces != [] {
      var last := w.q.pieces[|w.q.pieces| - 1];
      IncreasingLast(w.q.pieces);
      FiredFits(w, last.count, last);
      ServeAllKeepsPc(w, Due(w, last.count), r);
      w1 := Fired(w, last.count);
      BelowPending(w.q.pieces, last.count, w1);
    }
  }

  lemma BelowPending(pieces: seq<Piece>, reach: int, w1: World)
    requires forall p :: p in pieces ==> p.count <= reach
    requires forall p :: p in w1.q.pieces ==> p in pieces
    requires forall s :: s in w1.pending ==> w1.pending[s] > reach
    ensures forall s, p :: s in w1.pending && p in w1.q.pieces ==> p.count < w1.pending[s]
  {
  }

  lemma NowWaiting(log: seq<Bulk>, read: int, rd: Reader, pending: bool)
    requires ReaderFits(log, read, rd, pending) && rd.pc.Inserted?
    ensures ReaderFits(log, read, rd.(pc := Waiting(rd.pc.kind, rd.pc.had, rd.pc.from)), pending)
  {
  }

  lemma AllWoken(w: World, r: ReaderId, rd: Reader)
    requires r in w.readers && w.pending.Keys <= w.readers.Keys
    requires forall s, p :: s in w.pending && p in w.q.pieces ==> p.count < w.pending[s]
    ensures Woken(SetReader(w, r, rd))
  {
  }

  lemma NowWaitingFits(w: World, r: ReaderId, rd: Reader)
    requires Fits(w) && r in w.readers && w.readers[r].pc.Inserted?
    requires rd == w.readers[r].(pc := Waiting(w.readers[r].pc.kind, w.readers[r].pc.had, w.readers[r].pc.from))
    ensures Fits(SetReader(w, r, rd))
  {
    NowWaiting(w.log, w.q.counts[r], w.readers[r], r in w.pending);
    Retold(w, r, rd);
  }

  lemma FireMeans(w: World, r: ReaderId, w1: World, rd: Reader)
    requires At(w, r) && w.readers[r].pc.Inserted? && r in w1.readers
    requires w1 == if w.q.pieces == [] then w else Fired(w, w.q.pieces[|w.q.pieces| - 1].count)
    requires rd == w1.readers[r].(pc := Waiting(w.readers[r].pc.kind, w.readers[r].pc.had, w.readers[r].pc.from))
    ensures CallbackFired(w, r) == SetReader(w1, r, rd)
  {
  }

  lemma WaitingKeeps(w: World, r: ReaderId, rd: Reader, w': World)
    requires Fits(w) && r in w.readers && w.readers[r].pc.Inserted?
    requires forall s, p :: s in w.pending && p in w.q.pieces ==> p.count < w.pending[s]
    requires rd == w.readers[r].(pc := Waiting(w.readers[r].pc.kind, w.readers[r].pc.had, w.readers[r].pc.from))
    requires w' == SetReader(w, r, rd)
    ensures Inv(w')
  {
    NowWaitingFits(w, r, rd);
    AllWoken(w, r, rd);
  }

  lemma FireFits(w: World, r: ReaderId)
    requires Inv(w) && At(w, r) && w.readers[r].pc.Inserted?
    ensures Inv(CallbackFired(w, r))
  {
    var w1 := FiredLastFits(w, r);
    var pc := w.readers[r].pc;
    var rd := w1.readers[r].(pc := Waiting(pc.kind, pc.had, pc.from));
    FireMeans(w, r, w1, rd);
    WaitingKeeps(w1, r, rd, CallbackFired(w, r));
  }

  lemma RecycleFits(w: World)
    requires Inv(w)
    ensures Inv(w.(q := Recycled(w.q).0))
  {
    if Recycled(w.q).1 {
      DroppedMembers(w.q.pieces, Victim(w.q.pieces, MinOf(w.q.counts), MaxOf(w.q.counts)));
    }
  }

  lemma NewcomerFits(log: seq<Bulk>, early: bool)
    ensures ReaderFits(log, -1, Reader(0, false, [], early, Idle), false)
  {
  }

  lemma RegisteredFits(w: World, r: ReaderId)
    requires Fits(w) && r !in w.readers
    ensures Fits(Registered(w, r))
  {
    NewcomerFits(w.log, |w.q.pieces| == w.q.total);
  }

  lemma RegisterFits(w: World, r: ReaderId)
    requires Inv(w) && r !in w.readers
    ensures Inv(Registered(w, r))
  {
    RegisteredFits(w, r);
  }

  lemma BeginWaitFits(w: World, r: ReaderId, kind: WaitKind)
    requires Inv(w) && At(w, r) && w.readers[r].pc.Idle?
    ensures Inv(WaitBegun(w, r, kind))
  {
    var rd := w.readers[r];
    if Found(w.q, rd.next) {
      ReadByFits(w, r);
      var w1 := ReadBy(w, r);
      if kind.Async? {
        RetoldInv(w1, r, w1.readers[r].(signaled := true, pc := Waiting(kind, |rd.got|, rd.next)));
      }
    } else {
      RetoldInv(w, r, rd.(pc := Checked(kind, |rd.got|, rd.next)));
    }
  }

  lemma RetoldInv(w: World, r: ReaderId, rd: Reader)
    requires Inv(w) && r in w.readers
    requires ReaderFits(w.log, w.q.counts[r], rd, r in w.pending)
    requires r in w.pending ==> rd.next == w.readers[r].next && (w.readers[r].pc.Inserted? ==> rd.pc.Inserted?)
    ensures Inv(SetReader(w, r, rd))
  {
    Retold(w, r, rd);
  }

  /** Changing one reader and dropping its record while the queue stays as it is. */
  lemma Unrecorded(w: World, r: ReaderId, rd: Reader)
    requires Inv(w) && r in w.readers
    requires ReaderFits(w.log, w.q.counts[r], rd, false)
    ensures Inv(SetReader(w, r, rd).(pending := w.pending - {r}))
  {
    UnrecordedFits(w, r, rd);
  }

  lemma UnrecordedFits(w: World, r: ReaderId, rd: Reader)
    requires Fits(w) && r in w.readers
    requires ReaderFits(w.log, w.q.counts[r], rd, false)
    ensures Fits(SetReader(w, r, rd).(pending := w.pending - {r}))
  {
  }

  /** Changing one reader and adding its record while the queue stays as it is. */
  lemma Recorded(w: World, r: ReaderId, rd: Reader)
    requires Inv(w) && r in w.readers
    requires ReaderFits(w.log, w.q.counts[r], rd, true) && rd.pc.Inserted?
    ensures Inv(SetReader(w, r, rd).(pending := w.pending[r := rd.next]))
  {
    RecordedFits(w, r, rd);
    RecordedWoken(w, r, rd);
  }

  lemma RecordedFits(w: World, r: ReaderId, rd: Reader)
    requires Fits(w) && r in w.readers
    requires ReaderFits(w.log, w.q.counts[r], rd, true)
    ensures Fits(SetReader(w, r, rd).(pending := w.pending[r := rd.next]))
  {
  }

  lemma RecordedWoken(w: World, r: ReaderId, rd: Reader)
    requires w.pending.Keys <= w.readers.Keys && Woken(w) && r in w.readers && rd.pc.Inserted?
    ensures Woken(SetReader(w, r, rd).(pending := w.pending[r := rd.next]))
  {
  }

  lemma InsertFits(w: World, r: ReaderId)
    requires Inv(w) && At(w, r) && w.readers[r].pc.Checked?
    ensures Inv(RecordInserted(w, r))
  {
    var rd := w.readers[r];
    assert ReaderFits(w.log, w.q.counts[r], rd, r in w.pending);
    Recorded(w, r, rd.(pc := Inserted(rd.pc.kind, rd.pc.had, rd.pc.from)));
  }

  lemma CancelFits(w: World, r: ReaderId)
    requires Inv(w) && At(w, r) && w.readers[r].pc.TimedOut?
    ensures Inv(Cancelled(w, r))
  {
    var rd := w.readers[r];
    assert ReaderFits(w.log, w.q.counts[r], rd, r in w.pending);
    if r in w.pending {
      Unrecorded(w, r, rd.(pc := Idle));
    } else {
      RetoldInv(w, r, rd.(pc := Draining(rd.pc.had, rd.pc.from)));
    }
  }

  lemma UnregisterFits(w: World, r: ReaderId)
    requires Inv(w) && At(w, r) && (w.readers[r].pc.Idle? || w.readers[r].pc.Leaving?)
    ensures Inv(Unregistered(w, r))
  {
    assert ReaderFits(w.log, w.q.counts[r], w.readers[r], r in w.pending);
  }

  lemma ReadFits(w: World, r: ReaderId)
    requires Inv(w) && At(w, r) && w.readers[r].pc.Idle?
    ensures Inv(ReadOnce(w, r))
  {
    if Found(w.q, w.readers[r].next) {
      ReadByFits(w, r);
    }
  }

  lemma LeaveFits(w: World, r: ReaderId)
    requires Inv(w) && At(w, r) && w.readers[r].pc.Waiting?
    ensures Inv(Left(w, r))
  {
    assert ReaderFits(w.log, w.q.counts[r], w.readers[r], r in w.pending);
    Unrecorded(w, r, w.readers[r].(pc := Leaving));
  }

  lemma SkipFits(w: World, r: ReaderId, n: nat)
    requires Inv(w) && At(w, r) && w.readers[r].pc.Idle?
    ensures Inv(SetReader(w, r, Skipped(w.readers[r], n)))
  {
    assert ReaderFits(w.log, w.q.counts[r], w.readers[r], r in w.pending);
    RetoldInv(w, r, Skipped(w.readers[r], n));
  }

  lemma TimeoutFits(w: World, r: ReaderId)
    requires Inv(w) && At(w, r) && w.readers[r].pc.Waiting?
    ensures Inv(SetReader(w, r, w.readers[r].(pc := TimedOut(w.readers[r].pc.had, w.readers[r].pc.from))))
  {
    var rd := w.readers[r];
    assert ReaderFits(w.log, w.q.counts[r], rd, r in w.pending);
    RetoldInv(w, r, rd.(pc := TimedOut(rd.pc.had, rd.pc.from)));
  }

  lemma WakeFits(w: World, r: ReaderId)
    requires Inv(w) && At(w, r) && w.readers[r].signaled
    requires w.readers[r].pc.Waiting? || w.readers[r].pc.Draining?
    ensures Inv(SetReader(w, r, w.readers[r].(signaled := false, pc := Idle)))
  {
    assert ReaderFits(w.log, w.q.counts[r], w.readers[r], r in w.pending);
    RetoldInv(w, r, w.readers[r].(signaled := false, pc := Idle));
  }

  lemma SharedMoveKeeps(w: World, m: Move, w': World)
    requires Inv(w) && Enabled(w, m) && w' == Apply(w, m)
    requires m.Register? || m.Unregister? || m.Push? || m.Recycle?
    ensures Inv(w')
  {
    match m
    case Register(r) => RegisterFits(w, r);
    case Unregister(r) => UnregisterFits(w, r);
    case Push(b) => PushFits(w, b);
    case Recycle => RecycleFits(w);
  }

  lemma ReadMoveKeeps(w: World, m: Move, w': World)
    requires Inv(w) && Enabled(w, m) && w' == Apply(w, m)
    requires m.Read? || m.Skip? || m.BeginWait?
    ensures Inv(w')
  {
    match m
    case Read(r) => ReadFits(w, r);
    case Skip(r, n) => SkipFits(w, r, n);
    case BeginWait(r, kind) => BeginWaitFits(w, r, kind);
  }

  lemma WaitMoveKeeps(w: World, m: Move, w': World)
    requires Inv(w) && Enabled(w, m) && w' == Apply(w, m)
    requires m.Insert? || m.Fire? || m.Cancel? || m.CancelForGood? || m.Timeout? || m.Wake?
    ensures Inv(w')
  {
    match m
    case Insert(r) => InsertFits(w, r);
    case Fire(r) => FireFits(w, r);
    case Cancel(r) => CancelFits(w, r);
    case CancelForGood(r) => LeaveFits(w, r);
    case Timeout(r) => TimeoutFits(w, r);
    case Wake(r) => WakeFits(w, r);
  }

  lemma InvKept(w: World, m: Move, w': World)
    requires Inv(w) && Enabled(w, m) && w' == Apply(w, m)
    ensures Inv(w')
  {
    if m.Register? || m.Unregister? || m.Push? || m.Recycle? {
      SharedMoveKeeps(w, m, w');
    } else if m.Read? || m.Skip? || m.BeginWait? {
      ReadMoveKeeps(w, m, w');
    } else {
      WaitMoveKeeps(w, m, w');
    }
  }

  // ----- nothing skipped while nothing is recycled

  /** The number of the oldest entry still kept. */
  function First(q: Queue): int {
    q.total - |q.pieces|
  }

  ghost predicate Contiguous(q: Queue) {
    forall i :: 0 <= i < |q.pieces| ==> q.pieces[i].count == First(q) + i
  }

  /** got is a run of consecutive numbers ending just below next, from 0 for an early reader, and
      what the reader wants next is still kept or yet to come. */
  ghost predicate InOrder(first: int, rd: Reader) {
    && rd.next == (if rd.got == [] then 0 else rd.got[|rd.got| - 1].count + 1)
    && (forall i :: 0 <= i < |rd.got| ==> rd.got[i].count == rd.got[0].count + i)
    && (rd.early && rd.got != [] ==> rd.got[0].count == 0)
    && (rd.early || rd.got != [] ==> first <= rd.next)
  }

  ghost predicate NoGap(w: World) {
    && Increasing(w.q.pieces) && Contiguous(w.q)
    && w.q.counts.Keys == w.readers.Keys
    && forall r :: r in w.readers ==>
         InOrder(First(w.q), w.readers[r]) && w.q.counts[r] == w.readers[r].next - 1
  }

  lemma ReleaseNoGap(q: Queue)
    requires Increasing(q.pieces) && Contiguous(q)
    ensures Contiguous(Release(q))
    ensures forall r :: r in q.counts && First(q) <= q.counts[r] + 1 ==> First(Release(q)) <= q.counts[r] + 1
  {
    if q.counts.Keys != {} {
      var lo := MinOf(q.counts);
      AboveIsSuffix(q.pieces, lo);
      var i := FirstFrom(q.pieces, lo + 1);
      if i > 0 {
        assert q.pieces[i - 1].count <= lo;
      }
    }
  }

  /** In a buffer without gaps a wish that is still kept is met exactly. */
  lemma FindExact(q: Queue, c: int)
    requires Contiguous(q) && Increasing(q.pieces) && Found(q, c) && First(q) <= c
    ensures Find(q, c).count == c
  {
    assert q.pieces[c - First(q)].count == c;
    assert q.pieces[c - First(q)] in q.pieces;
  }

  /** Consuming exactly what is wanted next keeps the order. */
  lemma NextInOrder(first: int, rd: Reader, p: Piece)
    requires InOrder(first, rd) && first <= p.count
    requires rd.early || rd.got != [] ==> p.count == rd.next
    ensures InOrder(first, Served(rd, p))
  {
  }

  lemma ServedInOrder(q: Queue, rd: Reader)
    requires Contiguous(q) && Increasing(q.pieces) && Found(q, rd.next) && InOrder(First(q), rd)
    ensures InOrder(First(q), Served(rd, Find(q, rd.next)))
  {
    var p := Find(q, rd.next);
    assert First(q) <= p.count by {
      var k :| 0 <= k < |q.pieces| && q.pieces[k] == p;
    }
    if rd.early || rd.got != [] {
      FindExact(q, rd.next);
    }
    NextInOrder(First(q), rd, p);
  }

  lemma ReleasedNoGap(w: World)
    requires NoGap(w)
    ensures NoGap(w.(q := Release(w.q)))
  {
    ReleaseNoGap(w.q);
    ReleaseShrinks(w.q);
  }

  lemma AllServedInOrder(w: World, due: set<ReaderId>)
    requires NoGap(w) && AllFound(w, due)
    ensures CountsAfter(w, due).Keys == ReadersAfter(w, due).Keys
    ensures forall r :: r in ReadersAfter(w, due) ==>
              && InOrder(First(w.q), ReadersAfter(w, due)[r])
              && CountsAfter(w, due)[r] == ReadersAfter(w, due)[r].next - 1
  {
    forall r | r in due ensures InOrder(First(w.q), Served(w.readers[r], Find(w.q, w.readers[r].next))) {
      ServedInOrder(w.q, w.readers[r]);
    }
  }

  lemma ServeAllNoGap(w: World, due: set<ReaderId>)
    requires NoGap(w) && AllFound(w, due)
    ensures NoGap(ServeAll(w, due))
  {
    var q := w.q.(counts := CountsAfter(w, due));
    AllServedInOrder(w, due);
    ReleasedNoGap(w.(q := q, readers := ReadersAfter(w, due), pending := w.pending - due));
  }

  lemma ReadByNoGap(w: World, r: ReaderId)
    requires NoGap(w) && r in w.readers && Found(w.q, w.readers[r].next)
    ensures NoGap(ReadBy(w, r))
  {
    var p := Find(w.q, w.readers[r].next);
    ServedInOrder(w.q, w.readers[r]);
    ReleasedNoGap(w.(q := w.q.(counts := w.q.counts[r := p.count]),
                     readers := w.readers[r := Served(w.readers[r], p)]));
  }

  lemma PushNoGap(w: World, b: Bulk)
    requires Inv(w) && NoGap(w)
    ensures NoGap(Pushed(w, b))
  {
    var w0 := w.(q := Appended(w.q, b), log := w.log + [b]);
    var p := Piece(b, w.q.total);
    assert w0.q.pieces[|w.q.pieces|] == p;
    AppendedFits(w, b);
    FiredFits(w0, w.q.total, p);
    ServeAllNoGap(w0, Due(w0, w.q.total));
    ReleasedNoGap(Fired(w0, w.q.total));
  }

  lemma SameInOrder(first: int, rd: Reader, rd': Reader)
    requires InOrder(first, rd) && rd'.next == rd.next && rd'.got == rd.got && rd'.early == rd.early
    ensures InOrder(first, rd')
  {
  }

  /** Moves of a reader's thread alone do not touch what it got. */
  lemma RetoldNoGap(w: World, r: ReaderId, rd: Reader)
    requires NoGap(w) && r in w.readers
    requires rd.next == w.readers[r].next && rd.got == w.readers[r].got && rd.early == w.readers[r].early
    ensures NoGap(SetReader(w, r, rd))
  {
    SameInOrder(First(w.q), w.readers[r], rd);
  }

  lemma FireNoGap(w: World, r: ReaderId)
    requires Inv(w) && NoGap(w) && At(w, r) && w.readers[r].pc.Inserted?
    ensures NoGap(CallbackFired(w, r))
  {
    var w1 := FiredLastFits(w, r);
    if w.q.pieces != [] {
      ServeAllNoGap(w, Due(w, w.q.pieces[|w.q.pieces| - 1].count));
    }
    var pc := w.readers[r].pc;
    var rd := w1.readers[r].(pc := Waiting(pc.kind, pc.had, pc.from));
    FireMeans(w, r, w1, rd);
    RetoldNoGap(w1, r, rd);
  }

  lemma RegisterNoGap(w: World, r: ReaderId)
    requires Shape(w) && NoGap(w) && r !in w.readers
    ensures NoGap(Registered(w, r))
  {
    if w.q.pieces != [] {
      assert FromLog(w.log, w.q.pieces[0]);
    }
  }

  lemma WaitBegunNoGap(w: World, r: ReaderId, kind: WaitKind)
    requires NoGap(w) && At(w, r)
    ensures NoGap(WaitBegun(w, r, kind))
  {
    var rd := w.readers[r];
    if Found(w.q, rd.next) {
      ReadByNoGap(w, r);
      var w1 := ReadBy(w, r);
      RetoldNoGap(w1, r, w1.readers[r].(signaled := true, pc := Waiting(kind, |rd.got|, rd.next)));
    } else {
      RetoldNoGap(w, r, rd.(pc := Checked(kind, |rd.got|, rd.next)));
    }
  }

  lemma ReadOnceNoGap(w: World, r: ReaderId)
    requires NoGap(w) && At(w, r)
    ensures NoGap(ReadOnce(w, r))
  {
    if Found(w.q, w.readers[r].next) {
      ReadByNoGap(w, r);
    }
  }

  lemma ThreadMoveNoGap(w: World, m: Move, w': World)
    requires NoGap(w) && Enabled(w, m) && w' == Apply(w, m)
    requires m.Insert? || m.Cancel? || m.CancelForGood? || m.Timeout? || m.Wake?
    ensures NoGap(w')
  {
    RetoldNoGap(w, m.r, w'.readers[m.r]);
  }

  lemma NoGapKept(w: World, m: Move, w': World)
    requires Inv(w) && NoGap(w) && Enabled(w, m) && w' == Apply(w, m)
    requires !m.Recycle? && !m.Skip?
    ensures NoGap(w')
  {
    match m
    case Push(b) => PushNoGap(w, b);
    case Fire(r) => FireNoGap(w, r);
    case Register(r) => RegisterNoGap(w, r);
    case Unregister(r) =>
    case Read(r) => ReadOnceNoGap(w, r);
    case BeginWait(r, kind) => WaitBegunNoGap(w, r, kind);
    case _ => ThreadMoveNoGap(w, m, w');
  }

  // ----- whole runs

  /** A new queue without readers. */
  predicate Starts(w: World) {
    && w.q.pieces == [] && w.q.total == 0 && w.q.counts == map[]
    && w.pending == map[] && w.readers == map[] && w.log == [] && !w.failed
  }

  ghost predicate IsRun(ws: seq<World>, ms: seq<Move>) {
    && |ws| == |ms| + 1
    && Starts(ws[0])
    && forall k {:trigger ms[k]} :: 0 <= k < |ms| ==>
         ws[k].q.counts.Keys == ws[k].readers.Keys && Enabled(ws[k], ms[k]) && ws[k + 1] == Apply(ws[k], ms[k])
  }

  lemma {:induction false} RunInv(ws: seq<World>, ms: seq<Move>, n: nat)
    requires IsRun(ws, ms) && n <= |ms|
    ensures Inv(ws[n])
  {
    if n == 0 {
    } else {
      RunInv(ws, ms, n - 1);
      var m := ms[n - 1];
      InvKept(ws[n - 1], m, ws[n]);
    }
  }

  lemma {:induction false} RunNoGap(ws: seq<World>, ms: seq<Move>, n: nat)
    requires IsRun(ws, ms) && n <= |ms|
    requires forall m :: m in ms ==> !m.Recycle? && !m.Skip?
    ensures NoGap(ws[n])
  {
    if n == 0 {
    } else {
      RunNoGap(ws, ms, n - 1);
      RunInv(ws, ms, n - 1);
      var m := ms[n - 1];
      NoGapKept(ws[n - 1], m, ws[n]);
    }
  }

  /** Over every interleaving: no callback ever fires without finding its entry, every reader
      receives strictly later entries of the push log, and no pending wait is left asleep while
      an entry it asks for is retained. */
  lemma EveryRun(ws: seq<World>, ms: seq<Move>, r: ReaderId)
    requires IsRun(ws, ms) && r in ws[|ms|].readers
    ensures var w := ws[|ms|];
            var rd := w.readers[r];
            && !w.failed
            && Increasing(rd.got) && (forall p :: p in rd.got ==> FromLog(w.log, p))
            && (r in w.pending && !rd.pc.Inserted? ==> forall p :: p in w.q.pieces ==> p.count < rd.next)
            && (rd.pc.Idle? ==> r !in w.pending && !rd.signaled)
  {
    RunInv(ws, ms, |ms|);
    var w := ws[|ms|];
    assert ReaderFits(w.log, w.q.counts[r], w.readers[r], r in w.pending);
  }

  /** Without recycling and skipping, a reader that registered while all bulks ever pushed were still
      retained, as they are before the first push, has received exactly the first bulks pushed, in order,
      whatever the other readers do, and its next read delivers whenever it has not yet received all. */
  lemma EveryBulkInOrder(ws: seq<World>, ms: seq<Move>, r: ReaderId)
    requires IsRun(ws, ms) && r in ws[|ms|].readers && ws[|ms|].readers[r].early
    requires forall m :: m in ms ==> !m.Recycle? && !m.Skip?
    ensures var w, rd := ws[|ms|], ws[|ms|].readers[r];
            && |rd.got| <= |w.log|
            && rd.got == seq(|rd.got|, i requires 0 <= i < |w.log| => Piece(w.log[i], i))
            && rd.next == |rd.got|
            && (Found(w.q, rd.next) <==> |rd.got| < |w.log|)
  {
    RunInv(ws, ms, |ms|);
    RunNoGap(ws, ms, |ms|);
    var w := ws[|ms|];
    var rd := w.readers[r];
    assert ReaderFits(w.log, w.q.counts[r], rd, r in w.pending);
    assert InOrder(First(w.q), rd);
    forall i | 0 <= i < |rd.got| ensures i < |w.log| && rd.got[i] == Piece(w.log[i], i) {
      assert FromLog(w.log, rd.got[i]);
    }
    if rd.got != [] {
      assert FromLog(w.log, rd.got[|rd.got| - 1]);
    }
    if |rd.got| < |w.log| {
      var p := w.q.pieces[rd.next - First(w.q)];
      assert p in w.q.pieces;
      FindsIt(w.q, rd.next, p);
    }
  }

  // ----- how a wait ends

  /** The reader is inside a wait that began when it had got g and wanted c. */
  ghost predicate InWait(rd: Reader, g: seq<Piece>, c: int) {
    && g <= rd.got
    && match rd.pc
       case Idle => false
       case Leaving => false
       case Checked(_, had, from) => had == |g| && from == c
       case Inserted(_, had, from) => had == |g| && from == c
       case Waiting(_, had, from) => had == |g| && from == c
       case TimedOut(had, from) => had == |g| && from == c
       case Draining(had, from) => had == |g| && from == c
  }

  /** The wait returned true: one entry consumed, the wish advanced past it. */
  ghost predicate Received(rd: Reader, g: seq<Piece>, c: int) {
    exists p: Piece :: rd.got == g + [p] && p.count >= c && rd.next == p.count + 1
  }

  /** The wait returned false: nothing consumed, the wish unchanged. */
  ghost predicate GaveUp(rd: Reader, g: seq<Piece>, c: int) {
    rd.got == g && rd.next == c
  }

  lemma SinceMeans(rd: Reader, g: seq<Piece>, c: int)
    requires g <= rd.got && Since(rd, |g|, c)
    ensures if rd.signaled then Received(rd, g, c) else GaveUp(rd, g, c)
  {
    if rd.signaled {
      assert rd.got == g + [rd.got[|g|]];
    } else {
      assert rd.got == g;
    }
  }

  /** Whatever another thread does, a waiting reader is at most served. */
  lemma ServedOrSame(w: World, due: set<ReaderId>, r: ReaderId, g: seq<Piece>, c: int)
    requires AllFound(w, due) && r in w.readers && InWait(w.readers[r], g, c)
    ensures r in ServeAll(w, due).readers && InWait(ServeAll(w, due).readers[r], g, c)
  {
  }

  lemma OthersMove(w: World, m: Move, w': World, r: ReaderId, g: seq<Piece>, c: int)
    requires Inv(w) && Enabled(w, m) && w' == Apply(w, m)
    requires r in w.readers && InWait(w.readers[r], g, c)
    requires m.Push? || m.Recycle? || m.r != r
    ensures r in w'.readers && InWait(w'.readers[r], g, c)
  {
    match m
    case Push(b) =>
      var w0 := w.(q := Appended(w.q, b), log := w.log + [b]);
      var p := Piece(b, w.q.total);
      assert w0.q.pieces[|w.q.pieces|] == p;
      AppendedFits(w, b);
      FiredFits(w0, w.q.total, p);
      ServedOrSame(w0, Due(w0, w.q.total), r, g, c);
    case Fire(s) =>
      if w.q.pieces != [] {
        var last := w.q.pieces[|w.q.pieces| - 1];
        FiredFits(w, last.count, last);
        ServedOrSame(w, Due(w, last.count), r, g, c);
      }
    case _ =>
  }

  lemma OwnMove(w: World, m: Move, w': World, r: ReaderId, g: seq<Piece>, c: int)
    requires Inv(w) && Enabled(w, m) && w' == Apply(w, m)
    requires r in w.readers && InWait(w.readers[r], g, c)
    requires !m.Push? && !m.Recycle? && m.r == r
    ensures r in w'.readers
    ensures var rd := w'.readers[r];
            || InWait(rd, g, c) || rd.pc.Leaving?
            || (m.Wake? && rd.pc.Idle? && Received(rd, g, c))
            || (m.Cancel? && rd.pc.Idle? && GaveUp(rd, g, c))
  {
    assert ReaderFits(w.log, w.q.counts[r], w.readers[r], r in w.pending);
    SinceMeans(w.readers[r], g, c);
    match m
    case Fire(_) =>
      if w.q.pieces != [] {
        var last := w.q.pieces[|w.q.pieces| - 1];
        FiredFits(w, last.count, last);
        ServedOrSame(w, Due(w, last.count), r, g, c);
      }
    case _ =>
  }

  /** Where a wait that began with g and c may be after step m. */
  ghost predicate Outcome(rd: Reader, m: Move, r: ReaderId, g: seq<Piece>, c: int) {
    || InWait(rd, g, c)
    || (rd.pc.Idle? && Received(rd, g, c))
    || (rd.pc.Idle? && m == Cancel(r) && GaveUp(rd, g, c))
  }

  lemma WaitStarts(w: World, r: ReaderId, kind: WaitKind)
    requires Inv(w) && At(w, r) && w.readers[r].pc.Idle?
    ensures Outcome(WaitBegun(w, r, kind).readers[r], BeginWait(r, kind), r, w.readers[r].got, w.readers[r].next)
  {
    if Found(w.q, w.readers[r].next) {
      var p := Find(w.q, w.readers[r].next);
      assert ReadBy(w, r).readers[r].got == w.readers[r].got + [p];
    }
  }

  lemma WaitMoves(w: World, m: Move, w': World, r: ReaderId, g: seq<Piece>, c: int)
    requires Inv(w) && Enabled(w, m) && w' == Apply(w, m)
    requires r in w.readers && InWait(w.readers[r], g, c)
    ensures r in w'.readers && (w'.readers[r].pc.Leaving? || Outcome(w'.readers[r], m, r, g, c))
  {
    if m.Push? || m.Recycle? || m.r != r {
      OthersMove(w, m, w', r, g, c);
    } else {
      OwnMove(w, m, w', r, g, c);
    }
  }

  lemma RunWaitStarts(ws: seq<World>, ms: seq<Move>, i: nat, r: ReaderId)
    requires IsRun(ws, ms) && i < |ms| && ms[i].BeginWait? && ms[i].r == r
    ensures r in ws[i].readers && r in ws[i + 1].readers
    ensures Outcome(ws[i + 1].readers[r], ms[i], r, ws[i].readers[r].got, ws[i].readers[r].next)
  {
    RunInv(ws, ms, i);
    var m := ms[i];
    assert ws[i + 1] == Apply(ws[i], m) && m == BeginWait(r, m.kind);
    WaitStarts(ws[i], r, m.kind);
  }

  lemma RunWaitMoves(ws: seq<World>, ms: seq<Move>, n: nat, r: ReaderId, g: seq<Piece>, c: int)
    requires IsRun(ws, ms) && n < |ms| && r in ws[n].readers && InWait(ws[n].readers[r], g, c)
    ensures r in ws[n + 1].readers
    ensures ws[n + 1].readers[r].pc.Leaving? || Outcome(ws[n + 1].readers[r], ms[n], r, g, c)
  {
    RunInv(ws, ms, n);
    var m := ms[n];
    WaitMoves(ws[n], m, ws[n + 1], r, g, c);
  }

  /** From its first step on, a wait that has not been abandoned is under way or over. */
  lemma {:induction false} WaitGoesOn(ws: seq<World>, ms: seq<Move>, i: nat, j: nat, r: ReaderId)
    requires IsRun(ws, ms) && i < j <= |ms| && ms[i].BeginWait? && ms[i].r == r
    requires forall k :: i < k < j ==> r in ws[k].readers && !ws[k].readers[r].pc.Idle?
    requires forall k :: i < k <= j ==> r in ws[k].readers && !ws[k].readers[r].pc.Leaving?
    ensures r in ws[i].readers
    ensures Outcome(ws[j].readers[r], ms[j - 1], r, ws[i].readers[r].got, ws[i].readers[r].next)
  {
    var n := j - 1;
    if n == i {
      RunWaitStarts(ws, ms, i, r);
    } else {
      WaitGoesOn(ws, ms, i, n, r);
      RunWaitMoves(ws, ms, n, r, ws[i].readers[r].got, ws[i].readers[r].next);
    }
  }

  /** The reader is inside a wait of this kind, if it is inside one. */
  predicate OfKind(rd: Reader, kind: WaitKind) {
    match rd.pc
    case Idle => true
    case Leaving => true
    case Checked(k, _, _) => k == kind
    case Inserted(k, _, _) => k == kind
    case Waiting(k, _, _) => k == kind
    case TimedOut(_, _) => kind.Timed?
    case Draining(_, _) => kind.Timed?
  }

  lemma ServingKeepsPc(w: World, m: Move, w': World, r: ReaderId)
    requires Inv(w) && Enabled(w, m) && w' == Apply(w, m) && r in w.readers
    requires m.Push? || (m.Fire? && m.r != r)
    ensures r in w'.readers && w'.readers[r].pc == w.readers[r].pc
  {
    match m
    case Push(b) =>
      var w0 := w.(q := Appended(w.q, b), log := w.log + [b]);
      var p := Piece(b, w.q.total);
      assert w0.q.pieces[|w.q.pieces|] == p;
      AppendedFits(w, b);
      FiredFits(w0, w.q.total, p);
      ServeAllKeepsPc(w0, Due(w0, w.q.total), r);
    case Fire(s) =>
      if w.q.pieces != [] {
        var last := w.q.pieces[|w.q.pieces| - 1];
        FiredFits(w, last.count, last);
        ServeAllKeepsPc(w, Due(w, last.count), r);
      }
  }

  /** Only a push and a fired callback reach into another reader. */
  lemma OthersLeaveReader(w: World, m: Move, w': World, r: ReaderId)
    requires w.q.counts.Keys == w.readers.Keys && Enabled(w, m) && w' == Apply(w, m) && r in w.readers
    requires !m.Push? && !m.Fire? && (m.Recycle? || m.r != r)
    ensures r in w'.readers && w'.readers[r] == w.readers[r]
  {
  }

  lemma OthersKeepPc(w: World, m: Move, w': World, r: ReaderId)
    requires Inv(w) && Enabled(w, m) && w' == Apply(w, m) && r in w.readers
    requires m.Push? || m.Recycle? || m.r != r
    ensures r in w'.readers && w'.readers[r].pc == w.readers[r].pc
  {
    if m.Push? || m.Fire? {
      ServingKeepsPc(w, m, w', r);
    } else {
      OthersLeaveReader(w, m, w', r);
    }
  }

  /** A reader's own moves never change the kind of a wait, and only two of them end it. */
  lemma OwnKeepsKind(w: World, m: Move, w': World, r: ReaderId, kind: WaitKind)
    requires Inv(w) && Enabled(w, m) && w' == Apply(w, m) && r in w.readers
    requires !m.Push? && !m.Recycle? && m.r == r
    requires OfKind(w.readers[r], kind) && !w.readers[r].pc.Idle? && !w.readers[r].pc.Leaving?
    ensures r in w'.readers && OfKind(w'.readers[r], kind)
    ensures w'.readers[r].pc.Idle? ==> m == Wake(r) || (m == Cancel(r) && kind.Timed?)
  {
    match m
    case Fire(_) => assert w'.readers[r].pc == Waiting(w.readers[r].pc.kind, w.readers[r].pc.had, w.readers[r].pc.from);
    case _ =>
  }

  lemma WaitKeepsKind(w: World, m: Move, w': World, r: ReaderId, kind: WaitKind)
    requires Inv(w) && Enabled(w, m) && w' == Apply(w, m) && r in w.readers
    requires OfKind(w.readers[r], kind) && !w.readers[r].pc.Idle? && !w.readers[r].pc.Leaving?
    ensures r in w'.readers && OfKind(w'.readers[r], kind)
    ensures w'.readers[r].pc.Idle? ==> m == Wake(r) || (m == Cancel(r) && kind.Timed?)
  {
    if m.Push? || m.Recycle? || m.r != r {
      OthersKeepPc(w, m, w', r);
    } else {
      OwnKeepsKind(w, m, w', r, kind);
    }
  }

  lemma WaitStartsKind(w: World, r: ReaderId, kind: WaitKind)
    requires At(w, r) && w.readers[r].pc.Idle?
    ensures r in WaitBegun(w, r, kind).readers && OfKind(WaitBegun(w, r, kind).readers[r], kind)
    ensures WaitBegun(w, r, kind).readers[r].pc.Idle? ==> !kind.Async?
  {
  }

  /** How a wait of this kind stands after move m, its first one or a later one. */
  predicate KindAfter(rd: Reader, m: Move, r: ReaderId, kind: WaitKind, first: bool) {
    && OfKind(rd, kind)
    && (rd.pc.Idle? ==> m == Wake(r) || (m == Cancel(r) && kind.Timed?) || (first && !kind.Async?))
  }

  lemma RunKindStarts(ws: seq<World>, ms: seq<Move>, i: nat, r: ReaderId)
    requires IsRun(ws, ms) && i < |ms| && ms[i].BeginWait? && ms[i].r == r
    ensures r in ws[i + 1].readers && KindAfter(ws[i + 1].readers[r], ms[i], r, ms[i].kind, true)
  {
    var m := ms[i];
    assert ws[i + 1] == Apply(ws[i], m) && m == BeginWait(r, m.kind);
    WaitStartsKind(ws[i], r, m.kind);
  }

  lemma RunKindMoves(ws: seq<World>, ms: seq<Move>, n: nat, r: ReaderId, kind: WaitKind)
    requires IsRun(ws, ms) && n < |ms| && r in ws[n].readers && OfKind(ws[n].readers[r], kind)
    requires !ws[n].readers[r].pc.Idle? && !ws[n].readers[r].pc.Leaving?
    ensures r in ws[n + 1].readers && KindAfter(ws[n + 1].readers[r], ms[n], r, kind, false)
  {
    RunInv(ws, ms, n);
    var m := ms[n];
    WaitKeepsKind(ws[n], m, ws[n + 1], r, kind);
  }

  lemma {:induction false} RunKeepsKind(ws: seq<World>, ms: seq<Move>, i: nat, j: nat, r: ReaderId)
    requires IsRun(ws, ms) && i < j <= |ms| && ms[i].BeginWait? && ms[i].r == r
    requires forall k :: i < k < j ==> r in ws[k].readers && !ws[k].readers[r].pc.Idle?
    requires forall k :: i < k <= j ==> r in ws[k].readers && !ws[k].readers[r].pc.Leaving?
    ensures KindAfter(ws[j].readers[r], ms[j - 1], r, ms[i].kind, j == i + 1)
  {
    var n := j - 1;
    if n == i {
      RunKindStarts(ws, ms, i, r);
    } else {
      RunKeepsKind(ws, ms, i, n, r);
      RunKindMoves(ws, ms, n, r, ms[i].kind);
    }
  }

  /** A wait that begins at step i and has returned at step j, for the first time, did one of two
      things: it consumed exactly one entry it asked for, or, after a timeout that won the race
      against the callback, nothing at all. Either way no record is left and the event is clear.
      An asynchronous wait ends with its callback, a synchronous one at the event unless it found an
      entry when it began, and only a timed one gives up. */
  lemma WaitOutcome(ws: seq<World>, ms: seq<Move>, i: nat, j: nat, r: ReaderId)
    requires IsRun(ws, ms) && i < j <= |ms| && ms[i].BeginWait? && ms[i].r == r
    requires forall k :: i < k < j ==> r in ws[k].readers && !ws[k].readers[r].pc.Idle?
    requires forall k :: i < k <= j ==> r in ws[k].readers && !ws[k].readers[r].pc.Leaving?
    requires ws[j].readers[r].pc.Idle?
    ensures r in ws[i].readers
    ensures var g, c, rd := ws[i].readers[r].got, ws[i].readers[r].next, ws[j].readers[r];
            Received(rd, g, c) || (ms[j - 1] == Cancel(r) && GaveUp(rd, g, c))
    ensures r !in ws[j].pending && !ws[j].readers[r].signaled
    ensures ms[i].kind.Async? ==> ms[j - 1] == Wake(r)
    ensures !ms[i].kind.Async? ==>
              ms[j - 1] == Wake(r) || (ms[j - 1] == Cancel(r) && ms[i].kind.Timed?) || j == i + 1
  {
    WaitGoesOn(ws, ms, i, j, r);
    RunKeepsKind(ws, ms, i, j, r);
    RunInv(ws, ms, j);
    var w := ws[j];
    assert ReaderFits(w.log, w.q.counts[r], w.readers[r], r in w.pending);
  }
}
