/** The class of device/sequenced_bulk_queue.{h,cc}: the buffer and the maps changed in place by
    loops. Each method is proved to do what the functions of BulkQueueProtocol say. The state of
    the registered readers lives in one map of the queue object. */
module SequencedBulkQueues {
  import opened Sequences
  import opened BulkQueue
  import opened BulkQueueProtocol
  import opened BulkQueueMoves

  lemma MinMaxUnique(counts: map<ReaderId, int>, lo: int, hi: int)
    requires counts.Keys != {} && IsMin(counts, lo) && IsMax(counts, hi)
    ensures lo == MinOf(counts) && hi == MaxOf(counts)
  {
    assert IsMin(counts, MinOf(counts)) && IsMax(counts, MaxOf(counts));
  }

  lemma FindUnique(q: Queue, c: int, p: Piece)
    requires Increasing(q.pieces) && p in q.pieces && c <= p.count < q.total
    requires forall x :: x in q.pieces && x.count >= c ==> p.count <= x.count
    ensures Found(q, c) && Find(q, c) == p
  {
    FindsIt(q, c, p);
    var k :| 0 <= k < |q.pieces| && q.pieces[k] == p;
  }

  /** Progress only grows, so filtering by an earlier slowest reader first changes nothing. */
  lemma AboveTwice(pieces: seq<Piece>, lo: int, hi: int)
    requires lo <= hi
    ensures Above(Above(pieces, lo), hi) == Above(pieces, hi)
  {
    KeepTwice(pieces, (p: Piece) => p.count > lo, (p: Piece) => p.count > hi, (p: Piece) => p.count > hi);
  }

  /** What one callback does: Reader::GetBulk, then the signal and the erased record. */
  ghost function ServeOne(w: World, r: ReaderId): World
    requires r in w.readers && Found(w.q, w.readers[r].next)
  {
    var w1 := ReadBy(w, r);
    w1.(readers := w1.readers[r := w1.readers[r].(signaled := true)], pending := w1.pending - {r})
  }

  /** An earlier callback's release never takes the entry a later callback needs. */
  lemma StillFound(w: World, due: set<ReaderId>, r: ReaderId)
    requires Fits(w) && AllFound(w, due) && due <= w.pending.Keys
    requires r in w.readers && r !in due && Found(w.q, w.readers[r].next)
    ensures r in ServeAll(w, due).readers && ServeAll(w, due).readers[r] == w.readers[r]
    ensures Found(ServeAll(w, due).q, w.readers[r].next)
    ensures Find(ServeAll(w, due).q, w.readers[r].next) == Find(w.q, w.readers[r].next)
  {
    var w' := ServeAll(w, due);
    var c := w.readers[r].next;
    var p := Find(w.q, c);
    assert ReaderFits(w.log, w.q.counts[r], w.readers[r], r in w.pending);
    assert FromLog(w.log, p);
    if due != {} {
      var lo := MinOf(w'.q.counts);
      assert r in w'.q.counts && lo <= w'.q.counts[r];
      AboveMembers(w.q.pieces, lo);
      FindUnique(w'.q, c, p);
    }
  }

  /** Releasing after each of two reads is releasing once at the end. */
  lemma ReleaseTwice(q: Queue, c1: map<ReaderId, int>, c2: map<ReaderId, int>)
    requires c1.Keys == c2.Keys && c1.Keys != {} && forall s :: s in c1 ==> c1[s] <= c2[s]
    ensures Release(Release(q.(counts := c1)).(counts := c2)) == Release(q.(counts := c2))
  {
    MinGrows(c1, c2);
    AboveTwice(q.pieces, MinOf(c1), MinOf(c2));
  }

  lemma CountsOneMore(w: World, due: set<ReaderId>, r: ReaderId)
    requires AllFound(w, due + {r}) && r !in due && r in w.q.counts
    ensures CountsAfter(w, due)[r := Find(w.q, w.readers[r].next).count] == CountsAfter(w, due + {r})
  {
  }

  lemma ReadersOneMore(w: World, due: set<ReaderId>, r: ReaderId)
    requires AllFound(w, due + {r}) && r !in due
    ensures ReadersAfter(w, due)[r := Served(w.readers[r], Find(w.q, w.readers[r].next)).(signaled := true)]
            == ReadersAfter(w, due + {r})
  {
  }

  lemma PendingOneMore(pending: map<ReaderId, int>, due: set<ReaderId>, r: ReaderId)
    ensures pending - due - {r} == pending - (due + {r})
  {
  }

  lemma ProgressGrows(w: World, r: ReaderId)
    requires Fits(w) && r in w.readers && Found(w.q, w.readers[r].next)
    ensures r in w.q.counts && w.q.counts[r] < Find(w.q, w.readers[r].next).count
  {
    assert ReaderFits(w.log, w.q.counts[r], w.readers[r], r in w.pending);
  }

  lemma UpdatedTwice(m: map<ReaderId, Reader>, r: ReaderId, a: Reader, b: Reader)
    ensures m[r := a][r := b] == m[r := b]
  {
  }

  lemma CountsGrow(w: World, due: set<ReaderId>, r: ReaderId)
    requires AllFound(w, due + {r}) && r !in due && r in w.q.counts
    requires w.q.counts[r] < Find(w.q, w.readers[r].next).count
    ensures CountsAfter(w, due).Keys == CountsAfter(w, due + {r}).Keys
    ensures forall s :: s in CountsAfter(w, due) ==> CountsAfter(w, due)[s] <= CountsAfter(w, due + {r})[s]
  {
  }

  lemma QueueOneMore(w: World, due: set<ReaderId>, r: ReaderId, p: Piece)
    requires AllFound(w, due + {r}) && r !in due && r in w.q.counts
    requires p == Find(w.q, w.readers[r].next) && w.q.counts[r] < p.count
    ensures Passed(ServeAll(w, due).q, r, p) == ServeAll(w, due + {r}).q
  {
    CountsOneMore(w, due, r);
    if due == {} {
      assert CountsAfter(w, due) == w.q.counts;
    } else {
      CountsGrow(w, due, r);
      ReleaseTwice(w.q, CountsAfter(w, due), CountsAfter(w, due + {r}));
    }
  }

  /** Serving one more reader is serving the larger set at once. */
  lemma ServeOneMore(w: World, due: set<ReaderId>, r: ReaderId)
    requires Fits(w) && AllFound(w, due + {r}) && due + {r} <= w.pending.Keys && r !in due
    ensures r in ServeAll(w, due).readers && Found(ServeAll(w, due).q, ServeAll(w, due).readers[r].next)
    ensures ServeOne(ServeAll(w, due), r) == ServeAll(w, due + {r})
  {
    StillFound(w, due, r);
    var p := Find(w.q, w.readers[r].next);
    ProgressGrows(w, r);
    QueueOneMore(w, due, r, p);
    ReadersOneMore(w, due, r);
    PendingOneMore(w.pending, due, r);
    UpdatedTwice(ReadersAfter(w, due), r, Served(w.readers[r], p), Served(w.readers[r], p).(signaled := true));
  }

  lemma AllAbove(pieces: seq<Piece>, lo: int)
    requires Increasing(pieces) && |pieces| > 0 && pieces[0].count > lo
    ensures Above(pieces, lo) == pieces
  {
    KeepAll(pieces, (p: Piece) => p.count > lo);
  }

  lemma AddedBounds(counts: map<ReaderId, int>, r: ReaderId, c: int, lo: int, hi: int)
    requires r !in counts
    requires counts.Keys != {} ==> IsMin(counts, lo) && IsMax(counts, hi)
    requires counts.Keys == {} ==> lo == hi == c
    ensures IsMin(counts[r := c], if c < lo then c else lo)
    ensures IsMax(counts[r := c], if c > hi then c else hi)
  {
    var more := counts[r := c];
    assert more[r] == c;
    assert forall s :: s in counts ==> more[s] == counts[s];
  }

  lemma RaisedMax(counts: map<ReaderId, int>, r: ReaderId, c: int, hi: int)
    requires r in counts && counts[r] <= c && IsMax(counts, hi)
    ensures IsMax(counts[r := c], if c > hi then c else hi)
  {
    var more := counts[r := c];
    assert more[r] == c;
    assert forall s :: s in counts && s != r ==> more[s] == counts[s];
    var s :| s in counts && counts[s] == hi;
    assert s != r ==> more[s] == hi;
  }

  predicate LetsGo(pieces: seq<Piece>, i: nat, bulk: Bulk, rest: seq<Piece>) {
    i < |pieces| && bulk == pieces[i].bulk && rest == Dropped(pieces, i)
  }

  class SequencedBulkQueue {
    var pieces: seq<Piece>
    var total: nat
    var counts: map<ReaderId, int>
    var readerMin: int
    var readerMax: int
    var callbacks: map<ReaderId, int>
    var readers: map<ReaderId, Reader>
    const keepIfNoReader: bool
    ghost var log: seq<Bulk>

    ghost function View(): World
      reads this
    {
      World(Queue(pieces, total, counts, keepIfNoReader), callbacks, readers, log, false)
    }

    /** reader_min_ and reader_max_ are exact whenever a reader is registered. */
    ghost predicate Cached()
      reads this
    {
      counts.Keys != {} ==> readerMin == MinOf(counts) && readerMax == MaxOf(counts)
    }

    /** What an operation of reader r relies on; DemandsMet shows that it always holds. */
    ghost predicate Serves(r: ReaderId)
      reads this
    {
      Cached() && Increasing(pieces) && At(View(), r) && counts[r] < readers[r].next
    }

    constructor (keepIfNoReader: bool)
      ensures Cached() && Starts(View()) && this.keepIfNoReader == keepIfNoReader
    {
      this.keepIfNoReader := keepIfNoReader;
      pieces, total, counts, readerMin, readerMax := [], 0, map[], -1, -1;
      callbacks, readers, log := map[], map[], [];
    }

    method RegisterReader(r: ReaderId, startCount: int)
      requires r !in counts && Cached()
      modifies this`counts, this`readerMin, this`readerMax
      ensures counts == old(counts)[r := startCount - 1] && Cached()
    {
      var count := startCount - 1;
      if |counts| == 0 {
        readerMin, readerMax := count, count;
      }
      AddedBounds(counts, r, count, readerMin, readerMax);
      counts := counts[r := count];
      if count > readerMax {
        readerMax := count;
      }
      if count < readerMin {
        readerMin := count;
      }
    }

    /** The reader's constructor. */
    method NewReader(r: ReaderId)
      requires Cached() && r !in counts
      modifies this
      ensures Cached() && View() == Registered(old(View()), r)
      ensures pieces == old(pieces) && counts == old(counts)[r := -1] && readers[r].next == 0
    {
      RegisterReader(r, 0);
      readers := readers[r := Reader(0, false, [], |pieces| == total, Idle)];
    }

    /** The scan of the count map for its least and greatest value. */
    method Bounds() returns (lo: int, hi: int)
      requires counts.Keys != {}
      ensures IsMin(counts, lo) && IsMax(counts, hi)
    {
      var first :| first in counts.Keys;
      lo, hi := counts[first], counts[first];
      var todo := counts.Keys;
      while todo != {}
        invariant todo <= counts.Keys
        invariant exists r :: r in counts && counts[r] == lo
        invariant exists r :: r in counts && counts[r] == hi
        invariant forall r :: r in counts && r !in todo ==> lo <= counts[r] <= hi
        decreases todo
      {
        var r :| r in todo;
        if lo > counts[r] {
          lo := counts[r];
        }
        if hi < counts[r] {
          hi := counts[r];
        }
        todo := todo - {r};
      }
    }

    method UnRegisterReader(r: ReaderId)
      requires r in counts && Cached()
      modifies this`counts, this`readerMin, this`readerMax
      ensures counts == old(counts) - {r} && Cached()
    {
      counts := counts - {r};
      if |counts| == 0 {
        return;
      }
      readerMin, readerMax := Bounds();
    }

    /** The second block of the reader's destructor. */
    method DeleteReader(r: ReaderId)
      requires Cached() && r in counts
      modifies this
      ensures Cached() && View() == Unregistered(old(View()), r)
      ensures pieces == old(pieces) && counts == old(counts) - {r} && readers == old(readers) - {r}
    {
      UnRegisterReader(r);
      readers := readers - {r};
    }

    method UpdateReaderCount(r: ReaderId, count: int)
      requires r in counts && counts[r] <= count && Cached()
      modifies this`counts, this`readerMin, this`readerMax
      ensures counts == old(counts)[r := count] && Cached()
    {
      if counts[r] == count {
        assert counts == counts[r := count];
        return;
      }
      counts := counts[r := count];
      if count > readerMax {
        readerMax := count;
      }
      var minValue := count;
      assert r in counts && counts[r] == minValue;
      var todo := counts.Keys;
      while todo != {}
        invariant todo <= counts.Keys
        invariant exists s :: s in counts && counts[s] == minValue
        invariant forall s :: s in counts && s !in todo ==> minValue <= counts[s]
        decreases todo
      {
        var s :| s in todo;
        if minValue > counts[s] {
          minValue := counts[s];
        }
        todo := todo - {s};
      }
      readerMin := minValue;
      RaisedMax(old(counts), r, count, old(readerMax));
    }

    /** The scan stops at the first entry that some reader still needs. */
    method MayReleaseBuffer()
      requires Increasing(pieces) && Cached()
      modifies this`pieces
      ensures View() == old(View()).(q := Release(old(View()).q))
      ensures forall p :: p in pieces <==> p in old(pieces) && Wanted(counts, keepIfNoReader, p)
      ensures counts.Keys == {} ==> pieces == if keepIfNoReader then old(pieces) else []
    {
      ReleaseMeans(View().q);
      var releaseAll := |counts| == 0;
      assert releaseAll <==> counts.Keys == {};
      if releaseAll && keepIfNoReader {
        return;
      }
      var lo := readerMin;
      if !releaseAll {
        MinMaxUnique(counts, readerMin, readerMax);
      }
      while |pieces| > 0
        invariant Increasing(pieces)
        invariant !releaseAll ==> Above(pieces, lo) == Above(old(pieces), lo)
        decreases |pieces|
      {
        if !releaseAll && pieces[0].count > lo {
          AllAbove(pieces, lo);
          break;
        }
        pieces := pieces[1..];
      }
    }

    method FindBulk(count: int) returns (found: bool, bulk: Bulk, bulkCount: int)
      ensures found <==> Found(View().q, count)
      ensures found ==> Piece(bulk, bulkCount) == Find(View().q, count)
    {
      bulk, bulkCount := Bulk(0), 0;
      if total - 1 < count {
        return false, bulk, bulkCount;
      }
      for it := 0 to |pieces|
        invariant FirstFrom(pieces, count) >= it
      {
        if pieces[it].count >= count {
          return true, pieces[it].bulk, pieces[it].count;
        }
      }
      found := false;
    }

    /** Finds, records the progress and releases; the reader object is updated by the caller. */
    method GetBulkNoLock(r: ReaderId, count: int) returns (ret: bool, p: Piece)
      requires Increasing(pieces) && Cached() && r in counts && counts[r] < count
      modifies this`pieces, this`counts, this`readerMin, this`readerMax
      ensures ret <==> Found(old(View()).q, count)
      ensures Cached()
      ensures View() == if ret then old(View()).(q := Passed(old(View()).q, r, Find(old(View()).q, count)))
                        else old(View())
      ensures ret ==> p == Find(old(View()).q, count)
    {
      var bulk, bulkCount;
      ret, bulk, bulkCount := FindBulk(count);
      p := Piece(bulk, bulkCount);
      if ret {
        UpdateReaderCount(r, bulkCount);
        MayReleaseBuffer();
      }
    }

    /** Reader::GetBulk and Reader::GetBulkSameThread: the reader moves past what it was given. */
    method ReaderGetBulk(r: ReaderId) returns (ret: bool)
      requires Serves(r)
      modifies this`pieces, this`counts, this`readerMin, this`readerMax, this`readers
      ensures ret <==> Found(old(View()).q, old(readers)[r].next)
      ensures Cached()
      ensures View() == if ret then ReadBy(old(View()), r) else old(View())
      ensures ret ==> Took(old(View()), r, Find(old(View()).q, old(readers)[r].next), View())
    {
      if Found(View().q, readers[r].next) {
        ReadByTakes(View(), r);
      }
      var p;
      ret, p := GetBulkNoLock(r, readers[r].next);
      if ret {
        readers := readers[r := Served(readers[r], p)];
      }
    }

    method GetBulkSameThread(r: ReaderId) returns (ret: bool)
      requires Serves(r)
      modifies this
      ensures Cached() && View() == ReadOnce(old(View()), r)
      ensures ret <==> Found(old(View()).q, old(readers)[r].next)
      ensures if ret then Took(old(View()), r, Find(old(View()).q, old(readers)[r].next), View())
              else View() == old(View())
    {
      ret := ReaderGetBulk(r);
    }

    /** One fired callback: GetBulk must find an entry; then the signal, and the record goes. */
    method RunCallback(r: ReaderId)
      requires Serves(r) && Found(View().q, readers[r].next)
      modifies this`pieces, this`counts, this`readerMin, this`readerMax, this`readers, this`callbacks
      ensures View() == ServeOne(old(View()), r) && Cached()
    {
      var ret := ReaderGetBulk(r);
      assert ret;
      readers := readers[r := readers[r].(signaled := true)];
      callbacks := callbacks - {r};
    }

    /** The body of the firing loop for one record of those still to be looked at. */
    method FireIfDue(r: ReaderId, reachCount: int, ghost f: Firing, ghost todo: set<ReaderId>)
      requires f.due == Due(f.w, reachCount) && todo <= f.w.pending.Keys && r in todo
      requires View() == f.Left(todo) && Cached()
      modifies this`pieces, this`counts, this`readerMin, this`readerMax, this`readers, this`callbacks
      ensures View() == f.Left(todo - {r}) && Cached()
    {
      FiringFits(f, todo, r);
      LeftWithout(f.due, todo, r);
      if callbacks[r] <= reachCount {
        FiringGoesOn(f, todo, r);
        RunCallback(r);
      }
    }

    /** Fires every record that asks for reachCount or less, in whatever order the map yields. */
    method FireCallbackNoLock(reachCount: int)
      requires Fits(View()) && Cached()
      requires exists p :: p in pieces && reachCount <= p.count
      modifies this`pieces, this`counts, this`readerMin, this`readerMax, this`readers, this`callbacks
      ensures Cached() && View() == Fired(old(View()), reachCount)
    {
      ghost var f := FiringStarts(View(), reachCount);
      FireAll(reachCount, f);
    }

    method FireAll(reachCount: int, ghost f: Firing)
      requires f.due == Due(f.w, reachCount) && View() == f.Serve({}) == f.w && Cached()
      modifies this`pieces, this`counts, this`readerMin, this`readerMax, this`readers, this`callbacks
      ensures View() == f.Serve(f.due) && Cached()
    {
      var todo := callbacks.Keys;
      assert f.due - todo == {} && f.due - {} == f.due;
      while todo != {}
        invariant todo <= f.w.pending.Keys
        invariant View() == f.Left(todo) && Cached()
        decreases todo
      {
        var r :| r in todo;
        FireIfDue(r, reachCount, f, todo);
        todo := todo - {r};
      }
    }

    method PushBack(bulk: Bulk)
      modifies this`pieces, this`total, this`log
      ensures View() == old(View()).(q := Appended(old(View()).q, bulk), log := old(log) + [bulk])
    {
      pieces := pieces + [Piece(bulk, total)];
      total := total + 1;
      log := log + [bulk];
    }

    /** The new entry, and the callbacks that it meets. */
    method PushAndFire(bulk: Bulk)
      requires Fits(View()) && Cached()
      modifies this
      ensures Cached() && Increasing(pieces)
      ensures View() == Fired(old(View()).(q := Appended(old(View()).q, bulk), log := old(log) + [bulk]), old(total))
    {
      AppendedFits(View(), bulk);
      PushBack(bulk);
      assert pieces[|pieces| - 1] == Piece(bulk, total - 1);
      PushGoesOn(View(), total - 1, Piece(bulk, total - 1));
      FireCallbackNoLock(total - 1);
    }

    /** Whatever some reader still wants stays, the new entry included. */
    method PushBulk(bulk: Bulk)
      requires Fits(View()) && Cached()
      modifies this
      ensures Cached() && View() == Pushed(old(View()), bulk)
      ensures Remaining(old(pieces) + [Piece(bulk, old(total))], View().q) && total == old(total) + 1
      ensures counts.Keys == {} ==> pieces == if keepIfNoReader then old(pieces) + [Piece(bulk, old(total))] else []
    {
      ghost var w := View();
      PushAndFire(bulk);
      MayReleaseBuffer();
      PushRetains(w, bulk, View());
    }

    /** Two scans: beyond the fastest reader first, then between the slowest and the fastest.
        bulk is the reference that the buffer lets go of. */
    method RecycleOne() returns (ret: bool, bulk: Bulk)
      requires Cached()
      modifies this`pieces
      ensures View() == old(View()).(q := Recycled(old(View()).q).0) && ret == Recycled(old(View()).q).1
      ensures ret ==> exists i: nat :: LetsGo(old(pieces), i, bulk, pieces)
    {
      bulk := Bulk(0);
      if |counts| == 0 {
        return false, bulk;
      }
      MinMaxUnique(counts, readerMin, readerMax);
      for it := 0 to |pieces|
        invariant FirstFrom(pieces, readerMax + 1) >= it
        invariant unchanged(this)
      {
        if pieces[it].count > readerMax {
          bulk := pieces[it].bulk;
          pieces := Dropped(pieces, it);
          assert LetsGo(old(pieces), it, bulk, pieces);
          return true, bulk;
        }
      }
      for it := 0 to |pieces|
        invariant FirstFrom(pieces, readerMin + 1) >= it
        invariant unchanged(this)
      {
        if pieces[it].count > readerMin && pieces[it].count <= readerMax {
          bulk := pieces[it].bulk;
          pieces := Dropped(pieces, it);
          assert LetsGo(old(pieces), it, bulk, pieces);
          return true, bulk;
        }
      }
      ret := false;
    }

    /** Looks at the last entry only; a yes runs GetBulk, which must find one. */
    method CheckReady(r: ReaderId) returns (ret: bool)
      requires Serves(r)
      modifies this`pieces, this`counts, this`readerMin, this`readerMax, this`readers
      ensures Cached() && View() == ReadOnce(old(View()), r)
      ensures ret <==> Found(old(View()).q, old(readers)[r].next)
      ensures if ret then Took(old(View()), r, Find(old(View()).q, old(readers)[r].next), View())
              else View() == old(View())
    {
      LastDecides(View().q, readers[r].next);
      if readers[r].next > total - 1 || |pieces| == 0 {
        return false;
      }
      ret := pieces[|pieces| - 1].count >= readers[r].next;
      if ret {
        var got := ReaderGetBulk(r);
        assert got;
      }
    }

    method PutReader(r: ReaderId, rd: Reader)
      modifies this`readers
      ensures View() == SetReader(old(View()), r, rd)
    {
      readers := readers[r := rd];
    }

    /** The first step of WaitForReady, WaitTimeoutForReady and CallbackOnReady. */
    method StartWait(r: ReaderId, kind: WaitKind) returns (ret: bool)
      requires Serves(r)
      modifies this
      ensures Cached() && View() == WaitBegun(old(View()), r, kind)
      ensures ret <==> Found(old(View()).q, old(readers)[r].next)
      ensures ret ==> Took(old(View()), r, Find(old(View()).q, old(readers)[r].next), View())
      ensures ret && kind.Async? ==> readers[r].signaled && readers[r].pc.Waiting?
      ensures ret && !kind.Async? ==> readers[r].signaled == old(readers)[r].signaled
      ensures ret && !kind.Async? ==> readers[r].pc == old(readers)[r].pc
    {
      var rd := readers[r];
      ret := CheckReady(r);
      if !ret {
        PutReader(r, rd.(pc := Checked(kind, |rd.got|, rd.next)));
      } else if kind.Async? {
        PutReader(r, readers[r].(signaled := true, pc := Waiting(kind, |rd.got|, rd.next)));
      }
    }

    /** The first block of SetReadyCallback: one reader, one record. */
    method InsertRecord(r: ReaderId)
      requires r in counts && r in readers && readers[r].pc.Checked?
      modifies this`callbacks, this`readers
      ensures View() == RecordInserted(old(View()), r)
    {
      var pc := readers[r].pc;
      callbacks := callbacks[r := readers[r].next];
      readers := readers[r := readers[r].(pc := Inserted(pc.kind, pc.had, pc.from))];
    }

    /** The second block of SetReadyCallback. */
    method MayFireCallback(r: ReaderId)
      requires Inv(View()) && Cached() && At(View(), r) && readers[r].pc.Inserted?
      modifies this
      ensures Cached() && View() == CallbackFired(old(View()), r)
    {
      FireGoesOn(View(), r);
      var pc := readers[r].pc;
      if |pieces| != 0 {
        FireCallbackNoLock(pieces[|pieces| - 1].count);
      }
      PutReader(r, readers[r].(pc := Waiting(pc.kind, pc.had, pc.from)));
    }

    /** Drops the record of r if there is one; false means that its callback has fired. */
    method CancelCallback(r: ReaderId) returns (ret: bool)
      modifies this`callbacks
      ensures View() == old(View()).(pending := old(callbacks) - {r})
      ensures ret <==> r in old(callbacks)
    {
      ret := r in callbacks;
      if ret {
        callbacks := callbacks - {r};
      } else {
        assert callbacks - {r} == callbacks;
      }
    }

    /** The cancelling branch of WaitTimeoutForReady. */
    method GiveUpWait(r: ReaderId) returns (called: bool)
      requires At(View(), r) && readers[r].pc.TimedOut?
      modifies this`callbacks, this`readers
      ensures View() == Cancelled(old(View()), r)
      ensures called <==> r !in old(callbacks)
    {
      var rd := readers[r];
      var cancelled := CancelCallback(r);
      called := !cancelled;
      if called {
        assert callbacks == old(callbacks);
        PutReader(r, rd.(pc := Draining(rd.pc.had, rd.pc.from)));
      } else {
        PutReader(r, rd.(pc := Idle));
      }
    }

    /** The first block of the destructor, for a reader that has an asynchronous wait open. */
    method LeaveWait(r: ReaderId)
      requires At(View(), r) && readers[r].pc.Waiting?
      modifies this`callbacks, this`readers
      ensures View() == Left(old(View()), r)
    {
      var _ := CancelCallback(r);
      PutReader(r, readers[r].(pc := Leaving));
    }
  }

  /** In every state that a run reaches, what the operations of a registered reader rely on. */
  lemma DemandsMet(w: World, r: ReaderId)
    requires Inv(w) && r in w.readers
    ensures Increasing(w.q.pieces) && At(w, r) && w.q.counts[r] < w.readers[r].next
  {
    assert ReaderFits(w.log, w.q.counts[r], w.readers[r], r in w.pending);
  }

  lemma FireGoesOn(w: World, r: ReaderId)
    requires Inv(w) && At(w, r)
    ensures w.q.pieces != [] ==>
              var w1 := Fired(w, w.q.pieces[|w.q.pieces| - 1].count);
              r in w1.readers && w1.readers[r].pc == w.readers[r].pc
  {
    var w1 := FiredLastFits(w, r);
  }

  /** The fired state still has an ordered buffer for the release that follows. */
  lemma PushGoesOn(w: World, reach: int, p: Piece)
    requires Fits(w) && p in w.q.pieces && reach <= p.count
    ensures Increasing(Fired(w, reach).q.pieces)
  {
    FiredFits(w, reach, p);
  }

  /** CheckReady looks at the last entry only, FindBulk at all of them: they agree. */
  lemma LastDecides(q: Queue, c: int)
    requires Increasing(q.pieces)
    ensures Found(q, c) <==> c < q.total && q.pieces != [] && q.pieces[|q.pieces| - 1].count >= c
  {
    var i := FirstFrom(q.pieces, c);
    if i < |q.pieces| {
      IncreasingLast(q.pieces);
      assert q.pieces[i] in q.pieces;
    }
  }

  /** A firing loop: the state it started from and the readers it is to serve. */
  datatype Batch = Batch(w: World, due: set<ReaderId>) {
    ghost predicate Ready() {
      Fits(w) && due <= w.pending.Keys && AllFound(w, due)
    }

    /** The state once done have been served. */
    ghost function Serve(done: set<ReaderId>): World
      requires Ready() && done <= due
    {
      ServeAll(w, done)
    }

    /** The state while todo are still to be looked at. */
    ghost function Left(todo: set<ReaderId>): World
      requires Ready()
    {
      Serve(due - todo)
    }
  }

  type Firing = b: Batch | b.Ready()
    ghost witness Batch(World(Queue([], 0, map[], false), map[], map[], [], false), {})

  lemma NoneServed(w: World)
    requires AllFound(w, {})
    ensures ServeAll(w, {}) == w
  {
    assert CountsAfter(w, {}) == w.q.counts;
    assert ReadersAfter(w, {}) == w.readers;
    assert w.pending - {} == w.pending;
  }

  lemma FiringStarts(w: World, reach: int) returns (f: Firing)
    requires Fits(w) && exists p :: p in w.q.pieces && reach <= p.count
    ensures f == Batch(w, Due(w, reach))
    ensures f.Serve({}) == w && Fired(w, reach) == f.Serve(f.due)
  {
    var p :| p in w.q.pieces && reach <= p.count;
    FiredFits(w, reach, p);
    NoneServed(w);
    f := Batch(w, Due(w, reach));
  }

  /** What holds of every pending reader while the loop runs. */
  lemma FiringFits(f: Firing, todo: set<ReaderId>, r: ReaderId)
    requires todo <= f.w.pending.Keys && r in todo
    ensures var v := f.Left(todo);
            && r in v.pending && v.pending[r] == f.w.pending[r]
            && Increasing(v.q.pieces) && r in v.readers && r in v.q.counts && v.q.counts[r] < v.readers[r].next
  {
    var done := f.due - todo;
    ServeAllFits(f.w, done);
    var v := f.Serve(done);
    assert ReaderFits(v.log, v.q.counts[r], v.readers[r], r in v.pending);
  }

  lemma LeftWithout(due: set<ReaderId>, todo: set<ReaderId>, r: ReaderId)
    requires r in todo
    ensures due - (todo - {r}) == if r in due then due - todo + {r} else due - todo
  {
  }

  lemma FiringGoesOn(f: Firing, todo: set<ReaderId>, r: ReaderId)
    requires todo <= f.w.pending.Keys && r in todo && r in f.due
    ensures var v := f.Left(todo);
            r in v.readers && Found(v.q, v.readers[r].next) && ServeOne(v, r) == f.Left(todo - {r})
  {
    ServeOneMore(f.w, f.due - todo, r);
    LeftWithout(f.due, todo, r);
  }
}
