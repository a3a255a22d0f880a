/** What the steps of device/sequenced_bulk_queue.{h,cc} do to the length of the buffer, for the
    threads that push to a queue and bound it. */
module BulkQueueEffects {
  import opened Sequences
  import opened BulkQueue
  import opened BulkQueueProtocol
  import opened SequencedBulkQueues

  /** Nothing is retained beyond the slowest reader: every entry goes with the next release. */
  ghost predicate Spent(q: Queue) {
    q.counts.Keys != {} ==> forall p :: p in q.pieces ==> p.count <= MinOf(q.counts)
  }

  /** Entries only go and readers only advance or leave. */
  ghost predicate Drains(q: Queue, q': Queue) {
    && |q'.pieces| <= |q.pieces| && (forall p :: p in q'.pieces ==> p in q.pieces)
    && q'.counts.Keys <= q.counts.Keys && (forall r :: r in q'.counts ==> q.counts[r] <= q'.counts[r])
    && q'.keepIfNoReader == q.keepIfNoReader
  }

  lemma ReleaseDrains(q: Queue, counts: map<ReaderId, int>)
    requires Increasing(q.pieces) && counts.Keys == q.counts.Keys
    requires forall r :: r in counts ==> q.counts[r] <= counts[r]
    ensures Drains(q, Release(q.(counts := counts)))
  {
    ReleaseShrinks(q.(counts := counts));
    if counts.Keys != {} {
      KeepShrinks(q.pieces, (p: Piece) => p.count > MinOf(counts));
    }
  }

  lemma CountsGrowAll(w: World, due: set<ReaderId>)
    requires Fits(w) && due <= w.pending.Keys && AllFound(w, due)
    ensures CountsAfter(w, due).Keys == w.q.counts.Keys
    ensures forall r :: r in w.q.counts ==> w.q.counts[r] <= CountsAfter(w, due)[r]
  {
    forall r | r in w.q.counts ensures w.q.counts[r] <= CountsAfter(w, due)[r] {
      if r in due {
        ProgressGrows(w, r);
      }
    }
  }

  lemma ServeAllDrains(w: World, due: set<ReaderId>)
    requires Fits(w) && due <= w.pending.Keys && AllFound(w, due)
    ensures Drains(w.q, ServeAll(w, due).q)
  {
    CountsGrowAll(w, due);
    ReleaseDrains(w.q, CountsAfter(w, due));
  }

  lemma ReadByDrains(w: World, r: ReaderId)
    requires Fits(w) && r in w.readers && Found(w.q, w.readers[r].next)
    ensures Drains(w.q, ReadBy(w, r).q)
  {
    ProgressGrows(w, r);
    ReleaseDrains(w.q, w.q.counts[r := Find(w.q, w.readers[r].next).count]);
  }

  lemma OthersDrain(w: World, m: Move, w': World)
    requires Inv(w) && Enabled(w, m) && w' == Apply(w, m)
    requires !m.Push? && !m.Recycle? && !m.Register?
    ensures Drains(w.q, w'.q)
  {
    match m
    case Fire(r) =>
      if w.q.pieces != [] {
        var last := w.q.pieces[|w.q.pieces| - 1];
        FiredFits(w, last.count, last);
        ServeAllDrains(w, Due(w, last.count));
      }
    case Read(r) =>
      if Found(w.q, w.readers[r].next) {
        ReadByDrains(w, r);
      }
    case BeginWait(r, _) =>
      if Found(w.q, w.readers[r].next) {
        ReadByDrains(w, r);
      }
    case _ =>
  }

  /** A push is one append and, after the readers advanced, one release. */
  lemma PushedQueue(w: World, b: Bulk)
    requires Inv(w)
    ensures var q' := Pushed(w, b).q;
            && q' == Release(Appended(w.q, b).(counts := q'.counts))
            && q'.counts.Keys == w.q.counts.Keys && (forall r :: r in q'.counts ==> w.q.counts[r] <= q'.counts[r])
  {
    var w0 := w.(q := Appended(w.q, b), log := w.log + [b]);
    var p := Piece(b, w.q.total);
    assert w0.q.pieces[|w.q.pieces|] == p;
    AppendedFits(w, b);
    FiredFits(w0, w.q.total, p);
    var due := Due(w0, w.q.total);
    CountsGrowAll(w0, due);
    if due != {} {
      ReleaseTwice(w0.q, CountsAfter(w0, due), CountsAfter(w0, due));
    }
  }

  // ----- when a push makes the queue longer

  /** The push serves r. */
  predicate IsDue(w: World, r: ReaderId) {
    r in w.pending && w.pending[r] <= w.q.total
  }

  /** Some reader that the push does not serve has yet to read every retained entry. */
  ghost predicate SomeNeedsAll(w: World) {
    exists r :: r in w.q.counts && !IsDue(w, r) && forall p :: p in w.q.pieces ==> w.q.counts[r] < p.count
  }

  lemma PushedCounts(w: World, b: Bulk, w0: World)
    requires Inv(w) && w0 == w.(q := Appended(w.q, b), log := w.log + [b])
    ensures AllFound(w0, Due(w0, w.q.total)) && Pushed(w, b).q.counts == CountsAfter(w0, Due(w0, w.q.total))
  {
    var p := Piece(b, w.q.total);
    assert w0.q.pieces[|w.q.pieces|] == p;
    AppendedFits(w, b);
    FiredFits(w0, w.q.total, p);
  }

  lemma BelowTotal(w: World, r: ReaderId)
    requires Inv(w) && r in w.q.counts
    ensures w.q.counts[r] < w.q.total
  {
    var rd := w.readers[r];
    assert ReaderFits(w.log, w.q.counts[r], rd, r in w.pending);
    if rd.got != [] {
      assert FromLog(w.log, rd.got[|rd.got| - 1]);
    }
  }

  lemma NotAllKept(pieces: seq<Piece>, lo: int)
    ensures |Above(pieces, lo)| == |pieces| <==> forall p :: p in pieces ==> lo < p.count
  {
    KeepShrinks(pieces, (p: Piece) => p.count > lo);
    if forall p :: p in pieces ==> lo < p.count {
      KeepAll(pieces, (p: Piece) => p.count > lo);
    }
  }

  /** A push makes the queue longer exactly when some reader that it does not serve has yet to read
      all that is retained. */
  lemma PushGrowsExactly(w: World, b: Bulk)
    requires Inv(w) && !w.q.keepIfNoReader
    ensures |Pushed(w, b).q.pieces| == |w.q.pieces| + 1 <==> SomeNeedsAll(w)
  {
    PushedQueue(w, b);
    var q' := Pushed(w, b).q;
    if q'.counts.Keys == {} {
      assert !SomeNeedsAll(w);
    } else {
      var all, lo := Appended(w.q, b).pieces, MinOf(q'.counts);
      NotAllKept(all, lo);
      NeedsAllOrNot(w, b, lo);
    }
  }

  lemma NeedsAllOrNot(w: World, b: Bulk, lo: int)
    requires Inv(w) && IsMin(Pushed(w, b).q.counts, lo)
    ensures (forall p :: p in Appended(w.q, b).pieces ==> lo < p.count) <==> SomeNeedsAll(w)
  {
    var w0 := w.(q := Appended(w.q, b), log := w.log + [b]);
    PushedCounts(w, b, w0);
    var due := Due(w0, w.q.total);
    var counts, all := CountsAfter(w0, due), w0.q.pieces;
    assert forall p :: p in all <==> p in w.q.pieces || p == Piece(b, w.q.total);
    forall r | r in due ensures exists p :: p in all && counts[r] == p.count {
      assert Find(w0.q, w0.readers[r].next) in all && counts[r] == Find(w0.q, w0.readers[r].next).count;
    }
    if forall p :: p in all ==> lo < p.count {
      var r :| r in counts && counts[r] == lo;
      assert r in w.q.counts && !IsDue(w, r) && w.q.counts[r] == lo;
    }
    if r :| r in w.q.counts && !IsDue(w, r) && forall p :: p in w.q.pieces ==> w.q.counts[r] < p.count {
      BelowTotal(w, r);
      assert r in counts && lo <= counts[r];
    }
  }

  /** With no record, a push moves no reader. */
  lemma NobodyWaits(w: World, b: Bulk)
    requires w.pending == map[]
    ensures Pushed(w, b).q.counts == w.q.counts
    ensures Pushed(w, b).readers == w.readers && Pushed(w, b).pending == map[]
  {
    var w0 := w.(q := Appended(w.q, b), log := w.log + [b]);
    assert Due(w0, w.q.total) == {};
    NoneServed(w0);
  }

  /** A reader that has read nothing needs every entry. */
  lemma NewcomerNeedsAll(w: World, r: ReaderId)
    requires Inv(w) && r in w.q.counts && w.q.counts[r] == -1 && r !in w.pending
    ensures SomeNeedsAll(w)
  {
    forall p | p in w.q.pieces ensures w.q.counts[r] < p.count {
      assert FromLog(w.log, p);
    }
    assert !IsDue(w, r);
  }
}
