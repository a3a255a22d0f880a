/** What each step of device/sequenced_bulk_queue.{h,cc} gives to whom and what it lets go of, said
    about the retained entries and the readers alone. */
module BulkQueueMoves {
  import opened BulkQueue
  import opened BulkQueueProtocol

  /** What a release leaves of pieces. */
  ghost predicate Remaining(pieces: seq<Piece>, q: Queue) {
    Increasing(q.pieces) && forall p :: p in q.pieces <==> p in pieces && Wanted(q.counts, q.keepIfNoReader, p)
  }

  /** rd' is rd after it received p. */
  predicate Got(rd: Reader, p: Piece, rd': Reader) {
    rd'.got == rd.got + [p] && rd'.next == p.count + 1 && rd'.early == rd.early
  }

  /** Reader r received p, nobody else was touched, and what all have passed is gone. */
  ghost predicate Took(w: World, r: ReaderId, p: Piece, w': World) {
    && r in w.readers && w'.readers.Keys == w.readers.Keys
    && Got(w.readers[r], p, w'.readers[r])
    && (forall s :: s in w.readers && s != r ==> w'.readers[s] == w.readers[s])
    && w'.q.counts == w.q.counts[r := p.count] && Remaining(w.q.pieces, w'.q)
    && w'.q == w.q.(pieces := w'.q.pieces, counts := w'.q.counts)
    && w' == w.(q := w'.q, readers := w'.readers)
  }

  lemma ReadByTakes(w: World, r: ReaderId)
    requires Increasing(w.q.pieces) && At(w, r) && Found(w.q, w.readers[r].next)
    ensures Took(w, r, Find(w.q, w.readers[r].next), ReadBy(w, r))
  {
    ReleaseMeans(w.q.(counts := w.q.counts[r := Find(w.q, w.readers[r].next).count]));
  }

  predicate NoneFrom(pieces: seq<Piece>, c: int) {
    forall p :: p in pieces ==> p.count < c
  }

  /** What a reader wants, and whether it is there. */
  lemma WishMeans(w: World, r: ReaderId, p: Piece)
    requires Inv(w) && r in w.readers
    ensures At(w, r) && Increasing(w.q.pieces)
    ensures w.readers[r].pc.Idle? ==> !w.readers[r].signaled
    ensures Found(w.q, w.readers[r].next) <==> !NoneFrom(w.q.pieces, w.readers[r].next)
    ensures LeastFrom(w.q.pieces, w.readers[r].next, p) <==>
              Found(w.q, w.readers[r].next) && p == Find(w.q, w.readers[r].next)
  {
    forall p | p in w.q.pieces ensures p.count < w.q.total {
      assert FromLog(w.log, p);
    }
    FindMeans(w.q, w.readers[r].next);
    assert ReaderFits(w.log, w.q.counts[r], w.readers[r], r in w.pending);
  }

  /** A read delivers the least retained entry numbered as wanted or more, and does nothing exactly
      when there is none. */
  lemma ReadDelivers(w: World, r: ReaderId, p: Piece, w': World)
    requires Inv(w) && Enabled(w, Read(r)) && w' == Apply(w, Read(r))
    ensures LeastFrom(w.q.pieces, w.readers[r].next, p) ==> Took(w, r, p, w') && w'.readers[r].pc.Idle?
    ensures NoneFrom(w.q.pieces, w.readers[r].next) <==> w' == w
  {
    WishMeans(w, r, p);
    if Found(w.q, w.readers[r].next) {
      ReadByTakes(w, r);
    }
  }

  lemma TookStill(w: World, r: ReaderId, p: Piece, w1: World, rd: Reader)
    requires Took(w, r, p, w1) && Got(w.readers[r], p, rd)
    ensures Took(w, r, p, SetReader(w1, r, rd))
  {
  }

  lemma WaitServed(w: World, r: ReaderId, kind: WaitKind, p: Piece, w': World)
    requires Increasing(w.q.pieces) && At(w, r) && w.readers[r].pc.Idle? && !w.readers[r].signaled
    requires Found(w.q, w.readers[r].next) && p == Find(w.q, w.readers[r].next) && w' == WaitBegun(w, r, kind)
    ensures Took(w, r, p, w') && w'.readers[r].signaled == kind.Async?
    ensures if kind.Async? then w'.readers[r].pc.Waiting? else w'.readers[r].pc.Idle?
  {
    ReadByTakes(w, r);
    TookStill(w, r, p, ReadBy(w, r), w'.readers[r]);
  }

  /** A wait that finds an entry delivers it at once: a synchronous one returns, an asynchronous one has
      its callback posted. A wait that finds none touches nothing but the reader's own thread, which
      goes on to insert its record. */
  lemma WaitDelivers(w: World, r: ReaderId, kind: WaitKind, p: Piece, w': World)
    requires Inv(w) && Enabled(w, BeginWait(r, kind)) && w' == Apply(w, BeginWait(r, kind))
    ensures r in w'.readers
    ensures LeastFrom(w.q.pieces, w.readers[r].next, p) ==>
              && Took(w, r, p, w') && w'.readers[r].signaled == kind.Async?
              && if kind.Async? then Enabled(w', Wake(r)) else w'.readers[r].pc.Idle?
    ensures NoneFrom(w.q.pieces, w.readers[r].next) ==>
              && Enabled(w', Insert(r)) && w'.readers[r].pc.kind == kind
              && w' == SetReader(w, r, w.readers[r].(pc := w'.readers[r].pc))
  {
    WishMeans(w, r, p);
    if Found(w.q, w.readers[r].next) {
      WaitServed(w, r, kind, Find(w.q, w.readers[r].next), w');
    }
  }

  lemma SkipMoves(w: World, r: ReaderId, n: nat, w1: World)
    requires Inv(w) && Enabled(w, Skip(r, n)) && w1 == Apply(w, Skip(r, n))
    ensures Inv(w1) && Enabled(w1, Read(r)) && w1.q == w.q
    ensures w1.readers[r] == w.readers[r].(next := w.readers[r].next + n)
  {
    InvKept(w, Skip(r, n), w1);
  }

  /** A reader that skips n and then reads gets the least entry beyond the n numbers. */
  lemma SkipPasses(w: World, r: ReaderId, n: nat, p: Piece, w1: World, w2: World)
    requires Inv(w) && Enabled(w, Skip(r, n)) && w1 == Apply(w, Skip(r, n))
    requires Enabled(w1, Read(r)) && w1.q.counts.Keys == w1.readers.Keys && w2 == Apply(w1, Read(r))
    ensures LeastFrom(w.q.pieces, w.readers[r].next + n, p) ==>
              && r in w2.readers && Got(w.readers[r], p, w2.readers[r])
              && w2.q.counts == w.q.counts[r := p.count] && Remaining(w.q.pieces, w2.q)
    ensures NoneFrom(w.q.pieces, w.readers[r].next + n) <==> w2 == w1
  {
    SkipMoves(w, r, n, w1);
    ReadDelivers(w1, r, p, w2);
  }

  // ----- who is woken

  /** Reader r, if it has a record that some entry of pieces meets, received the least such entry, was
      signalled, and its record is gone; otherwise nothing happened to it. */
  ghost predicate Woke(pieces: seq<Piece>, w: World, r: ReaderId, w': World) {
    && At(w, r) && At(w', r)
    && if r in w.pending && !NoneFrom(pieces, w.readers[r].next)
       then exists p :: LeastFrom(pieces, w.readers[r].next, p) && WokeWith(w, r, p, w')
       else w'.readers[r] == w.readers[r] && w'.q.counts[r] == w.q.counts[r] && (r in w'.pending <==> r in w.pending)
  }

  predicate WokeWith(w: World, r: ReaderId, p: Piece, w': World)
    requires At(w, r) && At(w', r)
  {
    && Got(w.readers[r], p, w'.readers[r]) && w'.readers[r].signaled && w'.readers[r].pc == w.readers[r].pc
    && w'.q.counts[r] == p.count && r !in w'.pending
  }

  lemma ServedWakes(w: World, due: set<ReaderId>, r: ReaderId, w': World)
    requires AllFound(w, due) && At(w, r) && w' == ServeAll(w, due)
    ensures At(w', r)
    ensures if r in due then WokeWith(w, r, Find(w.q, w.readers[r].next), w')
            else w'.readers[r] == w.readers[r] && w'.q.counts[r] == w.q.counts[r]
                 && (r in w'.pending <==> r in w.pending)
  {
  }

  /** Firing up to the last retained number wakes exactly the readers whose wish is retained. */
  lemma FiredWakes(w: World, last: Piece, r: ReaderId, w': World)
    requires Fits(w) && last in w.q.pieces && r in w.readers && w' == Fired(w, last.count)
    requires forall p :: p in w.q.pieces ==> p.count <= last.count
    ensures Woke(w.q.pieces, w, r, w')
  {
    FiredFits(w, last.count, last);
    ServedWakes(w, Due(w, last.count), r, w');
    if r in Due(w, last.count) {
      FindMeansFor(w, r);
    }
  }

  lemma FindMeansFor(w: World, r: ReaderId)
    requires Fits(w) && r in w.readers && Found(w.q, w.readers[r].next)
    ensures LeastFrom(w.q.pieces, w.readers[r].next, Find(w.q, w.readers[r].next))
  {
  }

  /** A push appends one entry, hands it or an older one to every recorded reader that it satisfies, and
      lets go of what all have passed then. */
  lemma PushServes(w: World, b: Bulk, r: ReaderId, w': World)
    requires Fits(w) && w' == Apply(w, Push(b)) && r in w.readers
    ensures Woke(w.q.pieces + [Piece(b, w.q.total)], w, r, w')
  {
    var w0 := w.(q := Appended(w.q, b), log := w.log + [b]);
    var p := Piece(b, w.q.total);
    assert w0.q.pieces[|w.q.pieces|] == p;
    AppendedFits(w, b);
    AppendedLast(w, p);
    FiredWakes(w0, p, r, Fired(w0, w.q.total));
  }

  lemma AppendedLast(w: World, last: Piece)
    requires Fits(w) && last.count == w.q.total
    ensures forall p :: p in w.q.pieces + [last] ==> p.count <= last.count
  {
    forall p | p in w.q.pieces ensures p.count < w.q.total {
      assert FromLog(w.log, p);
    }
  }

  lemma ServedRemains(w: World, due: set<ReaderId>, q1: Queue)
    requires Increasing(w.q.pieces) && AllFound(w, due) && q1 == Release(ServeAll(w, due).q)
    ensures Remaining(w.q.pieces, q1)
  {
    var q := w.q.(counts := CountsAfter(w, due));
    ReleaseMeans(q);
    ReleaseMeans(ServeAll(w, due).q);
  }

  lemma PushedIs(w: World, b: Bulk, w0: World)
    requires Fits(w) && w0 == w.(q := Appended(w.q, b), log := w.log + [b])
    ensures Increasing(w0.q.pieces) && AllFound(w0, Due(w0, w.q.total))
    ensures var w1 := ServeAll(w0, Due(w0, w.q.total)); Pushed(w, b) == w1.(q := Release(w1.q))
  {
    var p := Piece(b, w.q.total);
    assert w0.q.pieces[|w.q.pieces|] == p;
    AppendedFits(w, b);
    FiredFits(w0, w.q.total, p);
  }

  lemma NobodyKeeps(w0: World, due: set<ReaderId>)
    requires due <= w0.pending.Keys <= w0.readers.Keys == {} == w0.q.counts.Keys && AllFound(w0, due)
    ensures Release(ServeAll(w0, due).q).pieces == if w0.q.keepIfNoReader then w0.q.pieces else []
  {
    assert due == {};
  }

  /** A push lets go of exactly what all readers have passed then; without readers a keeping queue keeps
      everything and the new entry, and any other queue nothing. */
  lemma PushRetains(w: World, b: Bulk, w': World)
    requires Fits(w) && w' == Apply(w, Push(b))
    ensures Remaining(w.q.pieces + [Piece(b, w.q.total)], w'.q)
    ensures w'.q.total == w.q.total + 1 && w'.log == w.log + [b] && w'.readers.Keys == w.readers.Keys
    ensures w.readers.Keys == {} ==>
              w'.q.pieces == if w.q.keepIfNoReader then w.q.pieces + [Piece(b, w.q.total)] else []
  {
    var w0 := w.(q := Appended(w.q, b), log := w.log + [b]);
    PushedIs(w, b, w0);
    ServedRemains(w0, Due(w0, w.q.total), w'.q);
    if w.readers.Keys == {} {
      NobodyKeeps(w0, Due(w0, w.q.total));
    }
  }

  lemma WokeStill(pieces: seq<Piece>, w: World, r: ReaderId, s: ReaderId, w1: World, rd: Reader)
    requires Woke(pieces, w, s, w1) && s != r
    ensures Woke(pieces, w, s, SetReader(w1, r, rd))
  {
    if s in w.pending && !NoneFrom(pieces, w.readers[s].next) {
      var p :| LeastFrom(pieces, w.readers[s].next, p) && WokeWith(w, s, p, w1);
      assert WokeWith(w, s, p, SetReader(w1, r, rd));
    }
  }

  lemma FiredState(w: World, r: ReaderId, s: ReaderId) returns (w1: World)
    requires Fits(w) && At(w, r) && s in w.readers
    ensures w1 == if w.q.pieces == [] then w else Fired(w, w.q.pieces[|w.q.pieces| - 1].count)
    ensures r in w1.readers && w1.readers[r].pc == w.readers[r].pc
    ensures Woke(w.q.pieces, w, s, w1)
  {
    w1 := w;
    if w.q.pieces != [] {
      var last := w.q.pieces[|w.q.pieces| - 1];
      IncreasingLast(w.q.pieces);
      FiredFits(w, last.count, last);
      ServeAllKeepsPc(w, Due(w, last.count), r);
      w1 := Fired(w, last.count);
      FiredWakes(w, last, s, w1);
    } else {
      NothingWakes(w, s);
    }
  }

  lemma NothingWakes(w: World, s: ReaderId)
    requires At(w, s)
    ensures Woke([], w, s, w)
  {
  }

  lemma PutBack(w: World, r: ReaderId, rd: Reader)
    requires r in w.readers && rd == w.readers[r].(pc := rd.pc)
    ensures var w' := SetReader(w, r, rd);
            w == SetReader(w', r, w'.readers[r].(pc := w.readers[r].pc))
  {
    assert w.readers[r := rd][r := w.readers[r]] == w.readers;
  }

  lemma FireGoesToWait(w: World, r: ReaderId, w1: World, w': World)
    requires At(w, r) && w.readers[r].pc.Inserted? && w' == CallbackFired(w, r)
    requires w1 == if w.q.pieces == [] then w else Fired(w, w.q.pieces[|w.q.pieces| - 1].count)
    requires r in w1.readers && w1.readers[r].pc == w.readers[r].pc
    ensures r in w'.readers && w' == SetReader(w1, r, w'.readers[r])
    ensures w1 == SetReader(w', r, w'.readers[r].(pc := w.readers[r].pc))
    ensures w'.readers[r].pc == Waiting(w.readers[r].pc.kind, w.readers[r].pc.had, w.readers[r].pc.from)
  {
    var pc := w.readers[r].pc;
    var rd := w1.readers[r].(pc := Waiting(pc.kind, pc.had, pc.from));
    FireMeans(w, r, w1, rd);
    PutBack(w1, r, rd);
  }

  /** MayFireCallback wakes in the same way, and the reader that called it goes on to wait; w1 is the
      state before it does. */
  lemma FireServes(w: World, r: ReaderId, s: ReaderId, w': World) returns (w1: World)
    requires Inv(w) && Enabled(w, Fire(r)) && w' == Apply(w, Fire(r)) && s in w.readers
    ensures Woke(w.q.pieces, w, s, w1) && (s != r ==> Woke(w.q.pieces, w, s, w'))
    ensures r in w'.readers && w1 == SetReader(w', r, w'.readers[r].(pc := w.readers[r].pc))
    ensures w'.readers[r].pc == Waiting(w.readers[r].pc.kind, w.readers[r].pc.had, w.readers[r].pc.from)
  {
    w1 := FiredState(w, r, s);
    FireGoesToWait(w, r, w1, w');
    if s != r {
      WokeStill(w.q.pieces, w, r, s, w1, w'.readers[r]);
    }
  }

  /** Some record asks for something in pieces. */
  ghost predicate SomeoneDue(pieces: seq<Piece>, w: World) {
    exists s :: s in w.pending && s in w.readers && !NoneFrom(pieces, w.readers[s].next)
  }

  lemma FiredRetains(w: World, last: Piece, w': World)
    requires Fits(w) && last in w.q.pieces && w' == Fired(w, last.count)
    requires forall p :: p in w.q.pieces ==> p.count <= last.count
    ensures if SomeoneDue(w.q.pieces, w) then Remaining(w.q.pieces, w'.q) else w'.q == w.q
  {
    FiredFits(w, last.count, last);
    var due := Due(w, last.count);
    if r :| r in due {
      assert !NoneFrom(w.q.pieces, w.readers[r].next);
      ReleaseMeans(w.q.(counts := CountsAfter(w, due)));
    } else {
      assert due == {};
      NoneDue(w);
    }
  }

  lemma NoneDue(w: World)
    requires AllFound(w, {}) && w.q.counts.Keys == w.readers.Keys
    ensures ServeAll(w, {}).q == w.q
  {
    assert CountsAfter(w, {}) == w.q.counts;
  }

  /** When MayFireCallback woke somebody, what all have passed then is gone; otherwise the queue is as before. */
  lemma FireRetains(w: World, r: ReaderId, w': World)
    requires Inv(w) && Enabled(w, Fire(r)) && w' == Apply(w, Fire(r))
    ensures if SomeoneDue(w.q.pieces, w) then Remaining(w.q.pieces, w'.q) else w'.q == w.q
  {
    var w1 := FiredLastFits(w, r);
    FireGoesToWait(w, r, w1, w');
    if w.q.pieces != [] {
      IncreasingLast(w.q.pieces);
      FiredRetains(w, w.q.pieces[|w.q.pieces| - 1], w1);
    }
  }

  // ----- a keeping queue serves its first reader from the start

  lemma NobodyMoves(w: World, m: Move, w': World)
    requires Inv(w) && w.readers.Keys == {} && w.q.keepIfNoReader
    requires Enabled(w, m) && w' == Apply(w, m) && !m.Register?
    ensures w'.readers.Keys == {} && w'.q.keepIfNoReader
    ensures w'.q.total - |w'.q.pieces| == w.q.total - |w.q.pieces|
  {
    match m
    case Push(b) => PushRetains(w, b, w');
    case Recycle =>
  }

  lemma {:induction false} NobodyYet(ws: seq<World>, ms: seq<Move>, n: nat)
    requires BulkQueueProtocol.IsRun(ws, ms) && n <= |ms| && ws[0].q.keepIfNoReader
    requires forall k :: 0 <= k < n ==> !ms[k].Register?
    ensures ws[n].readers.Keys == {} && ws[n].q.keepIfNoReader && |ws[n].q.pieces| == ws[n].q.total
  {
    if n == 0 {
    } else {
      NobodyYet(ws, ms, n - 1);
      RunInv(ws, ms, n - 1);
      var m := ms[n - 1];
      NobodyMoves(ws[n - 1], m, ws[n]);
    }
  }

  lemma WokeKeepsEarly(pieces: seq<Piece>, w: World, r: ReaderId, w': World)
    requires Woke(pieces, w, r, w')
    ensures w'.readers[r].early == w.readers[r].early
  {
  }

  lemma ServingKeepsEarly(w: World, m: Move, w': World, r: ReaderId)
    requires Inv(w) && Enabled(w, m) && w' == Apply(w, m) && r in w.readers && (m.Push? || m.Fire?)
    ensures r in w'.readers && w'.readers[r].early == w.readers[r].early
  {
    match m
    case Push(b) =>
      PushServes(w, b, r, w');
      WokeKeepsEarly(w.q.pieces + [Piece(b, w.q.total)], w, r, w');
    case Fire(s) =>
      var w1 := FireServes(w, s, r, w');
      WokeKeepsEarly(w.q.pieces, w, r, w1);
  }

  lemma OwnKeepsEarly(w: World, m: Move, w': World, r: ReaderId)
    requires w.q.counts.Keys == w.readers.Keys && Enabled(w, m) && w' == Apply(w, m) && r in w.readers
    requires !m.Push? && !m.Fire? && !m.Recycle? && !m.Unregister? && m.r == r
    ensures r in w'.readers && w'.readers[r].early == w.readers[r].early
  {
  }

  lemma RestKeepsEarly(w: World, m: Move, w': World, r: ReaderId)
    requires w.q.counts.Keys == w.readers.Keys && Enabled(w, m) && w' == Apply(w, m) && r in w.readers
    requires !m.Push? && !m.Fire? && m != Unregister(r)
    ensures r in w'.readers && w'.readers[r].early == w.readers[r].early
  {
    if !m.Recycle? && m.r == r {
      OwnKeepsEarly(w, m, w', r);
    } else {
      OthersLeaveReader(w, m, w', r);
    }
  }

  /** While a reader stays registered, what was retained when it came does not change. */
  lemma EarlyStays(w: World, m: Move, w': World, r: ReaderId)
    requires Inv(w) && Enabled(w, m) && w' == Apply(w, m) && r in w.readers && m != Unregister(r)
    ensures r in w'.readers && w'.readers[r].early == w.readers[r].early
  {
    if m.Push? || m.Fire? {
      ServingKeepsEarly(w, m, w', r);
    } else {
      RestKeepsEarly(w, m, w', r);
    }
  }

  lemma {:induction false} EarlyForGood(ws: seq<World>, ms: seq<Move>, i: nat, n: nat, r: ReaderId)
    requires BulkQueueProtocol.IsRun(ws, ms) && i < n <= |ms| && ms[i] == Register(r)
    requires |ws[i].q.pieces| == ws[i].q.total
    requires forall k :: i < k < n ==> ms[k] != Unregister(r)
    ensures r in ws[n].readers && ws[n].readers[r].early
  {
    var m := ms[n - 1];
    if n == i + 1 {
      assert ws[n] == Apply(ws[i], m);
    } else {
      EarlyForGood(ws, ms, i, n - 1, r);
      RunInv(ws, ms, n - 1);
      EarlyStays(ws[n - 1], m, ws[n], r);
    }
  }

  /** got are exactly the first bulks pushed, and the next one is there to be read if there is one. */
  ghost predicate HasFirst(w: World, r: ReaderId) {
    && r in w.readers
    && var got := w.readers[r].got;
       && |got| <= |w.log| && got == seq(|got|, k requires 0 <= k < |w.log| => Piece(w.log[k], k))
       && w.readers[r].next == |got|
       && (|got| < |w.log| <==> !NoneFrom(w.q.pieces, |got|))
  }

  /** While nothing is recycled or skipped, a reader that registers when all bulks ever pushed are still
      retained receives exactly the first bulks pushed, in order, for as long as it stays. */
  lemma ReaderGetsAll(ws: seq<World>, ms: seq<Move>, i: nat, r: ReaderId)
    requires BulkQueueProtocol.IsRun(ws, ms) && i < |ms| && ms[i] == Register(r)
    requires |ws[i].q.pieces| == ws[i].q.total
    requires forall k :: i < k < |ms| ==> ms[k] != Unregister(r)
    requires forall m :: m in ms ==> !m.Recycle? && !m.Skip?
    ensures HasFirst(ws[|ms|], r)
  {
    EarlyForGood(ws, ms, i, |ms|, r);
    EveryBulkInOrder(ws, ms, r);
    RunInv(ws, ms, |ms|);
    WishMeans(ws[|ms|], r, Piece(Bulk(0), 0));
  }

  /** So does the first reader that ever registers with a queue that keeps what nobody reads, those bulks
      included that were pushed before it came. */
  lemma FirstReaderGetsAll(ws: seq<World>, ms: seq<Move>, i: nat, r: ReaderId)
    requires BulkQueueProtocol.IsRun(ws, ms) && ws[0].q.keepIfNoReader && i < |ms| && ms[i] == Register(r)
    requires forall k :: 0 <= k < i ==> !ms[k].Register?
    requires forall k :: i < k < |ms| ==> ms[k] != Unregister(r)
    requires forall m :: m in ms ==> !m.Recycle? && !m.Skip?
    ensures HasFirst(ws[|ms|], r)
  {
    NobodyYet(ws, ms, i);
    ReaderGetsAll(ws, ms, i, r);
  }
}
