/** The sequenced multi-reader queue of device/sequenced_bulk_queue.{h,cc} on values: what each
    lock-protected operation does to the retained bulks and the readers' progress. */
module BulkQueue {
  import opened Sequences

  /** A reference-counted bulk, known by its handle. */
  datatype Bulk = Bulk(handle: nat)

  /** One entry of the buffer: a bulk and its sequence number. */
  datatype Piece = Piece(bulk: Bulk, count: int)

  datatype ReaderId = ReaderId(address: nat)

  /** counts holds, for each registered reader, the number it read last; -1 before the first. */
  datatype Queue = Queue(pieces: seq<Piece>, total: nat, counts: map<ReaderId, int>, keepIfNoReader: bool)

  ghost predicate Increasing(pieces: seq<Piece>) {
    forall i, j :: 0 <= i < j < |pieces| ==> pieces[i].count < pieces[j].count
  }

  // ----- the slowest and the fastest reader

  ghost predicate IsMin(counts: map<ReaderId, int>, m: int) {
    (exists r :: r in counts && counts[r] == m) && forall r :: r in counts ==> m <= counts[r]
  }

  ghost predicate IsMax(counts: map<ReaderId, int>, m: int) {
    (exists r :: r in counts && counts[r] == m) && forall r :: r in counts ==> counts[r] <= m
  }

  lemma {:induction false} BoundsExist(counts: map<ReaderId, int>)
    requires counts.Keys != {}
    ensures exists m :: IsMin(counts, m)
    ensures exists m :: IsMax(counts, m)
  {
    var k :| k in counts.Keys;
    var rest := counts - {k};
    assert forall r :: r in counts <==> r == k || r in rest;
    if rest.Keys == {} {
      assert forall r :: r in counts ==> r == k;
      assert IsMin(counts, counts[k]) && IsMax(counts, counts[k]);
    } else {
      BoundsExist(rest);
      var lo :| IsMin(rest, lo);
      var hi :| IsMax(rest, hi);
      assert IsMin(counts, if counts[k] < lo then counts[k] else lo) by {
        var r :| r in rest && rest[r] == lo;
        assert r in counts && counts[r] == lo;
      }
      assert IsMax(counts, if counts[k] > hi then counts[k] else hi) by {
        var r :| r in rest && rest[r] == hi;
        assert r in counts && counts[r] == hi;
      }
    }
  }

  ghost function MinOf(counts: map<ReaderId, int>): (m: int)
    requires counts.Keys != {}
    ensures IsMin(counts, m)
  {
    BoundsExist(counts);
    var m :| IsMin(counts, m);
    m
  }

  ghost function MaxOf(counts: map<ReaderId, int>): (m: int)
    requires counts.Keys != {}
    ensures IsMax(counts, m)
  {
    BoundsExist(counts);
    var m :| IsMax(counts, m);
    m
  }

  /** The slowest reader only advances, also when readers leave. */
  lemma MinGrows(c: map<ReaderId, int>, c': map<ReaderId, int>)
    requires c'.Keys != {} && c'.Keys <= c.Keys && forall r :: r in c' ==> c[r] <= c'[r]
    ensures MinOf(c) <= MinOf(c')
  {
    assert IsMin(c, MinOf(c)) && IsMin(c', MinOf(c'));
  }

  // ----- releasing what every reader has passed

  function Above(pieces: seq<Piece>, m: int): seq<Piece> {
    Keep(pieces, (p: Piece) => p.count > m)
  }

  /** MayReleaseBuffer, as a filter over the whole buffer. */
  ghost function Release(q: Queue): (r: Queue) {
    if q.counts.Keys != {} then q.(pieces := Above(q.pieces, MinOf(q.counts)))
    else if q.keepIfNoReader then q
    else q.(pieces := [])
  }

  // ----- finding

  /** The place of the first entry numbered c or more; past the end if there is none. */
  function FirstFrom(pieces: seq<Piece>, c: int): (i: nat)
    ensures i <= |pieces|
    ensures forall j :: 0 <= j < i ==> pieces[j].count < c
    ensures i < |pieces| ==> pieces[i].count >= c
  {
    if pieces == [] || pieces[0].count >= c then 0 else 1 + FirstFrom(pieces[1..], c)
  }

  predicate Found(q: Queue, c: int) {
    c < q.total && FirstFrom(q.pieces, c) < |q.pieces|
  }

  /** The entry FindBulk returns. */
  function Find(q: Queue, c: int): (p: Piece)
    requires Found(q, c)
    ensures p in q.pieces && p.count >= c
    ensures Increasing(q.pieces) ==> forall x :: x in q.pieces && x.count >= c ==> p.count <= x.count
  {
    q.pieces[FirstFrom(q.pieces, c)]
  }

  /** The bookkeeping of a read that found p: progress first, then the release. */
  ghost function Passed(q: Queue, r: ReaderId, p: Piece): Queue {
    Release(q.(counts := q.counts[r := p.count]))
  }

  // ----- the other operations

  function Appended(q: Queue, b: Bulk): Queue {
    q.(pieces := q.pieces + [Piece(b, q.total)], total := q.total + 1)
  }

  /** Where RecycleOne takes from: the first entry beyond the fastest reader, else the first
      beyond the slowest; past the end if there is none. */
  function Victim(pieces: seq<Piece>, lo: int, hi: int): nat {
    var i := FirstFrom(pieces, hi + 1);
    if i < |pieces| then i else FirstFrom(pieces, lo + 1)
  }

  ghost function Recycled(q: Queue): (res: (Queue, bool)) {
    if q.counts.Keys == {} then (q, false)
    else
      var v := Victim(q.pieces, MinOf(q.counts), MaxOf(q.counts));
      if v < |q.pieces| then (q.(pieces := Dropped(q.pieces, v)), true) else (q, false)
  }

  ghost predicate SomeBeyond(pieces: seq<Piece>, limit: int) {
    exists p: Piece :: p in pieces && p.count > limit
  }

  ghost predicate LeastBeyond(pieces: seq<Piece>, limit: int, p: Piece) {
    p in pieces && p.count > limit && forall x :: x in pieces && x.count > limit ==> p.count <= x.count
  }

  /** rest is pieces without p, the least entry beyond hi if there is any and else beyond lo. */
  ghost predicate TakesOut(pieces: seq<Piece>, lo: int, hi: int, p: Piece, rest: seq<Piece>) {
    && LeastBeyond(pieces, if SomeBeyond(pieces, hi) then hi else lo, p)
    && rest == Keep(pieces, (x: Piece) => x != p)
  }

  lemma FirstIsLeast(pieces: seq<Piece>, limit: int)
    requires Increasing(pieces)
    ensures var i := FirstFrom(pieces, limit + 1);
            && (i < |pieces| <==> SomeBeyond(pieces, limit))
            && (i < |pieces| ==> LeastBeyond(pieces, limit, pieces[i])
                                 && Dropped(pieces, i) == Keep(pieces, (x: Piece) => x != pieces[i]))
  {
    var i := FirstFrom(pieces, limit + 1);
    if i < |pieces| {
      assert pieces[i] in pieces;
      DroppedOne(pieces, i);
    }
  }

  lemma VictimMeans(pieces: seq<Piece>, lo: int, hi: int)
    requires Increasing(pieces) && lo <= hi
    ensures var v := Victim(pieces, lo, hi);
            && (v < |pieces| <==> SomeBeyond(pieces, lo))
            && (v < |pieces| ==> TakesOut(pieces, lo, hi, pieces[v], Dropped(pieces, v)))
  {
    FirstIsLeast(pieces, lo);
    FirstIsLeast(pieces, hi);
    if p: Piece :| p in pieces && p.count > hi {
      assert p.count > lo;
    }
  }

  /** RecycleOne succeeds exactly when some reader exists and some entry lies beyond the slowest;
      it then takes out the least entry beyond the fastest reader if there is one, and otherwise
      the least entry beyond the slowest. */
  lemma RecycleMeans(q: Queue)
    requires Increasing(q.pieces)
    ensures Recycled(q).1 <==> q.counts.Keys != {} && SomeBeyond(q.pieces, MinOf(q.counts))
    ensures !Recycled(q).1 ==> Recycled(q).0 == q
    ensures Recycled(q).1 ==>
              && Recycled(q).0 == q.(pieces := Recycled(q).0.pieces)
              && exists p :: TakesOut(q.pieces, MinOf(q.counts), MaxOf(q.counts), p, Recycled(q).0.pieces)
  {
    if q.counts.Keys != {} {
      MinMax(q.counts);
      VictimMeans(q.pieces, MinOf(q.counts), MaxOf(q.counts));
    }
  }

  lemma MinMax(counts: map<ReaderId, int>)
    requires counts.Keys != {}
    ensures MinOf(counts) <= MaxOf(counts)
  {
    assert IsMin(counts, MinOf(counts)) && IsMax(counts, MaxOf(counts));
  }

  lemma DroppedOne(pieces: seq<Piece>, i: nat)
    requires Increasing(pieces) && i < |pieces|
    ensures Dropped(pieces, i) == Keep(pieces, (x: Piece) => x != pieces[i])
  {
    var p := (x: Piece) => x != pieces[i];
    KeepErased(pieces, i, p);
    KeepAll(Dropped(pieces, i), p);
  }

  lemma DroppedMembers(pieces: seq<Piece>, i: nat)
    requires Increasing(pieces) && i < |pieces|
    ensures Increasing(Dropped(pieces, i))
    ensures forall p :: p in Dropped(pieces, i) ==> p in pieces
  {
  }

  lemma {:induction false} AboveMembers(pieces: seq<Piece>, m: int)
    requires Increasing(pieces)
    ensures Increasing(Above(pieces, m))
    ensures forall p :: p in Above(pieces, m) <==> p in pieces && p.count > m
  {
    KeepMembers(pieces, (p: Piece) => p.count > m);
    if pieces == [] {
    } else {
      AboveMembers(pieces[1..], m);
      assert forall p :: p in pieces[1..] ==> p in pieces;
    }
  }

  /** Some reader has yet to read p; without readers, whether the queue keeps what nobody reads. */
  ghost predicate Wanted(counts: map<ReaderId, int>, keep: bool, p: Piece) {
    if counts.Keys == {} then keep else exists r :: r in counts && counts[r] < p.count
  }

  /** A release takes away exactly what every reader has passed; without readers, everything or, in a
      keeping queue, nothing. */
  lemma ReleaseMeans(q: Queue)
    requires Increasing(q.pieces)
    ensures Release(q) == q.(pieces := Release(q).pieces) && Increasing(Release(q).pieces)
    ensures forall p :: p in Release(q).pieces <==> p in q.pieces && Wanted(q.counts, q.keepIfNoReader, p)
    ensures q.counts.Keys == {} ==> Release(q).pieces == if q.keepIfNoReader then q.pieces else []
  {
    if q.counts.Keys != {} {
      AboveMembers(q.pieces, MinOf(q.counts));
    }
  }

  /** p is the entry that a reader who wants number c gets. */
  ghost predicate LeastFrom(pieces: seq<Piece>, c: int, p: Piece) {
    p in pieces && p.count >= c && forall x :: x in pieces && x.count >= c ==> p.count <= x.count
  }

  /** A search finds the least entry numbered c or more, whenever there is one. */
  lemma FindMeans(q: Queue, c: int)
    requires Increasing(q.pieces) && forall p :: p in q.pieces ==> p.count < q.total
    ensures Found(q, c) <==> exists p :: p in q.pieces && p.count >= c
    ensures forall p :: LeastFrom(q.pieces, c, p) <==> Found(q, c) && p == Find(q, c)
  {
    var i := FirstFrom(q.pieces, c);
    if i < |q.pieces| {
      assert q.pieces[i] in q.pieces;
      forall p | LeastFrom(q.pieces, c, p) ensures p == q.pieces[i] {
        var k :| 0 <= k < |q.pieces| && q.pieces[k] == p;
      }
    }
  }

  /** In an ordered buffer the filter is what stopping at the first survivor leaves. */
  lemma {:induction false} AboveIsSuffix(pieces: seq<Piece>, m: int)
    requires Increasing(pieces)
    ensures Above(pieces, m) == pieces[FirstFrom(pieces, m + 1)..]
  {
    if pieces == [] {
    } else {
      if pieces[0].count > m {
        KeepAll(pieces, (p: Piece) => p.count > m);
      } else {
        AboveIsSuffix(pieces[1..], m);
      }
    }
  }
}
