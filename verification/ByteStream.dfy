/** The byte-stream send queue, and the round trip from it through the receive queue. */
module ByteStream {
  import opened SeqNum
  import opened ReceiveSpec

  /** The bytes from position `start` on, as a stream. */
  function AsStream<B>(start: int, stream: seq<B>): int -> B
    requires stream != []
  {
    p => if start <= p < start + |stream| then stream[p - start] else stream[0]
  }

  /** Bytes lo, ..., hi-1 of the stream as a segment. */
  function Cut<B>(start: int, stream: seq<B>, lo: int, hi: int): Region<B>
    requires start <= lo <= hi <= start + |stream|
  {
    Region(lo, hi, stream[lo - start..hi - start])
  }

  class ByteStreamSendQueue<B> {
    var begin: uint32
    var end: uint32
    var dataBuffer: seq<B>
    /** The position of the first byte of `stream`, everything enqueued since init, and of the first byte still held. */
    ghost var start: int
    ghost var stream: seq<B>
    ghost var first: int

    ghost predicate Valid()
      reads this
    {
      && start <= first <= start + |stream|
      && dataBuffer == stream[first - start..]
      && begin == Wrap(first) && end == Wrap(start + |stream|)
    }

    constructor ()
      ensures Valid() && stream == []
    {
      begin, end, dataBuffer := 0, 0, [];
      start, stream, first := 0, [], 0;
      new;
      WrapSmall(0);
      assert start + |stream| == 0;
    }

    method Init(startSeq: uint32)
      modifies this
      ensures Valid() && stream == [] && start == first == startSeq
    {
      begin, end, dataBuffer := startSeq, startSeq, [];
      start, stream, first := startSeq, [], startSeq;
      WrapSmall(startSeq);
    }

    /** enqueueAppData */
    method EnqueueAppData(bytes: seq<B>)
      requires Valid()
      modifies this
      ensures Valid() && stream == old(stream) + bytes && start == old(start) && first == old(first)
    {
      WrapAdds(start + |stream|, |bytes|);
      dataBuffer := dataBuffer + bytes;
      end := Wrap(end + |bytes|);
      stream := stream + bytes;
    }

    /** createSegmentWithBytes, for bytes that are held, under the method's assertion. */
    method CreateSegmentWithBytes(fromSeq: uint32, numBytes: uint32) returns (seqNo: uint32, payload: seq<B>)
      requires Valid() && Sub(fromSeq, begin) + numBytes <= |dataBuffer|
      requires SeqLE(begin, fromSeq) && SeqLE(Add(fromSeq, numBytes), end)
      ensures seqNo == fromSeq && |payload| == numBytes
      ensures var lo := first + Sub(fromSeq, begin);
              && seqNo == Wrap(lo)
              && Region(lo, lo + numBytes, payload) == Cut(start, stream, lo, lo + numBytes)
    {
      WrapArithmetic(first, Sub(fromSeq, begin));
      assert SeqLE(begin, fromSeq) && SeqLE(Add(fromSeq, numBytes), end);
      var fromOffs := Sub(fromSeq, begin);
      payload := dataBuffer[fromOffs..fromOffs + numBytes];
      seqNo := fromSeq;
    }

    /** discardUpTo, for a position that is held, under the method's assertion. */
    method DiscardUpTo(seqNum: uint32)
      requires Valid() && Sub(seqNum, begin) <= |dataBuffer| && SeqLE(begin, seqNum) && SeqLE(seqNum, end)
      modifies this
      ensures Valid() && stream == old(stream) && start == old(start)
      ensures first == old(first) + Sub(seqNum, old(begin)) && begin == seqNum
    {
      ghost var p := first + Sub(seqNum, begin);
      WrapArithmetic(first, p - first);
      assert SeqLE(begin, seqNum) && SeqLE(seqNum, end);
      dataBuffer := dataBuffer[Sub(seqNum, begin)..];
      begin := seqNum;
      first := p;
    }
  }

  /** In a buffer of less than half a turn the assertions hold for all bytes that are held. */
  lemma HeldIsAsserted(first: int, held: nat, fromSeq: uint32, numBytes: uint32)
    requires held < HALF && Sub(fromSeq, Wrap(first)) + numBytes <= held
    ensures SeqLE(Wrap(first), fromSeq) && SeqLE(Add(fromSeq, numBytes), Wrap(first + held))
  {
    HeldRange(first, first + held, fromSeq, numBytes);
  }

  /** Every segment inserted in the session was cut from the stream. */
  ghost predicate CutFrom<B>(start: int, stream: seq<B>, ops: seq<Op<B>>) {
    forall i :: 0 <= i < |ops| && ops[i].Put? ==>
      var s := ops[i].s;
      start <= s.lo < s.hi <= start + |stream| && s == Cut(start, stream, s.lo, s.hi)
  }

  /** The positions that arrive in a session are those of its segments. */
  ghost predicate Arrives<B>(ops: seq<Op<B>>, p: int) {
    exists i :: 0 <= i < |ops| && ops[i].Put? && ops[i].s.lo <= p < ops[i].s.hi
  }

  lemma ArrivesStep<B>(ops: seq<Op<B>>, p: int)
    requires ops != []
    ensures var op := ops[|ops| - 1];
            Arrives(ops, p) <==> Arrives(ops[..|ops| - 1], p) || (op.Put? && op.s.lo <= p < op.s.hi)
  {
    var front := ops[..|ops| - 1];
    if Arrives(front, p) {
      var i :| 0 <= i < |front| && front[i].Put? && front[i].s.lo <= p < front[i].s.hi;
      assert ops[i] == front[i];
    }
    if Arrives(ops, p) {
      var i :| 0 <= i < |ops| && ops[i].Put? && ops[i].s.lo <= p < ops[i].s.hi;
      assert i < |front| ==> front[i] == ops[i];
    }
  }

  lemma ReceivedStep<B(!new)>(q: Queue<B>, op: Op<B>, f: int -> B, p: int)
    requires Inv(q) && Legal(q, op, f)
    ensures p in Apply(q, op).received <==> p in q.received || (op.Put? && op.s.lo <= p < op.s.hi)
  {
    if op.Take? {
      ExtractStopsAtNxt(q, op.upto);
      ExtractKeepsInv(q, Min(op.upto, q.nxt));
    }
  }

  lemma {:induction false} ReceivedIsWhatArrives<B(!new)>(start: int, ops: seq<Op<B>>, f: int -> B, p: int)
    requires Session(start, ops, f)
    ensures p in QueueAfter(start, ops, f).received <==> Arrives(ops, p)
    decreases |ops|
  {
    if ops != [] {
      var front, op := ops[..|ops| - 1], ops[|ops| - 1];
      SessionStep(start, ops, f);
      ReceivedIsWhatArrives(start, front, f, p);
      ReceivedStep(QueueAfter(start, front, f), op, f, p);
      ArrivesStep(ops, p);
    }
  }

  /** rcv_nxt stays in the stream, and reaches its end once everything has arrived. */
  lemma {:induction false} NxtInStream<B(!new)>(start: int, stream: seq<B>, ops: seq<Op<B>>)
    requires stream != [] && CutFrom(start, stream, ops) && Session(start, ops, AsStream(start, stream))
    ensures var q := QueueAfter(start, ops, AsStream(start, stream));
            && q.start == start <= q.extracted <= q.nxt <= start + |stream|
            && ((forall p :: start <= p < start + |stream| ==> Arrives(ops, p)) ==> q.nxt == start + |stream|)
  {
    var f, end := AsStream(start, stream), start + |stream|;
    var q := QueueAfter(start, ops, f);
    ReceivedIsWhatArrives(start, ops, f, end);
    if q.nxt < end {
      ReceivedIsWhatArrives(start, ops, f, q.nxt);
    }
    assert !Arrives(ops, end);
  }

  /** One more extraction, up to rcv_nxt. */
  lemma {:induction false} TakeAll<B(!new)>(start: int, ops: seq<Op<B>>, f: int -> B)
    requires Session(start, ops, f)
    ensures var q := QueueAfter(start, ops, f);
            var full := ops + [Take(q.nxt)];
            Session(start, full, f) && Output(start, full, f) == Slice(f, start, q.nxt).data
  {
    var q := QueueAfter(start, ops, f);
    var full := ops + [Take(q.nxt)];
    assert full[..|full| - 1] == ops && full[|full| - 1] == Take(q.nxt);
    ExtractStopsAtNxt(q, q.nxt);
    assert Legal(q, Take(q.nxt), f);
    SessionStep(start, full, f);
    StreamArrivesIntact(start, full, f);
    ExtractKeepsInv(q, q.nxt);
  }

  lemma SliceOfStream<B>(start: int, stream: seq<B>, end: int)
    requires stream != [] && start <= end <= start + |stream|
    ensures Slice(AsStream(start, stream), start, end).data == stream[..end - start]
  {
  }

  /** Cut a stream into pieces, deliver them in any order and any number of times as long as none ends inside what is
      buffered, extract as often and as far as possible: what comes out is a prefix of the stream, and once every byte
      has arrived, extracting up to rcv_nxt completes the stream. */
  lemma {:induction false} RoundTrip<B(!new)>(start: int, stream: seq<B>, ops: seq<Op<B>>)
    requires stream != [] && CutFrom(start, stream, ops) && Session(start, ops, AsStream(start, stream))
    ensures var f := AsStream(start, stream);
            var q := QueueAfter(start, ops, f);
            && q.extracted <= q.nxt <= start + |stream|
            && Output(start, ops, f) == stream[..q.extracted - start]
            && ((forall p :: start <= p < start + |stream| ==> Arrives(ops, p)) ==>
                  && q.nxt == start + |stream|
                  && Session(start, ops + [Take(q.nxt)], f)
                  && Output(start, ops + [Take(q.nxt)], f) == stream)
  {
    var f := AsStream(start, stream);
    var q := QueueAfter(start, ops, f);
    NxtInStream(start, stream, ops);
    StreamArrivesIntact(start, ops, f);
    SliceOfStream(start, stream, q.extracted);
    TakeAll(start, ops, f);
    SliceOfStream(start, stream, q.nxt);
    assert stream[..|stream|] == stream;
  }
}
