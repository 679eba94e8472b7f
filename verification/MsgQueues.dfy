/** Application messages in transit: the send queue that cuts them into segments by their end positions, the segment,
    and the receive queue's list of messages. */
module MsgQueues {
  import opened SeqNum
  import opened Wrappers
  import RcvQueue
  import ReceiveSpec

  /** A message by the position behind its last byte. */
  datatype Msg<P> = Msg(end: int, body: P)

  /** A message as it is stored, by sequence number. */
  datatype Payload<P> = Payload(endSequenceNo: uint32, msg: P)

  function Concrete<P>(m: Msg<P>): Payload<P> {
    Payload(Wrap(m.end), m.body)
  }

  ghost predicate Mirrors<P>(stored: seq<Payload<P>>, msgs: seq<Msg<P>>) {
    |stored| == |msgs| && forall i :: 0 <= i < |msgs| ==> stored[i] == Concrete(msgs[i])
  }

  ghost predicate Ordered<P>(msgs: seq<Msg<P>>) {
    forall i, j :: 0 <= i < j < |msgs| ==> msgs[i].end <= msgs[j].end
  }

  ghost predicate Within<P>(msgs: seq<Msg<P>>, lo: int, hi: int) {
    forall i :: 0 <= i < |msgs| ==> lo <= msgs[i].end <= hi
  }

  /** The messages whose last byte lies in [lo, hi). */
  function Between<P>(msgs: seq<Msg<P>>, lo: int, hi: int): seq<Msg<P>> {
    if msgs == [] then []
    else (if lo < msgs[0].end <= hi then [msgs[0]] else []) + Between(msgs[1..], lo, hi)
  }

  lemma {:induction false} BetweenMeans<P>(msgs: seq<Msg<P>>, lo: int, hi: int, m: Msg<P>)
    ensures m in Between(msgs, lo, hi) <==> m in msgs && lo < m.end <= hi
  {
    if msgs != [] {
      BetweenMeans(msgs[1..], lo, hi, m);
      assert msgs == [msgs[0]] + msgs[1..];
    }
  }

  lemma {:induction false} AllBetween<P>(msgs: seq<Msg<P>>, lo: int, hi: int)
    requires forall i :: 0 <= i < |msgs| ==> lo < msgs[i].end <= hi
    ensures Between(msgs, lo, hi) == msgs
  {
    if msgs != [] {
      AllBetween(msgs[1..], lo, hi);
    }
  }

  lemma {:induction false} BetweenAppend<P>(m: seq<Msg<P>>, n: seq<Msg<P>>, lo: int, hi: int)
    ensures Between(m + n, lo, hi) == Between(m, lo, hi) + Between(n, lo, hi)
  {
    if m == [] {
      assert m + n == n;
    } else {
      BetweenAppend(m[1..], n, lo, hi);
      assert (m + n)[1..] == m[1..] + n;
      var head := if lo < m[0].end <= hi then [m[0]] else [];
      assert head + (Between(m[1..], lo, hi) + Between(n, lo, hi))
             == (head + Between(m[1..], lo, hi)) + Between(n, lo, hi);
    }
  }

  /** An ordered queue without those that end by `lo`, and without those of the rest that end behind `hi`. */
  lemma CutOnBothSides<P>(msgs: seq<Msg<P>>, a: nat, b: nat, lo: int, hi: int)
    requires Ordered(msgs) && a + b <= |msgs|
    requires forall k :: 0 <= k < a ==> msgs[k].end <= lo
    requires forall k :: 0 <= k < |msgs[a..]| ==> msgs[a..][k].end > lo
    requires forall k :: 0 <= k < b ==> msgs[a..][..b][k].end <= hi
    requires b < |msgs[a..]| ==> msgs[a..][b].end > hi
    ensures msgs[a..][..b] == Between(msgs, lo, hi)
  {
    forall i | a <= i < a + b
      ensures lo < msgs[i].end <= hi
    {
      assert msgs[a..][i - a] == msgs[i] && msgs[a..][..b][i - a] == msgs[i];
    }
    BetweenIsSlice(msgs, lo, hi, a, a + b);
    assert msgs[a..][..b] == msgs[a..a + b];
  }

  /** In an ordered queue these are the messages from the first that ends behind `lo` to the last that ends by `hi`. */
  lemma BetweenIsSlice<P>(msgs: seq<Msg<P>>, lo: int, hi: int, a: nat, b: nat)
    requires Ordered(msgs) && a <= b <= |msgs|
    requires forall i :: 0 <= i < a ==> msgs[i].end <= lo
    requires forall i :: a <= i < b ==> lo < msgs[i].end <= hi
    requires b < |msgs| ==> msgs[b].end > hi
    ensures Between(msgs, lo, hi) == msgs[a..b]
  {
    forall i | b <= i < |msgs|
      ensures msgs[i].end > hi
    {
      assert msgs[b].end <= msgs[i].end;
    }
    MiddleIsBetween(msgs[..a], msgs[a..b], msgs[b..], lo, hi);
    assert msgs == msgs[..a] + msgs[a..b] + msgs[b..];
  }

  lemma MiddleIsBetween<P>(pre: seq<Msg<P>>, mid: seq<Msg<P>>, post: seq<Msg<P>>, lo: int, hi: int)
    requires forall i :: 0 <= i < |pre| ==> pre[i].end <= lo
    requires forall i :: 0 <= i < |mid| ==> lo < mid[i].end <= hi
    requires forall i :: 0 <= i < |post| ==> post[i].end > hi
    ensures Between(pre + mid + post, lo, hi) == mid
  {
    NoneBetween(pre, lo, hi);
    AllBetween(mid, lo, hi);
    NoneBetween(post, lo, hi);
    BetweenAppend(pre, mid, lo, hi);
    BetweenAppend(pre + mid, post, lo, hi);
    assert [] + mid + [] == mid;
  }

  lemma {:induction false} NoneBetween<P>(msgs: seq<Msg<P>>, lo: int, hi: int)
    requires forall i :: 0 <= i < |msgs| ==> !(lo < msgs[i].end <= hi)
    ensures Between(msgs, lo, hi) == []
  {
    if msgs != [] {
      NoneBetween(msgs[1..], lo, hi);
    }
  }

  /** Adjacent segments carry together what one segment would. */
  lemma {:induction false} BetweenSplits<P>(msgs: seq<Msg<P>>, lo: int, mid: int, hi: int)
    requires Ordered(msgs) && lo <= mid <= hi
    ensures Between(msgs, lo, hi) == Between(msgs, lo, mid) + Between(msgs, mid, hi)
  {
    if msgs != [] {
      var m, rest := msgs[0], msgs[1..];
      BetweenSplits(rest, lo, mid, hi);
      if mid < m.end {
        NoneBetween(rest, lo, mid);
        assert [] + Between(rest, mid, hi) == Between(rest, mid, hi);
        assert Between(msgs, lo, mid) == [];
      } else {
        var head := if lo < m.end then [m] else [];
        assert head + (Between(rest, lo, mid) + Between(rest, mid, hi))
               == (head + Between(rest, lo, mid)) + Between(rest, mid, hi);
      }
    }
  }

  /** The segments between consecutive cut positions, one after the other. */
  function Cuts<P>(msgs: seq<Msg<P>>, cuts: seq<int>): seq<Msg<P>> {
    if |cuts| < 2 then [] else Between(msgs, cuts[0], cuts[1]) + Cuts(msgs, cuts[1..])
  }

  /** However the buffer is cut into consecutive segments, each message travels in exactly one of them, and in order. */
  lemma {:induction false} CuttingIsExact<P>(msgs: seq<Msg<P>>, cuts: seq<int>)
    requires Ordered(msgs) && |cuts| >= 2
    requires forall i, j :: 0 <= i < j < |cuts| ==> cuts[i] <= cuts[j]
    requires forall i :: 0 <= i < |msgs| ==> cuts[0] < msgs[i].end <= cuts[|cuts| - 1]
    ensures Cuts(msgs, cuts) == msgs
  {
    CutsAreBetween(msgs, cuts);
    BetweenIsSlice(msgs, cuts[0], cuts[|cuts| - 1], 0, |msgs|);
  }

  lemma {:induction false} CutsAreBetween<P>(msgs: seq<Msg<P>>, cuts: seq<int>)
    requires Ordered(msgs) && |cuts| >= 1
    requires forall i, j :: 0 <= i < j < |cuts| ==> cuts[i] <= cuts[j]
    ensures Cuts(msgs, cuts) == Between(msgs, cuts[0], cuts[|cuts| - 1])
  {
    if |cuts| == 1 {
      NoneBetween(msgs, cuts[0], cuts[0]);
    } else {
      CutsAreBetween(msgs, cuts[1..]);
      BetweenSplits(msgs, cuts[0], cuts[1], cuts[|cuts| - 1]);
    }
  }

  /** What stays after an acknowledgement up to `p`: the messages ending behind it. */
  function Unacked<P>(msgs: seq<Msg<P>>, p: int): seq<Msg<P>> {
    if msgs != [] && msgs[0].end <= p then Unacked(msgs[1..], p) else msgs
  }

  lemma {:induction false} UnackedIsSuffix<P>(msgs: seq<Msg<P>>, p: int) returns (k: nat)
    requires Ordered(msgs)
    ensures k <= |msgs| && Unacked(msgs, p) == msgs[k..]
    ensures forall i :: 0 <= i < |msgs| ==> (msgs[i].end <= p <==> i < k)
  {
    if msgs != [] && msgs[0].end <= p {
      var j := UnackedIsSuffix(msgs[1..], p);
      k := j + 1;
      assert msgs[1..][j..] == msgs[k..];
      assert forall i :: 1 <= i < |msgs| ==> msgs[i] == msgs[1..][i - 1];
    } else {
      k := 0;
      assert msgs[0..] == msgs;
    }
  }

  /** Discarding keeps exactly the messages that end behind the acknowledged position, in order. */
  lemma {:induction false} UnackedMeans<P>(msgs: seq<Msg<P>>, p: int, m: Msg<P>)
    requires Ordered(msgs)
    ensures m in Unacked(msgs, p) <==> m in msgs && m.end > p
  {
    var k := UnackedIsSuffix(msgs, p);
    var rest := msgs[k..];
    if m in msgs && m.end > p {
      var i :| 0 <= i < |msgs| && msgs[i] == m;
      assert rest[i - k] == m;
    }
    if m in rest {
      var i :| 0 <= i < |rest| && rest[i] == m;
      assert msgs[i + k] == m;
    }
  }

  /** Discarding does not change any later segment. */
  lemma {:induction false} DiscardThenCut<P>(msgs: seq<Msg<P>>, p: int, lo: int, hi: int)
    requires Ordered(msgs) && p <= lo
    ensures Between(Unacked(msgs, p), lo, hi) == Between(msgs, lo, hi)
  {
    var k := UnackedIsSuffix(msgs, p);
    NoneBetween(msgs[..k], lo, hi);
    BetweenAppend(msgs[..k], msgs[k..], lo, hi);
    assert msgs == msgs[..k] + msgs[k..];
    assert [] + Between(msgs[k..], lo, hi) == Between(msgs[k..], lo, hi);
  }

  class RQMsgBasedSendQueue<P> {
    var begin: uint32
    var end: uint32
    var payloadQueue: seq<Payload<P>>
    /** The positions of `begin` and `end`, and the queued messages on positions. */
    ghost var first: int
    ghost var last: int
    ghost var msgs: seq<Msg<P>>

    ghost predicate Valid()
      reads this
    {
      && begin == Wrap(first) && end == Wrap(last) && first <= last < first + HALF
      && Mirrors(payloadQueue, msgs) && Ordered(msgs) && Within(msgs, first, last)
    }

    constructor ()
      ensures Valid() && msgs == [] && first == last == 0
    {
      begin, end, payloadQueue := 0, 0, [];
      first, last, msgs := 0, 0, [];
      WrapSmall(0);
    }

    method Init(startSeq: uint32)
      requires payloadQueue == []
      modifies this
      ensures Valid() && msgs == [] && first == last == startSeq
    {
      begin, end := startSeq, startSeq;
      first, last, msgs := startSeq, startSeq, [];
      WrapSmall(startSeq);
    }

    /** enqueueAppData: it throws exactly if the 32-bit length of the buffer comes out above 2^31. A buffer that grows
        by a whole turn or more may pass for a short one. */
    method EnqueueAppData(msg: P, byteLength: nat) returns (ok: bool)
      requires Valid()
      modifies this
      ensures last == old(last) + byteLength && first == old(first)
      ensures ok <==> Wrap(last - first) <= HALF
      ensures msgs == if ok then old(msgs) + [Msg(last, msg)] else old(msgs)
      ensures last - first < HALF ==> Valid()
    {
      WrapAdds(last, byteLength);
      end := Wrap(end + byteLength);
      last := last + byteLength;
      WrapGap(last, first);
      if SeqLess(end, begin) {
        return false;
      }
      payloadQueue := payloadQueue + [Payload(end, msg)];
      msgs := msgs + [Msg(last, msg)];
      return true;
    }

    /** createSegmentWithBytes, under the method's assertion that the bytes are held. */
    method CreateSegmentWithBytes(fromSeq: uint32, numBytes: uint32) returns (rqseg: RQSegment<P>)
      requires Valid() && Sub(fromSeq, begin) + numBytes <= last - first
      ensures var lo := first + Sub(fromSeq, begin);
              && fresh(rqseg) && rqseg.Valid() && rqseg.lo == lo && rqseg.payloadLength == numBytes
              && rqseg.msgs == Between(msgs, lo, lo + numBytes)
    {
      ghost var lo := first + Sub(fromSeq, begin);
      HeldRange(first, last, fromSeq, numBytes);
      assert SeqLE(begin, fromSeq) && SeqLE(Add(fromSeq, numBytes), end);
      rqseg := new RQSegment(fromSeq, numBytes, lo);
      var i := SkipTo(fromSeq, lo);
      AddMessages(rqseg, i, Add(fromSeq, numBytes), lo + numBytes);
    }

    /** The loop that adds the messages of this segment. */
    method AddMessages(rqseg: RQSegment<P>, from: nat, toSeq: uint32, ghost hi: int)
      requires Valid() && rqseg.Valid() && rqseg.msgs == [] && rqseg.lo + rqseg.payloadLength == hi
      requires toSeq == Wrap(hi) && first <= hi <= last && from <= |msgs|
      requires forall k :: 0 <= k < from ==> msgs[k].end <= rqseg.lo
      requires forall k :: from <= k < |msgs| ==> msgs[k].end > rqseg.lo
      modifies rqseg`payloadList, rqseg`msgs
      ensures rqseg.Valid() && rqseg.msgs == Between(msgs, rqseg.lo, hi)
    {
      var i := from;
      while i < |payloadQueue| && SeqLE(payloadQueue[i].endSequenceNo, toSeq)
        invariant from <= i <= |msgs|
        invariant forall k :: from <= k < i ==> msgs[k].end <= hi
        invariant rqseg.Valid() && rqseg.msgs == msgs[from..i]
      {
        CircularOrder(msgs[i].end, hi);
        rqseg.AddPayloadMessage(payloadQueue[i].msg, payloadQueue[i].endSequenceNo, msgs[i].end);
        i := i + 1;
      }
      if i < |payloadQueue| {
        CircularOrder(msgs[i].end, hi);
      }
      BetweenIsSlice(msgs, rqseg.lo, hi, from, i);
    }

    /** The loop that skips the messages of earlier segments. */
    method SkipTo(fromSeq: uint32, ghost lo: int) returns (i: nat)
      requires Valid() && fromSeq == Wrap(lo) && first <= lo <= last
      ensures i <= |msgs|
      ensures forall k :: 0 <= k < i ==> msgs[k].end <= lo
      ensures forall k :: i <= k < |msgs| ==> msgs[k].end > lo
    {
      i := 0;
      while i < |payloadQueue| && SeqLE(payloadQueue[i].endSequenceNo, fromSeq)
        invariant 0 <= i <= |msgs|
        invariant forall k :: 0 <= k < i ==> msgs[k].end <= lo
      {
        CircularOrder(msgs[i].end, lo);
        i := i + 1;
      }
      if i < |payloadQueue| {
        CircularOrder(msgs[i].end, lo);
        assert forall k :: i < k < |msgs| ==> msgs[i].end <= msgs[k].end;
      }
    }

    /** discardUpTo, under its assertion that the position is held. */
    method DiscardUpTo(seqNum: uint32)
      requires Valid() && Sub(seqNum, begin) <= last - first
      modifies this
      ensures Valid() && last == old(last) && first == old(first) + Sub(seqNum, old(begin)) && begin == seqNum
      ensures msgs == Unacked(old(msgs), first)
    {
      ghost var p := first + Sub(seqNum, begin);
      HeldRange(first, last, seqNum, 0);
      assert SeqLE(begin, seqNum) && SeqLE(seqNum, end);
      ghost var held := msgs;
      while payloadQueue != [] && SeqLE(payloadQueue[0].endSequenceNo, seqNum)
        invariant begin == Wrap(old(first)) && end == Wrap(last) && first == old(first) && last == old(last)
        invariant Mirrors(payloadQueue, msgs) && Ordered(msgs) && Within(msgs, first, last)
        invariant Unacked(msgs, p) == Unacked(held, p)
        decreases |payloadQueue|
      {
        CircularOrder(msgs[0].end, p);
        payloadQueue, msgs := payloadQueue[1..], msgs[1..];
      }
      if payloadQueue != [] {
        CircularOrder(msgs[0].end, p);
      }
      begin, first := seqNum, p;
    }
  }

  /** A segment with its messages, and the bytes themselves if it carries them. */
  class RQSegment<P> {
    var sequenceNo: uint32
    var payloadLength: uint32
    var payloadList: seq<Payload<P>>
    var byteArray: seq<bv8>
    ghost var lo: int
    ghost var msgs: seq<Msg<P>>

    ghost predicate Valid()
      reads this
    {
      MessagesValid() && (byteArray == [] || |byteArray| == payloadLength)
    }

    ghost predicate MessagesValid()
      reads this`sequenceNo, this`payloadLength, this`payloadList, this`lo, this`msgs
    {
      && sequenceNo == Wrap(lo) && payloadLength < HALF
      && Mirrors(payloadList, msgs) && Ordered(msgs) && Within(msgs, lo + 1, lo + payloadLength)
    }

    constructor (sequenceNo: uint32, payloadLength: uint32, ghost lo: int)
      requires sequenceNo == Wrap(lo) && payloadLength < HALF
      ensures Valid() && this.lo == lo && this.payloadLength == payloadLength && msgs == [] && byteArray == []
    {
      this.sequenceNo, this.payloadLength, this.lo := sequenceNo, payloadLength, lo;
      payloadList, byteArray, msgs := [], [], [];
    }

    method AddPayloadMessage(msg: P, endSequenceNo: uint32, ghost end: int)
      requires Valid() && endSequenceNo == Wrap(end) && lo < end <= lo + payloadLength
      requires msgs != [] ==> msgs[|msgs| - 1].end <= end
      modifies this`payloadList, this`msgs
      ensures Valid() && msgs == old(msgs) + [Msg(end, msg)]
    {
      payloadList := payloadList + [Payload(endSequenceNo, msg)];
      msgs := msgs + [Msg(end, msg)];
    }

    /** removeFirstPayloadMessage */
    method RemoveFirstPayloadMessage() returns (r: Option<Payload<P>>)
      requires Valid()
      modifies this`payloadList, this`msgs
      ensures Valid() && |msgs| == |payloadList|
      ensures if old(msgs) == [] then r == None && msgs == []
              else r == Some(Concrete(old(msgs)[0])) && old(msgs) == [old(msgs)[0]] + msgs
    {
      if payloadList == [] {
        return None;
      }
      r := Some(payloadList[0]);
      payloadList, msgs := payloadList[1..], msgs[1..];
    }

    /** truncateSegment: what is left is the part in [firstSeqNo, endSeqNo), with the messages that end in it. */
    method TruncateSegment(firstSeqNo: uint32, endSeqNo: uint32, ghost f: int, ghost e: int)
      requires Valid() && payloadLength > 0 && firstSeqNo == Wrap(f) && endSeqNo == Wrap(e)
      requires f < e && lo < e && f < lo + payloadLength
      requires Max(lo + payloadLength, e) - Min(lo, f) < HALF
      modifies this
      ensures Valid() && lo == Max(old(lo), f) && lo + payloadLength == Min(old(lo + payloadLength), e)
      ensures msgs == Between(old(msgs), lo, lo + payloadLength)
      ensures byteArray == if old(byteArray) == [] then []
                           else old(byteArray)[lo - old(lo)..lo + payloadLength - old(lo)]
    {
      WrapArithmetic(lo, payloadLength);
      CircularOrder(lo, f);
      CircularOrder(lo + payloadLength, e);
      var truncleft, truncright := 0, 0;
      if SeqLess(sequenceNo, firstSeqNo) {
        truncleft := Sub(firstSeqNo, sequenceNo);
      }
      if SeqGreater(Add(sequenceNo, payloadLength), endSeqNo) {
        CircularOrder(e, lo + payloadLength);
        truncright := Sub(Add(sequenceNo, payloadLength), endSeqNo);
      }
      TruncateData(truncleft, truncright);
    }

    /** truncateData: the bytes are cut by the array's own truncateData, the messages by their ends. */
    method TruncateData(truncleft: uint32, truncright: uint32)
      requires Valid() && truncleft + truncright <= payloadLength
      modifies this
      ensures Valid() && lo == old(lo) + truncleft && payloadLength == old(payloadLength) - truncleft - truncright
      ensures msgs == Between(old(msgs), lo, lo + payloadLength)
      ensures byteArray == if old(byteArray) == [] then []
              else old(byteArray)[truncleft..old(payloadLength) - truncright]
    {
      if 0 != |byteArray| {
        byteArray := byteArray[truncleft..|byteArray| - truncright];
      }
      TruncateMessages(truncleft, truncright);
    }

    method TruncateMessages(truncleft: uint32, truncright: uint32)
      requires MessagesValid() && truncleft + truncright <= payloadLength
      modifies this`sequenceNo, this`payloadLength, this`payloadList, this`lo, this`msgs
      ensures MessagesValid()
      ensures lo == old(lo) + truncleft && payloadLength == old(payloadLength) - truncleft - truncright
      ensures msgs == Between(old(msgs), lo, lo + payloadLength)
    {
      ghost var all := msgs;
      ghost var a := DropFront(truncleft);
      WrapArithmetic(lo, truncleft);
      sequenceNo := Add(sequenceNo, truncleft);
      lo := lo + truncleft;
      payloadLength := payloadLength - truncleft - truncright;
      ghost var b := DropBack(payloadLength + truncright);
      CutOnBothSides(all, a, b, lo, lo + payloadLength);
    }

    /** The first loop: messages that end in the first `truncleft` bytes go. */
    method DropFront(truncleft: uint32) returns (ghost a: nat)
      requires MessagesValid() && truncleft <= payloadLength
      modifies this`payloadList, this`msgs
      ensures MessagesValid() && a <= |old(msgs)| && msgs == old(msgs)[a..]
      ensures forall k :: 0 <= k < a ==> old(msgs)[k].end <= lo + truncleft
      ensures forall k :: 0 <= k < |msgs| ==> msgs[k].end > lo + truncleft
    {
      a := 0;
      assert msgs[0..] == msgs;
      while payloadList != [] && Sub(payloadList[0].endSequenceNo, sequenceNo) <= truncleft
        invariant MessagesValid() && a <= |old(msgs)| && msgs == old(msgs)[a..]
        invariant forall k :: 0 <= k < a ==> old(msgs)[k].end <= lo + truncleft
        decreases |payloadList|
      {
        CircularOrder(lo, msgs[0].end);
        payloadList, msgs, a := payloadList[1..], msgs[1..], a + 1;
      }
      if payloadList != [] {
        CircularOrder(lo, msgs[0].end);
        assert forall k :: 0 < k < |msgs| ==> msgs[0].end <= msgs[k].end;
      }
    }

    /** The second loop: messages that end behind the payload that is left go. */
    method DropBack(ghost length: nat) returns (ghost b: nat)
      requires sequenceNo == Wrap(lo) && payloadLength <= length < HALF
      requires Mirrors(payloadList, msgs) && Ordered(msgs) && Within(msgs, lo + 1, lo + length)
      modifies this`payloadList, this`msgs
      ensures MessagesValid() && b <= |old(msgs)| && msgs == old(msgs)[..b]
      ensures b < |old(msgs)| ==> old(msgs)[b].end > lo + payloadLength
    {
      b := |msgs|;
      while payloadList != [] && Sub(payloadList[|payloadList| - 1].endSequenceNo, sequenceNo) > payloadLength
        invariant b <= |old(msgs)| && msgs == old(msgs)[..b] && Mirrors(payloadList, msgs)
        invariant b < |old(msgs)| ==> old(msgs)[b].end > lo + payloadLength
        decreases |payloadList|
      {
        CircularOrder(lo, msgs[b - 1].end);
        payloadList, msgs, b := payloadList[..|payloadList| - 1], msgs[..|msgs| - 1], b - 1;
      }
      if payloadList != [] {
        CircularOrder(lo, msgs[b - 1].end);
        assert forall k :: 0 <= k < b ==> msgs[k].end <= msgs[b - 1].end;
      }
    }
  }

  // ---------------------------------------------------------------- the receiver's list

  ghost predicate StrictlyOrdered<P>(msgs: seq<Msg<P>>) {
    forall i, j :: 0 <= i < j < |msgs| ==> msgs[i].end < msgs[j].end
  }

  /** A message goes to its place by end position, unless one with the same end is there. */
  function Put<P>(list: seq<Msg<P>>, m: Msg<P>): seq<Msg<P>> {
    if list == [] then [m]
    else if list[0].end < m.end then [list[0]] + Put(list[1..], m)
    else if list[0].end == m.end then list
    else [m] + list
  }

  function PutAll<P>(list: seq<Msg<P>>, msgs: seq<Msg<P>>): seq<Msg<P>> {
    if msgs == [] then list else Put(PutAll(list, msgs[..|msgs| - 1]), msgs[|msgs| - 1])
  }

  lemma {:induction false} PutAt<P>(list: seq<Msg<P>>, m: Msg<P>, i: nat)
    requires i <= |list| && forall k :: 0 <= k < i ==> list[k].end < m.end
    requires i < |list| ==> list[i].end >= m.end
    ensures Put(list, m) == if i < |list| && list[i].end == m.end then list else list[..i] + [m] + list[i..]
  {
    if i > 0 {
      PutAt(list[1..], m, i - 1);
      assert list[1..][..i - 1] == list[1..i] && list[1..][i - 1..] == list[i..];
      assert [list[0]] + list[1..] == list;
      assert [list[0]] + list[1..i] == list[..i];
    }
  }

  lemma InsertedMembers<P>(list: seq<Msg<P>>, m: Msg<P>, i: nat, x: Msg<P>)
    requires i <= |list|
    ensures x in list[..i] + [m] + list[i..] <==> x in list || x == m
  {
    assert list == list[..i] + list[i..];
  }

  lemma InsertedOrder<P>(list: seq<Msg<P>>, m: Msg<P>, i: nat)
    requires StrictlyOrdered(list) && i <= |list|
    requires (forall k :: 0 <= k < i ==> list[k].end < m.end) && (forall k :: i <= k < |list| ==> list[k].end > m.end)
    ensures StrictlyOrdered(list[..i] + [m] + list[i..])
  {
  }

  lemma {:induction false} PutMeans<P(!new)>(list: seq<Msg<P>>, m: Msg<P>)
    requires StrictlyOrdered(list)
    ensures StrictlyOrdered(Put(list, m))
    ensures forall x :: x in Put(list, m) <==> x in list || (x == m && forall y :: y in list ==> y.end != m.end)
  {
    var i := PlaceOf(list, m);
    PutAt(list, m, i);
    if i < |list| && list[i].end == m.end {
      assert list[i] in list;
    } else {
      InsertedOrder(list, m, i);
      forall x
        ensures x in Put(list, m) <==> x in list || x == m
      {
        InsertedMembers(list, m, i, x);
      }
      forall y | y in list
        ensures y.end != m.end
      {
        var k :| 0 <= k < |list| && list[k] == y;
      }
    }
  }

  lemma {:induction false} PlaceOf<P>(list: seq<Msg<P>>, m: Msg<P>) returns (i: nat)
    requires StrictlyOrdered(list)
    ensures i <= |list| && forall k :: 0 <= k < i ==> list[k].end < m.end
    ensures forall k :: i <= k < |list| ==> list[k].end >= m.end
    ensures i < |list| ==> forall k :: i < k < |list| ==> list[k].end > m.end
  {
    if list == [] || list[0].end >= m.end {
      i := 0;
    } else {
      var j := PlaceOf(list[1..], m);
      i := j + 1;
    }
  }

  lemma InsertKeeps<P>(msgs: seq<Msg<P>>, i: nat, m: Msg<P>, base: int)
    requires StrictlyOrdered(msgs) && Within(msgs, base, base + HALF - 1) && base <= m.end < base + HALF
    requires i <= |msgs| && (forall k :: 0 <= k < i ==> msgs[k].end < m.end) && (i < |msgs| ==> msgs[i].end > m.end)
    ensures var out := msgs[..i] + [m] + msgs[i..]; StrictlyOrdered(out) && Within(out, base, base + HALF - 1)
  {
    assert forall k :: i <= k < |msgs| ==> msgs[i].end <= msgs[k].end;
  }

  /** Bytes that are only counted. */
  function Counted(length: nat): (bytes: seq<()>)
    ensures |bytes| == length
  {
    seq(length, i => ())
  }

  /** The queue of the message mode, on top of the queue that counts bytes. */
  class RQMsgBasedRcvQueue<P> {
    const regions: RcvQueue.RQRcvQueue<()>
    var payloadList: seq<Payload<P>>
    ghost var msgs: seq<Msg<P>>
    /** All messages end in the half turn from here on. */
    ghost var base: int

    ghost predicate Valid()
      reads this
    {
      Mirrors(payloadList, msgs) && StrictlyOrdered(msgs) && Within(msgs, base, base + HALF - 1)
    }

    constructor (startSeq: uint32)
      ensures Valid() && msgs == [] && base == startSeq
      ensures fresh(regions) && regions.Valid() && regions.q == ReceiveSpec.Empty(startSeq)
    {
      regions := new RcvQueue.RQRcvQueue<()>(startSeq);
      payloadList, msgs, base := [], [], startSeq;
    }

    /** insertBytesFromSegment, behind its space check: the byte counts go to the regions, the messages to the list. */
    method InsertBytesFromSegment(rqseg: RQSegment<P>, maxRcvBuffer: uint32) returns (r: RcvQueue.Result<uint32>)
      requires Valid() && regions.Valid() && rqseg.Valid() && Within(rqseg.msgs, base, base + HALF - 1)
      requires 0 < rqseg.payloadLength <= maxRcvBuffer + 1 <= HALF
      requires RcvQueue.HasEnoughSpace(Wrap(regions.q.extracted), rqseg.sequenceNo, rqseg.payloadLength, maxRcvBuffer)
      modifies this`payloadList, this`msgs, regions, rqseg`payloadList, rqseg`msgs
      ensures Valid() && regions.Valid() && rqseg.msgs == []
      ensures regions.q ==
              ReceiveSpec.Insert(old(regions.q), old(regions.At(rqseg.sequenceNo, Counted(rqseg.payloadLength))))
      ensures msgs == PutAll(old(msgs), old(rqseg.msgs))
      ensures r == RcvQueue.Success(regions.rcvNxt) && old(regions.q.nxt) <= regions.q.nxt
    {
      r := regions.InsertBytesFromSegment(rqseg.sequenceNo, Counted(rqseg.payloadLength), maxRcvBuffer);
      InsertMessages(rqseg);
    }

    /** The messages: one pass along the list, which never goes back. */
    method InsertMessages(rqseg: RQSegment<P>)
      requires Valid() && rqseg.Valid() && Within(rqseg.msgs, base, base + HALF - 1)
      modifies this`payloadList, this`msgs, rqseg`payloadList, rqseg`msgs
      ensures Valid() && msgs == PutAll(old(msgs), old(rqseg.msgs)) && rqseg.msgs == []
    {
      ghost var all, done := rqseg.msgs, 0;
      var i := 0;
      assert all[0..] == all;
      while rqseg.payloadList != []
        invariant Valid() && rqseg.Valid() && done <= |all| && rqseg.msgs == all[done..]
        invariant msgs == PutAll(old(msgs), all[..done])
        invariant 0 <= i <= |msgs| && forall k :: 0 <= k < i ==> done > 0 && msgs[k].end < all[done - 1].end
        decreases |rqseg.payloadList|
      {
        ghost var m := rqseg.msgs[0];
        var r := rqseg.RemoveFirstPayloadMessage();
        assert done > 0 ==> all[done - 1].end <= m.end;
        i := PutNext(i, r.value, m);
        assert all[..done + 1] == all[..done] + [m];
        done := done + 1;
      }
      assert all[..done] == all;
    }

    /** One message: the cursor moves up to its place, and it goes in unless it is a duplicate. */
    method PutNext(from: nat, r: Payload<P>, ghost m: Msg<P>) returns (i: nat)
      requires Valid() && r == Concrete(m) && base <= m.end < base + HALF
      requires from <= |msgs| && forall k :: 0 <= k < from ==> msgs[k].end < m.end
      modifies this`payloadList, this`msgs
      ensures Valid() && msgs == Put(old(msgs), m)
      ensures i < |msgs| && msgs[i].end == m.end && forall k :: 0 <= k < i ==> msgs[k].end < m.end
    {
      i := from;
      while i < |payloadList| && SeqLess(payloadList[i].endSequenceNo, r.endSequenceNo)
        invariant Valid() && msgs == old(msgs)
        invariant i <= |msgs| && forall k :: 0 <= k < i ==> msgs[k].end < m.end
      {
        CircularOrder(msgs[i].end, m.end);
        i := i + 1;
      }
      if i < |payloadList| {
        CircularOrder(msgs[i].end, m.end);
      }
      PutAt(msgs, m, i);
      if i < |payloadList| && payloadList[i].endSequenceNo == r.endSequenceNo {
        return;
      }
      Insert(i, r, m);
    }

    method Insert(i: nat, r: Payload<P>, ghost m: Msg<P>)
      requires Valid() && r == Concrete(m) && base <= m.end < base + HALF
      requires i <= |msgs| && (forall k :: 0 <= k < i ==> msgs[k].end < m.end) && (i < |msgs| ==> msgs[i].end > m.end)
      modifies this`payloadList, this`msgs
      ensures Valid() && msgs == old(msgs)[..i] + [m] + old(msgs)[i..]
    {
      InsertKeeps(msgs, i, m, base);
      payloadList := payloadList[..i] + [r] + payloadList[i..];
      msgs := msgs[..i] + [m] + msgs[i..];
      CircularOrder(msgs[0].end, msgs[|msgs| - 1].end);
      assert SeqLE(payloadList[0].endSequenceNo, payloadList[|payloadList| - 1].endSequenceNo);
    }
  }

  // ---------------------------------------------------------------- across the network

  /** The receiver's list after the segments with these ranges have arrived, cut from the queue `sent`. */
  function Received<P>(sent: seq<Msg<P>>, arrivals: seq<(int, int)>): seq<Msg<P>> {
    if arrivals == [] then []
    else
      var (lo, hi) := arrivals[|arrivals| - 1];
      PutAll(Received(sent, arrivals[..|arrivals| - 1]), Between(sent, lo, hi))
  }

  ghost predicate Covered(arrivals: seq<(int, int)>, p: int) {
    exists i :: 0 <= i < |arrivals| && arrivals[i].0 < p <= arrivals[i].1
  }

  lemma {:induction false} PutAllMeans<P(!new)>(sent: seq<Msg<P>>, list: seq<Msg<P>>, msgs: seq<Msg<P>>)
    requires StrictlyOrdered(sent) && StrictlyOrdered(list)
    requires (forall x :: x in list ==> x in sent) && (forall x :: x in msgs ==> x in sent)
    ensures StrictlyOrdered(PutAll(list, msgs))
    ensures forall x :: x in PutAll(list, msgs) <==> x in list || x in msgs
  {
    if msgs != [] {
      var front, m := msgs[..|msgs| - 1], msgs[|msgs| - 1];
      assert msgs == front + [m];
      PutAllMeans(sent, list, front);
      PutMeans(PutAll(list, front), m);
      forall y | y in PutAll(list, front) && y.end == m.end
        ensures y == m
      {
        SameEnd(sent, y, m);
      }
    }
  }

  lemma SameEnd<P>(sent: seq<Msg<P>>, x: Msg<P>, y: Msg<P>)
    requires StrictlyOrdered(sent) && x in sent && y in sent && x.end == y.end
    ensures x == y
  {
    var i :| 0 <= i < |sent| && sent[i] == x;
    var j :| 0 <= j < |sent| && sent[j] == y;
  }

  lemma TailMembers<P>(a: seq<Msg<P>>, x: Msg<P>)
    requires StrictlyOrdered(a) && a != []
    ensures x in a[1..] <==> x in a && x.end > a[0].end
  {
    assert a == [a[0]] + a[1..];
  }

  lemma {:induction false} SameMembersSameList<P(!new)>(a: seq<Msg<P>>, b: seq<Msg<P>>)
    requires StrictlyOrdered(a) && StrictlyOrdered(b) && forall x :: x in a <==> x in b
    ensures a == b
  {
    assert a != [] ==> a[0] in b;
    assert b != [] ==> b[0] in a;
    if a != [] && b != [] {
      assert a[0] == b[0];
      forall x
        ensures x in a[1..] <==> x in b[1..]
      {
        TailMembers(a, x);
        TailMembers(b, x);
      }
      SameMembersSameList(a[1..], b[1..]);
    }
  }

  /** Whatever segments of a queue arrive, in whatever order and how often: the list is strictly ordered and holds
      exactly the messages whose last byte has arrived, each once; when every last byte has arrived, it is the queue as
      it was sent. */
  lemma {:induction false} MessagesArriveOnce<P(!new)>(sent: seq<Msg<P>>, arrivals: seq<(int, int)>)
    requires StrictlyOrdered(sent)
    ensures var list := Received(sent, arrivals);
            && StrictlyOrdered(list)
            && (forall m :: m in list <==> m in sent && Covered(arrivals, m.end))
            && ((forall m :: m in sent ==> Covered(arrivals, m.end)) ==> list == sent)
  {
    var list := Received(sent, arrivals);
    if arrivals != [] {
      var front := arrivals[..|arrivals| - 1];
      var (lo, hi) := arrivals[|arrivals| - 1];
      MessagesArriveOnce(sent, front);
      forall m
        ensures m in Between(sent, lo, hi) <==> m in sent && lo < m.end <= hi
      {
        BetweenMeans(sent, lo, hi, m);
      }
      PutAllMeans(sent, Received(sent, front), Between(sent, lo, hi));
      forall p
        ensures Covered(arrivals, p) <==> Covered(front, p) || lo < p <= hi
      {
        CoveredStep(arrivals, p);
      }
    }
    if forall m :: m in sent ==> Covered(arrivals, m.end) {
      SameMembersSameList(list, sent);
    }
  }

  lemma CoveredStep(arrivals: seq<(int, int)>, p: int)
    requires arrivals != []
    ensures var last := arrivals[|arrivals| - 1];
            Covered(arrivals, p) <==> Covered(arrivals[..|arrivals| - 1], p) || last.0 < p <= last.1
  {
    var front := arrivals[..|arrivals| - 1];
    if Covered(arrivals, p) {
      var i :| 0 <= i < |arrivals| && arrivals[i].0 < p <= arrivals[i].1;
      if i < |front| {
        assert front[i].0 < p <= front[i].1;
      }
    }
    if Covered(front, p) {
      var i :| 0 <= i < |front| && front[i].0 < p <= front[i].1;
      assert arrivals[i].0 < p <= arrivals[i].1;
    }
  }
}
