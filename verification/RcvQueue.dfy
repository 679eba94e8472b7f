/** The receive queue on 32-bit sequence numbers: the region list of byte counts or, with real bytes in its regions, of
    the byte-stream queue. The byte-count queue is the instance whose bytes carry no information. */
module RcvQueue {
  import opened SeqNum
  import opened ReceiveSpec
  import opened Sequences
  import opened Wrappers

  /** A region as the queue stores it. */
  datatype Stored<B> = Stored(begin: uint32, end: uint32, data: seq<B>)

  datatype CompareStatus = BEFORE | BEFORE_TOUCH | OVERLAP | AFTER_TOUCH | AFTER

  datatype Result<T> = Success(value: T) | OutOfRange

  function Concrete<B>(r: Region<B>): Stored<B> {
    Stored(Wrap(r.lo), Wrap(r.hi), r.data)
  }

  ghost predicate Mirrors<B>(list: seq<Stored<B>>, rs: seq<Region<B>>) {
    |list| == |rs| && forall i :: 0 <= i < |rs| ==> list[i] == Concrete(rs[i])
  }

  /** Region::compare with self `r` */
  function CompareStored<B>(r: Stored<B>, other: Stored<B>): CompareStatus {
    if r.end == other.begin then BEFORE_TOUCH
    else if r.begin == other.end then AFTER_TOUCH
    else if SeqLess(r.end, other.begin) then BEFORE
    else if SeqLess(other.end, r.begin) then AFTER
    else OVERLAP
  }

  /** All positions of the two regions are less than half a turn apart. */
  predicate Close<B>(r: Region<B>, s: Region<B>) {
    Max(r.hi, s.hi) - Min(r.lo, s.lo) < HALF
  }

  lemma {:induction false} CompareAgrees<B>(r: Region<B>, s: Region<B>)
    requires Proper(r) && Proper(s) && Close(r, s)
    ensures CompareStored(Concrete(r), Concrete(s)) ==
            (if r.hi == s.lo then BEFORE_TOUCH else if r.lo == s.hi then AFTER_TOUCH
             else match Compare(r, s) case Before => BEFORE case After => AFTER case Meets => OVERLAP)
  {
    CircularOrder(r.hi, s.lo);
    CircularOrder(s.hi, r.lo);
  }

  /** The space check that guards every insertion. */
  predicate HasEnoughSpace(firstSeq: uint32, seqNo: uint32, length: uint32, maxRcvBuffer: uint32) {
    SeqLE(firstSeq, seqNo) && SeqLE(Add(seqNo, length), Add(firstSeq, maxRcvBuffer))
  }

  /** For segments at most one byte longer than a buffer of less than 2^31, the space check is exact: it admits a
      segment if and only if it lies between the first sequence number and the end of the buffer. */
  lemma SpaceCheckIsExact(first: int, seqNo: uint32, length: uint32, maxRcvBuffer: uint32)
    requires maxRcvBuffer < HALF && length <= maxRcvBuffer + 1
    ensures HasEnoughSpace(Wrap(first), seqNo, length, maxRcvBuffer)
            <==> Sub(seqNo, Wrap(first)) + length <= maxRcvBuffer
  {
  }

  /** The bound is sharp: the check is exact for segments of some length if and only if that length is within it. A
      longer one, placed just short of half a turn ahead, is admitted although it lies outside the buffer. */
  lemma SpaceCheckIsExactIff(firstSeq: uint32, length: uint32, maxRcvBuffer: uint32)
    requires maxRcvBuffer < HALF && 0 < length < HALF
    ensures (forall seqNo: uint32 :: HasEnoughSpace(firstSeq, seqNo, length, maxRcvBuffer)
                                     ==> Sub(seqNo, firstSeq) + length <= maxRcvBuffer)
            <==> length <= maxRcvBuffer + 1
  {
    if length <= maxRcvBuffer + 1 {
      forall seqNo: uint32 | HasEnoughSpace(firstSeq, seqNo, length, maxRcvBuffer)
        ensures Sub(seqNo, firstSeq) + length <= maxRcvBuffer
      {
        SpaceCheckIsExact(firstSeq, seqNo, length, maxRcvBuffer);
      }
    } else {
      var seqNo := Add(firstSeq, HALF - 1);
      assert HasEnoughSpace(firstSeq, seqNo, length, maxRcvBuffer);
      assert Sub(seqNo, firstSeq) + length > maxRcvBuffer;
    }
  }

  /** The bounds of two merged regions, and by how much they stick out on each side. */
  lemma MergedBounds<B>(s: Region<B>, r: Region<B>)
    requires Proper(s) && Proper(r) && Close(s, r)
    ensures var lo, hi := Min(s.lo, r.lo), Max(s.hi, r.hi);
            && SeqMin(Wrap(s.lo), Wrap(r.lo)) == Wrap(lo) && SeqMax(Wrap(s.hi), Wrap(r.hi)) == Wrap(hi)
            && (Wrap(lo) == Wrap(s.lo) <==> lo == s.lo) && (Wrap(hi) == Wrap(s.hi) <==> hi == s.hi)
            && Sub(Wrap(s.lo), Wrap(lo)) == s.lo - lo && Sub(Wrap(hi), Wrap(s.hi)) == hi - s.hi
  {
    CircularOrder(s.lo, r.lo);
    CircularOrder(s.hi, r.hi);
    CircularOrder(Min(s.lo, r.lo), s.lo);
    CircularOrder(s.hi, Max(s.hi, r.hi));
  }

  /** The range check of insertBytesFromSegment, on the bounds of the list and of the new region. */
  predicate InRange(ob: uint32, oe: uint32, nb: uint32, ne: uint32) {
    var minb, maxe := SeqMin(ob, nb), SeqMax(oe, ne);
    !(SeqGE(minb, oe) || SeqGE(minb, ne) || SeqGE(ob, maxe) || SeqGE(nb, maxe))
  }

  /** A segment that passes the space check although it is more than a byte longer than the buffer fails the range
      check as soon as something is buffered, between `b` and `e`. */
  lemma LongSegmentThrows(first: int, b: int, e: int, lo: int, length: uint32, maxRcvBuffer: uint32)
    requires first <= b < e <= first + maxRcvBuffer && first <= lo < first + HALF && maxRcvBuffer + 1 < length < HALF
    requires HasEnoughSpace(Wrap(first), Wrap(lo), length, maxRcvBuffer)
    ensures !InRange(Wrap(b), Wrap(e), Wrap(lo), Add(Wrap(lo), length))
  {
    WrapArithmetic(first, maxRcvBuffer);
    WrapArithmetic(lo, length);
    LongEnds(first, lo - first, length, maxRcvBuffer);
    FarEndIsOutOfRange(b, e, lo, lo + length);
  }

  /** A region that ends more than half a turn ahead of both beginnings is out of range. */
  lemma FarEndIsOutOfRange(b: int, e: int, lo: int, hi: int)
    requires -HALF < lo - b < HALF && HALF < hi - Min(b, lo) <= LIMIT
    ensures !InRange(Wrap(b), Wrap(e), Wrap(lo), Wrap(hi))
  {
    CircularOrder(b, lo);
    MoreThanHalfAhead(Min(b, lo), hi);
  }

  lemma MoreThanHalfAhead(p: int, q: int)
    requires HALF < q - p <= LIMIT
    ensures SeqGE(Wrap(p), Wrap(q))
  {
    WrapGap(p, q);
    if q - p < LIMIT {
      WrapArithmetic(0, p - q);
    }
  }

  /** Such a segment ends more than half a turn behind the buffer's end. */
  lemma LongEnds(first: int, d: nat, length: nat, maxRcvBuffer: uint32)
    requires d < HALF && maxRcvBuffer + 1 < length < HALF
    requires SeqLE(Wrap(first + d + length), Wrap(first + maxRcvBuffer))
    ensures d + length > HALF + maxRcvBuffer
  {
    WrapGap(first + maxRcvBuffer, first + d + length);
    WrapArithmetic(0, maxRcvBuffer - d - length);
    WrapSmall(0);
  }

  /** Region::merge with self `s`, real bytes in the regions. */
  method MergeRegions<B>(s: Stored<B>, other: Stored<B>, ghost sp: Region<B>, ghost rp: Region<B>)
    returns (merged: bool, t: Stored<B>)
    requires Proper(sp) && Proper(rp) && Close(sp, rp) && s == Concrete(sp) && other == Concrete(rp)
    ensures merged == Touches(sp, rp)
    ensures t == Concrete(if merged then Absorb(sp, rp) else sp)
  {
    CircularOrder(sp.hi, rp.lo);
    CircularOrder(rp.hi, sp.lo);
    if SeqLess(s.end, other.begin) || SeqLess(other.end, s.begin) {
      return false, s;
    }
    MergedBounds(sp, rp);
    var nbegin := SeqMin(s.begin, other.begin);
    var nend := SeqMax(s.end, other.end);
    var data := s.data;
    if nbegin != s.begin || nend != s.end {
      var head := if nbegin != s.begin then other.data[..Sub(s.begin, nbegin)] else [];
      var tail := if nend != s.end then other.data[..Sub(nend, s.end)] else [];
      data := head + s.data + tail;
    }
    t := Stored(nbegin, nend, data);
    merged := true;
  }

  /** Region::split at `seqNo`: the part before it, and what is left. */
  method SplitRegion<B>(r: Stored<B>, seqNo: uint32, ghost rp: Region<B>, ghost p: int)
    returns (before: Stored<B>, rest: Stored<B>)
    requires Proper(rp) && r == Concrete(rp) && rp.lo < p < rp.hi && seqNo == Wrap(p) && rp.hi - rp.lo < HALF
    ensures before == Concrete(Region(rp.lo, p, rp.data[..p - rp.lo]))
    ensures rest == Concrete(Region(p, rp.hi, rp.data[p - rp.lo..]))
  {
    CircularOrder(rp.lo, p);
    CircularOrder(p, rp.hi);
    assert SeqGreater(seqNo, r.begin) && SeqLess(seqNo, r.end);
    var length := Sub(seqNo, r.begin);
    before := Stored(r.begin, seqNo, r.data[..length]);
    rest := Stored(seqNo, r.end, r.data[length..]);
  }

  /** One round of the merge loop, at region i-1, which is not before the segment: the segment absorbs it, or passes
      it. */
  method MergeLast<B>(list: seq<Stored<B>>, i: nat, seg: Stored<B>,
                      ghost front: seq<Region<B>>, ghost s: Region<B>, ghost rest: seq<Region<B>>)
    returns (list': seq<Stored<B>>, seg': Stored<B>, ghost s': Region<B>, ghost rest': seq<Region<B>>)
    requires 0 < i <= |list| && Mirrors(list[..i], front) && Mirrors(list[i..], rest)
    requires Sorted(front) && Proper(s) && seg == Concrete(s) && Close(front[i - 1], s)
    requires CompareStored(list[i - 1], seg) != BEFORE
    ensures |list'| >= i - 1 && Mirrors(list'[..i - 1], front[..i - 1]) && Mirrors(list'[i - 1..], rest')
    ensures Proper(s') && seg' == Concrete(s')
    ensures Min(s.lo, front[i - 1].lo) <= s'.lo && s'.hi <= Max(s.hi, front[i - 1].hi)
    ensures MergeIn(front, s) + rest == MergeIn(front[..i - 1], s') + rest'
  {
    ghost var r := front[i - 1];
    MirrorsCut(list, i, front, rest);
    CompareAgrees(r, s);
    list', seg', s', rest' := list, seg, s, rest;
    if CompareStored(list[i - 1], seg) != AFTER {
      var merged;
      merged, seg' := MergeRegions(seg, list[i - 1], s, r);
      assert merged;
      list' := list[..i - 1] + list[i..];
      s' := Absorb(s, r);
      AbsorbRound(front, s);
    } else {
      rest' := [r] + rest;
      PassRound(front, s, rest);
    }
  }

  lemma AbsorbRound<B>(front: seq<Region<B>>, s: Region<B>)
    requires Sorted(front) && Proper(s) && front != [] && Compare(front[|front| - 1], s) == Meets
    ensures Sorted(front[..|front| - 1])
    ensures MergeIn(front, s) == MergeIn(front[..|front| - 1], Absorb(s, front[|front| - 1]))
  {
  }

  lemma PassRound<B>(front: seq<Region<B>>, s: Region<B>, rest: seq<Region<B>>)
    requires Sorted(front) && Proper(s) && front != [] && Compare(front[|front| - 1], s) == After
    ensures Sorted(front[..|front| - 1])
    ensures MergeIn(front, s) + rest == MergeIn(front[..|front| - 1], s) + ([front[|front| - 1]] + rest)
  {
    Regroup(MergeIn(front[..|front| - 1], s), [front[|front| - 1]], rest);
  }

  /** Taking the last region before `i` out of a list, or counting it to the rest. */
  lemma MirrorsCut<B>(list: seq<Stored<B>>, i: nat, front: seq<Region<B>>, rest: seq<Region<B>>)
    requires 0 < i <= |list| && Mirrors(list[..i], front) && Mirrors(list[i..], rest)
    ensures list[i - 1] == Concrete(front[i - 1])
    ensures Mirrors(list[..i - 1], front[..i - 1]) && Mirrors(list[i - 1..], [front[i - 1]] + rest)
    ensures var cut := list[..i - 1] + list[i..];
            Mirrors(cut[..i - 1], front[..i - 1]) && Mirrors(cut[i - 1..], rest)
  {
    assert list[i - 1] == list[..i][i - 1];
    assert list[..i - 1] == list[..i][..i - 1];
    assert list[i - 1..] == [list[i - 1]] + list[i..];
    var cut := list[..i - 1] + list[i..];
    assert cut[..i - 1] == list[..i - 1] && cut[i - 1..] == list[i..];
  }

  /** The end of the merge loop: the segment goes behind the remaining regions. */
  lemma MergeEnds<B>(list: seq<Stored<B>>, i: nat, seg: Stored<B>, front: seq<Region<B>>, s: Region<B>,
                     rest: seq<Region<B>>)
    requires i <= |list| && Mirrors(list[..i], front) && Mirrors(list[i..], rest)
    requires Sorted(front) && Proper(s) && seg == Concrete(s)
    requires i > 0 ==> Close(front[i - 1], s) && CompareStored(list[i - 1], seg) == BEFORE
    ensures Mirrors(list[..i] + [seg] + list[i..], MergeIn(front, s) + rest)
  {
    if i > 0 {
      assert list[i - 1] == list[..i][i - 1] == Concrete(front[i - 1]);
      CompareAgrees(front[i - 1], s);
    }
    assert MergeIn(front, s) == front + [s];
  }

  /** All regions lie in the half turn from `base` on. */
  ghost predicate InBounds<B>(rs: seq<Region<B>>, base: int) {
    forall k :: 0 <= k < |rs| ==> base <= rs[k].lo && rs[k].hi - base < HALF
  }

  /** A segment that passes the space check, on positions. */
  lemma SegmentPosition<B>(extracted: int, seqNo: uint32, payload: seq<B>, maxRcvBuffer: uint32)
    requires 0 < |payload| <= maxRcvBuffer + 1 <= HALF
    requires HasEnoughSpace(Wrap(extracted), seqNo, |payload|, maxRcvBuffer)
    ensures var lo := extracted + Sub(seqNo, Wrap(extracted));
            && Stored(seqNo, Add(seqNo, |payload|), payload) == Concrete(Region(lo, lo + |payload|, payload))
            && extracted <= lo && lo + |payload| - extracted < HALF
  {
    SpaceCheckIsExact(extracted, seqNo, |payload|, maxRcvBuffer);
    var lo := extracted + Sub(seqNo, Wrap(extracted));
    WrapArithmetic(extracted, lo - extracted);
    WrapArithmetic(lo, |payload|);
  }

  /** How an extraction position compares with the first region, by sequence number. */
  lemma ExtractCompares<B>(q: Queue<B>, upto: int)
    requires Inv(q) && q.regions != [] && Last(q) - Min(upto, q.extracted) < HALF && upto - q.extracted < HALF
    ensures var r := q.regions[0];
            && Proper(r) && r.hi - r.lo < HALF
            && (SeqLE(Wrap(upto), Wrap(r.lo)) <==> upto <= r.lo)
            && (SeqGE(Wrap(upto), Wrap(r.hi)) <==> upto >= r.hi)
  {
    LastIsLast(q);
    CircularOrder(upto, q.regions[0].lo);
    CircularOrder(upto, q.regions[0].hi);
  }

  lemma ExtractKeepsValid<B>(q: Queue<B>, upto: int)
    requires Inv(q) && Last(q) - q.extracted < HALF
    ensures var t := Extract(q, upto);
            t.nxt == q.nxt && (Inv(t) <==> Extractable(q, upto)) && (Inv(t) ==> Last(t) - t.extracted < HALF)
  {
    ExtractionIsSoundIff(q, upto);
    ExtractStopsAtNxt(q, upto);
    ExtractKeepsInv(q, Min(upto, q.nxt));
  }

  class RQRcvQueue<B> {
    var regionList: seq<Stored<B>>
    var rcvNxt: uint32
    /** The same queue on positions, with its history. */
    ghost var q: Queue<B>

    ghost predicate Valid()
      reads this
    {
      && Inv(q)
      && Mirrors(regionList, q.regions)
      && rcvNxt == Wrap(q.nxt)
      && Last(q) - q.extracted < HALF
    }

    /** The position that `seqNo` stands for, at or ahead of the first buffered byte. */
    ghost function Position(seqNo: uint32): int
      reads this
    {
      q.extracted + Sub(seqNo, Wrap(q.extracted))
    }

    /** A segment's bytes at that position. */
    ghost function At(seqNo: uint32, payload: seq<B>): Region<B>
      reads this
    {
      Region(Position(seqNo), Position(seqNo) + |payload|, payload)
    }

    constructor (startSeq: uint32)
      ensures Valid() && q == Empty(startSeq)
    {
      regionList, rcvNxt, q := [], startSeq, Empty(startSeq);
    }

    method Init(startSeq: uint32)
      modifies this
      ensures Valid() && q == Empty(startSeq)
    {
      rcvNxt := startSeq;
      regionList := [];
      q := Empty(startSeq);
    }

    method GetFirstSeqNo() returns (r: uint32)
      requires Valid()
      ensures r == Wrap(q.extracted)
    {
      if regionList == [] {
        return rcvNxt;
      }
      CircularOrder(q.regions[0].lo, q.nxt) by {
        assert Proper(q.regions[0]) && q.regions[0].lo < Last(q) by { LastIsLast(q); }
      }
      return SeqMin(regionList[0].begin, rcvNxt);
    }

    /** insertBytesFromSegment, behind its space check. */
    method InsertBytesFromSegment(seqNo: uint32, payload: seq<B>, maxRcvBuffer: uint32) returns (r: Result<uint32>)
      requires Valid()
      requires 0 < |payload| <= maxRcvBuffer + 1 <= HALF
      requires HasEnoughSpace(Wrap(q.extracted), seqNo, |payload|, maxRcvBuffer)
      modifies this
      ensures Valid() && q == Insert(old(q), old(At(seqNo, payload)))
      ensures r == Success(rcvNxt) && old(q.nxt) <= q.nxt
    {
      var region := Stored(seqNo, Add(seqNo, |payload|), payload);
      SegmentPosition(q.extracted, seqNo, payload, maxRcvBuffer);
      r := InsertRegion(region, At(seqNo, payload));
    }

    method InsertRegion(region: Stored<B>, ghost sp: Region<B>) returns (r: Result<uint32>)
      requires Valid() && InWindow(sp) && region == Concrete(sp)
      modifies this
      ensures Valid() && q == Insert(old(q), sp)
      ensures r == Success(rcvNxt) && old(q.nxt) <= q.nxt
    {
      var inRange := CheckRange(region, sp);
      if !inRange {
        return OutOfRange;
      }
      LastIsLast(q);
      Merge(region, sp);
      AdvanceNxt(sp);
      r := Success(rcvNxt);
    }

    /** A segment at or ahead of the first buffered byte that ends less than half a turn behind it. */
    ghost predicate InWindow(sp: Region<B>)
      reads this
    {
      Proper(sp) && q.extracted <= sp.lo && sp.hi - q.extracted < HALF
    }

    /** The range check of insertBytesFromSegment, which throws outside the window. */
    method CheckRange(region: Stored<B>, ghost sp: Region<B>) returns (ok: bool)
      requires Valid() && InWindow(sp) && region == Concrete(sp)
      ensures ok
    {
      ok := true;
      if regionList != [] {
        LastIsLast(q);
        ghost var first, last := q.regions[0], q.regions[|q.regions| - 1];
        var ob, oe := regionList[0].begin, regionList[|regionList| - 1].end;
        var nb, ne := region.begin, region.end;
        CircularOrder(first.lo, sp.lo);
        CircularOrder(last.hi, sp.hi);
        CircularOrder(Min(first.lo, sp.lo), last.hi);
        CircularOrder(Min(first.lo, sp.lo), sp.hi);
        CircularOrder(first.lo, Max(last.hi, sp.hi));
        CircularOrder(sp.lo, Max(last.hi, sp.hi));
        ok := InRange(ob, oe, nb, ne);
      }
    }

    /** merge: from the last region down, absorb what meets the segment, then insert it. */
    method Merge(region: Stored<B>, ghost sp: Region<B>)
      requires Mirrors(regionList, q.regions) && Sorted(q.regions) && InBounds(q.regions, q.extracted)
      requires InWindow(sp) && region == Concrete(sp)
      modifies this`regionList
      ensures Mirrors(regionList, MergeIn(q.regions, sp))
    {
      var seg := region;
      var i := |regionList|;
      ghost var s, front := sp, q.regions;
      ghost var rest: seq<Region<B>> := [];
      while i > 0 && CompareStored(regionList[i - 1], seg) != BEFORE
        invariant 0 <= i <= |regionList| && Sorted(front) && InWindow(s) && seg == Concrete(s)
        invariant InBounds(front, q.extracted)
        invariant Mirrors(regionList[..i], front) && Mirrors(regionList[i..], rest)
        invariant MergeIn(q.regions, sp) == MergeIn(front, s) + rest
      {
        regionList, seg, s, rest := MergeLast(regionList, i, seg, front, s, rest);
        front := front[..i - 1];
        i := i - 1;
      }
      MergeEnds(regionList, i, seg, front, s, rest);
      regionList := regionList[..i] + [seg] + regionList[i..];
    }

    /** rcv_nxt moves behind the first region when that region has reached it. */
    method AdvanceNxt(ghost sp: Region<B>)
      requires Inv(q) && InWindow(sp) && Last(q) - q.extracted < HALF && rcvNxt == Wrap(q.nxt)
      requires Mirrors(regionList, MergeIn(q.regions, sp))
      modifies this
      ensures Valid() && q == Insert(old(q), sp) && regionList == old(regionList) && old(q.nxt) <= q.nxt
    {
      InsertKeepsInv(q, sp);
      MergeKeepsSorted(q.regions, sp);
      ghost var t := Insert(q, sp);
      LastIsLast(t);
      CircularOrder(t.regions[0].lo, q.nxt);
      if SeqGE(rcvNxt, regionList[0].begin) {
        rcvNxt := regionList[0].end;
      }
      q := t;
    }

    /** extractTo, for a position within half a turn of the queue. The queue stays exact if and only if the position
        does not reach beyond a gap at the front. */
    method ExtractTo(seqNo: uint32, ghost upto: int) returns (r: Option<Stored<B>>)
      requires Valid() && seqNo == Wrap(upto) && Last(q) - Min(upto, q.extracted) < HALF && upto - q.extracted < HALF
      modifies this
      ensures q == Extract(old(q), upto) && Mirrors(regionList, q.regions) && rcvNxt == old(rcvNxt)
      ensures Valid() <==> Extractable(old(q), upto)
      ensures var taken := Taken(old(q), upto);
              r == if taken == None then None else Some(Concrete(taken.value))
    {
      ExtractKeepsValid(q, upto);
      if regionList == [] {
        return None;
      }
      ExtractCompares(q, upto);
      ghost var rp, t := q.regions[0], Extract(q, upto);
      var reg := regionList[0];
      if SeqLE(seqNo, reg.begin) {
        return None;
      }
      if SeqGE(seqNo, reg.end) {
        regionList := regionList[1..];
        q := t;
        return Some(reg);
      }
      var before, rest := SplitRegion(reg, seqNo, rp, upto);
      regionList := regionList[0 := rest];
      q := t;
      r := Some(before);
    }

    method GetAmountOfBufferedBytes() returns (bytes: uint32)
      requires Valid()
      ensures bytes == |set p | p in q.received && q.extracted <= p|
    {
      LastIsLast(q);
      BufferedBytesAreTheRest(q);
      bytes := 0;
      for i := 0 to |regionList|
        invariant bytes == TotalLength(q.regions[..i])
      {
        PrefixLength(q, i);
        bytes := Add(bytes, Sub(regionList[i].end, regionList[i].begin));
      }
      assert q.regions[..|regionList|] == q.regions;
    }

    method GetAmountOfFreeBytes(maxRcvBuffer: uint32) returns (free: uint32)
      requires Valid()
      ensures free == Max(maxRcvBuffer - |set p | p in q.received && q.extracted <= p|, 0)
    {
      var usedRcvBuffer := GetAmountOfBufferedBytes();
      var freeRcvBuffer := Sub(maxRcvBuffer, usedRcvBuffer);
      free := if maxRcvBuffer > usedRcvBuffer then freeRcvBuffer else 0;
    }

    /** getLE, for a position within half a turn of the queue. */
    method GetLE(fromSeqNum: uint32, ghost p: int) returns (r: uint32)
      requires Valid() && fromSeqNum == Wrap(p) && Max(Last(q), p) - Min(q.extracted, p) < HALF
      ensures r == Wrap(LeftEdge(q.regions, p))
    {
      LastIsLast(q);
      var i := 0;
      while i < |regionList|
        invariant 0 <= i <= |regionList|
        invariant LeftEdge(q.regions, p) == LeftEdge(q.regions[i..], p)
      {
        CircularOrder(q.regions[i].lo, p);
        CircularOrder(p, q.regions[i].hi);
        if SeqLE(regionList[i].begin, fromSeqNum) && SeqLess(fromSeqNum, regionList[i].end) {
          return regionList[i].begin;
        }
        i := i + 1;
      }
      return fromSeqNum;
    }

    /** getRE, for a position within half a turn of the queue. */
    method GetRE(toSeqNum: uint32, ghost p: int) returns (r: uint32)
      requires Valid() && toSeqNum == Wrap(p) && Max(Last(q), p) - Min(q.extracted, p) < HALF
      ensures r == Wrap(RightEdge(q.regions, p))
    {
      LastIsLast(q);
      var i := 0;
      while i < |regionList|
        invariant 0 <= i <= |regionList|
        invariant RightEdge(q.regions, p) == RightEdge(q.regions[i..], p)
      {
        CircularOrder(q.regions[i].lo, p);
        CircularOrder(p, q.regions[i].hi);
        if SeqLess(regionList[i].begin, toSeqNum) && SeqLE(toSeqNum, regionList[i].end) {
          return regionList[i].end;
        }
        i := i + 1;
      }
      return toSeqNum;
    }
  }

  /** The length of one more region, on sequence numbers and on positions. */
  lemma PrefixLength<B>(q: Queue<B>, i: nat)
    requires Inv(q) && i < |q.regions| && Last(q) - q.extracted < HALF
    ensures var r := q.regions[i];
            && TotalLength(q.regions[..i + 1]) == TotalLength(q.regions[..i]) + r.hi - r.lo < HALF
            && Sub(Wrap(r.hi), Wrap(r.lo)) == r.hi - r.lo
  {
    var rs := q.regions[..i + 1];
    assert rs[..i] == q.regions[..i];
    LastIsLast(q);
    LengthCountsBytes(rs);
    CircularOrder(q.regions[i].lo, q.regions[i].hi);
  }

  /** Every region lies between the first buffered byte and the last. */
  lemma LastIsLast<B>(q: Queue<B>)
    requires Sorted(q.regions)
    ensures forall i :: 0 <= i < |q.regions| ==> First(q) <= q.regions[i].lo < q.regions[i].hi <= Last(q)
  {
    forall i | 0 <= i < |q.regions|
      ensures First(q) <= q.regions[i].lo < q.regions[i].hi <= Last(q)
    {
      assert Proper(q.regions[i]);
      assert i > 0 ==> q.regions[0].hi < q.regions[i].lo && Proper(q.regions[0]);
      assert i < |q.regions| - 1 ==>
          q.regions[i].hi < q.regions[|q.regions| - 1].lo && Proper(q.regions[|q.regions| - 1]);
    }
  }
}
