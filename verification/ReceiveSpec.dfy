/** What a receive queue does, on unbounded positions: regions of bytes that grow together, and what was received so
    far. */
module ReceiveSpec {
  import opened SeqNum
  import opened Wrappers

  /** The bytes at positions lo, ..., hi-1. */
  datatype Region<B> = Region(lo: int, hi: int, data: seq<B>)

  predicate Proper<B>(r: Region<B>) {
    r.lo < r.hi && |r.data| == r.hi - r.lo
  }

  /** Non-empty, in order, and with a gap between neighbours. */
  ghost predicate Sorted<B>(rs: seq<Region<B>>) {
    && (forall i :: 0 <= i < |rs| ==> Proper(rs[i]))
    && (forall i, j :: 0 <= i < j < |rs| ==> rs[i].hi < rs[j].lo)
  }

  predicate Has<B>(rs: seq<Region<B>>, p: int) {
    exists i :: 0 <= i < |rs| && rs[i].lo <= p < rs[i].hi
  }

  predicate Touches<B>(s: Region<B>, r: Region<B>) {
    s.lo <= r.hi && r.lo <= s.hi
  }

  /** Region::merge with self `s` and other `r`. The tail is copied from the beginning of `r`, whatever its overlap. */
  function Absorb<B>(s: Region<B>, r: Region<B>): (t: Region<B>)
    requires Proper(s) && Proper(r) && Touches(s, r)
    ensures Proper(t) && t.lo == Min(s.lo, r.lo) && t.hi == Max(s.hi, r.hi)
  {
    var lo, hi := Min(s.lo, r.lo), Max(s.hi, r.hi);
    Region(lo, hi, r.data[..s.lo - lo] + s.data + r.data[..hi - s.hi])
  }

  /** Where region `r` meets segment `s`: the outcomes of Region::compare with OVERLAP and the two touching cases as
      one. */
  datatype Place = Before | Meets | After

  function Compare<B>(r: Region<B>, s: Region<B>): Place {
    if r.hi < s.lo then Before else if s.hi < r.lo then After else Meets
  }

  /** The queue's merge: from the last region down, absorb what meets `s`, and put `s` behind the first region before
      it. */
  function MergeIn<B>(rs: seq<Region<B>>, s: Region<B>): (out: seq<Region<B>>)
    requires Sorted(rs) && Proper(s)
    decreases |rs|
  {
    if rs == [] then [s]
    else
      var front, r := rs[..|rs| - 1], rs[|rs| - 1];
      match Compare(r, s)
      case Before => rs + [s]
      case After => MergeIn(front, s) + [r]
      case Meets => MergeIn(front, Absorb(s, r))
  }

  lemma HasLast<B>(rs: seq<Region<B>>, p: int)
    requires rs != []
    ensures Has(rs, p) <==> Has(rs[..|rs| - 1], p) || rs[|rs| - 1].lo <= p < rs[|rs| - 1].hi
  {
    if Has(rs, p) {
      var i :| 0 <= i < |rs| && rs[i].lo <= p < rs[i].hi;
      assert i < |rs| - 1 ==> rs[..|rs| - 1][i] == rs[i];
    }
    if Has(rs[..|rs| - 1], p) {
      var i :| 0 <= i < |rs| - 1 && rs[..|rs| - 1][i].lo <= p < rs[..|rs| - 1][i].hi;
      assert rs[i] == rs[..|rs| - 1][i];
    }
  }

  lemma AppendKeepsSorted<B>(rs: seq<Region<B>>, r: Region<B>)
    requires Sorted(rs) && Proper(r) && (rs != [] ==> rs[|rs| - 1].hi < r.lo)
    ensures Sorted(rs + [r])
  {
    forall i | 0 <= i < |rs|
      ensures rs[i].hi < r.lo
    {
      assert i < |rs| - 1 ==> rs[i].hi < rs[|rs| - 1].lo;
    }
  }

  /** `out` is sorted and reaches from the first to the last position of `rs` and `s`. */
  ghost predicate Spans<B>(out: seq<Region<B>>, rs: seq<Region<B>>, s: Region<B>) {
    && out != [] && Sorted(out)
    && out[|out| - 1].hi == (if rs == [] then s.hi else Max(rs[|rs| - 1].hi, s.hi))
    && out[0].lo == (if rs == [] then s.lo else Min(rs[0].lo, s.lo))
  }

  lemma SpansBefore<B>(rs: seq<Region<B>>, s: Region<B>)
    requires Sorted(rs) && Proper(s) && rs != [] && rs[|rs| - 1].hi < s.lo
    ensures Spans(rs + [s], rs, s)
  {
    FrontIsSorted(rs);
    AppendKeepsSorted(rs, s);
    assert Proper(rs[0]);
  }

  lemma SpansAfter<B>(out: seq<Region<B>>, rs: seq<Region<B>>, s: Region<B>)
    requires Sorted(rs) && Proper(s) && rs != [] && s.hi < rs[|rs| - 1].lo && Spans(out, rs[..|rs| - 1], s)
    ensures Spans(out + [rs[|rs| - 1]], rs, s)
  {
    FrontIsSorted(rs);
    AppendKeepsSorted(out, rs[|rs| - 1]);
  }

  lemma SpansMeets<B>(out: seq<Region<B>>, rs: seq<Region<B>>, s: Region<B>)
    requires Sorted(rs) && Proper(s) && rs != [] && Compare(rs[|rs| - 1], s) == Meets
    requires Spans(out, rs[..|rs| - 1], Absorb(s, rs[|rs| - 1]))
    ensures Spans(out, rs, s)
  {
    FrontIsSorted(rs);
  }

  /** Merging keeps the regions sorted and apart, and its last region ends where the later of the two ended. */
  lemma {:induction false} MergeKeepsSorted<B>(rs: seq<Region<B>>, s: Region<B>)
    requires Sorted(rs) && Proper(s)
    ensures Spans(MergeIn(rs, s), rs, s)
    decreases |rs|
  {
    if rs != [] {
      var front, r := rs[..|rs| - 1], rs[|rs| - 1];
      FrontIsSorted(rs);
      match Compare(r, s)
      case Before =>
        SpansBefore(rs, s);
      case After =>
        MergeKeepsSorted(front, s);
        SpansAfter(MergeIn(front, s), rs, s);
      case Meets =>
        MergeKeepsSorted(front, Absorb(s, r));
        SpansMeets(MergeIn(front, Absorb(s, r)), rs, s);
    }
  }

  lemma FrontIsSorted<B>(rs: seq<Region<B>>)
    requires Sorted(rs) && rs != []
    ensures var front, r := rs[..|rs| - 1], rs[|rs| - 1];
            Proper(r) && Sorted(front) && (front != []
              ==> front[|front| - 1].hi < r.lo && front[0] == rs[0] && rs[0].hi < r.lo)
  {
  }

  /** Merging adds exactly the bytes of the segment. */
  lemma {:induction false} MergeAddsBytes<B>(rs: seq<Region<B>>, s: Region<B>, p: int)
    requires Sorted(rs) && Proper(s)
    ensures Has(MergeIn(rs, s), p) <==> Has(rs, p) || s.lo <= p < s.hi
    decreases |rs|
  {
    var out := MergeIn(rs, s);
    if rs == [] {
      HasLast(out, p);
    } else {
      var front, r := rs[..|rs| - 1], rs[|rs| - 1];
      HasLast(rs, p);
      match Compare(r, s)
      case Before =>
        HasLast(out, p);
        assert out[..|out| - 1] == rs;
      case After =>
        MergeAddsBytes(front, s, p);
        HasLast(out, p);
        assert out[..|out| - 1] == MergeIn(front, s);
      case Meets =>
        MergeAddsBytes(front, Absorb(s, r), p);
    }
  }

  /** The region holds the bytes that stream `f` has at its positions. */
  ghost predicate Faithful<B(!new)>(r: Region<B>, f: int -> B) {
    forall k :: 0 <= k < |r.data| ==> r.data[k] == f(r.lo + k)
  }

  ghost predicate Reflects<B(!new)>(rs: seq<Region<B>>, f: int -> B) {
    forall i :: 0 <= i < |rs| ==> Faithful(rs[i], f)
  }

  /** Some region has bytes on both sides of position `p`. */
  ghost predicate Straddled<B>(rs: seq<Region<B>>, p: int) {
    exists i :: 0 <= i < |rs| && rs[i].lo < p < rs[i].hi
  }

  lemma AbsorbKeepsBytes<B(!new)>(s: Region<B>, r: Region<B>, f: int -> B)
    requires Proper(s) && Proper(r) && Touches(s, r) && Faithful(s, f) && Faithful(r, f)
    requires !(r.lo < s.hi < r.hi)
    ensures Faithful(Absorb(s, r), f)
  {
    var t := Absorb(s, r);
    forall k | 0 <= k < |t.data|
      ensures t.data[k] == f(t.lo + k)
    {
      var p := t.lo + k;
      if p < s.lo {
        assert t.data[k] == r.data[k];
      } else if p < s.hi {
        assert t.data[k] == s.data[p - s.lo];
      } else {
        assert t.data[k] == r.data[p - r.lo];
      }
    }
  }

  /** Merging keeps every byte at its position, as long as the segment does not end inside a region. */
  lemma {:induction false} MergeKeepsBytes<B(!new)>(rs: seq<Region<B>>, s: Region<B>, f: int -> B)
    requires Sorted(rs) && Proper(s) && Reflects(rs, f) && Faithful(s, f)
    requires !Straddled(rs, s.hi)
    ensures Reflects(MergeIn(rs, s), f)
    decreases |rs|
  {
    if rs != [] {
      var front, r := rs[..|rs| - 1], rs[|rs| - 1];
      assert rs[|rs| - 1] == r;
      match Compare(r, s)
      case Before =>
      case After =>
        assert !Straddled(front, s.hi);
        MergeKeepsBytes(front, s, f);
      case Meets =>
        AbsorbKeepsBytes(s, r, f);
        assert !Straddled(front, Absorb(s, r).hi);
        MergeKeepsBytes(front, Absorb(s, r), f);
    }
  }

  /** A queue with its history: `nxt` is rcv_nxt, everything below `extracted` has been handed on, and `received` holds
      every position received since the queue was set up at `start`. */
  datatype Queue<B> = Queue(regions: seq<Region<B>>, nxt: int, start: int, extracted: int, received: set<int>)

  function Empty<B>(start: int): Queue<B> {
    Queue([], start, start, start, {})
  }

  /** getFirstSeqNo */
  function First<B>(q: Queue<B>): int {
    if q.regions == [] then q.nxt else Min(q.regions[0].lo, q.nxt)
  }

  /** The position behind the last buffered byte. */
  function Last<B>(q: Queue<B>): int {
    if q.regions == [] then q.nxt else Max(q.regions[|q.regions| - 1].hi, q.nxt)
  }

  /** The queue buffers exactly the bytes received and not handed on, and `nxt` is the first byte never received. */
  ghost predicate Inv<B>(q: Queue<B>) {
    && Sorted(q.regions)
    && First(q) == q.extracted && q.start <= q.extracted
    && (forall p :: Has(q.regions, p) <==> p in q.received && q.extracted <= p)
    && q.nxt !in q.received
    && (forall p :: q.start <= p < q.nxt ==> p in q.received)
    && (forall p :: p in q.received ==> q.start <= p)
  }

  /** insertBytesFromSegment */
  function Insert<B>(q: Queue<B>, s: Region<B>): Queue<B>
    requires Sorted(q.regions) && Proper(s)
  {
    MergeKeepsSorted(q.regions, s);
    var out := MergeIn(q.regions, s);
    q.(regions := out,
       nxt := if out[0].lo <= q.nxt then out[0].hi else q.nxt,
       received := q.received + Range(s.lo, s.hi))
  }

  /** The region that extractTo hands out. */
  function Taken<B>(q: Queue<B>, upto: int): Option<Region<B>>
    requires Sorted(q.regions)
  {
    if q.regions == [] || upto <= q.regions[0].lo then None
    else
      var r := q.regions[0];
      if r.hi <= upto then Some(r) else Some(Region(r.lo, upto, r.data[..upto - r.lo]))
  }

  /** extractTo */
  function Extract<B>(q: Queue<B>, upto: int): Queue<B>
    requires Sorted(q.regions)
  {
    if q.regions == [] || upto <= q.regions[0].lo then q
    else
      var r := q.regions[0];
      if r.hi <= upto then q.(regions := q.regions[1..], extracted := r.hi)
      else q.(regions := [Region(upto, r.hi, r.data[upto - r.lo..])] + q.regions[1..], extracted := upto)
  }

  lemma HasFirst<B>(rs: seq<Region<B>>, p: int)
    requires Sorted(rs) && rs != []
    ensures Has(rs, rs[0].lo)
    ensures Has(rs, p) ==> rs[0].lo <= p
    ensures !Has(rs, rs[0].hi)
    ensures rs[0].lo <= p < rs[0].hi ==> Has(rs, p)
  {
    assert forall i :: 0 < i < |rs| ==> rs[0].hi < rs[i].lo;
  }

  lemma HasRest<B>(rs: seq<Region<B>>, p: int)
    requires rs != []
    ensures Has(rs, p) <==> rs[0].lo <= p < rs[0].hi || Has(rs[1..], p)
  {
    if Has(rs[1..], p) {
      var i :| 0 <= i < |rs| - 1 && rs[1..][i].lo <= p < rs[1..][i].hi;
      assert rs[i + 1] == rs[1..][i];
    }
    if Has(rs, p) {
      var i :| 0 <= i < |rs| && rs[i].lo <= p < rs[i].hi;
      assert i > 0 ==> rs[1..][i - 1] == rs[i];
    }
  }

  lemma InsertKeepsBytes<B>(q: Queue<B>, s: Region<B>, p: int)
    requires Inv(q) && Proper(s) && q.extracted <= s.lo
    ensures var t := Insert(q, s);
            Has(t.regions, p) <==> p in t.received && t.extracted <= p
  {
    MergeAddsBytes(q.regions, s, p);
  }

  /** Any segment at or behind the first buffered byte, in any order, overlapping or repeated, keeps the queue exact;
      rcv_nxt never moves back. */
  lemma InsertKeepsInv<B>(q: Queue<B>, s: Region<B>)
    requires Inv(q) && Proper(s) && q.extracted <= s.lo
    ensures Inv(Insert(q, s)) && q.nxt <= Insert(q, s).nxt
    ensures Last(Insert(q, s)) <= Max(Last(q), s.hi)
  {
    var t := Insert(q, s);
    MergeKeepsSorted(q.regions, s);
    forall p
      ensures Has(t.regions, p) <==> p in t.received && t.extracted <= p
    {
      InsertKeepsBytes(q, s, p);
    }
    InsertMovesNxt(q, s);
    InsertKeepsLast(q, s);
  }

  lemma InsertKeepsLast<B>(q: Queue<B>, s: Region<B>)
    requires Sorted(q.regions) && Proper(s)
    ensures Last(Insert(q, s)) <= Max(Last(q), s.hi)
  {
    var t := Insert(q, s);
    MergeKeepsSorted(q.regions, s);
    var n := |t.regions| - 1;
    assert t.regions[0].hi <= t.regions[n].hi by {
      assert n > 0 ==> t.regions[0].hi < t.regions[n].lo;
      assert Proper(t.regions[n]);
    }
  }

  /** After an insertion, everything below rcv_nxt has been received and rcv_nxt itself has not. */
  lemma InsertMovesNxt<B>(q: Queue<B>, s: Region<B>)
    requires Inv(q) && Proper(s) && q.extracted <= s.lo
    ensures var t := Insert(q, s);
            && First(t) == t.extracted && q.nxt <= t.nxt && t.nxt !in t.received
            && forall p :: t.start <= p < t.nxt ==> p in t.received
  {
    var t := Insert(q, s);
    MergeKeepsSorted(q.regions, s);
    var front := t.regions[0];
    HasFirst(t.regions, q.extracted);
    HasFirst(t.regions, q.nxt);
    InsertKeepsBytes(q, s, front.lo);
    InsertKeepsBytes(q, s, q.extracted);
    InsertKeepsBytes(q, s, t.nxt);
    forall p | t.start <= p < t.nxt
      ensures p in t.received
    {
      if q.nxt <= p {
        HasFirst(t.regions, p);
        InsertKeepsBytes(q, s, p);
      }
    }
  }

  /** In-order bytes that are still buffered form the first region, which ends at rcv_nxt. */
  lemma FrontEndsAtNxt<B>(q: Queue<B>)
    requires Inv(q) && q.extracted < q.nxt
    ensures q.regions != [] && q.regions[0].lo == q.extracted && q.regions[0].hi == q.nxt
  {
    assert Has(q.regions, q.extracted);
    HasFirst(q.regions, q.extracted);
    HasFirst(q.regions, q.nxt);
    var r := q.regions[0];
    assert r.lo == q.extracted;
    assert r.hi < q.nxt ==> Has(q.regions, r.hi);
  }

  lemma ExtractKeepsBytes<B>(q: Queue<B>, upto: int, p: int)
    requires Inv(q) && q.extracted < upto <= q.nxt
    ensures Has(Extract(q, upto).regions, p) <==> Has(q.regions, p) && upto <= p
  {
    FrontEndsAtNxt(q);
    var t := Extract(q, upto);
    HasRest(q.regions, p);
    if upto == q.nxt {
      if Has(t.regions, p) {
        var i :| 0 <= i < |t.regions| && t.regions[i].lo <= p < t.regions[i].hi;
        assert q.regions[i + 1] == t.regions[i];
      }
    } else {
      HasRest(t.regions, p);
      assert t.regions[1..] == q.regions[1..];
      if Has(q.regions[1..], p) {
        var i :| 0 <= i < |q.regions[1..]| && q.regions[1..][i].lo <= p < q.regions[1..][i].hi;
        assert q.regions[i + 1] == q.regions[1..][i];
      }
    }
  }

  /** Handing on bytes up to a position not beyond rcv_nxt takes exactly the oldest buffered bytes up to there. */
  lemma ExtractKeepsInv<B>(q: Queue<B>, upto: int)
    requires Inv(q) && upto <= q.nxt
    ensures Inv(Extract(q, upto)) && Extract(q, upto).nxt == q.nxt && Extract(q, upto).received == q.received
    ensures Extract(q, upto).extracted == Max(q.extracted, upto)
    ensures if upto <= q.extracted then Taken(q, upto) == None
            else && Taken(q, upto).Some? && Proper(Taken(q, upto).value)
                 && Taken(q, upto).value.lo == q.extracted && Taken(q, upto).value.hi == upto
    ensures Last(Extract(q, upto)) == Last(q)
  {
    if q.extracted < upto {
      FrontEndsAtNxt(q);
      var t := Extract(q, upto);
      forall p
        ensures Has(t.regions, p) <==> p in t.received && t.extracted <= p
      {
        ExtractKeepsBytes(q, upto, p);
      }
      ExtractKeepsShape(q, upto);
    }
  }

  /** Something in order is buffered, or nothing would be taken. */
  predicate Extractable<B>(q: Queue<B>, upto: int)
    requires Sorted(q.regions)
  {
    q.extracted < q.nxt || Taken(q, upto) == None
  }

  /** An extraction beyond rcv_nxt stops there if something in order is buffered. */
  lemma ExtractStopsAtNxt<B>(q: Queue<B>, upto: int)
    requires Inv(q)
    ensures upto <= q.nxt ==> Extractable(q, upto)
    ensures Extractable(q, upto) ==>
              Extract(q, upto) == Extract(q, Min(upto, q.nxt)) && Taken(q, upto) == Taken(q, Min(upto, q.nxt))
  {
    if q.extracted < q.nxt {
      FrontEndsAtNxt(q);
    }
  }

  /** An extraction keeps the queue exact if and only if something in order is buffered or nothing is taken. Otherwise
      bytes behind a gap are handed on before the gap is filled. */
  lemma {:induction false} ExtractionIsSoundIff<B>(q: Queue<B>, upto: int)
    requires Inv(q)
    ensures Inv(Extract(q, upto)) <==> Extractable(q, upto)
  {
    if Extractable(q, upto) {
      ExtractStopsAtNxt(q, upto);
      ExtractStopsAtNxt(q, Min(upto, q.nxt));
      ExtractKeepsInv(q, Min(upto, q.nxt));
    } else {
      assert q.extracted == q.nxt < q.regions[0].lo < Extract(q, upto).extracted by {
        HasFirst(q.regions, q.nxt);
      }
    }
  }

  lemma RestIsSorted<B>(rs: seq<Region<B>>)
    requires Sorted(rs) && rs != []
    ensures Sorted(rs[1..]) && forall i :: 0 <= i < |rs| - 1 ==> rs[0].hi < rs[1..][i].lo
  {
    forall i | 0 <= i < |rs| - 1
      ensures Proper(rs[1..][i]) && rs[0].hi < rs[1..][i].lo
    {
      assert rs[1..][i] == rs[i + 1];
    }
    forall i, j | 0 <= i < j < |rs| - 1
      ensures rs[1..][i].hi < rs[1..][j].lo
    {
      assert rs[1..][i] == rs[i + 1] && rs[1..][j] == rs[j + 1];
    }
  }

  lemma PrependKeepsSorted<B>(r: Region<B>, rs: seq<Region<B>>)
    requires Proper(r) && Sorted(rs) && forall i :: 0 <= i < |rs| ==> r.hi < rs[i].lo
    ensures Sorted([r] + rs)
  {
  }

  lemma ExtractKeepsShape<B>(q: Queue<B>, upto: int)
    requires Inv(q) && q.extracted < upto <= q.nxt
    ensures var t := Extract(q, upto);
            Sorted(t.regions) && First(t) == upto && Last(t) == Last(q)
  {
    FrontEndsAtNxt(q);
    RestIsSorted(q.regions);
    var r, rest := q.regions[0], q.regions[1..];
    assert rest != [] ==> rest[|rest| - 1] == q.regions[|q.regions| - 1] && rest[0] == q.regions[1];
    if upto < q.nxt {
      var kept := Region(upto, r.hi, r.data[upto - r.lo..]);
      PrependKeepsSorted(kept, rest);
      assert Extract(q, upto).regions == [kept] + rest;
    } else {
      assert Extract(q, upto).regions == rest;
    }
  }

  /** The bytes of stream `f` at positions lo, ..., hi-1. */
  function Slice<B>(f: int -> B, lo: int, hi: int): (r: Region<B>)
    requires lo <= hi
    ensures |r.data| == hi - lo && forall i :: 0 <= i < hi - lo ==> r.data[i] == f(lo + i)
  {
    Region(lo, hi, seq(hi - lo, i requires 0 <= i < hi - lo => f(lo + i)))
  }

  /** A byte of the segment that is not the stream's stays wrong. */
  lemma {:induction false} WrongByteStays<B(!new)>(rs: seq<Region<B>>, s: Region<B>, f: int -> B, p: int)
    requires Sorted(rs) && Proper(s) && s.lo <= p < s.hi && s.data[p - s.lo] != f(p)
    ensures !Reflects(MergeIn(rs, s), f)
    decreases |rs|
  {
    var out := MergeIn(rs, s);
    if rs == [] {
      assert out[0] == s && s.data[p - s.lo] != f(s.lo + (p - s.lo));
    } else {
      var front, r := rs[..|rs| - 1], rs[|rs| - 1];
      match Compare(r, s)
      case Before =>
        assert out[|rs|] == s && s.data[p - s.lo] != f(s.lo + (p - s.lo));
      case After =>
        WrongByteStays(front, s, f, p);
        var i :| 0 <= i < |MergeIn(front, s)| && !Faithful(MergeIn(front, s)[i], f);
        assert out[i] == MergeIn(front, s)[i];
      case Meets =>
        WrongByteStays(front, Absorb(s, r), f, p);
    }
  }

  /** When the segment ends inside a region, the stream that differs only there is not kept. */
  lemma {:induction false} MergeLosesBytes(rs: seq<Region<bool>>, s: Region<bool>, f: int -> bool)
    requires Sorted(rs) && Proper(s) && Reflects(rs, f) && Straddled(rs, s.hi)
    requires forall p :: f(p) <==> p == s.hi
    ensures !Reflects(MergeIn(rs, s), f)
    decreases |rs|
  {
    var front, r := rs[..|rs| - 1], rs[|rs| - 1];
    var k :| 0 <= k < |rs| && rs[k].lo < s.hi < rs[k].hi;
    if k < |rs| - 1 {
      assert rs[k].hi < r.lo && front[k] == rs[k];
      MergeLosesBytes(front, s, f);
      var i :| 0 <= i < |MergeIn(front, s)| && !Faithful(MergeIn(front, s)[i], f);
      assert MergeIn(rs, s)[i] == MergeIn(front, s)[i];
    } else {
      var t := Absorb(s, r);
      assert Faithful(rs[k], f) && r.data[0] == f(r.lo + 0);
      assert t.data[s.hi - t.lo] == r.data[0];
      WrongByteStays(front, t, f, s.hi);
    }
  }

  ghost predicate SortedBounds(bounds: seq<(int, int)>) {
    && (forall i :: 0 <= i < |bounds| ==> bounds[i].0 < bounds[i].1)
    && (forall i, j :: 0 <= i < j < |bounds| ==> bounds[i].1 < bounds[j].0)
  }

  function Slices<B>(f: int -> B, bounds: seq<(int, int)>): (rs: seq<Region<B>>)
    requires forall i :: 0 <= i < |bounds| ==> bounds[i].0 < bounds[i].1
    ensures |rs| == |bounds| && forall i :: 0 <= i < |bounds| ==> rs[i] == Slice(f, bounds[i].0, bounds[i].1)
  {
    seq(|bounds|, i requires 0 <= i < |bounds| => Slice(f, bounds[i].0, bounds[i].1))
  }

  predicate EndsInside(bounds: seq<(int, int)>, hi: int) {
    exists i :: 0 <= i < |bounds| && bounds[i].0 < hi < bounds[i].1
  }

  lemma SlicesReflect<B(!new)>(f: int -> B, bounds: seq<(int, int)>, hi: int)
    requires SortedBounds(bounds)
    ensures Sorted(Slices(f, bounds)) && Reflects(Slices(f, bounds), f)
    ensures Straddled(Slices(f, bounds), hi) <==> EndsInside(bounds, hi)
  {
    var rs := Slices(f, bounds);
    assert forall i :: 0 <= i < |rs| ==> rs[i].lo == bounds[i].0 && rs[i].hi == bounds[i].1;
  }

  /** An insertion keeps the bytes of every stream exactly when the segment does not end inside a buffered region, that
      is, when its last byte and the byte behind it are not both buffered already. */
  lemma InsertionIsFaithfulIff(bounds: seq<(int, int)>, lo: int, hi: int)
    requires SortedBounds(bounds) && lo < hi
    ensures (forall f: int -> bool :: KeepsStream(f, bounds, lo, hi)) <==> !EndsInside(bounds, hi)
  {
    if EndsInside(bounds, hi) {
      var f := (p: int) => p == hi;
      SlicesReflect(f, bounds, hi);
      MergeLosesBytes(Slices(f, bounds), Slice(f, lo, hi), f);
      assert !KeepsStream(f, bounds, lo, hi);
    } else {
      forall f: int -> bool
        ensures KeepsStream(f, bounds, lo, hi)
      {
        SlicesReflect(f, bounds, hi);
        MergeKeepsBytes(Slices(f, bounds), Slice(f, lo, hi), f);
      }
    }
  }

  /** Regions `bounds` of stream `f` still hold the stream after a merge with its segment lo, ..., hi-1. */
  ghost predicate KeepsStream<B(!new)>(f: int -> B, bounds: seq<(int, int)>, lo: int, hi: int)
    requires SortedBounds(bounds) && lo < hi
  {
    SlicesReflect(f, bounds, hi);
    Reflects(MergeIn(Slices(f, bounds), Slice(f, lo, hi)), f)
  }

  /** Bytes that are new to the queue never end inside one of its regions: a piece that overlaps nothing is harmless. */
  lemma NewBytesDoNotStraddle<B>(q: Queue<B>, s: Region<B>)
    requires Inv(q) && Proper(s) && q.extracted <= s.lo
    requires s.hi - 1 !in q.received
    ensures !Straddled(q.regions, s.hi)
  {
    if i :| 0 <= i < |q.regions| && q.regions[i].lo < s.hi < q.regions[i].hi {
      assert Has(q.regions, s.hi - 1);
    }
  }

  /** An operation on a byte-stream queue: insert a segment, or extract up to a position. */
  datatype Op<B> = Put(s: Region<B>) | Take(upto: int)

  function Apply<B>(q: Queue<B>, op: Op<B>): Queue<B>
    requires Sorted(q.regions) && (op.Put? ==> Proper(op.s))
  {
    match op
    case Put(s) => Insert(q, s)
    case Take(upto) => Extract(q, upto)
  }

  /** A piece of stream `f` that does not end inside what is buffered, whatever else it overlaps; or an extraction that
      does not reach beyond a gap. These are the conditions of InsertionIsFaithfulIff and ExtractionIsSoundIff. */
  ghost predicate Legal<B(!new)>(q: Queue<B>, op: Op<B>, f: int -> B)
    requires Sorted(q.regions)
  {
    match op
    case Put(s) => s.lo < s.hi && s == Slice(f, s.lo, s.hi) && q.extracted <= s.lo && !Straddled(q.regions, s.hi)
    case Take(upto) => Extractable(q, upto)
  }

  ghost predicate Session<B(!new)>(start: int, ops: seq<Op<B>>, f: int -> B)
    decreases |ops|, 0
  {
    ops == [] ||
    (var front, op := ops[..|ops| - 1], ops[|ops| - 1];
     Session(start, front, f) && Legal(QueueAfter(start, front, f), op, f))
  }

  /** The queue after a session. */
  ghost function QueueAfter<B(!new)>(start: int, ops: seq<Op<B>>, f: int -> B): (q: Queue<B>)
    requires Session(start, ops, f)
    ensures Inv(q) && q.start == start
    decreases |ops|, 1
  {
    if ops == [] then Empty(start)
    else
      var q := QueueAfter(start, ops[..|ops| - 1], f);
      var op := ops[|ops| - 1];
      match op {
        case Put(s) => InsertKeepsInv(q, s); Insert(q, s)
        case Take(upto) => ExtractionIsSoundIff(q, upto); Extract(q, upto)
      }
  }

  /** All bytes handed on in a session, in order. */
  ghost function Output<B(!new)>(start: int, ops: seq<Op<B>>, f: int -> B): seq<B>
    requires Session(start, ops, f)
    decreases |ops|
  {
    if ops == [] then []
    else
      var q := QueueAfter(start, ops[..|ops| - 1], f);
      var op := ops[|ops| - 1];
      Output(start, ops[..|ops| - 1], f) + Handed(q, op)
  }

  /** The bytes that one operation hands on. */
  function Handed<B>(q: Queue<B>, op: Op<B>): seq<B>
    requires Sorted(q.regions)
  {
    if op.Take? && Taken(q, op.upto).Some? then Taken(q, op.upto).value.data else []
  }

  lemma ExtractKeepsReflects<B(!new)>(q: Queue<B>, upto: int, f: int -> B)
    requires Inv(q) && upto <= q.nxt && Reflects(q.regions, f)
    ensures Reflects(Extract(q, upto).regions, f)
    ensures q.extracted < upto ==> Taken(q, upto).Some? && Taken(q, upto).value.data == Slice(f, q.extracted, upto).data
  {
    ExtractKeepsInv(q, upto);
    if q.extracted < upto {
      FrontEndsAtNxt(q);
      assert Faithful(q.regions[0], f);
      forall i | 0 <= i < |Extract(q, upto).regions|
        ensures Faithful(Extract(q, upto).regions[i], f)
      {
        assert i > 0 ==> Faithful(q.regions[i], f);
        assert upto == q.nxt ==> Faithful(q.regions[i + 1], f);
      }
      assert Taken(q, upto).value.data == Slice(f, q.extracted, upto).data;
    }
  }

  /** What an operation hands on is the stream between the old and the new extraction point. */
  lemma LegalStepKeepsStream<B(!new)>(q: Queue<B>, op: Op<B>, f: int -> B)
    requires Inv(q) && Reflects(q.regions, f) && Legal(q, op, f)
    ensures Reflects(Apply(q, op).regions, f)
    ensures q.start <= q.extracted <= Apply(q, op).extracted && Apply(q, op).start == q.start
    ensures Handed(q, op) == Slice(f, q.extracted, Apply(q, op).extracted).data
  {
    match op
    case Put(s) =>
      MergeKeepsBytes(q.regions, s, f);
    case Take(upto) =>
      ExtractStopsAtNxt(q, upto);
      ExtractKeepsInv(q, Min(upto, q.nxt));
      ExtractKeepsReflects(q, Min(upto, q.nxt), f);
  }

  lemma SliceAppend<B>(f: int -> B, lo: int, mid: int, hi: int)
    requires lo <= mid <= hi
    ensures Slice(f, lo, mid).data + Slice(f, mid, hi).data == Slice(f, lo, hi).data
  {
  }

  /** The last operation of a session, unfolded. */
  lemma SessionStep<B(!new)>(start: int, ops: seq<Op<B>>, f: int -> B)
    requires Session(start, ops, f) && ops != []
    ensures var front, op := ops[..|ops| - 1], ops[|ops| - 1];
            && Session(start, front, f)
            && var q := QueueAfter(start, front, f);
               && Inv(q) && q.start == start && Legal(q, op, f)
               && QueueAfter(start, ops, f) == Apply(q, op)
               && Output(start, ops, f) == Output(start, front, f) + Handed(q, op)
  {
  }

  /** The round trip: whatever the order in which pieces of a stream arrive, repeated or overlapping where that is
      harmless, and however extraction is interleaved, what has been handed on is exactly the stream up to the
      extraction point. */
  lemma {:induction false} StreamArrivesIntact<B(!new)>(start: int, ops: seq<Op<B>>, f: int -> B)
    requires Session(start, ops, f)
    ensures var q := QueueAfter(start, ops, f);
            && q.start == start <= q.extracted
            && Reflects(q.regions, f)
            && Output(start, ops, f) == Slice(f, start, q.extracted).data
    decreases |ops|
  {
    if ops == [] {
      assert Slice(f, start, start).data == [];
    } else {
      var front, op := ops[..|ops| - 1], ops[|ops| - 1];
      SessionStep(start, ops, f);
      StreamArrivesIntact(start, front, f);
      var q := QueueAfter(start, front, f);
      LegalStepKeepsStream(q, op, f);
      SliceAppend(f, start, q.extracted, Apply(q, op).extracted);
    }
  }

  /** The positions of the buffered bytes. */
  function Positions<B>(rs: seq<Region<B>>): set<int> {
    if rs == [] then {} else Positions(rs[..|rs| - 1]) + Range(rs[|rs| - 1].lo, rs[|rs| - 1].hi)
  }

  function TotalLength<B>(rs: seq<Region<B>>): int {
    if rs == [] then 0 else TotalLength(rs[..|rs| - 1]) + rs[|rs| - 1].hi - rs[|rs| - 1].lo
  }

  lemma {:induction false} PositionsAreBytes<B>(rs: seq<Region<B>>, p: int)
    ensures p in Positions(rs) <==> Has(rs, p)
  {
    if rs != [] {
      PositionsAreBytes(rs[..|rs| - 1], p);
      HasLast(rs, p);
    }
  }

  /** The summed lengths count every buffered byte once. */
  lemma {:induction false} LengthCountsBytes<B>(rs: seq<Region<B>>)
    requires Sorted(rs)
    ensures TotalLength(rs) == |Positions(rs)|
    ensures rs != [] ==> TotalLength(rs) <= rs[|rs| - 1].hi - rs[0].lo
  {
    if rs != [] {
      var front, r := rs[..|rs| - 1], rs[|rs| - 1];
      LengthCountsBytes(front);
      RangeSize(r.lo, r.hi);
      forall p | p in Positions(front)
        ensures p !in Range(r.lo, r.hi)
      {
        PositionsAreBytes(front, p);
        var i :| 0 <= i < |front| && front[i].lo <= p < front[i].hi;
        assert rs[i].hi < r.lo;
      }
      assert Positions(front) !! Range(r.lo, r.hi);
    }
  }

  /** getAmountOfBufferedBytes is the number of bytes received and not handed on. */
  lemma BufferedBytesAreTheRest<B>(q: Queue<B>)
    requires Inv(q)
    ensures TotalLength(q.regions) == |set p | p in q.received && q.extracted <= p|
  {
    LengthCountsBytes(q.regions);
    forall p
      ensures p in Positions(q.regions) <==> p in q.received && q.extracted <= p
    {
      PositionsAreBytes(q.regions, p);
    }
    assert Positions(q.regions) == set p | p in q.received && q.extracted <= p;
  }

  /** getLE: the beginning of the first listed region that holds position `p`, or `p` itself. */
  function LeftEdge<B>(rs: seq<Region<B>>, p: int): int {
    if rs == [] then p else if rs[0].lo <= p < rs[0].hi then rs[0].lo else LeftEdge(rs[1..], p)
  }

  /** getRE: the end of the first listed region that holds the byte before `p`, or `p` itself. */
  function RightEdge<B>(rs: seq<Region<B>>, p: int): int {
    if rs == [] then p else if rs[0].lo < p <= rs[0].hi then rs[0].hi else RightEdge(rs[1..], p)
  }

  /** All positions lo, ..., hi-1 are buffered. */
  ghost predicate Run<B>(rs: seq<Region<B>>, lo: int, hi: int) {
    forall x :: lo <= x < hi ==> Has(rs, x)
  }

  lemma RunInRest<B>(rs: seq<Region<B>>, lo: int, hi: int)
    requires rs != [] && (Run(rs[1..], lo, hi) || (rs[0].lo <= lo && hi <= rs[0].hi))
    ensures Run(rs, lo, hi)
  {
    forall x | lo <= x < hi
      ensures Has(rs, x)
    {
      HasRest(rs, x);
    }
  }

  lemma RestIsBehind<B>(rs: seq<Region<B>>, p: int)
    requires Sorted(rs) && rs != [] && Has(rs[1..], p)
    ensures rs[0].hi < p
  {
    var i :| 0 <= i < |rs[1..]| && rs[1..][i].lo <= p < rs[1..][i].hi;
    assert rs[0].hi < rs[i + 1].lo;
  }

  /** The left edge is the start of the longest buffered run that contains the position. */
  lemma {:induction false} LeftEdgeIsMaximal<B>(rs: seq<Region<B>>, p: int)
    requires Sorted(rs)
    ensures var e := LeftEdge(rs, p);
            if Has(rs, p) then e <= p && !Has(rs, e - 1) && Run(rs, e, p + 1) else e == p
  {
    if rs != [] {
      LeftEdgeIsMaximal(rs[1..], p);
      HasRest(rs, p);
      var e := LeftEdge(rs, p);
      if rs[0].lo <= p < rs[0].hi {
        HasFirst(rs, e - 1);
        RunInRest(rs, e, p + 1);
      } else if Has(rs, p) {
        assert Has(rs[1..], e);
        RestIsBehind(rs, e);
        RunInRest(rs, e, p + 1);
        HasRest(rs, e - 1);
      }
    }
  }

  /** The right edge is the end of the longest buffered run that contains the byte before the position. */
  lemma {:induction false} RightEdgeIsMaximal<B>(rs: seq<Region<B>>, p: int)
    requires Sorted(rs)
    ensures var e := RightEdge(rs, p);
            if Has(rs, p - 1) then p <= e && !Has(rs, e) && Run(rs, p - 1, e) else e == p
  {
    if rs != [] {
      RightEdgeIsMaximal(rs[1..], p);
      HasRest(rs, p - 1);
      var e := RightEdge(rs, p);
      if rs[0].lo < p <= rs[0].hi {
        HasFirst(rs, e);
        RunInRest(rs, p - 1, e);
      } else if Has(rs, p - 1) {
        RestIsBehind(rs, p - 1);
        RunInRest(rs, p - 1, e);
        HasRest(rs, e);
      }
    }
  }
}
