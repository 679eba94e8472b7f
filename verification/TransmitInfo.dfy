/** The transmission history: for every byte in the send window, when it was first and last sent and how often. */
module TransmitInfo {
  import opened SeqNum
  import opened Wrappers

  /** What is recorded of a byte: first and last transmission time, and the number of transmissions. */
  datatype Info = Info(first: int, last: int, count: nat)

  /** A run of bytes lo, ..., hi-1 with the same record, on positions. */
  datatype Item = Item(lo: int, hi: int, info: Info)

  /** A byte sent once more. */
  function Resent(i: Info, time: int): Info {
    Info(Min(i.first, time), Max(i.last, time), i.count + 1)
  }

  function Sent(before: Option<Info>, time: int): Info {
    match before
    case None => Info(time, time, 1)
    case Some(i) => Resent(i, time)
  }

  /** Items are non-empty, the first begins at `from`, and each of the others where the one before it ends. */
  predicate Chain(items: seq<Item>, from: int) {
    items == [] || (items[0].lo == from < items[0].hi && Chain(items[1..], items[0].hi))
  }

  /** Where a chain that begins at `from` ends. */
  function End(items: seq<Item>, from: int): int {
    if items == [] then from else End(items[1..], items[0].hi)
  }

  /** The record of the byte at position `p`. */
  function Lookup(items: seq<Item>, p: int): Option<Info> {
    if items == [] || p < items[0].lo then None
    else if p < items[0].hi then Some(items[0].info)
    else Lookup(items[1..], p)
  }

  /** Bytes lo, ..., hi-1 are sent at `time`, in a chain that begins at `lo`. */
  function MarkFrom(items: seq<Item>, lo: int, hi: int, time: int): seq<Item> {
    if items == [] then (if lo < hi then [Item(lo, hi, Info(time, time, 1))] else [])
    else
      var i, rest := items[0], items[1..];
      if i.hi <= hi then [i.(info := Resent(i.info, time))] + MarkFrom(rest, i.hi, hi, time)
      else if lo < hi then [Item(lo, hi, Resent(i.info, time)), i.(lo := hi)] + rest
      else items
  }

  /** set: bytes lo, ..., hi-1 are sent at `time`. */
  function Mark(items: seq<Item>, lo: int, hi: int, time: int): seq<Item> {
    if items == [] then MarkFrom(items, lo, hi, time)
    else
      var i, rest := items[0], items[1..];
      if i.hi <= lo then [i] + Mark(rest, lo, hi, time)
      else if i.lo < lo then [i.(hi := lo)] + MarkFrom([i.(lo := lo)] + rest, lo, hi, time)
      else MarkFrom(items, lo, hi, time)
  }

  /** clearTo: everything before `to` is forgotten. */
  function Clear(items: seq<Item>, to: int): seq<Item> {
    if items == [] then []
    else if items[0].hi <= to then Clear(items[1..], to)
    else if items[0].lo < to then [items[0].(lo := to)] + items[1..]
    else items
  }

  lemma {:induction false} EndIsBehind(items: seq<Item>, from: int)
    requires Chain(items, from)
    ensures from <= End(items, from) && (items != [] ==> from < End(items, from))
  {
    if items != [] {
      EndIsBehind(items[1..], items[0].hi);
    }
  }

  /** A byte has a record exactly if the chain covers it. */
  lemma {:induction false} LookupIsCoverage(items: seq<Item>, from: int, p: int)
    requires Chain(items, from)
    ensures Lookup(items, p).Some? <==> from <= p < End(items, from)
  {
    if items != [] {
      EndIsBehind(items, from);
      EndIsBehind(items[1..], items[0].hi);
      LookupIsCoverage(items[1..], items[0].hi, p);
    }
  }

  lemma {:induction false} MarkFromMeans(items: seq<Item>, lo: int, hi: int, time: int, p: int)
    requires Chain(items, lo) && lo <= hi
    ensures var out := MarkFrom(items, lo, hi, time);
            && Chain(out, lo) && End(out, lo) == Max(End(items, lo), hi)
            && Lookup(out, p) == if lo <= p < hi then Some(Sent(Lookup(items, p), time)) else Lookup(items, p)
  {
    EndIsBehind(items, lo);
    if items != [] {
      var i, rest := items[0], items[1..];
      EndIsBehind(rest, i.hi);
      LookupIsCoverage(rest, i.hi, p);
      if i.hi <= hi {
        MarkFromMeans(rest, i.hi, hi, time, p);
      } else if lo < hi {
        var out := MarkFrom(items, lo, hi, time);
        assert out[1..] == [i.(lo := hi)] + rest && out[1..][1..] == rest;
      }
    }
  }

  /** set keeps the chain and changes the records of exactly the bytes sent: a new byte is recorded as sent once, an old
      one as sent once more. */
  lemma {:induction false} MarkMeans(items: seq<Item>, from: int, lo: int, hi: int, time: int, p: int)
    requires Chain(items, from) && from <= lo <= End(items, from) && lo < hi
    ensures var out := Mark(items, lo, hi, time);
            && Chain(out, from) && End(out, from) == Max(End(items, from), hi)
            && Lookup(out, p) == if lo <= p < hi then Some(Sent(Lookup(items, p), time)) else Lookup(items, p)
  {
    if items == [] {
      MarkFromMeans(items, lo, hi, time, p);
    } else {
      var i, rest := items[0], items[1..];
      EndIsBehind(rest, i.hi);
      if i.hi <= lo {
        MarkMeans(rest, i.hi, lo, hi, time, p);
        LookupIsCoverage(rest, i.hi, p);
      } else if i.lo < lo {
        var later := [i.(lo := lo)] + rest;
        assert later[1..] == rest;
        MarkFromMeans(later, lo, hi, time, p);
        LookupIsCoverage(MarkFrom(later, lo, hi, time), lo, p);
      } else {
        MarkFromMeans(items, lo, hi, time, p);
      }
    }
  }

  /** clearTo forgets exactly the bytes before its argument. */
  lemma {:induction false} ClearMeans(items: seq<Item>, from: int, to: int, p: int)
    requires Chain(items, from)
    ensures var out := Clear(items, to);
            && Chain(out, Max(from, Min(to, End(items, from))))
            && (out != [] ==> End(out, out[0].lo) == End(items, from))
            && Lookup(out, p) == if p < to then None else Lookup(items, p)
  {
    EndIsBehind(items, from);
    if items != [] {
      EndIsBehind(items[1..], items[0].hi);
      LookupIsCoverage(items, from, p);
      if items[0].hi <= to {
        ClearMeans(items[1..], items[0].hi, to, p);
      } else if items[0].lo < to {
        assert Clear(items, to)[1..] == items[1..];
      }
    }
  }

  datatype Op = Set(lo: int, hi: int, time: int) | ClearTo(to: int)

  /** What the list's assertions demand of a call, for a chain that begins at `from`. */
  predicate Legal(items: seq<Item>, op: Op) {
    op.Set? ==> op.lo < op.hi && (items != [] ==> items[0].lo <= op.lo <= End(items, items[0].lo))
  }

  function Apply(items: seq<Item>, op: Op): seq<Item> {
    match op
    case Set(lo, hi, time) => Mark(items, lo, hi, time)
    case ClearTo(to) => Clear(items, to)
  }

  predicate History(ops: seq<Op>)
    decreases |ops|
  {
    ops == [] || (History(ops[..|ops| - 1]) && Legal(Run(ops[..|ops| - 1]), ops[|ops| - 1]))
  }

  function Run(ops: seq<Op>): seq<Item> {
    if ops == [] then [] else Apply(Run(ops[..|ops| - 1]), ops[|ops| - 1])
  }

  /** The times at which byte `p` was sent since it was last cleared. */
  function Times(ops: seq<Op>, p: int): seq<int> {
    if ops == [] then []
    else
      var before, op := Times(ops[..|ops| - 1], p), ops[|ops| - 1];
      match op
      case Set(lo, hi, time) => if lo <= p < hi then before + [time] else before
      case ClearTo(to) => if p < to then [] else before
  }

  /** The record of a byte sent at `times`. */
  function Summary(times: seq<int>): Option<Info> {
    if times == [] then None else Some(Sent(Summary(times[..|times| - 1]), times[|times| - 1]))
  }

  /** A record is the earliest time, the latest time, and the number of transmissions. */
  lemma {:induction false} SummaryMeans(times: seq<int>)
    ensures times == [] ==> Summary(times) == None
    ensures times != [] ==>
              && Summary(times).Some?
              && var i := Summary(times).value;
                 && i.count == |times| && i.first in times && i.last in times
                 && forall k :: 0 <= k < |times| ==> i.first <= times[k] <= i.last
  {
    if times != [] {
      var front, t := times[..|times| - 1], times[|times| - 1];
      SummaryMeans(front);
      assert times == front + [t];
      forall k | 0 <= k < |times|
        ensures Summary(times).value.first <= times[k] <= Summary(times).value.last
      {
        assert k < |front| ==> times[k] == front[k];
      }
    }
  }

  /** After any legal sequence of set and clearTo, the list is contiguous and looking up any byte gives exactly its
      first time, last time and transmit count. */
  lemma {:induction false} HistoryIsExact(ops: seq<Op>, p: int)
    requires History(ops)
    ensures var items := Run(ops);
            && (items != [] ==> Chain(items, items[0].lo))
            && Lookup(items, p) == Summary(Times(ops, p))
  {
    if ops != [] {
      var front, op := ops[..|ops| - 1], ops[|ops| - 1];
      var items := Run(front);
      HistoryIsExact(front, p);
      match op
      case Set(lo, hi, time) =>
        var from := if items == [] then lo else items[0].lo;
        MarkMeans(items, from, lo, hi, time, p);
        if lo <= p < hi {
          var times := Times(ops, p);
          assert times[..|times| - 1] == Times(front, p);
        }
      case ClearTo(to) =>
        ClearMeans(items, if items == [] then 0 else items[0].lo, to, p);
    }
  }

  /** An item as the list stores it. */
  datatype Stored = Stored(beg: uint32, end: uint32, info: Info)

  function Concrete(i: Item): Stored {
    Stored(Wrap(i.lo), Wrap(i.hi), i.info)
  }

  ghost predicate Mirrors(list: seq<Stored>, items: seq<Item>) {
    |list| == |items| && forall i :: 0 <= i < |items| ==> list[i] == Concrete(items[i])
  }

  /** Where item `i` of a chain begins, or the chain ends. */
  function Boundary(items: seq<Item>, from: int, i: nat): int
    requires i <= |items|
  {
    if i < |items| then items[i].lo else End(items, from)
  }

  lemma {:induction false} ChainFrom(items: seq<Item>, from: int, i: nat)
    requires Chain(items, from) && i <= |items|
    ensures Chain(items[i..], Boundary(items, from, i))
    ensures End(items[i..], Boundary(items, from, i)) == End(items, from)
    ensures from <= Boundary(items, from, i) <= End(items, from)
    ensures i < |items| ==> items[i].lo < items[i].hi == Boundary(items, from, i + 1)
  {
    EndIsBehind(items, from);
    if i > 0 {
      ChainFrom(items[1..], items[0].hi, i - 1);
      assert items[1..][i - 1..] == items[i..];
    }
  }

  class RQSegmentTransmitInfoList {
    var regions: seq<Stored>
    /** The same list on positions, and the position at which it begins or began. */
    ghost var items: seq<Item>
    ghost var from: int

    ghost predicate Valid()
      reads this
    {
      && Chain(items, from) && Mirrors(regions, items)
      && End(items, from) - from < HALF
    }

    constructor ()
      ensures Valid() && items == []
    {
      regions, items, from := [], [], 0;
    }

    /** get, for a position within half a turn of the list. */
    method Get(seqNo: uint32, ghost p: int) returns (r: Option<Info>)
      requires Valid() && seqNo == Wrap(p)
      requires Max(End(items, from), p) - Min(from, p) < HALF
      ensures r == Lookup(items, p)
    {
      var i := 0;
      while i < |regions|
        invariant 0 <= i <= |regions|
        invariant Lookup(items, p) == Lookup(items[i..], p)
      {
        ChainFrom(items, from, i);
        ChainFrom(items, from, i + 1);
        CircularOrder(p, items[i].lo);
        CircularOrder(p, items[i].hi);
        var elem := regions[i];
        if SeqLess(seqNo, elem.beg) {
          return None;
        }
        if SeqLE(elem.beg, seqNo) && SeqLess(seqNo, elem.end) {
          return Some(elem.info);
        }
        i := i + 1;
      }
      return None;
    }

    /** clearTo, for a position within half a turn of the list. */
    method ClearUpTo(endseq: uint32, ghost to: int)
      requires Valid() && endseq == Wrap(to)
      requires Max(End(items, from), to) - Min(from, to) < HALF
      modifies this
      ensures Valid() && items == Clear(old(items), to)
      ensures items != [] ==> from == items[0].lo
    {
      while regions != [] && SeqLE(regions[0].end, endseq)
        invariant Valid() && Clear(old(items), to) == Clear(items, to)
        invariant Max(End(items, from), to) - Min(from, to) < HALF
        decreases |regions|
      {
        ChainFrom(items, from, 0);
        ChainFrom(items, from, 1);
        CircularOrder(items[0].hi, to);
        regions := regions[1..];
        from := items[0].hi;
        items := items[1..];
      }
      if regions != [] {
        ChainFrom(items, from, 0);
        ChainFrom(items, from, 1);
        CircularOrder(items[0].hi, to);
        CircularOrder(items[0].lo, to);
        if SeqLess(regions[0].beg, endseq) {
          regions := regions[0 := regions[0].(beg := endseq)];
          items := [items[0].(lo := to)] + items[1..];
          from := to;
        }
      }
    }

    /** set, under its assertion that the bytes sent begin inside the list or right behind it. */
    method Set(beg: uint32, end: uint32, sentTime: int, ghost lo: int, ghost hi: int)
      requires Valid() && beg == Wrap(lo) && end == Wrap(hi) && lo < hi
      requires if items == [] then hi - lo < HALF else from <= lo <= End(items, from) && hi - from < HALF
      modifies this
      ensures Valid() && items == Mark(old(items), lo, hi, sentTime)
      ensures from == if old(items) == [] then lo else old(from)
    {
      if items == [] {
        from := lo;
      }
      MarkMeans(items, from, lo, hi, sentTime, lo);
      ghost var goal := Mark(items, lo, hi, sentTime);
      EndAgrees(regions, items, from);
      CircularOrder(End(items, from), lo);
      if regions == [] || regions[|regions| - 1].end == beg {
        AppendAgrees(items, from, lo, hi, sentTime);
        regions := regions + [Stored(beg, end, Info(sentTime, sentTime, 1))];
      } else {
        MarkInside(beg, end, sentTime, lo, hi);
      }
      items := goal;
    }

    /** The branch of set in which the first byte sent already has a record: split its item if need be, and go on. */
    method MarkInside(beg: uint32, end: uint32, sentTime: int, ghost lo: int, ghost hi: int)
      requires Valid() && beg == Wrap(lo) && end == Wrap(hi) && lo < hi
      requires from <= lo < End(items, from) && hi - from < HALF
      modifies this`regions
      ensures Mirrors(regions, Mark(items, lo, hi, sentTime))
    {
      var i := SkipTo(beg, lo, hi, sentTime);
      ChainFrom(items, from, i);
      MarkAfterSkip(items, from, i, lo, hi, sentTime);
      CircularOrder(items[i].lo, lo);
      var list, k, done, rest := SplitStored(regions, i, beg, items, lo);
      regions := MarkStored(list, k, beg, end, sentTime, done, rest, lo, hi);
    }

    /** The first loop of set: the index of the item that holds the first byte sent. */
    method SkipTo(beg: uint32, ghost lo: int, ghost hi: int, ghost sentTime: int) returns (i: nat)
      requires Valid() && beg == Wrap(lo) && from <= lo < End(items, from)
      ensures i < |regions| && items[i].lo <= lo < items[i].hi
      ensures Mark(items, lo, hi, sentTime) == items[..i] + Mark(items[i..], lo, hi, sentTime)
    {
      i := 0;
      ChainFrom(items, from, 0);
      ChainFrom(items, from, 1);
      CircularOrder(items[0].hi, lo);
      while SeqLE(regions[i].end, beg)
        invariant i < |regions| && Boundary(items, from, i) <= lo
        invariant SeqLE(regions[i].end, beg) <==> items[i].hi <= lo
        invariant Mark(items, lo, hi, sentTime) == items[..i] + Mark(items[i..], lo, hi, sentTime)
        decreases |regions| - i
      {
        SkipStep(items, from, i, lo, hi, sentTime);
        i := i + 1;
      }
    }
  }

  lemma SkipStep(items: seq<Item>, from: int, i: nat, lo: int, hi: int, time: int)
    requires Chain(items, from) && i < |items| && items[i].hi <= lo < End(items, from) && End(items, from) - from < HALF
    ensures i + 1 < |items| && Boundary(items, from, i + 1) <= lo
    ensures SeqLE(Wrap(items[i + 1].hi), Wrap(lo)) <==> items[i + 1].hi <= lo
    ensures items[..i] + Mark(items[i..], lo, hi, time) == items[..i + 1] + Mark(items[i + 1..], lo, hi, time)
  {
    ChainFrom(items, from, i);
    ChainFrom(items, from, i + 1);
    ChainFrom(items, from, i + 2);
    CircularOrder(items[i + 1].hi, lo);
    assert items[..i + 1] == items[..i] + [items[i]];
    assert items[i..][1..] == items[i + 1..];
  }

  /** Splits item `i` at the first byte sent, unless it begins there; `k` is the item that now begins there. */
  method SplitStored(list0: seq<Stored>, i: nat, beg: uint32, ghost items: seq<Item>, ghost lo: int)
    returns (list: seq<Stored>, k: nat, ghost done: seq<Item>, ghost rest: seq<Item>)
    requires Mirrors(list0, items) && i < |items| && beg == Wrap(lo)
    requires Chain(items[i..], items[i].lo) && items[i].lo <= lo < items[i].hi && lo - items[i].lo < HALF
    ensures k <= |list| && Mirrors(list[..k], done) && Mirrors(list[k..], rest)
    ensures Chain(rest, lo) && End(rest, lo) == End(items[i..], items[i].lo)
    ensures if items[i].lo < lo
            then done == items[..i] + [items[i].(hi := lo)] && rest == [items[i].(lo := lo)] + items[i..][1..]
            else done == items[..i] && rest == items[i..]
  {
    CircularOrder(items[i].lo, lo);
    list, k, done, rest := list0, i, items[..i], items[i..];
    if beg != list0[i].beg {
      list := list0[..i] + [list0[i].(end := beg)] + [list0[i].(beg := beg)] + list0[i + 1..];
      k := i + 1;
      done, rest := items[..i] + [items[i].(hi := lo)], [items[i].(lo := lo)] + items[i..][1..];
      assert rest[1..] == items[i..][1..];
    }
  }

  /** The second loop of set and what follows it: from item `k` on, which begins where the bytes sent begin, count one
      more transmission, split the last item if it is only partly sent, or append what is new. */
  method MarkStored(list0: seq<Stored>, k: nat, beg0: uint32, end: uint32, sentTime: int,
                    ghost done0: seq<Item>, ghost rest0: seq<Item>, ghost lo: int, ghost hi: int)
    returns (list: seq<Stored>)
    requires k <= |list0| && Mirrors(list0[..k], done0) && Mirrors(list0[k..], rest0)
    requires Chain(rest0, lo) && lo < hi && beg0 == Wrap(lo) && end == Wrap(hi)
    requires Max(End(rest0, lo), hi) - lo < HALF
    ensures Mirrors(list, done0 + MarkFrom(rest0, lo, hi, sentTime))
  {
    list := list0;
    var i, beg := k, beg0;
    ghost var done, rest, b := done0, rest0, lo;
    WholeItemSent(rest, b, hi);
    while i < |list| && SeqLE(list[i].end, end)
      invariant 0 <= i <= |list| && Mirrors(list[..i], done) && Mirrors(list[i..], rest)
      invariant Chain(rest, b) && lo <= b <= hi && beg == Wrap(b) && Max(End(rest, b), hi) - b < HALF
      invariant rest != [] ==> (SeqLE(Wrap(rest[0].hi), end) <==> rest[0].hi <= hi)
      invariant done + MarkFrom(rest, b, hi, sentTime) == done0 + MarkFrom(rest0, lo, hi, sentTime)
      decreases |list| - i
    {
      assert list[i..][0] == list[i];
      MarkFromStep(done, rest, b, hi, sentTime);
      list, beg, done := Recount(list, i, sentTime, done, rest);
      rest, b := rest[1..], rest[0].hi;
      i := i + 1;
      WholeItemSent(rest, b, hi);
    }
    assert i < |list| ==> list[i..][0] == list[i];
    list := FinishMark(list, i, beg, end, sentTime, done, rest, b, hi);
  }

  lemma MarkFromStep(done: seq<Item>, rest: seq<Item>, from: int, hi: int, time: int)
    requires rest != [] && rest[0].hi <= hi
    ensures done + MarkFrom(rest, from, hi, time) ==
            done + [rest[0].(info := Resent(rest[0].info, time))] + MarkFrom(rest[1..], rest[0].hi, hi, time)
  {
    var later := MarkFrom(rest[1..], rest[0].hi, hi, time);
    var item := rest[0].(info := Resent(rest[0].info, time));
    assert done + ([item] + later) == done + [item] + later;
  }

  lemma WholeItemSent(items: seq<Item>, from: int, hi: int)
    requires Chain(items, from) && from <= hi && Max(End(items, from), hi) - from < HALF
    ensures items != [] ==>
              && (SeqLE(Wrap(items[0].hi), Wrap(hi)) <==> items[0].hi <= hi)
              && Chain(items[1..], items[0].hi) && End(items[1..], items[0].hi) == End(items, from)
              && from < items[0].hi <= End(items, from)
  {
    if items != [] {
      ItemBounds(items, from);
      CircularOrder(items[0].hi, hi);
    }
  }

  /** One round of the second loop: item `i` was sent once more as a whole. */
  method Recount(list0: seq<Stored>, i: nat, sentTime: int, ghost done0: seq<Item>, ghost rest: seq<Item>)
    returns (list: seq<Stored>, beg: uint32, ghost done: seq<Item>)
    requires i < |list0| && Mirrors(list0[..i], done0) && Mirrors(list0[i..], rest)
    ensures |list| == |list0| && Mirrors(list[..i + 1], done) && Mirrors(list[i + 1..], rest[1..])
    ensures beg == Wrap(rest[0].hi)
    ensures done == done0 + [rest[0].(info := Resent(rest[0].info, sentTime))]
  {
    var item := list0[i];
    assert list0[i..][0] == item;
    var info := Info(if item.info.first > sentTime then sentTime else item.info.first,
                     if item.info.last < sentTime then sentTime else item.info.last,
                     item.info.count + 1);
    list := list0[i := item.(info := info)];
    beg := item.end;
    done := done0 + [rest[0].(info := info)];
    assert list[..i + 1] == list0[..i] + [item.(info := info)] && list[i + 1..] == list0[i..][1..];
  }

  /** What follows the second loop: a partly sent item is split, and bytes behind the list are appended. */
  method FinishMark(list0: seq<Stored>, i: nat, beg: uint32, end: uint32, sentTime: int,
                    ghost done: seq<Item>, ghost rest: seq<Item>, ghost b: int, ghost hi: int)
    returns (list: seq<Stored>)
    requires i <= |list0| && Mirrors(list0[..i], done) && Mirrors(list0[i..], rest)
    requires Chain(rest, b) && b <= hi && hi - b < HALF && beg == Wrap(b) && end == Wrap(hi)
    requires rest != [] ==> hi < rest[0].hi
    ensures Mirrors(list, done + MarkFrom(rest, b, hi, sentTime))
  {
    CircularOrder(b, hi);
    list := list0;
    if beg != end {
      if i < |list| {
        var item := list[i];
        assert list[i..][0] == item && beg == item.beg;
        var firstSent, lastSent := Min(item.info.first, sentTime), Max(item.info.last, sentTime);
        list := list[..i] + [Stored(beg, end, Info(firstSent, lastSent, item.info.count + 1))]
                + [item.(beg := end)] + list[i..][1..];
      } else {
        assert list[..i] == list;
        list := list + [Stored(beg, end, Info(sentTime, sentTime, 1))];
      }
    } else {
      assert list == list[..i] + list[i..];
    }
  }

  lemma ItemBounds(items: seq<Item>, from: int)
    requires Chain(items, from) && items != []
    ensures from == items[0].lo < items[0].hi <= End(items, from) == End(items[1..], items[0].hi)
    ensures Chain(items[1..], items[0].hi)
  {
    EndIsBehind(items[1..], items[0].hi);
  }

  /** set, from the item that holds the first byte sent: that item may have to be split. */
  lemma MarkAfterSkip(items: seq<Item>, from: int, i: nat, lo: int, hi: int, time: int)
    requires Chain(items, from) && i < |items| && items[i].lo <= lo < items[i].hi && lo < hi
    ensures var rest := items[i..];
            Mark(rest, lo, hi, time) ==
            if items[i].lo < lo then [rest[0].(hi := lo)] + MarkFrom([rest[0].(lo := lo)] + rest[1..], lo, hi, time)
            else MarkFrom(rest, lo, hi, time)
  {
  }

  /** The stored list ends where the chain does. */
  lemma {:induction false} EndAgrees(list: seq<Stored>, items: seq<Item>, from: int)
    requires Chain(items, from) && Mirrors(list, items)
    ensures items != [] ==> list[|list| - 1].end == Wrap(End(items, from))
  {
    if |items| > 1 {
      EndAgrees(list[1..], items[1..], items[0].hi);
    }
  }

  /** Bytes that begin where the chain ends become an item of their own. */
  lemma {:induction false} AppendAgrees(items: seq<Item>, from: int, lo: int, hi: int, time: int)
    requires Chain(items, from) && lo == End(items, from) && lo < hi
    ensures Mark(items, lo, hi, time) == items + [Item(lo, hi, Info(time, time, 1))]
  {
    if items != [] {
      EndIsBehind(items[1..], items[0].hi);
      AppendAgrees(items[1..], items[0].hi, lo, hi, time);
    }
  }
}
