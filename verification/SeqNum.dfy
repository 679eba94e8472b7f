/** 32-bit sequence numbers and their circular comparisons.

  A position is an unbounded integer; `Wrap` maps it to the sequence number that stands for it.
  Every queue of this project is proved on positions and executed on sequence numbers.
 */
module SeqNum {

  const LIMIT: int := 0x1_0000_0000
  const HALF: int := 0x8000_0000

  type uint32 = x: int | 0 <= x < LIMIT

  function Wrap(p: int): uint32 {
    p % LIMIT
  }

  lemma WrapSmall(p: uint32)
    ensures Wrap(p) == p
  {
  }

  /** Unsigned 32-bit subtraction. */
  function Sub(a: uint32, b: uint32): uint32 {
    if a >= b then a - b else a - b + LIMIT
  }

  /** Unsigned 32-bit addition. */
  function Add(a: uint32, b: uint32): uint32 {
    if a + b < LIMIT then a + b else a + b - LIMIT
  }

  predicate SeqLess(a: uint32, b: uint32) {
    a != b && Sub(b, a) < HALF
  }

  predicate SeqLE(a: uint32, b: uint32) {
    Sub(b, a) < HALF
  }

  predicate SeqGreater(a: uint32, b: uint32) {
    a != b && Sub(a, b) < HALF
  }

  predicate SeqGE(a: uint32, b: uint32) {
    Sub(a, b) < HALF
  }

  function SeqMin(a: uint32, b: uint32): uint32 {
    if Sub(b, a) < HALF then a else b
  }

  function SeqMax(a: uint32, b: uint32): uint32 {
    if Sub(a, b) < HALF then a else b
  }

  function Min(a: int, b: int): int {
    if a <= b then a else b
  }

  function Max(a: int, b: int): int {
    if a <= b then b else a
  }

  /** The largest of some counter values, 0 if there are none. */
  function Largest(ks: seq<nat>): (m: nat)
    ensures forall i :: 0 <= i < |ks| ==> ks[i] <= m
    ensures m == 0 || m in ks
  {
    if ks == [] then 0
    else
      var m := Largest(ks[..|ks| - 1]);
      var r := ks[|ks| - 1];
      if r > m then r else m
  }

  /** The positions lo, ..., hi-1. */
  function Range(lo: int, hi: int): (s: set<int>)
    ensures forall p :: p in s <==> lo <= p < hi
    decreases hi - lo
  {
    if hi <= lo then {} else Range(lo, hi - 1) + {hi - 1}
  }

  lemma {:induction false} RangeSize(lo: int, hi: int)
    requires lo <= hi
    ensures |Range(lo, hi)| == hi - lo
    decreases hi - lo
  {
    if lo < hi {
      RangeSize(lo, hi - 1);
    }
  }

  /** Modular subtraction and addition follow the positions. */
  lemma WrapArithmetic(p: int, d: int)
    requires -LIMIT < d < LIMIT
    ensures Wrap(p + d) == if d >= 0 then Add(Wrap(p), d) else Add(Wrap(p), d + LIMIT)
    ensures Sub(Wrap(p + d), Wrap(p)) == if d >= 0 then d else d + LIMIT
  {
    var q, r := p / LIMIT, p % LIMIT;
    assert p == q * LIMIT + r;
    var s := r + d;
    if s < 0 {
      assert p + d == (q - 1) * LIMIT + (s + LIMIT);
    } else if s < LIMIT {
      assert p + d == q * LIMIT + s;
    } else {
      assert p + d == (q + 1) * LIMIT + (s - LIMIT);
    }
  }

  /** Reducing before an addition changes nothing. */
  lemma WrapAdds(p: int, d: int)
    ensures Wrap(Wrap(p) + d) == Wrap(p + d)
  {
    var x := Wrap(p) + d;
    assert p + d == (p / LIMIT + x / LIMIT) * LIMIT + x % LIMIT;
  }

  /** The distance of two positions, on sequence numbers. */
  lemma WrapGap(p: int, q: int)
    ensures Sub(Wrap(p), Wrap(q)) == Wrap(p - q)
    ensures SeqLess(Wrap(p), Wrap(q)) <==> Wrap(p - q) > HALF
  {
    var d := Wrap(p) - Wrap(q);
    assert p - q == (p / LIMIT - q / LIMIT) * LIMIT + d;
    if d < 0 {
      assert p - q == (p / LIMIT - q / LIMIT - 1) * LIMIT + (d + LIMIT);
    }
  }

  /** Two positions closer than 2^31 compare as their sequence numbers do. */
  lemma CircularOrder(p: int, q: int)
    requires -HALF < q - p < HALF
    ensures SeqLess(Wrap(p), Wrap(q)) <==> p < q
    ensures SeqLE(Wrap(p), Wrap(q)) <==> p <= q
    ensures SeqGreater(Wrap(p), Wrap(q)) <==> p > q
    ensures SeqGE(Wrap(p), Wrap(q)) <==> p >= q
    ensures SeqMin(Wrap(p), Wrap(q)) == Wrap(Min(p, q))
    ensures SeqMax(Wrap(p), Wrap(q)) == Wrap(Max(p, q))
    ensures Wrap(p) == Wrap(q) <==> p == q
    ensures p <= q ==> Sub(Wrap(q), Wrap(p)) == q - p
  {
    WrapArithmetic(p, q - p);
    WrapArithmetic(q, p - q);
  }

  /** The positions of a range of bytes held in a buffer of less than half a turn, and their order. */
  lemma HeldRange(first: int, last: int, fromSeq: uint32, numBytes: uint32)
    requires first <= last < first + HALF && Sub(fromSeq, Wrap(first)) + numBytes <= last - first
    ensures var lo := first + Sub(fromSeq, Wrap(first));
            && fromSeq == Wrap(lo) && Add(fromSeq, numBytes) == Wrap(lo + numBytes)
            && SeqLE(Wrap(first), fromSeq) && SeqLE(Add(fromSeq, numBytes), Wrap(last))
  {
    var lo := first + Sub(fromSeq, Wrap(first));
    WrapArithmetic(first, lo - first);
    CircularOrder(first, lo);
    WrapArithmetic(lo, numBytes);
    CircularOrder(lo + numBytes, last);
  }

  /** Inside one turn of the number circle, `SeqLE` is the order of the positions exactly when they are closer
      than half a turn; a turn apart in either direction it is not. */
  lemma CircularOrderIsTight(p: int, q: int)
    requires -LIMIT < q - p < LIMIT
    ensures (SeqLE(Wrap(p), Wrap(q)) <==> p <= q) <==> -HALF <= q - p < HALF
  {
    WrapArithmetic(p, q - p);
  }

  /** The result of an unsigned 32-bit subtraction stored in a signed 32-bit variable: the difference, for counters
      below half a turn. */
  function SignedGap(a: nat, b: nat): (gap: int)
    ensures a < HALF && b < HALF ==> gap == a - b
  {
    var d := Sub(Wrap(a), Wrap(b));
    if d < HALF then d else d - LIMIT
  }
}
