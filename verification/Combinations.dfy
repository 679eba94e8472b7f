/** The enumeration of all receiver groups of a given size. */
module Combinations {
  import opened Sequences

  /** size_t arithmetic. */
  const SIZE_LIMIT: nat := 0x1_0000_0000_0000_0000
  const INT_LIMIT: nat := 0x8000_0000

  /** Unsigned subtraction of sizes. */
  function SizeMinus(a: nat, b: nat): int {
    if b <= a then a - b else a - b + SIZE_LIMIT
  }

  /** 0, 1, ..., n - 1 */
  function UpTo(n: nat): seq<nat> { seq(n, i => i) }

  function Prefixed(x: seq<nat>, cs: seq<seq<nat>>): (r: seq<seq<nat>>)
    ensures |r| == |cs| && forall i :: 0 <= i < |cs| ==> r[i] == x + cs[i]
  {
    seq(|cs|, i requires 0 <= i < |cs| => x + cs[i])
  }

  function Reversed<T>(s: seq<T>): (r: seq<T>)
    ensures |r| == |s| && forall i :: 0 <= i < |s| ==> r[i] == s[|s| - 1 - i]
  {
    seq(|s|, i requires 0 <= i < |s| => s[|s| - 1 - i])
  }

  /** The k-element combinations of offset, ..., n - 1. */
  function Combos(offset: nat, n: nat, k: nat): seq<seq<nat>>
    decreases n + 1 - offset, k
  {
    if k == 0 then [[]]
    else if offset + k > n then []
    else Prefixed([offset], Combos(offset + 1, n, k - 1)) + Combos(offset + 1, n, k)
  }

  class CentralScheduler {
    var tempNode: seq<nat>
    var tempCombination: seq<nat>
    var combinations: seq<seq<nat>>

    constructor ()
      ensures tempNode == [] && tempCombination == [] && combinations == []
    {
      tempNode, tempCombination, combinations := [], [], [];
    }

    /** Adds all combinations in front of the list, the last one foremost, and leaves the working combination as it was.
        The loop bound is computed in size_t, and does not wrap as long as there are k numbers at all. */
    method NChooseK(offset: nat, n: nat, k: nat, r: bool)
      requires k <= n < INT_LIMIT
      requires tempNode == if r then UpTo(n) else []
      modifies this
      ensures tempNode == UpTo(n) && tempCombination == old(tempCombination)
      ensures combinations == Reversed(Prefixed(tempCombination, Combos(offset, n, k))) + old(combinations)
      decreases k, 2
    {
      if r == false {
        FillTempNode(n);
      }
      if k == 0 {
        combinations := [tempCombination] + combinations;
        JustOne(tempCombination);
        return;
      }
      ChooseAll(offset, n, k);
    }

    /** The loop: the first chosen number runs up to the bound. */
    method ChooseAll(offset: nat, n: nat, k: nat)
      requires 0 < k <= n < INT_LIMIT && tempNode == UpTo(n)
      modifies this
      ensures tempNode == UpTo(n) && tempCombination == old(tempCombination)
      ensures combinations == Reversed(Prefixed(tempCombination, Combos(offset, n, k))) + old(combinations)
      decreases k, 1
    {
      var i := offset;
      ghost var done: seq<seq<nat>> := [];
      ghost var temp, before := tempCombination, combinations;
      while i <= SizeMinus(|tempNode|, k)
        invariant offset <= i && (i <= n - k + 1 || i == offset)
        invariant tempNode == UpTo(n) && tempCombination == temp
        invariant done + Combos(i, n, k) == Combos(offset, n, k)
        invariant combinations == Reversed(Prefixed(temp, done)) + before
        decreases n - i
      {
        ChooseFrom(i, n, k);
        PushedInFront(temp, i, done, Combos(i + 1, n, k - 1), before);
        Moved(done, i, n, k);
        done := done + Prefixed([i], Combos(i + 1, n, k - 1));
        i := i + 1;
      }
      assert Combos(i, n, k) == [];
      assert done == Combos(offset, n, k);
    }

    /** The body of the loop: the combinations that continue the working one with `i`. */
    method ChooseFrom(i: nat, n: nat, k: nat)
      requires 0 < k && i + k <= n < INT_LIMIT && tempNode == UpTo(n)
      modifies this
      ensures tempNode == UpTo(n) && tempCombination == old(tempCombination)
      ensures combinations == Reversed(Prefixed(tempCombination + [i], Combos(i + 1, n, k - 1))) + old(combinations)
      decreases k, 0
    {
      tempCombination := tempCombination + [tempNode[i]];
      NChooseK(i + 1, n, k - 1, true);
      tempCombination := tempCombination[..|tempCombination| - 1];
    }

    method FillTempNode(n: nat)
      requires tempNode == []
      modifies this`tempNode
      ensures tempNode == UpTo(n)
    {
      for i := 0 to n
        invariant tempNode == UpTo(i)
      {
        tempNode := tempNode + [i];
      }
    }
  }

  lemma JustOne(temp: seq<nat>)
    ensures Reversed(Prefixed(temp, [[]])) == [temp]
  {
    assert temp + [] == temp;
  }

  lemma Moved(done: seq<seq<nat>>, i: nat, n: nat, k: nat)
    requires 0 < k && i + k <= n
    ensures done + Prefixed([i], Combos(i + 1, n, k - 1)) + Combos(i + 1, n, k) == done + Combos(i, n, k)
  {
    Regroup(done, Prefixed([i], Combos(i + 1, n, k - 1)), Combos(i + 1, n, k));
  }

  lemma PrefixedTwice(temp: seq<nat>, i: nat, more: seq<seq<nat>>)
    ensures Prefixed(temp, Prefixed([i], more)) == Prefixed(temp + [i], more)
  {
    forall j | 0 <= j < |more|
      ensures temp + [i] + more[j] == temp + ([i] + more[j])
    {
    }
  }

  lemma PrefixedAppend(temp: seq<nat>, a: seq<seq<nat>>, b: seq<seq<nat>>)
    ensures Prefixed(temp, a + b) == Prefixed(temp, a) + Prefixed(temp, b)
  {
  }

  lemma ReversedAppend<T>(a: seq<T>, b: seq<T>)
    ensures Reversed(a + b) == Reversed(b) + Reversed(a)
  {
  }

  lemma PushedInFront(temp: seq<nat>, i: nat, done: seq<seq<nat>>, more: seq<seq<nat>>, before: seq<seq<nat>>)
    ensures Reversed(Prefixed(temp + [i], more)) + (Reversed(Prefixed(temp, done)) + before) ==
            Reversed(Prefixed(temp, done + Prefixed([i], more))) + before
  {
    PrefixedTwice(temp, i, more);
    PrefixedAppend(temp, done, Prefixed([i], more));
    ReversedAppend(Prefixed(temp, done), Prefixed(temp + [i], more));
    Regroup(Reversed(Prefixed(temp + [i], more)), Reversed(Prefixed(temp, done)), before);
  }

  ghost predicate StrictlyIncreasing(c: seq<nat>) {
    forall i, j :: 0 <= i < j < |c| ==> c[i] < c[j]
  }

  ghost predicate IsCombination(c: seq<nat>, offset: nat, n: nat, k: nat) {
    |c| == k && StrictlyIncreasing(c) && forall i :: 0 <= i < |c| ==> offset <= c[i] < n
  }

  /** The enumeration holds exactly the strictly increasing sequences of length k. */
  lemma {:induction false} CombosAreAll(offset: nat, n: nat, k: nat, c: seq<nat>)
    ensures c in Combos(offset, n, k) <==> IsCombination(c, offset, n, k)
    decreases n + 1 - offset, k
  {
    if k == 0 {
    } else if offset + k > n {
      if IsCombination(c, offset, n, k) {
        SpreadsOut(c, offset, n, k);
      }
    } else {
      CombosSplit(offset, n, k, c);
      CombosAreAll(offset + 1, n, k, c);
      if c != [] {
        CombosAreAll(offset + 1, n, k - 1, c[1..]);
        if c[0] == offset {
          SplitCombination(c, offset, n, k);
        }
      }
    }
  }

  lemma CombosSplit(offset: nat, n: nat, k: nat, c: seq<nat>)
    requires 0 < k && offset + k <= n
    ensures c in Combos(offset, n, k) <==>
              (c != [] && c[0] == offset && c[1..] in Combos(offset + 1, n, k - 1)) || c in Combos(offset + 1, n, k)
  {
    PrefixedMeans(offset, Combos(offset + 1, n, k - 1), c);
  }

  lemma PrefixedMeans(x: nat, cs: seq<seq<nat>>, c: seq<nat>)
    ensures c in Prefixed([x], cs) <==> c != [] && c[0] == x && c[1..] in cs
  {
    var p := Prefixed([x], cs);
    if c in p {
      var i :| 0 <= i < |p| && p[i] == c;
      assert c == [x] + cs[i];
      assert c[1..] == cs[i];
    }
    if c != [] && c[0] == x && c[1..] in cs {
      var i :| 0 <= i < |cs| && cs[i] == c[1..];
      assert c == [x] + c[1..];
      assert p[i] == c;
    }
  }

  lemma SplitCombination(c: seq<nat>, offset: nat, n: nat, k: nat)
    requires c != [] && c[0] == offset && k > 0 && offset < n
    ensures IsCombination(c, offset, n, k) <==> IsCombination(c[1..], offset + 1, n, k - 1)
  {
    if IsCombination(c, offset, n, k) {
      assert forall i :: 0 <= i < |c[1..]| ==> c[1..][i] == c[i + 1] && c[0] < c[i + 1];
    }
    if IsCombination(c[1..], offset + 1, n, k - 1) {
      assert forall i :: 1 <= i < |c| ==> c[i] == c[1..][i - 1];
    }
  }

  /** k increasing numbers need room for k. */
  lemma {:induction false} SpreadsOut(c: seq<nat>, offset: nat, n: nat, k: nat)
    requires IsCombination(c, offset, n, k)
    ensures k > 0 ==> c[k - 1] >= offset + k - 1 && offset + k <= n
  {
    if k > 1 {
      SpreadsOut(c[..k - 1], offset, n, k - 1);
    }
  }

  /** `a` comes before `b` in the dictionary order of sequences of the same length. */
  predicate LexLess(a: seq<nat>, b: seq<nat>) {
    a != [] && b != [] && (a[0] < b[0] || (a[0] == b[0] && LexLess(a[1..], b[1..])))
  }

  lemma {:induction false} LexLessIsStrict(a: seq<nat>)
    ensures !LexLess(a, a)
  {
    if a != [] {
      LexLessIsStrict(a[1..]);
    }
  }

  ghost predicate Ordered(cs: seq<seq<nat>>) {
    forall i, j :: 0 <= i < j < |cs| ==> LexLess(cs[i], cs[j])
  }

  /** The enumeration is in strict dictionary order, so the list built from the front is in the reverse order, and no
      combination comes twice. */
  lemma {:induction false} CombosAreOrdered(offset: nat, n: nat, k: nat)
    ensures Ordered(Combos(offset, n, k))
    decreases n + 1 - offset, k
  {
    if 0 < k && offset + k <= n {
      var first, rest := Combos(offset + 1, n, k - 1), Combos(offset + 1, n, k);
      CombosAreOrdered(offset + 1, n, k - 1);
      CombosAreOrdered(offset + 1, n, k);
      var cs, p := Combos(offset, n, k), Prefixed([offset], first);
      assert cs == p + rest;
      forall i, j | 0 <= i < j < |cs|
        ensures LexLess(cs[i], cs[j])
      {
        if j < |p| {
          assert LexLess(first[i], first[j]);
          LexLessCons(offset, first[i], first[j]);
        } else if i < |p| {
          assert rest[j - |p|] in rest;
          CombosAreAll(offset + 1, n, k, rest[j - |p|]);
          assert p[i] == [offset] + first[i];
        } else {
          assert LexLess(rest[i - |p|], rest[j - |p|]);
        }
      }
    }
  }

  lemma LexLessCons(x: nat, a: seq<nat>, b: seq<nat>)
    requires LexLess(a, b)
    ensures LexLess([x] + a, [x] + b)
  {
    assert ([x] + a)[1..] == a && ([x] + b)[1..] == b;
  }

  function Factorial(n: nat): (f: nat)
    ensures f > 0
  {
    if n == 0 then 1 else n * Factorial(n - 1)
  }

  /** There are n! / (k! (n - k)!) combinations. */
  lemma {:induction false} CombosCount(offset: nat, n: nat, k: nat)
    requires offset + k <= n
    ensures |Combos(offset, n, k)| * (Factorial(k) * Factorial(n - offset - k)) == Factorial(n - offset)
    decreases n + 1 - offset, k
  {
    if k == 0 {
    } else {
      var m := n - offset;
      var a, b := |Combos(offset + 1, n, k - 1)|, |Combos(offset + 1, n, k)|;
      CombosCount(offset + 1, n, k - 1);
      if k < m {
        CombosCount(offset + 1, n, k);
        CountStep(a, b, k, m - k, Factorial(k - 1), Factorial(m - k - 1), Factorial(m - 1));
      } else {
        assert b == 0;
        assert a * (Factorial(k - 1) * 1) == Factorial(m - 1);
        Scale(a, Factorial(k - 1), k, Factorial(m - 1));
      }
    }
  }

  lemma Scale(a: nat, f: nat, k: nat, g: nat)
    requires a * (f * 1) == g
    ensures a * (k * f * 1) == k * g
  {
    assert a * (k * f) == k * (a * f);
  }

  /** Pascal's rule, multiplied out: `a` and `b` count the combinations with and without the first element. */
  lemma CountStep(a: nat, b: nat, k: nat, l: nat, f: nat, g: nat, h: nat)
    requires a * (f * (l * g)) == h && b * ((k * f) * g) == h
    ensures (a + b) * ((k * f) * (l * g)) == (k + l) * h
  {
    calc {
      (a + b) * ((k * f) * (l * g));
      a * ((k * f) * (l * g)) + b * ((k * f) * (l * g));
      {
        assert a * ((k * f) * (l * g)) == k * (a * (f * (l * g)));
        assert b * ((k * f) * (l * g)) == l * (b * ((k * f) * g));
      }
      k * h + l * h;
      (k + l) * h;
    }
  }

  lemma EmptyPrefix(cs: seq<seq<nat>>)
    ensures Prefixed([], cs) == cs
  {
    forall i | 0 <= i < |cs|
      ensures [] + cs[i] == cs[i]
    {
    }
  }

  lemma ReversedMembers(cs: seq<seq<nat>>, c: seq<nat>)
    ensures c in Reversed(cs) <==> c in cs
  {
    if c in cs {
      var i :| 0 <= i < |cs| && cs[i] == c;
      assert Reversed(cs)[|cs| - 1 - i] == c;
    }
  }

  lemma ReversedOrder(cs: seq<seq<nat>>, i: nat, j: nat)
    requires Ordered(cs) && i < j < |cs|
    ensures var r := Reversed(cs); LexLess(r[j], r[i]) && r[i] != r[j]
  {
    var r := Reversed(cs);
    assert r[i] == cs[|cs| - 1 - i] && r[j] == cs[|cs| - 1 - j];
    LexLessIsStrict(r[i]);
  }

  /** What a call from the fresh state leaves in the list: every k-element combination of 0, ..., n - 1, none twice, in
      reverse dictionary order, n! / (k! (n - k)!) of them. */
  lemma EveryGroupOnce(n: nat, k: nat, groups: seq<seq<nat>>)
    requires k <= n && groups == Reversed(Prefixed([], Combos(0, n, k)))
    ensures forall c :: c in groups <==> IsCombination(c, 0, n, k)
    ensures forall i, j :: 0 <= i < j < |groups| ==> LexLess(groups[j], groups[i]) && groups[i] != groups[j]
    ensures |groups| * (Factorial(k) * Factorial(n - k)) == Factorial(n)
  {
    var cs := Combos(0, n, k);
    EmptyPrefix(cs);
    forall c
      ensures c in groups <==> IsCombination(c, 0, n, k)
    {
      CombosAreAll(0, n, k, c);
      ReversedMembers(cs, c);
    }
    CombosAreOrdered(0, n, k);
    forall i, j | 0 <= i < j < |groups|
      ensures LexLess(groups[j], groups[i]) && groups[i] != groups[j]
    {
      ReversedOrder(cs, i, j);
    }
    CombosCount(0, n, k);
  }
}
