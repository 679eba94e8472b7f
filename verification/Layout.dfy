/** Where the servers of a fat tree are, and who sends to whom. */
module Layout {
  import opened Multicast

  /** The place of server `index` in a fat tree of 2h-port switches: h servers to a rack, h racks to a pod. */
  function Locate(h: nat, index: nat): Place
    requires h > 0
  {
    Place(index / (h * h), index % (h * h) / h, index % h)
  }

  function IndexOf(h: nat, p: Place): nat {
    p.pod * (h * h) + p.rack * h + p.node
  }

  predicate InTree(h: nat, p: Place) {
    p.pod < 2 * h && p.rack < h && p.node < h
  }

  lemma Division(a: nat, d: nat, q: nat, r: nat)
    requires r < d && a == q * d + r
    ensures a / d == q && a % d == r
  {
    if a / d < q {
      Less(a / d + 1, q, d);
    } else if a / d > q {
      Less(q + 1, a / d, d);
    }
  }

  lemma Less(x: nat, y: nat, d: nat)
    requires x <= y
    ensures x * d <= y * d
  {
  }

  /** Server numbers 0, ..., 2h^3 - 1 and the places of the tree correspond one to one. */
  lemma {:induction false} LocationIsBijective(h: nat, index: nat, p: Place)
    requires h > 0
    ensures index < 2 * h * (h * h) ==> InTree(h, Locate(h, index)) && IndexOf(h, Locate(h, index)) == index
    ensures InTree(h, p) ==> IndexOf(h, p) < 2 * h * (h * h) && Locate(h, IndexOf(h, p)) == p
  {
    if index < 2 * h * (h * h) {
      IndexRoundTrip(h, index);
    }
    if InTree(h, p) {
      PlaceRoundTrip(h, p);
    }
  }

  lemma QuotientBelow(a: nat, n: nat, d: nat)
    requires d > 0 && a < n * d
    ensures a / d < n
  {
    if a / d >= n {
      Less(n, a / d, d);
    }
  }

  lemma Square(h: nat)
    requires h > 0
    ensures h * h > 0
  {
  }

  /** The place within the rack is the same whether or not the pod is divided off first. */
  lemma NodeInRack(h: nat, d: nat, pod: nat, rack: nat, node: nat)
    requires node < h && d == h * h
    ensures (pod * d + rack * h + node) % h == node
  {
    assert pod * d == (pod * h) * h;
    assert pod * d + rack * h == (pod * h + rack) * h;
    Division(pod * d + rack * h + node, h, pod * h + rack, node);
  }

  lemma {:induction false} IndexRoundTrip(h: nat, index: nat)
    requires h > 0 && index < 2 * h * (h * h)
    ensures InTree(h, Locate(h, index)) && IndexOf(h, Locate(h, index)) == index
  {
    var d := h * h;
    Square(h);
    QuotientBelow(index, 2 * h, d);
    QuotientBelow(index % d, h, h);
    var pod, rack, node := index / d, index % d / h, index % d % h;
    assert index == pod * d + rack * h + node;
    NodeInRack(h, d, pod, rack, node);
  }

  lemma TwoDigits(high: nat, low: nat, n: nat, d: nat)
    requires high < n && low < d
    ensures high * d + low < n * d && (high * d + low) / d == high && (high * d + low) % d == low
  {
    Less(high + 1, n, d);
    assert (high + 1) * d == high * d + d;
    Division(high * d + low, d, high, low);
  }

  lemma {:induction false} PlaceRoundTrip(h: nat, p: Place)
    requires h > 0 && InTree(h, p)
    ensures IndexOf(h, p) < 2 * h * (h * h) && Locate(h, IndexOf(h, p)) == p
  {
    var d := h * h;
    Square(h);
    TwoDigits(p.rack, p.node, h, h);
    TwoDigits(p.pod, p.rack * h + p.node, 2 * h, d);
    NodeInRack(h, d, p.pod, p.rack, p.node);
  }

  /** Pod by pod, and in each pod rack by rack. */
  predicate Before(p: Place, q: Place) {
    p.pod < q.pod || (p.pod == q.pod && (p.rack < q.rack || (p.rack == q.rack && p.node < q.node)))
  }

  lemma HigherDigitWins(high: nat, low: nat, high': nat, low': nat, d: nat)
    requires high < high' && low < d
    ensures high * d + low < high' * d + low'
  {
    Less(high + 1, high', d);
    assert (high + 1) * d == high * d + d;
  }

  lemma BeforeIsLess(h: nat, p: Place, q: Place)
    requires h > 0 && InTree(h, p) && InTree(h, q) && Before(p, q)
    ensures IndexOf(h, p) < IndexOf(h, q)
  {
    if p.pod < q.pod {
      TwoDigits(p.rack, p.node, h, h);
      HigherDigitWins(p.pod, p.rack * h + p.node, q.pod, q.rack * h + q.node, h * h);
    } else if p.rack < q.rack {
      HigherDigitWins(p.rack, p.node, q.rack, q.node, h);
    }
  }

  /** Servers are numbered through, rack by rack and pod by pod. */
  lemma LocationKeepsOrder(h: nat, i: nat, j: nat)
    requires h > 0 && i < 2 * h * (h * h) && j < 2 * h * (h * h)
    ensures i < j <==> Before(Locate(h, i), Locate(h, j))
  {
    IndexRoundTrip(h, i);
    IndexRoundTrip(h, j);
    if Before(Locate(h, i), Locate(h, j)) {
      BeforeIsLess(h, Locate(h, i), Locate(h, j));
    } else if Before(Locate(h, j), Locate(h, i)) {
      BeforeIsLess(h, Locate(h, j), Locate(h, i));
    }
  }

  function Places(h: nat, indices: seq<nat>): seq<Place>
    requires h > 0
  {
    seq(|indices|, i requires 0 <= i < |indices| => Locate(h, indices[i]))
  }

  /** Different servers are at different places, so a group of servers is a group of places without duplicates. */
  lemma {:induction false} GroupsHaveDistinctPlaces(h: nat, indices: seq<nat>)
    requires h > 0 && NoDuplicates(indices) && forall i :: 0 <= i < |indices| ==> indices[i] < 2 * h * (h * h)
    ensures NoDuplicates(Places(h, indices))
  {
    var places := Places(h, indices);
    forall i, j | 0 <= i < j < |places|
      ensures places[i] != places[j]
    {
      IndexRoundTrip(h, indices[i]);
      IndexRoundTrip(h, indices[j]);
    }
  }

  // ---------------------------------------------------------------- the traffic matrix

  /** The sender of each server of a half, if every server sends to the next one and the last to the first. */
  ghost predicate IsRing(m: map<nat, nat>, half: seq<nat>) {
    && (forall x :: x in m <==> x in half)
    && forall i :: 0 <= i < |half| ==> half[Succ(i, |half|)] in m && m[half[Succ(i, |half|)]] == half[i]
  }

  function Succ(i: nat, n: nat): nat
    requires i < n
    ensures Succ(i, n) < n
  {
    if i + 1 == n then 0 else i + 1
  }

  /** `steps` times from a destination back to its source. */
  function Back(m: map<nat, nat>, x: nat, steps: nat): nat
    decreases steps
  {
    if steps == 0 then x else if x in m then Back(m, m[x], steps - 1) else x
  }

  /** Following a ring backwards from position `i` visits the positions one by one. */
  lemma {:induction false} BackAlongRing(m: map<nat, nat>, half: seq<nat>, i: nat, steps: nat)
    requires IsRing(m, half) && i < |half| && steps <= |half|
    ensures Back(m, half[i], steps) == half[if steps <= i then i - steps else i - steps + |half|]
    decreases steps
  {
    if steps > 0 {
      var prev := if i == 0 then |half| - 1 else i - 1;
      assert Succ(prev, |half|) == i;
      if steps - 1 <= prev || i > 0 || steps - 1 < |half| {
        BackAlongRing(m, half, prev, steps - 1);
      }
    }
  }

  /** The flows of a half form one cycle: it takes exactly all servers of the half to come back. Nobody sends to himself
      exactly if the half does not consist of one server. */
  lemma RingIsOneCycle(m: map<nat, nat>, half: seq<nat>, i: nat, steps: nat)
    requires IsRing(m, half) && NoDuplicates(half) && i < |half| && 0 < steps <= |half|
    ensures Back(m, half[i], steps) == half[i] <==> steps == |half|
    ensures m[half[i]] == half[i] <==> |half| == 1
  {
    BackAlongRing(m, half, i, steps);
    BackAlongRing(m, half, i, 1);
    assert Back(m, half[i], 1) == Back(m, m[half[i]], 0);
  }

  class CentralScheduler {
    var permServers: seq<nat>
    var permLongFlowsServers: seq<nat>
    var permShortFlowsServers: seq<nat>
    var permMapLongFlows: map<nat, nat>
    var permMapShortFlows: map<nat, nat>

    constructor (permServers: seq<nat>)
      ensures this.permServers == permServers && permLongFlowsServers == permShortFlowsServers == []
      ensures permMapLongFlows == permMapShortFlows == map[]
    {
      this.permServers := permServers;
      permLongFlowsServers, permShortFlowsServers, permMapLongFlows, permMapShortFlows := [], [], map[], map[];
    }

    /** The loop of generateTM, for any order of the servers. */
    method GenerateTM(numlongflowsRunningServers: nat)
      requires NoDuplicates(permServers) && numlongflowsRunningServers <= |permServers|
      requires permLongFlowsServers == permShortFlowsServers == [] && permMapLongFlows == permMapShortFlows == map[]
      modifies this
      ensures permServers == old(permServers)
      ensures permLongFlowsServers == permServers[..numlongflowsRunningServers]
      ensures permShortFlowsServers == permServers[numlongflowsRunningServers..]
      ensures IsRing(permMapLongFlows, permLongFlowsServers) && IsRing(permMapShortFlows, permShortFlowsServers)
    {
      var long := numlongflowsRunningServers;
      for i := 0 to |permServers|
        invariant permServers == old(permServers)
        invariant if i <= long then Progress(i, 0, long) else Progress(long, i - long, long)
      {
        if i < long {
          AssignLong(i, long);
        } else {
          AssignShort(i - long, long);
        }
      }
      WholeRing(permMapLongFlows, permServers[..long]);
      WholeRing(permMapShortFlows, permServers[long..]);
    }

    /** `a` of the first `long` servers and `b` of the others are assigned. */
    ghost predicate Progress(a: nat, b: nat, long: nat)
      requires a <= long <= |permServers| && b <= |permServers| - long
      reads this
    {
      && permLongFlowsServers == permServers[..a]
      && permShortFlowsServers == permServers[long..long + b]
      && IsPartOfRing(permMapLongFlows, permServers[..long], a)
      && IsPartOfRing(permMapShortFlows, permServers[long..], b)
    }

    /** One of the first `long` servers joins its half and sends to the next one of it. */
    method AssignLong(i: nat, long: nat)
      requires NoDuplicates(permServers) && i < long <= |permServers| && Progress(i, 0, long)
      modifies this`permLongFlowsServers, this`permMapLongFlows
      ensures Progress(i + 1, 0, long)
    {
      permLongFlowsServers := permLongFlowsServers + [permServers[i]];
      ghost var half := permServers[..long];
      assert half[i] == permServers[i] && half[Succ(i, long)] == permServers[Succ(i, long)];
      AddToRing(permMapLongFlows, half, i);
      NextIsSucc(i, long);
      permMapLongFlows := permMapLongFlows[permServers[(i + 1) % long] := permServers[i]];
    }

    /** One of the other servers, the `j`-th of them, and likewise. */
    method AssignShort(j: nat, long: nat)
      requires NoDuplicates(permServers) && long + j < |permServers| && Progress(long, j, long)
      modifies this`permShortFlowsServers, this`permMapShortFlows
      ensures Progress(long, j + 1, long)
    {
      var i := long + j;
      permShortFlowsServers := permShortFlowsServers + [permServers[i]];
      var next := if i < |permServers| - 1 then i + 1 else long;
      ShortFlow(permMapShortFlows, permServers, long, j, next);
      permMapShortFlows := permMapShortFlows[permServers[next] := permServers[i]];
    }
  }

  lemma ShortFlow(m: map<nat, nat>, servers: seq<nat>, long: nat, j: nat, next: nat)
    requires NoDuplicates(servers) && long + j < |servers| && IsPartOfRing(m, servers[long..], j)
    requires next == long + Succ(j, |servers| - long)
    ensures IsPartOfRing(m[servers[next] := servers[long + j]], servers[long..], j + 1)
    ensures servers[long..long + j] + [servers[long + j]] == servers[long..long + j + 1]
  {
    var half := servers[long..];
    RestIsDistinct(servers, long);
    assert half[j] == servers[long + j] && half[Succ(j, |half|)] == servers[next];
    AddToRing(m, half, j);
  }

  lemma NextIsSucc(i: nat, n: nat)
    requires i < n
    ensures (i + 1) % n == Succ(i, n)
  {
  }

  lemma RestIsDistinct(s: seq<nat>, lo: nat)
    requires NoDuplicates(s) && lo <= |s|
    ensures NoDuplicates(s[lo..])
  {
    forall i, j | 0 <= i < j < |s[lo..]|
      ensures s[lo..][i] != s[lo..][j]
    {
      assert s[lo..][i] == s[lo + i] && s[lo..][j] == s[lo + j];
    }
  }

  /** The flows of the first `n` senders of the ring. */
  ghost predicate IsPartOfRing(m: map<nat, nat>, half: seq<nat>, n: nat) {
    && n <= |half|
    && (forall x :: x in m ==> exists i :: 0 <= i < n && x == half[Succ(i, |half|)])
    && forall i :: 0 <= i < n ==> half[Succ(i, |half|)] in m && m[half[Succ(i, |half|)]] == half[i]
  }

  lemma AddToRing(m: map<nat, nat>, half: seq<nat>, n: nat)
    requires IsPartOfRing(m, half, n) && n < |half| && NoDuplicates(half)
    ensures half[Succ(n, |half|)] !in m
    ensures IsPartOfRing(m[half[Succ(n, |half|)] := half[n]], half, n + 1)
  {
    var key := half[Succ(n, |half|)];
    forall i | 0 <= i < n
      ensures half[Succ(i, |half|)] != key
    {
    }
  }

  lemma WholeRing(m: map<nat, nat>, half: seq<nat>)
    requires IsPartOfRing(m, half, |half|)
    ensures IsRing(m, half)
  {
    forall x | x in half
      ensures x in m
    {
      var j :| 0 <= j < |half| && half[j] == x;
      var i := if j == 0 then |half| - 1 else j - 1;
      assert Succ(i, |half|) == j;
    }
  }
}
