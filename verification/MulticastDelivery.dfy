/** What a packet does that follows the forwarding entries from the sender. */
module MulticastDelivery {
  import opened Multicast
  import opened MulticastPlanner

  /** lookUpAtMulticastInfoList: the last matching entry wins, and without one the caller's list stays. */
  function LookUp(infos: seq<MulticastInfo>, group: nat, x: Name, destinations: seq<Name>): seq<Name> {
    if infos == [] then destinations
    else LookUp(infos[1..], group, x,
                if infos[0].multicastGroupIndex == group && infos[0].routeName == x then infos[0].destinations
                  else destinations)
  }

  predicate IsFor(e: MulticastInfo, group: nat, x: Name) {
    e.multicastGroupIndex == group && e.routeName == x
  }

  method LookUpAtMulticastInfoList(infos: seq<MulticastInfo>, groupId: nat, currentNode: Name, given: seq<Name>)
    returns (destinations: seq<Name>)
    ensures destinations == LookUp(infos, groupId, currentNode, given)
    ensures (forall i :: 0 <= i < |infos| ==> !IsFor(infos[i], groupId, currentNode)) ==> destinations == given
    ensures forall i :: 0 <= i < |infos| && IsFor(infos[i], groupId, currentNode)
                        && (forall j :: i < j < |infos| ==> !IsFor(infos[j], groupId, currentNode)) ==>
              destinations == infos[i].destinations
  {
    destinations := given;
    for iter := 0 to |infos|
      invariant LookUp(infos[iter..], groupId, currentNode, destinations) == LookUp(infos, groupId, currentNode, given)
      invariant (forall i :: 0 <= i < iter ==> !IsFor(infos[i], groupId, currentNode)) ==> destinations == given
      invariant forall i :: 0 <= i < iter && IsFor(infos[i], groupId, currentNode)
                            && (forall j :: i < j < iter ==> !IsFor(infos[j], groupId, currentNode)) ==>
                  destinations == infos[i].destinations
    {
      assert infos[iter..][1..] == infos[iter + 1..];
      if infos[iter].multicastGroupIndex == groupId && infos[iter].routeName == currentNode {
        destinations := infos[iter].destinations;
        assert IsFor(infos[iter], groupId, currentNode);
      }
    }
  }

  lemma {:induction false} LookUpAppend(a: seq<MulticastInfo>, b: seq<MulticastInfo>, group: nat, x: Name,
                                        destinations: seq<Name>)
    ensures LookUp(a + b, group, x, destinations) == LookUp(b, group, x, LookUp(a, group, x, destinations))
  {
    if a == [] {
      assert a + b == b;
    } else {
      assert (a + b)[1..] == a[1..] + b;
      LookUpAppend(a[1..], b, group, x,
                   if a[0].multicastGroupIndex == group && a[0].routeName == x then a[0].destinations
                     else destinations);
    }
  }

  lemma {:induction false} LookUpElsewhere(infos: seq<MulticastInfo>, group: nat, x: Name, destinations: seq<Name>)
    requires forall i :: 0 <= i < |infos| ==> infos[i].multicastGroupIndex != group || infos[i].routeName != x
    ensures LookUp(infos, group, x, destinations) == destinations
  {
    if infos != [] {
      LookUpElsewhere(infos[1..], group, x, destinations);
    }
  }

  lemma {:induction false} LookUpStage(group: nat, heads: seq<Name>, lists: seq<seq<Name>>, unique: bool, x: Name,
                                       destinations: seq<Name>)
    ensures var dests := Followers(lists, x);
            LookUp(StageEntries(group, heads, lists, unique), group, x, destinations) ==
            if x in heads then (if unique then Unique(dests) else dests) else destinations
  {
    if heads != [] {
      var most := heads[..|heads| - 1];
      LookUpStage(group, most, lists, unique, x, destinations);
      var h := heads[|heads| - 1];
      var dests := Followers(lists, h);
      LookUpAppend(StageEntries(group, most, lists, unique),
                   [MulticastInfo(group, h, if unique then Unique(dests) else dests)], group, x, destinations);
      assert heads == most + [h];
    }
  }

  lemma {:induction false} FollowersOfHeads(lists: seq<seq<Name>>, x: Name)
    requires forall s :: s in lists ==> |s| >= 2
    ensures x in Heads(lists) <==> Followers(lists, x) != []
  {
    if lists != [] {
      assert lists[0] in lists && forall s :: s in lists[1..] ==> s in lists;
      FollowersOfHeads(lists[1..], x);
    }
  }

  lemma FarPathsStep(q: Query, rs: seq<Place>)
    requires rs != []
    ensures var r, rest := rs[0], FarPaths(q, rs[1..]);
            if Far(q, r) then
              && FarPaths(q, rs) == [[Agg(r.pod, q.agg), Edge(r.pod, r.rack), ServerOf(r)]] + rest
              && Tails(FarPaths(q, rs)) == [[Edge(r.pod, r.rack), ServerOf(r)]] + Tails(rest)
            else FarPaths(q, rs) == rest
  {
    var r, rest := rs[0], FarPaths(q, rs[1..]);
    if Far(q, r) {
      var path := [Agg(r.pod, q.agg), Edge(r.pod, r.rack), ServerOf(r)];
      assert ([path] + rest)[1..] == rest;
      assert path[1..] == [path[1], path[2]];
    }
  }

  lemma FollowersStep(s: seq<Name>, lists: seq<seq<Name>>, x: Name)
    requires |s| >= 2
    ensures Followers([s] + lists, x) == (if s[0] == x then [s[1]] else []) + Followers(lists, x)
  {
    assert ([s] + lists)[1..] == lists;
  }

  /** The lists of the two stages hold exactly the hops behind the core. */
  lemma {:induction false} FollowersAreHops(q: Query, rs: seq<Place>, x: Name)
    requires q.sender !in rs
    ensures x.Agg? && x.pod != q.sender.pod ==> Followers(FarPaths(q, rs), x) == Hops(q, rs, x)
    ensures x.Edge? && x.pod != q.sender.pod ==> Followers(Tails(FarPaths(q, rs)), x) == Hops(q, rs, x)
  {
    if rs != [] {
      var r, rest := rs[0], FarPaths(q, rs[1..]);
      FollowersAreHops(q, rs[1..], x);
      FarPathsStep(q, rs);
      if Far(q, r) {
        FollowersStep([Agg(r.pod, q.agg), Edge(r.pod, r.rack), ServerOf(r)], rest, x);
        FollowersStep([Edge(r.pod, r.rack), ServerOf(r)], Tails(rest), x);
      } else {
        assert [] + Hops(q, rs[1..], x) == Hops(q, rs[1..], x);
      }
    }
  }

  lemma LookUpFour(s: seq<MulticastInfo>, e: seq<MulticastInfo>, a: seq<MulticastInfo>, c: seq<MulticastInfo>,
                   group: nat, x: Name)
    ensures LookUp(s + e + a + c, group, x, []) ==
            LookUp(c, group, x, LookUp(a, group, x, LookUp(e, group, x, LookUp(s, group, x, []))))
  {
    LookUpAppend(s + e + a, c, group, x, []);
    LookUpAppend(s + e, a, group, x, []);
    LookUpAppend(s, e, group, x, []);
  }

  lemma LookUpEntry(group: nat, node: Name, dests: seq<Name>, x: Name, destinations: seq<Name>)
    ensures LookUp(EntryFor(group, node, dests), group, x, destinations) ==
            if x == node && dests != [] then dests else destinations
  {
  }

  lemma LookUpSenderPod(q: Query, rs: seq<Place>, x: Name)
    ensures LookUp(SenderPodEntries(q, rs), q.group, x, []) ==
            if x == q.SrcNode() then [q.InitDest()]
            else if x in {q.InitDest(), q.AggDest1(), q.CoreName()} then Unique(Hops(q, rs, x))
            else []
  {
    var src, e, a, c := q.SrcNode(), q.InitDest(), q.AggDest1(), q.CoreName();
    var he, ha, hc := Unique(Hops(q, rs, e)), Unique(Hops(q, rs, a)), Unique(Hops(q, rs, c));
    LookUpFour([MulticastInfo(q.group, src, [e])], EntryFor(q.group, e, he), EntryFor(q.group, a, ha),
      EntryFor(q.group, c, hc),
               q.group, x);
    var own := if x == src then [e] else [];
    assert LookUp([MulticastInfo(q.group, src, [e])], q.group, x, []) == own;
    LookUpEntry(q.group, e, he, x, own);
    LookUpEntry(q.group, a, ha, x, if x == e then he else own);
    LookUpEntry(q.group, c, hc, x, if x == a then ha else if x == e then he else own);
  }

  predicate InSenderPod(q: Query, x: Name) {
    x in {q.SrcNode(), q.InitDest(), q.AggDest1(), q.CoreName()}
  }

  predicate HasOtherRack(q: Query, rs: seq<Place>) {
    exists r :: r in rs && SamePodOtherRack(q, r)
  }

  lemma {:induction false} UniqueOfConstant(xs: seq<Name>, c: Name)
    requires xs != [] && forall i :: 0 <= i < |xs| ==> xs[i] == c
    ensures Unique(xs) == [c]
  {
    if |xs| > 1 {
      UniqueOfConstant(xs[..|xs| - 1], c);
    } else {
      assert xs[..0] == [];
    }
  }

  lemma {:induction false} UniqueHopOfSender(q: Query, rs: seq<Place>)
    requires rs != []
    ensures var hops := Hops(q, rs, q.SrcNode());
            hops != [] && (forall i :: 0 <= i < |hops| ==> hops[i] == q.InitDest()) && Unique(hops) == [q.InitDest()]
  {
    if |rs| > 1 {
      UniqueHopOfSender(q, rs[1..]);
      assert Hops(q, rs, q.SrcNode()) == [q.InitDest()] + Hops(q, rs[1..], q.SrcNode());
    } else {
      assert Hops(q, rs, q.SrcNode()) == [q.InitDest()];
    }
    UniqueOfConstant(Hops(q, rs, q.SrcNode()), q.InitDest());
  }

  /** The hops from an edge switch behind the core go to different servers, for different receivers. */
  lemma {:induction false} EdgeHopsAreDistinct(q: Query, rs: seq<Place>, x: Name)
    requires NoDuplicates(rs) && q.sender !in rs && x.Edge? && x.pod != q.sender.pod
    ensures NoDuplicates(Hops(q, rs, x))
    ensures forall d :: d in Hops(q, rs, x) ==> exists r :: r in rs && d == ServerOf(r)
  {
    if rs != [] {
      EdgeHopsAreDistinct(q, rs[1..], x);
      assert forall r :: r in rs[1..] ==> r in rs && r != rs[0];
      assert ServerOf(rs[0]) !in Hops(q, rs[1..], x);
      assert rs[0] in rs;
    }
  }

  lemma {:induction false} UniqueOfDistinct(xs: seq<Name>)
    requires NoDuplicates(xs)
    ensures Unique(xs) == xs
  {
    if xs != [] {
      UniqueOfDistinct(xs[..|xs| - 1]);
      assert xs == xs[..|xs| - 1] + [xs[|xs| - 1]];
    }
  }

  /** The planned table sends from every node to exactly the next hops of the receivers' paths, each once; only if there
      is a receiver in another rack of the sender's pod, it does so for the sender's pod and the core alone. */
  lemma {:induction false} PlanLooksUp(q: Query, rs: seq<Place>, x: Name)
    requires rs != [] && NoDuplicates(rs) && q.sender !in rs
    ensures LookUp(Plan(q, rs), q.group, x, []) ==
            if HasOtherRack(q, rs) && !InSenderPod(q, x) then [] else Unique(Hops(q, rs, x))
  {
    SenderPodLooksUp(q, rs, x);
    var own := LookUp(SenderPodEntries(q, rs), q.group, x, []);
    if HasOtherRack(q, rs) {
      assert Plan(q, rs) == SenderPodEntries(q, rs);
    } else {
      assert Plan(q, rs) == SenderPodEntries(q, rs) + OtherPodEntries(q, rs);
      LookUpAppend(SenderPodEntries(q, rs), OtherPodEntries(q, rs), q.group, x, []);
      LookUpOtherPods(q, rs, x, own);
      if !InSenderPod(q, x) && !Behind(q, x) {
        NoHops(q, rs, x);
      }
    }
  }

  lemma SenderPodLooksUp(q: Query, rs: seq<Place>, x: Name)
    requires rs != []
    ensures LookUp(SenderPodEntries(q, rs), q.group, x, []) == if InSenderPod(q, x) then Unique(Hops(q, rs, x)) else []
  {
    LookUpSenderPod(q, rs, x);
    UniqueHopOfSender(q, rs);
  }

  /** Aggregation routers and edge switches of other pods than the sender's. */
  predicate Behind(q: Query, x: Name) {
    (x.Agg? || x.Edge?) && x.pod != q.sender.pod
  }

  lemma {:induction false} NoHops(q: Query, rs: seq<Place>, x: Name)
    requires !HasOtherRack(q, rs) && !InSenderPod(q, x) && !Behind(q, x)
    ensures Hops(q, rs, x) == []
  {
    if rs != [] {
      assert rs[0] in rs && forall r :: r in rs[1..] ==> r in rs;
      NoHops(q, rs[1..], x);
    }
  }

  lemma StageLooksUp(group: nat, lists: seq<seq<Name>>, unique: bool, x: Name, destinations: seq<Name>)
    requires forall s :: s in lists ==> |s| >= 2
    ensures var dests := Followers(lists, x);
            LookUp(StageEntries(group, Unique(Heads(lists)), lists, unique), group, x, destinations) ==
            if dests == [] then destinations else if unique then Unique(dests) else dests
  {
    LookUpStage(group, Unique(Heads(lists)), lists, unique, x, destinations);
    UniqueMeans(Heads(lists));
    FollowersOfHeads(lists, x);
  }

  lemma LookUpOtherPods(q: Query, rs: seq<Place>, x: Name, destinations: seq<Name>)
    requires NoDuplicates(rs) && q.sender !in rs
    requires !InSenderPod(q, x) ==> destinations == []
    ensures LookUp(OtherPodEntries(q, rs), q.group, x, destinations) ==
            if Behind(q, x) then Unique(Hops(q, rs, x)) else destinations
  {
    var far := FarPaths(q, rs);
    var tails := Tails(far);
    FarPathsLead(q, rs);
    var first, second := StageEntries(q.group, Unique(Heads(far)), far, true),
        StageEntries(q.group, Unique(Heads(tails)), tails, false);
    LookUpAppend(first, second, q.group, x, destinations);
    StageLooksUp(q.group, far, true, x, destinations);
    StageLooksUp(q.group, tails, false, x, LookUp(first, q.group, x, destinations));
    OnlyBehind(q, rs, x);
    FollowersAreHops(q, rs, x);
    if Behind(q, x) && x.Edge? {
      EdgeHopsAreDistinct(q, rs, x);
      UniqueOfDistinct(Hops(q, rs, x));
    }
  }

  lemma OnlyBehind(q: Query, rs: seq<Place>, x: Name)
    ensures Followers(FarPaths(q, rs), x) != [] ==> x.Agg? && Behind(q, x)
    ensures Followers(Tails(FarPaths(q, rs)), x) != [] ==> x.Edge? && Behind(q, x)
  {
    FarPathsLead(q, rs);
    FollowersOfHeads(FarPaths(q, rs), x);
    FollowersOfHeads(Tails(FarPaths(q, rs)), x);
    HeadsAreBehind(q, rs, x);
  }

  lemma {:induction false} HeadsAreBehind(q: Query, rs: seq<Place>, x: Name)
    ensures x in Heads(FarPaths(q, rs)) ==> x.Agg? && Behind(q, x)
    ensures x in Heads(Tails(FarPaths(q, rs))) ==> x.Edge? && Behind(q, x)
  {
    if rs != [] {
      HeadsAreBehind(q, rs[1..], x);
      if Far(q, rs[0]) {
        var far := FarPaths(q, rs);
        assert far[1..] == FarPaths(q, rs[1..]);
        assert Tails(far)[1..] == Tails(FarPaths(q, rs[1..]));
        assert far[0][1..] == [far[0][1], far[0][2]];
      }
    }
  }

  // ---------------------------------------------------------------- following the table

  /** The nodes at which a packet at `x` ends up: those without an entry, or those reached after `hops` hops. */
  function Reached(infos: seq<MulticastInfo>, group: nat, x: Name, hops: nat): multiset<Name>
    decreases hops, 0
  {
    var next := LookUp(infos, group, x, []);
    if next == [] || hops == 0 then multiset{x} else ReachedFrom(infos, group, next, hops - 1)
  }

  function ReachedFrom(infos: seq<MulticastInfo>, group: nat, next: seq<Name>, hops: nat): multiset<Name>
    decreases hops, |next| + 1
  {
    if next == [] then multiset{}
    else Reached(infos, group, next[0], hops) + ReachedFrom(infos, group, next[1..], hops)
  }

  lemma {:induction false} OneBranchReaches(infos: seq<MulticastInfo>, group: nat, next: seq<Name>, hops: nat, y: Name,
                                            hit: Name)
    requires NoDuplicates(next)
    requires forall d :: d in next ==> Reached(infos, group, d, hops)[y] == if d == hit then 1 else 0
    ensures ReachedFrom(infos, group, next, hops)[y] == if hit in next then 1 else 0
  {
    if next != [] {
      assert next[0] in next && forall d :: d in next[1..] ==> d in next;
      OneBranchReaches(infos, group, next[1..], hops, y, hit);
      assert next == [next[0]] + next[1..];
    }
  }

  lemma {:induction false} NoBranchReaches(infos: seq<MulticastInfo>, group: nat, next: seq<Name>, hops: nat, y: Name)
    requires forall d :: d in next ==> Reached(infos, group, d, hops)[y] == 0
    ensures ReachedFrom(infos, group, next, hops)[y] == 0
  {
    if next != [] {
      assert next[0] in next && forall d :: d in next[1..] ==> d in next;
      NoBranchReaches(infos, group, next[1..], hops, y);
    }
  }

  function Height(q: Query, x: Name): nat {
    if x == q.SrcNode() then 6
    else if x == q.InitDest() then 5
    else if x == q.AggDest1() then 4
    else if x == q.CoreName() then 3
    else if x.Agg? then 2
    else if x.Edge? then 1
    else 0
  }

  /** On a path every node but the receiver has a next hop, which lies lower. */
  lemma PathGoesDown(q: Query, r: Place, x: Name)
    requires r != q.sender && x in Path(q, r)
    ensures if x == ServerOf(r) then Next(q, r, x) == []
            else |Next(q, r, x)| == 1 && Next(q, r, x)[0] in Path(q, r) && Height(q, Next(q, r, x)[0]) < Height(q, x)
    ensures q.SrcNode() in Path(q, r) && ServerOf(r) in Path(q, r)
  {
    var p := Path(q, r);
    assert p[0] == q.SrcNode() && p[1] == q.InitDest() && p[|p| - 1] == ServerOf(r);
    if !Near(q, r) {
      assert p[2] == q.AggDest1();
      assert Edge(r.pod, r.rack) == p[|p| - 2];
      if Far(q, r) {
        assert p[3] == q.CoreName() && p[4] == Agg(r.pod, q.agg);
      }
    }
  }

  /** The paths of a group form a tree: a node that two paths share is reached over the same hop. */
  lemma PathsFormATree(q: Query, r: Place, r': Place, x: Name, d: Name)
    requires r != q.sender && r' != q.sender && d in Next(q, r, x) && d in Path(q, r')
    ensures Next(q, r', x) == [d] && x in Path(q, r')
  {
    var p := Path(q, r');
    assert p[0] == q.SrcNode() && p[1] == q.InitDest();
    if !Near(q, r') {
      assert p[2] == q.AggDest1();
      assert Edge(r'.pod, r'.rack) == p[|p| - 2];
      if Far(q, r') {
        assert p[3] == q.CoreName() && p[4] == Agg(r'.pod, q.agg);
      }
    }
  }

  /** The table sends from every node to exactly the next hops of the receivers' paths, each once. */
  ghost predicate Routes(infos: seq<MulticastInfo>, q: Query, rs: seq<Place>) {
    forall x {:trigger Hops(q, rs, x)} :: LookUp(infos, q.group, x, []) == Unique(Hops(q, rs, x))
  }

  /** Receiver `y` lies behind `x`: its path runs through `x`. */
  predicate Serves(q: Query, rs: seq<Place>, x: Name, y: Name) {
    exists r :: r in rs && y == ServerOf(r) && x in Path(q, r)
  }

  lemma NextHops(q: Query, rs: seq<Place>, x: Name)
    ensures var next := Unique(Hops(q, rs, x));
            NoDuplicates(next) && forall d :: d in next <==> exists r :: r in rs && d in Next(q, r, x)
  {
    var hops := Hops(q, rs, x);
    UniqueMeans(hops);
    forall d
      ensures d in hops <==> exists r :: r in rs && d in Next(q, r, x)
    {
      HopsMeans(q, rs, x, d);
    }
  }

  lemma NextIsOnPath(q: Query, r: Place, x: Name, d: Name)
    requires r != q.sender && d in Next(q, r, x)
    ensures x in Path(q, r) && d in Path(q, r) && d != Break && Height(q, d) < Height(q, x)
  {
    NextIsFollows(q, r, x, d);
    PathGoesDown(q, r, x);
  }

  /** The one next hop of `x` that leads to `y`; the break mark if `y` does not lie behind `x`. */
  lemma Branch(q: Query, rs: seq<Place>, x: Name, y: Name) returns (hit: Name)
    requires q.sender !in rs && Hops(q, rs, x) != []
    ensures NoDuplicates(Unique(Hops(q, rs, x)))
    ensures forall d :: d in Unique(Hops(q, rs, x)) ==> (Serves(q, rs, d, y) <==> d == hit)
    ensures hit in Unique(Hops(q, rs, x)) <==> Serves(q, rs, x, y)
  {
    NextHops(q, rs, x);
    hit := Break;
    if Serves(q, rs, x, y) {
      var to :| to in rs && y == ServerOf(to) && x in Path(q, to);
      var d0 := Hops(q, rs, x)[0];
      HopsMeans(q, rs, x, d0);
      PathGoesDown(q, to, x);
      hit := Next(q, to, x)[0];
    }
    forall r, d | r in rs && d in Next(q, r, x)
      ensures (Serves(q, rs, d, y) <==> d == hit) && d != Break
    {
      NextIsOnPath(q, r, x, d);
      if Serves(q, rs, d, y) {
        var to :| to in rs && y == ServerOf(to) && d in Path(q, to);
        PathsFormATree(q, r, to, x, d);
      }
    }
  }

  /** A node of a path is the receiver itself, or it has hops to somewhere and lies above the ground. */
  lemma LeafOrHop(q: Query, rs: seq<Place>, x: Name, via: Place)
    requires q.sender !in rs && via in rs && x in Path(q, via)
    ensures if Unique(Hops(q, rs, x)) == [] then x == ServerOf(via) else Hops(q, rs, x) != [] && Height(q, x) > 0
  {
    var hops := Hops(q, rs, x);
    PathGoesDown(q, via, x);
    UniqueMeans(hops);
    if x != ServerOf(via) {
      HopsMeans(q, rs, x, Next(q, via, x)[0]);
    }
    if hops != [] {
      assert hops[0] in Unique(hops);
      HopsMeans(q, rs, x, hops[0]);
      var r :| r in rs && hops[0] in Next(q, r, x);
      NextIsOnPath(q, r, x, hops[0]);
    }
  }

  lemma ReachedStep(infos: seq<MulticastInfo>, q: Query, rs: seq<Place>, x: Name, hops: nat)
    requires Routes(infos, q, rs)
    ensures var next := Unique(Hops(q, rs, x));
            Reached(infos, q.group, x, hops) ==
            if next == [] || hops == 0 then multiset{x} else ReachedFrom(infos, q.group, next, hops - 1)
  {
  }

  lemma ReceiverBehind(q: Query, rs: seq<Place>, x: Name, d: Name) returns (r: Place)
    requires q.sender !in rs && d in Unique(Hops(q, rs, x))
    ensures r in rs && d in Path(q, r) && Height(q, d) < Height(q, x)
  {
    NextHops(q, rs, x);
    r :| r in rs && d in Next(q, r, x);
    NextIsOnPath(q, r, x, d);
  }

  lemma LeafServesItself(q: Query, rs: seq<Place>, r: Place, y: Name)
    requires q.sender !in rs && r in rs
    ensures Serves(q, rs, ServerOf(r), y) <==> y == ServerOf(r)
  {
    PathGoesDown(q, r, ServerOf(r));
  }

  /** A packet goes to all next hops, one of which leads to `y` or none. */
  lemma OneHopReaches(infos: seq<MulticastInfo>, q: Query, rs: seq<Place>, x: Name, hops: nat, y: Name, hit: Name)
    requires Routes(infos, q, rs) && Unique(Hops(q, rs, x)) != [] && hops > 0 && NoDuplicates(Unique(Hops(q, rs, x)))
    requires forall d :: d in Unique(Hops(q, rs, x)) ==>
               Reached(infos, q.group, d, hops - 1)[y] == if d == hit then 1 else 0
    ensures Reached(infos, q.group, x, hops)[y] == if hit in Unique(Hops(q, rs, x)) then 1 else 0
  {
    ReachedStep(infos, q, rs, x, hops);
    OneBranchReaches(infos, q.group, Unique(Hops(q, rs, x)), hops - 1, y, hit);
  }

  /** A packet at a node without a next hop has arrived. */
  lemma LeafIsReached(infos: seq<MulticastInfo>, q: Query, rs: seq<Place>, x: Name, hops: nat, y: Name, via: Place)
    requires Routes(infos, q, rs) && q.sender !in rs && via in rs && x in Path(q, via) && Unique(Hops(q, rs, x)) == []
    requires hops >= Height(q, x)
    ensures Reached(infos, q.group, x, hops)[y] == if Serves(q, rs, x, y) then 1 else 0
  {
    ReachedStep(infos, q, rs, x, hops);
    LeafOrHop(q, rs, x, via);
    LeafServesItself(q, rs, via, y);
  }

  /** A packet at a node of some receiver's path reaches exactly the receivers behind that node, each once. */
  lemma {:induction false} ReachesWhatLiesBehind(infos: seq<MulticastInfo>, q: Query, rs: seq<Place>, x: Name,
                                                 hops: nat, y: Name, via: Place)
    requires Routes(infos, q, rs) && q.sender !in rs
    requires via in rs && x in Path(q, via) && hops >= Height(q, x)
    ensures Reached(infos, q.group, x, hops)[y] == if Serves(q, rs, x, y) then 1 else 0
    decreases hops
  {
    var next := Unique(Hops(q, rs, x));
    if next == [] {
      LeafIsReached(infos, q, rs, x, hops, y, via);
    } else {
      LeafOrHop(q, rs, x, via);
      var hit := Branch(q, rs, x, y);
      forall d | d in next
        ensures Reached(infos, q.group, d, hops - 1)[y] == if d == hit then 1 else 0
      {
        var r := ReceiverBehind(q, rs, x, d);
        ReachesWhatLiesBehind(infos, q, rs, d, hops - 1, y, r);
        assert Serves(q, rs, d, y) <==> d == hit;
      }
      OneHopReaches(infos, q, rs, x, hops, y, hit);
    }
  }

  function Servers(rs: seq<Place>): seq<Name> {
    if rs == [] then [] else [ServerOf(rs[0])] + Servers(rs[1..])
  }

  lemma {:induction false} ServersMeans(rs: seq<Place>, y: Name)
    requires NoDuplicates(rs)
    ensures multiset(Servers(rs))[y] == if exists r :: r in rs && y == ServerOf(r) then 1 else 0
  {
    if rs != [] {
      ServersMeans(rs[1..], y);
      assert rs == [rs[0]] + rs[1..];
      assert Servers(rs) == [ServerOf(rs[0])] + Servers(rs[1..]);
    }
  }

  /** A group as the scheduler draws it, planned behind the entries of other groups. */
  ghost predicate Planned(infos: seq<MulticastInfo>, before: seq<MulticastInfo>, q: Query, rs: seq<Place>) {
    && infos == before + Plan(q, rs)
    && (forall i :: 0 <= i < |before| ==> before[i].multicastGroupIndex != q.group)
    && rs != [] && NoDuplicates(rs) && q.sender !in rs
  }

  lemma PlannedLookUp(infos: seq<MulticastInfo>, before: seq<MulticastInfo>, q: Query, rs: seq<Place>, x: Name)
    requires Planned(infos, before, q, rs)
    ensures LookUp(infos, q.group, x, []) ==
            if HasOtherRack(q, rs) && !InSenderPod(q, x) then [] else Unique(Hops(q, rs, x))
  {
    LookUpAppend(before, Plan(q, rs), q.group, x, []);
    LookUpElsewhere(before, q.group, x, []);
    PlanLooksUp(q, rs, x);
  }

  /** The table stops behind the sender's pod and the core. */
  ghost predicate CutOff(infos: seq<MulticastInfo>, q: Query, rs: seq<Place>) {
    forall x {:trigger Hops(q, rs, x)} ::
      LookUp(infos, q.group, x, []) == if InSenderPod(q, x) then Unique(Hops(q, rs, x)) else []
  }

  lemma PlannedRoutes(infos: seq<MulticastInfo>, before: seq<MulticastInfo>, q: Query, rs: seq<Place>)
    requires Planned(infos, before, q, rs)
    ensures if HasOtherRack(q, rs) then CutOff(infos, q, rs) else Routes(infos, q, rs)
  {
    forall x
      ensures LookUp(infos, q.group, x, []) ==
              if HasOtherRack(q, rs) && !InSenderPod(q, x) then [] else Unique(Hops(q, rs, x))
    {
      PlannedLookUp(infos, before, q, rs, x);
    }
  }

  lemma SourceServesAll(q: Query, rs: seq<Place>, y: Name)
    requires NoDuplicates(rs) && q.sender !in rs
    ensures multiset(Servers(rs))[y] == if Serves(q, rs, q.SrcNode(), y) then 1 else 0
  {
    ServersMeans(rs, y);
    forall r | r in rs
      ensures q.SrcNode() in Path(q, r)
    {
      PathGoesDown(q, r, Path(q, r)[0]);
    }
  }

  /** Without a receiver in another rack of the sender's pod, a packet that follows the table from the sender reaches
      exactly the receivers, each once, and is nowhere else: not at another server, not stuck at a router, not going
      round. */
  lemma {:induction false} PacketReachesTheReceivers(infos: seq<MulticastInfo>, before: seq<MulticastInfo>, q: Query,
          rs: seq<Place>, hops: nat)
    requires Planned(infos, before, q, rs) && !HasOtherRack(q, rs) && hops >= 6
    ensures Reached(infos, q.group, q.SrcNode(), hops) == multiset(Servers(rs))
  {
    PlannedRoutes(infos, before, q, rs);
    PathGoesDown(q, rs[0], Path(q, rs[0])[0]);
    forall y
      ensures Reached(infos, q.group, q.SrcNode(), hops)[y] == multiset(Servers(rs))[y]
    {
      ReachesWhatLiesBehind(infos, q, rs, q.SrcNode(), hops, y, rs[0]);
      SourceServesAll(q, rs, y);
    }
  }

  lemma CutOffStep(infos: seq<MulticastInfo>, q: Query, rs: seq<Place>, x: Name, hops: nat)
    requires CutOff(infos, q, rs)
    ensures var next := Unique(Hops(q, rs, x));
            Reached(infos, q.group, x, hops) ==
            if !InSenderPod(q, x) || next == [] || hops == 0 then multiset{x}
              else ReachedFrom(infos, q.group, next, hops - 1)
  {
  }

  /** What the routers above the sender's edge switch send to is no server and not that switch. */
  lemma HopsAbove(q: Query, rs: seq<Place>, x: Name, d: Name)
    requires x in {q.AggDest1(), q.CoreName()} && d in Unique(Hops(q, rs, x))
    ensures !d.Server? && d != q.InitDest()
  {
    NextHops(q, rs, x);
    var r :| r in rs && d in Next(q, r, x);
  }

  /** If the table is cut off, nothing that gets above the sender's edge switch reaches a server. */
  lemma {:induction false} NoServerAbove(infos: seq<MulticastInfo>, q: Query, rs: seq<Place>, x: Name, hops: nat,
                                         y: Place)
    requires CutOff(infos, q, rs) && !x.Server? && x != q.InitDest()
    ensures Reached(infos, q.group, x, hops)[ServerOf(y)] == 0
    decreases hops
  {
    if x in {q.AggDest1(), q.CoreName()} && Unique(Hops(q, rs, x)) != [] && hops > 0 {
      forall d | d in Unique(Hops(q, rs, x))
        ensures Reached(infos, q.group, d, hops - 1)[ServerOf(y)] == 0
      {
        HopsAbove(q, rs, x, d);
        NoServerAbove(infos, q, rs, d, hops - 1, y);
      }
      NoHopReaches(infos, q, rs, x, hops, y);
    } else {
      CutOffStep(infos, q, rs, x, hops);
    }
  }

  lemma NoHopReaches(infos: seq<MulticastInfo>, q: Query, rs: seq<Place>, x: Name, hops: nat, y: Place)
    requires CutOff(infos, q, rs) && x in {q.AggDest1(), q.CoreName()} && Unique(Hops(q, rs, x)) != [] && hops > 0
    requires forall d :: d in Unique(Hops(q, rs, x)) ==> Reached(infos, q.group, d, hops - 1)[ServerOf(y)] == 0
    ensures Reached(infos, q.group, x, hops)[ServerOf(y)] == 0
  {
    CutOffStep(infos, q, rs, x, hops);
    NoBranchReaches(infos, q.group, Unique(Hops(q, rs, x)), hops - 1, ServerOf(y));
  }

  /** The sender's edge switch sends to the receivers in its rack and to the aggregation router. */
  lemma HopsOfInitDest(q: Query, rs: seq<Place>, d: Name)
    requires q.sender !in rs
    ensures d in Unique(Hops(q, rs, q.InitDest())) ==>
              d == q.AggDest1() || exists r :: r in rs && Near(q, r) && d == ServerOf(r)
    ensures forall r :: r in rs ==> (ServerOf(r) in Unique(Hops(q, rs, q.InitDest())) <==> Near(q, r))
  {
    var e := q.InitDest();
    NextHops(q, rs, e);
    forall r | r in rs && Near(q, r)
      ensures ServerOf(r) in Unique(Hops(q, rs, e))
    {
      assert ServerOf(r) in Next(q, r, e);
    }
  }

  lemma EdgeServesNearReceivers(infos: seq<MulticastInfo>, q: Query, rs: seq<Place>, hops: nat, y: Place)
    requires CutOff(infos, q, rs) && q.sender !in rs && hops >= 1 && y in rs
    ensures Reached(infos, q.group, q.InitDest(), hops)[ServerOf(y)] == if Near(q, y) then 1 else 0
  {
    var next := Unique(Hops(q, rs, q.InitDest()));
    CutOffStep(infos, q, rs, q.InitDest(), hops);
    HopsOfInitDest(q, rs, ServerOf(y));
    UniqueMeans(Hops(q, rs, q.InitDest()));
    forall d | d in next
      ensures Reached(infos, q.group, d, hops - 1)[ServerOf(y)] == if d == ServerOf(y) then 1 else 0
    {
      HopsOfInitDest(q, rs, d);
      if d == q.AggDest1() {
        NoServerAbove(infos, q, rs, d, hops - 1, y);
      } else {
        CutOffStep(infos, q, rs, d, hops - 1);
      }
    }
    OneBranchReaches(infos, q.group, next, hops - 1, ServerOf(y), ServerOf(y));
  }

  lemma OnlyNearReceivers(infos: seq<MulticastInfo>, q: Query, rs: seq<Place>, hops: nat, y: Place)
    requires CutOff(infos, q, rs) && q.sender !in rs && hops >= 2 && y in rs
    ensures Reached(infos, q.group, q.SrcNode(), hops)[ServerOf(y)] == if Near(q, y) then 1 else 0
  {
    CutOffStep(infos, q, rs, q.SrcNode(), hops);
    UniqueHopOfSender(q, rs);
    EdgeServesNearReceivers(infos, q, rs, hops - 1, y);
    OneBranchReaches(infos, q.group, [q.InitDest()], hops - 1, ServerOf(y), if Near(q, y) then q.InitDest() else Break);
  }

  /** The table delivers to every receiver exactly if no receiver is in another rack of the sender's pod; otherwise
      exactly the receivers in the sender's own rack get anything. */
  lemma {:induction false} DeliversIffNoOtherRack(infos: seq<MulticastInfo>, before: seq<MulticastInfo>, q: Query,
                                                  rs: seq<Place>, hops: nat)
    requires Planned(infos, before, q, rs) && hops >= 6
    ensures (forall r :: r in rs ==> ServerOf(r) in Reached(infos, q.group, q.SrcNode(), hops))
            <==> (forall r :: r in rs ==> !SamePodOtherRack(q, r))
    ensures forall r :: r in rs ==>
              (ServerOf(r) in Reached(infos, q.group, q.SrcNode(), hops) <==> Near(q, r) || !HasOtherRack(q, rs))
  {
    PlannedRoutes(infos, before, q, rs);
    forall r | r in rs
      ensures ServerOf(r) in Reached(infos, q.group, q.SrcNode(), hops) <==> Near(q, r) || !HasOtherRack(q, rs)
    {
      if HasOtherRack(q, rs) {
        OnlyNearReceivers(infos, q, rs, hops, r);
      } else {
        PacketReachesTheReceivers(infos, before, q, rs, hops);
        ServersMeans(rs, ServerOf(r));
      }
    }
  }

  // ---------------------------------------------------------------- one entry per node

  function RouteNames(infos: seq<MulticastInfo>): (names: seq<Name>)
    ensures |names| == |infos| && forall i :: 0 <= i < |infos| ==> names[i] == infos[i].routeName
  {
    seq(|infos|, i requires 0 <= i < |infos| => infos[i].routeName)
  }

  lemma NamesAppend(a: seq<MulticastInfo>, b: seq<MulticastInfo>)
    requires NoDuplicates(RouteNames(a)) && NoDuplicates(RouteNames(b))
    requires forall x :: x in RouteNames(a) ==> x !in RouteNames(b)
    ensures RouteNames(a + b) == RouteNames(a) + RouteNames(b) && NoDuplicates(RouteNames(a + b))
  {
    var m, n := RouteNames(a), RouteNames(b);
    assert RouteNames(a + b) == m + n;
    forall i, j | 0 <= i < j < |m + n|
      ensures (m + n)[i] != (m + n)[j]
    {
      if i < |m| <= j {
        assert m[i] in m && n[j - |m|] in n;
      }
    }
  }

  lemma EntryNames(group: nat, x: Name, dests: seq<Name>)
    ensures var names := RouteNames(EntryFor(group, x, dests)); NoDuplicates(names) && forall n :: n in names ==> n == x
  {
  }

  lemma {:induction false} StageNames(group: nat, heads: seq<Name>, lists: seq<seq<Name>>, unique: bool)
    ensures RouteNames(StageEntries(group, heads, lists, unique)) == heads
  {
    if heads != [] {
      StageNames(group, heads[..|heads| - 1], lists, unique);
      assert heads == heads[..|heads| - 1] + [heads[|heads| - 1]];
    }
  }

  lemma SenderPodNames(q: Query, rs: seq<Place>)
    ensures NoDuplicates(RouteNames(SenderPodEntries(q, rs)))
    ensures forall x :: x in RouteNames(SenderPodEntries(q, rs)) ==> InSenderPod(q, x)
  {
    var s := [MulticastInfo(q.group, q.SrcNode(), [q.InitDest()])];
    assert RouteNames(s) == [q.SrcNode()];
    FourNames(s, q.group, q.SrcNode(), q.InitDest(), q.AggDest1(), q.CoreName(),
              Unique(Hops(q, rs, q.InitDest())), Unique(Hops(q, rs, q.AggDest1())), Unique(Hops(q, rs, q.CoreName())));
  }

  lemma FourNames(s: seq<MulticastInfo>, group: nat, n0: Name, n1: Name, n2: Name, n3: Name,
                  d1: seq<Name>, d2: seq<Name>, d3: seq<Name>)
    requires RouteNames(s) == [n0] && NoDuplicates([n0, n1, n2, n3])
    ensures var infos := s + EntryFor(group, n1, d1) + EntryFor(group, n2, d2) + EntryFor(group, n3, d3);
            NoDuplicates(RouteNames(infos)) && forall x :: x in RouteNames(infos) ==> x in [n0, n1, n2, n3]
  {
    EntryNames(group, n1, d1);
    EntryNames(group, n2, d2);
    EntryNames(group, n3, d3);
    var all := [n0, n1, n2, n3];
    assert all[0] == n0 && all[1] == n1 && all[2] == n2 && all[3] == n3;
    var e, a, c := EntryFor(group, n1, d1), EntryFor(group, n2, d2), EntryFor(group, n3, d3);
    NamesAppend(s, e);
    NamesAppend(s + e, a);
    NamesAppend(s + e + a, c);
  }

  lemma OtherPodNames(q: Query, rs: seq<Place>)
    ensures NoDuplicates(RouteNames(OtherPodEntries(q, rs)))
    ensures forall x :: x in RouteNames(OtherPodEntries(q, rs)) ==> Behind(q, x)
  {
    var far := FarPaths(q, rs);
    var tails := Tails(far);
    UniqueMeans(Heads(far));
    UniqueMeans(Heads(tails));
    StageNames(q.group, Unique(Heads(far)), far, true);
    StageNames(q.group, Unique(Heads(tails)), tails, false);
    forall x
      ensures x in Heads(far) ==> x.Agg? && Behind(q, x)
      ensures x in Heads(tails) ==> x.Edge? && Behind(q, x)
    {
      HeadsAreBehind(q, rs, x);
    }
    NamesAppend(StageEntries(q.group, Unique(Heads(far)), far, true),
      StageEntries(q.group, Unique(Heads(tails)), tails, false));
  }

  /** The planner adds at most one entry for a node. */
  lemma {:induction false} OneEntryPerNode(q: Query, rs: seq<Place>)
    ensures var plan := Plan(q, rs);
            forall i, j :: 0 <= i < j < |plan| ==> plan[i].routeName != plan[j].routeName
  {
    SenderPodNames(q, rs);
    OtherPodNames(q, rs);
    NamesAppend(SenderPodEntries(q, rs), OtherPodEntries(q, rs));
    var plan := Plan(q, rs);
    assert NoDuplicates(RouteNames(plan)) by {
      if HasOtherRack(q, rs) {
        assert plan == SenderPodEntries(q, rs);
      }
    }
    forall i, j | 0 <= i < j < |plan|
      ensures plan[i].routeName != plan[j].routeName
    {
      assert RouteNames(plan)[i] != RouteNames(plan)[j];
    }
  }
}
