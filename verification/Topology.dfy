/** The links of the fat tree, and that a planned path goes along them. */
module Topology {
  import opened Layout
  import opened Multicast

  /** The node is there: 2h pods of h racks of h servers and h aggregation routers, and h * h core routers. */
  predicate IsNode(h: nat, x: Name) {
    match x
    case Break => false
    case Server(pod, rack, node) => InTree(h, Place(pod, rack, node))
    case Edge(pod, rack) => pod < 2 * h && rack < h
    case Agg(pod, index) => pod < 2 * h && index < h
    case Core(index) => index < h * h
  }

  /** A link upwards: a server to the edge switch of its rack, an edge switch to every aggregation router of its pod,
      and aggregation router i to the h core routers behind its gates, which are numbered through within the pod. */
  predicate Up(h: nat, x: Name, y: Name) {
    && IsNode(h, x) && IsNode(h, y)
    && match (x, y)
       case (Server(pod, rack, _), Edge(pod', rack')) => pod == pod' && rack == rack'
       case (Edge(pod, _), Agg(pod', _)) => pod == pod'
       case (Agg(_, i), Core(c)) => i * h <= c < i * h + h
       case _ => false
  }

  predicate Link(h: nat, x: Name, y: Name) {
    Up(h, x, y) || Up(h, y, x)
  }

  /** What the scheduler draws: an aggregation router, and a core router associated with it. */
  predicate Drawn(h: nat, q: Query) {
    q.agg < h && q.core < h * h && q.core / h == q.agg
  }

  /** The association of core routers with aggregation routers is the wiring. */
  lemma AssociationIsWiring(h: nat, pod: nat, agg: nat, core: nat)
    requires h > 0 && pod < 2 * h && agg < h
    ensures core < h * h && core / h == agg <==> Link(h, Agg(pod, agg), Core(core))
  {
    if agg * h <= core < agg * h + h {
      TwoDigits(agg, core - agg * h, h, h);
    }
  }

  lemma NextIsLink(h: nat, q: Query, r: Place, x: Name, d: Name)
    requires h > 0 && InTree(h, q.sender) && InTree(h, r) && Drawn(h, q) && d in Next(q, r, x)
    ensures Link(h, x, d)
  {
    AssociationIsWiring(h, q.sender.pod, q.agg, q.core);
    AssociationIsWiring(h, r.pod, q.agg, q.core);
  }

  /** Every hop of a path is a link of the tree. */
  lemma PathIsLinked(h: nat, q: Query, r: Place)
    requires h > 0 && InTree(h, q.sender) && InTree(h, r) && Drawn(h, q)
    ensures var p := Path(q, r); forall i :: 0 <= i < |p| - 1 ==> Link(h, p[i], p[i + 1])
  {
    AssociationIsWiring(h, q.sender.pod, q.agg, q.core);
    AssociationIsWiring(h, r.pod, q.agg, q.core);
  }

  lemma {:induction false} HopsAreLinks(h: nat, q: Query, rs: seq<Place>, x: Name, d: Name)
    requires h > 0 && InTree(h, q.sender) && Drawn(h, q) && d in Hops(q, rs, x)
    requires forall r :: r in rs ==> InTree(h, r)
    ensures Link(h, x, d)
  {
    HopsMeans(q, rs, x, d);
    var r :| r in rs && d in Next(q, r, x);
    NextIsLink(h, q, r, x, d);
  }

  /** The first two names of every list are linked. */
  predicate LinkedInFront(h: nat, lists: seq<seq<Name>>) {
    forall s :: s in lists ==> |s| >= 2 && Link(h, s[0], s[1])
  }

  lemma {:induction false} FollowersAreLinked(h: nat, lists: seq<seq<Name>>, x: Name, d: Name)
    requires LinkedInFront(h, lists) && d in Followers(lists, x)
    ensures Link(h, x, d)
  {
    if lists != [] {
      assert lists[0] in lists;
      if d in Followers(lists[1..], x) {
        FollowersAreLinked(h, lists[1..], x, d);
      }
    }
  }

  lemma {:induction false} FarPathsAreLinked(h: nat, q: Query, rs: seq<Place>)
    requires h > 0 && Drawn(h, q) && forall r :: r in rs ==> InTree(h, r)
    ensures LinkedInFront(h, FarPaths(q, rs)) && LinkedInFront(h, Tails(FarPaths(q, rs)))
  {
    if rs != [] {
      FarPathsAreLinked(h, q, rs[1..]);
      if Far(q, rs[0]) {
        var far, rest, r := FarPaths(q, rs), FarPaths(q, rs[1..]), rs[0];
        var path := [Agg(r.pod, q.agg), Edge(r.pod, r.rack), ServerOf(r)];
        assert far == [path] + rest && far[1..] == rest;
        assert Tails(far) == [path[1..]] + Tails(rest);
        assert InTree(h, r);
      }
    }
  }
}
