/** The multicast planner of the central scheduler: the full path of every receiver of a group is written into one list,
    which is then compressed in place into one forwarding entry per node. */
module Multicast {
  import opened Sequences

  /** A name in the routing list: the break mark between two paths, or a node of the fat tree. */
  datatype Name =
    | Break
    | Server(pod: nat, rack: nat, node: nat)
    | Edge(pod: nat, rack: nat)
    | Agg(pod: nat, index: nat)
    | Core(index: nat)

  datatype Place = Place(pod: nat, rack: nat, node: nat)

  datatype MulticastInfo = MulticastInfo(multicastGroupIndex: nat, routeName: Name, destinations: seq<Name>)

  /** A planning request: the sender, and the aggregation and core routers that were drawn for the group. */
  datatype Query = Query(group: nat, sender: Place, agg: nat, core: nat) {
    function SrcNode(): Name { Server(sender.pod, sender.rack, sender.node) }
    function InitDest(): Name { Edge(sender.pod, sender.rack) }
    function AggDest1(): Name { Agg(sender.pod, agg) }
    function CoreName(): Name { Core(core) }
  }

  function ServerOf(r: Place): Name {
    Server(r.pod, r.rack, r.node)
  }

  predicate Near(q: Query, r: Place) {
    r.pod == q.sender.pod && r.rack == q.sender.rack
  }

  predicate SamePodOtherRack(q: Query, r: Place) {
    r.pod == q.sender.pod && r.rack != q.sender.rack
  }

  predicate Far(q: Query, r: Place) {
    r.pod != q.sender.pod
  }

  /** The path the planner lays from the sender to `r`. */
  function Path(q: Query, r: Place): seq<Name> {
    [q.SrcNode(), q.InitDest()] +
    if Near(q, r) then [ServerOf(r)]
    else if SamePodOtherRack(q, r) then [q.AggDest1(), Edge(r.pod, r.rack), ServerOf(r)]
    else [q.AggDest1(), q.CoreName(), Agg(r.pod, q.agg), Edge(r.pod, r.rack), ServerOf(r)]
  }

  /** The routing list before compression. */
  function Tree(q: Query, rs: seq<Place>): seq<Name> {
    if rs == [] then [] else [Break] + Path(q, rs[0]) + Tree(q, rs[1..])
  }

  /** The routing list after the sender's pod has been taken out. */
  function Reduced(q: Query, rs: seq<Place>): seq<Name> {
    if rs == [] then []
    else
      var r := rs[0];
      var kept := if Near(q, r) then []
                  else if SamePodOtherRack(q, r) then [Edge(r.pod, r.rack), ServerOf(r)]
                  else [Agg(r.pod, q.agg), Edge(r.pod, r.rack), ServerOf(r)];
      [Break] + (kept + Reduced(q, rs[1..]))
  }

  /** The hop after `x` on the path to `r`, if there is one. */
  function Next(q: Query, r: Place, x: Name): seq<Name> {
    if x == q.SrcNode() then [q.InitDest()]
    else if x == q.InitDest() then [if Near(q, r) then ServerOf(r) else q.AggDest1()]
    else if Near(q, r) then []
    else if x == q.AggDest1() then [if SamePodOtherRack(q, r) then Edge(r.pod, r.rack) else q.CoreName()]
    else if x == Edge(r.pod, r.rack) then [ServerOf(r)]
    else if SamePodOtherRack(q, r) then []
    else if x == q.CoreName() then [Agg(r.pod, q.agg)]
    else if x == Agg(r.pod, q.agg) then [Edge(r.pod, r.rack)]
    else []
  }

  /** `d` comes right after `x` on path `p`. */
  ghost predicate Follows(p: seq<Name>, x: Name, d: Name) {
    exists i :: 0 <= i < |p| - 1 && p[i] == x && p[i + 1] == d
  }

  lemma NextIsFollows(q: Query, r: Place, x: Name, d: Name)
    requires r != q.sender
    ensures d in Next(q, r, x) <==> Follows(Path(q, r), x, d)
  {
    var p := Path(q, r);
    assert p[0] == q.SrcNode() && p[1] == q.InitDest();
    if d in Next(q, r, x) {
      if x == p[0] {
        assert p[0 + 1] == d;
      } else if x == p[1] {
        assert p[1 + 1] == d;
      } else if x == p[2] {
        assert p[2 + 1] == d;
      } else if x == p[3] {
        assert p[3 + 1] == d;
      } else if x == p[4] {
        assert p[4 + 1] == d;
      } else {
        assert x == p[5] && p[5 + 1] == d;
      }
    }
  }

  /** The hops after `x`, one for each receiver whose path continues beyond `x`. */
  function Hops(q: Query, rs: seq<Place>, x: Name): seq<Name> {
    if rs == [] then [] else Next(q, rs[0], x) + Hops(q, rs[1..], x)
  }

  lemma HopsMeans(q: Query, rs: seq<Place>, x: Name, d: Name)
    ensures d in Hops(q, rs, x) <==> exists r :: r in rs && d in Next(q, r, x)
  {
    if rs != [] {
      HopsMeans(q, rs[1..], x, d);
      assert rs == [rs[0]] + rs[1..];
    }
  }

  // ---------------------------------------------------------------- list utilities

  /** The first occurrences, in order. */
  function Unique(xs: seq<Name>): seq<Name> {
    if xs == [] then []
    else
      var u := Unique(xs[..|xs| - 1]);
      if xs[|xs| - 1] in u then u else u + [xs[|xs| - 1]]
  }

  ghost predicate NoDuplicates<T(!new)>(xs: seq<T>) {
    forall i, j :: 0 <= i < j < |xs| ==> xs[i] != xs[j]
  }

  lemma {:induction false} UniqueMeans(xs: seq<Name>)
    ensures NoDuplicates(Unique(xs))
    ensures forall x :: x in Unique(xs) <==> x in xs
    ensures |Unique(xs)| <= |xs|
  {
    if xs != [] {
      UniqueMeans(xs[..|xs| - 1]);
      assert xs == xs[..|xs| - 1] + [xs[|xs| - 1]];
    }
  }

  /** getUniqueVector, compacting in place behind a write position. */
  method GetUniqueVector(xs: seq<Name>) returns (v: seq<Name>)
    ensures v == Unique(xs)
  {
    v := xs;
    var r, w := 0, 0;
    var tmpset := {};
    while r < |v|
      invariant 0 <= w <= r <= |v| == |xs|
      invariant forall k :: r <= k < |v| ==> v[k] == xs[k]
      invariant v[..w] == Unique(xs[..r])
      invariant forall x :: x in tmpset <==> x in v[..w]
    {
      assert xs[..r + 1][..r] == xs[..r];
      if v[r] !in tmpset {
        tmpset := tmpset + {v[r]};
        v := v[w := v[r]];
        w := w + 1;
      }
      r := r + 1;
    }
    assert xs[..r] == xs;
    v := v[..w];
  }

  /** removeSameConsecutiveElements */
  function Squeeze(t: seq<Name>): seq<Name> {
    if |t| < 2 then t else if t[0] == t[1] then Squeeze(t[1..]) else [t[0]] + Squeeze(t[1..])
  }

  /** A single break mark at the end is dropped. */
  function PopBreak(t: seq<Name>): seq<Name> {
    if t != [] && t[|t| - 1] == Break then t[..|t| - 1] else t
  }

  function StripBreaks(t: seq<Name>): seq<Name> {
    if t != [] && t[|t| - 1] == Break then StripBreaks(t[..|t| - 1]) else t
  }

  /** The pass that looks for a break mark two places behind a break mark, from position `i` on. */
  function DropExtra(t: seq<Name>, i: nat): seq<Name>
    decreases |t|, |t| - i
  {
    if i >= |t| then t
    else
      var drop := t[i] == Break && i + 1 < |t| && (i + 2 >= |t| || t[i + 2] == Break);
      var u := if drop then t[..i + 1] + t[i + 2..] else t;
      if i + 2 < |u| then DropExtra(u, i + 1) else u
  }

  // ---------------------------------------------------------------- the sender's pod

  /** What the scan of the sender's pod leaves of a list, and the hops it collects. */
  datatype Scan = Scan(kept: seq<Name>, edge: seq<Name>, agg: seq<Name>, core: seq<Name>)

  function ScanPod(q: Query, t: seq<Name>): Scan {
    if t == [] then Scan([], [], [], [])
    else if t[0] == q.SrcNode() then ScanPod(q, t[1..])
    else if |t| == 1 then Scan(t, [], [], [])
    else if t[0] == q.InitDest() then
      var s := ScanPod(q, if t[1] != q.AggDest1() then t[2..] else t[1..]);
      s.(edge := [t[1]] + s.edge)
    else if t[0] == q.AggDest1() then
      var s := ScanPod(q, t[1..]);
      s.(agg := [t[1]] + s.agg)
    else if t[0] == q.CoreName() then
      var s := ScanPod(q, t[1..]);
      s.(core := [t[1]] + s.core)
    else
      var s := ScanPod(q, t[1..]);
      s.(kept := [t[0]] + s.kept)
  }

  lemma {:induction false} ScanPlain(q: Query, s: seq<Name>, rest: seq<Name>)
    requires forall i :: 0 <= i < |s| ==> s[i] !in {q.SrcNode(), q.InitDest(), q.AggDest1(), q.CoreName()}
    ensures var scan := ScanPod(q, rest); ScanPod(q, s + rest) == scan.(kept := s + scan.kept)
  {
    if s == [] {
      assert s + rest == rest && s + ScanPod(q, rest).kept == ScanPod(q, rest).kept;
    } else {
      ScanPlain(q, s[1..], rest);
      assert (s + rest)[1..] == s[1..] + rest;
      assert s + ScanPod(q, rest).kept == [s[0]] + (s[1..] + ScanPod(q, rest).kept);
    }
  }

  lemma ScanSource(q: Query, rest: seq<Name>)
    ensures ScanPod(q, [q.SrcNode()] + rest) == ScanPod(q, rest)
  {
    assert ([q.SrcNode()] + rest)[1..] == rest;
  }

  lemma ScanEdge(q: Query, x: Name, rest: seq<Name>)
    ensures var s := ScanPod(q, if x == q.AggDest1() then [x] + rest else rest);
            ScanPod(q, [q.InitDest()] + ([x] + rest)) == s.(edge := [x] + s.edge)
  {
    var t := [q.InitDest()] + ([x] + rest);
    assert t[1..] == [x] + rest;
    assert t[2..] == rest;
    assert t[1] == x;
  }

  lemma ScanAgg(q: Query, x: Name, rest: seq<Name>)
    ensures var s := ScanPod(q, [x] + rest); ScanPod(q, [q.AggDest1()] + ([x] + rest)) == s.(agg := [x] + s.agg)
  {
    var t := [q.AggDest1()] + ([x] + rest);
    assert t[1..] == [x] + rest;
    assert t[1] == x;
  }

  lemma ScanCore(q: Query, x: Name, rest: seq<Name>)
    ensures var s := ScanPod(q, [x] + rest); ScanPod(q, [q.CoreName()] + ([x] + rest)) == s.(core := [x] + s.core)
  {
    var t := [q.CoreName()] + ([x] + rest);
    assert t[1..] == [x] + rest;
    assert t[1] == x;
  }

  lemma ScanStart(q: Query, x: Name, tail: seq<Name>, rest: seq<Name>)
    ensures var s := ScanPod(q, if x == q.AggDest1() then [x] + (tail + rest) else tail + rest);
            ScanPod(q, [Break] + ([q.SrcNode(), q.InitDest()] + ([x] + tail)) + rest) ==
            s.(kept := [Break] + s.kept, edge := [x] + s.edge)
  {
    var p := [q.InitDest()] + ([x] + tail);
    Regroup([x], tail, rest);
    Regroup([q.InitDest()], [x] + tail, rest);
    Regroup([q.SrcNode()], p, rest);
    Regroup([Break], [q.SrcNode()] + p, rest);
    assert [q.SrcNode(), q.InitDest()] + ([x] + tail) == [q.SrcNode()] + p;
    ScanEdge(q, x, tail + rest);
    ScanSource(q, p + rest);
    ScanPlain(q, [Break], [q.SrcNode()] + (p + rest));
  }

  lemma ScanNearPath(q: Query, r: Place, rest: seq<Name>)
    requires Near(q, r)
    ensures var s := ScanPod(q, rest);
            ScanPod(q, [Break] + Path(q, r) + rest) == s.(kept := [Break] + s.kept, edge := [ServerOf(r)] + s.edge)
  {
    ScanStart(q, ServerOf(r), [], rest);
    assert [ServerOf(r)] + [] == [ServerOf(r)];
    assert [] + rest == rest;
  }

  lemma ScanOtherRackPath(q: Query, r: Place, rest: seq<Name>)
    requires SamePodOtherRack(q, r)
    ensures var s := ScanPod(q, rest);
            ScanPod(q, [Break] + Path(q, r) + rest) ==
            s.(kept := [Break] + ([Edge(r.pod, r.rack), ServerOf(r)] + s.kept),
               edge := [q.AggDest1()] + s.edge, agg := [Edge(r.pod, r.rack)] + s.agg)
  {
    var tail := [Edge(r.pod, r.rack), ServerOf(r)];
    ScanStart(q, q.AggDest1(), tail, rest);
    assert [q.AggDest1(), tail[0], tail[1]] == [q.AggDest1()] + tail;
    Regroup([tail[0]], [tail[1]], rest);
    assert tail == [tail[0]] + [tail[1]];
    ScanAgg(q, tail[0], [tail[1]] + rest);
    ScanPlain(q, tail, rest);
  }

  lemma ScanFarPath(q: Query, r: Place, rest: seq<Name>)
    requires Far(q, r)
    ensures var s := ScanPod(q, rest);
            ScanPod(q, [Break] + Path(q, r) + rest) ==
            s.(kept := [Break] + ([Agg(r.pod, q.agg), Edge(r.pod, r.rack), ServerOf(r)] + s.kept),
               edge := [q.AggDest1()] + s.edge, agg := [q.CoreName()] + s.agg, core := [Agg(r.pod, q.agg)] + s.core)
  {
    var far := [Agg(r.pod, q.agg), Edge(r.pod, r.rack), ServerOf(r)];
    var tail := [q.CoreName()] + far;
    ScanStart(q, q.AggDest1(), tail, rest);
    assert [q.AggDest1(), q.CoreName(), far[0], far[1], far[2]] == [q.AggDest1()] + tail;
    Regroup([q.CoreName()], far, rest);
    Regroup([far[0]], far[1..], rest);
    assert far == [far[0]] + far[1..];
    ScanAgg(q, q.CoreName(), far + rest);
    ScanCore(q, far[0], far[1..] + rest);
    ScanPlain(q, far, rest);
  }

  /** The scan of the sender's pod collects exactly the hops that leave its edge switch, its aggregation router and the
      core router, and keeps what lies behind them. */
  lemma {:induction false} ScanCollectsHops(q: Query, rs: seq<Place>)
    ensures ScanPod(q, Tree(q, rs))
         == Scan(Reduced(q, rs), Hops(q, rs, q.InitDest()), Hops(q, rs, q.AggDest1()), Hops(q, rs, q.CoreName()))
  {
    if rs != [] {
      var r, rest := rs[0], Tree(q, rs[1..]);
      ScanCollectsHops(q, rs[1..]);
      if Near(q, r) {
        ScanNearPath(q, r, rest);
      } else if SamePodOtherRack(q, r) {
        ScanOtherRackPath(q, r, rest);
      } else {
        ScanFarPath(q, r, rest);
      }
    }
  }

  // ---------------------------------------------------------------- the receivers' pods

  /** Lists, each behind a break mark. */
  function Blocks(lists: seq<seq<Name>>): seq<Name> {
    if lists == [] then [] else [Break] + (lists[0] + Blocks(lists[1..]))
  }

  /** What is left of the paths to receivers in other pods. */
  function FarPaths(q: Query, rs: seq<Place>): seq<seq<Name>> {
    if rs == [] then []
    else if Far(q, rs[0]) then [[Agg(rs[0].pod, q.agg), Edge(rs[0].pod, rs[0].rack), ServerOf(rs[0])]]
      + FarPaths(q, rs[1..])
    else FarPaths(q, rs[1..])
  }

  lemma {:induction false} SqueezeList(s: seq<Name>, t: seq<Name>)
    requires forall i :: 0 <= i < |s| - 1 ==> s[i] != s[i + 1]
    requires s != [] && t != [] ==> t[0] != s[|s| - 1]
    ensures Squeeze(s + t) == s + Squeeze(t)
  {
    if s == [] {
      assert s + t == t;
    } else {
      SqueezeList(s[1..], t);
      assert (s + t)[1..] == s[1..] + t;
      assert s + Squeeze(t) == [s[0]] + (s[1..] + Squeeze(t));
    }
  }

  lemma {:induction false} ReducedIsBlocks(q: Query, rs: seq<Place>)
    requires forall r :: r in rs ==> !SamePodOtherRack(q, r)
    ensures PopBreak(Squeeze(Reduced(q, rs))) == Blocks(FarPaths(q, rs))
    ensures rs != [] ==> Reduced(q, rs) != [] && Reduced(q, rs)[0] == Break
    ensures rs != [] ==> Squeeze(Reduced(q, rs)) != []
  {
    if rs != [] {
      var r, t := rs[0], Reduced(q, rs[1..]);
      assert r in rs && forall x :: x in rs[1..] ==> x in rs;
      ReducedIsBlocks(q, rs[1..]);
      if Near(q, r) {
        assert [] + t == t;
        NearBlock(t);
      } else {
        assert FarPaths(q, rs)[1..] == FarPaths(q, rs[1..]);
        FarBlock([Agg(r.pod, q.agg), Edge(r.pod, r.rack), ServerOf(r)], t);
      }
    }
  }

  /** A near receiver's break mark vanishes. */
  lemma NearBlock(t: seq<Name>)
    requires t != [] ==> t[0] == Break
    ensures PopBreak(Squeeze([Break] + t)) == PopBreak(Squeeze(t)) && Squeeze([Break] + t) != []
  {
    assert ([Break] + t)[1..] == t;
  }

  /** Squeezing leaves a far receiver's block alone. */
  lemma FarBlock(path: seq<Name>, t: seq<Name>)
    requires |path| == 3 && path[0].Agg? && path[1].Edge? && path[2].Server? && (t != [] ==> t[0] == Break)
    ensures PopBreak(Squeeze([Break] + (path + t))) == [Break] + (path + PopBreak(Squeeze(t)))
    ensures Squeeze([Break] + (path + t)) != []
  {
    SqueezeList(path, t);
    SqueezeList([Break], path + t);
    PopBehind(path, Squeeze(t));
    PopBehind([Break], path + Squeeze(t));
  }

  lemma PopBehind(s: seq<Name>, t: seq<Name>)
    requires t != [] || (s != [] && s[|s| - 1] != Break)
    ensures PopBreak(s + t) == s + PopBreak(t)
  {
    if t != [] {
      assert (s + t)[..|s + t| - 1] == s + t[..|t| - 1];
    } else {
      assert s + t == s;
    }
  }

  /** What the scan for one leading node leaves of a list, and the hops it collects: the node itself is taken out, and
      the name behind it is collected, kept and skipped. */
  datatype Lead = Lead(kept: seq<Name>, dests: seq<Name>)

  function ScanLead(t: seq<Name>, x: Name): Lead {
    if t == [] then Lead([], [])
    else if t[0] != x then
      var s := ScanLead(t[1..], x);
      s.(kept := [t[0]] + s.kept)
    else if |t| == 1 then Lead([], [])
    else
      var s := ScanLead(t[2..], x);
      Lead([t[1]] + s.kept, [t[1]] + s.dests)
  }

  lemma LeadPasses(y: Name, t: seq<Name>, x: Name)
    requires y != x
    ensures var lead := ScanLead(t, x); ScanLead([y] + t, x) == lead.(kept := [y] + lead.kept)
  {
    assert ([y] + t)[1..] == t;
  }

  lemma {:induction false} LeadPlain(s: seq<Name>, rest: seq<Name>, x: Name)
    requires x !in s
    ensures var lead := ScanLead(rest, x); ScanLead(s + rest, x) == lead.(kept := s + lead.kept)
  {
    if s == [] {
      assert s + rest == rest && s + ScanLead(rest, x).kept == ScanLead(rest, x).kept;
    } else {
      LeadPlain(s[1..], rest, x);
      assert s == [s[0]] + s[1..];
      Regroup([s[0]], s[1..], rest);
      Regroup([s[0]], s[1..], ScanLead(rest, x).kept);
      LeadPasses(s[0], s[1..] + rest, x);
    }
  }

  /** A list of at least two names without a break mark, in which `x` can only stand in front. */
  predicate MayLead(s: seq<Name>, x: Name) {
    |s| >= 2 && Break !in s && x !in s[1..]
  }

  function Behead(s: seq<Name>, gone: set<Name>): seq<Name> {
    if s != [] && s[0] in gone then s[1..] else s
  }

  function Beheaded(lists: seq<seq<Name>>, gone: set<Name>): seq<seq<Name>> {
    if lists == [] then [] else [Behead(lists[0], gone)] + Beheaded(lists[1..], gone)
  }

  function Heads(lists: seq<seq<Name>>): seq<Name> {
    if lists == [] then [] else (if lists[0] == [] then [] else [lists[0][0]]) + Heads(lists[1..])
  }

  function Tails(lists: seq<seq<Name>>): seq<seq<Name>> {
    if lists == [] then [] else [if lists[0] == [] then [] else lists[0][1..]] + Tails(lists[1..])
  }

  /** The second names of the lists that start with `x`. */
  function Followers(lists: seq<seq<Name>>, x: Name): seq<Name> {
    if lists == [] then []
    else (if |lists[0]| >= 2 && lists[0][0] == x then [lists[0][1]] else []) + Followers(lists[1..], x)
  }

  lemma LeadPair(x: Name, y: Name, rest: seq<Name>)
    ensures var lead := ScanLead(rest, x); ScanLead([x] + ([y] + rest), x) == Lead([y] + lead.kept, [y] + lead.dests)
  {
    var t := [x] + ([y] + rest);
    assert t[2..] == rest && t[1] == y;
  }

  lemma LeadAtHead(s: seq<Name>, rest: seq<Name>, x: Name)
    requires MayLead(s, x) && s[0] == x
    ensures var lead := ScanLead(rest, x); ScanLead(s + rest, x) == Lead(s[1..] + lead.kept, [s[1]] + lead.dests)
  {
    var y, tail := s[1], s[1..][1..];
    LeadPlain(tail, rest, x);
    LeadPair(x, y, tail + rest);
    Regroup([y], tail, rest);
    Regroup([x], [y] + tail, rest);
    assert s == [x] + ([y] + tail);
    Regroup([y], tail, ScanLead(rest, x).kept);
    assert s[1..] == [y] + tail;
  }

  lemma LeadElsewhere(s: seq<Name>, rest: seq<Name>, gone: set<Name>, x: Name)
    requires MayLead(s, x) && s[0] != x
    ensures var lead := ScanLead(rest, x);
            ScanLead(Behead(s, gone) + rest, x) == lead.(kept := Behead(s, gone + {x}) + lead.kept)
  {
    assert x !in s by {
      assert s == [s[0]] + s[1..];
    }
    LeadPlain(Behead(s, gone), rest, x);
  }

  lemma LeadBlock(s: seq<Name>, rest: seq<Name>, gone: set<Name>, x: Name)
    requires MayLead(s, x) && x !in gone && x != Break
    ensures var lead := ScanLead(rest, x);
            ScanLead([Break] + (Behead(s, gone) + rest), x) ==
            Lead([Break] + (Behead(s, gone + {x}) + lead.kept), (if s[0] == x then [s[1]] else []) + lead.dests)
  {
    LeadPlain([Break], Behead(s, gone) + rest, x);
    if s[0] == x {
      LeadAtHead(s, rest, x);
    } else {
      LeadElsewhere(s, rest, gone, x);
      assert [] + ScanLead(rest, x).dests == ScanLead(rest, x).dests;
    }
  }

  /** One scan takes `x` off the front of every list that starts with it and collects the names behind. */
  lemma {:induction false} LeadScansBlocks(lists: seq<seq<Name>>, gone: set<Name>, x: Name)
    requires (forall s :: s in lists ==> MayLead(s, x)) && x !in gone && x != Break
    ensures ScanLead(Blocks(Beheaded(lists, gone)), x) == Lead(Blocks(Beheaded(lists, gone + {x})), Followers(lists, x))
  {
    if lists != [] {
      assert lists[0] in lists && forall s :: s in lists[1..] ==> s in lists;
      LeadScansBlocks(lists[1..], gone, x);
      LeadBlock(lists[0], Blocks(Beheaded(lists[1..], gone)), gone, x);
      assert Beheaded(lists, gone)[1..] == Beheaded(lists[1..], gone);
      assert Beheaded(lists, gone + {x})[1..] == Beheaded(lists[1..], gone + {x});
    }
  }

  lemma {:induction false} BeheadNone(lists: seq<seq<Name>>)
    ensures Beheaded(lists, {}) == lists
  {
    if lists != [] {
      BeheadNone(lists[1..]);
    }
  }

  lemma {:induction false} BeheadAll(lists: seq<seq<Name>>, gone: set<Name>)
    requires forall s :: s in lists ==> s != [] && s[0] in gone
    ensures Beheaded(lists, gone) == Tails(lists)
  {
    if lists != [] {
      assert lists[0] in lists && forall s :: s in lists[1..] ==> s in lists;
      BeheadAll(lists[1..], gone);
    }
  }

  /** The names right behind a break mark. */
  function AfterBreaks(t: seq<Name>): seq<Name> {
    if |t| < 2 then [] else (if t[0] == Break then [t[1]] else []) + AfterBreaks(t[1..])
  }

  lemma {:induction false} NoBreaksInside(s: seq<Name>, rest: seq<Name>)
    requires Break !in s
    ensures AfterBreaks(s + rest) == AfterBreaks(rest)
  {
    if s == [] {
      assert s + rest == rest;
    } else {
      NoBreaksInside(s[1..], rest);
      assert (s + rest)[1..] == s[1..] + rest;
    }
  }

  lemma {:induction false} AfterBreaksAreHeads(lists: seq<seq<Name>>)
    requires forall s :: s in lists ==> s != [] && Break !in s
    ensures AfterBreaks(Blocks(lists)) == Heads(lists)
  {
    if lists != [] {
      assert lists[0] in lists && forall s :: s in lists[1..] ==> s in lists;
      AfterBreaksAreHeads(lists[1..]);
      var rest := lists[0] + Blocks(lists[1..]);
      NoBreaksInside(lists[0], Blocks(lists[1..]));
      assert ([Break] + rest)[1..] == rest;
    }
  }

  lemma {:induction false} HeadsMeans(lists: seq<seq<Name>>, x: Name)
    ensures x in Heads(lists) <==> exists s :: s in lists && s != [] && s[0] == x
  {
    if lists != [] {
      HeadsMeans(lists[1..], x);
      assert lists == [lists[0]] + lists[1..];
    }
  }

  // ---------------------------------------------------------------- passes that find nothing to do

  /** Every list is a pair of two different names. */
  predicate Pairs(lists: seq<seq<Name>>) {
    forall s :: s in lists ==> |s| == 2 && s[0] != s[1] && Break !in s
  }

  lemma {:induction false} BlocksOfPairs(lists: seq<seq<Name>>)
    requires Pairs(lists)
    ensures var t := Blocks(lists); forall k :: 0 <= k < |t| && t[k] == Break ==> k + 2 < |t| && t[k + 2] != Break
    ensures Squeeze(Blocks(lists)) == Blocks(lists)
  {
    if lists != [] {
      assert lists[0] in lists && forall s :: s in lists[1..] ==> s in lists;
      var t, rest := Blocks(lists), Blocks(lists[1..]);
      BlocksOfPairs(lists[1..]);
      assert t[1] == lists[0][0] && t[2] == lists[0][1];
      forall k | 0 <= k < |t| && t[k] == Break
        ensures k + 2 < |t| && t[k + 2] != Break
      {
        if k >= 3 {
          assert t[k] == rest[k - 3] && k - 1 < |rest| && t[k + 2] == rest[k - 1];
        }
      }
      SqueezeList(lists[0], rest);
      SqueezeList([Break], lists[0] + rest);
    }
  }

  lemma {:induction false} NothingExtra(t: seq<Name>, i: nat)
    requires forall k :: 0 <= k < |t| && t[k] == Break ==> k + 2 < |t| && t[k + 2] != Break
    ensures DropExtra(t, i) == t
    decreases |t| - i
  {
    if i + 2 < |t| {
      NothingExtra(t, i + 1);
    }
  }

  /** The passes between the two compression stages leave a list of pairs as it is. */
  lemma NothingToClean(lists: seq<seq<Name>>)
    requires Pairs(lists)
    ensures StripBreaks(Blocks(lists)) == Blocks(lists)
    ensures DropExtra(Blocks(lists), 0) == Blocks(lists)
    ensures Squeeze(Blocks(lists)) == Blocks(lists)
  {
    var t := Blocks(lists);
    BlocksOfPairs(lists);
    NothingExtra(t, 0);
    assert t != [] ==> t[|t| - 1] != Break;
  }
}
