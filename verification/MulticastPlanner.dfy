/** The planner itself, working in place on the routing list, and the entries it adds for a group. */
module MulticastPlanner {
  import opened Multicast
  import opened Sequences
  import opened Topology
  import opened Layout

  /** The entries of one compression stage: the leading nodes with the names behind them. */
  function StageEntries(group: nat, heads: seq<Name>, lists: seq<seq<Name>>, unique: bool): seq<MulticastInfo> {
    if heads == [] then []
    else
      var x := heads[|heads| - 1];
      var dests := Followers(lists, x);
      StageEntries(group, heads[..|heads| - 1], lists, unique)
        + [MulticastInfo(group, x, if unique then Unique(dests) else dests)]
  }

  /** An entry, unless there is nowhere to send to. */
  function EntryFor(group: nat, x: Name, dests: seq<Name>): seq<MulticastInfo> {
    if dests == [] then [] else [MulticastInfo(group, x, dests)]
  }

  function SenderPodEntries(q: Query, rs: seq<Place>): seq<MulticastInfo> {
    [MulticastInfo(q.group, q.SrcNode(), [q.InitDest()])]
    + EntryFor(q.group, q.InitDest(), Unique(Hops(q, rs, q.InitDest())))
    + EntryFor(q.group, q.AggDest1(), Unique(Hops(q, rs, q.AggDest1())))
    + EntryFor(q.group, q.CoreName(), Unique(Hops(q, rs, q.CoreName())))
  }

  function OtherPodEntries(q: Query, rs: seq<Place>): seq<MulticastInfo> {
    var far := FarPaths(q, rs);
    StageEntries(q.group, Unique(Heads(far)), far, true)
    + StageEntries(q.group, Unique(Heads(Tails(far))), Tails(far), false)
  }

  /** The entries the planner adds for a group. With a receiver in another rack of the sender's pod, the other pods get
      none. */
  function Plan(q: Query, rs: seq<Place>): seq<MulticastInfo> {
    SenderPodEntries(q, rs) + if exists r :: r in rs && SamePodOtherRack(q, r) then [] else OtherPodEntries(q, rs)
  }

  lemma {:induction false} FarPathsLead(q: Query, rs: seq<Place>)
    ensures var far := FarPaths(q, rs);
            forall s: seq<Name> :: s in far ==> |s| == 3 && s[0].Agg? && s[1].Edge? && s[2].Server?
    ensures var tails := Tails(FarPaths(q, rs));
            forall s: seq<Name> :: s in tails ==> |s| == 2 && s[0].Edge? && s[1].Server?
  {
    if rs != [] {
      FarPathsLead(q, rs[1..]);
      if Far(q, rs[0]) {
        var far := FarPaths(q, rs);
        assert far == [far[0]] + FarPaths(q, rs[1..]);
        assert far[1..] == FarPaths(q, rs[1..]);
        assert Tails(far) == [far[0][1..]] + Tails(FarPaths(q, rs[1..]));
      }
    }
  }

  /** In every list each head can only stand in front. */
  predicate Staged(lists: seq<seq<Name>>) {
    forall s, t :: s in lists && t in lists ==> t != [] && t[0] != Break && MayLead(s, t[0])
  }

  lemma FarPathsAreStaged(q: Query, rs: seq<Place>)
    ensures Staged(FarPaths(q, rs)) && Staged(Tails(FarPaths(q, rs))) && Pairs(Tails(FarPaths(q, rs)))
  {
    FarPathsLead(q, rs);
    var far := FarPaths(q, rs);
    forall s, t | s in far && t in far
      ensures MayLead(s, t[0])
    {
      TripleLeads(s, t[0]);
    }
    var tails := Tails(far);
    forall s, t | s in tails && t in tails
      ensures MayLead(s, t[0])
    {
      PairLeads(s, t[0]);
    }
  }

  lemma TripleLeads(s: seq<Name>, x: Name)
    requires |s| == 3 && Break !in s && x.Agg? && !s[1].Agg? && !s[2].Agg?
    ensures MayLead(s, x)
  {
    assert s[1..] == [s[1], s[2]];
  }

  lemma PairLeads(s: seq<Name>, x: Name)
    requires |s| == 2 && Break !in s && x.Edge? && !s[1].Edge?
    ensures MayLead(s, x)
  {
    assert s[1..] == [s[1]];
  }

  /** Every entry sends along links of the tree. */
  predicate SendsAlongLinks(h: nat, infos: seq<MulticastInfo>) {
    forall e :: e in infos ==> forall d :: d in e.destinations ==> Link(h, e.routeName, d)
  }

  lemma {:induction false} StageSendsAlongLinks(h: nat, group: nat, heads: seq<Name>, lists: seq<seq<Name>>,
                                                unique: bool)
    requires LinkedInFront(h, lists)
    ensures SendsAlongLinks(h, StageEntries(group, heads, lists, unique))
  {
    if heads != [] {
      var x := heads[|heads| - 1];
      StageSendsAlongLinks(h, group, heads[..|heads| - 1], lists, unique);
      UniqueMeans(Followers(lists, x));
      forall d | d in Followers(lists, x)
        ensures Link(h, x, d)
      {
        FollowersAreLinked(h, lists, x, d);
      }
    }
  }

  lemma HopEntrySendsAlongLinks(h: nat, q: Query, rs: seq<Place>, x: Name)
    requires h > 0 && InTree(h, q.sender) && Drawn(h, q)
    requires forall r :: r in rs ==> InTree(h, r)
    ensures SendsAlongLinks(h, EntryFor(q.group, x, Unique(Hops(q, rs, x))))
  {
    UniqueMeans(Hops(q, rs, x));
    forall d | d in Hops(q, rs, x)
      ensures Link(h, x, d)
    {
      HopsAreLinks(h, q, rs, x, d);
    }
  }

  lemma BothSendAlongLinks(h: nat, a: seq<MulticastInfo>, b: seq<MulticastInfo>)
    requires SendsAlongLinks(h, a) && SendsAlongLinks(h, b)
    ensures SendsAlongLinks(h, a + b)
  {
  }

  lemma SenderPodUsesLinks(h: nat, q: Query, rs: seq<Place>)
    requires h > 0 && InTree(h, q.sender) && Drawn(h, q)
    requires forall r :: r in rs ==> InTree(h, r)
    ensures SendsAlongLinks(h, SenderPodEntries(q, rs))
  {
    var s := [MulticastInfo(q.group, q.SrcNode(), [q.InitDest()])];
    var e := EntryFor(q.group, q.InitDest(), Unique(Hops(q, rs, q.InitDest())));
    var a := EntryFor(q.group, q.AggDest1(), Unique(Hops(q, rs, q.AggDest1())));
    var c := EntryFor(q.group, q.CoreName(), Unique(Hops(q, rs, q.CoreName())));
    assert SendsAlongLinks(h, s);
    HopEntrySendsAlongLinks(h, q, rs, q.InitDest());
    HopEntrySendsAlongLinks(h, q, rs, q.AggDest1());
    HopEntrySendsAlongLinks(h, q, rs, q.CoreName());
    BothSendAlongLinks(h, s, e);
    BothSendAlongLinks(h, s + e, a);
    BothSendAlongLinks(h, s + e + a, c);
  }

  lemma OtherPodsUseLinks(h: nat, q: Query, rs: seq<Place>)
    requires h > 0 && Drawn(h, q) && forall r :: r in rs ==> InTree(h, r)
    ensures SendsAlongLinks(h, OtherPodEntries(q, rs))
  {
    var far := FarPaths(q, rs);
    FarPathsAreLinked(h, q, rs);
    StageSendsAlongLinks(h, q.group, Unique(Heads(far)), far, true);
    StageSendsAlongLinks(h, q.group, Unique(Heads(Tails(far))), Tails(far), false);
    BothSendAlongLinks(h, StageEntries(q.group, Unique(Heads(far)), far, true),
                       StageEntries(q.group, Unique(Heads(Tails(far))), Tails(far), false));
  }

  /** Whatever the group, every entry the planner adds for it sends along links of the tree, to nodes that are there. */
  lemma PlanUsesLinks(h: nat, q: Query, rs: seq<Place>)
    requires h > 0 && InTree(h, q.sender) && Drawn(h, q)
    requires forall r :: r in rs ==> InTree(h, r)
    ensures SendsAlongLinks(h, Plan(q, rs))
  {
    SenderPodUsesLinks(h, q, rs);
    OtherPodsUseLinks(h, q, rs);
    BothSendAlongLinks(h, SenderPodEntries(q, rs), []);
    BothSendAlongLinks(h, SenderPodEntries(q, rs), OtherPodEntries(q, rs));
  }

  // ---------------------------------------------------------------- drawing the routers

  datatype CoreAggMap = CoreAggMap(aggIndex: nat, associatedCores: seq<nat>)

  /** The core routers behind an aggregation router. */
  function Associated(h: nat, agg: nat): CoreAggMap {
    CoreAggMap(agg, seq(h, j => agg * h + j))
  }

  /** The associations of all aggregation routers below `n`. */
  function Associations(h: nat, n: nat): seq<CoreAggMap> {
    seq(n, i requires 0 <= i < n => Associated(h, i))
  }

  class CentralScheduler {
    var multicastInfoList: seq<MulticastInfo>
    var coreAggMapList: seq<CoreAggMap>

    constructor ()
      ensures multicastInfoList == [] && coreAggMapList == []
    {
      multicastInfoList, coreAggMapList := [], [];
    }

    /** Every entry of the list is right; calls add to it and nothing is taken off. */
    ghost predicate RightMap(h: nat)
      reads this`coreAggMapList
    {
      forall m :: m in coreAggMapList ==> m == Associated(h, m.aggIndex)
    }

    /** Appends the core routers of every aggregation router, numbered through. */
    method MapCores(h: nat)
      modifies this`coreAggMapList
      ensures coreAggMapList == old(coreAggMapList) + Associations(h, h)
    {
      var step := 0;
      ghost var before := coreAggMapList;
      for i := 0 to h
        invariant step == i * h
        invariant coreAggMapList == before + Associations(h, i)
      {
        var cores := [];
        for j := 0 to h
          invariant step == i * h + j
          invariant cores == seq(j, j' => i * h + j')
        {
          cores := cores + [step];
          step := step + 1;
        }
        coreAggMapList := coreAggMapList + [CoreAggMap(i, cores)];
      }
    }

    /** Draws the aggregation router and, for each entry of it in the list, a core router; the last one stays. `aggDraw`
        and `coreDraw` are the random numbers, those of the core routers by the position of the entry. */
    method DrawRouters(h: nat, aggDraw: nat, coreDraw: nat -> nat) returns (agg: nat, core: nat)
      requires h > 0 && RightMap(h)
      modifies this`coreAggMapList
      ensures RightMap(h) && coreAggMapList == old(coreAggMapList) + Associations(h, h)
      ensures agg == aggDraw % h && core < h * h && core / h == agg
      ensures core % h == coreDraw(|old(coreAggMapList)| + agg) % h
    {
      MapCores(h);
      agg, core := aggDraw % h, 0;
      ghost var mine := |old(coreAggMapList)| + agg;
      for i := 0 to |coreAggMapList|
        invariant i > mine ==> core == agg * h + coreDraw(mine) % h
      {
        var m := coreAggMapList[i];
        if m.aggIndex == agg {
          var tempCore := coreDraw(i) % h;
          assert m == Associated(h, agg);
          core := m.associatedCores[tempCore];
        }
      }
      TwoDigits(agg, coreDraw(mine) % h, h, h);
    }

    /** The path of every receiver, each behind a break mark, and whether some receiver is in another rack of the
        pod. */
    static method LayPaths(q: Query, receiversGroup: seq<Place>) returns (routingTree: seq<Name>, samePodDiffRack: bool)
      ensures routingTree == Tree(q, receiversGroup)
      ensures samePodDiffRack <==> exists r :: r in receiversGroup && SamePodOtherRack(q, r)
    {
      routingTree, samePodDiffRack := [], false;
      for i := 0 to |receiversGroup|
        invariant routingTree + Tree(q, receiversGroup[i..]) == Tree(q, receiversGroup)
        invariant samePodDiffRack <==> exists r :: r in receiversGroup[..i] && SamePodOtherRack(q, r)
      {
        var r := receiversGroup[i];
        ghost var before := routingTree;
        routingTree := routingTree + [Break] + [q.SrcNode(), q.InitDest()];
        if r.pod == q.sender.pod && r.rack == q.sender.rack {
          routingTree := routingTree + [ServerOf(r)];
        }
        if r.pod == q.sender.pod && r.rack != q.sender.rack {
          samePodDiffRack := true;
          routingTree := routingTree + [q.AggDest1(), Edge(r.pod, r.rack), ServerOf(r)];
        }
        if r.pod != q.sender.pod {
          routingTree := routingTree + [q.AggDest1(), q.CoreName(), Agg(r.pod, q.agg), Edge(r.pod, r.rack),
            ServerOf(r)];
        }
        assert routingTree == before + ([Break] + Path(q, r));
        Regroup(before, [Break] + Path(q, r), Tree(q, receiversGroup[i + 1..]));
        assert receiversGroup[i..][1..] == receiversGroup[i + 1..];
        assert receiversGroup[..i + 1] == receiversGroup[..i] + [r];
      }
      assert routingTree + [] == routingTree;
    }

    /** The scan that takes the sender's pod out of the routing list and collects the hops of its routers. */
    static method ScanSenderPod(q: Query, tree: seq<Name>)
      returns (routingTree: seq<Name>, edge: seq<Name>, agg: seq<Name>, core: seq<Name>)
      requires tree != [] ==> tree[|tree| - 1] !in {q.InitDest(), q.AggDest1(), q.CoreName()}
      ensures Scan(routingTree, edge, agg, core) == ScanPod(q, tree)
    {
      routingTree, edge, agg, core := tree, [], [], [];
      var iter := 0;
      assert routingTree[0..] == tree;
      assert Ahead(q, routingTree, iter, edge, agg, core) == ScanPod(q, tree);
      while iter < |routingTree|
        invariant 0 <= iter <= |routingTree|
        invariant iter < |routingTree| ==> routingTree[|routingTree| - 1] !in {q.InitDest(), q.AggDest1(), q.CoreName()}
        invariant Ahead(q, routingTree, iter, edge, agg, core) == ScanPod(q, tree)
        decreases |routingTree| - iter
      {
        routingTree, iter, edge, agg, core := ScanOne(q, routingTree, iter, edge, agg, core);
      }
    }

    /** One round of the scan, at position `at`. */
    static method ScanOne(q: Query, tree: seq<Name>, at: nat, edge0: seq<Name>, agg0: seq<Name>, core0: seq<Name>)
      returns (routingTree: seq<Name>, iter: nat, edge: seq<Name>, agg: seq<Name>, core: seq<Name>)
      requires at < |tree| && tree[|tree| - 1] !in {q.InitDest(), q.AggDest1(), q.CoreName()}
      ensures iter <= |routingTree| && |routingTree| - iter < |tree| - at
      ensures iter < |routingTree| ==> routingTree[|routingTree| - 1] == tree[|tree| - 1]
      ensures Ahead(q, routingTree, iter, edge, agg, core) == Ahead(q, tree, at, edge0, agg0, core0)
    {
      routingTree, iter, edge, agg, core := tree, at, edge0, agg0, core0;
      AheadStep(q, tree, at, edge0, agg0, core0);
      DroppedShape(q, tree, at);
      var x := routingTree[iter];
      if x == q.SrcNode() {
        routingTree := Erase(routingTree, iter);
      } else if x == q.InitDest() {
        var next := routingTree[iter + 1];
        edge := edge + [next];
        if next != q.AggDest1() {
          routingTree := Erase(routingTree, iter + 1);
        }
        routingTree := Erase(routingTree, iter);
      } else if x == q.AggDest1() {
        agg := agg + [routingTree[iter + 1]];
        routingTree := Erase(routingTree, iter);
      } else if x == q.CoreName() {
        core := core + [routingTree[iter + 1]];
        routingTree := Erase(routingTree, iter);
      } else {
        iter := iter + 1;
      }
    }

    /** The names right behind the break marks, in order. */
    static method LeadingNodes(routingTree: seq<Name>) returns (leadingNodes: seq<Name>)
      requires routingTree != [] ==> routingTree[|routingTree| - 1] != Break
      ensures leadingNodes == AfterBreaks(routingTree)
    {
      leadingNodes := [];
      for it := 0 to |routingTree|
        invariant leadingNodes + AfterBreaks(routingTree[it..]) == AfterBreaks(routingTree)
      {
        AfterStep(routingTree, it, leadingNodes);
        if routingTree[it] == Break {
          leadingNodes := leadingNodes + [routingTree[it + 1]];
        }
      }
    }

    /** The inner scan of a compression stage for the leading node `x`. */
    static method CollectFor(tree: seq<Name>, x: Name) returns (routingTree: seq<Name>, dests: seq<Name>)
      requires tree != [] ==> tree[|tree| - 1] != x
      ensures Lead(routingTree, dests) == ScanLead(tree, x)
    {
      routingTree, dests := tree, [];
      var iter := 0;
      assert routingTree[0..] == tree;
      while iter < |routingTree|
        invariant 0 <= iter <= |routingTree|
        invariant iter < |routingTree| ==> routingTree[|routingTree| - 1] != x
        invariant LeadAhead(routingTree, iter, dests, x) == ScanLead(tree, x)
        decreases |routingTree| - iter
      {
        LeadStep(routingTree, iter, dests, x);
        if routingTree[iter] == x {
          dests := dests + [routingTree[iter + 1]];
          routingTree := Erase(routingTree, iter);
        }
        iter := iter + 1;
      }
    }

    method AddEntry(group: nat, x: Name, dests: seq<Name>)
      modifies this`multicastInfoList
      ensures multicastInfoList == old(multicastInfoList) + EntryFor(group, x, dests)
    {
      if |dests| != 0 {
        multicastInfoList := multicastInfoList + [MulticastInfo(group, x, dests)];
      }
    }

    /** One compression stage: an entry for every leading node, which goes off the front of its lists. */
    method CompressStage(group: nat, tree: seq<Name>, unique: bool, ghost lists: seq<seq<Name>>)
      returns (routingTree: seq<Name>)
      requires Staged(lists) && tree == Blocks(lists)
      modifies this`multicastInfoList
      ensures routingTree == Blocks(Tails(lists))
      ensures multicastInfoList == old(multicastInfoList) + StageEntries(group, Unique(Heads(lists)), lists, unique)
    {
      routingTree := tree;
      StagedBlocks(lists);
      var leadingNodes := LeadingNodes(routingTree);
      leadingNodes := GetUniqueVector(leadingNodes);
      ghost var before := multicastInfoList;
      assert Elements(leadingNodes[..0]) == {};
      for it := 0 to |leadingNodes|
        invariant routingTree == Blocks(Beheaded(lists, Elements(leadingNodes[..it])))
        invariant multicastInfoList == before + StageEntries(group, leadingNodes[..it], lists, unique)
      {
        var x := leadingNodes[it];
        StageStep(lists, it);
        var dests;
        routingTree, dests := CollectFor(routingTree, x);
        if unique {
          dests := GetUniqueVector(dests);
        }
        multicastInfoList := multicastInfoList + [MulticastInfo(group, x, dests)];
        StageGrows(before, group, leadingNodes, it, lists, unique);
      }
      assert leadingNodes[..|leadingNodes|] == leadingNodes;
    }

    /** Drops the break marks at the end. */
    static method StripTrailingBreaks(tree: seq<Name>) returns (routingTree: seq<Name>)
      ensures routingTree == StripBreaks(tree)
    {
      routingTree := tree;
      while routingTree != [] && routingTree[|routingTree| - 1] == Break
        invariant StripBreaks(routingTree) == StripBreaks(tree)
      {
        routingTree := routingTree[..|routingTree| - 1];
      }
    }

    /** The pass that gets rid of extra break marks. */
    static method DropExtraBreaks(tree: seq<Name>) returns (routingTree: seq<Name>)
      ensures routingTree == DropExtra(tree, 0)
    {
      routingTree := tree;
      var iter, more := 0, tree != [];
      while more
        invariant more ==> iter < |routingTree|
        invariant (if more then DropExtra(routingTree, iter) else routingTree) == DropExtra(tree, 0)
        decreases |routingTree| - iter, more
      {
        if routingTree[iter] == Break && iter + 1 < |routingTree|
           && (iter + 2 >= |routingTree| || routingTree[iter + 2] == Break) {
          routingTree := Erase(routingTree, iter + 1);
        }
        more := iter + 2 < |routingTree|;
        iter := iter + 1;
      }
    }

    /** The entries of the sender and of the routers on the way to the core. */
    method AddSenderPod(q: Query, receiversGroup: seq<Place>, tree: seq<Name>) returns (routingTree: seq<Name>)
      requires receiversGroup != [] && tree == Tree(q, receiversGroup)
      modifies this`multicastInfoList
      ensures routingTree == PopBreak(Squeeze(Reduced(q, receiversGroup)))
      ensures multicastInfoList == old(multicastInfoList) + SenderPodEntries(q, receiversGroup)
    {
      ghost var before := multicastInfoList;
      var edge, agg, core;
      TreeEnd(q, receiversGroup);
      routingTree, edge, agg, core := ScanSenderPod(q, tree);
      ScanCollectsHops(q, receiversGroup);
      edge := GetUniqueVector(edge);
      agg := GetUniqueVector(agg);
      core := GetUniqueVector(core);
      routingTree := PopBreak(Squeeze(routingTree));
      multicastInfoList := multicastInfoList + [MulticastInfo(q.group, q.SrcNode(), [q.InitDest()])];
      AddEntry(q.group, q.InitDest(), edge);
      AddEntry(q.group, q.AggDest1(), agg);
      AddEntry(q.group, q.CoreName(), core);
      AppendFour(before, [MulticastInfo(q.group, q.SrcNode(), [q.InitDest()])], EntryFor(q.group, q.InitDest(), edge),
                 EntryFor(q.group, q.AggDest1(), agg), EntryFor(q.group, q.CoreName(), core));
    }

    /** The entries of the routers behind the core, in two compression stages. */
    method AddOtherPods(q: Query, receiversGroup: seq<Place>, tree: seq<Name>)
      requires tree == Blocks(FarPaths(q, receiversGroup))
      modifies this`multicastInfoList
      ensures multicastInfoList == old(multicastInfoList) + OtherPodEntries(q, receiversGroup)
    {
      ghost var before, far := multicastInfoList, FarPaths(q, receiversGroup);
      Regroup(before, StageEntries(q.group, Unique(Heads(far)), far, true),
             StageEntries(q.group, Unique(Heads(Tails(far))), Tails(far), false));
      FarPathsAreStaged(q, receiversGroup);
      NothingToClean(Tails(far));
      var routingTree := CompressStage(q.group, tree, true, far);
      routingTree := StripTrailingBreaks(routingTree);
      routingTree := DropExtraBreaks(routingTree);
      routingTree := StripTrailingBreaks(routingTree);
      routingTree := Squeeze(routingTree);
      routingTree := CompressStage(q.group, routingTree, false, Tails(far));
    }

    /** multicastRoutersLocation: adds the forwarding entries of a group. */
    method MulticastRoutersLocation(q: Query, receiversGroup: seq<Place>)
      requires receiversGroup != []
      modifies this`multicastInfoList
      ensures multicastInfoList == old(multicastInfoList) + Plan(q, receiversGroup)
    {
      ghost var before := multicastInfoList;
      var routingTree, samePodDiffRack := LayPaths(q, receiversGroup);
      routingTree := AddSenderPod(q, receiversGroup, routingTree);
      if !samePodDiffRack {
        ReducedIsBlocks(q, receiversGroup);
      }
      if |routingTree| == 0 {
        samePodDiffRack := true;
      }
      if !samePodDiffRack {
        AddOtherPods(q, receiversGroup, routingTree);
      }
      PlanPieces(q, receiversGroup, before);
    }

    /** multicastRoutersLocation with its draw, for servers given by their numbers: whatever is drawn, the entries are
        those of a query with associated routers, and they send along links of the tree. */
    method PlanGroup(h: nat, group: nat, sender: nat, receiversGroup: seq<nat>, aggDraw: nat, coreDraw: nat -> nat)
      returns (q: Query)
      requires h > 0 && RightMap(h) && receiversGroup != []
      requires forall n :: n in [sender] + receiversGroup ==> n < 2 * h * (h * h)
      modifies this
      ensures RightMap(h) && Drawn(h, q) && q == Query(group, Locate(h, sender), aggDraw % h, q.core)
      ensures multicastInfoList == old(multicastInfoList) + Plan(q, Places(h, receiversGroup))
      ensures SendsAlongLinks(h, multicastInfoList[|old(multicastInfoList)|..])
    {
      var agg, core := DrawRouters(h, aggDraw, coreDraw);
      q := Query(group, Locate(h, sender), agg, core);
      MulticastRoutersLocation(q, Places(h, receiversGroup));
      forall n | n in [sender] + receiversGroup
        ensures InTree(h, Locate(h, n))
      {
        IndexRoundTrip(h, n);
      }
      PlanUsesLinks(h, q, Places(h, receiversGroup));
    }
  }

  lemma PlanPieces(q: Query, rs: seq<Place>, before: seq<MulticastInfo>)
    ensures before + Plan(q, rs) ==
            if (exists r :: r in rs && SamePodOtherRack(q, r)) || Blocks(FarPaths(q, rs)) == []
            then before + SenderPodEntries(q, rs)
            else before + SenderPodEntries(q, rs) + OtherPodEntries(q, rs)
  {
    var pod, others := SenderPodEntries(q, rs), OtherPodEntries(q, rs);
    Regroup(before, pod, others);
    if exists r :: r in rs && SamePodOtherRack(q, r) {
      assert pod + [] == pod;
    } else if Blocks(FarPaths(q, rs)) == [] {
      assert FarPaths(q, rs) == [] && others == [];
      assert pod + [] == pod;
    }
  }

  /** The result of the scan, given that position `iter` is reached with these hops collected. */
  function Ahead(q: Query, t: seq<Name>, iter: nat, edge: seq<Name>, agg: seq<Name>, core: seq<Name>): Scan
    requires iter <= |t|
  {
    var s := ScanPod(q, t[iter..]);
    Scan(t[..iter] + s.kept, edge + s.edge, agg + s.agg, core + s.core)
  }

  function Erase(t: seq<Name>, i: nat): seq<Name>
    requires i < |t|
  {
    t[..i] + t[i + 1..]
  }

  lemma Erased(t: seq<Name>, i: nat, n: nat)
    requires 1 <= n <= 2 && i + n <= |t|
    ensures var u := if n == 1 then Erase(t, i) else Erase(Erase(t, i + 1), i);
            u[..i] == t[..i] && u[i..] == t[i + n..] && |u| == |t| - n
    ensures t[i..][n..] == t[i + n..]
  {
  }

  /** The list after one round at position `i`. */
  function Dropped(q: Query, t: seq<Name>, i: nat): seq<Name>
    requires i < |t| && t[|t| - 1] !in {q.InitDest(), q.AggDest1(), q.CoreName()}
  {
    if t[i] == q.InitDest() then Erase(if t[i + 1] != q.AggDest1() then Erase(t, i + 1) else t, i)
    else if t[i] in {q.SrcNode(), q.AggDest1(), q.CoreName()} then Erase(t, i)
    else t
  }

  lemma DroppedShape(q: Query, t: seq<Name>, i: nat)
    requires i < |t| && t[|t| - 1] !in {q.InitDest(), q.AggDest1(), q.CoreName()}
    ensures var u := Dropped(q, t, i);
            && i <= |u| <= |t| && (i < |u| ==> u[|u| - 1] == t[|t| - 1])
            && (t[i] in {q.SrcNode(), q.InitDest(), q.AggDest1(), q.CoreName()} ==> |u| < |t|)
  {
    EraseEnd(t, i);
    if t[i] == q.InitDest() && t[i + 1] != q.AggDest1() {
      EraseEnd(t, i + 1);
      EraseEnd(Erase(t, i + 1), i);
    }
  }

  lemma EraseEnd(t: seq<Name>, i: nat)
    requires i < |t|
    ensures |Erase(t, i)| == |t| - 1
    ensures i < |t| - 1 ==> Erase(t, i)[|t| - 2] == t[|t| - 1]
  {
  }

  lemma AheadStep(q: Query, t: seq<Name>, iter: nat, edge: seq<Name>, agg: seq<Name>, core: seq<Name>)
    requires iter < |t| && t[|t| - 1] !in {q.InitDest(), q.AggDest1(), q.CoreName()}
    ensures var x, u := t[iter], Dropped(q, t, iter);
            iter <= |u| &&
            Ahead(q, t, iter, edge, agg, core) ==
            if x == q.SrcNode() then Ahead(q, u, iter, edge, agg, core)
            else if x == q.InitDest() then Ahead(q, u, iter, edge + [t[iter + 1]], agg, core)
            else if x == q.AggDest1() then Ahead(q, u, iter, edge, agg + [t[iter + 1]], core)
            else if x == q.CoreName() then Ahead(q, u, iter, edge, agg, core + [t[iter + 1]])
            else Ahead(q, u, iter + 1, edge, agg, core)
  {
    DroppedShape(q, t, iter);
    if t[iter] == q.SrcNode() {
      Erased(t, iter, 1);
    } else if t[iter] == q.InitDest() {
      AheadEdge(q, t, iter, edge, agg, core);
    } else if t[iter] == q.AggDest1() {
      Erased(t, iter, 1);
      Regroup(agg, [t[iter + 1]], ScanPod(q, t[iter + 1..]).agg);
    } else if t[iter] == q.CoreName() {
      Erased(t, iter, 1);
      Regroup(core, [t[iter + 1]], ScanPod(q, t[iter + 1..]).core);
    } else {
      AheadKept(q, t, iter, edge, agg, core);
    }
  }

  lemma AheadEdge(q: Query, t: seq<Name>, iter: nat, edge: seq<Name>, agg: seq<Name>, core: seq<Name>)
    requires iter < |t| && t[|t| - 1] !in {q.InitDest(), q.AggDest1(), q.CoreName()} && t[iter] == q.InitDest()
    ensures iter <= |Dropped(q, t, iter)|
    ensures Ahead(q, t, iter, edge, agg, core) == Ahead(q, Dropped(q, t, iter), iter, edge + [t[iter + 1]], agg, core)
  {
    var n := if t[iter + 1] != q.AggDest1() then 2 else 1;
    Erased(t, iter, n);
    Regroup(edge, [t[iter + 1]], ScanPod(q, t[iter + n..]).edge);
  }

  lemma AheadKept(q: Query, t: seq<Name>, iter: nat, edge: seq<Name>, agg: seq<Name>, core: seq<Name>)
    requires iter < |t| && t[iter] !in {q.SrcNode(), q.InitDest(), q.AggDest1(), q.CoreName()}
    ensures Ahead(q, t, iter, edge, agg, core) == Ahead(q, t, iter + 1, edge, agg, core)
  {
    ScanPlain(q, [t[iter]], t[iter + 1..]);
    assert t[iter..] == [t[iter]] + t[iter + 1..];
    Regroup(t[..iter], [t[iter]], ScanPod(q, t[iter + 1..]).kept);
    assert t[..iter + 1] == t[..iter] + [t[iter]];
  }

  /** The result of the scan for `x`, given that position `iter` is reached with these names collected. */
  function LeadAhead(t: seq<Name>, iter: nat, dests: seq<Name>, x: Name): Lead
    requires iter <= |t|
  {
    var s := ScanLead(t[iter..], x);
    Lead(t[..iter] + s.kept, dests + s.dests)
  }

  lemma LeadStep(t: seq<Name>, iter: nat, dests: seq<Name>, x: Name)
    requires iter < |t| && t[|t| - 1] != x
    ensures if t[iter] == x then LeadAhead(Erase(t, iter), iter + 1, dests + [t[iter + 1]], x)
            == LeadAhead(t, iter, dests, x)
            else LeadAhead(t, iter + 1, dests, x) == LeadAhead(t, iter, dests, x)
  {
    Erased(t, iter, 1);
    if t[iter] == x {
      var s := ScanLead(t[iter + 2..], x);
      assert t[iter..][2..] == t[iter + 2..];
      assert Erase(t, iter)[iter + 1..] == t[iter + 2..];
      assert Erase(t, iter)[..iter + 1] == t[..iter] + [t[iter + 1]];
      Regroup(t[..iter], [t[iter + 1]], s.kept);
      Regroup(dests, [t[iter + 1]], s.dests);
    } else {
      Regroup(t[..iter], [t[iter]], ScanLead(t[iter + 1..], x).kept);
      assert t[..iter + 1] == t[..iter] + [t[iter]];
    }
  }

  lemma AfterStep(t: seq<Name>, i: nat, collected: seq<Name>)
    requires i < |t| && t[|t| - 1] != Break
    ensures (if t[i] == Break then collected + [t[i + 1]] else collected) + AfterBreaks(t[i + 1..])
            == collected + AfterBreaks(t[i..])
  {
    if t[i] == Break {
      Regroup(collected, [t[i + 1]], AfterBreaks(t[i + 1..]));
    } else {
      assert [] + AfterBreaks(t[i + 1..]) == AfterBreaks(t[i + 1..]);
    }
  }

  function Elements(xs: seq<Name>): set<Name> {
    set x | x in xs
  }

  predicate Leads(lists: seq<seq<Name>>, x: Name) {
    x != Break && forall s :: s in lists ==> MayLead(s, x)
  }

  lemma StagedBlocks(lists: seq<seq<Name>>)
    requires Staged(lists)
    ensures AfterBreaks(Blocks(lists)) == Heads(lists)
    ensures Blocks(lists) != [] ==> Blocks(lists)[|Blocks(lists)| - 1] != Break
    ensures forall x :: x in Heads(lists) ==> Leads(lists, x)
    ensures Beheaded(lists, {}) == lists && Beheaded(lists, Elements(Unique(Heads(lists)))) == Tails(lists)
  {
    forall s | s in lists
      ensures CannotEnd(s, Break) && s[0] in Heads(lists)
    {
      assert MayLead(s, s[0]);
      HeadsMeans(lists, s[0]);
    }
    AfterBreaksAreHeads(lists);
    forall x | x in Heads(lists)
      ensures Leads(lists, x)
    {
      HeadsMeans(lists, x);
    }
    BeheadNone(lists);
    BlocksEnd(lists, {}, Break);
    UniqueMeans(Heads(lists));
    BeheadAll(lists, Elements(Unique(Heads(lists))));
  }

  lemma ElementsStep(xs: seq<Name>, it: nat)
    requires NoDuplicates(xs) && it < |xs|
    ensures xs[it] in xs && xs[it] !in Elements(xs[..it]) && Elements(xs[..it + 1]) == Elements(xs[..it]) + {xs[it]}
  {
    assert xs[..it + 1] == xs[..it] + [xs[it]];
  }

  /** The leading node at position `it` is scanned for when those before it are gone. */
  lemma StageStep(lists: seq<seq<Name>>, it: nat)
    requires Staged(lists) && it < |Unique(Heads(lists))|
    ensures var heads := Unique(Heads(lists));
            var t := Blocks(Beheaded(lists, Elements(heads[..it])));
            && (t != [] ==> t[|t| - 1] != heads[it])
            && ScanLead(t, heads[it]) ==
               Lead(Blocks(Beheaded(lists, Elements(heads[..it + 1]))), Followers(lists, heads[it]))
  {
    var heads := Unique(Heads(lists));
    UniqueMeans(Heads(lists));
    StagedBlocks(lists);
    ElementsStep(heads, it);
    StageScan(lists, Elements(heads[..it]), heads[it]);
  }

  lemma StageScan(lists: seq<seq<Name>>, gone: set<Name>, x: Name)
    requires Leads(lists, x) && x !in gone
    ensures var t := Blocks(Beheaded(lists, gone));
            && (t != [] ==> t[|t| - 1] != x)
            && ScanLead(t, x) == Lead(Blocks(Beheaded(lists, gone + {x})), Followers(lists, x))
  {
    forall s | s in lists
      ensures CannotEnd(s, x)
    {
    }
    BlocksEnd(lists, gone, x);
    LeadScansBlocks(lists, gone, x);
  }

  lemma AppendFour(before: seq<MulticastInfo>, s: seq<MulticastInfo>, e: seq<MulticastInfo>, a: seq<MulticastInfo>,
                   c: seq<MulticastInfo>)
    ensures before + s + e + a + c == before + (s + e + a + c)
  {
    Regroup(before, s, e);
    Regroup(before, s + e, a);
    Regroup(before, s + e + a, c);
  }

  lemma StageGrows(before: seq<MulticastInfo>, group: nat, heads: seq<Name>, it: nat, lists: seq<seq<Name>>,
                   unique: bool)
    requires it < |heads|
    ensures var dests := Followers(lists, heads[it]);
            before + StageEntries(group, heads[..it + 1], lists, unique) ==
            before + StageEntries(group, heads[..it], lists, unique)
            + [MulticastInfo(group, heads[it], if unique then Unique(dests) else dests)]
  {
    assert heads[..it + 1][..it] == heads[..it];
  }

  /** A list that `x` cannot end, even without its head. */
  predicate CannotEnd(s: seq<Name>, x: Name) {
    |s| >= 2 && Break !in s && (x == Break || MayLead(s, x))
  }

  lemma BlocksStep(lists: seq<seq<Name>>, gone: set<Name>)
    requires lists != []
    ensures Blocks(Beheaded(lists, gone)) == [Break] + (Behead(lists[0], gone) + Blocks(Beheaded(lists[1..], gone)))
  {
    assert Beheaded(lists, gone)[1..] == Beheaded(lists[1..], gone);
  }

  lemma {:induction false} BlocksEnd(lists: seq<seq<Name>>, gone: set<Name>, x: Name)
    requires forall i :: 0 <= i < |lists| ==> CannotEnd(lists[i], x)
    ensures var t := Blocks(Beheaded(lists, gone)); t != [] ==> t[|t| - 1] != x
  {
    if lists != [] {
      BlocksEnd(lists[1..], gone, x);
      BlocksStep(lists, gone);
      BeheadedEnd(lists[0], gone, x);
      EndOfBlock(Behead(lists[0], gone), Blocks(Beheaded(lists[1..], gone)));
    }
  }

  lemma EndOfBlock(s: seq<Name>, rest: seq<Name>)
    requires s != []
    ensures var t := [Break] + (s + rest); t[|t| - 1] == if rest == [] then s[|s| - 1] else rest[|rest| - 1]
  {
  }

  lemma BeheadedEnd(s: seq<Name>, gone: set<Name>, x: Name)
    requires CannotEnd(s, x)
    ensures var t := Behead(s, gone); t != [] && t[|t| - 1] != x
  {
    assert s[|s| - 1] == s[1..][|s| - 2];
  }

  lemma {:induction false} TreeEnd(q: Query, rs: seq<Place>)
    requires rs != []
    ensures var t := Tree(q, rs); t != [] && t[|t| - 1].Server?
  {
    if |rs| > 1 {
      TreeEnd(q, rs[1..]);
    } else {
      assert Tree(q, rs) == [Break] + Path(q, rs[0]);
    }
  }
}
