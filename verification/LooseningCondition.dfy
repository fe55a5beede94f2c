/**
 Exactly when loosening rights makes a refresh fail (block.c), said about the graph before the call.

 Under the default rules a refresh refuses a looser graph only because a node of unaligned size would be
 written without the right to resize it.  Which rights arrive at a node is decided by the links that the
 refresh leaves alone, by the storage links of writable and written nodes, and by the links that pass
 rights on.
 */
module LooseningCondition {
  import opened Options
  import opened BlockGraph
  import opened TopologicalOrder
  import opened Permissions
  import opened PermissionRefresh

  // --- Where rights come from and how they get on ---

  /** A link below an open node of the list: the refresh derives its rights from those of the node. */
  ghost predicate LinkOf(g: Graph, list: seq<NodeId>, m: NodeId, e: EdgeId) {
    m in list && m in g.nodes && g.nodes[m].config.open && e in g.nodes[m].children && e in g.edges
  }

  /** The link is one to storage, for data or metadata. */
  predicate Stores(role: Role) {
    !role.filtered && !role.cow
  }

  /** The link passes writing and resizing on: all but those to backing files do. */
  predicate PassesOn(role: Role) {
    role.filtered || !role.cow
  }

  /** Links one below the other down to n; from the second on each passes on what its node is asked for. */
  ghost predicate Route(g: Graph, list: seq<NodeId>, p: seq<EdgeId>, n: NodeId) {
    && |p| > 0 && (forall i :: 0 <= i < |p| ==> p[i] in g.edges && g.edges[p[i]].bs.Some?)
    && g.edges[p[|p| - 1]].bs == Some(n)
    && (forall i :: 0 < i < |p| ==>
          PassesOn(g.edges[p[i]].role) && LinkOf(g, list, g.edges[p[i - 1]].bs.value, p[i]))
  }

  /** A route leads from one of the links to n. */
  ghost predicate Fed(g: Graph, list: seq<NodeId>, start: set<EdgeId>, n: NodeId) {
    exists p :: Route(g, list, p, n) && p[0] in start
  }

  /** Links that write by themselves: the refresh leaves them alone, or a writable node keeps metadata there. */
  ghost function Writers(conf: NodeId -> Config, g: Graph, list: seq<NodeId>): set<EdgeId> {
    set e | e in g.edges && (
      || (!BelowOpen(g, list, e) && Writes(g.edges[e].perm))
      || (exists m :: LinkOf(g, list, m, e) && Stores(g.edges[e].role) && g.edges[e].role.metadata && conf(m).writable))
  }

  /** Some user writes n. */
  ghost predicate Written(conf: NodeId -> Config, g: Graph, list: seq<NodeId>, n: NodeId) {
    Fed(g, list, Writers(conf, g, list), n)
  }

  /** A storage link that resizes: metadata of a writable node, or data of a node that is written. */
  ghost predicate GrowsStorage(conf: NodeId -> Config, g: Graph, list: seq<NodeId>, m: NodeId, e: EdgeId) {
    && LinkOf(g, list, m, e) && Stores(g.edges[e].role)
    && ((g.edges[e].role.metadata && conf(m).writable) || (g.edges[e].role.data && Written(conf, g, list, m)))
  }

  /** Links that resize by themselves. */
  ghost function Resizers(conf: NodeId -> Config, g: Graph, list: seq<NodeId>): set<EdgeId> {
    set e | e in g.edges && (
      || (!BelowOpen(g, list, e) && Resize in g.edges[e].perm)
      || (exists m :: GrowsStorage(conf, g, list, m, e)))
  }

  /** Some user may resize n. */
  ghost predicate Resizable(conf: NodeId -> Config, g: Graph, list: seq<NodeId>, n: NodeId) {
    Fed(g, list, Resizers(conf, g, list), n)
  }

  /** The size of n is no obstacle: it is aligned, or nobody writes n, or somebody may resize it. */
  ghost predicate SizeIsNoObstacle(conf: NodeId -> Config, g: Graph, list: seq<NodeId>, n: NodeId) {
    n in g.nodes && (!g.nodes[n].config.sizeAligned && Written(conf, g, list, n) ==> Resizable(conf, g, list, n))
  }

  // --- A right spreads along routes ---

  /** A link above n is in the set. */
  ghost predicate Arrives(g: Graph, on: set<EdgeId>, n: NodeId) {
    exists e :: e in g.edges && g.edges[e].bs == Some(n) && e in on
  }

  /** The link has the right by itself, or passes it on from its node. */
  ghost predicate Explained(g: Graph, list: seq<NodeId>, start: set<EdgeId>, on: set<EdgeId>, e: EdgeId)
    requires e in g.edges
  {
    e in start || (exists m :: LinkOf(g, list, m, e) && PassesOn(g.edges[e].role) && Arrives(g, on, m))
  }

  /** The links that have a right in the end are those that are explained. */
  ghost predicate Spreads(g: Graph, list: seq<NodeId>, start: set<EdgeId>, on: set<EdgeId>) {
    forall e {:trigger Explained(g, list, start, on, e)} :: e in g.edges ==>
      (e in on <==> Explained(g, list, start, on, e))
  }

  lemma {:induction false} RouteCarries(g: Graph, list: seq<NodeId>, start: set<EdgeId>, on: set<EdgeId>,
      p: seq<EdgeId>, n: NodeId)
    requires Spreads(g, list, start, on) && Route(g, list, p, n) && p[0] in start
    ensures p[|p| - 1] in on && Arrives(g, on, n)
    decreases |p|
  {
    var e := p[|p| - 1];
    if |p| > 1 {
      var front := p[..|p| - 1];
      var m := g.edges[p[|p| - 2]].bs.value;
      RouteCarries(g, list, start, on, front, m);
      assert LinkOf(g, list, m, e);
    }
    assert Explained(g, list, start, on, e);
  }

  lemma RouteLonger(g: Graph, list: seq<NodeId>, p: seq<EdgeId>, m: NodeId, e: EdgeId, n: NodeId)
    requires Route(g, list, p, m) && LinkOf(g, list, m, e) && PassesOn(g.edges[e].role) && g.edges[e].bs == Some(n)
    ensures Route(g, list, p + [e], n)
  {
  }

  /** The upper end of a link between listed nodes comes first. */
  lemma LinkOrder(g: Graph, list: seq<NodeId>, m: NodeId, e: EdgeId, j: nat) returns (i: nat)
    requires Ordered(g, list) && LinkOf(g, list, m, e) && j < |list| && g.edges[e].bs == Some(list[j])
    ensures i < j && list[i] == m
  {
    i :| 0 <= i < |list| && list[i] == m;
    assert list[j] in Kids(g, list[i]);
  }

  lemma {:induction false} ArrivesByRoute(g: Graph, list: seq<NodeId>, start: set<EdgeId>, on: set<EdgeId>, j: nat)
    requires Ordered(g, list) && Spreads(g, list, start, on) && j < |list| && Arrives(g, on, list[j])
    ensures Fed(g, list, start, list[j])
    decreases j
  {
    var n := list[j];
    var e :| e in g.edges && g.edges[e].bs == Some(n) && e in on;
    assert Explained(g, list, start, on, e);
    if e in start {
      assert Route(g, list, [e], n);
    } else {
      var m :| LinkOf(g, list, m, e) && PassesOn(g.edges[e].role) && Arrives(g, on, m);
      var i := LinkOrder(g, list, m, e, j);
      ArrivesByRoute(g, list, start, on, i);
      var p :| Route(g, list, p, m) && p[0] in start;
      RouteLonger(g, list, p, m, e, n);
      assert (p + [e])[0] == p[0];
    }
  }

  lemma FedIff(g: Graph, list: seq<NodeId>, start: set<EdgeId>, on: set<EdgeId>, n: NodeId)
    requires Ordered(g, list) && Spreads(g, list, start, on) && n in list
    ensures Arrives(g, on, n) <==> Fed(g, list, start, n)
  {
    if Arrives(g, on, n) {
      var j :| 0 <= j < |list| && list[j] == n;
      ArrivesByRoute(g, list, start, on, j);
    }
    if p :| Route(g, list, p, n) && p[0] in start {
      RouteCarries(g, list, start, on, p, n);
    }
  }

  // --- The rights that a refresh leaves ---

  /** What the default rules make of writing and resizing. */
  lemma WhatPasses(now: Config, after: Config, role: Role, r: Rights)
    ensures var s := DefaultRights(now, after, role, r).perm;
      && (Writes(s) <==> (Stores(role) && role.metadata && after.writable) || (PassesOn(role) && Writes(r.perm)))
      && (Resize in s <==>
            || (Stores(role) && ((role.metadata && after.writable) || (role.data && Writes(r.perm))))
            || (PassesOn(role) && Resize in r.perm))
  {
    if role.filtered {
      FilterMeaning(now, after, role, r, Write);
      FilterMeaning(now, after, role, r, WriteUnchanged);
      FilterMeaning(now, after, role, r, Resize);
    } else if role.cow {
      CowMeaning(now, after, role, r, Write);
      CowMeaning(now, after, role, r, WriteUnchanged);
      CowMeaning(now, after, role, r, Resize);
    } else {
      StorageMeaning(now, after, role, r);
    }
  }

  /** Rights on the same links, derived below the open nodes of the list and unchanged elsewhere. */
  ghost predicate RightsSettled(conf: NodeId -> Config, g: Graph, r: Graph, list: seq<NodeId>) {
    && OnlyRightsDiffer(g, r, list)
    && forall m, e :: LinkOf(g, list, m, e) ==> CarriesDerived(DefaultDrivers(conf), r, m, e)
  }

  ghost function WritingLinks(r: Graph): set<EdgeId> {
    set e | e in r.edges && Writes(r.edges[e].perm)
  }

  ghost function ResizingLinks(r: Graph): set<EdgeId> {
    set e | e in r.edges && Resize in r.edges[e].perm
  }

  lemma ArrivesIsCumulative(g: Graph, r: Graph, list: seq<NodeId>, n: NodeId)
    requires WellFormed(g) && OnlyRightsDiffer(g, r, list) && n in g.nodes
    ensures Arrives(g, WritingLinks(r), n) <==> Writes(CumulativePerm(r, n))
    ensures Arrives(g, ResizingLinks(r), n) <==> Resize in CumulativePerm(r, n)
  {
    assert ParentsOk(g, n);
  }

  /** Nobody else has the link below it. */
  lemma OneUpperEnd(g: Graph, list: seq<NodeId>, m: NodeId, n: NodeId, e: EdgeId)
    requires WellFormed(g) && LinkOf(g, list, m, e) && LinkOf(g, list, n, e)
    ensures m == n
  {
    assert ChildrenOk(g, m) && ChildrenOk(g, n);
  }

  lemma LinkIffBelow(g: Graph, list: seq<NodeId>, e: EdgeId)
    requires e in g.edges
    ensures BelowOpen(g, list, e) <==> exists m :: LinkOf(g, list, m, e)
  {
    if BelowOpen(g, list, e) {
      var m :| m in list && m in g.nodes && e in g.nodes[m].children && g.nodes[m].config.open;
      assert LinkOf(g, list, m, e);
    }
  }

  lemma WritingSpreads(conf: NodeId -> Config, g: Graph, r: Graph, list: seq<NodeId>)
    requires WellFormed(g) && RightsSettled(conf, g, r, list)
    ensures Spreads(g, list, Writers(conf, g, list), WritingLinks(r))
  {
    var start, on := Writers(conf, g, list), WritingLinks(r);
    forall e | e in g.edges ensures e in on <==> Explained(g, list, start, on, e) {
      LinkIffBelow(g, list, e);
      if m :| LinkOf(g, list, m, e) {
        LinkWrites(conf, g, r, list, m, e);
      }
    }
  }

  lemma LinkWrites(conf: NodeId -> Config, g: Graph, r: Graph, list: seq<NodeId>, m: NodeId, e: EdgeId)
    requires WellFormed(g) && RightsSettled(conf, g, r, list) && LinkOf(g, list, m, e)
    ensures e in WritingLinks(r) <==> Explained(g, list, Writers(conf, g, list), WritingLinks(r), e)
  {
    assert CarriesDerived(DefaultDrivers(conf), r, m, e);
    WhatPasses(conf(m), conf(m), g.edges[e].role, Cumulative(r, m));
    ArrivesIsCumulative(g, r, list, m);
    forall n | LinkOf(g, list, n, e) ensures n == m {
      OneUpperEnd(g, list, m, n, e);
    }
    LinkIffBelow(g, list, e);
  }

  /** Written says who is written in the end. */
  lemma WrittenIff(conf: NodeId -> Config, g: Graph, r: Graph, list: seq<NodeId>, n: NodeId)
    requires WellFormed(g) && Ordered(g, list) && RightsSettled(conf, g, r, list) && n in list && n in g.nodes
    ensures Written(conf, g, list, n) <==> Writes(CumulativePerm(r, n))
  {
    WritingSpreads(conf, g, r, list);
    FedIff(g, list, Writers(conf, g, list), WritingLinks(r), n);
    ArrivesIsCumulative(g, r, list, n);
  }

  lemma ResizingSpreads(conf: NodeId -> Config, g: Graph, r: Graph, list: seq<NodeId>)
    requires WellFormed(g) && Ordered(g, list) && RightsSettled(conf, g, r, list)
    ensures Spreads(g, list, Resizers(conf, g, list), ResizingLinks(r))
  {
    var start, on := Resizers(conf, g, list), ResizingLinks(r);
    forall e | e in g.edges ensures e in on <==> Explained(g, list, start, on, e) {
      LinkIffBelow(g, list, e);
      if m :| LinkOf(g, list, m, e) {
        LinkResizes(conf, g, r, list, m, e);
      } else {
        assert forall m :: !GrowsStorage(conf, g, list, m, e);
      }
    }
  }

  lemma LinkResizes(conf: NodeId -> Config, g: Graph, r: Graph, list: seq<NodeId>, m: NodeId, e: EdgeId)
    requires WellFormed(g) && Ordered(g, list) && RightsSettled(conf, g, r, list) && LinkOf(g, list, m, e)
    ensures e in ResizingLinks(r) <==> Explained(g, list, Resizers(conf, g, list), ResizingLinks(r), e)
  {
    assert CarriesDerived(DefaultDrivers(conf), r, m, e);
    WhatPasses(conf(m), conf(m), g.edges[e].role, Cumulative(r, m));
    ArrivesIsCumulative(g, r, list, m);
    WrittenIff(conf, g, r, list, m);
    forall n | LinkOf(g, list, n, e) ensures n == m {
      OneUpperEnd(g, list, m, n, e);
    }
    LinkIffBelow(g, list, e);
    assert (exists n :: GrowsStorage(conf, g, list, n, e)) <==> GrowsStorage(conf, g, list, m, e);
  }

  /** Resizable says who may be resized in the end. */
  lemma ResizableIff(conf: NodeId -> Config, g: Graph, r: Graph, list: seq<NodeId>, n: NodeId)
    requires WellFormed(g) && Ordered(g, list) && RightsSettled(conf, g, r, list) && n in list && n in g.nodes
    ensures Resizable(conf, g, list, n) <==> Resize in CumulativePerm(r, n)
  {
    ResizingSpreads(conf, g, r, list);
    FedIff(g, list, Resizers(conf, g, list), ResizingLinks(r), n);
    ArrivesIsCumulative(g, r, list, n);
  }

  // --- The condition ---

  /** What a refresh with aligned sizes leaves, put on the graph with its own sizes. */
  lemma RightsByRefresh(conf: NodeId -> Config, g: Graph, list: seq<NodeId>, k: Graph)
    requires OnlyRightsDiffer(Aligned(g), k, list) && forall n :: n in list ==>
      n in g.nodes && Consistent(DefaultDrivers(conf), k, n)
    ensures RightsSettled(conf, g, Graph(g.nodes, k.edges), list)
    ensures forall n :: n in list ==> n in k.nodes && CumulativePerm(k, n) == CumulativePerm(Graph(g.nodes, k.edges), n)
  {
    var d, r := DefaultDrivers(conf), Graph(g.nodes, k.edges);
    assert Aligned(r) == k by {
      assert Aligned(r).nodes == Aligned(g).nodes;
    }
    forall e | e in g.edges && !BelowOpen(g, list, e) ensures r.edges[e] == g.edges[e] {
      assert !BelowOpen(Aligned(g), list, e);
    }
    forall n | n in list ensures n in k.nodes && CumulativePerm(k, n) == CumulativePerm(r, n) {
      AlignedSame(r, n);
    }
    forall m, e | LinkOf(g, list, m, e) ensures CarriesDerived(d, r, m, e) {
      AlignedSame(r, m);
      assert Consistent(d, k, m) && CarriesDerived(d, k, m, e);
    }
  }

  /** A graph loosened from a consistent one, with the nodes to be refreshed. */
  ghost predicate Loosened(conf: NodeId -> Config, h: Graph, g: Graph, list: seq<NodeId>) {
    && LooserGraph(h, g) && WellFormed(h) && Ordered(h, list)
    && forall n :: n in list ==> n in h.nodes && Consistent(DefaultDrivers(conf), g, n)
  }

  /** With aligned sizes the refresh succeeds, and Written and Resizable describe the rights it leaves. */
  lemma AlignedRefresh(conf: NodeId -> Config, h: Graph, g: Graph, list: seq<NodeId>) returns (k: Graph)
    requires Loosened(conf, h, g, list)
    ensures RefreshList(DefaultDrivers(conf), Aligned(h), list) == Some(k)
    ensures forall n :: n in list ==>
      && Consistent(DefaultDrivers(conf), k, n)
      && (Written(conf, h, list, n) <==> Writes(CumulativePerm(k, n)))
      && (Resizable(conf, h, list, n) <==> Resize in CumulativePerm(k, n))
  {
    var d, a, b := DefaultDrivers(conf), Aligned(h), Aligned(g);
    assert LooserGraph(a, b);
    forall n | n in list ensures n in b.nodes && b.nodes[n].config.sizeAligned && Consistent(d, b, n) {
      ConsistentAligned(d, g, n);
    }
    LooseningSucceeds(conf, a, b, list);
    AlignedOrder(h, list);
    RefreshIsSound(d, a, list);
    k := RefreshList(d, a, list).value;
    RightsByRefresh(conf, h, list, k);
    forall n | n in list
      ensures Written(conf, h, list, n) <==> Writes(CumulativePerm(k, n))
      ensures Resizable(conf, h, list, n) <==> Resize in CumulativePerm(k, n)
    {
      WrittenIff(conf, h, Graph(h.nodes, k.edges), list, n);
      ResizableIff(conf, h, Graph(h.nodes, k.edges), list, n);
    }
  }

  /**
   Loosening a consistent graph under the default rules: the refresh fails exactly when some listed node of
   unaligned size is written and nobody may resize it, all of which is read off the graph before the call.
   */
  lemma LooseningSucceedsIff(conf: NodeId -> Config, h: Graph, g: Graph, list: seq<NodeId>)
    requires Loosened(conf, h, g, list)
    ensures RefreshList(DefaultDrivers(conf), h, list).Some? <==>
      forall n :: n in list ==> SizeIsNoObstacle(conf, h, list, n)
  {
    var k := AlignedRefresh(conf, h, g, list);
    RefreshSucceedsIff(DefaultDrivers(conf), h, list);
    forall n | n in list ensures SizeAllows(h, k, n) <==> SizeIsNoObstacle(conf, h, list, n) {
      assert Consistent(DefaultDrivers(conf), k, n);
    }
  }

  // --- Only filters let a node be written without being resized ---

  ghost predicate ProperRoles(g: Graph) {
    forall e :: e in g.edges && Stores(g.edges[e].role) ==> g.edges[e].role.data || g.edges[e].role.metadata
  }

  /** A part of a route from one of its links on. */
  lemma RouteTail(g: Graph, list: seq<NodeId>, p: seq<EdgeId>, n: NodeId, i: nat)
    requires Route(g, list, p, n) && i < |p|
    ensures Route(g, list, p[i..], n)
  {
    var q := p[i..];
    forall k | 0 < k < |q| ensures PassesOn(g.edges[q[k]].role) && LinkOf(g, list, g.edges[q[k - 1]].bs.value, q[k]) {
      assert q[k] == p[i + k] && q[k - 1] == p[i + k - 1];
    }
  }

  lemma RouteHead(g: Graph, list: seq<NodeId>, p: seq<EdgeId>, n: NodeId, i: nat)
    requires Route(g, list, p, n) && 0 < i < |p|
    ensures Route(g, list, p[..i], g.edges[p[i - 1]].bs.value)
  {
  }

  /** A storage link on the way brings the right to resize. */
  lemma StorageBringsResize(conf: NodeId -> Config, g: Graph, list: seq<NodeId>, p: seq<EdgeId>, n: NodeId, i: nat,
      m: NodeId)
    requires Route(g, list, p, n) && i < |p| && GrowsStorage(conf, g, list, m, p[i])
    ensures Resizable(conf, g, list, n)
  {
    RouteTail(g, list, p, n, i);
    assert p[i..][0] in Resizers(conf, g, list);
  }

  /**
   Where a size is an obstacle, every route that brings the right to write begins at a link that the refresh
   leaves alone, which writes without resizing, and goes on through filters only.
   */
  lemma OnlyThroughFilters(conf: NodeId -> Config, g: Graph, list: seq<NodeId>, n: NodeId, p: seq<EdgeId>)
    requires ProperRoles(g) && forall m :: m in list && Written(conf, g, list, m) ==> conf(m).writable
    requires n in g.nodes && !SizeIsNoObstacle(conf, g, list, n)
    requires Route(g, list, p, n) && p[0] in Writers(conf, g, list)
    ensures !BelowOpen(g, list, p[0]) && Writes(g.edges[p[0]].perm) && Resize !in g.edges[p[0]].perm
    ensures forall i :: 0 < i < |p| ==> g.edges[p[i]].role.filtered
  {
    if m :| LinkOf(g, list, m, p[0]) && Stores(g.edges[p[0]].role) && g.edges[p[0]].role.metadata && conf(m).writable {
      StorageBringsResize(conf, g, list, p, n, 0, m);
    }
    assert p[0] !in Resizers(conf, g, list);
    forall i | 0 < i < |p| ensures g.edges[p[i]].role.filtered {
      var m := g.edges[p[i - 1]].bs.value;
      RouteHead(g, list, p, n, i);
      assert p[..i][0] == p[0];
      assert Written(conf, g, list, m);
      if !g.edges[p[i]].role.filtered {
        StorageBringsResize(conf, g, list, p, n, i, m);
      }
    }
  }

  /** In a loosened consistent graph only writable nodes are written, so the above applies to it. */
  lemma WrittenIsWritable(conf: NodeId -> Config, h: Graph, g: Graph, list: seq<NodeId>, m: NodeId)
    requires Loosened(conf, h, g, list) && m in list
    ensures Written(conf, h, list, m) ==> conf(m).writable
  {
    var k := AlignedRefresh(conf, h, g, list);
    assert Consistent(DefaultDrivers(conf), k, m);
  }
}
