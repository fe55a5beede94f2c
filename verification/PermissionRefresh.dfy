/**
 bdrv_node_refresh_perm and bdrv_list_refresh_perms (block.c) as functions on graphs: what a
 successful refresh establishes, when it fails, and why loosening an edge cannot make it fail when image
 sizes are aligned.
 */
module PermissionRefresh {
  import opened Options
  import opened BlockGraph
  import opened TopologicalOrder
  import opened Permissions

  /**
   The parts of a refresh that drivers and a pending reopen decide: drv->bdrv_child_perm,
   drv->bdrv_check_perm and bdrv_is_writable_after_reopen.
   */
  datatype Drivers = Drivers(
    childPerm: (NodeId, Role, Rights) -> Rights,
    checkPerm: (NodeId, Rights) -> bool,
    writableAfter: NodeId -> bool)

  // --- One node ---

  /** bdrv_child_perm: the driver's rule, overridden by force_share on the child node. */
  ghost function Derived(d: Drivers, g: Graph, n: NodeId, e: EdgeId): Rights
    requires n in g.nodes && e in g.edges
  {
    var r := d.childPerm(n, g.edges[e].role, Cumulative(g, n));
    if ForcesShare(g, g.edges[e].bs) then r.(shared := ALL_PERMS) else r
  }

  predicate ForcesShare(g: Graph, bs: Option<NodeId>) {
    bs.Some? && bs.value in g.nodes && g.nodes[bs.value].config.forceShare
  }

  predicate Writes(p: Perms) {
    Write in p || WriteUnchanged in p
  }

  /** The checks that bdrv_list_refresh_perms and bdrv_node_refresh_perm make at one node. */
  ghost predicate Admissible(d: Drivers, g: Graph, n: NodeId)
    requires n in g.nodes
  {
    var c := Cumulative(g, n);
    && !Conflict(g, n)
    && (Writes(c.perm) ==> d.writableAfter(n))
    && (Writes(c.perm) && Resize !in c.perm ==> g.nodes[n].config.sizeAligned)
    && (g.nodes[n].config.open ==> d.checkPerm(n, c))
  }

  ghost predicate CarriesDerived(d: Drivers, g: Graph, n: NodeId, e: EdgeId)
    requires n in g.nodes && e in g.edges
  {
    Rights(g.edges[e].perm, g.edges[e].shared) == Derived(d, g, n, e)
  }

  /** A node whose parents agree and whose edges to its children carry exactly the derived rights. */
  ghost predicate Consistent(d: Drivers, g: Graph, n: NodeId) {
    && n in g.nodes
    && Admissible(d, g, n)
    && (g.nodes[n].config.open ==>
          forall e :: e in g.nodes[n].children && e in g.edges ==> CarriesDerived(d, g, n, e))
  }

  /** The graph after the loop over the children of n. */
  ghost function PassDown(d: Drivers, g: Graph, n: NodeId): Graph
    requires n in g.nodes
  {
    g.(edges := map e | e in g.edges ::
         if e in g.nodes[n].children
         then g.edges[e].(perm := Derived(d, g, n, e).perm, shared := Derived(d, g, n, e).shared)
         else g.edges[e])
  }

  ghost function RefreshNode(d: Drivers, g: Graph, n: NodeId): Option<Graph>
    requires n in g.nodes
  {
    if !Admissible(d, g, n) then None
    else if g.nodes[n].config.open then Some(PassDown(d, g, n))
    else Some(g)
  }

  ghost function RefreshList(d: Drivers, g: Graph, list: seq<NodeId>): Option<Graph>
    requires forall n :: n in list ==> n in g.nodes
    decreases |list|
  {
    if list == [] then Some(g)
    else
      var r := RefreshNode(d, g, list[0]);
      if r.None? then None else RefreshList(d, r.value, list[1..])
  }

  // --- What a refresh leaves alone ---

  /** Only rights on edges below open nodes of the list may differ. */
  ghost predicate OnlyRightsDiffer(g: Graph, g': Graph, list: seq<NodeId>) {
    && g'.nodes == g.nodes
    && g'.edges.Keys == g.edges.Keys
    && (forall e :: e in g.edges ==> g'.edges[e] == g.edges[e].(perm := g'.edges[e].perm, shared := g'.edges[e].shared))
    && (forall e :: e in g.edges && !BelowOpen(g, list, e) ==> g'.edges[e] == g.edges[e])
  }

  ghost predicate BelowOpen(g: Graph, list: seq<NodeId>, e: EdgeId) {
    exists n :: n in list && n in g.nodes && e in g.nodes[n].children && g.nodes[n].config.open
  }

  lemma SameKids(g: Graph, g': Graph, list: seq<NodeId>, n: NodeId)
    requires OnlyRightsDiffer(g, g', list)
    ensures Kids(g', n) == Kids(g, n)
  {
  }

  lemma SameWellFormed(g: Graph, g': Graph, list: seq<NodeId>)
    requires OnlyRightsDiffer(g, g', list) && WellFormed(g)
    ensures WellFormed(g')
  {
    forall n | n in g'.nodes ensures ChildrenOk(g', n) && ParentsOk(g', n) {
      assert ChildrenOk(g, n) && ParentsOk(g, n);
    }
    forall e | e in g'.edges ensures EdgeOk(g', e) {
      assert EdgeOk(g, e);
    }
  }

  lemma SameOrder(g: Graph, g': Graph, list: seq<NodeId>, sub: seq<NodeId>)
    requires OnlyRightsDiffer(g, g', list) && Ordered(g, sub)
    ensures Ordered(g', sub)
  {
    forall n ensures Kids(g', n) == Kids(g, n) {
      SameKids(g, g', list, n);
    }
  }

  lemma TailOrdered(g: Graph, list: seq<NodeId>)
    requires Ordered(g, list) && list != []
    ensures Ordered(g, list[1..])
    ensures forall t :: t in list[1..] ==> t != list[0] && list[0] !in Kids(g, t)
    ensures list[0] !in Kids(g, list[0])
  {
    var tail := list[1..];
    forall i | 0 <= i < |tail| ensures list[0] !in Kids(g, tail[i]) && tail[i] != list[0] {
      assert tail[i] == list[i + 1];
    }
    assert Elems(list) == {list[0]} + Elems(tail);
    forall i, j | 0 <= i < |tail| && 0 <= j < |tail| && tail[j] in Kids(g, tail[i]) ensures i < j {
      assert tail[j] == list[j + 1] && tail[i] == list[i + 1];
    }
  }

  lemma PassDownDiffers(d: Drivers, g: Graph, n: NodeId, list: seq<NodeId>)
    requires n in g.nodes && n in list && g.nodes[n].config.open
    ensures OnlyRightsDiffer(g, PassDown(d, g, n), list)
  {
  }

  lemma DifferTrans(g: Graph, g1: Graph, g2: Graph, list: seq<NodeId>)
    requires list != [] && OnlyRightsDiffer(g, g1, list) && OnlyRightsDiffer(g1, g2, list[1..])
    ensures OnlyRightsDiffer(g, g2, list)
  {
    forall e | e in g.edges && !BelowOpen(g, list, e) ensures g2.edges[e] == g.edges[e] {
      assert forall n :: n in list[1..] ==> n in list;
    }
  }

  /** The cumulative rights of a node depend only on the edges above it. */
  lemma SameAbove(g: Graph, g': Graph, n: NodeId)
    requires n in g.nodes && g'.nodes == g.nodes && g'.edges.Keys == g.edges.Keys
    requires forall e :: e in g.nodes[n].parents && e in g.edges ==> g'.edges[e] == g.edges[e]
    ensures Cumulative(g', n) == Cumulative(g, n) && (Conflict(g', n) <==> Conflict(g, n))
  {
  }

  /** Edges above the head of an ordered list are not below any node of the list. */
  lemma AboveHeadStays(g: Graph, list: seq<NodeId>, e: EdgeId)
    requires WellFormed(g) && Ordered(g, list) && list != [] && list[0] in g.nodes
    requires e in g.nodes[list[0]].parents
    ensures !BelowOpen(g, list, e)
  {
    TailOrdered(g, list);
    assert ParentsOk(g, list[0]);
    forall n | n in g.nodes && e in g.nodes[n].children ensures list[0] in Kids(g, n) {
    }
  }

  /** Edges below one node are below no other. */
  lemma BelowHeadOnly(g: Graph, list: seq<NodeId>, e: EdgeId)
    requires WellFormed(g) && Ordered(g, list) && list != [] && list[0] in g.nodes
    requires e in g.nodes[list[0]].children
    ensures !BelowOpen(g, list[1..], e)
  {
    TailOrdered(g, list);
    assert ChildrenOk(g, list[0]);
    forall n | n in g.nodes && e in g.nodes[n].children ensures n == list[0] {
      assert ChildrenOk(g, n);
    }
  }

  lemma RefreshNodeDiffers(d: Drivers, g: Graph, list: seq<NodeId>)
    requires list != [] && list[0] in g.nodes && RefreshNode(d, g, list[0]).Some?
    ensures OnlyRightsDiffer(g, RefreshNode(d, g, list[0]).value, list)
  {
    if g.nodes[list[0]].config.open {
      PassDownDiffers(d, g, list[0], list);
    }
  }

  /** Refreshing below the head does not change what its parents ask of it. */
  lemma HeadSame(g: Graph, h: Graph, list: seq<NodeId>)
    requires WellFormed(g) && Ordered(g, list) && list != [] && list[0] in g.nodes && OnlyRightsDiffer(g, h, list)
    ensures Cumulative(h, list[0]) == Cumulative(g, list[0]) && (Conflict(h, list[0]) <==> Conflict(g, list[0]))
  {
    forall e | e in g.nodes[list[0]].parents && e in g.edges ensures h.edges[e] == g.edges[e] {
      AboveHeadStays(g, list, e);
    }
    SameAbove(g, h, list[0]);
  }

  // --- Soundness ---

  /** Later nodes of the list do not disturb the head. */
  lemma HeadStaysConsistent(d: Drivers, g: Graph, g1: Graph, g2: Graph, list: seq<NodeId>)
    requires WellFormed(g) && Ordered(g, list) && list != [] && list[0] in g.nodes
    requires RefreshNode(d, g, list[0]) == Some(g1)
    requires OnlyRightsDiffer(g1, g2, list[1..])
    ensures Consistent(d, g2, list[0])
  {
    RefreshNodeDiffers(d, g, list);
    DifferTrans(g, g1, g2, list);
    HeadSame(g, g2, list);
    forall e | e in g.nodes[list[0]].children && e in g.edges ensures !BelowOpen(g1, list[1..], e) {
      BelowHeadOnly(g, list, e);
    }
    HeadCarries(d, g, g1, g2, list);
  }

  lemma HeadCarries(d: Drivers, g: Graph, g1: Graph, g2: Graph, list: seq<NodeId>)
    requires list != [] && list[0] in g.nodes && RefreshNode(d, g, list[0]) == Some(g1)
    requires OnlyRightsDiffer(g1, g2, list[1..])
    requires g1.nodes == g.nodes && g1.edges.Keys == g.edges.Keys
    requires Cumulative(g2, list[0]) == Cumulative(g, list[0]) && (Conflict(g2, list[0]) <==> Conflict(g, list[0]))
    requires forall e :: e in g.nodes[list[0]].children && e in g.edges ==> !BelowOpen(g1, list[1..], e)
    ensures Consistent(d, g2, list[0])
  {
    var n := list[0];
    forall e | e in g2.nodes[n].children && e in g2.edges && g2.nodes[n].config.open
      ensures CarriesDerived(d, g2, n, e)
    {
      assert g2.edges[e] == g1.edges[e];
    }
  }

  /**
   A successful refresh of an ordered list leaves every listed node consistent in the final graph,
   and changes nothing but rights on edges below listed open nodes.
   */
  lemma {:induction false} RefreshIsSound(d: Drivers, g: Graph, list: seq<NodeId>)
    requires WellFormed(g) && Ordered(g, list) && (forall n :: n in list ==> n in g.nodes)
    requires RefreshList(d, g, list).Some?
    ensures OnlyRightsDiffer(g, RefreshList(d, g, list).value, list)
    ensures forall n :: n in list ==> Consistent(d, RefreshList(d, g, list).value, n)
    decreases |list|
  {
    if list != [] {
      var g1 := RefreshNode(d, g, list[0]).value;
      var g2 := RefreshList(d, g, list).value;
      RefreshNodeDiffers(d, g, list);
      SameWellFormed(g, g1, list);
      TailOrdered(g, list);
      SameOrder(g, g1, list, list[1..]);
      RefreshIsSound(d, g1, list[1..]);
      DifferTrans(g, g1, g2, list);
      HeadStaysConsistent(d, g, g1, g2, list);
    }
  }

  // --- Completeness ---

  lemma HeadAgrees(d: Drivers, g: Graph, h: Graph, list: seq<NodeId>)
    requires WellFormed(g) && Ordered(g, list) && list != [] && list[0] in g.nodes
    requires OnlyRightsDiffer(g, h, list) && Consistent(d, h, list[0])
    ensures RefreshNode(d, g, list[0]).Some?
    ensures OnlyRightsDiffer(RefreshNode(d, g, list[0]).value, h, list[1..])
  {
    HeadSame(g, h, list);
    TailDiffers(d, g, h, list);
  }

  lemma TailDiffers(d: Drivers, g: Graph, h: Graph, list: seq<NodeId>)
    requires list != [] && list[0] in g.nodes && OnlyRightsDiffer(g, h, list) && Consistent(d, h, list[0])
    requires Cumulative(h, list[0]) == Cumulative(g, list[0]) && (Conflict(h, list[0]) <==> Conflict(g, list[0]))
    ensures RefreshNode(d, g, list[0]).Some?
    ensures OnlyRightsDiffer(RefreshNode(d, g, list[0]).value, h, list[1..])
  {
    var n := list[0];
    var g1 := RefreshNode(d, g, n).value;
    forall e | e in g1.edges && !BelowOpen(g1, list[1..], e) ensures h.edges[e] == g1.edges[e] {
      if e in g.nodes[n].children && g.nodes[n].config.open {
        assert CarriesDerived(d, h, n, e);
      } else {
        assert forall m :: m in list && m != n ==> m in list[1..];
      }
    }
  }

  /**
   A refresh succeeds with h exactly when h is an assignment of rights that makes every listed node
   consistent; so it fails only if there is none, and there is never more than one.
   */
  lemma {:induction false} RefreshIsComplete(d: Drivers, g: Graph, list: seq<NodeId>, h: Graph)
    requires WellFormed(g) && Ordered(g, list) && (forall n :: n in list ==> n in g.nodes)
    requires OnlyRightsDiffer(g, h, list) && forall n :: n in list ==> Consistent(d, h, n)
    ensures RefreshList(d, g, list) == Some(h)
    decreases |list|
  {
    if list == [] {
      assert h.edges == g.edges;
    } else {
      HeadAgrees(d, g, h, list);
      var g1 := RefreshNode(d, g, list[0]).value;
      RefreshNodeDiffers(d, g, list);
      SameWellFormed(g, g1, list);
      TailOrdered(g, list);
      SameOrder(g, g1, list, list[1..]);
      RefreshIsComplete(d, g1, list[1..], h);
    }
  }

  // --- Loosening ---

  /** Nodes whose drivers use the default rules, make no check of their own, and await no reopen. */
  function DefaultDrivers(conf: NodeId -> Config): Drivers {
    Drivers((n: NodeId, role: Role, r: Rights) => DefaultRights(conf(n), conf(n), role, r),
            (n: NodeId, r: Rights) => true,
            (n: NodeId) => conf(n).writable)
  }

  /** The same graph with every edge at most as demanding as in g. */
  ghost predicate LooserGraph(h: Graph, g: Graph) {
    && h.nodes == g.nodes
    && h.edges.Keys == g.edges.Keys
    && forall e :: e in g.edges ==>
         && h.edges[e] == g.edges[e].(perm := h.edges[e].perm, shared := h.edges[e].shared)
         && h.edges[e].perm <= g.edges[e].perm && g.edges[e].shared <= h.edges[e].shared
  }

  lemma LooserCumulative(h: Graph, g: Graph, n: NodeId)
    requires LooserGraph(h, g) && n in g.nodes
    ensures Looser(Cumulative(h, n), Cumulative(g, n))
    ensures Conflict(h, n) ==> Conflict(g, n)
  {
  }

  lemma LooserDerived(conf: NodeId -> Config, h: Graph, g: Graph, n: NodeId, e: EdgeId)
    requires LooserGraph(h, g) && n in g.nodes && e in g.edges
    ensures Looser(Derived(DefaultDrivers(conf), h, n, e), Derived(DefaultDrivers(conf), g, n, e))
  {
    LooserCumulative(h, g, n);
    DefaultRightsMonotone(conf(n), conf(n), g.edges[e].role, Cumulative(h, n), Cumulative(g, n));
    EveryPerm(Derived(DefaultDrivers(conf), g, n, e).shared);
  }

  lemma LooserNode(conf: NodeId -> Config, h: Graph, g: Graph, n: NodeId)
    requires LooserGraph(h, g) && n in g.nodes && g.nodes[n].config.sizeAligned
    requires Consistent(DefaultDrivers(conf), g, n)
    ensures RefreshNode(DefaultDrivers(conf), h, n).Some?
    ensures LooserGraph(RefreshNode(DefaultDrivers(conf), h, n).value, g)
  {
    var d := DefaultDrivers(conf);
    LooserCumulative(h, g, n);
    var h1 := RefreshNode(d, h, n).value;
    forall e | e in g.edges
      ensures h1.edges[e] == g.edges[e].(perm := h1.edges[e].perm, shared := h1.edges[e].shared)
      ensures h1.edges[e].perm <= g.edges[e].perm && g.edges[e].shared <= h1.edges[e].shared
    {
      if e in g.nodes[n].children && g.nodes[n].config.open {
        assert CarriesDerived(d, g, n, e);
        LooserDerived(conf, h, g, n, e);
      }
    }
  }

  /**
   In a consistent graph with the default rules and aligned image sizes, loosening edges never makes
   the refresh fail, and the looseness propagates down the whole subtree.
   */
  lemma {:induction false} LooseningSucceeds(conf: NodeId -> Config, h: Graph, g: Graph, list: seq<NodeId>)
    requires LooserGraph(h, g)
    requires forall n :: n in list ==>
      n in g.nodes && n in h.nodes && g.nodes[n].config.sizeAligned && Consistent(DefaultDrivers(conf), g, n)
    ensures RefreshList(DefaultDrivers(conf), h, list).Some?
    ensures LooserGraph(RefreshList(DefaultDrivers(conf), h, list).value, g)
    decreases |list|
  {
    if list != [] {
      LooserNode(conf, h, g, list[0]);
      LooseningSucceeds(conf, RefreshNode(DefaultDrivers(conf), h, list[0]).value, g, list[1..]);
    }
  }

  /** A node of unaligned size that one outside user writes and resizes. */
  function UnalignedGraph(perm: Perms): Graph {
    var conf := Config(true, false, true, false, false, false, false);
    Graph(map[0 := Node({}, {0}, None, None, None, 1, conf)],
          map[0 := Edge(Some(0), HeldOutside, perm, ALL_PERMS, Role(false, false, false, false), false, false)])
  }

  /** Without aligned sizes loosening can fail: giving up RESIZE while keeping WRITE is refused. */
  lemma LooseningNeedsAlignment()
    ensures var d := DefaultDrivers((n: NodeId) => Config(true, false, true, false, false, false, false));
            var g, h := UnalignedGraph({Write, Resize}), UnalignedGraph({Write});
            Consistent(d, g, 0) && LooserGraph(h, g) && RefreshList(d, h, [0]).None?
  {
    var g, h := UnalignedGraph({Write, Resize}), UnalignedGraph({Write});
    assert 0 in g.nodes[0].parents && 0 in h.nodes[0].parents;
    assert Write in CumulativePerm(g, 0) && Resize in CumulativePerm(g, 0);
    assert Write in CumulativePerm(h, 0) && Resize !in CumulativePerm(h, 0);
  }

  // --- Exactly when loosening succeeds ---

  /** The same graph with sizes that are multiples of the request alignment. */
  ghost function Aligned(g: Graph): Graph {
    g.(nodes := map n | n in g.nodes :: g.nodes[n].(config := g.nodes[n].config.(sizeAligned := true)))
  }

  /** The rights that end up on a node allow for its size. */
  ghost predicate SizeAllows(sizes: Graph, rights: Graph, n: NodeId) {
    n in sizes.nodes && n in rights.nodes &&
    (!sizes.nodes[n].config.sizeAligned && Writes(CumulativePerm(rights, n)) ==> Resize in CumulativePerm(rights, n))
  }

  lemma AlignedSame(g: Graph, n: NodeId)
    requires n in g.nodes
    ensures n in Aligned(g).nodes && Cumulative(Aligned(g), n) == Cumulative(g, n)
    ensures Conflict(Aligned(g), n) <==> Conflict(g, n)
    ensures Kids(Aligned(g), n) == Kids(g, n)
  {
    var a := Aligned(g);
    assert a.nodes[n].parents == g.nodes[n].parents && a.nodes[n].children == g.nodes[n].children && a.edges == g.edges;
    assert CumulativePerm(a, n) == CumulativePerm(g, n) && CumulativeShared(a, n) == CumulativeShared(g, n);
  }

  /** Consistency is consistency with aligned sizes, where the size allows for the rights. */
  lemma ConsistentAligned(d: Drivers, g: Graph, n: NodeId)
    requires n in g.nodes
    ensures Consistent(d, g, n) <==> Consistent(d, Aligned(g), n) && SizeAllows(g, g, n)
  {
    var a := Aligned(g);
    AlignedSame(g, n);
    forall e | e in g.edges ensures Derived(d, a, n, e) == Derived(d, g, n, e) {
    }
    forall e | e in g.edges ensures CarriesDerived(d, a, n, e) <==> CarriesDerived(d, g, n, e) {
    }
  }

  lemma AlignedOrder(g: Graph, list: seq<NodeId>)
    requires WellFormed(g) && Ordered(g, list) && forall n :: n in list ==> n in g.nodes
    ensures WellFormed(Aligned(g)) && Ordered(Aligned(g), list)
  {
    var a := Aligned(g);
    forall n | n in a.nodes ensures ChildrenOk(a, n) && ParentsOk(a, n) {
      assert ChildrenOk(g, n) && ParentsOk(g, n);
    }
    forall e | e in a.edges ensures EdgeOk(a, e) {
      assert EdgeOk(g, e);
    }
    forall n ensures Kids(a, n) == Kids(g, n) {
      if n in g.nodes {
        AlignedSame(g, n);
      }
    }
  }

  lemma AlignedDiffer(g: Graph, h: Graph, list: seq<NodeId>)
    requires OnlyRightsDiffer(g, h, list)
    ensures OnlyRightsDiffer(Aligned(g), Aligned(h), list)
  {
    forall e | e in g.edges && !BelowOpen(Aligned(g), list, e) ensures h.edges[e] == g.edges[e] {
      if BelowOpen(g, list, e) {
        var n :| n in list && n in g.nodes && e in g.nodes[n].children && g.nodes[n].config.open;
        assert n in Aligned(g).nodes;
      }
    }
  }

  /**
   A refresh succeeds if and only if it does so with aligned sizes and leaves no unaligned node that is
   written without the right to resize it.
   */
  lemma RefreshSucceedsIff(d: Drivers, g: Graph, list: seq<NodeId>)
    requires WellFormed(g) && Ordered(g, list) && forall n :: n in list ==> n in g.nodes
    ensures forall n :: n in list ==> n in Aligned(g).nodes
    ensures RefreshList(d, g, list).Some? <==>
      RefreshList(d, Aligned(g), list).Some? && forall n :: n in list ==>
        SizeAllows(g, RefreshList(d, Aligned(g), list).value, n)
  {
    var a := Aligned(g);
    AlignedOrder(g, list);
    if RefreshList(d, g, list).Some? {
      var k := RefreshList(d, g, list).value;
      RefreshIsSound(d, g, list);
      AlignedDiffer(g, k, list);
      forall n | n in list ensures Consistent(d, Aligned(k), n) && SizeAllows(g, Aligned(k), n) {
        ConsistentAligned(d, k, n);
        AlignedSame(k, n);
      }
      RefreshIsComplete(d, a, list, Aligned(k));
    }
    if RefreshList(d, a, list).Some? && forall n :: n in list ==> SizeAllows(g, RefreshList(d, a, list).value, n) {
      RefreshIsSound(d, a, list);
      var k := RefreshList(d, a, list).value;
      BackFromAligned(d, g, list, k);
    }
  }

  lemma BackFromAligned(d: Drivers, g: Graph, list: seq<NodeId>, k: Graph)
    requires WellFormed(g) && Ordered(g, list) && (forall n :: n in list ==> n in g.nodes)
    requires OnlyRightsDiffer(Aligned(g), k, list) && forall n :: n in list ==>
      Consistent(d, k, n) && SizeAllows(g, k, n)
    ensures RefreshList(d, g, list).Some?
  {
    var r := Graph(g.nodes, k.edges);
    assert Aligned(r) == k by {
      assert Aligned(r).nodes == Aligned(g).nodes;
    }
    forall e | e in g.edges && !BelowOpen(g, list, e) ensures r.edges[e] == g.edges[e] {
      assert !BelowOpen(Aligned(g), list, e);
    }
    forall n | n in list ensures Consistent(d, r, n) {
      AlignedSame(r, n);
      ConsistentAligned(d, r, n);
    }
    RefreshIsComplete(d, g, list, r);
  }
}
