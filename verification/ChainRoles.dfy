/**
 Roles of links (block.c): the assertions of bdrv_cow_child and bdrv_filter_child, which operations keep them and
 when not, and what a new backing link may do to the node below.
 */
module ChainRoles {
  import opened Options
  import opened BlockGraph
  import opened Permissions
  import opened PermissionRefresh
  import opened GraphEdit
  import opened GraphAccounting
  import opened GraphTransaction
  import opened BlockLayer
  import opened BackingChain
  import opened BlockOperations

  // --- The child in the chain ---

  predicate ChainRole(role: Role) {
    role.cow || role.filtered
  }

  /** The link has the role that its place at the node asks for. */
  ghost predicate LinkRight(g: Graph, n: NodeId, e: EdgeId)
    requires n in g.nodes && e in g.edges
  {
    var node, role := g.nodes[n], g.edges[e].role;
    && (ChainRole(role) <==> node.backing == Some(e) || (node.config.isFilter && node.file == Some(e)))
    && (ChainRole(role) ==> role.filtered == node.config.isFilter && role.cow != node.config.isFilter)
  }

  /**
   What bdrv_cow_child and bdrv_filter_child assert: a backing link is a COW one, or a filtered one at a filter;
   a filter has a backing or a file child and not both.
   */
  ghost predicate RolesRight(g: Graph, n: NodeId)
    requires n in g.nodes
  {
    var node := g.nodes[n];
    node.config.open ==>
      && (node.config.isFilter ==> node.backing.None? || node.file.None?)
      && forall e {:trigger LinkRight(g, n, e)} :: e in node.children && e in g.edges ==> LinkRight(g, n, e)
  }

  /** The chain child is the child with a COW or filtered link: there is one exactly if some link is of that kind. */
  lemma ChainChildMeaning(g: Graph, n: NodeId, e: EdgeId)
    requires WellFormed(g) && n in g.nodes && g.nodes[n].config.open && RolesRight(g, n)
    ensures FilterOrCow(g, n) == Some(e) <==> e in g.nodes[n].children && e in g.edges && ChainRole(g.edges[e].role)
  {
    assert ChildrenOk(g, n);
    if e in g.nodes[n].children {
      assert LinkRight(g, n, e);
    }
  }

  // --- Operations keep it ---

  /** A change of the backing link keeps the roles right, except at a filter that has a file child. */
  lemma BackingSetRolesIff(d: Drivers, g: Graph, bs: NodeId, hd: Option<NodeId>, e: EdgeId, relink: bool, n: NodeId)
    requires WellFormed(g) && CanSetBacking(g, bs, hd, e) && BackingFree(g, bs) && n in g.nodes && RolesRight(g, n)
    ensures n in BackingSet(d, g, bs, hd, e, relink).nodes
    ensures RolesRight(BackingSet(d, g, bs, hd, e, relink), n) <==>
      !(n == bs && hd.Some? && g.nodes[bs].config.isFilter && g.nodes[bs].file.Some?)
  {
    var g' := BackingSet(d, g, bs, hd, e, relink);
    BackingSetNode(d, g, bs, hd, e, relink, n);
    assert ChildrenOk(g, n);
    if !(n == bs && hd.Some? && g.nodes[bs].config.isFilter && g.nodes[bs].file.Some?) {
      forall c | c in g'.nodes[n].children && c in g'.edges && g.nodes[n].config.open ensures LinkRight(g', n, c) {
        BackingSetEdge(d, g, bs, hd, e, relink, c);
        if c in g.nodes[n].children {
          assert LinkRight(g, n, c);
        }
      }
    }
  }

  lemma RedirectedRoles(g0: Graph, g: Graph, to: NodeId, moved: set<EdgeId>, n: NodeId)
    requires Redirected(g0, g, to, moved) && n in g0.nodes && WellFormed(g0) && RolesRight(g0, n)
    ensures n in g.nodes && RolesRight(g, n)
  {
    assert NodeKept(g0, g, n) && ChildrenOk(g0, n);
    forall e | e in g.nodes[n].children && e in g.edges && g.nodes[n].config.open ensures LinkRight(g, n, e) {
      assert EdgeMoved(g0, g, to, moved, e) && LinkRight(g0, n, e);
    }
  }

  lemma WithoutChainRoles(g: Graph, p: NodeId, n: NodeId)
    requires WellFormed(g) && p in g.nodes && n in g.nodes && DistinctLinks(g, p) && ChainLinkFree(g, p)
    requires RolesRight(g, n)
    ensures n in WithoutChain(g, p).nodes && RolesRight(WithoutChain(g, p), n)
  {
    var g' := WithoutChain(g, p);
    var c := FilterOrCow(g, p);
    if c.Some? {
      var isBacking := g.nodes[p].backing == c;
      RemoveNode(g, c.value, p, isBacking, n);
      RemoveShape(g, c.value, p, isBacking);
      assert ChildrenOk(g, n) && ChildrenOk(g, p);
      forall e | e in g'.nodes[n].children && e in g'.edges && g'.nodes[n].config.open ensures LinkRight(g', n, e) {
        assert LinkRight(g, n, e);
      }
    }
  }

  /** A filter that already has a file child, and a node to become its backing child. */
  function FilterWithFile(): Graph {
    var conf := Config(true, true, true, false, false, false, true);
    var plain := conf.(isFilter := false);
    Graph(map[0 := Node({0}, {}, None, Some(0), None, 1, conf), 1 := Node({}, {0}, None, None, None, 1, plain),
              2 := Node({}, {}, None, None, None, 1, plain)],
          map[0 := Edge(Some(1), HeldByNode(0), {}, ALL_PERMS, Role(false, false, true, false), false, false)])
  }

  /** The exception is real: bdrv_set_backing_hd accepts such a filter, and the next look at its child asserts. */
  lemma BackingBesideFile(d: Drivers)
    ensures var g := FilterWithFile();
      && WellFormed(g) && CanSetBacking(g, 0, Some(2), 1) && BackingFree(g, 0) && RolesRight(g, 0)
      && 0 in BackingSet(d, g, 0, Some(2), 1, false).nodes && !RolesRight(BackingSet(d, g, 0, Some(2), 1, false), 0)
  {
    var g := FilterWithFile();
    assert Kids(g, 2) == {};
    if Reaches(g, 2, 0) {
      ClosedContains(g, {2}, 2, 0);
    }
    BackingSetRolesIff(d, g, 0, Some(2), 1, false, 0);
  }

  // --- Rights of a new backing link ---

  /** What an operation leaves on a link below its root: the rights derived there. */
  lemma AppliedEdge(d: Drivers, g1: Graph, g: Graph, roots: set<NodeId>, n: NodeId, e: EdgeId)
    requires Applied(d, g1, g, roots) && n in roots && n in g1.nodes && g1.nodes[n].config.open
    requires e in g1.nodes[n].children && e in g1.edges && g1.edges[e].bs.Some?
    ensures n in g.nodes && e in g.nodes[n].children && e in g.edges
    ensures g.edges[e] == g1.edges[e].(perm := g.edges[e].perm, shared := g.edges[e].shared)
    ensures CarriesDerived(d, g, n, e)
  {
    var h :| RefreshedBelow(d, g1, h, roots) && LinksKept(h, g);
    ReachesSelf(g1, n);
    assert NodeSame(h, g, n) && EdgeSame(h, g, e);
    assert Consistent(d, g, n);
  }

  /** What the default rules ask for on a link of a chain. */
  lemma ChainRights(now: Config, role: Role, r: Rights)
    requires role.filtered != role.cow
    ensures var s := DefaultRights(now, now, role, r).perm;
      if role.filtered then s == r.perm - {GraphMod} else s <= {ConsistentRead}
  {
    var s := DefaultRights(now, now, role, r).perm;
    forall p: Perm | role.filtered ensures p in s <==> p in r.perm && p != GraphMod {
      FilterMeaning(now, now, role, r, p);
    }
    forall p: Perm | role.cow ensures p in s <==> p in r.perm && p == ConsistentRead {
      CowMeaning(now, now, role, r, p);
    }
  }

  /**
   Under the default rules a new backing link of a node that is no filter asks for nothing but to read; that of a
   filter asks for what the filter is asked for, except for changes to the graph.
   */
  lemma BackingLinkRights(conf: NodeId -> Config, g1: Graph, g: Graph, bs: NodeId, e: EdgeId)
    requires Applied(DefaultDrivers(conf), g1, g, {bs}) && bs in g1.nodes && g1.nodes[bs].config.open
    requires e in g1.nodes[bs].children && e in g1.edges && g1.edges[e].bs.Some? && LinkRight(g1, bs, e)
    requires g1.nodes[bs].backing == Some(e)
    ensures bs in g.nodes && e in g.edges
    ensures !g1.nodes[bs].config.isFilter ==> g.edges[e].perm <= {ConsistentRead}
    ensures g1.nodes[bs].config.isFilter ==> g.edges[e].perm == CumulativePerm(g, bs) - {GraphMod}
  {
    AppliedEdge(DefaultDrivers(conf), g1, g, {bs}, bs, e);
    ChainRights(conf(bs), g1.edges[e].role, Cumulative(g, bs));
    assert g.edges[e].perm == DefaultRights(conf(bs), conf(bs), g1.edges[e].role, Cumulative(g, bs)).perm;
  }

  /** So it is after a successful bdrv_set_backing_hd. */
  lemma SetBackingRights(conf: NodeId -> Config, g0: Graph, g: Graph, bs: NodeId, hd: NodeId, e: EdgeId, relink: bool)
    requires WellFormed(g0) && CanSetBacking(g0, bs, Some(hd), e) && BackingFree(g0, bs)
    requires Applied(DefaultDrivers(conf), BackingSet(DefaultDrivers(conf), g0, bs, Some(hd), e, relink), g, {bs})
    ensures bs in g.nodes && e in g.edges
    ensures !g0.nodes[bs].config.isFilter ==> g.edges[e].perm <= {ConsistentRead}
    ensures g0.nodes[bs].config.isFilter ==> g.edges[e].perm == CumulativePerm(g, bs) - {GraphMod}
  {
    var g1 := BackingSet(DefaultDrivers(conf), g0, bs, Some(hd), e, relink);
    BackingSetNode(DefaultDrivers(conf), g0, bs, Some(hd), e, relink, bs);
    BackingSetEdge(DefaultDrivers(conf), g0, bs, Some(hd), e, relink, e);
    BackingLinkRights(conf, g1, g, bs, e);
  }

  /** And after a successful bdrv_append. */
  lemma AppendRights(conf: NodeId -> Config, g0: Graph, edited: Graph, g: Graph, bsNew: NodeId, bsTop: NodeId,
      e: EdgeId)
    requires WellFormed(g0) && CanAttach(g0, bsNew, bsTop, e, BackingOf(bsNew))
    requires var linked := BackingLinked(DefaultDrivers(conf), g0, bsNew, bsTop, e, false);
      bsTop in linked.nodes && Redirected(linked, edited, bsNew, Movable(linked, bsTop, bsNew))
    requires Applied(DefaultDrivers(conf), edited, g, {bsNew})
    ensures bsNew in g.nodes && e in g.edges
    ensures !g0.nodes[bsNew].config.isFilter ==> g.edges[e].perm <= {ConsistentRead}
    ensures g0.nodes[bsNew].config.isFilter ==> g.edges[e].perm == CumulativePerm(g, bsNew) - {GraphMod}
  {
    var d := DefaultDrivers(conf);
    var linked := BackingLinked(d, g0, bsNew, bsTop, e, false);
    var c := NewEdge(d, g0, bsNew, bsTop, BackingRole(g0, bsNew));
    AttachNode(g0, e, c, bsTop, BackingOf(bsNew), bsNew);
    AttachShape(g0, e, c, bsTop, BackingOf(bsNew));
    assert NodeKept(linked, edited, bsNew) && EdgeMoved(linked, edited, bsNew, Movable(linked, bsTop, bsNew), e);
    BackingLinkRights(conf, edited, g, bsNew, e);
  }

  /** What a successful bdrv_attach_child leaves: a link from parent to child in the given role, with derived rights. */
  lemma AttachedLink(d: Drivers, g0: Graph, g: Graph, parent: NodeId, child: NodeId, e: EdgeId, role: Role)
    requires WellFormed(g0) && CanAttach(g0, parent, child, e, LocalVariable)
    requires Applied(d, Attach(g0, e, NewEdge(d, g0, parent, child, role), child, LocalVariable), g, {parent})
    ensures parent in g.nodes && e in g.nodes[parent].children && e in g.edges && CarriesDerived(d, g, parent, e)
    ensures var c := g.edges[e];
      c.bs == Some(child) && c.holder == HeldByNode(parent) && c.role == role && !c.frozen && !c.stayAtNode
  {
    var c := NewEdge(d, g0, parent, child, role);
    AttachNode(g0, e, c, child, LocalVariable, parent);
    AttachShape(g0, e, c, child, LocalVariable);
    AppliedEdge(d, Attach(g0, e, c, child, LocalVariable), g, {parent}, parent, e);
  }
}
