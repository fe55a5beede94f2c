/**
 Which edits keep the block graph free of cycles: should_update_child, bdrv_replace_node_noperm and
 the backing check of a reopen (block.c).
 */
module GraphShape {
  import opened Options
  import opened BlockGraph
  import opened GraphEdit
  import opened GraphAccounting

  // --- How links change reachability ---

  lemma {:induction false} FewerLinksReachLess(g: Graph, g': Graph, p: seq<NodeId>, a: NodeId, b: NodeId)
    requires forall n :: Kids(g', n) <= Kids(g, n)
    requires PathFromTo(g', p, a, b)
    ensures Reaches(g, a, b)
  {
    assert PathFromTo(g, p, a, b);
  }

  lemma FewerLinksAcyclic(g: Graph, g': Graph)
    requires Acyclic(g) && forall n :: Kids(g', n) <= Kids(g, n)
    ensures Acyclic(g')
  {
    forall a, b | b in Kids(g', a) ensures !Reaches(g', b, a) {
      if Reaches(g', b, a) {
        var p :| PathFromTo(g', p, b, a);
        FewerLinksReachLess(g, g', p, b, a);
      }
    }
  }

  /** g' has at most one link that g lacks, from a to b. */
  ghost predicate OneMoreLink(g: Graph, g': Graph, a: NodeId, b: NodeId) {
    && (forall n :: n != a ==> Kids(g', n) <= Kids(g, n))
    && Kids(g', a) <= Kids(g, a) + {b}
  }

  /** A path of g' either is one of g, or goes to a, takes the new link, and goes on from b. */
  lemma {:induction false} PathUsesLink(g: Graph, g': Graph, a: NodeId, b: NodeId, p: seq<NodeId>, x: NodeId, y: NodeId)
    requires OneMoreLink(g, g', a, b) && PathFromTo(g', p, x, y)
    ensures Reaches(g, x, y) || (Reaches(g, x, a) && Reaches(g, b, y))
    decreases |p|
  {
    if |p| == 1 {
      ReachesSelf(g, x);
    } else {
      var q := p[..|p| - 1];
      var m := p[|p| - 2];
      assert PathFromTo(g', q, x, m);
      PathUsesLink(g, g', a, b, q, x, m);
      assert y in Kids(g', m);
      if y in Kids(g, m) {
        if Reaches(g, x, m) { ReachesDown(g, x, m, y); } else { ReachesDown(g, b, m, y); }
      } else {
        assert m == a && y == b;
        ReachesSelf(g, b);
      }
    }
  }

  /** A new link is harmless unless it leads from a node to one of its ancestors. */
  lemma NewLinkAcyclic(g: Graph, g': Graph, a: NodeId, b: NodeId)
    requires Acyclic(g) && OneMoreLink(g, g', a, b) && !Reaches(g, b, a)
    ensures Acyclic(g')
  {
    forall x, y | y in Kids(g', x) ensures !Reaches(g', y, x) {
      if Reaches(g', y, x) {
        var p :| PathFromTo(g', p, y, x);
        PathUsesLink(g, g', a, b, p, y, x);
        if y in Kids(g, x) {
          assert Reaches(g, b, x) && Reaches(g, y, a);
          ReachesDown(g, b, x, y);
          ReachesTrans(g, b, y, a);
        }
      }
    }
  }

  /** Conversely, a link from a node to one of its ancestors always closes a cycle. */
  lemma BadLinkCycles(g: Graph, g': Graph, a: NodeId, b: NodeId)
    requires forall n :: Kids(g, n) <= Kids(g', n)
    requires b in Kids(g', a) && Reaches(g, b, a)
    ensures !Acyclic(g')
  {
    var p :| PathFromTo(g, p, b, a);
    assert PathFromTo(g', p, b, a);
  }

  // --- The effect of the edits on child links ---

  lemma SamePermKids(g: Graph, e: EdgeId, perm: Perms, shared: Perms, n: NodeId)
    requires e in g.edges
    ensures Kids(SetPerm(g, e, perm, shared), n) == Kids(g, n)
  {
  }

  lemma SameInheritsKids(g: Graph, m: NodeId, from: Option<NodeId>, n: NodeId)
    requires m in g.nodes
    ensures Kids(SetInherits(g, m, from), n) == Kids(g, n)
  {
  }

  lemma ReplaceKids(g: Graph, e: EdgeId, to: NodeId, n: NodeId)
    requires WellFormed(g) && Free(g, e)
    ensures g.edges[e].holder != HeldByNode(n) ==> Kids(ReplaceChild(g, e, Some(to)), n) == Kids(g, n)
    ensures Kids(ReplaceChild(g, e, Some(to)), n) <= Kids(g, n) + {to}
  {
    var g' := ReplaceChild(g, e, Some(to));
    ReplaceShape(g, e, Some(to));
    if n in g.nodes {
      ReplaceNode(g, e, Some(to), n);
      assert ChildrenOk(g, n);
    }
  }

  lemma AttachKids(g: Graph, e: EdgeId, c: Edge, to: NodeId, slot: Slot, n: NodeId)
    requires WellFormed(g) && FreshEdge(g, e) && !c.frozen
    ensures c.holder != HeldByNode(n) ==> Kids(Attach(g, e, c, to, slot), n) == Kids(g, n)
    ensures Kids(g, n) <= Kids(Attach(g, e, c, to, slot), n) <= Kids(g, n) + {to}
    ensures c.holder == HeldByNode(n) && n in g.nodes ==> to in Kids(Attach(g, e, c, to, slot), n)
  {
    var g' := Attach(g, e, c, to, slot);
    AttachShape(g, e, c, to, slot);
    if n in g.nodes {
      AttachNode(g, e, c, to, slot, n);
      assert ChildrenOk(g, n);
      if c.holder == HeldByNode(n) {
        assert e in g'.nodes[n].children && g'.edges[e].bs == Some(to);
      }
      forall k | k in Kids(g, n) ensures k in Kids(g', n) {
        var d :| d in g.nodes[n].children && d in g.edges && g.edges[d].bs == Some(k);
        assert d in g'.nodes[n].children && g'.edges[d].bs == Some(k);
      }
    }
  }

  lemma RemoveKids(g: Graph, e: EdgeId, parent: NodeId, isBacking: bool, n: NodeId)
    requires WellFormed(g) && IsLink(g, e, parent, isBacking)
    ensures Kids(RemoveChild(g, e, parent, isBacking), n) <= Kids(g, n)
  {
    RemoveShape(g, e, parent, isBacking);
    if n in g.nodes {
      RemoveNode(g, e, parent, isBacking, n);
      assert ChildrenOk(g, n);
    }
  }

  /**
   Attaching an edge keeps the graph acyclic exactly when the holder is not in the subtree of the
   new target.
   */
  lemma AttachAcyclicIff(g: Graph, e: EdgeId, c: Edge, to: NodeId, slot: Slot)
    requires WellFormed(g) && Acyclic(g) && FreshEdge(g, e) && !c.frozen
    requires c.holder.HeldByNode? ==> c.holder.node in g.nodes
    ensures Acyclic(Attach(g, e, c, to, slot)) <==> (c.holder.HeldByNode? ==> !Reaches(g, to, c.holder.node))
  {
    var g' := Attach(g, e, c, to, slot);
    forall n ensures Kids(g, n) <= Kids(g', n) <= Kids(g, n) + {to} {
      AttachKids(g, e, c, to, slot, n);
    }
    forall n | c.holder != HeldByNode(n) ensures Kids(g', n) == Kids(g, n) {
      AttachKids(g, e, c, to, slot, n);
    }
    if c.holder.HeldOutside? {
      FewerLinksAcyclic(g, g');
    } else {
      var h := c.holder.node;
      AttachKids(g, e, c, to, slot, h);
      if Reaches(g, to, h) {
        BadLinkCycles(g, g', h, to);
      } else {
        NewLinkAcyclic(g, g', h, to);
      }
    }
  }

  /** Two nodes: 0 has 1 as its child. */
  function PairGraph(): Graph {
    var conf := Config(true, false, true, false, false, false, true);
    var role := Role(true, false, false, false);
    Graph(map[0 := Node({0}, {}, None, Some(0), None, 1, conf), 1 := Node({}, {0}, None, None, None, 2, conf)],
          map[0 := Edge(Some(1), HeldByNode(0), {}, ALL_PERMS, role, false, false)])
  }

  lemma PairIsFine()
    ensures WellFormed(PairGraph()) && Acyclic(PairGraph()) && FreshEdge(PairGraph(), 1)
    ensures Reaches(PairGraph(), 0, 1) && 1 in Kids(PairGraph(), 0)
  {
    var g := PairGraph();
    assert 0 in g.nodes[0].children && g.edges[0].bs == Some(1);
    assert Kids(g, 0) == {1} && Kids(g, 1) == {};
    ReachesKid(g, 0, 1);
    forall a, b | b in Kids(g, a) ensures !Reaches(g, b, a) {
      if Reaches(g, b, a) {
        ClosedContains(g, {1}, b, a);
      }
    }
  }

  /**
   The condition is needed: bdrv_attach_child_noperm asks for an open parent and a new edge only, and would
   attach 0 below 1, which closes a cycle.
   */
  lemma AttachCanCycle()
    ensures var g := PairGraph(); var c := g.edges[0].(holder := HeldByNode(1));
      && WellFormed(g) && Acyclic(g) && FreshEdge(g, 1) && g.nodes[1].config.open
      && !Acyclic(Attach(g, 1, c, 0, LocalVariable))
  {
    PairIsFine();
    var g := PairGraph();
    AttachAcyclicIff(g, 1, g.edges[0].(holder := HeldByNode(1)), 0, LocalVariable);
  }

  // --- bdrv_recurse_has_child ---

  /** Whether child can be reached from bs; the test made before a reopen changes a backing link. */
  method RecurseHasChild(g: Graph, bs: NodeId, child: NodeId) returns (found: bool)
    requires WellFormed(g) && Acyclic(g) && bs in g.nodes
    ensures found <==> Reaches(g, bs, child)
    decreases Subtree(g, bs)
  {
    if bs == child {
      ReachesSelf(g, bs);
      return true;
    }
    RecurseHasChildMeaning(g, bs, child);
    var todo := g.nodes[bs].children;
    while todo != {}
      invariant todo <= g.nodes[bs].children
      invariant forall e :: e in g.nodes[bs].children && e !in todo ==> !LeadsTo(g, e, child)
      decreases |todo|
    {
      var e :| e in todo;
      todo := todo - {e};
      assert ChildrenOk(g, bs) && EdgeOk(g, e);
      SubtreeShrinks(g, bs, g.edges[e].bs.value);
      found := RecurseHasChild(g, g.edges[e].bs.value, child);
      if found {
        assert LeadsTo(g, e, child);
        return;
      }
    }
    return false;
  }

  /** The child can be reached over the edge. */
  ghost predicate LeadsTo(g: Graph, e: EdgeId, child: NodeId) {
    e in g.edges && g.edges[e].bs.Some? && Reaches(g, g.edges[e].bs.value, child)
  }

  lemma RecurseHasChildMeaning(g: Graph, bs: NodeId, child: NodeId)
    requires WellFormed(g) && bs in g.nodes
    ensures Reaches(g, bs, child) <==>
      bs == child || exists e :: e in g.nodes[bs].children && LeadsTo(g, e, child)
  {
    ReachesSelf(g, bs);
    if Reaches(g, bs, child) && bs != child {
      var k := FirstLink(g, bs, child);
      assert ChildrenOk(g, bs);
      var e :| e in g.nodes[bs].children && g.edges[e].bs == Some(k);
      assert LeadsTo(g, e, child);
    }
    forall e | e in g.nodes[bs].children && LeadsTo(g, e, child) ensures Reaches(g, bs, child) {
      var k := g.edges[e].bs.value;
      assert k in Kids(g, bs);
      ReachesKid(g, bs, k);
      ReachesTrans(g, bs, k, child);
    }
  }
}
