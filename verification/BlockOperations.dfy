/**
 The public graph operations of block.c: attaching a child, changing a backing link, replacing and
 appending nodes, changing the rights of an edge.  Each either takes full effect and leaves the
 touched subtree consistent, or leaves the graph exactly as it found it.  Replacing a node can run into an
 assertion instead, under an exact condition.
 */
module BlockOperations {
  import opened Options
  import opened BlockGraph
  import opened TopologicalOrder
  import opened Permissions
  import opened PermissionRefresh
  import opened LooseningCondition
  import opened GraphEdit
  import opened GraphAccounting
  import opened GraphShape
  import opened NodeReplacement
  import opened GraphTransaction
  import opened BlockLayer
  import opened BackingChain

  // --- What finishing a transaction leaves alone ---

  ghost predicate NodeSame(g: Graph, g': Graph, n: NodeId)
    requires n in g.nodes
  {
    n in g'.nodes && g'.nodes[n] == g.nodes[n].(refcnt := g'.nodes[n].refcnt)
  }

  ghost predicate EdgeSame(g: Graph, g': Graph, e: EdgeId)
    requires e in g.edges
  {
    g.edges[e].bs.Some? ==> e in g'.edges && g'.edges[e] == g.edges[e]
  }

  /** Only counts and detached edges may differ. */
  ghost predicate LinksKept(g: Graph, g': Graph) {
    && g'.nodes.Keys == g.nodes.Keys && g'.edges.Keys <= g.edges.Keys
    && (forall n {:trigger NodeSame(g, g', n)} :: n in g.nodes ==> NodeSame(g, g', n))
    && (forall e {:trigger EdgeSame(g, g', e)} :: e in g.edges ==> EdgeSame(g, g', e))
  }

  lemma AddRefKeepsLinks(g: Graph, n: NodeId, delta: int)
    ensures LinksKept(g, AddRef(g, Some(n), delta))
  {
  }

  lemma {:induction false} CommitKeepsLinks(g: Graph, log: seq<Undo>)
    requires AllCommitSafe(g, log) && RemovalsUnlinked(g, log)
    ensures LinksKept(g, CommitAll(g, log))
    decreases |log|
  {
    if log != [] {
      var u := log[|log| - 1];
      var g1 := Commit(g, u);
      forall i | 0 <= i < |log| - 1 && log[i].UndoRemove? ensures Unlinked(g1, log[i].e) {
        assert Unlinked(g, log[i].e);
      }
      CommitKeepsLinks(g1, log[..|log| - 1]);
      var g2 := CommitAll(g, log);
      forall n | n in g.nodes ensures NodeSame(g, g2, n) {
        assert NodeSame(g1, g2, n);
      }
      forall e | e in g.edges ensures EdgeSame(g, g2, e) {
        if g.edges[e].bs.Some? {
          assert EdgeSame(g1, g2, e);
        }
      }
    }
  }

  lemma LinksKeptTrans(g: Graph, g1: Graph, g2: Graph)
    requires LinksKept(g, g1) && LinksKept(g1, g2)
    ensures LinksKept(g, g2)
  {
    forall n | n in g.nodes ensures NodeSame(g, g2, n) {
      assert NodeSame(g, g1, n) && NodeSame(g1, g2, n);
    }
    forall e | e in g.edges ensures EdgeSame(g, g2, e) {
      assert EdgeSame(g, g1, e);
      if g.edges[e].bs.Some? {
        assert EdgeSame(g1, g2, e);
      }
    }
  }

  lemma ConsistentKept(d: Drivers, g: Graph, g': Graph, n: NodeId)
    requires WellFormed(g) && LinksKept(g, g') && Consistent(d, g, n)
    ensures Consistent(d, g', n)
  {
    assert NodeSame(g, g', n) && ParentsOk(g, n) && ChildrenOk(g, n);
    forall e | e in g.nodes[n].parents ensures e in g'.edges && g'.edges[e] == g.edges[e] {
      assert EdgeSame(g, g', e);
    }
    assert Cumulative(g', n) == Cumulative(g, n) && !Conflict(g', n);
    forall e | e in g'.nodes[n].children && e in g'.edges && g'.nodes[n].config.open
      ensures CarriesDerived(d, g', n, e)
    {
      assert EdgeSame(g, g', e) && EdgeOk(g, e);
      assert NodeSame(g, g', g.edges[e].bs.value);
      assert CarriesDerived(d, g, n, e);
    }
  }

  // --- References held from outside ---

  function Less(ext: Outside, n: NodeId): Outside {
    (m: NodeId) => if m == n && ext(m) > 0 then ext(m) - 1 else ext(m)
  }

  function More(ext: Outside, n: NodeId): Outside {
    (m: NodeId) => if m == n then ext(m) + 1 else ext(m)
  }

  /** bdrv_unref of a reference somebody outside held. */
  lemma DropOutside(g: Graph, ext: Outside, n: NodeId)
    requires Settled(g, ext) && n in g.nodes && ext(n) > 0
    ensures g.nodes[n].refcnt > 0
    ensures Settled(AddRef(g, Some(n), -1), Less(ext, n))
  {
    var g' := AddRef(g, Some(n), -1);
    assert CountedRight(g, [], ext, n);
    CountsOnly(g, g');
    forall m | m in g'.nodes ensures CountedRight(g', [], Less(ext, n), m) {
      assert CountedRight(g, [], ext, m);
    }
  }

  lemma TakeOutside(g: Graph, ext: Outside, n: NodeId)
    requires Settled(g, ext) && n in g.nodes
    ensures Settled(AddRef(g, Some(n), 1), More(ext, n))
  {
    var g' := AddRef(g, Some(n), 1);
    CountsOnly(g, g');
    forall m | m in g'.nodes ensures CountedRight(g', [], More(ext, n), m) {
      assert CountedRight(g, [], ext, m);
    }
  }

  /** Changing counts changes no link. */
  lemma CountsOnly(g: Graph, g': Graph)
    requires WellFormed(g) && Acyclic(g) && LinksKept(g, g') && g'.edges == g.edges
    ensures WellFormed(g') && Acyclic(g')
  {
    forall n | n in g'.nodes ensures ChildrenOk(g', n) && ParentsOk(g', n) {
      assert NodeSame(g, g', n) && ChildrenOk(g, n) && ParentsOk(g, n);
    }
    forall e | e in g'.edges ensures EdgeOk(g', e) {
      assert EdgeOk(g, e);
      if g.edges[e].bs.Some? && g.edges[e].holder.HeldByNode? {
        assert NodeSame(g, g', g.edges[e].holder.node);
      }
    }
    forall n ensures Kids(g', n) == Kids(g, n) {
      if n in g.nodes {
        assert NodeSame(g, g', n);
      }
    }
    SameLinksAcyclic(g, g');
  }

  // --- Finishing ---

  /** tran_finalize */
  method Finalize(layer: Layer, tran: Transaction, ok: bool, ghost base: Graph, ghost ext: Outside)
    requires if ok then Sound(layer.g, tran.log, ext) else Restores(layer.g, tran.log, base)
    modifies layer, tran
    ensures ok ==> Settled(layer.g, ext) && LinksKept(old(layer.g), layer.g)
    ensures !ok ==> layer.g == base
  {
    if ok {
      CommitSettles(layer.g, tran.log, ext);
      CommitKeepsLinks(layer.g, tran.log);
      layer.TranCommit(tran);
    } else {
      layer.TranAbort(tran);
    }
  }

  /** A refresh inside a larger transaction: either all of the subtree is consistent, or nothing changed. */
  method RefreshWithin(layer: Layer, d: Drivers, bs: NodeId, ghost log: seq<Undo>, ghost ext: Outside)
    returns (ok: bool)
    requires Sound(layer.g, log, ext) && bs in layer.g.nodes
    modifies layer
    ensures Sound(layer.g, log, ext)
    ensures ok ==> RefreshedBelow(d, old(layer.g), layer.g, {bs})
    ensures !ok ==> layer.g == old(layer.g) && NoRightsFit(d, layer.g, {bs})
  {
    ghost var g0, list := layer.g, [];
    ok, list := layer.RefreshPerms(d, bs);
    RefreshOutcome(d, g0, list, {bs});
    if ok {
      RightsKeepSound(g0, layer.g, list, log, ext);
    }
  }

  /** An ordered list of the nodes below the given ones. */
  ghost predicate ListsBelow(g: Graph, list: seq<NodeId>, roots: set<NodeId>) {
    && Ordered(g, list)
    && (forall n :: n in list <==> exists r :: r in roots && Reaches(g, r, n))
    && (forall n :: n in list ==> n in g.nodes)
  }

  /** Every node below the roots is consistent, and only rights changed to make it so. */
  ghost predicate RefreshedBelow(d: Drivers, g0: Graph, g: Graph, roots: set<NodeId>) {
    && (exists list :: ListsBelow(g0, list, roots) && OnlyRightsDiffer(g0, g, list))
    && (forall n, r :: r in roots && Reaches(g0, r, n) ==> Consistent(d, g, n))
  }

  /** No assignment of rights below the roots makes every node there consistent. */
  ghost predicate NoRightsFit(d: Drivers, g: Graph, roots: set<NodeId>) {
    exists list :: ListsBelow(g, list, roots) &&
      forall h :: OnlyRightsDiffer(g, h, list) ==> exists n :: n in list && !Consistent(d, h, n)
  }

  lemma RefreshOutcome(d: Drivers, g: Graph, list: seq<NodeId>, roots: set<NodeId>)
    requires WellFormed(g) && ListsBelow(g, list, roots)
    ensures RefreshList(d, g, list).Some? ==>
      OnlyRightsDiffer(g, RefreshList(d, g, list).value, list)
        && RefreshedBelow(d, g, RefreshList(d, g, list).value, roots)
    ensures RefreshList(d, g, list).None? ==> NoRightsFit(d, g, roots)
  {
    if RefreshList(d, g, list).Some? {
      RefreshIsSound(d, g, list);
    } else {
      forall h | OnlyRightsDiffer(g, h, list) ensures exists n :: n in list && !Consistent(d, h, n) {
        if forall n :: n in list ==> Consistent(d, h, n) {
          RefreshIsComplete(d, g, list, h);
        }
      }
    }
  }

  // --- The outcome that all operations share ---

  /** The graph g is the edited graph g1 with rights refreshed below the roots; all of it is consistent there. */
  ghost predicate Applied(d: Drivers, g1: Graph, g: Graph, roots: set<NodeId>) {
    && (exists h {:trigger LinksKept(h, g)} :: RefreshedBelow(d, g1, h, roots) && LinksKept(h, g))
    && (forall n, r :: r in roots && Reaches(g1, r, n) ==> Consistent(d, g, n))
  }

  lemma AppliedAfter(d: Drivers, g1: Graph, h: Graph, g: Graph, roots: set<NodeId>)
    requires RefreshedBelow(d, g1, h, roots) && WellFormed(h) && LinksKept(h, g)
    ensures Applied(d, g1, g, roots)
  {
    forall n, r | r in roots && Reaches(g1, r, n) ensures Consistent(d, g, n) {
      ConsistentKept(d, h, g, n);
    }
  }

  lemma AppliedRefs(d: Drivers, g1: Graph, g: Graph, roots: set<NodeId>, n: NodeId, delta: int)
    requires Applied(d, g1, g, roots) && WellFormed(g)
    ensures Applied(d, g1, AddRef(g, Some(n), delta), roots)
  {
    var g' := AddRef(g, Some(n), delta);
    AddRefKeepsLinks(g, n, delta);
    var h :| RefreshedBelow(d, g1, h, roots) && LinksKept(h, g);
    LinksKeptTrans(h, g, g');
    forall m, r | r in roots && Reaches(g1, r, m) ensures Consistent(d, g', m) {
      ConsistentKept(d, g, g', m);
    }
  }

  // --- Attaching a child ---

  /** The BdrvChild that bdrv_attach_child_noperm creates. */
  ghost function NewEdge(d: Drivers, g: Graph, parent: NodeId, child: NodeId, role: Role): Edge
    requires parent in g.nodes
  {
    var r := d.childPerm(parent, role, Cumulative(g, parent));
    var shared := if ForcesShare(g, Some(child)) then ALL_PERMS else r.shared;
    Edge(Some(child), HeldByNode(parent), r.perm, shared, role, false, false)
  }

  /** A child may go under a parent when no path leads back up. */
  ghost predicate CanAttach(g: Graph, parent: NodeId, child: NodeId, e: EdgeId, slot: Slot) {
    && parent in g.nodes && child in g.nodes && FreshEdge(g, e)
    && g.nodes[parent].config.open
    && !Reaches(g, child, parent)
    && (slot.BackingOf? ==> slot.node == parent && g.nodes[parent].backing.None?)
  }

  /** bdrv_attach_child_noperm; `sameContext` is the outcome of bringing both sides into one AioContext. */
  method AttachChildNoperm(layer: Layer, tran: Transaction, d: Drivers, parent: NodeId, child: NodeId, e: EdgeId,
                           role: Role, slot: Slot, sameContext: bool, ghost base: Graph, ghost ext: Outside)
    returns (ok: bool)
    requires Underway(layer.g, tran.log, base, ext) && CanAttach(layer.g, parent, child, e, slot)
    modifies layer, tran
    ensures Underway(layer.g, tran.log, base, ext)
    ensures ok == sameContext
    ensures layer.g == if ok then Attach(old(layer.g), e, NewEdge(d, old(layer.g), parent, child, role), child, slot)
      else old(layer.g)
  {
    if !sameContext {
      return false;
    }
    var g := layer.g;
    var cum := GetCumulativePerm(g, parent);
    var r := d.childPerm(parent, role, cum);
    var shared := if ForcesShare(g, Some(child)) then ALL_PERMS else r.shared;
    var c := Edge(Some(child), HeldByNode(parent), r.perm, shared, role, false, false);
    AttachUnderway(g, tran.log, base, ext, e, c, child, slot);
    layer.g := Attach(g, e, c, child, slot);
    tran.log := tran.log + [UndoAttach(e, slot)];
    return true;
  }

  /** bdrv_attach_child: consumes the caller's reference to the child whether or not it succeeds. */
  method AttachChild(layer: Layer, d: Drivers, parent: NodeId, child: NodeId, e: EdgeId, role: Role, sameContext: bool,
                     ghost ext: Outside)
    returns (ok: bool)
    requires Settled(layer.g, ext) && CanAttach(layer.g, parent, child, e, LocalVariable) && ext(child) > 0
    modifies layer
    ensures Settled(layer.g, Less(ext, child))
    ensures ok ==>
      Applied(d, Attach(old(layer.g), e, NewEdge(d, old(layer.g), parent, child, role), child, LocalVariable),
              layer.g, {parent})
    ensures !ok ==> layer.g == AddRef(old(layer.g), Some(child), -1)
    ensures !ok && sameContext ==>
      NoRightsFit(d, Attach(old(layer.g), e, NewEdge(d, old(layer.g), parent, child, role), child, LocalVariable),
                  {parent})
  {
    ghost var g0 := layer.g;
    var tran := new Transaction();
    ok := AttachChildNoperm(layer, tran, d, parent, child, e, role, LocalVariable, sameContext, g0, ext);
    ghost var g1 := layer.g;
    if ok {
      AttachShape(g0, e, NewEdge(d, g0, parent, child, role), child, LocalVariable);
      ok := RefreshWithin(layer, d, parent, tran.log, ext);
    }
    ghost var h := layer.g;
    Finalize(layer, tran, ok, g0, ext);
    if ok {
      AppliedAfter(d, g1, h, layer.g, {parent});
      AppliedRefs(d, g1, layer.g, {parent}, child, -1);
      AttachShape(g0, e, NewEdge(d, g0, parent, child, role), child, LocalVariable);
    }
    DropOutside(layer.g, ext, child);
    layer.g := AddRef(layer.g, Some(child), -1);
  }

  // --- Changing a backing link ---

  /** The backing and file edges of a node are different edges. */
  ghost predicate DistinctLinks(g: Graph, n: NodeId)
    requires n in g.nodes
  {
    g.nodes[n].backing.Some? ==> g.nodes[n].backing != g.nodes[n].file
  }

  ghost function WithoutChain(g: Graph, n: NodeId): Graph
    requires n in g.nodes
  {
    var e := FilterOrCow(g, n);
    if e.Some? && Free(g, e.value) then RemoveChild(g, e.value, n, g.nodes[n].backing == e) else g
  }

  /** bdrv_remove_filter_or_cow_child; a frozen link would run into an assertion */
  method RemoveFilterOrCowChild(layer: Layer, tran: Transaction, bs: NodeId, ghost base: Graph, ghost ext: Outside)
    requires Underway(layer.g, tran.log, base, ext) && bs in layer.g.nodes
    requires DistinctLinks(layer.g, bs) && ChainLinkFree(layer.g, bs)
    modifies layer, tran
    ensures Underway(layer.g, tran.log, base, ext)
    ensures layer.g == WithoutChain(old(layer.g), bs)
  {
    var g := layer.g;
    var child := FilterOrCow(g, bs);
    if child.None? {
      return;
    }
    BelowIsKid(g, bs);
    var isBacking := g.nodes[bs].backing == child;
    RemoveUnderway(g, tran.log, base, ext, child.value, bs, isBacking);
    ReplaceShape(g, child.value, None);
    tran.log := tran.log + [UndoReplace(child.value, g.edges[child.value].bs)];
    layer.g := ReplaceChild(g, child.value, None);
    tran.log := tran.log + [UndoRemove(child.value, bs, isBacking)];
    layer.g := RemoveLink(layer.g, child.value, bs, isBacking);
  }

  /** bdrv_backing_role */
  function BackingRole(g: Graph, bs: NodeId): Role
    requires bs in g.nodes
  {
    if g.nodes[bs].config.open && g.nodes[bs].config.isFilter then Role(false, false, true, false)
    else Role(false, false, false, true)
  }

  /** What bdrv_set_backing_noperm may be asked to do. */
  ghost predicate CanSetBacking(g: Graph, bs: NodeId, hd: Option<NodeId>, e: EdgeId) {
    && bs in g.nodes && g.nodes[bs].config.open && DistinctLinks(g, bs) && FreshEdge(g, e)
    && (hd.Some? ==> hd.value in g.nodes && !Reaches(g, hd.value, bs))
  }

  ghost function BackingOfNode(g: Graph, bs: NodeId): Option<NodeId>
    requires bs in g.nodes
  {
    var b := g.nodes[bs].backing;
    if b.Some? && b.value in g.edges then g.edges[b.value].bs else None
  }

  /** There is no backing link, or it is not frozen. */
  ghost predicate BackingFree(g: Graph, bs: NodeId)
    requires bs in g.nodes
  {
    g.nodes[bs].backing.Some? ==> Free(g, g.nodes[bs].backing.value)
  }

  /** The graph once the old backing link is gone. */
  ghost function BackingCut(g: Graph, bs: NodeId): Graph
    requires bs in g.nodes
  {
    if BackingOfNode(g, bs).None? || !Free(g, g.nodes[bs].backing.value) then g
    else
      var b := g.nodes[bs].backing.value;
      ClearedNode(g, Orphans(g, bs, b, BackingOfNode(g, bs).value), bs);
      RemoveChild(ClearInherits(g, Orphans(g, bs, b, BackingOfNode(g, bs).value)), b, bs, true)
  }

  /** A new backing link put into a graph where the node has none. */
  ghost function BackingLinked(d: Drivers, g: Graph, bs: NodeId, hd: NodeId, e: EdgeId, relink: bool): Graph
    requires bs in g.nodes && hd in g.nodes
  {
    var c := NewEdge(d, g, bs, hd, BackingRole(g, bs));
    AttachShape(g, e, c, hd, BackingOf(bs));
    var g' := Attach(g, e, c, hd, BackingOf(bs));
    if relink then SetInherits(g', hd, Some(bs)) else g'
  }

  /** The graph once the new backing link is in place. */
  ghost function BackingSet(d: Drivers, g: Graph, bs: NodeId, hd: Option<NodeId>, e: EdgeId, relink: bool): Graph
    requires bs in g.nodes && (hd.Some? ==> hd.value in g.nodes)
  {
    BackingCutKeeps(g, bs);
    if hd.None? then BackingCut(g, bs) else BackingLinked(d, BackingCut(g, bs), bs, hd.value, e, relink)
  }

  lemma BackingCutKeeps(g: Graph, bs: NodeId)
    requires bs in g.nodes
    ensures BackingCut(g, bs).nodes.Keys == g.nodes.Keys && BackingCut(g, bs).edges.Keys == g.edges.Keys
  {
    if BackingOfNode(g, bs).Some? && Free(g, g.nodes[bs].backing.value) {
      var b := g.nodes[bs].backing.value;
      RemoveShape(ClearInherits(g, Orphans(g, bs, b, BackingOfNode(g, bs).value)), b, bs, true);
    }
  }

  /** Cutting a link leaves no new path, keeps a fresh edge fresh and empties the backing field. */
  lemma BackingCutOpens(g: Graph, bs: NodeId, hd: NodeId, e: EdgeId)
    requires WellFormed(g) && CanSetBacking(g, bs, Some(hd), e) && BackingFree(g, bs)
    ensures CanAttach(BackingCut(g, bs), bs, hd, e, BackingOf(bs))
  {
    var g' := BackingCut(g, bs);
    BackingCutKeeps(g, bs);
    if BackingOfNode(g, bs).Some? {
      var b := g.nodes[bs].backing.value;
      var gc := ClearInherits(g, Orphans(g, bs, b, BackingOfNode(g, bs).value));
      forall n | n in g.nodes ensures
        && g'.nodes[n].children <= g.nodes[n].children && g'.nodes[n].parents <= g.nodes[n].parents
        && g'.nodes[n].config == g.nodes[n].config && (n == bs ==> g'.nodes[n].backing.None?)
      {
        RemoveNode(gc, b, bs, true, n);
      }
      RemoveShape(gc, b, bs, true);
      forall n ensures Kids(g', n) <= Kids(g, n) {
      }
      if Reaches(g', hd, bs) {
        var p :| PathFromTo(g', p, hd, bs);
        FewerLinksReachLess(g, g', p, hd, bs);
      }
    } else {
      assert ChildrenOk(g, bs);
    }
  }

  /** The part of bdrv_set_backing_noperm that takes the old backing child away. */
  method CutBacking(layer: Layer, tran: Transaction, bs: NodeId, ghost base: Graph, ghost ext: Outside)
    requires Underway(layer.g, tran.log, base, ext)
    requires bs in layer.g.nodes && layer.g.nodes[bs].config.open
    requires DistinctLinks(layer.g, bs) && BackingFree(layer.g, bs)
    modifies layer, tran
    ensures Underway(layer.g, tran.log, base, ext)
    ensures layer.g == BackingCut(old(layer.g), bs)
  {
    ghost var g0 := layer.g;
    var backing := layer.g.nodes[bs].backing;
    if backing.None? {
      return;
    }
    BelowIsKid(g0, bs);
    ghost var t := g0.edges[backing.value].bs.value;
    ReachesSelf(g0, t);
    ClearNone(g0);
    UnsetInheritsFrom(layer, tran, bs, backing.value, backing.value, g0, {}, base, ext);
    assert {} + Orphans(g0, bs, backing.value, t) == Orphans(g0, bs, backing.value, t);
    ClearedNode(g0, Orphans(g0, bs, backing.value, t), bs);
    RemoveFilterOrCowChild(layer, tran, bs, base, ext);
  }

  lemma BackingOnChain(g: Graph, bs: NodeId)
    requires WellFormed(g) && Acyclic(g) && bs in g.nodes && g.nodes[bs].config.open && g.nodes[bs].backing.Some?
    ensures g.nodes[bs].backing.value in g.edges && BackingOfNode(g, bs).Some?
    ensures BackingOfNode(g, bs).value in Chain(g, bs)
  {
    BelowIsKid(g, bs);
    assert Chain(g, BackingOfNode(g, bs).value)[0] == BackingOfNode(g, bs).value;
  }

  /** The check for frozen links covers the backing link. */
  lemma NotFrozenIsFree(g: Graph, bs: NodeId)
    requires WellFormed(g) && Acyclic(g) && bs in g.nodes && g.nodes[bs].config.open
    requires !FrozenDown(g, bs, BackingOfNode(g, bs))
    ensures BackingFree(g, bs)
  {
    if g.nodes[bs].backing.Some? {
      BelowIsKid(g, bs);
      var hd := BackingOfNode(g, bs);
      if hd == Some(bs) {
        assert bs in Kids(g, bs);
        ReachesSelf(g, bs);
      }
      FrozenStep(g, bs, hd);
    }
  }

  /** The part of bdrv_set_backing_noperm that attaches the new backing child. */
  method LinkBacking(layer: Layer, tran: Transaction, d: Drivers, bs: NodeId, hd: NodeId, e: EdgeId,
                     relink: bool, sameContext: bool, ghost base: Graph, ghost ext: Outside)
    returns (ok: bool)
    requires Underway(layer.g, tran.log, base, ext) && CanAttach(layer.g, bs, hd, e, BackingOf(bs))
    modifies layer, tran
    ensures Underway(layer.g, tran.log, base, ext)
    ensures ok == sameContext
    ensures ok ==> layer.g == BackingLinked(d, old(layer.g), bs, hd, e, relink)
  {
    ghost var g1 := layer.g;
    ok := AttachChildNoperm(layer, tran, d, bs, hd, e, BackingRole(layer.g, bs), BackingOf(bs), sameContext, base, ext);
    if ok && relink {
      AttachShape(g1, e, NewEdge(d, g1, bs, hd, BackingRole(g1, bs)), hd, BackingOf(bs));
      InheritsUnderway(layer.g, tran.log, base, ext, hd, Some(bs));
      tran.log := tran.log + [UndoInherits(hd, layer.g.nodes[hd].inheritsFrom)];
      layer.g := SetInherits(layer.g, hd, Some(bs));
    }
  }

  /**
   bdrv_set_backing_noperm; `relink` is whether the new backing node already inherited from bs
   through its backing chain.
   */
  method SetBackingNoperm(layer: Layer, tran: Transaction, d: Drivers, bs: NodeId, hd: Option<NodeId>, e: EdgeId,
                          relink: bool, sameContext: bool, ghost base: Graph, ghost ext: Outside)
    returns (ok: bool)
    requires Underway(layer.g, tran.log, base, ext) && CanSetBacking(layer.g, bs, hd, e)
    modifies layer, tran
    ensures Underway(layer.g, tran.log, base, ext)
    ensures ok <==> !FrozenDown(old(layer.g), bs, BackingOfNode(old(layer.g), bs)) && (hd.Some? ==> sameContext)
    ensures ok ==> layer.g == BackingSet(d, old(layer.g), bs, hd, e, relink)
  {
    ghost var g0 := layer.g;
    var backing := layer.g.nodes[bs].backing;
    if backing.Some? {
      BackingOnChain(g0, bs);
    }
    var frozen := IsBackingChainFrozen(layer.g, bs, if backing.Some? then layer.g.edges[backing.value].bs else None);
    if frozen {
      return false;
    }
    NotFrozenIsFree(g0, bs);
    CutBacking(layer, tran, bs, base, ext);
    if hd.None? {
      return true;
    }
    BackingCutOpens(g0, bs, hd.value, e);
    ok := LinkBacking(layer, tran, d, bs, hd.value, e, relink, sameContext, base, ext);
  }

  lemma BackingSetKeeps(d: Drivers, g: Graph, bs: NodeId, hd: Option<NodeId>, e: EdgeId, relink: bool)
    requires bs in g.nodes && (hd.Some? ==> hd.value in g.nodes)
    ensures BackingSet(d, g, bs, hd, e, relink).nodes.Keys == g.nodes.Keys
  {
    BackingCutKeeps(g, bs);
    if hd.Some? {
      var g1 := BackingCut(g, bs);
      AttachShape(g1, e, NewEdge(d, g1, bs, hd.value, BackingRole(g1, bs)), hd.value, BackingOf(bs));
    }
  }

  /** The old backing edge of bs, as a set. */
  ghost function OldBacking(g: Graph, bs: NodeId): set<EdgeId>
    requires bs in g.nodes
  {
    if g.nodes[bs].backing.Some? then {g.nodes[bs].backing.value} else {}
  }

  /** The nodes that stop inheriting from bs when its backing link goes. */
  ghost function Disinherited(g: Graph, bs: NodeId): set<NodeId>
    requires bs in g.nodes
  {
    if BackingOfNode(g, bs).None? then {}
    else Orphans(g, bs, g.nodes[bs].backing.value, BackingOfNode(g, bs).value)
  }

  /** What changing the backing link does to every node. */
  lemma BackingSetNode(d: Drivers, g: Graph, bs: NodeId, hd: Option<NodeId>, e: EdgeId, relink: bool, n: NodeId)
    requires WellFormed(g) && CanSetBacking(g, bs, hd, e) && BackingFree(g, bs) && n in g.nodes
    ensures var g' := BackingSet(d, g, bs, hd, e, relink); var link := if hd.Some? then {e} else {};
      && n in g'.nodes
      && g'.nodes[n].children ==
        (if n == bs then g.nodes[n].children - OldBacking(g, bs) + link else g.nodes[n].children)
      && g'.nodes[n].backing == (if n != bs then g.nodes[n].backing else if hd.Some? then Some(e) else None)
      && g'.nodes[n].file == g.nodes[n].file && g'.nodes[n].config == g.nodes[n].config
      && g'.nodes[n].inheritsFrom == (if relink && hd == Some(n) then Some(bs)
                                      else if n in Disinherited(g, bs) then None
                                      else g.nodes[n].inheritsFrom)
  {
    assert ChildrenOk(g, bs);
    BackingCutNode(g, bs, n);
    BackingCutKeeps(g, bs);
    if hd.Some? {
      var g1 := BackingCut(g, bs);
      AttachNode(g1, e, NewEdge(d, g1, bs, hd.value, BackingRole(g1, bs)), hd.value, BackingOf(bs), n);
    }
  }

  lemma BackingCutNode(g: Graph, bs: NodeId, n: NodeId)
    requires WellFormed(g) && bs in g.nodes && BackingFree(g, bs) && n in g.nodes
    ensures var g' := BackingCut(g, bs);
      && n in g'.nodes
      && g'.nodes[n].children == (if n == bs then g.nodes[n].children - OldBacking(g, bs) else g.nodes[n].children)
      && g'.nodes[n].backing == (if n == bs then None else g.nodes[n].backing)
      && g'.nodes[n].file == g.nodes[n].file && g'.nodes[n].config == g.nodes[n].config
      && g'.nodes[n].inheritsFrom == (if n in Disinherited(g, bs) then None else g.nodes[n].inheritsFrom)
  {
    assert ChildrenOk(g, bs);
    if BackingOfNode(g, bs).Some? {
      var b := g.nodes[bs].backing.value;
      RemoveNode(ClearInherits(g, Orphans(g, bs, b, BackingOfNode(g, bs).value)), b, bs, true, n);
    }
  }

  /** What it does to every edge: the old link is detached, the new one appears, the others stay. */
  lemma BackingSetEdge(d: Drivers, g: Graph, bs: NodeId, hd: Option<NodeId>, e: EdgeId, relink: bool, c: EdgeId)
    requires WellFormed(g) && CanSetBacking(g, bs, hd, e) && BackingFree(g, bs)
    ensures var g' := BackingSet(d, g, bs, hd, e, relink);
      && (c in g'.edges <==> c in g.edges || (hd.Some? && c == e))
      && (c in g.edges && c !in OldBacking(g, bs) ==> g'.edges[c] == g.edges[c])
      && (c in g.edges && c in OldBacking(g, bs) ==> g'.edges[c] == g.edges[c].(bs := None))
      && (hd.Some? ==>
            && g'.edges[e].bs == hd && g'.edges[e].holder == HeldByNode(bs)
            && !g'.edges[e].frozen && !g'.edges[e].stayAtNode
            && g'.edges[e].role == if g.nodes[bs].config.isFilter then Role(false, false, true, false)
                                   else Role(false, false, false, true))
  {
    assert ChildrenOk(g, bs);
    BackingCutNode(g, bs, bs);
    BackingCutKeeps(g, bs);
    if BackingOfNode(g, bs).Some? {
      var b := g.nodes[bs].backing.value;
      RemoveShape(ClearInherits(g, Orphans(g, bs, b, BackingOfNode(g, bs).value)), b, bs, true);
    }
    if hd.Some? {
      var g1 := BackingCut(g, bs);
      AttachShape(g1, e, NewEdge(d, g1, bs, hd.value, BackingRole(g1, bs)), hd.value, BackingOf(bs));
    }
  }

  /** bdrv_set_backing_hd */
  method SetBackingHd(layer: Layer, d: Drivers, bs: NodeId, hd: Option<NodeId>, e: EdgeId, relink: bool,
                      sameContext: bool, ghost ext: Outside)
    returns (ok: bool)
    requires Settled(layer.g, ext) && CanSetBacking(layer.g, bs, hd, e)
    modifies layer
    ensures Settled(layer.g, ext)
    ensures ok ==> Applied(d, BackingSet(d, old(layer.g), bs, hd, e, relink), layer.g, {bs})
    ensures !ok ==> layer.g == old(layer.g)
    ensures !ok && !FrozenDown(old(layer.g), bs, BackingOfNode(old(layer.g), bs)) && (hd.Some? ==> sameContext) ==>
      NoRightsFit(d, BackingSet(d, old(layer.g), bs, hd, e, relink), {bs})
  {
    ghost var g0 := layer.g;
    var tran := new Transaction();
    ok := SetBackingNoperm(layer, tran, d, bs, hd, e, relink, sameContext, g0, ext);
    ghost var g1 := layer.g;
    if ok {
      BackingSetKeeps(d, g0, bs, hd, e, relink);
      ok := RefreshWithin(layer, d, bs, tran.log, ext);
    }
    ghost var h := layer.g;
    Finalize(layer, tran, ok, g0, ext);
    if ok {
      AppliedAfter(d, g1, h, layer.g, {bs});
    }
  }

  /** Every node of the path but the first is implicit and lies below the one before. */
  ghost predicate SkipsAlong(g: Graph, path: seq<NodeId>, implicit: set<NodeId>) {
    && |path| > 0 && (forall i :: 0 <= i < |path| ==> path[i] in g.nodes)
    && forall i :: 0 < i < |path| ==> Below(g, path[i - 1]) == Some(path[i]) && path[i] in implicit
  }

  /** Where skipping implicit nodes below n stops: the node below, if any, is not implicit. */
  ghost predicate IsOverlay(g: Graph, n: NodeId, implicit: set<NodeId>, overlay: NodeId)
    requires overlay in g.nodes
  {
    && (exists path {:trigger SkipsAlong(g, path, implicit)} ::
          SkipsAlong(g, path, implicit) && path[0] == n && path[|path| - 1] == overlay)
    && (Below(g, overlay).Some? ==> Below(g, overlay).value !in implicit)
  }

  lemma SkipOne(g: Graph, path: seq<NodeId>, implicit: set<NodeId>, k: NodeId)
    requires SkipsAlong(g, path, implicit) && k in g.nodes && k in implicit && Below(g, path[|path| - 1]) == Some(k)
    ensures SkipsAlong(g, path + [k], implicit)
  {
  }

  /** The loop of bdrv_reopen_parse_backing that looks for the overlay of the first explicit node. */
  method SkipImplicit(g: Graph, bs: NodeId, implicit: set<NodeId>) returns (overlay: NodeId)
    requires WellFormed(g) && Acyclic(g) && bs in g.nodes
    ensures overlay in g.nodes && IsOverlay(g, bs, implicit, overlay)
  {
    overlay := bs;
    ghost var path := [bs];
    var below := Below(g, overlay);
    while below.Some? && below.value in implicit
      invariant overlay in g.nodes && below == Below(g, overlay)
      invariant SkipsAlong(g, path, implicit) && path[0] == bs && path[|path| - 1] == overlay
      decreases Subtree(g, overlay)
    {
      BelowIsKid(g, overlay);
      SubtreeShrinks(g, overlay, below.value);
      SkipOne(g, path, implicit, below.value);
      overlay, path := below.value, path + [below.value];
      below := Below(g, overlay);
    }
  }

  /**
   bdrv_reopen_parse_backing for an option that is present: the test for cycles makes the change of link
   safe for every node that the user names.  It succeeds exactly if no cycle would be closed, the contexts allow it,
   the driver takes a backing node (a filter has one, another node says so), and there is nothing to change or
   nothing implicit or frozen in the way.
   */
  method ReopenBacking(layer: Layer, tran: Transaction, d: Drivers, bs: NodeId, hd: Option<NodeId>, e: EdgeId,
                       relink: bool, supports: bool, implicit: set<NodeId>, sameContext: bool, ghost base: Graph,
                       ghost ext: Outside)
    returns (ok: bool, overlay: NodeId)
    requires Underway(layer.g, tran.log, base, ext)
    requires bs in layer.g.nodes && layer.g.nodes[bs].config.open && DistinctLinks(layer.g, bs) && FreshEdge(layer.g, e)
    requires hd.Some? ==> hd.value in layer.g.nodes
    modifies layer, tran
    ensures Underway(layer.g, tran.log, base, ext)
    ensures overlay in old(layer.g).nodes && IsOverlay(old(layer.g), bs, implicit, overlay)
    ensures ok <==>
      && (hd.Some? ==> !Reaches(old(layer.g), hd.value, bs) && sameContext)
      && (old(layer.g).nodes[bs].config.isFilter ==> old(layer.g).nodes[bs].backing.Some?)
      && (!old(layer.g).nodes[bs].config.isFilter ==> supports)
      && (hd == Below(old(layer.g), overlay)
          || (bs == overlay && !FrozenDown(old(layer.g), bs, BackingOfNode(old(layer.g), bs))))
    ensures hd.Some? && Reaches(old(layer.g), hd.value, bs) ==> layer.g == old(layer.g)
    ensures ok && hd == Below(old(layer.g), overlay) ==> layer.g == old(layer.g)
    ensures ok && hd != Below(old(layer.g), overlay) ==>
      layer.g == BackingSet(d, old(layer.g), bs, hd, e, relink)
  {
    overlay := SkipImplicit(layer.g, bs, implicit);
    if hd.Some? {
      var cycle := RecurseHasChild(layer.g, hd.value, bs);
      if cycle {
        return false, overlay;
      }
    }
    if hd.Some? && !sameContext {
      return false, overlay;
    }
    if layer.g.nodes[bs].config.isFilter {
      if layer.g.nodes[bs].backing.None? {
        return false, overlay;
      }
    } else if !supports {
      return false, overlay;
    }
    if hd == Below(layer.g, overlay) {
      return true, overlay;
    }
    if bs != overlay {
      return false, overlay;
    }
    ok := SetBackingNoperm(layer, tran, d, bs, hd, e, relink, sameContext, base, ext);
  }

  // --- Replacing and appending nodes ---

  /** bdrv_append: the new node goes on top; `edited` is the graph before the rights were refreshed. */
  method Append(layer: Layer, d: Drivers, bsNew: NodeId, bsTop: NodeId, e: EdgeId, sameContext: bool,
      ghost ext: Outside)
    returns (ok: bool, ghost linked: Graph, ghost edited: Graph)
    requires Settled(layer.g, ext) && CanAttach(layer.g, bsNew, bsTop, e, BackingOf(bsNew))
    modifies layer
    ensures Settled(layer.g, ext)
    ensures linked == BackingLinked(d, old(layer.g), bsNew, bsTop, e, false) && bsTop in linked.nodes
    ensures sameContext && CanReplace(linked, bsTop, bsNew, true) ==>
      Redirected(linked, edited, bsNew, Movable(linked, bsTop, bsNew))
    ensures ok ==> sameContext && CanReplace(linked, bsTop, bsNew, true) && Applied(d, edited, layer.g, {bsNew})
    ensures !ok ==> layer.g == old(layer.g)
    ensures !ok && sameContext && CanReplace(linked, bsTop, bsNew, true) ==> NoRightsFit(d, edited, {bsNew})
  {
    ghost var g0 := layer.g;
    var tran := new Transaction();
    AttachShape(g0, e, NewEdge(d, g0, bsNew, bsTop, BackingRole(g0, bsNew)), bsTop, BackingOf(bsNew));
    linked := BackingLinked(d, g0, bsNew, bsTop, e, false);
    ok := LinkBacking(layer, tran, d, bsNew, bsTop, e, false, sameContext, g0, ext);
    if ok {
      ok := layer.ReplaceNodeNoperm(tran, bsTop, bsNew, true, g0, ext);
    }
    edited := layer.g;
    if ok {
      ok := RefreshWithin(layer, d, bsNew, tran.log, ext);
    }
    ghost var h := layer.g;
    Finalize(layer, tran, ok, g0, ext);
    if ok {
      AppliedAfter(d, edited, h, layer.g, {bsNew});
    }
  }

  lemma PermRecordsKeepSound(g: Graph, log: seq<Undo>, longer: seq<Undo>, ext: Outside)
    requires Sound(g, log, ext) && log <= longer && OnlyPermRecords(longer, |log|)
    ensures Sound(g, longer, ext)
    decreases |longer|
  {
    if |longer| == |log| {
      assert longer == log;
    } else {
      var shorter := longer[..|longer| - 1];
      PermRecordsKeepSound(g, log, shorter, ext);
      assert longer == shorter + [longer[|longer| - 1]];
      forall n | n in g.nodes ensures CountedRight(g, longer, ext, n) {
        assert CountedRight(g, shorter, ext, n);
        ParkedSnoc(shorter, longer[|longer| - 1], n);
      }
    }
  }

  /** The refresh inside bdrv_replace_node_common, which shares the transaction. */
  method RefreshBoth(layer: Layer, tran: Transaction, d: Drivers, to: NodeId, from: NodeId, ghost base: Graph,
      ghost ext: Outside)
    returns (ok: bool)
    requires Underway(layer.g, tran.log, base, ext) && from in layer.g.nodes && to in layer.g.nodes
    modifies layer, tran
    ensures ok ==> Sound(layer.g, tran.log, ext) && RefreshedBelow(d, old(layer.g), layer.g, {to, from})
    ensures !ok ==> Restores(layer.g, tran.log, base) && NoRightsFit(d, old(layer.g), {to, from})
  {
    ghost var g1, log := layer.g, tran.log;
    var list := TopologicalDfsTwo(layer.g, to, from);
    forall n | n in list ensures n in g1.nodes {
      if Reaches(g1, to, n) { ReachesInGraph(g1, to, n); } else { ReachesInGraph(g1, from, n); }
    }
    ListsBelowTwo(g1, list, to, from);
    RefreshOutcome(d, g1, list, {to, from});
    ok := layer.ListRefreshPerms(tran, d, list);
    assert tran.log == log + tran.log[|log|..];
    if ok {
      RightsKeepSound(g1, layer.g, list, log, ext);
      PermRecordsKeepSound(layer.g, log, tran.log, ext);
    } else {
      RestoresAppend(layer.g, log, g1, tran.log[|log|..], base);
    }
  }

  lemma ListsBelowTwo(g: Graph, list: seq<NodeId>, a: NodeId, b: NodeId)
    requires Ordered(g, list) && (forall n :: n in list <==> Reaches(g, a, n) || Reaches(g, b, n))
    requires forall n :: n in list ==> n in g.nodes
    ensures ListsBelow(g, list, {a, b})
  {
    forall n ensures n in list <==> exists r :: r in {a, b} && Reaches(g, r, n) {
      if Reaches(g, a, n) { assert a in {a, b}; }
      if Reaches(g, b, n) { assert b in {a, b}; }
    }
  }

  lemma RefAndUnref(g: Graph, n: NodeId)
    ensures AddRef(AddRef(g, Some(n), 1), Some(n), -1) == g
  {
    if n in g.nodes {
      assert AddRef(AddRef(g, Some(n), 1), Some(n), -1).nodes == g.nodes;
    }
  }

  lemma LessMore(g: Graph, ext: Outside, n: NodeId)
    requires Settled(g, Less(More(ext, n), n))
    ensures Settled(g, ext)
  {
    forall m | m in g.nodes ensures CountedRight(g, [], ext, m) {
      assert CountedRight(g, [], Less(More(ext, n), n), m);
    }
  }

  /** Neither a reference nor a redirection changes what hangs below a node, unless it is redirected itself. */
  lemma RedirectedKeepsLinks(g0: Graph, g: Graph, to: NodeId, moved: set<EdgeId>, n: NodeId)
    requires Redirected(g0, g, to, moved) && n in g0.nodes
    ensures n in g.nodes && (DistinctLinks(g0, n) ==> DistinctLinks(g, n))
    ensures FilterOrCow(g, n) == FilterOrCow(g0, n) && (ChainLinkFree(g, n) <==> ChainLinkFree(g0, n))
  {
    assert NodeKept(g0, g, n);
    if FilterOrCow(g0, n).Some? && FilterOrCow(g0, n).value in g0.edges {
      assert EdgeMoved(g0, g, to, moved, FilterOrCow(g0, n).value);
    }
  }

  /** How an operation ends; AssertionFails is where the program stops. */
  datatype Outcome = Success | Failure | AssertionFails

  /** The part of bdrv_replace_node_common that edits the graph; `cut` names the node that loses its chain link. */
  method ReplaceEdits(layer: Layer, tran: Transaction, from: NodeId, to: NodeId, autoSkip: bool, cut: Option<NodeId>,
                      ghost base: Graph, ghost ext: Outside)
    returns (r: Outcome, ghost moved: Graph)
    requires Underway(layer.g, tran.log, base, ext) && from in layer.g.nodes && to in layer.g.nodes
    requires cut.Some? ==> cut.value in layer.g.nodes && DistinctLinks(layer.g, cut.value)
    modifies layer, tran
    ensures Underway(layer.g, tran.log, base, ext)
    ensures r.Failure? <==> !CanReplace(old(layer.g), from, to, autoSkip)
    ensures r.AssertionFails? <==>
      CanReplace(old(layer.g), from, to, autoSkip) && cut.Some? && !ChainLinkFree(old(layer.g), cut.value)
    ensures r.Success? ==> Redirected(old(layer.g), moved, to, Movable(old(layer.g), from, to))
    ensures r.Success? ==> from in layer.g.nodes && to in layer.g.nodes
    ensures r.Success? && cut.None? ==> layer.g == moved
    ensures r.Success? && cut.Some? ==> cut.value in moved.nodes && layer.g == WithoutChain(moved, cut.value)
  {
    ghost var g0 := layer.g;
    var ok := layer.ReplaceNodeNoperm(tran, from, to, autoSkip, base, ext);
    moved := layer.g;
    if !ok {
      return Failure, moved;
    }
    if cut.Some? {
      RedirectedKeepsLinks(g0, layer.g, to, Movable(g0, from, to), cut.value);
      if !ChainLinkFree(layer.g, cut.value) {
        return AssertionFails, moved;
      }
      ghost var c := FilterOrCow(layer.g, cut.value);
      if c.Some? {
        RemoveShape(layer.g, c.value, cut.value, layer.g.nodes[cut.value].backing == c);
      }
      RemoveFilterOrCowChild(layer, tran, cut.value, base, ext);
    }
    return Success, moved;
  }

  /** A reference more changes no chain. */
  lemma RefKeepsCut(g: Graph, from: NodeId, to: NodeId, p: NodeId)
    requires WellFormed(g) && Acyclic(g) && from in g.nodes
    requires p in Chain(g, from) && Below(g, p) == Some(to)
    ensures var start := AddRef(g, Some(from), 1);
      p in start.nodes && (ChainLinkFree(start, p) <==> ChainLinkFree(g, p))
        && (DistinctLinks(g, p) ==> DistinctLinks(start, p))
    ensures CutIsFrozen(g, from, to) <==> !ChainLinkFree(g, p)
  {
    forall q | q in Chain(g, from) && Below(g, q) == Some(to) ensures q == p {
      CowParentUnique(g, from, to, p, q);
    }
  }

  /**
   bdrv_replace_node_common; `moved` is the graph after the redirection, `edited` after the optional cut.
   It runs into an assertion exactly when it gets as far as cutting a frozen link.
   */
  method ReplaceNodeCommon(layer: Layer, d: Drivers, from: NodeId, to: NodeId, autoSkip: bool, detachSubchain: bool,
                           ghost ext: Outside)
    returns (r: Outcome, ghost start: Graph, ghost moved: Graph, ghost edited: Graph)
    requires Settled(layer.g, ext) && from in layer.g.nodes && to in layer.g.nodes
    requires detachSubchain ==> from != to && to in Chain(layer.g, from)
    requires detachSubchain ==> forall n :: n in Chain(layer.g, from) ==> DistinctLinks(layer.g, n)
    modifies layer
    ensures start == AddRef(old(layer.g), Some(from), 1) && from in start.nodes
    ensures r.AssertionFails? <==>
      detachSubchain && CanReplace(start, from, to, autoSkip) && CutIsFrozen(old(layer.g), from, to)
    ensures !r.AssertionFails? ==> Settled(layer.g, ext)
    ensures r.Failure? ==> layer.g == old(layer.g)
    ensures r.Success? ==>
      CanReplace(start, from, to, autoSkip) && Redirected(start, moved, to, Movable(start, from, to))
    ensures r.Success? ==> Applied(d, edited, layer.g, {to, from})
    ensures r.Success? && !detachSubchain ==> edited == moved
    ensures r.Success? && detachSubchain ==>
      exists p :: p in Chain(old(layer.g), from) && Below(old(layer.g), p) == Some(to) && p in moved.nodes
                  && edited == WithoutChain(moved, p)
    ensures r.Failure? && CanReplace(start, from, to, autoSkip) ==> NoRightsFit(d, edited, {to, from})
  {
    ghost var g0, more := layer.g, More(ext, from);
    var cut := None;
    if detachSubchain {
      var p := CowParent(layer.g, from, to);
      RefKeepsCut(g0, from, to, p);
      cut := Some(p);
    }
    var tran := new Transaction();
    TakeOutside(g0, ext, from);
    layer.g := AddRef(layer.g, Some(from), 1);
    start := layer.g;
    r, moved := ReplaceEdits(layer, tran, from, to, autoSkip, cut, start, more);
    edited := layer.g;
    if r.AssertionFails? {
      return;
    }
    if r.Success? {
      var fits := RefreshBoth(layer, tran, d, to, from, start, more);
      r := if fits then Success else Failure;
    }
    ghost var h := layer.g;
    Finalize(layer, tran, r.Success?, start, more);
    ghost var done := layer.g;
    FinishReplace(d, g0, start, edited, h, done, {to, from}, from, ext, r.Success?);
    layer.g := AddRef(layer.g, Some(from), -1);
  }

  /** A filter with a user above it and a frozen link to the node below. */
  function FrozenFilterGraph(): Graph {
    var conf := Config(true, true, true, false, false, false, true);
    Graph(map[0 := Node({0}, {1}, None, Some(0), None, 1, conf), 1 := Node({}, {0}, None, None, None, 1, conf)],
          map[0 := Edge(Some(1), HeldByNode(0), {}, ALL_PERMS, Role(false, false, true, false), false, true),
              1 := Edge(Some(0), HeldOutside, {}, ALL_PERMS, Role(false, false, false, false), false, false)])
  }

  lemma FrozenFilterIsFine()
    ensures Settled(FrozenFilterGraph(), (n: NodeId) => 0)
  {
    var g := FrozenFilterGraph();
    assert 0 in g.nodes[0].children && g.edges[0].bs == Some(1);
    assert Kids(g, 0) == {1} && Kids(g, 1) == {};
    forall a, b | b in Kids(g, a) ensures !Reaches(g, b, a) {
      if Reaches(g, b, a) {
        ClosedContains(g, {1}, b, a);
      }
    }
  }

  /** bdrv_drop_filter on that filter runs into the assertion: every part of the condition holds. */
  lemma DropFrozenFilter()
    ensures var g := FrozenFilterGraph();
      && Settled(g, (n: NodeId) => 0) && Below(g, 0) == Some(1) && 1 in Chain(g, 0)
      && (forall n :: n in Chain(g, 0) ==> DistinctLinks(g, n))
      && CanReplace(AddRef(g, Some(0), 1), 0, 1, true) && CutIsFrozen(g, 0, 1)
  {
    FrozenFilterIsFine();
    var g := FrozenFilterGraph();
    assert FilterOrCow(g, 0) == Some(0) && Below(g, 0) == Some(1) && FilterOrCow(g, 1).None?;
    assert Chain(g, 1) == [1];
    assert Chain(g, 0) == [0] + Chain(g, 1);
    assert 0 in Chain(g, 0) && !ChainLinkFree(g, 0);
  }

  /** Dropping the reference that kept `from` alive. */
  lemma FinishReplace(d: Drivers, g0: Graph, start: Graph, edited: Graph, h: Graph, g: Graph, roots: set<NodeId>,
      from: NodeId, ext: Outside, ok: bool)
    requires Settled(g0, ext) && from in g0.nodes && start == AddRef(g0, Some(from), 1)
    requires if ok then
        Settled(g, More(ext, from)) && from in g.nodes && WellFormed(h) && RefreshedBelow(d, edited, h, roots)
          && LinksKept(h, g)
      else g == start
    ensures Settled(AddRef(g, Some(from), -1), ext)
    ensures ok ==> Applied(d, edited, AddRef(g, Some(from), -1), roots)
    ensures !ok ==> AddRef(g, Some(from), -1) == g0
  {
    if ok {
      AppliedAfter(d, edited, h, g, roots);
      AppliedRefs(d, edited, g, roots, from, -1);
      DropOutside(g, More(ext, from), from);
      LessMore(AddRef(g, Some(from), -1), ext, from);
    } else {
      RefAndUnref(g0, from);
    }
  }

  // --- Changing the rights of one edge ---

  /** bdrv_child_try_set_perm: failing to loosen is reported as success, and then nothing changed. */
  method ChildTrySetPerm(layer: Layer, d: Drivers, e: EdgeId, perm: Perms, shared: Perms, ghost ext: Outside)
    returns (ok: bool, ghost applied: bool)
    requires Settled(layer.g, ext) && e in layer.g.edges && layer.g.edges[e].bs.Some?
    modifies layer
    ensures Settled(layer.g, ext)
    ensures applied ==>
      ok && Applied(d, SetPerm(old(layer.g), e, perm, shared), layer.g, {old(layer.g).edges[e].bs.value})
    ensures !applied ==> layer.g == old(layer.g)
    ensures !applied ==> NoRightsFit(d, SetPerm(old(layer.g), e, perm, shared), {old(layer.g).edges[e].bs.value})
    ensures !applied ==> (ok <==> perm <= layer.g.edges[e].perm && layer.g.edges[e].shared <= shared)
  {
    ghost var g0 := layer.g;
    var tran := new Transaction();
    SetPermUnderway(g0, [], g0, ext, e, perm, shared);
    layer.ChildSetPerm(tran, e, perm, shared);
    ghost var g1 := layer.g;
    assert EdgeOk(g0, e);
    var bs := layer.g.edges[e].bs.value;
    ok := RefreshWithin(layer, d, bs, tran.log, ext);
    applied := ok;
    ghost var h := layer.g;
    Finalize(layer, tran, ok, g0, ext);
    if ok {
      AppliedAfter(d, g1, h, layer.g, {bs});
    } else if perm <= layer.g.edges[e].perm && layer.g.edges[e].shared <= shared {
      ok := true;
    }
  }

  lemma SetPermReaches(g: Graph, e: EdgeId, perm: Perms, shared: Perms, a: NodeId, b: NodeId)
    requires e in g.edges && Reaches(SetPerm(g, e, perm, shared), a, b)
    ensures Reaches(g, a, b)
  {
    var h := SetPerm(g, e, perm, shared);
    forall n ensures Kids(h, n) == Kids(g, n) {
      SamePermKids(g, e, perm, shared, n);
    }
    var p :| PathFromTo(h, p, a, b);
    FewerLinksReachLess(g, h, p, a, b);
  }

  /** Whether rights fit does not depend on the list that is used to say so. */
  lemma FitsAnyList(d: Drivers, g: Graph, list: seq<NodeId>, h: Graph, roots: set<NodeId>)
    requires ListsBelow(g, list, roots) && OnlyRightsDiffer(g, h, list) && forall n :: n in list ==> Consistent(d, h, n)
    ensures !NoRightsFit(d, g, roots)
  {
    forall other | ListsBelow(g, other, roots)
      ensures OnlyRightsDiffer(g, h, other) && forall n :: n in other ==> Consistent(d, h, n)
    {
      assert forall n :: n in other <==> n in list;
      assert forall e :: BelowOpen(g, other, e) <==> BelowOpen(g, list, e);
    }
  }

  /**
   Under the default rules, loosening an edge of a consistent graph leaves ChildTrySetPerm with an error to
   hide exactly when the size of a node below is an obstacle.
   */
  lemma LooseningFitsIff(conf: NodeId -> Config, g: Graph, e: EdgeId, perm: Perms, shared: Perms, list: seq<NodeId>)
    requires WellFormed(g) && e in g.edges && g.edges[e].bs.Some? && perm <= g.edges[e].perm
    requires g.edges[e].shared <= shared
    requires forall n :: Reaches(g, g.edges[e].bs.value, n) ==> n in g.nodes && Consistent(DefaultDrivers(conf), g, n)
    requires ListsBelow(SetPerm(g, e, perm, shared), list, {g.edges[e].bs.value})
    ensures NoRightsFit(DefaultDrivers(conf), SetPerm(g, e, perm, shared), {g.edges[e].bs.value}) <==>
      exists n :: n in list && !SizeIsNoObstacle(conf, SetPerm(g, e, perm, shared), list, n)
  {
    var d, h, bs := DefaultDrivers(conf), SetPerm(g, e, perm, shared), g.edges[e].bs.value;
    SetPermWellFormed(g, e, perm, shared);
    forall n | n in list ensures Reaches(g, bs, n) {
      assert Reaches(h, bs, n);
      SetPermReaches(g, e, perm, shared, bs, n);
    }
    LooseningSucceedsIff(conf, h, g, list);
    RefreshOutcome(d, h, list, {bs});
    if RefreshList(d, h, list).Some? {
      RefreshIsSound(d, h, list);
      FitsAnyList(d, h, list, RefreshList(d, h, list).value, {bs});
    }
  }

  /** With aligned sizes there is never an error to hide. */
  lemma LooseningFits(conf: NodeId -> Config, g: Graph, e: EdgeId, perm: Perms, shared: Perms)
    requires WellFormed(g) && e in g.edges && g.edges[e].bs.Some? && perm <= g.edges[e].perm
    requires g.edges[e].shared <= shared
    requires forall n :: Reaches(g, g.edges[e].bs.value, n) ==>
      n in g.nodes && g.nodes[n].config.sizeAligned && Consistent(DefaultDrivers(conf), g, n)
    ensures !NoRightsFit(DefaultDrivers(conf), SetPerm(g, e, perm, shared), {g.edges[e].bs.value})
  {
    var d, h, bs := DefaultDrivers(conf), SetPerm(g, e, perm, shared), g.edges[e].bs.value;
    forall list | ListsBelow(h, list, {bs}) ensures !NoRightsFit(d, h, {bs}) {
      LooseningFitsIff(conf, g, e, perm, shared, list);
      forall n | n in list ensures SizeIsNoObstacle(conf, h, list, n) {
        assert Reaches(h, bs, n);
        SetPermReaches(g, e, perm, shared, bs, n);
      }
    }
  }
}
