/**
 What the edits keep: the graph stays well formed, and between edits each node's reference count is
 the number of edges pointing at it, plus the references parked in the undo log, plus those held from
 outside.
 */
module GraphAccounting {
  import opened Options
  import opened BlockGraph
  import opened GraphEdit

  /** References to n parked in the log until commit. */
  ghost function Parked(log: seq<Undo>, n: NodeId): nat {
    if log == [] then 0
    else (if log[|log| - 1].UndoReplace? && log[|log| - 1].was == Some(n) then 1 else 0) + Parked(log[..|log| - 1], n)
  }

  lemma ParkedSnoc(log: seq<Undo>, u: Undo, n: NodeId)
    ensures Parked(log + [u], n) == Parked(log, n) + if u.UndoReplace? && u.was == Some(n) then 1 else 0
  {
    assert (log + [u])[..|log|] == log;
  }

  type Outside = NodeId -> nat

  ghost predicate CountedRight(g: Graph, log: seq<Undo>, ext: Outside, n: NodeId)
    requires n in g.nodes
  {
    g.nodes[n].refcnt == |g.nodes[n].parents| + Parked(log, n) + ext(n)
  }

  /** Every count is right, and the parked references are to nodes of the graph. */
  ghost predicate Accounted(g: Graph, log: seq<Undo>, ext: Outside) {
    && (forall n {:trigger CountedRight(g, log, ext, n)} :: n in g.nodes ==> CountedRight(g, log, ext, n))
    && (forall i :: 0 <= i < |log| && log[i].UndoReplace? && log[i].was.Some? ==> log[i].was.value in g.nodes)
  }

  /** The edge points nowhere and nobody lists it. */
  ghost predicate Unlinked(g: Graph, e: EdgeId) {
    && (e in g.edges ==> g.edges[e].bs.None?)
    && (forall n :: n in g.nodes ==> e !in g.nodes[n].children)
  }

  /** The edges whose removal is pending are unlinked. */
  ghost predicate RemovalsUnlinked(g: Graph, log: seq<Undo>) {
    forall i :: 0 <= i < |log| && log[i].UndoRemove? ==> Unlinked(g, log[i].e)
  }

  // --- Accounting, edit by edit ---

  lemma AccountReplace(g: Graph, log: seq<Undo>, ext: Outside, e: EdgeId, to: Option<NodeId>)
    requires WellFormed(g) && Accounted(g, log, ext) && Free(g, e)
    ensures Accounted(ReplaceChild(g, e, to), log + [UndoReplace(e, g.edges[e].bs)], ext)
  {
    var g' := ReplaceChild(g, e, to);
    ReplaceShape(g, e, to);
    assert EdgeOk(g, e);
    forall n | n in g'.nodes
      ensures CountedRight(g', log + [UndoReplace(e, g.edges[e].bs)], ext, n)
    {
      assert CountedRight(g, log, ext, n);
      ParkedSnoc(log, UndoReplace(e, g.edges[e].bs), n);
      ReplaceNode(g, e, to, n);
      assert ParentsOk(g, n);
      CountMoved(g.nodes[n].parents, e, g.edges[e].bs == Some(n), to == Some(n));
    }
  }

  lemma CountMoved(parents: set<EdgeId>, e: EdgeId, from: bool, to: bool)
    requires e in parents <==> from
    ensures var kept := if from then parents - {e} else parents;
      |if to then kept + {e} else kept| == |parents| - (if from then 1 else 0) + (if to then 1 else 0)
  {
  }

  lemma AccountAttach(g: Graph, log: seq<Undo>, ext: Outside, e: EdgeId, c: Edge, to: NodeId, slot: Slot)
    requires Accounted(g, log, ext) && FreshEdge(g, e) && !c.frozen
    ensures Accounted(Attach(g, e, c, to, slot), log + [UndoAttach(e, slot)], ext)
  {
    var g' := Attach(g, e, c, to, slot);
    AttachShape(g, e, c, to, slot);
    forall n | n in g'.nodes
      ensures CountedRight(g', log + [UndoAttach(e, slot)], ext, n)
    {
      assert CountedRight(g, log, ext, n);
      ParkedSnoc(log, UndoAttach(e, slot), n);
      AttachNode(g, e, c, to, slot, n);
    }
  }

  /** Edits that touch neither parent lists nor counts. */
  lemma AccountOther(g: Graph, g': Graph, log: seq<Undo>, ext: Outside, u: Undo)
    requires Accounted(g, log, ext) && !u.UndoReplace? && g'.nodes.Keys == g.nodes.Keys
    requires forall n :: n in g.nodes ==>
               g'.nodes[n].refcnt == g.nodes[n].refcnt && g'.nodes[n].parents == g.nodes[n].parents
    ensures Accounted(g', log + [u], ext)
  {
    forall n | n in g'.nodes ensures CountedRight(g', log + [u], ext, n) {
      assert CountedRight(g, log, ext, n);
      ParkedSnoc(log, u, n);
    }
  }

  lemma CountsNotNegative(g: Graph, log: seq<Undo>, ext: Outside, n: NodeId)
    requires Accounted(g, log, ext) && n in g.nodes
    ensures g.nodes[n].refcnt >= 0
  {
    assert CountedRight(g, log, ext, n);
  }

  /** The assertion of bdrv_unref holds for a reference that the newest record drops. */
  lemma AccountCommit(g: Graph, log: seq<Undo>, ext: Outside, u: Undo)
    requires Accounted(g, log + [u], ext)
    ensures CommitSafe(g, u) && Accounted(Commit(g, u), log, ext)
  {
    assert (log + [u])[|log|] == u && forall i :: 0 <= i < |log| ==> (log + [u])[i] == log[i];
    if u.UndoReplace? && u.was.Some? {
      assert CountedRight(g, log + [u], ext, u.was.value);
      ParkedSnoc(log, u, u.was.value);
    }
    var g' := Commit(g, u);
    forall n | n in g'.nodes ensures CountedRight(g', log, ext, n) {
      assert CountedRight(g, log + [u], ext, n);
      ParkedSnoc(log, u, n);
    }
  }

  /**
   Committing hits no assertion: each bdrv_unref finds a reference to drop.  It releases every parked
   reference and drives no count below what is still held.
   */
  lemma {:induction false} CommitAllAccounts(g: Graph, log: seq<Undo>, ext: Outside)
    requires Accounted(g, log, ext)
    ensures AllCommitSafe(g, log) && Accounted(CommitAll(g, log), [], ext)
    decreases |log|
  {
    if log != [] {
      var u := log[|log| - 1];
      assert log == log[..|log| - 1] + [u];
      AccountCommit(g, log[..|log| - 1], ext, u);
      CommitAllAccounts(Commit(g, u), log[..|log| - 1], ext);
    }
  }

  // --- Well-formedness, edit by edit ---

  lemma SetPermWellFormed(g: Graph, e: EdgeId, perm: Perms, shared: Perms)
    requires WellFormed(g) && e in g.edges
    ensures WellFormed(SetPerm(g, e, perm, shared))
  {
    var g' := SetPerm(g, e, perm, shared);
    forall n | n in g'.nodes ensures ChildrenOk(g', n) && ParentsOk(g', n) {
      assert ChildrenOk(g, n) && ParentsOk(g, n);
    }
    forall d | d in g'.edges ensures EdgeOk(g', d) {
      assert EdgeOk(g, d);
    }
  }

  lemma InheritsWellFormed(g: Graph, n: NodeId, from: Option<NodeId>)
    requires WellFormed(g) && n in g.nodes
    ensures WellFormed(SetInherits(g, n, from))
  {
    var g' := SetInherits(g, n, from);
    forall m | m in g'.nodes ensures ChildrenOk(g', m) && ParentsOk(g', m) {
      assert ChildrenOk(g, m) && ParentsOk(g, m);
    }
    forall d | d in g'.edges ensures EdgeOk(g', d) {
      assert EdgeOk(g, d);
    }
  }

  lemma ReplaceWellFormed(g: Graph, e: EdgeId, to: NodeId)
    requires WellFormed(g) && Free(g, e) && g.edges[e].bs.Some? && to in g.nodes
    ensures WellFormed(ReplaceChild(g, e, Some(to)))
  {
    var g' := ReplaceChild(g, e, Some(to));
    forall n | n in g'.nodes ensures ChildrenOk(g', n) && ParentsOk(g', n) {
      assert ChildrenOk(g, n) && ParentsOk(g, n);
    }
    forall d | d in g'.edges ensures EdgeOk(g', d) {
      assert EdgeOk(g, d);
    }
  }

  lemma AttachWellFormed(g: Graph, e: EdgeId, c: Edge, to: NodeId, slot: Slot)
    requires WellFormed(g) && FreshEdge(g, e) && to in g.nodes && !c.frozen
    requires c.holder.HeldByNode? ==> c.holder.node in g.nodes
    requires slot.BackingOf? ==> c.holder == HeldByNode(slot.node)
    ensures WellFormed(Attach(g, e, c, to, slot))
  {
    var g' := Attach(g, e, c, to, slot);
    AttachShape(g, e, c, to, slot);
    forall n | n in g'.nodes ensures ChildrenOk(g', n) && ParentsOk(g', n) {
      AttachNode(g, e, c, to, slot, n);
      assert ChildrenOk(g, n) && ParentsOk(g, n);
    }
    forall d | d in g'.edges ensures EdgeOk(g', d) {
      AttachEdgeOk(g, e, c, to, slot, d);
    }
  }

  lemma AttachEdgeOk(g: Graph, e: EdgeId, c: Edge, to: NodeId, slot: Slot, d: EdgeId)
    requires WellFormed(g) && to in g.nodes && !c.frozen && d in Attach(g, e, c, to, slot).edges
    requires c.holder.HeldByNode? ==> c.holder.node in g.nodes
    ensures EdgeOk(Attach(g, e, c, to, slot), d)
  {
    AttachShape(g, e, c, to, slot);
    if d != e {
      assert EdgeOk(g, d);
      if g.edges[d].bs.Some? && g.edges[d].holder.HeldByNode? {
        AttachNode(g, e, c, to, slot, g.edges[d].holder.node);
      }
    } else if c.holder.HeldByNode? {
      AttachNode(g, e, c, to, slot, c.holder.node);
    }
  }

  // --- Taking out a backing or filter child ---

  /** bdrv_remove_filter_or_cow_child as a whole. */
  function RemoveChild(g: Graph, e: EdgeId, parent: NodeId, isBacking: bool): Graph
    requires Free(g, e) && parent in g.nodes
  {
    ReplaceShape(g, e, None);
    RemoveLink(ReplaceChild(g, e, None), e, parent, isBacking)
  }

  /** A link that can be taken out. */
  ghost predicate IsLink(g: Graph, e: EdgeId, parent: NodeId, isBacking: bool) {
    && parent in g.nodes && e in g.nodes[parent].children && Free(g, e)
    && (if isBacking then g.nodes[parent].backing == Some(e) && g.nodes[parent].file != Some(e)
        else g.nodes[parent].file == Some(e) && g.nodes[parent].backing != Some(e))
  }

  lemma RemoveNode(g: Graph, e: EdgeId, parent: NodeId, isBacking: bool, n: NodeId)
    requires Free(g, e) && parent in g.nodes && n in g.nodes
    ensures var g' := RemoveChild(g, e, parent, isBacking);
      && n in g'.nodes
      && g'.nodes[n] == g.nodes[n].(
           parents := if g.edges[e].bs == Some(n) then g.nodes[n].parents - {e} else g.nodes[n].parents,
           children := if n == parent then g.nodes[n].children - {e} else g.nodes[n].children,
           backing := if n == parent && isBacking then None else g.nodes[n].backing,
           file := if n == parent && !isBacking then None else g.nodes[n].file)
  {
    ReplaceNode(g, e, None, n);
  }

  lemma RemoveShape(g: Graph, e: EdgeId, parent: NodeId, isBacking: bool)
    requires Free(g, e) && parent in g.nodes
    ensures RemoveChild(g, e, parent, isBacking).edges == g.edges[e := g.edges[e].(bs := None)]
    ensures RemoveChild(g, e, parent, isBacking).nodes.Keys == g.nodes.Keys
  {
    ReplaceShape(g, e, None);
  }

  lemma RemoveWellFormed(g: Graph, e: EdgeId, parent: NodeId, isBacking: bool)
    requires WellFormed(g) && IsLink(g, e, parent, isBacking)
    ensures WellFormed(RemoveChild(g, e, parent, isBacking))
    ensures Unlinked(RemoveChild(g, e, parent, isBacking), e)
  {
    var g' := RemoveChild(g, e, parent, isBacking);
    RemoveShape(g, e, parent, isBacking);
    assert ChildrenOk(g, parent);
    forall n | n in g'.nodes ensures ChildrenOk(g', n) && ParentsOk(g', n) && e !in g'.nodes[n].children {
      RemoveNode(g, e, parent, isBacking, n);
      assert ChildrenOk(g, n) && ParentsOk(g, n);
    }
    forall d | d in g'.edges ensures EdgeOk(g', d) {
      assert EdgeOk(g, d);
      if g.edges[d].bs.Some? && g.edges[d].holder.HeldByNode? {
        RemoveNode(g, e, parent, isBacking, g.edges[d].holder.node);
      }
    }
  }

  lemma RemoveAccounts(g: Graph, log: seq<Undo>, base: Graph, ext: Outside, e: EdgeId, parent: NodeId, isBacking: bool)
    requires WellFormed(g) && Accounted(g, log, ext) && Restores(g, log, base) && IsLink(g, e, parent, isBacking)
    ensures var longer := log + [UndoReplace(e, g.edges[e].bs)] + [UndoRemove(e, parent, isBacking)];
      var g' := RemoveChild(g, e, parent, isBacking);
      Accounted(g', longer, ext) && Restores(g', longer, base)
  {
    var g1 := ReplaceChild(g, e, None);
    var log1 := log + [UndoReplace(e, g.edges[e].bs)];
    ReplaceShape(g, e, None);
    ReplaceNode(g, e, None, parent);
    AccountReplace(g, log, ext, e, None);
    ReplaceListed(g, e);
    UndoesReplace(g, e, None);
    RestoresSnoc(g, log, base, g1, UndoReplace(e, g.edges[e].bs));
    var g2 := RemoveLink(g1, e, parent, isBacking);
    AccountOther(g1, g2, log1, ext, UndoRemove(e, parent, isBacking));
    UndoesRemove(g1, e, parent, isBacking);
    RestoresSnoc(g1, log1, base, g2, UndoRemove(e, parent, isBacking));
  }

  lemma ReplaceListed(g: Graph, e: EdgeId)
    requires WellFormed(g) && e in g.edges
    ensures Listed(g, e)
  {
    forall n | n in g.nodes ensures e in g.nodes[n].parents <==> g.edges[e].bs == Some(n) {
      assert ParentsOk(g, n);
    }
  }

  // --- The committed graph ---

  lemma CommitWellFormed(g: Graph, u: Undo)
    requires WellFormed(g) && CommitSafe(g, u) && (u.UndoRemove? ==> Unlinked(g, u.e))
    ensures WellFormed(Commit(g, u))
  {
    var g' := Commit(g, u);
    forall n | n in g'.nodes ensures ChildrenOk(g', n) && ParentsOk(g', n) {
      assert ChildrenOk(g, n) && ParentsOk(g, n);
    }
    forall d | d in g'.edges ensures EdgeOk(g', d) {
      assert EdgeOk(g, d);
    }
  }

  lemma {:induction false} CommitAllWellFormed(g: Graph, log: seq<Undo>)
    requires WellFormed(g) && AllCommitSafe(g, log) && RemovalsUnlinked(g, log)
    ensures WellFormed(CommitAll(g, log))
    decreases |log|
  {
    if log != [] {
      var u := log[|log| - 1];
      CommitWellFormed(g, u);
      forall i | 0 <= i < |log| - 1 && log[i].UndoRemove? ensures Unlinked(Commit(g, u), log[i].e) {
        assert Unlinked(g, log[i].e);
      }
      CommitAllWellFormed(Commit(g, u), log[..|log| - 1]);
    }
  }

  /** Committing changes no link: every attached edge and every child list is as the edits left it. */
  lemma {:induction false} CommitAllKeepsLinks(g: Graph, log: seq<Undo>, n: NodeId)
    requires WellFormed(g) && AllCommitSafe(g, log) && RemovalsUnlinked(g, log) && n in g.nodes
    ensures var g' := CommitAll(g, log);
      && n in g'.nodes && g'.nodes.Keys == g.nodes.Keys && g'.nodes[n] == g.nodes[n].(refcnt := g'.nodes[n].refcnt)
      && (forall e :: e in g.nodes[n].children ==> e in g.edges && e in g'.edges && g'.edges[e] == g.edges[e])
      && (forall e :: e in g.nodes[n].parents ==> e in g.edges && e in g'.edges && g'.edges[e] == g.edges[e])
    decreases |log|
  {
    assert ChildrenOk(g, n) && ParentsOk(g, n);
    if log != [] {
      var u := log[|log| - 1];
      CommitWellFormed(g, u);
      forall i | 0 <= i < |log| - 1 && log[i].UndoRemove? ensures Unlinked(Commit(g, u), log[i].e) {
        assert Unlinked(g, log[i].e);
      }
      CommitAllKeepsLinks(Commit(g, u), log[..|log| - 1], n);
    }
  }
}
