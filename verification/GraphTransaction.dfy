/**
 The state of a running graph transaction, and why each edit keeps it.
 */
module GraphTransaction {
  import opened Options
  import opened BlockGraph
  import opened GraphEdit
  import opened GraphAccounting
  import opened GraphShape
  import opened NodeReplacement

  ghost predicate RemovalsPending(g: Graph, log: seq<Undo>) {
    forall i :: 0 <= i < |log| && log[i].UndoRemove? ==> log[i].e in g.edges && Unlinked(g, log[i].e)
  }

  /** The graph is well formed and acyclic, and every reference is accounted for. */
  ghost predicate Sound(g: Graph, log: seq<Undo>, ext: Outside) {
    && WellFormed(g)
    && Acyclic(g)
    && Accounted(g, log, ext)
    && RemovalsPending(g, log)
  }

  /** A transaction under way: moreover, aborting it now would hit no assertion and restore `base`. */
  ghost predicate Underway(g: Graph, log: seq<Undo>, base: Graph, ext: Outside) {
    Sound(g, log, ext) && Restores(g, log, base)
  }

  /** Between transactions. */
  ghost predicate Settled(g: Graph, ext: Outside) {
    Sound(g, [], ext)
  }

  lemma SameLinksAcyclic(g: Graph, g': Graph)
    requires Acyclic(g) && forall n :: Kids(g', n) == Kids(g, n)
    ensures Acyclic(g')
  {
    FewerLinksAcyclic(g, g');
  }

  lemma SetPermUnderway(g: Graph, log: seq<Undo>, base: Graph, ext: Outside, e: EdgeId, perm: Perms, shared: Perms)
    requires Underway(g, log, base, ext) && e in g.edges
    ensures Underway(SetPerm(g, e, perm, shared), log + [UndoSetPerm(e, g.edges[e].perm, g.edges[e].shared)], base, ext)
  {
    var g' := SetPerm(g, e, perm, shared);
    var u := UndoSetPerm(e, g.edges[e].perm, g.edges[e].shared);
    SetPermWellFormed(g, e, perm, shared);
    forall n ensures Kids(g', n) == Kids(g, n) {
      SamePermKids(g, e, perm, shared, n);
    }
    SameLinksAcyclic(g, g');
    AccountOther(g, g', log, ext, u);
    UndoesSetPerm(g, e, perm, shared);
    RestoresSnoc(g, log, base, g', u);
  }

  lemma InheritsUnderway(g: Graph, log: seq<Undo>, base: Graph, ext: Outside, n: NodeId, from: Option<NodeId>)
    requires Underway(g, log, base, ext) && n in g.nodes
    ensures Underway(SetInherits(g, n, from), log + [UndoInherits(n, g.nodes[n].inheritsFrom)], base, ext)
  {
    var g' := SetInherits(g, n, from);
    var u := UndoInherits(n, g.nodes[n].inheritsFrom);
    InheritsWellFormed(g, n, from);
    forall m ensures Kids(g', m) == Kids(g, m) {
      SameInheritsKids(g, n, from, m);
    }
    SameLinksAcyclic(g, g');
    AccountOther(g, g', log, ext, u);
    UndoesInherits(g, n, from);
    RestoresSnoc(g, log, base, g', u);
  }

  lemma AttachUnderway(g: Graph, log: seq<Undo>, base: Graph, ext: Outside, e: EdgeId, c: Edge, to: NodeId, slot: Slot)
    requires Underway(g, log, base, ext) && FreshEdge(g, e) && to in g.nodes && !c.frozen
    requires c.holder.HeldByNode? ==> c.holder.node in g.nodes && !Reaches(g, to, c.holder.node)
    requires slot.BackingOf? ==> c.holder == HeldByNode(slot.node) && g.nodes[slot.node].backing.None?
    ensures Underway(Attach(g, e, c, to, slot), log + [UndoAttach(e, slot)], base, ext)
  {
    var g' := Attach(g, e, c, to, slot);
    AttachWellFormed(g, e, c, to, slot);
    AttachAcyclicIff(g, e, c, to, slot);
    AccountAttach(g, log, ext, e, c, to, slot);
    AttachPending(g, log, e, c, to, slot);
    CountsNotNegative(g, log, ext, to);
    UndoesAttach(g, e, c, to, slot);
    RestoresSnoc(g, log, base, g', UndoAttach(e, slot));
  }

  lemma AttachPending(g: Graph, log: seq<Undo>, e: EdgeId, c: Edge, to: NodeId, slot: Slot)
    requires RemovalsPending(g, log) && FreshEdge(g, e) && !c.frozen
    ensures RemovalsPending(Attach(g, e, c, to, slot), log + [UndoAttach(e, slot)])
  {
    var g' := Attach(g, e, c, to, slot);
    AttachShape(g, e, c, to, slot);
    forall i | 0 <= i < |log| && log[i].UndoRemove? ensures log[i].e in g'.edges && Unlinked(g', log[i].e) {
      forall n | n in g'.nodes ensures log[i].e !in g'.nodes[n].children {
        AttachNode(g, e, c, to, slot, n);
      }
    }
  }

  lemma RedirectUnderway(g: Graph, log: seq<Undo>, base: Graph, ext: Outside, e: EdgeId, to: NodeId)
    requires Underway(g, log, base, ext) && Free(g, e) && g.edges[e].bs.Some? && to in g.nodes && !InSubtreeOf(g, e, to)
    ensures Underway(ReplaceChild(g, e, Some(to)), log + [UndoReplace(e, g.edges[e].bs)], base, ext)
  {
    var g' := ReplaceChild(g, e, Some(to));
    var u := UndoReplace(e, g.edges[e].bs);
    ReplaceWellFormed(g, e, to);
    RedirectAcyclic(g, e, to);
    AccountReplace(g, log, ext, e, Some(to));
    RedirectPending(g, log, e, to);
    ReplaceListed(g, e);
    CountsNotNegative(g, log, ext, to);
    UndoesReplace(g, e, Some(to));
    RestoresSnoc(g, log, base, g', u);
  }

  lemma RedirectPending(g: Graph, log: seq<Undo>, e: EdgeId, to: NodeId)
    requires RemovalsPending(g, log) && Free(g, e) && g.edges[e].bs.Some?
    ensures RemovalsPending(ReplaceChild(g, e, Some(to)), log + [UndoReplace(e, g.edges[e].bs)])
  {
    var g' := ReplaceChild(g, e, Some(to));
    ReplaceShape(g, e, Some(to));
    forall i | 0 <= i < |log| && log[i].UndoRemove? ensures log[i].e in g'.edges && Unlinked(g', log[i].e) {
      forall n | n in g'.nodes ensures log[i].e !in g'.nodes[n].children {
        ReplaceNode(g, e, Some(to), n);
      }
    }
  }

  lemma RemoveUnderway(g: Graph, log: seq<Undo>, base: Graph, ext: Outside, e: EdgeId, parent: NodeId, isBacking: bool)
    requires Underway(g, log, base, ext) && IsLink(g, e, parent, isBacking)
    ensures Underway(RemoveChild(g, e, parent, isBacking),
                     log + [UndoReplace(e, g.edges[e].bs)] + [UndoRemove(e, parent, isBacking)], base, ext)
  {
    var g' := RemoveChild(g, e, parent, isBacking);
    RemoveWellFormed(g, e, parent, isBacking);
    forall n ensures Kids(g', n) <= Kids(g, n) {
      RemoveKids(g, e, parent, isBacking, n);
    }
    FewerLinksAcyclic(g, g');
    RemoveAccounts(g, log, base, ext, e, parent, isBacking);
    RemovePending(g, log, e, parent, isBacking);
  }

  lemma RemovePending(g: Graph, log: seq<Undo>, e: EdgeId, parent: NodeId, isBacking: bool)
    requires WellFormed(g) && RemovalsPending(g, log) && IsLink(g, e, parent, isBacking)
    ensures RemovalsPending(RemoveChild(g, e, parent, isBacking),
                            log + [UndoReplace(e, g.edges[e].bs)] + [UndoRemove(e, parent, isBacking)])
  {
    var g' := RemoveChild(g, e, parent, isBacking);
    RemoveShape(g, e, parent, isBacking);
    RemoveWellFormed(g, e, parent, isBacking);
    forall i | 0 <= i < |log| && log[i].UndoRemove? ensures log[i].e in g'.edges && Unlinked(g', log[i].e) {
      forall n | n in g'.nodes ensures log[i].e !in g'.nodes[n].children {
        RemoveNode(g, e, parent, isBacking, n);
      }
    }
  }

  /** The edge was taken away by a logged removal. */
  ghost predicate Removed(log: seq<Undo>, e: EdgeId) {
    exists i :: 0 <= i < |log| && log[i].UndoRemove? && log[i].e == e
  }

  /** Committing frees exactly the edges that were removed. */
  lemma {:induction false} CommitAllFrees(g: Graph, log: seq<Undo>, e: EdgeId)
    requires AllCommitSafe(g, log)
    ensures e in CommitAll(g, log).edges <==> e in g.edges && !Removed(log, e)
    decreases |log|
  {
    if log != [] {
      var u, rest := log[|log| - 1], log[..|log| - 1];
      CommitAllFrees(Commit(g, u), rest, e);
      assert Removed(log, e) <==> Removed(rest, e) || (u.UndoRemove? && u.e == e) by {
        if Removed(rest, e) {
          var i :| 0 <= i < |rest| && rest[i].UndoRemove? && rest[i].e == e;
          assert log[i] == rest[i];
        }
      }
    }
  }

  /**
   Committing hits no assertion and settles the graph; the links are those the edits made, and exactly the edges
   that were removed are gone.
   */
  lemma CommitSettles(g: Graph, log: seq<Undo>, ext: Outside)
    requires Sound(g, log, ext)
    ensures AllCommitSafe(g, log) && Settled(CommitAll(g, log), ext)
    ensures forall n :: Kids(CommitAll(g, log), n) == Kids(g, n)
    ensures forall e :: e in CommitAll(g, log).edges <==> e in g.edges && !Removed(log, e)
  {
    CommitAllAccounts(g, log, ext);
    forall e ensures e in CommitAll(g, log).edges <==> e in g.edges && !Removed(log, e) {
      CommitAllFrees(g, log, e);
    }
    var g' := CommitAll(g, log);
    CommitAllWellFormed(g, log);
    forall n ensures Kids(g', n) == Kids(g, n) {
      CommitKids(g, log, n);
    }
    SameLinksAcyclic(g, g');
  }

  lemma CommitKids(g: Graph, log: seq<Undo>, n: NodeId)
    requires WellFormed(g) && AllCommitSafe(g, log) && RemovalsUnlinked(g, log)
    ensures Kids(CommitAll(g, log), n) == Kids(g, n)
  {
    if n in g.nodes {
      CommitAllKeepsLinks(g, log, n);
      assert ChildrenOk(g, n);
    } else {
      CommitAllSameNodes(g, log);
    }
  }

  lemma {:induction false} CommitAllSameNodes(g: Graph, log: seq<Undo>)
    requires AllCommitSafe(g, log)
    ensures CommitAll(g, log).nodes.Keys == g.nodes.Keys
    decreases |log|
  {
    if log != [] {
      CommitAllSameNodes(Commit(g, log[|log| - 1]), log[..|log| - 1]);
    }
  }
}
