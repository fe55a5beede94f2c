/**
 The transactional edits of the block graph and their undo log (block.c, util/transactions.c).

 Every edit records how to take it back.  Aborting runs the records newest first and restores the
 graph exactly; the reference counts stay equal to what is really held, on commit and on abort.
 */
module GraphEdit {
  import opened Options
  import opened BlockGraph

  /** The variable that receives a newly attached edge. */
  datatype Slot = BackingOf(node: NodeId) | LocalVariable

  /** One TransactionAction with the state it carries. */
  datatype Undo =
    | UndoSetPerm(e: EdgeId, perm: Perms, shared: Perms)
    | UndoReplace(e: EdgeId, was: Option<NodeId>)
    | UndoAttach(e: EdgeId, slot: Slot)
    | UndoInherits(n: NodeId, from: Option<NodeId>)
    | UndoRemove(e: EdgeId, parent: NodeId, isBacking: bool)

  // --- Primitive edits ---

  function SetPerm(g: Graph, e: EdgeId, perm: Perms, shared: Perms): Graph
    requires e in g.edges
  {
    g.(edges := g.edges[e := g.edges[e].(perm := perm, shared := shared)])
  }

  /** bdrv_ref and bdrv_unref; a null node is ignored. */
  function AddRef(g: Graph, n: Option<NodeId>, delta: int): Graph {
    if n.None? || n.value !in g.nodes then g
    else g.(nodes := g.nodes[n.value := g.nodes[n.value].(refcnt := g.nodes[n.value].refcnt + delta)])
  }

  function DropParent(nodes: map<NodeId, Node>, n: Option<NodeId>, e: EdgeId): map<NodeId, Node> {
    if n.None? || n.value !in nodes then nodes
    else nodes[n.value := nodes[n.value].(parents := nodes[n.value].parents - {e})]
  }

  function AddParent(nodes: map<NodeId, Node>, n: Option<NodeId>, e: EdgeId): map<NodeId, Node> {
    if n.None? || n.value !in nodes then nodes
    else nodes[n.value := nodes[n.value].(parents := nodes[n.value].parents + {e})]
  }

  /** The assertion of bdrv_replace_child_noperm: the edge exists and is not frozen. */
  predicate Free(g: Graph, e: EdgeId) {
    e in g.edges && !g.edges[e].frozen
  }

  /** bdrv_replace_child_noperm: points the edge elsewhere and moves it between the parent lists. */
  function Retarget(g: Graph, e: EdgeId, to: Option<NodeId>): Graph
    requires Free(g, e)
  {
    Graph(AddParent(DropParent(g.nodes, g.edges[e].bs, e), to, e), g.edges[e := g.edges[e].(bs := to)])
  }

  /** bdrv_replace_child: the reference to the old target moves to the undo log. */
  function ReplaceChild(g: Graph, e: EdgeId, to: Option<NodeId>): Graph
    requires Free(g, e)
  {
    Retarget(AddRef(g, to, 1), e, to)
  }

  function SetSlot(g: Graph, slot: Slot, v: Option<EdgeId>): Graph {
    if slot.LocalVariable? || slot.node !in g.nodes then g
    else g.(nodes := g.nodes[slot.node := g.nodes[slot.node].(backing := v)])
  }

  function LinkChild(g: Graph, h: Holder, e: EdgeId): Graph {
    if h.HeldOutside? || h.node !in g.nodes then g
    else g.(nodes := g.nodes[h.node := g.nodes[h.node].(children := g.nodes[h.node].children + {e})])
  }

  function UnlinkChild(g: Graph, h: Holder, e: EdgeId): Graph {
    if h.HeldOutside? || h.node !in g.nodes then g
    else g.(nodes := g.nodes[h.node := g.nodes[h.node].(children := g.nodes[h.node].children - {e})])
  }

  /** bdrv_attach_child_common followed by the insertion into the holder's child list. */
  function Attach(g: Graph, e: EdgeId, c: Edge, to: NodeId, slot: Slot): Graph
    requires !c.frozen
  {
    var g1 := g.(edges := g.edges[e := c.(bs := None)]);
    var g2 := Retarget(AddRef(g1, Some(to), 1), e, Some(to));
    LinkChild(SetSlot(g2, slot, Some(e)), c.holder, e)
  }

  function SetInherits(g: Graph, n: NodeId, from: Option<NodeId>): Graph
    requires n in g.nodes
  {
    g.(nodes := g.nodes[n := g.nodes[n].(inheritsFrom := from)])
  }

  /** The second half of bdrv_remove_filter_or_cow_child, after the edge was detached. */
  function RemoveLink(g: Graph, e: EdgeId, parent: NodeId, isBacking: bool): Graph
    requires parent in g.nodes
  {
    var p := g.nodes[parent];
    g.(nodes := g.nodes[parent := if isBacking then p.(children := p.children - {e}, backing := None)
                                  else p.(children := p.children - {e}, file := None)])
  }

  // --- Abort and commit of one record ---

  /** The assertion of bdrv_unref: there is a reference to drop. */
  predicate CanUnref(g: Graph, n: Option<NodeId>) {
    n.Some? ==> n.value in g.nodes && g.nodes[n.value].refcnt > 0
  }

  /** What the abort of a record relies on: its objects exist, and the assertions on its way hold. */
  predicate UndoSafe(g: Graph, u: Undo) {
    match u
    case UndoSetPerm(e, _, _) => e in g.edges
    case UndoReplace(e, _) => Free(g, e) && CanUnref(g, g.edges[e].bs)
    case UndoAttach(e, _) => Free(g, e) && CanUnref(g, g.edges[e].bs)
    case UndoInherits(n, _) => n in g.nodes
    case UndoRemove(_, parent, _) => parent in g.nodes
  }

  function Abort(g: Graph, u: Undo): Graph
    requires UndoSafe(g, u)
  {
    match u
    case UndoSetPerm(e, perm, shared) => SetPerm(g, e, perm, shared)
    case UndoReplace(e, was) => AddRef(Retarget(g, e, was), g.edges[e].bs, -1)
    case UndoAttach(e, slot) =>
      var c := g.edges[e];
      var g1 := AddRef(Retarget(g, e, None), c.bs, -1);
      var g2 := UnlinkChild(SetSlot(g1, slot, None), c.holder, e);
      g2.(edges := g2.edges - {e})
    case UndoInherits(n, from) => SetInherits(g, n, from)
    case UndoRemove(e, parent, isBacking) =>
      var p := g.nodes[parent];
      g.(nodes := g.nodes[parent := if isBacking then p.(children := p.children + {e}, backing := Some(e))
                                    else p.(children := p.children + {e}, file := Some(e))])
  }

  /** What the commit of a record relies on. */
  predicate CommitSafe(g: Graph, u: Undo) {
    u.UndoReplace? ==> CanUnref(g, u.was)
  }

  function Commit(g: Graph, u: Undo): Graph
    requires CommitSafe(g, u)
  {
    match u
    case UndoReplace(_, was) => AddRef(g, was, -1)
    case UndoRemove(e, _, _) => g.(edges := g.edges - {e})
    case _ => g
  }

  /** No assertion fails while the log is aborted. */
  ghost predicate AbortSafe(g: Graph, log: seq<Undo>)
    decreases |log|
  {
    log == [] || (UndoSafe(g, log[|log| - 1]) && AbortSafe(Abort(g, log[|log| - 1]), log[..|log| - 1]))
  }

  /** tran_abort: newest record first. */
  ghost function AbortAll(g: Graph, log: seq<Undo>): Graph
    requires AbortSafe(g, log)
    decreases |log|
  {
    if log == [] then g else AbortAll(Abort(g, log[|log| - 1]), log[..|log| - 1])
  }

  /** Aborting the log now hits no assertion and leads to base. */
  ghost predicate Restores(g: Graph, log: seq<Undo>, base: Graph) {
    AbortSafe(g, log) && AbortAll(g, log) == base
  }

  /** No assertion fails while the log is committed. */
  ghost predicate AllCommitSafe(g: Graph, log: seq<Undo>)
    decreases |log|
  {
    log == [] || (CommitSafe(g, log[|log| - 1]) && AllCommitSafe(Commit(g, log[|log| - 1]), log[..|log| - 1]))
  }

  /** tran_commit: newest record first. */
  ghost function CommitAll(g: Graph, log: seq<Undo>): Graph
    requires AllCommitSafe(g, log)
    decreases |log|
  {
    if log == [] then g else CommitAll(Commit(g, log[|log| - 1]), log[..|log| - 1])
  }

  // --- Every edit is undone by its record ---

  lemma UndoesSetPerm(g: Graph, e: EdgeId, perm: Perms, shared: Perms)
    requires e in g.edges
    ensures Abort(SetPerm(g, e, perm, shared), UndoSetPerm(e, g.edges[e].perm, g.edges[e].shared)) == g
  {
    var g' := Abort(SetPerm(g, e, perm, shared), UndoSetPerm(e, g.edges[e].perm, g.edges[e].shared));
    assert g'.edges == g.edges;
  }

  lemma UndoesInherits(g: Graph, n: NodeId, from: Option<NodeId>)
    requires n in g.nodes
    ensures Abort(SetInherits(g, n, from), UndoInherits(n, g.nodes[n].inheritsFrom)) == g
  {
    var g' := Abort(SetInherits(g, n, from), UndoInherits(n, g.nodes[n].inheritsFrom));
    assert g'.nodes == g.nodes;
  }

  lemma UndoesRemove(g: Graph, e: EdgeId, parent: NodeId, isBacking: bool)
    requires parent in g.nodes && e in g.nodes[parent].children
    requires isBacking ==> g.nodes[parent].backing == Some(e)
    requires !isBacking ==> g.nodes[parent].file == Some(e)
    ensures Abort(RemoveLink(g, e, parent, isBacking), UndoRemove(e, parent, isBacking)) == g
  {
    var g' := Abort(RemoveLink(g, e, parent, isBacking), UndoRemove(e, parent, isBacking));
    assert g'.nodes[parent].children == g.nodes[parent].children;
    assert g'.nodes == g.nodes;
  }

  /** The edge is listed as a parent exactly where it points. */
  ghost predicate Listed(g: Graph, e: EdgeId)
    requires e in g.edges
  {
    forall n :: n in g.nodes ==> (e in g.nodes[n].parents <==> g.edges[e].bs == Some(n))
  }

  /** What redirecting an edge does to one node: as old target and as new target. */
  lemma ReplaceNode(g: Graph, e: EdgeId, to: Option<NodeId>, n: NodeId)
    requires n in g.nodes && Free(g, e)
    ensures var g' := ReplaceChild(g, e, to);
      var kept := if g.edges[e].bs == Some(n) then g.nodes[n].parents - {e} else g.nodes[n].parents;
      && n in g'.nodes
      && g'.nodes[n] == g.nodes[n].(
           parents := if to == Some(n) then kept + {e} else kept,
           refcnt := if to == Some(n) then g.nodes[n].refcnt + 1 else g.nodes[n].refcnt)
  {
  }

  lemma ReplaceShape(g: Graph, e: EdgeId, to: Option<NodeId>)
    requires Free(g, e)
    ensures ReplaceChild(g, e, to).edges == g.edges[e := g.edges[e].(bs := to)]
    ensures ReplaceChild(g, e, to).nodes.Keys == g.nodes.Keys
  {
  }

  lemma UndoesReplace(g: Graph, e: EdgeId, to: Option<NodeId>)
    requires Free(g, e) && Listed(g, e) && (to.Some? ==> to.value in g.nodes && g.nodes[to.value].refcnt >= 0)
    ensures UndoSafe(ReplaceChild(g, e, to), UndoReplace(e, g.edges[e].bs))
    ensures Abort(ReplaceChild(g, e, to), UndoReplace(e, g.edges[e].bs)) == g
  {
    var g' := Abort(ReplaceChild(g, e, to), UndoReplace(e, g.edges[e].bs));
    assert g'.edges == g.edges;
    assert g'.nodes.Keys == g.nodes.Keys;
    forall n | n in g.nodes ensures g'.nodes[n] == g.nodes[n] {
      assert g'.nodes[n].parents == g.nodes[n].parents;
    }
    assert g'.nodes == g.nodes;
  }

  /** What attaching an edge does to one node: as target, as receiving slot and as holder. */
  lemma AttachNode(g: Graph, e: EdgeId, c: Edge, to: NodeId, slot: Slot, n: NodeId)
    requires n in g.nodes && !c.frozen
    ensures var g' := Attach(g, e, c, to, slot);
      && n in g'.nodes
      && g'.nodes[n] == g.nodes[n].(
           parents := if n == to then g.nodes[n].parents + {e} else g.nodes[n].parents,
           refcnt := if n == to then g.nodes[n].refcnt + 1 else g.nodes[n].refcnt,
           backing := if slot == BackingOf(n) then Some(e) else g.nodes[n].backing,
           children := if c.holder == HeldByNode(n) then g.nodes[n].children + {e} else g.nodes[n].children)
  {
  }

  lemma AbortAttachNode(g: Graph, e: EdgeId, slot: Slot, n: NodeId)
    requires n in g.nodes && UndoSafe(g, UndoAttach(e, slot))
    ensures var g' := Abort(g, UndoAttach(e, slot)); var c := g.edges[e];
      && n in g'.nodes
      && g'.nodes[n] == g.nodes[n].(
           parents := if c.bs == Some(n) then g.nodes[n].parents - {e} else g.nodes[n].parents,
           refcnt := if c.bs == Some(n) then g.nodes[n].refcnt - 1 else g.nodes[n].refcnt,
           backing := if slot == BackingOf(n) then None else g.nodes[n].backing,
           children := if c.holder == HeldByNode(n) then g.nodes[n].children - {e} else g.nodes[n].children)
  {
  }

  lemma AttachShape(g: Graph, e: EdgeId, c: Edge, to: NodeId, slot: Slot)
    requires !c.frozen
    ensures Attach(g, e, c, to, slot).edges == g.edges[e := c.(bs := Some(to))]
    ensures Attach(g, e, c, to, slot).nodes.Keys == g.nodes.Keys
  {
  }

  lemma AbortAttachShape(g: Graph, e: EdgeId, slot: Slot)
    requires UndoSafe(g, UndoAttach(e, slot))
    ensures Abort(g, UndoAttach(e, slot)).edges == g.edges - {e}
    ensures Abort(g, UndoAttach(e, slot)).nodes.Keys == g.nodes.Keys
  {
  }

  /** Nothing in the graph refers to e: a freshly allocated BdrvChild. */
  ghost predicate FreshEdge(g: Graph, e: EdgeId) {
    && e !in g.edges
    && forall n :: n in g.nodes ==> e !in g.nodes[n].parents && e !in g.nodes[n].children
  }

  lemma UndoesAttach(g: Graph, e: EdgeId, c: Edge, to: NodeId, slot: Slot)
    requires FreshEdge(g, e) && !c.frozen && to in g.nodes && g.nodes[to].refcnt >= 0
    requires slot.BackingOf? && slot.node in g.nodes ==> g.nodes[slot.node].backing.None?
    ensures UndoSafe(Attach(g, e, c, to, slot), UndoAttach(e, slot))
    ensures Abort(Attach(g, e, c, to, slot), UndoAttach(e, slot)) == g
  {
    var g1 := Attach(g, e, c, to, slot);
    AttachShape(g, e, c, to, slot);
    AttachNode(g, e, c, to, slot, to);
    var g' := Abort(g1, UndoAttach(e, slot));
    AbortAttachShape(g1, e, slot);
    assert g'.edges == g.edges;
    forall n | n in g.nodes ensures g'.nodes[n] == g.nodes[n] {
      AttachNode(g, e, c, to, slot, n);
      AbortAttachNode(g1, e, slot, n);
      assert g'.nodes[n].parents == g.nodes[n].parents;
      assert g'.nodes[n].children == g.nodes[n].children;
    }
    assert g'.nodes == g.nodes;
  }

  /** One more edit with its record leaves the state that an abort returns to unchanged. */
  lemma RestoresSnoc(g: Graph, log: seq<Undo>, base: Graph, g': Graph, u: Undo)
    requires Restores(g, log, base) && UndoSafe(g', u) && Abort(g', u) == g
    ensures Restores(g', log + [u], base)
  {
    assert (log + [u])[..|log|] == log;
  }
}
