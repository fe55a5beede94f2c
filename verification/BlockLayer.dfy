/**
 The operations of block.c that edit the graph inside a transaction, in the form the source gives
 them: objects whose fields are updated step by step, and an undo log that is played back on failure.
 */
module BlockLayer {
  import opened Options
  import opened BlockGraph
  import opened TopologicalOrder
  import opened Permissions
  import opened PermissionRefresh
  import opened GraphEdit
  import opened GraphAccounting
  import opened GraphShape
  import opened NodeReplacement
  import opened GraphTransaction

  // --- Facts about refreshing inside a transaction ---

  ghost predicate OnlyPermRecords(log: seq<Undo>, from: nat) {
    forall i :: from <= i < |log| ==> log[i].UndoSetPerm?
  }

  lemma {:induction false} CommitPermsIsNoop(g: Graph, log: seq<Undo>)
    requires OnlyPermRecords(log, 0)
    ensures AllCommitSafe(g, log) && CommitAll(g, log) == g
    decreases |log|
  {
    if log != [] {
      CommitPermsIsNoop(g, log[..|log| - 1]);
    }
  }

  /** The graph in the middle of the loop over the children of n. */
  ghost function PassDownTo(d: Drivers, g: Graph, n: NodeId, done: set<EdgeId>): Graph
    requires n in g.nodes
  {
    g.(edges := map e | e in g.edges ::
         if e in done
         then g.edges[e].(perm := Derived(d, g, n, e).perm, shared := Derived(d, g, n, e).shared)
         else g.edges[e])
  }

  lemma PassDownOne(d: Drivers, g: Graph, n: NodeId, done: set<EdgeId>, e: EdgeId)
    requires n in g.nodes && e in g.edges && e !in done
    ensures e in PassDownTo(d, g, n, done).edges && PassDownTo(d, g, n, done).edges[e] == g.edges[e]
    ensures PassDownTo(d, g, n, done + {e}) ==
            SetPerm(PassDownTo(d, g, n, done), e, Derived(d, g, n, e).perm, Derived(d, g, n, e).shared)
    ensures ForcesShare(PassDownTo(d, g, n, done), g.edges[e].bs) == ForcesShare(g, g.edges[e].bs)
  {
    var g1 := PassDownTo(d, g, n, done);
    var g2 := SetPerm(g1, e, Derived(d, g, n, e).perm, Derived(d, g, n, e).shared);
    assert PassDownTo(d, g, n, done + {e}).edges == g2.edges;
  }

  lemma DoneWith(all: set<EdgeId>, rest: set<EdgeId>, c: EdgeId)
    requires c in rest && rest <= all
    ensures all - (rest - {c}) == all - rest + {c}
  {
  }

  lemma ChildEdges(g: Graph, n: NodeId)
    requires WellFormed(g) && n in g.nodes
    ensures forall e :: e in g.nodes[n].children ==> e in g.edges
  {
    assert ChildrenOk(g, n);
  }

  lemma PassDownAll(d: Drivers, g: Graph, n: NodeId)
    requires n in g.nodes
    ensures PassDownTo(d, g, n, g.nodes[n].children) == PassDown(d, g, n)
    ensures PassDownTo(d, g, n, {}) == g
  {
    assert PassDownTo(d, g, n, {}).edges == g.edges;
    assert PassDownTo(d, g, n, g.nodes[n].children).edges == PassDown(d, g, n).edges;
  }

  /** Aborting a log whose newer part is known to undo itself. */
  lemma {:induction false} RestoresAppend(g: Graph, older: seq<Undo>, mid: Graph, newer: seq<Undo>, base: Graph)
    requires Restores(g, newer, mid) && Restores(mid, older, base)
    ensures Restores(g, older + newer, base)
    decreases |newer|
  {
    if newer == [] {
      assert older + newer == older;
    } else {
      var k := |newer| - 1;
      assert (older + newer)[..|older + newer| - 1] == older + newer[..k];
      RestoresAppend(Abort(g, newer[k]), older, mid, newer[..k], base);
    }
  }

  /** Changing only rights keeps the bookkeeping of an enclosing transaction. */
  lemma RightsKeepSound(g: Graph, g': Graph, list: seq<NodeId>, log: seq<Undo>, ext: Outside)
    requires Sound(g, log, ext) && OnlyRightsDiffer(g, g', list)
    ensures Sound(g', log, ext)
  {
    SameWellFormed(g, g', list);
    forall n ensures Kids(g', n) == Kids(g, n) {
      SameKids(g, g', list, n);
    }
    SameLinksAcyclic(g, g');
    forall n | n in g'.nodes ensures CountedRight(g', log, ext, n) {
      assert CountedRight(g, log, ext, n);
    }
  }

  /** One more change of rights with its record. */
  lemma RecordRights(g: Graph, log: seq<Undo>, k: nat, g0: Graph, e: EdgeId, perm: Perms, shared: Perms)
    requires k <= |log| && OnlyPermRecords(log, k) && Restores(g, log[k..], g0) && e in g.edges
    ensures var longer := log + [UndoSetPerm(e, g.edges[e].perm, g.edges[e].shared)];
      OnlyPermRecords(longer, k) && Restores(SetPerm(g, e, perm, shared), longer[k..], g0)
  {
    var u := UndoSetPerm(e, g.edges[e].perm, g.edges[e].shared);
    UndoesSetPerm(g, e, perm, shared);
    RestoresSnoc(g, log[k..], g0, SetPerm(g, e, perm, shared), u);
    assert (log + [u])[k..] == log[k..] + [u];
  }

  /** Transaction, with the newest record last. */
  class Transaction {
    var log: seq<Undo>

    constructor ()
      ensures log == []
    {
      log := [];
    }
  }

  class Layer {
    var g: Graph

    // --- util/transactions.c ---

    /** tran_abort; none of the assertions on its way fails */
    method TranAbort(tran: Transaction)
      requires AbortSafe(g, tran.log)
      modifies this, tran
      ensures g == AbortAll(old(g), old(tran.log)) && tran.log == []
    {
      while tran.log != []
        invariant AbortSafe(g, tran.log) && AbortAll(g, tran.log) == AbortAll(old(g), old(tran.log))
        decreases |tran.log|
      {
        g := Abort(g, tran.log[|tran.log| - 1]);
        tran.log := tran.log[..|tran.log| - 1];
      }
    }

    /** tran_commit; none of the assertions on its way fails */
    method TranCommit(tran: Transaction)
      requires AllCommitSafe(g, tran.log)
      modifies this, tran
      ensures g == CommitAll(old(g), old(tran.log)) && tran.log == []
    {
      while tran.log != []
        invariant AllCommitSafe(g, tran.log) && CommitAll(g, tran.log) == CommitAll(old(g), old(tran.log))
        decreases |tran.log|
      {
        g := Commit(g, tran.log[|tran.log| - 1]);
        tran.log := tran.log[..|tran.log| - 1];
      }
    }

    // --- Permissions ---

    /** bdrv_child_set_perm */
    method ChildSetPerm(tran: Transaction, e: EdgeId, perm: Perms, shared: Perms)
      requires e in g.edges
      modifies this, tran
      ensures g == SetPerm(old(g), e, perm, shared)
      ensures tran.log == old(tran.log) + [UndoSetPerm(e, old(g).edges[e].perm, old(g).edges[e].shared)]
    {
      tran.log := tran.log + [UndoSetPerm(e, g.edges[e].perm, g.edges[e].shared)];
      g := SetPerm(g, e, perm, shared);
    }

    /** The records that `tran` gained since it held k of them change rights only and lead back to g0. */
    ghost predicate RightsRecorded(tran: Transaction, k: nat, g0: Graph)
      reads this, tran
    {
      && k <= |tran.log|
      && OnlyPermRecords(tran.log, k)
      && Restores(g, tran.log[k..], g0)
    }

    /** The loop of bdrv_node_refresh_perm over the children of n. */
    method PassDownChildren(tran: Transaction, d: Drivers, n: NodeId, cum: Rights)
      requires n in g.nodes && cum == Cumulative(g, n)
      requires forall e :: e in g.nodes[n].children ==> e in g.edges
      modifies this, tran
      ensures g == PassDown(d, old(g), n)
      ensures old(tran.log) <= tran.log && RightsRecorded(tran, |old(tran.log)|, old(g))
    {
      ghost var g0, children, k := g, g.nodes[n].children, |tran.log|;
      var rest := g.nodes[n].children;
      PassDownAll(d, g0, n);
      assert children - rest == {};
      while rest != {}
        invariant old(tran.log) <= tran.log && RightsRecorded(tran, k, g0)
        invariant rest <= children && g == PassDownTo(d, g0, n, children - rest)
        decreases rest
      {
        var c :| c in rest;
        PassDownOne(d, g0, n, children - rest, c);
        var r := d.childPerm(n, g.edges[c].role, cum);
        if ForcesShare(g, g.edges[c].bs) {
          r := r.(shared := ALL_PERMS);
        }
        RecordRights(g, tran.log, k, g0, c, r.perm, r.shared);
        ChildSetPerm(tran, c, r.perm, r.shared);
        DoneWith(children, rest, c);
        rest := rest - {c};
      }
      assert children - rest == children;
    }

    /** bdrv_node_refresh_perm, for a node whose parents do not conflict */
    method NodeRefreshPerm(tran: Transaction, d: Drivers, n: NodeId) returns (ok: bool)
      requires WellFormed(g) && n in g.nodes && !Conflict(g, n)
      modifies this, tran
      ensures ok <==> RefreshNode(d, old(g), n).Some?
      ensures g == if ok then RefreshNode(d, old(g), n).value else old(g)
      ensures old(tran.log) <= tran.log && RightsRecorded(tran, |old(tran.log)|, old(g))
    {
      var cum := GetCumulativePerm(g, n);
      if Writes(cum.perm) && !d.writableAfter(n) {
        return false;
      }
      if Writes(cum.perm) && Resize !in cum.perm && !g.nodes[n].config.sizeAligned {
        return false;
      }
      if !g.nodes[n].config.open {
        return true;
      }
      if !d.checkPerm(n, cum) {
        return false;
      }
      ChildEdges(g, n);
      PassDownChildren(tran, d, n, cum);
      return true;
    }

    /** bdrv_list_refresh_perms */
    method ListRefreshPerms(tran: Transaction, d: Drivers, list: seq<NodeId>) returns (ok: bool)
      requires WellFormed(g) && forall n :: n in list ==> n in g.nodes
      modifies this, tran
      ensures ok <==> RefreshList(d, old(g), list).Some?
      ensures ok ==> g == RefreshList(d, old(g), list).value
      ensures old(tran.log) <= tran.log && RightsRecorded(tran, |old(tran.log)|, old(g))
    {
      ghost var g0, k := g, |tran.log|;
      var i := 0;
      while i < |list|
        invariant 0 <= i <= |list|
        invariant WellFormed(g) && g.nodes == g0.nodes
        invariant RefreshList(d, g, list[i..]) == RefreshList(d, g0, list)
        invariant old(tran.log) <= tran.log && RightsRecorded(tran, k, g0)
      {
        var conflict := ParentPermsConflict(g, list[i]);
        assert list[i..][0] == list[i] && list[i..][1..] == list[i + 1..];
        if conflict {
          return false;
        }
        ghost var h, log := g, tran.log;
        var fine := NodeRefreshPerm(tran, d, list[i]);
        assert tran.log[k..] == log[k..] + tran.log[|log|..];
        RestoresAppend(g, log[k..], h, tran.log[|log|..], g0);
        if !fine {
          return false;
        }
        RefreshNodeDiffers(d, h, list[i..]);
        SameWellFormed(h, g, list[i..]);
        i := i + 1;
      }
      return true;
    }

    /** bdrv_refresh_perms: refresh the subtree of bs in a transaction of its own. */
    method RefreshPerms(d: Drivers, bs: NodeId) returns (ok: bool, ghost list: seq<NodeId>)
      requires WellFormed(g) && Acyclic(g) && bs in g.nodes
      modifies this
      ensures Ordered(old(g), list) && forall n :: n in list <==> Reaches(old(g), bs, n)
      ensures forall n :: n in list ==> n in old(g).nodes
      ensures ok <==> RefreshList(d, old(g), list).Some?
      ensures g == if ok then RefreshList(d, old(g), list).value else old(g)
    {
      var tran := new Transaction();
      var order := TopologicalDfs(g, bs);
      list := order;
      ok := ListRefreshPerms(tran, d, order);
      assert tran.log[0..] == tran.log;
      if ok {
        CommitPermsIsNoop(g, tran.log);
        TranCommit(tran);
      } else {
        TranAbort(tran);
      }
    }

    // --- Replacing a node ---

    /** The loop of bdrv_replace_node_noperm over the users of `from`. */
    method ReplaceNodeNoperm(tran: Transaction, from: NodeId, to: NodeId, autoSkip: bool,
                             ghost base: Graph, ghost ext: Outside)
      returns (ok: bool)
      requires Underway(g, tran.log, base, ext) && from in g.nodes && to in g.nodes
      modifies this, tran
      ensures Underway(g, tran.log, base, ext)
      ensures ok <==> CanReplace(old(g), from, to, autoSkip)
      ensures ok ==> Redirected(old(g), g, to, Movable(old(g), from, to))
    {
      ghost var g0, users := g, g.nodes[from].parents;
      var rest := g.nodes[from].parents;
      ghost var moved: set<EdgeId> := {};
      RedirectedNone(g0, to);
      MovableUsers(g0, from, to);
      while rest != {}
        invariant Underway(g, tran.log, base, ext)
        invariant Redirected(g0, g, to, moved)
        invariant rest <= users && moved == Movable(g0, from, to) - rest
        invariant forall c :: c in users && c !in rest ==> CanPass(g0, c, to, autoSkip)
        decreases rest
      {
        var c :| c in rest;
        UserOf(g0, from, c);
        MovableStep(g0, from, to, rest, c);
        RedirectedStays(g0, g, to, moved, c);
        assert g.edges[c].bs == Some(from);
        rest := rest - {c};
        var should := ShouldUpdateChild(g, c, to);
        if !should {
          if autoSkip {
            continue;
          }
          return false;
        }
        if g.edges[c].frozen {
          return false;
        }
        RedirectUnderway(g, tran.log, base, ext, c, to);
        RedirectedMore(g0, g, to, moved, c);
        tran.log := tran.log + [UndoReplace(c, g.edges[c].bs)];
        g := ReplaceChild(g, c, Some(to));
        moved := moved + {c};
      }
      assert moved == Movable(g0, from, to);
      return true;
    }
  }

  // --- Facts about redirecting the users of a node ---

  /** The users of `from` that a replacement redirects. */
  ghost function Movable(g: Graph, from: NodeId, to: NodeId): set<EdgeId>
    requires from in g.nodes
  {
    set c | c in g.nodes[from].parents && c in g.edges && !MustStay(g, c, to)
  }

  lemma MovableUsers(g: Graph, from: NodeId, to: NodeId)
    requires from in g.nodes
    ensures Movable(g, from, to) - g.nodes[from].parents == {}
  {
  }

  lemma MovableStep(g: Graph, from: NodeId, to: NodeId, rest: set<EdgeId>, c: EdgeId)
    requires from in g.nodes && c in rest && rest <= g.nodes[from].parents && c in g.edges
    ensures Movable(g, from, to) - (rest - {c}) ==
            Movable(g, from, to) - rest + if MustStay(g, c, to) then {} else {c}
  {
  }

  /** This user does not stop the replacement. */
  ghost predicate CanPass(g: Graph, c: EdgeId, to: NodeId, autoSkip: bool) {
    c in g.edges && if MustStay(g, c, to) then autoSkip else !g.edges[c].frozen
  }

  ghost predicate CanReplace(g: Graph, from: NodeId, to: NodeId, autoSkip: bool)
    requires from in g.nodes
  {
    forall c :: c in g.nodes[from].parents ==> CanPass(g, c, to, autoSkip)
  }

  ghost predicate EdgeMoved(g0: Graph, g: Graph, to: NodeId, moved: set<EdgeId>, e: EdgeId)
    requires e in g0.edges
  {
    && e in g.edges
    && g.edges[e] == (if e in moved then g0.edges[e].(bs := Some(to)) else g0.edges[e])
    && (MustStay(g, e, to) <==> MustStay(g0, e, to))
  }

  ghost predicate NodeKept(g0: Graph, g: Graph, n: NodeId)
    requires n in g0.nodes
  {
    n in g.nodes && g.nodes[n] == g0.nodes[n].(parents := g.nodes[n].parents, refcnt := g.nodes[n].refcnt)
  }

  /** The edges in `moved` now point at `to`; nothing else changed but parent lists and counts. */
  ghost predicate Redirected(g0: Graph, g: Graph, to: NodeId, moved: set<EdgeId>) {
    && g.nodes.Keys == g0.nodes.Keys && g.edges.Keys == g0.edges.Keys
    && (forall e {:trigger EdgeMoved(g0, g, to, moved, e)} :: e in g0.edges ==> EdgeMoved(g0, g, to, moved, e))
    && (forall n {:trigger NodeKept(g0, g, n)} :: n in g0.nodes ==> NodeKept(g0, g, n))
  }

  lemma RedirectedNone(g: Graph, to: NodeId)
    ensures Redirected(g, g, to, {})
  {
  }

  lemma UserOf(g: Graph, from: NodeId, c: EdgeId)
    requires WellFormed(g) && from in g.nodes && c in g.nodes[from].parents
    ensures c in g.edges && g.edges[c].bs == Some(from)
  {
    assert ParentsOk(g, from);
  }

  lemma RedirectedStays(g0: Graph, g: Graph, to: NodeId, moved: set<EdgeId>, c: EdgeId)
    requires Redirected(g0, g, to, moved) && c in g0.edges && c !in moved
    ensures c in g.edges && g.edges[c] == g0.edges[c] && (MustStay(g, c, to) <==> MustStay(g0, c, to))
  {
    assert EdgeMoved(g0, g, to, moved, c);
  }

  lemma RedirectedMore(g0: Graph, g: Graph, to: NodeId, moved: set<EdgeId>, c: EdgeId)
    requires Redirected(g0, g, to, moved) && WellFormed(g) && Free(g, c) && g.edges[c].bs.Some? && !MustStay(g, c, to)
    ensures Redirected(g0, ReplaceChild(g, c, Some(to)), to, moved + {c})
  {
    var g' := ReplaceChild(g, c, Some(to));
    ReplaceShape(g, c, Some(to));
    forall n | n in g0.nodes ensures NodeKept(g0, g', n) {
      assert NodeKept(g0, g, n);
      ReplaceNode(g, c, Some(to), n);
    }
    forall e | e in g0.edges ensures EdgeMoved(g0, g', to, moved + {c}, e) {
      assert EdgeMoved(g0, g, to, moved, e);
      RedirectKeepsStay(g, c, to, e);
    }
  }

  /** What a replacement leaves on the old node: links that must stay, and links below the replacement. */
  lemma LeftBehind(g0: Graph, g: Graph, from: NodeId, to: NodeId, c: EdgeId)
    requires WellFormed(g0) && WellFormed(g) && from in g0.nodes && from != to
    requires Redirected(g0, g, to, Movable(g0, from, to)) && from in g.nodes && c in g.nodes[from].parents
    ensures c in g.edges && (g.edges[c].stayAtNode || InSubtreeOf(g, c, to))
  {
    assert ParentsOk(g, from) && ParentsOk(g0, from);
    assert EdgeMoved(g0, g, to, Movable(g0, from, to), c);
  }
}
