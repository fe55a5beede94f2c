/**
 Walks along backing and filter links, and the inherits_from fields of block.c.
 */
module BackingChain {
  import opened Options
  import opened BlockGraph
  import opened GraphEdit
  import opened GraphAccounting
  import opened GraphShape
  import opened GraphTransaction
  import opened BlockLayer

  /** bdrv_filter_or_cow_child: the child below a node in its backing chain, if any. */
  function FilterOrCow(g: Graph, n: NodeId): Option<EdgeId>
    requires n in g.nodes
  {
    var node := g.nodes[n];
    if !node.config.open then None
    else if !node.config.isFilter || node.backing.Some? then node.backing
    else node.file
  }

  /** bdrv_filter_or_cow_bs */
  function Below(g: Graph, n: NodeId): Option<NodeId>
    requires n in g.nodes
  {
    var e := FilterOrCow(g, n);
    if e.Some? && e.value in g.edges then g.edges[e.value].bs else None
  }

  lemma BelowIsKid(g: Graph, n: NodeId)
    requires WellFormed(g) && n in g.nodes && FilterOrCow(g, n).Some?
    ensures FilterOrCow(g, n).value in g.nodes[n].children && FilterOrCow(g, n).value in g.edges
    ensures Below(g, n).Some? && Below(g, n).value in g.nodes && Below(g, n).value in Kids(g, n)
  {
    assert ChildrenOk(g, n);
    assert EdgeOk(g, FilterOrCow(g, n).value);
  }

  /** The nodes of the backing chain below n, n first. */
  ghost function Chain(g: Graph, n: NodeId): (s: seq<NodeId>)
    requires WellFormed(g) && Acyclic(g) && n in g.nodes
    ensures forall m :: m in s ==> m in g.nodes && Reaches(g, n, m)
    ensures |s| > 0 && s[0] == n
    decreases Subtree(g, n)
  {
    ReachesSelf(g, n);
    if FilterOrCow(g, n).None? then [n]
    else
      BelowIsKid(g, n);
      var k := Below(g, n).value;
      SubtreeShrinks(g, n, k);
      ChainLink(g, n, k);
      [n] + Chain(g, k)
  }

  lemma ChainLink(g: Graph, n: NodeId, k: NodeId)
    requires k in Kids(g, n)
    ensures forall m :: Reaches(g, k, m) ==> Reaches(g, n, m)
  {
    forall m | Reaches(g, k, m) ensures Reaches(g, n, m) {
      ReachesKid(g, n, k);
      ReachesTrans(g, n, k, m);
    }
  }

  /** The link out of the i-th node of the chain is frozen. */
  ghost predicate FrozenAt(g: Graph, chain: seq<NodeId>, i: nat) {
    && i < |chain| && chain[i] in g.nodes
    && FilterOrCow(g, chain[i]).Some? && FilterOrCow(g, chain[i]).value in g.edges
    && g.edges[FilterOrCow(g, chain[i]).value].frozen
  }

  /** Some link of the chain is frozen, up to the base if there is one. */
  ghost predicate FrozenIn(g: Graph, chain: seq<NodeId>, base: Option<NodeId>) {
    exists i {:trigger FrozenAt(g, chain, i)} :: FrozenAt(g, chain, i) && !Passes(chain, base, i)
  }

  /** The base is among the first i + 1 nodes. */
  ghost predicate Passes(chain: seq<NodeId>, base: Option<NodeId>, i: nat) {
    base.Some? && exists j :: 0 <= j <= i && j < |chain| && chain[j] == base.value
  }

  lemma FrozenCons(g: Graph, n: NodeId, t: seq<NodeId>, base: Option<NodeId>)
    requires base != Some(n)
    ensures FrozenIn(g, [n] + t, base) <==> FrozenAt(g, [n] + t, 0) || FrozenIn(g, t, base)
  {
    var s := [n] + t;
    if FrozenIn(g, t, base) {
      var i: nat :| FrozenAt(g, t, i) && !Passes(t, base, i);
      assert FrozenAt(g, s, i + 1);
      assert forall j :: 0 < j <= i + 1 ==> s[j] == t[j - 1];
    }
    if FrozenIn(g, s, base) && !FrozenAt(g, s, 0) {
      var i: nat :| FrozenAt(g, s, i) && !Passes(s, base, i);
      assert FrozenAt(g, t, i - 1);
      assert forall j :: 0 <= j <= i - 1 ==> t[j] == s[j + 1];
    }
  }

  ghost predicate FrozenDown(g: Graph, n: NodeId, base: Option<NodeId>)
    requires WellFormed(g) && Acyclic(g) && n in g.nodes
  {
    FrozenIn(g, Chain(g, n), base)
  }

  lemma FrozenStep(g: Graph, n: NodeId, base: Option<NodeId>)
    requires WellFormed(g) && Acyclic(g) && n in g.nodes && base != Some(n)
    ensures FilterOrCow(g, n).None? ==> !FrozenDown(g, n, base)
    ensures FilterOrCow(g, n).Some? ==>
      && FilterOrCow(g, n).value in g.edges && Below(g, n).Some? && Below(g, n).value in g.nodes
      && (FrozenDown(g, n, base) <==> g.edges[FilterOrCow(g, n).value].frozen || FrozenDown(g, Below(g, n).value, base))
  {
    if FilterOrCow(g, n).Some? {
      BelowIsKid(g, n);
      FrozenCons(g, n, Chain(g, Below(g, n).value), base);
    } else {
      FrozenCons(g, n, [], base);
      assert [n] + [] == Chain(g, n);
    }
  }

  lemma NotFrozenAtBase(g: Graph, n: NodeId)
    requires WellFormed(g) && Acyclic(g) && n in g.nodes
    ensures !FrozenDown(g, n, Some(n))
  {
    assert Chain(g, n)[0] == n;
  }

  /** bdrv_is_backing_chain_frozen; the base is on the chain, or null. */
  method IsBackingChainFrozen(g: Graph, bs: NodeId, base: Option<NodeId>) returns (frozen: bool)
    requires WellFormed(g) && Acyclic(g) && bs in g.nodes
    requires base.Some? ==> base.value in Chain(g, bs)
    ensures frozen <==> FrozenDown(g, bs, base)
  {
    var i := Some(bs);
    while i != base
      invariant i.None? ==> base.None? && !FrozenDown(g, bs, base)
      invariant i.Some? ==> i.value in g.nodes && (FrozenDown(g, bs, base) <==> FrozenDown(g, i.value, base))
      invariant i.Some? && base.Some? ==> base.value in Chain(g, i.value)
      decreases if i.Some? then Subtree(g, i.value) else {}, i.Some?
    {
      FrozenStep(g, i.value, base);
      var child := FilterOrCow(g, i.value);
      if child.None? {
        i := None;
      } else {
        if g.edges[child.value].frozen {
          return true;
        }
        BelowIsKid(g, i.value);
        SubtreeShrinks(g, i.value, g.edges[child.value].bs.value);
        i := g.edges[child.value].bs;
      }
    }
    if i.Some? {
      NotFrozenAtBase(g, i.value);
    }
    return false;
  }

  /** The loop of bdrv_replace_node_common that finds the node just above `to` in the chain of `from`. */
  method CowParent(g: Graph, from: NodeId, to: NodeId) returns (p: NodeId)
    requires WellFormed(g) && Acyclic(g) && from in g.nodes && from != to && to in Chain(g, from)
    ensures p in g.nodes && p in Chain(g, from) && Below(g, p) == Some(to)
  {
    p := from;
    while Below(g, p) != Some(to)
      invariant p in g.nodes && p != to && to in Chain(g, p)
      invariant forall m :: m in Chain(g, p) ==> m in Chain(g, from)
      decreases Subtree(g, p)
    {
      BelowIsKid(g, p);
      SubtreeShrinks(g, p, Below(g, p).value);
      p := Below(g, p).value;
    }
    assert Chain(g, p)[0] == p;
  }

  /** There is only one such node. */
  lemma CowParentUnique(g: Graph, from: NodeId, to: NodeId, p: NodeId, q: NodeId)
    requires WellFormed(g) && Acyclic(g) && from in g.nodes
    requires p in Chain(g, from) && q in Chain(g, from) && Below(g, p) == Some(to) && Below(g, q) == Some(to)
    ensures p == q
    decreases Subtree(g, from)
  {
    BelowIsKid(g, p);
    BelowIsKid(g, q);
    if FilterOrCow(g, from).Some? {
      BelowIsKid(g, from);
      var k := Below(g, from).value;
      SubtreeShrinks(g, from, k);
      assert Chain(g, from) == [from] + Chain(g, k);
      if p != from && q != from {
        CowParentUnique(g, k, to, p, q);
      }
    }
  }

  /** The link below a node in its chain may be taken away. */
  predicate ChainLinkFree(g: Graph, n: NodeId)
    requires n in g.nodes
  {
    FilterOrCow(g, n).Some? ==> Free(g, FilterOrCow(g, n).value)
  }

  /** The link from the node above `to` in the chain of `from` is frozen. */
  ghost predicate CutIsFrozen(g: Graph, from: NodeId, to: NodeId)
    requires WellFormed(g) && Acyclic(g) && from in g.nodes
  {
    exists p :: p in Chain(g, from) && Below(g, p) == Some(to) && !ChainLinkFree(g, p)
  }

  // --- inherits_from ---

  ghost function ClearInherits(g: Graph, s: set<NodeId>): Graph {
    g.(nodes := map n | n in g.nodes :: if n in s then g.nodes[n].(inheritsFrom := None) else g.nodes[n])
  }

  /** Another edge of root than `top` leads to n. */
  ghost predicate OtherLink(g: Graph, root: NodeId, top: EdgeId, n: NodeId) {
    root in g.nodes && exists c :: c in g.nodes[root].children && c != top && c in g.edges && g.edges[c].bs == Some(n)
  }

  /** The nodes below t that lose their inherits_from link to root when root's edge `top` goes away. */
  ghost function Orphans(g: Graph, root: NodeId, top: EdgeId, t: NodeId): set<NodeId> {
    set n | n in g.nodes && Reaches(g, t, n) && g.nodes[n].inheritsFrom == Some(root) && !OtherLink(g, root, top, n)
  }

  lemma ClearedNode(g: Graph, s: set<NodeId>, n: NodeId)
    requires n in g.nodes
    ensures n in ClearInherits(g, s).nodes
    ensures ClearInherits(g, s).nodes[n] == if n in s then g.nodes[n].(inheritsFrom := None) else g.nodes[n]
  {
  }

  lemma ClearOneMore(g: Graph, s: set<NodeId>, n: NodeId)
    requires n in g.nodes
    ensures SetInherits(ClearInherits(g, s), n, None) == ClearInherits(g, s + {n})
  {
    assert SetInherits(ClearInherits(g, s), n, None).nodes == ClearInherits(g, s + {n}).nodes;
  }

  lemma ClearNone(g: Graph)
    ensures ClearInherits(g, {}) == g
  {
    assert ClearInherits(g, {}).nodes == g.nodes;
  }

  /** Orphans below t: t itself or an orphan below one of its children. */
  lemma OrphansDown(g: Graph, root: NodeId, top: EdgeId, t: NodeId, k: NodeId)
    requires k in Kids(g, t)
    ensures Orphans(g, root, top, k) <= Orphans(g, root, top, t)
  {
    ChainLink(g, t, k);
  }

  lemma OrphansAll(g: Graph, root: NodeId, top: EdgeId, t: NodeId, acc: set<NodeId>)
    requires t in Orphans(g, root, top, t) ==> t in acc
    requires forall k :: k in Kids(g, t) ==> Orphans(g, root, top, k) <= acc
    ensures Orphans(g, root, top, t) <= acc
  {
    forall n | n in Orphans(g, root, top, t) ensures n in acc {
      if n != t {
        var k := FirstLink(g, t, n);
        assert n in Orphans(g, root, top, k);
      }
    }
  }

  /** An edge lies at or below root's edge `top`. */
  ghost predicate UnderTop(g: Graph, root: NodeId, top: EdgeId, e: EdgeId) {
    && root in g.nodes && top in g.nodes[root].children && top in g.edges && g.edges[top].bs.Some?
    && e in g.edges && g.edges[e].bs.Some? && g.edges[e].bs.value in g.nodes
    && Reaches(g, g.edges[top].bs.value, g.edges[e].bs.value)
    && (e != top ==> e !in g.nodes[root].children && g.edges[e].bs != g.edges[top].bs)
  }

  lemma UnderTopDown(g: Graph, root: NodeId, top: EdgeId, e: EdgeId, c: EdgeId)
    requires WellFormed(g) && Acyclic(g) && UnderTop(g, root, top, e) && c in g.nodes[g.edges[e].bs.value].children
    ensures UnderTop(g, root, top, c) && g.edges[c].bs.value in Kids(g, g.edges[e].bs.value)
  {
    var t := g.edges[e].bs.value;
    var tt := g.edges[top].bs.value;
    assert ChildrenOk(g, t) && ChildrenOk(g, root) && EdgeOk(g, c);
    assert tt in Kids(g, root);
    ReachesDown(g, tt, t, g.edges[c].bs.value);
  }

  /** The search loop of bdrv_unset_inherits_from. */
  method FindOtherLink(g: Graph, root: NodeId, e: EdgeId) returns (found: bool)
    requires WellFormed(g) && root in g.nodes && e in g.edges && g.edges[e].bs.Some?
    ensures found <==> OtherLink(g, root, e, g.edges[e].bs.value)
  {
    var rest := g.nodes[root].children;
    assert ChildrenOk(g, root);
    while rest != {}
      invariant rest <= g.nodes[root].children
      invariant forall c :: c in g.nodes[root].children - rest ==> c == e || g.edges[c].bs != g.edges[e].bs
      decreases rest
    {
      var c :| c in rest;
      if c != e && g.edges[c].bs == g.edges[e].bs {
        return true;
      }
      rest := rest - {c};
    }
    return false;
  }

  lemma OtherLinkSame(g0: Graph, s: set<NodeId>, root: NodeId, top: EdgeId, e: EdgeId)
    requires UnderTop(g0, root, top, e)
    ensures OtherLink(ClearInherits(g0, s), root, e, g0.edges[e].bs.value) <==>
      OtherLink(g0, root, top, g0.edges[e].bs.value)
  {
    ClearedNode(g0, s, root);
  }

  /** bdrv_unset_inherits_from: clears exactly the inherits_from fields of the orphans below the edge. */
  method UnsetInheritsFrom(layer: Layer, tran: Transaction, root: NodeId, child: EdgeId,
                           ghost top: EdgeId, ghost g0: Graph, ghost done: set<NodeId>, ghost base: Graph,
                           ghost ext: Outside)
    requires WellFormed(g0) && Acyclic(g0) && UnderTop(g0, root, top, child)
    requires layer.g == ClearInherits(g0, done) && Underway(layer.g, tran.log, base, ext)
    modifies layer, tran
    ensures layer.g == ClearInherits(g0, done + Orphans(g0, root, top, g0.edges[child].bs.value))
    ensures Underway(layer.g, tran.log, base, ext)
    decreases Subtree(g0, g0.edges[child].bs.value)
  {
    var t := layer.g.edges[child].bs.value;
    ghost var all, acc := Orphans(g0, root, top, t), done;
    ClearedNode(g0, done, t);
    if layer.g.nodes[t].inheritsFrom == Some(root) {
      ClearedNode(g0, done, root);
      OtherLinkSame(g0, done, root, top, child);
      var other := FindOtherLink(layer.g, root, child);
      if !other {
        ReachesSelf(g0, t);
        InheritsUnderway(layer.g, tran.log, base, ext, t, None);
        ClearOneMore(g0, done, t);
        tran.log := tran.log + [UndoInherits(t, layer.g.nodes[t].inheritsFrom)];
        layer.g := SetInherits(layer.g, t, None);
        acc := acc + {t};
      }
    }
    ClearedNode(g0, acc, t);
    var rest := layer.g.nodes[t].children;
    while rest != {}
      invariant layer.g == ClearInherits(g0, acc) && Underway(layer.g, tran.log, base, ext)
      invariant rest <= g0.nodes[t].children && done <= acc <= done + all
      invariant t in all ==> t in acc
      invariant forall c :: c in g0.nodes[t].children - rest && c in g0.edges && g0.edges[c].bs.Some? ==>
        Orphans(g0, root, top, g0.edges[c].bs.value) <= acc
      decreases rest
    {
      var c :| c in rest;
      UnderTopDown(g0, root, top, child, c);
      SubtreeShrinks(g0, t, g0.edges[c].bs.value);
      OrphansDown(g0, root, top, t, g0.edges[c].bs.value);
      UnsetInheritsFrom(layer, tran, root, c, top, g0, acc, base, ext);
      acc := acc + Orphans(g0, root, top, g0.edges[c].bs.value);
      rest := rest - {c};
    }
    OrphansAll(g0, root, top, t, acc);
    assert acc == done + all;
  }
}
