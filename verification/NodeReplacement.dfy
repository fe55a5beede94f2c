/**
 should_update_child and bdrv_replace_node_noperm (block.c): redirecting the users of one node to
 another without closing a cycle.
 */
module NodeReplacement {
  import opened Options
  import opened BlockGraph
  import opened GraphEdit
  import opened GraphAccounting
  import opened GraphShape

  /** The edge belongs to `to` or to a node below it. */
  ghost predicate InSubtreeOf(g: Graph, c: EdgeId, to: NodeId) {
    exists n :: n in g.nodes && c in g.nodes[n].children && Reaches(g, to, n)
  }

  /** The edges that must keep pointing where they point when their node is replaced by `to`. */
  ghost predicate MustStay(g: Graph, c: EdgeId, to: NodeId)
    requires c in g.edges
  {
    g.edges[c].stayAtNode || InSubtreeOf(g, c, to)
  }

  /** The search has looked at v: c is not among its children, and they are all queued or done. */
  ghost predicate LookedAt(g: Graph, v: NodeId, c: EdgeId, found: set<NodeId>) {
    v in g.nodes && c !in g.nodes[v].children && Kids(g, v) <= found
  }

  ghost predicate SearchInv(g: Graph, c: EdgeId, to: NodeId, found: set<NodeId>, queue: seq<NodeId>) {
    && to in found && found <= g.nodes.Keys
    && (forall n :: n in found ==> Reaches(g, to, n))
    && (forall i :: 0 <= i < |queue| ==> queue[i] in found)
    && (forall v :: v in found && v !in queue ==> LookedAt(g, v, c, found))
  }

  lemma SearchStart(g: Graph, c: EdgeId, to: NodeId)
    requires to in g.nodes
    ensures SearchInv(g, c, to, {to}, [to])
  {
    ReachesSelf(g, to);
  }

  /** An exhausted search has seen the whole subtree. */
  lemma SearchDone(g: Graph, c: EdgeId, to: NodeId, found: set<NodeId>)
    requires SearchInv(g, c, to, found, [])
    ensures !InSubtreeOf(g, c, to)
  {
    if InSubtreeOf(g, c, to) {
      var n :| n in g.nodes && c in g.nodes[n].children && Reaches(g, to, n);
      forall v | v in found ensures Kids(g, v) <= found && c !in g.nodes[v].children {
        assert LookedAt(g, v, c, found);
      }
      ClosedContains(g, found, to, n);
    }
  }

  /** Looking at the head of the queue puts its unseen children at the end. */
  lemma SearchStep(g: Graph, c: EdgeId, to: NodeId, f0: set<NodeId>, q0: seq<NodeId>, f1: set<NodeId>,
      more: seq<NodeId>)
    requires |q0| > 0 && SearchInv(g, c, to, f0, q0)
    requires f0 <= f1 <= g.nodes.Keys && f1 <= f0 + Kids(g, q0[0])
    requires forall n :: n in f1 && n !in f0 ==> n in more
    requires forall i :: 0 <= i < |more| ==> more[i] in f1
    requires LookedAt(g, q0[0], c, f1)
    ensures SearchInv(g, c, to, f1, q0[1..] + more)
  {
    var q1 := q0[1..] + more;
    forall n | n in f1 ensures Reaches(g, to, n) {
      if n !in f0 { ReachesDown(g, to, q0[0], n); }
    }
    forall v | v in f1 && v !in q1 ensures LookedAt(g, v, c, f1) {
      assert v in f0;
      if v != q0[0] {
        assert v !in q0;
        assert LookedAt(g, v, c, f0);
      }
    }
  }

  /**
   should_update_child: a breadth-first search of the subtree of `to`.  It answers no exactly for the
   edges that must stay.
   */
  method ShouldUpdateChild(g: Graph, c: EdgeId, to: NodeId) returns (ret: bool)
    requires WellFormed(g) && c in g.edges && to in g.nodes
    ensures ret <==> !MustStay(g, c, to)
  {
    if g.edges[c].stayAtNode {
      return false;
    }
    ret := true;
    var found := {to};
    var queue := [to];
    SearchStart(g, c, to);
    while queue != []
      invariant ret ==> SearchInv(g, c, to, found, queue)
      invariant !ret ==> InSubtreeOf(g, c, to)
      invariant found <= g.nodes.Keys
      invariant forall i :: 0 <= i < |queue| ==> queue[i] in found
      decreases g.nodes.Keys - found, |queue|
    {
      ghost var f0, q0 := found, queue;
      var v := queue[0];
      var more;
      var hit;
      found, more, hit := VisitChildren(g, c, v, found);
      queue := queue[1..] + more;
      if hit && ret {
        assert Reaches(g, to, v);
        ret := false;
      } else if ret {
        SearchStep(g, c, to, f0, q0, found, more);
      }
    }
    if ret {
      SearchDone(g, c, to, found);
    }
  }

  /** The inner loop: the children of one node, up to the edge searched for. */
  method VisitChildren(g: Graph, c: EdgeId, v: NodeId, found: set<NodeId>)
    returns (found': set<NodeId>, more: seq<NodeId>, hit: bool)
    requires WellFormed(g) && v in g.nodes && found <= g.nodes.Keys
    ensures found <= found' <= g.nodes.Keys && found' <= found + Kids(g, v)
    ensures forall n :: n in found' && n !in found ==> n in more
    ensures forall i :: 0 <= i < |more| ==> more[i] in found'
    ensures found' == found ==> more == []
    ensures hit ==> c in g.nodes[v].children
    ensures !hit ==> LookedAt(g, v, c, found')
  {
    found', more, hit := found, [], false;
    var rest := g.nodes[v].children;
    assert ChildrenOk(g, v);
    while rest != {}
      invariant rest <= g.nodes[v].children && !hit
      invariant c in g.nodes[v].children ==> c in rest
      invariant forall e :: e in g.nodes[v].children && e !in rest ==> g.edges[e].bs.value in found'
      invariant found <= found' <= g.nodes.Keys && found' <= found + Kids(g, v)
      invariant forall n :: n in found' && n !in found ==> n in more
      invariant forall i :: 0 <= i < |more| ==> more[i] in found'
      invariant found' == found ==> more == []
      decreases rest
    {
      var c2 :| c2 in rest;
      rest := rest - {c2};
      if c2 == c {
        hit := true;
        break;
      }
      assert EdgeOk(g, c2);
      var k := g.edges[c2].bs.value;
      assert k in Kids(g, v);
      if k !in found' {
        more := more + [k];
        found' := found' + {k};
      }
    }
  }

  // --- Redirecting one edge ---

  /** If no node below `to` changes its children, the subtree of `to` stays what it was. */
  lemma SubtreeUnchanged(g: Graph, g': Graph, to: NodeId, n: NodeId)
    requires forall m :: Reaches(g, to, m) ==> Kids(g', m) == Kids(g, m)
    ensures Reaches(g', to, n) <==> Reaches(g, to, n)
  {
    if Reaches(g, to, n) {
      var p :| PathFromTo(g, p, to, n);
      forall i | 0 < i < |p| ensures p[i] in Kids(g', p[i - 1]) {
        PrefixReaches(g, p, to, i - 1);
      }
      assert PathFromTo(g', p, to, n);
    }
    if Reaches(g', to, n) {
      var p :| PathFromTo(g', p, to, n);
      PathBelowUnchanged(g, g', to, p);
    }
  }

  lemma PrefixReaches(g: Graph, p: seq<NodeId>, a: NodeId, i: nat)
    requires IsPath(g, p) && p[0] == a && i < |p|
    ensures Reaches(g, a, p[i])
  {
    assert PathFromTo(g, p[..i + 1], a, p[i]);
  }

  lemma {:induction false} PathBelowUnchanged(g: Graph, g': Graph, to: NodeId, p: seq<NodeId>)
    requires forall m :: Reaches(g, to, m) ==> Kids(g', m) == Kids(g, m)
    requires IsPath(g', p) && p[0] == to
    ensures Reaches(g, to, p[|p| - 1])
    decreases |p|
  {
    if |p| == 1 {
      ReachesSelf(g, to);
    } else {
      assert IsPath(g', p[..|p| - 1]);
      PathBelowUnchanged(g, g', to, p[..|p| - 1]);
      ReachesDown(g, to, p[|p| - 2], p[|p| - 1]);
    }
  }

  lemma HolderNotBelow(g: Graph, e: EdgeId, to: NodeId)
    requires WellFormed(g) && e in g.edges && g.edges[e].bs.Some? && !InSubtreeOf(g, e, to)
    requires g.edges[e].holder.HeldByNode?
    ensures !Reaches(g, to, g.edges[e].holder.node)
  {
    assert EdgeOk(g, e);
  }

  /** Redirecting an edge that need not stay keeps the graph acyclic. */
  lemma RedirectAcyclic(g: Graph, e: EdgeId, to: NodeId)
    requires WellFormed(g) && Acyclic(g) && Free(g, e) && g.edges[e].bs.Some? && !InSubtreeOf(g, e, to)
    ensures Acyclic(ReplaceChild(g, e, Some(to)))
  {
    var g' := ReplaceChild(g, e, Some(to));
    forall n ensures
      Kids(g', n) <= Kids(g, n) + {to} && (g.edges[e].holder != HeldByNode(n) ==> Kids(g', n) == Kids(g, n))
    {
      ReplaceKids(g, e, to, n);
    }
    if g.edges[e].holder.HeldByNode? {
      HolderNotBelow(g, e, to);
      NewLinkAcyclic(g, g', g.edges[e].holder.node, to);
    } else {
      FewerLinksAcyclic(g, g');
    }
  }

  /** Redirecting such an edge does not change which edges must stay. */
  lemma RedirectKeepsStay(g: Graph, e: EdgeId, to: NodeId, c: EdgeId)
    requires WellFormed(g) && Free(g, e) && g.edges[e].bs.Some? && !InSubtreeOf(g, e, to) && c in g.edges
    ensures c in ReplaceChild(g, e, Some(to)).edges
    ensures MustStay(ReplaceChild(g, e, Some(to)), c, to) <==> MustStay(g, c, to)
  {
    var g' := ReplaceChild(g, e, Some(to));
    ReplaceShape(g, e, Some(to));
    forall m | Reaches(g, to, m) ensures Kids(g', m) == Kids(g, m) {
      if g.edges[e].holder == HeldByNode(m) {
        HolderNotBelow(g, e, to);
      }
      ReplaceKids(g, e, to, m);
    }
    forall n | n in g.nodes
      ensures (c in g'.nodes[n].children && Reaches(g', to, n)) <==> (c in g.nodes[n].children && Reaches(g, to, n))
    {
      SubtreeUnchanged(g, g', to, n);
      ReplaceNode(g, e, Some(to), n);
    }
  }
}
