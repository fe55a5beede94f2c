/**
 bdrv_topological_dfs: the order in which permissions are refreshed.
 */
module TopologicalOrder {
  import opened Options
  import opened BlockGraph

  ghost function Elems(list: seq<NodeId>): set<NodeId> {
    set n | n in list
  }

  ghost predicate NoDuplicates(list: seq<NodeId>) {
    forall i, j :: 0 <= i < j < |list| ==> list[i] != list[j]
  }

  /** Every listed node comes before every listed child of it. */
  ghost predicate Sorted(g: Graph, list: seq<NodeId>) {
    forall i, j :: 0 <= i < |list| && 0 <= j < |list| && list[j] in Kids(g, list[i]) ==> i < j
  }

  /** With a node the list contains its whole subtree. */
  ghost predicate SubtreeClosed(g: Graph, list: seq<NodeId>) {
    forall n :: n in list ==> n in g.nodes && Kids(g, n) <= Elems(list)
  }

  ghost predicate Ordered(g: Graph, list: seq<NodeId>) {
    NoDuplicates(list) && Sorted(g, list) && SubtreeClosed(g, list)
  }

  /** Putting a node in front of a list that holds its children and nothing above it. */
  lemma PrependKeepsOrder(g: Graph, list: seq<NodeId>, bs: NodeId)
    requires Ordered(g, list) && bs !in list && bs in g.nodes
    requires Kids(g, bs) <= Elems(list) && bs !in Kids(g, bs)
    ensures Ordered(g, [bs] + list)
  {
    var r := [bs] + list;
    assert Elems(r) == {bs} + Elems(list);
    forall i, j | 0 <= i < |r| && 0 <= j < |r| && r[j] in Kids(g, r[i]) ensures i < j {
      if i > 0 {
        assert r[i] == list[i - 1];
        assert r[j] in Elems(list);
        assert r[j] == list[j - 1];
      }
    }
  }

  lemma ListHoldsSubtree(g: Graph, list: seq<NodeId>, a: NodeId, b: NodeId)
    requires SubtreeClosed(g, list) && a in list && Reaches(g, a, b)
    ensures b in list
  {
    ClosedContains(g, Elems(list), a, b);
  }

  /** The new entries of a call: they stand in front and are the part of the subtree not listed before. */
  ghost predicate Extends(g: Graph, list: seq<NodeId>, list': seq<NodeId>, roots: set<NodeId>) {
    && |list| <= |list'| && list'[|list'| - |list|..] == list
    && (forall n :: n in list' <==> n in list || exists r :: r in roots && Reaches(g, r, n))
  }

  lemma ExtendsMore(g: Graph, l0: seq<NodeId>, l1: seq<NodeId>, l2: seq<NodeId>, roots: set<NodeId>, r: NodeId)
    requires Extends(g, l0, l1, roots) && Extends(g, l1, l2, {r})
    ensures Extends(g, l0, l2, roots + {r})
  {
    assert l2[|l2| - |l0|..] == l2[|l2| - |l1|..][|l1| - |l0|..];
    forall n ensures n in l2 <==> n in l0 || exists q :: q in roots + {r} && Reaches(g, q, n) {
      if n in l2 && n !in l1 {
        assert Reaches(g, r, n);
      }
    }
  }

  lemma ExtendsByRoot(g: Graph, list: seq<NodeId>, l1: seq<NodeId>, bs: NodeId)
    requires Extends(g, list, l1, Kids(g, bs))
    ensures Extends(g, list, [bs] + l1, {bs})
  {
    var r := [bs] + l1;
    assert r[|r| - |list|..] == l1[|l1| - |list|..];
    forall n ensures n in r <==> n in list || Reaches(g, bs, n) {
      ReachesSelf(g, bs);
      if Reaches(g, bs, n) && n != bs {
        var k := FirstLink(g, bs, n);
      }
      if n in l1 && n !in list {
        var k :| k in Kids(g, bs) && Reaches(g, k, n);
        ReachesKid(g, bs, k);
        ReachesTrans(g, bs, k, n);
      }
    }
  }

  /** Nodes entered but not yet listed are proper ancestors of the node being visited. */
  ghost predicate OpenAbove(g: Graph, found: set<NodeId>, list: seq<NodeId>, bs: NodeId) {
    forall s :: s in found && s !in list ==> s != bs && Reaches(g, s, bs)
  }

  lemma OpenAboveChild(g: Graph, found: set<NodeId>, list: seq<NodeId>, bs: NodeId, k: NodeId)
    requires Acyclic(g) && k in Kids(g, bs)
    requires forall s :: s in found && s !in list ==> Reaches(g, s, bs)
    ensures OpenAbove(g, found, list, k)
  {
    forall s | s in found && s !in list ensures s != k && Reaches(g, s, k) {
      ReachesDown(g, s, bs, k);
    }
  }

  lemma Absorb(found: set<NodeId>, list: seq<NodeId>)
    requires Elems(list) <= found
    ensures found + Elems(list) == found
  {
  }

  lemma AbsorbMore(base: set<NodeId>, l1: seq<NodeId>, l2: seq<NodeId>, f1: set<NodeId>, f2: set<NodeId>)
    requires f1 == base + Elems(l1) && f2 == f1 + Elems(l2) && Elems(l1) <= Elems(l2)
    ensures f2 == base + Elems(l2)
  {
  }

  lemma Absorb3(found: set<NodeId>, list: seq<NodeId>, bs: NodeId)
    requires Elems([bs] + list) == {bs} + Elems(list)
    ensures found + Elems([bs] + list) == found + {bs} + Elems(list)
  {
  }

  lemma FewerLeft(all: set<NodeId>, found: set<NodeId>, found': set<NodeId>, bs: NodeId)
    requires bs in all && bs !in found && found + {bs} <= found'
    ensures all - found' < all - found
  {
    assert bs in all - found;
  }

  /** The visit of bs ends by putting it in front of the list that now holds its subtrees. */
  lemma CloseVisit(g: Graph, list: seq<NodeId>, l1: seq<NodeId>, bs: NodeId)
    requires Acyclic(g) && bs in g.nodes && bs !in l1
    requires Ordered(g, l1) && Extends(g, list, l1, Kids(g, bs))
    ensures Ordered(g, [bs] + l1) && Extends(g, list, [bs] + l1, {bs})
    ensures Elems([bs] + l1) == {bs} + Elems(l1)
  {
    ReachesSelf(g, bs);
    forall k | k in Kids(g, bs) ensures k in Elems(l1) {
      ReachesSelf(g, k);
    }
    PrependKeepsOrder(g, l1, bs);
    ExtendsByRoot(g, list, l1, bs);
  }

  lemma AlreadyListed(g: Graph, list: seq<NodeId>, bs: NodeId)
    requires SubtreeClosed(g, list) && bs in list
    ensures Extends(g, list, list, {bs})
  {
    forall n | Reaches(g, bs, n) ensures n in list {
      ListHoldsSubtree(g, list, bs, n);
    }
  }

  ghost function Targets(g: Graph, es: set<EdgeId>): set<NodeId> {
    set e | e in es && e in g.edges && g.edges[e].bs.Some? :: g.edges[e].bs.value
  }

  lemma TargetsAdd(g: Graph, es: set<EdgeId>, e: EdgeId)
    requires e in g.edges && g.edges[e].bs.Some?
    ensures Targets(g, es + {e}) == Targets(g, es) + {g.edges[e].bs.value}
  {
  }

  /** One child done: what was listed for the others plus the subtree of this one. */
  lemma ChildVisited(g: Graph, list: seq<NodeId>, l1: seq<NodeId>, l2: seq<NodeId>,
                     bs: NodeId, done: set<EdgeId>, e: EdgeId)
    requires Acyclic(g) && bs !in l1 && e in g.edges && g.edges[e].bs.Some? && g.edges[e].bs.value in Kids(g, bs)
    requires Extends(g, list, l1, Targets(g, done)) && Extends(g, l1, l2, {g.edges[e].bs.value})
    ensures Extends(g, list, l2, Targets(g, done + {e})) && bs !in l2
    ensures Elems(l1) <= Elems(l2)
  {
    TargetsAdd(g, done, e);
    ExtendsMore(g, list, l1, l2, Targets(g, done), g.edges[e].bs.value);
  }

  /**
   bdrv_topological_dfs.  For an acyclic graph and an ordered list, the result is an ordered list
   that holds exactly the old entries, still at its end, and everything reachable from bs; `found`
   grows by the new entries, so calls that share it compose.
   */
  method Dfs(g: Graph, list: seq<NodeId>, found: set<NodeId>, bs: NodeId)
    returns (list': seq<NodeId>, found': set<NodeId>)
    requires WellFormed(g) && Acyclic(g) && bs in g.nodes
    requires Ordered(g, list) && Elems(list) <= found && found <= g.nodes.Keys
    requires OpenAbove(g, found, list, bs)
    ensures Ordered(g, list') && Extends(g, list, list', {bs})
    ensures found' == found + Elems(list') && found' <= g.nodes.Keys
    decreases g.nodes.Keys - found
  {
    if bs in found {
      AlreadyListed(g, list, bs);
      Absorb(found, list);
      return list, found;
    }
    found' := found + {bs};
    list' := list;
    ghost var done: set<EdgeId> := {};
    var rest := g.nodes[bs].children;
    while rest != {}
      invariant g.nodes[bs].children == done + rest
      invariant Ordered(g, list') && Extends(g, list, list', Targets(g, done)) && bs !in list'
      invariant found' == found + {bs} + Elems(list') && found' <= g.nodes.Keys
      decreases rest
    {
      var e :| e in rest;
      rest := rest - {e};
      assert ChildrenOk(g, bs) && EdgeOk(g, e);
      var k := g.edges[e].bs.value;
      assert k in Kids(g, bs);
      ReachesSelf(g, bs);
      OpenAboveChild(g, found', list', bs, k);
      FewerLeft(g.nodes.Keys, found, found', bs);
      ghost var before, table := list', found';
      list', found' := Dfs(g, list', found', k);
      ChildVisited(g, list, before, list', bs, done, e);
      AbsorbMore(found + {bs}, before, list', table, found');
      done := done + {e};
    }
    assert Targets(g, done) == Kids(g, bs);
    CloseVisit(g, list, list', bs);
    Absorb3(found, list', bs);
    list' := [bs] + list';
  }

  /** A first call, with no list and no table of found nodes. */
  method TopologicalDfs(g: Graph, bs: NodeId) returns (list: seq<NodeId>)
    requires WellFormed(g) && Acyclic(g) && bs in g.nodes
    ensures Ordered(g, list)
    ensures forall n :: n in list <==> Reaches(g, bs, n)
  {
    var found;
    list, found := Dfs(g, [], {}, bs);
  }

  /** Two calls that share the table: the order refreshed after a node replacement. */
  method TopologicalDfsTwo(g: Graph, a: NodeId, b: NodeId) returns (list: seq<NodeId>)
    requires WellFormed(g) && Acyclic(g) && a in g.nodes && b in g.nodes
    ensures Ordered(g, list)
    ensures forall n :: n in list <==> Reaches(g, a, n) || Reaches(g, b, n)
  {
    var found;
    list, found := Dfs(g, [], {}, a);
    list, found := Dfs(g, list, found, b);
  }
}
