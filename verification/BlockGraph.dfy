/**
 The graph of block nodes (block.c): BlockDriverStates joined by BdrvChild edges.

 A graph is a value here; the classes that edit it in place hold one and reassign it.  Parent and
 child lists are sets: rolling a change back re-inserts an edge at the head of its lists, so their
 order is not something the source restores.
 */
module BlockGraph {
  import opened Options

  type NodeId = nat
  type EdgeId = nat

  /** BLK_PERM_* */
  datatype Perm = ConsistentRead | Write | WriteUnchanged | Resize | GraphMod

  type Perms = set<Perm>

  const ALL_PERMS: Perms := {ConsistentRead, Write, WriteUnchanged, Resize, GraphMod}

  /** BDRV_CHILD_* */
  datatype Role = Role(data: bool, metadata: bool, filtered: bool, cow: bool)

  /** Who holds an edge: another node, or a user outside the graph such as a guest device or a job. */
  datatype Holder = HeldByNode(node: NodeId) | HeldOutside

  /** BdrvChild; `bs` is None while the edge is detached. */
  datatype Edge = Edge(
    bs: Option<NodeId>,
    holder: Holder,
    perm: Perms,
    shared: Perms,
    role: Role,
    stayAtNode: bool,
    frozen: bool)

  /** The fields of a node that no operation modelled here changes. */
  datatype Config = Config(
    open: bool,          // drv != NULL
    isFilter: bool,      // drv->is_filter
    writable: bool,      // BDRV_O_RDWR set, BDRV_O_INACTIVE clear
    inactive: bool,      // BDRV_O_INACTIVE
    noIo: bool,          // BDRV_O_NO_IO
    forceShare: bool,    // force_share
    sizeAligned: bool)   // the image size is a multiple of the request alignment

  datatype Node = Node(
    children: set<EdgeId>,
    parents: set<EdgeId>,
    backing: Option<EdgeId>,
    file: Option<EdgeId>,
    inheritsFrom: Option<NodeId>,
    refcnt: int,
    config: Config)

  datatype Graph = Graph(nodes: map<NodeId, Node>, edges: map<EdgeId, Edge>)

  // --- Well-formedness: child->bs, the parent lists and the child lists agree ---

  ghost predicate ChildrenOk(g: Graph, n: NodeId)
    requires n in g.nodes
  {
    && (forall e :: e in g.nodes[n].children ==>
          e in g.edges && g.edges[e].holder == HeldByNode(n) && g.edges[e].bs.Some?)
    && (g.nodes[n].backing.Some? ==> g.nodes[n].backing.value in g.nodes[n].children)
    && (g.nodes[n].file.Some? ==> g.nodes[n].file.value in g.nodes[n].children)
  }

  ghost predicate ParentsOk(g: Graph, n: NodeId)
    requires n in g.nodes
  {
    forall e :: e in g.nodes[n].parents <==> e in g.edges && g.edges[e].bs == Some(n)
  }

  ghost predicate EdgeOk(g: Graph, e: EdgeId)
    requires e in g.edges
  {
    var c := g.edges[e];
    c.bs.Some? ==>
      && c.bs.value in g.nodes
      && (c.holder.HeldByNode? ==> c.holder.node in g.nodes && e in g.nodes[c.holder.node].children)
  }

  ghost predicate WellFormed(g: Graph) {
    && (forall n {:trigger ChildrenOk(g, n)} {:trigger ParentsOk(g, n)} :: n in g.nodes ==>
      ChildrenOk(g, n) && ParentsOk(g, n))
    && (forall e {:trigger EdgeOk(g, e)} :: e in g.edges ==> EdgeOk(g, e))
  }

  // --- Reachability along child links ---

  /** The nodes one link below n. */
  ghost function Kids(g: Graph, n: NodeId): set<NodeId> {
    if n !in g.nodes then {}
    else set e | e in g.nodes[n].children && e in g.edges && g.edges[e].bs.Some? :: g.edges[e].bs.value
  }

  ghost predicate IsPath(g: Graph, p: seq<NodeId>) {
    && |p| > 0
    && forall i :: 0 < i < |p| ==> p[i] in Kids(g, p[i - 1])
  }

  ghost predicate PathFromTo(g: Graph, p: seq<NodeId>, a: NodeId, b: NodeId) {
    IsPath(g, p) && p[0] == a && p[|p| - 1] == b
  }

  /** b is in the subtree of a, which contains a itself. */
  ghost predicate Reaches(g: Graph, a: NodeId, b: NodeId) {
    exists p :: PathFromTo(g, p, a, b)
  }

  ghost predicate Acyclic(g: Graph) {
    forall a, b :: b in Kids(g, a) ==> !Reaches(g, b, a)
  }

  lemma ReachesSelf(g: Graph, a: NodeId)
    ensures Reaches(g, a, a)
  {
    assert PathFromTo(g, [a], a, a);
  }

  lemma ReachesTrans(g: Graph, a: NodeId, b: NodeId, c: NodeId)
    requires Reaches(g, a, b) && Reaches(g, b, c)
    ensures Reaches(g, a, c)
  {
    var p :| PathFromTo(g, p, a, b);
    var q :| PathFromTo(g, q, b, c);
    var r := p + q[1..];
    forall i | 0 < i < |r| ensures r[i] in Kids(g, r[i - 1]) {
      if i >= |p| {
        assert r[i] == q[i - |p| + 1] && r[i - 1] == q[i - |p|];
      }
    }
    assert PathFromTo(g, r, a, c);
  }

  lemma ReachesKid(g: Graph, a: NodeId, b: NodeId)
    requires b in Kids(g, a)
    ensures Reaches(g, a, b)
  {
    assert PathFromTo(g, [a, b], a, b);
  }

  lemma ReachesDown(g: Graph, a: NodeId, b: NodeId, c: NodeId)
    requires Reaches(g, a, b) && c in Kids(g, b)
    ensures Reaches(g, a, c)
  {
    ReachesKid(g, b, c);
    ReachesTrans(g, a, b, c);
  }

  /** A node in the subtree of a is a itself or lies below one of its children. */
  lemma FirstLink(g: Graph, a: NodeId, b: NodeId) returns (k: NodeId)
    requires Reaches(g, a, b) && a != b
    ensures k in Kids(g, a) && Reaches(g, k, b)
  {
    var p :| PathFromTo(g, p, a, b);
    k := p[1];
    assert p[1] in Kids(g, p[0]);
    var q := p[1..];
    forall i | 0 < i < |q| ensures q[i] in Kids(g, q[i - 1]) {
      assert p[i + 1] in Kids(g, p[i]);
    }
    assert PathFromTo(g, q, k, b);
  }

  /** A set that contains a and is closed under child links contains the subtree of a. */
  lemma ClosedContains(g: Graph, s: set<NodeId>, a: NodeId, b: NodeId)
    requires a in s && Reaches(g, a, b)
    requires forall n :: n in s ==> Kids(g, n) <= s
    ensures b in s
  {
    var p :| PathFromTo(g, p, a, b);
    var i := 0;
    while i < |p| - 1
      invariant 0 <= i < |p| && p[i] in s
    {
      assert p[i + 1] in Kids(g, p[i]);
      i := i + 1;
    }
  }

  lemma KidsInGraph(g: Graph, a: NodeId, b: NodeId)
    requires WellFormed(g) && b in Kids(g, a)
    ensures a in g.nodes && b in g.nodes
  {
    var e :| e in g.nodes[a].children && e in g.edges && g.edges[e].bs == Some(b);
    assert EdgeOk(g, e);
  }

  lemma ReachesInGraph(g: Graph, a: NodeId, b: NodeId)
    requires WellFormed(g) && Reaches(g, a, b) && a in g.nodes
    ensures b in g.nodes
  {
    forall n | n in g.nodes.Keys ensures Kids(g, n) <= g.nodes.Keys {
      forall k | k in Kids(g, n) ensures k in g.nodes.Keys {
        KidsInGraph(g, n, k);
      }
    }
    ClosedContains(g, g.nodes.Keys, a, b);
  }

  /** The subtree of a as a set of nodes. */
  ghost function Subtree(g: Graph, a: NodeId): set<NodeId> {
    set n | n in g.nodes && Reaches(g, a, n)
  }

  /** In an acyclic graph the subtree of a child is strictly smaller. */
  lemma SubtreeShrinks(g: Graph, a: NodeId, k: NodeId)
    requires Acyclic(g) && k in Kids(g, a)
    ensures Subtree(g, k) < Subtree(g, a)
  {
    forall n | n in Subtree(g, k) ensures n in Subtree(g, a) {
      ReachesKid(g, a, k);
      ReachesTrans(g, a, k, n);
    }
    ReachesSelf(g, a);
    assert a in Subtree(g, a) && a !in Subtree(g, k);
  }
}
