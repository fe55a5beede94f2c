/**
 Permissions in the block graph (block.c): the default rules by which a node derives what it asks of
 its children, and the refresh of a whole subtree.
 */
module Permissions {
  import opened BlockGraph
  import opened TopologicalOrder

  // --- The default rules (bdrv_default_perms and the rules it dispatches to) ---

  /** What an edge takes, and what it lets other users of the same node take. */
  datatype Rights = Rights(perm: Perms, shared: Perms)

  const PASSTHROUGH: Perms := {ConsistentRead, Write, WriteUnchanged, Resize}
  const UNCHANGED: Perms := ALL_PERMS - PASSTHROUGH

  function FilterRights(r: Rights): Rights {
    Rights(r.perm * PASSTHROUGH, r.shared * PASSTHROUGH + UNCHANGED)
  }

  function CowRights(now: Config, r: Rights): Rights {
    var base := if Write in r.shared then {Write, Resize} else {};
    var shared := base + {ConsistentRead, GraphMod, WriteUnchanged};
    Rights(r.perm * {ConsistentRead}, if now.inactive then shared + {Write, Resize} else shared)
  }

  /** The metadata step of bdrv_default_perms_for_storage. */
  function MetadataRights(after: Config, r: Rights): Rights {
    var p1 := if after.writable then r.perm + {Write, Resize} else r.perm;
    Rights(if after.noIo then p1 else p1 + {ConsistentRead}, r.shared - {Write, Resize})
  }

  /** The data step of bdrv_default_perms_for_storage. */
  function DataRights(r: Rights): Rights {
    var p1 := if WriteUnchanged in r.perm then r.perm + {Write} else r.perm;
    Rights(if Write in p1 then p1 + {Resize} else p1, r.shared - {Resize})
  }

  function StorageRights(now: Config, after: Config, role: Role, r: Rights): Rights {
    var r0 := FilterRights(r);
    var r1 := if role.metadata then MetadataRights(after, r0) else r0;
    var r2 := if role.data then DataRights(r1) else r1;
    if now.inactive then r2.(shared := r2.shared + {Write, Resize}) else r2
  }

  /** `now` are the node's current flags, `after` those it has once a pending reopen is done. */
  function DefaultRights(now: Config, after: Config, role: Role, r: Rights): Rights {
    if role.filtered then FilterRights(r)
    else if role.cow then CowRights(now, r)
    else StorageRights(now, after, role, r)
  }

  /** a asks for no more and allows no less than b. */
  predicate Looser(a: Rights, b: Rights) {
    a.perm <= b.perm && b.shared <= a.shared
  }

  /** Every default rule passes looseness on. */
  lemma DefaultRightsMonotone(now: Config, after: Config, role: Role, a: Rights, b: Rights)
    requires Looser(a, b)
    ensures Looser(DefaultRights(now, after, role, a), DefaultRights(now, after, role, b))
  {
  }

  /** On a filtered link: what is asked for, except for changes to the graph, which concern nobody else. */
  lemma FilterMeaning(now: Config, after: Config, role: Role, r: Rights, p: Perm)
    requires role.filtered
    ensures p in DefaultRights(now, after, role, r).perm <==> p in r.perm && p != GraphMod
    ensures p in DefaultRights(now, after, role, r).shared <==> p in r.shared || p == GraphMod
  {
  }

  /**
   On a link to a backing file: it is only ever read, and may change under the node exactly when the node can
   stand that or is inactive.
   */
  lemma CowMeaning(now: Config, after: Config, role: Role, r: Rights, p: Perm)
    requires role.cow && !role.filtered
    ensures p in DefaultRights(now, after, role, r).perm <==> p in r.perm && p == ConsistentRead
    ensures p in DefaultRights(now, after, role, r).shared <==>
      (p == Write || p == Resize ==> Write in r.shared || now.inactive)
  {
  }

  /** On a link to storage for data or metadata, right by right. */
  lemma StorageMeaning(now: Config, after: Config, role: Role, r: Rights)
    requires !role.cow && !role.filtered
    ensures var s := DefaultRights(now, after, role, r);
      && (GraphMod !in s.perm && (WriteUnchanged in s.perm <==> WriteUnchanged in r.perm))
      && (ConsistentRead in s.perm <==> ConsistentRead in r.perm || (role.metadata && !after.noIo))
      && (Write in s.perm <==>
            Write in r.perm || (role.data && WriteUnchanged in r.perm) || (role.metadata && after.writable))
      && (Resize in s.perm <==> Resize in r.perm || (role.data && Write in s.perm) || (role.metadata && after.writable))
      && (Write in s.shared <==> now.inactive || (Write in r.shared && !role.metadata))
      && (Resize in s.shared <==> now.inactive || (Resize in r.shared && !role.metadata && !role.data))
      && (forall p :: p == ConsistentRead || p == WriteUnchanged ==> (p in s.shared <==> p in r.shared))
      && GraphMod in s.shared
  {
  }

  // --- Cumulative permissions and conflicts ---

  ghost function CumulativePerm(g: Graph, n: NodeId): Perms
    requires n in g.nodes
  {
    set p: Perm | p in ALL_PERMS && exists e :: e in g.nodes[n].parents && e in g.edges && p in g.edges[e].perm
  }

  ghost function CumulativeShared(g: Graph, n: NodeId): Perms
    requires n in g.nodes
  {
    set p: Perm | p in ALL_PERMS && forall e :: e in g.nodes[n].parents && e in g.edges ==> p in g.edges[e].shared
  }

  ghost function Cumulative(g: Graph, n: NodeId): Rights
    requires n in g.nodes
  {
    Rights(CumulativePerm(g, n), CumulativeShared(g, n))
  }

  /** Some parent takes what another parent does not share. */
  ghost predicate Conflict(g: Graph, n: NodeId)
    requires n in g.nodes
  {
    exists a, b :: a in g.nodes[n].parents && b in g.nodes[n].parents && a != b && a in g.edges && b in g.edges
                   && !(g.edges[b].perm <= g.edges[a].shared)
  }

  /** bdrv_get_cumulative_perm */
  method GetCumulativePerm(g: Graph, n: NodeId) returns (r: Rights)
    requires WellFormed(g) && n in g.nodes
    ensures r == Cumulative(g, n)
  {
    r := Rights({}, ALL_PERMS);
    var rest := g.nodes[n].parents;
    assert ParentsOk(g, n);
    while rest != {}
      invariant rest <= g.nodes[n].parents
      invariant r.perm <= ALL_PERMS && r.shared <= ALL_PERMS
      invariant forall p :: p in r.perm <==> exists e :: e in g.nodes[n].parents && e !in rest && p in g.edges[e].perm
      invariant forall p :: p in r.shared <==>
        p in ALL_PERMS && forall e :: e in g.nodes[n].parents && e !in rest ==> p in g.edges[e].shared
      decreases rest
    {
      var c :| c in rest;
      EveryPerm(g.edges[c].perm);
      rest := rest - {c};
      r := Rights(r.perm + g.edges[c].perm, r.shared * g.edges[c].shared);
    }
  }

  lemma EveryPerm(s: Perms)
    ensures s <= ALL_PERMS
  {
    forall p | p in s ensures p in ALL_PERMS {
      match p
      case ConsistentRead =>
      case Write =>
      case WriteUnchanged =>
      case Resize =>
      case GraphMod =>
    }
  }

  /** bdrv_parent_perms_conflict: every ordered pair of parents. */
  method ParentPermsConflict(g: Graph, n: NodeId) returns (conflict: bool)
    requires WellFormed(g) && n in g.nodes
    ensures conflict <==> Conflict(g, n)
  {
    assert ParentsOk(g, n);
    var restA := g.nodes[n].parents;
    while restA != {}
      invariant restA <= g.nodes[n].parents
      invariant forall a, b :: a in g.nodes[n].parents && a !in restA && b in g.nodes[n].parents && a != b
                  ==> g.edges[b].perm <= g.edges[a].shared
      decreases restA
    {
      var a :| a in restA;
      restA := restA - {a};
      var restB := g.nodes[n].parents;
      while restB != {}
        invariant restB <= g.nodes[n].parents
        invariant forall b :: b in g.nodes[n].parents && b !in restB && a != b ==> g.edges[b].perm <= g.edges[a].shared
        decreases restB
      {
        var b :| b in restB;
        restB := restB - {b};
        if a != b && !(g.edges[b].perm <= g.edges[a].shared) {
          return true;
        }
      }
    }
    return false;
  }
}
