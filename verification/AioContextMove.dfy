/**
 Moving a block node to another AioContext (bdrv_set_aio_context_ignore in block.c and
 child_job_set_aio_ctx in blockjob.c).

 The walk follows child links, parent links and the other links of a job, and records every link it
 has taken charge of in `ignore`.  It moves exactly the connected component of the node, and
 re-attaches each node of it exactly once.
 */
module AioContextMove {

  type NodeId = nat
  type EdgeId = nat
  type JobId = nat
  type Context = nat

  /** Who holds a link; `Backend` stands for users whose only reaction is to note the new context. */
  datatype Holder = ByNode(node: NodeId) | ByJob(job: JobId) | Backend

  datatype Link = Link(bs: NodeId, holder: Holder)

  type Links = map<EdgeId, Link>

  function ChildLinks(g: Links, n: NodeId): set<EdgeId> {
    set e | e in g && g[e].holder == ByNode(n)
  }

  function ParentLinks(g: Links, n: NodeId): set<EdgeId> {
    set e | e in g && g[e].bs == n
  }

  function JobLinks(g: Links, j: JobId): set<EdgeId> {
    set e | e in g && g[e].holder == ByJob(j)
  }

  ghost predicate NoSelfLink(g: Links) {
    forall e :: e in g ==> g[e].holder != ByNode(g[e].bs)
  }

  // --- The component that a move concerns ---

  /** Two nodes joined by a link, or used by one job, through links outside `skip`. */
  ghost predicate Joined(g: Links, skip: set<EdgeId>, a: NodeId, b: NodeId) {
    || (exists e :: e in g && e !in skip && g[e].holder == ByNode(a) && g[e].bs == b)
    || (exists e :: e in g && e !in skip && g[e].holder == ByNode(b) && g[e].bs == a)
    || (exists e, f :: e in g && f in g && e !in skip && f !in skip &&
          g[e].holder.ByJob? && g[f].holder == g[e].holder && g[e].bs == a && g[f].bs == b)
  }

  ghost predicate JoinedPath(g: Links, skip: set<EdgeId>, p: seq<NodeId>, a: NodeId, b: NodeId) {
    && |p| > 0 && p[0] == a && p[|p| - 1] == b
    && forall i :: 0 < i < |p| ==> Joined(g, skip, p[i - 1], p[i])
  }

  ghost predicate InComponent(g: Links, skip: set<EdgeId>, a: NodeId, b: NodeId) {
    exists p :: JoinedPath(g, skip, p, a, b)
  }

  lemma ComponentSelf(g: Links, skip: set<EdgeId>, a: NodeId)
    ensures InComponent(g, skip, a, a)
  {
    assert JoinedPath(g, skip, [a], a, a);
  }

  lemma ComponentStep(g: Links, skip: set<EdgeId>, a: NodeId, b: NodeId, c: NodeId)
    requires InComponent(g, skip, a, b) && Joined(g, skip, b, c)
    ensures InComponent(g, skip, a, c)
  {
    var p :| JoinedPath(g, skip, p, a, b);
    assert JoinedPath(g, skip, p + [c], a, c);
  }

  /** A set that holds a and is closed under joining holds the component of a. */
  lemma ClosedHoldsComponent(g: Links, skip: set<EdgeId>, s: set<NodeId>, a: NodeId, b: NodeId)
    requires a in s && InComponent(g, skip, a, b)
    requires forall m, n :: m in s && Joined(g, skip, m, n) ==> n in s
    ensures b in s
  {
    var p :| JoinedPath(g, skip, p, a, b);
    var i := 0;
    while i < |p| - 1
      invariant 0 <= i < |p| && p[i] in s
    {
      assert Joined(g, skip, p[i], p[i + 1]);
      i := i + 1;
    }
  }

  // --- What holds throughout the walk ---

  /** The fixed data of one move. */
  datatype Move = Move(g: Links, skip: set<EdgeId>, root: NodeId, target: Context,
                       before: map<NodeId, Context>, jobsBefore: map<JobId, Context>)

  /** Every node of the component is known and sits in some other context. */
  ghost predicate Applies(m: Move) {
    && NoSelfLink(m.g)
    && forall n {:trigger InComponent(m.g, m.skip, m.root, n)} :: InComponent(m.g, m.skip, m.root, n) ==>
         n in m.before && m.before[n] != m.target
  }

  function Elems(s: seq<NodeId>): set<NodeId> {
    set i | 0 <= i < |s| :: s[i]
  }

  ghost predicate Distinct(s: seq<NodeId>) {
    forall i, j :: 0 <= i < j < |s| ==> s[i] != s[j]
  }

  /** What the walk has done so far: the contexts, the links in charge and the nodes re-attached, in order. */
  datatype Progress = Progress(
    ctx: map<NodeId, Context>,
    jobs: map<JobId, Context>,
    ignore: set<EdgeId>,
    attached: seq<NodeId>)

  /** All links of n have been taken charge of. */
  ghost predicate Claimed(m: Move, ignore: set<EdgeId>, n: NodeId) {
    ChildLinks(m.g, n) <= ignore && ParentLinks(m.g, n) <= ignore
  }

  ghost predicate JobMoved(m: Move, jobs: map<JobId, Context>, j: JobId) {
    j in jobs && jobs[j] == m.target
  }

  ghost predicate JobKept(m: Move, jobs: map<JobId, Context>, j: JobId) {
    (j in jobs <==> j in m.jobsBefore) && (j in jobs ==> jobs[j] == m.jobsBefore[j])
  }

  /** The job uses a node of the component through a link that counts. */
  ghost predicate JobConcerned(m: Move, j: JobId) {
    exists e :: e in m.g && e !in m.skip && m.g[e].holder == ByJob(j) && InComponent(m.g, m.skip, m.root, m.g[e].bs)
  }

  ghost predicate NodesRight(m: Move, p: Progress) {
    && p.ctx.Keys == m.before.Keys
    && forall n :: n in p.ctx ==> p.ctx[n] == if n in Elems(p.attached) then m.target else m.before[n]
  }

  ghost predicate JobsRight(m: Move, jobs: map<JobId, Context>) {
    forall j {:trigger JobKept(m, jobs, j)} :: JobKept(m, jobs, j) || (JobMoved(m, jobs, j) && JobConcerned(m, j))
  }

  ghost predicate AllClaimed(m: Move, ignore: set<EdgeId>, s: set<NodeId>) {
    forall n {:trigger Claimed(m, ignore, n)} :: n in s ==> Claimed(m, ignore, n) && InComponent(m.g, m.skip, m.root, n)
  }

  ghost predicate JobLinksReached(m: Move, ignore: set<EdgeId>, s: set<NodeId>) {
    forall e :: e in m.g && e in ignore && e !in m.skip && m.g[e].holder.ByJob? ==> m.g[e].bs in s
  }

  /** `started` are the nodes whose move has begun and not ended; `next` are nodes about to begin. */
  ghost predicate WalkInvBut(m: Move, p: Progress, started: set<NodeId>, next: set<NodeId>) {
    && m.skip <= p.ignore
    && Distinct(p.attached) && started !! Elems(p.attached)
    && NodesRight(m, p)
    && JobsRight(m, p.jobs)
    && AllClaimed(m, p.ignore, Elems(p.attached) + started)
    && JobLinksReached(m, p.ignore, Elems(p.attached) + started + next)
  }

  ghost predicate WalkInv(m: Move, p: Progress, started: set<NodeId>) {
    WalkInvBut(m, p, started, {})
  }

  /** A link that was taken charge of has been followed to its other end. */
  ghost predicate Followed(m: Move, p: Progress, started: set<NodeId>, e: EdgeId)
    requires e in m.g
  {
    && m.g[e].bs in Elems(p.attached) + started
    && (m.g[e].holder.ByNode? ==> m.g[e].holder.node in Elems(p.attached) + started)
    && (m.g[e].holder.ByJob? ==> JobDone(m, p, m.g[e].holder.job))
  }

  ghost predicate JobDone(m: Move, p: Progress, j: JobId) {
    JobLinks(m.g, j) - m.skip <= p.ignore && JobMoved(m, p.jobs, j)
  }

  ghost predicate AllFollowed(m: Move, from: set<EdgeId>, p: Progress, started: set<NodeId>) {
    forall e {:trigger Followed(m, p, started, e)} :: e in m.g && e in p.ignore && e !in from ==>
      Followed(m, p, started, e)
  }

  /** The walk only ever adds. */
  ghost predicate Extends(m: Move, p: Progress, p': Progress) {
    && p.ignore <= p'.ignore && p.attached <= p'.attached
    && forall j {:trigger JobMoved(m, p'.jobs, j)} :: JobMoved(m, p.jobs, j) ==> JobMoved(m, p'.jobs, j)
  }

  /** When no node is under way, the nodes re-attached are exactly the component. */
  lemma WalkCovers(m: Move, p: Progress, n: NodeId)
    requires WalkInv(m, p, {}) && AllFollowed(m, m.skip, p, {}) && m.root in Elems(p.attached)
    ensures n in Elems(p.attached) <==> InComponent(m.g, m.skip, m.root, n)
  {
    var s := Elems(p.attached);
    assert s + {} == s;
    if n in s {
      assert Claimed(m, p.ignore, n);
    }
    if InComponent(m.g, m.skip, m.root, n) {
      forall a, b | a in s && Joined(m.g, m.skip, a, b) ensures b in s {
        assert Claimed(m, p.ignore, a);
        JoinedFollowed(m, p, a, b);
      }
      ClosedHoldsComponent(m.g, m.skip, s, m.root, n);
    }
  }

  lemma JoinedFollowed(m: Move, p: Progress, a: NodeId, b: NodeId)
    requires AllFollowed(m, m.skip, p, {}) && Claimed(m, p.ignore, a) && Joined(m.g, m.skip, a, b)
    ensures b in Elems(p.attached)
  {
    var g, skip := m.g, m.skip;
    if e :| e in g && e !in skip && g[e].holder == ByNode(a) && g[e].bs == b {
      assert e in ChildLinks(g, a) && Followed(m, p, {}, e);
    } else if e :| e in g && e !in skip && g[e].holder == ByNode(b) && g[e].bs == a {
      assert e in ParentLinks(g, a) && Followed(m, p, {}, e);
    } else {
      var e, f :| e in g && f in g && e !in skip && f !in skip &&
        g[e].holder.ByJob? && g[f].holder == g[e].holder && g[e].bs == a && g[f].bs == b;
      assert e in ParentLinks(g, a) && Followed(m, p, {}, e);
      assert f in JobLinks(g, g[e].holder.job) - skip;
      assert Followed(m, p, {}, f);
    }
  }

  /** The jobs moved are exactly those that use the component. */
  lemma JobsCovered(m: Move, p: Progress, j: JobId)
    requires WalkInv(m, p, {}) && AllFollowed(m, m.skip, p, {}) && m.root in Elems(p.attached)
    ensures if JobConcerned(m, j) then JobMoved(m, p.jobs, j) else JobKept(m, p.jobs, j)
  {
    if JobConcerned(m, j) {
      var e :| e in m.g && e !in m.skip && m.g[e].holder == ByJob(j) && InComponent(m.g, m.skip, m.root, m.g[e].bs);
      WalkCovers(m, p, m.g[e].bs);
      assert Claimed(m, p.ignore, m.g[e].bs);
      assert e in ParentLinks(m.g, m.g[e].bs) && Followed(m, p, {}, e);
    } else {
      assert JobKept(m, p.jobs, j);
    }
  }

  // --- Steps of the walk ---

  ghost function Begun(m: Move, p: Progress, n: NodeId): Progress {
    p.(ignore := p.ignore + ChildLinks(m.g, n) + ParentLinks(m.g, n))
  }

  /** The links of n that were still free have been followed. */
  ghost predicate NeighboursDone(m: Move, free: set<EdgeId>, p: Progress, started: set<NodeId>, n: NodeId) {
    && (forall e :: e in ChildLinks(m.g, n) - free ==> m.g[e].bs in Elems(p.attached))
    && (forall e :: e in ParentLinks(m.g, n) - free - ChildLinks(m.g, n) ==> HolderDone(m, p, started, m.g[e].holder))
  }

  /** Beginning with a node: all its links are taken charge of. */
  lemma Begin(m: Move, p: Progress, started: set<NodeId>, n: NodeId)
    requires WalkInvBut(m, p, started, {n}) && InComponent(m.g, m.skip, m.root, n) && n !in Elems(p.attached) + started
    ensures WalkInv(m, Begun(m, p, n), started + {n})
  {
    var p' := Begun(m, p, n);
    var s' := Elems(p.attached) + (started + {n});
    forall k | k in s' ensures Claimed(m, p'.ignore, k) && InComponent(m.g, m.skip, m.root, k) {
      assert k != n ==> Claimed(m, p.ignore, k);
    }
    forall e | e in m.g && e in p'.ignore && e !in m.skip && m.g[e].holder.ByJob? ensures m.g[e].bs in s' {
      if e !in p.ignore {
        assert e in ParentLinks(m.g, n);
      }
    }
  }

  /** Ending with a node: it is re-attached. */
  lemma End(m: Move, p: Progress, started: set<NodeId>, n: NodeId)
    requires WalkInv(m, p, started + {n}) && n !in started && n in p.ctx
    ensures WalkInv(m, p.(ctx := p.ctx[n := m.target], attached := p.attached + [n]), started)
    ensures Elems(p.attached + [n]) + started == Elems(p.attached) + (started + {n})
  {
    var p' := p.(ctx := p.ctx[n := m.target], attached := p.attached + [n]);
    assert Elems(p'.attached) == Elems(p.attached) + {n} by {
      assert forall i :: 0 <= i < |p.attached| ==> p'.attached[i] == p.attached[i];
      assert p'.attached[|p.attached|] == n;
    }
    assert Elems(p'.attached) + started == Elems(p.attached) + (started + {n});
  }

  /** Facts that are followed stay so. */
  lemma FollowedLater(m: Move, p: Progress, p': Progress, started: set<NodeId>, started': set<NodeId>, e: EdgeId)
    requires e in m.g && Followed(m, p, started, e) && Extends(m, p, p') && started <= started' + Elems(p'.attached)
    ensures Followed(m, p', started', e)
  {
    ElemsGrow(p.attached, p'.attached);
    if m.g[e].holder.ByJob? {
      assert JobMoved(m, p.jobs, m.g[e].holder.job);
    }
  }

  lemma ElemsGrow(a: seq<NodeId>, b: seq<NodeId>)
    requires a <= b
    ensures Elems(a) <= Elems(b)
  {
    forall n | n in Elems(a) ensures n in Elems(b) {
      var i :| 0 <= i < |a| && a[i] == n;
      assert b[i] == n;
    }
  }

  /** Two stretches of the walk after one another. */
  lemma FollowedBoth(m: Move, p0: Progress, p1: Progress, p2: Progress, started: set<NodeId>)
    requires AllFollowed(m, p0.ignore, p1, started) && AllFollowed(m, p1.ignore, p2, started) && Extends(m, p1, p2)
    ensures AllFollowed(m, p0.ignore, p2, started)
  {
    forall e | e in m.g && e in p2.ignore && e !in p0.ignore ensures Followed(m, p2, started, e) {
      if e in p1.ignore {
        assert Followed(m, p1, started, e);
        FollowedLater(m, p1, p2, started, started, e);
      }
    }
  }

  lemma ExtendsTrans(m: Move, p0: Progress, p1: Progress, p2: Progress)
    requires Extends(m, p0, p1) && Extends(m, p1, p2)
    ensures Extends(m, p0, p2)
  {
    forall j | JobMoved(m, p0.jobs, j) ensures JobMoved(m, p2.jobs, j) {
      assert JobMoved(m, p1.jobs, j);
    }
  }

  /** The far end of a link that is not in charge yet: part of the component, and not under way. */
  lemma FarEnd(m: Move, p: Progress, started: set<NodeId>, n: NodeId, e: EdgeId)
    requires NoSelfLink(m.g) && WalkInvBut(m, p, started, {n}) && InComponent(m.g, m.skip, m.root, n)
    requires e in m.g && e !in p.ignore
    ensures m.g[e].holder == ByNode(n) ==> m.g[e].bs !in started + {n} && InComponent(m.g, m.skip, m.root, m.g[e].bs)
    ensures m.g[e].bs == n && m.g[e].holder.ByNode? ==>
      m.g[e].holder.node !in started + {n} && InComponent(m.g, m.skip, m.root, m.g[e].holder.node)
  {
    if m.g[e].holder == ByNode(n) {
      assert e in ParentLinks(m.g, m.g[e].bs);
      assert !Claimed(m, p.ignore, m.g[e].bs);
      ComponentStep(m.g, m.skip, m.root, n, m.g[e].bs);
    }
    if m.g[e].bs == n && m.g[e].holder.ByNode? {
      var h := m.g[e].holder.node;
      assert e in ChildLinks(m.g, h);
      assert !Claimed(m, p.ignore, h);
      ComponentStep(m.g, m.skip, m.root, n, h);
    }
  }

  lemma FewerLeft(g: Links, a: set<EdgeId>, b: set<EdgeId>, e: EdgeId)
    requires a <= b && e in g && e !in a && e in b
    ensures |g.Keys - b| < |g.Keys - a|
  {
    Smaller(g.Keys - b, g.Keys - a, e);
  }

  lemma Smaller(x: set<EdgeId>, y: set<EdgeId>, e: EdgeId)
    requires x <= y && e in y && e !in x
    ensures |x| < |y|
  {
    Subset(x, y - {e});
  }

  lemma {:induction false} Subset(x: set<EdgeId>, y: set<EdgeId>)
    requires x <= y
    ensures |x| <= |y|
  {
    if x != {} {
      var e :| e in x;
      Subset(x - {e}, y - {e});
    }
  }

  /** The user behind a link has been told. */
  ghost predicate HolderDone(m: Move, p: Progress, started: set<NodeId>, h: Holder) {
    && (h.ByNode? ==> h.node in Elems(p.attached) + started)
    && (h.ByJob? ==> JobDone(m, p, h.job))
  }

  lemma HolderDoneLater(m: Move, p: Progress, p': Progress, started: set<NodeId>, h: Holder)
    requires HolderDone(m, p, started, h) && Extends(m, p, p')
    ensures HolderDone(m, p', started, h)
  {
    ElemsGrow(p.attached, p'.attached);
    if h.ByJob? {
      assert JobMoved(m, p.jobs, h.job);
    }
  }

  lemma BothLoops(m: Move, p0: Progress, p1: Progress, p2: Progress, p3: Progress, started: set<NodeId>, n: NodeId)
    requires Extends(m, p1, p2) && AllFollowed(m, p1.ignore, p2, started)
    requires Extends(m, p2, p3) && AllFollowed(m, p2.ignore, p3, started)
    requires forall e :: e in ChildLinks(m.g, n) - p0.ignore ==> m.g[e].bs in Elems(p2.attached)
    requires forall e :: e in ParentLinks(m.g, n) - p0.ignore - ChildLinks(m.g, n) ==>
      HolderDone(m, p3, started, m.g[e].holder)
    ensures Extends(m, p1, p3) && AllFollowed(m, p1.ignore, p3, started) && NeighboursDone(m, p0.ignore, p3, started, n)
  {
    FollowedBoth(m, p1, p2, p3, started);
    ExtendsTrans(m, p1, p2, p3);
    ElemsGrow(p2.attached, p3.attached);
  }

  lemma WeakerInv(m: Move, p: Progress, started: set<NodeId>, n: NodeId)
    requires WalkInv(m, p, started)
    ensures WalkInvBut(m, p, started, {n})
  {
  }

  // --- A job and the nodes it uses ---

  /** As AllFollowed, except that the job j has not been moved yet. */
  ghost predicate FollowedButJob(m: Move, from: set<EdgeId>, p: Progress, started: set<NodeId>, j: JobId) {
    forall e {:trigger Followed(m, p, started, e)} :: e in m.g && e in p.ignore && e !in from ==>
      Followed(m, p, started, e) || (m.g[e].holder == ByJob(j) && m.g[e].bs in Elems(p.attached) + started)
  }

  lemma SiblingEnd(m: Move, p: Progress, started: set<NodeId>, e: EdgeId, f: EdgeId)
    requires WalkInv(m, p, started) && e in m.g && e !in m.skip && m.g[e].holder.ByJob?
    requires InComponent(m.g, m.skip, m.root, m.g[e].bs)
    requires f in m.g && f !in p.ignore && m.g[f].holder == m.g[e].holder
    ensures m.g[f].bs !in started && InComponent(m.g, m.skip, m.root, m.g[f].bs)
    ensures WalkInvBut(m, p.(ignore := p.ignore + {f}), started, {m.g[f].bs})
  {
    var p' := p.(ignore := p.ignore + {f});
    assert f in ParentLinks(m.g, m.g[f].bs);
    assert !Claimed(m, p.ignore, m.g[f].bs);
    ComponentStep(m.g, m.skip, m.root, m.g[e].bs, m.g[f].bs);
    forall n | n in Elems(p.attached) + started
      ensures Claimed(m, p'.ignore, n) && InComponent(m.g, m.skip, m.root, n)
    {
      assert Claimed(m, p.ignore, n);
    }
  }

  lemma SiblingFollowed(m: Move, from: set<EdgeId>, p: Progress, q: Progress, p': Progress, started: set<NodeId>,
      j: JobId, f: EdgeId)
    requires f in m.g && m.g[f].holder == ByJob(j) && q == p.(ignore := p.ignore + {f}) && Extends(m, q, p')
    requires FollowedButJob(m, from, p, started, j) && AllFollowed(m, q.ignore, p', started)
    requires m.g[f].bs in Elems(p'.attached)
    ensures FollowedButJob(m, from, p', started, j)
  {
    ElemsGrow(p.attached, p'.attached);
    forall e | e in m.g && e in p'.ignore && e !in from
      ensures Followed(m, p', started, e) || (m.g[e].holder == ByJob(j) && m.g[e].bs in Elems(p'.attached) + started)
    {
      if e in p.ignore {
        if Followed(m, p, started, e) {
          FollowedLater(m, p, p', started, started, e);
        }
      } else if e != f {
        assert Followed(m, p', started, e);
      }
    }
  }

  lemma JobSet(m: Move, p0: Progress, p: Progress, started: set<NodeId>, j: JobId, e: EdgeId)
    requires WalkInv(m, p, started) && Extends(m, p0, p) && FollowedButJob(m, p0.ignore, p, started, j)
    requires JobLinks(m.g, j) <= p.ignore
    requires e in m.g && e !in m.skip && m.g[e].holder == ByJob(j) && InComponent(m.g, m.skip, m.root, m.g[e].bs)
    ensures var p' := p.(jobs := p.jobs[j := m.target]);
      WalkInv(m, p', started) && Extends(m, p0, p') && AllFollowed(m, p0.ignore, p', started) && JobDone(m, p', j)
  {
    var p' := p.(jobs := p.jobs[j := m.target]);
    forall k ensures JobKept(m, p'.jobs, k) || (JobMoved(m, p'.jobs, k) && JobConcerned(m, k)) {
      if k != j {
        assert JobKept(m, p.jobs, k) || (JobMoved(m, p.jobs, k) && JobConcerned(m, k));
      }
    }
    forall k | JobMoved(m, p.jobs, k) ensures JobMoved(m, p'.jobs, k) {
    }
    forall f | f in m.g && f in p'.ignore && f !in p0.ignore ensures Followed(m, p', started, f) {
      assert Followed(m, p, started, f) || (m.g[f].holder == ByJob(j) && m.g[f].bs in Elems(p.attached) + started);
    }
  }

  class Walk {
    var ctx: map<NodeId, Context>
    var jobs: map<JobId, Context>
    var ignore: set<EdgeId>
    var attached: seq<NodeId>

    ghost function Now(): Progress
      reads this
    {
      Progress(ctx, jobs, ignore, attached)
    }

    /** The loops that collect the links still to process. */
    method TakeCharge(links: set<EdgeId>) returns (todo: set<EdgeId>)
      modifies this`ignore
      ensures todo == links - old(ignore) && ignore == old(ignore) + links
    {
      todo := {};
      var rest := links;
      while rest != {}
        invariant rest <= links && ignore == old(ignore) + (links - rest) && todo == links - rest - old(ignore)
        decreases rest
      {
        var e :| e in rest;
        rest := rest - {e};
        if e !in ignore {
          ignore := ignore + {e};
          todo := todo + {e};
        }
      }
    }

    method ClaimLinks(g: Links, bs: NodeId, ghost m: Move) returns (children: set<EdgeId>, parents: set<EdgeId>)
      requires m.g == g
      modifies this`ignore
      ensures Now() == Begun(m, old(Now()), bs)
      ensures children == ChildLinks(g, bs) - old(ignore)
      ensures parents == ParentLinks(g, bs) - old(ignore) - ChildLinks(g, bs)
    {
      children := TakeCharge(ChildLinks(g, bs));
      parents := TakeCharge(ParentLinks(g, bs));
    }

    /** The loop of bdrv_set_aio_context_ignore over the children. */
    method MoveChildren(g: Links, bs: NodeId, todo: set<EdgeId>, newContext: Context,
                        ghost m: Move, ghost p0: Progress, ghost started: set<NodeId>)
      requires m.g == g && m.target == newContext && Applies(m)
      requires WalkInvBut(m, p0, started - {bs}, {bs}) && InComponent(m.g, m.skip, m.root, bs) && bs in started
      requires todo <= ChildLinks(g, bs) - p0.ignore && todo <= ignore && p0.ignore <= ignore
      requires WalkInv(m, Now(), started)
      modifies this
      ensures WalkInv(m, Now(), started) && Extends(m, old(Now()), Now())
      ensures AllFollowed(m, old(ignore), Now(), started)
      ensures forall e :: e in todo ==> g[e].bs in Elems(attached)
      decreases |g.Keys - p0.ignore|, 0, 0
    {
      ghost var p1 := Now();
      var rest := todo;
      while rest != {}
        invariant rest <= todo
        invariant WalkInv(m, Now(), started) && Extends(m, p1, Now()) && AllFollowed(m, p1.ignore, Now(), started)
        invariant forall e :: e in todo - rest ==> g[e].bs in Elems(attached)
        decreases rest
      {
        var e :| e in rest;
        rest := rest - {e};
        FarEnd(m, p0, started - {bs}, bs, e);
        FewerLeft(g, p0.ignore, ignore, e);
        ghost var p := Now();
        SetAioContextIgnore(g, g[e].bs, newContext, m, started);
        FollowedBoth(m, p1, p, Now(), started);
        ExtendsTrans(m, p1, p, Now());
        ElemsGrow(p.attached, attached);
      }
    }

    /** The loop of bdrv_set_aio_context_ignore over the parents. */
    method MoveParents(g: Links, bs: NodeId, todo: set<EdgeId>, newContext: Context,
                       ghost m: Move, ghost p0: Progress, ghost started: set<NodeId>)
      requires m.g == g && m.target == newContext && Applies(m)
      requires WalkInvBut(m, p0, started - {bs}, {bs}) && InComponent(m.g, m.skip, m.root, bs) && bs in started
      requires todo <= ParentLinks(g, bs) - p0.ignore && todo <= ignore && p0.ignore <= ignore
      requires WalkInv(m, Now(), started)
      modifies this
      ensures WalkInv(m, Now(), started) && Extends(m, old(Now()), Now())
      ensures AllFollowed(m, old(ignore), Now(), started)
      ensures forall e :: e in todo ==> HolderDone(m, Now(), started, g[e].holder)
      decreases |g.Keys - p0.ignore|, 0, 0
    {
      ghost var p1 := Now();
      var rest := todo;
      while rest != {}
        invariant rest <= todo
        invariant WalkInv(m, Now(), started) && Extends(m, p1, Now()) && AllFollowed(m, p1.ignore, Now(), started)
        invariant forall e :: e in todo - rest ==> HolderDone(m, Now(), started, g[e].holder)
        decreases rest
      {
        var e :| e in rest;
        ghost var seen := todo - rest;
        rest := rest - {e};
        FarEnd(m, p0, started - {bs}, bs, e);
        FewerLeft(g, p0.ignore, ignore, e);
        ghost var p := Now();
        SetParentContext(g, e, newContext, m, started);
        FollowedBoth(m, p1, p, Now(), started);
        ExtendsTrans(m, p1, p, Now());
        forall f | f in seen ensures HolderDone(m, Now(), started, g[f].holder) {
          HolderDoneLater(m, p, Now(), started, g[f].holder);
        }
      }
    }

    /** set_aio_ctx of the user behind a parent link: a node, a job (child_job_set_aio_ctx) or a backend. */
    method SetParentContext(g: Links, e: EdgeId, newContext: Context, ghost m: Move, ghost started: set<NodeId>)
      requires m.g == g && m.target == newContext && Applies(m)
      requires e in g && e !in m.skip && WalkInv(m, Now(), started)
      requires InComponent(m.g, m.skip, m.root, g[e].bs)
      requires g[e].holder.ByNode? ==>
        g[e].holder.node !in started && InComponent(m.g, m.skip, m.root, g[e].holder.node)
      modifies this
      ensures WalkInv(m, Now(), started) && Extends(m, old(Now()), Now())
      ensures AllFollowed(m, old(ignore), Now(), started)
      ensures HolderDone(m, Now(), started, g[e].holder)
      decreases |g.Keys - ignore|, 2, 0
    {
      match g[e].holder
      case ByNode(p) =>
        WeakerInv(m, Now(), started, p);
        SetAioContextIgnore(g, p, newContext, m, started);
      case ByJob(j) =>
        SetJobContext(g, j, e, newContext, m, started);
      case Backend =>
    }

    /** child_job_set_aio_ctx */
    method SetJobContext(g: Links, j: JobId, ghost e: EdgeId, newContext: Context, ghost m: Move,
        ghost started: set<NodeId>)
      requires m.g == g && m.target == newContext && Applies(m) && WalkInv(m, Now(), started)
      requires e in g && e !in m.skip && g[e].holder == ByJob(j) && InComponent(m.g, m.skip, m.root, g[e].bs)
      modifies this
      ensures WalkInv(m, Now(), started) && Extends(m, old(Now()), Now())
      ensures AllFollowed(m, old(ignore), Now(), started)
      ensures JobDone(m, Now(), j)
      decreases |g.Keys - ignore|, 1, 1
    {
      ghost var p0, all := Now(), JobLinks(g, j);
      var rest := JobLinks(g, j);
      while rest != {}
        invariant rest <= all && all - rest <= ignore
        invariant WalkInv(m, Now(), started) && Extends(m, p0, Now())
        invariant FollowedButJob(m, p0.ignore, Now(), started, j)
        decreases rest
      {
        var sibling :| sibling in rest;
        rest := rest - {sibling};
        if sibling !in ignore {
          SiblingEnd(m, Now(), started, e, sibling);
          ghost var p := Now();
          ignore := ignore + {sibling};
          FewerLeft(g, p0.ignore, ignore, sibling);
          ghost var q := Now();
          SetAioContextIgnore(g, g[sibling].bs, newContext, m, started);
          ExtendsTrans(m, p, q, Now());
          ExtendsTrans(m, p0, p, Now());
          SiblingFollowed(m, p0.ignore, p, q, Now(), started, j, sibling);
        }
      }
      ghost var p1 := Now();
      jobs := jobs[j := newContext];
      JobSet(m, p0, p1, started, j, e);
    }

    /** The first part of bdrv_set_aio_context_ignore, up to re-attaching the node itself. */
    method MoveNeighbours(g: Links, bs: NodeId, newContext: Context, ghost m: Move, ghost started: set<NodeId>)
      requires m.g == g && m.target == newContext && Applies(m)
      requires WalkInvBut(m, Now(), started, {bs}) && InComponent(m.g, m.skip, m.root, bs)
      requires bs !in Elems(attached) + started
      modifies this
      ensures WalkInv(m, Now(), started + {bs}) && Extends(m, Begun(m, old(Now()), bs), Now())
      ensures AllFollowed(m, Begun(m, old(Now()), bs).ignore, Now(), started + {bs})
      ensures NeighboursDone(m, old(ignore), Now(), started + {bs}, bs)
      decreases |g.Keys - ignore|, 0, 1
    {
      ghost var p0, inside := Now(), started + {bs};
      Begin(m, p0, started, bs);
      var children, parents := ClaimLinks(g, bs, m);
      assert inside - {bs} == started;
      MoveChildren(g, bs, children, newContext, m, p0, inside);
      ghost var p2 := Now();
      MoveParents(g, bs, parents, newContext, m, p0, inside);
      BothLoops(m, p0, Begun(m, p0, bs), p2, Now(), inside, bs);
    }

    /** bdrv_set_aio_context_ignore */
    method SetAioContextIgnore(g: Links, bs: NodeId, newContext: Context, ghost m: Move, ghost started: set<NodeId>)
      requires m.g == g && m.target == newContext && Applies(m)
      requires WalkInvBut(m, Now(), started, {bs}) && InComponent(m.g, m.skip, m.root, bs) && bs !in started
      modifies this
      ensures WalkInv(m, Now(), started) && Extends(m, old(Now()), Now())
      ensures AllFollowed(m, old(ignore), Now(), started)
      ensures bs in Elems(attached)
      decreases |g.Keys - ignore|, 1, 0
    {
      ghost var p0 := Now();
      if ctx[bs] == newContext {
        assert Elems(attached) + started + {bs} == Elems(attached) + started + {};
        return;
      }
      MoveNeighbours(g, bs, newContext, m, started);
      ghost var p3 := Now();
      End(m, p3, started, bs);
      ctx := ctx[bs := newContext];
      attached := attached + [bs];
      Ended(m, p0, Begun(m, p0, bs), p3, Now(), started, bs);
    }
  }

  /** What ending a node adds up to. */
  lemma Ended(m: Move, p0: Progress, p1: Progress, p3: Progress, p4: Progress, started: set<NodeId>, n: NodeId)
    requires p1 == Begun(m, p0, n) && NeighboursDone(m, p0.ignore, p3, started + {n}, n)
    requires Extends(m, p1, p3) && AllFollowed(m, p1.ignore, p3, started + {n})
    requires p4.ignore == p3.ignore && p4.jobs == p3.jobs && p4.attached == p3.attached + [n]
    requires Elems(p4.attached) + started == Elems(p3.attached) + (started + {n})
    ensures Extends(m, p0, p4) && n in Elems(p4.attached) && AllFollowed(m, p0.ignore, p4, started)
  {
    assert p4.attached[|p3.attached|] == n;
    forall e | e in m.g && e in p4.ignore && e !in p0.ignore ensures Followed(m, p4, started, e) {
      if e !in p1.ignore {
        assert Followed(m, p3, started + {n}, e);
      }
    }
  }

  /** Initially nothing has been done. */
  lemma WalkStarts(m: Move)
    ensures WalkInvBut(m, Progress(m.before, m.jobsBefore, m.skip, []), {}, {m.root})
    ensures InComponent(m.g, m.skip, m.root, m.root)
  {
    var p := Progress(m.before, m.jobsBefore, m.skip, []);
    ComponentSelf(m.g, m.skip, m.root);
    forall j ensures JobKept(m, p.jobs, j) {
    }
  }

  /**
   The second half of bdrv_child_try_set_aio_context.  When no node of the component is in the new
   context yet, all of them move there, each re-attached once, with the jobs that use them.
   */
  method SetAioContext(walk: Walk, g: Links, bs: NodeId, newContext: Context, ignoreChild: set<EdgeId>)
    requires bs in walk.ctx
    requires walk.ctx[bs] == newContext || Applies(Move(g, ignoreChild, bs, newContext, walk.ctx, walk.jobs))
    modifies walk
    ensures old(walk.ctx)[bs] == newContext ==>
      walk.ctx == old(walk.ctx) && walk.jobs == old(walk.jobs) && walk.attached == []
    ensures old(walk.ctx)[bs] != newContext ==>
      var m := Move(g, ignoreChild, bs, newContext, old(walk.ctx), old(walk.jobs));
      && Distinct(walk.attached)
      && (forall n :: n in walk.attached <==> InComponent(g, ignoreChild, bs, n))
      && walk.ctx.Keys == old(walk.ctx).Keys
      && (forall n :: n in walk.ctx ==>
        walk.ctx[n] == if InComponent(g, ignoreChild, bs, n) then newContext else old(walk.ctx)[n])
      && (forall j :: if JobConcerned(m, j) then JobMoved(m, walk.jobs, j) else JobKept(m, walk.jobs, j))
  {
    ghost var m := Move(g, ignoreChild, bs, newContext, walk.ctx, walk.jobs);
    walk.ignore := ignoreChild;
    walk.attached := [];
    if walk.ctx[bs] == newContext {
      return;
    }
    WalkStarts(m);
    walk.SetAioContextIgnore(g, bs, newContext, m, {});
    forall n ensures n in Elems(walk.attached) <==> InComponent(g, ignoreChild, bs, n) {
      WalkCovers(m, walk.Now(), n);
    }
    forall j ensures if JobConcerned(m, j) then JobMoved(m, walk.jobs, j) else JobKept(m, walk.jobs, j) {
      JobsCovered(m, walk.Now(), j);
    }
  }
}
