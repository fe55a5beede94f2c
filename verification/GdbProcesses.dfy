/**
 The processes of the GDB stub in gdbstub.c: one for each cluster of CPUs, and one for the CPUs without a cluster.
 */
module GdbProcesses {
  import opened Options
  import opened VCont

  /** The process of a cluster. */
  function ClusterProcess(cluster: nat): Process {
    Process(cluster + 1, false)
  }

  function ClusterProcesses(clusters: seq<nat>): (ps: seq<Process>)
    ensures |ps| == |clusters| && forall i :: 0 <= i < |ps| ==> ps[i] == ClusterProcess(clusters[i])
  {
    seq(|clusters|, i requires 0 <= i < |clusters| => ClusterProcess(clusters[i]))
  }

  ghost predicate SortedByPid(ps: seq<Process>) {
    forall i, k :: 0 <= i < k < |ps| ==> ps[i].pid <= ps[k].pid
  }

  lemma PutInOrder(ps: seq<Process>, p: Process, i: nat)
    requires SortedByPid(ps) && i <= |ps| && (i > 0 ==> ps[i - 1].pid <= p.pid)
    requires forall k :: i <= k < |ps| ==> p.pid < ps[k].pid
    ensures SortedByPid(ps[..i] + [p] + ps[i..])
  {
    var r := ps[..i] + [p] + ps[i..];
    forall a, b | 0 <= a < b < |r| ensures r[a].pid <= r[b].pid {
      assert a < i ==> ps[a].pid <= ps[i - 1].pid;
    }
  }

  /** One more process at its place. */
  method InsertByPid(ps: seq<Process>, p: Process) returns (r: seq<Process>)
    requires SortedByPid(ps)
    ensures SortedByPid(r) && multiset(r) == multiset(ps) + multiset{p}
  {
    var i := |ps|;
    while i > 0 && ps[i - 1].pid > p.pid
      invariant 0 <= i <= |ps| && forall k :: i <= k < |ps| ==> p.pid < ps[k].pid
    {
      i := i - 1;
    }
    PutInOrder(ps, p, i);
    r := ps[..i] + [p] + ps[i..];
    assert multiset(ps) == multiset(ps[..i] + ps[i..]) by {
      assert ps == ps[..i] + ps[i..];
    }
  }

  /** qsort with pid_order */
  method SortByPid(ps: seq<Process>) returns (r: seq<Process>)
    ensures SortedByPid(r) && multiset(r) == multiset(ps)
  {
    r := [];
    for i := 0 to |ps|
      invariant SortedByPid(r) && multiset(r) == multiset(ps[..i])
    {
      assert ps[..i + 1] == ps[..i] + [ps[i]];
      r := InsertByPid(r, ps[i]);
    }
    assert ps[..|ps|] == ps;
  }

  /** The processes of the clusters in the order of their numbers, and at last the default process. */
  ghost predicate Created(clusters: seq<nat>, ps: seq<Process>) {
    && |ps| > 0 && SortedByPid(ps)
    && multiset(ps[..|ps| - 1]) == multiset(ClusterProcesses(clusters))
    && (forall i :: 0 <= i < |ps| - 1 ==> ps[i].pid < ps[|ps| - 1].pid) && 0 < ps[|ps| - 1].pid < UINT32_SIZE
    && (forall i :: 0 <= i < |ps| ==> !ps[i].attached)
  }

  /** Two cluster numbers leave no number for a process: that of the cluster, or the one after it. */
  predicate TooLarge(cluster: nat) {
    cluster == UINT32_SIZE - 1 || cluster == UINT32_SIZE - 2
  }

  lemma SameElements<T>(a: seq<T>, b: seq<T>, x: T)
    requires multiset(a) == multiset(b)
    ensures |a| == |b| && (x in a <==> x in b)
  {
    assert |multiset(a)| == |a| && |multiset(b)| == |b|;
    assert x in multiset(a) <==> x in a;
    assert x in multiset(b) <==> x in b;
  }

  /** A process is in the list if and only if it is that of a cluster. */
  lemma FromCluster(clusters: seq<nat>, ps: seq<Process>, p: Process)
    requires multiset(ps) == multiset(ClusterProcesses(clusters))
    ensures p in ps <==> p.pid > 0 && !p.attached && p.pid - 1 in clusters
  {
    SameElements(ps, ClusterProcesses(clusters), p);
    var cs := ClusterProcesses(clusters);
    if p.pid > 0 && !p.attached && p.pid - 1 in clusters {
      var i :| 0 <= i < |clusters| && clusters[i] == p.pid - 1;
      assert cs[i] == p;
    }
  }

  /** create_processes with find_cpu_clusters; None if an assertion fails, exactly for too large cluster numbers. */
  method CreateProcesses(clusters: seq<nat>) returns (r: Option<seq<Process>>)
    requires forall c :: c in clusters ==> c < UINT32_SIZE
    ensures r.None? <==> exists c :: c in clusters && TooLarge(c)
    ensures r.Some? ==> Created(clusters, r.value)
  {
    var ps := [];
    for i := 0 to |clusters|
      invariant ps == ClusterProcesses(clusters)[..i]
      invariant forall k :: 0 <= k < i ==> clusters[k] != UINT32_SIZE - 1
    {
      if clusters[i] == UINT32_SIZE - 1 {
        assert TooLarge(clusters[i]);
        return None;
      }
      ps := ps + [Process(clusters[i] + 1, false)];
    }
    assert ps == ClusterProcesses(clusters);
    ps := SortByPid(ps);
    r := WithDefault(clusters, ps);
  }

  /** The number of the last process is the largest, that of the last cluster. */
  lemma LastIsLargest(clusters: seq<nat>, ps: seq<Process>, c: nat)
    requires SortedByPid(ps) && multiset(ps) == multiset(ClusterProcesses(clusters))
    ensures c in clusters ==> ps != [] && c + 1 <= ps[|ps| - 1].pid
    ensures ps != [] ==> ps[|ps| - 1].pid > 0 && ps[|ps| - 1].pid - 1 in clusters
  {
    if c in clusters {
      FromCluster(clusters, ps, ClusterProcess(c));
      var i :| 0 <= i < |ps| && ps[i] == ClusterProcess(c);
      assert ps[i].pid <= ps[|ps| - 1].pid;
    }
    if ps != [] {
      FromCluster(clusters, ps, ps[|ps| - 1]);
    }
  }

  lemma SortedOneMore(ps: seq<Process>, p: Process)
    requires SortedByPid(ps) && (|ps| > 0 ==> ps[|ps| - 1].pid < p.pid)
    ensures SortedByPid(ps + [p]) && forall i :: 0 <= i < |ps| ==> ps[i].pid < p.pid
  {
  }

  lemma NoneAttached(clusters: seq<nat>, ps: seq<Process>)
    requires multiset(ps) == multiset(ClusterProcesses(clusters))
    ensures forall i :: 0 <= i < |ps| ==> !ps[i].attached
  {
    forall i | 0 <= i < |ps| ensures !ps[i].attached {
      FromCluster(clusters, ps, ps[i]);
    }
  }

  lemma DefaultFits(clusters: seq<nat>, ps: seq<Process>, max: nat)
    requires SortedByPid(ps) && multiset(ps) == multiset(ClusterProcesses(clusters))
    requires max == (if |ps| > 0 then ps[|ps| - 1].pid else 0) && max < UINT32_SIZE - 1
    ensures Created(clusters, ps + [Process(max + 1, false)])
  {
    var r := ps + [Process(max + 1, false)];
    assert r[..|r| - 1] == ps;
    SortedOneMore(ps, Process(max + 1, false));
    NoneAttached(clusters, ps);
  }

  lemma TooLargeIff(clusters: seq<nat>, ps: seq<Process>, max: nat)
    requires SortedByPid(ps) && multiset(ps) == multiset(ClusterProcesses(clusters))
    requires max == (if |ps| > 0 then ps[|ps| - 1].pid else 0)
    requires forall c :: c in clusters ==> c < UINT32_SIZE - 1
    ensures max >= UINT32_SIZE - 1 <==> exists c :: c in clusters && TooLarge(c)
  {
    LastIsLargest(clusters, ps, 0);
    if max >= UINT32_SIZE - 1 {
      assert TooLarge(max - 1);
    }
    if c :| c in clusters && TooLarge(c) {
      LastIsLargest(clusters, ps, c);
    }
  }

  /** create_default_process */
  method WithDefault(clusters: seq<nat>, ps: seq<Process>) returns (r: Option<seq<Process>>)
    requires SortedByPid(ps) && multiset(ps) == multiset(ClusterProcesses(clusters))
    requires forall c :: c in clusters ==> c < UINT32_SIZE - 1
    ensures r.None? <==> exists c :: c in clusters && TooLarge(c)
    ensures r.Some? ==> Created(clusters, r.value)
  {
    var max := if |ps| > 0 then ps[|ps| - 1].pid else 0;
    TooLargeIff(clusters, ps, max);
    if max >= UINT32_SIZE - 1 {
      return None;
    }
    DefaultFits(clusters, ps, max);
    r := Some(ps + [Process(max + 1, false)]);
  }

  /** The processes as created, some of them attached since. */
  ghost predicate SamePids(ps: seq<Process>, qs: seq<Process>) {
    |ps| == |qs| && forall i :: 0 <= i < |ps| ==> ps[i].pid == qs[i].pid
  }

  /** The CPU is in one of the clusters, or in none. */
  predicate Placed(clusters: seq<nat>, cpu: Cpu) {
    cpu.cluster.Some? ==> cpu.cluster.value in clusters
  }

  lemma PidOf(clusters: seq<nat>, ps: seq<Process>, m: Machine, cpu: Cpu)
    requires Created(clusters, ps) && SamePids(ps, m.processes) && Placed(clusters, cpu)
    ensures exists p :: p in m.processes && p.pid == CpuPid(m, cpu)
    ensures CpuPid(m, cpu) > 0
    ensures CpuPid(m, cpu) == ps[|ps| - 1].pid <==> cpu.cluster.None?
  {
    var n := |ps| - 1;
    if cpu.cluster.Some? {
      FromCluster(clusters, ps[..n], ClusterProcess(cpu.cluster.value));
      var i :| 0 <= i < n && ps[i] == ClusterProcess(cpu.cluster.value);
      assert m.processes[i] in m.processes;
    } else {
      assert m.processes[n] in m.processes;
    }
  }

  /**
   With the processes that were created, every CPU has a process, and two CPUs have the same one exactly if they
   are in the same cluster, or both in none.  This is what the vCont packet relies on.
   */
  lemma OneProcessPerCluster(clusters: seq<nat>, ps: seq<Process>, m: Machine, a: Cpu, b: Cpu)
    requires Created(clusters, ps) && SamePids(ps, m.processes) && Placed(clusters, a) && Placed(clusters, b)
    ensures GetProcess(m, CpuPid(m, a)).Some? && GetProcess(m, CpuPid(m, b)).Some?
    ensures GetProcess(m, CpuPid(m, a)) == GetProcess(m, CpuPid(m, b)) <==> a.cluster == b.cluster
  {
    PidOf(clusters, ps, m, a);
    PidOf(clusters, ps, m, b);
  }

  /** A machine with the processes that were created meets what the handling of vCont requires. */
  lemma CreatedIsValid(clusters: seq<nat>, ps: seq<Process>, m: Machine)
    requires Created(clusters, ps) && SamePids(ps, m.processes) && |m.cpus| > 0
    requires forall i :: 0 <= i < |m.cpus| ==> m.cpus[i].index < m.maxCpus && Placed(clusters, m.cpus[i])
    requires forall i, k :: 0 <= i < k < |m.cpus| ==> m.cpus[i].index != m.cpus[k].index
    ensures ValidMachine(m)
  {
    forall i | 0 <= i < |m.cpus| ensures GetProcess(m, CpuPid(m, m.cpus[i])).Some? {
      PidOf(clusters, ps, m, m.cpus[i]);
    }
    forall p | p in m.processes ensures p.pid > 0 {
      var i :| 0 <= i < |m.processes| && m.processes[i] == p;
      if i < |ps| - 1 {
        assert ps[i] in ps[..|ps| - 1];
        FromCluster(clusters, ps[..|ps| - 1], ps[i]);
      }
    }
  }
}
