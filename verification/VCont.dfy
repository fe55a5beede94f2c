/**
 The vCont packet of the GDB stub (gdb_handle_vcont in gdbstub.c): which CPU gets which action.

 The text is the packet buffer with a position in it; reading beyond the buffer gives the end mark.
 The C library's strtoul is a parameter.
 */
module VCont {
  import opened Options

  const ULONG_MAX: nat := 0xffff_ffff_ffff_ffff
  const UINT32_SIZE: nat := 0x1_0000_0000

  /** cluster is None for UNASSIGNED_CLUSTER_INDEX; gdbIndex is what cpu_gdb_index returns. */
  datatype Cpu = Cpu(index: nat, cluster: Option<nat>, gdbIndex: nat)

  datatype Process = Process(pid: nat, attached: bool)

  /** The CPUs in the order of CPU_FOREACH, and the processes. */
  datatype Machine = Machine(cpus: seq<Cpu>, processes: seq<Process>, maxCpus: nat)

  /** Thread selectors, as read_thread_id classifies them. */
  datatype Kind = OneThread(pid: nat, tid: nat) | AllThreads(pid: nat) | AllProcesses

  datatype Entry = Entry(action: char, kind: Kind)

  // --- Processes and CPUs ---

  /** gdb_get_process */
  function GetProcess(m: Machine, pid: nat): Option<Process>
    requires |m.processes| > 0
  {
    if pid == 0 then Some(m.processes[0]) else FindProcess(m.processes, pid)
  }

  function FindProcess(ps: seq<Process>, pid: nat): (r: Option<Process>)
    ensures r.Some? ==> r.value in ps && r.value.pid == pid
    ensures r.None? ==> forall p :: p in ps ==> p.pid != pid
  {
    if ps == [] then None else if ps[0].pid == pid then Some(ps[0]) else FindProcess(ps[1..], pid)
  }

  /** gdb_get_cpu_pid */
  function CpuPid(m: Machine, cpu: Cpu): nat
    requires |m.processes| > 0
  {
    if cpu.cluster.None? then m.processes[|m.processes| - 1].pid else cpu.cluster.value + 1
  }

  predicate ValidMachine(m: Machine) {
    && |m.cpus| > 0 && |m.processes| > 0
    && (forall p :: p in m.processes ==> p.pid > 0)
    && (forall i :: 0 <= i < |m.cpus| ==> m.cpus[i].index < m.maxCpus && GetProcess(m, CpuPid(m, m.cpus[i])).Some?)
    && (forall i, k :: 0 <= i < k < |m.cpus| ==> m.cpus[i].index != m.cpus[k].index)
  }

  /** The process of a CPU is attached. */
  predicate Attached(m: Machine, cpu: Cpu)
    requires |m.processes| > 0
  {
    var p := GetProcess(m, CpuPid(m, cpu));
    p.Some? && p.value.attached
  }

  // --- What a selector means ---

  /** No CPU before this one passes the test, and it does. */
  ghost predicate FirstWith(m: Machine, test: Cpu -> bool, i: nat) {
    i < |m.cpus| && test(m.cpus[i]) && forall k :: 0 <= k < i ==> !test(m.cpus[k])
  }

  /** The i-th CPU is the one that gdb_get_cpu finds for a selector of one thread. */
  ghost predicate IsTheThread(m: Machine, pid: nat, tid: nat, i: nat)
    requires |m.processes| > 0
  {
    if pid == 0 && tid == 0 then FirstWith(m, (c: Cpu) => |m.processes| > 0 && Attached(m, c), i)
    else if tid == 0 then
      && GetProcess(m, pid).Some? && GetProcess(m, pid).value.attached
      && FirstWith(m, (c: Cpu) => |m.processes| > 0 && CpuPid(m, c) == pid, i)
    else
      && FirstWith(m, (c: Cpu) => c.gdbIndex == tid, i)
      && Attached(m, m.cpus[i]) && (pid == 0 || CpuPid(m, m.cpus[i]) == pid)
  }

  /** The selector matches the i-th CPU. */
  ghost predicate Matches(m: Machine, kind: Kind, i: nat)
    requires |m.processes| > 0
  {
    && i < |m.cpus|
    && match kind
       case AllProcesses => Attached(m, m.cpus[i])
       case AllThreads(pid) =>
         GetProcess(m, pid).Some? && GetProcess(m, pid).value.attached
           && CpuPid(m, m.cpus[i]) == GetProcess(m, pid).value.pid
       case OneThread(pid, tid) => IsTheThread(m, pid, tid, i)
  }

  /** The selector is acceptable: its process is attached, its thread exists. */
  ghost predicate Acceptable(m: Machine, kind: Kind)
    requires |m.processes| > 0
  {
    match kind
    case AllProcesses => true
    case AllThreads(pid) => GetProcess(m, pid).Some? && GetProcess(m, pid).value.attached
    case OneThread(pid, tid) => exists i :: IsTheThread(m, pid, tid, i)
  }

  /** The selector names a whole process that does not exist. */
  predicate NoSuchProcess(m: Machine, kind: Kind)
    requires |m.processes| > 0
  {
    kind.AllThreads? && GetProcess(m, kind.pid).None?
  }

  /** Only CPUs of attached processes are ever matched. */
  lemma OnlyAttachedMatch(m: Machine, kind: Kind, i: nat)
    requires ValidMachine(m) && Matches(m, kind, i)
    ensures Attached(m, m.cpus[i])
  {
    if kind.AllThreads? {
      SameProcess(m, kind.pid, m.cpus[i]);
    } else if kind.OneThread? && kind.pid != 0 && kind.tid == 0 {
      SameProcess(m, kind.pid, m.cpus[i]);
    }
  }

  /** The process found for a number is the process of every CPU with that process number. */
  lemma SameProcess(m: Machine, pid: nat, cpu: Cpu)
    requires ValidMachine(m) && GetProcess(m, pid).Some? && CpuPid(m, cpu) == GetProcess(m, pid).value.pid
    ensures GetProcess(m, CpuPid(m, cpu)) == GetProcess(m, pid)
  {
    if pid == 0 {
      assert m.processes[0] in m.processes;
      assert FindProcess(m.processes, m.processes[0].pid) == Some(m.processes[0]);
    }
  }

  // --- The text ---

  /** What strtoul in base 16 reports: an error code, the value and where it stopped. */
  datatype Scan = Scan(err: int, value: nat, next: nat)

  type Scanner = (seq<char>, nat) -> Scan

  function At(b: seq<char>, i: nat): char {
    if i < |b| then b[i] else '\0'
  }

  function Stop(r: Scan, i: nat): nat {
    if r.next < i then i else r.next
  }

  /** Why a packet comes to nothing; NullProcess is the use of a process that gdb_get_process did not find. */
  datatype Error = NotSupported | Invalid | BadNumber(code: int) | NullProcess

  datatype Parsed = Good(entry: Entry, signal: Option<nat>, next: nat) | Bad(error: Error)

  /** read_thread_id; None for GDB_READ_THREAD_ERR */
  function ReadThreadId(scan: Scanner, b: seq<char>, at: nat): Option<(Kind, nat)> {
    var withPid := At(b, at) == 'p';
    var r := scan(b, at + 1);
    if withPid && r.err != 0 then None
    else
      var p, q := if withPid then r.value % (ULONG_MAX + 1) else 1, if withPid then Stop(r, at + 1) + 1 else at;
      var u := scan(b, q);
      if u.err != 0 then None
      else
        var t := u.value % (ULONG_MAX + 1);
        Some((if p == ULONG_MAX then AllProcesses
              else if t == ULONG_MAX then AllThreads(p % UINT32_SIZE)
              else OneThread(p % UINT32_SIZE, t % UINT32_SIZE), Stop(u, q)))
  }

  /** The thread part of an entry, from its position on. */
  function ReadSelector(scan: Scanner, b: seq<char>, q: nat, action: char, signal: Option<nat>): Parsed {
    if At(b, q) == '\0' || At(b, q) == ';' then Good(Entry(action, AllProcesses), signal, q)
    else if At(b, q) == ':' then
      var k := ReadThreadId(scan, b, q + 1);
      if k.None? then Bad(Invalid) else Good(Entry(action, k.value.0), signal, k.value.1)
    else Bad(NotSupported)
  }

  /** One entry of the packet. */
  function ReadEntry(scan: Scanner, b: seq<char>, p: nat): (r: Parsed)
    ensures r.Good? ==> r.next >= p + 2 && (r.entry.action == 'c' || r.entry.action == 's')
  {
    if At(b, p) != ';' then Bad(NotSupported)
    else
      var a := At(b, p + 1);
      if a == 'C' || a == 'S' then
        var r := scan(b, p + 2);
        if r.err != 0 then Bad(BadNumber(r.err))
        else ReadSelector(scan, b, Stop(r, p + 2), if a == 'C' then 'c' else 's', Some(r.value))
      else if a == 'c' || a == 's' then ReadSelector(scan, b, p + 2, a, None)
      else Bad(NotSupported)
  }

  /** The whole packet: its entries and the last signal named, or the first thing wrong with it. */
  datatype Packet = Accepted(entries: seq<Entry>, signal: Option<nat>) | Refused(error: Error)

  ghost function ReadAll(m: Machine, scan: Scanner, b: seq<char>, p: nat): Packet
    requires |m.processes| > 0
    decreases |b| - p
  {
    if At(b, p) == '\0' then Accepted([], None)
    else
      var r := ReadEntry(scan, b, p);
      if r.Bad? then Refused(r.error)
      else if NoSuchProcess(m, r.entry.kind) then Refused(NullProcess)
      else if !Acceptable(m, r.entry.kind) then Refused(Invalid)
      else
        var rest := ReadAll(m, scan, b, r.next);
        if rest.Refused? then rest
        else Accepted([r.entry] + rest.entries, if rest.signal.Some? then rest.signal else r.signal)
  }

  /** The action of the leftmost entry that matches a CPU. */
  ghost function Leftmost(m: Machine, entries: seq<Entry>, i: nat): Option<char>
    requires |m.processes| > 0
  {
    if entries == [] then None
    else if Matches(m, entries[0].kind, i) then Some(entries[0].action)
    else Leftmost(m, entries[1..], i)
  }

  lemma {:induction false} LeftmostSnoc(m: Machine, entries: seq<Entry>, e: Entry, i: nat)
    requires |m.processes| > 0
    ensures Leftmost(m, entries + [e], i) ==
      if Leftmost(m, entries, i).Some? then Leftmost(m, entries, i)
      else if Matches(m, e.kind, i) then Some(e.action)
      else None
  {
    if entries != [] {
      assert (entries + [e])[1..] == entries[1..] + [e];
      LeftmostSnoc(m, entries[1..], e, i);
    } else {
      assert Leftmost(m, [], i) == None;
      assert ([] + [e])[1..] == [];
    }
  }

  /** The leftmost matching entry, said with its position. */
  lemma {:induction false} LeftmostMeaning(m: Machine, entries: seq<Entry>, i: nat, k: nat)
    requires |m.processes| > 0 && k < |entries| && Matches(m, entries[k].kind, i)
    requires forall j :: 0 <= j < k ==> !Matches(m, entries[j].kind, i)
    ensures Leftmost(m, entries, i) == Some(entries[k].action)
  {
    if k > 0 {
      assert !Matches(m, entries[0].kind, i);
      LeftmostMeaning(m, entries[1..], i, k - 1);
    }
  }

  // --- The iterators ---

  /** gdb_next_attached_cpu: the first attached CPU from `from` on; the number of CPUs if there is none. */
  method NextAttachedCpu(m: Machine, from: nat) returns (i: nat)
    requires ValidMachine(m) && from <= |m.cpus|
    ensures from <= i <= |m.cpus| && (i < |m.cpus| ==> Attached(m, m.cpus[i]))
    ensures forall k :: from <= k < i ==> !Attached(m, m.cpus[k])
  {
    i := from;
    while i < |m.cpus|
      invariant from <= i <= |m.cpus| && forall k :: from <= k < i ==> !Attached(m, m.cpus[k])
    {
      if Attached(m, m.cpus[i]) {
        return;
      }
      i := i + 1;
    }
  }

  /** get_first_cpu_in_process and gdb_next_cpu_in_process */
  method NextCpuInProcess(m: Machine, pid: nat, from: nat) returns (i: nat)
    requires ValidMachine(m) && from <= |m.cpus|
    ensures from <= i <= |m.cpus| && (i < |m.cpus| ==> CpuPid(m, m.cpus[i]) == pid)
    ensures forall k :: from <= k < i ==> CpuPid(m, m.cpus[k]) != pid
  {
    i := from;
    while i < |m.cpus|
      invariant from <= i <= |m.cpus| && forall k :: from <= k < i ==> CpuPid(m, m.cpus[k]) != pid
    {
      if CpuPid(m, m.cpus[i]) == pid {
        return;
      }
      i := i + 1;
    }
  }

  /** find_cpu */
  method FindCpu(m: Machine, tid: nat) returns (i: nat)
    requires ValidMachine(m)
    ensures i <= |m.cpus| && (i < |m.cpus| ==> m.cpus[i].gdbIndex == tid)
    ensures forall k :: 0 <= k < i ==> m.cpus[k].gdbIndex != tid
  {
    i := 0;
    while i < |m.cpus|
      invariant i <= |m.cpus| && forall k :: 0 <= k < i ==> m.cpus[k].gdbIndex != tid
    {
      if m.cpus[i].gdbIndex == tid {
        return;
      }
      i := i + 1;
    }
  }

  /** gdb_get_cpu: the one CPU that the selector means, or none. */
  method GetCpu(m: Machine, pid: nat, tid: nat) returns (r: Option<nat>)
    requires ValidMachine(m)
    ensures r.Some? ==> IsTheThread(m, pid, tid, r.value)
    ensures r.None? ==> forall i :: !IsTheThread(m, pid, tid, i)
  {
    var i;
    if pid == 0 && tid == 0 {
      i := NextAttachedCpu(m, 0);
    } else if tid == 0 {
      var process := GetProcess(m, pid);
      if process.None? || !process.value.attached {
        return None;
      }
      i := NextCpuInProcess(m, process.value.pid, 0);
    } else {
      i := FindCpu(m, tid);
      if i < |m.cpus| && ((pid != 0 && CpuPid(m, m.cpus[i]) != pid) || !Attached(m, m.cpus[i])) {
        return None;
      }
    }
    return if i < |m.cpus| then Some(i) else None;
  }

  /** At most one CPU is meant by a selector of one thread. */
  lemma OneThreadIsOne(m: Machine, pid: nat, tid: nat, i: nat, k: nat)
    requires ValidMachine(m) && IsTheThread(m, pid, tid, i) && IsTheThread(m, pid, tid, k)
    ensures i == k
  {
  }

  // --- Marking and resuming ---

  /** An element of newstates: 0, 1 or an action. */
  datatype Mark = Absent | Plain | Do(action: char)

  function MarkOf(a: Option<char>): Mark {
    if a.None? then Plain else Do(a.value)
  }

  /** Every CPU is marked with the action of the leftmost entry that matches it. */
  ghost predicate Marked(m: Machine, marks: seq<Mark>, entries: seq<Entry>)
    requires ValidMachine(m) && |marks| == m.maxCpus
  {
    forall i: nat {:trigger Leftmost(m, entries, i)} :: i < |m.cpus| ==>
      marks[m.cpus[i].index] == MarkOf(Leftmost(m, entries, i))
  }

  /** The CPUs up to `upto` that match have been treated, and no others. */
  ghost predicate Treated(m: Machine, before: seq<Mark>, marks: seq<Mark>, e: Entry, upto: nat)
    requires ValidMachine(m) && |marks| == m.maxCpus && |before| == m.maxCpus
  {
    forall i: nat {:trigger m.cpus[i]} :: i < |m.cpus| ==>
      marks[m.cpus[i].index] ==
        if i < upto && Matches(m, e.kind, i) && before[m.cpus[i].index].Plain? then Do(e.action)
            else before[m.cpus[i].index]
  }

  method MarkOne(m: Machine, marks: array<Mark>, e: Entry, i: nat, ghost before: seq<Mark>)
    requires ValidMachine(m) && marks.Length == m.maxCpus == |before| && i < |m.cpus| && Matches(m, e.kind, i)
    requires Treated(m, before, marks[..], e, i)
    modifies marks
    ensures Treated(m, before, marks[..], e, i + 1)
  {
    var k := m.cpus[i].index;
    if marks[k].Plain? {
      marks[k] := Do(e.action);
    }
  }

  lemma TreatedOn(m: Machine, before: seq<Mark>, marks: seq<Mark>, e: Entry, from: nat, to: nat)
    requires ValidMachine(m) && |marks| == m.maxCpus == |before| && from <= to
    requires Treated(m, before, marks, e, from) && forall k :: from <= k < to && k < |m.cpus| ==> !Matches(m, e.kind, k)
    ensures Treated(m, before, marks, e, to)
  {
  }

  /** The loop over all attached CPUs. */
  method MarkAttached(m: Machine, marks: array<Mark>, e: Entry)
    requires ValidMachine(m) && marks.Length == m.maxCpus && e.kind.AllProcesses?
    modifies marks
    ensures Treated(m, old(marks[..]), marks[..], e, |m.cpus|)
  {
    ghost var before := marks[..];
    var i := NextAttachedCpu(m, 0);
    TreatedOn(m, before, marks[..], e, 0, i);
    while i < |m.cpus|
      invariant i <= |m.cpus| && (i < |m.cpus| ==> Attached(m, m.cpus[i])) && Treated(m, before, marks[..], e, i)
      decreases |m.cpus| - i
    {
      MarkOne(m, marks, e, i, before);
      var next := NextAttachedCpu(m, i + 1);
      TreatedOn(m, before, marks[..], e, i + 1, next);
      i := next;
    }
  }

  /** The loop over the CPUs of one process. */
  method MarkProcess(m: Machine, marks: array<Mark>, e: Entry, process: Process)
    requires ValidMachine(m) && marks.Length == m.maxCpus
    requires e.kind.AllThreads? && GetProcess(m, e.kind.pid) == Some(process) && process.attached
    modifies marks
    ensures Treated(m, old(marks[..]), marks[..], e, |m.cpus|)
  {
    ghost var before := marks[..];
    var i := NextCpuInProcess(m, process.pid, 0);
    TreatedOn(m, before, marks[..], e, 0, i);
    while i < |m.cpus|
      invariant i <= |m.cpus| && (i < |m.cpus| ==> CpuPid(m, m.cpus[i]) == process.pid)
      invariant Treated(m, before, marks[..], e, i)
      decreases |m.cpus| - i
    {
      MarkOne(m, marks, e, i, before);
      var next := NextCpuInProcess(m, process.pid, i + 1);
      TreatedOn(m, before, marks[..], e, i + 1, next);
      i := next;
    }
  }

  /** The switch of gdb_handle_vcont on the kind of selector. */
  method MarkEntry(m: Machine, marks: array<Mark>, e: Entry) returns (error: Option<Error>)
    requires ValidMachine(m) && marks.Length == m.maxCpus
    modifies marks
    ensures error.None? <==> Acceptable(m, e.kind)
    ensures error.Some? ==> error.value == if NoSuchProcess(m, e.kind) then NullProcess else Invalid
    ensures error.None? ==> Treated(m, old(marks[..]), marks[..], e, |m.cpus|)
  {
    ghost var before := marks[..];
    match e.kind
    case AllProcesses =>
      MarkAttached(m, marks, e);
      return None;
    case AllThreads(pid) =>
      var process := GetProcess(m, pid);
      if process.None? {
        return Some(NullProcess);
      }
      if !process.value.attached {
        return Some(Invalid);
      }
      MarkProcess(m, marks, e, process.value);
      return None;
    case OneThread(pid, tid) =>
      var cpu := GetCpu(m, pid, tid);
      if cpu.None? {
        return Some(Invalid);
      }
      ghost var i := cpu.value;
      forall k | 0 <= k < |m.cpus| && k != i ensures !Matches(m, e.kind, k) {
        if Matches(m, e.kind, k) {
          OneThreadIsOne(m, pid, tid, i, k);
        }
      }
      TreatedOn(m, before, marks[..], e, 0, i);
      MarkOne(m, marks, e, cpu.value, before);
      TreatedOn(m, before, marks[..], e, i + 1, |m.cpus|);
      return None;
  }

  /** One more entry. */
  lemma MarkedMore(m: Machine, before: seq<Mark>, marks: seq<Mark>, entries: seq<Entry>, e: Entry)
    requires ValidMachine(m) && |marks| == m.maxCpus == |before| && Marked(m, before, entries)
    requires Treated(m, before, marks, e, |m.cpus|)
    ensures Marked(m, marks, entries + [e])
  {
    forall i: nat | i < |m.cpus| ensures marks[m.cpus[i].index] == MarkOf(Leftmost(m, entries + [e], i)) {
      LeftmostSnoc(m, entries, e, i);
    }
  }

  /** Selectors of whole processes name processes that exist, as far as the packet is read. */
  ghost predicate ProcessesExist(m: Machine, scan: Scanner, b: seq<char>, p: nat)
    requires |m.processes| > 0
    decreases |b| - p
  {
    At(b, p) != '\0' ==>
      var r := ReadEntry(scan, b, p);
      r.Good? ==>
        && (r.entry.kind.AllThreads? ==> GetProcess(m, r.entry.kind.pid).Some?)
        && (Acceptable(m, r.entry.kind) ==> ProcessesExist(m, scan, b, r.next))
  }

  /** What was read so far, put before what is still to come. */
  ghost function Before(entries: seq<Entry>, signal: Option<nat>, rest: Packet): Packet {
    if rest.Refused? then rest else Accepted(entries + rest.entries, if rest.signal.Some? then rest.signal else signal)
  }

  /** The packet runs into a missing process exactly when not all processes it selects exist. */
  lemma {:induction false} NullProcessIff(m: Machine, scan: Scanner, b: seq<char>, p: nat)
    requires |m.processes| > 0
    ensures ReadAll(m, scan, b, p) == Refused(NullProcess) <==> !ProcessesExist(m, scan, b, p)
    decreases |b| - p
  {
    if At(b, p) != '\0' {
      var r := ReadEntry(scan, b, p);
      if r.Good? && Acceptable(m, r.entry.kind) {
        NullProcessIff(m, scan, b, r.next);
      }
    }
  }

  /** The build; in system mode the machine may be unable to start (it needs a reset or is held back). */
  datatype Build = UserMode | SystemMode(starts: bool)

  class Server {
    var signal: nat
    var resumed: set<nat>    // CPUs told one by one to go on
    var stepping: set<nat>   // CPUs told to take one step
    var runningState: bool   // user mode: all CPUs go on

    /** gdb_continue_partial */
    method ContinuePartial(m: Machine, marks: array<Mark>, build: Build)
      requires ValidMachine(m) && marks.Length == m.maxCpus
      modifies this`resumed, this`stepping, this`runningState
      ensures runningState == (old(runningState) || build.UserMode?)
      ensures resumed ==
        if build != SystemMode(true) then {}
        else set i | 0 <= i < |m.cpus| && marks[m.cpus[i].index].Do? :: m.cpus[i].index
      ensures stepping ==
        if build == SystemMode(false) then {}
        else set i | 0 <= i < |m.cpus| && marks[m.cpus[i].index] == Do('s') :: m.cpus[i].index
    {
      resumed, stepping := {}, {};
      if build == SystemMode(false) {
        return;
      }
      for i := 0 to |m.cpus|
        invariant runningState == old(runningState)
        invariant resumed ==
          if build.UserMode? then {} else set k | 0 <= k < i && marks[m.cpus[k].index].Do? :: m.cpus[k].index
        invariant stepping == set k | 0 <= k < i && marks[m.cpus[k].index] == Do('s') :: m.cpus[k].index
      {
        var index := m.cpus[i].index;
        if marks[index] == Do('s') {
          stepping := stepping + {index};
        }
        if build.SystemMode? && marks[index].Do? {
          resumed := resumed + {index};
        }
      }
      if build.UserMode? {
        runningState := true;
      }
    }

    /**
     gdb_handle_vcont; toTarget is gdb_signal_to_target.  An accepted packet gives every CPU the action
     of its leftmost matching entry.  System mode resumes exactly the CPUs that have an action; user mode
     lets all CPUs go on and only tells the stepping ones apart.  A packet that is not accepted changes
     nothing; it runs into a missing process exactly when it selects one.
     */
    method HandleVCont(m: Machine, build: Build, scan: Scanner, b: seq<char>, toTarget: nat -> nat)
      returns (error: Option<Error>)
      requires ValidMachine(m)
      modifies this
      ensures error == Some(NullProcess) <==> !ProcessesExist(m, scan, b, 0)
      ensures ReadAll(m, scan, b, 0).Refused? ==>
        error == Some(ReadAll(m, scan, b, 0).error) && unchanged(this)
      ensures ReadAll(m, scan, b, 0).Accepted? ==>
        var a := ReadAll(m, scan, b, 0);
        && error == None
        && signal == (if a.signal.Some? then toTarget(a.signal.value) else 0)
        && runningState == (old(runningState) || build.UserMode?)
        && resumed == (if build != SystemMode(true) then {}
                       else set i | 0 <= i < |m.cpus| && Leftmost(m, a.entries, i).Some? :: m.cpus[i].index)
        && stepping == (if build == SystemMode(false) then {}
                        else set i | 0 <= i < |m.cpus| && Leftmost(m, a.entries, i) == Some('s') :: m.cpus[i].index)
    {
      var marks := new Mark[m.maxCpus](_ => Absent);
      MarkPresent(m, marks);
      ghost var whole, done, named := ReadAll(m, scan, b, 0), [], None;
      NullProcessIff(m, scan, b, 0);
      var p, sig := 0, 0;
      assert Before([], None, whole) == whole;
      while At(b, p) != '\0'
        invariant Marked(m, marks[..], done) && whole == Before(done, named, ReadAll(m, scan, b, p))
        invariant sig == (if named.Some? then toTarget(named.value) else 0)
        modifies marks
        decreases |b| - p
      {
        var r := ReadEntry(scan, b, p);
        if r.Bad? {
          return Some(r.error);
        }
        if r.signal.Some? {
          sig := toTarget(r.signal.value);
        }
        ghost var before := marks[..];
        error := MarkEntry(m, marks, r.entry);
        if error.Some? {
          return;
        }
        MarkedMore(m, before, marks[..], done, r.entry);
        BeforeMore(m, scan, b, p, done, named);
        done, named := done + [r.entry], if r.signal.Some? then r.signal else named;
        p := r.next;
      }
      signal := sig;
      assert whole.entries == done;
      ContinuePartial(m, marks, build);
      MarksDecide(m, marks[..], done);
      return None;
    }
  }

  /** mark valid CPUs with 1 */
  method MarkPresent(m: Machine, marks: array<Mark>)
    requires ValidMachine(m) && marks.Length == m.maxCpus
    modifies marks
    ensures Marked(m, marks[..], [])
  {
    for i := 0 to |m.cpus|
      invariant forall k :: 0 <= k < i ==> marks[m.cpus[k].index] == Plain
    {
      marks[m.cpus[i].index] := Plain;
    }
  }

  lemma BeforeMore(m: Machine, scan: Scanner, b: seq<char>, p: nat, done: seq<Entry>, named: Option<nat>)
    requires |m.processes| > 0 && At(b, p) != '\0' && ReadEntry(scan, b, p).Good?
    requires Acceptable(m, ReadEntry(scan, b, p).entry.kind)
    ensures var r := ReadEntry(scan, b, p);
      Before(done, named, ReadAll(m, scan, b, p)) ==
      Before(done + [r.entry], if r.signal.Some? then r.signal else named, ReadAll(m, scan, b, r.next))
  {
    var r := ReadEntry(scan, b, p);
    var rest := ReadAll(m, scan, b, r.next);
    if rest.Accepted? {
      assert done + ([r.entry] + rest.entries) == done + [r.entry] + rest.entries;
    }
  }

  lemma MarksDecide(m: Machine, marks: seq<Mark>, entries: seq<Entry>)
    requires ValidMachine(m) && |marks| == m.maxCpus && Marked(m, marks, entries)
    ensures forall i :: 0 <= i < |m.cpus| ==>
      (marks[m.cpus[i].index].Do? <==> Leftmost(m, entries, i).Some?)
        && (marks[m.cpus[i].index] == Do('s') <==> Leftmost(m, entries, i) == Some('s'))
  {
  }

  // --- Well-formed packets ---

  /** A number, in some notation, ends before one of these. */
  predicate EndsNumber(c: char) {
    c == '\0' || c == ';' || c == ':' || c == '.'
  }

  /** The text t stands at position i. */
  ghost predicate Stands(b: seq<char>, i: nat, t: seq<char>) {
    i + |t| <= |b| && b[i..i + |t|] == t
  }

  /** A number that stands at position i and ends there is read as that number. */
  ghost predicate ReadsAt(scan: Scanner, text: nat -> seq<char>, b: seq<char>, i: nat, v: nat) {
    Stands(b, i, text(v)) && EndsNumber(At(b, i + |text(v)|)) ==> scan(b, i) == Scan(0, v, i + |text(v)|)
  }

  /** A number is not empty and cannot be taken for the mark of a process. */
  ghost predicate Numeral(text: nat -> seq<char>, v: nat) {
    text(v) != [] && text(v)[0] != 'p'
  }

  /** The scanner reads every number that is written out, up to where it ends. */
  ghost predicate Reads(scan: Scanner, text: nat -> seq<char>) {
    && (forall b: seq<char>, i: nat, v: nat {:trigger ReadsAt(scan, text, b, i, v)} :: v <= ULONG_MAX ==>
          ReadsAt(scan, text, b, i, v))
    && forall v: nat {:trigger Numeral(text, v)} :: v <= ULONG_MAX ==> Numeral(text, v)
  }

  /** A selector as it is written: nothing, a thread, or a process and a thread. */
  datatype Selector = Silent | Thread(thread: nat) | Of(process: nat, thread: nat)

  function SelectorText(text: nat -> seq<char>, sel: Selector): seq<char> {
    match sel
    case Silent => []
    case Thread(t) => [':'] + text(t)
    case Of(p, t) => [':', 'p'] + text(p) + ['.'] + text(t)
  }

  /**
   What a selector means.  Saying nothing selects everything, and so does the largest number as a process.  As a
   thread it selects the whole process.  A thread alone is one of the first process.
   */
  function Selected(sel: Selector): Kind {
    match sel
    case Silent => AllProcesses
    case Thread(t) => Numbered(1, t)
    case Of(p, t) => Numbered(p, t)
  }

  function Numbered(p: nat, t: nat): Kind {
    if p == ULONG_MAX then AllProcesses
    else if t == ULONG_MAX then AllThreads(p)
    else OneThread(p, t)
  }

  /** A number of a process or thread, or the one that stands for all. */
  predicate IsId(v: nat) {
    v < UINT32_SIZE || v == ULONG_MAX
  }

  function ActionText(text: nat -> seq<char>, action: char, signal: Option<nat>): seq<char> {
    if signal.None? then [action] else [if action == 'c' then 'C' else 'S'] + text(signal.value)
  }

  /** An entry, and how its selector and its signal are written. */
  datatype Item = Item(entry: Entry, sel: Selector, signal: Option<nat>)

  function ItemText(text: nat -> seq<char>, x: Item): seq<char> {
    [';'] + ActionText(text, x.entry.action, x.signal) + SelectorText(text, x.sel)
  }

  function PacketText(text: nat -> seq<char>, xs: seq<Item>): seq<char> {
    if xs == [] then [] else ItemText(text, xs[0]) + PacketText(text, xs[1..])
  }

  predicate ValidItem(x: Item) {
    && (x.entry.action == 'c' || x.entry.action == 's')
    && (x.signal.Some? ==> x.signal.value <= ULONG_MAX)
    && x.entry.kind == Selected(x.sel)
    && (!x.sel.Silent? ==> IsId(x.sel.thread))
    && (x.sel.Of? ==> IsId(x.sel.process))
  }

  lemma StandsSplit(b: seq<char>, i: nat, t: seq<char>, u: seq<char>)
    requires Stands(b, i, t + u)
    ensures Stands(b, i, t) && Stands(b, i + |t|, u)
  {
    assert b[i..i + |t|] == b[i..i + |t + u|][..|t|];
    assert b[i + |t|..i + |t| + |u|] == b[i..i + |t + u|][|t|..];
  }

  lemma StandsAt(b: seq<char>, i: nat, c: char)
    requires Stands(b, i, [c])
    ensures At(b, i) == c
  {
    assert b[i..i + 1][0] == c;
  }

  lemma ScanNumber(scan: Scanner, text: nat -> seq<char>, b: seq<char>, i: nat, v: nat)
    requires Reads(scan, text) && v <= ULONG_MAX && Stands(b, i, text(v)) && EndsNumber(At(b, i + |text(v)|))
    ensures scan(b, i) == Scan(0, v, i + |text(v)|)
  {
    assert ReadsAt(scan, text, b, i, v);
  }

  lemma BothStand(b: seq<char>, i: nat, u: seq<char>, v: seq<char>)
    requires Stands(b, i, ['p'] + u + ['.'] + v)
    ensures At(b, i) == 'p' && Stands(b, i + 1, u) && At(b, i + 1 + |u|) == '.' && Stands(b, i + 2 + |u|, v)
  {
    StandsSplit(b, i, ['p'] + u + ['.'], v);
    StandsSplit(b, i, ['p'] + u, ['.']);
    StandsSplit(b, i, ['p'], u);
    StandsAt(b, i, 'p');
    StandsAt(b, i + 1 + |u|, '.');
  }

  lemma ReadsNumbers(scan: Scanner, b: seq<char>, i: nat, p: nat, n: nat, t: nat, e: nat)
    requires At(b, i) == 'p' && i < n < e && IsId(p) && IsId(t)
    requires scan(b, i + 1) == Scan(0, p, n) && scan(b, n + 1) == Scan(0, t, e)
    ensures ReadThreadId(scan, b, i) == Some((Numbered(p, t), e))
  {
  }

  /** A process and a thread are read back. */
  lemma ReadsBoth(scan: Scanner, text: nat -> seq<char>, b: seq<char>, i: nat, p: nat, t: nat)
    requires Reads(scan, text) && IsId(p) && IsId(t)
    requires Stands(b, i, ['p'] + text(p) + ['.'] + text(t)) && EndsNumber(At(b, i + 2 + |text(p)| + |text(t)|))
    ensures ReadThreadId(scan, b, i) == Some((Numbered(p, t), i + 2 + |text(p)| + |text(t)|))
  {
    BothStand(b, i, text(p), text(t));
    ScanNumber(scan, text, b, i + 1, p);
    ScanNumber(scan, text, b, i + 2 + |text(p)|, t);
    ReadsNumbers(scan, b, i, p, i + 1 + |text(p)|, t, i + 2 + |text(p)| + |text(t)|);
  }

  /** A thread alone is read as a thread of process 1. */
  lemma ReadsThread(scan: Scanner, text: nat -> seq<char>, b: seq<char>, i: nat, t: nat)
    requires Reads(scan, text) && IsId(t)
    requires Stands(b, i, text(t)) && EndsNumber(At(b, i + |text(t)|))
    ensures ReadThreadId(scan, b, i) == Some((Selected(Thread(t)), i + |text(t)|))
  {
    ScanNumber(scan, text, b, i, t);
    assert Numeral(text, t);
    assert b[i..i + |text(t)|][0] == text(t)[0];
  }

  lemma ReadsSelector(scan: Scanner, text: nat -> seq<char>, b: seq<char>, q: nat, x: Item)
    requires Reads(scan, text) && ValidItem(x) && Stands(b, q, SelectorText(text, x.sel))
    requires At(b, q + |SelectorText(text, x.sel)|) == '\0' || At(b, q + |SelectorText(text, x.sel)|) == ';'
    ensures ReadSelector(scan, b, q, x.entry.action, x.signal) ==
      Good(x.entry, x.signal, q + |SelectorText(text, x.sel)|)
  {
    if !x.sel.Silent? {
      var rest := SelectorText(text, x.sel)[1..];
      assert SelectorText(text, x.sel) == [':'] + rest;
      StandsSplit(b, q, [':'], rest);
      StandsAt(b, q, ':');
      if x.sel.Of? {
        assert rest == ['p'] + text(x.sel.process) + ['.'] + text(x.sel.thread);
        ReadsBoth(scan, text, b, q + 1, x.sel.process, x.sel.thread);
      } else {
        assert rest == text(x.sel.thread);
        ReadsThread(scan, text, b, q + 1, x.sel.thread);
      }
    }
  }

  lemma ReadsAction(scan: Scanner, text: nat -> seq<char>, b: seq<char>, p: nat, action: char, signal: Option<nat>)
    requires Reads(scan, text) && (signal.Some? ==> signal.value <= ULONG_MAX)
    requires Stands(b, p, [';'] + ActionText(text, action, signal))
    requires EndsNumber(At(b, p + 1 + |ActionText(text, action, signal)|))
    ensures At(b, p) == ';' && At(b, p + 1) == ActionText(text, action, signal)[0]
    ensures signal.Some? ==> scan(b, p + 2) == Scan(0, signal.value, p + 1 + |ActionText(text, action, signal)|)
  {
    var act := ActionText(text, action, signal);
    StandsSplit(b, p, [';'], act);
    StandsAt(b, p, ';');
    assert act == [act[0]] + act[1..];
    StandsSplit(b, p + 1, [act[0]], act[1..]);
    StandsAt(b, p + 1, act[0]);
    if signal.Some? {
      assert act[1..] == text(signal.value);
      ScanNumber(scan, text, b, p + 2, signal.value);
    }
  }

  /** What follows an action: a selector, the next entry or the end. */
  lemma AfterAction(text: nat -> seq<char>, b: seq<char>, q: nat, sel: Selector)
    requires Stands(b, q, SelectorText(text, sel))
    requires At(b, q + |SelectorText(text, sel)|) == '\0' || At(b, q + |SelectorText(text, sel)|) == ';'
    ensures EndsNumber(At(b, q))
  {
    var s := SelectorText(text, sel);
    if s != [] {
      assert s == [':'] + s[1..];
      StandsSplit(b, q, [':'], s[1..]);
      StandsAt(b, q, ':');
    }
  }

  /** An entry that is written out is read back, wherever it stands. */
  lemma ReadsItem(scan: Scanner, text: nat -> seq<char>, b: seq<char>, p: nat, x: Item)
    requires Reads(scan, text) && ValidItem(x) && Stands(b, p, ItemText(text, x))
    requires At(b, p + |ItemText(text, x)|) == '\0' || At(b, p + |ItemText(text, x)|) == ';'
    ensures ReadEntry(scan, b, p) == Good(x.entry, x.signal, p + |ItemText(text, x)|)
  {
    var act := ActionText(text, x.entry.action, x.signal);
    StandsSplit(b, p, [';'] + act, SelectorText(text, x.sel));
    var q := p + 1 + |act|;
    AfterAction(text, b, q, x.sel);
    ReadsAction(scan, text, b, p, x.entry.action, x.signal);
    ReadsSelector(scan, text, b, q, x);
  }

  function LastSignal(xs: seq<Item>): Option<nat> {
    if xs == [] then None
    else if LastSignal(xs[1..]).Some? then LastSignal(xs[1..])
    else xs[0].signal
  }

  function EntriesOf(xs: seq<Item>): seq<Entry> {
    if xs == [] then [] else [xs[0].entry] + EntriesOf(xs[1..])
  }

  /** The text is empty or begins with the mark of an entry. */
  predicate Begins(t: seq<char>) {
    t == [] || t[0] == ';'
  }

  lemma PacketBegins(text: nat -> seq<char>, xs: seq<Item>)
    ensures Begins(PacketText(text, xs)) && (xs != [] ==> PacketText(text, xs) != [])
  {
  }

  lemma ItemBegins(text: nat -> seq<char>, x: Item)
    ensures ItemText(text, x) != [] && Begins(ItemText(text, x))
  {
  }

  /** A piece of the text and the rest, up to the end. */
  lemma Pieces(b: seq<char>, p: nat, here: seq<char>, rest: seq<char>)
    requires Stands(b, p, here + rest) && p + |here + rest| == |b| && here != [] && Begins(here) && Begins(rest)
    ensures At(b, p) == ';' && Stands(b, p, here) && Stands(b, p + |here|, rest) && p + |here| + |rest| == |b|
    ensures At(b, p + |here|) == '\0' || At(b, p + |here|) == ';'
  {
    StandsSplit(b, p, here, rest);
    assert b[p..p + |here|][0] == here[0];
    if rest != [] {
      assert b[p + |here|..p + |here| + |rest|][0] == rest[0];
    }
  }

  /** Every entry is valid and names something that exists. */
  ghost predicate AllAcceptable(m: Machine, xs: seq<Item>)
    requires |m.processes| > 0
  {
    xs == [] || (ValidItem(xs[0]) && Acceptable(m, xs[0].entry.kind) && AllAcceptable(m, xs[1..]))
  }

  /** An entry and what was read after it. */
  lemma ReadAllStep(m: Machine, scan: Scanner, b: seq<char>, p: nat, r: Parsed, rest: Packet)
    requires |m.processes| > 0 && At(b, p) == ';' && ReadEntry(scan, b, p) == r && r.Good?
    requires Acceptable(m, r.entry.kind) && ReadAll(m, scan, b, r.next) == rest && rest.Accepted?
    ensures ReadAll(m, scan, b, p) ==
      Accepted([r.entry] + rest.entries, if rest.signal.Some? then rest.signal else r.signal)
  {
  }

  /** The text of a packet is that of its first entry and the rest. */
  lemma FirstPiece(text: nat -> seq<char>, b: seq<char>, p: nat, xs: seq<Item>)
    requires xs != [] && Stands(b, p, PacketText(text, xs)) && p + |PacketText(text, xs)| == |b|
    ensures var here, rest := ItemText(text, xs[0]), PacketText(text, xs[1..]); var next := p + |here|;
      && At(b, p) == ';' && Stands(b, p, here) && (At(b, next) == '\0' || At(b, next) == ';')
      && Stands(b, next, rest) && next + |rest| == |b|
  {
    var here, rest := ItemText(text, xs[0]), PacketText(text, xs[1..]);
    assert PacketText(text, xs) == here + rest;
    ItemBegins(text, xs[0]);
    PacketBegins(text, xs[1..]);
    Pieces(b, p, here, rest);
  }

  lemma FirstItem(scan: Scanner, text: nat -> seq<char>, b: seq<char>, p: nat, xs: seq<Item>)
    requires Reads(scan, text) && xs != [] && ValidItem(xs[0])
    requires Stands(b, p, PacketText(text, xs)) && p + |PacketText(text, xs)| == |b|
    ensures var next := p + |ItemText(text, xs[0])|;
      && At(b, p) == ';' && ReadEntry(scan, b, p) == Good(xs[0].entry, xs[0].signal, next)
      && Stands(b, next, PacketText(text, xs[1..])) && next + |PacketText(text, xs[1..])| == |b|
  {
    FirstPiece(text, b, p, xs);
    ReadsItem(scan, text, b, p, xs[0]);
  }

  /** Every well-formed packet is accepted with exactly its entries, in order, and its last signal. */
  lemma {:induction false} PacketIsRead(m: Machine, scan: Scanner, text: nat -> seq<char>, b: seq<char>, p: nat,
      xs: seq<Item>)
    requires |m.processes| > 0 && Reads(scan, text) && Stands(b, p, PacketText(text, xs))
    requires p + |PacketText(text, xs)| == |b|
    requires AllAcceptable(m, xs)
    ensures ReadAll(m, scan, b, p) == Accepted(EntriesOf(xs), LastSignal(xs))
    decreases |xs|
  {
    if xs != [] {
      var next := p + |ItemText(text, xs[0])|;
      FirstItem(scan, text, b, p, xs);
      PacketIsRead(m, scan, text, b, next, xs[1..]);
      ReadAllStep(m, scan, b, p, Good(xs[0].entry, xs[0].signal, next),
        Accepted(EntriesOf(xs[1..]), LastSignal(xs[1..])));
    }
  }

  // --- Packets that select a missing process ---

  /** The k-th entry selects a process that does not exist, and those before it are acceptable. */
  ghost predicate MissesFirst(m: Machine, xs: seq<Item>, k: nat)
    requires |m.processes| > 0
  {
    && k < |xs| && NoSuchProcess(m, xs[k].entry.kind)
    && forall j :: 0 <= j < k ==> Acceptable(m, xs[j].entry.kind)
  }

  ghost predicate Misses(m: Machine, xs: seq<Item>)
    requires |m.processes| > 0
  {
    exists k: nat :: MissesFirst(m, xs, k)
  }

  lemma MissesLater(m: Machine, xs: seq<Item>)
    requires |m.processes| > 0 && xs != []
    ensures Misses(m, xs) <==>
      NoSuchProcess(m, xs[0].entry.kind) || (Acceptable(m, xs[0].entry.kind) && Misses(m, xs[1..]))
  {
    if k: nat :| MissesFirst(m, xs, k) && k > 0 {
      assert MissesFirst(m, xs[1..], k - 1);
    }
    if k: nat :| MissesFirst(m, xs[1..], k) && Acceptable(m, xs[0].entry.kind) {
      assert MissesFirst(m, xs, k + 1);
    }
    if NoSuchProcess(m, xs[0].entry.kind) {
      assert MissesFirst(m, xs, 0);
    }
  }

  lemma NullProcessLater(m: Machine, scan: Scanner, b: seq<char>, p: nat, r: Parsed)
    requires |m.processes| > 0 && At(b, p) == ';' && ReadEntry(scan, b, p) == r && r.Good?
    ensures ReadAll(m, scan, b, p) == Refused(NullProcess) <==>
      NoSuchProcess(m, r.entry.kind)
      || (Acceptable(m, r.entry.kind) && ReadAll(m, scan, b, r.next) == Refused(NullProcess))
  {
  }

  /**
   A well-formed packet runs into a missing process if and only if one of its entries selects a process
   that does not exist and all entries before it are acceptable.
   */
  lemma {:induction false} MissingProcessIff(
      m: Machine, scan: Scanner, text: nat -> seq<char>, b: seq<char>, p: nat, xs: seq<Item>)
    requires |m.processes| > 0 && Reads(scan, text)
    requires Stands(b, p, PacketText(text, xs)) && p + |PacketText(text, xs)| == |b|
    requires forall x :: x in xs ==> ValidItem(x)
    ensures ReadAll(m, scan, b, p) == Refused(NullProcess) <==> Misses(m, xs)
    decreases |xs|
  {
    if xs != [] {
      var next := p + |ItemText(text, xs[0])|;
      FirstItem(scan, text, b, p, xs);
      NullProcessLater(m, scan, b, p, Good(xs[0].entry, xs[0].signal, next));
      MissesLater(m, xs);
      MissingProcessIff(m, scan, text, b, next, xs[1..]);
    }
  }

  /** On a machine with one process, number 1: the packet that continues all threads of process 5. */
  lemma MissingProcessExample(scan: Scanner)
    requires scan(";c:p5.-1", 4) == Scan(0, 5, 5) && scan(";c:p5.-1", 6) == Scan(0, ULONG_MAX, 8)
    ensures var m := Machine([Cpu(0, None, 1)], [Process(1, true)], 1);
      ValidMachine(m) && ReadAll(m, scan, ";c:p5.-1", 0) == Refused(NullProcess)
  {
    var b := ";c:p5.-1";
    assert At(b, 0) == ';' && At(b, 1) == 'c' && At(b, 2) == ':' && At(b, 3) == 'p';
    assert ReadThreadId(scan, b, 3) == Some((AllThreads(5), 8));
    assert ReadEntry(scan, b, 0) == Good(Entry('c', AllThreads(5)), None, 8);
  }

  /** By value: a thread alone, a thread of a process, a whole process, every process, and 32 bits of a number. */
  lemma SelectorsByValue(scan: Scanner)
    requires scan("1", 0) == Scan(0, 1, 1) && scan("p2.3", 1) == Scan(0, 2, 2) && scan("p2.3", 3) == Scan(0, 3, 4)
    requires scan("p2.-1", 1) == Scan(0, 2, 2) && scan("p2.-1", 3) == Scan(0, ULONG_MAX, 5)
    requires scan("p-1.-1", 1) == Scan(0, ULONG_MAX, 3) && scan("p-1.-1", 4) == Scan(0, ULONG_MAX, 6)
    requires scan("100000001", 0) == Scan(0, 0x1_0000_0001, 9)
    ensures ReadThreadId(scan, "100000001", 0) == Some((OneThread(1, 1), 9))
    ensures ReadThreadId(scan, "1", 0) == Some((OneThread(1, 1), 1))
    ensures ReadThreadId(scan, "p2.3", 0) == Some((OneThread(2, 3), 4))
    ensures ReadThreadId(scan, "p2.-1", 0) == Some((AllThreads(2), 5))
    ensures ReadThreadId(scan, "p-1.-1", 0) == Some((AllProcesses, 6))
  {
    assert At("100000001", 0) == '1' && At("1", 0) == '1';
    assert At("p2.3", 0) == 'p' && At("p2.-1", 0) == 'p' && At("p-1.-1", 0) == 'p';
  }
}
