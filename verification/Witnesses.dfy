/** Runs from boot, for every size of the machine, in which terminateProcess or the time-slice handler does harm. */
module Witnesses {
  import opened Basics
  import opened AslSpec
  import opened ProcessTree
  import opened NucleusState
  import opened NucleusInv
  import opened Termination
  import opened Machine
  import opened Interludes
  import opened Halt

  /** A machine and the initial values of its semaphores. */
  datatype Config = Config(maxproc: nat, ncpu: nat, cells: map<Key, int>, clock: Key, devices: set<Key>)

  function Booted(m: Config): State
    requires 1 <= m.ncpu <= m.maxproc
  {
    Boot(m.maxproc, m.ncpu, m.cells, m.clock, m.devices)
  }

  /** No CPU is between a requeue and the scheduler, and none executes a dead process. */
  ghost predicate Calm(b: State, s: State) {
    Leads(b, s) && Inv(s) && Rooted(s) && s.due == {} && s.adrift == {}
  }

  lemma JustBooted(m: Config) returns (b: State, r: Proc)
    requires 1 <= m.ncpu <= m.maxproc
    ensures b == Booted(m) && Calm(b, b) && b.ready == [r] && r == Root(b) && Live(b, r)
    ensures |b.cur| == m.ncpu && (forall c | 0 <= c < |b.cur| :: b.cur[c] == None) && |b.free| == m.maxproc - m.ncpu
  {
    hide Inv, Rooted, Interval, BootCells;
    b, r := Booted(m), m.maxproc - 1;
    BootInv(m.maxproc, m.ncpu, m.cells, m.clock, m.devices);
    BootLive(m.maxproc, m.ncpu, b);
    Stay(b);
  }

  lemma OneReady(s: State, c: nat, r: Proc)
    requires s.ready == [r] && c < |s.cur|
    ensures Dispatch(s, c).cur == s.cur[c := Some(r)] && Dispatch(s, c).ready == []
  {
  }

  /** The initial process runs on CPU 0. */
  lemma Begun(m: Config) returns (s: State, r: Proc)
    requires 1 <= m.ncpu <= m.maxproc
    ensures Calm(Booted(m), s) && Active(s, 0) && s.ready == [] && |s.cur| == m.ncpu && |s.free| == m.maxproc - m.ncpu
    ensures s.cur[0] == Some(r) && (forall c | 1 <= c < |s.cur| :: s.cur[c] == None)
    ensures r == Root(s) && Live(s, r)
  {
    hide Inv, Rooted;
    var b;
    b, r := JustBooted(m);
    OneReady(b, 0, r);
    s := Step(b, Schedule(0));
    Onward(b, b, Schedule(0));
    StepRooted(b, Schedule(0));
  }

  /** The process on CPU 0 creates a child. */
  lemma Child(b: State, s: State) returns (t: State, p: Proc)
    requires Calm(b, s) && Active(s, 0) && s.free != []
    ensures Calm(b, t) && Active(t, 0) && t.cur == s.cur && t.ready == s.ready + [p] && |t.free| + 1 == |s.free|
    ensures p < |t.pcbs| && |t.pcbs| == |s.pcbs| && t.pcbs[p].parent == s.cur[0] && t.pcbs[p].pid > 0
    ensures forall q: Proc | Live(s, q) :: q != p && q < |s.pcbs| && t.pcbs[q].parent == s.pcbs[q].parent && Live(t, q)
  {
    hide Placed, Counted, Pids, Rooted;
    CreateInv(s, 0);
    p, t := s.free[|s.free| - 1], Step(s, CreateProcess(0));
    assert p in s.free;
    var _, _ := CreateLive(s, 0);
    Onward(b, s, CreateProcess(0));
    StepRooted(s, CreateProcess(0));
    assert Live(t, p);
  }

  /** The only ready process is dispatched on CPU 1. */
  lemma OnCpu1(b: State, s: State) returns (t: State)
    requires Calm(b, s) && |s.cur| >= 2 && s.cur[1] == None && |s.ready| == 1
    ensures Calm(b, t) && t.cur == s.cur[1 := Some(s.ready[0])] && t.ready == [] && t.free == s.free && t.pcbs == s.pcbs
    ensures Active(t, 1) && (Active(s, 0) ==> Active(t, 0)) && forall q: Proc :: Live(t, q) <==> Live(s, q)
  {
    hide Placed, Counted, Pids, Rooted;
    Onward(b, s, Schedule(1));
    StepRooted(s, Schedule(1));
    t := Step(s, Schedule(1));
    assert s.ready[0] in s.ready && Live(s, s.ready[0]);
  }

  /** A sibling of t, or its parent, is not below it. */
  lemma NotBelowSibling(s: State, r: Proc, t: Proc, p: Proc)
    requires Core(s) && t < |s.pcbs| && p < |s.pcbs| && p != t && s.pcbs[t].parent == Some(r) == s.pcbs[p].parent
    ensures r < |s.pcbs| && !Ancestor(s.pcbs, s.nextPid, t, r) && !Ancestor(s.pcbs, s.nextPid, t, p)
  {
    ParentNotBelow(s.pcbs, s.nextPid, r, t);
  }

  /** A parent that terminates one child while another is ready disappears itself: the scheduler overwrites its slot. */
  lemma ParentLost(m: Config) returns (s: State, p: Proc, t: Proc)
    requires 1 <= m.ncpu && m.ncpu + 2 <= m.maxproc
    ensures Leads(Booted(m), s) && Inv(s) && Active(s, 0) && p in s.ready && Live(s, t)
    ensures t < |s.pcbs| && Targets(s, 0, s.pcbs[t].pid, t)
    ensures !Inv(Dispatch(Termination.Kill(s, 0, t), 0))
  {
    hide Placed, Counted, Pids, Rooted;
    var b := Booted(m);
    var s0, _ := Begun(m);
    var s1;
    s1, p := Child(b, s0);
    assert Live(s1, p) by { assert p in s1.ready; }
    s, t := Child(b, s1);
    assert s.ready == [p, t] && t in s.ready;
    NotBelowSibling(s, s.cur[0].value, t, p);
    var s' := AfterKill(s, 0, t);
    DispatchKeepsIff(s', 0);
  }

  /** A child p of r runs on CPU 1, and another one, t, is the only ready process. */
  lemma TwoChildren(m: Config) returns (s: State, p: Proc, t: Proc)
    requires 2 <= m.ncpu && m.ncpu + 2 <= m.maxproc
    ensures Calm(Booted(m), s) && Active(s, 0) && Active(s, 1) && s.cur[1] == Some(p) && s.ready == [t]
    ensures p < |s.pcbs| && t < |s.pcbs| && p != t && s.pcbs[p].parent == s.pcbs[t].parent == s.cur[0]
    ensures s.pcbs[t].pid > 0
  {
    hide Placed, Counted, Pids, Rooted;
    var b := Booted(m);
    var s0, _ := Begun(m);
    var s1;
    s1, p := Child(b, s0);
    assert Live(s1, p) by { assert p in s1.ready; }
    var s2 := OnCpu1(b, s1);
    s, t := Child(b, s2);
  }

  /** The caller survives in its slot, and CPU 1 goes on. */
  lemma AfterSibling(s: State, p: Proc, t: Proc) returns (s1: State)
    requires Inv(s) && Active(s, 0) && Active(s, 1) && s.cur[1] == Some(p) && s.ready == [t] && s.due == {}
    requires p < |s.pcbs| && t < |s.pcbs| && p != t && s.pcbs[p].parent == s.pcbs[t].parent == s.cur[0]
    ensures Live(s, t) && s1 == Termination.Kill(s, 0, t) && Inv(s1) && s1.free != [] && s1.ready == [] && s1.due == {}
    ensures |s1.cur| >= 2 && s1.cur[0] == s.cur[0] && Executes(s1, 1)
  {
    hide Placed, Counted, Pids, Rooted;
    assert t in s.ready;
    NotBelowSibling(s, s.cur[0].value, t, p);
    assert Ancestor(s.pcbs, s.nextPid, t, t);
    s1 := AfterKill(s, 0, t);
    TerminateSlots(s, t, 0);
  }

  lemma CreatesInBetween(s1: State)
    requires Inv(s1) && s1.free != [] && |s1.cur| >= 2 && s1.cur[0].Some? && s1.due == {} && Executes(s1, 1)
    ensures Enabled(s1, CreateProcess(1)) && !Inv(Dispatch(Step(s1, CreateProcess(1)), 0))
  {
    CreateInv(s1, 1);
    DispatchKeepsIff(Step(s1, CreateProcess(1)), 0);
  }

  /** Nobody is ready outside the subtree, and yet the caller may be lost: a child that runs on CPU 1 creates a
      process between the caller's terminateProcess and its scheduler call. */
  lemma LostInBetween(m: Config) returns (s: State, t: Proc)
    requires 2 <= m.ncpu && m.ncpu + 2 <= m.maxproc
    ensures Leads(Booted(m), s) && Inv(s) && Active(s, 0) && Live(s, t) && s.ready == [t]
    ensures t < |s.pcbs| && Targets(s, 0, s.pcbs[t].pid, t)
    ensures Inv(Dispatch(Termination.Kill(s, 0, t), 0))
    ensures Enabled(Termination.Kill(s, 0, t), CreateProcess(1))
    ensures !Inv(Dispatch(Step(Termination.Kill(s, 0, t), CreateProcess(1)), 0))
  {
    hide Inv, Rooted;
    var p;
    s, p, t := TwoChildren(m);
    assert t in s.ready;
    var s1 := AfterSibling(s, p, t);
    DispatchKeepsIff(s1, 0);
    CreatesInBetween(s1);
  }

  /** The initial process terminates itself while its child runs on CPU 1: the scheduler would halt.  The child's CPU
      goes on and creates a process: it has no parent, and it is ready although the initial process is gone. */
  lemma OrphanBorn(m: Config) returns (s: State, s': State)
    requires 2 <= m.ncpu && m.ncpu + 1 <= m.maxproc
    ensures Leads(Booted(m), s) && Rooted(s) && Halts(s) && 1 in s.adrift
    ensures Leads(Booted(m), s') && Inv(s') && !Rooted(s') && !Halts(s')
    ensures Enabled(s, CreateProcess(1)) && s' == Step(s, CreateProcess(1))
  {
    hide Inv, Rooted;
    var b := Booted(m);
    var s2, r, p := ChildBeside(m);
    s := Step(s2, Kill(0, 0, r));
    Onward(b, s2, Kill(0, 0, r));
    RootKillsItself(s2, r, p);
    s' := StrayCreates(b, s);
  }

  lemma StrayCreates(b: State, s: State) returns (s': State)
    requires Leads(b, s) && Inv(s) && Rooted(s) && |s.cur| >= 2 && 1 in s.adrift && s.cur[1] == None && s.free != []
    ensures Enabled(s, CreateProcess(1)) && s' == Step(s, CreateProcess(1))
    ensures Leads(b, s') && Inv(s') && !Rooted(s') && !Halts(s')
  {
    hide Inv, Rooted;
    CreateKeepsRootedIff(s, 1);
    s' := Step(s, CreateProcess(1));
    Onward(b, s, CreateProcess(1));
  }

  /** A process may terminate itself. */
  lemma MayEnd(s: State, c: nat)
    requires Inv(s) && Active(s, c)
    ensures Live(s, s.cur[c].value) && Enabled(s, Kill(c, 0, s.cur[c].value))
  {
    assert Ancestor(s.pcbs, s.nextPid, s.cur[c].value, s.cur[c].value);
  }

  /** The initial process r on CPU 0 and its child p on CPU 1. */
  lemma ChildBeside(m: Config) returns (s: State, r: Proc, p: Proc)
    requires 2 <= m.ncpu && m.ncpu + 1 <= m.maxproc
    ensures Calm(Booted(m), s) && Active(s, 0) && Active(s, 1) && s.cur[0] == Some(r) && s.cur[1] == Some(p)
    ensures r == Root(s) && Live(s, r) && p < |s.pcbs| && s.pcbs[p].parent == Some(r) && Enabled(s, Kill(0, 0, r))
  {
    hide Inv, Rooted, Enabled;
    var b := Booted(m);
    var s0, _ := Begun(m);
    var s1;
    s1, p := Child(b, s0);
    s := OnCpu1(b, s1);
    r := s.cur[0].value;
    MayEnd(s, 0);
  }

  lemma RootKillsItself(s: State, r: Proc, p: Proc)
    requires Inv(s) && Rooted(s) && Active(s, 1) && s.cur[1] == Some(p) && r == Root(s) && Live(s, r)
    requires p < |s.pcbs| && s.pcbs[p].parent == Some(r)
    ensures var s' := Termination.Kill(s, 0, r);
      Rooted(s') && Halts(s') && 1 in s'.adrift && s'.free != [] && s'.cur[1] == None
  {
    hide Placed, Counted, Pids, Rooted;
    assert Ancestor(s.pcbs, s.nextPid, r, r) && Ancestor(s.pcbs, s.nextPid, r, p);
    KillRooted(s, 0, r);
    RootTakesAll(s);
    TerminateSlots(s, r, 1);
    KillFrees(s, 0, r);
  }

  /** The initial process is requeued by the time-slice handler of CPU 0. */
  lemma RequeuedRoot(m: Config) returns (s: State)
    requires 2 <= m.ncpu <= m.maxproc
    ensures Leads(Booted(m), s) && Inv(s) && s.due == {0} && s.adrift == {} && |s.cur| == m.ncpu
    ensures s.cur[0].Some? && s.ready == [s.cur[0].value] && s.cur[1] == None
  {
    hide Inv, Rooted;
    var s0, _ := Begun(m);
    Onward(Booted(m), s0, TimeOut(0));
    s := Step(s0, TimeOut(0));
  }

  /** CPU 1 dispatches it, and then the scheduler on CPU 0 finds nobody: the process is in two slots. */
  lemma DispatchedTwice(m: Config) returns (s: State)
    requires 2 <= m.ncpu <= m.maxproc
    ensures Leads(Booted(m), s) && Inv(s) && 0 in s.due && |s.cur| >= 2 && s.cur[0] == s.cur[1] != None
    ensures !Inv(Dispatch(s, 0))
  {
    hide Inv;
    var s1 := RequeuedRoot(m);
    Onward(Booted(m), s1, Schedule(1));
    s := Step(s1, Schedule(1));
    DispatchKeepsIff(s, 0);
  }

  /** A process may wait for a device: the state in which that device's interrupt finds a waiter. */
  lemma DeviceAwaited(m: Config, k: Key) returns (s: State)
    requires 1 <= m.ncpu <= m.maxproc && k in m.devices
    ensures Run(Booted(m), [Schedule(0), DoIo(0, k)], s) && Inv(s) && k in s.sem && Head(s.asl, k) != None
  {
    hide Inv, Rooted;
    var b, r := JustBooted(m);
    var s1 := NextInv(b, Schedule(0));
    OneReady(b, 0, r);
    s := NextInv(s1, DoIo(0, k));
    assert Run(s, [], s) && [DoIo(0, k)][1..] == [] && [Schedule(0), DoIo(0, k)][1..] == [DoIo(0, k)];
    assert Run(s1, [DoIo(0, k)], s);
  }
}
