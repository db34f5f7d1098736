/** When createProcess finds an entry (phase2/exceptions.c:149-184), which test does not ask (phase3/initProc.c:99-110).
    */
module Capacity {
  import opened Basics
  import opened AslSpec
  import opened ProcessTree
  import opened NucleusState
  import opened NucleusInv
  import opened Termination
  import opened Machine

  /** What createProcess does, on any CPU: the new process has a larger pid than any before, is the youngest child of
      the process in the caller's slot, if there is one, and the last that is ready; nobody else notices. */
  lemma CreateExact(s: State, c: nat)
    requires Inv(s) && c < |s.cur|
    ensures Slot(s, c) && (s.free != [] ==> s.free[|s.free| - 1] < |s.pcbs|)
    ensures var (s', r) := Create(s, c);
      if s.free == [] then r == None && s' == s
      else r.Some? && Newborn(s, s', c, r.value) && Unnoticed(s, s', c, r.value)
  {
    hide Placed, Counted, Pids, Family, Lists;
    CreateInv(s, c);
    if s.free != [] {
      var p, s' := CreateLive(s, c);
      PidsBelow(s);
      SlotNotFree(s, c, p);
    }
  }

  lemma PidsBelow(s: State)
    requires Family(s)
    ensures forall q: Proc | q < |s.pcbs| :: s.pcbs[q].pid < s.nextPid
  {
  }

  lemma SlotNotFree(s: State, c: nat, p: Proc)
    requires Lists(s) && c < |s.cur| && p in s.free
    ensures p < |s.pcbs| && !Live(s, p) && s.cur[c] != Some(p)
  {
  }

  ghost predicate Newborn(s: State, s': State, c: nat, p: Proc)
    requires Slot(s, c)
  {
    && |s'.pcbs| == |s.pcbs| && p < |s.pcbs| && p in s.free && !Live(s, p) && Live(s', p)
    && s'.pcbs[p] == Pcb(s.cur[c], [], 0, s.nextPid) && s'.nextPid == s.nextPid + 1
    && (forall q: Proc | q < |s.pcbs| :: s.pcbs[q].pid < s'.pcbs[p].pid)
    && s'.ready == s.ready + [p] && s'.count == s.count + 1 && s.free == s'.free + [p]
    && (s.cur[c].Some? ==> s'.pcbs[s.cur[c].value].kids == s.pcbs[s.cur[c].value].kids + [p])
  }

  ghost predicate Unnoticed(s: State, s': State, c: nat, p: Proc)
    requires Slot(s, c)
  {
    && |s'.pcbs| == |s.pcbs| && s'.cur == s.cur && s'.asl == s.asl && s'.sem == s.sem && s'.idlers == s.idlers
    && (forall q: Proc | q < |s.pcbs| && q != p && s.cur[c] != Some(q) :: s'.pcbs[q] == s.pcbs[q])
    && (s.cur[c].Some? ==> var q := s.cur[c].value; s'.pcbs[q] == s.pcbs[q].(kids := s'.pcbs[q].kids))
  }

  /** In every run from boot, exactly when fewer processes live than boot left entries for. */
  lemma CreateSucceedsIff(maxproc: nat, ncpu: nat, cells: map<Key, int>, clock: Key, devices: set<Key>,
                          acts: seq<Action>, s: State, c: nat)
    requires 1 <= ncpu <= maxproc && Run(Boot(maxproc, ncpu, cells, clock, devices), acts, s) && c < ncpu
    ensures Slot(s, c) && (s.free != [] ==> s.free[|s.free| - 1] < |s.pcbs|)
    ensures Create(s, c).1 != None <==> s.count + ncpu <= maxproc
  {
    hide Run, Interval;
    BootInv(maxproc, ncpu, cells, clock, devices);
    RunInv(Boot(maxproc, ncpu, cells, clock, devices), acts, s);
    Conservation(maxproc, ncpu, cells, clock, devices, acts, s);
    if s.free != [] { assert s.free[|s.free| - 1] in s.free; }
  }

  /** The process on CPU 0 takes all entries that are left. */
  lemma {:induction false} TakesAll(b: State, s: State) returns (t: State)
    requires Leads(b, s) && Inv(s) && Active(s, 0)
    ensures Leads(b, t) && Inv(t) && t.free == []
    decreases |s.free|
  {
    hide Inv, Leads;
    if s.free == [] {
      t := s;
    } else {
      var s1 := TakesOne(b, s);
      t := TakesAll(b, s1);
    }
  }

  lemma TakesOne(b: State, s: State) returns (t: State)
    requires Leads(b, s) && Inv(s) && Active(s, 0) && s.free != []
    ensures Leads(b, t) && Inv(t) && Active(t, 0) && |t.free| < |s.free|
  {
    hide Placed, Counted, Pids, Leads;
    assert s.free[|s.free| - 1] in s.free;
    t := Step(s, CreateProcess(0));
    Onward(b, s, CreateProcess(0));
  }

  lemma UsedUp(maxproc: nat, ncpu: nat, cells: map<Key, int>, clock: Key, devices: set<Key>)
      returns (acts: seq<Action>, s: State)
    requires 1 <= ncpu <= maxproc
    ensures Run(Boot(maxproc, ncpu, cells, clock, devices), acts, s) && s.free == []
  {
    hide Inv, Run;
    var b := Boot(maxproc, ncpu, cells, clock, devices);
    BootInv(maxproc, ncpu, cells, clock, devices);
    Stay(b);
    Onward(b, b, Schedule(0));
    s := TakesAll(b, Step(b, Schedule(0)));
    acts :| Run(b, acts, s);
  }

  /** n processes beside the initial one are sure to find an entry each, in whatever order they come and go, if and only
      if MAXPROC is at least NCPU + n. */
  lemma EnoughForAllIff(maxproc: nat, ncpu: nat, cells: map<Key, int>, clock: Key, devices: set<Key>, n: nat)
    requires 1 <= ncpu <= maxproc
    ensures (forall acts, s | Run(Boot(maxproc, ncpu, cells, clock, devices), acts, s) && s.count <= n :: s.free != [])
            <==> ncpu + n <= maxproc
  {
    hide Run, Boot;
    var b := Boot(maxproc, ncpu, cells, clock, devices);
    forall acts, s | Run(b, acts, s) ensures s.count + |s.free| == maxproc - (ncpu - 1) {
      Conservation(maxproc, ncpu, cells, clock, devices, acts, s);
    }
    if maxproc < ncpu + n {
      var acts, s := UsedUp(maxproc, ncpu, cells, clock, devices);
      assert Run(b, acts, s) && s.count <= n && s.free == [];
    }
  }
}
