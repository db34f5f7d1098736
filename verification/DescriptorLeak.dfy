/** How descriptors leak (phase1/asl.c:94-99): a terminated process leaves its semaphore's descriptor active with an
    empty queue.  Whatever MAXPROC is, if boot leaves two entries free, some run from boot uses up the
    whole pool that way. */
module DescriptorLeak {
  import opened Basics
  import opened AslSpec
  import opened ProcessTree
  import opened NucleusState
  import opened NucleusInv
  import opened Termination
  import opened Machine

  /** A process runs on CPU 0 while nobody is ready, and there are entries for a child and a grandchild. */
  ghost predicate Alone(s: State) {
    Inv(s) && Active(s, 0) && s.ready == [] && |s.free| >= 2
  }

  /** What is of no concern to the queues and the tree. */
  ghost predicate SameRest(s: State, t: State) {
    SameMachine(s, t) && t.sem == s.sem && t.asl == s.asl
  }

  /** The process on CPU 0 creates a child. */
  lemma Creates(b: State, s: State) returns (t: State, p: Proc)
    requires Leads(b, s) && Inv(s) && Active(s, 0) && s.free != []
    ensures Leads(b, t) && Inv(t) && Active(t, 0) && SameRest(s, t)
    ensures p == s.free[|s.free| - 1] < |s.pcbs| && t.free == s.free[..|s.free| - 1] && t.cur == s.cur
    ensures t.ready == s.ready + [p] && t.pcbs[p].parent == s.cur[0]
    ensures forall q: Proc | Live(s, q) :: q != p && q < |s.pcbs| && t.pcbs[q].parent == s.pcbs[q].parent
  {
    hide Placed, Counted, Pids;
    CreateInv(s, 0);
    p, t := s.free[|s.free| - 1], Step(s, CreateProcess(0));
    assert p in s.free;
    Onward(b, s, CreateProcess(0));
  }

  /** The scheduler finds somebody. */
  lemma Dispatches(b: State, s: State) returns (t: State)
    requires Leads(b, s) && Inv(s) && Vacant(s, 0) && 0 !in s.adrift && s.ready != []
    ensures Leads(b, t) && Inv(t) && Active(t, 0) && SameRest(s, t) && t.pcbs == s.pcbs && t.free == s.free
    ensures t.cur[0] == Some(s.ready[0]) && t.ready == s.ready[1..]
  {
    hide Placed, Counted, Pids;
    t := Step(s, Schedule(0));
    Onward(b, s, Schedule(0));
    assert s.ready[0] in s.ready && Live(s, s.ready[0]);
  }

  lemma TimesOut(b: State, s: State) returns (t: State)
    requires Leads(b, s) && Inv(s) && Active(s, 0)
    ensures Leads(b, t) && Inv(t) && SameRest(s, t) && t.pcbs == s.pcbs && t.free == s.free && t.cur == s.cur
    ensures t.ready == s.ready + [s.cur[0].value] && Vacant(t, 0) && 0 !in t.adrift
  {
    hide Placed, Counted, Pids;
    t := Step(s, TimeOut(0));
    Onward(b, s, TimeOut(0));
  }

  /** Its time slice ends and the next process runs. */
  lemma Yields(b: State, s: State) returns (t: State)
    requires Leads(b, s) && Inv(s) && Active(s, 0) && s.ready != []
    ensures Leads(b, t) && Inv(t) && Active(t, 0) && SameRest(s, t) && t.pcbs == s.pcbs && t.free == s.free
    ensures t.cur[0] == Some(s.ready[0]) && t.ready == s.ready[1..] + [s.cur[0].value]
  {
    hide Inv;
    var s1 := TimesOut(b, s);
    t := Dispatches(b, s1);
  }

  lemma Rotated(q: seq<Proc>, p: Proc, r: Proc)
    ensures q == [] ==> (q + [p])[0] == p && (q + [p])[1..] + [r] == [r]
    ensures |q| == 1 ==> (q + [p])[0] == q[0] && (q + [p])[1..] + [r] == [p, r]
    ensures |q| == 2 ==> q[1..] + [r] == [q[1], r]
  {
  }

  /** It creates a child and its time slice ends. */
  lemma Spawns(b: State, s: State) returns (t: State, p: Proc)
    requires Leads(b, s) && Inv(s) && Active(s, 0) && s.free != [] && |s.ready| <= 1
    ensures Leads(b, t) && Inv(t) && Active(t, 0) && SameRest(s, t) && |t.free| + 1 == |s.free| && p < |s.pcbs|
    ensures t.cur[0] == Some(if s.ready == [] then p else s.ready[0])
    ensures t.ready == if s.ready == [] then [s.cur[0].value] else [p, s.cur[0].value]
    ensures t.pcbs[p].parent == s.cur[0]
    ensures forall q: Proc | Live(s, q) :: q < |s.pcbs| && t.pcbs[q].parent == s.pcbs[q].parent
  {
    hide Inv;
    var s1;
    s1, p := Creates(b, s);
    t := Yields(b, s1);
    Rotated(s.ready, p, s.cur[0].value);
  }

  /** It blocks on k, for which there is no descriptor yet, and the next process runs. */
  lemma Blocks(b: State, s: State, k: Key) returns (t: State)
    requires Leads(b, s) && Inv(s) && Active(s, 0) && s.ready != []
    requires k in s.sem && s.sem[k] == 0 && k !in s.asl && |s.asl| < |s.pcbs|
    ensures Leads(b, t) && Inv(t) && Active(t, 0) && SameMachine(s, t) && t.sem == s.sem && t.free == s.free
    ensures t.asl == s.asl[k := [s.cur[0].value]] && t.cur[0] == Some(s.ready[0]) && t.ready == s.ready[1..]
    ensures forall q: Proc | q < |s.pcbs| :: t.pcbs[q].parent == s.pcbs[q].parent
  {
    hide Placed, Counted, Pids;
    var s1 := Step(s, P(0, k));
    Onward(b, s, P(0, k));
    t := Dispatches(b, s1);
  }

  /** It terminates itself and with it its child, which waits at k; its parent runs. */
  lemma Dies(b: State, s: State, r: Proc, p: Proc, q: Proc, k: Key) returns (t: State)
    requires Leads(b, s) && Inv(s) && Active(s, 0) && s.cur[0] == Some(p) && s.ready == [r]
    requires p < |s.pcbs| && s.pcbs[p].parent == Some(r) && q < |s.pcbs| && s.pcbs[q].parent == Some(p)
    requires k in s.asl && s.asl[k] == [q]
    ensures Leads(b, t) && Inv(t) && Active(t, 0) && SameMachine(s, t) && t.sem == s.sem && |t.free| >= |s.free| + 2
    ensures t.asl.Keys == s.asl.Keys && t.asl[k] == [] && t.ready == [] && t.cur[0] == Some(r)
  {
    hide Placed, Counted, Pids;
    assert Live(s, p);
    assert Ancestor(s.pcbs, s.nextPid, p, p) && Ancestor(s.pcbs, s.nextPid, p, q);
    ParentNotBelow(s.pcbs, s.nextPid, r, p);
    var s1 := Step(s, Kill(0, 0, p));
    Onward(b, s, Kill(0, 0, p));
    Gone(s, p, q, r, k);
    TerminateSlots(s, p, 0);
    t := Dispatches(b, s1);
  }

  /** p and q are freed, r stays ready, and k keeps its descriptor. */
  lemma Gone(s: State, p: Proc, q: Proc, r: Proc, k: Key)
    requires Inv(s) && Live(s, p) && s.ready == [r] && r < |s.pcbs| && k in s.asl && s.asl[k] == [q]
    requires q < |s.pcbs| && p != q
    requires Ancestor(s.pcbs, s.nextPid, p, p) && Ancestor(s.pcbs, s.nextPid, p, q)
    requires !Ancestor(s.pcbs, s.nextPid, p, r)
    ensures var t := Terminate(s, p);
      && |t.free| >= |s.free| + 2 && t.asl.Keys == s.asl.Keys && t.asl[k] == [] && t.ready == [r] && t.sem == s.sem
  {
    hide Placed, Counted, Pids, Tree;
    var o := Order(s, p);
    OrderDoomable(s, p);
    SubtreeExact(s.pcbs, s.nextPid, p, p);
    SubtreeExact(s.pcbs, s.nextPid, p, q);
    SubtreeExact(s.pcbs, s.nextPid, p, r);
    TwoMembers(o, p, q);
    MinusOne(q, Elems(o));
    MinusOne(r, Elems(o));
  }

  lemma TwoMembers(o: seq<Proc>, p: Proc, q: Proc)
    requires p in o && q in o && p != q
    ensures |o| >= 2
  {
  }

  lemma MinusOne(q: Proc, d: set<Proc>)
    ensures Minus([q], d) == if q in d then [] else [q]
  {
  }

  /** A child p of r, and a child q of p that runs. */
  lemma Grandchild(b: State, s: State, r: Proc) returns (t: State, p: Proc, q: Proc)
    requires Leads(b, s) && Alone(s) && s.cur[0] == Some(r)
    ensures Leads(b, t) && Inv(t) && Active(t, 0) && SameRest(s, t) && |t.free| + 2 == |s.free|
    ensures t.cur[0] == Some(q) && t.ready == [p, r]
    ensures p < |t.pcbs| && t.pcbs[p].parent == Some(r) && q < |t.pcbs| && t.pcbs[q].parent == Some(p)
  {
    hide Placed, Counted, Pids;
    var s1, s2;
    s1, p := Spawns(b, s);
    assert Live(s1, p);
    s2, q := Spawns(b, s1);
    t := Yields(b, s2);
    Rotated(s2.ready, q, r);
  }

  /** One round: a grandchild waits at k, its parent terminates both, and k keeps a descriptor for nobody. */
  lemma Round(b: State, s: State, k: Key) returns (t: State)
    requires Leads(b, s) && Alone(s) && k in s.sem && s.sem[k] == 0 && k !in s.asl && |s.asl| < |s.pcbs|
    ensures Leads(b, t) && Alone(t) && SameMachine(s, t) && t.sem == s.sem
    ensures t.asl.Keys == s.asl.Keys + {k} && t.asl[k] == []
  {
    hide Inv;
    var r := s.cur[0].value;
    var s1, p, q := Grandchild(b, s, r);
    var s2 := Blocks(b, s1, k);
    t := Dies(b, s2, r, p, q, k);
  }

  /** As many rounds as there are keys. */
  lemma {:induction false} Rounds(b: State, s: State, ks: seq<Key>) returns (t: State)
    requires Leads(b, s) && Alone(s) && NoDup(ks) && |s.asl| + |ks| <= |s.pcbs|
    requires forall k | k in ks :: k in s.sem && s.sem[k] == 0 && k !in s.asl
    ensures Leads(b, t) && Alone(t) && SameMachine(s, t) && t.sem == s.sem && |t.asl| == |s.asl| + |ks|
    ensures forall k :: k in t.asl <==> k in s.asl || k in ks
    decreases |ks|
  {
    hide Inv;
    if ks == [] {
      t := s;
    } else {
      assert ks[0] in ks && forall k | k in ks[1..] :: k in ks && k != ks[0];
      var s1 := Round(b, s, ks[0]);
      OneMore(s, s1, ks[0]);
      assert forall k :: k in s1.asl <==> k in s1.asl.Keys;
      t := Rounds(b, s1, ks[1..]);
    }
  }

  lemma OneMore(s: State, s1: State, k: Key)
    requires k !in s.asl && s1.asl.Keys == s.asl.Keys + {k}
    ensures |s1.asl| == |s.asl| + 1
  {
    assert |s.asl.Keys| == |s.asl| && |s1.asl.Keys| == |s1.asl|;
  }

  lemma StartAlone(maxproc: nat, ncpu: nat, cells: map<Key, int>, clock: Key, devices: set<Key>) returns (s: State)
    requires 1 <= ncpu && ncpu + 2 <= maxproc
    ensures Leads(Boot(maxproc, ncpu, cells, clock, devices), s) && Alone(s) && |s.pcbs| == maxproc && s.asl == map[]
    ensures s.sem == BootCells(cells, clock, devices)
  {
    hide Inv, Leads, BootCells, Interval, Alone;
    var b := Boot(maxproc, ncpu, cells, clock, devices);
    BootInv(maxproc, ncpu, cells, clock, devices);
    Stay(b);
    s := Dispatches(b, b);
    FirstAlone(maxproc, ncpu, cells, clock, devices, s);
  }

  lemma FirstAlone(maxproc: nat, ncpu: nat, cells: map<Key, int>, clock: Key, devices: set<Key>, s: State)
    requires 1 <= ncpu && ncpu + 2 <= maxproc && Inv(s) && Active(s, 0) && s.ready == []
    requires s.free == Boot(maxproc, ncpu, cells, clock, devices).free
    ensures Alone(s)
  {
    hide Inv, Interval, BootTable, BootCells;
  }

  lemma Zero(cells: map<Key, int>, clock: Key, devices: set<Key>, k: Key)
    requires k in cells && cells[k] == 0
    ensures k in BootCells(cells, clock, devices) && BootCells(cells, clock, devices)[k] == 0
  {
  }

  /** On every machine with two entries to spare: a run from boot after which all descriptors are kept for empty queues,
      so that the process that then calls P on one more semaphore is lost. */
  lemma ProcessLost(maxproc: nat, ncpu: nat, cells: map<Key, int>, clock: Key, devices: set<Key>, ks: seq<Key>, k: Key)
      returns (s: State)
    requires 1 <= ncpu && ncpu + 2 <= maxproc == |ks| && NoDup(ks) && k !in ks
    requires forall j | j in ks + [k] :: j in cells && cells[j] == 0
    ensures Leads(Boot(maxproc, ncpu, cells, clock, devices), s) && Inv(s)
    ensures Enabled(s, P(0, k)) && !Inv(Step(s, P(0, k)))
  {
    hide Inv, Leads, Boot, BootCells;
    var s0 := StartAlone(maxproc, ncpu, cells, clock, devices);
    forall j | j in ks + [k] ensures j in s0.sem && s0.sem[j] == 0 { Zero(cells, clock, devices, j); }
    assert forall j | j in ks :: j in ks + [k];
    assert k in ks + [k];
    s := Rounds(Boot(maxproc, ncpu, cells, clock, devices), s0, ks);
    BlockKeepsIff(s, 0, k);
  }
}
