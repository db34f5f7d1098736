/** Handlers release the lock before they call the scheduler, which takes it again.  What the other CPUs may do in
    between, and when the scheduler call is then harmless. */
module Interludes {
  import opened Basics
  import opened AslSpec
  import opened ProcessTree
  import opened NucleusState
  import opened NucleusInv
  import opened Termination
  import opened Machine

  /** Sections of CPUs other than c, one after the other. */
  ghost predicate Others(s: State, c: nat, acts: seq<Action>, s': State) {
    Run(s, acts, s') && forall i | 0 <= i < |acts| :: acts[i].c != c
  }

  /** Whatever the other CPUs do first, the scheduler call of CPU c keeps every process somewhere. */
  ghost predicate Harmless(s: State, c: nat) {
    forall acts, s' | Others(s, c, acts, s') :: c < |s'.cur| && Inv(Dispatch(s', c))
  }

  /** Another CPU's section can only clear the slot of CPU c. */
  ghost predicate SlotKept(s: State, s': State, c: nat) {
    c < |s.cur| && |s'.cur| == |s.cur| && (s'.cur[c] == s.cur[c] || s'.cur[c] == None) && (c in s'.due <==> c in s.due)
  }

  lemma SectionKeepsSlot(s: State, a: Action, c: nat)
    requires Enabled(s, a) && a.c != c && c < |s.cur|
    ensures SlotKept(s, Step(s, a), c)
  {
  }

  lemma {:induction false} OthersKeepSlot(s: State, c: nat, acts: seq<Action>, s': State)
    requires Inv(s) && Others(s, c, acts, s') && c < |s.cur|
    ensures Inv(s') && SlotKept(s, s', c)
    decreases |acts|
  {
    hide Inv;
    if acts != [] {
      var s1 := NextInv(s, acts[0]);
      SectionKeepsSlot(s, acts[0], c);
      assert forall i | 0 <= i < |acts[1..]| :: acts[1..][i] == acts[i + 1];
      OthersKeepSlot(s1, c, acts[1..], s');
    }
  }

  // ---------------------------------------------------------------------------------------------
  // The time-slice handler

  /** Requeue, sections of the other CPUs, and the scheduler call: in the end nothing is lost or doubled if and only
      if the scheduler finds somebody to dispatch or the requeued process was terminated. */
  lemma TimeSliceApartIff(s: State, c: nat, acts: seq<Action>, s': State)
    requires Inv(s) && Active(s, c) && Others(Requeue(s, c), c, acts, s')
    ensures c < |s'.cur| && (Inv(Dispatch(s', c)) <==> s'.ready != [] || s'.cur[c] == None)
  {
    RequeueInv(s, c);
    OthersKeepSlot(Requeue(s, c), c, acts, s');
    DispatchKeepsIff(s', c);
  }

  /** On one CPU that is always so. */
  lemma TimeSliceAlone(s: State, c: nat)
    requires Inv(s) && Active(s, c) && |s.cur| == 1
    ensures Harmless(Requeue(s, c), c)
  {
    var s1 := Requeue(s, c);
    forall acts, s' | Others(s1, c, acts, s') ensures c < |s'.cur| && Inv(Dispatch(s', c)) {
      if acts != [] { NobodyElse(s1, acts[0], c); }
      TimeSliceApartIff(s, c, acts, s');
    }
  }

  lemma NobodyElse(s: State, a: Action, c: nat)
    requires |s.cur| == 1 && c < |s.cur| && Enabled(s, a)
    ensures a.c == c
  {
  }

  /** Semaphores that somebody can be made to wait on hold 0 or 1, and the clock's is one of them. */
  ghost predicate Binary(s: State) {
    && |s.asl| <= |s.pcbs|
    && forall k | k == s.clock || k in s.devices || k in s.asl :: k in s.sem && (s.sem[k] == 0 || s.sem[k] == 1)
  }

  lemma BlockBinary(s: State, c: nat, k: Key)
    requires Binary(s) && Runs(s, c) && k in s.sem && (s.sem[k] == 0 || s.sem[k] == 1)
    ensures Binary(Block(s, c, k))
  {
  }

  lemma UnblockBinary(s: State, k: Key, v: int)
    requires Binary(s) && (v == 0 || v == 1)
    ensures Binary(Unblock(s, k, v))
  {
    RemoveSize(s.asl, k);
  }

  lemma KillBinary(s: State, c: nat, t: Proc)
    requires Binary(s) && Core(s) && Live(s, t)
    ensures Binary(Termination.Kill(s, c, t))
  {
    SameKeys(s.asl, Elems(Order(s, t)));
  }

  lemma StepBinary(s: State, a: Action)
    requires Binary(s) && Enabled(s, a)
    ensures Binary(Step(s, a))
  {
    hide Binary, Core, Inv, Block, Unblock, Termination.Kill, Terminate;
    match a
    case P(c, k) => if s.sem[k] == 0 { BlockBinary(s, c, k); } else { UnblockBinary(s, k, 0); }
    case V(c, k) => if s.sem[k] == 1 { BlockBinary(s, c, k); } else { UnblockBinary(s, k, 1); }
    case DoIo(c, k) => DeviceBinary(s, c, k);
    case Kill(c, pid, t) => TargetLive(s, c, pid, t); KillBinary(s, c, t);
    case ClockTick(c) => TickBinary(s, c);
    case _ => SameBinary(s, Step(s, a));
  }

  lemma DeviceBinary(s: State, c: nat, k: Key)
    requires Binary(s) && Runs(s, c) && k in s.devices
    ensures Binary(Block(s, c, k))
  {
    BlockBinary(s, c, k);
  }

  lemma TickBinary(s: State, c: nat)
    requires Binary(s)
    ensures Binary(Tick(s, c))
  {
    FewerKeys(s.asl, s.clock);
  }

  lemma SameBinary(s: State, s': State)
    requires Binary(s) && s'.asl == s.asl && |s'.pcbs| == |s.pcbs|
    requires s'.sem == s.sem && s'.clock == s.clock && s'.devices == s.devices
    ensures Binary(s')
  {
  }

  lemma SameKeys(m: Blocked, d: set<Proc>)
    ensures MinusAll(m, d).Keys == m.Keys && |MinusAll(m, d)| == |m|
  {
    assert |MinusAll(m, d).Keys| == |MinusAll(m, d)| && |m.Keys| == |m|;
  }

  lemma FewerKeys(m: Blocked, k: Key)
    ensures |m - {k}| <= |m| && (k in m ==> |m - {k}| < |m|)
  {
    assert (m - {k}).Keys == m.Keys - {k} && |m.Keys| == |m| && |(m - {k}).Keys| == |m - {k}|;
  }

  lemma RemoveSize(m: Blocked, k: Key)
    ensures |Remove(m, k).0| <= |m| && Remove(m, k).0.Keys <= m.Keys
  {
    FewerKeys(m, k);
  }

  lemma {:induction false} RunBinary(s: State, acts: seq<Action>, s': State)
    requires Binary(s) && Run(s, acts, s')
    ensures Binary(s')
    decreases |acts|
  {
    hide Binary, Enabled, Served, Step;
    if acts != [] {
      StepBinary(s, acts[0]);
      RunBinary(Step(s, acts[0]), acts[1..], s');
    }
  }

  /** There is always a semaphore to block on: P does it at 0, V at 1. */
  ghost predicate Blocks(s: State, k: Key) {
    k in s.sem && (s.sem[k] == 0 || s.sem[k] == 1) && Room(s, k)
  }

  lemma SomethingBlocks(s: State) returns (k: Key)
    requires Binary(s) && |s.pcbs| > 0
    ensures Blocks(s, k)
  {
    if |s.asl| < |s.pcbs| {
      k := s.clock;
    } else {
      if forall k :: k !in s.asl { assert false; }
      k :| k in s.asl;
    }
  }

  lemma Starts(s: State, d: nat)
    requires Inv(s) && d < |s.cur| && s.ready != []
    ensures Active(Dispatch(s, d), d) && d !in Dispatch(s, d).adrift
  {
    assert s.ready[0] in s.ready && Live(s, s.ready[0]);
  }

  lemma OthersThen(s: State, c: nat, a: Action, acts: seq<Action>, s': State)
    requires Enabled(s, a) && Served(s, a) && a.c != c && Others(Step(s, a), c, acts, s')
    ensures Others(s, c, [a] + acts, s')
  {
    RunThen(s, a, acts, s');
  }

  /** CPU d can make everybody who is ready block, one after the other. */
  lemma {:induction false} Drain(s: State, c: nat, d: nat, k: Key) returns (acts: seq<Action>, s': State)
    requires Inv(s) && Active(s, d) && d !in s.adrift && d != c && c < |s.cur| && c in s.due && Blocks(s, k)
    ensures Others(s, c, acts, s') && |s'.cur| == |s.cur| && s'.ready == [] && s'.cur[c] == s.cur[c]
    decreases |s.ready|
  {
    hide Inv;
    if s.ready == [] {
      acts, s' := [], s;
    } else {
      var a := if s.sem[k] == 0 then P(d, k) else V(d, k);
      var s1 := NextInv(s, a);
      var s2 := NextInv(s1, Schedule(d));
      Starts(s1, d);
      acts, s' := Drain(s2, c, d, k);
      OthersThen(s1, c, Schedule(d), acts, s');
      OthersThen(s, c, a, [Schedule(d)] + acts, s');
      acts := [a] + ([Schedule(d)] + acts);
    }
  }

  /** CPU d comes to execute something, if it does not already. */
  lemma Awake(s: State, c: nat, d: nat) returns (acts: seq<Action>, s': State)
    requires Inv(s) && Binary(s) && c < |s.cur| && c in s.due && d < |s.cur| && d != c && s.ready != []
    ensures Others(s, c, acts, s') && Inv(s') && Binary(s') && SameMachine(s, s')
    ensures Active(s', d) && d !in s'.adrift && c in s'.due && s'.cur[c] == s.cur[c]
  {
    hide Binary, Family, Pids, Placed, Counted;
    if Active(s, d) {
      acts, s' := [], s;
    } else if d in s.adrift {
      var s1 := NextInv(s, ClockTick(d));
      StepBinary(s, ClockTick(d));
      s' := Dispatched(s1, c, d);
      OthersThen(s1, c, Schedule(d), [], s');
      OthersThen(s, c, ClockTick(d), [Schedule(d)], s');
      acts := [ClockTick(d), Schedule(d)];
    } else {
      s' := Dispatched(s, c, d);
      OthersThen(s, c, Schedule(d), [], s');
      acts := [Schedule(d)];
    }
  }

  lemma Dispatched(s: State, c: nat, d: nat) returns (s': State)
    requires Inv(s) && Binary(s) && c < |s.cur| && c in s.due && d != c && s.ready != [] && Vacant(s, d) && d !in s.adrift
    ensures Enabled(s, Schedule(d)) && s' == Step(s, Schedule(d)) && Inv(s') && Binary(s') && SameMachine(s, s')
    ensures Active(s', d) && d !in s'.adrift && c in s'.due && s'.cur[c] == s.cur[c] && Others(s', c, [], s')
  {
    hide Inv;
    s' := NextInv(s, Schedule(d));
    StepBinary(s, Schedule(d));
    Starts(s, d);
  }

  lemma {:induction false} OthersJoin(s: State, c: nat, acts: seq<Action>, s1: State, more: seq<Action>, s': State)
    requires Others(s, c, acts, s1) && Others(s1, c, more, s')
    ensures Others(s, c, acts + more, s')
    decreases |acts|
  {
    hide Enabled, Served, Step;
    if acts == [] {
      assert acts + more == more;
    } else {
      assert forall i | 0 <= i < |acts[1..]| :: acts[1..][i] == acts[i + 1];
      OthersJoin(Step(s, acts[0]), c, acts[1..], s1, more, s');
      OthersThen(s, c, acts[0], acts[1..] + more, s');
      assert acts + more == [acts[0]] + (acts[1..] + more);
    }
  }

  /** The requeued process and everybody ready before it may block on another CPU while the slot still names it. */
  lemma TimeSliceHarms(s: State, c: nat)
    requires Inv(s) && Active(s, c) && Binary(s) && |s.cur| >= 2
    ensures !Harmless(Requeue(s, c), c)
  {
    hide Inv, Binary;
    var d := if c == 0 then 1 else 0;
    var s1 := NextInv(s, TimeOut(c));
    StepBinary(s, TimeOut(c));
    var acts1, s2 := Awake(s1, c, d);
    var k := SomethingBlocks(s2);
    var acts2, s' := Drain(s2, c, d, k);
    OthersJoin(s1, c, acts1, s2, acts2, s');
    OthersKeepSlot(s1, c, acts1 + acts2, s');
    DispatchKeepsIff(s', c);
  }

  /** In every state that a run from boot reaches, the time-slice handler is sure to do no harm if and only if there is
      one CPU. */
  lemma TimeSliceHarmlessIff(maxproc: nat, ncpu: nat, cells: map<Key, int>, clock: Key, devices: set<Key>,
                             acts: seq<Action>, s: State, c: nat)
    requires 1 <= ncpu <= maxproc && Run(Boot(maxproc, ncpu, cells, clock, devices), acts, s) && Active(s, c)
    ensures Harmless(Requeue(s, c), c) <==> ncpu == 1
  {
    hide Inv, Run, Interval;
    var b := Boot(maxproc, ncpu, cells, clock, devices);
    BootInv(maxproc, ncpu, cells, clock, devices);
    RunInv(b, acts, s);
    RunBinary(b, acts, s);
    if ncpu == 1 { TimeSliceAlone(s, c); } else { TimeSliceHarms(s, c); }
  }

  // ---------------------------------------------------------------------------------------------
  // terminateProcess

  /** CPU d is free to take a clock interrupt once t and its descendants are gone. */
  ghost predicate Answers(s: State, c: nat, t: Proc, d: nat)
    requires Core(s)
  {
    d != c && Slot(s, d) && (d !in s.due || s.cur[d] == None || Ancestor(s.pcbs, s.nextPid, t, s.cur[d].value))
  }

  /** Nobody outside the subtree of t is ready, no other CPU executes anything, and none can wake a survivor that
      waits for the clock. */
  ghost predicate Deserted(s: State, c: nat, t: Proc)
    requires Core(s)
  {
    && (forall p | p in s.ready :: p < |s.pcbs| && Ancestor(s.pcbs, s.nextPid, t, p))
    && (forall d | 0 <= d < |s.cur| && d != c :: !Executes(s, d))
    && (s.clock in s.asl && (exists d :: Answers(s, c, t, d)) ==>
          forall p | p in s.asl[s.clock] :: p < |s.pcbs| && Ancestor(s.pcbs, s.nextPid, t, p))
  }

  /** Nothing is ready and no other CPU can change that. */
  ghost predicate Still(s: State, c: nat) {
    && s.ready == [] && c < |s.cur| && c !in s.due
    && (forall d | 0 <= d < |s.cur| && d != c :: !Executes(s, d))
    && (Head(s.asl, s.clock) == None || forall d | 0 <= d < |s.cur| && d != c :: d in s.due && s.cur[d].Some?)
  }

  lemma SectionKeepsStill(s: State, a: Action, c: nat)
    requires Still(s, c) && Enabled(s, a) && a.c != c
    ensures Still(Step(s, a), c)
  {
    var d, s' := a.c, Step(s, a);
    assert d < |s.cur| && !Executes(s, d);
    assert a.ClockTick? || a.Schedule?;
    assert s'.cur == s.cur && s'.asl == s.asl && s'.ready == [];
    forall e | 0 <= e < |s'.cur| && e != c ensures !Executes(s', e) {
      assert !Executes(s, e);
    }
  }

  lemma {:induction false} StaysStill(s: State, c: nat, acts: seq<Action>, s': State)
    requires Still(s, c) && Others(s, c, acts, s')
    ensures Still(s', c)
    decreases |acts|
  {
    if acts != [] {
      SectionKeepsStill(s, acts[0], c);
      assert forall i | 0 <= i < |acts[1..]| :: acts[1..][i] == acts[i + 1];
      StaysStill(Step(s, acts[0]), c, acts[1..], s');
    }
  }

  lemma StillHarmless(s: State, c: nat)
    requires Inv(s) && Still(s, c)
    ensures Harmless(s, c)
  {
    forall acts, s' | Others(s, c, acts, s') ensures c < |s'.cur| && Inv(Dispatch(s', c)) {
      OthersKeepSlot(s, c, acts, s');
      StaysStill(s, c, acts, s');
      IdleInv(s', c);
    }
  }

  lemma ClearedHarmless(s: State, c: nat)
    requires Inv(s) && c < |s.cur| && s.cur[c] == None
    ensures Harmless(s, c)
  {
    forall acts, s' | Others(s, c, acts, s') ensures c < |s'.cur| && Inv(Dispatch(s', c)) {
      OthersKeepSlot(s, c, acts, s');
      DispatchInv(s', c);
    }
  }

  /** One way of losing the process that CPU c executes is enough. */
  lemma Harmful(s: State, c: nat, acts: seq<Action>, s': State)
    requires Inv(s) && Active(s, c) && Others(s, c, acts, s')
    requires c < |s'.cur| && s'.ready != [] && s'.cur[c] != None
    ensures !Harmless(s, c)
  {
    OthersKeepSlot(s, c, acts, s');
    DispatchKeepsIff(s', c);
    assert !Inv(Dispatch(s', c));
  }

  /** terminateProcess makes no other CPU start or stop executing. */
  lemma KillLetsExecute(s: State, c: nat, t: Proc, d: nat)
    requires Inv(s) && Live(s, t) && d < |s.cur| && d != c
    ensures Executes(s, d) <==> Executes(Termination.Kill(s, c, t), d)
  {
    TerminateSlots(s, t, d);
  }

  lemma KillFrees(s: State, c: nat, t: Proc)
    requires Inv(s) && Live(s, t)
    ensures Termination.Kill(s, c, t).free != []
  {
    OrderDoomable(s, t);
  }

  /** terminateProcess, seen from the CPUs. */
  lemma AfterKill(s: State, c: nat, t: Proc) returns (s1: State)
    requires Inv(s) && Active(s, c) && Live(s, t)
    ensures s1 == Termination.Kill(s, c, t) && Inv(s1) && s1.free != []
    ensures forall d | 0 <= d < |s.cur| && d != c :: Executes(s, d) <==> Executes(s1, d)
    ensures CallerDies(s, c, t) <==> s1.cur[c] == None
    ensures s1.ready == [] <==> forall p | p in s.ready :: p < |s.pcbs| && Ancestor(s.pcbs, s.nextPid, t, p)
    ensures |s1.cur| == |s.cur| && s1.due == s.due && s1.clock == s.clock
  {
    s1 := Termination.Kill(s, c, t);
    KillInv(s, c, t);
    KillFrees(s, c, t);
    TerminateSlots(s, t, c);
    SurvivorsReady(s, t);
    forall d | 0 <= d < |s.cur| && d != c ensures Executes(s, d) <==> Executes(s1, d) { KillLetsExecute(s, c, t, d); }
  }

  lemma SurvivorsReady(s: State, t: Proc)
    requires Inv(s) && Live(s, t)
    ensures Terminate(s, t).ready == [] <==> forall p | p in s.ready :: p < |s.pcbs| && Ancestor(s.pcbs, s.nextPid, t, p)
  {
    OnlyTheDead(s, t, s.ready);
  }

  /** What is left of a queue of live processes is empty exactly if all of them are t or below. */
  lemma OnlyTheDead(s: State, t: Proc, q: seq<Proc>)
    requires Inv(s) && Live(s, t)
    ensures Minus(q, Elems(Order(s, t))) == [] <==> forall p | p in q :: p < |s.pcbs| && Ancestor(s.pcbs, s.nextPid, t, p)
  {
    var r := Minus(q, Elems(Order(s, t)));
    forall p | p in q ensures p in r <==> !(p < |s.pcbs| && Ancestor(s.pcbs, s.nextPid, t, p)) {
      SubtreeExact(s.pcbs, s.nextPid, t, p);
    }
    if r != [] { assert r[0] in r; }
  }

  lemma WaitersAfterKill(s: State, c: nat, t: Proc)
    requires Inv(s) && Active(s, c) && Live(s, t)
    ensures Head(Termination.Kill(s, c, t).asl, s.clock) == None <==>
            (s.clock in s.asl ==> forall p | p in s.asl[s.clock] :: p < |s.pcbs| && Ancestor(s.pcbs, s.nextPid, t, p))
  {
    if s.clock in s.asl { OnlyTheDead(s, t, s.asl[s.clock]); }
  }

  lemma DesertedIsStill(s: State, c: nat, t: Proc)
    requires Inv(s) && Active(s, c) && Live(s, t) && !CallerDies(s, c, t) && Deserted(s, c, t)
    ensures Still(Termination.Kill(s, c, t), c)
  {
    hide Placed, Counted, Pids, Family;
    var s1 := AfterKill(s, c, t);
    WaitersAfterKill(s, c, t);
    forall d | 0 <= d < |s.cur| && d != c && !Answers(s, c, t, d) ensures d in s1.due && s1.cur[d].Some? {
      TerminateSlots(s, t, d);
    }
  }

  /** Another CPU that executes something can create a process. */
  lemma SomebodyCreates(s1: State, c: nat, d: nat)
    requires Inv(s1) && Active(s1, c) && d != c && Executes(s1, d) && s1.free != []
    ensures !Harmless(s1, c)
  {
    hide Placed, Counted, Pids, Family;
    CreateInv(s1, d);
    var s2 := Step(s1, CreateProcess(d));
    assert Run(s2, [], s2) && [CreateProcess(d)][1..] == [];
    assert Run(s1, [CreateProcess(d)], s2);
    Harmful(s1, c, [CreateProcess(d)], s2);
  }

  /** Another CPU takes the clock interrupt, after its own scheduler call if it owes one. */
  lemma ClockWakes(s1: State, c: nat, d: nat)
    requires Inv(s1) && Active(s1, c) && d != c && d < |s1.cur| && (d !in s1.due || s1.cur[d] == None)
    requires s1.ready == [] && Head(s1.asl, s1.clock) != None
    ensures !Harmless(s1, c)
  {
    var tick := ClockTick(d);
    if d in s1.due {
      var s2 := Step(s1, Schedule(d));
      var s3 := Step(s2, tick);
      assert Run(s3, [], s3) && [tick][1..] == [] && [Schedule(d), tick][1..] == [tick];
      assert Run(s2, [tick], s3);
      assert Run(s1, [Schedule(d), tick], s3);
      Harmful(s1, c, [Schedule(d), tick], s3);
    } else {
      var s2 := Step(s1, tick);
      assert Run(s2, [], s2) && [tick][1..] == [];
      assert Run(s1, [tick], s2);
      Harmful(s1, c, [tick], s2);
    }
  }

  lemma NotDesertedHarms(s: State, c: nat, t: Proc)
    requires Inv(s) && Active(s, c) && Live(s, t) && !CallerDies(s, c, t) && !Deserted(s, c, t)
    ensures !Harmless(Termination.Kill(s, c, t), c)
  {
    hide Placed, Counted, Pids, Family;
    var s1 := AfterKill(s, c, t);
    WaitersAfterKill(s, c, t);
    if s1.ready != [] {
      Harmful(s1, c, [], s1);
    } else if d :| 0 <= d < |s.cur| && d != c && Executes(s, d) {
      SomebodyCreates(s1, c, d);
    } else {
      var d :| Answers(s, c, t, d);
      TerminateSlots(s, t, d);
      ClockWakes(s1, c, d);
    }
  }

  /** terminateProcess always ends in the scheduler, which overwrites the caller's slot.  Whatever the other CPUs do
      before that, nothing is lost, if and only if the caller is among the dead or everything else is deserted. */
  lemma KillThenScheduleIff(s: State, c: nat, t: Proc)
    requires Inv(s) && Active(s, c) && Live(s, t)
    ensures Harmless(Termination.Kill(s, c, t), c) <==> CallerDies(s, c, t) || Deserted(s, c, t)
  {
    var s1 := AfterKill(s, c, t);
    if CallerDies(s, c, t) {
      ClearedHarmless(s1, c);
    } else if Deserted(s, c, t) {
      DesertedIsStill(s, c, t);
      StillHarmless(s1, c);
    } else {
      NotDesertedHarms(s, c, t);
    }
  }
}
