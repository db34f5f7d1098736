/** Runs of the nucleus: any interleaving of lock-held sections on any number of CPUs, from boot. */
module Machine {
  import opened Basics
  import opened AslSpec
  import opened ProcessTree
  import opened NucleusState
  import opened NucleusInv
  import opened Termination

  /** One lock-held section.  Kill is terminateProcess(pid), whose search yields t; waitForClock is P on the
      clock; TimeOut is the time-slice handler up to its scheduler call. */
  datatype Action =
    | CreateProcess(c: nat)
    | Kill(c: nat, pid: int, t: Proc)
    | P(c: nat, k: Key)
    | V(c: nat, k: Key)
    | DoIo(c: nat, k: Key)
    | ClockTick(c: nat)
    | TimeOut(c: nat)
    | Schedule(c: nat)

  /** CPU c executes a process, be it one that was terminated meanwhile. */
  predicate Executes(s: State, c: nat) {
    Active(s, c) || (c in s.adrift && c < |s.cur| && s.cur[c] == None)
  }

  /** The caller of terminateProcess is among the dead, so that its CPU slot is cleared. */
  ghost predicate CallerDies(s: State, c: nat, t: Proc) {
    Core(s) && Active(s, c) && Live(s, t) && Ancestor(s.pcbs, s.nextPid, t, s.cur[c].value)
  }

  /** The section would find a semaphore descriptor if it needs one. */
  predicate Served(s: State, a: Action) {
    match a
    case P(c, k) => k in s.sem && s.sem[k] == 0 ==> Room(s, k)
    case V(c, k) => k in s.sem && s.sem[k] == 1 ==> Room(s, k)
    case DoIo(c, k) => Room(s, k)
    case _ => true
  }

  /** CPU c comes to this section, and the section has a defined effect: it uses no slot that is NULL, and a
      scheduler call does not overwrite a process or leave a requeued one in the slot. */
  ghost predicate Enabled(s: State, a: Action) {
    match a
    case CreateProcess(c) => Executes(s, c) && (s.free != [] ==> s.free[|s.free| - 1] < |s.pcbs|)
    case Kill(c, pid, t) => Core(s) && Executes(s, c) && Targets(s, c, pid, t) && (Active(s, c) ==> CallerDies(s, c, t))
    case P(c, k) => k in s.sem && Executes(s, c) && (s.sem[k] == 0 ==> Active(s, c))
    case V(c, k) => k in s.sem && Executes(s, c) && (s.sem[k] == 1 ==> Active(s, c))
    case DoIo(c, k) => Active(s, c) && k in s.devices
    case ClockTick(c) => c < |s.cur| && c !in s.due
    case TimeOut(c) => Active(s, c)
    case Schedule(c) => Vacant(s, c) && c !in s.adrift && (s.ready == [] ==> s.cur[c] == None)
  }

  ghost function Step(s: State, a: Action): State
    requires Enabled(s, a)
  {
    match a
    case CreateProcess(c) => Create(s, c).0
    case Kill(c, pid, t) => Termination.Kill(s, c, t)
    case P(c, k) => Passeren(s, c, k)
    case V(c, k) => Verhogen(s, c, k)
    case DoIo(c, k) => Block(s, c, k)
    case ClockTick(c) => Tick(s, c)
    case TimeOut(c) => Requeue(s, c)
    case Schedule(c) => Dispatch(s, c)
  }

  /** From s, the sections `acts` one after the other lead to s', each served. */
  ghost predicate Run(s: State, acts: seq<Action>, s': State)
    decreases |acts|
  {
    if acts == [] then s' == s
    else Enabled(s, acts[0]) && Served(s, acts[0]) && Run(Step(s, acts[0]), acts[1..], s')
  }

  /** A CPU that comes to the scheduler is no longer adrift. */
  lemma NotAdriftInv(s: State, c: nat)
    requires Inv(s)
    ensures Inv(s.(adrift := s.adrift - {c}))
  {
    var s' := s.(adrift := s.adrift - {c});
    assert forall p: Proc :: IsRunning(s', p) <==> IsRunning(s, p);
    SameFamily(s, s');
    SamePids(s, s');
  }

  lemma KillInv(s: State, c: nat, t: Proc)
    requires Inv(s) && Live(s, t)
    ensures Inv(Termination.Kill(s, c, t))
  {
    OrderDoomable(s, t);
    PurgeInv(s, Order(s, t));
    NotAdriftInv(Terminate(s, t), c);
  }

  lemma StepInv(s: State, a: Action)
    requires Inv(s) && Enabled(s, a) && Served(s, a)
    ensures Inv(Step(s, a))
  {
    match a
    case CreateProcess(c) => CreateInv(s, c);
    case Kill(c, pid, t) => TargetLive(s, c, pid, t); KillInv(s, c, t);
    case P(c, k) => if s.sem[k] == 0 { BlockInv(s, c, k); } else { UnblockInv(s, k, 0); }
    case V(c, k) => if s.sem[k] == 1 { BlockInv(s, c, k); } else { UnblockInv(s, k, 1); }
    case DoIo(c, k) => BlockInv(s, c, k);
    case ClockTick(c) => TickInv(s, c);
    case TimeOut(c) => RequeueInv(s, c);
    case Schedule(c) => DispatchInv(s, c);
  }

  /** What no step changes. */
  ghost predicate SameMachine(s: State, s': State) {
    |s'.pcbs| == |s.pcbs| && |s'.cur| == |s.cur| && s'.idlers == s.idlers && s'.clock == s.clock && s'.devices == s.devices
  }

  lemma StepSame(s: State, a: Action)
    requires Enabled(s, a)
    ensures SameMachine(s, Step(s, a))
  {
  }

  lemma NextInv(s: State, a: Action) returns (s1: State)
    requires Inv(s) && Enabled(s, a) && Served(s, a)
    ensures s1 == Step(s, a) && Inv(s1) && SameMachine(s, s1)
  {
    s1 := Step(s, a);
    StepInv(s, a);
    StepSame(s, a);
  }

  lemma {:induction false} RunInv(s: State, acts: seq<Action>, s': State)
    requires Inv(s) && Run(s, acts, s')
    ensures Inv(s') && SameMachine(s, s')
    decreases |acts|
  {
    hide Inv;
    if acts != [] {
      var s1 := NextInv(s, acts[0]);
      RunInv(s1, acts[1..], s');
    }
  }

  /** Some run of served sections goes from s to s'. */
  ghost predicate Leads(s: State, s': State) {
    exists acts :: Run(s, acts, s')
  }

  lemma Stay(s: State)
    ensures Leads(s, s)
  {
    assert Run(s, [], s);
  }

  lemma RunFirst(s: State, acts: seq<Action>, s': State) returns (s1: State)
    requires Run(s, acts, s') && acts != []
    ensures Enabled(s, acts[0]) && Served(s, acts[0]) && s1 == Step(s, acts[0]) && Run(s1, acts[1..], s')
  {
    s1 := Step(s, acts[0]);
  }

  lemma RunThen(s: State, a: Action, acts: seq<Action>, s': State)
    requires Enabled(s, a) && Served(s, a) && Run(Step(s, a), acts, s')
    ensures Run(s, [a] + acts, s')
  {
    assert ([a] + acts)[1..] == acts;
  }

  lemma {:induction false} RunOnward(s: State, acts: seq<Action>, s1: State, a: Action, s2: State)
    requires Run(s, acts, s1) && Enabled(s1, a) && Served(s1, a) && s2 == Step(s1, a)
    ensures Run(s, acts + [a], s2)
    decreases |acts|
  {
    if acts == [] {
      assert Run(s2, [], s2);
      RunThen(s, a, [], s2);
    } else {
      var t := RunFirst(s, acts, s1);
      RunOnward(t, acts[1..], s1, a, s2);
      RunThen(s, acts[0], acts[1..] + [a], s2);
      assert acts + [a] == [acts[0]] + (acts[1..] + [a]);
    }
  }

  lemma Onward(s: State, s1: State, a: Action)
    requires Inv(s1) && Leads(s, s1) && Enabled(s1, a) && Served(s1, a)
    ensures Leads(s, Step(s1, a)) && Inv(Step(s1, a))
  {
    var acts :| Run(s, acts, s1);
    RunOnward(s, acts, s1, a, Step(s1, a));
    StepInv(s1, a);
  }

  // ---------------------------------------------------------------------------------------------
  // Conservation

  /** In how many of the five places an entry is; a slot counts while its CPU executes the process. */
  function Places(s: State, p: Proc): nat {
    (if p in s.free then 1 else 0) + (if p in s.ready then 1 else 0) + (if IsBlocked(s, p) then 1 else 0)
    + (if IsRunning(s, p) then 1 else 0) + (if p in s.idlers then 1 else 0)
  }

  function BlockedSet(s: State): set<Proc> {
    set p: Proc | p < |s.pcbs| && IsBlocked(s, p)
  }

  function RunningSet(s: State): set<Proc> {
    set p: Proc | p < |s.pcbs| && IsRunning(s, p)
  }

  /** An entry is in exactly one place. */
  lemma OnePlace(s: State, p: Proc)
    requires Inv(s) && p < |s.pcbs|
    ensures Places(s, p) == 1
  {
  }

  lemma UnionSize(a: set<Proc>, b: set<Proc>, c: set<Proc>, d: set<Proc>, e: set<Proc>)
    requires a !! b !! c !! d !! e
    ensures |a + b + c + d + e| == |a| + |b| + |c| + |d| + |e|
  {
  }

  lemma PlacesApart(s: State)
    requires Inv(s)
    ensures Elems(s.ready) !! BlockedSet(s) !! RunningSet(s) !! Elems(s.free) !! s.idlers
  {
  }

  lemma Covered(s: State, p: Proc)
    requires Inv(s)
    ensures p < |s.pcbs| <==>
      p in s.ready || p in BlockedSet(s) || p in RunningSet(s) || p in s.free || p in s.idlers
  {
  }

  lemma UnionIs(a: set<Proc>, b: set<Proc>, c: set<Proc>, d: set<Proc>, e: set<Proc>, all: set<Proc>)
    requires forall p: Proc :: p in all <==> p in a || p in b || p in c || p in d || p in e
    ensures a + b + c + d + e == all
  {
  }

  lemma PlacesCover(s: State)
    requires Inv(s)
    ensures Elems(s.ready) + BlockedSet(s) + RunningSet(s) + Elems(s.free) + s.idlers == Interval(0, |s.pcbs|)
  {
    var all := Interval(0, |s.pcbs|);
    forall p: Proc ensures p in all <==>
      p in Elems(s.ready) || p in BlockedSet(s) || p in RunningSet(s) || p in Elems(s.free) || p in s.idlers
    {
      Covered(s, p);
    }
    UnionIs(Elems(s.ready), BlockedSet(s), RunningSet(s), Elems(s.free), s.idlers, all);
  }

  /** ProcessCount is the number of ready, blocked and running processes. */
  lemma CountIsExact(s: State)
    requires Inv(s)
    ensures s.count == |s.ready| + |BlockedSet(s)| + |RunningSet(s)|
  {
    PlacesApart(s);
    PlacesCover(s);
    UnionSize(Elems(s.ready), BlockedSet(s), RunningSet(s), Elems(s.free), s.idlers);
    NoDupSize(s.ready);
    NoDupSize(s.free);
  }

  /** Conservation, in every state of every run from boot. */
  lemma Conservation(maxproc: nat, ncpu: nat, cells: map<Key, int>, clock: Key, devices: set<Key>,
                     acts: seq<Action>, s: State)
    requires 1 <= ncpu <= maxproc && Run(Boot(maxproc, ncpu, cells, clock, devices), acts, s)
    ensures |s.pcbs| == maxproc && forall p: Proc | p < maxproc :: Places(s, p) == 1
    ensures s.count == |s.ready| + |BlockedSet(s)| + |RunningSet(s)|
    ensures s.count + |s.free| == maxproc - (ncpu - 1)
  {
    BootInv(maxproc, ncpu, cells, clock, devices);
    RunInv(Boot(maxproc, ncpu, cells, clock, devices), acts, s);
    forall p: Proc | p < maxproc ensures Places(s, p) == 1 { OnePlace(s, p); }
    CountIsExact(s);
  }

  // ---------------------------------------------------------------------------------------------
  // Where conservation needs its conditions

  /** insertBlocked's ignored answer: blocking keeps every process somewhere if and only if a
      descriptor was to be had. */
  lemma BlockKeepsIff(s: State, c: nat, k: Key)
    requires Inv(s) && Active(s, c)
    ensures Inv(Block(s, c, k)) <==> Room(s, k)
  {
    if Room(s, k) {
      BlockInv(s, c, k);
    } else {
      var p, s' := s.cur[c].value, Block(s, c, k);
      assert Live(s, p) && IsRunning(s, p);
      SlotCleared(s, s', c, p);
      assert Live(s', p) && Places(s', p) == 0;
    }
  }

  /** The scheduler keeps every process somewhere if and only if the slot is NULL, or names a requeued process and
      is overwritten, or names the process the CPU executes and is not. */
  lemma DispatchKeepsIff(s: State, c: nat)
    requires Inv(s) && c < |s.cur|
    ensures Inv(Dispatch(s, c)) <==> s.cur[c] == None || (c in s.due <==> s.ready != [])
  {
    if s.cur[c] == None || (c in s.due && s.ready != []) {
      DispatchInv(s, c);
    } else if c !in s.due && s.ready == [] {
      IdleInv(s, c);
    } else if s.ready != [] {
      Overwritten(s, c, s.cur[c].value);
    } else {
      LeftOver(s, c, s.cur[c].value);
    }
  }

  /** A dispatch on a busy CPU loses the process that was running there. */
  lemma Overwritten(s: State, c: nat, p: Proc)
    requires Inv(s) && c < |s.cur| && c !in s.due && s.ready != [] && s.cur[c] == Some(p)
    ensures !Placed(Dispatch(s, c))
  {
    var s' := Dispatch(s, c);
    assert Live(s, p) && IsRunning(s, p);
    assert s.ready[0] in s.ready;
    assert s.ready[0] != p;
    assert forall q | q in s'.ready :: q in s.ready;
    forall d | 0 <= d < |s'.cur| ensures s'.cur[d] != Some(p) || d in s'.due { }
    assert Live(s', p) && !IsRunning(s', p) && !IsBlocked(s', p) && p !in s'.ready;
  }

  /** A requeued process that is elsewhere by now, and still in the slot of a CPU that finds nothing to dispatch. */
  lemma LeftOver(s: State, c: nat, p: Proc)
    requires Inv(s) && c < |s.cur| && c in s.due && s.ready == [] && s.cur[c] == Some(p)
    ensures !Inv(Dispatch(s, c))
  {
    var s' := Dispatch(s, c);
    assert Live(s, p) && IsRunning(s', p) by { assert s'.cur[c] == Some(p) && c !in s'.due; }
    if IsRunning(s, p) {
      var d :| 0 <= d < |s.cur| && s.cur[d] == Some(p) && d !in s.due;
      assert s'.cur[d] == s'.cur[c] && d != c && d !in s'.due;
    } else {
      assert IsBlocked(s', p);
    }
  }
}
