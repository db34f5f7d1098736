/** The process tree over whole runs, when the system stops (phase2/scheduler.c), and what terminating the initial
    process does. */
module Halt {
  import opened Basics
  import opened AslSpec
  import opened ProcessTree
  import opened NucleusState
  import opened NucleusInv
  import opened Termination
  import opened Machine

  /** The scheduler's test for HALT. */
  predicate Halts(s: State) {
    s.ready == [] && s.count == 0
  }

  /** The scheduler halts exactly when nothing is ready, blocked or running. */
  lemma HaltsIff(s: State)
    requires Inv(s)
    ensures Halts(s) <==> forall p: Proc :: !Live(s, p)
  {
    CountIsExact(s);
    if Halts(s) {
      forall p: Proc ensures !Live(s, p) {
        assert Live(s, p) ==> p in BlockedSet(s) || p in RunningSet(s);
      }
    } else if s.ready != [] {
      assert s.ready[0] in s.ready && Live(s, s.ready[0]);
    } else {
      SomebodyLives(s);
    }
  }

  lemma SomebodyLives(s: State)
    requires Inv(s) && |BlockedSet(s)| + |RunningSet(s)| > 0
    ensures exists p: Proc :: Live(s, p)
  {
    if p :| p in BlockedSet(s) {
      assert Live(s, p);
    } else if p :| p in RunningSet(s) {
      assert Live(s, p);
    }
  }

  // ---------------------------------------------------------------------------------------------
  // A process without a parent

  /** createProcess keeps the initial process the only one without a parent if and only if the caller's slot is not
      NULL, or there is no entry to take. */
  lemma CreateKeepsRootedIff(s: State, c: nat)
    requires Inv(s) && Rooted(s) && c < |s.cur|
    ensures Slot(s, c) && (s.free != [] ==> s.free[|s.free| - 1] < |s.pcbs|)
    ensures Rooted(Create(s, c).0) <==> s.free == [] || s.cur[c].Some?
  {
    CreateInv(s, c);
    if s.free != [] {
      var p, s' := CreateLive(s, c);
      CreateBorn(s, c);
      assert Live(s', p) && s'.pcbs[p].parent == s.cur[c] && s'.pcbs[p].pid != 1;
    }
  }

  /** The processes that other CPUs execute are not t or below it. */
  ghost predicate Elsewhere(s: State, c: nat, t: Proc)
    requires Core(s)
  {
    forall d | 0 <= d < |s.cur| && d != c && Active(s, d) :: !Ancestor(s.pcbs, s.nextPid, t, s.cur[d].value)
  }

  /** terminateProcess leaves no CPU executing a dead process if and only if that is so. */
  lemma NobodyAdriftIff(s: State, c: nat, t: Proc)
    requires Inv(s) && Live(s, t)
    ensures Termination.Kill(s, c, t).adrift == s.adrift - {c} <==> Elsewhere(s, c, t)
  {
    var a := Termination.Kill(s, c, t).adrift;
    forall d: nat
      ensures d in a <==>
              d != c && (d in s.adrift || (Active(s, d) && Ancestor(s.pcbs, s.nextPid, t, s.cur[d].value)))
    {
      if d < |s.cur| { TerminateSlots(s, t, d); }
    }
    if a == s.adrift - {c} {
      forall d | 0 <= d < |s.cur| && d != c && Active(s, d) ensures !Ancestor(s.pcbs, s.nextPid, t, s.cur[d].value) {
        assert d !in s.adrift;
      }
    }
  }

  lemma KillRooted(s: State, c: nat, t: Proc)
    requires Core(s) && Rooted(s) && Live(s, t)
    ensures Rooted(Termination.Kill(s, c, t))
  {
    OrderDoomable(s, t);
    PurgeLive(s, Order(s, t));
  }

  /** Every section but createProcess on a NULL slot keeps the tree rooted. */
  lemma StepRooted(s: State, a: Action)
    requires Inv(s) && Rooted(s) && Enabled(s, a) && Served(s, a)
    requires a.CreateProcess? ==> s.free == [] || a.c !in s.adrift
    ensures Rooted(Step(s, a))
  {
    hide Placed, Counted, Pids;
    match a
    case CreateProcess(c) => CreateKeepsRootedIff(s, c);
    case Kill(c, pid, t) => TargetLive(s, c, pid, t); KillRooted(s, c, t);
    case _ =>
  }

  /** Nobody is terminated. */
  predicate Peaceful(acts: seq<Action>) {
    forall i | 0 <= i < |acts| :: !acts[i].Kill?
  }

  lemma PeacefulStep(s: State, a: Action)
    requires Enabled(s, a) && !a.Kill?
    ensures Step(s, a).adrift <= s.adrift && (s.free == [] ==> Step(s, a).free == [])
  {
  }

  /** Without a NULL slot that somebody executes with, or without free entries, runs without terminations stay rooted.
      */
  lemma {:induction false} PeacefulRooted(s: State, acts: seq<Action>, s': State)
    requires Inv(s) && Rooted(s) && Run(s, acts, s') && Peaceful(acts) && (s.adrift == {} || s.free == [])
    ensures Rooted(s')
    decreases |acts|
  {
    hide Inv, Rooted;
    if acts != [] {
      var s1 := NextInv(s, acts[0]);
      StepRooted(s, acts[0]);
      PeacefulStep(s, acts[0]);
      assert forall i | 0 <= i < |acts[1..]| :: acts[1..][i] == acts[i + 1];
      PeacefulRooted(s1, acts[1..], s');
    }
  }

  /** Every run without terminations that starts in s stays rooted. */
  ghost predicate StaysRooted(s: State) {
    forall acts, s' | Run(s, acts, s') && Peaceful(acts) :: Rooted(s')
  }

  lemma StaysRootedIff(s: State)
    requires Inv(s) && Rooted(s)
    ensures StaysRooted(s) <==> s.adrift == {} || s.free == []
  {
    if s.adrift == {} || s.free == [] {
      forall acts, s' | Run(s, acts, s') && Peaceful(acts) ensures Rooted(s') { PeacefulRooted(s, acts, s'); }
    } else {
      var c :| c in s.adrift;
      CreateKeepsRootedIff(s, c);
      var acts, s' := [CreateProcess(c)], Create(s, c).0;
      assert acts[1..] == [] && Run(s', [], s');
      assert Run(s, acts, s') && Peaceful(acts) && !Rooted(s');
    }
  }

  /** After a termination the tree is sure to stay rooted if and only if no other CPU executes a victim, be it one of
      this termination or of an earlier one. */
  lemma KillStaysRootedIff(s: State, c: nat, pid: int, t: Proc)
    requires Inv(s) && Rooted(s) && Enabled(s, Kill(c, pid, t))
    ensures StaysRooted(Step(s, Kill(c, pid, t))) <==> s.adrift <= {c} && Elsewhere(s, c, t)
  {
    hide Inv, Rooted;
    var s1 := NextInv(s, Kill(c, pid, t));
    TargetLive(s, c, pid, t);
    OrderDoomable(s, t);
    StepRooted(s, Kill(c, pid, t));
    StaysRootedIff(s1);
    NobodyAdriftIff(s, c, t);
    assert s.adrift <= {c} <==> s.adrift - {c} == {};
    assert s.adrift - {c} <= s1.adrift;
  }

  // ---------------------------------------------------------------------------------------------
  // One tree

  /** Every termination leaves no other CPU executing a victim. */
  ghost predicate Tidy(s: State, a: Action) {
    a.Kill? ==> Core(s) && Elsewhere(s, a.c, a.t)
  }

  ghost predicate TidyRun(s: State, acts: seq<Action>, s': State)
    decreases |acts|
  {
    if acts == [] then s' == s
    else Enabled(s, acts[0]) && Served(s, acts[0]) && Tidy(s, acts[0]) && TidyRun(Step(s, acts[0]), acts[1..], s')
  }

  lemma TidyStep(s: State, a: Action) returns (s1: State)
    requires Inv(s) && Rooted(s) && s.adrift == {} && Enabled(s, a) && Served(s, a) && Tidy(s, a)
    ensures s1 == Step(s, a) && Inv(s1) && Rooted(s1) && s1.adrift == {} && SameMachine(s, s1)
  {
    hide Inv, Rooted;
    s1 := NextInv(s, a);
    StepRooted(s, a);
    if a.Kill? {
      TargetLive(s, a.c, a.pid, a.t);
      NobodyAdriftIff(s, a.c, a.t);
    } else {
      PeacefulStep(s, a);
    }
  }

  lemma {:induction false} TidyRooted(s: State, acts: seq<Action>, s': State)
    requires Inv(s) && Rooted(s) && s.adrift == {} && TidyRun(s, acts, s')
    ensures Inv(s') && Rooted(s') && SameMachine(s, s') && Run(s, acts, s')
    decreases |acts|
  {
    hide Inv, Rooted;
    if acts != [] {
      var s1 := TidyStep(s, acts[0]);
      TidyRooted(s1, acts[1..], s');
    }
  }

  /** Then every live process descends from the initial one, which is live as long as anybody is. */
  lemma {:induction false} BelowRoot(s: State, p: Proc)
    requires Family(s) && Rooted(s) && Live(s, p)
    ensures Live(s, Root(s)) && Ancestor(s.pcbs, s.nextPid, Root(s), p)
    decreases s.pcbs[p].pid
  {
    if s.pcbs[p].parent.Some? { BelowRoot(s, s.pcbs[p].parent.value); }
  }

  lemma OneTree(s: State)
    requires Inv(s) && Rooted(s)
    ensures forall p: Proc | Live(s, p) :: Live(s, Root(s)) && Ancestor(s.pcbs, s.nextPid, Root(s), p)
  {
    forall p: Proc | Live(s, p) ensures Live(s, Root(s)) && Ancestor(s.pcbs, s.nextPid, Root(s), p) { BelowRoot(s, p); }
  }

  /** In every run from boot whose terminations are tidy, the live processes form one tree below the initial process. */
  lemma AlwaysRooted(maxproc: nat, ncpu: nat, cells: map<Key, int>, clock: Key, devices: set<Key>,
                     acts: seq<Action>, s: State)
    requires 1 <= ncpu <= maxproc && TidyRun(Boot(maxproc, ncpu, cells, clock, devices), acts, s)
    ensures Tree(s.pcbs, s.nextPid) && Root(s) == maxproc - 1
    ensures forall p: Proc | Live(s, p) :: Live(s, Root(s)) && Ancestor(s.pcbs, s.nextPid, Root(s), p)
  {
    BootInv(maxproc, ncpu, cells, clock, devices);
    TidyRooted(Boot(maxproc, ncpu, cells, clock, devices), acts, s);
    OneTree(s);
  }

  /** In every run from boot, tidy or not, the scheduler's test for HALT holds exactly when nobody is left. */
  lemma HaltsInEveryRun(maxproc: nat, ncpu: nat, cells: map<Key, int>, clock: Key, devices: set<Key>,
                        acts: seq<Action>, s: State)
    requires 1 <= ncpu <= maxproc && Run(Boot(maxproc, ncpu, cells, clock, devices), acts, s)
    ensures Halts(s) <==> forall p: Proc :: !Live(s, p)
  {
    BootInv(maxproc, ncpu, cells, clock, devices);
    RunInv(Boot(maxproc, ncpu, cells, clock, devices), acts, s);
    HaltsIff(s);
  }

  // ---------------------------------------------------------------------------------------------
  // Terminating the initial process

  /** The scheduler halts then if and only if everybody descended from it. */
  lemma RootTakesAllIff(s: State)
    requires Inv(s) && |s.pcbs| > 0 && Live(s, Root(s))
    ensures Halts(Terminate(s, Root(s))) <==>
            forall p: Proc | Live(s, p) :: Ancestor(s.pcbs, s.nextPid, Root(s), p)
  {
    var s' := Terminate(s, Root(s));
    TerminateExact(s, Root(s));
    HaltsIff(s');
    if Halts(s') {
      forall p: Proc | Live(s, p) ensures Ancestor(s.pcbs, s.nextPid, Root(s), p) { assert !Live(s', p); }
    }
  }

  /** In a rooted state nothing is left anywhere. */
  lemma RootTakesAll(s: State)
    requires Inv(s) && Rooted(s) && |s.pcbs| > 0 && Live(s, Root(s))
    ensures var s' := Terminate(s, Root(s));
      && Halts(s') && (forall p: Proc :: !Live(s', p)) && BlockedSet(s') == {} && RunningSet(s') == {}
      && (forall c | 0 <= c < |s'.cur| :: s'.cur[c] == None)
      && (forall k | k in s'.asl :: s'.asl[k] == [])
  {
    var s' := Terminate(s, Root(s));
    TerminateExact(s, Root(s));
    OneTree(s);
    forall p: Proc ensures !Live(s', p) { }
    HaltsIff(s');
    NobodyLeft(s');
  }

  lemma NobodyLeft(s: State)
    requires Inv(s) && forall p: Proc :: !Live(s, p)
    ensures BlockedSet(s) == {} && RunningSet(s) == {}
    ensures forall c | 0 <= c < |s.cur| :: s.cur[c] == None
    ensures forall k | k in s.asl :: s.asl[k] == []
  {
    forall k | k in s.asl ensures s.asl[k] == [] {
      if s.asl[k] != [] { WaiterLives(s, k); }
    }
    forall p: Proc ensures p !in BlockedSet(s) && p !in RunningSet(s) { }
  }

  lemma WaiterLives(s: State, k: Key)
    requires Lists(s) && k in s.asl && s.asl[k] != []
    ensures Live(s, s.asl[k][0])
  {
    assert s.asl[k][0] in s.asl[k];
  }
}
