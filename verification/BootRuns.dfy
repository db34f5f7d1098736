/** main's last loop (phase2/initial.c:109-123): it starts the other CPUs one by one and goes on taking entries off the
    free list while those already started run.  Each turn of the loop is one step here. */
module BootRuns {
  import opened Basics
  import opened AslSpec
  import opened ProcessTree
  import opened NucleusState
  import opened NucleusInv
  import opened Termination
  import opened Machine

  /** With entries taken for the initial process and for k - 1 CPUs, and nobody having run yet; of the globals of
      NCPU CPUs. */
  function Stage(maxproc: nat, ncpu: nat, k: nat, cells: map<Key, int>, clock: Key, devices: set<Key>): State
    requires 1 <= k <= ncpu <= maxproc
  {
    Boot(maxproc, k, cells, clock, devices).(cur := seq(ncpu, _ => None))
  }

  /** One turn of the loop, allocPcb and INITCPU: the entry is neither queued nor counted. */
  function Enlist(s: State): State
    requires s.free != [] && s.free[|s.free| - 1] < |s.pcbs|
  {
    var p := s.free[|s.free| - 1];
    s.(free := s.free[..|s.free| - 1], nextPid := s.nextPid + 1, idlers := s.idlers + {p},
       pcbs := s.pcbs[p := Pcb(None, [], 0, s.nextPid)])
  }

  /** All CPUs are started, and main is done with its loop. */
  predicate Started(s: State) {
    |s.idlers| + 1 == |s.cur|
  }

  /** CPU 0 runs main until then; the others run once main has started them. */
  predicate Up(s: State, c: nat) {
    if c == 0 then Started(s) else c <= |s.idlers|
  }

  datatype Move = Turn | Section(a: Action)

  /** A turn needs an entry, for main panics without one. */
  ghost predicate Possible(s: State, m: Move) {
    match m
    case Turn => !Started(s) && s.free != [] && s.free[|s.free| - 1] < |s.pcbs|
    case Section(a) => Up(s, a.c) && Enabled(s, a) && Served(s, a)
  }

  ghost function After(s: State, m: Move): State
    requires Possible(s, m)
  {
    match m
    case Turn => Enlist(s)
    case Section(a) => Step(s, a)
  }

  ghost predicate MoveRun(s: State, ms: seq<Move>, s': State)
    decreases |ms|
  {
    if ms == [] then s' == s else Possible(s, ms[0]) && MoveRun(After(s, ms[0]), ms[1..], s')
  }

  // ---------------------------------------------------------------------------------------------
  // The invariant

  lemma EnlistLists(s: State) returns (p: Proc)
    requires Inv(s) && s.free != []
    ensures p == s.free[|s.free| - 1] < |s.pcbs| && Lists(Enlist(s)) && Placed(Enlist(s)) && p !in s.idlers
    ensures forall x: Proc :: Live(Enlist(s), x) <==> Live(s, x)
  {
    p := s.free[|s.free| - 1];
    assert p in s.free;
    var s' := Enlist(s);
    forall x: Proc ensures Live(s', x) <==> Live(s, x) {
      if x in s.free && x != p {
        var i :| 0 <= i < |s.free| && s.free[i] == x;
        assert s'.free[i] == x;
      }
    }
  }

  lemma EnlistTree(s: State)
    requires Inv(s) && s.free != []
    ensures s.free[|s.free| - 1] < |s.pcbs| && Family(Enlist(s)) && Pids(Enlist(s))
  {
    var p := EnlistLists(s);
    hide Placed, Counted, Lists;
    var s' := Enlist(s);
    LooseEntry(s, p);
    BornTree(s.pcbs, s'.pcbs, s.nextPid, p, None);
    forall x: Proc, y: Proc | x < y < |s'.pcbs| && s'.pcbs[x].pid > 0 ensures !SamePid(s'.pcbs, x, y) {
      NewPidIsNew(s.pcbs, s'.pcbs, s.nextPid, p, None, x);
      NewPidIsNew(s.pcbs, s'.pcbs, s.nextPid, p, None, y);
      assert x != p && y != p ==> !SamePid(s.pcbs, x, y);
    }
  }

  lemma LooseEntry(s: State, p: Proc)
    requires Inv(s) && s.free != [] && p == s.free[|s.free| - 1]
    ensures p < |s.pcbs| && s.pcbs[p].parent == None && s.pcbs[p].kids == []
  {
    assert p in s.free;
    FreeIsLoose(s, p);
  }

  lemma EnlistInv(s: State)
    requires Inv(s) && s.free != [] && !Started(s)
    ensures s.free[|s.free| - 1] < |s.pcbs| && Inv(Enlist(s))
  {
    hide Lists, Placed, Family, Pids;
    var p := EnlistLists(s);
    EnlistTree(s);
  }

  /** Every turn of main's loop and every section of a CPU already started keeps the invariant. */
  lemma MoveInv(s: State, m: Move)
    requires Inv(s) && Possible(s, m)
    ensures Inv(After(s, m)) && |After(s, m).pcbs| == |s.pcbs| && |After(s, m).cur| == |s.cur|
    ensures m.Section? ==> After(s, m).idlers == s.idlers
  {
    hide Inv;
    match m
    case Turn => EnlistInv(s);
    case Section(a) => var _ := NextInv(s, a);
  }

  lemma {:induction false} MoveRunInv(s: State, ms: seq<Move>, s': State)
    requires Inv(s) && MoveRun(s, ms, s')
    ensures Inv(s') && |s'.pcbs| == |s.pcbs| && |s'.cur| == |s.cur|
    decreases |ms|
  {
    hide Inv;
    if ms != [] {
      MoveInv(s, ms[0]);
      MoveRunInv(After(s, ms[0]), ms[1..], s');
    }
  }

  lemma StageInv(maxproc: nat, ncpu: nat, k: nat, cells: map<Key, int>, clock: Key, devices: set<Key>)
    requires 1 <= k <= ncpu <= maxproc
    ensures Inv(Stage(maxproc, ncpu, k, cells, clock, devices))
  {
    var b, s := Boot(maxproc, k, cells, clock, devices), Stage(maxproc, ncpu, k, cells, clock, devices);
    BootInv(maxproc, k, cells, clock, devices);
    SameFamily(b, s);
    SamePids(b, s);
    assert forall p: Proc :: !IsRunning(b, p) && !IsRunning(s, p);
  }

  /** Conservation while main still starts CPUs, and afterwards. */
  lemma ConservationFromStart(maxproc: nat, ncpu: nat, cells: map<Key, int>, clock: Key, devices: set<Key>,
                              ms: seq<Move>, s: State)
    requires 1 <= ncpu <= maxproc && MoveRun(Stage(maxproc, ncpu, 1, cells, clock, devices), ms, s)
    ensures Inv(s) && |s.pcbs| == maxproc && forall p: Proc | p < maxproc :: Places(s, p) == 1
    ensures s.count == |s.ready| + |BlockedSet(s)| + |RunningSet(s)|
    ensures s.count + |s.free| + |s.idlers| == maxproc && |s.idlers| < |s.cur| == ncpu
  {
    var b := Stage(maxproc, ncpu, 1, cells, clock, devices);
    StageInv(maxproc, ncpu, 1, cells, clock, devices);
    MoveRunInv(b, ms, s);
    forall p: Proc | p < maxproc ensures Places(s, p) == 1 { OnePlace(s, p); }
    CountIsExact(s);
  }

  // ---------------------------------------------------------------------------------------------
  // Whether main finds its entries

  /** With nobody in between, main's loop goes from stage to stage. */
  lemma NextStage(maxproc: nat, ncpu: nat, k: nat, cells: map<Key, int>, clock: Key, devices: set<Key>)
    requires 1 <= k < ncpu <= maxproc
    ensures Possible(Stage(maxproc, ncpu, k, cells, clock, devices), Turn)
    ensures Enlist(Stage(maxproc, ncpu, k, cells, clock, devices)) == Stage(maxproc, ncpu, k + 1, cells, clock, devices)
  {
    hide BootCells;
    var s, s' := Stage(maxproc, ncpu, k, cells, clock, devices), Stage(maxproc, ncpu, k + 1, cells, clock, devices);
    assert s.free[|s.free| - 1] == maxproc - k - 1;
    assert Enlist(s).free == s'.free && Enlist(s).pcbs == s'.pcbs;
    assert forall x: Proc :: x in Enlist(s).idlers <==> x in s'.idlers;
    assert Enlist(s).idlers == s'.idlers;
  }

  /** And ends where the runs of Machine begin. */
  lemma LastStage(maxproc: nat, ncpu: nat, cells: map<Key, int>, clock: Key, devices: set<Key>)
    requires 1 <= ncpu <= maxproc
    ensures Stage(maxproc, ncpu, ncpu, cells, clock, devices) == Boot(maxproc, ncpu, cells, clock, devices)
  {
  }

  /** Some run leads from s to s'. */
  ghost predicate Brings(s: State, s': State) {
    exists ms :: MoveRun(s, ms, s')
  }

  lemma MoveThen(s: State, m: Move, ms: seq<Move>, s': State)
    requires Possible(s, m) && MoveRun(After(s, m), ms, s')
    ensures MoveRun(s, [m] + ms, s')
  {
    assert ([m] + ms)[1..] == ms;
  }

  lemma {:induction false} MoveOnward(s: State, ms: seq<Move>, s1: State, m: Move)
    requires MoveRun(s, ms, s1) && Possible(s1, m)
    ensures MoveRun(s, ms + [m], After(s1, m))
    decreases |ms|
  {
    hide Possible, After;
    if ms == [] {
      assert MoveRun(After(s1, m), [], After(s1, m));
      MoveThen(s, m, [], After(s1, m));
    } else {
      MoveOnward(After(s, ms[0]), ms[1..], s1, m);
      MoveThen(s, ms[0], ms[1..] + [m], After(s1, m));
      assert ms + [m] == [ms[0]] + (ms[1..] + [m]);
    }
  }

  lemma Further(s: State, s1: State, m: Move) returns (s2: State)
    requires Brings(s, s1) && Inv(s1) && Possible(s1, m)
    ensures s2 == After(s1, m) && Brings(s, s2) && Inv(s2) && |s2.pcbs| == |s1.pcbs| && |s2.cur| == |s1.cur|
    ensures m.Section? ==> s2.idlers == s1.idlers
  {
    hide Inv, Possible, After;
    var ms :| MoveRun(s, ms, s1);
    MoveOnward(s, ms, s1, m);
    MoveInv(s1, m);
    s2 := After(s1, m);
  }

  lemma {:induction false} Reaches(maxproc: nat, ncpu: nat, k: nat, cells: map<Key, int>, clock: Key, devices: set<Key>)
    requires 1 <= k <= ncpu <= maxproc
    ensures Brings(Stage(maxproc, ncpu, 1, cells, clock, devices), Stage(maxproc, ncpu, k, cells, clock, devices))
    decreases k
  {
    hide Stage, Possible, Enlist, Inv;
    var b := Stage(maxproc, ncpu, 1, cells, clock, devices);
    if k == 1 {
      assert MoveRun(b, [], b);
    } else {
      Reaches(maxproc, ncpu, k - 1, cells, clock, devices);
      StageInv(maxproc, ncpu, k - 1, cells, clock, devices);
      NextStage(maxproc, ncpu, k - 1, cells, clock, devices);
      var _ := Further(b, Stage(maxproc, ncpu, k - 1, cells, clock, devices), Turn);
    }
  }

  /** The process on CPU 1 takes all entries that are left. */
  lemma {:induction false} TakesAll(b: State, s: State) returns (t: State)
    requires Brings(b, s) && Inv(s) && Active(s, 1) && |s.idlers| >= 1
    ensures Brings(b, t) && Inv(t) && t.idlers == s.idlers && |t.cur| == |s.cur| && |t.pcbs| == |s.pcbs| && t.free == []
    decreases |s.free|
  {
    hide Inv, Brings;
    if s.free == [] {
      t := s;
    } else {
      var s1 := TakesOne(b, s);
      t := TakesAll(b, s1);
    }
  }

  lemma TakesOne(b: State, s: State) returns (t: State)
    requires Brings(b, s) && Inv(s) && Active(s, 1) && s.free != [] && |s.idlers| >= 1
    ensures Brings(b, t) && Inv(t) && Active(t, 1) && |t.free| < |s.free|
    ensures t.idlers == s.idlers && |t.cur| == |s.cur| && |t.pcbs| == |s.pcbs|
  {
    hide Placed, Counted, Pids, Brings;
    assert s.free[|s.free| - 1] in s.free;
    t := Further(b, s, Section(CreateProcess(1)));
  }

  /** Main has one more CPU to start, and the first process, which runs on CPU 1, has taken every entry. */
  lemma NothingLeft(maxproc: nat, ncpu: nat, cells: map<Key, int>, clock: Key, devices: set<Key>) returns (s: State)
    requires 3 <= ncpu <= maxproc
    ensures Brings(Stage(maxproc, ncpu, 1, cells, clock, devices), s) && Inv(s) && s.free == [] && |s.idlers| == ncpu - 2
    ensures !Started(s) && s.count == maxproc - (ncpu - 2)
  {
    hide Lists, Placed, Family, Pids, Brings;
    var b := Stage(maxproc, ncpu, 1, cells, clock, devices);
    var s1 := Stage(maxproc, ncpu, ncpu - 1, cells, clock, devices);
    Reaches(maxproc, ncpu, ncpu - 1, cells, clock, devices);
    StageInv(maxproc, ncpu, ncpu - 1, cells, clock, devices);
    var s2 := Further(b, s1, Section(Schedule(1)));
    s := TakesAll(b, s2);
  }

  /** Main is sure to find an entry for each CPU while at most n processes live, whatever the CPUs already started do,
      if and only if there are two CPUs at most, or MAXPROC - NCPU + 1 is at least n. */
  lemma NeverPanicsIff(maxproc: nat, ncpu: nat, cells: map<Key, int>, clock: Key, devices: set<Key>, n: nat)
    requires 1 <= ncpu <= maxproc
    ensures (forall s | Brings(Stage(maxproc, ncpu, 1, cells, clock, devices), s) && !Started(s) && s.count <= n ::
               s.free != [])
            <==> ncpu <= 2 || n + ncpu <= maxproc + 1
  {
    hide Inv, Stage;
    var b := Stage(maxproc, ncpu, 1, cells, clock, devices);
    if ncpu <= 2 || n + ncpu <= maxproc + 1 {
      forall s | Brings(b, s) && !Started(s) && s.count <= n ensures s.free != [] {
        var ms :| MoveRun(b, ms, s);
        ConservationFromStart(maxproc, ncpu, cells, clock, devices, ms, s);
        if ncpu <= 2 { NobodyYet(maxproc, ncpu, cells, clock, devices, ms, s); }
      }
    } else {
      var s := NothingLeft(maxproc, ncpu, cells, clock, devices);
    }
  }

  lemma FirstMove(s: State, m: Move)
    requires Inv(s) && s.idlers == {} && |s.cur| == 2 && Possible(s, m)
    ensures Inv(After(s, m)) && Started(After(s, m))
  {
    hide Inv;
    MoveInv(s, m);
  }

  /** With two CPUs nobody runs before main is done. */
  lemma NobodyYet(maxproc: nat, ncpu: nat, cells: map<Key, int>, clock: Key, devices: set<Key>, ms: seq<Move>, s: State)
    requires 1 <= ncpu <= 2 && ncpu <= maxproc && MoveRun(Stage(maxproc, ncpu, 1, cells, clock, devices), ms, s)
    requires !Started(s)
    ensures s.free != []
  {
    hide Inv, Possible, After;
    var b := Stage(maxproc, ncpu, 1, cells, clock, devices);
    StageInv(maxproc, ncpu, 1, cells, clock, devices);
    if ncpu == 1 {
      StaysStarted(b, ms, s);
    } else if ms != [] {
      FirstMove(b, ms[0]);
      StaysStarted(After(b, ms[0]), ms[1..], s);
    }
  }

  lemma {:induction false} StaysStarted(s: State, ms: seq<Move>, s': State)
    requires Inv(s) && Started(s) && MoveRun(s, ms, s')
    ensures Started(s')
    decreases |ms|
  {
    hide Inv;
    if ms != [] {
      MoveInv(s, ms[0]);
      StaysStarted(After(s, ms[0]), ms[1..], s');
    }
  }
}
