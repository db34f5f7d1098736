/** Semaphore descriptors (phase1/asl.c): why insertBlocked's ignored answer is always "inserted" as long
    as nobody is terminated. */
module Descriptors {
  import opened Basics
  import opened AslSpec
  import opened ProcessTree
  import opened NucleusState
  import opened NucleusInv
  import opened Termination
  import opened Machine

  /** No descriptor is kept for an empty queue. */
  ghost predicate Fed(s: State) {
    forall k | k in s.asl :: s.asl[k] != []
  }

  function WaitingAt(s: State, ks: set<Key>): set<Proc> {
    set p: Proc | p < |s.pcbs| && IsBlocked(s, p) && s.pcbs[p].semAdd in ks
  }

  /** A descriptor with a waiter each: no more descriptors than waiters. */
  lemma {:induction false} OneWaiterEach(s: State, ks: set<Key>)
    requires Lists(s) && Fed(s) && ks <= s.asl.Keys
    ensures |ks| <= |WaitingAt(s, ks)|
    decreases |ks|
  {
    if p :| p in WaitingAt(s, ks) {
      var k := s.pcbs[p].semAdd;
      OneWaiterEach(s, ks - {k});
      Grows(WaitingAt(s, ks - {k}), WaitingAt(s, ks), p);
    } else {
      forall k ensures k !in ks {
        if k in ks { FirstWaiter(s, ks, k); }
      }
    }
  }

  lemma FirstWaiter(s: State, ks: set<Key>, k: Key)
    requires Lists(s) && Fed(s) && k in ks && k in s.asl
    ensures s.asl[k][0] in WaitingAt(s, ks)
  {
    assert s.asl[k][0] in s.asl[k];
  }

  lemma Grows(a: set<Proc>, b: set<Proc>, h: Proc)
    requires a <= b && h in b && h !in a
    ensures |a| < |b|
  {
    FitsIn(a, b - {h});
  }

  lemma {:induction false} FitsIn(a: set<Proc>, b: set<Proc>)
    requires a <= b
    ensures |a| <= |b|
  {
    if a != {} {
      var x :| x in a;
      FitsIn(a - {x}, b - {x});
    }
  }

  /** Whoever runs is not waiting, so a descriptor is left for it. */
  lemma RoomWhileRunning(s: State, c: nat, k: Key)
    requires Inv(s) && Fed(s) && Active(s, c)
    ensures |s.asl| < |s.pcbs| && Room(s, k)
  {
    var p, all := s.cur[c].value, Interval(0, |s.pcbs|);
    assert Live(s, p) && IsRunning(s, p) && !IsBlocked(s, p);
    OneWaiterEach(s, s.asl.Keys);
    Grows(WaitingAt(s, s.asl.Keys), all, p);
  }

  lemma FedStep(s: State, a: Action)
    requires Fed(s) && Enabled(s, a) && !a.Kill?
    ensures Fed(Step(s, a))
  {
  }

  /** A run as the code makes it, without asking whether a descriptor is left. */
  ghost predicate RawRun(s: State, acts: seq<Action>, s': State)
    decreases |acts|
  {
    if acts == [] then s' == s
    else Enabled(s, acts[0]) && RawRun(Step(s, acts[0]), acts[1..], s')
  }

  /** Without terminations every section is served: all such runs keep the invariant, unconditionally. */
  lemma {:induction false} ServedWithoutKills(s: State, acts: seq<Action>, s': State)
    requires Inv(s) && Fed(s) && RawRun(s, acts, s') && forall i | 0 <= i < |acts| :: !acts[i].Kill?
    ensures Run(s, acts, s') && Inv(s') && Fed(s')
    decreases |acts|
  {
    if acts != [] {
      var a := acts[0];
      match a {
        case P(c, k) => if s.sem[k] == 0 { RoomWhileRunning(s, c, k); }
        case V(c, k) => if s.sem[k] == 1 { RoomWhileRunning(s, c, k); }
        case DoIo(c, k) => RoomWhileRunning(s, c, k);
        case _ =>
      }
      var s1 := NextInv(s, a);
      FedStep(s, a);
      assert forall i | 0 <= i < |acts[1..]| :: acts[1..][i] == acts[i + 1];
      ServedWithoutKills(s1, acts[1..], s');
    }
  }

  lemma NeverOutOfDescriptors(maxproc: nat, ncpu: nat, cells: map<Key, int>, clock: Key, devices: set<Key>,
                              acts: seq<Action>, s: State, c: nat, k: Key)
    requires 1 <= ncpu <= maxproc && RawRun(Boot(maxproc, ncpu, cells, clock, devices), acts, s)
    requires (forall i | 0 <= i < |acts| :: !acts[i].Kill?) && Active(s, c)
    ensures Run(Boot(maxproc, ncpu, cells, clock, devices), acts, s)
    ensures |s.asl| < maxproc && Insert(s.asl, maxproc, k, s.cur[c].value).1
  {
    var b := Boot(maxproc, ncpu, cells, clock, devices);
    BootInv(maxproc, ncpu, cells, clock, devices);
    ServedWithoutKills(b, acts, s);
    RunInv(b, acts, s);
    RoomWhileRunning(s, c, k);
  }
}
