/** What every step of the support level keeps. */
module SupportInv {
  import opened Basics
  import opened AslSpec
  import opened Semaphores
  import opened Support

  // ---------------------------------------------------------------------------------------------
  // SwapPoolSemaphore and AsidInSwapPool

  /** Places between the pager's P and V, in the handler or in terminateUProc. */
  predicate Section(p: Place) {
    p == Entered || p == Owner || p == Leaving || p == Handover
  }

  /** What AsidInSwapPool is while U-proc i holds the semaphore at place p. */
  function Named(p: Place, i: nat): nat {
    if p == Owner || p.Release? then i + 1 else 0
  }

  /** h is the U-proc that holds the semaphore. */
  ghost predicate Holder(s: System, h: Option<nat>) {
    && s.pool.value == (if h == None then 1 else 0)
    && (h == None ==> s.asidInPool == 0 && s.pool.waiters == [])
    && (h.Some? ==> h.value < |s.procs| && s.asidInPool == Named(s.procs[h.value].place, h.value))
    && (forall i | 0 <= i < |s.procs| :: Section(s.procs[i].place) ==> h == Some(i))
    && (forall i | 0 <= i < |s.procs| :: h == Some(i) ==> Section(s.procs[i].place) || s.procs[i].place.Release?)
  }

  /** Exactly the U-procs that wait for the pool are in its queue, once each. */
  ghost predicate Queue(s: System) {
    && NoDup(s.pool.waiters)
    && (forall i | i in s.pool.waiters :: i < |s.procs| && s.procs[i].place == AwaitPool)
    && (forall i | 0 <= i < |s.procs| && s.procs[i].place == AwaitPool :: i in s.pool.waiters)
  }

  lemma VKeepsHolder(s: System, i: nat, next: Place)
    requires Holder(s, Some(i)) && Queue(s)
    requires (At(s, i, Leaving) || At(s, i, Handover)) && (next == User || next == Announce)
    ensures !DoV(s.pool, i).blocked && Holder(VPool(s, i, next), DoV(s.pool, i).woken)
  {
    if s.pool.waiters != [] { assert s.pool.waiters[0] in s.pool.waiters; }
  }

  lemma VKeepsQueue(s: System, i: nat, next: Place)
    requires Holder(s, Some(i)) && Queue(s)
    requires (At(s, i, Leaving) || At(s, i, Handover)) && (next == User || next == Announce)
    ensures Queue(VPool(s, i, next))
  {
    var q := s.pool.waiters;
    if q != [] {
      assert q[0] in q;
      assert forall j | j in q :: j == q[0] || j in q[1..];
      assert forall j | j in q[1..] :: j in q && j != q[0];
    }
  }

  lemma FaultKeepsQueue(s: System, i: nat, h: Option<nat>)
    requires Holder(s, h) && Queue(s) && Enabled(s, Fault(i))
    ensures Queue(Step(s, Fault(i)))
  {
  }

  lemma Joined(q: seq<Proc>, i: nat)
    requires NoDup(q) && i !in q
    ensures NoDup(q + [i]) && forall j :: j in q + [i] <==> j in q || j == i
  {
  }

  /** Only U-proc i is somewhere else than before. */
  ghost predicate OnlyMoves(s: System, s': System, i: nat) {
    i < |s.procs| == |s'.procs| && forall j | 0 <= j < |s.procs| && j != i :: s'.procs[j] == s.procs[j]
  }

  /** A move that neither enters nor leaves the section, nor the queue in front of it. */
  lemma MoveKeepsPool(s: System, s': System, i: nat, h: Option<nat>)
    requires Holder(s, h) && Queue(s) && OnlyMoves(s, s', i) && s'.pool == s.pool && s'.asidInPool == s.asidInPool
    requires var p, p' := s.procs[i].place, s'.procs[i].place;
      && (p == AwaitPool <==> p' == AwaitPool)
      && (Section(p') ==> Section(p))
      && (h == Some(i) ==> (Section(p') || p'.Release?) && Named(p', i) == Named(p, i))
    ensures Holder(s', h) && Queue(s')
  {
  }

  // ---------------------------------------------------------------------------------------------
  // MasterSemaphore

  /** Its V is completed. */
  predicate Signalled(p: Place) {
    p == Finished || p == Dead
  }

  /** How many V's on MasterSemaphore are completed. */
  function Signals(ps: seq<UProc>): (n: nat)
    ensures n <= |ps|
  {
    if ps == [] then 0 else (if Signalled(ps[0].place) then 1 else 0) + Signals(ps[1..])
  }

  lemma {:induction false} SignalsUpdate(ps: seq<UProc>, i: nat, u: UProc)
    requires i < |ps|
    ensures Signals(ps[i := u]) ==
            Signals(ps) - (if Signalled(ps[i].place) then 1 else 0) + (if Signalled(u.place) then 1 else 0)
  {
    if i == 0 {
      assert ps[i := u][1..] == ps[1..];
    } else {
      assert ps[i := u][1..] == ps[1..][i - 1 := u];
      SignalsUpdate(ps[1..], i - 1, u);
    }
  }

  /** The count is full exactly when everybody has signalled. */
  lemma {:induction false} AllSignalled(ps: seq<UProc>)
    ensures Signals(ps) == |ps| <==> forall i | 0 <= i < |ps| :: Signalled(ps[i].place)
  {
    if ps != [] {
      AllSignalled(ps[1..]);
      assert forall i | 1 <= i < |ps| :: ps[i] == ps[1..][i - 1];
    }
  }

  lemma OnlyMovesUpdate(s: System, s': System, i: nat)
    requires OnlyMoves(s, s', i)
    ensures s'.procs == s.procs[i := s'.procs[i]]
  {
  }

  /** At 0 only the instantiator can be waiting, at 1 only U-procs. */
  ghost predicate MasterQueue(s: System) {
    && (s.master.value == 0 ==> s.master.waiters == if s.waiting then [|s.procs|] else [])
    && (s.master.value == 1 ==> !s.waiting && NoDup(s.master.waiters))
    && (s.master.value == 1 ==> forall i | i in s.master.waiters :: i < |s.procs| && s.procs[i].place == AwaitMaster)
    && (forall i | 0 <= i < |s.procs| && s.procs[i].place == AwaitMaster :: s.master.value == 1 && i in s.master.waiters)
  }

  /** Completed V's are completed P's plus the value. */
  ghost predicate MasterCount(s: System) {
    && (s.master.value == 0 || s.master.value == 1)
    && Signals(s.procs) == s.taken + s.master.value
    && s.created <= |s.procs|
    && (s.waiting ==> s.created == |s.procs| && s.taken < |s.procs|)
  }

  ghost predicate Master(s: System) {
    MasterQueue(s) && MasterCount(s)
  }

  /** A move that has nothing to do with MasterSemaphore. */
  lemma MoveKeepsMaster(s: System, s': System, i: nat)
    requires Master(s) && OnlyMoves(s, s', i) && s'.master == s.master && s'.taken == s.taken && s'.waiting == s.waiting
    requires s'.created == s.created || (s.created < s'.created <= |s.procs|)
    requires s.procs[i].place != AwaitMaster && s'.procs[i].place != AwaitMaster
    requires Signalled(s'.procs[i].place) == Signalled(s.procs[i].place)
    ensures Master(s')
  {
    OnlyMovesUpdate(s, s', i);
    SignalsUpdate(s.procs, i, s'.procs[i]);
  }

  lemma TakeKeepsMaster(s: System)
    requires Master(s) && Enabled(s, Take)
    ensures Master(Step(s, Take))
  {
    var q, s' := s.master.waiters, Step(s, Take);
    if s.master.value == 1 && q != [] {
      assert q[0] in q;
      SignalsUpdate(s.procs, q[0], s'.procs[q[0]]);
      assert forall j | j in q :: j == q[0] || j in q[1..];
      assert forall j | j in q[1..] :: j in q && j != q[0];
    }
  }

  lemma SignalKeepsMaster(s: System, i: nat)
    requires Master(s) && Enabled(s, Signal(i))
    ensures Master(Step(s, Signal(i)))
  {
    var s' := Step(s, Signal(i));
    SignalsUpdate(s.procs, i, s'.procs[i]);
    if s.master.value == 1 { Joined(s.master.waiters, i); }
  }

  // ---------------------------------------------------------------------------------------------
  // The device semaphores

  /** A device semaphore is 0 exactly while its U-proc is in its routine, and nobody ever waits there. */
  ghost predicate Devices(s: System) {
    && |s.devs| == DEVICE_SEMS && |s.procs| <= 8
    && (forall i: nat, l: nat {:trigger DevIndex(l, i)} | i < |s.procs| && FIRST_LINE <= l <= LAST_LINE ::
          s.devs[DevIndex(l, i)] == Sema(if s.procs[i].device == Some(l) then 0 else 1, []))
    && (forall i | 0 <= i < |s.procs| :: DeviceOk(s.procs[i]))
  }

  /** A U-proc holds a device's semaphore only in user code, in the pager, or until terminateUProc has come to it. */
  predicate DeviceOk(u: UProc) {
    && u.place != Stuck
    && (u.device.Some? ==> PRINTER <= u.device.value <= LAST_LINE)
    && match u.place
       case Release(line) => FIRST_LINE <= line <= LAST_LINE + 1 && (u.device.Some? ==> line <= u.device.value)
       case User => true
       case AwaitPool => true
       case Entered => true
       case Owner => true
       case Leaving => true
       case _ => u.device == None
  }

  lemma MoveKeepsDevices(s: System, s': System, i: nat)
    requires Devices(s) && OnlyMoves(s, s', i) && s'.devs == s.devs && s'.procs[i].device == s.procs[i].device
    requires DeviceOk(s'.procs[i])
    ensures Devices(s')
  {
  }

  /** A P or V of U-proc i on the semaphore of `line` touches no other one. */
  lemma OneDevice(s: System, s': System, i: nat, line: nat, x: Sema)
    requires Devices(s) && OnlyMoves(s, s', i) && FIRST_LINE <= line <= LAST_LINE
    requires 0 <= DevIndex(line, i) < DEVICE_SEMS && s'.devs == s.devs[DevIndex(line, i) := x]
    requires x == Sema(if s'.procs[i].device == Some(line) then 0 else 1, []) && DeviceOk(s'.procs[i])
    requires forall l | l != line :: s'.procs[i].device == Some(l) <==> s.procs[i].device == Some(l)
    ensures Devices(s')
  {
  }
}
