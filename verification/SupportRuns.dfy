/** The support level over every run: mutual exclusion in the pager, ownership of the device semaphores,
    and an orderly shutdown. */
module SupportRuns {
  import opened Basics
  import opened AslSpec
  import opened Semaphores
  import opened Support
  import opened SupportInv

  /** The U-procs from `created` on do not exist yet. */
  ghost predicate Roster(s: System) {
    s.created <= |s.procs| && forall i | 0 <= i < |s.procs| :: s.procs[i].place == NotCreated <==> s.created <= i
  }

  /** The invariant; h is the U-proc inside the pager's section, if any. */
  ghost predicate Good(s: System, h: Option<nat>) {
    Holder(s, h) && Queue(s) && Master(s) && Devices(s) && Roster(s)
  }

  /** Who is inside after a step. */
  function HolderAfter(s: System, a: Action, h: Option<nat>): Option<nat>
    requires Enabled(s, a)
  {
    match a
    case Fault(i) => if s.pool.value == 0 then h else Some(i)
    case Leave(i) => DoV(s.pool, i).woken
    case ReleasePool(i) => DoV(s.pool, i).woken
    case _ => h
  }

  lemma {:induction false} NoSignals(ps: seq<UProc>)
    requires forall i | 0 <= i < |ps| :: !Signalled(ps[i].place)
    ensures Signals(ps) == 0
  {
    if ps != [] { NoSignals(ps[1..]); }
  }

  /** The instantiator's TERMPROCESS takes all its children with it. */
  ghost predicate Closed(s: System) {
    s.over ==> s.taken == |s.procs| && forall i | 0 <= i < |s.procs| :: s.procs[i].place == Dead
  }

  lemma StartGood(n: nat)
    requires n <= 8
    ensures Good(Start(n), None) && Closed(Start(n))
  {
    NoSignals(Start(n).procs);
  }

  // ---------------------------------------------------------------------------------------------
  // One step

  /** A move of U-proc i that concerns no semaphore. */
  lemma QuietMove(s: System, s': System, i: nat, h: Option<nat>)
    requires Good(s, h) && OnlyMoves(s, s', i) && s' == s.(procs := s'.procs) && s'.procs[i].device == s.procs[i].device
    requires var p, p' := s.procs[i].place, s'.procs[i].place;
      && p != AwaitPool && p' != AwaitPool && p != AwaitMaster && p' != AwaitMaster && p != NotCreated && p' != NotCreated
      && (Section(p') ==> Section(p))
      && (h == Some(i) ==> (Section(p') || p'.Release?) && Named(p', i) == Named(p, i))
      && Signalled(p) == Signalled(p')
    requires DeviceOk(s'.procs[i])
    ensures Good(s', h)
  {
    MoveKeepsPool(s, s', i, h);
    MoveKeepsMaster(s, s', i);
    MoveKeepsDevices(s, s', i);
  }

  lemma CreateGood(s: System, ok: bool, h: Option<nat>)
    requires Good(s, h) && Enabled(s, Create(ok))
    ensures Good(Step(s, Create(ok)), h)
  {
    var s', i := Step(s, Create(ok)), s.created;
    MoveKeepsPool(s, s', i, h);
    MoveKeepsMaster(s, s', i);
    MoveKeepsDevices(s, s', i);
  }

  lemma TakeGood(s: System, h: Option<nat>)
    requires Good(s, h) && Enabled(s, Take)
    ensures Good(Step(s, Take), h)
  {
    var s', q := Step(s, Take), s.master.waiters;
    TakeKeepsMaster(s);
    if s.master.value == 1 && q != [] {
      assert q[0] in q;
      MoveKeepsPool(s, s', q[0], h);
      MoveKeepsDevices(s, s', q[0]);
    }
  }

  /** A V on MasterSemaphore either completes or blocks, and wakes no U-proc. */
  lemma SignalMoves(s: System, i: nat)
    requires Master(s) && Enabled(s, Signal(i))
    ensures var s' := Step(s, Signal(i));
      && OnlyMoves(s, s', i) && s'.pool == s.pool && s'.asidInPool == s.asidInPool && s'.devs == s.devs
      && s'.created == s.created && s'.procs[i].device == s.procs[i].device
      && (s'.procs[i].place == Finished || s'.procs[i].place == AwaitMaster)
  {
    assert s.master.value == 0 ==> forall x | x in s.master.waiters :: x == |s.procs|;
  }

  lemma SignalGood(s: System, i: nat, h: Option<nat>)
    requires Good(s, h) && Enabled(s, Signal(i))
    ensures Good(Step(s, Signal(i)), h)
  {
    SignalMoves(s, i);
    SignalKeepsMaster(s, i);
    hide Step, Master;
    var s' := Step(s, Signal(i));
    MoveKeepsPool(s, s', i, h);
    MoveKeepsDevices(s, s', i);
  }

  lemma TerminateGood(s: System, i: nat, h: Option<nat>)
    requires Good(s, h) && Enabled(s, Terminate(i))
    ensures Good(Step(s, Terminate(i)), h)
  {
    QuietMove(s, Step(s, Terminate(i)), i, h);
  }

  lemma DeviceGood(s: System, s': System, i: nat, line: nat, h: Option<nat>)
    requires Good(s, h) && OnlyMoves(s, s', i) && FIRST_LINE <= line <= LAST_LINE
    requires s' == s.(procs := s'.procs, devs := s'.devs)
    requires 0 <= DevIndex(line, i) < DEVICE_SEMS
    requires s'.devs == s.devs[DevIndex(line, i) := Sema(if s'.procs[i].device == Some(line) then 0 else 1, [])]
    requires forall l | l != line :: s'.procs[i].device == Some(l) <==> s.procs[i].device == Some(l)
    requires DeviceOk(s'.procs[i])
    requires (s.procs[i].place == User && s'.procs[i].place == User) || (s.procs[i].place.Release? && s'.procs[i].place.Release?)
    ensures Good(s', h)
  {
    MoveKeepsPool(s, s', i, h);
    MoveKeepsMaster(s, s', i);
    OneDevice(s, s', i, line, s'.devs[DevIndex(line, i)]);
  }

  lemma EnterGood(s: System, i: nat, line: nat, h: Option<nat>)
    requires Good(s, h) && Enabled(s, EnterDevice(i, line))
    ensures Good(Step(s, EnterDevice(i, line)), h)
  {
    DevIndexApart(line, i, line, i);
    assert s.devs[DevIndex(line, i)] == Sema(1, []);
    DeviceGood(s, Step(s, EnterDevice(i, line)), i, line, h);
  }

  lemma LeaveDeviceGood(s: System, i: nat, h: Option<nat>)
    requires Good(s, h) && Enabled(s, LeaveDevice(i))
    ensures Good(Step(s, LeaveDevice(i)), h)
  {
    var line := s.procs[i].device.value;
    DevIndexApart(line, i, line, i);
    assert s.devs[DevIndex(line, i)] == Sema(0, []);
    DeviceGood(s, Step(s, LeaveDevice(i)), i, line, h);
  }

  /** terminateUProc comes to the semaphore that the U-proc holds. */
  lemma ReleaseHeld(s: System, i: nat, h: Option<nat>)
    requires Good(s, h) && Enabled(s, ReleaseLine(i)) && s.procs[i].device == Some(s.procs[i].place.line)
    ensures Good(Step(s, ReleaseLine(i)), h)
  {
    var line := s.procs[i].place.line;
    DevIndexApart(line, i, line, i);
    assert s.devs[DevIndex(line, i)] == Sema(0, []);
    DeviceGood(s, Step(s, ReleaseLine(i)), i, line, h);
  }

  /** terminateUProc comes to another one. */
  lemma ReleasePassed(s: System, i: nat)
    requires Devices(s) && Enabled(s, ReleaseLine(i)) && s.procs[i].device != Some(s.procs[i].place.line)
    ensures Step(s, ReleaseLine(i)) == Goto(s, i, Release(s.procs[i].place.line + 1))
  {
  }

  lemma NextLine(s: System, i: nat, h: Option<nat>)
    requires Good(s, h) && i < |s.procs| && s.procs[i].place.Release? && s.procs[i].place.line <= LAST_LINE
    requires s.procs[i].device != Some(s.procs[i].place.line)
    ensures Good(Goto(s, i, Release(s.procs[i].place.line + 1)), h)
  {
    QuietMove(s, Goto(s, i, Release(s.procs[i].place.line + 1)), i, h);
  }

  /** The P of the pager either enters or blocks. */
  lemma FaultMoves(s: System, i: nat, h: Option<nat>)
    requires Holder(s, h) && Queue(s) && Enabled(s, Fault(i))
    ensures var s' := Step(s, Fault(i));
      && Holder(s', HolderAfter(s, Fault(i), h)) && OnlyMoves(s, s', i) && s' == s.(procs := s'.procs, pool := s'.pool)
      && s'.procs[i].device == s.procs[i].device && (s'.procs[i].place == Entered || s'.procs[i].place == AwaitPool)
  {
  }

  lemma FaultGood(s: System, i: nat, h: Option<nat>)
    requires Good(s, h) && Enabled(s, Fault(i))
    ensures Good(Step(s, Fault(i)), HolderAfter(s, Fault(i), h))
  {
    FaultKeepsQueue(s, i, h);
    FaultMoves(s, i, h);
    hide Step, Holder, Queue, HolderAfter;
    var s' := Step(s, Fault(i));
    MoveKeepsMaster(s, s', i);
    MoveKeepsDevices(s, s', i);
  }

  /** AsidInSwapPool is written by the U-proc that holds the semaphore. */
  lemma NameGood(s: System, s': System, i: nat)
    requires Good(s, Some(i)) && OnlyMoves(s, s', i) && s' == s.(procs := s'.procs, asidInPool := s'.asidInPool)
    requires s'.procs[i].device == s.procs[i].device && Section(s'.procs[i].place)
    requires s'.asidInPool == Named(s'.procs[i].place, i)
    requires s.procs[i].place != AwaitPool && s.procs[i].place != AwaitMaster && s.procs[i].place != NotCreated
    requires !Signalled(s.procs[i].place) && DeviceOk(s'.procs[i])
    ensures Good(s', Some(i))
  {
    MoveKeepsMaster(s, s', i);
    MoveKeepsDevices(s, s', i);
  }

  lemma CheckGood(s: System, i: nat, h: Option<nat>)
    requires Good(s, h) && Enabled(s, CheckPool(i))
    ensures Good(Step(s, CheckPool(i)), h)
  {
    hide Queue, Master, Roster;
    if s.asidInPool == i + 1 {
      NameGood(s, Step(s, CheckPool(i)), i);
    } else {
      QuietMove(s, Step(s, CheckPool(i)), i, h);
    }
  }

  lemma LeaverGood(s: System, i: nat, next: Place, h: Option<nat>)
    requires Good(s, h) && ((At(s, i, Leaving) && next == User) || (At(s, i, Handover) && next == Announce))
    ensures Master(Goto(s, i, next)) && Devices(Goto(s, i, next)) && Roster(Goto(s, i, next))
  {
    MoveKeepsMaster(s, Goto(s, i, next), i);
    MoveKeepsDevices(s, Goto(s, i, next), i);
  }

  lemma AdmittedGood(s: System, w: nat)
    requires Master(s) && Devices(s) && Roster(s) && At(s, w, AwaitPool)
    ensures Master(Goto(s, w, Entered)) && Devices(Goto(s, w, Entered)) && Roster(Goto(s, w, Entered))
  {
    MoveKeepsMaster(s, Goto(s, w, Entered), w);
    MoveKeepsDevices(s, Goto(s, w, Entered), w);
  }

  /** The pool's own fields are of no concern elsewhere. */
  lemma ElsewhereGood(s: System, s': System)
    requires Master(s) && Devices(s) && Roster(s) && s' == s.(pool := s'.pool)
    ensures Master(s') && Devices(s') && Roster(s')
  {
  }

  lemma VPoolGood(s: System, i: nat, next: Place, h: Option<nat>)
    requires Good(s, h) && ((At(s, i, Leaving) && next == User) || (At(s, i, Handover) && next == Announce))
    ensures Good(VPool(s, i, next), DoV(s.pool, i).woken)
  {
    var s1, q := Goto(s, i, next), s.pool.waiters;
    VKeepsHolder(s, i, next);
    VKeepsQueue(s, i, next);
    LeaverGood(s, i, next, h);
    if q != [] {
      assert q[0] in q;
      AdmittedGood(s1, q[0]);
      ElsewhereGood(Goto(s1, q[0], Entered), VPool(s, i, next));
    } else {
      ElsewhereGood(s1, VPool(s, i, next));
    }
  }

  /** TERMPROCESS of the instantiator, when its loop is over: everybody has signalled, so nobody is inside. */
  lemma EndGood(s: System, h: Option<nat>)
    requires Good(s, h) && Enabled(s, End)
    ensures h == None && Good(Step(s, End), None)
  {
    var s' := Step(s, End);
    AllSignalled(s.procs);
    AllSignalled(s'.procs);
    forall i: nat, l: nat {:trigger DevIndex(l, i)} | i < |s.procs| && FIRST_LINE <= l <= LAST_LINE
      ensures s'.devs[DevIndex(l, i)] == Sema(1, [])
    {
      DevIndexApart(l, i, l, i);
    }
  }

  /** The steps between the pager's P and V. */
  predicate PagerStep(a: Action) {
    a.Fault? || a.Own? || a.Clear? || a.Leave? || a.FlashError? || a.CheckPool? || a.ReleasePool?
  }

  lemma PagerStepGood(s: System, a: Action, h: Option<nat>)
    requires Good(s, h) && Enabled(s, a) && PagerStep(a)
    ensures Good(Step(s, a), HolderAfter(s, a, h))
  {
    hide Queue, Master, Roster;
    match a
    case Fault(i) => FaultGood(s, i, h);
    case Own(i) => NameGood(s, Step(s, a), i);
    case Clear(i) => NameGood(s, Step(s, a), i);
    case Leave(i) => VPoolGood(s, i, User, h);
    case FlashError(i) => QuietMove(s, Step(s, a), i, h);
    case CheckPool(i) => CheckGood(s, i, h);
    case ReleasePool(i) => VPoolGood(s, i, Announce, h);
  }

  lemma StepGood(s: System, a: Action, h: Option<nat>)
    requires Good(s, h) && Enabled(s, a)
    ensures Good(Step(s, a), HolderAfter(s, a, h))
  {
    if PagerStep(a) { PagerStepGood(s, a, h); } else { OtherStepGood(s, a, h); }
  }

  lemma OtherStepGood(s: System, a: Action, h: Option<nat>)
    requires Good(s, h) && Enabled(s, a) && !PagerStep(a)
    ensures Good(Step(s, a), h)
  {
    match a
    case Create(ok) => CreateGood(s, ok, h);
    case Take => TakeGood(s, h);
    case End => EndGood(s, h);
    case EnterDevice(i, line) => EnterGood(s, i, line, h);
    case LeaveDevice(i) => LeaveDeviceGood(s, i, h);
    case Trap(i) => QuietMove(s, Step(s, a), i, h);
    case ReleaseLine(i) =>
      if s.procs[i].device == Some(s.procs[i].place.line) {
        ReleaseHeld(s, i, h);
      } else {
        ReleasePassed(s, i);
        NextLine(s, i, h);
      }
    case Signal(i) => SignalGood(s, i, h);
    case Terminate(i) => TerminateGood(s, i, h);
  }

  lemma Advances(s: System, a: Action, h: Option<nat>) returns (s1: System, h1: Option<nat>)
    requires Good(s, h) && Closed(s) && Enabled(s, a)
    ensures s1 == Step(s, a) && Good(s1, h1) && Closed(s1) && |s1.procs| == |s.procs|
  {
    s1, h1 := Step(s, a), HolderAfter(s, a, h);
    StepGood(s, a, h);
    SameSize(s, a);
  }

  lemma SameSize(s: System, a: Action)
    requires Enabled(s, a)
    ensures |Step(s, a).procs| == |s.procs| && Closed(Step(s, a))
  {
  }

  lemma {:induction false} RunGood(s: System, acts: seq<Action>, s': System, h: Option<nat>) returns (h': Option<nat>)
    requires Good(s, h) && Closed(s) && Run(s, acts, s')
    ensures Good(s', h') && Closed(s') && |s'.procs| == |s.procs|
    decreases |acts|
  {
    if acts == [] {
      h' := h;
    } else {
      var s1, h1 := Advances(s, acts[0], h);
      h' := RunGood(s1, acts[1..], s', h1);
    }
  }

  // ---------------------------------------------------------------------------------------------
  // Mutual exclusion in the pager

  /** Between the P and the V, wherever that V is called: in TLB_Handler or, after a flash error, in
      terminateUProc, which knows by AsidInSwapPool. */
  predicate Inside(s: System, i: nat) {
    i < |s.procs| && (Section(s.procs[i].place) || (s.procs[i].place.Release? && s.asidInPool == i + 1))
  }

  lemma InsideIsHolder(s: System, h: Option<nat>, i: nat)
    requires Good(s, h)
    ensures Inside(s, i) <==> h == Some(i)
  {
  }

  /** In every reachable state at most one U-proc is inside; the semaphore is 0 exactly while one is;
      AsidInSwapPool names nobody else, and names it while the handler works; and no V can block. */
  lemma PagerMutex(n: nat, acts: seq<Action>, s: System)
    requires n <= 8 && Run(Start(n), acts, s)
    ensures forall i: nat, j: nat | Inside(s, i) && Inside(s, j) :: i == j
    ensures s.pool.value == (if exists i: nat :: Inside(s, i) then 0 else 1)
    ensures s.asidInPool != 0 ==> Inside(s, s.asidInPool - 1)
    ensures forall i | 0 <= i < |s.procs| && s.procs[i].place == Owner :: s.asidInPool == i + 1
    ensures forall i: nat | At(s, i, Leaving) || At(s, i, Handover) :: !DoV(s.pool, i).blocked
  {
    StartGood(n);
    var h := RunGood(Start(n), acts, s, None);
    forall i: nat { InsideIsHolder(s, h, i); }
    if h.Some? { assert Inside(s, h.value); }
  }

  /** Every way out of the section is one V: TLB_Handler's or terminateUProc's, called by the U-proc inside. */
  lemma OutByOneV(s: System, a: Action, h: Option<nat>, i: nat)
    requires Good(s, h) && Enabled(s, a)
    ensures Inside(s, i) && !Inside(Step(s, a), i) <==> a == Leave(i) || a == ReleasePool(i)
  {
    InsideIsHolder(s, h, i);
    StepGood(s, a, h);
    InsideIsHolder(Step(s, a), HolderAfter(s, a, h), i);
    if a == End { EndGood(s, h); }
    if h == Some(i) && (a == Leave(i) || a == ReleasePool(i)) { NotOwnWaiter(s, i); }
  }

  /** Whoever is inside does not wait. */
  lemma NotOwnWaiter(s: System, i: nat)
    requires Queue(s) && (At(s, i, Leaving) || At(s, i, Handover))
    ensures DoV(s.pool, i).woken != Some(i)
  {
  }

  // ---------------------------------------------------------------------------------------------
  // Device semaphores

  /** In every reachable state a device semaphore is 0 exactly while its U-proc is in the routine, nobody waits
      there, and a U-proc that terminateUProc is done with has all six of its semaphores at 1. */
  lemma DeviceOwnership(n: nat, acts: seq<Action>, s: System, i: nat, line: nat)
    requires n <= 8 && Run(Start(n), acts, s) && i < n && FIRST_LINE <= line <= LAST_LINE
    ensures |s.procs| == n && |s.devs| == DEVICE_SEMS && 0 <= DevIndex(line, i) < DEVICE_SEMS
    ensures s.devs[DevIndex(line, i)].value == (if s.procs[i].device == Some(line) then 0 else 1)
    ensures s.devs[DevIndex(line, i)].waiters == [] && s.procs[i].place != Stuck
    ensures s.procs[i].place in {Handover, Announce, AwaitMaster, Finished, Dead} || s.procs[i].place == Release(LAST_LINE + 1)
            ==> s.devs[DevIndex(line, i)].value == 1
  {
    StartGood(n);
    var h := RunGood(Start(n), acts, s, None);
    DevIndexApart(line, i, line, i);
  }

  /** The U-proc that takes a step, if it is one. */
  function Actor(a: Action): Option<nat> {
    match a
    case Create(ok) => None
    case Take => None
    case End => None
    case EnterDevice(i, line) => Some(i)
    case LeaveDevice(i) => Some(i)
    case Fault(i) => Some(i)
    case Own(i) => Some(i)
    case Clear(i) => Some(i)
    case Leave(i) => Some(i)
    case FlashError(i) => Some(i)
    case Trap(i) => Some(i)
    case ReleaseLine(i) => Some(i)
    case CheckPool(i) => Some(i)
    case ReleasePool(i) => Some(i)
    case Signal(i) => Some(i)
    case Terminate(i) => Some(i)
  }

  /** Nobody changes another U-proc's device semaphores. */
  lemma OthersDevicesUntouched(s: System, a: Action, j: nat, line: nat)
    requires Enabled(s, a) && Actor(a) != Some(j) && j < |s.procs| && FIRST_LINE <= line <= LAST_LINE
    ensures 0 <= DevIndex(line, j) < |s.devs| == |Step(s, a).devs|
    ensures Step(s, a).devs[DevIndex(line, j)] == s.devs[DevIndex(line, j)]
  {
    match a
    case EnterDevice(i, l) => DevIndexApart(l, i, line, j);
    case LeaveDevice(i) => DevIndexApart(s.procs[i].device.value, i, line, j);
    case ReleaseLine(i) => DevIndexApart(s.procs[i].place.line, i, line, j);
    case _ => DevIndexApart(line, j, line, j);
  }

  // ---------------------------------------------------------------------------------------------
  // Shutdown

  /** It has called V on MasterSemaphore. */
  predicate Issued(p: Place) {
    p == AwaitMaster || Signalled(p)
  }

  /** The instantiator's last P is completed only when every U-proc's V is; and once every U-proc has called V,
      the instantiator is not blocked. */
  lemma GracefulShutdown(n: nat, acts: seq<Action>, s: System)
    requires n <= 8 && Run(Start(n), acts, s)
    ensures s.taken <= |s.procs| == n
    ensures s.taken == n ==> forall i | 0 <= i < n :: Signalled(s.procs[i].place)
    ensures (forall i | 0 <= i < n :: Issued(s.procs[i].place)) ==> !s.waiting
    ensures s.over ==> s.taken == n && s.pool == Sema(1, []) && s.master == Sema(0, []) && s.asidInPool == 0
  {
    StartGood(n);
    var h := RunGood(Start(n), acts, s, None);
    AllSignalled(s.procs);
    AllCounted(s, h);
  }

  lemma AllCounted(s: System, h: Option<nat>)
    requires Good(s, h)
    ensures (forall i | 0 <= i < |s.procs| :: Issued(s.procs[i].place)) ==> !s.waiting
  {
    if s.waiting { AllSignalled(s.procs); }
  }

  /** A U-proc that is neither waiting nor gone has a step to take. */
  lemma MovesOn(s: System, h: Option<nat>, i: nat) returns (a: Action)
    requires Good(s, h) && !s.over && i < |s.procs|
    requires s.procs[i].place !in {NotCreated, Missing, AwaitPool, AwaitMaster, Dead}
    ensures Enabled(s, a)
  {
    match s.procs[i].place
    case User => a := Fault(i);
    case Entered => a := Own(i);
    case Owner => a := Clear(i);
    case Leaving => a := Leave(i);
    case Release(line) => a := if line <= LAST_LINE then ReleaseLine(i) else CheckPool(i);
    case Handover => a := ReleasePool(i);
    case Announce => a := Signal(i);
    case Finished => a := Terminate(i);
    case _ => assert false;
  }

  /** Somebody waits for the pool only while somebody is inside, and whoever is inside moves on. */
  lemma InsideMovesOn(s: System, h: Option<nat>, i: nat) returns (a: Action)
    requires Good(s, h) && !s.over && At(s, i, AwaitPool)
    ensures Enabled(s, a)
  {
    assert i in s.pool.waiters;
    a := MovesOn(s, h, h.value);
  }

  /** Every CREATEPROCESS of test was granted. */
  predicate Granted(acts: seq<Action>) {
    forall i | 0 <= i < |acts| && acts[i].Create? :: acts[i].ok
  }

  ghost predicate Complete(s: System) {
    forall i | 0 <= i < |s.procs| :: s.procs[i].place != Missing
  }

  /** The first U-proc in a queue waits there. */
  ghost predicate Queued(s: System) {
    && (s.pool.waiters != [] && s.pool.waiters[0] < |s.procs| ==> s.procs[s.pool.waiters[0]].place == AwaitPool)
    && (s.master.waiters != [] && s.master.waiters[0] < |s.procs| ==> s.procs[s.master.waiters[0]].place == AwaitMaster)
    && (s.created < |s.procs| ==> s.procs[s.created].place == NotCreated)
  }

  lemma GoodQueued(s: System, h: Option<nat>)
    requires Good(s, h)
    ensures Queued(s)
  {
    hide Holder, Devices;
    if s.pool.waiters != [] { assert s.pool.waiters[0] in s.pool.waiters; }
    if s.master.waiters != [] { assert s.master.waiters[0] in s.master.waiters; }
  }

  /** U-proc i is missing afterwards exactly if it was before. */
  ghost predicate StillMissing(s: System, s': System, i: nat) {
    |s'.procs| == |s.procs| && s'.over == s.over
    && (i < |s.procs| ==> (s'.procs[i].place == Missing <==> s.procs[i].place == Missing))
  }

  lemma PoolMissing(s: System, j: nat, next: Place, i: nat)
    requires Queued(s) && j < |s.procs| && s.procs[j].place != Missing && next != Missing
    ensures StillMissing(s, VPool(s, j, next), i)
  {
  }

  lemma DeviceMissing(s: System, j: nat, line: nat, next: Place, i: nat)
    requires j < |s.procs| <= 8 && |s.devs| == DEVICE_SEMS && FIRST_LINE <= line <= LAST_LINE
    requires s.procs[j].place != Missing && next != Missing
    ensures StillMissing(s, VDevice(s, j, line, next), i)
  {
  }

  lemma SignalMissing(s: System, j: nat, i: nat)
    requires Queued(s) && Enabled(s, Signal(j))
    ensures StillMissing(s, Step(s, Signal(j)), i)
  {
  }

  lemma TakeMissing(s: System, i: nat)
    requires Queued(s) && Enabled(s, Take)
    ensures StillMissing(s, Step(s, Take), i)
  {
  }

  /** A U-proc becomes missing by a CREATEPROCESS that is not granted, and stays so. */
  lemma MissingIff(s: System, a: Action, i: nat)
    requires Queued(s) && Enabled(s, a) && a != End
    ensures |Step(s, a).procs| == |s.procs| && Step(s, a).over == s.over
    ensures i < |s.procs| ==>
      (Step(s, a).procs[i].place == Missing <==> s.procs[i].place == Missing || (a == Create(false) && i == s.created))
  {
    hide DevIndex, DoP, DoV, VPool, VDevice, Advance;
    match a
    case Leave(j) => PoolMissing(s, j, User, i);
    case ReleasePool(j) => PoolMissing(s, j, Announce, i);
    case LeaveDevice(j) => DeviceMissing(s, j, s.procs[j].device.value, User, i);
    case ReleaseLine(j) => DeviceMissing(s, j, s.procs[j].place.line, Release(s.procs[j].place.line + 1), i);
    case Signal(j) => SignalMissing(s, j, i);
    case Take => TakeMissing(s, i);
    case _ =>
  }

  lemma EndedComplete(s: System)
    requires Enabled(s, End)
    ensures Complete(Step(s, End))
  {
  }

  lemma StaysComplete(s: System, a: Action)
    requires Queued(s) && Complete(s) && Enabled(s, a) && a != End && a != Create(false)
    ensures Complete(Step(s, a))
  {
    hide Step, Queued;
    forall i | 0 <= i < |Step(s, a).procs| ensures Step(s, a).procs[i].place != Missing { MissingIff(s, a, i); }
  }

  lemma {:induction false} GrantedComplete(s: System, acts: seq<Action>, s': System, h: Option<nat>)
    requires Good(s, h) && Complete(s) && Run(s, acts, s') && Granted(acts)
    ensures Complete(s')
    decreases |acts|
  {
    hide Good, Step, Queued;
    if acts != [] {
      var s1 := Step(s, acts[0]);
      StepGood(s, acts[0], h);
      GoodQueued(s, h);
      if acts[0] == End { EndedComplete(s); } else { StaysComplete(s, acts[0]); }
      assert forall i | 0 <= i < |acts[1..]| :: acts[1..][i] == acts[i + 1];
      GrantedComplete(s1, acts[1..], s', HolderAfter(s, acts[0], h));
    }
  }

  /** No deadlock: if test's calls were granted, somebody can take a step until the instantiator has ended. */
  lemma NeverDeadlocked(n: nat, acts: seq<Action>, s: System)
    requires n <= 8 && Run(Start(n), acts, s) && Granted(acts) && !s.over
    ensures exists a :: Enabled(s, a)
  {
    StartGood(n);
    var h := RunGood(Start(n), acts, s, None);
    GrantedComplete(Start(n), acts, s, None);
    var a := SomeStep(s, h);
  }

  /** A U-proc that does not exist signals nothing, and the instantiator does not end without it. */
  lemma MissingStays(s: System, a: Action, h: Option<nat>)
    requires Good(s, h) && Enabled(s, a) && (!Complete(s) || a == Create(false))
    ensures !Complete(Step(s, a)) && !Step(s, a).over
  {
    hide Good, Step, Queued;
    GoodQueued(s, h);
    if a == End {
      EndComplete(s, h);
    } else {
      var i := s.created;
      if !Complete(s) { i :| 0 <= i < |s.procs| && s.procs[i].place == Missing; }
      MissingIff(s, a, i);
    }
  }

  lemma EndComplete(s: System, h: Option<nat>)
    requires Good(s, h) && Enabled(s, End)
    ensures Complete(s)
  {
    AllSignalled(s.procs);
  }

  lemma {:induction false} StaysIncomplete(s: System, acts: seq<Action>, s': System, h: Option<nat>)
    requires Good(s, h) && Run(s, acts, s') && !s.over && (!Complete(s) || !Granted(acts))
    ensures !Complete(s') && !s'.over
    decreases |acts|
  {
    hide Good, Step;
    if acts != [] {
      StepGood(s, acts[0], h);
      if !Complete(s) || acts[0] == Create(false) {
        MissingStays(s, acts[0], h);
      } else if acts[0] == End {
        assert !Granted(acts[1..]) && acts[1..] != [];
      } else {
      }
      StaysIncomplete(Step(s, acts[0]), acts[1..], s', HolderAfter(s, acts[0], h));
    }
  }

  /** The shutdown is completed only in runs in which every one of test's calls was granted. */
  lemma EndsOnlyIfGranted(n: nat, acts: seq<Action>, s: System)
    requires n <= 8 && Run(Start(n), acts, s) && s.over
    ensures Granted(acts)
  {
    StartGood(n);
    if !Granted(acts) { StaysIncomplete(Start(n), acts, s, None); }
  }

  lemma SomeStep(s: System, h: Option<nat>) returns (a: Action)
    requires Good(s, h) && Complete(s) && !s.over
    ensures Enabled(s, a)
  {
    if !s.waiting {
      a := if s.created < |s.procs| then Create(true) else if s.taken < |s.procs| then Take else End;
      assert s.taken <= |s.procs|;
    } else {
      AllSignalled(s.procs);
      var i :| 0 <= i < |s.procs| && !Signalled(s.procs[i].place);
      if s.procs[i].place == AwaitPool { a := InsideMovesOn(s, h, i); } else { a := MovesOn(s, h, i); }
    }
  }
}
