/** How the support level comes to its end: what each step achieves, how a U-proc that terminates gets to its V on
    MasterSemaphore (phase3/sysSupport.c:39-63), and that the instantiator can always end (phase3/initProc.c:99-118). */
module SupportEnds {
  import opened Basics
  import opened AslSpec
  import opened Semaphores
  import opened Support
  import opened SupportInv
  import opened SupportRuns

  // ---------------------------------------------------------------------------------------------
  // One step

  /** Where a step takes the U-proc that makes it, and which device routine it is in then. */
  ghost predicate Leads(s: System, a: Action, i: nat, u: UProc)
    requires Actor(a) == Some(i) && i < |s.procs|
  {
    var v := s.procs[i];
    match a
    case EnterDevice(_, line) => u == UProc(User, Some(line))
    case LeaveDevice(_) => u == UProc(User, None)
    case Fault(_) => u == v.(place := if s.pool.value == 1 then Entered else AwaitPool)
    case Own(_) => u == v.(place := Owner)
    case Clear(_) => u == v.(place := Leaving)
    case Leave(_) => u == v.(place := User)
    case FlashError(_) => u == v.(place := Release(3))
    case Trap(_) => u == v.(place := Release(3))
    case ReleaseLine(_) =>
      v.place.Release? && u == UProc(Release(v.place.line + 1), if v.device == Some(v.place.line) then None else v.device)
    case CheckPool(_) => u == v.(place := if Inside(s, i) then Handover else Announce)
    case ReleasePool(_) => u == v.(place := Announce)
    case Signal(_) => u == v.(place := if s.master.value == 0 then Finished else AwaitMaster)
    case Terminate(_) => u == v.(place := Dead)
    case _ => false
  }

  lemma DeviceStep(s: System, a: Action, h: Option<nat>, i: nat)
    requires Good(s, h) && Enabled(s, a) && Actor(a) == Some(i) && (a.EnterDevice? || a.LeaveDevice? || a.ReleaseLine?)
    ensures i < |s.procs| == |Step(s, a).procs| && Leads(s, a, i, Step(s, a).procs[i])
  {
    hide Holder, Queue, Master, Roster;
    var line := if a.EnterDevice? then a.line else if a.LeaveDevice? then s.procs[i].device.value else s.procs[i].place.line;
    DevIndexApart(line, i, line, i);
    assert s.devs[DevIndex(line, i)] == Sema(if s.procs[i].device == Some(line) then 0 else 1, []);
  }

  lemma PoolStep(s: System, h: Option<nat>, i: nat, next: Place)
    requires Good(s, h) && (At(s, i, Leaving) || At(s, i, Handover)) && (next == User || next == Announce)
    ensures i < |s.procs| == |VPool(s, i, next).procs| && VPool(s, i, next).procs[i] == s.procs[i].(place := next)
  {
    hide Master, Devices, Roster;
    VKeepsHolder(s, i, next);
    NotOwnWaiter(s, i);
  }

  /** Every step of a U-proc takes it on, in every reachable state: none of its V's blocks but the one on
      MasterSemaphore, and that one only while another is pending. */
  lemma ControlFlow(s: System, a: Action, h: Option<nat>, i: nat)
    requires Good(s, h) && Enabled(s, a) && Actor(a) == Some(i)
    ensures i < |s.procs| == |Step(s, a).procs| && Leads(s, a, i, Step(s, a).procs[i])
  {
    hide Devices, Roster, Inside;
    match a
    case EnterDevice(_, line) => DeviceStep(s, a, h, i);
    case LeaveDevice(_) => DeviceStep(s, a, h, i);
    case ReleaseLine(_) => DeviceStep(s, a, h, i);
    case Leave(_) => PoolStep(s, h, i, User);
    case ReleasePool(_) => PoolStep(s, h, i, Announce);
    case CheckPool(_) => InsideIsHolder(s, h, i); CheckStep(s, h, i);
    case Signal(_) => SignalStep(s, h, i);
    case _ =>
  }

  lemma CheckStep(s: System, h: Option<nat>, i: nat)
    requires Good(s, h) && At(s, i, Release(LAST_LINE + 1))
    ensures Inside(s, i) <==> s.asidInPool == i + 1
  {
  }

  lemma SignalStep(s: System, h: Option<nat>, i: nat)
    requires Good(s, h) && Enabled(s, Signal(i))
    ensures |Step(s, Signal(i)).procs| == |s.procs| && Leads(s, Signal(i), i, Step(s, Signal(i)).procs[i])
  {
    hide Holder, Queue, Devices, Roster;
    if s.master.value == 0 && s.master.waiters != [] { assert s.master.waiters[0] == |s.procs|; }
  }

  /** The instantiator's P: with MasterSemaphore at 1 one more P is completed, and a U-proc whose V was waiting has it
      done; at 0 the instantiator blocks. */
  lemma TakeExact(s: System, h: Option<nat>)
    requires Good(s, h) && Enabled(s, Take)
    ensures var s' := Step(s, Take);
      && (s.master.value == 1 ==> s'.taken == s.taken + 1 && !s'.waiting)
      && (s.master.value == 1 && s.master.waiters == [] ==> s'.master == Sema(0, []) && s'.procs == s.procs)
      && (s.master.value == 1 && s.master.waiters != [] ==>
            var w := s.master.waiters[0];
            && w < |s.procs| && s.procs[w].place == AwaitMaster && s'.procs == s.procs[w := s.procs[w].(place := Finished)]
            && s'.master == Sema(1, s.master.waiters[1..]))
      && (s.master.value == 0 ==>
            s'.taken == s.taken && s'.waiting && s'.master == Sema(0, [|s.procs|]) && s'.procs == s.procs)
      && (s.master.value == 0 || s.master.value == 1)
  {
    hide Holder, Queue, Devices, Roster, MasterCount;
    var q := s.master.waiters;
    MasterBinary(s, h);
    if s.master.value == 1 && q != [] { assert q[0] in q; }
  }

  lemma MasterBinary(s: System, h: Option<nat>)
    requires Good(s, h)
    ensures s.master.value == 0 || s.master.value == 1
  {
  }

  /** What the steps of others do to a U-proc: they let it go from a queue, create it, or end it with everything else.
      */
  ghost predicate Passive(u: UProc, v: UProc, a: Action) {
    || v == u
    || (u.place == AwaitPool && v == u.(place := Entered))
    || (u.place == AwaitMaster && v == u.(place := Finished))
    || (u.place == NotCreated && a.Create?)
    || a == End
  }

  lemma PoolPassive(s: System, j: nat, next: Place, i: nat)
    requires Queue(s) && i < |s.procs| && j < |s.procs| && i != j && !DoV(s.pool, j).blocked
    ensures |VPool(s, j, next).procs| == |s.procs|
    ensures VPool(s, j, next).procs[i] == s.procs[i] ||
            (s.procs[i].place == AwaitPool && VPool(s, j, next).procs[i] == s.procs[i].(place := Entered))
  {
    if s.pool.waiters != [] { assert s.pool.waiters[0] in s.pool.waiters; }
  }

  lemma OthersPassive(s: System, a: Action, h: Option<nat>, i: nat)
    requires Good(s, h) && Enabled(s, a) && Actor(a) != Some(i) && i < |s.procs|
    ensures |Step(s, a).procs| == |s.procs| && Passive(s.procs[i], Step(s, a).procs[i], a)
  {
    hide Devices, DevIndex, DoV, DoP, VPool, Holder, MasterCount;
    match a
    case Leave(j) => InsideVs(s, h, j); PoolPassive(s, j, User, i);
    case ReleasePool(j) => InsideVs(s, h, j); PoolPassive(s, j, Announce, i);
    case Take => TakeExact(s, h);
    case Signal(j) => SignalPassive(s, h, j, i);
    case LeaveDevice(j) => ControlFlow(s, a, h, j); DevicePassive(s, j, s.procs[j].device.value, User, i);
    case ReleaseLine(j) => DevicePassive(s, j, s.procs[j].place.line, Release(s.procs[j].place.line + 1), i);
    case Create(ok) => CreatesNew(s, h);
    case _ =>
  }

  lemma CreatesNew(s: System, h: Option<nat>)
    requires Good(s, h) && s.created < |s.procs|
    ensures s.procs[s.created].place == NotCreated
  {
  }

  lemma InsideVs(s: System, h: Option<nat>, j: nat)
    requires Good(s, h) && (At(s, j, Leaving) || At(s, j, Handover))
    ensures !DoV(s.pool, j).blocked
  {
  }

  lemma SignalPassive(s: System, h: Option<nat>, j: nat, i: nat)
    requires Good(s, h) && Enabled(s, Signal(j)) && i < |s.procs| && i != j
    ensures |Step(s, Signal(j)).procs| == |s.procs| && Step(s, Signal(j)).procs[i] == s.procs[i]
  {
    hide Holder, Queue, Devices, Roster;
    if s.master.value == 0 && s.master.waiters != [] { assert s.master.waiters[0] == |s.procs|; }
  }

  lemma DevicePassive(s: System, j: nat, line: nat, next: Place, i: nat)
    requires i < |s.procs| <= 8 && j < |s.procs| && j != i && |s.devs| == DEVICE_SEMS && FIRST_LINE <= line <= LAST_LINE
    ensures |VDevice(s, j, line, next).procs| == |s.procs| && VDevice(s, j, line, next).procs[i] == s.procs[i]
  {
  }

  /** In user mode, or in a device routine, anything may come: a fault, a TERMINATE, and entering or leaving a device.
      */
  lemma UserMay(s: System, h: Option<nat>, i: nat, line: nat)
    requires Good(s, h) && !s.over && At(s, i, User)
    ensures Enabled(s, Fault(i)) && Enabled(s, Trap(i))
    ensures 6 <= line <= 8 ==> (Enabled(s, EnterDevice(i, line)) <==> s.procs[i].device == None)
    ensures Enabled(s, LeaveDevice(i)) <==> s.procs[i].device.Some?
  {
  }

  // ---------------------------------------------------------------------------------------------
  // terminateUProc

  /** From terminateUProc's first statement on. */
  predicate Ending(p: Place) {
    p.Release? || p == Handover || p == Announce || Issued(p)
  }

  /** How many steps of its own a U-proc in terminateUProc is at most away from having called V on MasterSemaphore. */
  function ToSignal(p: Place): int {
    match p
    case Release(line) => 12 - line
    case Handover => 2
    case Announce => 1
    case _ => 0
  }

  /** Whoever is in terminateUProc stays there until it is gone, whatever anybody does; each step of its own, and there
      always is one, brings it nearer to its V on MasterSemaphore, and nobody else's takes it away from there. */
  lemma EndingStep(s: System, a: Action, h: Option<nat>, i: nat)
    requires Good(s, h) && Enabled(s, a) && i < |s.procs| && Ending(s.procs[i].place)
    ensures |Step(s, a).procs| == |s.procs| && Ending(Step(s, a).procs[i].place)
    ensures 0 <= ToSignal(Step(s, a).procs[i].place) <= ToSignal(s.procs[i].place)
    ensures Actor(a) == Some(i) && !Issued(s.procs[i].place) ==>
              ToSignal(Step(s, a).procs[i].place) < ToSignal(s.procs[i].place)
    ensures ToSignal(s.procs[i].place) == 0 <==> Issued(s.procs[i].place)
  {
    hide Step, Good, Leads, Passive, Enabled;
    EndingLine(s, h, i);
    StepGood(s, a, h);
    if a == End {
      EndedPlace(s, i);
    } else if Actor(a) == Some(i) {
      ControlFlow(s, a, h, i);
      EndingOwn(s, a, i, Step(s, a).procs[i]);
    } else {
      OthersPassive(s, a, h, i);
      EndingOther(s.procs[i], Step(s, a).procs[i], a);
    }
  }

  lemma EndingOwn(s: System, a: Action, i: nat, u: UProc)
    requires Actor(a) == Some(i) && Enabled(s, a) && i < |s.procs| && Leads(s, a, i, u) && Ending(s.procs[i].place)
    requires s.procs[i].place.Release? ==> FIRST_LINE <= s.procs[i].place.line <= LAST_LINE + 1
    ensures Ending(u.place) && 0 <= ToSignal(u.place) <= ToSignal(s.procs[i].place)
    ensures !Issued(s.procs[i].place) ==> ToSignal(u.place) < ToSignal(s.procs[i].place)
  {
    hide Inside;
  }

  lemma EndingOther(u: UProc, v: UProc, a: Action)
    requires Passive(u, v, a) && a != End && Ending(u.place) && (u.place.Release? ==> u.place.line <= LAST_LINE + 1)
    ensures Ending(v.place) && 0 <= ToSignal(v.place) <= ToSignal(u.place)
  {
  }

  lemma EndedPlace(s: System, i: nat)
    requires Enabled(s, End) && i < |s.procs|
    ensures |Step(s, End).procs| == |s.procs| && Step(s, End).procs[i].place == Dead
  {
  }

  lemma EndingLine(s: System, h: Option<nat>, i: nat)
    requires Good(s, h)
    ensures i < |s.procs| && s.procs[i].place.Release? ==> FIRST_LINE <= s.procs[i].place.line <= LAST_LINE + 1
  {
  }

  function OwnSteps(acts: seq<Action>, i: nat): nat {
    if acts == [] then 0 else (if Actor(acts[0]) == Some(i) then 1 else 0) + OwnSteps(acts[1..], i)
  }

  lemma {:induction false} StaysEnding(s: System, acts: seq<Action>, s': System, h: Option<nat>, i: nat)
    requires Good(s, h) && Closed(s) && Run(s, acts, s') && i < |s.procs| && Ending(s.procs[i].place)
    ensures |s'.procs| == |s.procs| && Ending(s'.procs[i].place)
    ensures ToSignal(s.procs[i].place) <= OwnSteps(acts, i) ==> Issued(s'.procs[i].place)
    decreases |acts|
  {
    hide Good, Closed, Step, Enabled, Ending, Issued, ToSignal;
    if acts == [] {
      SignalledAtZero(s, h, i);
    } else {
      var s1, h1 := Advances(s, acts[0], h);
      EndingStep(s, acts[0], h, i);
      IssuedStays(s, acts[0], h, i);
      StaysEnding(s1, acts[1..], s', h1, i);
    }
  }

  lemma SignalledAtZero(s: System, h: Option<nat>, i: nat)
    requires Good(s, h) && i < |s.procs| && Ending(s.procs[i].place)
    ensures ToSignal(s.procs[i].place) <= 0 ==> Issued(s.procs[i].place)
  {
    EndingLine(s, h, i);
  }

  lemma IssuedStays(s: System, a: Action, h: Option<nat>, i: nat)
    requires Good(s, h) && Enabled(s, a) && i < |s.procs| && Ending(s.procs[i].place)
    ensures |Step(s, a).procs| == |s.procs|
    ensures Issued(s.procs[i].place) ==> ToSignal(s.procs[i].place) == 0 && Issued(Step(s, a).procs[i].place)
  {
    hide Good, Step, Enabled;
    EndingStep(s, a, h, i);
    StepGood(s, a, h);
    if Issued(s.procs[i].place) { SignalledAtZero(Step(s, a), HolderAfter(s, a, h), i); }
  }

  /** In every run a U-proc that calls TERMINATE, or whose fault ends in a flash error, never comes back to user mode,
      and has called V on MasterSemaphore after nine steps of its own at most: six device semaphores, AsidInSwapPool,
      the V on SwapPoolSemaphore, and this one. */
  lemma TerminateUProc(n: nat, before: seq<Action>, s: System, a: Action, i: nat, acts: seq<Action>, s': System)
    requires n <= 8 && Run(Start(n), before, s) && Enabled(s, a) && (a == Trap(i) || a == FlashError(i))
    requires Run(Step(s, a), acts, s')
    ensures i < |s'.procs| && s'.procs[i].place !in {User, AwaitPool, Entered, Owner, Leaving}
    ensures OwnSteps(acts, i) >= 9 ==> Issued(s'.procs[i].place)
  {
    hide Good, Closed, Step, Run;
    StartGood(n);
    var h := RunGood(Start(n), before, s, None);
    ControlFlow(s, a, h, i);
    var s1, h1 := Advances(s, a, h);
    StaysEnding(s1, acts, s', h1, i);
  }

  // ---------------------------------------------------------------------------------------------
  // The instantiator can always end

  /** How far a U-proc is from being gone, when it makes no more faults. */
  function Rank(p: Place): nat {
    match p
    case NotCreated => 17
    case AwaitPool => 16
    case Entered => 15
    case Owner => 14
    case Leaving => 13
    case User => 12
    case Release(line) => if line <= 9 then 14 - line else 5
    case Handover => 4
    case Announce => 3
    case AwaitMaster => 2
    case Finished => 1
    case _ => 0
  }

  function Ranks(ps: seq<UProc>): nat {
    if ps == [] then 0 else Rank(ps[0].place) + Ranks(ps[1..])
  }

  /** U-proc i comes nearer, and nobody gets farther away. */
  lemma {:induction false} RanksFall(ps: seq<UProc>, ps': seq<UProc>, i: nat)
    requires |ps| == |ps'| && forall j | 0 <= j < |ps| :: Rank(ps'[j].place) <= Rank(ps[j].place)
    ensures Ranks(ps') <= Ranks(ps)
    ensures i < |ps| && Rank(ps'[i].place) < Rank(ps[i].place) ==> Ranks(ps') < Ranks(ps)
    decreases |ps|
  {
    if ps != [] { RanksFall(ps[1..], ps'[1..], if i == 0 then |ps| else i - 1); }
  }

  function Measure(s: System): int {
    Ranks(s.procs) + 2 * (|s.procs| - s.taken) + if s.waiting then 0 else 1
  }

  /** Except when it makes a fault, a U-proc that is not waiting comes nearer with the next step of its code. */
  function NextStep(p: Place, i: nat): Action {
    match p
    case User => Trap(i)
    case Entered => Own(i)
    case Owner => Clear(i)
    case Leaving => Leave(i)
    case Release(line) => if line <= LAST_LINE then ReleaseLine(i) else CheckPool(i)
    case Handover => ReleasePool(i)
    case Announce => Signal(i)
    case _ => Terminate(i)
  }

  predicate Waits(p: Place) {
    p == NotCreated || p == Missing || p == AwaitPool || p == AwaitMaster || p == Dead || p == Stuck
  }

  lemma NextEnabled(s: System, h: Option<nat>, i: nat)
    requires Good(s, h) && !s.over && i < |s.procs| && !Waits(s.procs[i].place)
    ensures Enabled(s, NextStep(s.procs[i].place, i)) && Actor(NextStep(s.procs[i].place, i)) == Some(i)
  {
    EndingLine(s, h, i);
  }

  lemma NextNearer(s: System, i: nat, u: UProc)
    requires i < |s.procs| && !Waits(s.procs[i].place)
    requires var a := NextStep(s.procs[i].place, i); Leads(s, a, i, u) && Enabled(s, a)
    ensures Rank(u.place) < Rank(s.procs[i].place)
  {
    hide Inside;
  }

  lemma PassiveNearer(u: UProc, v: UProc, a: Action)
    requires Passive(u, v, a) && a != End && !a.Create?
    ensures Rank(v.place) <= Rank(u.place)
  {
  }

  /** Of the instantiator's counters a step of a U-proc changes none, unless its V on MasterSemaphore lets it go. */
  lemma Counters(s: System, a: Action, h: Option<nat>, i: nat)
    requires Good(s, h) && Enabled(s, a) && Actor(a) == Some(i)
    ensures var s' := Step(s, a);
      || (s'.taken == s.taken && s'.waiting == s.waiting)
      || (s'.taken == s.taken + 1 && s.waiting && !s'.waiting)
  {
    hide Holder, Queue, Devices, Roster, DevIndex;
    if a.Signal? && s.master.value == 0 && s.master.waiters != [] { assert s.master.waiters[0] == |s.procs|; }
  }

  lemma UProcNearer(s: System, h: Option<nat>, i: nat) returns (a: Action)
    requires Good(s, h) && !s.over && i < |s.procs| && !Waits(s.procs[i].place)
    ensures Enabled(s, a) && !a.Create? && !a.FlashError? && Measure(Step(s, a)) < Measure(s)
  {
    hide Good, Step, Leads, Passive, Rank, Enabled, Waits;
    a := NextStep(s.procs[i].place, i);
    NextEnabled(s, h, i);
    ControlFlow(s, a, h, i);
    NextNearer(s, i, Step(s, a).procs[i]);
    forall j | 0 <= j < |s.procs| ensures Rank(Step(s, a).procs[j].place) <= Rank(s.procs[j].place) {
      if j != i {
        OthersPassive(s, a, h, j);
        PassiveNearer(s.procs[j], Step(s, a).procs[j], a);
      }
    }
    RanksFall(s.procs, Step(s, a).procs, i);
    Counters(s, a, h, i);
  }

  lemma TakeNearer(s: System, h: Option<nat>)
    requires Good(s, h) && Enabled(s, Take)
    ensures Measure(Step(s, Take)) < Measure(s)
  {
    hide Good, Step, Passive, Rank;
    TakeExact(s, h);
    forall j | 0 <= j < |s.procs| ensures Rank(Step(s, Take).procs[j].place) <= Rank(s.procs[j].place) {
      OthersPassive(s, Take, h, j);
      PassiveNearer(s.procs[j], Step(s, Take).procs[j], Take);
    }
    assert |Step(s, Take).procs| == |s.procs| by { SameSize(s, Take); }
    RanksFall(s.procs, Step(s, Take).procs, |s.procs|);
    NotWaiting(s);
  }

  lemma NotWaiting(s: System)
    requires Enabled(s, Take)
    ensures !s.waiting
  {
  }

  lemma CreateNearer(s: System, h: Option<nat>)
    requires Good(s, h) && Enabled(s, Create(true))
    ensures Measure(Step(s, Create(true))) < Measure(s)
  {
    CreatesNew(s, h);
    hide Good;
    RanksFall(s.procs, Step(s, Create(true)).procs, s.created);
  }

  /** As long as the instantiator's last P is not completed, somebody can make a step that brings that nearer. */
  lemma SomebodyNearer(s: System, h: Option<nat>) returns (a: Action)
    requires Good(s, h) && Complete(s) && !s.over && (s.waiting || s.created < |s.procs| || s.taken < |s.procs|)
    ensures Enabled(s, a) && a != Create(false) && !a.FlashError? && Measure(Step(s, a)) < Measure(s)
  {
    if !s.waiting && s.created < |s.procs| {
      a := Create(true);
      CreateNearer(s, h);
    } else if !s.waiting {
      a := Take;
      TakeNearer(s, h);
    } else {
      var i := Mover(s, h);
      a := UProcNearer(s, h, i);
    }
  }

  /** While the instantiator waits, some U-proc has yet to signal, and it or the one inside the pager's section can go
      on. */
  lemma Mover(s: System, h: Option<nat>) returns (i: nat)
    requires Good(s, h) && Complete(s) && s.waiting
    ensures i < |s.procs| && !Waits(s.procs[i].place)
  {
    AllSignalled(s.procs);
    i :| 0 <= i < |s.procs| && !Signalled(s.procs[i].place);
    if s.procs[i].place == AwaitPool {
      assert i in s.pool.waiters;
      i := h.value;
    }
  }

  lemma RunThen(s: System, a: Action, acts: seq<Action>, s': System)
    requires Enabled(s, a) && Run(Step(s, a), acts, s')
    ensures Run(s, [a] + acts, s')
  {
    assert ([a] + acts)[1..] == acts;
  }

  lemma TakenBound(s: System, h: Option<nat>)
    requires Good(s, h)
    ensures s.taken <= |s.procs| && Measure(s) >= 0
  {
  }

  predicate NoErrors(acts: seq<Action>) {
    forall i | 0 <= i < |acts| :: !acts[i].FlashError?
  }

  lemma {:induction false} CanEnd(s: System, h: Option<nat>) returns (acts: seq<Action>, s': System)
    requires Good(s, h) && Closed(s) && Complete(s)
    ensures Run(s, acts, s') && Granted(acts) && NoErrors(acts) && s'.over
    decreases Measure(s)
  {
    hide Good, Closed, Step, Complete, Measure;
    TakenBound(s, h);
    if s.over {
      acts, s' := [], s;
    } else if s.waiting || s.created < |s.procs| || s.taken < |s.procs| {
      var a := SomebodyNearer(s, h);
      var s1, h1 := Advances(s, a, h);
      if a == End { EndedComplete(s); } else { GoodQueued(s, h); StaysComplete(s, a); }
      TakenBound(s1, h1);
      acts, s' := CanEnd(s1, h1);
      RunThen(s, a, acts, s');
      acts := [a] + acts;
    } else {
      s' := EndsNow(s, h);
      assert [End][1..] == [];
      acts := [End];
    }
  }

  lemma EndsNow(s: System, h: Option<nat>) returns (s': System)
    requires Good(s, h) && !s.over && !s.waiting && s.created >= |s.procs| && s.taken >= |s.procs|
    ensures Enabled(s, End) && s' == Step(s, End) && s'.over
  {
    s' := Step(s, End);
  }

  /** From every state of every run in which test's calls were granted, some continuation, without flash errors and
      without another call refused, comes to the instantiator's end. */
  lemma ShutdownReachable(n: nat, acts: seq<Action>, s: System) returns (more: seq<Action>, s': System)
    requires n <= 8 && Run(Start(n), acts, s) && Granted(acts)
    ensures Run(s, more, s') && Granted(more) && NoErrors(more) && s'.over
  {
    StartGood(n);
    var h := RunGood(Start(n), acts, s, None);
    GrantedComplete(Start(n), acts, s, None);
    more, s' := CanEnd(s, h);
  }
}
