/** The support level (phase3) as a protocol of U-procs and their instantiator on binary semaphores: every
    interleaving of the steps between semaphore operations. */
module Support {
  import opened Basics
  import opened AslSpec
  import opened Semaphores

  /** Where a U-proc is. */
  datatype Place =
    | NotCreated
    | Missing               // CREATEPROCESS had no entry for it, and its -1 is not looked at
    | User                  // in user mode or in a device routine
    | AwaitPool             // blocked in TLB_Handler's P
    | Entered               // that P is done
    | Owner                 // AsidInSwapPool is written
    | Leaving               // AsidInSwapPool is cleared, V not called yet
    | Release(line: nat)    // terminateUProc, about to look at the semaphore of this line
    | Handover              // terminateUProc, AsidInSwapPool is cleared, V not called yet
    | Announce              // terminateUProc, about to call V on MasterSemaphore
    | AwaitMaster           // blocked in that V
    | Finished              // that V is done, TERMPROCESS not called yet
    | Dead
    | Stuck                 // blocked on a device semaphore, or in a V on SwapPoolSemaphore

  /** `device` is the interrupt line whose routine the U-proc is in. */
  datatype UProc = UProc(place: Place, device: Option<nat>)

  datatype System = System(
    procs: seq<UProc>,       // U-proc i has asid i + 1
    created: nat,            // the instantiator's first loop counter
    taken: nat,              // its second one: completed P's on MasterSemaphore
    waiting: bool,           // it is blocked in such a P
    over: bool,              // it has called TERMPROCESS
    pool: Sema,              // SwapPoolSemaphore
    master: Sema,            // MasterSemaphore
    devs: seq<Sema>,         // SupportDeviceSemaphores
    asidInPool: nat)         // AsidInSwapPool

  /** NSUPPSEM */
  const DEVICE_SEMS := 48

  const FIRST_LINE := 3

  const PRINTER := 6

  /** Lines 7 and 8 stand for the terminal's transmitter and receiver. */
  const LAST_LINE := 8

  /** getDeviceSemIndex */
  function DevIndex(line: nat, dev: nat): int {
    (line - FIRST_LINE) * 8 + dev
  }

  /** Different devices have different semaphores, and with 8 U-procs the array has them all. */
  lemma DevIndexApart(line: nat, dev: nat, line': nat, dev': nat)
    requires FIRST_LINE <= line <= LAST_LINE && dev < 8 && FIRST_LINE <= line' <= LAST_LINE && dev' < 8
    ensures 0 <= DevIndex(line, dev) < DEVICE_SEMS
    ensures DevIndex(line, dev) == DevIndex(line', dev') <==> line == line' && dev == dev'
  {
  }

  /** In numbers: lines 3 to 8 with eight devices each, of which the U-procs use the printer and the terminals' halves.
      */
  lemma InNumbers(line: nat, dev: nat)
    ensures DevIndex(line, dev) == 8 * line - 24 + dev && DEVICE_SEMS == 48
    ensures FIRST_LINE == 3 && PRINTER == 6 && LAST_LINE == 8
  {
  }

  function Start(n: nat): System {
    System(seq(n, _ => UProc(NotCreated, None)), 0, 0, false, false, Sema(1, []), Sema(0, []),
           seq(DEVICE_SEMS, _ => Sema(1, [])), 0)
  }

  datatype Action =
    | Create(ok: bool)                  // test's first loop; ok unless the pool of PCBs is empty
    | Take                              // its second loop
    | End
    | EnterDevice(i: nat, line: nat)    // the routines' P
    | LeaveDevice(i: nat)               // and V
    | Fault(i: nat)                     // TLB_Handler's P
    | Own(i: nat)
    | Clear(i: nat)
    | Leave(i: nat)                     // and V
    | FlashError(i: nat)                // the handler ends in terminateUProc
    | Trap(i: nat)                      // terminateUProc from anywhere else
    | ReleaseLine(i: nat)
    | CheckPool(i: nat)
    | ReleasePool(i: nat)
    | Signal(i: nat)
    | Terminate(i: nat)

  /** U-proc i is at place p. */
  predicate At(s: System, i: nat, p: Place) {
    i < |s.procs| && s.procs[i].place == p
  }

  predicate Enabled(s: System, a: Action) {
    !s.over && |s.devs| == DEVICE_SEMS && |s.procs| <= 8 &&
    match a
    case Create(ok) => s.created < |s.procs|
    case Take => s.created == |s.procs| && s.taken < |s.procs| && !s.waiting
    case End => s.created == |s.procs| && s.taken == |s.procs| && !s.waiting
    case EnterDevice(i, line) => At(s, i, User) && s.procs[i].device == None && PRINTER <= line <= LAST_LINE
    case LeaveDevice(i) => At(s, i, User) && s.procs[i].device.Some? && FIRST_LINE <= s.procs[i].device.value <= LAST_LINE
    case Fault(i) => At(s, i, User)
    case Own(i) => At(s, i, Entered)
    case Clear(i) => At(s, i, Owner)
    case Leave(i) => At(s, i, Leaving)
    case FlashError(i) => At(s, i, Owner)
    case Trap(i) => At(s, i, User)
    case ReleaseLine(i) => i < |s.procs| && s.procs[i].place.Release? && FIRST_LINE <= s.procs[i].place.line <= LAST_LINE
    case CheckPool(i) => At(s, i, Release(LAST_LINE + 1))
    case ReleasePool(i) => At(s, i, Handover)
    case Signal(i) => At(s, i, Announce)
    case Terminate(i) => At(s, i, Finished)
  }

  function Goto(s: System, i: nat, p: Place): System
    requires i < |s.procs|
  {
    s.(procs := s.procs[i := s.procs[i].(place := p)])
  }

  /** The U-proc that a V on SwapPoolSemaphore lets go enters. */
  function Admit(s: System, w: Option<Proc>): System {
    if w.Some? && w.value < |s.procs| then Goto(s, w.value, Entered) else s
  }

  function VPool(s: System, i: nat, next: Place): System
    requires i < |s.procs|
  {
    var e := DoV(s.pool, i);
    if e.blocked then Goto(s.(pool := e.sema), i, Stuck) else Admit(Goto(s.(pool := e.sema), i, next), e.woken)
  }

  /** Whoever waits on MasterSemaphore goes on: the instantiator has number |procs|. */
  function Advance(s: System, w: Option<Proc>): System {
    if w == Some(|s.procs|) then s.(waiting := false, taken := s.taken + 1)
    else if w.Some? && w.value < |s.procs| then Goto(s, w.value, Finished)
    else s
  }

  /** A V on a device semaphore, to which only its own U-proc ever has recourse. */
  function VDevice(s: System, i: nat, line: nat, next: Place): System
    requires i < |s.procs| <= 8 && |s.devs| == DEVICE_SEMS && FIRST_LINE <= line <= LAST_LINE
  {
    var x := DevIndex(line, i);
    var e := DoV(s.devs[x], i);
    var s1 := s.(devs := s.devs[x := e.sema]);
    if e.blocked then Goto(s1, i, Stuck)
    else s1.(procs := s1.procs[i := UProc(next, if s.procs[i].device == Some(line) then None else s.procs[i].device)])
  }

  function Step(s: System, a: Action): System
    requires Enabled(s, a)
  {
    match a
    case Create(ok) => Goto(s.(created := s.created + 1), s.created, if ok then User else Missing)
    case Take =>
      var e := DoP(s.master, |s.procs|);
      if e.blocked then s.(master := e.sema, waiting := true)
      else Advance(s.(master := e.sema, taken := s.taken + 1), e.woken)
    case End => s.(over := true, procs := seq(|s.procs|, _ => UProc(Dead, None)))
    case EnterDevice(i, line) =>
      var e := DoP(s.devs[DevIndex(line, i)], i);
      var s1 := s.(devs := s.devs[DevIndex(line, i) := e.sema]);
      if e.blocked then Goto(s1, i, Stuck) else s1.(procs := s1.procs[i := UProc(User, Some(line))])
    case LeaveDevice(i) => VDevice(s, i, s.procs[i].device.value, User)
    case Fault(i) =>
      var e := DoP(s.pool, i);
      if e.blocked then Goto(s.(pool := e.sema), i, AwaitPool) else Goto(s.(pool := e.sema), i, Entered)
    case Own(i) => Goto(s.(asidInPool := i + 1), i, Owner)
    case Clear(i) => Goto(s.(asidInPool := 0), i, Leaving)
    case Leave(i) => VPool(s, i, User)
    case FlashError(i) => Goto(s, i, Release(FIRST_LINE))
    case Trap(i) => Goto(s, i, Release(FIRST_LINE))
    case ReleaseLine(i) =>
      var line := s.procs[i].place.line;
      if s.devs[DevIndex(line, i)].value == 0 then VDevice(s, i, line, Release(line + 1)) else Goto(s, i, Release(line + 1))
    case CheckPool(i) => if s.asidInPool == i + 1 then Goto(s.(asidInPool := 0), i, Handover) else Goto(s, i, Announce)
    case ReleasePool(i) => VPool(s, i, Announce)
    case Signal(i) =>
      var e := DoV(s.master, i);
      if e.blocked then Goto(s.(master := e.sema), i, AwaitMaster) else Advance(Goto(s.(master := e.sema), i, Finished), e.woken)
    case Terminate(i) => Goto(s, i, Dead)
  }

  predicate Run(s: System, acts: seq<Action>, s': System)
    decreases |acts|
  {
    if acts == [] then s' == s else Enabled(s, acts[0]) && Run(Step(s, acts[0]), acts[1..], s')
  }
}
