/** The code of the nucleus, on its linked lists, carries out the runs of the step machine. */
module KernelRuns {
  import opened Basics
  import opened AslSpec
  import opened NucleusState
  import opened NucleusInv
  import opened Termination
  import opened Machine
  import opened NucleusCode
  import opened Stores
  import opened DeviceIndex
  import Witnesses

  /** What the code of section a asks of its caller. */
  ghost predicate Callable(n: Nucleus, a: Action)
    reads n, n.data, n.data.pool, n.data.pool.table, n.data.asl, n.current
  {
    match a
    case CreateProcess(c) => Lists(n.View()) && c < n.current.Length
    case Kill(c, pid, t) =>
      Core(n.View()) && c < n.current.Length && (pid == 0 ==> n.current[c] != null) && Targets(n.View(), c, pid, t)
    case P(c, k) => k in n.sem && (n.sem[k] == 0 ==> n.CanBlock(c))
    case V(c, k) => k in n.sem && (n.sem[k] == 1 ==> n.CanBlock(c))
    case DoIo(c, k) => n.CanBlock(c) && k in n.deviceSems
    case ClockTick(c) => true
    case TimeOut(c) => n.CanBlock(c)
    case Schedule(c) => c < n.current.Length
  }

  /** Where the machine allows a section, the code may be called. */
  lemma EnabledIsCallable(n: Nucleus, a: Action)
    requires n.Valid() && Inv(n.View()) && Enabled(n.View(), a)
    ensures Callable(n, a)
  {
    hide Store.Valid, Placed, Counted, Lists, Family, Pids, Nucleus.CanBlock;
    match a
    case CreateProcess(c) =>
    case Kill(c, pid, t) =>
    case P(c, k) => if Active(n.View(), c) { n.RunnerIsLoose(c); }
    case V(c, k) => if Active(n.View(), c) { n.RunnerIsLoose(c); }
    case DoIo(c, k) => n.RunnerIsLoose(c);
    case ClockTick(c) =>
    case TimeOut(c) => n.RunnerIsLoose(c);
    case Schedule(c) =>
  }

  /** DOIO on the command register of the device that waits at k. */
  method DoIoAt(n: Nucleus, c: nat, k: Key, commandValue: int)
    requires n.Valid() && n.CanBlock(c) && k in n.deviceSems
    modifies n, n.current, n.data.repr
    ensures Runs(old(n.View()), c) && n.Valid() && n.View() == Block(old(n.View()), c, k)
  {
    hide Nucleus.Valid, Nucleus.View, Nucleus.CanBlock, Block, SemaphoreIndex, CommandAddr, Place;
    var i :| 0 <= i < 48 && n.deviceSems[i] == k;
    PlaceOf(DeviceAt(i));
    n.DoIo(c, CommandAddr(DeviceAt(i)), commandValue);
  }

  /** One section.  Whatever the machine allows next, the code does: it leaves the lists well linked and the state
      that the machine's step gives. */
  method Perform(n: Nucleus, a: Action, commandValue: int)
    requires n.Valid() && Inv(n.View()) && Enabled(n.View(), a) && Served(n.View(), a)
    modifies n, n.current, n.data.repr
    ensures n.Valid() && Inv(n.View()) && n.View() == Step(old(n.View()), a)
  {
    hide Nucleus.Valid, Nucleus.View, Nucleus.CanBlock, Inv, Lists, Core, Create, Passeren, Verhogen, Block, Tick,
         Requeue, Dispatch, Targets, Termination.Kill;
    StepInv(n.View(), a);
    EnabledIsCallable(n, a);
    match a
    case CreateProcess(c) => var _ := n.CreateProcess(c);
    case Kill(c, pid, t) => var _ := n.TerminateProcess(c, pid);
    case P(c, k) => n.Passeren(c, k);
    case V(c, k) => n.Verhogen(c, k);
    case DoIo(c, k) => DoIoAt(n, c, k, commandValue);
    case ClockTick(c) => n.HandlePseudoClockInterrupt(c);
    case TimeOut(c) => n.RequeueCurrent(c);
    case Schedule(c) => var _ := n.Scheduler(c);
  }

  /** A whole run. */
  method PerformAll(n: Nucleus, acts: seq<Action>, ghost s': State, commandValue: int)
    requires n.Valid() && Inv(n.View()) && Run(n.View(), acts, s')
    modifies n, n.current, n.data.repr
    ensures n.Valid() && n.View() == s'
    decreases |acts|
  {
    hide Nucleus.Valid, Nucleus.View, Inv, Step, Enabled, Served;
    if acts != [] {
      Perform(n, acts[0], commandValue);
      PerformAll(n, acts[1..], s', commandValue);
    }
  }

  /** From static storage through main to the end of any run of the machine: the kernel's lists are well linked and
      stand for the state the machine is in. */
  method BootAndRun(maxproc: nat, ncpu: nat, cells: map<Key, int>, clock: Key, sems: DeviceSems, acts: seq<Action>,
                    ghost s': State) returns (n: Nucleus)
    requires 1 <= ncpu <= maxproc && Run(Boot(maxproc, ncpu, cells, clock, set k | k in sems), acts, s')
    ensures n.Valid() && n.View() == s' && n.deviceSems == sems && fresh(n) && fresh(n.current) && fresh(n.data.repr)
  {
    hide Nucleus.Valid, Nucleus.View, Inv, Boot, Run;
    n := new Nucleus(maxproc, ncpu, cells, clock, sems);
    n.StartKernel(cells);
    BootInv(maxproc, ncpu, cells, clock, set k | k in sems);
    PerformAll(n, acts, s', 0);
  }

  /** On every machine the kernel comes to a device interrupt that destroys its lists: the first process asks the device
      for something, and the device answers. */
  method DeviceAnswers(maxproc: nat, ncpu: nat, cells: map<Key, int>, clock: Key, sems: DeviceSems, dev: Device)
      returns (n: Nucleus)
    requires 1 <= ncpu <= maxproc && Exists(dev)
    ensures !n.Valid()
  {
    hide Nucleus.Valid, Inv, Boot, Run, Place;
    PlaceOf(dev);
    var k := sems[Place(dev)];
    ghost var s := Witnesses.DeviceAwaited(Witnesses.Config(maxproc, ncpu, cells, clock, set j | j in sems), k);
    n := BootAndRun(maxproc, ncpu, cells, clock, sems, [Schedule(0), DoIo(0, k)], s);
    var _, _ := n.HandleDeviceInterrupt(dev, 1);
  }
}
