/** The nucleus itself (phase2): global variables that system calls and interrupt handlers change in place, and the
    linked lists of phase1 that they work on.  Each method is one lock-held section and is tied to the step function
    of the same name. */
module NucleusCode {
  import opened Basics
  import opened AslSpec
  import AslShapes
  import opened ProcessTree
  import opened NucleusState
  import opened NucleusInv
  import opened Termination
  import opened Stores
  import opened DeviceIndex
  import ListX
  import Pcbs

  class Nucleus {
    const data: Store                       // pcbFree_table, pcbFree_h, semd_table, semdFree_h, semd_h, ReadyQueue
    const current: array<Pcbs.Pcb?>         // CurrentProcess
    const clock: Key
    const deviceSems: DeviceSems            // the other DeviceSemaphores
    const devices: set<Key> := set k | k in deviceSems
    var registers: map<nat, int>            // what was written to the devices' command registers
    var processCount: int
    var sem: map<Key, int>
    ghost var idlers: set<Proc>
    ghost var due: set<nat>
    ghost var adrift: set<nat>

    ghost function Slots(): (r: seq<Option<Proc>>)
      reads current
      ensures |r| == current.Length && forall i | 0 <= i < |r| :: r[i] == Id(current[i])
    {
      seq(current.Length, i requires 0 <= i < current.Length reads current => Id(current[i]))
    }

    ghost function View(): State
      reads this, data, data.pool, data.pool.table, data.asl, current
    {
      State(data.Entries(), data.pool.nextPid, data.Free(), data.Ready(), data.asl.m, Slots(), processCount, sem,
            clock, devices, idlers, due, adrift)
    }

    ghost predicate Valid()
      reads this, current, data, data.pool, data.asl, data.pool.table
      reads ListX.Nodes(data.pool.fam)`next, ListX.Nodes(data.pool.fam)`prev
      reads ListX.Nodes(data.ReadyFam())`next, ListX.Nodes(data.ReadyFam())`prev
      reads data.asl.activeHead`next, ListX.Nodes(data.asl.v.fam)`next, ListX.Nodes(data.asl.v.fam)`prev
      reads (set d | d in data.asl.v.active)`key, (set l | l in AslShapes.Links(data.asl.v.active))`next
      reads (set p | p in data.asl.v.pcbs)`semAdd
    {
      && data.Valid() && this !in data.repr && current !in data.repr
      && forall c | 0 <= c < current.Length && current[c] != null :: current[c] in data.pool.table
    }

    /** An entry and its position in the table. */
    lemma At(p: Pcbs.Pcb)
      requires Valid() && p in data.pool.table
      ensures Number(p.list) < |View().pcbs| == |data.pool.table| && data.pool.table[Number(p.list)] == p
      ensures View().pcbs[Number(p.list)] == data.Entry(p)
    {
      hide PcbPools.PcbPool.Valid, Asls.Asl.Valid, ListX.Rings, Store.Joint;
      data.Owner(p);
    }

    // -------------------------------------------------------------------------------------------
    // createProcess

    /** What createProcess does to the globals, and what it answers. */
    static ghost predicate Created(s: State, s': State, c: nat, pid: int) {
      && Slot(s, c) && (s.free != [] ==> s.free[|s.free| - 1] < |s.pcbs|)
      && s' == Create(s, c).0 && pid == if s.free == [] then -1 else s.nextPid
    }

    /** The slot names no free entry. */
    lemma SlotUse(c: nat)
      requires Valid() && Lists(View()) && c < current.Length
      ensures Slot(View(), c)
      ensures current[c] != null ==> current[c] in data.pool.table && !data.IsFree(current[c])
    {
      hide PcbPools.PcbPool.Valid, Asls.Asl.Valid, ListX.Rings, Store.Joint;
      if current[c] != null {
        At(current[c]);
        data.FreeIff(current[c]);
        assert Live(View(), Number(current[c].list));
      }
    }

    method CreateProcess(c: nat) returns (pid: int)
      requires Valid() && Lists(View()) && c < current.Length
      modifies this, data.repr
      ensures Valid() && Created(old(View()), View(), c, pid)
    {
      hide Lists, Store.Valid, Store.IsFree, Store.Heads, Store.Entries, Store.Free, Store.Ready, Number,
           NucleusState.InsertChild;
      SlotUse(c);
      var p := data.NewProcess(current[c]);
      if p == null { return -1; }
      processCount := processCount + 1;
      pid := p.pid;
    }

    // -------------------------------------------------------------------------------------------
    // passeren, verhogen, doIo, waitForClock

    /** The slot of CPU c names a process that is on no list. */
    ghost predicate CanBlock(c: nat)
      reads this, data, data.pool, data.asl, current
    {
      c < current.Length && current[c] != null && data.Loose(current[c])
    }

    /** The process that a CPU executes is on no list. */
    lemma RunnerIsLoose(c: nat)
      requires Valid() && Inv(View()) && Active(View(), c)
      ensures CanBlock(c)
    {
      hide PcbPools.PcbPool.Valid, Asls.Asl.Valid, ListX.Rings, Store.Joint, Counted, Family, Pids;
      var p := Number(current[c].list);
      At(current[c]);
      data.LooseIff(current[c]);
      assert Live(View(), p) && IsRunning(View(), p);
    }

    lemma BlockerRuns(c: nat)
      requires Valid() && CanBlock(c)
      ensures Runs(View(), c) && View().cur[c] == Some(Number(current[c].list)) && current[c] in data.pool.table
    {
      hide Store.Valid, Store.Loose;
      At(current[c]);
    }

    method BlockCurrent(c: nat, semAddr: Key)
      requires Valid() && CanBlock(c)
      modifies current, data.repr
      ensures Runs(old(View()), c) && Valid() && View() == Block(old(View()), c, semAddr)
    {
      hide Store.Valid, Store.Loose, Store.Entries, Store.Free, Store.Ready, Store.IsFree, Insert;
      BlockerRuns(c);
      data.Block(semAddr, current[c]);
      current[c] := null;
    }

    method Passeren(c: nat, semAddr: Key)
      requires Valid() && semAddr in sem && (sem[semAddr] == 0 ==> CanBlock(c))
      modifies this, current, data.repr
      ensures (old(sem)[semAddr] == 0 ==> Runs(old(View()), c)) && Valid()
      ensures View() == NucleusState.Passeren(old(View()), c, semAddr)
    {
      hide Store.Valid, Store.Loose, Store.Entries, Store.Free, Store.Ready, Store.IsFree, Remove, CanBlock,
           NucleusState.Block;
      if sem[semAddr] == 0 {
        BlockCurrent(c, semAddr);
      } else {
        var unblocked := data.RemoveBlocked(semAddr);
        if unblocked != null { data.InsertProcQ(unblocked); } else { sem := sem[semAddr := 0]; }
      }
    }

    method Verhogen(c: nat, semAddr: Key)
      requires Valid() && semAddr in sem && (sem[semAddr] == 1 ==> CanBlock(c))
      modifies this, current, data.repr
      ensures (old(sem)[semAddr] == 1 ==> Runs(old(View()), c)) && Valid()
      ensures View() == NucleusState.Verhogen(old(View()), c, semAddr)
    {
      hide Store.Valid, Store.Loose, Store.Entries, Store.Free, Store.Ready, Store.IsFree, Remove, CanBlock,
           NucleusState.Block;
      if sem[semAddr] == 1 {
        BlockCurrent(c, semAddr);
      } else {
        var unblocked := data.RemoveBlocked(semAddr);
        if unblocked != null { data.InsertProcQ(unblocked); } else { sem := sem[semAddr := 1]; }
      }
    }

    /** For a command register, or another address that getDeviceSemaphoreIndex has a device's semaphore for. */
    method DoIo(c: nat, commandAddr: nat, commandValue: int)
      requires Valid() && CanBlock(c) && HasDevice(commandAddr)
      modifies this, current, data.repr
      ensures Runs(old(View()), c) && Valid()
      ensures View() == Block(old(View()), c, deviceSems[SemaphoreIndex(commandAddr).i])
      ensures registers == old(registers)[commandAddr := commandValue]
    {
      hide Store.Valid, Store.Loose, Store.Entries, Store.Free, Store.Ready, SemaphoreIndex;
      registers := registers[commandAddr := commandValue];
      BlockCurrent(c, deviceSems[SemaphoreIndex(commandAddr).i]);
    }

    method WaitForClock(c: nat)
      requires Valid() && clock in sem && (sem[clock] == 0 ==> CanBlock(c))
      modifies this, current, data.repr
      ensures (old(sem)[clock] == 0 ==> Runs(old(View()), c)) && Valid()
      ensures View() == NucleusState.Passeren(old(View()), c, clock)
    {
      Passeren(c, clock);
    }

    // -------------------------------------------------------------------------------------------
    // scheduler and the two interrupt handlers

    /** The head of the ready queue goes to the slot. */
    method TakeNext(c: nat)
      requires Valid() && c < current.Length && data.Ready() != []
      modifies current, data.repr
      ensures Valid()
      ensures View() == old(View()).(cur := old(View()).cur[c := Some(old(data.Ready())[0])],
                                     ready := old(data.Ready())[1..])
    {
      hide Store.Valid, Store.Loose, Store.Entries, Store.Free, Store.Ready, Store.IsFree;
      var next := data.RemoveProcQ();
      current[c] := next;
    }

    method Scheduler(c: nat) returns (halt: bool)
      requires Valid() && c < current.Length
      modifies this, current, data.repr
      ensures Valid() && View() == Dispatch(old(View()), c)
      ensures halt <==> old(View()).ready == [] && old(View()).count == 0
    {
      hide Store.Valid, Store.Entries, Store.Free, Store.Ready, Slots;
      var empty := data.EmptyProcQ();
      halt := empty && processCount == 0;
      if !empty { TakeNext(c); }
      due, adrift := due - {c}, adrift - {c};
    }

    /** The lock-held section of the time-slice handler. */
    method RequeueCurrent(c: nat)
      requires Valid() && CanBlock(c)
      modifies this, data.repr
      ensures Runs(old(View()), c) && Valid() && View() == Requeue(old(View()), c)
    {
      hide Store.Valid, Store.Loose, Store.Entries, Store.Free, Store.Ready, Store.IsFree;
      BlockerRuns(c);
      data.InsertProcQ(current[c]);
      due := due + {c};
    }

    /** With nobody in between; see Interludes for what other CPUs may do between the two sections. */
    method HandleProcessLocalTimerInterrupt(c: nat)
      requires Valid() && CanBlock(c)
      modifies this, current, data.repr
      ensures Runs(old(View()), c) && Valid() && View() == Dispatch(Requeue(old(View()), c), c)
    {
      hide Store.Valid, Store.Loose, View, Requeue, Dispatch;
      RequeueCurrent(c);
      var _ := Scheduler(c);
    }

    /** The loop of handlePseudoClockInterrupt, once somebody waits. */
    method WakeAll(semAddr: Key)
      requires Valid() && semAddr in data.asl.m && data.asl.m[semAddr] != []
      modifies data.repr
      ensures Valid()
      ensures View() == old(View()).(asl := old(View()).asl - {semAddr},
                                     ready := old(View()).ready + old(View()).asl[semAddr])
    {
      hide Store.Valid, Store.Loose, Store.Entries, Store.Free, Store.Ready, Store.IsFree;
      ghost var q, before, m := data.asl.m[semAddr], data.Ready(), data.asl.m;
      var unblocked := data.RemoveBlocked(semAddr);
      ghost var n := 0;
      while unblocked != null
        invariant Valid() && n <= |q| && data.Ready() == before + q[..n]
        invariant unblocked != null ==> unblocked in data.pool.table && data.Loose(unblocked)
        invariant if n < |q| then Id(unblocked) == Some(q[n]) else unblocked == null
        invariant data.asl.m == if n + 1 < |q| then m[semAddr := q[n + 1..]] else m - {semAddr}
        invariant data.Entries() == old(data.Entries()) && data.Free() == old(data.Free())
        invariant data.pool.nextPid == old(data.pool.nextPid) && Slots() == old(Slots())
        decreases |q| - n
      {
        unblocked := data.WakeAndTake(unblocked, semAddr);
        n := n + 1;
      }
      assert q[..n] == q;
    }

    method HandlePseudoClockInterrupt(ghost c: nat)
      requires Valid()
      modifies this, data.repr
      ensures Valid() && View() == Tick(old(View()), c)
    {
      hide Store.Valid, Store.Entries, Store.Free, Store.Ready;
      var first := data.HeadBlocked(clock);
      if first != null { WakeAll(clock); }
      adrift := adrift - {c};
    }

    /** The lock-held part of handleDeviceInterrupt for this device: the interrupt is acknowledged, and the lists are in
        order afterwards if and only if nobody waits at its semaphore; otherwise the semaphore is 1, the first waiter is
        linked as the last that is ready, and the queue of the semaphore's descriptor d is destroyed. */
    method HandleDeviceInterrupt(dev: Device, ack: int) returns (found: bool, ghost d: AslShapes.Semd?)
      requires Valid() && Exists(dev) && deviceSems[Place(dev)] in sem
      modifies this, data.repr
      ensures found <==> AslSpec.Head(old(View()).asl, deviceSems[Place(dev)]) != None
      ensures (found <==> !Valid()) && (!found ==> View() == old(View()))
      ensures found ==> d != null && old(d in data.asl.v.active && d.key == deviceSems[Place(dev)])
      ensures found ==> forall s: seq<ListX.ListHead> :: !ListX.Ring(d.procq, s)
      ensures found ==> exists p | p in data.pool.table ::
                Id(p) == AslSpec.Head(old(View()).asl, deviceSems[Place(dev)]) && data.LastReady(p.list)
      ensures sem == if found then old(sem)[deviceSems[Place(dev)] := 1] else old(sem)
      ensures registers == old(registers)[CommandAddr(dev) := ack]
    {
      hide Store.Valid, Store.Entries, Store.Free, Store.Ready, ListX.Ring, SemaphoreIndex, CommandAddr, Place;
      PlaceOf(dev);
      registers := registers[CommandAddr(dev) := ack];
      var semAddr, unblocked := deviceSems[SemaphoreIndex(CommandAddr(dev)).i], null;
      unblocked, d := data.QueueLinked(semAddr);
      found := unblocked != null;
      if found { sem := sem[semAddr := 1]; }
    }

    // -------------------------------------------------------------------------------------------
    // terminateProcess

    /** Allocated pids are unique, so a search by pid is a search for the process. */
    lemma PidIsIdentity(t: Pcbs.Pcb)
      requires Valid() && Core(View()) && t in data.pool.table && Live(View(), Number(t.list))
      ensures data.asl.pcbs == data.pool.table && data.asl.OnlyOne(t.pid) && !data.IsFree(t)
    {
      hide PcbPools.PcbPool.Valid, Asls.Asl.Valid, ListX.Rings, Store.Joint, Lists, Family;
      At(t);
      data.FreeIff(t);
      forall q | q in data.pool.table && q.pid == t.pid ensures q == t {
        At(q);
        OnePid(View(), Number(q.list), Number(t.list));
      }
    }

    /** The search over the CPU slots. */
    method ClearSlots(t: Pcbs.Pcb)
      requires Valid() && t in data.pool.table
      modifies current, `adrift
      ensures Valid() && Slots() == Sweep(old(Slots()), {Number(t.list)})
      ensures adrift == old(adrift) + Strays(old(Slots()), due, {Number(t.list)})
    {
      hide Store.Valid, Number;
      SlotNames(t);
      ghost var s := Slots();
      for i := 0 to current.Length
        invariant Valid() && adrift == old(adrift)
        invariant forall j | 0 <= j < i :: current[j] == if old(current[j]) == t then null else old(current[j])
        invariant forall j | i <= j < current.Length :: current[j] == old(current[j])
      {
        if current[i] == t { current[i] := null; }
      }
      adrift := adrift + Strays(s, due, {Number(t.list)});
    }

    /** A slot names t exactly if it points to it. */
    lemma SlotNames(t: Pcbs.Pcb)
      requires Valid() && t in data.pool.table
      ensures forall i | 0 <= i < current.Length :: Slots()[i] == Some(Number(t.list)) <==> current[i] == t
    {
      hide Store.Valid;
      At(t);
      forall i | 0 <= i < current.Length ensures Slots()[i] == Some(Number(t.list)) <==> current[i] == t {
        if current[i] != null { At(current[i]); }
      }
    }

    /** The statements both routines end with. */
    method FreeTarget(t: Pcbs.Pcb)
      requires Valid() && Core(View()) && t in data.pool.table && Live(View(), Number(t.list))
      requires View().pcbs[Number(t.list)].kids == []
      modifies this, current, data.repr
      ensures Valid() && Freed(old(View()), View(), Number(t.list))
    {
      hide Store.Valid, Core, Store.Entries, Store.Free, Store.Ready, Store.IsFree, Number, Sweep, Strays;
      PidIsIdentity(t);
      At(t);
      data.Discard(t);
      processCount := processCount - 1;
      ClearSlots(t);
    }

    static ghost predicate Freed(s: State, s': State, n: Proc) {
      && n < |s.pcbs| && (s.pcbs[n].parent.Some? ==> s.pcbs[n].parent.value < |s.pcbs|)
      && s' == FreeOne(s, n)
    }

    /** terminateProcessSubTree, on the i-th child of q: it, its later siblings and all below them go. */
    method TerminateProcessSubTree(target: Pcbs.Pcb, ghost q: Proc, ghost i: nat)
      requires Valid() && Core(View()) && target in data.pool.table
      requires q < |View().pcbs| && i < |View().pcbs[q].kids| && View().pcbs[q].kids[i] == Number(target.list)
      modifies this, current, data.repr
      ensures Valid() && View() == Purge(old(View()), old(DoomedKids(View(), q, i)))
      decreases |DoomedKids(View(), q, i)|, 1
    {
      hide Store.Valid, Core, Purge, DoomedKids, FreeOne, View, Number;
      ghost var s, n := View(), Number(target.list);
      At(target);
      ChildLives(s, q, i, n);
      PidIsIdentity(target);
      DoomedUnfold(s, q, i, n);
      ghost var s1 := AfterChildren(s, q, i, n);
      ghost var s2 := AfterSiblings(s, q, i, n);
      TerminateChildren(target);
      TerminateSiblings(target, q, i);
      FreeTarget(target);
    }

    lemma ChildLives(s: State, q: Proc, i: nat, n: Proc)
      requires Core(s) && q < |s.pcbs| && i < |s.pcbs[q].kids| && s.pcbs[q].kids[i] == n
      ensures n < |s.pcbs| && Live(s, n) && s.pcbs[n].parent == Some(q)
    {
      assert n in s.pcbs[q].kids;
    }

    /** The first recursive call, which takes all children. */
    method TerminateChildren(target: Pcbs.Pcb)
      requires Valid() && Core(View()) && target in data.pool.table && !data.IsFree(target)
      requires Number(target.list) < |View().pcbs|
      modifies this, current, data.repr
      ensures Valid() && View() == Purge(old(View()), old(DoomedKids(View(), Number(target.list), 0)))
      decreases |DoomedKids(View(), Number(target.list), 0)|, 2
    {
      hide Store.Valid, Core, Purge, DoomedKids;
      At(target);
      var first := data.FirstChild(target);
      if first != null {
        TerminateProcessSubTree(first, Number(target.list), 0);
      } else {
        NothingDoomed(View(), Number(target.list));
      }
    }

    /** The second recursive call, on the next sibling, which takes all later ones. */
    method TerminateSiblings(target: Pcbs.Pcb, ghost q: Proc, ghost i: nat)
      requires Valid() && Core(View()) && target in data.pool.table
      requires q < |View().pcbs| && i < |View().pcbs[q].kids| && View().pcbs[q].kids[i] == Number(target.list)
      modifies this, current, data.repr
      ensures Valid() && View() == Purge(old(View()), old(DoomedKids(View(), q, i + 1)))
      decreases |DoomedKids(View(), q, i + 1)|, 2
    {
      hide Store.Valid, Core, Purge, DoomedKids;
      At(target);
      ChildLives(View(), q, i, Number(target.list));
      ParentAt(target, q);
      var next := data.NextSibling(target, i);
      if next != null {
        TerminateProcessSubTree(next, q, i + 1);
      } else {
        NoLaterSibling(View(), q, i);
      }
    }

    /** The parent's position in the table. */
    lemma ParentAt(t: Pcbs.Pcb, q: Proc)
      requires Valid() && t in data.pool.table && q < |View().pcbs| && Id(t.parent) == Some(q)
      ensures t.parent != null && t.parent in data.pool.table && data.Kids(t.parent) == View().pcbs[q].kids
    {
      hide Asls.Asl.Valid, ListX.Rings, Store.Joint;
      At(t);
    }

    lemma NoLaterSibling(s: State, q: Proc, i: nat)
      requires Core(s) && q < |s.pcbs| && i + 1 == |s.pcbs[q].kids|
      ensures DoomedKids(s, q, i + 1) == [] && Purge(s, []) == s
    {
      PurgeNobody(s);
    }

    /** Every position of the table has its entry. */
    lemma EntryAt(t: Proc)
      requires Valid() && t < |View().pcbs|
      ensures |View().pcbs| == |data.pool.table| && data.pool.table[t] in data.pool.table
      ensures Number(data.pool.table[t].list) == t && View().pcbs[t].pid == data.pool.table[t].pid
    {
      hide PcbPools.PcbPool.Valid, Asls.Asl.Valid, ListX.Rings, Store.Joint;
      assert data.pool.table[t].list.place == ListX.PList(t);
    }

    /** Nobody on the ready queue or the semaphore queues has the pid. */
    lemma NobodyFound(c: nat, pid: int)
      requires Valid() && c < current.Length && pid != 0
      requires forall q | q in data.pool.table && q.pid == pid ::
                 Number(q.list) !in data.Ready() && !data.asl.Waits(Number(q.list))
      ensures forall t: Proc :: !Targets(View(), c, pid, t)
    {
      hide Store.Valid;
      forall t: Proc | t < |View().pcbs| && View().pcbs[t].pid == pid
        ensures t !in View().ready && !IsBlocked(View(), t)
      {
        EntryAt(t);
        assert !WaitsIn(data.asl.m, t);
      }
    }

    /** findPcb: the ready queue is only searched, but a blocked process is taken off its queue.  A pid that no ready
        or blocked process has makes the walk run off the active list (Asls.Asl.OutBlockedPID). */
    method FindPcb(c: nat, pid: int) returns (r: Pcbs.Pcb?)
      requires Valid() && c < current.Length && (pid == 0 ==> current[c] != null)
      modifies data.repr
      ensures Valid() && (r == null ==> View() == old(View()) && forall t: Proc :: !Targets(old(View()), c, pid, t))
      ensures r != null ==> r in data.pool.table && Fetched(old(View()), View(), c, pid, Number(r.list))
    {
      hide Store.Valid, Store.Entries, Store.Free, Store.Ready, Store.IsFree, Number, Out;
      if pid == 0 {
        At(current[c]);
        return current[c];
      }
      r := data.SearchReady(pid);
      if r != null {
        At(r);
        return;
      }
      r := data.OutBlockedPID(pid);
      if r == null { NobodyFound(c, pid); } else { At(r); }
    }

    /** n is the target, and at most it has left the queue it was blocked on. */
    static ghost predicate Fetched(s: State, s': State, c: nat, pid: int, n: Proc) {
      n < |s.pcbs| && Targets(s, c, pid, n) && (s' == s || s' == s.(asl := Out(s.asl, s.pcbs[n].semAdd, n)))
    }

    /** terminateProcess, up to the scheduler call that ends it; false when findPcb finds nobody. */
    method TerminateProcess(c: nat, pid: int) returns (ok: bool)
      requires Valid() && Core(View()) && c < current.Length && (pid == 0 ==> current[c] != null)
      modifies this, current, data.repr
      ensures Valid() && (ok <==> exists t: Proc :: Targets(old(View()), c, pid, t))
      ensures !ok ==> View() == old(View())
      ensures forall t: Proc | Targets(old(View()), c, pid, t) ::
                t < |old(View()).pcbs| && View() == Kill(old(View()), c, t)
    {
      hide Store.Valid, Core, Terminate, Store.Entries, Store.Free, Store.Ready, Number, Targets;
      ghost var s := View();
      var target := FindPcb(c, pid);
      if target == null { return false; }
      TargetLive(s, c, pid, Number(target.list));
      forall t: Proc | Targets(s, c, pid, t) ensures t == Number(target.list) {
        OneTarget(s, c, pid, t, Number(target.list));
      }
      FreeSubtree(target, s);
      adrift := adrift - {c};
      return true;
    }

    /** The target's children and then the target; a blocked target may have left its queue already. */
    method FreeSubtree(target: Pcbs.Pcb, ghost s: State)
      requires Valid() && target in data.pool.table && Core(s) && Live(s, Number(target.list))
      requires View() == s || View() == s.(asl := Out(s.asl, s.pcbs[Number(target.list)].semAdd, Number(target.list)))
      modifies this, current, data.repr
      ensures Valid() && View() == Terminate(s, Number(target.list))
    {
      hide Store.Valid, Core, Terminate, FreeOne, Purge, DoomedKids, View, Number;
      UnlinkedFirst(s, Number(target.list));
      ghost var s0 := View();
      PidIsIdentity(target);
      ghost var s1 := AfterSubtree(s0, Number(target.list));
      TerminateChildren(target);
      FreeTarget(target);
    }

    // -------------------------------------------------------------------------------------------
    // main

    /** The first n entries of the table from its end have been allocated, one after the other. */
    ghost predicate Allocated(n: nat)
      reads data, data.pool, data.pool.table
    {
      var size := |data.pool.table|;
      && n <= size && data.pool.nextPid == n + 1 && data.Free() == Upto(size - n)
      && data.Entries() == seq(size, j => Pcb(None, [], 0, if j < size - n then 0 else size - j))
    }

    lemma OneMore(es: seq<Pcb>, es': seq<Pcb>, size: nat, n: nat, k: Proc, free: seq<Proc>, free': seq<Proc>)
      requires n < size && es == seq(size, j => Pcb(None, [], 0, if j < size - n then 0 else size - j))
      requires free == Upto(size - n) && free == free' + [k] && k < size && es' == es[k := Pcb(None, [], 0, n + 1)]
      ensures k == size - n - 1 && free' == Upto(size - n - 1)
      ensures es' == seq(size, j => Pcb(None, [], 0, if j < size - n - 1 then 0 else size - j))
    {
      assert k == free[size - n - 1] && free' == free[..size - n - 1];
    }

    /** main's own process: allocPcb, insertProcQ. */
    method FirstProcess()
      requires Valid() && Allocated(0) && 1 <= |data.pool.table| && data.Ready() == []
      modifies data.repr
      ensures Valid() && Allocated(1) && data.Ready() == [|data.pool.table| - 1] && data.asl.m == old(data.asl.m)
    {
      hide Store.Valid, Store.Entries, Store.Free, Store.Ready, Store.IsFree, Number;
      ghost var es, free := data.Entries(), data.Free();
      var p := data.AllocReady();
      OneMore(es, data.Entries(), |data.pool.table|, 0, Number(p.list), free, data.Free());
    }

    /** _initOtherPCBs */
    method InitOtherPCBs(ncpu: nat)
      requires Valid() && 1 <= ncpu <= |data.pool.table| && Allocated(1) && idlers == {}
      modifies `idlers, data.repr
      ensures Valid() && Allocated(ncpu) && data.Ready() == old(data.Ready()) && data.asl.m == old(data.asl.m)
      ensures idlers == Interval(|data.pool.table| - ncpu, ncpu - 1)
    {
      hide Store.Valid, Store.Entries, Store.Free, Store.IsFree, Store.Loose, Number, Interval;
      for i := 1 to ncpu
        invariant Valid() && Allocated(i) && data.Ready() == old(data.Ready()) && data.asl.m == old(data.asl.m)
        invariant forall x: Proc :: x in idlers <==> |data.pool.table| - i <= x < |data.pool.table| - 1
      {
        ghost var es, free := data.Entries(), data.Free();
        var p := data.AllocPcb();
        OneMore(es, data.Entries(), |data.pool.table|, i, Number(p.list), free, data.Free());
        idlers := idlers + {Number(p.list)};
      }
      SameMembers(idlers, Interval(|data.pool.table| - ncpu, ncpu - 1));
    }

    lemma SameMembers(a: set<Proc>, b: set<Proc>)
      requires forall x: Proc :: x in a <==> x in b
      ensures a == b
    {
    }

    /** The globals' static initial values. */
    ghost predicate Zeroed(cells: map<Key, int>)
      reads this, current, data, data.pool, data.asl, data.pool.table
    {
      && data.Zeroed() && data.Owned() && this !in data.repr && current !in data.repr
      && processCount == 0 && idlers == {} && due == {} && adrift == {} && sem == BootCells(cells, clock, devices)
      && (forall c | 0 <= c < current.Length :: current[c] == null)
    }

    /** main, up to its scheduler call. */
    method StartKernel(ghost cells: map<Key, int>)
      requires Zeroed(cells) && 1 <= current.Length <= |data.pool.table|
      modifies this, data.repr
      ensures Valid() && View() == Boot(|data.pool.table|, current.Length, cells, clock, devices)
    {
      hide Store.Valid, Store.Entries, Store.Free, Store.Ready, Boot, BootCells, Interval, Upto, Allocated,
           Store.Zeroed, Store.Owned;
      InitStore();
      FirstProcess();
      processCount := processCount + 1;
      InitOtherPCBs(current.Length);
      Booted(cells);
    }

    /** initPcbs, initASL and mkEmptyProcQ. */
    method InitStore()
      requires data.Zeroed() && data.Owned() && this !in data.repr && current !in data.repr
      requires forall c | 0 <= c < current.Length :: current[c] == null
      modifies data.repr
      ensures Valid() && Allocated(0) && data.Ready() == [] && data.asl.m == map[]
    {
      hide Store.Valid, Store.Entries, Store.Free, Store.Ready, Store.Zeroed, Store.Owned;
      data.Init();
    }

    /** What is allocated when the entries of all CPUs are. */
    lemma Booted(cells: map<Key, int>)
      requires 1 <= current.Length <= |data.pool.table| && Allocated(current.Length)
      requires data.Ready() == [|data.pool.table| - 1]
      requires data.asl.m == map[] && processCount == 1 && due == {} && adrift == {}
      requires sem == BootCells(cells, clock, devices)
      requires idlers == Interval(|data.pool.table| - current.Length, current.Length - 1)
      requires forall c | 0 <= c < current.Length :: current[c] == null
      ensures View() == Boot(|data.pool.table|, current.Length, cells, clock, devices)
    {
      hide Interval, BootCells, Store.Entries, Store.Free, Store.Ready;
      assert BootTable(|data.pool.table|, current.Length) == data.Entries();
    }

    constructor (maxproc: nat, ncpu: nat, cells: map<Key, int>, clock: Key, deviceSems: DeviceSems)
      ensures Zeroed(cells) && |data.pool.table| == maxproc && current.Length == ncpu
      ensures this.clock == clock && this.deviceSems == deviceSems
      ensures fresh(data.repr) && fresh(current)
    {
      var d := NewStore(maxproc);
      data := d;
      current := new Pcbs.Pcb?[ncpu](_ => null);
      this.clock, this.deviceSems := clock, deviceSems;
      processCount, sem, registers := 0, BootCells(cells, clock, set k | k in deviceSems), map[];
      idlers, due, adrift := {}, {}, {};
    }
  }
}
