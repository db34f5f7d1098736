/** The loop of terminateUProc (phase3/sysSupport.c) over the device semaphores of one U-proc. */
module SupportCode {
  import opened Basics
  import opened AslSpec
  import opened Semaphores
  import opened Support

  class DeviceSemaphores {
    const devs: array<Sema>    // SupportDeviceSemaphores

    constructor ()
      ensures fresh(devs) && devs[..] == Start(0).devs
    {
      devs := new Sema[DEVICE_SEMS](_ => Sema(1, []));
    }

    /** SYSCALL(VERHOGEN), called by U-proc p */
    method Verhogen(x: nat, p: Proc) returns (blocked: bool)
      requires x < devs.Length
      modifies devs
      ensures devs[..] == old(devs[..])[x := DoV(old(devs[x]), p).sema] && blocked == DoV(old(devs[x]), p).blocked
    {
      var e := DoV(devs[x], p);
      devs[x] := e.sema;
      return e.blocked;
    }

    /** From whatever subset of its six semaphores the U-proc holds, all six end at 1, no V blocks, and
        nobody else's semaphore is touched. */
    method ReleaseDevices(i: nat) returns (blocked: bool)
      requires i < 8 && devs.Length == DEVICE_SEMS
      requires forall l: nat {:trigger DevIndex(l, i)} | FIRST_LINE <= l <= LAST_LINE ::
                 devs[DevIndex(l, i)] == Sema(0, []) || devs[DevIndex(l, i)] == Sema(1, [])
      modifies devs
      ensures !blocked
      ensures forall l: nat {:trigger DevIndex(l, i)} | FIRST_LINE <= l <= LAST_LINE :: devs[DevIndex(l, i)] == Sema(1, [])
      ensures forall l: nat, j: nat {:trigger DevIndex(l, j)} | FIRST_LINE <= l <= LAST_LINE && j < 8 && j != i ::
                devs[DevIndex(l, j)] == old(devs[DevIndex(l, j)])
    {
      blocked := false;
      var line := FIRST_LINE;
      while line < LAST_LINE + 1
        invariant FIRST_LINE <= line <= LAST_LINE + 1 && !blocked
        invariant forall l: nat {:trigger DevIndex(l, i)} | FIRST_LINE <= l <= LAST_LINE ::
                    devs[DevIndex(l, i)] == if l < line then Sema(1, []) else old(devs[DevIndex(l, i)])
        invariant forall l: nat, j: nat {:trigger DevIndex(l, j)} | FIRST_LINE <= l <= LAST_LINE && j < 8 && j != i ::
                    devs[DevIndex(l, j)] == old(devs[DevIndex(l, j)])
      {
        var index := DevIndex(line, i);
        if devs[index].value == 0 {
          blocked := Verhogen(index, i);
        }
        line := line + 1;
      }
    }
  }
}
