/** Waiting for the pseudo-clock (phase2/exceptions.c:384-387, phase2/interrupts.c:272-285). */
module ClockWait {
  import opened Basics
  import opened AslSpec
  import opened ProcessTree
  import opened NucleusState
  import opened NucleusInv
  import opened Termination
  import opened Machine

  /** p is in the queue of semaphore k. */
  predicate WaitsAt(s: State, k: Key, p: Proc) {
    k in s.asl && p in s.asl[k]
  }

  /** A clock interrupt leaves nobody waiting for the clock.  Everybody who was is ready, behind all who were ready
      before and in the order of the queue, and nothing else changes for any process. */
  lemma TickWakesAll(s: State, c: nat)
    requires Inv(s) && Enabled(s, ClockTick(c))
    ensures var s' := Step(s, ClockTick(c));
      && (forall p: Proc :: !WaitsAt(s', s.clock, p))
      && (forall p: Proc :: p in s'.ready <==> p in s.ready || WaitsAt(s, s.clock, p))
      && |s.ready| <= |s'.ready| && s'.ready[..|s.ready|] == s.ready
      && (s.clock in s.asl ==> s'.ready[|s.ready|..] == s.asl[s.clock])
      && (forall k, p: Proc | k != s.clock :: WaitsAt(s', k, p) <==> WaitsAt(s, k, p))
      && s'.cur == s.cur && s'.sem == s.sem && s'.pcbs == s.pcbs && s'.free == s.free && s'.count == s.count
  {
  }

  lemma KillWaiter(s: State, c: nat, t: Proc, k: Key, p: Proc)
    requires Inv(s) && Live(s, t) && WaitsAt(s, k, p)
    ensures WaitsAt(Termination.Kill(s, c, t), k, p) || !Live(Termination.Kill(s, c, t), p)
  {
    TerminateExact(s, t);
    assert Live(s, p) && IsBlocked(s, p) && s.pcbs[p].semAdd == k;
  }

  lemma UnblockWaiter(s: State, j: Key, v: int, k: Key, p: Proc)
    requires WaitsAt(s, k, p)
    ensures WaitsAt(Unblock(s, j, v), k, p) || (p in Unblock(s, j, v).ready && j == k && Head(s.asl, k) == Some(p))
  {
    if j == k && s.asl[k][0] != p { assert p in s.asl[k][1..]; }
  }

  lemma BlockWaiter(s: State, c: nat, j: Key, k: Key, p: Proc)
    requires Runs(s, c) && WaitsAt(s, k, p)
    ensures WaitsAt(Block(s, c, j), k, p)
  {
  }

  /** Whoever waits at k goes on waiting, or is ready, or is terminated; and it becomes ready only by a clock interrupt,
      if it waits for the clock, or as the first waiter when a P or V on k does not block. */
  lemma WaiterStep(s: State, a: Action, k: Key, p: Proc)
    requires Inv(s) && Enabled(s, a) && WaitsAt(s, k, p)
    ensures var s' := Step(s, a);
      && (WaitsAt(s', k, p) || p in s'.ready || !Live(s', p))
      && (!WaitsAt(s', k, p) && Live(s', p) ==>
            (a.ClockTick? && k == s.clock) || ((a.P? || a.V?) && a.k == k && Head(s.asl, k) == Some(p)))
      && (a.ClockTick? && k == s.clock ==> p in s'.ready && !WaitsAt(s', k, p))
  {
    hide Family, Pids, Placed, Counted, Block, Unblock, Termination.Kill;
    match a
    case CreateProcess(c) =>
    case Kill(c, pid, t) => TargetLive(s, c, pid, t); KillWaiter(s, c, t, k, p);
    case P(c, j) => if s.sem[j] == 0 { BlockWaiter(s, c, j, k, p); } else { UnblockWaiter(s, j, 0, k, p); }
    case V(c, j) => if s.sem[j] == 1 { BlockWaiter(s, c, j, k, p); } else { UnblockWaiter(s, j, 1, k, p); }
    case DoIo(c, j) => BlockWaiter(s, c, j, k, p);
    case ClockTick(c) =>
    case TimeOut(c) =>
    case Schedule(c) =>
  }

  /** In the first state in which p no longer waits for the clock it is ready, or terminated; and there is such a state.
      */
  ghost predicate Woken(s: State, acts: seq<Action>, p: Proc)
    decreases |acts|
  {
    if !WaitsAt(s, s.clock, p) then p in s.ready || !Live(s, p)
    else acts != [] && Enabled(s, acts[0]) && Woken(Step(s, acts[0]), acts[1..], p)
  }

  /** Whoever waits for the clock is ready after the next clock interrupt at the latest, unless it is terminated before.
      */
  lemma {:induction false} WokenByTick(s: State, acts: seq<Action>, s': State, p: Proc)
    requires Inv(s) && Run(s, acts, s') && WaitsAt(s, s.clock, p) && acts != [] && acts[|acts| - 1].ClockTick?
    ensures Woken(s, acts, p)
    decreases |acts|
  {
    hide Inv, Enabled, Served, Step, WaitsAt;
    var s1 := NextInv(s, acts[0]);
    WaiterStep(s, acts[0], s.clock, p);
    if WaitsAt(s1, s.clock, p) { WokenByTick(s1, acts[1..], s', p); }
  }

  // ---------------------------------------------------------------------------------------------
  // The clock's semaphore is 0

  /** V is not called on the clock's semaphore. */
  predicate NoClockV(acts: seq<Action>, clock: Key) {
    forall i | 0 <= i < |acts| :: !(acts[i].V? && acts[i].k == clock)
  }

  ghost predicate ClockZero(s: State) {
    s.clock in s.sem && s.sem[s.clock] == 0
  }

  lemma StaysZero(s: State, a: Action)
    requires ClockZero(s) && Enabled(s, a) && !(a.V? && a.k == s.clock)
    ensures ClockZero(Step(s, a)) && Step(s, a).clock == s.clock
  {
  }

  lemma {:induction false} RunZero(s: State, acts: seq<Action>, s': State)
    requires ClockZero(s) && Run(s, acts, s') && NoClockV(acts, s.clock)
    ensures ClockZero(s') && s'.clock == s.clock
    decreases |acts|
  {
    hide Enabled, Served, Step;
    if acts != [] {
      StaysZero(s, acts[0]);
      assert forall i | 0 <= i < |acts[1..]| :: acts[1..][i] == acts[i + 1];
      RunZero(Step(s, acts[0]), acts[1..], s');
    }
  }

  /** In every run from boot without a V on it the clock's semaphore is 0, whatever static values the semaphores have,
      and so are the device semaphores after boot; a process that waits for the clock then blocks, last in the queue. */
  lemma ClockBlocks(maxproc: nat, ncpu: nat, cells: map<Key, int>, clock: Key, devices: set<Key>,
                    acts: seq<Action>, s: State, c: nat)
    requires 1 <= ncpu <= maxproc && Run(Boot(maxproc, ncpu, cells, clock, devices), acts, s) && NoClockV(acts, clock)
    ensures ClockZero(s) && s.clock == clock
    ensures forall k | k in devices :: k in Boot(maxproc, ncpu, cells, clock, devices).sem
                                       && Boot(maxproc, ncpu, cells, clock, devices).sem[k] == 0
    ensures Enabled(s, P(c, clock)) ==> Active(s, c)
    ensures Enabled(s, P(c, clock)) && Served(s, P(c, clock)) ==>
      var s' := Step(s, P(c, clock)); var p := s.cur[c].value;
      s'.cur[c] == None && clock in s'.asl && s'.asl[clock] == (if clock in s.asl then s.asl[clock] else []) + [p]
  {
    RunZero(Boot(maxproc, ncpu, cells, clock, devices), acts, s);
  }

  /** It is asleep then until the next clock interrupt, in every run in which it is not terminated. */
  ghost predicate Lives(s: State, acts: seq<Action>, p: Proc)
    decreases |acts|
  {
    Live(s, p) && (acts != [] && Enabled(s, acts[0]) ==> Lives(Step(s, acts[0]), acts[1..], p))
  }

  lemma {:induction false} SleepsUntilTick(s: State, acts: seq<Action>, s': State, p: Proc)
    requires Inv(s) && ClockZero(s) && Run(s, acts, s') && NoClockV(acts, s.clock) && WaitsAt(s, s.clock, p)
    requires Lives(s, acts, p) && forall i | 0 <= i < |acts| :: !acts[i].ClockTick?
    ensures WaitsAt(s', s.clock, p)
    decreases |acts|
  {
    hide Inv, Step, WaitsAt;
    if acts != [] {
      var s1 := NextInv(s, acts[0]);
      StaysZero(s, acts[0]);
      StillAsleep(s, acts[0], p);
      assert forall i | 0 <= i < |acts[1..]| :: acts[1..][i] == acts[i + 1];
      SleepsUntilTick(s1, acts[1..], s', p);
    }
  }

  lemma StillAsleep(s: State, a: Action, p: Proc)
    requires Inv(s) && ClockZero(s) && Enabled(s, a) && !(a.V? && a.k == s.clock) && !a.ClockTick?
    requires WaitsAt(s, s.clock, p) && Live(Step(s, a), p)
    ensures WaitsAt(Step(s, a), s.clock, p)
  {
    hide Inv;
    WaiterStep(s, a, s.clock, p);
    if a.P? && a.k == s.clock { BlockWaiter(s, a.c, s.clock, s.clock, p); }
  }
}
