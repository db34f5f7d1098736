/** The nucleus as a step machine on values: what each lock-held section of phase2 does to the PCB
    table, the ready queue, the blocked processes, the CPU slots, the process count and the semaphores. */
module NucleusState {
  import opened Basics
  import opened AslSpec
  import opened ProcessTree

  datatype State = State(
    pcbs: seq<Pcb>,           // pcbFree_table; its length is MAXPROC
    nextPid: int,             // next_pid
    free: seq<Proc>,          // pcbFree_h
    ready: seq<Proc>,         // ReadyQueue
    asl: Blocked,             // the active semaphore descriptors
    cur: seq<Option<Proc>>,   // CurrentProcess; its length is NCPU
    count: int,               // ProcessCount
    sem: map<Key, int>,       // the semaphore cells
    clock: Key,               // the pseudo-clock semaphore
    devices: set<Key>,        // the other DeviceSemaphores
    idlers: set<Proc>,        // entries that boot gave to the other CPUs, never queued or counted
    due: set<nat>,            // CPUs whose time-slice handler requeued the process and has yet to call the scheduler
    adrift: set<nat>)         // CPUs that go on executing a process which another CPU terminated

  // ---------------------------------------------------------------------------------------------
  // Queues without some of their members

  function Minus(q: seq<Proc>, d: set<Proc>): (r: seq<Proc>)
    ensures forall x :: x in r <==> x in q && x !in d
    ensures |r| <= |q|
  {
    if q == [] then [] else if q[0] in d then Minus(q[1..], d) else [q[0]] + Minus(q[1..], d)
  }

  function Elems(q: seq<Proc>): set<Proc> {
    set x | x in q
  }

  // ---------------------------------------------------------------------------------------------
  // Steps

  /** CPU c runs a process. */
  predicate Runs(s: State, c: nat) {
    c < |s.cur| && s.cur[c].Some? && s.cur[c].value < |s.pcbs|
  }

  /** The slot of CPU c is NULL or names an entry. */
  predicate Slot(s: State, c: nat) {
    c < |s.cur| && (s.cur[c].Some? ==> s.cur[c].value < |s.pcbs|)
  }

  /** The slot of CPU c names the process it executes. */
  predicate Active(s: State, c: nat) {
    Runs(s, c) && c !in s.due
  }

  /** createProcess: the new process, or no change and None (-1 in a0) when the pool is empty.  On a CPU whose
      slot is NULL insertChild does nothing, and the new process has no parent. */
  function Create(s: State, c: nat): (State, Option<Proc>)
    requires Slot(s, c) && (s.free != [] ==> s.free[|s.free| - 1] < |s.pcbs|)
  {
    if s.free == [] then (s, None) else
      var p := s.free[|s.free| - 1];
      (s.(free := s.free[..|s.free| - 1], nextPid := s.nextPid + 1, ready := s.ready + [p], count := s.count + 1,
          pcbs := InsertChild(s.pcbs[p := Pcb(s.cur[c], [], 0, s.nextPid)], s.cur[c], p)), Some(p))
  }

  /** p becomes the youngest child of q, if there is a q. */
  function InsertChild(ps: seq<Pcb>, q: Option<Proc>, p: Proc): seq<Pcb>
    requires q.Some? ==> q.value < |ps|
  {
    if q == None then ps else ps[q.value := ps[q.value].(kids := ps[q.value].kids + [p])]
  }

  /** The blocking half of passeren, verhogen and doIo; insertBlocked's answer is not looked at. */
  function Block(s: State, c: nat, k: Key): State
    requires Runs(s, c)
  {
    var p := s.cur[c].value;
    s.(pcbs := s.pcbs[p := s.pcbs[p].(semAdd := k)], asl := Insert(s.asl, |s.pcbs|, k, p).0, cur := s.cur[c := None])
  }

  /** The other half: the first waiter becomes ready, or the semaphore takes the value v. */
  function Unblock(s: State, k: Key, v: int): State {
    var (asl, r) := Remove(s.asl, k);
    if r.Some? then s.(asl := asl, ready := s.ready + [r.value]) else s.(asl := asl, sem := s.sem[k := v])
  }

  function Passeren(s: State, c: nat, k: Key): State
    requires k in s.sem && (s.sem[k] == 0 ==> Runs(s, c))
  {
    if s.sem[k] == 0 then Block(s, c, k) else Unblock(s, k, 0)
  }

  function Verhogen(s: State, c: nat, k: Key): State
    requires k in s.sem && (s.sem[k] == 1 ==> Runs(s, c))
  {
    if s.sem[k] == 1 then Block(s, c, k) else Unblock(s, k, 1)
  }

  /** handlePseudoClockInterrupt on CPU c: every waiter becomes ready, in order; a CPU with a NULL slot goes on
      to the scheduler. */
  function Tick(s: State, c: nat): State {
    var s1 := s.(adrift := s.adrift - {c});
    if Head(s.asl, s.clock) == None then s1
    else s1.(asl := s.asl - {s.clock}, ready := s.ready + s.asl[s.clock])
  }

  /** scheduler: the slot of CPU c is overwritten, whatever it held; on an empty queue it keeps what it held. */
  function Dispatch(s: State, c: nat): State
    requires c < |s.cur|
  {
    var s1 := s.(due := s.due - {c}, adrift := s.adrift - {c});
    if s.ready == [] then s1 else s1.(cur := s.cur[c := Some(s.ready[0])], ready := s.ready[1..])
  }

  /** handleProcessLocalTimerInterrupt up to the scheduler call that ends it: the slot stays as it was. */
  function Requeue(s: State, c: nat): State
    requires Runs(s, c)
  {
    s.(ready := s.ready + [s.cur[c].value], due := s.due + {c})
  }

  /** The processes of `order` are freed, in that order. */
  function Purge(s: State, order: seq<Proc>): State {
    var d := Elems(order);
    s.(pcbs := Unlinked(s.pcbs, d), ready := Minus(s.ready, d), asl := MinusAll(s.asl, d), cur := Sweep(s.cur, d),
       count := s.count - |order|, free := s.free + order, adrift := s.adrift + Strays(s.cur, s.due, d))
  }

  /** d without parents, and in nobody's children list. */
  function Unlinked(ps: seq<Pcb>, d: set<Proc>): (r: seq<Pcb>)
    ensures |r| == |ps|
    ensures forall i | 0 <= i < |ps| ::
              r[i] == Pcb(if i in d then None else ps[i].parent, Minus(ps[i].kids, d), ps[i].semAdd, ps[i].pid)
  {
    seq(|ps|, i requires 0 <= i < |ps| =>
      Pcb(if i in d then None else ps[i].parent, Minus(ps[i].kids, d), ps[i].semAdd, ps[i].pid))
  }

  function MinusAll(m: Blocked, d: set<Proc>): Blocked {
    map k | k in m :: Minus(m[k], d)
  }

  /** The CPU slots after the search for d in them. */
  function Sweep(cur: seq<Option<Proc>>, d: set<Proc>): (r: seq<Option<Proc>>)
    ensures |r| == |cur|
    ensures forall i | 0 <= i < |cur| :: r[i] == if cur[i].Some? && cur[i].value in d then None else cur[i]
  {
    seq(|cur|, i requires 0 <= i < |cur| => if cur[i].Some? && cur[i].value in d then None else cur[i])
  }

  /** The CPUs that execute one of d; nothing stops them when it is terminated. */
  function Strays(cur: seq<Option<Proc>>, due: set<nat>, d: set<Proc>): (r: set<nat>)
    ensures forall c: nat :: c in r <==> c < |cur| && c !in due && cur[c].Some? && cur[c].value in d
  {
    set c: nat | c < |cur| && c !in due && cur[c].Some? && cur[c].value in d
  }

  /** main, up to its scheduler call: one process ready, an entry for every other CPU, the rest free.
      `cells` holds the other semaphores' static initial values. */
  function Boot(maxproc: nat, ncpu: nat, cells: map<Key, int>, clock: Key, devices: set<Key>): State
    requires 1 <= ncpu <= maxproc
  {
    State(BootTable(maxproc, ncpu), ncpu + 1, Upto(maxproc - ncpu), [maxproc - 1], map[], seq(ncpu, _ => None), 1,
          BootCells(cells, clock, devices), clock, devices, Interval(maxproc - ncpu, ncpu - 1), {}, {})
  }

  /** allocPcb takes the last entry first, so pids 1 to ncpu go to the end of the table. */
  function BootTable(maxproc: nat, ncpu: nat): seq<Pcb>
    requires ncpu <= maxproc
  {
    seq(maxproc, i requires 0 <= i < maxproc => Pcb(None, [], 0, if i < maxproc - ncpu then 0 else maxproc - i))
  }

  /** Device semaphores and the pseudo-clock start at 0. */
  function BootCells(cells: map<Key, int>, clock: Key, devices: set<Key>): map<Key, int> {
    map k | k in cells.Keys + devices + {clock} :: if k in devices || k == clock then 0 else cells[k]
  }

  /** lo, lo + 1, ..., lo + n - 1 */
  function Interval(lo: nat, n: nat): (r: set<Proc>)
    ensures |r| == n && forall x: Proc :: x in r <==> lo <= x < lo + n
  {
    if n == 0 then {} else Interval(lo, n - 1) + {lo + n - 1}
  }

  /** 0, 1, ..., n - 1 */
  function Upto(n: nat): seq<Proc> {
    seq(n, i => i)
  }

  // ---------------------------------------------------------------------------------------------
  // The invariant

  predicate Live(s: State, p: Proc) {
    p < |s.pcbs| && p !in s.free && p !in s.idlers
  }

  /** On the queue of the semaphore that its p_semAdd names. */
  predicate IsBlocked(s: State, p: Proc) {
    p < |s.pcbs| && s.pcbs[p].semAdd in s.asl && p in s.asl[s.pcbs[p].semAdd]
  }

  /** A slot names p, and not only because the scheduler has not overwritten it yet. */
  predicate IsRunning(s: State, p: Proc) {
    exists c | 0 <= c < |s.cur| :: s.cur[c] == Some(p) && c !in s.due
  }

  /** The initial process: the first entry that boot takes from the free list. */
  function Root(s: State): int {
    |s.pcbs| - 1
  }

  /** Every list holds live processes, no list holds one twice, and a queued process names its queue. */
  ghost predicate Lists(s: State) {
    && NoDup(s.free) && (forall p | p in s.free :: p < |s.pcbs| && p !in s.idlers)
    && (forall p | p in s.idlers :: p < |s.pcbs|)
    && NoDup(s.ready) && (forall p | p in s.ready :: Live(s, p))
    && (forall k | k in s.asl :: NoDup(s.asl[k]))
    && (forall k, p {:trigger p in s.asl[k]} | k in s.asl && p in s.asl[k] :: Live(s, p) && s.pcbs[p].semAdd == k)
    && (forall c | 0 <= c < |s.cur| && s.cur[c].Some? :: Live(s, s.cur[c].value))
    && (forall c, d | 0 <= c < |s.cur| && 0 <= d < |s.cur| && c != d && c !in s.due && d !in s.due && s.cur[c].Some? ::
          s.cur[c] != s.cur[d])
    && (forall c | c in s.due :: c < |s.cur| && c !in s.adrift)
    && (forall c | c in s.adrift :: c < |s.cur| && s.cur[c] == None)
  }

  /** Parents and children agree, and both are live. */
  ghost predicate Family(s: State) {
    && Tree(s.pcbs, s.nextPid)
    && (forall p {:trigger s.pcbs[p].parent} | 0 <= p < |s.pcbs| && s.pcbs[p].parent.Some? ::
          Live(s, p) && Live(s, s.pcbs[p].parent.value))
  }

  /** Only the initial process, pid 1, has no parent. */
  ghost predicate Rooted(s: State) {
    forall p: Proc {:trigger s.pcbs[p].parent} | Live(s, p) && s.pcbs[p].parent == None ::
      p == Root(s) && s.pcbs[p].pid == 1
  }

  /** Pids that were ever handed out are unique; 0 is the pid of an entry never allocated. */
  ghost predicate Pids(s: State) {
    && 2 <= s.nextPid
    && (forall p: Proc | Live(s, p) :: s.pcbs[p].pid > 0)
    && (forall p: Proc, q: Proc {:trigger SamePid(s.pcbs, p, q)} | p < q < |s.pcbs| && s.pcbs[p].pid > 0 ::
          !SamePid(s.pcbs, p, q))
  }

  predicate SamePid(ps: seq<Pcb>, p: Proc, q: Proc)
    requires p < |ps| && q < |ps|
  {
    ps[p].pid == ps[q].pid
  }

  ghost predicate Core(s: State) {
    Lists(s) && Family(s) && Pids(s)
  }

  /** A live process is ready, blocked or running, and only one of the three. */
  ghost predicate Placed(s: State) {
    forall p: Proc | Live(s, p) ::
      (if p in s.ready then 1 else 0) + (if IsBlocked(s, p) then 1 else 0) + (if IsRunning(s, p) then 1 else 0) == 1
  }

  ghost predicate Counted(s: State) {
    s.count + |s.free| + |s.idlers| == |s.pcbs| && |s.idlers| < |s.cur|
  }

  ghost predicate Inv(s: State) {
    Core(s) && Placed(s) && Counted(s)
  }
}
