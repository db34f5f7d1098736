/** First come, first served at every semaphore (phase1/asl.c:59-92, phase2/exceptions.c:249-339). */
module SemaphoreFifo {
  import opened Basics
  import opened AslSpec
  import opened ProcessTree
  import opened NucleusState
  import opened NucleusInv
  import opened Termination
  import opened Machine
  import opened RoundRobin
  import opened ClockWait

  function QueueAt(s: State, k: Key): seq<Proc> {
    if k in s.asl then s.asl[k] else []
  }

  /** The section makes its caller wait at k. */
  predicate Joins(s: State, a: Action, k: Key) {
    match a
    case P(c, j) => j == k && k in s.sem && s.sem[k] == 0
    case V(c, j) => j == k && k in s.sem && s.sem[k] == 1
    case DoIo(c, j) => j == k
    case _ => false
  }

  /** The section is a P or V on k that does not block. */
  predicate Passes(s: State, a: Action, k: Key) {
    (a.P? || a.V?) && a.k == k && !Joins(s, a, k)
  }

  /** Whoever comes to wait is the last in the queue, and runs no more. */
  lemma JoinsLast(s: State, a: Action, k: Key)
    requires Inv(s) && Enabled(s, a) && Served(s, a) && Joins(s, a, k)
    ensures Active(s, a.c) && QueueAt(Step(s, a), k) == QueueAt(s, k) + [s.cur[a.c].value]
    ensures Step(s, a).cur == s.cur[a.c := None] && Step(s, a).ready == s.ready && Step(s, a).sem == s.sem
  {
  }

  /** A P or V that does not block lets go the first waiter, which is then the last that is ready; without a waiter it
      sets the value. */
  lemma PassesFirst(s: State, a: Action, k: Key)
    requires Inv(s) && Enabled(s, a) && Passes(s, a, k)
    ensures var s', q := Step(s, a), QueueAt(s, k);
      && (q != [] ==> s'.ready == s.ready + [q[0]] && QueueAt(s', k) == q[1..] && s'.sem == s.sem)
      && (q == [] ==> s'.ready == s.ready && QueueAt(s', k) == [] && s'.sem == s.sem[k := if a.P? then 0 else 1])
      && s'.cur == s.cur && forall j | j != k :: QueueAt(s', j) == QueueAt(s, j)
  {
  }

  lemma KillQueue(s: State, c: nat, t: Proc, k: Key, p: Proc)
    requires Inv(s) && Live(s, t) && WaitsAt(s, k, p) && WaitsAt(Termination.Kill(s, c, t), k, p)
    ensures Ahead(QueueAt(Termination.Kill(s, c, t), k), p) <= Ahead(QueueAt(s, k), p)
  {
    AheadMinus(s.asl[k], Elems(Order(s, t)), p);
  }

  /** No section moves a waiter back in its queue. */
  lemma WaiterNeverBack(s: State, a: Action, k: Key, p: Proc)
    requires Inv(s) && Enabled(s, a) && Served(s, a) && WaitsAt(s, k, p) && WaitsAt(Step(s, a), k, p)
    ensures Ahead(QueueAt(Step(s, a), k), p) <= Ahead(QueueAt(s, k), p)
    ensures Passes(s, a, k) ==> Ahead(QueueAt(Step(s, a), k), p) + 1 == Ahead(QueueAt(s, k), p)
  {
    hide Family, Pids, Placed, Counted, Termination.Kill;
    if Joins(s, a, k) {
      JoinsLast(s, a, k);
      AheadAppend(QueueAt(s, k), [s.cur[a.c].value], p);
    } else if Passes(s, a, k) {
      PassesFirst(s, a, k);
      StillThere(s, k, p);
    } else if a.Kill? {
      TargetLive(s, a.c, a.pid, a.t);
      KillQueue(s, a.c, a.t, k, p);
    } else {
      ElsewhereKeeps(s, a, k);
    }
  }

  lemma StillThere(s: State, k: Key, p: Proc)
    requires Lists(s) && WaitsAt(s, k, p) && p in s.asl[k][1..]
    ensures s.asl[k][0] != p
  {
    var i :| 1 <= i < |s.asl[k]| && s.asl[k][i] == p;
  }

  lemma ElsewhereKeeps(s: State, a: Action, k: Key)
    requires Enabled(s, a) && !Joins(s, a, k) && !Passes(s, a, k) && !a.Kill?
    ensures QueueAt(Step(s, a), k) == QueueAt(s, k) || QueueAt(Step(s, a), k) == []
  {
  }

  /** p waits until, after at most n sections that pass k, it is ready or terminated. */
  ghost predicate ReleasedWithin(s: State, acts: seq<Action>, k: Key, p: Proc, n: nat)
    decreases |acts|
  {
    if !WaitsAt(s, k, p) then p in s.ready || !Live(s, p)
    else if acts == [] || !Enabled(s, acts[0]) then false
    else if Passes(s, acts[0], k) then n > 0 && ReleasedWithin(Step(s, acts[0]), acts[1..], k, p, n - 1)
    else ReleasedWithin(Step(s, acts[0]), acts[1..], k, p, n)
  }

  /** How many of the sections of a run pass k. */
  ghost function Passings(s: State, acts: seq<Action>, k: Key): nat
    decreases |acts|
  {
    if acts == [] || !Enabled(s, acts[0]) then 0
    else (if Passes(s, acts[0], k) then 1 else 0) + Passings(Step(s, acts[0]), acts[1..], k)
  }

  lemma {:induction false} Released(s: State, acts: seq<Action>, s': State, k: Key, p: Proc, n: nat)
    requires Inv(s) && Run(s, acts, s') && WaitsAt(s, k, p) && Ahead(QueueAt(s, k), p) < n <= Passings(s, acts, k)
    ensures ReleasedWithin(s, acts, k, p, n)
    decreases |acts|
  {
    hide Inv, Enabled, Served, Step, WaitsAt, QueueAt, Passes;
    var a := acts[0];
    var s1 := NextInv(s, a);
    WaiterStep(s, a, k, p);
    if WaitsAt(s1, k, p) {
      WaiterNeverBack(s, a, k, p);
      Released(s1, acts[1..], s', k, p, if Passes(s, a, k) then n - 1 else n);
    }
  }

  /** With n waiters ahead of it, a process is let go at the latest by the (n + 1)-th P or V on the semaphore that does
      not block its caller, unless it is terminated before. */
  lemma FifoRelease(s: State, acts: seq<Action>, s': State, k: Key, p: Proc)
    requires Inv(s) && Run(s, acts, s') && WaitsAt(s, k, p) && Passings(s, acts, k) > Ahead(QueueAt(s, k), p)
    ensures ReleasedWithin(s, acts, k, p, Ahead(QueueAt(s, k), p) + 1)
  {
    Released(s, acts, s', k, p, Ahead(QueueAt(s, k), p) + 1);
  }
}
