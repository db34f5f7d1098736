/** The two-sided binary semaphore law, over every run: passeren and verhogen (phase2/exceptions.c)
    on one semaphore that nothing but P, V and termination touches. */
module SemaphoreLaw {
  import opened Basics
  import opened AslSpec
  import opened ProcessTree
  import opened NucleusState
  import opened NucleusInv
  import opened Termination
  import opened Machine

  datatype Op = OpP | OpV

  /** The history of one semaphore: how many P's and V's were completed, and what each process that
      blocked there had called. */
  datatype Ledger = Ledger(ps: nat, vs: nat, called: map<Proc, Op>)

  function Complete(l: Ledger, op: Op): Ledger {
    match op
    case OpP => l.(ps := l.ps + 1)
    case OpV => l.(vs := l.vs + 1)
  }

  /** The caller's operation is completed, and with it that of the waiter it lets go. */
  function Passed(l: Ledger, op: Op, waiter: Option<Proc>): Ledger {
    var l1 := Complete(l, op);
    if waiter.Some? && waiter.value in l.called then Complete(l1, l.called[waiter.value]) else l1
  }

  /** What one section adds to the history of semaphore k. */
  function Record(s: State, a: Action, k: Key, l: Ledger): Ledger {
    match a
    case P(c, j) =>
      if j != k || k !in s.sem then l
      else if s.sem[k] == 0 then (if Runs(s, c) then l.(called := l.called[s.cur[c].value := OpP]) else l)
      else Passed(l, OpP, Head(s.asl, k))
    case V(c, j) =>
      if j != k || k !in s.sem then l
      else if s.sem[k] == 1 then (if Runs(s, c) then l.(called := l.called[s.cur[c].value := OpV]) else l)
      else Passed(l, OpV, Head(s.asl, k))
    case _ => l
  }

  ghost function History(s: State, acts: seq<Action>, k: Key, l: Ledger): Ledger
    decreases |acts|
  {
    if acts == [] || !Enabled(s, acts[0]) then l
    else History(Step(s, acts[0]), acts[1..], k, Record(s, acts[0], k, l))
  }

  /** Only P, V and termination concern semaphore k. */
  predicate Plain(s: State, k: Key) {
    k in s.sem && k != s.clock && k !in s.devices
  }

  /** The value is the initial one plus the V's minus the P's and never leaves {0, 1}; whoever waits at 0
      called P, and whoever waits at 1 called V. */
  ghost predicate Law(s: State, k: Key, init: int, l: Ledger) {
    && Plain(s, k)
    && s.sem[k] == init + l.vs - l.ps
    && 0 <= s.sem[k] <= 1
    && (k in s.asl ==> forall p | p in s.asl[k] ::
          p in l.called && l.called[p] == if s.sem[k] == 0 then OpP else OpV)
  }

  lemma LawOnP(s: State, c: nat, k: Key, init: int, l: Ledger)
    requires Law(s, k, init, l) && (s.sem[k] == 0 ==> Runs(s, c))
    ensures Law(Passeren(s, c, k), k, init, Record(s, P(c, k), k, l))
    ensures Passeren(s, c, k).sem[k] != s.sem[k] ==> Head(s.asl, k) == None
  {
  }

  lemma LawOnV(s: State, c: nat, k: Key, init: int, l: Ledger)
    requires Law(s, k, init, l) && (s.sem[k] == 1 ==> Runs(s, c))
    ensures Law(Verhogen(s, c, k), k, init, Record(s, V(c, k), k, l))
    ensures Verhogen(s, c, k).sem[k] != s.sem[k] ==> Head(s.asl, k) == None
  {
  }

  /** A section that is neither P nor V on k adds no waiter there and leaves the value alone. */
  lemma OthersKeepAway(s: State, a: Action, k: Key)
    requires Plain(s, k) && Enabled(s, a) && !(a.P? && a.k == k) && !(a.V? && a.k == k)
    ensures Plain(Step(s, a), k) && Step(s, a).sem[k] == s.sem[k]
    ensures k in Step(s, a).asl ==> k in s.asl && forall p | p in Step(s, a).asl[k] :: p in s.asl[k]
  {
  }

  lemma LawStep(s: State, a: Action, k: Key, init: int, l: Ledger)
    requires Law(s, k, init, l) && Enabled(s, a)
    ensures Law(Step(s, a), k, init, Record(s, a, k, l))
    ensures Step(s, a).sem[k] != s.sem[k] ==> Head(s.asl, k) == None
  {
    if a.P? && a.k == k {
      LawOnP(s, a.c, k, init, l);
    } else if a.V? && a.k == k {
      LawOnV(s, a.c, k, init, l);
    } else {
      OthersKeepAway(s, a, k);
    }
  }

  lemma {:induction false} LawAlong(s: State, acts: seq<Action>, s': State, k: Key, init: int, l: Ledger)
    requires Law(s, k, init, l) && Run(s, acts, s')
    ensures Law(s', k, init, History(s, acts, k, l))
    decreases |acts|
  {
    if acts != [] {
      LawStep(s, acts[0], k, init, l);
      LawAlong(Step(s, acts[0]), acts[1..], s', k, init, Record(s, acts[0], k, l));
    }
  }

  /** The law, in every state of every run from boot. */
  lemma TwoSidedLaw(maxproc: nat, ncpu: nat, cells: map<Key, int>, clock: Key, devices: set<Key>,
                    acts: seq<Action>, s: State, k: Key)
    requires 1 <= ncpu <= maxproc && Run(Boot(maxproc, ncpu, cells, clock, devices), acts, s)
    requires k in cells && k != clock && k !in devices && 0 <= cells[k] <= 1
    ensures Law(s, k, cells[k], History(Boot(maxproc, ncpu, cells, clock, devices), acts, k, Ledger(0, 0, map[])))
  {
    LawAlong(Boot(maxproc, ncpu, cells, clock, devices), acts, s, k, cells[k], Ledger(0, 0, map[]));
  }
}
