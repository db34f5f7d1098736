/** One semaphore seen by itself: its value and its waiters.  This is what the nucleus does to it. */
module Semaphores {
  import opened Basics
  import opened AslSpec
  import opened ProcessTree
  import opened NucleusState
  import opened NucleusInv

  datatype Sema = Sema(value: int, waiters: seq<Proc>)

  /** The semaphore afterwards, whether the caller waits, and the waiter that was let go. */
  datatype Effect = Effect(sema: Sema, blocked: bool, woken: Option<Proc>)

  function Pass(x: Sema, v: int): Effect {
    if x.waiters == [] then Effect(x.(value := v), false, None)
    else Effect(x.(waiters := x.waiters[1..]), false, Some(x.waiters[0]))
  }

  function DoP(x: Sema, p: Proc): Effect {
    if x.value == 0 then Effect(x.(waiters := x.waiters + [p]), true, None) else Pass(x, 0)
  }

  function DoV(x: Sema, p: Proc): Effect {
    if x.value == 1 then Effect(x.(waiters := x.waiters + [p]), true, None) else Pass(x, 1)
  }

  function SemaOf(s: State, k: Key): Sema
    requires k in s.sem
  {
    Sema(s.sem[k], if k in s.asl then s.asl[k] else [])
  }

  /** What an effect on semaphore k means for the nucleus: the caller blocks or goes on, the one let go
      becomes ready, and the other semaphores are as before. */
  ghost predicate Realizes(s: State, s': State, c: nat, k: Key, e: Effect)
    requires e.blocked ==> c < |s.cur|
  {
    && s'.sem.Keys == s.sem.Keys && k in s.sem && SemaOf(s', k) == e.sema
    && s'.cur == (if e.blocked then s.cur[c := None] else s.cur)
    && s'.ready == (if e.woken.Some? then s.ready + [e.woken.value] else s.ready)
    && forall j | j in s.sem && j != k :: SemaOf(s', j) == SemaOf(s, j)
  }

  /** Process p is in the slot of CPU c, and there is a descriptor for it to wait with. */
  predicate CanWait(s: State, c: nat, k: Key, p: Proc) {
    Runs(s, c) && s.cur[c] == Some(p) && Room(s, k)
  }

  /** On any CPU; only a caller that blocks has to be in its slot. */
  lemma PasserenIsP(s: State, c: nat, k: Key, p: Proc)
    requires k in s.sem && (s.sem[k] == 0 ==> CanWait(s, c, k, p))
    ensures Realizes(s, Passeren(s, c, k), c, k, DoP(SemaOf(s, k), p))
  {
  }

  lemma VerhogenIsV(s: State, c: nat, k: Key, p: Proc)
    requires k in s.sem && (s.sem[k] == 1 ==> CanWait(s, c, k, p))
    ensures Realizes(s, Verhogen(s, c, k), c, k, DoV(SemaOf(s, k), p))
  {
  }
}
