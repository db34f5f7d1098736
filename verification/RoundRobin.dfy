/** Bounded waiting in the ready queue (phase2/scheduler.c): first come, first dispatched. */
module RoundRobin {
  import opened Basics
  import opened AslSpec
  import opened ProcessTree
  import opened NucleusState
  import opened NucleusInv
  import opened Termination
  import opened Machine

  /** How many are before p in the queue. */
  function Ahead(q: seq<Proc>, p: Proc): (n: nat)
    ensures n <= |q|
  {
    if q == [] || q[0] == p then 0 else 1 + Ahead(q[1..], p)
  }

  lemma {:induction false} AheadAppend(q: seq<Proc>, r: seq<Proc>, p: Proc)
    requires p in q
    ensures Ahead(q + r, p) == Ahead(q, p)
  {
    if q[0] != p {
      assert (q + r)[1..] == q[1..] + r;
      AheadAppend(q[1..], r, p);
    }
  }

  lemma {:induction false} AheadMinus(q: seq<Proc>, d: set<Proc>, p: Proc)
    requires p in q && p !in d
    ensures Ahead(Minus(q, d), p) <= Ahead(q, p)
  {
    if q[0] != p {
      AheadMinus(q[1..], d, p);
      if q[0] !in d { assert Minus(q, d)[1..] == Minus(q[1..], d); }
    }
  }

  predicate Dispatches(a: Action) {
    a.Schedule?
  }

  function DispatchCount(acts: seq<Action>): nat {
    if acts == [] then 0 else (if Dispatches(acts[0]) then 1 else 0) + DispatchCount(acts[1..])
  }

  /** p stays ready until, after at most n dispatches, it runs or has been terminated. */
  ghost predicate ServedWithin(s: State, acts: seq<Action>, p: Proc, n: nat)
    decreases |acts|
  {
    if p !in s.ready then IsRunning(s, p) || !Live(s, p)
    else if acts == [] || !Enabled(s, acts[0]) then false
    else if Dispatches(acts[0]) then n > 0 && ServedWithin(Step(s, acts[0]), acts[1..], p, n - 1)
    else ServedWithin(Step(s, acts[0]), acts[1..], p, n)
  }

  /** A dispatch moves p up by one place or makes it run. */
  lemma DispatchMovesUp(s: State, c: nat, p: Proc)
    requires c < |s.cur| && p in s.ready
    ensures var s' := Dispatch(s, c);
      if Ahead(s.ready, p) == 0 then IsRunning(s', p) && s'.ready == s.ready[1..]
      else p in s'.ready && Ahead(s'.ready, p) == Ahead(s.ready, p) - 1
  {
    if Ahead(s.ready, p) == 0 { assert Dispatch(s, c).cur[c] == Some(p) && c !in Dispatch(s, c).due; }
  }

  /** No section moves a ready process back; one that does not dispatch leaves it ready or kills it. */
  lemma NeverBack(s: State, a: Action, p: Proc)
    requires Inv(s) && Enabled(s, a) && p in s.ready && !Dispatches(a)
    ensures var s' := Step(s, a);
      if p in s'.ready then Ahead(s'.ready, p) <= Ahead(s.ready, p) else !Live(s', p)
  {
    match a
    case CreateProcess(c) => if s.free != [] { AheadAppend(s.ready, [s.free[|s.free| - 1]], p); }
    case Kill(c, pid, t) =>
      var o := Order(s, t);
      if p in o { OrderDoomable(s, t); PurgeLive(s, o); } else { AheadMinus(s.ready, Elems(o), p); }
    case P(c, k) => UnblockKeeps(s, k, 0, p);
    case V(c, k) => UnblockKeeps(s, k, 1, p);
    case DoIo(c, k) =>
    case ClockTick(c) => if Head(s.asl, s.clock).Some? { AheadAppend(s.ready, s.asl[s.clock], p); }
    case TimeOut(c) => AheadAppend(s.ready, [s.cur[c].value], p);
  }

  lemma UnblockKeeps(s: State, k: Key, v: int, p: Proc)
    requires p in s.ready
    ensures p in Unblock(s, k, v).ready && Ahead(Unblock(s, k, v).ready, p) == Ahead(s.ready, p)
  {
    if k in s.asl && s.asl[k] != [] { AheadAppend(s.ready, [s.asl[k][0]], p); }
  }

  lemma DispatchStep(s: State, a: Action, p: Proc)
    requires Inv(s) && Enabled(s, a) && p in s.ready && Dispatches(a)
    ensures var s' := Step(s, a);
      if Ahead(s.ready, p) == 0 then IsRunning(s', p) && p !in s'.ready
      else p in s'.ready && Ahead(s'.ready, p) == Ahead(s.ready, p) - 1
  {
    DispatchMovesUp(s, a.c, p);
    if Ahead(s.ready, p) == 0 { assert s.ready[0] == p && p !in s.ready[1..]; }
  }

  /** Whose time slice ends is the last that is ready, behind everybody else. */
  lemma TimeOutLast(s: State, c: nat)
    requires Inv(s) && Enabled(s, TimeOut(c))
    ensures var s', p := Step(s, TimeOut(c)), s.cur[c].value;
      && s'.ready == s.ready + [p] && Ahead(s'.ready, p) == |s.ready| && !IsRunning(s', p) && s'.cur == s.cur
  {
    var s', p := Step(s, TimeOut(c)), s.cur[c].value;
    assert Live(s, p) && IsRunning(s, p);
    AheadLast(s.ready, p);
    SlotCleared(s, s', c, p);
  }

  lemma {:induction false} AheadLast(q: seq<Proc>, p: Proc)
    requires p !in q
    ensures Ahead(q + [p], p) == |q|
  {
    if q != [] {
      assert (q + [p])[1..] == q[1..] + [p];
      AheadLast(q[1..], p);
    }
  }

  /** Bounded waiting: with n processes ahead, a ready process runs at the latest at the (n + 1)-th dispatch
      from now, whatever happens in between, unless it is terminated before. */
  lemma BoundedWaiting(s: State, acts: seq<Action>, s': State, p: Proc)
    requires Inv(s) && Run(s, acts, s') && p in s.ready && DispatchCount(acts) > Ahead(s.ready, p)
    ensures ServedWithin(s, acts, p, Ahead(s.ready, p) + 1)
    decreases |acts|
  {
    Waiting(s, acts, s', p, Ahead(s.ready, p) + 1);
  }

  /** What one section does for a process with fewer than n ahead of it, when it dispatches or not. */
  lemma OneSection(s: State, a: Action, p: Proc, n: nat) returns (s1: State)
    requires Inv(s) && Enabled(s, a) && Served(s, a) && p in s.ready && Ahead(s.ready, p) < n
    ensures s1 == Step(s, a) && Inv(s1)
    ensures if p in s1.ready then Ahead(s1.ready, p) < (if Dispatches(a) then n - 1 else n)
            else IsRunning(s1, p) || !Live(s1, p)
  {
    s1 := NextInv(s, a);
    if Dispatches(a) { DispatchStep(s, a, p); } else { NeverBack(s, a, p); }
  }

  lemma {:induction false} Waiting(s: State, acts: seq<Action>, s': State, p: Proc, n: nat)
    requires Inv(s) && Run(s, acts, s') && p in s.ready && Ahead(s.ready, p) < n <= DispatchCount(acts)
    ensures ServedWithin(s, acts, p, n)
    decreases |acts|
  {
    var s1 := OneSection(s, acts[0], p, n);
    if p in s1.ready { Waiting(s1, acts[1..], s', p, if Dispatches(acts[0]) then n - 1 else n); }
  }
}
