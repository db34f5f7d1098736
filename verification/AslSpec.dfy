/** What the active semaphore list means: a map from semaphore address to a FIFO queue. */
module AslSpec {
  import opened Basics

  /** A semaphore's address; 0 is NULL. */
  type Key = int

  /** An index into the PCB table. */
  type Proc = nat

  type Blocked = map<Key, seq<Proc>>

  /** insertBlocked on a pool of `cap` descriptors; false is its "no descriptor left" answer. */
  function Insert(m: Blocked, cap: nat, k: Key, p: Proc): (Blocked, bool) {
    if k in m then (m[k := m[k] + [p]], true)
    else if |m| >= cap then (m, false)
    else (m[k := [p]], true)
  }

  /** removeBlocked: takes the head; a descriptor whose queue is then empty is given back. */
  function Remove(m: Blocked, k: Key): (Blocked, Option<Proc>) {
    if k !in m then (m, None)
    else if |m[k]| <= 1 then (m - {k}, if m[k] == [] then None else Some(m[k][0]))
    else (m[k := m[k][1..]], Some(m[k][0]))
  }

  /** The first occurrence of p removed, if there is one. */
  function Without(q: seq<Proc>, p: Proc): seq<Proc> {
    if q == [] then [] else if q[0] == p then q[1..] else [q[0]] + Without(q[1..], p)
  }

  /** outBlocked: the descriptor stays active even when its queue becomes empty. */
  function Out(m: Blocked, k: Key, p: Proc): Blocked {
    if k in m then m[k := Without(m[k], p)] else m
  }

  function Head(m: Blocked, k: Key): Option<Proc> {
    if k in m && m[k] != [] then Some(m[k][0]) else None
  }

  /** Removing the first occurrence, by its position. */
  lemma {:induction false} WithoutAt(q: seq<Proc>, p: Proc, k: nat)
    requires k <= |q| && p !in q[..k] && (k < |q| ==> q[k] == p)
    ensures Without(q, p) == if k < |q| then RemoveAt(q, k) else q
  {
    if q == [] {
    } else if k == 0 {
      assert RemoveAt(q, 0) == q[1..];
    } else {
      assert q[..k][0] == q[0] && q[1..][..k - 1] == q[..k][1..];
      WithoutAt(q[1..], p, k - 1);
      if k < |q| { assert RemoveAt(q, k) == [q[0]] + RemoveAt(q[1..], k - 1); }
    }
  }

  /** Nobody waits twice. */
  ghost predicate Once(m: Blocked) {
    forall k, i, k', j {:trigger m[k][i], m[k'][j]} |
      k in m && k' in m && 0 <= i < |m[k]| && 0 <= j < |m[k']| && m[k][i] == m[k'][j] :: k == k' && i == j
  }

  ghost predicate WaitsIn(m: Blocked, p: Proc) {
    exists k :: k in m && p in m[k]
  }

  /** removeBlocked takes its result out of all queues. */
  lemma RemoveTakes(m: Blocked, k: Key)
    requires Once(m)
    ensures var (m', r) := Remove(m, k);
      && (forall p: Proc | WaitsIn(m', p) :: WaitsIn(m, p))
      && (r.Some? ==> WaitsIn(m, r.value) && !WaitsIn(m', r.value))
  {
    var (m', r) := Remove(m, k);
    forall p: Proc, j | j in m' && p in m'[j] ensures j in m && p in m[j] { }
    if r.Some? {
      assert k in m && m[k][0] in m[k];
      forall j | j in m' ensures r.value !in m'[j] {
        forall i | 0 <= i < |m'[j]| ensures m'[j][i] != r.value {
          assert if j == k then m'[j][i] == m[k][i + 1] else m'[j][i] == m[j][i];
          assert m[k][0] == r.value;
        }
      }
    }
  }

  lemma {:induction false} WithoutTakes(q: seq<Proc>, p: Proc)
    requires NoDup(q)
    ensures p !in Without(q, p) && forall x | x in Without(q, p) :: x in q
  {
    if q != [] {
      assert forall i | 0 <= i < |q| - 1 :: q[1..][i] == q[i + 1];
      WithoutTakes(q[1..], p);
    }
  }

  /** outBlocked takes p out of all queues, if it waits on the one it names. */
  lemma OutTakes(m: Blocked, k: Key, p: Proc)
    requires Once(m) && forall j | j in m && p in m[j] :: j == k
    ensures var m' := Out(m, k, p);
      !WaitsIn(m', p) && forall q: Proc | WaitsIn(m', q) :: WaitsIn(m, q)
  {
    var m' := Out(m, k, p);
    if k in m {
      assert NoDup(m[k]);
      WithoutTakes(m[k], p);
    }
    forall q: Proc, j | j in m' && q in m'[j] ensures j in m && q in m[j] { }
  }
}
