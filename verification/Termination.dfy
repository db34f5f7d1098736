/** Termination of a process subtree (phase2/exceptions.c): exactly the subtree goes, and the rest stays sound. */
module Termination {
  import opened Basics
  import opened AslSpec
  import opened ProcessTree
  import opened NucleusState
  import opened NucleusInv

  // ---------------------------------------------------------------------------------------------
  // Queues without some of their members

  lemma {:induction false} MinusNoDup(q: seq<Proc>, d: set<Proc>)
    requires NoDup(q)
    ensures NoDup(Minus(q, d))
  {
    if q != [] {
      var t := q[1..];
      MinusNoDup(t, d);
      assert q[0] !in t;
      assert q[0] !in Minus(t, d);
    }
  }

  lemma {:induction false} MinusMinus(q: seq<Proc>, d: set<Proc>, e: set<Proc>)
    ensures Minus(Minus(q, d), e) == Minus(q, d + e)
  {
    if q != [] {
      MinusMinus(q[1..], d, e);
      if q[0] !in d {
        var r := Minus(q, d);
        assert r[0] == q[0] && r[1..] == Minus(q[1..], d);
      }
    }
  }

  lemma {:induction false} MinusNone(q: seq<Proc>, d: set<Proc>)
    requires forall x | x in q :: x !in d
    ensures Minus(q, d) == q
  {
    if q != [] {
      assert q[0] in q && forall x | x in q[1..] :: x in q;
      MinusNone(q[1..], d);
    }
  }

  lemma {:induction false} WithoutIsMinus(q: seq<Proc>, p: Proc)
    requires NoDup(q)
    ensures Without(q, p) == Minus(q, {p})
  {
    if q != [] {
      if q[0] == p {
        assert forall x | x in q[1..] :: x != p;
        MinusNone(q[1..], {p});
      } else {
        WithoutIsMinus(q[1..], p);
      }
    }
  }

  /** What stays behind keeps its order. */
  lemma {:induction false} MinusByAge(ps: seq<Pcb>, q: seq<Proc>, d: set<Proc>)
    requires ByAge(ps, q)
    ensures ByAge(ps, Minus(q, d))
  {
    if q != [] {
      var t, r := q[1..], Minus(q[1..], d);
      MinusByAge(ps, t, d);
      forall i | 0 <= i < |r| ensures ps[q[0]].pid < ps[r[i]].pid {
        assert r[i] in t;
        var j :| 0 <= j < |t| && t[j] == r[i];
        assert q[j + 1] == t[j];
      }
    }
  }

  // ---------------------------------------------------------------------------------------------
  // Freeing a set of processes that is closed under children

  ghost predicate Doomable(s: State, o: seq<Proc>) {
    && NoDup(o) && (forall p | p in o :: Live(s, p))
    && (forall p, k | p in o && k in s.pcbs[p].kids :: k in o)
  }

  lemma PurgeLive(s: State, o: seq<Proc>)
    requires Doomable(s, o)
    ensures forall p: Proc :: Live(Purge(s, o), p) <==> Live(s, p) && p !in o
  {
  }

  lemma PurgeLists(s: State, o: seq<Proc>)
    requires Lists(s) && Doomable(s, o)
    ensures Lists(Purge(s, o))
  {
    var s' := Purge(s, o);
    PurgeLive(s, o);
    MinusNoDup(s.ready, Elems(o));
    NoDupAppend(s.free, o);
    forall k | k in s'.asl ensures NoDup(s'.asl[k]) { MinusNoDup(s.asl[k], Elems(o)); }
  }

  lemma PurgeTree(s: State, o: seq<Proc>)
    requires Family(s) && Doomable(s, o)
    ensures Tree(Purge(s, o).pcbs, s.nextPid)
  {
    var ps, ps' := s.pcbs, Purge(s, o).pcbs;
    forall p | 0 <= p < |ps'| ensures ByAge(ps', ps'[p].kids) {
      MinusByAge(ps, ps[p].kids, Elems(o));
    }
  }

  lemma PurgeFamily(s: State, o: seq<Proc>)
    requires Family(s) && Doomable(s, o)
    ensures Family(Purge(s, o))
  {
    PurgeLive(s, o);
    PurgeTree(s, o);
  }

  lemma PurgePids(s: State, o: seq<Proc>)
    requires Pids(s) && Doomable(s, o)
    ensures Pids(Purge(s, o))
  {
    var s' := Purge(s, o);
    PurgeLive(s, o);
    forall p: Proc, q: Proc | p < q < |s'.pcbs| && s'.pcbs[p].pid > 0 ensures !SamePid(s'.pcbs, p, q) {
      assert !SamePid(s.pcbs, p, q);
    }
  }

  lemma PurgePlaced(s: State, o: seq<Proc>)
    requires Placed(s) && Doomable(s, o)
    ensures Placed(Purge(s, o))
  {
    var s' := Purge(s, o);
    PurgeLive(s, o);
    forall p: Proc | Live(s', p) ensures IsRunning(s', p) <==> IsRunning(s, p) {
      if i :| 0 <= i < |s.cur| && s.cur[i] == Some(p) && i !in s.due { assert s'.cur[i] == Some(p); }
      if i :| 0 <= i < |s'.cur| && s'.cur[i] == Some(p) && i !in s.due { assert s.cur[i] == Some(p); }
    }
    assert forall p: Proc | Live(s', p) :: IsBlocked(s', p) <==> IsBlocked(s, p);
  }

  lemma PurgeCore(s: State, o: seq<Proc>)
    requires Core(s) && Doomable(s, o)
    ensures Core(Purge(s, o))
  {
    PurgeLists(s, o);
    PurgeFamily(s, o);
    PurgePids(s, o);
  }

  lemma PurgeInv(s: State, o: seq<Proc>)
    requires Inv(s) && Doomable(s, o)
    ensures Inv(Purge(s, o))
  {
    PurgeCore(s, o);
    PurgePlaced(s, o);
  }

  lemma UnlinkedTwice(ps: seq<Pcb>, d: set<Proc>, e: set<Proc>)
    ensures Unlinked(Unlinked(ps, d), e) == Unlinked(ps, d + e)
  {
    forall p | 0 <= p < |ps| ensures Unlinked(Unlinked(ps, d), e)[p] == Unlinked(ps, d + e)[p] {
      MinusMinus(ps[p].kids, d, e);
    }
  }

  lemma MinusAllTwice(m: Blocked, d: set<Proc>, e: set<Proc>)
    ensures MinusAll(MinusAll(m, d), e) == MinusAll(m, d + e)
  {
    forall k | k in m ensures Minus(Minus(m[k], d), e) == Minus(m[k], d + e) { MinusMinus(m[k], d, e); }
  }

  lemma SweepTwice(cur: seq<Option<Proc>>, due: set<nat>, d: set<Proc>, e: set<Proc>)
    ensures Sweep(Sweep(cur, d), e) == Sweep(cur, d + e)
    ensures Strays(cur, due, d) + Strays(Sweep(cur, d), due, e) == Strays(cur, due, d + e)
  {
  }

  lemma ElemsPlus(a: seq<Proc>, b: seq<Proc>)
    ensures Elems(a + b) == Elems(a) + Elems(b)
  {
  }

  /** Freeing one batch and then another is freeing both. */
  lemma PurgePurge(s: State, a: seq<Proc>, b: seq<Proc>)
    ensures Purge(Purge(s, a), b) == Purge(s, a + b)
  {
    var d, e := Elems(a), Elems(b);
    ElemsPlus(a, b);
    UnlinkedTwice(s.pcbs, d, e);
    MinusMinus(s.ready, d, e);
    MinusAllTwice(s.asl, d, e);
    SweepTwice(s.cur, s.due, d, e);
    UnionTwice(s.adrift, Strays(s.cur, s.due, d), Strays(Sweep(s.cur, d), s.due, e));
    AppendTwice(s.free, a, b);
  }

  lemma UnionTwice(a: set<nat>, b: set<nat>, c: set<nat>)
    ensures a + b + c == a + (b + c)
  {
  }

  lemma AppendTwice(a: seq<Proc>, b: seq<Proc>, c: seq<Proc>)
    ensures a + b + c == a + (b + c)
  {
  }

  // ---------------------------------------------------------------------------------------------
  // What the recursion frees may be freed

  lemma BelowLive(s: State, a: Proc, p: Proc)
    requires Family(s) && Live(s, a) && p < |s.pcbs| && Ancestor(s.pcbs, s.nextPid, a, p)
    ensures Live(s, p)
  {
  }

  lemma DoomedLive(s: State, ks: seq<Proc>, p: Proc)
    requires Family(s) && ByAge(s.pcbs, ks) && (forall k | k in ks :: Live(s, k))
    requires p in Doomed(s.pcbs, s.nextPid, ks)
    ensures Live(s, p)
  {
    DoomedExact(s.pcbs, s.nextPid, ks, p);
    var i :| 0 <= i < |ks| && Ancestor(s.pcbs, s.nextPid, ks[i], p);
    BelowLive(s, ks[i], p);
  }

  lemma DoomedDoomable(s: State, ks: seq<Proc>)
    requires Family(s) && ByAge(s.pcbs, ks) && Siblings(s.pcbs, ks) && forall k | k in ks :: Live(s, k)
    ensures Doomable(s, Doomed(s.pcbs, s.nextPid, ks))
  {
    DoomedOnce(s.pcbs, s.nextPid, ks);
    forall p | p in Doomed(s.pcbs, s.nextPid, ks) ensures Live(s, p) { DoomedLive(s, ks, p); }
    forall p, k | p in Doomed(s.pcbs, s.nextPid, ks) && k in s.pcbs[p].kids
      ensures k in Doomed(s.pcbs, s.nextPid, ks)
    {
      DoomedClosed(s.pcbs, s.nextPid, ks, p, k);
    }
  }

  /** The children of t from the i-th on. */
  lemma KidsFrom(s: State, t: Proc, i: nat)
    requires Family(s) && t < |s.pcbs| && i <= |s.pcbs[t].kids|
    ensures ByAge(s.pcbs, s.pcbs[t].kids[i..]) && Siblings(s.pcbs, s.pcbs[t].kids[i..])
    ensures forall k | k in s.pcbs[t].kids[i..] :: Live(s, k) && s.pcbs[k].parent == Some(t)
  {
    KidsAreSiblings(s.pcbs, s.nextPid, t);
    assert ByAge(s.pcbs, s.pcbs[t].kids);
    SuffixOf(s.pcbs, s.pcbs[t].kids, i);
    forall k | k in s.pcbs[t].kids[i..] ensures Live(s, k) && s.pcbs[k].parent == Some(t) { assert k in s.pcbs[t].kids; }
  }

  lemma SuffixOf(ps: seq<Pcb>, ks: seq<Proc>, i: nat)
    requires ByAge(ps, ks) && Siblings(ps, ks) && i <= |ks|
    ensures ByAge(ps, ks[i..]) && Siblings(ps, ks[i..])
  {
  }

  /** Doomed applies to the children of t from the i-th on. */
  ghost function DoomedKids(s: State, t: Proc, i: nat): seq<Proc>
    requires Core(s) && t < |s.pcbs| && i <= |s.pcbs[t].kids|
  {
    KidsFrom(s, t, i);
    Doomed(s.pcbs, s.nextPid, s.pcbs[t].kids[i..])
  }

  lemma KidsDoomable(s: State, t: Proc, i: nat)
    requires Core(s) && t < |s.pcbs| && i <= |s.pcbs[t].kids|
    ensures Doomable(s, DoomedKids(s, t, i))
    ensures forall k | k in s.pcbs[t].kids[i..] :: k in DoomedKids(s, t, i)
    ensures forall p | p in DoomedKids(s, t, i) :: p < |s.pcbs| && p != t && s.pcbs[t].pid < s.pcbs[p].pid
  {
    var ks := s.pcbs[t].kids[i..];
    KidsFrom(s, t, i);
    DoomedDoomable(s, ks);
    forall k | k in ks ensures k in DoomedKids(s, t, i) { OwnDoom(s, ks, k); }
    forall p | p in DoomedKids(s, t, i) ensures p < |s.pcbs| && s.pcbs[t].pid < s.pcbs[p].pid {
      DoomedYounger(s, t, ks, p);
    }
  }

  lemma OwnDoom(s: State, ks: seq<Proc>, k: Proc)
    requires Tree(s.pcbs, s.nextPid) && ByAge(s.pcbs, ks) && k in ks
    ensures k in Doomed(s.pcbs, s.nextPid, ks)
  {
  }

  lemma DoomedYounger(s: State, t: Proc, ks: seq<Proc>, p: Proc)
    requires Tree(s.pcbs, s.nextPid) && t < |s.pcbs| && ByAge(s.pcbs, ks)
    requires forall k | k in ks :: k < |s.pcbs| && s.pcbs[k].parent == Some(t)
    requires p in Doomed(s.pcbs, s.nextPid, ks)
    ensures p < |s.pcbs| && s.pcbs[t].pid < s.pcbs[p].pid
  {
    DoomedExact(s.pcbs, s.nextPid, ks, p);
    var j :| 0 <= j < |ks| && Ancestor(s.pcbs, s.nextPid, ks[j], p);
    assert ks[j] in ks;
    AncestorIsOlder(s.pcbs, s.nextPid, ks[j], p);
  }

  // ---------------------------------------------------------------------------------------------
  // One call, step by step

  /** The statements that free a single process: outChild, the two out-of-queue searches, the count,
      freePcb and the sweep over the CPU slots. */
  function FreeOne(s: State, t: Proc): State
    requires t < |s.pcbs| && (s.pcbs[t].parent.Some? ==> s.pcbs[t].parent.value < |s.pcbs|)
  {
    s.(pcbs := OutChild(s.pcbs, t), ready := Without(s.ready, t), asl := Out(s.asl, s.pcbs[t].semAdd, t),
       count := s.count - 1, free := s.free + [t], cur := Sweep(s.cur, {t}),
       adrift := s.adrift + Strays(s.cur, s.due, {t}))
  }

  function OutChild(ps: seq<Pcb>, t: Proc): (r: seq<Pcb>)
    requires t < |ps| && (ps[t].parent.Some? ==> ps[t].parent.value < |ps|)
    ensures |r| == |ps|
  {
    match ps[t].parent
    case None => ps
    case Some(q) =>
      var ps1 := ps[q := ps[q].(kids := Without(ps[q].kids, t))];
      ps1[t := ps1[t].(parent := None)]
  }

  lemma OutChildIsUnlinked(ps: seq<Pcb>, bound: int, t: Proc, p: Proc)
    requires Tree(ps, bound) && t < |ps| && ps[t].kids == [] && p < |ps|
    requires ps[t].parent.Some? ==> ps[t].parent.value < |ps|
    ensures OutChild(ps, t)[p] == Unlinked(ps, {t})[p]
  {
    if ps[t].parent == Some(p) {
      assert ByAge(ps, ps[p].kids);
      WithoutIsMinus(ps[p].kids, t);
    } else {
      assert t !in ps[p].kids;
      MinusNone(ps[p].kids, {t});
    }
  }

  lemma QueueOut(s: State, t: Proc, k: Key)
    requires Lists(s) && t < |s.pcbs| && k in s.asl
    ensures Out(s.asl, s.pcbs[t].semAdd, t)[k] == Minus(s.asl[k], {t})
  {
    if k == s.pcbs[t].semAdd {
      WithoutIsMinus(s.asl[k], t);
    } else {
      assert t !in s.asl[k];
      MinusNone(s.asl[k], {t});
    }
  }

  lemma QueuesOut(s: State, t: Proc)
    requires Lists(s) && t < |s.pcbs|
    ensures Without(s.ready, t) == Purge(s, [t]).ready && Out(s.asl, s.pcbs[t].semAdd, t) == Purge(s, [t]).asl
  {
    assert Elems([t]) == {t};
    WithoutIsMinus(s.ready, t);
    forall k | k in s.asl ensures Out(s.asl, s.pcbs[t].semAdd, t)[k] == Minus(s.asl[k], {t}) { QueueOut(s, t, k); }
  }

  lemma PcbsOut(s: State, t: Proc)
    requires Core(s) && t < |s.pcbs| && s.pcbs[t].kids == []
    requires s.pcbs[t].parent.Some? ==> s.pcbs[t].parent.value < |s.pcbs|
    ensures OutChild(s.pcbs, t) == Unlinked(s.pcbs, {t})
  {
    forall p | 0 <= p < |s.pcbs| ensures OutChild(s.pcbs, t)[p] == Unlinked(s.pcbs, {t})[p] {
      OutChildIsUnlinked(s.pcbs, s.nextPid, t, p);
    }
  }

  lemma FreeOneIsPurge(s: State, t: Proc)
    requires Core(s) && t < |s.pcbs| && s.pcbs[t].kids == []
    requires s.pcbs[t].parent.Some? ==> s.pcbs[t].parent.value < |s.pcbs|
    ensures FreeOne(s, t) == Purge(s, [t])
  {
    assert Elems([t]) == {t};
    QueuesOut(s, t);
    PcbsOut(s, t);
  }

  /** After the call on the first child: its parent, the siblings and their subtrees are as they were. */
  lemma AfterChildren(s: State, q: Proc, i: nat, t: Proc) returns (s1: State)
    requires Core(s) && q < |s.pcbs| && i < |s.pcbs[q].kids| && s.pcbs[q].kids[i] == t && t < |s.pcbs|
    ensures s1 == Purge(s, DoomedKids(s, t, 0)) && Core(s1) && |s1.pcbs| == |s.pcbs|
    ensures s1.pcbs[q].kids == s.pcbs[q].kids && s1.pcbs[t].parent == Some(q) && s1.pcbs[t].kids == []
    ensures DoomedKids(s1, q, i + 1) == DoomedKids(s, q, i + 1)
  {
    var o := DoomedKids(s, t, 0);
    s1 := Purge(s, o);
    KidsDoomable(s, t, 0);
    PurgeCore(s, o);
    assert t in s.pcbs[q].kids;
    SiblingsStay(s, q, t);
    MinusNone(s.pcbs[q].kids, Elems(o));
    NoKidsLeft(s, t);
    TailUntouched(s, s1, q, i, t);
  }

  lemma SiblingsStay(s: State, q: Proc, t: Proc)
    requires Core(s) && q < |s.pcbs| && t in s.pcbs[q].kids && t < |s.pcbs|
    ensures forall k | k in s.pcbs[q].kids :: k !in DoomedKids(s, t, 0)
    ensures q !in DoomedKids(s, t, 0) && t !in DoomedKids(s, t, 0)
  {
    KidsDoomable(s, t, 0);
    forall k | k in s.pcbs[q].kids ensures k !in DoomedKids(s, t, 0) {
      if k in DoomedKids(s, t, 0) { NotOwnNephew(s, q, t, k); }
    }
  }

  /** A sibling of t is not below t. */
  lemma NotOwnNephew(s: State, q: Proc, t: Proc, k: Proc)
    requires Core(s) && q < |s.pcbs| && t in s.pcbs[q].kids && k in s.pcbs[q].kids && t < |s.pcbs|
    ensures k !in DoomedKids(s, t, 0)
  {
    assert s.pcbs[t].kids[0..] == s.pcbs[t].kids;
    SiblingNotBelow(s.pcbs, s.nextPid, q, t, k);
  }

  lemma NoKidsLeft(s: State, t: Proc)
    requires Core(s) && t < |s.pcbs|
    ensures Minus(s.pcbs[t].kids, Elems(DoomedKids(s, t, 0))) == []
  {
    KidsDoomable(s, t, 0);
    assert s.pcbs[t].kids[0..] == s.pcbs[t].kids;
    AllGone(s.pcbs[t].kids, Elems(DoomedKids(s, t, 0)));
  }

  lemma {:induction false} AllGone(q: seq<Proc>, d: set<Proc>)
    requires forall x | x in q :: x in d
    ensures Minus(q, d) == []
  {
    if q != [] {
      assert q[0] in q && forall x | x in q[1..] :: x in q;
      AllGone(q[1..], d);
    }
  }

  lemma TailUntouched(s: State, s1: State, q: Proc, i: nat, t: Proc)
    requires Core(s) && q < |s.pcbs| && i < |s.pcbs[q].kids| && s.pcbs[q].kids[i] == t && t < |s.pcbs|
    requires s1 == Purge(s, DoomedKids(s, t, 0)) && Core(s1) && s1.pcbs[q].kids == s.pcbs[q].kids
    ensures DoomedKids(s1, q, i + 1) == DoomedKids(s, q, i + 1)
  {
    var ks := s.pcbs[q].kids[i..];
    KidsFrom(s, q, i);
    KidsFrom(s, q, i + 1);
    KidsFrom(s1, q, i + 1);
    assert ks[0] == t && ks[1..] == s.pcbs[q].kids[i + 1..];
    KidsUntouched(s, s1, ks);
    DoomedFrame(s.pcbs, s.nextPid, s1.pcbs, s1.nextPid, ks[1..]);
  }

  /** The later siblings of ks[0], and all below them. */
  ghost function Later(s: State, ks: seq<Proc>): seq<Proc>
    requires Core(s) && ByAge(s.pcbs, ks) && ks != []
  {
    Doomed(s.pcbs, s.nextPid, ks[1..])
  }

  /** They keep their children when those below ks[0] go. */
  lemma KidsUntouched(s: State, s1: State, ks: seq<Proc>)
    requires Core(s) && ByAge(s.pcbs, ks) && Siblings(s.pcbs, ks) && ks != [] && ks[0] < |s.pcbs|
    requires s1 == Purge(s, DoomedKids(s, ks[0], 0))
    ensures forall p | p in Later(s, ks) && p < |s.pcbs| :: s1.pcbs[p].kids == s.pcbs[p].kids
  {
    hide Core, Later, DoomedKids, ByAge, Siblings;
    var o := DoomedKids(s, ks[0], 0);
    forall p | p in Later(s, ks) && p < |s.pcbs| ensures s1.pcbs[p].kids == s.pcbs[p].kids {
      forall k | k in s.pcbs[p].kids ensures k !in o { NotBothBranches(s, ks, p, k); }
      MinusNone(s.pcbs[p].kids, Elems(o));
    }
  }

  /** A child of a process below a later sibling is not below t. */
  lemma NotBothBranches(s: State, ks: seq<Proc>, p: Proc, k: Proc)
    requires Core(s) && ByAge(s.pcbs, ks) && Siblings(s.pcbs, ks) && ks != [] && ks[0] < |s.pcbs|
    requires p in Later(s, ks) && p < |s.pcbs| && k in s.pcbs[p].kids
    ensures k !in DoomedKids(s, ks[0], 0)
  {
    var ps, b, t := s.pcbs, s.nextPid, ks[0];
    DoomedClosed(ps, b, ks[1..], p, k);
    assert ps[t].kids[0..] == ps[t].kids;
    if k in DoomedKids(s, t, 0) {
      BelowKids(ps, b, t, k);
      NotBelowTail(ps, b, ks, k);
    }
  }

  lemma DoomedUnfold(s: State, q: Proc, i: nat, t: Proc)
    requires Core(s) && q < |s.pcbs| && i < |s.pcbs[q].kids| && s.pcbs[q].kids[i] == t && t < |s.pcbs|
    ensures DoomedKids(s, q, i) == DoomedKids(s, t, 0) + DoomedKids(s, q, i + 1) + [t]
  {
  }

  /** After the second recursive call only t itself is left to free. */
  lemma AfterSiblings(s: State, q: Proc, i: nat, t: Proc) returns (s2: State)
    requires Core(s) && q < |s.pcbs| && i < |s.pcbs[q].kids| && s.pcbs[q].kids[i] == t && t < |s.pcbs|
    ensures s2 == Purge(Purge(s, DoomedKids(s, t, 0)), DoomedKids(s, q, i + 1)) && Core(s2)
    ensures |s2.pcbs| == |s.pcbs| && Live(s2, t) && s2.pcbs[t].parent == Some(q) && s2.pcbs[t].kids == []
    ensures FreeOne(s2, t) == Purge(s, DoomedKids(s, q, i))
  {
    var s1 := AfterChildren(s, q, i, t);
    s2 := AloneLeft(s1, q, i, t);
    DoomedUnfold(s, q, i, t);
    PurgePurge(s, DoomedKids(s, t, 0), DoomedKids(s, q, i + 1));
    PurgePurge(s, DoomedKids(s, t, 0) + DoomedKids(s, q, i + 1), [t]);
  }

  /** A childless t, when its later siblings and all below them go. */
  lemma AloneLeft(s1: State, q: Proc, i: nat, t: Proc) returns (s2: State)
    requires Core(s1) && q < |s1.pcbs| && i < |s1.pcbs[q].kids| && s1.pcbs[q].kids[i] == t && t < |s1.pcbs|
    requires s1.pcbs[t].parent == Some(q) && s1.pcbs[t].kids == []
    ensures s2 == Purge(s1, DoomedKids(s1, q, i + 1)) && Core(s2) && |s2.pcbs| == |s1.pcbs|
    ensures Live(s2, t) && s2.pcbs[t].parent == Some(q) && s2.pcbs[t].kids == [] && FreeOne(s2, t) == Purge(s2, [t])
  {
    var o := DoomedKids(s1, q, i + 1);
    KidsDoomable(s1, q, i + 1);
    PurgeCore(s1, o);
    s2 := Purge(s1, o);
    NotInTail(s1, q, i, t);
    FreeOneIsPurge(s2, t);
  }

  /** t is not below its later siblings. */
  lemma NotInTail(s: State, q: Proc, i: nat, t: Proc)
    requires Core(s) && q < |s.pcbs| && i < |s.pcbs[q].kids| && s.pcbs[q].kids[i] == t && t < |s.pcbs|
    ensures t !in DoomedKids(s, q, i + 1)
  {
    var ks := s.pcbs[q].kids[i..];
    KidsFrom(s, q, i);
    assert ks[0] == t && ks[1..] == s.pcbs[q].kids[i + 1..];
    assert Ancestor(s.pcbs, s.nextPid, t, t);
    NotBelowTail(s.pcbs, s.nextPid, ks, t);
  }

  // ---------------------------------------------------------------------------------------------
  // terminateProcess

  /** findPcb finds t for this pid. */
  predicate Found(s: State, pid: int, t: Proc) {
    t < |s.pcbs| && s.pcbs[t].pid == pid && (t in s.ready || IsBlocked(s, t))
  }

  /** terminateProcess(pid), called on CPU c, is about t. */
  predicate Targets(s: State, c: nat, pid: int, t: Proc) {
    c < |s.cur| && if pid == 0 then s.cur[c] == Some(t) else Found(s, pid, t)
  }

  lemma TargetLive(s: State, c: nat, pid: int, t: Proc)
    requires Core(s) && Targets(s, c, pid, t)
    ensures Live(s, t)
  {
  }

  /** A pid names at most one target. */
  lemma OneTarget(s: State, c: nat, pid: int, t: Proc, u: Proc)
    requires Core(s) && Targets(s, c, pid, t) && Targets(s, c, pid, u)
    ensures t == u
  {
    if pid != 0 {
      assert Live(s, t) && Live(s, u);
      OnePid(s, t, u);
    }
  }

  /** Pid 0 names the process in the caller's slot, and any other pid the live process that has it, unless a CPU
      executes that one: the search does not look there. */
  lemma TargetIff(s: State, c: nat, pid: int, t: Proc)
    requires Inv(s) && c < |s.cur|
    ensures pid == 0 ==> (Targets(s, c, pid, t) <==> s.cur[c] == Some(t))
    ensures pid != 0 ==> (Targets(s, c, pid, t) <==> Live(s, t) && s.pcbs[t].pid == pid && !IsRunning(s, t))
  {
  }

  /** So there is a target exactly if such a process lives. */
  lemma TargetExistsIff(s: State, c: nat, pid: int)
    requires Inv(s) && c < |s.cur| && pid != 0
    ensures (exists t: Proc :: Targets(s, c, pid, t)) <==>
            exists p: Proc :: Live(s, p) && s.pcbs[p].pid == pid && !IsRunning(s, p)
  {
    if t: Proc :| Targets(s, c, pid, t) { TargetIff(s, c, pid, t); }
    if p: Proc :| Live(s, p) && s.pcbs[p].pid == pid && !IsRunning(s, p) { TargetIff(s, c, pid, p); }
  }

  /** The processes that terminateProcess frees, in order. */
  ghost function Order(s: State, t: Proc): seq<Proc>
    requires Core(s) && t < |s.pcbs|
  {
    Subtree(s.pcbs, s.nextPid, t)
  }

  ghost function Terminate(s: State, t: Proc): State
    requires Core(s) && t < |s.pcbs|
  {
    Purge(s, Order(s, t))
  }

  lemma OrderDoomable(s: State, t: Proc)
    requires Core(s) && Live(s, t)
    ensures Doomable(s, Order(s, t))
    ensures Order(s, t) == DoomedKids(s, t, 0) + [t]
  {
    var d := DoomedKids(s, t, 0);
    assert s.pcbs[t].kids[0..] == s.pcbs[t].kids;
    KidsDoomable(s, t, 0);
    NoDupSnoc(d, t);
    assert forall k | k in s.pcbs[t].kids :: k in d;
  }

  /** After the call on the first child, if there is one, only t itself is left to free. */
  lemma AfterSubtree(s: State, t: Proc) returns (s1: State)
    requires Core(s) && Live(s, t)
    ensures s1 == Purge(s, DoomedKids(s, t, 0)) && Core(s1) && Live(s1, t) && s1.pcbs[t].kids == []
    ensures s1.pcbs[t].parent.Some? ==> s1.pcbs[t].parent.value < |s1.pcbs|
    ensures FreeOne(s1, t) == Terminate(s, t)
  {
    var o := DoomedKids(s, t, 0);
    s1 := Purge(s, o);
    KidsDoomable(s, t, 0);
    PurgeCore(s, o);
    PurgeLive(s, o);
    NoKidsLeft(s, t);
    FreeOneIsPurge(s1, t);
    OrderDoomable(s, t);
    PurgePurge(s, o, [t]);
  }

  lemma NothingDoomed(s: State, t: Proc)
    requires Core(s) && t < |s.pcbs| && s.pcbs[t].kids == []
    ensures DoomedKids(s, t, 0) == [] && Purge(s, []) == s
  {
    PurgeNobody(s);
  }

  lemma PurgeNobody(s: State)
    ensures Purge(s, []) == s
  {
    var s' := Purge(s, []);
    MinusNone(s.ready, Elems([]));
    forall k | k in s.asl ensures s'.asl[k] == s.asl[k] { MinusNone(s.asl[k], Elems([])); }
    forall p | 0 <= p < |s.pcbs| ensures s'.pcbs[p] == s.pcbs[p] { MinusNone(s.pcbs[p].kids, Elems([])); }
    assert s'.pcbs == s.pcbs && s'.asl == s.asl && s'.cur == s.cur && Strays(s.cur, s.due, Elems([])) == {};
  }

  /** terminateProcess on CPU c, up to the scheduler call that ends it: the caller's CPU is not adrift. */
  ghost function Kill(s: State, c: nat, t: Proc): State
    requires Core(s) && t < |s.pcbs|
  {
    Terminate(s, t).(adrift := Terminate(s, t).adrift - {c})
  }

  /** outBlockedPID unlinks the target before anything else happens; in the end that makes no difference. */
  lemma UnlinkedFirst(s: State, t: Proc)
    requires Core(s) && Live(s, t)
    ensures var s0 := s.(asl := Out(s.asl, s.pcbs[t].semAdd, t));
      Core(s0) && Live(s0, t) && Terminate(s0, t) == Terminate(s, t)
  {
    var k := s.pcbs[t].semAdd;
    var s0 := s.(asl := Out(s.asl, k, t));
    UnlinkedCore(s, s0, t);
    OrderDoomable(s, t);
    UnlinkedQueues(s, t, Order(s, t));
  }

  lemma UnlinkedQueues(s: State, t: Proc, o: seq<Proc>)
    requires Lists(s) && t < |s.pcbs| && t in o
    ensures Purge(s.(asl := Out(s.asl, s.pcbs[t].semAdd, t)), o) == Purge(s, o)
  {
    hide Lists;
    var m := Out(s.asl, s.pcbs[t].semAdd, t);
    forall k | k in s.asl ensures Minus(m[k], Elems(o)) == Minus(s.asl[k], Elems(o)) {
      QueueOut(s, t, k);
      MinusMinus(s.asl[k], {t}, Elems(o));
      assert {t} + Elems(o) == Elems(o);
    }
    assert MinusAll(m, Elems(o)) == MinusAll(s.asl, Elems(o));
  }

  lemma UnlinkedCore(s: State, s0: State, t: Proc)
    requires Core(s) && t < |s.pcbs| && s0 == s.(asl := Out(s.asl, s.pcbs[t].semAdd, t))
    ensures Core(s0) && (forall p: Proc :: Live(s0, p) <==> Live(s, p))
  {
    forall j | j in s.asl ensures NoDup(s0.asl[j]) && forall p | p in s0.asl[j] :: p in s.asl[j] {
      QueueOut(s, t, j);
      MinusNoDup(s.asl[j], {t});
    }
    SameFamily(s, s0);
    SamePids(s, s0);
  }

  /** Exactly the target and its descendants are gone, each freed once; everybody else stays where they
      were, in the same order, and the count falls by the number of the dead. */
  lemma TerminateExact(s: State, t: Proc)
    requires Inv(s) && Live(s, t)
    ensures var s' := Terminate(s, t);
      && Inv(s')
      && (forall p: Proc :: Live(s', p) <==> Live(s, p) && !Ancestor(s.pcbs, s.nextPid, t, p))
      && (forall p: Proc | Live(s', p) :: (p in s'.ready <==> p in s.ready) && (IsBlocked(s', p) <==> IsBlocked(s, p))
                                          && (IsRunning(s', p) <==> IsRunning(s, p)))
      && s'.count == s.count - |s'.free| + |s.free|
      && s.free <= s'.free && NoDup(s'.free[|s.free|..])
      && (forall p: Proc | p < |s.pcbs| :: p in s'.free[|s.free|..] <==> Ancestor(s.pcbs, s.nextPid, t, p))
      && s'.ready == Minus(s.ready, Elems(s'.free[|s.free|..]))
      && s'.sem == s.sem && s'.asl.Keys == s.asl.Keys
      && (forall k | k in s.asl :: s'.asl[k] == Minus(s.asl[k], Elems(s'.free[|s.free|..])))
      && InOrder(s.pcbs, s.nextPid, s'.free[|s.free|..])
  {
    SubtreeInOrder(s.pcbs, s.nextPid, t);
    var o, s' := Order(s, t), Terminate(s, t);
    OrderDoomable(s, t);
    PurgeLive(s, o);
    PurgeInv(s, o);
    PurgePlaces(s, o);
    assert s'.free[|s.free|..] == o;
    forall p: Proc | p < |s.pcbs| ensures p in o <==> Ancestor(s.pcbs, s.nextPid, t, p) {
      SubtreeExact(s.pcbs, s.nextPid, t, p);
    }
  }

  /** Slots that name the target or a descendant are NULL now, and the CPUs that executed these are adrift. */
  lemma TerminateSlots(s: State, t: Proc, d: nat)
    requires Core(s) && Live(s, t) && d < |s.cur|
    ensures Slot(s, d)
    ensures Terminate(s, t).cur[d] ==
            if s.cur[d].Some? && Ancestor(s.pcbs, s.nextPid, t, s.cur[d].value) then None else s.cur[d]
    ensures d in Terminate(s, t).adrift <==>
            d in s.adrift || (Active(s, d) && Ancestor(s.pcbs, s.nextPid, t, s.cur[d].value))
  {
    if s.cur[d].Some? { SubtreeExact(s.pcbs, s.nextPid, t, s.cur[d].value); }
  }

  lemma PurgePlaces(s: State, o: seq<Proc>)
    requires Doomable(s, o)
    ensures var s' := Purge(s, o); forall p: Proc | Live(s', p) ::
      (p in s'.ready <==> p in s.ready) && (IsBlocked(s', p) <==> IsBlocked(s, p)) && (IsRunning(s', p) <==> IsRunning(s, p))
  {
    var s' := Purge(s, o);
    PurgeLive(s, o);
    forall p: Proc | Live(s', p) ensures IsRunning(s', p) <==> IsRunning(s, p) {
      if i :| 0 <= i < |s.cur| && s.cur[i] == Some(p) && i !in s.due { assert s'.cur[i] == Some(p); }
      if i :| 0 <= i < |s'.cur| && s'.cur[i] == Some(p) && i !in s.due { assert s.cur[i] == Some(p); }
    }
  }
}
