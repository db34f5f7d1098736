/** Everything that hangs on p_list: the free list, the ready queue and the semaphore queues, with the children lists,
    as one family of circular lists; and the tables and queues it stands for. */
module Stores {
  import opened Basics
  import opened ListX
  import opened Pcbs
  import opened PcbShapes
  import opened PcbPools
  import opened AslSpec
  import opened AslShapes
  import opened Asls
  import ProcessTree
  import NucleusState
  import Termination

  /** The table position of the entry that a link is part of. */
  function Number(l: ListHead): Proc {
    match l.place
    case PList(i) => i
    case PChild(i) => i
    case PSib(i) => i
    case _ => 0
  }

  function Numbers(s: seq<ListHead>): (r: seq<Proc>)
    ensures |r| == |s| && forall i | 0 <= i < |s| :: r[i] == Number(s[i])
  {
    seq(|s|, i requires 0 <= i < |s| => Number(s[i]))
  }

  function Id(p: Pcb?): Option<Proc> {
    if p == null then None else Some(Number(p.list))
  }

  /** In es, entry n becomes the youngest child of q, if there is a q. */
  ghost predicate ChildAdded(es: seq<ProcessTree.Pcb>, es': seq<ProcessTree.Pcb>, q: Option<Proc>, n: Proc) {
    && n < |es| && (q.Some? ==> q.value < |es|)
    && es' == NucleusState.InsertChild(es[n := es[n].(parent := q)], q, n)
  }

  /** In es, entry n is reset and becomes the youngest child of q, if there is a q. */
  ghost predicate ChildBorn(es: seq<ProcessTree.Pcb>, es': seq<ProcessTree.Pcb>, q: Option<Proc>, n: Proc, pid: int) {
    && n < |es| && (q.Some? ==> q.value < |es|)
    && es' == NucleusState.InsertChild(es[n := ProcessTree.Pcb(q, [], 0, pid)], q, n)
  }

  lemma BornIsAdded(es: seq<ProcessTree.Pcb>, es1: seq<ProcessTree.Pcb>, es': seq<ProcessTree.Pcb>, q: Option<Proc>,
                    n: Proc, pid: int)
    requires n < |es| && es1 == es[n := ProcessTree.Pcb(None, [], 0, pid)] && ChildAdded(es1, es', q, n)
    ensures ChildBorn(es, es', q, n, pid)
  {
    assert es1[n := es1[n].(parent := q)] == es[n := ProcessTree.Pcb(q, [], 0, pid)];
  }

  /** In es, entry n leaves its parent, if it has one. */
  ghost predicate ChildOut(es: seq<ProcessTree.Pcb>, es': seq<ProcessTree.Pcb>, n: Proc) {
    && n < |es| && (es[n].parent.Some? ==> es[n].parent.value < |es|)
    && es' == Termination.OutChild(es, n)
  }

  /** In es, entry n has this p_semAdd. */
  ghost predicate SemAddSet(es: seq<ProcessTree.Pcb>, es': seq<ProcessTree.Pcb>, k: Key, n: Proc) {
    n < |es| && es' == es[n := es[n].(semAdd := k)]
  }

  /** What a store is made of. */
  ghost function Objects(pool: PcbPool, asl: Asl, queue: ListHead): set<object> {
    {pool, asl, queue} + (set p | p in pool.table :: p as object) + (set d | d in asl.table :: d as object)
    + (set l | l in pool.Heads() :: l as object) + (set l | l in asl.Heads() :: l as object)
  }

  /** The static storage. */
  ghost predicate Static(pool: PcbPool, asl: Asl, queue: ListHead)
    reads pool, asl, pool.table
  {
    && Table(pool.table) && pool.freeHead.place == PcbFreeHead && pool.nextPid == 1
    && pool.up.Keys == (set p | p in pool.table)
    && (forall p | p in pool.table :: p.parent == null && pool.up[p] == null && p.semAdd == 0 && p.pid == 0)
    && SemdTable(asl.table) && asl.freeHead.place == SemdFreeHead && asl.activeHead.place == SemdHead
    && asl.pcbs == pool.table && |asl.table| == |pool.table| && queue.place.QueueHead?
  }

  class Store {
    const pool: PcbPool
    const asl: Asl
    const queue: ListHead            // ReadyQueue
    ghost var ready: seq<ListHead>
    ghost const repr: set<object>    // everything that the methods may write

    ghost predicate Owned() {
      && this in repr && pool in repr && asl in repr && (forall p | p in pool.table :: p in repr)
      && (forall d | d in asl.table :: d in repr) && (forall l | l in Heads() :: l in repr)
    }

    lemma Owns()
      requires Valid()
      ensures Owned()
    {
    }

    ghost function ReadyFam(): Family
      reads this
    {
      var none: Family := map[];
      none[queue := ready]
    }

    ghost predicate IsFree(p: Pcb)
      reads pool
    {
      pool.freeHead in pool.fam && p.list in pool.fam[pool.freeHead]
    }

    /** p_list is in use for one purpose at most. */
    ghost predicate OneUse(p: Pcb)
      reads this, pool, asl
    {
      && !(IsFree(p) && p.list in ready) && !(IsFree(p) && asl.Waits(Number(p.list)))
      && !(p.list in ready && asl.Waits(Number(p.list)))
    }

    /** p_list is not in use. */
    ghost predicate Loose(p: Pcb)
      reads this, pool, asl
    {
      !IsFree(p) && p.list !in ready && !asl.Waits(Number(p.list))
    }

    /** Which table and which kind of list. */
    ghost predicate Typed()
      reads this, asl
    {
      && Table(pool.table) && asl.pcbs == pool.table && |asl.table| == |pool.table|
      && queue.place.QueueHead? && OfProcs(pool.table, ready)
    }

    /** No entry is on two queues, and entries in use have a children list. */
    ghost predicate Joint()
      reads this, pool, asl
    {
      && (forall p | p in pool.table :: OneUse(p))
      && (forall p | p in pool.table && !IsFree(p) :: p.child in pool.fam)
    }

    ghost predicate Valid()
      reads this, pool, asl, pool.table
      reads Nodes(pool.fam)`next, Nodes(pool.fam)`prev, Nodes(ReadyFam())`next, Nodes(ReadyFam())`prev
      reads asl.activeHead`next, Nodes(asl.v.fam)`next, Nodes(asl.v.fam)`prev, (set d | d in asl.v.active)`key
      reads (set l | l in Links(asl.v.active))`next, (set p | p in asl.v.pcbs)`semAdd
    {
      pool.Valid() && asl.Valid() && Rings(ReadyFam()) && Typed() && Joint() && Owned()
    }

    /** All list heads of phase1 and the ready queue. */
    ghost function Heads(): set<ListHead> {
      pool.Heads() + asl.Heads() + {queue}
    }

    // -------------------------------------------------------------------------------------------
    // What it stands for

    ghost function Kids(p: Pcb): seq<Proc>
      reads pool
    {
      if p.child in pool.fam then Numbers(pool.fam[p.child]) else []
    }

    ghost function Entry(p: Pcb): ProcessTree.Pcb
      reads pool, p
    {
      ProcessTree.Pcb(Id(p.parent), Kids(p), p.semAdd, p.pid)
    }

    ghost function Entries(): (r: seq<ProcessTree.Pcb>)
      reads pool, pool.table
      ensures |r| == |pool.table| && forall i | 0 <= i < |r| :: r[i] == Entry(pool.table[i])
    {
      seq(|pool.table|, i requires 0 <= i < |pool.table| reads pool, pool.table => Entry(pool.table[i]))
    }

    ghost function Free(): seq<Proc>
      reads pool
    {
      if pool.freeHead in pool.fam then Numbers(pool.fam[pool.freeHead]) else []
    }

    ghost function Ready(): seq<Proc>
      reads this
    {
      Numbers(ready)
    }

    /** Process table, free list and pid counter are as they were. */
    twostate predicate SamePool()
      reads pool, pool.table
    {
      && Entries() == old(Entries()) && Free() == old(Free()) && pool.nextPid == old(pool.nextPid)
      && (forall p | p in pool.table :: IsFree(p) == old(IsFree(p)) && p.parent == old(p.parent) && p.pid == old(p.pid))
    }

    // -------------------------------------------------------------------------------------------
    // One family

    lemma Owner(p: Pcb)
      requires Table(pool.table) && p in pool.table
      ensures p.list.place.PList? && Number(p.list) < |pool.table| && pool.table[Number(p.list)] == p
    {
    }

    /** l is the p_list of a table entry. */
    ghost predicate IsLink(l: ListHead) {
      l.place.PList? && l.place.pcb < |pool.table| && pool.table[l.place.pcb].list == l
    }

    /** What the nodes of the three parts are: only p_list links could be shared. */
    lemma NodeUse(x: ListHead)
      requires Valid()
      ensures x in Nodes(pool.fam) ==>
                if x.place.PList? then IsLink(x) && IsFree(pool.table[x.place.pcb])
                else x.place.PcbFreeHead? || x.place.PChild? || x.place.PSib?
      ensures x in Nodes(asl.v.fam) ==>
                if x.place.PList? then IsLink(x) && asl.Waits(x.place.pcb)
                else x.place.SemdFreeHead? || x.place.SLink? || x.place.SProcq?
      ensures x in Nodes(ReadyFam()) ==> x == queue || (x.place.PList? && IsLink(x) && x in ready)
    {
      hide Rings, Asl.Stored, Children, Adopted, FreeAlone;
      pool.OwnNodes();
      asl.OwnNodes();
      if x in Nodes(asl.v.fam) && x.place.PList? { asl.WaiterUse(pool.table[x.place.pcb]); }
      if x in Nodes(ReadyFam()) { assert x in Cycle(queue, ready); }
    }

    lemma NotShared(x: ListHead)
      requires Valid()
      ensures x in Nodes(pool.fam) ==> x !in Nodes(asl.v.fam) && x !in Nodes(ReadyFam())
      ensures x in Nodes(asl.v.fam) ==> x !in Nodes(ReadyFam())
    {
      hide Rings, Asl.Valid, PcbPool.Valid;
      NodeUse(x);
      if IsLink(x) { assert OneUse(pool.table[x.place.pcb]); }
    }

    /** The three parts share no node, and the chain of active semaphores is in none of them. */
    ghost predicate Parted()
      reads this, pool, asl
    {
      && (forall x | x in Nodes(pool.fam) :: x in Heads() && x !in Nodes(asl.v.fam) && x !in Nodes(ReadyFam()))
      && (forall x | x in Nodes(asl.v.fam) ::
            !x.place.PChild? && !x.place.PSib? && x in Heads() && x !in Nodes(ReadyFam()))
      && (forall x | x in Nodes(ReadyFam()) :: !x.place.PChild? && !x.place.PSib? && x in Heads())
      && (forall l | l in [asl.activeHead] + Links(asl.v.active) ::
            !l.place.PList? && !l.place.PChild? && !l.place.PSib? && l in Heads()
            && l !in Nodes(pool.fam) && l !in Nodes(asl.v.fam) && l !in Nodes(ReadyFam()))
    }

    lemma Disjoint()
      requires Valid()
      ensures Parted()
    {
      hide Valid;
      forall x | x in Nodes(pool.fam) ensures x !in Nodes(asl.v.fam) && x !in Nodes(ReadyFam()) { NotShared(x); }
      forall x | x in Nodes(asl.v.fam) ensures !x.place.PChild? && !x.place.PSib? && x !in Nodes(ReadyFam()) {
        NotShared(x);
        NodeUse(x);
      }
      QueueUse();
      ChainUse();
      NodesKnown();
    }

    lemma QueueUse()
      requires Valid()
      ensures forall x | x in Nodes(ReadyFam()) :: !x.place.PChild? && !x.place.PSib?
    {
      hide Asl.Valid, PcbPool.Valid, Rings;
      ReadyNodes();
    }

    lemma ChainUse()
      requires Valid()
      ensures forall l | l in [asl.activeHead] + Links(asl.v.active) ::
                !l.place.PList? && !l.place.PChild? && !l.place.PSib? && l in Heads()
                && l !in Nodes(pool.fam) && l !in Nodes(asl.v.fam) && l !in Nodes(ReadyFam())
    {
      hide Rings, Asl.Stored;
      ChainApart(asl.v);
      asl.LinksAreHeads(asl.v);
      forall l | l in Links(asl.v.active) || l == asl.activeHead
        ensures l !in Nodes(pool.fam) && l !in Nodes(ReadyFam())
      {
        NodeUse(l);
      }
    }

    lemma NodesKnown()
      requires Valid()
      ensures forall x | x in Nodes(pool.fam) || x in Nodes(asl.v.fam) || x in Nodes(ReadyFam()) :: x in Heads()
    {
      hide Rings, Asl.Stored;
      pool.OwnNodes();
      asl.OwnNodes();
    }

    lemma ReadyNodes()
      ensures forall x :: x in Nodes(ReadyFam()) <==> x in Cycle(queue, ready)
    {
      assert queue in ReadyFam() && ReadyFam()[queue] == ready;
      forall x | x in Cycle(queue, ready) ensures x in Nodes(ReadyFam()) { assert x in Cycle(queue, ReadyFam()[queue]); }
    }

    lemma LooseUse(p: Pcb)
      requires Valid() && p in pool.table
      ensures p.list.place.PList? && p.list in Heads()
      ensures Loose(p) <==> p.list !in Nodes(pool.fam) && p.list !in Nodes(asl.v.fam) && p.list !in Nodes(ReadyFam())
    {
      hide Rings, Asl.Stored;
      Owner(p);
      ListUse(pool.table, pool.freeHead, pool.fam, pool.up, p);
      asl.WaiterUse(p);
      ReadyNodes();
    }

    // -------------------------------------------------------------------------------------------
    // The ready queue

    /** A queue with p at its end, which was nowhere. */
    twostate lemma JointReady(p: Pcb)
      requires old(Typed()) && old(Joint()) && p in pool.table && old(Loose(p))
      requires pool.fam == old(pool.fam) && asl.m == old(asl.m) && ready == old(ready) + [p.list]
      ensures Typed() && Joint()
    {
      Owner(p);
      forall q | q in pool.table ensures OneUse(q) {
        Owner(q);
        assert old(OneUse(q));
      }
    }

    /** The nodes that the ready queue has no business with. */
    ghost function OffQueue(): set<ListHead>
      reads pool, asl
    {
      Nodes(pool.fam) + Nodes(asl.v.fam) + (set l | l in [asl.activeHead] + Links(asl.v.active))
    }

    lemma QueueWrites()
      requires Parted()
      ensures OffQueue() !! Nodes(ReadyFam()) && forall x | x in Nodes(ReadyFam()) :: x in Heads()
    {
    }

    /** Pool and semaphore list have the links and the fields they had. */
    twostate lemma QueueOnly()
      requires old(Valid()) && pool.fam == old(pool.fam) && pool.up == old(pool.up) && asl.v == old(asl.v)
      requires asl.m == old(asl.m)
      requires Kept(old(OffQueue())) && forall d | d in asl.v.active :: d.key == old(d.key)
      requires forall p | p in pool.table :: p.parent == old(p.parent) && p.semAdd == old(p.semAdd)
      ensures pool.Valid() && asl.Valid()
    {
      hide Rings, Asl.Valid, PcbPool.Valid, Joint;
      assert forall l | l in old(Links(asl.v.active)) :: l in old(OffQueue());
      assert asl.activeHead in old(OffQueue());
      pool.StillValid();
      asl.StillValid();
    }

    method Enqueue(l: ListHead, ghost keep: set<ListHead>)
      requires Rings(ReadyFam()) && l !in Nodes(ReadyFam()) && keep !! Nodes(ReadyFam()) && l !in keep
      modifies `ready, l, Nodes(ReadyFam())
      ensures Rings(ReadyFam()) && ready == old(ready) + [l] && Kept(keep)
    {
      RingLinks(ReadyFam(), queue);
      ListAddTail(l, queue, ReadyFam());
      ready := ready + [l];
      assert ReadyFam() == old(ReadyFam())[queue := ready];
    }

    lemma LooseOffQueue(p: Pcb)
      requires Valid() && Parted() && p in pool.table && Loose(p)
      ensures p.list !in Nodes(ReadyFam()) && p.list !in OffQueue() && p.list in Heads()
    {
      hide Rings, Asl.Valid, PcbPool.Valid;
      LooseUse(p);
    }

    /** insertProcQ on the ready queue. */
    method InsertProcQ(p: Pcb)
      requires Valid() && p in pool.table && Loose(p)
      modifies repr
      ensures Valid() && SamePool() && asl.m == old(asl.m) && Ready() == old(Ready()) + [Number(p.list)]
    {
      hide Rings, Asl.Valid, PcbPool.Valid, Typed, Joint, ReadyFam, Loose, Parted, OffQueue, Nodes, Kept, Heads,
           Entries, Free;
      Disjoint();
      QueueWrites();
      LooseOffQueue(p);
      Enqueue(p.list, OffQueue());
      QueueOnly();
      JointReady(p);
    }

    /** A queue that lost some of its members. */
    twostate lemma JointShrinks()
      requires old(Typed()) && old(Joint()) && pool.fam == old(pool.fam) && asl.m == old(asl.m)
      requires forall l | l in ready :: l in old(ready)
      ensures Typed() && Joint()
    {
      forall q | q in pool.table ensures OneUse(q) { assert old(OneUse(q)); }
    }

    method Dequeue(ghost keep: set<ListHead>) returns (p: Pcb?)
      requires Rings(ReadyFam()) && Typed() && keep !! Nodes(ReadyFam())
      modifies `ready, Nodes(ReadyFam())
      ensures Kept(keep) && Rings(ReadyFam())
      ensures (p == null <==> old(Ready()) == []) && forall l | l in ready :: l in old(ready)
      ensures p == null ==> Ready() == old(Ready())
      ensures p != null ==>
        && p in pool.table && p.list in old(ready) && p.list !in ready
        && Number(p.list) == old(Ready())[0] && Ready() == old(Ready())[1..]
    {
      NoDupRing(ReadyFam(), queue);
      p := Pcbs.RemoveProcQ(pool.table, queue, ReadyFam());
      if p != null { ready := ready[1..]; }
      assert p != null ==> ReadyFam() == old(ReadyFam())[queue := ready];
    }

    /** emptyProcQ on the ready queue. */
    method EmptyProcQ() returns (b: bool)
      requires Valid()
      ensures Valid() && (b <==> Ready() == [])
    {
      RingLinks(ReadyFam(), queue);
      b := queue.next == queue;
    }

    /** removeProcQ on the ready queue. */
    method RemoveProcQ() returns (p: Pcb?)
      requires Valid()
      modifies repr
      ensures Valid() && SamePool() && asl.m == old(asl.m) && (p == null <==> old(Ready()) == [])
      ensures p == null ==> Ready() == old(Ready())
      ensures p != null ==>
        p in pool.table && Loose(p) && Number(p.list) == old(Ready())[0] && Ready() == old(Ready())[1..]
    {
      hide Rings, Asl.Valid, PcbPool.Valid, Typed, Joint, ReadyFam, Loose, Parted, OffQueue, Nodes, Kept, Heads,
           Entries, Free;
      Disjoint();
      QueueWrites();
      p := Dequeue(OffQueue());
      QueueOnly();
      JointShrinks();
      if p != null { WasReady(p); }
    }

    twostate lemma WasReady(p: Pcb)
      requires old(Joint()) && p in pool.table && p.list in old(ready) && p.list !in ready
      requires pool.fam == old(pool.fam) && asl.m == old(asl.m)
      ensures Loose(p)
    {
      assert old(OneUse(p));
    }

    /** A search by pid that finds t or nobody, on the ready queue. */
    method Unqueue(t: Pcb, ghost keep: set<ListHead>)
      requires Rings(ReadyFam()) && Typed() && keep !! Nodes(ReadyFam()) && t in pool.table && asl.OnlyOne(t.pid)
      modifies `ready, Nodes(ReadyFam())
      ensures Kept(keep) && Rings(ReadyFam()) && t.list !in ready && forall l | l in ready :: l in old(ready)
      ensures Ready() == Without(old(Ready()), Number(t.list))
    {
      Owner(t);
      ghost var s := ready;
      NoDupRing(ReadyFam(), queue);
      asl.PidIsIdentity(s, t);
      var out;
      ghost var k;
      out, k := Pcbs.OutProcQ(pool.table, queue, t, ReadyFam());
      NumbersWithout(s, t, if out == null then |s| else k);
      if out != null { ready := RemoveAt(s, k); }
      assert ReadyFam() == old(ReadyFam())[queue := ready];
    }

    /** Another link of a queue has another number. */
    lemma OtherNumber(l: ListHead, t: Pcb)
      requires Table(pool.table) && t in pool.table && OfProcs(pool.table, [l]) && l != t.list
      ensures Number(l) != Number(t.list)
    {
      Owner(t);
      assert l in [l];
    }

    lemma NumbersWithout(s: seq<ListHead>, t: Pcb, k: nat)
      requires OfProcs(pool.table, s) && Table(pool.table) && t in pool.table && k <= |s| && t.list !in s[..k]
      requires k < |s| ==> s[k] == t.list
      ensures Without(Numbers(s), Number(t.list)) == if k < |s| then Numbers(RemoveAt(s, k)) else Numbers(s)
    {
      hide Table, Number, Without;
      forall i | 0 <= i < k ensures Numbers(s)[..k][i] != Number(t.list) {
        assert s[i] in s && s[..k][i] == s[i];
        OtherNumber(s[i], t);
      }
      WithoutAt(Numbers(s), Number(t.list), k);
      if k < |s| { assert Numbers(RemoveAt(s, k)) == RemoveAt(Numbers(s), k); }
    }

    /** outProcQ on the ready queue. */
    method OutProcQ(t: Pcb)
      requires Valid() && t in pool.table && asl.OnlyOne(t.pid)
      modifies `ready, Heads()
      ensures Valid() && SamePool() && t.list !in ready && Ready() == Without(old(Ready()), Number(t.list))
    {
      hide Rings, Asl.Valid, PcbPool.Valid, Typed, Joint, ReadyFam, Loose, Parted, OffQueue, Nodes, Kept, Heads,
           Entries, Free;
      Disjoint();
      QueueWrites();
      Unqueue(t, OffQueue());
      QueueOnly();
      JointShrinks();
    }

    // -------------------------------------------------------------------------------------------
    // The pool

    /** The last free entry, now in use. */
    twostate lemma JointAlloc(p: Pcb)
      requires old(Typed()) && old(Joint()) && p in pool.table && ready == old(ready) && asl.m == old(asl.m)
      requires pool.freeHead in old(pool.fam) && old(pool.fam)[pool.freeHead] != []
      requires NoDup(old(pool.fam)[pool.freeHead])
      requires pool.freeHead.place == PcbFreeHead
      requires var s := old(pool.fam)[pool.freeHead]; var k := |s| - 1;
        p.list == s[k] && pool.fam == old(pool.fam)[pool.freeHead := RemoveAt(s, k)][p.child := []]
      ensures Typed() && Joint() && Loose(p) && !IsFree(p)
      ensures forall q | q in pool.table && !old(IsFree(q)) :: !IsFree(q)
      ensures old(Free()) == Free() + [Number(p.list)]
    {
      Owner(p);
      forall q | q in pool.table ensures OneUse(q) && (!IsFree(q) ==> q.child in pool.fam) {
        Owner(q);
        assert old(OneUse(q)) && (IsFree(q) ==> old(IsFree(q)));
      }
      assert old(OneUse(p)) && old(IsFree(p));
    }

    /** Its fields are reset, and no other entry's. */
    twostate lemma EntriesAlloc(p: Pcb)
      requires old(pool.Valid()) && pool.Valid() && pool.up == old(pool.up) && p in pool.table
      requires pool.freeHead in old(pool.fam) && pool.fam.Keys == old(pool.fam).Keys + {p.child}
      requires pool.fam[p.child] == []
      requires forall h | h in old(pool.fam) && h != pool.freeHead && h != p.child :: pool.fam[h] == old(pool.fam)[h]
      requires p.parent == null && p.semAdd == 0 && p.pid == old(pool.nextPid)
      requires forall q | q in pool.table && q != p :: q.semAdd == old(q.semAdd) && q.pid == old(q.pid)
      ensures Number(p.list) < |pool.table|
      ensures Entries() == old(Entries())[Number(p.list) := ProcessTree.Pcb(None, [], 0, old(pool.nextPid))]
    {
      hide Rings, Children, Adopted, FreeAlone;
      Owner(p);
      forall i | 0 <= i < |pool.table| && pool.table[i] != p ensures Entry(pool.table[i]) == old(Entry(pool.table[i])) {
        Owner(pool.table[i]);
        assert pool.up[pool.table[i]] == old(pool.up)[pool.table[i]];
      }
    }

    /** The nodes that the pool has no business with. */
    ghost function OffPool(): set<ListHead>
      reads this, asl
    {
      Nodes(asl.v.fam) + Nodes(ReadyFam()) + (set l | l in [asl.activeHead] + Links(asl.v.active))
    }

    lemma Strangers()
      requires Valid() && Parted()
      ensures pool.Foreign(OffPool())
    {
      hide Valid;
    }

    /** These nodes are as they were, and so are the fields that belong to them. */
    twostate predicate Undisturbed(keep: set<ListHead>)
      reads this, asl, (set d | d in asl.v.active)`key, (set p | p in pool.table)`semAdd, keep
    {
      && asl.v == old(asl.v) && asl.m == old(asl.m) && ready == old(ready) && Kept(keep)
      && (forall d | d in asl.v.active :: d.key == old(d.key))
      && (forall p | p in pool.table && p.list in old(Nodes(asl.v.fam)) :: p.semAdd == old(p.semAdd))
    }

    /** Then semaphore list and ready queue are. */
    twostate lemma PoolOnly()
      requires old(Valid()) && Undisturbed(old(OffPool()))
      ensures asl.Valid() && Rings(ReadyFam())
    {
      hide Rings, Asl.Valid, PcbPool.Valid, Joint;
      assert forall l | l in old(Links(asl.v.active)) :: l in old(OffPool());
      assert asl.activeHead in old(OffPool());
      asl.StillValid();
      SameRings(old(ReadyFam()));
      assert ReadyFam() == old(ReadyFam());
    }

    /** allocPcb leaves semaphore list and ready queue alone. */
    method TakeEntry() returns (p: Pcb?)
      requires Valid() && Parted()
      modifies pool, pool.table, Heads()
      ensures pool.Valid() && asl.Valid() && Rings(ReadyFam())
      ensures ready == old(ready) && asl.m == old(asl.m) && pool.up == old(pool.up)
      ensures pool.freeHead in old(pool.fam) && (p == null <==> old(pool.fam)[pool.freeHead] == [])
      ensures p == null ==> pool.fam == old(pool.fam) && pool.nextPid == old(pool.nextPid)
      ensures p == null ==>
        forall q | q in pool.table :: q.parent == old(q.parent) && q.semAdd == old(q.semAdd) && q.pid == old(q.pid)
      ensures p != null ==> pool.Taken(p)
    {
      hide Rings, Asl.Valid, PcbPool.Valid, ReadyFam, Typed, Joint, Parted, OffPool, Nodes, Kept, PcbPool.Foreign,
           Heads, PcbPool.Heads;
      Strangers();
      AllocWrites();
      p := pool.AllocPcb(OffPool());
      PoolOnly();
    }

    twostate lemma EntriesSame()
      requires pool.fam == old(pool.fam)
      requires forall q | q in pool.table :: q.parent == old(q.parent) && q.semAdd == old(q.semAdd) && q.pid == old(q.pid)
      ensures Entries() == old(Entries()) && Free() == old(Free())
      ensures forall p | p in pool.table :: IsFree(p) == old(IsFree(p))
    {
      forall i | 0 <= i < |pool.table| ensures Entry(pool.table[i]) == old(Entry(pool.table[i])) { }
    }

    /** allocPcb */
    method AllocPcb() returns (p: Pcb?)
      requires Valid()
      modifies repr
      ensures Valid() && ready == old(ready) && asl.m == old(asl.m) && (p == null <==> old(Free()) == [])
      ensures p == null ==> SamePool()
      ensures p != null ==>
        && p in pool.table && Loose(p) && !IsFree(p) && p.parent == null && p.pid == old(pool.nextPid)
        && (forall q | q in pool.table && !old(IsFree(q)) :: !IsFree(q))
        && pool.nextPid == old(pool.nextPid) + 1 && old(Free()) == Free() + [Number(p.list)]
        && Number(p.list) < |old(Entries())|
        && Entries() == old(Entries())[Number(p.list) := ProcessTree.Pcb(None, [], 0, old(pool.nextPid))]
    {
      hide Rings, Asl.Valid, PcbPool.Valid, ReadyFam, Typed, Joint, Parted, Entries, Loose, Nodes, Heads;
      Disjoint();
      pool.FreeOnce();
      p := TakeEntry();
      if p == null {
        JointShrinks();
        EntriesSame();
      } else {
        JointAlloc(p);
        EntriesAlloc(p);
      }
    }

    /** allocPcb, and then insertProcQ on the ready queue. */
    method AllocReady() returns (p: Pcb?)
      requires Valid()
      modifies repr
      ensures Valid() && (p == null <==> old(Free()) == []) && asl.m == old(asl.m)
      ensures p == null ==> SamePool() && Ready() == old(Ready())
      ensures p != null ==>
        && p in pool.table && !IsFree(p) && p.parent == null && p.pid == old(pool.nextPid)
        && (forall q | q in pool.table && !old(IsFree(q)) :: !IsFree(q))
        && pool.nextPid == old(pool.nextPid) + 1 && old(Free()) == Free() + [Number(p.list)]
        && Ready() == old(Ready()) + [Number(p.list)] && Number(p.list) < |old(Entries())|
        && Entries() == old(Entries())[Number(p.list) := ProcessTree.Pcb(None, [], 0, old(pool.nextPid))]
    {
      hide Valid, Loose, IsFree, Heads, Entries, Free, Number;
      p := AllocPcb();
      if p != null { InsertProcQ(p); }
    }

    // -------------------------------------------------------------------------------------------
    // The process tree

    /** Only children lists have changed. */
    twostate lemma JointKin()
      requires old(Typed()) && old(Joint()) && ready == old(ready) && asl.m == old(asl.m)
      requires old(pool.fam).Keys <= pool.fam.Keys && pool.freeHead in old(pool.fam)
      requires pool.fam[pool.freeHead] == old(pool.fam)[pool.freeHead]
      ensures Typed() && Joint() && Free() == old(Free())
      ensures forall p | p in pool.table :: Loose(p) == old(Loose(p)) && IsFree(p) == old(IsFree(p))
    {
      forall q | q in pool.table ensures OneUse(q) && (!IsFree(q) ==> q.child in pool.fam) {
        assert old(OneUse(q)) && IsFree(q) == old(IsFree(q));
      }
    }

    method LinkInPool(q: Pcb?, p: Pcb, ghost keep: set<ListHead>)
      requires pool.Valid() && pool.Foreign(keep) && p in pool.table && p.parent == null && !IsFree(p)
      requires q != null ==> q in pool.table && q.child in pool.fam && !IsFree(q)
      modifies pool`fam, pool`up, p`parent, p.sib, Nodes(pool.fam)
      ensures pool.Valid() && Kept(keep) && p.parent == q
      ensures pool.freeHead in old(pool.fam) && old(pool.fam).Keys <= pool.fam.Keys
      ensures pool.fam[pool.freeHead] == old(pool.fam)[pool.freeHead]
      ensures if q == null then pool.fam == old(pool.fam)
        else pool.fam == old(pool.fam)[q.child := old(pool.fam)[q.child] + [p.sib]]
    {
      hide PcbPool.Valid;
      pool.FreeOnce();
      assert q != null ==> q.child.place.PChild?;
      hide OfProcs, Table, NoDup;
      pool.InsertChild(q, p, keep);
    }

    lemma AllocWrites()
      requires Parted()
      ensures forall x | x in pool.Heads() :: x in Heads()
      ensures forall x | x in Nodes(pool.fam) :: x !in Nodes(asl.v.fam)
    {
    }

    lemma PoolWrites(p: Pcb)
      requires Parted() && p in pool.table
      ensures p.sib in Heads() && p.list in Heads() && forall x | x in Nodes(pool.fam) :: x in Heads()
    {
    }

    /** insertChild */
    method InsertChild(q: Pcb?, p: Pcb)
      requires Valid() && p in pool.table && p.parent == null && !IsFree(p)
      requires q != null ==> q in pool.table && !IsFree(q)
      modifies pool`fam, pool`up, p`parent, Heads()
      ensures Valid() && Free() == old(Free()) && forall x | x in pool.table :: Loose(x) == old(Loose(x))
      ensures ChildAdded(old(Entries()), Entries(), Id(q), Number(p.list))
    {
      hide Rings, Asl.Valid, PcbPool.Valid, ReadyFam, Typed, Joint, Parted, OffPool, Loose, Nodes, Kept,
           PcbPool.Foreign, Heads, Entries, Free, ChildAdded;
      Disjoint();
      Strangers();
      PoolWrites(p);
      InUse(q);
      LinkInPool(q, p, OffPool());
      PoolOnly();
      JointKin();
      EntriesLink(p);
    }

    lemma InUse(q: Pcb?)
      requires Joint()
      ensures q != null && q in pool.table && !IsFree(q) ==> q.child in pool.fam
    {
    }

    /** p has its new parent, and is on the parent's list. */
    twostate lemma EntriesLink(p: Pcb)
      requires Typed() && p in pool.table && old(p.parent) == null
      requires p.parent != null ==> p.parent in pool.table && p.parent.child in old(pool.fam)
      requires if p.parent == null then pool.fam == old(pool.fam)
        else pool.fam == old(pool.fam)[p.parent.child := old(pool.fam)[p.parent.child] + [p.sib]]
      requires forall x | x in pool.table && x != p :: x.parent == old(x.parent)
      requires forall x | x in pool.table :: x.semAdd == old(x.semAdd) && x.pid == old(x.pid)
      ensures ChildAdded(old(Entries()), Entries(), Id(p.parent), Number(p.list))
    {
      hide OfProcs, NucleusState.InsertChild;
      Owner(p);
      if p.parent != null { Owner(p.parent); }
      ghost var es, n, q := old(Entries()), Number(p.list), Id(p.parent);
      InsertChildAt(es, q, n, n);
      forall i | 0 <= i < |pool.table|
        ensures Entry(pool.table[i]) == NucleusState.InsertChild(es[n := es[n].(parent := q)], q, n)[i]
      {
        Owner(pool.table[i]);
        InsertChildAt(es, q, n, i);
      }
    }

    lemma InsertChildAt(es: seq<ProcessTree.Pcb>, q: Option<Proc>, n: Proc, i: Proc)
      requires n < |es| && (q.Some? ==> q.value < |es|) && i < |es|
      ensures var es' := NucleusState.InsertChild(es[n := es[n].(parent := q)], q, n);
        |es'| == |es| && es'[i] == ProcessTree.Pcb(if i == n then q else es[i].parent,
                                                   if q == Some(i) then es[i].kids + [n] else es[i].kids,
                                                   es[i].semAdd, es[i].pid)
    {
    }

    /** The list operations of createProcess, for a caller q. */
    method NewProcess(q: Pcb?) returns (p: Pcb?)
      requires Valid() && (q != null ==> q in pool.table && !IsFree(q))
      modifies repr
      ensures Valid() && (p == null <==> old(Free()) == []) && asl.m == old(asl.m)
      ensures p == null ==> SamePool() && Ready() == old(Ready())
      ensures p != null ==>
        && p in pool.table && p.pid == old(pool.nextPid) && pool.nextPid == old(pool.nextPid) + 1
        && old(Free()) == Free() + [Number(p.list)] && Ready() == old(Ready()) + [Number(p.list)]
        && ChildBorn(old(Entries()), Entries(), Id(q), Number(p.list), old(pool.nextPid))
    {
      hide Valid, Loose, IsFree, Heads, Entries, Free, Number, ChildAdded, ChildBorn;
      Owns();
      ghost var es := Entries();
      p := AllocReady();
      if p != null {
        ghost var es1 := Entries();
        InsertChild(q, p);
        BornIsAdded(es, es1, Entries(), Id(q), Number(p.list), old(pool.nextPid));
      }
    }

    lemma KidsWithout(q: Pcb, t: Pcb, k: nat)
      requires pool.Valid() && Typed() && q in pool.table && t in pool.table
      requires q.child in pool.fam && k < |pool.fam[q.child]| && pool.fam[q.child][k] == t.sib
      ensures Without(Kids(q), Number(t.list)) == Numbers(RemoveAt(pool.fam[q.child], k))
    {
      hide PcbPool.Valid;
      ghost var s := pool.fam[q.child];
      pool.KidOnce(q, t, k);
      Owner(t);
      WithoutAt(Numbers(s), Number(t.list), k);
      assert Numbers(RemoveAt(s, k)) == RemoveAt(Numbers(s), k);
    }

    /** outChild on the lists of the pool. */
    twostate predicate Orphaned(t: Pcb)
      reads this, pool, t
    {
      && t.parent == null && pool.freeHead in old(pool.fam) && old(pool.fam).Keys == pool.fam.Keys
      && if old(t.parent) == null then pool.fam == old(pool.fam)
         else
           && old(t.parent) in pool.table && old(t.parent.child) in pool.fam && old(t.parent.child) != pool.freeHead
           && pool.fam == old(pool.fam)[old(t.parent.child) := pool.fam[old(t.parent.child)]]
           && Numbers(pool.fam[old(t.parent.child)]) == Without(old(Kids(t.parent)), Number(t.list))
    }

    method UnlinkInPool(t: Pcb, ghost keep: set<ListHead>)
      requires pool.Valid() && Typed() && pool.Foreign(keep) && t in pool.table
      modifies pool`fam, pool`up, t`parent, Nodes(pool.fam)
      ensures pool.Valid() && Kept(keep) && Orphaned(t)
    {
      hide PcbPool.Valid;
      pool.FreeOnce();
      ghost var q, fam := t.parent, pool.fam;
      if q != null {
        forall k: nat | q in pool.table && q.child in fam && k < |fam[q.child]| && fam[q.child][k] == t.sib
          ensures Without(Kids(q), Number(t.list)) == Numbers(RemoveAt(fam[q.child], k)) && q.child != pool.freeHead
        {
          KidsWithout(q, t, k);
          pool.KidOnce(q, t, k);
        }
      }
      var out := pool.OutChild(t, keep);
    }

    twostate lemma EntriesUnlink(t: Pcb)
      requires Typed() && t in pool.table && Orphaned(t)
      requires forall x | x in pool.table && x != t :: x.parent == old(x.parent)
      requires forall x | x in pool.table :: x.semAdd == old(x.semAdd) && x.pid == old(x.pid)
      ensures ChildOut(old(Entries()), Entries(), Number(t.list)) && (old(Kids(t)) == [] ==> Kids(t) == [])
    {
      hide OfProcs, Termination.OutChild;
      Owner(t);
      if old(t.parent) != null { Owner(old(t.parent)); }
      ghost var es, n := old(Entries()), Number(t.list);
      forall i | 0 <= i < |pool.table| ensures Entry(pool.table[i]) == Termination.OutChild(es, n)[i] {
        Owner(pool.table[i]);
        OutChildAt(es, n, i);
      }
    }

    lemma OutChildAt(es: seq<ProcessTree.Pcb>, n: Proc, i: Proc)
      requires n < |es| && (es[n].parent.Some? ==> es[n].parent.value < |es|) && i < |es|
      ensures Termination.OutChild(es, n)[i] ==
              ProcessTree.Pcb(if i == n then None else es[i].parent,
                              if es[n].parent == Some(i) then Without(es[i].kids, n) else es[i].kids,
                              es[i].semAdd, es[i].pid)
    {
    }

    /** outChild */
    method OutChild(t: Pcb)
      requires Valid() && t in pool.table
      modifies pool`fam, pool`up, t`parent, Heads()
      ensures Valid() && t.parent == null && Free() == old(Free())
      ensures forall x | x in pool.table ::
                Loose(x) == old(Loose(x)) && IsFree(x) == old(IsFree(x)) && x.pid == old(x.pid)
      ensures ChildOut(old(Entries()), Entries(), Number(t.list)) && (old(Kids(t)) == [] ==> Kids(t) == [])
    {
      hide Rings, Asl.Valid, PcbPool.Valid, ReadyFam, Typed, Joint, Parted, OffPool, Loose, Nodes, Kept,
           PcbPool.Foreign, Heads, Entries, Free, ChildOut;
      Disjoint();
      Strangers();
      PoolWrites(t);
      UnlinkInPool(t, OffPool());
      PoolOnly();
      JointKin();
      EntriesUnlink(t);
    }

    twostate lemma JointFree(t: Pcb)
      requires old(Typed()) && old(Joint()) && t in pool.table && old(Loose(t)) && ready == old(ready)
      requires asl.m == old(asl.m)
      requires pool.freeHead in old(pool.fam)
      requires pool.fam == old(pool.fam)[pool.freeHead := old(pool.fam)[pool.freeHead] + [t.list]]
      ensures Typed() && Joint() && Free() == old(Free()) + [Number(t.list)]
    {
      Owner(t);
      forall q | q in pool.table ensures OneUse(q) && (!IsFree(q) ==> q.child in pool.fam) {
        Owner(q);
        assert old(OneUse(q)) && (IsFree(q) <==> old(IsFree(q)) || q == t);
      }
    }

    method AppendToFree(t: Pcb, ghost keep: set<ListHead>)
      requires pool.Valid() && pool.Foreign(keep) && t in pool.table && t.list !in Nodes(pool.fam) && t.list !in keep
      requires t.parent == null && Kids(t) == []
      modifies pool`fam, t.list, Nodes(pool.fam)
      ensures pool.Valid() && Kept(keep) && pool.freeHead in old(pool.fam)
      ensures pool.fam == old(pool.fam)[pool.freeHead := old(pool.fam)[pool.freeHead] + [t.list]]
      ensures Entries() == old(Entries())
    {
      hide PcbPool.Valid;
      pool.FreeOnce();
      pool.FreePcb(t, keep);
      forall i | 0 <= i < |pool.table| ensures Entry(pool.table[i]) == old(Entry(pool.table[i])) {
        assert pool.table[i].child != pool.freeHead;
      }
    }

    lemma LooseOffPool(t: Pcb)
      requires Valid() && Parted() && t in pool.table && Loose(t)
      ensures t.list !in Nodes(pool.fam) && t.list !in OffPool() && t.list in Heads()
    {
      hide Rings, Asl.Valid, PcbPool.Valid;
      LooseUse(t);
    }

    /** freePcb */
    method FreePcb(t: Pcb)
      requires Valid() && t in pool.table && Loose(t) && t.parent == null && Kids(t) == []
      modifies pool`fam, Heads()
      ensures Valid() && Free() == old(Free()) + [Number(t.list)] && Entries() == old(Entries())
    {
      hide Rings, Asl.Valid, PcbPool.Valid, ReadyFam, Typed, Joint, Parted, OffPool, Loose, Nodes, Kept,
           PcbPool.Foreign, Heads, Entries, Free, Kids;
      Disjoint();
      Strangers();
      PoolWrites(t);
      LooseOffPool(t);
      AppendToFree(t, OffPool());
      PoolOnly();
      JointFree(t);
    }

    // -------------------------------------------------------------------------------------------
    // The semaphore list

    /** The nodes that the semaphore list has no business with. */
    ghost function OffAsl(): set<ListHead>
      reads this, pool
    {
      Nodes(pool.fam) + Nodes(ReadyFam())
    }

    lemma AslWrites()
      requires Valid() && Parted()
      ensures OffAsl() !! Nodes(asl.v.fam) && OffAsl() !! asl.Heads()
      ensures forall x | x in Nodes(asl.v.fam) || x in asl.Heads() :: x in Heads()
    {
      hide Rings, PcbPool.Valid, Asl.Stored, Typed, Joint;
      asl.HeadKinds();
      forall x | x in OffAsl() ensures x !in asl.Heads() { NotAslHead(x); }
    }

    lemma NotAslHead(x: ListHead)
      requires Valid() && x in OffAsl()
      ensures !(x.place.SemdFreeHead? || x.place.SemdHead? || x.place.SLink? || x.place.SProcq?)
    {
      hide Rings, PcbPool.Valid, Asl.Valid, Joint;
      NodeUse(x);
    }

    /** Pool and ready queue have the links, and entries the parents, they had. */
    twostate lemma AslOnly()
      requires old(Valid()) && pool.fam == old(pool.fam) && pool.up == old(pool.up) && ready == old(ready)
      requires Kept(old(OffAsl())) && forall p | p in pool.table :: p.parent == old(p.parent)
      ensures pool.Valid() && Rings(ReadyFam())
    {
      hide Rings, Asl.Valid, PcbPool.Valid, Joint;
      pool.StillValid();
      SameRings(old(ReadyFam()));
      assert ReadyFam() == old(ReadyFam());
    }

    /** Who waits now waited before, or is p, which was on no list. */
    twostate lemma JointWaits(p: Pcb)
      requires old(Typed()) && old(Joint()) && pool.fam == old(pool.fam) && ready == old(ready)
      requires p in pool.table && old(Loose(p))
      requires forall i: Proc | asl.Waits(i) :: old(asl.Waits(i)) || i == Number(p.list)
      ensures Typed() && Joint()
    {
      Owner(p);
      forall q | q in pool.table ensures OneUse(q) && (!IsFree(q) ==> q.child in pool.fam) {
        Owner(q);
        assert old(OneUse(q)) && IsFree(q) == old(IsFree(q));
      }
    }

    lemma InsertWaits(m: Blocked, cap: nat, k: Key, n: Proc)
      ensures var m' := Insert(m, cap, k, n).0;
        forall i: Proc, j | j in m' && i in m'[j] :: i == n || (j in m && i in m[j])
    {
    }

    method BlockInAsl(semAdd: Key, p: Pcb, ghost keep: set<ListHead>) returns (r: int)
      requires asl.Valid() && p in asl.pcbs && p.list !in Nodes(asl.v.fam) && p.list !in keep
      requires keep !! Nodes(asl.v.fam) && keep !! asl.Heads()
      modifies asl`v, asl`m, p`semAdd, Nodes(asl.v.fam), asl.Heads(), p.list, (set d | d in asl.table)`key
      ensures asl.Valid() && Kept(keep)
      ensures (asl.m, r == 0) == Insert(old(asl.m), |asl.table|, semAdd, p.list.place.pcb)
      ensures p.semAdd == if r == 0 then semAdd else old(p.semAdd)
    {
      hide Asl.Valid, Nodes, Asl.Heads;
      r := asl.InsertBlocked(semAdd, p);
    }

    twostate lemma EntriesBlocked(p: Pcb)
      requires Typed() && p in pool.table && pool.fam == old(pool.fam)
      requires forall x | x in pool.table :: x.parent == old(x.parent) && x.pid == old(x.pid)
      requires forall x | x in pool.table && x != p :: x.semAdd == old(x.semAdd)
      ensures Free() == old(Free()) && SemAddSet(old(Entries()), Entries(), p.semAdd, Number(p.list))
    {
      Owner(p);
      assert forall i | 0 <= i < |pool.table| :: pool.table[i] in pool.table;
    }

    /** insertBlocked; what it answers is not looked at. */
    method InsertBlocked(semAdd: Key, p: Pcb)
      requires Valid() && p in pool.table && Loose(p)
      modifies asl`v, asl`m, p`semAdd, Heads(), (set d | d in asl.table)`key
      ensures Valid() && Free() == old(Free()) && SemAddSet(old(Entries()), Entries(), p.semAdd, Number(p.list))
      ensures asl.m == Insert(old(asl.m), |pool.table|, semAdd, Number(p.list)).0
      ensures p.semAdd == semAdd || p.semAdd == old(p.semAdd)
    {
      hide Rings, Asl.Valid, PcbPool.Valid, ReadyFam, Joint, Parted, OffPool, Loose, Nodes, Kept, Heads, Entries,
           Free, Insert;
      Disjoint();
      AslWrites();
      LooseOffAsl(p);
      InsertWaits(asl.m, |asl.table|, semAdd, Number(p.list));
      var r := BlockInAsl(semAdd, p, OffAsl());
      AslOnly();
      JointWaits(p);
      EntriesBlocked(p);
    }

    lemma LooseOffAsl(p: Pcb)
      requires Valid() && Parted() && p in pool.table && Loose(p)
      ensures p.list.place.PList? && Number(p.list) == p.list.place.pcb
      ensures p.list !in Nodes(asl.v.fam) && p.list !in OffAsl() && p.list in Heads()
    {
      hide Rings, Asl.Valid, PcbPool.Valid;
      LooseUse(p);
    }

    method UnblockInAsl(semAdd: Key, ghost keep: set<ListHead>) returns (p: Pcb?)
      requires asl.Valid() && keep !! Nodes(asl.v.fam) && keep !! asl.Heads()
      modifies asl`v, asl`m, Nodes(asl.v.fam), asl.Heads()
      ensures asl.Valid() && Kept(keep) && asl.m == Remove(old(asl.m), semAdd).0
      ensures var r := Remove(old(asl.m), semAdd).1;
        if r == None then p == null else p != null && p in asl.pcbs && p.list.place == PList(r.value)
    {
      hide Asl.Valid, Nodes, Asl.Heads;
      p := asl.RemoveBlocked(semAdd);
    }

    /** Who waits now waited before. */
    twostate lemma JointWoken()
      requires old(Typed()) && old(Joint()) && pool.fam == old(pool.fam) && ready == old(ready)
      requires forall i: Proc | asl.Waits(i) :: old(asl.Waits(i))
      ensures Typed() && Joint()
    {
      forall q | q in pool.table ensures OneUse(q) && (!IsFree(q) ==> q.child in pool.fam) {
        assert old(OneUse(q)) && IsFree(q) == old(IsFree(q));
      }
    }

    /** Who waited and waits no more is on no list. */
    twostate lemma WasWaiting(p: Pcb)
      requires old(Joint()) && p in pool.table && old(asl.Waits(Number(p.list))) && !asl.Waits(Number(p.list))
      requires pool.fam == old(pool.fam) && ready == old(ready)
      ensures Loose(p)
    {
      assert old(OneUse(p));
    }

    /** removeBlocked */
    method RemoveBlocked(semAdd: Key) returns (p: Pcb?)
      requires Valid()
      modifies repr
      ensures Valid() && SamePool() && Ready() == old(Ready()) && asl.m == Remove(old(asl.m), semAdd).0
      ensures Id(p) == Remove(old(asl.m), semAdd).1
      ensures p != null ==> p in pool.table && Loose(p)
    {
      hide Rings, Asl.Valid, PcbPool.Valid, ReadyFam, Joint, Parted, OffAsl, Loose, Nodes, Kept, Heads, Remove;
      Disjoint();
      AslWrites();
      asl.WaitOnce();
      RemoveTakes(asl.m, semAdd);
      p := UnblockInAsl(semAdd, OffAsl());
      AslOnly();
      JointWoken();
      if p != null { WasWaiting(p); }
    }

    method OutInAsl(t: Pcb, ghost keep: set<ListHead>)
      requires asl.Valid() && t in asl.pcbs && asl.OnlyOne(t.pid) && t.list.place.PList?
      requires keep !! Nodes(asl.v.fam)
      modifies asl`v, asl`m, Nodes(asl.v.fam)
      ensures asl.Valid() && Kept(keep) && asl.m == Out(old(asl.m), t.semAdd, t.list.place.pcb)
    {
      hide Asl.Valid, Nodes;
      var out := asl.OutBlocked(t);
    }

    /** Where a process may wait. */
    lemma WaitsThere(t: Pcb)
      requires asl.Valid() && asl.pcbs == pool.table && t in pool.table && t.list.place.PList?
      ensures forall k | k in asl.m && t.list.place.pcb in asl.m[k] :: k == t.semAdd
    {
      hide Rings, Chain, KeysStored;
      BlockedWhereItSays(asl.v, asl.m, t);
    }

    /** outBlocked */
    method OutBlocked(t: Pcb)
      requires Valid() && t in pool.table && asl.OnlyOne(t.pid)
      modifies asl`v, asl`m, Heads()
      ensures Valid() && SamePool() && asl.m == Out(old(asl.m), t.semAdd, Number(t.list)) && !asl.Waits(Number(t.list))
    {
      hide Rings, Asl.Valid, PcbPool.Valid, ReadyFam, Joint, Parted, OffAsl, Loose, Nodes, Kept, Heads, Out;
      Disjoint();
      AslWrites();
      asl.WaitOnce();
      Owner(t);
      WaitsThere(t);
      OutTakes(asl.m, t.semAdd, Number(t.list));
      OutInAsl(t, OffAsl());
      AslOnly();
      JointWoken();
    }

    method OutPidInAsl(pid: int, ghost keep: set<ListHead>) returns (p: Pcb?)
      requires asl.Valid() && keep !! Nodes(asl.v.fam)
      modifies asl`v, asl`m, Nodes(asl.v.fam)
      ensures asl.Valid() && Kept(keep)
      ensures p == null ==>
        && asl.m == old(asl.m)
        && forall q | q in asl.pcbs && q.pid == pid :: q.list.place.PList? && !asl.Waits(q.list.place.pcb)
      ensures p != null ==>
        && p in asl.pcbs && p.pid == pid && p.list.place.PList?
        && p.semAdd in old(asl.m) && p.list.place.pcb in old(asl.m)[p.semAdd]
        && asl.m == Out(old(asl.m), p.semAdd, p.list.place.pcb)
    {
      hide Asl.Valid, Nodes, Out, Asl.Waits;
      p := asl.OutBlockedPID(pid);
    }

    /** outBlockedPID; null when its walk runs off the end of the active list. */
    method OutBlockedPID(pid: int) returns (p: Pcb?)
      requires Valid()
      modifies repr
      ensures Valid() && SamePool() && Ready() == old(Ready())
      ensures p == null ==>
        asl.m == old(asl.m) && forall q | q in pool.table && q.pid == pid :: !asl.Waits(Number(q.list))
      ensures p != null ==>
        && p in pool.table && p.pid == pid && p.semAdd in old(asl.m) && Number(p.list) in old(asl.m)[p.semAdd]
        && asl.m == Out(old(asl.m), p.semAdd, Number(p.list))
    {
      hide Rings, Asl.Valid, PcbPool.Valid, ReadyFam, Joint, Parted, OffAsl, Loose, Nodes, Kept, Heads, Out;
      Disjoint();
      AslWrites();
      asl.WaitOnce();
      WaitersKnown();
      forall q | q in pool.table ensures forall k | k in asl.m && Number(q.list) in asl.m[k] :: k == q.semAdd {
        WaitsThere(q);
      }
      forall q | q in pool.table
        ensures forall i: Proc | WaitsIn(Out(asl.m, q.semAdd, Number(q.list)), i) :: WaitsIn(asl.m, i)
      {
        OutTakes(asl.m, q.semAdd, Number(q.list));
      }
      p := OutPidInAsl(pid, OffAsl());
      AslOnly();
      JointWoken();
    }

    lemma WaitersKnown()
      requires Valid()
      ensures forall q | q in pool.table ::
                q.list.place.PList? && Number(q.list) == q.list.place.pcb
                && (q.list in Nodes(asl.v.fam) <==> asl.Waits(Number(q.list)))
    {
      hide Rings, PcbPool.Valid, Asl.Stored;
      forall q | q in pool.table
        ensures q.list.place.PList? && Number(q.list) == q.list.place.pcb
          && (q.list in Nodes(asl.v.fam) <==> asl.Waits(Number(q.list)))
      {
        Owner(q);
        asl.WaiterUse(q);
      }
    }

    method SetInAsl(p: Pcb, semAdd: Key, ghost keep: set<ListHead>)
      requires asl.Valid() && p in asl.pcbs && p.list !in Nodes(asl.v.fam)
      modifies p`semAdd
      ensures asl.Valid() && Kept(keep) && p.semAdd == semAdd
    {
      asl.SetSemAdd(p, semAdd);
    }

    /** The write of p_semAdd that precedes insertBlocked. */
    method SetSemAdd(p: Pcb, semAdd: Key)
      requires Valid() && p in pool.table && Loose(p)
      modifies p`semAdd
      ensures Valid() && SemAddSet(old(Entries()), Entries(), semAdd, Number(p.list)) && p.semAdd == semAdd
    {
      hide Rings, Asl.Valid, PcbPool.Valid, ReadyFam, Joint, Parted, OffAsl, Loose, Nodes, Kept, Heads, Entries, Free;
      Disjoint();
      LooseOffAsl(p);
      SetInAsl(p, semAdd, OffAsl());
      AslOnly();
      JointWoken();
      EntriesBlocked(p);
    }

    method HeadInAsl(semAdd: Key, ghost keep: set<ListHead>) returns (p: Pcb?)
      requires asl.Valid()
      ensures asl.Valid() && Kept(keep)
      ensures var r := AslSpec.Head(asl.m, semAdd);
        if r == None then p == null else p != null && p in asl.pcbs && p.list.place == PList(r.value)
    {
      hide Asl.Valid;
      p := asl.HeadBlocked(semAdd);
    }

    /** headBlocked */
    method HeadBlocked(semAdd: Key) returns (p: Pcb?)
      requires Valid()
      ensures Valid() && SamePool() && Id(p) == AslSpec.Head(asl.m, semAdd) && (p != null ==> p in pool.table)
    {
      hide Rings, Asl.Valid, PcbPool.Valid, ReadyFam, Joint, OffAsl, Nodes, Kept, Heads, Entries, Free;
      p := HeadInAsl(semAdd, OffAsl());
      AslOnly();
      JointShrinks();
    }

    // -------------------------------------------------------------------------------------------
    // The list operations of passeren, verhogen and doIo, and of terminateProcess

    /** p_semAdd is written, and p blocks if a descriptor can be had. */
    method Block(semAdd: Key, p: Pcb)
      requires Valid() && p in pool.table && Loose(p)
      modifies repr
      ensures Valid() && Free() == old(Free()) && Ready() == old(Ready()) && pool.nextPid == old(pool.nextPid)
      ensures SemAddSet(old(Entries()), Entries(), semAdd, Number(p.list))
      ensures asl.m == Insert(old(asl.m), |pool.table|, semAdd, Number(p.list)).0
    {
      hide Valid, Heads, Entries, Free, Number, Insert;
      Owns();
      SetSemAdd(p, semAdd);
      InsertBlocked(semAdd, p);
    }

    /** One round of the clock handler's loop: p becomes ready, and the next waiter is taken off its queue. */
    method WakeAndTake(p: Pcb, semAdd: Key) returns (next: Pcb?)
      requires Valid() && p in pool.table && Loose(p)
      modifies repr
      ensures Valid() && SamePool() && Ready() == old(Ready()) + [Number(p.list)]
      ensures asl.m == Remove(old(asl.m), semAdd).0 && Id(next) == Remove(old(asl.m), semAdd).1
      ensures next != null ==> next in pool.table && Loose(next)
    {
      hide Valid, Loose, IsFree, Heads, Entries, Free, Number, Remove;
      InsertProcQ(p);
      next := RemoveBlocked(semAdd);
    }

    /** t leaves the tree, the ready queue and the semaphore list, and joins the free list. */
    method Discard(t: Pcb)
      requires Valid() && t in pool.table && !IsFree(t) && Kids(t) == [] && asl.OnlyOne(t.pid)
      modifies repr
      ensures Valid() && pool.nextPid == old(pool.nextPid) && Free() == old(Free()) + [Number(t.list)]
      ensures ChildOut(old(Entries()), Entries(), Number(t.list)) && Ready() == Without(old(Ready()), Number(t.list))
      ensures asl.m == Out(old(asl.m), old(t.semAdd), Number(t.list))
    {
      hide Valid, IsFree, Heads, Entries, Free, Number, Kids, ChildOut;
      Owns();
      OutChild(t);
      OutProcQ(t);
      OutBlocked(t);
      FreePcb(t);
    }

    /** Where the first waiter hangs. */
    lemma FirstWaiter(semAdd: Key, i: nat)
      requires Valid() && semAdd in asl.m && asl.m[semAdd] != [] && i < |asl.v.active| && asl.v.keys[i] == semAdd
      ensures var h := asl.v.active[i].procq;
        h in asl.v.fam && asl.v.fam[h] != [] && h in Nodes(asl.v.fam) && asl.v.fam[h][0] in Nodes(asl.v.fam)
        && h.next == asl.v.fam[h][0] != h && asl.v.fam[h][0].place == PList(asl.m[semAdd][0])
    {
      hide Chain, KeysStored, SemAddsStored, PcbPool.Valid;
      ActiveAt(asl.v, i);
      var h := asl.v.active[i].procq;
      assert asl.v.fam[h][0] in asl.v.fam[h] && Cycle(h, asl.v.fam[h])[0] == h;
      RingLinks(asl.v.fam, h);
      MemberLinks(asl.v.fam, h, 0);
    }

    /** Appending it to the ready queue breaks the ring it is on. */
    method AppendLinked(l: ListHead, ghost h: ListHead)
      requires Rings(ReadyFam()) && h !in Nodes(ReadyFam()) && l !in Nodes(ReadyFam()) && h.next == l && h != l
      modifies l, Nodes(ReadyFam())
      ensures forall s: seq<ListHead> :: !Ring(h, s)
      ensures queue.prev == l && l.next == queue && l.prev == old(queue.prev) && l.prev != null && l.prev.next == l
    {
      RingLinks(ReadyFam(), queue);
      Relink(l, queue.prev, queue);
      NotARing(h);
    }

    /** The node is where a new last element of the ready queue belongs. */
    ghost predicate LastReady(l: ListHead)
      reads queue, l, l.prev
    {
      queue.prev == l && l.next == queue && l.prev != null && l.prev.next == l
    }

    /** The list operations of handleDeviceInterrupt: the first waiter is appended to the ready queue while it is still
        linked, and the queue head in the semaphore's active descriptor d is then the head of no list at all. */
    method QueueLinked(semAdd: Key) returns (p: Pcb?, ghost d: Semd?)
      requires Valid()
      modifies repr
      ensures p == null <==> old(AslSpec.Head(asl.m, semAdd)) == None
      ensures p == null ==> Valid() && SamePool() && Ready() == old(Ready()) && asl.m == old(asl.m)
      ensures p != null ==> d != null && old(d in asl.v.active && d.key == semAdd) && asl.v == old(asl.v) && d.key == semAdd
      ensures p != null ==> (forall s: seq<ListHead> :: !Ring(d.procq, s)) && !Valid()
      ensures p != null ==> p in pool.table && Id(p) == old(AslSpec.Head(asl.m, semAdd)) && LastReady(p.list)
    {
      hide Valid, Parted, Nodes, ReadyFam, Heads;
      Owns();
      d := null;
      p := HeadBlocked(semAdd);
      if p == null { return; }
      d := WaiterApart(semAdd, p);
      AppendLinked(p.list, d.procq);
      if Valid() { ActiveQueue(d); }
    }

    lemma WaiterApart(semAdd: Key, p: Pcb) returns (d: Semd)
      requires Valid() && Some(Number(p.list)) == AslSpec.Head(asl.m, semAdd) && p in pool.table
      ensures d in asl.v.active && d.key == semAdd && d.procq.next == p.list && d.procq != p.list
      ensures Rings(ReadyFam()) && forall x | x in Nodes(ReadyFam()) :: x in Heads()
      ensures p.list in Heads() && p.list !in Nodes(ReadyFam()) && d.procq !in Nodes(ReadyFam())
    {
      hide PcbPool.Valid, Rings, Chain, SemAddsStored, Joint;
      var i: nat :| i < |asl.v.keys| && asl.v.keys[i] == semAdd;
      FirstWaiter(semAdd, i);
      ActiveAt(asl.v, i);
      d := asl.v.active[i];
      Disjoint();
      Owner(p);
      NodeUse(asl.v.fam[d.procq][0]);
    }

    /** The queue head of an active descriptor is the head of a list. */
    lemma ActiveQueue(d: Semd)
      requires Valid() && d in asl.v.active
      ensures exists s: seq<ListHead> :: Ring(d.procq, s)
    {
      hide PcbPool.Valid, Ring, Chain, SemAddsStored, Joint;
      var i: nat :| i < |asl.v.active| && asl.v.active[i] == d;
      ActiveAt(asl.v, i);
      assert Ring(d.procq, asl.v.fam[d.procq]);
    }

    // -------------------------------------------------------------------------------------------
    // Searches

    lemma ReadyIff(p: Pcb)
      requires Typed() && p in pool.table
      ensures p.list in ready <==> Number(p.list) in Ready()
    {
      Owner(p);
      if Number(p.list) in Ready() {
        var i :| 0 <= i < |ready| && Ready()[i] == Number(p.list);
        assert ready[i] in ready;
      }
      if p.list in ready {
        var i :| 0 <= i < |ready| && ready[i] == p.list;
        assert Ready()[i] == Number(p.list);
      }
    }

    lemma FreeIff(p: Pcb)
      requires pool.Valid() && p in pool.table
      ensures IsFree(p) <==> Number(p.list) in Free()
    {
      pool.FreeOnce();
      hide PcbPool.Valid;
      Owner(p);
      var s := pool.fam[pool.freeHead];
      if Number(p.list) in Free() {
        var i :| 0 <= i < |s| && Free()[i] == Number(p.list);
        assert s[i] in s;
      }
      if IsFree(p) {
        var i :| 0 <= i < |s| && s[i] == p.list;
        assert Free()[i] == Number(p.list);
      }
    }

    method SearchQueue(pid: int, ghost keep: set<ListHead>) returns (p: Pcb?)
      requires Rings(ReadyFam()) && Typed()
      ensures Rings(ReadyFam()) && Kept(keep)
      ensures p == null ==> forall q | q in pool.table && q.pid == pid :: Number(q.list) !in Ready()
      ensures p != null ==> p in pool.table && p.pid == pid && Number(p.list) in Ready()
    {
      ghost var k;
      p, k := ScanProcQ(pool.table, queue, pid, ReadyFam());
      if p == null {
        forall q | q in pool.table && q.pid == pid ensures Number(q.list) !in Ready() {
          Owner(q);
          ReadyIff(q);
          assert ListOwner(pool.table, q.list) == q;
        }
      } else {
        assert ready[k] in ready && Ready()[k] == Number(p.list);
      }
    }

    /** The walk of findPcb over the ready queue. */
    method SearchReady(pid: int) returns (p: Pcb?)
      requires Valid()
      ensures Valid() && SamePool()
      ensures p == null ==> forall q | q in pool.table && q.pid == pid :: Number(q.list) !in Ready()
      ensures p != null ==> p in pool.table && p.pid == pid && Number(p.list) in Ready()
    {
      hide Rings, Asl.Valid, PcbPool.Valid, Typed, Joint, ReadyFam, OffQueue, Nodes, Kept, Heads, Entries, Free;
      p := SearchQueue(pid, OffQueue());
      QueueOnly();
      JointShrinks();
    }

    /** The oldest child, if emptyChild does not hold. */
    method FirstChild(t: Pcb) returns (p: Pcb?)
      requires Valid() && t in pool.table && !IsFree(t)
      ensures Valid()
      ensures if Kids(t) == [] then p == null else p != null && p in pool.table && Number(p.list) == Kids(t)[0]
    {
      hide Asl.Valid, Rings, Shape;
      RingLinks(pool.fam, t.child);
      if t.child.next == t.child { return null; }
      KidAt(t, 0);
      p := pool.table[t.child.next.place.pcb];
      Owner(p);
    }

    /** A member of a children list is the p_sib of the child with its number. */
    lemma KidAt(q: Pcb, j: nat)
      requires pool.Valid() && q in pool.table && j < |Kids(q)|
      ensures q.child in pool.fam && |pool.fam[q.child]| == |Kids(q)|
      ensures var l := pool.fam[q.child][j];
        l.place.PSib? && l.place.pcb == Number(l) == Kids(q)[j] < |pool.table| && pool.table[l.place.pcb].sib == l
    {
      hide Rings, Adopted, FreeAlone, OfProcs;
      Owner(q);
      assert q.child != pool.freeHead;
      assert ChildrenOf(pool.table, pool.up, pool.table[q.child.place.pcb], pool.fam[q.child]);
      assert pool.fam[q.child][j] in pool.fam[q.child];
    }

    /** Where p_sib.next leads. */
    lemma SiblingLinks(t: Pcb, q: Pcb, k: nat)
      requires pool.Valid() && Typed() && t in pool.table && q in pool.table
      requires k < |Kids(q)| && Kids(q)[k] == Number(t.list)
      ensures q.child in pool.fam && |pool.fam[q.child]| == |Kids(q)|
      ensures if k + 1 == |Kids(q)| then t.sib.next == q.child
        else
          && t.sib.next == pool.fam[q.child][k + 1] != q.child && t.sib.next.place.PSib?
          && t.sib.next.place.pcb < |pool.table| && t.sib.next.place.pcb == Kids(q)[k + 1]
    {
      hide Rings, Shape, OfProcs, Kids, Number;
      KidAt(q, k);
      Owner(t);
      assert pool.fam[q.child][k] == t.sib;
      MemberLinks(pool.fam, q.child, k);
      if k + 1 < |Kids(q)| {
        KidAt(q, k + 1);
        MemberLinks(pool.fam, q.child, k + 1);
      }
    }

    /** The sibling that p_sib.next names, if list_is_last does not hold. */
    method NextSibling(t: Pcb, ghost k: nat) returns (p: Pcb?)
      requires Valid() && t in pool.table && t.parent != null && t.parent in pool.table
      requires k < |Kids(t.parent)| && Kids(t.parent)[k] == Number(t.list)
      ensures Valid()
      ensures if k + 1 == |Kids(t.parent)| then p == null
        else p != null && p in pool.table && Number(p.list) == Kids(t.parent)[k + 1]
    {
      hide Asl.Valid, PcbPool.Valid, Rings, Joint, Kids;
      SiblingLinks(t, t.parent, k);
      if t.sib.next == t.parent.child { return null; }
      p := pool.table[t.sib.next.place.pcb];
      Owner(p);
    }

    lemma LooseIff(p: Pcb)
      requires Valid() && p in pool.table
      ensures Loose(p) <==> Number(p.list) !in Free() && Number(p.list) !in Ready() && !WaitsIn(asl.m, Number(p.list))
    {
      hide Asl.Valid, PcbPool.Valid, Rings, Joint;
      FreeIff(p);
      ReadyIff(p);
    }

    /** The pool's lists, the semaphore list's and the ready queue are one family of rings that share no node. */
    lemma OneFamily()
      requires Valid()
      ensures Rings(pool.fam + asl.v.fam + ReadyFam())
    {
      Disjoint();
      var a, b, c := pool.fam, asl.v.fam, ReadyFam();
      assert Rings(a) && Rings(b) && Rings(c);
      hide Valid, ReadyFam, Heads;
      UnionOfRings(a, b);
      UnionOfRings(a + b, c);
    }

    // -------------------------------------------------------------------------------------------
    // Initialisation

    /** Nothing is linked yet. */
    ghost predicate Zeroed()
      reads this, pool, asl, pool.table
    {
      ready == [] && Static(pool, asl, queue)
    }

    lemma AllFree()
      requires Zeroed() && pool.fam == map[pool.freeHead := pool.Lists(|pool.table|)] && asl.m == map[]
      ensures Typed() && Joint() && Free() == NucleusState.Upto(|pool.table|) && Ready() == []
      ensures Entries() == seq(|pool.table|, i => ProcessTree.Pcb(None, [], 0, 0))
    {
      var s := pool.Lists(|pool.table|);
      forall p | p in pool.table ensures IsFree(p) && p.child !in pool.fam {
        Owner(p);
        assert s[Number(p.list)] == p.list;
      }
      assert forall i | 0 <= i < |pool.table| :: pool.table[i] in pool.table;
      assert forall i | 0 <= i < |s| :: Number(s[i]) == i;
    }

    method InitPool()
      requires Zeroed()
      modifies pool`fam, pool.Heads()
      ensures pool.Valid() && pool.fam == map[pool.freeHead := pool.Lists(|pool.table|)]
      ensures forall x | x in Nodes(pool.fam) :: x.place.PcbFreeHead? || x.place.PList?
    {
      pool.InitPcbs();
      hide PcbPool.Valid;
      forall x | x in Nodes(pool.fam) ensures x.place.PcbFreeHead? || x.place.PList? {
        assert x in Cycle(pool.freeHead, pool.Lists(|pool.table|));
      }
    }

    method InitAsl(ghost keep: set<ListHead>)
      requires Zeroed() && forall x | x in keep :: x.place.PcbFreeHead? || x.place.PList?
      modifies asl`v, asl`m, asl.Heads()
      ensures asl.Valid() && asl.m == map[] && Kept(keep)
    {
      hide Asl.Valid;
      asl.InitASL();
    }

    /** mkEmptyProcQ on the ready queue. */
    method InitQueue()
      requires Zeroed() && pool.Valid() && asl.Valid()
      modifies queue
      ensures pool.Valid() && asl.Valid() && Rings(ReadyFam())
    {
      NotQueue();
      ghost var none: Family := map[];
      hide PcbPool.Valid, Asl.Valid, Rings;
      InitRing(queue, none);
      pool.StillValid();
      asl.StillValid();
    }

    lemma NotQueue()
      requires Zeroed() && pool.Valid() && asl.Valid()
      ensures queue !in Nodes(pool.fam) && queue !in Nodes(asl.v.fam) && queue != asl.activeHead
      ensures forall l | l in Links(asl.v.active) :: l != queue
    {
      hide Rings, Asl.Stored;
      pool.OwnNodes();
      asl.OwnNodes();
      ChainApart(asl.v);
    }

    lemma Distinct()
      requires Zeroed()
      ensures forall x | x in asl.Heads() || x in pool.Heads() :: x in Heads() && x != queue
    {
    }

    /** initPcbs, initASL and mkEmptyProcQ on the ready queue. */
    method Init()
      requires Zeroed() && Owned()
      modifies repr
      ensures Valid() && Free() == NucleusState.Upto(|pool.table|) && Ready() == [] && asl.m == map[]
      ensures pool.nextPid == 1
      ensures Entries() == seq(|pool.table|, i => ProcessTree.Pcb(None, [], 0, 0))
    {
      hide PcbPool.Valid, Asl.Valid, Rings, PcbPool.Heads, Asl.Heads;
      Distinct();
      InitPool();
      label L:
      InitAsl(Nodes(pool.fam));
      pool.StillValid@L();
      InitQueue();
      AllFree();
    }

    /** The store of these parts. */
    constructor (pool: PcbPool, asl: Asl, queue: ListHead)
      ensures this.pool == pool && this.asl == asl && this.queue == queue && ready == [] && Owned()
      ensures repr == {this} + Objects(pool, asl, queue)
    {
      this.pool, this.asl, this.queue, ready := pool, asl, queue, [];
      repr := {this} + Objects(pool, asl, queue);
    }
  }

  method NewParts(maxproc: nat) returns (p: PcbPool, a: Asl, q: ListHead)
    ensures Static(p, a, q) && |p.table| == maxproc && fresh(Objects(p, a, q))
  {
    hide PcbPool.Heads, Asl.Heads;
    p := new PcbPool(maxproc);
    a := new Asl(maxproc, p.table);
    q := new ListHead(QueueHead(0));
  }

  /** The static storage, before initPcbs and initASL. */
  method NewStore(maxproc: nat) returns (s: Store)
    ensures s.Zeroed() && s.Owned() && |s.pool.table| == maxproc && fresh(s.repr)
  {
    hide Objects, Static, PcbPool.Heads, Asl.Heads, Store.Owned;
    var p, a, q := NewParts(maxproc);
    s := new Store(p, a, q);
  }
}
