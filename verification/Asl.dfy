/** The active semaphore list (phase1/asl.c) on the heap: a fixed descriptor table whose s_link fields
    form a circular doubly linked list while free and a NULL-terminated singly linked one while active. */
module AslShapes {
  import opened Basics
  import opened ListX
  import opened Pcbs
  import opened AslSpec

  class Semd {
    const link: ListHead
    const procq: ListHead
    var key: Key

    constructor (i: nat)
      ensures link.place == SLink(i) && procq.place == SProcq(i) && fresh(link) && fresh(procq)
    {
      link := new ListHead(SLink(i));
      procq := new ListHead(SProcq(i));
      key := 0;
    }
  }

  ghost predicate SemdTable(table: seq<Semd>) {
    forall i | 0 <= i < |table| :: table[i].link.place == SLink(i) && table[i].procq.place == SProcq(i)
  }

  /** The links of a sequence of descriptors. */
  function Links(s: seq<Semd>): (r: seq<ListHead>)
    ensures |r| == |s| && forall i | 0 <= i < |s| :: r[i] == s[i].link
  {
    seq(|s|, i requires 0 <= i < |s| => s[i].link)
  }

  /** The i-th node of a NULL-terminated chain, or the NULL after it. */
  function Stop(s: seq<ListHead>, i: nat): ListHead? {
    if i < |s| then s[i] else null
  }

  /** Only the next fields matter: prev is meaningless in an active link. */
  ghost predicate Chain(head: ListHead, s: seq<ListHead>)
    reads head`next, (set x | x in s)`next
  {
    head.next == Stop(s, 0) && forall i {:trigger s[i].next} | 0 <= i < |s| :: s[i].next == Stop(s, i + 1)
  }

  /** PCB table positions of a queue of p_list links. */
  function Ids(pcbs: seq<Pcb>, s: seq<ListHead>): (r: seq<Proc>)
    requires OfProcs(pcbs, s)
    ensures |r| == |s| && forall i | 0 <= i < |s| :: r[i] == s[i].place.pcb
  {
    seq(|s|, i requires 0 <= i < |s| => assert s[i] in s; s[i].place.pcb)
  }

  /** All lists of the module at one moment: the ring family holds the free list and the queue of
      every active descriptor; `active` and `keys` are the chain and its semaphore addresses. */
  datatype Lists = Lists(table: seq<Semd>, pcbs: seq<Pcb>, free: ListHead, fam: Family, active: seq<Semd>, keys: seq<Key>)
  {
    ghost predicate Sorts() {
      && SemdTable(table) && Table(pcbs) && free.place == SemdFreeHead && free in fam
      && forall l | l in fam[free] :: l.place.SLink? && l.place.semd < |table| && table[l.place.semd].link == l
    }

    ghost predicate Queues() {
      && |keys| == |active| && NoDup(active) && NoDup(keys)
      && forall d | d in active :: d in table && d.procq in fam && OfProcs(pcbs, fam[d.procq])
    }

    ghost predicate NoOtherRing()
      requires SemdTable(table)
    {
      forall h | h in fam && h != free ::
        h.place.SProcq? && h.place.semd < |table| && table[h.place.semd].procq == h && table[h.place.semd] in active
    }

    /** Every descriptor of the table is either free or active. */
    ghost predicate Partition()
      requires free in fam
    {
      && (forall d | d in table :: d in active <==> d.link !in fam[free])
      && |fam[free]| + |active| == |table|
    }

    ghost predicate Shape() {
      Sorts() && Queues() && NoOtherRing() && Partition()
    }

    /** The structure stands for m: its addresses are the active keys, its queues those of the descriptors. */
    ghost predicate Represents(m: Blocked)
      requires Queues()
    {
      && (forall i | 0 <= i < |active| :: keys[i] in m && m[keys[i]] == Ids(pcbs, fam[active[i].procq]))
      && (forall k | k in m :: k in keys)
    }

    /** The queue of the i-th active descriptor becomes s. */
    ghost function WithQueue(i: nat, s: seq<ListHead>): Lists
      requires i < |active|
    {
      this.(fam := fam[active[i].procq := s])
    }

    /** Descriptor d leaves the tail of the free list, with queue s and address k. */
    ghost function Activate(d: Semd, k: Key, s: seq<ListHead>): Lists
      requires free in fam && fam[free] != []
    {
      this.(fam := fam[free := RemoveAt(fam[free], |fam[free]| - 1)][d.procq := s], active := active + [d], keys := keys + [k])
    }

    /** The i-th active descriptor goes back to the tail of the free list. */
    ghost function Recycle(i: nat): Lists
      requires i < |active| && |keys| == |active| && free in fam
    {
      this.(fam := (fam - {active[i].procq})[free := fam[free] + [active[i].link]],
            active := RemoveAt(active, i), keys := RemoveAt(keys, i))
    }
  }

  /** The free list is empty exactly when the map is full. */
  lemma ContentsSize(v: Lists, m: Blocked)
    requires v.Shape() && v.Represents(m)
    ensures |m| == |v.active| == |v.table| - |v.fam[v.free]|
    ensures forall k | k in v.keys :: k in m
  {
    hide Lists.Sorts, Lists.NoOtherRing;
    forall k | k in v.keys ensures k in m {
      var i :| 0 <= i < |v.keys| && v.keys[i] == k;
    }
    var ks := set k | k in v.keys;
    assert forall k | k in m.Keys :: k in ks;
    assert m.Keys == ks;
    NoDupSize(v.keys);
  }

  lemma DistinctQueues(v: Lists, i: nat, j: nat)
    requires v.Sorts() && v.Queues() && i < |v.active| && j < |v.active| && i != j
    ensures v.active[i].procq != v.active[j].procq && v.active[i].procq != v.free
  {
  }

  lemma ShapeWithQueue(v: Lists, m: Blocked, i: nat, s: seq<ListHead>)
    requires v.Shape() && v.Represents(m) && i < |v.active| && OfProcs(v.pcbs, s)
    ensures v.WithQueue(i, s).Shape() && v.WithQueue(i, s).Represents(m[v.keys[i] := Ids(v.pcbs, s)])
  {
  }

  /** One more process on the i-th queue. */
  lemma QueueGrows(v: Lists, m: Blocked, i: nat, p: Pcb)
    requires v.Shape() && v.Represents(m) && i < |v.active| && p in v.pcbs && p.list.place.PList?
    requires v.active[i].procq in v.fam && OfProcs(v.pcbs, v.fam[v.active[i].procq] + [p.list])
    ensures v.keys[i] in m && v.WithQueue(i, v.fam[v.active[i].procq] + [p.list]).Shape()
    ensures v.WithQueue(i, v.fam[v.active[i].procq] + [p.list]).Represents(m[v.keys[i] := m[v.keys[i]] + [p.list.place.pcb]])
  {
    var q := v.fam[v.active[i].procq];
    ShapeWithQueue(v, m, i, q + [p.list]);
    assert Ids(v.pcbs, q + [p.list]) == m[v.keys[i]] + [p.list.place.pcb];
  }

  lemma IdIn(pcbs: seq<Pcb>, s: seq<ListHead>, p: Pcb)
    requires OfProcs(pcbs, s) && Table(pcbs) && p in pcbs && p.list.place.PList?
    ensures p.list.place.pcb in Ids(pcbs, s) <==> p.list in s
  {
  }

  /** The first position of p's link is the first position of p's number. */
  lemma FirstId(pcbs: seq<Pcb>, s: seq<ListHead>, p: Pcb, k: nat)
    requires OfProcs(pcbs, s) && Table(pcbs) && p in pcbs && p.list.place.PList?
    requires k <= |s| && p.list !in s[..k] && (k < |s| ==> s[k] == p.list)
    ensures Without(Ids(pcbs, s), p.list.place.pcb) == if k < |s| then RemoveAt(Ids(pcbs, s), k) else Ids(pcbs, s)
  {
    var id := p.list.place.pcb;
    forall i | 0 <= i < k ensures Ids(pcbs, s)[..k][i] != id {
      assert s[i] in s && s[..k][i] == s[i];
    }
    WithoutAt(Ids(pcbs, s), id, k);
  }

  /** removeBlocked as its two steps: the head leaves, then an empty queue takes its descriptor along. */
  lemma RemoveInSteps(m: Blocked, k: Key)
    requires k in m
    ensures var m1 := if m[k] == [] then m else m[k := RemoveAt(m[k], 0)];
      && Remove(m, k).0 == (if m1[k] == [] then m1 - {k} else m1)
      && Remove(m, k).1 == if m[k] == [] then None else Some(m[k][0])
  {
    if m[k] != [] { assert RemoveAt(m[k], 0) == m[k][1..]; }
  }

  lemma IdsRemoveAt(pcbs: seq<Pcb>, s: seq<ListHead>, k: nat)
    requires OfProcs(pcbs, s) && k < |s|
    ensures OfProcs(pcbs, RemoveAt(s, k)) && Ids(pcbs, RemoveAt(s, k)) == RemoveAt(Ids(pcbs, s), k)
    ensures forall l | l in RemoveAt(s, k) :: l in s
  {
  }

  /** No queue but the i-th changes. */
  lemma OtherQueues(v: Lists, i: nat, s: seq<ListHead>, j: nat)
    requires v.Shape() && i < |v.active| && j < |v.active|
    ensures v.WithQueue(i, s).fam[v.active[j].procq] == if j == i then s else v.fam[v.active[j].procq]
    ensures v.active[j].procq in v.fam && forall l | l in v.fam[v.active[j].procq] :: l in Nodes(v.fam)
  {
    assert v.active[j] in v.active;
    if j != i { DistinctQueues(v, i, j); }
    forall l | l in v.fam[v.active[j].procq] ensures l in Nodes(v.fam) {
      assert l in Cycle(v.active[j].procq, v.fam[v.active[j].procq]);
    }
  }

  lemma ShapeActivate(v: Lists, d: Semd, k: Key, s: seq<ListHead>)
    requires v.Shape() && OfProcs(v.pcbs, s) && k !in v.keys
    requires v.fam[v.free] != [] && NoDup(v.fam[v.free]) && d in v.table && d.link == v.fam[v.free][|v.fam[v.free]| - 1]
    ensures v.Activate(d, k, s).Shape() && d !in v.active
  {
  }

  lemma ActivateRepresents(v: Lists, m: Blocked, w: Lists, d: Semd, k: Key, p: Pcb)
    requires v.Shape() && v.Represents(m) && p in v.pcbs && v.fam[v.free] != []
    requires d in v.table && d !in v.active && w == v.Activate(d, k, [p.list]) && w.Shape()
    ensures p.list.place.PList? && w.Represents(m[k := [p.list.place.pcb]])
  {
    forall i | 0 <= i < |v.active| ensures w.fam[w.active[i].procq] == v.fam[v.active[i].procq] && w.keys[i] != k {
      assert v.active[i] in v.active && w.keys[|v.active|] == k;
    }
    forall k' | k' in v.keys ensures k' in w.keys { }
    assert Ids(v.pcbs, [p.list]) == [p.list.place.pcb];
  }

  /** Removal from the middle, stated by positions. */
  lemma RemoveAtIndex<T>(s: seq<T>, i: nat, j: nat)
    requires i < |s| && j < |s| - 1
    ensures RemoveAt(s, i)[j] == s[if j < i then j else j + 1]
  {
  }

  lemma NoDupLinks(v: Lists)
    requires v.Shape()
    ensures NoDup(Links(v.active))
  {
  }

  /** The new descriptor's empty queue joins the family, and p may be appended to it. */
  lemma NewQueueReady(v: Lists, w: Lists, p: Pcb, d: Semd, key: Key, k: nat, f: Family)
    requires v.Shape() && v.free in v.fam && |v.fam[v.free]| == k + 1 && NoDup(v.fam[v.free])
    requires f == v.fam[v.free := RemoveAt(v.fam[v.free], k)] && d in v.table && d.link == v.fam[v.free][k]
    requires p in v.pcbs && p.list !in Nodes(v.fam) && key !in v.keys && w == v.Activate(d, key, [p.list])
    ensures w.Shape() && w.fam == f[d.procq := []][d.procq := f[d.procq := []][d.procq] + [p.list]]
    ensures forall x | x in Nodes(f[d.procq := []]) :: x in Nodes(v.fam) || x == d.procq
    ensures p.list.place.PList? && p.list !in Nodes(f[d.procq := []])
  {
    ShapeActivate(v, d, key, [p.list]);
    assert [] + [p.list] == [p.list];
    NodesShrink(v.fam, v.free, RemoveAt(v.fam[v.free], k));
    NodesGrow(f, d.procq, []);
  }

  /** The new node may follow the chain: it and all nodes of the chain are outside every ring. */
  lemma ChainReady(v: Lists, w: Lists, d: Semd, head: ListHead)
    requires v.Shape() && w.Shape() && w.active == v.active + [d] && head.place == SemdHead
    ensures var c := Links(v.active); NoDup(c) && d.link !in c && head !in c && head != d.link
    ensures forall x | x in Nodes(w.fam) :: x !in Links(v.active) && x != d.link && x != head
    ensures Links(w.active) == Links(v.active) + [d.link]
  {
    var c, c' := Links(v.active), Links(w.active);
    assert c' == c + [d.link];
    NoDupLinks(w);
    NoDupSplit(c, d.link);
    ChainApart(w);
    assert forall l | l in c || l == d.link :: l in c';
  }

  lemma NoDupSplit<T>(s: seq<T>, x: T)
    requires NoDup(s + [x])
    ensures NoDup(s) && x !in s
  {
    var t := s + [x];
    assert t[|s|] == x && forall i | 0 <= i < |s| :: t[i] == s[i];
  }

  /** The queue head of a free descriptor is in no ring. */
  lemma FreeUnused(v: Lists, d: Semd, k: nat)
    requires v.Shape() && k < |v.fam[v.free]| && d in v.table && d.link == v.fam[v.free][k]
    ensures d !in v.active && d.procq !in Nodes(v.fam)
    ensures d.procq !in Nodes(v.fam[v.free := RemoveAt(v.fam[v.free], k)])
  {
  }

  /** The other queues keep their descriptors. */
  lemma RecycleQueues(v: Lists, i: nat)
    requires v.Shape() && i < |v.active|
    ensures v.Recycle(i).Sorts() && v.Recycle(i).Queues()
  {
    hide Lists.Partition;
  }

  lemma ShapeRecycle(v: Lists, i: nat)
    requires v.Shape() && i < |v.active|
    ensures v.Recycle(i).Shape()
  {
    RecycleQueues(v, i);
    hide Lists.Queues;
    var w := v.Recycle(i);
    assert NoDup(v.active) && v.active[i] in v.active && v.active[i] !in w.active;
    assert w.NoOtherRing();
  }

  lemma ActiveAt(v: Lists, i: nat)
    requires v.Shape() && i < |v.active|
    ensures v.active[i] in v.table && v.active[i].procq in v.fam && OfProcs(v.pcbs, v.fam[v.active[i].procq])
    ensures var l := v.active[i].link; l.place.SLink? && l.place.semd < |v.table| && v.table[l.place.semd] == v.active[i]
  {
  }

  /** The nodes of the active chain are in no ring: they are SLink nodes, and those in rings are free. */
  lemma ChainApart(v: Lists)
    requires v.Shape()
    ensures forall l | l in Links(v.active) :: l !in Nodes(v.fam)
    ensures forall l: ListHead | l.place == SemdHead :: l !in Nodes(v.fam)
    ensures forall l | l in Links(v.active) :: l.place.SLink?
  {
  }

  /** s_key of each active descriptor. */
  ghost predicate KeysStored(v: Lists)
    requires |v.keys| == |v.active|
    reads (set d | d in v.active)`key
  {
    forall i | 0 <= i < |v.active| :: v.active[i].key == v.keys[i]
  }

  /** p_semAdd of every queued process is the address of the semaphore it queues on. */
  ghost predicate SemAddsStored(v: Lists)
    requires v.Queues()
    reads (set p | p in v.pcbs)`semAdd
  {
    forall i, l | 0 <= i < |v.active| && l in v.fam[v.active[i].procq] :: ListOwner(v.pcbs, l).semAdd == v.keys[i]
  }

  /** The same, except that p, on the i-th queue, has not recorded it yet. */
  ghost predicate AllButOneStored(v: Lists, p: Pcb, i: nat)
    requires v.Queues()
    reads (set p | p in v.pcbs)`semAdd
  {
    forall j, l | 0 <= j < |v.active| && l in v.fam[v.active[j].procq] :: Recorded(v, p, i, j, l)
  }

  ghost predicate Recorded(v: Lists, p: Pcb, i: nat, j: nat, l: ListHead)
    requires v.Queues() && j < |v.active| && l in v.fam[v.active[j].procq]
    reads (set p | p in v.pcbs)`semAdd
  {
    if l == p.list then j == i else ListOwner(v.pcbs, l).semAdd == v.keys[j]
  }

  /** A blocked process is on the queue of the semaphore its p_semAdd names, and on no other. */
  lemma BlockedWhereItSays(v: Lists, m: Blocked, p: Pcb)
    requires v.Shape() && v.Represents(m) && SemAddsStored(v) && p in v.pcbs && p.list.place.PList?
    ensures forall k | k in m && p.list.place.pcb in m[k] :: k == p.semAdd
  {
    forall k | k in m && p.list.place.pcb in m[k] ensures k == p.semAdd {
      var i :| 0 <= i < |v.keys| && v.keys[i] == k;
      ActiveAt(v, i);
      var s := v.fam[v.active[i].procq];
      IdIn(v.pcbs, s, p);
      assert p.list in s && ListOwner(v.pcbs, p.list) == p;
    }
  }

  /** The i-th queue has a process with this pid. */
  ghost predicate HasPid(v: Lists, i: nat, pid: int)
    requires v.Queues() && i < |v.active|
    reads v.pcbs
  {
    exists l :: l in v.fam[v.active[i].procq] && ListOwner(v.pcbs, l).pid == pid
  }

  /** Some blocked process has this pid. */
  ghost predicate BlockedPid(v: Lists, pid: int)
    requires v.Queues()
    reads v.pcbs
  {
    exists i | 0 <= i < |v.active| :: HasPid(v, i, pid)
  }

  lemma FirstPidIsFirst(v: Lists, m: Blocked, i: nat, p: Pcb, k: nat)
    requires v.Shape() && v.Represents(m) && SemAddsStored(v) && i < |v.active| && p in v.pcbs
    requires v.active[i].procq in v.fam && OfProcs(v.pcbs, v.fam[v.active[i].procq])
    requires FirstPid(v.pcbs, v.fam[v.active[i].procq], k, p.pid) && v.fam[v.active[i].procq][k] == p.list
    ensures p.list.place.PList? && p.semAdd == v.keys[i] && v.keys[i] in m && p.list.place.pcb in m[v.keys[i]]
    ensures Without(m[v.keys[i]], p.list.place.pcb) == RemoveAt(m[v.keys[i]], k)
  {
    var s := v.fam[v.active[i].procq];
    ActiveAt(v, i);
    assert s[k] in s && ListOwner(v.pcbs, s[k]) == p;
    forall j | 0 <= j < k ensures s[j] != p.list {
      assert ListOwner(v.pcbs, s[j]).pid != p.pid;
    }
    IdIn(v.pcbs, s, p);
    FirstId(v.pcbs, s, p, k);
  }

  lemma StoredShrink(v: Lists, w: Lists, i: nat, s: seq<ListHead>)
    requires v.Shape() && SemAddsStored(v) && i < |v.active| && v.active[i].procq in v.fam
    requires forall l | l in s :: l in v.fam[v.active[i].procq]
    requires w == v.WithQueue(i, s) && w.Shape()
    ensures SemAddsStored(w)
  {
  }

  /** Where the j-th remaining descriptor came from. */
  lemma RecycleFrom(v: Lists, w: Lists, i: nat, j: nat) returns (j': nat)
    requires v.Shape() && i < |v.active| && w == v.Recycle(i) && w.Shape() && j < |w.active|
    ensures j' < |v.active| && j' != i && w.active[j] == v.active[j'] && w.keys[j] == v.keys[j']
    ensures v.active[j'].procq in v.fam && w.active[j].procq in w.fam
    ensures w.fam[w.active[j].procq] == v.fam[v.active[j'].procq]
  {
    j' := if j < i then j else j + 1;
    DistinctQueues(v, j', i);
    RemoveAtIndex(v.active, i, j);
    RemoveAtIndex(v.keys, i, j);
    ActiveAt(w, j);
    ActiveAt(v, j');
  }

  /** The j-th remaining queue still stands for the waiters of its address. */
  lemma RecycledQueue(v: Lists, m: Blocked, w: Lists, i: nat, j: nat)
    requires v.Shape() && v.Represents(m) && i < |v.active| && w == v.Recycle(i) && w.Shape() && j < |w.active|
    ensures w.keys[j] in m && w.keys[j] != v.keys[i] && w.active[j].procq in w.fam
    ensures OfProcs(w.pcbs, w.fam[w.active[j].procq]) && m[w.keys[j]] == Ids(w.pcbs, w.fam[w.active[j].procq])
  {
    hide Lists.Sorts, Lists.NoOtherRing, Lists.Partition;
    var j' := RecycleFrom(v, w, i, j);
    assert v.keys[j'] in m;
  }

  lemma RecycledKeys(v: Lists, m: Blocked, i: nat, k: Key)
    requires v.Queues() && v.Represents(m) && i < |v.active| && k in m && k != v.keys[i]
    ensures k in RemoveAt(v.keys, i)
  {
    var n :| 0 <= n < |v.keys| && v.keys[n] == k;
    RemoveAtIndex(v.keys, i, if n < i then n else n - 1);
  }

  lemma RecycleRepresents(v: Lists, m: Blocked, w: Lists, i: nat)
    requires v.Shape() && v.Represents(m) && i < |v.active| && w == v.Recycle(i) && w.Shape()
    ensures w.Represents(m - {v.keys[i]})
  {
    forall j | 0 <= j < |w.active|
      ensures w.keys[j] in m && w.keys[j] != v.keys[i] && m[w.keys[j]] == Ids(w.pcbs, w.fam[w.active[j].procq])
    {
      RecycledQueue(v, m, w, i, j);
    }
    forall k | k in m && k != v.keys[i] ensures k in w.keys { RecycledKeys(v, m, i, k); }
    hide Lists.Sorts, Lists.NoOtherRing, Lists.Partition, RemoveAt, Ids, OfProcs;
  }

  /** The i-th link may move from the chain to the free list. */
  lemma RecycleReady(v: Lists, i: nat, head: ListHead)
    requires v.Shape() && i < |v.active| && head.place == SemdHead
    ensures var c, l := Links(v.active), v.active[i].link; NoDup(c) && head !in c && head != l && l !in RemoveAt(c, i)
    ensures forall x | x in Nodes(v.fam) :: x !in Links(v.active) && x != head
    ensures v.active[i].procq != v.free && Nodes(v.fam - {v.active[i].procq}) <= Nodes(v.fam)
    ensures forall l | l in RemoveAt(Links(v.active), i) :: l in Links(v.active)
  {
  }

  lemma RecycleStored(v: Lists, w: Lists, i: nat)
    requires v.Shape() && KeysStored(v) && SemAddsStored(v) && i < |v.active| && w == v.Recycle(i) && w.Shape()
    ensures KeysStored(w) && SemAddsStored(w)
  {
    forall j | 0 <= j < |w.active| ensures w.active[j].key == w.keys[j] {
      var j' := RecycleFrom(v, w, i, j);
    }
    forall j, l | 0 <= j < |w.active| && l in w.fam[w.active[j].procq]
      ensures ListOwner(w.pcbs, l).semAdd == w.keys[j]
    {
      var j' := RecycleFrom(v, w, i, j);
    }
  }

  lemma LinksRecycle(v: Lists, i: nat)
    requires i < |v.active|
    ensures Links(RemoveAt(v.active, i)) == RemoveAt(Links(v.active), i)
  {
  }

  lemma UnrecordedOld(v: Lists, w: Lists, p: Pcb, i: nat, s: seq<ListHead>)
    requires v.Shape() && SemAddsStored(v) && i < |v.active| && p.list !in Nodes(v.fam)
    requires v.active[i].procq in v.fam && s == v.fam[v.active[i].procq] + [p.list]
    requires w == v.WithQueue(i, s) && w.Shape()
    ensures AllButOneStored(w, p, i)
  {
    forall j, l | 0 <= j < |w.active| && l in w.fam[w.active[j].procq]
      ensures Recorded(w, p, i, j, l)
    {
      OtherQueues(v, i, s, j);
    }
  }

  lemma UnrecordedNew(v: Lists, w: Lists, p: Pcb, d: Semd, k: Key)
    requires v.Shape() && SemAddsStored(v) && p.list !in Nodes(v.fam) && v.fam[v.free] != []
    requires d in v.table && d !in v.active && w == v.Activate(d, k, [p.list]) && w.Shape()
    ensures AllButOneStored(w, p, |v.active|)
  {
    forall j, l | 0 <= j < |w.active| && l in w.fam[w.active[j].procq]
      ensures Recorded(w, p, |v.active|, j, l)
    {
      if j < |v.active| {
        OtherQueues(v, j, [], j);
        DistinctQueues(w, j, |v.active|);
        assert w.active[j] == v.active[j] && w.fam[w.active[j].procq] == v.fam[v.active[j].procq];
      }
    }
  }
}

module Asls {
  import opened Basics
  import opened ListX
  import opened Pcbs
  import opened AslSpec
  import opened AslShapes

  class Asl {
    const table: seq<Semd>
    const pcbs: seq<Pcb>
    const freeHead: ListHead
    const activeHead: ListHead
    ghost var v: Lists
    ghost var m: Blocked

    ghost predicate Meaning()
      reads this
    {
      && v.table == table && v.pcbs == pcbs && v.free == freeHead && activeHead.place == SemdHead
      && v.Shape() && v.Represents(m)
    }

    /** The heap is that of v. */
    ghost predicate Stored(v: Lists)
      reads this, activeHead`next, Nodes(v.fam)`next, Nodes(v.fam)`prev, (set d | d in v.active)`key
      reads (set l | l in Links(v.active))`next, (set p | p in v.pcbs)`semAdd
    {
      && v.Queues()
      && Rings(v.fam) && Chain(activeHead, Links(v.active))
      && KeysStored(v) && SemAddsStored(v)
    }

    ghost predicate Valid()
      reads this, activeHead`next, Nodes(v.fam)`next, Nodes(v.fam)`prev, (set d | d in v.active)`key
      reads (set l | l in Links(v.active))`next, (set p | p in v.pcbs)`semAdd
    {
      Meaning() && Stored(v)
    }

    /** Some semaphore queue holds this entry of the PCB table. */
    ghost predicate Waits(i: Proc)
      reads this
    {
      WaitsIn(m, i)
    }

    /** Nobody waits twice: a link is on one ring, and once. */
    lemma WaitOnce()
      requires Valid()
      ensures Once(m)
    {
      hide Stored, Lists.Represents, Lists.Shape;
      forall k, i, k', j | k in m && k' in m && 0 <= i < |m[k]| && 0 <= j < |m[k']| && m[k][i] == m[k'][j]
        ensures k == k' && i == j
      {
        WaitOnceAt(k, i, k', j);
      }
    }

    lemma WaitOnceAt(k: Key, i: nat, k': Key, j: nat)
      requires Valid() && k in m && k' in m && i < |m[k]| && j < |m[k']| && m[k][i] == m[k'][j]
      ensures k == k' && i == j
    {
      hide Chain, KeysStored, SemAddsStored, Lists.NoOtherRing, Lists.Partition;
      var a: nat :| a < |v.keys| && v.keys[a] == k;
      var b: nat :| b < |v.keys| && v.keys[b] == k';
      ActiveAt(v, a);
      ActiveAt(v, b);
      var g, h := v.active[a].procq, v.active[b].procq;
      assert v.fam[g][i] in v.fam[g] && v.fam[h][j] in v.fam[h];
      assert v.fam[g][i] in Cycle(g, v.fam[g]) && v.fam[h][j] in Cycle(h, v.fam[h]);
      assert v.fam[g][i] == v.fam[h][j] && g == h;
      if a != b { DistinctQueues(v, a, b); }
      NoDupRing(v.fam, g);
    }

    lemma WaiterHasPid(p: Pcb)
      requires Meaning() && p in pcbs && p.list in Nodes(v.fam)
      ensures BlockedPid(v, p.pid)
    {
      var i := QueueOf(p);
      ActiveAt(v, i);
      assert ListOwner(v.pcbs, p.list) == p && HasPid(v, i, p.pid);
    }

    lemma NobodyBlocked(pid: int)
      requires Meaning() && !BlockedPid(v, pid)
      ensures forall p | p in pcbs && p.pid == pid :: p.list.place.PList? && !Waits(p.list.place.pcb)
    {
      forall p | p in pcbs && p.pid == pid ensures p.list.place.PList? && !Waits(p.list.place.pcb) {
        WaiterUse(p);
        if p.list in Nodes(v.fam) { WaiterHasPid(p); }
      }
    }

    /** The i-th queue holds p exactly if its address's waiters do. */
    lemma QueueUse(p: Pcb, i: nat)
      requires Meaning() && p in pcbs && i < |v.active|
      ensures p.list.place.PList? && v.active[i].procq in v.fam && v.keys[i] in m
      ensures p.list in v.fam[v.active[i].procq] <==> p.list.place.pcb in m[v.keys[i]]
    {
      ActiveAt(v, i);
      IdIn(pcbs, v.fam[v.active[i].procq], p);
    }

    /** Which queue a p_list link in the rings is on. */
    lemma QueueOf(p: Pcb) returns (i: nat)
      requires Meaning() && p in pcbs && p.list in Nodes(v.fam)
      ensures i < |v.active| && v.active[i].procq in v.fam && p.list in v.fam[v.active[i].procq]
    {
      var h :| h in v.fam && p.list in Cycle(h, v.fam[h]);
      assert p.list != h && p.list in v.fam[h];
      i :| 0 <= i < |v.active| && v.active[i] == table[h.place.semd];
    }

    lemma WaiterUse(p: Pcb)
      requires Meaning() && p in pcbs
      ensures p.list.place.PList? && (p.list in Nodes(v.fam) <==> Waits(p.list.place.pcb))
    {
      if p.list in Nodes(v.fam) {
        var i := QueueOf(p);
        QueueUse(p, i);
        var k := v.keys[i];
        assert k in m && p.list.place.pcb in m[k];
      }
      assert p.list.place.PList?;
      forall k | k in m && p.list.place.pcb in m[k] ensures p.list in Nodes(v.fam) {
        var i: nat :| i < |v.keys| && v.keys[i] == k;
        QueueUse(p, i);
        assert p.list in Cycle(v.active[i].procq, v.fam[v.active[i].procq]);
      }
    }

    /** The other nodes in the rings are those of the module. */
    lemma OwnNodes()
      requires Meaning()
      ensures forall x | x in Nodes(v.fam) ::
                if x.place.PList? then x.place.pcb < |pcbs| && pcbs[x.place.pcb].list == x
                else x in Heads() && (x.place.SemdFreeHead? || x.place.SLink? || x.place.SProcq?)
    {
      forall x | x in Nodes(v.fam)
        ensures if x.place.PList? then x.place.pcb < |pcbs| && pcbs[x.place.pcb].list == x
                else x in Heads() && (x.place.SemdFreeHead? || x.place.SLink? || x.place.SProcq?)
      {
        var h :| h in v.fam && x in Cycle(h, v.fam[h]);
        assert x == h || x in v.fam[h];
      }
    }

    lemma HeadKinds()
      requires Meaning()
      ensures forall x | x in Heads() :: x.place.SemdFreeHead? || x.place.SemdHead? || x.place.SLink? || x.place.SProcq?
    {
    }

    /** Nothing that the semaphore list is about has changed. */
    twostate lemma StillValid()
      requires old(Valid()) && v == old(v) && m == old(m) && activeHead.next == old(activeHead.next)
      requires Kept(old(Nodes(v.fam)))
      requires forall l | l in old(Links(v.active)) :: l.next == old(l.next)
      requires forall d | d in old(v.active) :: d.key == old(d.key)
      requires forall p | p in pcbs && p.list in old(Nodes(v.fam)) :: p.semAdd == old(p.semAdd)
      ensures Valid()
    {
      forall i, l | 0 <= i < |v.active| && l in v.fam[v.active[i].procq]
        ensures ListOwner(pcbs, l).semAdd == old(ListOwner(pcbs, l).semAdd)
      {
        ActiveAt(v, i);
        assert l in Cycle(v.active[i].procq, v.fam[v.active[i].procq]);
      }
    }

    constructor (maxproc: nat, pcbs: seq<Pcb>)
      ensures this.pcbs == pcbs && |table| == maxproc && SemdTable(table)
      ensures freeHead.place == SemdFreeHead && activeHead.place == SemdHead
      ensures fresh(Heads()) && forall d | d in table :: fresh(d)
    {
      var t: seq<Semd> := [];
      for i := 0 to maxproc
        invariant |t| == i && SemdTable(t)
        invariant forall d | d in t :: fresh(d) && fresh(d.link) && fresh(d.procq)
      {
        var d := new Semd(i);
        t := t + [d];
      }
      table := t;
      this.pcbs := pcbs;
      var f := new ListHead(SemdFreeHead);
      freeHead := f;
      activeHead := new ListHead(SemdHead);
      v := Lists(t, pcbs, f, map[], [], []);
      m := map[];
    }

    /** The lists of initASL after its first n rounds. */
    ghost function FreshLists(n: nat): Lists
      requires n <= |table|
    {
      Lists(table, pcbs, freeHead, map[freeHead := Links(table[..n])], [], [])
    }

    lemma NotYetLinked(n: nat)
      requires SemdTable(table) && freeHead.place == SemdFreeHead && n < |table| && Rings(FreshLists(n).fam)
      ensures table[n].link !in Nodes(FreshLists(n).fam)
      ensures freeHead.prev == freeHead || exists i | 0 <= i < |table| :: freeHead.prev == table[i].link
      ensures FreshLists(n + 1).fam == FreshLists(n).fam[freeHead := FreshLists(n).fam[freeHead] + [table[n].link]]
    {
      assert Links(table[..n + 1]) == Links(table[..n]) + [table[n].link];
      var f := FreshLists(n).fam;
      RingLinks(f, freeHead);
      if freeHead.prev != freeHead { assert freeHead.prev == table[n - 1].link; }
    }

    /** One round of initASL. */
    method JoinFree(i: nat)
      requires SemdTable(table) && freeHead.place == SemdFreeHead && activeHead.place == SemdHead
      requires i < |table| && Rings(FreshLists(i).fam)
      modifies freeHead, set i | 0 <= i < |table| :: table[i].link
      ensures Rings(FreshLists(i + 1).fam)
    {
      NotYetLinked(i);
      InitLoose(table[i].link, FreshLists(i).fam);
      NotYetLinked(i);
      ListAddTail(table[i].link, freeHead, FreshLists(i).fam);
    }

    /** initASL: every descriptor joins the free list, in table order; the chain is empty. */
    method InitASL()
      requires SemdTable(table) && Table(pcbs) && freeHead.place == SemdFreeHead && activeHead.place == SemdHead
      modifies `v, `m, freeHead, activeHead`next, set i | 0 <= i < |table| :: table[i].link
      ensures Valid() && m == map[] && v == FreshLists(|table|)
    {
      InitRing(freeHead, map[]);
      activeHead.next := null;
      for i := 0 to |table|
        invariant Rings(FreshLists(i).fam) && activeHead.next == null
      {
        JoinFree(i);
      }
      FreshShape();
      Commit(FreshLists(|table|), map[]);
    }

    lemma FreshShape()
      requires SemdTable(table) && Table(pcbs) && freeHead.place == SemdFreeHead
      ensures FreshLists(|table|).Shape() && FreshLists(|table|).Represents(map[])
    {
    }

    /** findSemd */
    method FindSemd(semAdd: Key) returns (sem: Semd?, ghost i: nat)
      requires Valid()
      ensures Valid() && (sem == null <==> semAdd !in m)
      ensures sem == null ==> semAdd !in v.keys
      ensures sem != null ==> i < |v.active| && v.active[i] == sem && v.keys[i] == semAdd
    {
      hide Rings, SemAddsStored;
      ghost var c := Links(v.active);
      i := 0;
      var iter := activeHead.next;
      while iter != null && activeHead.next != activeHead
        invariant Valid() && i <= |c| && iter == Stop(c, i)
        invariant forall j | 0 <= j < i :: v.keys[j] != semAdd
        decreases |c| - i
      {
        ActiveAt(v, i);
        assert iter == c[i];
        var iterSem := table[iter.place.semd];
        if iterSem.key == semAdd { return iterSem, i; }
        iter := iter.next;
        i := i + 1;
      }
      if |c| > 0 { ActiveAt(v, 0); }
      sem := null;
    }

    ghost method Commit(w: Lists, m': Blocked)
      requires w.table == table && w.pcbs == pcbs && w.free == freeHead && activeHead.place == SemdHead
      requires w.Shape() && w.Represents(m') && Stored(w)
      modifies `v, `m
      ensures Valid() && v == w && m == m'
    {
      v, m := w, m';
    }

    /** The heap agrees with v, except that the rings are those of fam and the chain is c. */
    ghost predicate Holds(fam: Family, c: seq<ListHead>)
      reads this, activeHead`next, Nodes(fam)`next, Nodes(fam)`prev, (set l | l in c)`next
      reads (set d | d in v.active)`key, (set p | p in v.pcbs)`semAdd
    {
      v.Queues() && Rings(fam) && Chain(activeHead, c) && KeysStored(v) && SemAddsStored(v)
    }

    /** No node of the family is on the chain c. */
    ghost predicate OffChain(fam: Family, c: seq<ListHead>) {
      activeHead !in Nodes(fam) && forall l | l in c :: l !in Nodes(fam)
    }

    /** list_add_tail on a ring leaves the chain and all fields alone. */
    method RingAdd(l: ListHead, head: ListHead, ghost fam: Family, ghost c: seq<ListHead>)
      requires Holds(fam, c) && OffChain(fam, c) && v.pcbs == pcbs
      requires head in fam && l !in Nodes(fam) && l !in c && l != activeHead
      modifies l, Nodes(fam)
      ensures Holds(fam[head := fam[head] + [l]], c)
    {
      RingLinks(fam, head);
      ListAddTail(l, head, fam);
    }

    /** The write of p_semAdd that ends insertBlocked. */
    method RecordSemAdd(p: Pcb, semAdd: Key, ghost w: Lists, ghost i: nat)
      requires w.Shape() && w.pcbs == pcbs && p in pcbs && i < |w.active| && w.keys[i] == semAdd
      requires Rings(w.fam) && Chain(activeHead, Links(w.active)) && KeysStored(w) && AllButOneStored(w, p, i)
      modifies p`semAdd
      ensures Stored(w) && p.semAdd == semAdd
    {
      p.semAdd := semAdd;
      forall j, l | 0 <= j < |w.active| && l in w.fam[w.active[j].procq]
        ensures ListOwner(pcbs, l).semAdd == w.keys[j]
      {
        ActiveAt(w, j);
      }
    }

    /** The heap writes of insertBlocked on a semaphore that already has a descriptor. */
    method Enqueue(sem: Semd, p: Pcb, semAdd: Key, ghost i: nat, ghost q: seq<ListHead>, ghost w: Lists)
      requires Valid() && i < |v.active| && v.active[i] == sem && v.keys[i] == semAdd
      requires p in pcbs && p.list !in Nodes(v.fam) && sem.procq in v.fam && q == v.fam[sem.procq] + [p.list]
      requires p.list.place.PList? && w == v.WithQueue(i, q) && w.Shape()
      modifies p`semAdd, p.list, Nodes(v.fam)
      ensures Stored(w) && p.semAdd == semAdd
    {
      ChainApart(v);
      RingAdd(p.list, sem.procq, v.fam, Links(v.active));
      UnrecordedOld(v, w, p, i, q);
      RecordSemAdd(p, semAdd, w, i);
    }

    method InsertOld(sem: Semd, p: Pcb, semAdd: Key, ghost i: nat)
      requires Valid() && i < |v.active| && v.active[i] == sem && v.keys[i] == semAdd
      requires p in pcbs && p.list !in Nodes(v.fam)
      modifies `v, `m, p`semAdd, p.list, Nodes(v.fam)
      ensures Valid() && m == old(m)[semAdd := old(m)[semAdd] + [p.list.place.pcb]] && p.semAdd == semAdd
    {
      ActiveAt(v, i);
      ghost var q := v.fam[sem.procq] + [p.list];
      ghost var w, m' := v.WithQueue(i, q), m[semAdd := m[semAdd] + [p.list.place.pcb]];
      QueueGrows(v, m, i, p);
      Enqueue(sem, p, semAdd, i, q, w);
      Commit(w, m');
    }

    /** The end of the chain: the code walks it from the first node and links the new one last. */
    method AppendChain(link: ListHead, ghost c: seq<ListHead>, ghost fam: Family)
      requires Rings(fam) && forall x | x in Nodes(fam) :: x !in c && x != link && x != activeHead
      requires Chain(activeHead, c) && link !in c && link != activeHead && activeHead !in c && NoDup(c)
      modifies activeHead`next, (set l | l in c)`next, link`next
      ensures Chain(activeHead, c + [link]) && Rings(fam)
    {
      if activeHead.next == null {
        activeHead.next := link;
        link.next := null;
      } else {
        ghost var i := 0;
        var iter := activeHead.next;
        while iter.next != null
          invariant i < |c| && iter == c[i]
          decreases |c| - i
        {
          iter := iter.next;
          i := i + 1;
        }
        iter.next := link;
        link.next := null;
        assert forall j | 0 <= j < i :: c[j] != iter;
      }
    }

    /** All list heads of the module. */
    ghost function Heads(): set<ListHead> {
      {freeHead, activeHead} + (set i | 0 <= i < |table| :: table[i].link) + (set i | 0 <= i < |table| :: table[i].procq)
    }

    /** list_del on a ring leaves the chain and all fields alone. */
    method RingDel(l: ListHead, ghost head: ListHead, ghost k: nat, ghost fam: Family, ghost c: seq<ListHead>)
      requires Holds(fam, c) && OffChain(fam, c) && v.pcbs == pcbs
      requires head in fam && k < |fam[head]| && fam[head][k] == l
      modifies Nodes(fam)
      ensures Holds(fam[head := RemoveAt(fam[head], k)], c)
    {
      RingLinks(fam, head);
      MemberLinks(fam, head, k);
      ListDel(l, head, k, fam);
    }

    /** mkEmptyProcQ on an unused queue head. */
    method RingInit(l: ListHead, ghost fam: Family, ghost c: seq<ListHead>)
      requires Holds(fam, c) && v.pcbs == pcbs && l !in Nodes(fam) && l !in c && l != activeHead
      modifies l
      ensures Holds(fam[l := []], c)
    {
      InitRing(l, fam);
    }

    /** list_del on the tail of the free list. */
    method TakeFree(ghost k: nat, ghost f: Family) returns (d: Semd)
      requires Meaning() && Holds(v.fam, Links(v.active))
      requires |v.fam[freeHead]| == k + 1 && f == v.fam[freeHead := RemoveAt(v.fam[freeHead], k)]
      modifies Nodes(v.fam)
      ensures d in table && d.link == v.fam[freeHead][k]
      ensures Holds(f, Links(v.active))
    {
      RingLinks(v.fam, freeHead);
      ChainApart(v);
      assert v.fam[freeHead][k] in v.fam[freeHead];
      d := table[freeHead.prev.place.semd];
      RingDel(d.link, freeHead, k, v.fam, Links(v.active));
    }

    /** The rest of allocSem: the address and the empty queue. */
    method InitSem(d: Semd, key: Key, ghost f: Family)
      requires Meaning() && Holds(f, Links(v.active))
      requires d in table && d !in v.active && d.procq !in Nodes(f)
      modifies d`key, d.procq
      ensures d.key == key && Holds(f[d.procq := []], Links(v.active))
    {
      ChainApart(v);
      d.key := key;
      RingInit(d.procq, f, Links(v.active));
    }

    /** allocSem: the tail of the free list becomes a descriptor with an empty queue. */
    method AllocSem(key: Key, ghost k: nat, ghost f: Family) returns (d: Semd)
      requires Meaning() && Holds(v.fam, Links(v.active))
      requires |v.fam[freeHead]| == k + 1 && f == v.fam[freeHead := RemoveAt(v.fam[freeHead], k)]
      modifies Nodes(v.fam), Heads(), (set d | d in table)`key
      ensures d in table && d !in v.active && d.link == v.fam[freeHead][k] && d.key == key
      ensures Holds(f[d.procq := []], Links(v.active))
    {
      d := TakeFree(k, f);
      FreeUnused(v, d, k);
      InitSem(d, key, f);
    }

    lemma LinksAreHeads(w: Lists)
      requires w.Shape() && w.table == table
      ensures forall l | l in Links(w.active) :: l in Heads()
    {
    }

    /** The chain writes of insertSem, once the new descriptor's queue holds p. */
    method LinkSem(d: Semd, ghost w: Lists)
      requires Meaning() && Holds(w.fam, Links(v.active))
      requires w.Shape() && w.table == v.table && w.active == v.active + [d]
      modifies Heads()
      ensures Holds(w.fam, Links(w.active))
    {
      ChainReady(v, w, d, activeHead);
      LinksAreHeads(w);
      AppendChain(d.link, Links(v.active), w.fam);
    }

    /** d is the descriptor that a new semaphore `key` with sole waiter p gets, and w the lists then. */
    ghost predicate IsNew(d: Semd, key: Key, p: Pcb, w: Lists)
      reads this, d`key
    {
      && v.free in v.fam && v.fam[v.free] != []
      && d in table && d !in v.active && d.key == key
      && w == v.Activate(d, key, [p.list]) && w.Shape()
    }

    /** The first half of insertSem: a fresh descriptor with p on its queue. */
    method AllocWith(key: Key, p: Pcb, ghost k: nat) returns (d: Semd, ghost w: Lists)
      requires Meaning() && Holds(v.fam, Links(v.active)) && key !in v.keys && NoDup(v.fam[freeHead])
      requires |v.fam[freeHead]| == k + 1 && p in pcbs && p.list !in Nodes(v.fam)
      modifies Nodes(v.fam), Heads(), p.list, (set d | d in table)`key
      ensures IsNew(d, key, p, w) && Holds(w.fam, Links(v.active))
    {
      ChainApart(v);
      ghost var f := v.fam[freeHead := RemoveAt(v.fam[freeHead], k)];
      d := AllocSem(key, k, f);
      w := v.Activate(d, key, [p.list]);
      NewQueueReady(v, w, p, d, key, k, f);
      RingAdd(p.list, d.procq, f[d.procq := []], Links(v.active));
    }

    /** insertSem: a fresh descriptor, p on its queue, and the descriptor at the end of the chain. */
    method InsertSem(key: Key, p: Pcb, ghost k: nat) returns (d: Semd, ghost w: Lists)
      requires Meaning() && Holds(v.fam, Links(v.active)) && key !in v.keys && NoDup(v.fam[freeHead])
      requires |v.fam[freeHead]| == k + 1 && p in pcbs && p.list !in Nodes(v.fam)
      modifies Nodes(v.fam), Heads(), p.list, (set d | d in table)`key
      ensures IsNew(d, key, p, w) && Holds(w.fam, Links(w.active))
    {
      hide Meaning, Holds, Lists.Shape;
      d, w := AllocWith(key, p, k);
      LinkSem(d, w);
    }

    method RecordNew(p: Pcb, semAdd: Key, ghost d: Semd, ghost w: Lists)
      requires Meaning() && p in pcbs && p.list !in Nodes(v.fam)
      requires IsNew(d, semAdd, p, w) && Holds(w.fam, Links(w.active))
      modifies p`semAdd
      ensures Stored(w) && p.semAdd == semAdd
    {
      UnrecordedNew(v, w, p, d, semAdd);
      RecordSemAdd(p, semAdd, w, |v.active|);
    }

    /** The heap writes of insertBlocked on a semaphore without a descriptor. */
    method EnqueueNew(semAdd: Key, p: Pcb) returns (d: Semd, ghost w: Lists)
      requires Valid() && semAdd !in v.keys && v.fam[freeHead] != [] && p in pcbs && p.list !in Nodes(v.fam)
      modifies p`semAdd, Nodes(v.fam), Heads(), p.list, (set d | d in table)`key
      ensures IsNew(d, semAdd, p, w) && Stored(w) && p.semAdd == semAdd
    {
      hide Chain, KeysStored, SemAddsStored, IsNew;
      NoDupRing(v.fam, freeHead);
      d, w := InsertSem(semAdd, p, |v.fam[freeHead]| - 1);
      RecordNew(p, semAdd, d, w);
    }

    method InsertNew(semAdd: Key, p: Pcb)
      requires Valid() && semAdd !in v.keys && v.fam[freeHead] != [] && p in pcbs && p.list !in Nodes(v.fam)
      modifies `v, `m, p`semAdd, Nodes(v.fam), Heads(), p.list, (set d | d in table)`key
      ensures Valid() && m == old(m)[semAdd := [p.list.place.pcb]] && p.semAdd == semAdd
    {
      var d;
      ghost var w;
      d, w := EnqueueNew(semAdd, p);
      ActivateRepresents(v, m, w, d, semAdd, p);
      Commit(w, m[semAdd := [p.list.place.pcb]]);
    }

    /** list_empty on the free list: the map is full. */
    method NoneFree() returns (b: bool)
      requires Valid()
      ensures Valid() && (b <==> v.fam[freeHead] == [])
      ensures b <==> |m| >= |table|
    {
      RingLinks(v.fam, freeHead);
      ContentsSize(v, m);
      b := freeHead.next == freeHead;
    }

    /** The write of p_semAdd that precedes insertBlocked. */
    method SetSemAdd(p: Pcb, semAdd: Key)
      requires Valid() && p in pcbs && p.list !in Nodes(v.fam)
      modifies p`semAdd
      ensures Valid() && p.semAdd == semAdd
    {
      p.semAdd := semAdd;
      StillValid();
    }

    /** insertBlocked: 0 when p was queued, 1 when no descriptor was left. */
    method InsertBlocked(semAdd: Key, p: Pcb) returns (r: int)
      requires Valid() && p in pcbs && p.list !in Nodes(v.fam)
      modifies `v, `m, p`semAdd, Nodes(v.fam), Heads(), p.list, (set d | d in table)`key
      ensures Valid()
      ensures (m, r == 0) == Insert(old(m), |table|, semAdd, p.list.place.pcb) && (r == 0 || r == 1)
      ensures p.semAdd == if r == 0 then semAdd else old(p.semAdd)
    {
      hide Meaning, Stored;
      var sem;
      ghost var i;
      sem, i := FindSemd(semAdd);
      if sem != null {
        InsertOld(sem, p, semAdd, i);
        return 0;
      }
      r := InsertFirst(semAdd, p);
    }

    /** The branch of insertBlocked for a semaphore nobody waits on. */
    method InsertFirst(semAdd: Key, p: Pcb) returns (r: int)
      requires Valid() && p in pcbs && p.list !in Nodes(v.fam) && semAdd !in v.keys && semAdd !in m
      modifies `v, `m, p`semAdd, Nodes(v.fam), Heads(), p.list, (set d | d in table)`key
      ensures Valid()
      ensures (m, r == 0) == Insert(old(m), |table|, semAdd, p.list.place.pcb) && (r == 0 || r == 1)
      ensures p.semAdd == if r == 0 then semAdd else old(p.semAdd)
    {
      hide Meaning, Stored;
      var none := NoneFree();
      if none { return 1; }
      InsertNew(semAdd, p);
      return 0;
    }

    // -------------------------------------------------------------------------------------------
    // removeBlocked, outBlocked, headBlocked, outBlockedPID

    /** removeProcQ on one queue leaves the chain and all fields alone. */
    method RingPop(head: ListHead, ghost fam: Family, ghost c: seq<ListHead>) returns (p: Pcb?)
      requires Holds(fam, c) && OffChain(fam, c) && v.pcbs == pcbs
      requires head in fam && OfProcs(pcbs, fam[head])
      modifies Nodes(fam)
      ensures p == null <==> fam[head] == []
      ensures p == null ==> Holds(fam, c)
      ensures p != null ==> p in pcbs && p.list == fam[head][0] && Holds(fam[head := RemoveAt(fam[head], 0)], c)
    {
      RingLinks(fam, head);
      assert fam[head] != [] ==> fam[head][1..] == RemoveAt(fam[head], 0);
      p := RemoveProcQ(pcbs, head, fam);
    }

    /** The lists after the k-th waiter of the i-th semaphore is gone. */
    ghost method CommitShrunk(i: nat, k: nat, s: seq<ListHead>)
      requires Meaning() && i < |v.active| && v.active[i].procq in v.fam
      requires k < |v.fam[v.active[i].procq]| && s == RemoveAt(v.fam[v.active[i].procq], k)
      requires Holds(v.fam[v.active[i].procq := s], Links(v.active))
      modifies `v, `m
      ensures Valid() && v == old(v).WithQueue(i, s) && old(v).keys[i] in old(m) && k < |old(m)[old(v).keys[i]]|
      ensures m == old(m)[old(v).keys[i] := RemoveAt(old(m)[old(v).keys[i]], k)]
    {
      ActiveAt(v, i);
      IdsRemoveAt(pcbs, v.fam[v.active[i].procq], k);
      ShapeWithQueue(v, m, i, s);
      StoredShrink(v, v.WithQueue(i, s), i, s);
      Commit(v.WithQueue(i, s), m[v.keys[i] := RemoveAt(m[v.keys[i]], k)]);
    }

    /** The search for the predecessor in the singly linked chain, and the unlinking. */
    method UnlinkChain(link: ListHead, ghost i: nat, ghost c: seq<ListHead>, ghost fam: Family)
      requires Rings(fam) && OffChain(fam, c)
      requires Chain(activeHead, c) && i < |c| && c[i] == link && NoDup(c) && activeHead !in c
      modifies activeHead`next, (set l | l in c)`next
      ensures Chain(activeHead, RemoveAt(c, i)) && Rings(fam)
    {
      ghost var j := 0;
      var prev := activeHead;
      while prev.next != link
        invariant j <= i && prev == if j == 0 then activeHead else c[j - 1]
        decreases i - j
      {
        prev := prev.next;
        j := j + 1;
      }
      assert j == i;
      prev.next := link.next;
      link.next := null;
      forall n | 0 <= n < |c| - 1 ensures RemoveAt(c, i)[n].next == Stop(RemoveAt(c, i), n + 1) {
        RemoveAtIndex(c, i, n);
        if n + 1 < |c| - 1 { RemoveAtIndex(c, i, n + 1); }
      }
    }

    /** The descriptor's link leaves the chain and ends the free list. */
    method RecycleLink(sem: Semd, ghost i: nat, ghost f: Family)
      requires Meaning() && Holds(v.fam, Links(v.active)) && i < |v.active| && v.active[i] == sem
      requires f == v.fam - {sem.procq}
      modifies Nodes(v.fam), Heads()
      ensures freeHead in f && Holds(f[freeHead := f[freeHead] + [sem.link]], RemoveAt(Links(v.active), i))
    {
      hide KeysStored, SemAddsStored;
      ghost var c := Links(v.active);
      RecycleReady(v, i, activeHead);
      LinksAreHeads(v);
      UnlinkChain(sem.link, i, c, v.fam);
      Forget(v.fam, {sem.procq});
      RingAdd(sem.link, freeHead, f, RemoveAt(c, i));
    }

    /** The tail of removeBlocked: an emptied descriptor goes back to the free list. */
    method Recycle(sem: Semd, ghost i: nat)
      requires Valid() && i < |v.active| && v.active[i] == sem
      modifies `v, `m, Nodes(v.fam), Heads()
      ensures Valid() && m == old(m) - {old(v).keys[i]}
    {
      ghost var w := v.Recycle(i);
      ShapeRecycle(v, i);
      RecycleRepresents(v, m, w, i);
      LinksRecycle(v, i);
      RecycleLink(sem, i, v.fam - {sem.procq});
      RecycleStored(v, w, i);
      Commit(w, m - {v.keys[i]});
    }

    /** removeProcQ on the i-th active descriptor. */
    method TakeHead(sem: Semd, semAdd: Key, ghost i: nat) returns (p: Pcb?)
      requires Valid() && i < |v.active| && v.active[i] == sem && v.keys[i] == semAdd && semAdd in m
      modifies `v, `m, Nodes(v.fam)
      ensures Valid() && v.active == old(v.active) && v.keys == old(v.keys) && Nodes(v.fam) <= Nodes(old(v).fam)
      ensures if old(m)[semAdd] == [] then p == null && m == old(m)
        else && p != null && p in pcbs && p.list.place == PList(old(m)[semAdd][0])
             && m == old(m)[semAdd := RemoveAt(old(m)[semAdd], 0)]
    {
      ActiveAt(v, i);
      ChainApart(v);
      ghost var q := v.fam[sem.procq];
      p := RingPop(sem.procq, v.fam, Links(v.active));
      if p != null {
        NodesShrink(v.fam, sem.procq, RemoveAt(q, 0));
        CommitShrunk(i, 0, RemoveAt(q, 0));
      }
    }

    /** The emptyProcQ test of removeBlocked, and what follows when it holds. */
    method RecycleIfEmpty(sem: Semd, semAdd: Key, ghost i: nat)
      requires Valid() && i < |v.active| && v.active[i] == sem && v.keys[i] == semAdd && semAdd in m
      modifies `v, `m, Nodes(v.fam), Heads()
      ensures Valid() && m == if old(m)[semAdd] == [] then old(m) - {semAdd} else old(m)
    {
      ActiveAt(v, i);
      RingLinks(v.fam, sem.procq);
      if sem.procq.next == sem.procq { Recycle(sem, i); }
    }

    /** removeBlocked */
    method RemoveBlocked(semAdd: Key) returns (head: Pcb?)
      requires Valid()
      modifies `v, `m, Nodes(v.fam), Heads()
      ensures Valid() && m == Remove(old(m), semAdd).0
      ensures var r := Remove(old(m), semAdd).1;
        if r == None then head == null else head != null && head in pcbs && head.list.place == PList(r.value)
    {
      hide Meaning, Stored;
      var sem;
      ghost var i;
      sem, i := FindSemd(semAdd);
      if sem == null { return null; }
      head := TakeHead(sem, semAdd, i);
      RecycleIfEmpty(sem, semAdd, i);
      RemoveInSteps(old(m), semAdd);
    }

    method HeadOf(sem: Semd, semAdd: Key, ghost i: nat) returns (p: Pcb?)
      requires Valid() && i < |v.active| && v.active[i] == sem && v.keys[i] == semAdd && semAdd in m
      ensures Valid()
      ensures if m[semAdd] == [] then p == null else p != null && p in pcbs && p.list.place == PList(m[semAdd][0])
    {
      hide Chain, KeysStored, SemAddsStored;
      ActiveAt(v, i);
      RingLinks(v.fam, sem.procq);
      if sem.procq.next == sem.procq { return null; }
      p := HeadProcQ(pcbs, sem.procq, v.fam);
    }

    /** headBlocked */
    method HeadBlocked(semAdd: Key) returns (p: Pcb?)
      requires Valid()
      ensures Valid()
      ensures var r := Head(m, semAdd);
        if r == None then p == null else p != null && p in pcbs && p.list.place == PList(r.value)
    {
      hide Meaning, Stored;
      var sem;
      ghost var i;
      sem, i := FindSemd(semAdd);
      if sem == null { return null; }
      p := HeadOf(sem, semAdd, i);
    }

    /** outProcQ on one queue leaves the chain and all fields alone. */
    method RingOut(head: ListHead, p: Pcb, ghost fam: Family, ghost c: seq<ListHead>) returns (out: Pcb?, ghost k: nat)
      requires Holds(fam, c) && OffChain(fam, c) && v.pcbs == pcbs && p in pcbs && Table(pcbs)
      requires head in fam && OfProcs(pcbs, fam[head]) && OnlyOne(p.pid)
      modifies Nodes(fam)
      ensures out == null ==> p.list !in fam[head] && Holds(fam, c)
      ensures out != null ==> out == p && k < |fam[head]| && fam[head][k] == p.list && p.list !in fam[head][..k]
      ensures out != null ==> Holds(fam[head := RemoveAt(fam[head], k)], c)
    {
      RingLinks(fam, head);
      PidIsIdentity(fam[head], p);
      out, k := OutProcQ(pcbs, head, p, fam);
    }

    /** Allocated pids are unique: two entries with this one are the same entry. */
    ghost predicate OnlyOne(pid: int)
      reads pcbs
    {
      forall q, r | q in pcbs && r in pcbs && q.pid == pid && r.pid == pid :: q == r
    }

    lemma PidIsIdentity(s: seq<ListHead>, p: Pcb)
      requires Table(pcbs) && OfProcs(pcbs, s) && p in pcbs && OnlyOne(p.pid)
      ensures forall k: nat | FirstPid(pcbs, s, k, p.pid) :: s[k] == p.list && p.list !in s[..k]
      ensures NoPid(pcbs, s, |s|, p.pid) ==> p.list !in s
    {
    }

    /** outProcQ on the i-th active descriptor; the descriptor stays, even with nobody left. */
    method TakeOut(sem: Semd, semAdd: Key, p: Pcb, ghost i: nat) returns (out: Pcb?)
      requires Valid() && i < |v.active| && v.active[i] == sem && v.keys[i] == semAdd && semAdd in m
      requires p in pcbs && OnlyOne(p.pid) && p.list.place.PList?
      modifies `v, `m, Nodes(v.fam)
      ensures Valid() && m == Out(old(m), semAdd, p.list.place.pcb)
      ensures if p.list.place.pcb in old(m)[semAdd] then out == p else out == null && m == old(m)
    {
      hide Chain, KeysStored, SemAddsStored, Rings;
      ActiveAt(v, i);
      ChainApart(v);
      ghost var q, k := v.fam[sem.procq], 0;
      out, k := RingOut(sem.procq, p, v.fam, Links(v.active));
      FirstId(pcbs, q, p, if out == null then |q| else k);
      IdIn(pcbs, q, p);
      if out != null { CommitShrunk(i, k, RemoveAt(q, k)); }
    }

    /** outBlocked */
    method OutBlocked(p: Pcb) returns (out: Pcb?)
      requires Valid() && p in pcbs && OnlyOne(p.pid) && p.list.place.PList?
      modifies `v, `m, Nodes(v.fam)
      ensures Valid() && m == Out(old(m), p.semAdd, p.list.place.pcb)
      ensures if exists k :: k in old(m) && p.list.place.pcb in old(m)[k] then out == p else out == null && m == old(m)
    {
      hide Lists.Shape, Lists.Represents, Rings, Chain, KeysStored, SemAddsStored;
      BlockedWhereItSays(v, m, p);
      var sem;
      ghost var i;
      sem, i := FindSemd(p.semAdd);
      if sem == null { return null; }
      out := TakeOut(sem, p.semAdd, p, i);
    }

    /** The inner walk of outBlockedPID, over the queue of one chain node. */
    method ScanSem(iterSem: ListHead, pid: int, ghost i: nat) returns (out: Pcb?, ghost k: nat)
      requires Walking(iterSem, pid, i) && i < |v.active|
      ensures Walking(iterSem, pid, i) && (out == null <==> !HasPid(v, i, pid))
      ensures out != null ==> IsFirst(out, pid, i, k)
    {
      ActiveAt(v, i);
      var sem := table[iterSem.place.semd];
      out, k := ScanProcQ(pcbs, sem.procq, pid, v.fam);
    }

    /** A step along the active chain. */
    lemma NextSem(i: nat)
      requires Meaning() && Holds(v.fam, Links(v.active)) && i < |v.active|
      ensures activeHead.next == v.active[0].link
      ensures v.active[i].link.next == if i + 1 < |v.active| then v.active[i + 1].link else null
      ensures v.active[i].link != activeHead
    {
    }

    /** The outer walk has taken i steps and found the pid on none of the queues before. */
    ghost predicate Walking(iterSem: ListHead?, pid: int, i: nat)
      reads this, activeHead`next, Nodes(v.fam)`next, Nodes(v.fam)`prev, (set d | d in v.active)`key
      reads (set l | l in Links(v.active))`next, (set p | p in v.pcbs), pcbs
    {
      && Valid()
      && i <= |v.active| && iterSem == Stop(Links(v.active), i) && iterSem != activeHead
      && forall j | 0 <= j < i :: !HasPid(v, j, pid)
    }

    lemma StartWalk(pid: int)
      requires Valid()
      ensures Walking(activeHead.next, pid, 0) && activeHead.next != activeHead
    {
      hide Lists.Shape, Rings, KeysStored, SemAddsStored;
      if v.active != [] { NextSem(0); }
    }

    /** The search goes on behind a queue without the pid. */
    lemma WalkOn(iterSem: ListHead, pid: int, i: nat)
      requires Walking(iterSem, pid, i) && i < |v.active| && !HasPid(v, i, pid)
      ensures Walking(iterSem.next, pid, i + 1) && iterSem.next != activeHead
    {
      hide Lists.Shape, Rings, KeysStored, SemAddsStored, HasPid;
      NextSem(i);
      if i + 1 < |v.active| { NextSem(i + 1); }
    }

    /** The NULL that ends the chain: every active descriptor has been visited. */
    lemma WalkEnds(pid: int, i: nat)
      requires Walking(null, pid, i)
      ensures i == |v.active| && !BlockedPid(v, pid)
    {
      hide Lists.Shape, Rings, KeysStored, SemAddsStored, HasPid;
    }

    /** One round of the outer walk: the i-th queue, then the step to the next node. */
    method VisitSem(iterSem: ListHead, pid: int, ghost i: nat)
        returns (out: Pcb?, ghost k: nat, next: ListHead?)
      requires Walking(iterSem, pid, i)
      ensures Valid() && i < |v.active| && (out == null <==> !HasPid(v, i, pid))
      ensures if out == null then Walking(next, pid, i + 1) && next != activeHead else IsFirst(out, pid, i, k)
    {
      hide HasPid, Lists.Shape, Rings, KeysStored, SemAddsStored, Chain;
      out, k := ScanSem(iterSem, pid, i);
      if out == null { WalkOn(iterSem, pid, i); }
      next := iterSem.next;
    }

    /** The outer walk follows next until it is back at the list head, which a NULL-terminated chain never is: when no
        blocked process has the pid it visits all active descriptors and steps onto NULL (null here). */
    method FindBlockedPid(pid: int) returns (proc: Pcb?, ghost i: nat, ghost k: nat)
      requires Valid()
      ensures Valid() && (proc == null <==> !BlockedPid(v, pid))
      ensures proc == null ==> i == |v.active|
      ensures proc != null ==> proc in pcbs && proc.pid == pid && IsFirst(proc, pid, i, k)
    {
      hide Valid, Walking;
      StartWalk(pid);
      var iterSem := activeHead.next;
      i := 0;
      while iterSem != activeHead
        invariant Walking(iterSem, pid, i) && Valid() && iterSem != activeHead && i <= |v.active|
        decreases |v.active| - i
      {
        if iterSem == null {
          WalkEnds(pid, i);
          return null, i, 0;
        }
        var next;
        proc, k, next := VisitSem(iterSem, pid, i);
        if proc != null { return; }
        iterSem := next;
        i := i + 1;
      }
      assert false;
    }

    /** proc is the first waiter with this pid on the i-th queue, at position k. */
    ghost predicate IsFirst(proc: Pcb?, pid: int, i: nat, k: nat)
      reads this, pcbs
    {
      && proc != null && proc in pcbs && proc.pid == pid
      && v.Queues() && v.pcbs == pcbs && i < |v.active| && v.active[i] in v.active
      && FirstPid(pcbs, v.fam[v.active[i].procq], k, pid)
      && proc.list == v.fam[v.active[i].procq][k]
    }

    /** list_del of that waiter. */
    method DeleteAt(proc: Pcb, ghost pid: int, ghost i: nat, ghost k: nat)
      requires Valid() && IsFirst(proc, pid, i, k)
      modifies `v, `m, Nodes(v.fam)
      ensures Valid() && proc.list.place.PList?
      ensures proc.semAdd in old(m) && proc.list.place.pcb in old(m)[proc.semAdd]
      ensures m == Out(old(m), proc.semAdd, proc.list.place.pcb)
    {
      ChainApart(v);
      FirstPidIsFirst(v, m, i, proc, k);
      ghost var q := v.fam[v.active[i].procq];
      RingDel(proc.list, v.active[i].procq, k, v.fam, Links(v.active));
      CommitShrunk(i, k, RemoveAt(q, k));
    }

    /** outBlockedPID; null is not its "not found" but the walk's step onto NULL, from where it does not return. */
    method OutBlockedPID(pid: int) returns (proc: Pcb?)
      requires Valid()
      modifies `v, `m, Nodes(v.fam)
      ensures Valid() && (proc == null <==> !old(BlockedPid(v, pid)))
      ensures proc == null ==>
        m == old(m) && forall p | p in pcbs && p.pid == pid :: p.list.place.PList? && !Waits(p.list.place.pcb)
      ensures proc != null ==>
        && proc in pcbs && proc.pid == pid && proc.list.place.PList?
        && proc.semAdd in old(m) && proc.list.place.pcb in old(m)[proc.semAdd]
        && m == Out(old(m), proc.semAdd, proc.list.place.pcb)
    {
      hide Stored, Lists.Shape, Lists.Represents, IsFirst, Waits;
      ghost var i, k;
      proc, i, k := FindBlockedPid(pid);
      if proc == null {
        NobodyBlocked(pid);
        return;
      }
      DeleteAt(proc, pid, i, k);
    }
  }
}
