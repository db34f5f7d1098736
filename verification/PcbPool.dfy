/** The PCB pool and the process tree (phase1/pcb.c): the free list and all children lists at once. */
module PcbShapes {
  import opened Basics
  import opened ListX
  import opened Pcbs

  type Parents = map<Pcb, Pcb?>

  /** The members are the p_sib links of entries whose parent pointer names q. */
  ghost predicate ChildrenOf(table: seq<Pcb>, up: Parents, q: Pcb, s: seq<ListHead>) {
    forall l | l in s ::
      && l.place.PSib? && l.place.pcb < |table|
      && var p := table[l.place.pcb]; p.sib == l && p in up && up[p] == q
  }

  /** What the lists are lists of. */
  ghost predicate Rows(table: seq<Pcb>, free: ListHead, fam: Family, up: Parents) {
    && Table(table) && free.place == PcbFreeHead && free in fam
    && OfProcs(table, fam[free])
    && forall p | p in table :: p in up
  }

  /** Every other list holds the children of one entry. */
  ghost predicate Children(table: seq<Pcb>, free: ListHead, fam: Family, up: Parents) {
    forall h | h in fam && h != free ::
      && h.place.PChild? && h.place.pcb < |table| && table[h.place.pcb].child == h
      && ChildrenOf(table, up, table[h.place.pcb], fam[h])
  }

  /** An entry with a parent is on its parent's list. */
  ghost predicate Adopted(table: seq<Pcb>, fam: Family, up: Parents)
    requires forall p | p in table :: p in up
  {
    forall p | p in table && up[p] != null ::
      up[p] in table && up[p].child in fam && p.sib in fam[up[p].child]
  }

  /** A free entry has no parent and no children. */
  ghost predicate FreeAlone(table: seq<Pcb>, free: ListHead, fam: Family, up: Parents)
    requires free in fam && forall p | p in table :: p in up
  {
    forall p | p in table && p.list in fam[free] :: up[p] == null && (p.child in fam ==> fam[p.child] == [])
  }

  /** All of it, and how the lists agree with the parent pointers. */
  ghost predicate Shape(table: seq<Pcb>, free: ListHead, fam: Family, up: Parents) {
    && Rows(table, free, fam, up) && Children(table, free, fam, up)
    && Adopted(table, fam, up) && FreeAlone(table, free, fam, up)
  }

  /** A sibling link is on a list exactly when its process has a parent. */
  lemma SibUse(table: seq<Pcb>, free: ListHead, fam: Family, up: Parents, p: Pcb)
    requires Shape(table, free, fam, up) && p in table
    ensures p.sib in Nodes(fam) <==> up[p] != null
  {
    if p.sib in Nodes(fam) {
      var h :| h in fam && p.sib in Cycle(h, fam[h]);
      assert h != free && p.sib in fam[h];
    }
    if up[p] != null { assert p.sib in Cycle(up[p].child, fam[up[p].child]); }
  }

  /** Only free entries are on a list of the pool with p_list. */
  lemma ListUse(table: seq<Pcb>, free: ListHead, fam: Family, up: Parents, p: Pcb)
    requires Shape(table, free, fam, up) && p in table
    ensures p.list in Nodes(fam) <==> p.list in fam[free]
  {
    if p.list in fam[free] { assert p.list in Cycle(free, fam[free]); }
  }

  lemma ShapeFree(table: seq<Pcb>, free: ListHead, fam: Family, up: Parents, p: Pcb)
    requires Shape(table, free, fam, up) && p in table
    ensures Shape(table, free, fam[free := fam[free] + [p.list]], up) <==>
            up[p] == null && (p.child in fam ==> fam[p.child] == [])
  {
    hide Table, OfProcs, ChildrenOf;
    var f := fam[free := fam[free] + [p.list]];
    KinFree(table, free, fam, up, p, f[free]);
    assert p.list in f[free] && p.child != free by { assert p.child.place != PcbFreeHead; }
  }

  lemma KinFree(table: seq<Pcb>, free: ListHead, fam: Family, up: Parents, p: Pcb, s: seq<ListHead>)
    requires Shape(table, free, fam, up) && p in table && s == fam[free] + [p.list]
    ensures Rows(table, free, fam[free := s], up) && Children(table, free, fam[free := s], up)
    ensures Adopted(table, fam[free := s], up) && p.child.place != PcbFreeHead
    ensures forall q | q in table && q.list in s :: q == p || q.list in fam[free]
  {
    hide ChildrenOf, FreeAlone;
  }

  /** Taking p off the free list leaves its two other links unused, so they may be reset. */
  lemma UnusedLinks(table: seq<Pcb>, free: ListHead, fam: Family, up: Parents, p: Pcb, k: nat)
    requires Shape(table, free, fam, up) && p in table && k < |fam[free]| && p.list == fam[free][k]
    ensures var f := fam[free := RemoveAt(fam[free], k)];
      && (p.child in Nodes(f) ==> p.child in f && f[p.child] == [])
      && p.sib !in Nodes(f[p.child := []])
  {
  }

  /** A shorter free list. */
  lemma ShapeShorter(table: seq<Pcb>, free: ListHead, fam: Family, up: Parents, s: seq<ListHead>)
    requires Shape(table, free, fam, up) && forall l | l in s :: l in fam[free]
    ensures Shape(table, free, fam[free := s], up)
  {
    hide ChildrenOf;
    assert Children(table, free, fam[free := s], up);
  }

  /** An empty children list for an entry that is not free and has none. */
  lemma ShapeNewHead(table: seq<Pcb>, free: ListHead, fam: Family, up: Parents, p: Pcb)
    requires Shape(table, free, fam, up) && p in table && (p.child in fam ==> fam[p.child] == [])
    ensures Shape(table, free, fam[p.child := []], up)
  {
    assert p.child != free && ChildrenOf(table, up, p, []);
    hide ChildrenOf;
  }

  lemma ShapeAlloc(table: seq<Pcb>, free: ListHead, fam: Family, up: Parents, p: Pcb, k: nat)
    requires Shape(table, free, fam, up) && p in table && k < |fam[free]| && p.list == fam[free][k]
    requires NoDup(fam[free])
    ensures Shape(table, free, fam[free := RemoveAt(fam[free], k)][p.child := []], up)
  {
    hide ChildrenOf;
    var s := RemoveAt(fam[free], k);
    assert forall l | l in s :: l in fam[free];
    ShapeShorter(table, free, fam, up, s);
    ShapeNewHead(table, free, fam[free := s], up, p);
  }

  lemma ShapeInsert(table: seq<Pcb>, free: ListHead, fam: Family, up: Parents, q: Pcb, p: Pcb)
    requires Shape(table, free, fam, up) && p in table && q in table && q.child in fam
    requires p.list !in fam[free] && q.list !in fam[free] && up[p] == null
    ensures Shape(table, free, fam[q.child := fam[q.child] + [p.sib]], up[p := q])
  {
  }

  /** Once p has left q's list, no list claims it. */
  lemma ChildLeaves(table: seq<Pcb>, up: Parents, p: Pcb, q: Pcb, r: Pcb, s: seq<ListHead>, left: seq<ListHead>)
    requires ChildrenOf(table, up, r, s) && p in up && up[p] == q && forall l | l in left :: l in s
    requires r == q ==> p.sib !in left
    ensures ChildrenOf(table, up[p := null], r, left)
  {
  }

  /** The other children of q, and everyone else's, stay where they are. */
  lemma KinOut(table: seq<Pcb>, free: ListHead, fam: Family, up: Parents, q: Pcb, p: Pcb, s: seq<ListHead>)
    requires Shape(table, free, fam, up) && p in table && up[p] == q && q in table && q.child in fam
    requires forall l | l in fam[q.child] :: l in s <==> l != p.sib
    ensures Adopted(table, fam[q.child := s], up[p := null]) && FreeAlone(table, free, fam[q.child := s], up[p := null])
  {
    hide ChildrenOf;
  }

  lemma ChildrenOut(table: seq<Pcb>, free: ListHead, fam: Family, up: Parents, q: Pcb, p: Pcb, s: seq<ListHead>)
    requires Shape(table, free, fam, up) && p in table && up[p] == q && q in table && q.child in fam
    requires p.sib !in s && forall l | l in s :: l in fam[q.child]
    ensures Children(table, free, fam[q.child := s], up[p := null])
  {
    hide Adopted, FreeAlone;
    var f, u := fam[q.child := s], up[p := null];
    forall h | h in f && h != free ensures ChildrenOf(table, u, table[h.place.pcb], f[h]) {
      ChildLeaves(table, up, p, q, table[h.place.pcb], fam[h], f[h]);
    }
  }

  lemma ShapeOut(table: seq<Pcb>, free: ListHead, fam: Family, up: Parents, q: Pcb, p: Pcb, k: nat)
    requires Shape(table, free, fam, up) && p in table && up[p] == q
    requires q in table && q.child in fam && k < |fam[q.child]| && fam[q.child][k] == p.sib && NoDup(fam[q.child])
    ensures Shape(table, free, fam[q.child := RemoveAt(fam[q.child], k)], up[p := null])
  {
    hide Children, Adopted, FreeAlone;
    var s := RemoveAt(fam[q.child], k);
    KinOut(table, free, fam, up, q, p, s);
    ChildrenOut(table, free, fam, up, q, p, s);
  }
}

module PcbPools {
  import opened Basics
  import opened ListX
  import opened Pcbs
  import opened PcbShapes

  class PcbPool {
    const table: seq<Pcb>
    const freeHead: ListHead
    var nextPid: int
    /** The free list and the children list of every entry that was ever allocated. */
    ghost var fam: Family

    /** The p_parent fields. */
    ghost var up: Parents

    ghost predicate Valid()
      reads this, Nodes(fam)`next, Nodes(fam)`prev, (set p | p in table)`parent
    {
      && Rings(fam)
      && Shape(table, freeHead, fam, up)
      && forall i | 0 <= i < |table| :: table[i].parent == up[table[i]]
    }

    /** All list heads of the module. */
    ghost function Heads(): set<ListHead> {
      {freeHead} + (set i | 0 <= i < |table| :: table[i].list) + (set i | 0 <= i < |table| :: table[i].child)
      + (set i | 0 <= i < |table| :: table[i].sib)
    }

    lemma OwnNodes()
      requires Shape(table, freeHead, fam, up)
      ensures forall x | x in Nodes(fam) :: x in Heads()
      ensures forall x | x in Nodes(fam) :: x.place.PcbFreeHead? || x.place.PChild? || x.place.PSib? || x in fam[freeHead]
    {
      forall x | x in Nodes(fam)
        ensures x in Heads() && (x.place.PcbFreeHead? || x.place.PChild? || x.place.PSib? || x in fam[freeHead])
      {
        var h :| h in fam && x in Cycle(h, fam[h]);
        assert x == h || x in fam[h];
      }
    }

    lemma FreeOnce()
      requires Valid()
      ensures freeHead in fam && NoDup(fam[freeHead]) && OfProcs(table, fam[freeHead]) && freeHead.place == PcbFreeHead
      ensures Table(table)
    {
      NoDupRing(fam, freeHead);
    }

    /** Nodes outside the pool. */
    ghost predicate Foreign(keep: set<ListHead>)
      reads this
    {
      keep !! Nodes(fam) && forall x | x in keep :: !x.place.PChild? && !x.place.PSib?
    }

    /** No older child carries p's number. */
    lemma KidOnce(q: Pcb, p: Pcb, k: nat)
      requires Valid() && q in table && p in table && q.child in fam && k < |fam[q.child]| && fam[q.child][k] == p.sib
      ensures q.child != freeHead && p.sib.place.PSib? && p.sib.place.pcb == p.list.place.pcb
      ensures forall j | 0 <= j < k :: fam[q.child][j].place.PSib? && fam[q.child][j].place.pcb != p.sib.place.pcb
    {
      NoDupRing(fam, q.child);
      forall j | 0 <= j < k ensures fam[q.child][j].place.PSib? && fam[q.child][j].place.pcb != p.sib.place.pcb {
        assert fam[q.child][j] in fam[q.child];
      }
    }

    /** Nothing that the pool is about has changed. */
    twostate lemma StillValid()
      requires old(Valid()) && fam == old(fam) && up == old(up)
      requires Kept(old(Nodes(fam))) && forall p | p in table :: p.parent == old(p.parent)
      ensures Valid()
    {
    }

    /** The static table of MAXPROC zeroed entries, before initPcbs. */
    constructor (maxproc: nat)
      ensures Table(table) && |table| == maxproc && freeHead.place == PcbFreeHead && nextPid == 1
      ensures up.Keys == (set p | p in table) && forall p | p in table :: p.parent == up[p] == null
      ensures forall p | p in table :: p.semAdd == 0 && p.pid == 0
      ensures fresh(Heads()) && forall p | p in table :: fresh(p)
    {
      var t: seq<Pcb> := [];
      for i := 0 to maxproc
        invariant |t| == i && Table(t)
        invariant forall p | p in t :: p.parent == null && p.semAdd == 0 && p.pid == 0
        invariant forall p | p in t :: fresh(p) && fresh(p.list) && fresh(p.child) && fresh(p.sib)
      {
        var p := new Pcb(i);
        t := t + [p];
      }
      table := t;
      freeHead := new ListHead(PcbFreeHead);
      nextPid := 1;
      fam, up := map[], map p | p in t :: null;
    }

    /** The p_list links of the first n entries of the table. */
    ghost function Lists(n: nat): seq<ListHead>
      requires n <= |table|
    {
      seq(n, i requires 0 <= i < n => table[i].list)
    }

    /** The next entry of the table is not yet on the free list; the tail it will follow is. */
    lemma NotYetFree(n: nat)
      requires Table(table) && freeHead.place == PcbFreeHead && n < |table|
      requires Rings(map[freeHead := Lists(n)])
      ensures table[n].list !in Nodes(map[freeHead := Lists(n)])
      ensures freeHead.prev == freeHead || exists i | 0 <= i < |table| :: freeHead.prev == table[i].list
      ensures Lists(n + 1) == Lists(n) + [table[n].list]
    {
      var f := map[freeHead := Lists(n)];
      RingLinks(f, freeHead);
      if freeHead.prev != freeHead {
        assert freeHead.prev == table[n - 1].list;
      }
    }

    lemma InitialShape()
      requires Table(table) && freeHead.place == PcbFreeHead
      requires up.Keys == (set p | p in table) && forall p | p in table :: up[p] == null
      ensures Shape(table, freeHead, map[freeHead := Lists(|table|)], up)
    {
    }

    /** initPcbs: every entry joins the free list, in table order. */
    method InitPcbs()
      requires Table(table) && freeHead.place == PcbFreeHead
      requires up.Keys == (set p | p in table) && forall p | p in table :: p.parent == up[p] == null
      modifies `fam, freeHead, set i | 0 <= i < |table| :: table[i].list
      ensures Valid() && fam == map[freeHead := Lists(|table|)]
    {
      hide Shape, Rings;
      InitRing(freeHead, map[]);
      ghost var f: Family := map[freeHead := Lists(0)];
      for i := 0 to |table|
        invariant Rings(f) && f == map[freeHead := Lists(i)]
      {
        NotYetFree(i);
        ListAddTail(table[i].list, freeHead, f);
        f := f[freeHead := Lists(i + 1)];
      }
      fam := f;
      InitialShape();
    }

    /** freePcb, for an entry on no list.  The pool is in order afterwards if and only if the entry was alone. */
    method FreePcb(p: Pcb, ghost keep: set<ListHead>)
      requires Valid() && Foreign(keep) && p.list !in keep && p in table && p.list !in Nodes(fam)
      modifies `fam, p.list, Nodes(fam)
      ensures Rings(fam) && Kept(keep) && freeHead in old(fam)
      ensures fam == old(fam)[freeHead := old(fam)[freeHead] + [p.list]]
      ensures Valid() <==> old(p.parent == null && (p.child in fam ==> fam[p.child] == []))
    {
      hide Rings, ChildrenOf, OfProcs, Table;
      ghost var fam' := fam[freeHead := fam[freeHead] + [p.list]];
      ShapeFree(table, freeHead, fam, up, p);
      RingLinks(fam, freeHead);
      ListAddTail(p.list, freeHead, fam);
      fam := fam';
    }

    /** _initPcb */
    method InitPcb(p: Pcb, ghost f: Family)
      requires Rings(f) && (p.child in Nodes(f) ==> p.child in f && f[p.child] == [])
      requires p.sib !in Nodes(f[p.child := []])
      modifies `nextPid, p, p.child, p.sib
      ensures Rings(f[p.child := []])
      ensures p.parent == null && p.semAdd == 0 && p.pid == old(nextPid) && nextPid == old(nextPid) + 1
    {
      p.parent := null;
      InitRing(p.child, f);
      InitLoose(p.sib, f[p.child := []]);
      p.semAdd := 0;
      p.pid := nextPid;
      nextPid := nextPid + 1;
    }

    /** The tail of a nonempty free list, unlinked from it. */
    method TakeTail(ghost s: seq<ListHead>, ghost f: Family) returns (p: Pcb)
      requires Rings(fam) && freeHead in fam && OfProcs(table, fam[freeHead]) && fam[freeHead] != []
      requires s == fam[freeHead] && f == fam[freeHead := RemoveAt(s, |s| - 1)]
      modifies Nodes(fam)
      ensures p in table && p.list == s[|s| - 1] && p == table[s[|s| - 1].place.pcb] && Rings(f)
    {
      RingLinks(fam, freeHead);
      MemberLinks(fam, freeHead, |s| - 1);
      p := ListOwner(table, freeHead.prev);
      ListDel(p.list, freeHead, |s| - 1, fam);
    }

    /** What allocPcb does to the lists and the fields when it takes p. */
    twostate predicate Taken(new p: Pcb)
      reads this, table
    {
      && freeHead in old(fam) && old(fam)[freeHead] != []
      && p in table && p.list == old(fam)[freeHead][|old(fam)[freeHead]| - 1]
      && fam == old(fam)[freeHead := RemoveAt(old(fam)[freeHead], |old(fam)[freeHead]| - 1)][p.child := []]
      && p.parent == null && p.semAdd == 0 && p.pid == old(nextPid) && nextPid == old(nextPid) + 1
      && forall q | q in table && q != p :: q.semAdd == old(q.semAdd) && q.pid == old(q.pid)
    }

    /** allocPcb: takes the tail of the free list and resets the entry.  Nodes outside the pool stay as they are. */
    method AllocPcb(ghost keep: set<ListHead>) returns (p: Pcb?)
      requires Valid() && Foreign(keep)
      modifies `fam, `nextPid, table, Heads()
      ensures Valid() && Kept(keep) && freeHead in old(fam) && (p == null <==> old(fam)[freeHead] == [])
      ensures p == null ==> fam == old(fam) && nextPid == old(nextPid)
      ensures p == null ==>
        forall q | q in table :: q.parent == old(q.parent) && q.semAdd == old(q.semAdd) && q.pid == old(q.pid)
      ensures p != null ==> Taken(p) && p.list in old(Nodes(fam))
    {
      RingLinks(fam, freeHead);
      if freeHead.next == freeHead { return null; }
      assert forall l | l in fam[freeHead] :: l in Cycle(freeHead, fam[freeHead]);
      p := AllocTail(|fam[freeHead]| - 1, keep);
    }

    /** The second half of allocPcb: the entry that left the free list is reset. */
    method ResetEntry(p: Pcb, ghost f: Family)
      requires Rings(f) && Resettable(p, f) && forall i | 0 <= i < |table| :: table[i].parent == up[table[i]]
      modifies `fam, `nextPid, p, p.child, p.sib
      ensures Valid() && fam == f[p.child := []]
      ensures p.parent == null && p.semAdd == 0 && p.pid == old(nextPid) && nextPid == old(nextPid) + 1
    {
      hide Rings, Shape;
      InitPcb(p, f);
      fam := f[p.child := []];
    }

    /** p is in the table and may be reset, on the lists f. */
    ghost predicate Resettable(p: Pcb, f: Family)
      reads this
    {
      && (p.child in Nodes(f) ==> p.child in f && f[p.child] == []) && p.sib !in Nodes(f[p.child := []])
      && p in table && p in up && up[p] == null && Shape(table, freeHead, f[p.child := []], up)
    }

    /** The first half of allocPcb: the tail leaves the free list. */
    method UnlinkTail(ghost k: nat, ghost f: Family) returns (p: Pcb)
      requires Valid() && freeHead in fam && |fam[freeHead]| == k + 1
      requires f == fam[freeHead := RemoveAt(fam[freeHead], k)]
      modifies Nodes(fam)
      ensures Rings(f) && Resettable(p, f) && p.list == fam[freeHead][k]
    {
      hide Rings, ChildrenOf, RemoveAt;
      ghost var s, e := fam[freeHead], ListOwner(table, fam[freeHead][k]);
      FreeOnce();
      ShapeAlloc(table, freeHead, fam, up, e, k);
      UnusedLinks(table, freeHead, fam, up, e, k);
      assert up[e] == null;
      p := TakeTail(s, f);
    }

    method AllocTail(ghost k: nat, ghost keep: set<ListHead>) returns (p: Pcb)
      requires Valid() && Foreign(keep) && |fam[freeHead]| == k + 1
      modifies `fam, `nextPid, table, Heads()
      ensures Valid() && Kept(keep) && Taken(p)
    {
      hide Rings, Shape, RemoveAt, OfProcs, NoDup, Nodes;
      FreeOnce();
      OwnNodes();
      ghost var f := fam[freeHead := RemoveAt(fam[freeHead], k)];
      p := UnlinkTail(k, f);
      ResetEntry(p, f);
    }

    /** The pointer writes of insertChild's list_add_tail, and what they leave alone. */
    method LinkChild(l: ListHead, head: ListHead, ghost f: Family)
      requires Rings(fam) && head in fam && l !in Nodes(fam) && f == fam[head := fam[head] + [l]]
      modifies l, set x | x in Cycle(head, fam[head])
      ensures Rings(f) && fam == old(fam) && up == old(up)
      ensures forall i | 0 <= i < |table| :: table[i].parent == old(table[i].parent)
    {
      RingLinks(fam, head);
      ListAddTail(l, head, fam);
    }

    /** insertChild, once both pointers are known not to be NULL. */
    method Adopt(prnt: Pcb, p: Pcb, ghost keep: set<ListHead>)
      requires Valid() && Foreign(keep) && p in table && p.parent == null && p.list !in fam[freeHead]
      requires prnt in table && prnt.child in fam && prnt.list !in fam[freeHead]
      modifies `fam, `up, p`parent, p.sib, Nodes(fam)
      ensures Valid() && Kept(keep) && up == old(up)[p := prnt] && p.parent == prnt
      ensures fam == old(fam)[prnt.child := old(fam)[prnt.child] + [p.sib]]
    {
      hide Rings, Shape;
      FreeOnce();
      ghost var f, u := fam[prnt.child := fam[prnt.child] + [p.sib]], up[p := prnt];
      SibUse(table, freeHead, fam, up, p);
      RingLinks(fam, prnt.child);
      ShapeInsert(table, freeHead, fam, up, prnt, p);
      p.parent := prnt;
      LinkChild(p.sib, prnt.child, f);
      fam, up := f, u;
    }

    /** insertChild */
    method InsertChild(prnt: Pcb?, p: Pcb?, ghost keep: set<ListHead>)
      requires Valid() && Foreign(keep) && (p != null ==> p in table && p.parent == null && p.list !in fam[freeHead])
      requires prnt != null ==> prnt in table && prnt.child in fam && prnt.list !in fam[freeHead]
      modifies `fam, `up, (if p == null then {} else {p})`parent, if p == null then {} else {p.sib}, Nodes(fam)
      ensures Valid() && Kept(keep) && (p != null ==> p.parent == prnt)
      ensures if prnt == null || p == null then fam == old(fam) && up == old(up)
        else up == old(up)[p := prnt] && fam == old(fam)[prnt.child := old(fam)[prnt.child] + [p.sib]]
    {
      if prnt == null || p == null { return; }
      Adopt(prnt, p, keep);
    }

    method UnlinkChild(l: ListHead, ghost head: ListHead, ghost k: nat, ghost f: Family)
      requires Rings(fam) && head in fam && k < |fam[head]| && fam[head][k] == l
      requires f == fam[head := RemoveAt(fam[head], k)]
      modifies set l | l in Cycle(head, fam[head])
      ensures Rings(f) && fam == old(fam) && up == old(up)
      ensures forall i | 0 <= i < |table| :: table[i].parent == old(table[i].parent)
    {
      MemberLinks(fam, head, k);
      ListDel(l, head, k, fam);
    }

    /** Unlinks the k-th child of q. */
    method Orphan(q: Pcb, p: Pcb, ghost k: nat, ghost keep: set<ListHead>)
      requires Valid() && Foreign(keep) && p in table && q in table && p.parent == q
      requires q.child in fam && k < |fam[q.child]| && fam[q.child][k] == p.sib
      modifies `fam, `up, p`parent, Nodes(fam)
      ensures Valid() && Kept(keep) && up == old(up)[p := null] && p.parent == null
      ensures fam == old(fam)[q.child := RemoveAt(old(fam)[q.child], k)]
    {
      hide Rings, Shape;
      ghost var f, u := fam[q.child := RemoveAt(fam[q.child], k)], up[p := null];
      NoDupRing(fam, q.child);
      RingLinks(fam, q.child);
      ShapeOut(table, freeHead, fam, up, q, p, k);
      UnlinkChild(p.sib, q.child, k, f);
      p.parent := null;
      fam, up := f, u;
    }

    /** outChild: p leaves its parent's children without a walk over them. */
    method OutChild(p: Pcb, ghost keep: set<ListHead>) returns (out: Pcb?)
      requires Valid() && Foreign(keep) && p in table
      modifies `fam, `up, p`parent, Nodes(fam)
      ensures Valid() && Kept(keep) && p.parent == null
      ensures old(p.parent) == null ==> out == null && fam == old(fam) && up == old(up)
      ensures old(p.parent) != null ==>
        && out == p && up == old(up)[p := null] && old(p.parent in table && p.parent.child in fam)
        && exists k | 0 <= k < |old(fam[p.parent.child])| :: old(fam[p.parent.child])[k] == p.sib
             && fam == old(fam)[old(p.parent.child) := RemoveAt(old(fam[p.parent.child]), k)]
    {
      if p.parent == null { return null; }
      ghost var k :| 0 <= k < |fam[p.parent.child]| && fam[p.parent.child][k] == p.sib;
      Orphan(p.parent, p, k, keep);
      return p;
    }

    /** removeChild: the oldest child leaves. */
    method RemoveChild(p: Pcb, ghost keep: set<ListHead>) returns (out: Pcb?)
      requires Valid() && Foreign(keep) && p in table && p.child in fam
      modifies `fam, `up, (set i | 0 <= i < |table| && up[table[i]] == p :: table[i])`parent
      modifies Nodes(fam)
      ensures Valid() && Kept(keep)
      ensures if old(fam[p.child]) == [] then out == null && fam == old(fam) && up == old(up)
        else && out != null && out in table && out.sib == old(fam[p.child])[0] && up == old(up)[out := null]
             && fam == old(fam)[p.child := RemoveAt(old(fam[p.child]), 0)]
    {
      RingLinks(fam, p.child);
      if p.child.next == p.child { return null; }
      assert fam[p.child][0] in fam[p.child];
      out := table[p.child.next.place.pcb];
      Orphan(p, out, 0, keep);
    }
  }
}
