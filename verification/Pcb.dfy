/** Process control blocks, their queues and the process tree (phase1/pcb.c) on the heap. */
module Pcbs {
  import opened Basics
  import opened ListX

  class Pcb {
    const list: ListHead
    const child: ListHead
    const sib: ListHead
    var parent: Pcb?
    var semAdd: int
    var pid: int

    /** A zeroed entry of the static table. */
    constructor (i: nat)
      ensures list.place == PList(i) && child.place == PChild(i) && sib.place == PSib(i)
      ensures parent == null && semAdd == 0 && pid == 0
      ensures fresh(list) && fresh(child) && fresh(sib)
    {
      list := new ListHead(PList(i));
      child := new ListHead(PChild(i));
      sib := new ListHead(PSib(i));
      parent, semAdd, pid := null, 0, 0;
    }
  }

  /** Each list_head of the table sits where its place says. */
  ghost predicate Table(table: seq<Pcb>) {
    forall i | 0 <= i < |table| ::
      table[i].list.place == PList(i) && table[i].child.place == PChild(i) && table[i].sib.place == PSib(i)
  }

  /** Every link is the p_list of a table entry: the list is a queue of processes. */
  predicate OfProcs(table: seq<Pcb>, s: seq<ListHead>) {
    forall l | l in s :: l.place.PList? && l.place.pcb < |table| && table[l.place.pcb].list == l
  }

  /** container_of(l, pcb_t, p_list) */
  function ListOwner(table: seq<Pcb>, l: ListHead): Pcb
    requires l.place.PList? && l.place.pcb < |table|
  {
    table[l.place.pcb]
  }

  method InsertProcQ(head: ListHead, p: Pcb, ghost fam: Family)
    requires Rings(fam) && head in fam && p.list !in Nodes(fam)
    modifies p.list, head, head.prev
    ensures Rings(fam[head := fam[head] + [p.list]])
  {
    ListAddTail(p.list, head, fam);
  }

  method HeadProcQ(table: seq<Pcb>, head: ListHead, ghost fam: Family) returns (p: Pcb?)
    requires Rings(fam) && head in fam && OfProcs(table, fam[head])
    ensures p == null <==> fam[head] == []
    ensures p != null ==> p in table && p.list == fam[head][0]
  {
    RingLinks(fam, head);
    if head.next == head { return null; }
    p := ListOwner(table, head.next);
  }

  method RemoveProcQ(table: seq<Pcb>, head: ListHead, ghost fam: Family) returns (p: Pcb?)
    requires Rings(fam) && head in fam && OfProcs(table, fam[head])
    modifies set l | l in Cycle(head, fam[head])
    ensures p == null <==> fam[head] == []
    ensures p == null ==> Rings(fam)
    ensures p != null ==>
      && p in table && p.list == fam[head][0]
      && Rings(fam[head := fam[head][1..]])
  {
    RingLinks(fam, head);
    if head.next == head { return null; }
    p := ListOwner(table, head.next);
    MemberLinks(fam, head, 0);
    assert fam[head][1..] == RemoveAt(fam[head], 0);
    ListDel(p.list, head, 0, fam);
  }

  /** No process at the first n positions of the queue has this pid. */
  ghost predicate NoPid(table: seq<Pcb>, s: seq<ListHead>, n: nat, pid: int)
    requires OfProcs(table, s) && n <= |s|
    reads table
  {
    forall j | 0 <= j < n :: ListOwner(table, s[j]).pid != pid
  }

  /** The k-th process of the queue is the first that has this pid. */
  ghost predicate FirstPid(table: seq<Pcb>, s: seq<ListHead>, k: nat, pid: int)
    requires OfProcs(table, s)
    reads table
  {
    k < |s| && ListOwner(table, s[k]).pid == pid && NoPid(table, s, k, pid)
  }

  /** The list_for_each walk that stops at the first process with the given pid. */
  method ScanProcQ(table: seq<Pcb>, head: ListHead, pid: int, ghost fam: Family) returns (out: Pcb?, ghost k: nat)
    requires Rings(fam) && head in fam && OfProcs(table, fam[head])
    ensures out == null ==> NoPid(table, fam[head], |fam[head]|, pid)
    ensures out != null ==> FirstPid(table, fam[head], k, pid) && out == ListOwner(table, fam[head][k])
  {
    ghost var s := fam[head];
    k := 0;
    WalkStart(fam, head);
    var iter := head.next;
    while iter != head
      invariant k <= |s| && NoPid(table, s, k, pid)
      invariant iter == At(head, s, k)
      invariant k < |s| ==> iter != head
      decreases |s| - k
    {
      WalkStep(fam, head, k);
      var pcb := ListOwner(table, iter);
      if pcb.pid == pid { return pcb, k; }
      iter := iter.next;
      k := k + 1;
    }
    out := null;
  }

  method OutProcQ(table: seq<Pcb>, head: ListHead, p: Pcb, ghost fam: Family) returns (out: Pcb?, ghost k: nat)
    requires Rings(fam) && head in fam && OfProcs(table, fam[head])
    modifies set l | l in Cycle(head, fam[head])
    ensures out == null ==> Rings(fam) && old(NoPid(table, fam[head], |fam[head]|, p.pid))
    ensures out != null ==>
      && old(FirstPid(table, fam[head], k, p.pid)) && out in table && out.list == fam[head][k]
      && Rings(fam[head := RemoveAt(fam[head], k)])
  {
    out, k := ScanProcQ(table, head, p.pid, fam);
    if out == null { return; }
    MemberLinks(fam, head, k);
    assert fam[head][k] in fam[head];
    ListDel(out.list, head, k, fam);
  }
}
