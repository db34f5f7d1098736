/** Intrusive circular doubly linked lists (headers/listx.h) as heap objects.

    A `ListHead` is one `struct list_head`.  Where it is embedded is its `place`, so the pointer
    arithmetic of `container_of` becomes a look at that immutable field. */
module ListX {
  import opened Basics

  /** The struct field, or the static variable, that a list_head occupies. */
  datatype Place =
    | PList(pcb: nat) | PChild(pcb: nat) | PSib(pcb: nat)
    | SLink(semd: nat) | SProcq(semd: nat)
    | PcbFreeHead | SemdFreeHead | SemdHead | QueueHead(queue: nat)

  class ListHead {
    const place: Place
    var next: ListHead?
    var prev: ListHead?

    /** Static storage starts with null pointers. */
    constructor (place: Place)
      ensures this.place == place && next == null && prev == null
    {
      this.place := place;
      next, prev := null, null;
    }
  }

  /** Head first, then the members in list order. */
  function Cycle(head: ListHead, s: seq<ListHead>): seq<ListHead> {
    [head] + s
  }

  /** `head` and the members `s` form one circular doubly linked list. */
  ghost predicate Ring(head: ListHead, s: seq<ListHead>)
    reads (set x | x in Cycle(head, s))`next, (set x | x in Cycle(head, s))`prev
  {
    && NoDup(Cycle(head, s))
    && Linked(Cycle(head, s))
  }

  /** The node after, and the node before, position i of a cycle. */
  function After<T>(c: seq<T>, i: nat): T
    requires i < |c|
  {
    if i + 1 < |c| then c[i + 1] else c[0]
  }

  function Before<T>(c: seq<T>, i: nat): T
    requires i < |c|
  {
    if i > 0 then c[i - 1] else c[|c| - 1]
  }

  ghost predicate Linked(c: seq<ListHead>)
    reads (set x | x in c)`next, (set x | x in c)`prev
  {
    forall i {:trigger c[i].next} {:trigger c[i].prev} | 0 <= i < |c| :: c[i].next == After(c, i) && c[i].prev == Before(c, i)
  }

  /** A family of rings that share no node, given by the members behind each head. */
  type Family = map<ListHead, seq<ListHead>>

  ghost function Nodes(fam: Family): set<ListHead> {
    set h, x | h in fam && x in Cycle(h, fam[h]) :: x
  }

  ghost predicate Apart(fam: Family) {
    forall g, h, x | g in fam && h in fam && x in Cycle(g, fam[g]) && x in Cycle(h, fam[h]) :: g == h
  }

  ghost predicate Rings(fam: Family)
    reads Nodes(fam)`next, Nodes(fam)`prev
  {
    && Apart(fam)
    && forall h | h in fam :: Ring(h, fam[h])
  }

  /** INIT_LIST_HEAD on a node that no other ring uses starts an empty list there. */
  method InitRing(list: ListHead, ghost fam: Family)
    requires Rings(fam)
    requires list in Nodes(fam) ==> list in fam && fam[list] == []
    modifies list
    ensures Rings(fam[list := []])
  {
    InitListHead(list);
    KeepOthers(fam[list := []], list, []);
    forall h | h in fam && h != list ensures Ring(h, fam[h]) {
      assert list in fam ==> list in Cycle(list, fam[list]);
      assert forall x | x in Cycle(h, fam[h]) :: x in Nodes(fam) && x != list;
    }
  }

  /** INIT_LIST_HEAD on a node outside the family leaves the family alone. */
  method InitLoose(list: ListHead, ghost fam: Family)
    requires Rings(fam) && list !in Nodes(fam)
    modifies list
    ensures Rings(fam)
  {
    InitListHead(list);
    forall h | h in fam ensures Ring(h, fam[h]) {
      assert forall x | x in Cycle(h, fam[h]) :: x in Nodes(fam) && x != list;
    }
  }

  /** What a walk over one ring of the family reads from the links. */
  lemma RingLinks(fam: Family, head: ListHead)
    requires Rings(fam) && head in fam
    ensures head.next == After(Cycle(head, fam[head]), 0)
    ensures head.prev == Before(Cycle(head, fam[head]), 0)
    ensures head.next == head <==> fam[head] == []
    ensures head.next in Cycle(head, fam[head]) && head.prev in Cycle(head, fam[head])
    ensures forall x | x in Cycle(head, fam[head]) :: x in Nodes(fam)
  {
    var c := Cycle(head, fam[head]);
    assert c[0] == head;
    assert head.next == After(c, 0) && head.prev == Before(c, 0);
  }

  lemma MemberLinks(fam: Family, head: ListHead, k: nat)
    requires Rings(fam) && head in fam && k < |fam[head]|
    ensures fam[head][k].next == After(Cycle(head, fam[head]), k + 1)
    ensures fam[head][k].prev == Before(Cycle(head, fam[head]), k + 1)
    ensures fam[head][k].next in Cycle(head, fam[head]) && fam[head][k].prev in Cycle(head, fam[head])
    ensures fam[head][k] != head
  {
    var c := Cycle(head, fam[head]);
    assert c[k + 1] == fam[head][k] && c[0] == head;
    assert c[k + 1].next == After(c, k + 1) && c[k + 1].prev == Before(c, k + 1);
  }

  /** Where a forward walk stands after k steps: on the k-th member, then back on the head. */
  function At(head: ListHead, s: seq<ListHead>, k: nat): ListHead {
    if k < |s| then s[k] else head
  }

  lemma WalkStart(fam: Family, head: ListHead)
    requires Rings(fam) && head in fam
    ensures head.next == At(head, fam[head], 0)
    ensures forall k | 0 <= k < |fam[head]| :: fam[head][k] != head
  {
    RingLinks(fam, head);
    forall k | 0 <= k < |fam[head]| ensures fam[head][k] != head { MemberLinks(fam, head, k); }
  }

  lemma WalkStep(fam: Family, head: ListHead, k: nat)
    requires Rings(fam) && head in fam && k < |fam[head]|
    ensures fam[head][k].next == At(head, fam[head], k + 1)
  {
    MemberLinks(fam, head, k);
  }

  /** These nodes have the links they had. */
  twostate predicate Kept(keep: set<ListHead>)
    reads keep
  {
    forall x | x in keep :: x.next == old(x.next) && x.prev == old(x.prev)
  }

  /** Writes elsewhere leave a family. */
  twostate lemma SameRings(fam: Family)
    requires old(Rings(fam)) && Kept(Nodes(fam))
    ensures Rings(fam)
  {
  }

  /** A member of a ring is a node of the family. */
  lemma IsNode(fam: Family, h: ListHead, x: ListHead)
    requires h in fam && x in Cycle(h, fam[h])
    ensures x in Nodes(fam)
  {
  }

  lemma Joined(a: Family, b: Family)
    requires Nodes(a) !! Nodes(b)
    ensures forall h | h in a :: h !in b && (a + b)[h] == a[h]
  {
    forall h | h in a ensures h !in b {
      assert Cycle(h, a[h])[0] == h;
      IsNode(a, h, h);
      if h in b {
        assert Cycle(h, b[h])[0] == h;
        IsNode(b, h, h);
        assert false;
      }
    }
  }

  /** Families that share no node are one family. */
  lemma UnionOfRings(a: Family, b: Family)
    requires Rings(a) && Rings(b) && Nodes(a) !! Nodes(b)
    ensures Rings(a + b) && forall x | x in Nodes(a + b) :: x in Nodes(a) || x in Nodes(b)
  {
    Joined(a, b);
    forall g, h, x | g in a + b && h in a + b && x in Cycle(g, (a + b)[g]) && x in Cycle(h, (a + b)[h]) ensures g == h {
      if g in a { IsNode(a, g, x); } else { IsNode(b, g, x); }
      if h in a { IsNode(a, h, x); } else { IsNode(b, h, x); }
    }
  }

  /** Forgetting a ring leaves a family. */
  lemma Forget(fam: Family, keys: set<ListHead>)
    requires Rings(fam)
    ensures Rings(fam - keys)
  {
  }

  method InitListHead(list: ListHead)
    modifies list
    ensures Ring(list, [])
  {
    list.next := list;
    list.prev := list;
  }

  lemma NodesShrink(fam: Family, head: ListHead, s: seq<ListHead>)
    requires head in fam && forall x | x in s :: x in fam[head]
    ensures Nodes(fam[head := s]) <= Nodes(fam)
  {
    forall x | x in Nodes(fam[head := s]) ensures x in Nodes(fam) {
      var h :| h in fam && x in Cycle(h, fam[head := s][h]);
      assert x in Cycle(h, fam[h]);
    }
  }

  lemma NodesGrow(fam: Family, head: ListHead, s: seq<ListHead>)
    ensures forall x | x in Nodes(fam[head := s]) :: x in Nodes(fam) || x in Cycle(head, s)
  {
  }

  lemma NoDupRing(fam: Family, head: ListHead)
    requires Rings(fam) && head in fam
    ensures NoDup(fam[head])
  {
    var c := Cycle(head, fam[head]);
    forall i, j | 0 <= i < j < |fam[head]| ensures fam[head][i] != fam[head][j] {
      assert c[i + 1] != c[j + 1];
    }
  }

  // ---------------------------------------------------------------------------------------------
  // list_add_tail

  /** Neighbours in a cycle with one node appended. */
  lemma NeighboursAfterAppend<T>(c: seq<T>, x: T, i: nat)
    requires i < |c| && x !in c && NoDup(c)
    ensures After(c + [x], i) == if i == |c| - 1 then x else After(c, i)
    ensures Before(c + [x], i) == if i == 0 then x else Before(c, i)
    ensures NoDup(c + [x])
  {
  }

  /** __list_add, used between the last node of a cycle and its first. */
  method SpliceIn(node: ListHead, prev: ListHead, next: ListHead, ghost c: seq<ListHead>)
    requires |c| > 0 && next == c[0] && prev == c[|c| - 1] && node !in c && NoDup(c) && Linked(c)
    modifies node, prev, next
    ensures Linked(c + [node]) && NoDup(c + [node])
  {
    next.prev := node;
    node.next := next;
    node.prev := prev;
    prev.next := node;
    ghost var c' := c + [node];
    forall i | 0 <= i < |c'|
      ensures c'[i].next == After(c', i) && c'[i].prev == Before(c', i)
    {
      if i < |c| { NeighboursAfterAppend(c, node, i); }
    }
    NeighboursAfterAppend(c, node, 0);
  }

  /** The same four writes for a node that may be linked already. */
  method Relink(node: ListHead, prev: ListHead, next: ListHead)
    requires node != prev && node != next
    modifies node, prev, next
    ensures node.next == next && node.prev == prev && next.prev == node && prev.next == node
  {
    next.prev := node;
    node.next := next;
    node.prev := prev;
    prev.next := node;
  }

  lemma FirstLeadsBack(head: ListHead, s: seq<ListHead>)
    requires Ring(head, s)
    ensures head.next != null && head.next.prev == head
  {
    var c := Cycle(head, s);
    assert c[0].next == After(c, 0);
    if s != [] { assert c[1].prev == Before(c, 1); } else { assert c[0].prev == Before(c, 0); }
  }

  /** A head whose first node does not lead back to it is the head of no list. */
  lemma NotARing(head: ListHead)
    requires head.next != null && head.next.prev != head
    ensures forall s: seq<ListHead> :: !Ring(head, s)
  {
    forall s: seq<ListHead> ensures !Ring(head, s) {
      if Ring(head, s) { FirstLeadsBack(head, s); }
    }
  }

  /** list_add_tail: appends to one ring of the family and keeps all the others. */
  method ListAddTail(node: ListHead, head: ListHead, ghost fam: Family)
    requires Rings(fam) && head in fam && node !in Nodes(fam)
    modifies node, head, head.prev
    ensures Rings(fam[head := fam[head] + [node]])
  {
    ghost var c := Cycle(head, fam[head]);
    assert c[0] == head && c[0].prev == Before(c, 0);
    assert forall x | x in c :: x in Nodes(fam);
    ghost var last := head.prev;
    SpliceIn(node, head.prev, head, c);
    ghost var s' := fam[head] + [node];
    assert Cycle(head, s') == c + [node];
    KeepOthers(fam, head, s');
    forall h | h in fam && h != head ensures Ring(h, fam[h]) {
      assert last in c && head in c;
      assert forall x | x in Cycle(h, fam[h]) :: x in Nodes(fam) && x != head && x != last;
    }
  }

  /** Rings stay apart when one of them gets other members, all its own or from outside. */
  lemma KeepOthers(fam: Family, head: ListHead, s: seq<ListHead>)
    requires Apart(fam) && head in fam
    requires forall x | x in s :: x in fam[head] || x !in Nodes(fam)
    ensures Apart(fam[head := s])
  {
  }

  // ---------------------------------------------------------------------------------------------
  // list_del

  /** Neighbours in a cycle without its k-th node. */
  lemma NeighboursAfterRemoval<T>(c: seq<T>, k: nat, i: nat) returns (j: nat)
    requires 0 < k < |c| && NoDup(c) && i < |c| - 1
    ensures j < |c| && j != k && RemoveAt(c, k)[i] == c[j]
    ensures After(RemoveAt(c, k), i) == if c[j] == Before(c, k) then After(c, k) else After(c, j)
    ensures Before(RemoveAt(c, k), i) == if c[j] == After(c, k) then Before(c, k) else Before(c, j)
  {
    j := if i < k then i else i + 1;
  }

  method SpliceOut(entry: ListHead, ghost c: seq<ListHead>, ghost k: nat)
    requires 0 < k < |c| && c[k] == entry && NoDup(c) && Linked(c)
    requires entry.prev != null && entry.next != null
    modifies entry, entry.prev, entry.next
    ensures Linked(RemoveAt(c, k)) && entry.next == entry && entry.prev == entry
  {
    ghost var before, after := Before(c, k), After(c, k);
    entry.next.prev := entry.prev;
    entry.prev.next := entry.next;
    entry.next := entry;
    entry.prev := entry;
    ghost var c' := RemoveAt(c, k);
    forall i | 0 <= i < |c'|
      ensures c'[i].next == After(c', i) && c'[i].prev == Before(c', i)
    {
      var j := NeighboursAfterRemoval(c, k, i);
    }
  }

  lemma RemovalKeepsApart(fam: Family, head: ListHead, k: nat) returns (fam': Family)
    requires Apart(fam) && head in fam && k < |fam[head]| && NoDup(Cycle(head, fam[head]))
    ensures fam' == fam[head := RemoveAt(fam[head], k)] && Apart(fam')
    ensures fam[head][k] !in Nodes(fam')
    ensures Cycle(head, fam'[head]) == RemoveAt(Cycle(head, fam[head]), k + 1) && NoDup(Cycle(head, fam'[head]))
  {
    var s, entry := fam[head], fam[head][k];
    var c := Cycle(head, s);
    assert c[k + 1] == entry && entry in c;
    var s' := RemoveAt(s, k);
    assert Cycle(head, s') == RemoveAt(c, k + 1);
    assert entry !in Cycle(head, s');
    KeepOthers(fam, head, s');
    fam' := fam[head := s'];
  }

  /** list_del: unlinks the k-th member of the ring of `head`, which the code never names. */
  method ListDel(entry: ListHead, ghost head: ListHead, ghost k: nat, ghost fam: Family)
    requires Rings(fam) && head in fam && k < |fam[head]| && fam[head][k] == entry
    modifies entry, entry.prev, entry.next
    ensures Rings(fam[head := RemoveAt(fam[head], k)]) && entry !in Nodes(fam[head := RemoveAt(fam[head], k)])
    ensures Ring(entry, [])
  {
    ghost var c := Cycle(head, fam[head]);
    ghost var prev, next := Before(c, k + 1), After(c, k + 1);
    assert c[k + 1] == entry && prev in c && next in c;
    ghost var fam' := RemovalKeepsApart(fam, head, k);
    SpliceOut(entry, c, k + 1);
    forall h | h in fam && h != head ensures Ring(h, fam[h]) {
      assert forall x | x in Cycle(h, fam[h]) :: x !in c;
    }
    assert Ring(head, fam'[head]);
  }
}
