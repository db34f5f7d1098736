/** The process tree on values, and what the child-and-sibling recursion of terminateProcessSubTree
    (phase2/exceptions.c) visits. */
module ProcessTree {
  import opened Basics
  import opened AslSpec

  /** The fields of a pcb_t that the nucleus decides by. */
  datatype Pcb = Pcb(parent: Option<Proc>, kids: seq<Proc>, semAdd: Key, pid: int)

  /** Parent pointers and children lists agree, and a pid is larger than the parent's and than that
      of every older sibling.  Pids are handed out in increasing order, so this is what rules out cycles. */
  ghost predicate Tree(ps: seq<Pcb>, bound: int) {
    && (forall p {:trigger ps[p].pid} | 0 <= p < |ps| :: 0 <= ps[p].pid < bound)
    && (forall p, k {:trigger k in ps[p].kids} | 0 <= p < |ps| && k in ps[p].kids :: k < |ps| && ps[k].parent == Some(p))
    && (forall q {:trigger ps[q].parent} | 0 <= q < |ps| && ps[q].parent.Some? ::
          var p := ps[q].parent.value; p < |ps| && q in ps[p].kids && ps[p].pid < ps[q].pid)
    && (forall p {:trigger ps[p].kids} | 0 <= p < |ps| :: ByAge(ps, ps[p].kids))
  }

  /** Processes in increasing order of pid. */
  ghost predicate ByAge(ps: seq<Pcb>, ks: seq<Proc>) {
    && (forall i | 0 <= i < |ks| :: ks[i] < |ps|)
    && (forall i, j | 0 <= i < j < |ks| :: ps[ks[i]].pid < ps[ks[j]].pid)
  }

  /** The processes that terminateProcessSubTree frees, in its order, when `ks` is its target followed by
      the target's later siblings: first the children, then the later siblings, the target last. */
  ghost function Doomed(ps: seq<Pcb>, bound: int, ks: seq<Proc>): seq<Proc>
    requires Tree(ps, bound) && ByAge(ps, ks)
    decreases if ks == [] then 0 else bound - ps[ks[0]].pid
  {
    if ks == [] then [] else
      KidsAreYounger(ps, bound, ks[0]);
      Doomed(ps, bound, ps[ks[0]].kids) + Doomed(ps, bound, ks[1..]) + [ks[0]]
  }

  lemma KidsAreYounger(ps: seq<Pcb>, bound: int, p: Proc)
    requires Tree(ps, bound) && p < |ps|
    ensures forall k | k in ps[p].kids :: k < |ps| && ps[p].pid < ps[k].pid
  {
  }

  /** a is p or an ancestor of p. */
  ghost predicate Ancestor(ps: seq<Pcb>, bound: int, a: Proc, p: Proc)
    requires Tree(ps, bound) && p < |ps|
    decreases ps[p].pid
  {
    p == a || (ps[p].parent.Some? && Ancestor(ps, bound, a, ps[p].parent.value))
  }

  lemma {:induction false} AncestorIsOlder(ps: seq<Pcb>, bound: int, a: Proc, p: Proc)
    requires Tree(ps, bound) && p < |ps| && Ancestor(ps, bound, a, p)
    ensures a < |ps| && ps[a].pid <= ps[p].pid && (a != p ==> ps[a].pid < ps[p].pid)
    decreases ps[p].pid
  {
    if p != a { AncestorIsOlder(ps, bound, a, ps[p].parent.value); }
  }

  /** A parent is not below its child. */
  lemma ParentNotBelow(ps: seq<Pcb>, bound: int, q: Proc, p: Proc)
    requires Tree(ps, bound) && p < |ps| && ps[p].parent == Some(q)
    ensures q < |ps| && !Ancestor(ps, bound, p, q)
  {
    if Ancestor(ps, bound, p, q) { AncestorIsOlder(ps, bound, p, q); }
  }

  /** Below a, but not a itself, is below one of a's children. */
  lemma {:induction false} AncestorViaKid(ps: seq<Pcb>, bound: int, a: Proc, p: Proc)
    requires Tree(ps, bound) && p < |ps| && a < |ps|
    ensures Ancestor(ps, bound, a, p) <==> p == a || exists k :: k in ps[a].kids && Ancestor(ps, bound, k, p)
    decreases ps[p].pid
  {
    if ps[p].parent.Some? && p != a {
      AncestorViaKid(ps, bound, a, ps[p].parent.value);
      if ps[p].parent.value == a { assert p in ps[a].kids && Ancestor(ps, bound, p, p); }
    }
    if k :| k in ps[a].kids && Ancestor(ps, bound, k, p) { AncestorUp(ps, bound, a, k, p); }
  }

  lemma {:induction false} AncestorUp(ps: seq<Pcb>, bound: int, a: Proc, k: Proc, p: Proc)
    requires Tree(ps, bound) && p < |ps| && a < |ps| && k in ps[a].kids && Ancestor(ps, bound, k, p)
    ensures Ancestor(ps, bound, a, p)
    decreases ps[p].pid
  {
    if p != k { AncestorUp(ps, bound, a, k, ps[p].parent.value); } else { assert Ancestor(ps, bound, a, a); }
  }

  /** Two processes with one parent and a common descendant are the same. */
  lemma {:induction false} OneBranch(ps: seq<Pcb>, bound: int, x: Proc, y: Proc, p: Proc)
    requires Tree(ps, bound) && p < |ps| && x < |ps| && y < |ps| && ps[x].parent == ps[y].parent && ps[x].parent.Some?
    requires Ancestor(ps, bound, x, p) && Ancestor(ps, bound, y, p)
    ensures x == y
    decreases ps[p].pid
  {
    if p == x || p == y {
      var o := if p == x then y else x;
      if o != p { AncestorIsOlder(ps, bound, o, ps[p].parent.value); }
    } else {
      OneBranch(ps, bound, x, y, ps[p].parent.value);
    }
  }

  /** One of ks is p or an ancestor of p. */
  ghost predicate BelowOne(ps: seq<Pcb>, bound: int, ks: seq<Proc>, p: Proc)
    requires Tree(ps, bound) && p < |ps|
  {
    exists i | 0 <= i < |ks| :: Ancestor(ps, bound, ks[i], p)
  }

  lemma BelowFirstOrRest(ps: seq<Pcb>, bound: int, ks: seq<Proc>, p: Proc)
    requires Tree(ps, bound) && p < |ps| && ks != []
    ensures BelowOne(ps, bound, ks, p) <==> Ancestor(ps, bound, ks[0], p) || BelowOne(ps, bound, ks[1..], p)
  {
  }

  lemma BelowKidsIff(ps: seq<Pcb>, bound: int, h: Proc, p: Proc)
    requires Tree(ps, bound) && p < |ps| && h < |ps|
    ensures Ancestor(ps, bound, h, p) <==> p == h || BelowOne(ps, bound, ps[h].kids, p)
  {
    AncestorViaKid(ps, bound, h, p);
    if k :| k in ps[h].kids && Ancestor(ps, bound, k, p) { var i :| 0 <= i < |ps[h].kids| && ps[h].kids[i] == k; }
  }

  /** Exactness: the recursion reaches the listed processes' descendants and nothing else. */
  lemma {:induction false} DoomedExact(ps: seq<Pcb>, bound: int, ks: seq<Proc>, p: Proc)
    requires Tree(ps, bound) && ByAge(ps, ks)
    ensures p in Doomed(ps, bound, ks) <==> p < |ps| && BelowOne(ps, bound, ks, p)
    decreases if ks == [] then 0 else bound - ps[ks[0]].pid
  {
    if ks != [] {
      var h, t := ks[0], ks[1..];
      KidsAreYounger(ps, bound, h);
      DoomedExact(ps, bound, ps[h].kids, p);
      DoomedExact(ps, bound, t, p);
      if p < |ps| {
        BelowFirstOrRest(ps, bound, ks, p);
        BelowKidsIff(ps, bound, h, p);
      }
    }
  }

  /** A child of a freed process is freed. */
  lemma DoomedClosed(ps: seq<Pcb>, bound: int, ks: seq<Proc>, p: Proc, k: Proc)
    requires Tree(ps, bound) && ByAge(ps, ks) && p in Doomed(ps, bound, ks) && p < |ps| && k in ps[p].kids
    ensures k in Doomed(ps, bound, ks)
  {
    DoomedExact(ps, bound, ks, p);
    var i :| 0 <= i < |ks| && Ancestor(ps, bound, ks[i], p);
    KidBelow(ps, bound, ks[i], p, k);
    DoomedExact(ps, bound, ks, k);
  }

  lemma KidBelow(ps: seq<Pcb>, bound: int, a: Proc, p: Proc, k: Proc)
    requires Tree(ps, bound) && p < |ps| && k in ps[p].kids && Ancestor(ps, bound, a, p)
    ensures k < |ps| && Ancestor(ps, bound, a, k)
  {
  }

  /** Every listed process has the same parent. */
  ghost predicate Siblings(ps: seq<Pcb>, ks: seq<Proc>) {
    forall i, j | 0 <= i < |ks| && 0 <= j < |ks| ::
      ks[i] < |ps| && ks[j] < |ps| && ps[ks[i]].parent.Some? && ps[ks[i]].parent == ps[ks[j]].parent
  }

  /** Nothing is freed twice. */
  lemma {:induction false} DoomedOnce(ps: seq<Pcb>, bound: int, ks: seq<Proc>)
    requires Tree(ps, bound) && ByAge(ps, ks) && Siblings(ps, ks)
    ensures NoDup(Doomed(ps, bound, ks))
    decreases if ks == [] then 0 else bound - ps[ks[0]].pid
  {
    if ks != [] {
      var h, t := ks[0], ks[1..];
      KidsAreYounger(ps, bound, h);
      KidsAreSiblings(ps, bound, h);
      DoomedOnce(ps, bound, ps[h].kids);
      DoomedOnce(ps, bound, t);
      var a, b := Doomed(ps, bound, ps[h].kids), Doomed(ps, bound, t);
      forall p | p in a ensures p !in b && p != h { BelowKids(ps, bound, h, p); NotBelowTail(ps, bound, ks, p); }
      forall p | p in b ensures p != h { NotBelowTail(ps, bound, ks, h); }
      NoDupJoin(a, b, h);
    }
  }

  lemma NoDupJoin<T>(a: seq<T>, b: seq<T>, h: T)
    requires NoDup(a) && NoDup(b) && h !in b && forall x | x in a :: x !in b && x != h
    ensures NoDup(a + b + [h])
  {
    var s := a + b + [h];
    forall i, j | 0 <= i < j < |s| ensures s[i] != s[j] {
      if i < |a| <= j { assert s[i] in a && (s[j] in b || s[j] == h); }
      if |a| <= i && j == |a| + |b| { assert s[i] in b; }
    }
  }

  lemma BelowKids(ps: seq<Pcb>, bound: int, h: Proc, p: Proc)
    requires Tree(ps, bound) && h < |ps| && p in Doomed(ps, bound, ps[h].kids)
    ensures p < |ps| && p != h && Ancestor(ps, bound, h, p)
  {
    var ks := ps[h].kids;
    DoomedExact(ps, bound, ks, p);
    var i :| 0 <= i < |ks| && Ancestor(ps, bound, ks[i], p);
    BelowKid(ps, bound, h, ks[i], p);
  }

  lemma BelowKid(ps: seq<Pcb>, bound: int, h: Proc, k: Proc, p: Proc)
    requires Tree(ps, bound) && h < |ps| && k in ps[h].kids && p < |ps| && Ancestor(ps, bound, k, p)
    ensures p != h && Ancestor(ps, bound, h, p)
  {
    AncestorIsOlder(ps, bound, k, p);
    AncestorUp(ps, bound, h, k, p);
  }

  /** What is below the first of several siblings is below no later one. */
  lemma NotBelowTail(ps: seq<Pcb>, bound: int, ks: seq<Proc>, p: Proc)
    requires Tree(ps, bound) && ByAge(ps, ks) && Siblings(ps, ks) && ks != []
    requires p < |ps| && Ancestor(ps, bound, ks[0], p)
    ensures p !in Doomed(ps, bound, ks[1..])
  {
    var t := ks[1..];
    if p in Doomed(ps, bound, t) {
      DoomedExact(ps, bound, t, p);
      var i :| 0 <= i < |t| && Ancestor(ps, bound, t[i], p);
      assert t[i] == ks[i + 1];
      OneBranch(ps, bound, ks[0], ks[i + 1], p);
    }
  }

  /** The order depends only on the children lists of the processes in it. */
  lemma {:induction false} DoomedFrame(ps: seq<Pcb>, bound: int, ps': seq<Pcb>, bound': int, ks: seq<Proc>)
    requires Tree(ps, bound) && Tree(ps', bound') && ByAge(ps, ks) && ByAge(ps', ks) && |ps| == |ps'|
    requires forall p | p in Doomed(ps, bound, ks) && p < |ps| :: ps'[p].kids == ps[p].kids
    ensures Doomed(ps', bound', ks) == Doomed(ps, bound, ks)
    decreases if ks == [] then 0 else bound - ps[ks[0]].pid
  {
    if ks != [] {
      KidsAreYounger(ps, bound, ks[0]);
      KidsAreYounger(ps', bound', ks[0]);
      assert ks[0] in Doomed(ps, bound, ks);
      DoomedFrame(ps, bound, ps', bound', ps[ks[0]].kids);
      DoomedFrame(ps, bound, ps', bound', ks[1..]);
    }
  }

  /** A sibling of t is not below t. */
  lemma SiblingNotBelow(ps: seq<Pcb>, bound: int, q: Proc, t: Proc, k: Proc)
    requires Tree(ps, bound) && q < |ps| && t in ps[q].kids && k in ps[q].kids && t < |ps|
    ensures k !in Doomed(ps, bound, ps[t].kids)
  {
    if k in Doomed(ps, bound, ps[t].kids) {
      BelowKids(ps, bound, t, k);
      AncestorIsOlder(ps, bound, t, q);
    }
  }

  /** A process and all its descendants, in the order terminateProcess frees them. */
  ghost function Subtree(ps: seq<Pcb>, bound: int, t: Proc): seq<Proc>
    requires Tree(ps, bound) && t < |ps|
  {
    Doomed(ps, bound, ps[t].kids) + [t]
  }

  lemma SubtreeExact(ps: seq<Pcb>, bound: int, t: Proc, p: Proc)
    requires Tree(ps, bound) && t < |ps|
    ensures p in Subtree(ps, bound, t) <==> p < |ps| && Ancestor(ps, bound, t, p)
  {
    var ks := ps[t].kids;
    DoomedExact(ps, bound, ks, p);
    if p < |ps| {
      AncestorViaKid(ps, bound, t, p);
      if k :| k in ks && Ancestor(ps, bound, k, p) { var i :| 0 <= i < |ks| && ks[i] == k; }
    }
  }

  lemma SubtreeOnce(ps: seq<Pcb>, bound: int, t: Proc)
    requires Tree(ps, bound) && t < |ps|
    ensures NoDup(Subtree(ps, bound, t))
  {
    var d := Doomed(ps, bound, ps[t].kids);
    KidsAreSiblings(ps, bound, t);
    DoomedOnce(ps, bound, ps[t].kids);
    if t in d { BelowKids(ps, bound, t, t); }
    NoDupJoin(d, [], t);
    assert d + [] + [t] == Subtree(ps, bound, t);
  }

  lemma KidsAreSiblings(ps: seq<Pcb>, bound: int, t: Proc)
    requires Tree(ps, bound) && t < |ps|
    ensures Siblings(ps, ps[t].kids)
  {
    forall i | 0 <= i < |ps[t].kids| ensures ps[t].kids[i] in ps[t].kids { }
  }

  // ---------------------------------------------------------------------------------------------
  // The order

  lemma {:induction false} AncestorTrans(ps: seq<Pcb>, bound: int, a: Proc, q: Proc, p: Proc)
    requires Tree(ps, bound) && p < |ps| && q < |ps| && Ancestor(ps, bound, a, q) && Ancestor(ps, bound, q, p)
    ensures Ancestor(ps, bound, a, p)
    decreases ps[p].pid
  {
    if p != q { AncestorTrans(ps, bound, a, q, ps[p].parent.value); }
  }

  /** x may come before y: it is no ancestor of y, and of two siblings the younger comes first. */
  ghost predicate MayPrecede(ps: seq<Pcb>, bound: int, x: Proc, y: Proc)
    requires Tree(ps, bound)
  {
    && x < |ps| && y < |ps| && !Ancestor(ps, bound, x, y)
    && (ps[x].parent.Some? && ps[x].parent == ps[y].parent ==> ps[y].pid < ps[x].pid)
  }

  ghost predicate InOrder(ps: seq<Pcb>, bound: int, o: seq<Proc>)
    requires Tree(ps, bound)
  {
    forall i, j | 0 <= i < j < |o| :: MayPrecede(ps, bound, o[i], o[j])
  }

  lemma JoinInOrder(ps: seq<Pcb>, bound: int, a: seq<Proc>, b: seq<Proc>, h: Proc)
    requires Tree(ps, bound) && InOrder(ps, bound, a) && InOrder(ps, bound, b)
    requires forall x, y | x in a && y in b :: MayPrecede(ps, bound, x, y)
    requires forall x | x in a || x in b :: MayPrecede(ps, bound, x, h)
    ensures InOrder(ps, bound, a + b + [h])
  {
    var s := a + b + [h];
    forall i, j | 0 <= i < j < |s| ensures MayPrecede(ps, bound, s[i], s[j]) {
      if i < |a| { assert s[i] in a; } else { assert s[i] in b; }
      if |a| <= j < |a| + |b| { assert s[j] in b; }
    }
  }

  /** x is a proper descendant of h, and y is not below h. */
  lemma BranchesApart(ps: seq<Pcb>, bound: int, h: Proc, x: Proc, y: Proc)
    requires Tree(ps, bound) && h < |ps| && x < |ps| && y < |ps| && x != h
    requires Ancestor(ps, bound, h, x) && !Ancestor(ps, bound, h, y)
    ensures MayPrecede(ps, bound, x, y)
  {
    if Ancestor(ps, bound, x, y) { AncestorTrans(ps, bound, h, x, y); }
  }

  lemma DescendantFirst(ps: seq<Pcb>, bound: int, h: Proc, x: Proc)
    requires Tree(ps, bound) && h < |ps| && x < |ps| && x != h && Ancestor(ps, bound, h, x)
    ensures MayPrecede(ps, bound, x, h)
  {
    AncestorIsOlder(ps, bound, h, x);
    if Ancestor(ps, bound, x, h) { AncestorIsOlder(ps, bound, x, h); }
  }

  /** x is below a later sibling of the first one. */
  lemma LaterFirst(ps: seq<Pcb>, bound: int, ks: seq<Proc>, x: Proc)
    requires Tree(ps, bound) && ByAge(ps, ks) && Siblings(ps, ks) && ks != [] && x in Doomed(ps, bound, ks[1..])
    ensures MayPrecede(ps, bound, x, ks[0])
  {
    var h, t := ks[0], ks[1..];
    DoomedExact(ps, bound, t, x);
    var i :| 0 <= i < |t| && Ancestor(ps, bound, t[i], x);
    assert t[i] == ks[i + 1];
    if Ancestor(ps, bound, x, h) {
      AncestorTrans(ps, bound, t[i], x, h);
      assert Ancestor(ps, bound, h, h);
      OneBranch(ps, bound, h, t[i], h);
    }
    if ps[x].parent == ps[h].parent && x != t[i] { AncestorIsOlder(ps, bound, t[i], ps[x].parent.value); }
  }

  /** Nobody is freed before a descendant, and of two siblings the younger is freed first. */
  lemma {:induction false} DoomedInOrder(ps: seq<Pcb>, bound: int, ks: seq<Proc>)
    requires Tree(ps, bound) && ByAge(ps, ks) && Siblings(ps, ks)
    ensures InOrder(ps, bound, Doomed(ps, bound, ks))
    decreases if ks == [] then 0 else bound - ps[ks[0]].pid
  {
    if ks != [] {
      var h, t := ks[0], ks[1..];
      KidsAreYounger(ps, bound, h);
      KidsAreSiblings(ps, bound, h);
      DoomedInOrder(ps, bound, ps[h].kids);
      DoomedInOrder(ps, bound, t);
      var a, b := Doomed(ps, bound, ps[h].kids), Doomed(ps, bound, t);
      forall x, y | x in a && y in b ensures MayPrecede(ps, bound, x, y) {
        BelowKids(ps, bound, h, x);
        DoomedExact(ps, bound, t, y);
        if Ancestor(ps, bound, h, y) { NotBelowTail(ps, bound, ks, y); }
        BranchesApart(ps, bound, h, x, y);
      }
      forall x | x in a || x in b ensures MayPrecede(ps, bound, x, h) {
        if x in a { BelowKids(ps, bound, h, x); DescendantFirst(ps, bound, h, x); } else { LaterFirst(ps, bound, ks, x); }
      }
      JoinInOrder(ps, bound, a, b, h);
    }
  }

  lemma SubtreeInOrder(ps: seq<Pcb>, bound: int, t: Proc)
    requires Tree(ps, bound) && t < |ps|
    ensures InOrder(ps, bound, Subtree(ps, bound, t))
  {
    var d := Doomed(ps, bound, ps[t].kids);
    KidsAreSiblings(ps, bound, t);
    DoomedInOrder(ps, bound, ps[t].kids);
    forall x | x in d ensures MayPrecede(ps, bound, x, t) { BelowKids(ps, bound, t, x); DescendantFirst(ps, bound, t, x); }
    JoinInOrder(ps, bound, d, [], t);
    assert d + [] + [t] == Subtree(ps, bound, t);
  }
}
