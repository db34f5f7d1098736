/** Every step of the nucleus keeps the invariant. */
module NucleusInv {
  import opened Basics
  import opened AslSpec
  import opened ProcessTree
  import opened NucleusState

  lemma NoDupSnoc<T>(q: seq<T>, x: T)
    requires NoDup(q) && x !in q
    ensures NoDup(q + [x])
  {
  }

  /** p_semAdd is no part of the tree. */
  ghost predicate SameLinks(ps: seq<Pcb>, ps': seq<Pcb>) {
    |ps'| == |ps| && forall p | 0 <= p < |ps| :: ps'[p].parent == ps[p].parent && ps'[p].kids == ps[p].kids && ps'[p].pid == ps[p].pid
  }

  /** Only the queues and slots changed, and p_semAdd fields: the tree and the pids are as before. */
  lemma SameFamily(s: State, s': State)
    requires Family(s) && SameLinks(s.pcbs, s'.pcbs)
    requires s'.nextPid == s.nextPid && s'.free == s.free && s'.idlers == s.idlers
    ensures Family(s')
  {
  }

  /** A pid that was handed out names one entry. */
  lemma OnePid(s: State, p: Proc, q: Proc)
    requires Pids(s) && p < |s.pcbs| && q < |s.pcbs| && s.pcbs[p].pid == s.pcbs[q].pid > 0
    ensures p == q
  {
    assert SamePid(s.pcbs, p, q) && SamePid(s.pcbs, q, p);
  }

  lemma SamePids(s: State, s': State)
    requires Pids(s) && SameLinks(s.pcbs, s'.pcbs)
    requires s'.nextPid == s.nextPid && s'.free == s.free && s'.idlers == s.idlers
    ensures Pids(s')
  {
    assert forall p: Proc :: Live(s', p) <==> Live(s, p);
    forall p: Proc, q: Proc | p < q < |s'.pcbs| && s'.pcbs[p].pid > 0 ensures !SamePid(s'.pcbs, p, q) {
      assert !SamePid(s.pcbs, p, q);
    }
  }

  /** The slot of CPU c may be overwritten: it is NULL, or its process was requeued. */
  predicate Vacant(s: State, c: nat) {
    c < |s.cur| && (s.cur[c] == None || c in s.due)
  }

  lemma DispatchLists(s: State, c: nat)
    requires Lists(s) && Placed(s) && Vacant(s, c) && s.ready != []
    ensures Lists(Dispatch(s, c))
  {
    var s', h := Dispatch(s, c), s.ready[0];
    assert h in s.ready && Live(s, h);
    assert !IsRunning(s, h);
    assert forall p | p in s'.ready :: p in s.ready;
  }

  lemma DispatchPlaced(s: State, c: nat)
    requires Lists(s) && Placed(s) && Vacant(s, c) && s.ready != []
    ensures Placed(Dispatch(s, c))
  {
    var s', h := Dispatch(s, c), s.ready[0];
    assert forall p | p in s.ready :: p == h || p in s'.ready;
    assert forall p | p in s'.ready :: p in s.ready && p != h;
    forall p: Proc | Live(s', p) ensures IsRunning(s', p) <==> IsRunning(s, p) || p == h {
      if i :| 0 <= i < |s.cur| && s.cur[i] == Some(p) && i !in s.due { assert s'.cur[i] == s.cur[i] && i !in s'.due; }
      if i :| 0 <= i < |s'.cur| && s'.cur[i] == Some(p) && i !in s'.due { assert i == c || i !in s.due; }
      assert s'.cur[c] == Some(h) && c !in s'.due;
    }
  }

  /** A dispatch on an empty queue, where no slot is left over. */
  lemma IdleInv(s: State, c: nat)
    requires Inv(s) && c < |s.cur| && s.ready == [] && (s.cur[c] == None || c !in s.due)
    ensures Inv(Dispatch(s, c))
  {
    var s' := Dispatch(s, c);
    forall p: Proc ensures IsRunning(s', p) <==> IsRunning(s, p) {
      if i :| 0 <= i < |s.cur| && s.cur[i] == Some(p) && i !in s.due { assert i !in s'.due; }
      if i :| 0 <= i < |s'.cur| && s'.cur[i] == Some(p) && i !in s'.due { assert i !in s.due; }
    }
    SameFamily(s, s');
    SamePids(s, s');
  }

  lemma DispatchInv(s: State, c: nat)
    requires Inv(s) && Vacant(s, c) && (s.ready == [] ==> s.cur[c] == None)
    ensures Inv(Dispatch(s, c))
  {
    if s.ready == [] {
      IdleInv(s, c);
    } else {
      DispatchLists(s, c);
      DispatchPlaced(s, c);
      SameFamily(s, Dispatch(s, c));
      SamePids(s, Dispatch(s, c));
    }
  }

  // ---------------------------------------------------------------------------------------------
  // A running process goes back to the ready queue

  /** CPU c no longer executes the process its slot named. */
  ghost predicate Stops(s: State, s': State, c: nat) {
    || (s'.cur == s.cur && s'.due == s.due + {c})
    || (c < |s.cur| && s'.cur == s.cur[c := None] && s'.due == s.due)
  }

  /** Then exactly its process stops running. */
  lemma SlotCleared(s: State, s': State, c: nat, p: Proc)
    requires Lists(s) && Active(s, c) && s.cur[c] == Some(p) && Stops(s, s', c)
    ensures forall q: Proc :: IsRunning(s', q) <==> IsRunning(s, q) && q != p
  {
    forall q: Proc ensures IsRunning(s', q) <==> IsRunning(s, q) && q != p {
      if i :| 0 <= i < |s.cur| && s.cur[i] == Some(q) && i !in s.due && q != p { assert s'.cur[i] == Some(q) && i !in s'.due; }
      if i :| 0 <= i < |s'.cur| && s'.cur[i] == Some(q) && i !in s'.due { assert s.cur[i] == Some(q) && i !in s.due; }
    }
  }

  lemma RequeueLists(s: State, c: nat)
    requires Lists(s) && Placed(s) && Active(s, c)
    ensures Lists(Requeue(s, c))
  {
    var p := s.cur[c].value;
    assert Live(s, p) && IsRunning(s, p);
    NoDupSnoc(s.ready, p);
  }

  lemma RequeueInv(s: State, c: nat)
    requires Inv(s) && Active(s, c)
    ensures Inv(Requeue(s, c))
  {
    var p, s' := s.cur[c].value, Requeue(s, c);
    assert Live(s, p) && IsRunning(s, p);
    RequeueLists(s, c);
    SlotCleared(s, s', c, p);
    SameFamily(s, s');
    SamePids(s, s');
  }

  // ---------------------------------------------------------------------------------------------
  // A running process blocks

  /** insertBlocked can be served: the semaphore has a descriptor, or one is free. */
  predicate Room(s: State, k: Key) {
    k in s.asl || |s.asl| < |s.pcbs|
  }

  lemma BlockLists(s: State, c: nat, k: Key)
    requires Lists(s) && Placed(s) && Active(s, c) && Room(s, k)
    ensures Lists(Block(s, c, k))
  {
    var p := s.cur[c].value;
    assert Live(s, p) && IsRunning(s, p);
    assert forall j | j in s.asl :: p !in s.asl[j];
    if k in s.asl { NoDupSnoc(s.asl[k], p); }
  }

  lemma BlockPlaced(s: State, c: nat, k: Key)
    requires Lists(s) && Placed(s) && Active(s, c) && Room(s, k)
    ensures Placed(Block(s, c, k))
  {
    var p, s' := s.cur[c].value, Block(s, c, k);
    assert Live(s, p) && IsRunning(s, p);
    SlotCleared(s, s', c, p);
    assert forall q: Proc | Live(s', q) :: IsBlocked(s', q) <==> IsBlocked(s, q) || q == p;
  }

  lemma BlockInv(s: State, c: nat, k: Key)
    requires Inv(s) && Active(s, c) && Room(s, k)
    ensures Inv(Block(s, c, k))
  {
    BlockLists(s, c, k);
    BlockPlaced(s, c, k);
    SameFamily(s, Block(s, c, k));
    SamePids(s, Block(s, c, k));
  }

  // ---------------------------------------------------------------------------------------------
  // Waiters become ready

  lemma UnblockLists(s: State, k: Key, v: int)
    requires Lists(s) && Placed(s)
    ensures Lists(Unblock(s, k, v))
  {
    if k in s.asl && s.asl[k] != [] {
      var r := s.asl[k][0];
      assert r in s.asl[k];
      assert Live(s, r) && IsBlocked(s, r);
      NoDupSnoc(s.ready, r);
      assert forall p | p in s.asl[k][1..] :: p in s.asl[k];
    }
  }

  lemma UnblockPlaced(s: State, k: Key, v: int)
    requires Lists(s) && Placed(s)
    ensures Placed(Unblock(s, k, v))
  {
    var s' := Unblock(s, k, v);
    assert forall p: Proc :: IsRunning(s', p) <==> IsRunning(s, p);
    if k in s.asl {
      if s.asl[k] == [] {
        assert forall p: Proc | Live(s, p) :: IsBlocked(s', p) <==> IsBlocked(s, p);
      } else {
        var r, t := s.asl[k][0], s.asl[k][1..];
        assert r in s.asl[k] && s.pcbs[r].semAdd == k;
        assert forall p | p in s.asl[k] :: p == r || p in t;
        assert r !in t;
        assert forall p: Proc | Live(s, p) :: IsBlocked(s', p) <==> IsBlocked(s, p) && p != r;
      }
    }
  }

  lemma UnblockInv(s: State, k: Key, v: int)
    requires Inv(s)
    ensures Inv(Unblock(s, k, v))
  {
    UnblockLists(s, k, v);
    UnblockPlaced(s, k, v);
    SameFamily(s, Unblock(s, k, v));
    SamePids(s, Unblock(s, k, v));
  }

  lemma NoDupAppend<T>(a: seq<T>, b: seq<T>)
    requires NoDup(a) && NoDup(b) && forall x | x in b :: x !in a
    ensures NoDup(a + b)
  {
    forall i, j | 0 <= i < j < |a + b| ensures (a + b)[i] != (a + b)[j] {
      if i < |a| <= j { assert (a + b)[j] in b; }
    }
  }

  lemma TickLists(s: State, c: nat)
    requires Lists(s) && Placed(s)
    ensures Lists(Tick(s, c))
  {
    if Head(s.asl, s.clock) != None {
      var q := s.asl[s.clock];
      forall p | p in q ensures p !in s.ready { assert Live(s, p) && IsBlocked(s, p); }
      NoDupAppend(s.ready, q);
    }
  }

  lemma TickPlaced(s: State, c: nat)
    requires Lists(s) && Placed(s)
    ensures Placed(Tick(s, c))
  {
    var s' := Tick(s, c);
    assert forall p: Proc :: IsRunning(s', p) <==> IsRunning(s, p);
    if Head(s.asl, s.clock) != None {
      assert forall p: Proc | Live(s, p) :: IsBlocked(s', p) <==> IsBlocked(s, p) && p !in s.asl[s.clock];
    } else {
      assert forall p: Proc :: IsBlocked(s', p) <==> IsBlocked(s, p);
    }
  }

  lemma TickInv(s: State, c: nat)
    requires Inv(s)
    ensures Inv(Tick(s, c))
  {
    TickLists(s, c);
    TickPlaced(s, c);
    SameFamily(s, Tick(s, c));
    SamePids(s, Tick(s, c));
  }

  // ---------------------------------------------------------------------------------------------
  // A process is created

  /** ps' is ps with the free entry p as the youngest child of q, or without a parent. */
  ghost predicate Born(ps: seq<Pcb>, ps': seq<Pcb>, bound: int, p: Proc, q: Option<Proc>) {
    && |ps'| == |ps| && p < |ps| && ps[p].parent == None && ps[p].kids == []
    && ps'[p] == Pcb(q, [], 0, bound)
    && (q.Some? ==> q.value < |ps| && p != q.value && ps'[q.value] == ps[q.value].(kids := ps[q.value].kids + [p]))
    && forall x | 0 <= x < |ps| && x != p && Some(x) != q :: ps'[x] == ps[x]
  }

  lemma BornLinks(ps: seq<Pcb>, ps': seq<Pcb>, bound: int, p: Proc, q: Option<Proc>)
    requires Tree(ps, bound) && Born(ps, ps', bound, p, q)
    ensures forall x, k | 0 <= x < |ps'| && k in ps'[x].kids :: k < |ps'| && ps'[k].parent == Some(x)
    ensures forall x | 0 <= x < |ps'| && ps'[x].parent.Some? ::
              var y := ps'[x].parent.value; y < |ps'| && x in ps'[y].kids && ps'[y].pid < ps'[x].pid
  {
  }

  lemma BornOrder(ps: seq<Pcb>, ps': seq<Pcb>, bound: int, p: Proc, q: Option<Proc>, x: Proc)
    requires Tree(ps, bound) && Born(ps, ps', bound, p, q) && x < |ps|
    ensures ByAge(ps', ps'[x].kids)
  {
    var ks := ps[x].kids;
    assert ByAge(ps, ks);
    forall i | 0 <= i < |ks| ensures ks[i] != p && ps'[ks[i]].pid == ps[ks[i]].pid < bound { assert ks[i] in ks; }
  }

  lemma BornTree(ps: seq<Pcb>, ps': seq<Pcb>, bound: int, p: Proc, q: Option<Proc>)
    requires Tree(ps, bound) && 0 <= bound && Born(ps, ps', bound, p, q)
    ensures Tree(ps', bound + 1)
  {
    BornLinks(ps, ps', bound, p, q);
    forall x | 0 <= x < |ps'| ensures ByAge(ps', ps'[x].kids) { BornOrder(ps, ps', bound, p, q, x); }
  }

  /** The entry that createProcess takes, before it takes it. */
  lemma FreeIsLoose(s: State, p: Proc)
    requires Lists(s) && Family(s) && p in s.free
    ensures p < |s.pcbs| && !Live(s, p) && s.pcbs[p].parent == None && s.pcbs[p].kids == []
  {
    if s.pcbs[p].kids != [] { ParentIsLive(s, p); }
  }

  lemma ParentIsLive(s: State, p: Proc)
    requires Family(s) && p < |s.pcbs| && s.pcbs[p].kids != []
    ensures Live(s, p)
  {
    var k := s.pcbs[p].kids[0];
    assert k in s.pcbs[p].kids;
    assert s.pcbs[k].parent == Some(p);
  }

  lemma CreateLive(s: State, c: nat) returns (p: Proc, s': State)
    requires Lists(s) && Slot(s, c) && s.free != [] && s.free[|s.free| - 1] < |s.pcbs|
    ensures p == s.free[|s.free| - 1] && p in s.free && s' == Create(s, c).0 && p !in s'.free
    ensures forall x | x in s'.free :: x in s.free
    ensures forall x: Proc :: Live(s', x) <==> Live(s, x) || x == p
    ensures forall x: Proc | Live(s, x) :: x != p && s'.pcbs[x].semAdd == s.pcbs[x].semAdd
  {
    p, s' := s.free[|s.free| - 1], Create(s, c).0;
    assert p in s.free;
    assert forall x | x in s.free :: x == p || x in s'.free;
    assert forall x | x in s'.free :: x in s.free && x != p;
  }

  lemma CreateLists(s: State, c: nat)
    requires Lists(s) && Slot(s, c) && s.free != [] && s.free[|s.free| - 1] < |s.pcbs|
    ensures Lists(Create(s, c).0)
  {
    var p, s' := CreateLive(s, c);
    NoDupSnoc(s.ready, p);
    assert NoDup(s'.free);
  }

  lemma CreatePlaced(s: State, c: nat)
    requires Lists(s) && Placed(s) && Slot(s, c) && s.free != [] && s.free[|s.free| - 1] < |s.pcbs|
    ensures Placed(Create(s, c).0)
  {
    var p, s' := CreateLive(s, c);
    assert forall x: Proc :: IsRunning(s', x) <==> IsRunning(s, x);
  }

  lemma CreateBorn(s: State, c: nat)
    requires Lists(s) && Family(s) && Slot(s, c) && s.free != [] && s.free[|s.free| - 1] < |s.pcbs|
    ensures Born(s.pcbs, Create(s, c).0.pcbs, s.nextPid, s.free[|s.free| - 1], s.cur[c])
    ensures s.cur[c].Some? ==> Live(s, s.cur[c].value)
  {
    var p, s' := CreateLive(s, c);
    assert s.cur[c].Some? ==> Live(s, s.cur[c].value);
    FreeIsLoose(s, p);
  }

  lemma CreateTree(s: State, c: nat)
    requires Lists(s) && Family(s) && Slot(s, c) && s.free != [] && s.free[|s.free| - 1] < |s.pcbs| && 0 <= s.nextPid
    ensures Tree(Create(s, c).0.pcbs, Create(s, c).0.nextPid)
  {
    CreateBorn(s, c);
    BornTree(s.pcbs, Create(s, c).0.pcbs, s.nextPid, s.free[|s.free| - 1], s.cur[c]);
  }

  lemma CreateFamily(s: State, c: nat)
    requires Lists(s) && Family(s) && Slot(s, c) && s.free != [] && s.free[|s.free| - 1] < |s.pcbs| && 0 <= s.nextPid
    ensures Family(Create(s, c).0)
  {
    var p, s' := CreateLive(s, c);
    CreateTree(s, c);
    CreateBorn(s, c);
    forall x | 0 <= x < |s'.pcbs| && s'.pcbs[x].parent.Some?
      ensures Live(s', x) && Live(s', s'.pcbs[x].parent.value)
    {
      if x != p { assert s'.pcbs[x].parent == s.pcbs[x].parent; }
    }
  }

  lemma CreatePids(s: State, c: nat)
    requires Lists(s) && Family(s) && Pids(s) && Slot(s, c) && s.free != [] && s.free[|s.free| - 1] < |s.pcbs|
    ensures Pids(Create(s, c).0)
  {
    var p, s' := CreateLive(s, c);
    CreateBorn(s, c);
    forall x: Proc, y: Proc | x < y < |s'.pcbs| && s'.pcbs[x].pid > 0 ensures !SamePid(s'.pcbs, x, y) {
      NewPidIsNew(s.pcbs, s'.pcbs, s.nextPid, p, s.cur[c], x);
      NewPidIsNew(s.pcbs, s'.pcbs, s.nextPid, p, s.cur[c], y);
      assert x != p && y != p ==> !SamePid(s.pcbs, x, y);
    }
  }

  lemma NewPidIsNew(ps: seq<Pcb>, ps': seq<Pcb>, bound: int, p: Proc, q: Option<Proc>, x: Proc)
    requires Tree(ps, bound) && Born(ps, ps', bound, p, q) && x < |ps|
    ensures ps'[x].pid == if x == p then bound else ps[x].pid
    ensures x != p ==> ps'[x].pid < bound
  {
  }

  lemma CreateInv(s: State, c: nat)
    requires Inv(s) && c < |s.cur|
    ensures Slot(s, c) && (s.free != [] ==> s.free[|s.free| - 1] < |s.pcbs|)
    ensures Inv(Create(s, c).0)
  {
    if s.free != [] {
      assert s.free[|s.free| - 1] in s.free;
      CreateLists(s, c);
      CreatePlaced(s, c);
      CreateFamily(s, c);
      CreatePids(s, c);
    }
  }

  // ---------------------------------------------------------------------------------------------
  // Boot

  lemma BootLive(maxproc: nat, ncpu: nat, s: State)
    requires 1 <= ncpu <= maxproc && |s.pcbs| == maxproc
    requires s.free == Upto(maxproc - ncpu) && s.idlers == Interval(maxproc - ncpu, ncpu - 1)
    ensures forall p: Proc :: Live(s, p) <==> p == maxproc - 1
  {
    forall p: Proc | p < maxproc - ncpu ensures p in s.free { assert s.free[p] == p; }
  }

  lemma BootLists(maxproc: nat, ncpu: nat, cells: map<Key, int>, clock: Key, devices: set<Key>)
    requires 1 <= ncpu <= maxproc
    ensures Lists(Boot(maxproc, ncpu, cells, clock, devices))
  {
  }

  lemma BootPlaced(maxproc: nat, ncpu: nat, cells: map<Key, int>, clock: Key, devices: set<Key>)
    requires 1 <= ncpu <= maxproc
    ensures Placed(Boot(maxproc, ncpu, cells, clock, devices))
  {
    var s := Boot(maxproc, ncpu, cells, clock, devices);
    BootLive(maxproc, ncpu, s);
    assert s.ready[0] == maxproc - 1;
  }

  lemma BootFamily(maxproc: nat, ncpu: nat, s: State)
    requires 1 <= ncpu <= maxproc && s.pcbs == BootTable(maxproc, ncpu) && s.nextPid == ncpu + 1
    requires forall p: Proc :: Live(s, p) <==> p == maxproc - 1
    ensures Family(s) && Pids(s) && Rooted(s)
  {
  }

  lemma BootInv(maxproc: nat, ncpu: nat, cells: map<Key, int>, clock: Key, devices: set<Key>)
    requires 1 <= ncpu <= maxproc
    ensures Inv(Boot(maxproc, ncpu, cells, clock, devices)) && Rooted(Boot(maxproc, ncpu, cells, clock, devices))
  {
    var s := Boot(maxproc, ncpu, cells, clock, devices);
    BootLists(maxproc, ncpu, cells, clock, devices);
    BootPlaced(maxproc, ncpu, cells, clock, devices);
    BootLive(maxproc, ncpu, s);
    BootFamily(maxproc, ncpu, s);
  }
}
