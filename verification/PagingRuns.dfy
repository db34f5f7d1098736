/** Runs of paged U-procs on one CPU: accesses, refills, faults, flash errors and terminations in any order.  They
    cannot be told from runs on flat memory, and write nothing back as long as a frame is free. */
module PagingRuns {
  import opened Basics
  import opened PageIndex
  import opened SwapMemory
  import opened Paging

  datatype Event =
    | Read(asid: int, vpn: nat, off: nat)
    | Write(asid: int, vpn: nat, off: nat, w: int)
    | TlbMiss(asid: int, vpn: nat, slot: nat)
    | PageFault(asid: int, vpn: nat)
    | Exit(asid: int)
    | FlashError(asid: int, vpn: nat, write: Status, read: Status)

  /** Reads and writes go through a valid TLB entry; a refill follows a miss, on any page number that the handler has an
      entry for; a fault may come at any time, on a page that can be in the TLB. */
  ghost predicate Possible(m: Memory, live: set<int>, e: Event) {
    match e
    case Read(a, v, off) => a in live && Accessible(m, a, v, off)
    case Write(a, v, off, w) => a in live && Accessible(m, a, v, off)
    case TlbMiss(a, v, slot) =>
      a in live && slot < |m.tlb| && Probe(m.tlb, Hi(a, v)) == |m.tlb| && PageOf(a, v) in m.ptes
    case PageFault(a, v) => a in live && Legal(v) && Shaped(m) && PageOf(a, v) in m.ptes
    case Exit(a) => a in live
    case FlashError(a, v, w, r) => a in live && Legal(v) && Shaped(m) && PageOf(a, v) in m.ptes && !Fault(m, a, v, w, r).1
  }

  ghost function After(m: Memory, live: set<int>, e: Event): Memory
    requires Possible(m, live, e)
  {
    match e
    case Read(a, v, off) => m
    case Write(a, v, off, w) => Store(m, a, v, off, w)
    case TlbMiss(a, v, slot) => Refill(m, a, v, slot)
    case PageFault(a, v) => Handle(m, a, v)
    case Exit(a) => Sweep(m, a)
    case FlashError(a, v, w, r) => Fault(m, a, v, w, r).0
  }

  function Living(live: set<int>, e: Event): set<int> {
    if e.Exit? || e.FlashError? then live - {e.asid} else live
  }

  /** What a read yields. */
  function Seen(m: Memory, e: Event): seq<int> {
    if e.Read? && Accessible(m, e.asid, e.vpn, e.off) then [m.frames[Translate(m, e.asid, e.vpn).value][e.off]] else []
  }

  /** A refill puts no entry into the TLB that is in another slot, and a flash error strikes nobody else's page. */
  ghost predicate Apart(m: Memory, e: Event) {
    match e
    case TlbMiss(a, v, slot) => Single(m, PageOf(a, v), slot)
    case FlashError(a, v, w, r) => Shaped(m) && !TakesFromOther(m, a)
    case _ => true
  }

  /** From m, the events lead to m', the U-procs live' are left, and the reads yield `out`. */
  ghost predicate Run(m: Memory, live: set<int>, es: seq<Event>, m': Memory, live': set<int>, out: seq<int>)
    decreases |es|
  {
    if es == [] then m' == m && live' == live && out == []
    else
      && Possible(m, live, es[0]) && Apart(m, es[0])
      && Seen(m, es[0]) <= out
      && Run(After(m, live, es[0]), Living(live, es[0]), es[1..], m', live', out[|Seen(m, es[0])|..])
  }

  /** A run as the code makes it, whatever page numbers the refills are for. */
  ghost predicate RawRun(m: Memory, live: set<int>, es: seq<Event>, m': Memory, live': set<int>, out: seq<int>)
    decreases |es|
  {
    if es == [] then m' == m && live' == live && out == []
    else
      && Possible(m, live, es[0])
      && Seen(m, es[0]) <= out
      && RawRun(After(m, live, es[0]), Living(live, es[0]), es[1..], m', live', out[|Seen(m, es[0])|..])
  }

  predicate Ordinary(e: Event) {
    !e.FlashError? && (e.TlbMiss? ==> Legal(e.vpn))
  }

  /** As long as the U-procs touch only pages that _initSupport made entries for, and no flash operation fails, that is
      no difference. */
  lemma {:induction false} OrdinaryRun(m: Memory, live: set<int>, es: seq<Event>, m': Memory, live': set<int>, out: seq<int>)
    requires RawRun(m, live, es, m', live', out) && forall i | 0 <= i < |es| :: Ordinary(es[i])
    ensures Run(m, live, es, m', live', out)
    decreases |es|
  {
    hide After, Seen, Single;
    if es != [] {
      var e := es[0];
      if e.TlbMiss? { LegalMiss(m, e.asid, e.vpn, e.slot); }
      assert forall i | 0 <= i < |es[1..]| :: es[1..][i] == es[i + 1];
      OrdinaryRun(After(m, live, e), Living(live, e), es[1..], m', live', out[|Seen(m, e)|..]);
    }
  }

  lemma StepSound(m: Memory, live: set<int>, e: Event)
    requires Sound(m, live) && Possible(m, live, e) && Apart(m, e)
    ensures Sound(After(m, live, e), Living(live, e))
  {
    match e
    case Read(a, v, off) =>
    case Write(a, v, off, w) => StoreSound(m, live, a, v, off, w);
    case TlbMiss(a, v, slot) => SingleSound(m, live, a, v, slot);
    case PageFault(a, v) => HandleSound(m, live, a, v);
    case Exit(a) => SweepSound(m, live, a);
    case FlashError(a, v, w, r) => FailureSoundIff(m, live, a, v, w, r);
  }

  lemma {:induction false} RunSound(m: Memory, live: set<int>, es: seq<Event>, m': Memory, live': set<int>, out: seq<int>)
    requires Sound(m, live) && Run(m, live, es, m', live', out)
    ensures Sound(m', live') && live' <= live
    decreases |es|
  {
    if es != [] {
      StepSound(m, live, es[0]);
      RunSound(After(m, live, es[0]), Living(live, es[0]), es[1..], m', live', out[|Seen(m, es[0])|..]);
    }
  }

  /** In every reachable state, translation takes a live U-proc to the frame that the swap table and its own
      page table give to the page, and never to a frame that holds any other page. */
  lemma TlbNeverStale(m: Memory, asids: set<int>, es: seq<Event>, m': Memory, live': set<int>, out: seq<int>,
                      asid: int, vpn: nat, p: Page)
    requires Initial(m, asids) && Run(m, asids, es, m', live', out)
    requires asid in live' && Translate(m', asid, vpn).Some?
    ensures var f := Translate(m', asid, vpn).value;
      && PageOf(asid, vpn) in m'.ptes && m'.ptes[PageOf(asid, vpn)].lo == Lo(f, true)
      && f < |m'.swap| && Holds(m'.swap[f], asid, vpn)
      && (p in m'.ptes && p.asid in live' && m'.ptes[p].lo == Lo(f, true) ==> p == PageOf(asid, vpn))
  {
    InitialSound(m, asids);
    RunSound(m, asids, es, m', live', out);
    TranslateRight(m', live', asid, vpn);
  }

  /** In every reachable state swap table and page tables are inverse for the live U-procs, and every TLB entry
      of a live U-proc is the current page table entry. */
  lemma TablesAgree(m: Memory, asids: set<int>, es: seq<Event>, m': Memory, live': set<int>, out: seq<int>)
    requires Initial(m, asids) && Run(m, asids, es, m', live', out)
    ensures forall f: nat, p: Page | f < |m'.swap| && p.asid in live' && p.index < PAGES ::
              p in m'.ptes && (m'.swap[f] == Held(p.asid, Vpn(p.index), p) <==> m'.ptes[p].lo == Lo(f, true))
    ensures forall f: nat | f < |m'.swap| && m'.swap[f].Held? ::
              m'.swap[f].asid in live' && m'.swap[f] == Held(m'.swap[f].asid, m'.swap[f].vpn, PageOf(m'.swap[f].asid, m'.swap[f].vpn))
    ensures forall i | 0 <= i < |m'.tlb| && m'.tlb[i].Some? && m'.tlb[i].value.hi.asid in live' ::
              var h := m'.tlb[i].value.hi; PageOf(h.asid, h.vpn) in m'.ptes && m'.tlb[i].value == m'.ptes[PageOf(h.asid, h.vpn)]
  {
    InitialSound(m, asids);
    RunSound(m, asids, es, m', live', out);
    forall f: nat, p: Page | f < |m'.swap| && p.asid in live' && p.index < PAGES
      ensures p in m'.ptes && (m'.swap[f] == Held(p.asid, Vpn(p.index), p) <==> m'.ptes[p].lo == Lo(f, true))
    {
      VpnThenIndex(p.index);
      Inverse(m', live', f, p.asid, Vpn(p.index));
    }
    forall f: nat | f < |m'.swap| && m'.swap[f].Held?
      ensures m'.swap[f].asid in live' && m'.swap[f].pte == PageOf(m'.swap[f].asid, m'.swap[f].vpn)
    {
      assert RowOk(m', live', f);
    }
    forall i | 0 <= i < |m'.tlb| && m'.tlb[i].Some? ensures SlotOk(m', live', m'.tlb[i].value) { }
  }

  // ---------------------------------------------------------------------------------------------
  // Flat memory

  /** What the pages of the U-procs hold, without any paging. */
  type Flat = map<Page, Block>

  function FlatAfter(f: Flat, e: Event): Flat {
    if e.Write? && PageOf(e.asid, e.vpn) in f && e.off < |f[PageOf(e.asid, e.vpn)]|
    then f[PageOf(e.asid, e.vpn) := f[PageOf(e.asid, e.vpn)][e.off := e.w]]
    else f
  }

  function FlatSeen(f: Flat, e: Event): seq<int> {
    if e.Read? && PageOf(e.asid, e.vpn) in f && e.off < |f[PageOf(e.asid, e.vpn)]|
    then [f[PageOf(e.asid, e.vpn)][e.off]]
    else []
  }

  function FlatOut(f: Flat, es: seq<Event>): seq<int> {
    if es == [] then [] else FlatSeen(f, es[0]) + FlatOut(FlatAfter(f, es[0]), es[1..])
  }

  function FlatEnd(f: Flat, es: seq<Event>): Flat {
    if es == [] then f else FlatEnd(FlatAfter(f, es[0]), es[1..])
  }

  /** The live U-procs' pages hold what flat memory holds. */
  ghost predicate Agrees(m: Memory, live: set<int>, f: Flat) {
    forall p: Page | p.asid in live && p.index < PAGES :: AgreesAt(m, f, p)
  }

  ghost predicate AgreesAt(m: Memory, f: Flat, p: Page) {
    && p in f && p in m.ptes && p in m.flash && (m.ptes[p].lo.valid ==> m.ptes[p].lo.frame < |m.frames|)
    && Content(m, p) == f[p]
  }

  lemma ReadAgrees(m: Memory, live: set<int>, f: Flat, a: int, v: nat, off: nat)
    requires Sound(m, live) && Agrees(m, live, f) && a in live && Accessible(m, a, v, off)
    ensures Seen(m, Read(a, v, off)) == FlatSeen(f, Read(a, v, off))
  {
  }

  lemma WriteAgrees(m: Memory, live: set<int>, f: Flat, a: int, v: nat, off: nat, w: int)
    requires Sound(m, live) && Agrees(m, live, f) && a in live && Accessible(m, a, v, off)
    ensures Agrees(Store(m, a, v, off, w), live, FlatAfter(f, Write(a, v, off, w)))
  {
  }

  lemma FaultAgrees(m: Memory, live: set<int>, f: Flat, a: int, v: nat)
    requires Sound(m, live) && Agrees(m, live, f) && a in live && Legal(v) && PageOf(a, v) in m.ptes
    ensures Agrees(Handle(m, a, v), live, f)
  {
    forall p: Page | p.asid in live && p.index < PAGES
      ensures AgreesAt(Handle(m, a, v), f, p)
    {
      assert AgreesAt(m, f, p);
      FaultIsTransparent(m, live, a, v, p);
    }
  }

  lemma ErrorAgrees(m: Memory, live: set<int>, f: Flat, a: int, v: nat, w: Status, r: Status)
    requires Sound(m, live) && Agrees(m, live, f) && a in live && Legal(v) && PageOf(a, v) in m.ptes
    requires !Fault(m, a, v, w, r).1 && !TakesFromOther(m, a)
    ensures Agrees(Fault(m, a, v, w, r).0, live - {a}, f)
  {
    hide Fault;
    if m.swap[Victim(m)].Held? { assert RowOk(m, live, Victim(m)); }
    forall p: Page | p.asid in live - {a} && p.index < PAGES
      ensures AgreesAt(Fault(m, a, v, w, r).0, f, p)
    {
      assert AgreesAt(m, f, p);
      FailureContent(m, live, a, v, w, r, p);
    }
  }

  lemma StepAgrees(m: Memory, live: set<int>, f: Flat, e: Event)
    requires Sound(m, live) && Agrees(m, live, f) && Possible(m, live, e) && Apart(m, e)
    ensures Seen(m, e) == FlatSeen(f, e)
    ensures Agrees(After(m, live, e), Living(live, e), FlatAfter(f, e))
  {
    match e
    case Read(a, v, off) => ReadAgrees(m, live, f, a, v, off);
    case Write(a, v, off, w) => WriteAgrees(m, live, f, a, v, off, w);
    case TlbMiss(a, v, slot) =>
    case PageFault(a, v) => FaultAgrees(m, live, f, a, v);
    case Exit(a) =>
    case FlashError(a, v, w, r) => ErrorAgrees(m, live, f, a, v, w, r);
  }

  lemma StepBoth(m: Memory, live: set<int>, f: Flat, e: Event) returns (m1: Memory, live1: set<int>)
    requires Sound(m, live) && Agrees(m, live, f) && Possible(m, live, e) && Apart(m, e)
    ensures m1 == After(m, live, e) && live1 == Living(live, e)
    ensures Sound(m1, live1) && Agrees(m1, live1, FlatAfter(f, e)) && Seen(m, e) == FlatSeen(f, e)
  {
    m1, live1 := After(m, live, e), Living(live, e);
    StepSound(m, live, e);
    StepAgrees(m, live, f, e);
  }

  lemma {:induction false} RunAgrees(m: Memory, live: set<int>, f: Flat, es: seq<Event>,
                                     m': Memory, live': set<int>, out: seq<int>)
    requires Sound(m, live) && Agrees(m, live, f) && Run(m, live, es, m', live', out)
    ensures out == FlatOut(f, es) && Agrees(m', live', FlatEnd(f, es))
    decreases |es|
  {
    hide Sound, Agrees, After, Living, Possible, FlatSeen, FlatAfter, Seen;
    if es != [] {
      var e, rest := es[0], out[|Seen(m, es[0])|..];
      var m1, live1 := StepBoth(m, live, f, e);
      RunAgrees(m1, live1, FlatAfter(f, e), es[1..], m', live', rest);
    }
  }

  /** Paged memory refines flat memory: in every run from the start, every read yields what it would on memory
      that initially holds the flash contents, and the live pages end with what flat memory ends with. */
  lemma PagingIsTransparent(m: Memory, asids: set<int>, es: seq<Event>, m': Memory, live': set<int>, out: seq<int>)
    requires Initial(m, asids) && Run(m, asids, es, m', live', out)
    ensures out == FlatOut(m.flash, es) && Agrees(m', live', FlatEnd(m.flash, es))
  {
    InitialSound(m, asids);
    RunAgrees(m, asids, m.flash, es, m', live', out);
  }

  // ---------------------------------------------------------------------------------------------
  // The scan for a free frame, and the flash traffic

  /** The cyclic scan finds a free frame whenever there is one. */
  lemma {:induction false} ScanFinds(swap: seq<Swap>, start: nat, i: nat, j: nat)
    requires 2 <= |swap| && start < |swap| && i <= j < |swap| && swap[Nth(|swap|, start, j)] == Free
    ensures swap[FreeFrame(swap, start, i)] == Free
    decreases |swap| - i
  {
    if swap[Nth(|swap|, start, i)] != Free { ScanFinds(swap, start, i + 1, j); }
  }

  lemma {:induction false} ScanFindsNone(swap: seq<Swap>, start: nat, i: nat)
    requires 2 <= |swap| && start < |swap| && i <= |swap| && forall f | 0 <= f < |swap| :: swap[f] != Free
    ensures FreeFrame(swap, start, i) == 1
    decreases |swap| - i
  {
    if i < |swap| { ScanFindsNone(swap, start, i + 1); }
  }

  /** The frame is free exactly if some frame is; otherwise it is frame 1. */
  lemma VictimIsFreeIff(m: Memory)
    requires Shaped(m)
    ensures m.swap[Victim(m)] == Free <==> exists f :: 0 <= f < |m.swap| && m.swap[f] == Free
    ensures m.swap[Victim(m)] != Free ==> Victim(m) == 1
  {
    if f: nat :| f < |m.swap| && m.swap[f] == Free {
      var j := Reached(|m.swap|, m.scan, f);
      ScanFinds(m.swap, m.scan, 0, j);
    } else {
      ScanFindsNone(m.swap, m.scan, 0);
    }
  }

  /** How far frame f is from the start of a cyclic scan of n frames. */
  function Distance(n: nat, start: nat, f: nat): int {
    if f >= start then f - start else f + n - start
  }

  lemma DistanceOfNth(n: nat, start: nat, i: nat)
    requires start < n && i < n
    ensures Distance(n, start, Nth(n, start, i)) == i
  {
    if start + i >= n { OnceAround(n, start + i - n); }
  }

  lemma {:induction false} ScanFirst(swap: seq<Swap>, start: nat, i: nat, f: nat)
    requires 2 <= |swap| && start < |swap| && f < |swap| && swap[f] == Free && i <= Distance(|swap|, start, f)
    ensures Distance(|swap|, start, FreeFrame(swap, start, i)) <= Distance(|swap|, start, f)
    ensures swap[FreeFrame(swap, start, i)] == Free
    decreases |swap| - i
  {
    DistanceOfNth(|swap|, start, i);
    if swap[Nth(|swap|, start, i)] != Free { ScanFirst(swap, start, i + 1, f); }
  }

  /** Of all free frames it is the nearest, counted cyclically from where the last scan ended, and the next scan starts
      there. */
  lemma VictimIsNearest(m: Memory, f: nat)
    requires Shaped(m) && f < |m.swap| && m.swap[f] == Free
    ensures var v := Victim(m);
      && m.swap[v] == Free && Scanned(m) == v
      && (if f >= m.scan then m.scan <= v <= f else v >= m.scan || v <= f)
  {
    ScanFirst(m.swap, m.scan, 0, f);
  }

  /** The pages that the first n frames hold. */
  function Resident(m: Memory, n: nat): set<Page>
    requires n <= |m.swap|
  {
    set f | 0 <= f < n && m.swap[f].Held? :: m.swap[f].pte
  }

  /** No U-proc ends. */
  predicate Stays(e: Event) {
    !e.Exit? && !e.FlashError?
  }

  /** The pages that faults are about. */
  function Touched(es: seq<Event>): set<Page> {
    if es == [] then {}
    else (if es[0].PageFault? then {PageOf(es[0].asid, es[0].vpn)} else {}) + Touched(es[1..])
  }

  /** So far nothing was written, and exactly the resident pages were read, once each. */
  ghost predicate OnlyReads(m: Memory) {
    && (forall i | 0 <= i < |m.log| :: m.log[i].FlashRead?)
    && NoDup(m.log)
    && (forall p: Page :: FlashRead(p) in m.log <==> p in Resident(m, |m.swap|))
  }

  /** Different frames hold different pages. */
  lemma {:induction false} FullHouse(m: Memory, live: set<int>, n: nat)
    requires Sound(m, live) && n <= |m.swap| && forall f | 0 <= f < n :: m.swap[f] != Free
    ensures |Resident(m, n)| == n
  {
    if n == 0 {
      assert Resident(m, 0) == {};
    } else {
      FullHouse(m, live, n - 1);
      NewPage(m, live, n - 1);
    }
  }

  /** The page of frame f is not in an earlier one. */
  lemma NewPage(m: Memory, live: set<int>, f: nat)
    requires Sound(m, live) && f < |m.swap| && forall g | 0 <= g <= f :: m.swap[g] != Free
    ensures m.swap[f].pte !in Resident(m, f) && Resident(m, f + 1) == Resident(m, f) + {m.swap[f].pte}
  {
  }

  /** With room for one more page there is a free frame, and the scan finds it. */
  lemma RoomForOneMore(m: Memory, live: set<int>, p: Page, t: set<Page>)
    requires Sound(m, live) && p !in Resident(m, |m.swap|) && p in t && |Resident(m, |m.swap|) + t| <= |m.swap|
    ensures m.swap[Victim(m)] == Free
  {
    VictimIsFreeIff(m);
    if m.swap[Victim(m)] != Free {
      FullHouse(m, live, |m.swap|);
      Exceeds(Resident(m, |m.swap|), t, p);
    }
  }

  lemma Exceeds(a: set<Page>, t: set<Page>, p: Page)
    requires p !in a && p in t
    ensures |a + t| > |a|
  {
    assert a + t == a + {p} + (t - a - {p});
  }

  /** A page of a live U-proc is resident exactly if its entry is valid. */
  lemma ResidentIff(m: Memory, live: set<int>, asid: int, vpn: nat)
    requires Sound(m, live) && asid in live && Legal(vpn)
    ensures PageOf(asid, vpn) in m.ptes
    ensures PageOf(asid, vpn) in Resident(m, |m.swap|) <==> m.ptes[PageOf(asid, vpn)].lo.valid
  {
  }

  lemma FreeFrameFilled(m: Memory, m': Memory, f: nat, asid: int, vpn: nat)
    requires OnlyReads(m) && f < |m.swap| && m.swap[f] == Free && PageOf(asid, vpn) !in Resident(m, |m.swap|)
    requires m'.log == m.log + [FlashRead(PageOf(asid, vpn))]
    requires m'.swap == m.swap[f := Held(asid, vpn, PageOf(asid, vpn))]
    ensures OnlyReads(m') && Resident(m', |m'.swap|) == Resident(m, |m.swap|) + {PageOf(asid, vpn)}
  {
    var p := PageOf(asid, vpn);
    assert m'.swap[f].pte == p;
    assert forall g | 0 <= g < |m.swap| && m.swap[g].Held? :: m'.swap[g] == m.swap[g];
    assert Resident(m', |m'.swap|) == Resident(m, |m.swap|) + {p};
  }

  lemma FaultOnlyReads(m: Memory, live: set<int>, asid: int, vpn: nat, t: set<Page>)
    requires Sound(m, live) && asid in live && Legal(vpn) && OnlyReads(m)
    requires PageOf(asid, vpn) in t && |Resident(m, |m.swap|) + t| <= |m.swap|
    ensures PageOf(asid, vpn) in m.ptes
    ensures var m' := Handle(m, asid, vpn);
      OnlyReads(m') && |m'.swap| == |m.swap| && Resident(m', |m'.swap|) == Resident(m, |m.swap|) + {PageOf(asid, vpn)}
  {
    var p, r := PageOf(asid, vpn), Resident(m, |m.swap|);
    ResidentIff(m, live, asid, vpn);
    LookupExact(m, live, asid, vpn, 0);
    if m.ptes[p].lo.valid {
      assert r + {p} == r;
    } else {
      RoomForOneMore(m, live, p, t);
      FreeFrameFilled(m, Handle(m, asid, vpn), Victim(m), asid, vpn);
    }
  }

  /** No step but a fault or an exit touches the pool or the flash. */
  lemma QuietStep(m: Memory, live: set<int>, e: Event)
    requires OnlyReads(m) && Possible(m, live, e) && Stays(e) && !e.PageFault?
    ensures var m' := After(m, live, e);
      OnlyReads(m') && m'.swap == m.swap && Resident(m', |m'.swap|) == Resident(m, |m.swap|)
  {
  }

  lemma {:induction false} StaysWithinPool(m: Memory, live: set<int>, es: seq<Event>,
                                           m': Memory, live': set<int>, out: seq<int>)
    requires Sound(m, live) && OnlyReads(m) && Run(m, live, es, m', live', out)
    requires (forall i | 0 <= i < |es| :: Stays(es[i])) && |Resident(m, |m.swap|) + Touched(es)| <= |m.swap|
    ensures OnlyReads(m')
    decreases |es|
  {
    hide Sound, OnlyReads, Resident, Seen;
    if es != [] {
      var e, r := es[0], Resident(m, |m.swap|);
      StepSound(m, live, e);
      if e.PageFault? {
        FaultOnlyReads(m, live, e.asid, e.vpn, Touched(es));
        assert r + {PageOf(e.asid, e.vpn)} + Touched(es[1..]) == r + Touched(es);
      } else {
        QuietStep(m, live, e);
        assert r + Touched(es[1..]) == r + Touched(es);
      }
      StaysWithinPool(After(m, live, e), Living(live, e), es[1..], m', live', out[|Seen(m, e)|..]);
    }
  }

  /** No write-back while a frame is free: if nobody exits and the faults are about no more pages than the pool
      has frames, nothing is ever written to flash, and no page is read from it twice. */
  lemma NoWriteBack(m: Memory, asids: set<int>, es: seq<Event>, m': Memory, live': set<int>, out: seq<int>)
    requires Initial(m, asids) && Run(m, asids, es, m', live', out)
    requires (forall i | 0 <= i < |es| :: Stays(es[i])) && |Touched(es)| <= |m.swap|
    ensures forall i | 0 <= i < |m'.log| :: m'.log[i].FlashRead?
    ensures forall i, j | 0 <= i < j < |m'.log| :: m'.log[i] != m'.log[j]
  {
    InitialSound(m, asids);
    assert Resident(m, |m.swap|) == {};
    assert Resident(m, |m.swap|) + Touched(es) == Touched(es);
    StaysWithinPool(m, asids, es, m', live', out);
  }
}
