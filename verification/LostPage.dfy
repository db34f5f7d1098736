/** What a flash error of one U-proc does to another: _flashIO ends in terminateUProc (phase3/vmSupport.c:63-65) while
    the swap table still has the victim's row, whose page is invalid by then and need not be on flash. */
module LostPage {
  import opened Basics
  import opened PageIndex
  import opened SwapMemory
  import opened Paging
  import opened PagingRuns
  import opened StaleTlb

  /** The pool is full, and b's next fault cannot write a's page back. */
  lemma WriteFailsFull(m: Memory, asids: set<int>, a: int, b: int, flash: map<Page, Block>, left: Block)
      returns (e: Event, m': Memory)
    requires Filled(m, asids, a, b, flash, |m.swap|)
    ensures Possible(m, asids, e) && e.FlashError? && Living(asids, e) == asids - {b} && m' == After(m, asids, e)
    ensures TakesFromOther(m, b) && Shaped(m') && |m'.tlb| == |m.tlb| && (forall i | 0 <= i < |m'.tlb| :: m'.tlb[i] == None)
    ensures m'.swap[0] == Free && m'.swap[1] == Row(a, b, 1) && forall f | 2 <= f < |m'.swap| :: m'.swap[f] == Free
    ensures var p := PageOf(a, TEXT_VPN);
      p in m'.ptes && m'.ptes[p] == Pte(HiOf(p), Lo(1, false)) && p in m'.flash && m'.flash[p] == left
  {
    var n := |m.swap|;
    var (x, v) := Visited(a, b, n);
    VisitedLegal(a, b, n);
    VisitedLegal(a, b, 1);
    NotIn(m, asids, a, b, flash, n);
    LookupExact(m, asids, x, v, 0);
    ScanFindsNone(m.swap, m.scan, 0);
    Inverse(m, asids, 1, a, TEXT_VPN);
    assert m.swap[1] == Row(a, b, 1);
    NoSlots(m.tlb, Pte(HiOf(PageOf(a, TEXT_VPN)), Lo(1, false)));
    e := FlashError(x, v, Failed(left), Ready);
    m' := After(m, asids, e);
  }

  /** A row whose page is not valid does not end the search. */
  lemma {:induction false} PassedOver(m: Memory, asid: int, vpn: nat, i: nat)
    requires Shaped(m) && i <= |m.swap| && forall j | 0 <= j < |m.tlb| :: m.tlb[j] == None
    requires forall f | 0 <= f < |m.swap| && Holds(m.swap[f], asid, vpn) :: !m.ptes[m.swap[f].pte].lo.valid
    ensures Lookup(m, asid, vpn, i) == (m, false)
    decreases |m.swap| - i
  {
    if i < |m.swap| {
      if Holds(m.swap[i], asid, vpn) { NoSlots(m.tlb, m.ptes[m.swap[i].pte]); }
      PassedOver(m, asid, vpn, i + 1);
    }
  }

  /** a's page is then loaded from flash into another frame. */
  lemma LoadedAgain(m: Memory, a: int, b: int, left: Block) returns (m': Memory, g: nat)
    requires Shaped(m) && (forall i | 0 <= i < |m.tlb| :: m.tlb[i] == None)
    requires m.swap[0] == Free && m.swap[1] == Row(a, b, 1) && forall f | 2 <= f < |m.swap| :: m.swap[f] == Free
    requires var p := PageOf(a, TEXT_VPN);
      p in m.ptes && m.ptes[p] == Pte(HiOf(p), Lo(1, false)) && p in m.flash && m.flash[p] == left
    ensures m' == Handle(m, a, TEXT_VPN) && |m'.tlb| == |m.tlb| && (forall i | 0 <= i < |m'.tlb| :: m'.tlb[i] == None)
    ensures var p := PageOf(a, TEXT_VPN);
      && p in m'.ptes && m'.ptes[p] == Pte(HiOf(p), Lo(g, true)) && g < |m'.frames| && m'.frames[g] == left
    ensures g != 1 && g < |m'.swap| && |m'.swap| >= 2 && m'.swap[1] == m'.swap[g] == Row(a, b, 1)
  {
    PassedOver(m, a, TEXT_VPN, 0);
    VictimIsFreeIff(m);
    g := Victim(m);
    NoSlots(m.tlb, Pte(HiOf(PageOf(a, TEXT_VPN)), Lo(g, true)));
    m' := Handle(m, a, TEXT_VPN);
  }

  /** What a's page holds on flash at one offset, and what the failing write leaves there. */
  ghost predicate Lost(flash: map<Page, Block>, a: int, left: Block, off: nat, w: int, v: int) {
    var p := PageOf(a, TEXT_VPN);
    p in flash && off < |flash[p]| && flash[p][off] == w && off < |left| && left[off] == v
  }

  /** These events end in m'; a, which did nothing wrong, reads v where flat memory has w, and its page has two rows. */
  ghost predicate ReadsLost(m: Memory, asids: set<int>, a: int, b: int, flash: map<Page, Block>, es: seq<Event>, m': Memory,
                            w: int, v: int) {
    && RawRun(m, asids, es, m', asids - {b}, [v]) && FlatOut(flash, es) == [w]
    && exists f, g :: 0 <= f < g < |m'.swap| && m'.swap[f] == m'.swap[g] == Held(a, TEXT_VPN, PageOf(a, TEXT_VPN))
  }

  /** a's page is in frame g, with v at this offset, and a reads it. */
  lemma Reads(m: Memory, live: set<int>, a: int, g: nat, flash: map<Page, Block>, off: nat, w: int, v: int)
      returns (es: seq<Event>, m': Memory)
    requires a in live && |m.tlb| >= 1 && (forall i | 0 <= i < |m.tlb| :: m.tlb[i] == None)
    requires var p := PageOf(a, TEXT_VPN);
      && p in m.ptes && m.ptes[p] == Pte(Hi(a, TEXT_VPN), Lo(g, true))
      && g < |m.frames| && off < |m.frames[g]| && m.frames[g][off] == v
      && p in flash && off < |flash[p]| && flash[p][off] == w
    ensures RawRun(m, live, es, m', live, [v]) && FlatOut(flash, es) == [w] && m'.swap == m.swap
  {
    ProbeNothing(m.tlb, Hi(a, TEXT_VPN));
    m' := Refill(m, a, TEXT_VPN, 0);
    ProbeAt(m'.tlb, Hi(a, TEXT_VPN), 0);
    var e := Read(a, TEXT_VPN, off);
    assert Seen(m', e) == [v] && FlatSeen(flash, e) == [w];
    assert [e][1..] == [] && [v][1..] == [] && RawRun(m', live, [], m', live, []);
    assert RawRun(m', live, [e], m', live, [v]) && FlatOut(flash, [e]) == [w];
    Before(m, live, TlbMiss(a, TEXT_VPN, 0), [e], m', live, [v]);
    es := [TlbMiss(a, TEXT_VPN, 0)] + [e];
  }

  lemma LosesPage(m: Memory, asids: set<int>, a: int, b: int, flash: map<Page, Block>, left: Block, off: nat, w: int, v: int)
      returns (es: seq<Event>, m': Memory)
    requires Filled(m, asids, a, b, flash, |m.swap|) && |m.tlb| >= 1 && Lost(flash, a, left, off, w, v)
    ensures ReadsLost(m, asids, a, b, flash, es, m', w, v)
  {
    hide Handle, Fault, RawRun, FlatOut, Sound;
    VisitedLegal(a, b, 1);
    var live := asids - {b};
    var e, m1 := WriteFailsFull(m, asids, a, b, flash, left);
    var m2, g := LoadedAgain(m1, a, b, left);
    es, m' := Reads(m2, live, a, g, flash, off, w, v);
    Before(m1, live, PageFault(a, TEXT_VPN), es, m', live, [v]);
    es := [PageFault(a, TEXT_VPN)] + es;
    Before(m, asids, e, es, m', live, [v]);
    es := [e] + es;
    if g == 0 { assert m'.swap[0] == m'.swap[1]; } else { assert m'.swap[1] == m'.swap[g]; }
  }

  lemma {:induction false} FillsThenLoses(m: Memory, asids: set<int>, a: int, b: int, flash: map<Page, Block>, n: nat,
                                          left: Block, off: nat, w: int, v: int) returns (es: seq<Event>, m': Memory)
    requires Filled(m, asids, a, b, flash, n) && |m.tlb| >= 1 && Lost(flash, a, left, off, w, v)
    ensures ReadsLost(m, asids, a, b, flash, es, m', w, v)
    decreases |m.swap| - n
  {
    hide Filled, Handle, RawRun, FlatOut, Lost;
    if n < |m.swap| {
      var m1 := FillOne(m, asids, a, b, flash, n);
      es, m' := FillsThenLoses(m1, asids, a, b, flash, n + 1, left, off, w, v);
      Before(m, asids, Touch(a, b, n), es, m', asids - {b}, [v]);
      es := [Touch(a, b, n)] + es;
    } else {
      FullAt(m, asids, a, b, flash, n);
      es, m' := LosesPage(m, asids, a, b, flash, left, off, w, v);
    }
  }

  /** From the start, with two U-procs and a pool of at most 31 frames: the device fails to write when b's fault evicts
      a's page; b is terminated, and a then reads what the device left. */
  lemma PageLost(m: Memory, asids: set<int>, a: int, b: int, left: Block, off: nat, w: int, v: int)
      returns (es: seq<Event>, m': Memory)
    requires Initial(m, asids) && a in asids && b in asids && a != b && |m.swap| <= PAGES - 1 && |m.tlb| >= 1
    requires Lost(m.flash, a, left, off, w, v)
    ensures RawRun(m, asids, es, m', asids - {b}, [v]) && FlatOut(m.flash, es) == [w]
    ensures exists f, g :: 0 <= f < g < |m'.swap| && m'.swap[f] == m'.swap[g] == Held(a, TEXT_VPN, PageOf(a, TEXT_VPN))
  {
    InitialSound(m, asids);
    es, m' := FillsThenLoses(m, asids, a, b, m.flash, 0, left, off, w, v);
  }
}
