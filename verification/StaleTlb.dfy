/** What a page number can do that _initSupport made no entry for: uTLB_RefillHandler (phase2/exceptions.c:39-55) looks
    up another page's entry for it and writes that entry into the TLB a second time. */
module StaleTlb {
  import opened Basics
  import opened PageIndex
  import opened SwapMemory
  import opened Paging
  import opened PagingRuns

  /** 0x80100, whose index is that of the first text page. */
  const STRAY := TEXT_VPN + 256

  /** The pages that two U-procs touch until the pool is full: the second one is a's, the others are b's. */
  function Visited(a: int, b: int, i: nat): (int, nat) {
    if i == 0 then (b, TEXT_VPN) else if i == 1 then (a, TEXT_VPN) else (b, TEXT_VPN + i - 1)
  }

  function VisitedPage(a: int, b: int, i: nat): Page {
    PageOf(Visited(a, b, i).0, Visited(a, b, i).1)
  }

  lemma VisitedLegal(a: int, b: int, i: nat)
    requires a != b && i <= PAGES - 1
    ensures Legal(Visited(a, b, i).1) && VisitedPage(a, b, i).index < PAGES
    ensures HiOf(VisitedPage(a, b, i)) == Hi(Visited(a, b, i).0, Visited(a, b, i).1)
    ensures forall j: nat | j <= PAGES - 1 && j != i :: VisitedPage(a, b, j) != VisitedPage(a, b, i)
    ensures forall j: nat | j <= PAGES - 1 && j != i :: Visited(a, b, j) != Visited(a, b, i)
  {
    IndexThenVpn(Visited(a, b, i).1);
    forall j: nat | j <= PAGES - 1 && j != i ensures VisitedPage(a, b, j) != VisitedPage(a, b, i) {
      IndexThenVpn(Visited(a, b, j).1);
    }
  }

  /** What the swap table says of the i-th of these pages. */
  function Row(a: int, b: int, i: nat): Swap {
    Held(Visited(a, b, i).0, Visited(a, b, i).1, VisitedPage(a, b, i))
  }

  /** The first n frames hold the first n of these pages, nothing else is in the pool, and the TLB is empty. */
  ghost predicate Filled(m: Memory, asids: set<int>, a: int, b: int, flash: map<Page, Block>, n: nat) {
    && Sound(m, asids) && a in asids && b in asids && a != b && m.flash == flash && n <= |m.swap| <= PAGES - 1
    && (forall i | 0 <= i < |m.tlb| :: m.tlb[i] == None)
    && (forall f: nat | f < |m.swap| :: m.swap[f] == if f < n then Row(a, b, f) else Free)
    && m.scan == if n == 0 then 0 else n - 1
  }

  lemma NoSlots(tlb: seq<Option<Pte>>, e: Pte)
    requires forall i | 0 <= i < |tlb| :: tlb[i] == None || tlb[i].value.hi != e.hi
    ensures UpdateTlb(tlb, e) == tlb
  {
  }

  /** The next page is not valid yet. */
  lemma NotIn(m: Memory, asids: set<int>, a: int, b: int, flash: map<Page, Block>, n: nat)
    requires Filled(m, asids, a, b, flash, n) && n <= PAGES - 1
    ensures Visited(a, b, n).0 in asids && Legal(Visited(a, b, n).1)
    ensures VisitedPage(a, b, n) in m.ptes && !m.ptes[VisitedPage(a, b, n)].lo.valid
  {
    VisitedLegal(a, b, n);
    IndexThenVpn(Visited(a, b, n).1);
  }

  lemma Below(k: nat, n: nat)
    requires k < n
    ensures k % n == k
  {
  }

  /** The scan takes the frame it starts at, or the one after it. */
  lemma ScanTwo(swap: seq<Swap>, start: nat)
    requires 2 <= |swap| && start < |swap|
    ensures swap[start] == Free ==> FreeFrame(swap, start, 0) == start
    ensures swap[start] != Free && start + 1 < |swap| && swap[start + 1] == Free ==> FreeFrame(swap, start, 0) == start + 1
  {
    Below(start, |swap|);
    if start + 1 < |swap| { Below(start + 1, |swap|); }
  }

  lemma NextFrame(m: Memory, asids: set<int>, a: int, b: int, flash: map<Page, Block>, n: nat)
    requires Filled(m, asids, a, b, flash, n) && n < |m.swap|
    ensures Victim(m) == n && Scanned(m) == n
  {
    ScanTwo(m.swap, m.scan);
  }

  /** The fault on the n-th page. */
  function Touch(a: int, b: int, n: nat): Event {
    PageFault(Visited(a, b, n).0, Visited(a, b, n).1)
  }

  /** It puts the page into the next frame. */
  lemma FillOne(m: Memory, asids: set<int>, a: int, b: int, flash: map<Page, Block>, n: nat) returns (m': Memory)
    requires Filled(m, asids, a, b, flash, n) && n < |m.swap|
    ensures Possible(m, asids, Touch(a, b, n)) && m' == After(m, asids, Touch(a, b, n))
    ensures Filled(m', asids, a, b, flash, n + 1) && |m'.swap| == |m.swap| && |m'.tlb| == |m.tlb|
  {
    var (x, v) := Visited(a, b, n);
    NotIn(m, asids, a, b, flash, n);
    LookupExact(m, asids, x, v, 0);
    HandleSound(m, asids, x, v);
    NextFrame(m, asids, a, b, flash, n);
    var p := PageOf(x, v);
    NoSlots(m.tlb, m.ptes[p].(lo := Lo(n, true)));
    m' := Handle(m, x, v);
  }

  // ---------------------------------------------------------------------------------------------
  // The stray refill

  /** The pool is full, and the entry of a's first text page, valid, is in the first two TLB slots. */
  ghost predicate Doubled(m: Memory, a: int, b: int, flash: map<Page, Block>) {
    var p, n := PageOf(a, TEXT_VPN), |m.swap|;
    && Shaped(m) && a != b && n <= PAGES - 1 && m.flash == flash && m.scan == n - 1
    && (forall f: nat | f < n :: m.swap[f] == Row(a, b, f))
    && p in m.ptes && PageOf(b, TEXT_VPN) in m.ptes && VisitedPage(a, b, n) in m.ptes
    && m.ptes[p] == Pte(HiOf(p), Lo(1, true)) && m.ptes[VisitedPage(a, b, n)].hi == HiOf(VisitedPage(a, b, n))
    && m.ptes[PageOf(b, TEXT_VPN)].hi == HiOf(PageOf(b, TEXT_VPN))
    && |m.tlb| >= 2 && m.tlb[0] == m.tlb[1] == Some(m.ptes[p])
    && (forall i | 2 <= i < |m.tlb| :: m.tlb[i] == None)
  }

  lemma ProbeNothing(tlb: seq<Option<Pte>>, hi: Hi)
    requires forall i | 0 <= i < |tlb| :: tlb[i] == None || tlb[i].value.hi != hi
    ensures Probe(tlb, hi) == |tlb|
  {
  }

  lemma ProbeAt(tlb: seq<Option<Pte>>, hi: Hi, i: nat)
    requires i < |tlb| && tlb[i].Some? && tlb[i].value.hi == hi
    requires forall j | 0 <= j < i :: tlb[j] == None || tlb[j].value.hi != hi
    ensures Probe(tlb, hi) == i
  {
  }

  /** a fetches an instruction from its first text page, and the instruction loads from the stray page. */
  lemma RefillTwice(m: Memory, asids: set<int>, a: int, b: int, flash: map<Page, Block>) returns (m1: Memory, m2: Memory)
    requires Filled(m, asids, a, b, flash, |m.swap|) && |m.tlb| >= 2
    ensures Possible(m, asids, TlbMiss(a, TEXT_VPN, 0)) && m1 == Refill(m, a, TEXT_VPN, 0)
    ensures Possible(m1, asids, TlbMiss(a, STRAY, 1)) && m2 == Refill(m1, a, STRAY, 1) && Doubled(m2, a, b, flash)
    ensures !Single(m1, PageOf(a, STRAY), 1) && |m2.swap| == |m.swap|
  {
    VisitedLegal(a, b, 1);
    VisitedLegal(a, b, 0);
    NotIn(m, asids, a, b, flash, |m.swap|);
    Inverse(m, asids, 1, a, TEXT_VPN);
    assert m.swap[1] == Row(a, b, 1);
    ProbeNothing(m.tlb, Hi(a, TEXT_VPN));
    m1 := Refill(m, a, TEXT_VPN, 0);
    ProbeNothing(m1.tlb, Hi(a, STRAY));
    m2 := Refill(m1, a, STRAY, 1);
  }

  /** Nobody holds the page that the next fault is about. */
  lemma {:induction false} NotHeld(m: Memory, asid: int, vpn: nat, i: nat)
    requires Shaped(m) && i <= |m.swap| && forall f | 0 <= f < |m.swap| :: !Holds(m.swap[f], asid, vpn)
    ensures Lookup(m, asid, vpn, i) == (m, false)
    decreases |m.swap| - i
  {
    if i < |m.swap| { NotHeld(m, asid, vpn, i + 1); }
  }

  /** A fault of b evicts a's page from frame 1, and only the first of its two TLB slots hears of it. */
  lemma Evicts(m: Memory, a: int, b: int, flash: map<Page, Block>) returns (m': Memory)
    requires Doubled(m, a, b, flash)
    ensures var (x, v) := Visited(a, b, |m.swap|); m' == Handle(m, x, v)
    ensures |m'.tlb| == |m.tlb| && |m'.frames| == |m.frames| && |m.swap| >= 2
    ensures m'.tlb == m.tlb[0 := Some(Pte(Hi(a, TEXT_VPN), Lo(1, false)))]
    ensures var q := VisitedPage(a, b, |m.swap|);
      && m'.ptes == m.ptes[PageOf(a, TEXT_VPN) := Pte(Hi(a, TEXT_VPN), Lo(1, false))][q := Pte(HiOf(q), Lo(1, true))]
      && q in flash && m'.frames[1] == flash[q]
  {
    var n := |m.swap|;
    var (x, v) := Visited(a, b, n);
    VisitedLegal(a, b, n);
    VisitedLegal(a, b, 1);
    assert m.swap[1] == Row(a, b, 1);
    NotHeld(m, x, v, 0);
    ScanFindsNone(m.swap, m.scan, 0);
    m' := Handle(m, x, v);
    var e := Pte(Hi(a, TEXT_VPN), Lo(1, false));
    ProbeAt(m.tlb, e.hi, 0);
    NoSlots(m.tlb[0 := Some(e)], Pte(Hi(x, v), Lo(1, true)));
  }

  // ---------------------------------------------------------------------------------------------
  // The run

  /** A refill, a fault or a flash error in front of a run: nothing is read and flat memory stays. */
  lemma Before(m: Memory, live: set<int>, e: Event, es: seq<Event>, m': Memory, live': set<int>, out: seq<int>)
    requires Possible(m, live, e) && (e.TlbMiss? || e.PageFault? || e.FlashError?)
    requires RawRun(After(m, live, e), Living(live, e), es, m', live', out)
    ensures RawRun(m, live, [e] + es, m', live', out)
    ensures forall f: Flat :: FlatOut(f, [e] + es) == FlatOut(f, es)
  {
    assert ([e] + es)[1..] == es && out[0..] == out;
  }

  /** What a's page and the page that takes its frame hold on flash, at one offset; the pool has n frames. */
  ghost predicate Words(flash: map<Page, Block>, n: nat, a: int, b: int, off: nat, w: int, v: int) {
    var p, q := PageOf(a, TEXT_VPN), VisitedPage(a, b, n);
    p in flash && q in flash && off < |flash[p]| && off < |flash[q]| && flash[p][off] == w && flash[q][off] == v
  }

  /** These events end in m', the read of a's page yields v where flat memory has w, and the page's entry is not even
      valid. */
  ghost predicate ReadsStale(m: Memory, asids: set<int>, a: int, flash: map<Page, Block>, es: seq<Event>, m': Memory,
                             w: int, v: int) {
    && RawRun(m, asids, es, m', asids, [v]) && FlatOut(flash, es) == [w]
    && Translate(m', a, TEXT_VPN) == Some(1)
    && PageOf(a, TEXT_VPN) in m'.ptes && !m'.ptes[PageOf(a, TEXT_VPN)].lo.valid
  }

  /** The slot whose entry is invalid goes to a page of b, and when a fetches its instruction again the other is found.
      */
  lemma Refetch(m: Memory, asids: set<int>, a: int, b: int, flash: map<Page, Block>, off: nat, w: int, v: int)
      returns (es: seq<Event>, m': Memory)
    requires Doubled(m, a, b, flash) && a in asids && b in asids && Words(flash, |m.swap|, a, b, off, w, v)
    ensures ReadsStale(m, asids, a, flash, es, m', w, v)
  {
    var n := |m.swap|;
    VisitedLegal(a, b, n);
    VisitedLegal(a, b, 1);
    VisitedLegal(a, b, 0);
    var m3 := Evicts(m, a, b, flash);
    assert m3.ptes[PageOf(b, TEXT_VPN)].hi == Hi(b, TEXT_VPN);
    ProbeNothing(m3.tlb, Hi(b, TEXT_VPN));
    m' := Refill(m3, b, TEXT_VPN, 0);
    ProbeAt(m'.tlb, Hi(a, TEXT_VPN), 1);
    var e := Read(a, TEXT_VPN, off);
    assert Seen(m', e) == [v] && FlatSeen(flash, e) == [w];
    assert [e][1..] == [] && [v][1..] == [] && RawRun(m', asids, [], m', asids, []);
    assert RawRun(m', asids, [e], m', asids, [v]) && FlatOut(flash, [e]) == [w];
    Before(m3, asids, TlbMiss(b, TEXT_VPN, 0), [e], m', asids, [v]);
    Before(m, asids, Touch(a, b, n), [TlbMiss(b, TEXT_VPN, 0)] + [e], m', asids, [v]);
    es := [Touch(a, b, n)] + ([TlbMiss(b, TEXT_VPN, 0)] + [e]);
  }

  lemma {:induction false} FillsThenReads(m: Memory, asids: set<int>, a: int, b: int, flash: map<Page, Block>, n: nat,
                                          off: nat, w: int, v: int) returns (es: seq<Event>, m': Memory)
    requires Filled(m, asids, a, b, flash, n) && |m.tlb| >= 2 && Words(flash, |m.swap|, a, b, off, w, v)
    ensures ReadsStale(m, asids, a, flash, es, m', w, v)
    decreases |m.swap| - n
  {
    hide Filled, Doubled, Handle, RawRun, FlatOut, Words;
    if n < |m.swap| {
      var m1 := FillOne(m, asids, a, b, flash, n);
      es, m' := FillsThenReads(m1, asids, a, b, flash, n + 1, off, w, v);
      Before(m, asids, Touch(a, b, n), es, m', asids, [v]);
      es := [Touch(a, b, n)] + es;
    } else {
      FullAt(m, asids, a, b, flash, n);
      var m1, m2 := RefillTwice(m, asids, a, b, flash);
      es, m' := Refetch(m2, asids, a, b, flash, off, w, v);
      Before(m1, asids, TlbMiss(a, STRAY, 1), es, m', asids, [v]);
      Before(m, asids, TlbMiss(a, TEXT_VPN, 0), [TlbMiss(a, STRAY, 1)] + es, m', asids, [v]);
      es := [TlbMiss(a, TEXT_VPN, 0)] + ([TlbMiss(a, STRAY, 1)] + es);
    }
  }

  lemma FullAt(m: Memory, asids: set<int>, a: int, b: int, flash: map<Page, Block>, n: nat)
    requires Filled(m, asids, a, b, flash, n) && n >= |m.swap|
    ensures n == |m.swap| && a in asids && b in asids
  {
  }

  /** From the start, with two U-procs and a pool of at most 31 frames: a load of a from the stray page doubles a TLB
      entry, and a then reads a word of b's where its own text page should be, although that page's entry is invalid. */
  lemma StaleRead(m: Memory, asids: set<int>, a: int, b: int, off: nat, w: int, v: int)
      returns (es: seq<Event>, m': Memory)
    requires Initial(m, asids) && a in asids && b in asids && a != b && |m.swap| <= PAGES - 1 && |m.tlb| >= 2
    requires Words(m.flash, |m.swap|, a, b, off, w, v)
    ensures RawRun(m, asids, es, m', asids, [v]) && FlatOut(m.flash, es) == [w]
    ensures Translate(m', a, TEXT_VPN) == Some(1)
    ensures PageOf(a, TEXT_VPN) in m'.ptes && !m'.ptes[PageOf(a, TEXT_VPN)].lo.valid
  {
    InitialSound(m, asids);
    es, m' := FillsThenReads(m, asids, a, b, m.flash, 0, off, w, v);
  }
}
