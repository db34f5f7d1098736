/** The pager keeps the swap table and the page tables inverse to each other and the TLB coherent, and
    leaves every page's content alone. */
module Paging {
  import opened Basics
  import opened PageIndex
  import opened SwapMemory

  /** What a page holds: its frame when the entry is valid, its flash block otherwise. */
  function Content(m: Memory, p: Page): Block
    requires p in m.ptes && p in m.flash && (m.ptes[p].lo.valid ==> m.ptes[p].lo.frame < |m.frames|)
  {
    if m.ptes[p].lo.valid then m.frames[m.ptes[p].lo.frame] else m.flash[p]
  }

  // ---------------------------------------------------------------------------------------------
  // The invariant

  /** The pages of the U-procs `live` that have not been terminated exist, labelled as _initSupport does. */
  ghost predicate Tables(m: Memory, live: set<int>) {
    && Shaped(m)
    && (forall p | p in m.ptes :: p.index < PAGES && m.ptes[p].hi == HiOf(p))
    && (forall p: Page | p.asid in live && p.index < PAGES :: p in m.ptes)
  }

  /** Frame f's row names a page of a live U-proc, whose entry is valid and names f. */
  ghost predicate RowOk(m: Memory, live: set<int>, f: nat)
    requires f < |m.swap| && m.swap[f].Held?
  {
    var r := m.swap[f];
    r.asid in live && Legal(r.vpn) && r.pte == PageOf(r.asid, r.vpn) && r.pte in m.ptes && m.ptes[r.pte].lo == Lo(f, true)
  }

  ghost predicate RowsOk(m: Memory, live: set<int>, but: int) {
    forall f: nat | f < |m.swap| && f != but && m.swap[f].Held? :: RowOk(m, live, f)
  }

  /** A valid entry of a live U-proc names a frame whose row names the page. */
  ghost predicate EntriesOk(m: Memory, live: set<int>, but: int) {
    forall p | p in m.ptes && p.asid in live && m.ptes[p].lo.valid ::
      var f := m.ptes[p].lo.frame; f != but && f < |m.swap| && m.swap[f] == Held(p.asid, Vpn(p.index), p)
  }

  /** A TLB slot of a live U-proc agrees with the page table. */
  ghost predicate SlotOk(m: Memory, live: set<int>, e: Pte) {
    e.hi.asid in live ==> Legal(e.hi.vpn) && PageOf(e.hi.asid, e.hi.vpn) in m.ptes && e == m.ptes[PageOf(e.hi.asid, e.hi.vpn)]
  }

  ghost predicate Coherent(m: Memory, live: set<int>) {
    (forall i | 0 <= i < |m.tlb| && m.tlb[i].Some? :: SlotOk(m, live, m.tlb[i].value))
    && (forall i, j | 0 <= i < j < |m.tlb| && m.tlb[i].Some? && m.tlb[j].Some? && m.tlb[i].value.hi.asid in live ::
          m.tlb[i].value.hi != m.tlb[j].value.hi)
  }

  /** Swap table and page tables are inverse, except that frame `but` is being replaced. */
  ghost predicate Between(m: Memory, live: set<int>, but: int) {
    Tables(m, live) && RowsOk(m, live, but) && EntriesOk(m, live, but) && Coherent(m, live)
  }

  ghost predicate Sound(m: Memory, live: set<int>) {
    Between(m, live, -1)
  }

  /** For a live U-proc, a row holds a page exactly if that page's entry is valid and names the frame. */
  lemma Inverse(m: Memory, live: set<int>, f: nat, asid: int, vpn: nat)
    requires Sound(m, live) && asid in live && Legal(vpn) && f < |m.swap|
    ensures PageOf(asid, vpn) in m.ptes
    ensures m.swap[f] == Held(asid, vpn, PageOf(asid, vpn)) <==> m.ptes[PageOf(asid, vpn)].lo == Lo(f, true)
    ensures Holds(m.swap[f], asid, vpn) <==> m.swap[f] == Held(asid, vpn, PageOf(asid, vpn))
  {
  }

  /** No two live pages share a frame, and no page has two. */
  lemma OneFrameEach(m: Memory, live: set<int>, p: Page, q: Page)
    requires Sound(m, live) && p in m.ptes && q in m.ptes && p.asid in live && q.asid in live
    requires m.ptes[p].lo.valid && m.ptes[q].lo.valid
    ensures m.ptes[p].lo.frame == m.ptes[q].lo.frame <==> p == q
  {
  }

  // ---------------------------------------------------------------------------------------------
  // The TLB follows the page table

  lemma TableFollowed(m: Memory, m': Memory, live: set<int>, p: Page, e: Pte)
    requires Tables(m, live) && Coherent(m, live) && p in m.ptes && p.asid in live && e.hi == m.ptes[p].hi
    requires m'.ptes == m.ptes[p := e] && m'.tlb == UpdateTlb(m.tlb, e)
    ensures Coherent(m', live)
  {
  }

  // ---------------------------------------------------------------------------------------------
  // The search

  /** The search finds the page exactly if its entry is valid, and changes nothing. */
  lemma {:induction false} LookupExact(m: Memory, live: set<int>, asid: int, vpn: nat, i: nat)
    requires Sound(m, live) && asid in live && Legal(vpn) && i <= |m.swap|
    requires forall f | 0 <= f < i :: !Holds(m.swap[f], asid, vpn)
    ensures Lookup(m, asid, vpn, i) == (m, PageOf(asid, vpn) in m.ptes && m.ptes[PageOf(asid, vpn)].lo.valid)
    decreases |m.swap| - i
  {
    IndexThenVpn(vpn);
    var p := PageOf(asid, vpn);
    assert p in m.ptes;
    if i == |m.swap| {
      if m.ptes[p].lo.valid { Inverse(m, live, m.ptes[p].lo.frame, asid, vpn); }
    } else {
      Inverse(m, live, i, asid, vpn);
      if Holds(m.swap[i], asid, vpn) { SameEntry(m, live, p); } else { LookupExact(m, live, asid, vpn, i + 1); }
    }
  }

  /** Writing a coherent entry again changes nothing. */
  lemma SameEntry(m: Memory, live: set<int>, p: Page)
    requires Tables(m, live) && Coherent(m, live) && p in m.ptes && p.asid in live
    ensures UpdateTlb(m.tlb, m.ptes[p]) == m.tlb
  {
  }

  // ---------------------------------------------------------------------------------------------
  // Replacement

  lemma EvictTables(m: Memory, live: set<int>, f: nat)
    requires Tables(m, live) && f < |m.swap| && (m.swap[f].Held? ==> m.swap[f].pte in m.ptes)
    ensures Tables(Evict(m, f), live)
  {
  }

  lemma EvictRows(m: Memory, live: set<int>, f: nat)
    requires Sound(m, live) && f < |m.swap| && m.swap[f].Held?
    ensures m.swap[f].pte in m.ptes && RowOk(m, live, f)
    ensures RowsOk(Evict(m, f), live, f) && EntriesOk(Evict(m, f), live, f)
  {
  }

  lemma EvictSound(m: Memory, live: set<int>, f: nat)
    requires Sound(m, live) && f < |m.swap|
    ensures m.swap[f].Held? ==> m.swap[f].pte in m.ptes
    ensures Between(Evict(m, f), live, f)
  {
    if m.swap[f].Held? {
      EvictRows(m, live, f);
      EvictTables(m, live, f);
      var r := m.swap[f].pte;
      TableFollowed(m, Evict(m, f), live, r, m.ptes[r].(lo := m.ptes[r].lo.(valid := false)));
    }
  }

  lemma FillSound(m: Memory, live: set<int>, f: nat, asid: int, vpn: nat)
    requires Between(m, live, f) && f < |m.swap| && asid in live && Legal(vpn)
    requires PageOf(asid, vpn) in m.ptes && PageOf(asid, vpn) in m.flash && !m.ptes[PageOf(asid, vpn)].lo.valid
    ensures Sound(Fill(m, f, asid, vpn), live)
  {
    var m', p := Fill(m, f, asid, vpn), PageOf(asid, vpn);
    IndexThenVpn(vpn);
    TableFollowed(m, m', live, p, m.ptes[p].(lo := Lo(f, true)));
    FillRows(m, live, f, asid, vpn);
    FillTables(m, live, f, asid, vpn);
  }

  lemma FillTables(m: Memory, live: set<int>, f: nat, asid: int, vpn: nat)
    requires Tables(m, live) && f < |m.swap| && PageOf(asid, vpn) in m.ptes && PageOf(asid, vpn) in m.flash
    ensures Tables(Fill(m, f, asid, vpn), live)
  {
  }

  lemma FillRows(m: Memory, live: set<int>, f: nat, asid: int, vpn: nat)
    requires RowsOk(m, live, f) && EntriesOk(m, live, f) && f < |m.swap| == |m.frames| && asid in live && Legal(vpn)
    requires PageOf(asid, vpn) in m.ptes && PageOf(asid, vpn) in m.flash && !m.ptes[PageOf(asid, vpn)].lo.valid
    ensures RowsOk(Fill(m, f, asid, vpn), live, -1) && EntriesOk(Fill(m, f, asid, vpn), live, -1)
  {
  }

  /** A fault: everything stays sound, and the missing page is now valid. */
  lemma HandleSound(m: Memory, live: set<int>, asid: int, vpn: nat)
    requires Sound(m, live) && asid in live && Legal(vpn)
    ensures PageOf(asid, vpn) in m.ptes
    ensures Sound(Handle(m, asid, vpn), live) && Handle(m, asid, vpn).ptes[PageOf(asid, vpn)].lo.valid
  {
    IndexThenVpn(vpn);
    LookupExact(m, live, asid, vpn, 0);
    if !m.ptes[PageOf(asid, vpn)].lo.valid {
      var m1, f := m.(scan := Scanned(m)), Victim(m);
      ScanSound(m, m1, live);
      EvictSound(m1, live, f);
      StillInvalid(m1, live, f, PageOf(asid, vpn));
      FillSound(Evict(m1, f), live, f, asid, vpn);
    }
  }

  lemma ScanSound(m: Memory, m': Memory, live: set<int>)
    requires Sound(m, live) && m' == m.(scan := m'.scan) && m'.scan < |m.swap|
    ensures Sound(m', live)
  {
  }

  lemma StillInvalid(m: Memory, live: set<int>, f: nat, p: Page)
    requires Sound(m, live) && f < |m.swap| && (m.swap[f].Held? ==> m.swap[f].pte in m.ptes)
    requires p in m.ptes && !m.ptes[p].lo.valid
    ensures p in Evict(m, f).ptes && !Evict(m, f).ptes[p].lo.valid && Evict(m, f).flash.Keys == Evict(m, f).ptes.Keys
  {
  }

  // ---------------------------------------------------------------------------------------------
  // Content

  lemma EvictContent(m: Memory, live: set<int>, f: nat, p: Page)
    requires Sound(m, live) && f < |m.swap| && p in m.ptes && p.asid in live
    ensures m.swap[f].Held? ==> m.swap[f].pte in m.ptes
    ensures var m' := Evict(m, f);
      && p in m'.ptes && p in m'.flash
      && (m'.ptes[p].lo.valid ==> m'.ptes[p].lo.frame < |m'.frames| && m'.ptes[p].lo.frame != f)
      && (m.ptes[p].lo.valid ==> m.ptes[p].lo.frame < |m.frames|)
      && Content(m', p) == Content(m, p)
  {
  }

  lemma FillContent(m: Memory, f: nat, asid: int, vpn: nat, p: Page)
    requires f < |m.swap| == |m.frames| && PageOf(asid, vpn) in m.ptes && PageOf(asid, vpn) in m.flash
    requires !m.ptes[PageOf(asid, vpn)].lo.valid
    requires p in m.ptes && p in m.flash
    requires (m.ptes[p].lo.valid ==> m.ptes[p].lo.frame < |m.frames| && m.ptes[p].lo.frame != f)
    ensures var m' := Fill(m, f, asid, vpn);
      && p in m'.ptes && p in m'.flash
      && (m'.ptes[p].lo.valid ==> m'.ptes[p].lo.frame < |m'.frames|)
      && Content(m', p) == Content(m, p)
  {
  }

  /** Content is defined for the pages of live U-procs. */
  lemma HasContent(m: Memory, live: set<int>, p: Page)
    requires Sound(m, live) && p.asid in live && p.index < PAGES
    ensures p in m.ptes && p in m.flash && (m.ptes[p].lo.valid ==> m.ptes[p].lo.frame < |m.frames|)
  {
  }

  /** Paging is transparent: a fault changes no page's content, whether it evicts or not. */
  lemma FaultIsTransparent(m: Memory, live: set<int>, asid: int, vpn: nat, p: Page)
    requires Sound(m, live) && asid in live && Legal(vpn) && p.asid in live && p.index < PAGES
    ensures PageOf(asid, vpn) in m.ptes
    ensures var m' := Handle(m, asid, vpn);
      && p in m.ptes && p in m.flash && (m.ptes[p].lo.valid ==> m.ptes[p].lo.frame < |m.frames|)
      && p in m'.ptes && p in m'.flash && (m'.ptes[p].lo.valid ==> m'.ptes[p].lo.frame < |m'.frames|)
      && Content(m', p) == Content(m, p)
  {
    IndexThenVpn(vpn);
    HasContent(m, live, p);
    LookupExact(m, live, asid, vpn, 0);
    if !m.ptes[PageOf(asid, vpn)].lo.valid {
      var m1, f := m.(scan := Scanned(m)), Victim(m);
      ScanSound(m, m1, live);
      EvictContent(m1, live, f, p);
      StillInvalid(m1, live, f, PageOf(asid, vpn));
      FillContent(Evict(m1, f), f, asid, vpn, p);
    }
  }

  // ---------------------------------------------------------------------------------------------
  // Faults that end in a flash error

  /** The frame that a fault would take holds a page of another U-proc. */
  ghost predicate TakesFromOther(m: Memory, asid: int)
    requires Shaped(m)
  {
    var row := m.swap[Victim(m)]; row.Held? && row.asid != asid
  }

  /** What the failing section does to the tables: the victim's entry is invalid, and the U-proc's rows are free. */
  lemma FailureTables(m: Memory, live: set<int>, asid: int, vpn: nat, w: Status, r: Status)
    requires Sound(m, live) && asid in live && Legal(vpn)
    ensures PageOf(asid, vpn) in m.ptes
    ensures !Fault(m, asid, vpn, w, r).1 ==>
      var m', f := Fault(m, asid, vpn, w, r).0, Victim(m);
      && m'.scan == Scanned(m) && |m'.frames| == |m.frames| && m'.flash.Keys == m.flash.Keys
      && m'.swap == Sweep(m, asid).swap
      && (m.swap[f] == Free ==> m'.ptes == m.ptes && m'.tlb == m.tlb)
      && (m.swap[f].Held? ==> m.swap[f].pte in m.ptes)
      && (m.swap[f].Held? ==> m'.ptes == Invalidate(m, f).ptes && m'.tlb == Invalidate(m, f).tlb)
  {
    IndexThenVpn(vpn);
    LookupExact(m, live, asid, vpn, 0);
  }

  lemma InvalidatedCoherent(m: Memory, m': Memory, live: set<int>, f: nat)
    requires Sound(m, live) && f < |m.swap| && m.swap[f].Held? && m.swap[f].pte in m.ptes
    requires m'.ptes == Invalidate(m, f).ptes && m'.tlb == Invalidate(m, f).tlb
    ensures Coherent(m', live)
  {
    var r := m.swap[f].pte;
    assert RowOk(m, live, f);
    TableFollowed(m, m', live, r, m.ptes[r].(lo := m.ptes[r].lo.(valid := false)));
  }

  /** A flash error leaves the tables consistent, for the U-procs that remain, if and only if the frame was free or held
      a page of the U-proc that ends. */
  lemma FailureSoundIff(m: Memory, live: set<int>, asid: int, vpn: nat, w: Status, r: Status)
    requires Sound(m, live) && asid in live && Legal(vpn)
    ensures PageOf(asid, vpn) in m.ptes
    ensures !Fault(m, asid, vpn, w, r).1 ==>
      (Sound(Fault(m, asid, vpn, w, r).0, live - {asid}) <==> !TakesFromOther(m, asid))
  {
    FailureTables(m, live, asid, vpn, w, r);
    var (m', ok) := Fault(m, asid, vpn, w, r);
    hide Fault;
    if !ok {
      var f := Victim(m);
      if m.swap[f].Held? { InvalidatedCoherent(m, m', live, f); }
      if TakesFromOther(m, asid) {
        RowLost(m, m', live, asid, f);
      } else {
        SweptSound(m, m', live, asid, f);
      }
    }
  }

  lemma RowLost(m: Memory, m': Memory, live: set<int>, asid: int, f: nat)
    requires Sound(m, live) && f < |m.swap| && m.swap[f].Held? && m.swap[f].asid != asid && m.swap[f].pte in m.ptes
    requires m'.swap == Sweep(m, asid).swap && m'.ptes == Invalidate(m, f).ptes
    ensures !Sound(m', live - {asid})
  {
    assert m'.swap[f] == m.swap[f] && !m'.ptes[m'.swap[f].pte].lo.valid;
    assert !RowOk(m', live - {asid}, f);
  }

  lemma SweptSound(m: Memory, m': Memory, live: set<int>, asid: int, f: nat)
    requires Sound(m, live) && Coherent(m', live) && asid in live && f < |m.swap|
    requires m'.scan < |m.swap| && |m'.frames| == |m.frames| && m'.flash.Keys == m.flash.Keys
    requires m'.swap == Sweep(m, asid).swap
    requires m.swap[f] == Free || (m.swap[f].asid == asid && m.swap[f].pte in m.ptes)
    requires m'.ptes == if m.swap[f] == Free then m.ptes else Invalidate(m, f).ptes
    ensures Sound(m', live - {asid})
  {
    var rest := live - {asid};
    if m.swap[f].Held? { assert RowOk(m, live, f); }
    forall g: nat | g < |m'.swap| && m'.swap[g].Held? ensures RowOk(m', rest, g) {
      assert m'.swap[g] == m.swap[g] && RowOk(m, live, g);
    }
  }

  /** Its effect on frames and flash: the frame may hold anything, and so may the block of a page that was not written.
      */
  lemma FailureBlocks(m: Memory, live: set<int>, asid: int, vpn: nat, w: Status, r: Status)
    requires Sound(m, live) && asid in live && Legal(vpn)
    ensures PageOf(asid, vpn) in m.ptes
    ensures !Fault(m, asid, vpn, w, r).1 ==>
      var m', f := Fault(m, asid, vpn, w, r).0, Victim(m);
      && (m.swap[f] == Free ==> m'.flash == m.flash)
      && (m.swap[f].Held? ==> m.swap[f].pte == PageOf(m.swap[f].asid, m.swap[f].vpn))
      && (m.swap[f].Held? ==> m'.flash == m.flash[m.swap[f].pte := if w.Failed? then w.left else m.frames[f]])
      && |m'.frames| == |m.frames| && forall g | 0 <= g < |m.frames| && g != f :: m'.frames[g] == m.frames[g]
  {
    IndexThenVpn(vpn);
    LookupExact(m, live, asid, vpn, 0);
    var f := Victim(m);
    assert m.swap[f].Held? ==> RowOk(m, live, f);
  }

  /** Whoever remains keeps all page contents, but for the page whose write-back failed: it has what the device left. */
  lemma FailureContent(m: Memory, live: set<int>, asid: int, vpn: nat, w: Status, r: Status, p: Page)
    requires Sound(m, live) && asid in live && Legal(vpn) && p.asid in live - {asid} && p.index < PAGES
    ensures PageOf(asid, vpn) in m.ptes
    ensures !Fault(m, asid, vpn, w, r).1 ==>
      var m', row := Fault(m, asid, vpn, w, r).0, m.swap[Victim(m)];
      && p in m.ptes && p in m.flash && (m.ptes[p].lo.valid ==> m.ptes[p].lo.frame < |m.frames|)
      && p in m'.ptes && p in m'.flash && (m'.ptes[p].lo.valid ==> m'.ptes[p].lo.frame < |m'.frames|)
      && Content(m', p) == if row.Held? && row.pte == p && w.Failed? then w.left else Content(m, p)
  {
    HasContent(m, live, p);
    FailureTables(m, live, asid, vpn, w, r);
    FailureBlocks(m, live, asid, vpn, w, r);
    hide Fault;
    var f := Victim(m);
    if m.swap[f].Held? {
      assert RowOk(m, live, f);
      if m.ptes[p].lo.valid && m.ptes[p].lo.frame == f { assert m.swap[f].pte == p; }
    } else {
      assert m.ptes[p].lo.valid ==> m.ptes[p].lo.frame != f;
    }
  }

  /** What the flash devices are asked to do: nothing when the entry is valid; otherwise the victim is written, if there
      is one, and the page is read, unless the write failed. */
  ghost function Commands(m: Memory, asid: int, vpn: nat, w: Status): seq<FlashOp>
    requires Shaped(m) && PageOf(asid, vpn) in m.ptes
  {
    var row := m.swap[Victim(m)];
    if m.ptes[PageOf(asid, vpn)].lo.valid then []
    else if row == Free then [FlashRead(PageOf(asid, vpn))]
    else if w.Failed? then [FlashWrite(row.pte)]
    else [FlashWrite(row.pte), FlashRead(PageOf(asid, vpn))]
  }

  /** The search decides between going on and the rest of the section. */
  lemma FaultCases(m: Memory, live: set<int>, asid: int, vpn: nat)
    requires Sound(m, live) && asid in live && Legal(vpn)
    ensures Shaped(m) && PageOf(asid, vpn) in m.ptes
    ensures Lookup(m, asid, vpn, 0) == (m, m.ptes[PageOf(asid, vpn)].lo.valid)
    ensures var row := m.swap[Victim(m)]; row.Held? ==> row.pte in m.ptes && row.pte == PageOf(row.asid, row.vpn)
  {
    IndexThenVpn(vpn);
    LookupExact(m, live, asid, vpn, 0);
    assert m.swap[Victim(m)].Held? ==> RowOk(m, live, Victim(m));
  }

  /** The U-proc goes on, with the page valid, if and only if it was valid before or every command that the fault needs
      succeeds; the outcome is then that of a fault without errors. */
  lemma FaultOutcome(m: Memory, live: set<int>, asid: int, vpn: nat, w: Status, r: Status)
    requires Sound(m, live) && asid in live && Legal(vpn)
    ensures PageOf(asid, vpn) in m.ptes
    ensures var (m', ok) := Fault(m, asid, vpn, w, r);
      && (ok <==> m.ptes[PageOf(asid, vpn)].lo.valid || ((m.swap[Victim(m)] == Free || w.Ready?) && r.Ready?))
      && (ok ==> m' == Handle(m, asid, vpn) && PageOf(asid, vpn) in m'.ptes && m'.ptes[PageOf(asid, vpn)].lo.valid)
  {
    FaultCases(m, live, asid, vpn);
    HandleSound(m, live, asid, vpn);
    hide Sound, Evict, Fill, Sweep, Invalidate, WriteBack, ReadIn, FreeFrame;
  }

  /** It takes the one frame that the scan yields: no other row changes, no other frame's content, and no page's entry
      but the two. */
  lemma FaultTakesVictim(m: Memory, live: set<int>, asid: int, vpn: nat)
    requires Sound(m, live) && asid in live && Legal(vpn)
    ensures PageOf(asid, vpn) in m.ptes
    ensures var m', p, f := Handle(m, asid, vpn), PageOf(asid, vpn), Victim(m);
      !m.ptes[p].lo.valid ==>
        && m'.swap == m.swap[f := Held(asid, vpn, p)]
        && |m'.frames| == |m.frames| && (forall g | 0 <= g < |m.frames| && g != f :: m'.frames[g] == m.frames[g])
        && p in m'.ptes && m'.ptes[p].lo == Lo(f, true) && m'.scan == (if m.swap[f] == Free then f else m.scan)
        && forall q | q in m.ptes && q != p && (m.swap[f] == Free || q != m.swap[f].pte) ::
             q in m'.ptes && m'.ptes[q] == m.ptes[q]
  {
    FaultCases(m, live, asid, vpn);
    hide Sound, FreeFrame, UpdateTlb;
  }

  /** The commands that the flash devices get, in order, whatever they answer. */
  lemma FaultCommands(m: Memory, live: set<int>, asid: int, vpn: nat, w: Status, r: Status)
    requires Sound(m, live) && asid in live && Legal(vpn)
    ensures PageOf(asid, vpn) in m.ptes && Fault(m, asid, vpn, w, r).0.log == m.log + Commands(m, asid, vpn, w)
  {
    FaultCases(m, live, asid, vpn);
    hide Sound, FreeFrame, UpdateTlb;
    assert m.log + [] == m.log;
  }

  /** A U-proc that is terminated has no frame left. */
  lemma NoFrameLeft(m: Memory, live: set<int>, asid: int, vpn: nat, w: Status, r: Status)
    requires Sound(m, live) && asid in live && Legal(vpn)
    ensures PageOf(asid, vpn) in m.ptes
    ensures var (m', ok) := Fault(m, asid, vpn, w, r);
      !ok ==> forall f | 0 <= f < |m'.swap| && m'.swap[f].Held? :: m'.swap[f].asid != asid
  {
    FailureTables(m, live, asid, vpn, w, r);
    hide Fault, Sound;
  }

  // ---------------------------------------------------------------------------------------------
  // The other steps

  /** No slot but this one has the page's entry. */
  ghost predicate Single(m: Memory, p: Page, slot: nat) {
    forall j | 0 <= j < |m.tlb| && j != slot && m.tlb[j].Some? :: m.tlb[j].value.hi != HiOf(p)
  }

  /** After a miss on a page that _initSupport made an entry for, that is so. */
  lemma LegalMiss(m: Memory, asid: int, vpn: nat, slot: nat)
    requires Legal(vpn) && Probe(m.tlb, Hi(asid, vpn)) == |m.tlb|
    ensures Single(m, PageOf(asid, vpn), slot)
  {
    IndexThenVpn(vpn);
  }

  lemma SingleSound(m: Memory, live: set<int>, asid: int, vpn: nat, slot: nat)
    requires Sound(m, live) && asid in live && PageOf(asid, vpn) in m.ptes && slot < |m.tlb|
    requires Single(m, PageOf(asid, vpn), slot)
    ensures Sound(Refill(m, asid, vpn, slot), live)
  {
    var m' := Refill(m, asid, vpn, slot);
    forall g: nat | g < |m.swap| && m.swap[g].Held? ensures RowOk(m', live, g) { assert RowOk(m, live, g); }
    forall i | 0 <= i < |m'.tlb| && m'.tlb[i].Some? ensures SlotOk(m', live, m'.tlb[i].value) {
      if i == slot { VpnThenIndex(Index(vpn)); } else { assert SlotOk(m, live, m.tlb[i].value); }
    }
  }

  /** A refill, for whatever page number its handler has an entry: the tables stay consistent if and only if no other
      slot has that entry already. */
  lemma RefillSoundIff(m: Memory, live: set<int>, asid: int, vpn: nat, slot: nat)
    requires Sound(m, live) && asid in live && Index(vpn) < PAGES && slot < |m.tlb|
    ensures PageOf(asid, vpn) in m.ptes
    ensures Sound(Refill(m, asid, vpn, slot), live) <==> Single(m, PageOf(asid, vpn), slot)
  {
    if Single(m, PageOf(asid, vpn), slot) {
      SingleSound(m, live, asid, vpn, slot);
    } else {
      var m' := Refill(m, asid, vpn, slot);
      var j :| 0 <= j < |m.tlb| && j != slot && m.tlb[j].Some? && m.tlb[j].value.hi == HiOf(PageOf(asid, vpn));
      assert m'.tlb[j].Some? && m'.tlb[slot].Some? && m'.tlb[j].value.hi == m'.tlb[slot].value.hi;
    }
  }

  /** The page's entry is in some slot. */
  ghost predicate Cached(m: Memory, asid: int, vpn: nat) {
    Probe(m.tlb, Hi(asid, vpn)) < |m.tlb|
  }

  lemma UpdateKeeps(tlb: seq<Option<Pte>>, e: Pte, hi: Hi)
    requires Probe(tlb, hi) < |tlb|
    ensures |UpdateTlb(tlb, e)| == |tlb| && Probe(UpdateTlb(tlb, e), hi) < |tlb|
  {
    var i, j := Probe(tlb, e.hi), Probe(tlb, hi);
    if Probe(UpdateTlb(tlb, e), hi) == |tlb| { assert UpdateTlb(tlb, e)[j].Some? && UpdateTlb(tlb, e)[j].value.hi == hi; }
  }

  lemma FaultKeepsCached(m: Memory, live: set<int>, asid: int, vpn: nat)
    requires Sound(m, live) && asid in live && Legal(vpn) && Cached(m, asid, vpn)
    ensures PageOf(asid, vpn) in m.ptes && Cached(Handle(m, asid, vpn), asid, vpn)
    ensures |Handle(m, asid, vpn).tlb| == |m.tlb|
  {
    FaultCases(m, live, asid, vpn);
    hide Sound, UpdateTlb, FreeFrame, Probe;
    var p, m1, f := PageOf(asid, vpn), m.(scan := Scanned(m)), Victim(m);
    if !m.ptes[p].lo.valid {
      var m2 := Evict(m1, f);
      if m.swap[f].Held? {
        UpdateKeeps(m.tlb, m.ptes[m.swap[f].pte].(lo := m.ptes[m.swap[f].pte].lo.(valid := false)), Hi(asid, vpn));
      }
      UpdateKeeps(m2.tlb, m2.ptes[p].(lo := Lo(f, true)), Hi(asid, vpn));
    }
  }

  /** A cached page is translated exactly if its entry is valid, and then to the frame that the entry names. */
  lemma CachedTranslates(m: Memory, live: set<int>, asid: int, vpn: nat)
    requires Sound(m, live) && asid in live && Legal(vpn) && Cached(m, asid, vpn)
    ensures PageOf(asid, vpn) in m.ptes
    ensures var lo := m.ptes[PageOf(asid, vpn)].lo; Translate(m, asid, vpn) == if lo.valid then Some(lo.frame) else None
  {
    var i := Probe(m.tlb, Hi(asid, vpn));
    assert SlotOk(m, live, m.tlb[i].value);
  }

  /** Every access to a page of a live U-proc is served: after a refill, if the page is not in the TLB, into any slot,
      and a fault without flash errors, if it is not in memory, the TLB leads to the page's frame. */
  lemma AccessServed(m: Memory, live: set<int>, asid: int, vpn: nat, slot: nat) returns (m1: Memory, m2: Memory)
    requires Sound(m, live) && asid in live && Legal(vpn) && slot < |m.tlb|
    ensures PageOf(asid, vpn) in m.ptes && PageOf(asid, vpn) in m1.ptes && PageOf(asid, vpn) in m2.ptes
    ensures m1 == if Cached(m, asid, vpn) then m else Refill(m, asid, vpn, slot)
    ensures Shaped(m1) && m2 == if Translate(m1, asid, vpn).Some? then m1 else Handle(m1, asid, vpn)
    ensures Sound(m2, live) && m2.ptes[PageOf(asid, vpn)].lo.valid
    ensures Translate(m2, asid, vpn) == Some(m2.ptes[PageOf(asid, vpn)].lo.frame)
  {
    IndexThenVpn(vpn);
    m1 := m;
    if !Cached(m, asid, vpn) {
      LegalMiss(m, asid, vpn, slot);
      SingleSound(m, live, asid, vpn, slot);
      m1 := Refill(m, asid, vpn, slot);
      Refilled(m, live, asid, vpn, slot);
    }
    CachedTranslates(m1, live, asid, vpn);
    m2 := m1;
    if !Translate(m1, asid, vpn).Some? {
      HandleSound(m1, live, asid, vpn);
      FaultKeepsCached(m1, live, asid, vpn);
      m2 := Handle(m1, asid, vpn);
      CachedTranslates(m2, live, asid, vpn);
    }
  }

  lemma Refilled(m: Memory, live: set<int>, asid: int, vpn: nat, slot: nat)
    requires Sound(m, live) && asid in live && Legal(vpn) && slot < |m.tlb| && PageOf(asid, vpn) in m.ptes
    ensures Cached(Refill(m, asid, vpn, slot), asid, vpn)
  {
    IndexThenVpn(vpn);
    var m' := Refill(m, asid, vpn, slot);
    assert m'.tlb[slot].Some? && m'.tlb[slot].value.hi == Hi(asid, vpn);
  }

  /** A terminated U-proc gives up its frames. */
  lemma SweepSound(m: Memory, live: set<int>, asid: int)
    requires Sound(m, live)
    ensures Sound(Sweep(m, asid), live - {asid})
  {
  }

  /** Translation leads to the page's own frame. */
  lemma TranslateRight(m: Memory, live: set<int>, asid: int, vpn: nat)
    requires Sound(m, live) && asid in live && Translate(m, asid, vpn).Some?
    ensures Legal(vpn) && PageOf(asid, vpn) in m.ptes
    ensures m.ptes[PageOf(asid, vpn)].lo == Lo(Translate(m, asid, vpn).value, true)
    ensures Translate(m, asid, vpn).value < |m.swap| && Holds(m.swap[Translate(m, asid, vpn).value], asid, vpn)
  {
  }

  lemma StoreSound(m: Memory, live: set<int>, asid: int, vpn: nat, off: nat, w: int)
    requires Sound(m, live) && asid in live && Accessible(m, asid, vpn, off)
    ensures Sound(Store(m, asid, vpn, off, w), live)
  {
  }

  /** A store changes the word it names in the page it names, and nothing else. */
  lemma StoreContent(m: Memory, live: set<int>, asid: int, vpn: nat, off: nat, w: int, p: Page)
    requires Sound(m, live) && asid in live && Accessible(m, asid, vpn, off) && p.asid in live && p.index < PAGES
    ensures var m' := Store(m, asid, vpn, off, w);
      && p in m.ptes && p in m.flash && (m.ptes[p].lo.valid ==> m.ptes[p].lo.frame < |m.frames|)
      && p in m'.ptes && p in m'.flash && (m'.ptes[p].lo.valid ==> m'.ptes[p].lo.frame < |m'.frames|)
      && if p == PageOf(asid, vpn) then off < |Content(m, p)| && Content(m', p) == Content(m, p)[off := w]
         else Content(m', p) == Content(m, p)
  {
  }

  lemma InitialSound(m: Memory, asids: set<int>)
    requires Initial(m, asids)
    ensures Sound(m, asids)
  {
  }
}
