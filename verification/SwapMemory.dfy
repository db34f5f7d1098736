/** The swap pool, the page tables, the flash devices and the TLB as one value, and what the pager
    (phase3/vmSupport.c), the refill handler (phase2/exceptions.c) and a U-proc's accesses do to it. */
module SwapMemory {
  import opened Basics
  import opened PageIndex

  /** The words of a page. */
  type Block = seq<int>

  /** Entry `index` of the private page table of `asid`, and block `index` of its flash device. */
  datatype Page = Page(asid: int, index: nat)

  datatype Hi = Hi(asid: int, vpn: nat)

  /** pte_entryLO; the dirty bit is always on. */
  datatype Lo = Lo(frame: nat, valid: bool)

  datatype Pte = Pte(hi: Hi, lo: Lo)

  /** A row of SwapTable; Free has sw_asid -1. */
  datatype Swap = Free | Held(asid: int, vpn: nat, pte: Page)

  /** What a flash device answers; a command that fails leaves something in the block or frame it was to fill. */
  datatype Status = Ready | Failed(left: Block)

  datatype FlashOp = FlashRead(page: Page) | FlashWrite(page: Page)

  datatype Memory = Memory(
    swap: seq<Swap>,          // SwapTable
    ptes: map<Page, Pte>,     // the page tables of all U-procs
    frames: seq<Block>,       // the frames of the swap pool
    flash: map<Page, Block>,  // the flash devices
    tlb: seq<Option<Pte>>,
    scan: nat,                // free_frame_index
    log: seq<FlashOp>)        // the commands the flash devices were given

  function PageOf(asid: int, vpn: nat): Page {
    Page(asid, Index(vpn))
  }

  function HiOf(p: Page): Hi {
    Hi(p.asid, Vpn(p.index))
  }

  /** Tables of the right size, and references that lead somewhere. */
  ghost predicate Shaped(m: Memory) {
    && 2 <= |m.swap| == |m.frames| && m.scan < |m.swap|
    && m.flash.Keys == m.ptes.Keys
    && (forall f | 0 <= f < |m.swap| && m.swap[f].Held? ::
          m.swap[f].pte in m.ptes && PageOf(m.swap[f].asid, m.swap[f].vpn) in m.flash)
  }

  // ---------------------------------------------------------------------------------------------
  // The TLB

  /** TLBP: the first slot with this entryHI, or the number of slots. */
  function Probe(tlb: seq<Option<Pte>>, hi: Hi): (i: nat)
    ensures i <= |tlb|
    ensures i < |tlb| ==> tlb[i].Some? && tlb[i].value.hi == hi
    ensures forall j | 0 <= j < i :: tlb[j].Some? ==> tlb[j].value.hi != hi
  {
    if tlb == [] then 0 else if tlb[0].Some? && tlb[0].value.hi == hi then 0 else 1 + Probe(tlb[1..], hi)
  }

  /** updateTLB_Probe: an entry that is there takes the new value; otherwise nothing happens. */
  function UpdateTlb(tlb: seq<Option<Pte>>, e: Pte): seq<Option<Pte>> {
    var i := Probe(tlb, e.hi);
    if i < |tlb| then tlb[i := Some(e)] else tlb
  }

  // ---------------------------------------------------------------------------------------------
  // TLB_Handler

  /** The i-th frame of a scan that begins at `start`. */
  function Nth(n: nat, start: nat, i: nat): (f: nat)
    requires 0 < n
    ensures f < n
  {
    (start + i) % n
  }

  /** A scan of n steps comes to every frame. */
  lemma Reached(n: nat, start: nat, f: nat) returns (i: nat)
    requires start < n && f < n
    ensures i < n && Nth(n, start, i) == f
  {
    i := if f >= start then f - start else f + n - start;
    if f < start { OnceAround(n, f); }
  }

  lemma OnceAround(n: nat, f: nat)
    requires f < n
    ensures (n + f) % n == f
  {
  }

  /** _getFreeSwapFrameIndex, with i frames already passed. */
  function FreeFrame(swap: seq<Swap>, start: nat, i: nat): (f: nat)
    requires 2 <= |swap| && start < |swap| && i <= |swap|
    ensures f < |swap|
    decreases |swap| - i
  {
    if i == |swap| then 1
    else if swap[Nth(|swap|, start, i)] == Free then Nth(|swap|, start, i)
    else FreeFrame(swap, start, i + 1)
  }

  function Victim(m: Memory): (f: nat)
    requires Shaped(m)
    ensures f < |m.swap|
  {
    FreeFrame(m.swap, m.scan, 0)
  }

  /** free_frame_index afterwards: it moves to a frame that was free, and stays when there was none. */
  function Scanned(m: Memory): nat
    requires Shaped(m)
  {
    if m.swap[Victim(m)] == Free then Victim(m) else m.scan
  }

  predicate Holds(r: Swap, asid: int, vpn: nat) {
    r.Held? && r.asid == asid && r.vpn == vpn
  }

  /** The search of the swap table from row i on; true when it ended in a valid page. */
  ghost function Lookup(m: Memory, asid: int, vpn: nat, i: nat): (Memory, bool)
    requires Shaped(m) && i <= |m.swap|
    decreases |m.swap| - i
  {
    if i == |m.swap| then (m, false)
    else if !Holds(m.swap[i], asid, vpn) then Lookup(m, asid, vpn, i + 1)
    else
      var e := m.ptes[m.swap[i].pte];
      var m1 := m.(tlb := UpdateTlb(m.tlb, e));
      if e.lo.valid then (m1, true) else Lookup(m1, asid, vpn, i + 1)
  }

  /** The entry of the page in frame f, a held one, is invalidated. */
  function Invalidate(m: Memory, f: nat): Memory
    requires f < |m.swap| && m.swap[f].Held? && m.swap[f].pte in m.ptes
  {
    var r := m.swap[f].pte;
    var e := m.ptes[r].(lo := m.ptes[r].lo.(valid := false));
    m.(ptes := m.ptes[r := e], tlb := UpdateTlb(m.tlb, e))
  }

  /** A frame with this content is written to the block of the page that frame f holds. */
  function WriteBack(m: Memory, f: nat, b: Block): Memory
    requires f < |m.swap| && m.swap[f].Held?
  {
    var p := PageOf(m.swap[f].asid, m.swap[f].vpn);
    m.(flash := m.flash[p := b], log := m.log + [FlashWrite(p)])
  }

  /** A held frame is written back, after its page was invalidated. */
  function Evict(m: Memory, f: nat): Memory
    requires f < |m.swap| == |m.frames| && (m.swap[f].Held? ==> m.swap[f].pte in m.ptes)
  {
    if m.swap[f] == Free then m else WriteBack(Invalidate(m, f), f, m.frames[f])
  }

  /** The missing page is read into frame f. */
  function Fill(m: Memory, f: nat, asid: int, vpn: nat): Memory
    requires f < |m.swap| == |m.frames| && PageOf(asid, vpn) in m.ptes && PageOf(asid, vpn) in m.flash
  {
    var p := PageOf(asid, vpn);
    var e := m.ptes[p].(lo := Lo(f, true));
    m.(frames := m.frames[f := m.flash[p]], log := m.log + [FlashRead(p)], swap := m.swap[f := Held(asid, vpn, p)],
       ptes := m.ptes[p := e], tlb := UpdateTlb(m.tlb, e))
  }

  /** The section of TLB_Handler that SwapPoolSemaphore guards, when the flash operations succeed. */
  ghost function Handle(m: Memory, asid: int, vpn: nat): Memory
    requires Shaped(m) && PageOf(asid, vpn) in m.ptes
  {
    var (m1, hit) := Lookup(m, asid, vpn, 0);
    if hit then m1 else
      LookupKeeps(m, asid, vpn, 0);
      Fill(Evict(m1.(scan := Scanned(m1)), Victim(m1)), Victim(m1), asid, vpn)
  }

  /** The same section when the device answers w to the write, if there is one, and r to the read; false if the U-proc
      ends in terminateUProc, which gives up its frames before it leaves the section. */
  ghost function Fault(m: Memory, asid: int, vpn: nat, w: Status, r: Status): (Memory, bool)
    requires Shaped(m) && PageOf(asid, vpn) in m.ptes
  {
    var (m1, hit) := Lookup(m, asid, vpn, 0);
    if hit then (m1, true) else
      LookupKeeps(m, asid, vpn, 0);
      var m2, f := m1.(scan := Scanned(m1)), Victim(m1);
      if m2.swap[f].Held? && w.Failed? then (Sweep(WriteBack(Invalidate(m2, f), f, w.left), asid), false)
      else if r.Failed? then (Sweep(ReadIn(Evict(m2, f), f, PageOf(asid, vpn), r.left), asid), false)
      else (Fill(Evict(m2, f), f, asid, vpn), true)
  }

  /** A read of page p puts b into frame f. */
  function ReadIn(m: Memory, f: nat, p: Page, b: Block): Memory
    requires f < |m.frames|
  {
    m.(frames := m.frames[f := b], log := m.log + [FlashRead(p)])
  }

  /** The search touches nothing but the TLB. */
  lemma {:induction false} LookupKeeps(m: Memory, asid: int, vpn: nat, i: nat)
    requires Shaped(m) && i <= |m.swap|
    ensures Lookup(m, asid, vpn, i).0 == m.(tlb := Lookup(m, asid, vpn, i).0.tlb)
    decreases |m.swap| - i
  {
    if i < |m.swap| {
      if Holds(m.swap[i], asid, vpn) {
        var e := m.ptes[m.swap[i].pte];
        if !e.lo.valid { LookupKeeps(m.(tlb := UpdateTlb(m.tlb, e)), asid, vpn, i + 1); }
      } else {
        LookupKeeps(m, asid, vpn, i + 1);
      }
    }
  }

  // ---------------------------------------------------------------------------------------------
  // The other steps

  /** uTLB_RefillHandler; the hardware chooses the slot. */
  function Refill(m: Memory, asid: int, vpn: nat, slot: nat): Memory
    requires slot < |m.tlb| && PageOf(asid, vpn) in m.ptes
  {
    m.(tlb := m.tlb[slot := Some(m.ptes[PageOf(asid, vpn)])])
  }

  /** The sweep of terminateUProc. */
  function Sweep(m: Memory, asid: int): Memory {
    m.(swap := seq(|m.swap|, f requires 0 <= f < |m.swap| =>
                if m.swap[f].Held? && m.swap[f].asid == asid then Free else m.swap[f]))
  }

  /** The address translation of an access: the frame, when the TLB has a valid entry. */
  function Translate(m: Memory, asid: int, vpn: nat): Option<nat> {
    var i := Probe(m.tlb, Hi(asid, vpn));
    if i < |m.tlb| && m.tlb[i].value.lo.valid then Some(m.tlb[i].value.lo.frame) else None
  }

  /** A store through the TLB. */
  function Store(m: Memory, asid: int, vpn: nat, off: nat, w: int): Memory
    requires Accessible(m, asid, vpn, off)
  {
    var f := Translate(m, asid, vpn).value;
    m.(frames := m.frames[f := m.frames[f][off := w]])
  }

  predicate Accessible(m: Memory, asid: int, vpn: nat, off: nat) {
    var t := Translate(m, asid, vpn);
    t.Some? && t.value < |m.frames| && off < |m.frames[t.value]|
  }

  /** test: nothing is in the pool, no page is valid, the TLB is empty. */
  ghost predicate Initial(m: Memory, asids: set<int>) {
    && 2 <= |m.swap| == |m.frames| && m.scan == 0 && m.log == []
    && (forall f | 0 <= f < |m.swap| :: m.swap[f] == Free)
    && (forall i | 0 <= i < |m.tlb| :: m.tlb[i] == None)
    && m.flash.Keys == m.ptes.Keys
    && (forall p: Page :: p in m.ptes <==> p.asid in asids && p.index < PAGES)
    && (forall p | p in m.ptes :: m.ptes[p] == Pte(HiOf(p), Lo(0, false)))
  }
}
