/** The pager itself: the tables of phase3 and the TLB, which the handlers update in place.  Each method is
    tied to the function of SwapMemory that says what it does. */
module PagerCode {
  import opened Basics
  import opened PageIndex
  import opened SwapMemory

  /** What is there after a command that should have put b there. */
  function Left(status: Status, b: Block): Block {
    if status.Ready? then b else status.left
  }

  datatype Command = FLASHREAD | FLASHWRITE

  class Pager {
    const swapTable: array<Swap>
    const frames: array<Block>
    const tlb: array<Option<Pte>>
    var pgTbl: map<Page, Pte>        // sup_privatePgTbl of every U-proc
    var flash: map<Page, Block>
    var freeFrameIndex: nat
    ghost var log: seq<FlashOp>

    ghost function View(): Memory
      reads this, swapTable, frames, tlb
    {
      Memory(swapTable[..], pgTbl, frames[..], flash, tlb[..], freeFrameIndex, log)
    }

    // -------------------------------------------------------------------------------------------
    // Set-up

    /** initSwapStructs */
    method InitSwapStructs()
      modifies swapTable
      ensures forall f | 0 <= f < swapTable.Length :: swapTable[f] == Free
    {
      for i := 0 to swapTable.Length
        invariant forall f | 0 <= f < i :: swapTable[f] == Free
      {
        swapTable[i] := Free;
      }
    }

    /** The page table part of _initSupport. */
    method InitSupport(asid: int)
      modifies `pgTbl
      ensures forall p: Page :: p in pgTbl <==> p in old(pgTbl) || (p.asid == asid && p.index < PAGES)
      ensures forall p | p in pgTbl :: pgTbl[p] ==
                if p.asid == asid && p.index < PAGES then Pte(HiOf(p), Lo(0, false)) else old(pgTbl)[p]
      ensures forall i: nat | i < 31 :: pgTbl[Page(asid, i)] == Pte(Hi(asid, 0x80000 + i), Lo(0, false))
      ensures pgTbl[Page(asid, 31)] == Pte(Hi(asid, 0xBFFFF), Lo(0, false))
    {
      for i := 0 to PAGES - 1
        invariant forall p: Page :: p in pgTbl <==> p in old(pgTbl) || (p.asid == asid && p.index < i)
        invariant forall p | p in pgTbl :: pgTbl[p] ==
                    if p.asid == asid && p.index < i then Pte(HiOf(p), Lo(0, false)) else old(pgTbl)[p]
      {
        pgTbl := pgTbl[Page(asid, i) := Pte(Hi(asid, TEXT_VPN + i), Lo(0, false))];
      }
      pgTbl := pgTbl[Page(asid, PAGES - 1) := Pte(Hi(asid, STACK_VPN), Lo(0, false))];
    }

    /** The tables as test leaves them for U-procs 1 to `uprocs`, over whatever the devices hold. */
    constructor (uprocs: nat, slots: nat, flash: map<Page, Block>, ghost asids: set<int>)
      requires 1 <= uprocs && forall a :: a in asids <==> 1 <= a <= uprocs
      requires forall p: Page :: p in flash <==> p.asid in asids && p.index < PAGES
      ensures Initial(View(), asids) && |View().swap| == 2 * uprocs && flash == this.flash
    {
      swapTable := new Swap[2 * uprocs](_ => Free);
      frames := new Block[2 * uprocs](_ => []);
      tlb := new Option<Pte>[slots](_ => None);
      pgTbl, this.flash, freeFrameIndex, log := map[], flash, 0, [];
      new;
      InitSwapStructs();
      for asid := 1 to uprocs + 1
        invariant this.flash == flash && freeFrameIndex == 0 && log == []
        invariant forall p: Page :: p in pgTbl <==> 1 <= p.asid < asid && p.index < PAGES
        invariant forall p | p in pgTbl :: pgTbl[p] == Pte(HiOf(p), Lo(0, false))
        invariant forall f | 0 <= f < swapTable.Length :: swapTable[f] == Free
        invariant forall i | 0 <= i < tlb.Length :: tlb[i] == None
      {
        InitSupport(asid);
      }
    }

    // -------------------------------------------------------------------------------------------
    // TLB_Handler

    /** _getFreeSwapFrameIndex */
    method GetFreeSwapFrameIndex() returns (f: nat)
      requires Shaped(View())
      modifies `freeFrameIndex
      ensures f == Victim(old(View())) && View() == old(View()).(scan := Scanned(old(View())))
    {
      var i, n := 0, swapTable.Length;
      while i < n && swapTable[Nth(n, freeFrameIndex, i)] != Free
        invariant i <= n && FreeFrame(swapTable[..], freeFrameIndex, i) == Victim(old(View()))
        invariant forall j | 0 <= j < i :: swapTable[Nth(n, freeFrameIndex, j)] != Free
      {
        i := i + 1;
      }
      if i == n {
        NothingFree(View());
        return 1;
      }
      freeFrameIndex := Nth(n, freeFrameIndex, i);
      return freeFrameIndex;
    }

    /** A whole round without a free frame means that frame 1 is not free either. */
    lemma NothingFree(m: Memory)
      requires Shaped(m) && forall j | 0 <= j < |m.swap| :: m.swap[Nth(|m.swap|, m.scan, j)] != Free
      ensures m.swap[1] != Free
    {
      var j := Reached(|m.swap|, m.scan, 1);
    }

    method UpdateTlbProbe(p: Page)
      requires p in pgTbl
      modifies tlb
      ensures tlb[..] == UpdateTlb(old(tlb[..]), pgTbl[p])
    {
      var i := Probe(tlb[..], pgTbl[p].hi);
      if i < tlb.Length { tlb[i] := Some(pgTbl[p]); }
    }

    /** _flashIO, up to the call that terminates the U-proc when the device's answer is not READY. */
    method FlashIO(asid: int, vpn: nat, command: Command, frame: nat, status: Status) returns (ready: bool)
      requires frame < frames.Length && PageOf(asid, vpn) in flash
      modifies `flash, `log, frames
      ensures ready <==> status.Ready?
      ensures var p := PageOf(asid, vpn);
        && frames[..] ==
           (if command == FLASHREAD then old(frames[..])[frame := Left(status, old(flash)[p])] else old(frames[..]))
        && flash == (if command == FLASHREAD then old(flash) else old(flash)[p := Left(status, old(frames[..])[frame])])
        && log == old(log) + [if command == FLASHREAD then FlashRead(p) else FlashWrite(p)]
    {
      var p := PageOf(asid, vpn);
      match command {
        case FLASHREAD =>
          frames[frame] := Left(status, flash[p]);
          log := log + [FlashRead(p)];
        case FLASHWRITE =>
          flash := flash[p := Left(status, frames[frame])];
          log := log + [FlashWrite(p)];
      }
      return status.Ready?;
    }

    /** The search of the swap table for a page that is already loaded. */
    method AlreadyLoaded(asid: int, vpn: nat) returns (hit: bool)
      requires Shaped(View())
      modifies tlb
      ensures (View(), hit) == Lookup(old(View()), asid, vpn, 0)
    {
      for i := 0 to swapTable.Length
        invariant View() == old(View()).(tlb := tlb[..])
        invariant Lookup(View(), asid, vpn, i) == Lookup(old(View()), asid, vpn, 0)
      {
        if Holds(swapTable[i], asid, vpn) {
          UpdateTlbProbe(swapTable[i].pte);
          if pgTbl[swapTable[i].pte].lo.valid { return true; }
        }
      }
      return false;
    }

    method EvictFrame(f: nat, status: Status) returns (ready: bool)
      requires f < swapTable.Length == frames.Length
      requires swapTable[f].Held? ==> swapTable[f].pte in pgTbl && PageOf(swapTable[f].asid, swapTable[f].vpn) in flash
      modifies `pgTbl, `flash, `log, tlb, frames
      ensures ready <==> old(swapTable[f]) == Free || status.Ready?
      ensures View() == if ready then Evict(old(View()), f) else WriteBack(Invalidate(old(View()), f), f, status.left)
    {
      ready := true;
      if swapTable[f] != Free {
        var victim := swapTable[f].pte;
        pgTbl := pgTbl[victim := pgTbl[victim].(lo := pgTbl[victim].lo.(valid := false))];
        UpdateTlbProbe(victim);
        ready := FlashIO(swapTable[f].asid, swapTable[f].vpn, FLASHWRITE, f, status);
      }
    }

    method LoadPage(f: nat, asid: int, vpn: nat, status: Status) returns (ready: bool)
      requires f < swapTable.Length == frames.Length && PageOf(asid, vpn) in pgTbl && PageOf(asid, vpn) in flash
      modifies this, swapTable, frames, tlb
      ensures ready <==> status.Ready?
      ensures View() == if ready then Fill(old(View()), f, asid, vpn)
                        else ReadIn(old(View()), f, PageOf(asid, vpn), status.left)
    {
      var p := PageOf(asid, vpn);
      ready := FlashIO(asid, vpn, FLASHREAD, f, status);
      if ready {
        swapTable[f] := Held(asid, vpn, p);
        pgTbl := pgTbl[p := pgTbl[p].(lo := Lo(f, true))];
        UpdateTlbProbe(p);
      }
    }

    /** TLB_Handler, between its P and its V on SwapPoolSemaphore; false if it ends in terminateUProc. */
    method TlbHandler(asid: int, vpn: nat, w: Status, r: Status) returns (ok: bool)
      requires Shaped(View()) && PageOf(asid, vpn) in pgTbl
      modifies this, swapTable, frames, tlb
      ensures (View(), ok) == Fault(old(View()), asid, vpn, w, r)
    {
      LookupKeeps(View(), asid, vpn, 0);
      var hit := AlreadyLoaded(asid, vpn);
      if hit { return true; }
      var f := GetFreeSwapFrameIndex();
      ok := EvictFrame(f, w);
      if ok { ok := LoadPage(f, asid, vpn, r); }
      if !ok { ReleaseFrames(asid); }
    }

    // -------------------------------------------------------------------------------------------
    // uTLB_RefillHandler and terminateUProc

    method RefillHandler(asid: int, vpn: nat, slot: nat)
      requires slot < tlb.Length && PageOf(asid, vpn) in pgTbl
      modifies tlb
      ensures View() == Refill(old(View()), asid, vpn, slot)
    {
      tlb[slot] := Some(pgTbl[PageOf(asid, vpn)]);
    }

    method ReleaseFrames(asid: int)
      modifies swapTable
      ensures View() == Sweep(old(View()), asid)
    {
      for i := 0 to swapTable.Length
        invariant forall f | 0 <= f < i ::
                    swapTable[f] == var r := old(swapTable[f]); if r.Held? && r.asid == asid then Free else r
        invariant forall f | i <= f < swapTable.Length :: swapTable[f] == old(swapTable[f])
      {
        if swapTable[i] != Free && swapTable[i].asid == asid { swapTable[i] := Free; }
      }
    }
  }
}
