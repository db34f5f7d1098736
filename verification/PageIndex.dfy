/** Virtual page numbers of a U-proc and their places in its page table and on its flash device
    (GET_PAGE_INDEX, phase3/headers/vmSupport.h; _initSupport, phase3/initProc.c). */
module PageIndex {

  /** USERPGTBLSIZE */
  const PAGES := 32

  const STACK_VPN := 0xBFFFF

  const TEXT_VPN := 0x80000

  /** GET_PAGE_INDEX; vpn & 0xFF is vpn % 256. */
  function Index(vpn: nat): nat {
    if vpn == STACK_VPN then PAGES - 1 else vpn % 256
  }

  /** The pages _initSupport makes entries for. */
  predicate Legal(vpn: int) {
    TEXT_VPN <= vpn < TEXT_VPN + PAGES - 1 || vpn == STACK_VPN
  }

  /** The page number that _initSupport writes into entry i. */
  function Vpn(i: nat): nat {
    if i == PAGES - 1 then STACK_VPN else TEXT_VPN + i
  }

  /** A legal page has its own entry, the one that _initSupport labelled with its number. */
  lemma IndexThenVpn(vpn: nat)
    ensures Legal(vpn) <==> Index(vpn) < PAGES && Vpn(Index(vpn)) == vpn
  {
  }

  /** Every entry is the entry of the page it is labelled with. */
  lemma VpnThenIndex(i: nat)
    requires i < PAGES
    ensures Legal(Vpn(i)) && Index(Vpn(i)) == i
  {
  }

  /** In numbers: the 31 text pages from 0x80000 on have entries 0 to 30 in order, 0xBFFFF has entry 31, no other page
      has an entry, and for other pages the index is the lowest byte. */
  lemma InNumbers(vpn: nat)
    ensures 0x80000 <= vpn <= 0x8001E ==> Index(vpn) == vpn - 0x80000 && Vpn(Index(vpn)) == vpn
    ensures vpn == 0xBFFFF ==> Index(vpn) == 31 && Vpn(31) == vpn
    ensures Legal(vpn) <==> 0x80000 <= vpn <= 0x8001E || vpn == 0xBFFFF
    ensures vpn != 0xBFFFF ==> Index(vpn) < 0x100 && exists q: nat :: vpn == 0x100 * q + Index(vpn)
    ensures PAGES == 32
  {
    assert vpn == 0x100 * (vpn / 0x100) + vpn % 0x100;
  }

  /** The page after the text area has an index in range, but it is the stack page's. */
  lemma FirstIllegalPageCollides()
    ensures !Legal(TEXT_VPN + PAGES - 1) && Index(TEXT_VPN + PAGES - 1) == Index(STACK_VPN)
  {
  }
}
