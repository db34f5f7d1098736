/** Which device semaphore belongs to a command register (getDeviceSemaphoreIndex, phase2/interrupts.c:105-135). */
module DeviceIndex {
  import opened AslSpec

  const START_DEVREG := 0x10000054

  const TERMINALS := 0x10000254

  const TERMINALS_END := 0x10000354

  const INT_LINE_OFFSET := 0x80

  const DEVREGSIZE := 0x10

  const DEVS_PER_LINE := 8

  const WORD := 0x1_0000_0000

  /** PANIC, or what the function returns: -1 for an address between a terminal's command registers. */
  datatype Answer = Panic | Index(i: int)

  /** The addresses of the device semaphores, DeviceSemaphores without the clock's. */
  type DeviceSems = s: seq<Key> | |s| == 48 witness seq(48, i => i)

  /** A 32-bit word as a signed number. */
  function Signed(w: int): int {
    var u := w % WORD; if u < WORD / 2 then u else u - WORD
  }

  /** cmdAddr is an unsigned 32-bit word. */
  function SemaphoreIndex(cmdAddr: nat): Answer {
    if TERMINALS <= cmdAddr < TERMINALS_END then
      var dev := (cmdAddr - TERMINALS) / DEVREGSIZE;
      var offset := (cmdAddr - TERMINALS) % DEVREGSIZE;
      if offset == 0x4 then Index(4 * DEVS_PER_LINE + dev * 2)
      else if offset == 0xC then Index(4 * DEVS_PER_LINE + dev * 2 + 1)
      else Index(-1)
    else
      var offset := Signed(cmdAddr - 0x4 - START_DEVREG);
      if offset < 0 || offset > INT_LINE_OFFSET * 5 then Panic
      else Index(offset / INT_LINE_OFFSET * DEVS_PER_LINE + offset % INT_LINE_OFFSET / DEVREGSIZE)
  }

  /** The answer is the place of a device semaphore. */
  predicate HasDevice(cmdAddr: nat) {
    SemaphoreIndex(cmdAddr).Index? && 0 <= SemaphoreIndex(cmdAddr).i < 48
  }

  /** A device, or one half of a terminal: lines 3 to 6, and line 7 with its receivers and transmitters. */
  datatype Device = Plain(line: nat, dev: nat) | Receiver(dev: nat) | Transmitter(dev: nat)

  predicate Exists(d: Device) {
    d.dev < DEVS_PER_LINE && (d.Plain? ==> 3 <= d.line <= 6)
  }

  /** dev_base of handleDeviceInterrupt, and the offset of the command register. */
  function CommandAddr(d: Device): nat
    requires Exists(d)
  {
    match d
    case Plain(line, dev) => START_DEVREG + (line - 3) * INT_LINE_OFFSET + dev * DEVREGSIZE + 0x4
    case Receiver(dev) => START_DEVREG + 4 * INT_LINE_OFFSET + dev * DEVREGSIZE + 0x4
    case Transmitter(dev) => START_DEVREG + 4 * INT_LINE_OFFSET + dev * DEVREGSIZE + 0xC
  }

  function Place(d: Device): nat
    requires Exists(d)
  {
    match d
    case Plain(line, dev) => (line - 3) * DEVS_PER_LINE + dev
    case Receiver(dev) => 32 + 2 * dev
    case Transmitter(dev) => 33 + 2 * dev
  }

  lemma InRegister(dev: nat, r: nat)
    requires r < DEVREGSIZE
    ensures (dev * DEVREGSIZE + r) / DEVREGSIZE == dev && (dev * DEVREGSIZE + r) % DEVREGSIZE == r
  {
  }

  lemma InLine(line: nat, r: nat)
    requires r < INT_LINE_OFFSET
    ensures (line * INT_LINE_OFFSET + r) / INT_LINE_OFFSET == line && (line * INT_LINE_OFFSET + r) % INT_LINE_OFFSET == r
  {
  }

  lemma PlainPlace(line: nat, dev: nat)
    requires Exists(Plain(line, dev))
    ensures SemaphoreIndex(CommandAddr(Plain(line, dev))) == Index(Place(Plain(line, dev)))
  {
    var offset := (line - 3) * INT_LINE_OFFSET + dev * DEVREGSIZE;
    InLine(line - 3, dev * DEVREGSIZE);
    InRegister(dev, 0);
    assert Signed(offset) == offset;
  }

  lemma PlaceOf(d: Device)
    requires Exists(d)
    ensures SemaphoreIndex(CommandAddr(d)) == Index(Place(d)) && Place(d) < 48
  {
    match d
    case Plain(line, dev) => PlainPlace(line, dev);
    case Receiver(dev) => InRegister(dev, 0x4);
    case Transmitter(dev) => InRegister(dev, 0xC);
  }

  function DeviceAt(i: nat): (d: Device)
    requires i < 48
    ensures Exists(d) && Place(d) == i
  {
    if i < 32 then Plain(3 + i / 8, i % 8) else if i % 2 == 0 then Receiver((i - 32) / 2) else Transmitter((i - 33) / 2)
  }

  /** Every command register has a semaphore of its own, and every one of the 48 device semaphores is some register's.
      */
  lemma OneSemaphoreEach(d: Device, e: Device, i: nat)
    requires Exists(d) && Exists(e)
    ensures HasDevice(CommandAddr(d))
    ensures SemaphoreIndex(CommandAddr(d)) == SemaphoreIndex(CommandAddr(e)) <==> d == e
    ensures i < 48 ==> exists x :: Exists(x) && SemaphoreIndex(CommandAddr(x)) == Index(i)
  {
    PlaceOf(d);
    PlaceOf(e);
    if i < 48 {
      var x := DeviceAt(i);
      PlaceOf(x);
    }
  }

  /** In numbers: disk, flash, network and printer command registers, and those of the terminals' two halves. */
  lemma InNumbers(line: nat, dev: nat)
    requires 3 <= line <= 6 && dev < 8
    ensures SemaphoreIndex(0x10000058 + (line - 3) * 0x80 + dev * 0x10) == Index((line - 3) * 8 + dev)
    ensures SemaphoreIndex(0x10000258 + dev * 0x10) == Index(32 + 2 * dev)
    ensures SemaphoreIndex(0x10000260 + dev * 0x10) == Index(33 + 2 * dev)
  {
    PlainPlace(line, dev);
    InRegister(dev, 0x4);
    InRegister(dev, 0xC);
  }

  /** For other addresses the answer is a device's semaphore exactly in the registers of the plain devices, after the
      first word, and at the two command registers of the eight terminals. */
  lemma InRangeIff(cmdAddr: nat)
    requires cmdAddr < WORD
    ensures HasDevice(cmdAddr) <==>
            || START_DEVREG + 0x4 <= cmdAddr < TERMINALS
            || (TERMINALS <= cmdAddr < TERMINALS + 8 * DEVREGSIZE && (cmdAddr - TERMINALS) % DEVREGSIZE in {0x4, 0xC})
  {
  }
}
