/** The hardware the drivers talk to: expander chips behind I2C lines, and the PiFace chip
    behind SPI. Transfers may fail, and a failed write may or may not have landed. */
module Chips {
  import opened Bits
  import opened Options

  datatype Outcome = Done | FailedLost | FailedLanded

  /** What a chip's surroundings do: the fate of each transfer to it, and the level that each
      sample of its pins finds outside. An arbitrary schedule stands for every behaviour. */
  datatype Env = Env(outcome: nat -> Outcome, level: nat -> byte)

  const IODIRA := 0x00
  const IODIRB := 0x01
  const GPIOA := 0x12
  const GPIOB := 0x13
  const OLATA := 0x14
  const OLATB := 0x15

  /** An expander: the MCP23017 registers that its driver uses, and the single port register
      of a PCF8574. `ticks` counts transfers, `samples` register reads, `dirWrites` the writes
      to IODIRA and IODIRB that landed. */
  datatype Chip = Chip(iodirA: byte, iodirB: byte, olatA: byte, olatB: byte, port: byte,
                       ticks: nat, samples: nat, dirWrites: nat, env: Env)

  function Store(c: Chip, command: nat, v: byte): Chip
  {
    if command == IODIRA then c.(iodirA := v, dirWrites := c.dirWrites + 1)
    else if command == IODIRB then c.(iodirB := v, dirWrites := c.dirWrites + 1)
    else if command == OLATA || command == GPIOA then c.(olatA := v)
    else if command == OLATB || command == GPIOB then c.(olatB := v)
    else c
  }

  function Fetch(c: Chip, command: nat, outside: byte): byte
  {
    if command == IODIRA then c.iodirA
    else if command == IODIRB then c.iodirB
    else if command == GPIOA then PinLevels(c.olatA, outside, c.iodirA)
    else if command == GPIOB then PinLevels(c.olatB, outside, c.iodirB)
    else if command == OLATA then c.olatA
    else if command == OLATB then c.olatB
    else 0
  }

  function Landed(c: Chip, after: Chip): (Chip, bool)
  {
    var o := c.env.outcome(c.ticks);
    ((if o == FailedLost then c else after).(ticks := c.ticks + 1), o == Done)
  }

  // ---- the transfers, at the chip they reach ---------------------------------------------------

  datatype Slot = Absent | Present(chip: Chip)

  /** SMBus Write Byte (section 5.5.4 of SMBus 2.0) */
  function WriteByteData(s: Slot, command: nat, v: byte): (Slot, bool)
  {
    match s
    case Absent => (s, false)
    case Present(c) =>
      var (c', ok) := Landed(c, Store(c, command, v));
      (Present(c'), ok)
  }

  /** SMBus Read Byte (section 5.5.5 of SMBus 2.0) */
  function ReadByteData(s: Slot, command: nat): (Slot, Option<byte>)
  {
    match s
    case Absent => (s, None)
    case Present(c) =>
      var (c', ok) := Landed(c, c.(samples := c.samples + 1));
      (Present(c'), if ok then Some(Fetch(c, command, c.env.level(c.samples))) else None)
  }

  /** SMBus Send Byte (section 5.5.2 of SMBus 2.0) */
  function SendByte(s: Slot, v: byte): (Slot, bool)
  {
    match s
    case Absent => (s, false)
    case Present(c) =>
      var (c', ok) := Landed(c, c.(port := v));
      (Present(c'), ok)
  }

  /** SMBus Receive Byte (section 5.5.3 of SMBus 2.0). A pin of a PCF8574 reads low when its
      latch is low or the level outside is. */
  function ReceiveByte(s: Slot): (Slot, Option<byte>)
  {
    match s
    case Absent => (s, None)
    case Present(c) =>
      var (c', ok) := Landed(c, c.(samples := c.samples + 1));
      (Present(c'), if ok then Some(And(c.port, c.env.level(c.samples))) else None)
  }

  // ---- the lines -----------------------------------------------------------------------------------

  /** One open bus handle: the slave it has selected, and the chips by address. */
  datatype Line = Line(selected: byte, chips: map<byte, Chip>)

  function SlotAt(l: Line, address: byte): Slot
  {
    if address in l.chips then Present(l.chips[address]) else Absent
  }

  function PutSlot(l: Line, address: byte, s: Slot): Line
  {
    if s.Present? && address in l.chips then l.(chips := l.chips[address := s.chip]) else l
  }

  // ---- the PiFace chip ---------------------------------------------------------------------------------

  const IOCON := 0x0A
  const GPPUB := 0x0D
  const SPI_WRITE_CMD := 0x40
  const SPI_READ_CMD := 0x41

  datatype Spi = Spi(iodirA: byte, iodirB: byte, iocon: byte, gppuB: byte, olatA: byte, olatB: byte,
                     samples: nat, level: nat -> byte)

  function SpiStore(s: Spi, port: nat, v: byte): Spi
  {
    if port == IODIRA then s.(iodirA := v)
    else if port == IODIRB then s.(iodirB := v)
    else if port == IOCON then s.(iocon := v)
    else if port == GPPUB then s.(gppuB := v)
    else if port == GPIOA then s.(olatA := v)
    else if port == GPIOB then s.(olatB := v)
    else s
  }

  function SpiFetch(s: Spi, port: nat): byte
  {
    if port == GPIOA then PinLevels(s.olatA, s.level(s.samples), s.iodirA)
    else if port == GPIOB then PinLevels(s.olatB, s.level(s.samples), s.iodirB)
    else 0
  }

  /** Port A drives its pins: what is read back is what was written. */
  ghost predicate Driving(s: Spi) {
    s.iodirA == 0x00
  }

  class Hardware {
    var lines: seq<Line>
    var spi: Spi

    /** ioctl(fh, I2C_SLAVE, address) */
    method SelectSlave(b: nat, address: byte)
      requires b < |lines|
      modifies this`lines
      ensures lines == old(lines)[b := old(lines[b]).(selected := address)]
    {
      lines := lines[b := lines[b].(selected := address)];
    }

    /** A transfer goes to whichever slave the handle has selected. */
    method SmbusWriteByteData(b: nat, command: nat, v: byte) returns (rc: int)
      requires b < |lines|
      modifies this`lines
      ensures var l := old(lines[b]);
        var (s, ok) := WriteByteData(SlotAt(l, l.selected), command, v);
        lines == old(lines)[b := PutSlot(l, l.selected, s)] && rc == if ok then 0 else -1
    {
      var l := lines[b];
      var (s, ok) := WriteByteData(SlotAt(l, l.selected), command, v);
      lines := lines[b := PutSlot(l, l.selected, s)];
      rc := if ok then 0 else -1;
    }

    method SmbusReadByteData(b: nat, command: nat) returns (data: int)
      requires b < |lines|
      modifies this`lines
      ensures var l := old(lines[b]);
        var (s, v) := ReadByteData(SlotAt(l, l.selected), command);
        lines == old(lines)[b := PutSlot(l, l.selected, s)] && data == if v.Some? then v.value else -1
    {
      var l := lines[b];
      var (s, v) := ReadByteData(SlotAt(l, l.selected), command);
      lines := lines[b := PutSlot(l, l.selected, s)];
      data := if v.Some? then v.value else -1;
    }

    method SmbusWriteByte(b: nat, v: byte) returns (rc: int)
      requires b < |lines|
      modifies this`lines
      ensures var l := old(lines[b]);
        var (s, ok) := SendByte(SlotAt(l, l.selected), v);
        lines == old(lines)[b := PutSlot(l, l.selected, s)] && rc == if ok then 0 else -1
    {
      var l := lines[b];
      var (s, ok) := SendByte(SlotAt(l, l.selected), v);
      lines := lines[b := PutSlot(l, l.selected, s)];
      rc := if ok then 0 else -1;
    }

    method SmbusReadByte(b: nat) returns (data: int)
      requires b < |lines|
      modifies this`lines
      ensures var l := old(lines[b]);
        var (s, v) := ReceiveByte(SlotAt(l, l.selected));
        lines == old(lines)[b := PutSlot(l, l.selected, s)] && data == if v.Some? then v.value else -1
    {
      var l := lines[b];
      var (s, v) := ReceiveByte(SlotAt(l, l.selected));
      lines := lines[b := PutSlot(l, l.selected, s)];
      data := if v.Some? then v.value else -1;
    }

    /** SPI_IOC_MESSAGE with three bytes: opcode, register, data. */
    method SpiTransfer(tx: array<byte>, rx: array<byte>)
      requires tx.Length == 3 && rx.Length == 3 && tx != rx
      modifies this`spi, rx
      ensures tx[0] == SPI_WRITE_CMD ==> spi == SpiStore(old(spi), tx[1], tx[2])
      ensures tx[0] == SPI_READ_CMD ==>
        spi == old(spi).(samples := old(spi).samples + 1) && rx[2] == SpiFetch(old(spi), tx[1])
    {
      if tx[0] == SPI_WRITE_CMD {
        spi := SpiStore(spi, tx[1], tx[2]);
      } else if tx[0] == SPI_READ_CMD {
        rx[2] := SpiFetch(spi, tx[1]);
        spi := spi.(samples := spi.samples + 1);
      }
    }
  }
}
