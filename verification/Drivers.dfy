/** The device drivers: what each operation does to the device it addresses. */
module Drivers {
  import opened Bits
  import opened Chips
  import opened IoTable
  import opened Options

  /** The outcome of a read or a write: `complaint` is the message handed to cb_error, if any. */
  datatype DevOut = DevOut(loc: Local, ok: bool, value: word, complaint: string)

  // ---- MCP23017 ------------------------------------------------------------------------------

  // Written in two pieces, because the verifier goes through a literal character by character.
  const WRITE_MODE_FAILED := "Could not configure given " + "MCP23017 in write mode"
  const READ_MODE_FAILED := "Could not configure givem " + "MCP23017 in read mode"

  function Directions(desired: IoState): byte {
    if desired == Writing then 0x00 else 0xFF
  }

  /** mcp23017_configure_io */
  function Configure(s: Slot, desired: IoState): (Slot, IoState)
  {
    if desired == Unconfigured then (s, Unconfigured)
    else
      var (s1, okA) := WriteByteData(s, IODIRA, Directions(desired));
      if !okA then (s1, Unconfigured)
      else
        var (s2, okB) := WriteByteData(s1, IODIRB, Directions(desired));
        (s2, if okB then desired else Unconfigured)
  }

  /** The direction cache: configure only when the cached state is another. */
  function Turn(s: Slot, state: IoState, desired: IoState): (Slot, IoState)
  {
    if state != desired then Configure(s, desired) else (s, state)
  }

  function Latch(s: Slot, v: word): (Slot, bool)
  {
    var (s1, okA) := WriteByteData(s, OLATA, Low(v));
    if okA then WriteByteData(s1, OLATB, High(v)) else (s1, false)
  }

  function Sample(s: Slot): (Slot, Option<word>)
  {
    var (s1, a) := ReadByteData(s, GPIOA);
    if a == None then (s1, None)
    else
      var (s2, b) := ReadByteData(s1, GPIOB);
      if b == None then (s2, None)
      else
        JoinValue(a.value, b.value);
        (s2, Some(Join(a.value, b.value)))
  }

  function McpWrite(loc: Local, v: word): DevOut
  {
    var (s, state) := Turn(loc.slot, loc.state, Writing);
    if state == Writing then
      var (s', ok) := Latch(s, v);
      DevOut(loc.(slot := s', state := state), ok, v, "")
    else DevOut(loc.(slot := s, state := state), false, v, WRITE_MODE_FAILED)
  }

  function McpRead(loc: Local, v0: word): DevOut
  {
    var (s, state) := Turn(loc.slot, loc.state, Reading);
    if state == Reading then
      var (s', v) := Sample(s);
      DevOut(loc.(slot := s', state := state), v.Some?, if v.Some? then v.value else v0, "")
    else DevOut(loc.(slot := s, state := state), false, v0, READ_MODE_FAILED)
  }

  // ---- PCF8574 and PiFace ------------------------------------------------------------------------

  function PcfWrite(loc: Local, v: word): DevOut
  {
    var (s, ok) := SendByte(loc.slot, Low(v));
    DevOut(loc.(slot := s), ok, v, "")
  }

  /** A failed read still stores 0 in *value. */
  function PcfRead(loc: Local): DevOut
  {
    var (s, v) := ReceiveByte(loc.slot);
    DevOut(loc.(slot := s), v.Some?, if v.Some? then v.value else 0, "")
  }

  function PifaceWrite(loc: Local, v: word): DevOut
  {
    DevOut(loc.(spi := SpiStore(loc.spi, GPIOA, Low(v))), true, v, "")
  }

  function PifaceRead(loc: Local): DevOut
  {
    DevOut(loc.(spi := loc.spi.(samples := loc.spi.samples + 1)), true, SpiFetch(loc.spi, GPIOA), "")
  }

  // ---- drv_handle->write and drv_handle->read ------------------------------------------------------

  function DevWrite(driver: Driver, loc: Local, v: word): DevOut
  {
    match driver
    case Mcp23017 => McpWrite(loc, v)
    case Pcf8574 => PcfWrite(loc, v)
    case Piface => PifaceWrite(loc, v)
  }

  function DevRead(driver: Driver, loc: Local, v0: word): DevOut
  {
    match driver
    case Mcp23017 => McpRead(loc, v0)
    case Pcf8574 => PcfRead(loc)
    case Piface => PifaceRead(loc)
  }

  lemma {:induction false} DriverTouches(driver: Driver, loc: Local, v: word)
    ensures Touches(driver, loc, DevWrite(driver, loc, v).loc)
    ensures Touches(driver, loc, DevRead(driver, loc, v).loc)
  {
  }
}
