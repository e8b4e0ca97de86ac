/** The drivers as the program runs them: register transfers in sequence, with io_state reset
    and set around them. Each is proved to do what Drivers says. */
module DriverCode {
  import opened Bits
  import opened Chips
  import opened CString
  import opened Drivers
  import opened I2cLinux
  import opened IoTable
  import opened Json
  import opened Options
  import opened Uri

  /** The lines differ from lines0 only in the chip at address a of line b, and in which slave
      that line has selected. */
  ghost predicate On(lines: seq<Line>, lines0: seq<Line>, b: nat, a: byte, s: Slot) {
    && b < |lines0| == |lines|
    && (s.Present? <==> a in lines0[b].chips)
    && lines == lines0[b := PutSlot(lines0[b], a, s).(selected := lines[b].selected)]
  }

  lemma {:induction false} OnStart(lines: seq<Line>, b: nat, a: byte)
    requires b < |lines|
    ensures On(lines, lines, b, a, SlotAt(lines[b], a))
  {
    var l := lines[b];
    if a in l.chips {
      assert l.chips[a := l.chips[a]] == l.chips;
    }
    assert PutSlot(l, a, SlotAt(l, a)) == l;
  }

  lemma {:induction false} OnNext(before: seq<Line>, after: seq<Line>, lines0: seq<Line>,
                                  b: nat, a: byte, s: Slot, s': Slot)
    requires On(before, lines0, b, a, s) && (s.Present? <==> s'.Present?)
    requires after == before[b := Reached(before[b], a, s')]
    ensures On(after, lines0, b, a, s') && after[b].selected == a
    ensures SlotAt(before[b], a) == s
  {
    if s.Present? {
      assert lines0[b].chips[a := s.chip][a := s'.chip] == lines0[b].chips[a := s'.chip];
    }
  }

  method WriteReg(hw: Hardware, b: nat, a: byte, command: nat, v: byte,
                  ghost lines0: seq<Line>, ghost s: Slot) returns (rc: int)
    requires On(hw.lines, lines0, b, a, s)
    modifies hw`lines
    ensures var (s', ok) := WriteByteData(s, command, v);
      && On(hw.lines, lines0, b, a, s') && hw.lines[b].selected == a
      && rc == if ok then 0 else -1
  {
    ghost var before := hw.lines;
    ghost var s' := WriteByteData(s, command, v).0;
    OnNext(before, before[b := Reached(before[b], a, s')], lines0, b, a, s, s');
    rc := WriteByteDataTo(hw, b, a, command, v);
  }

  method ReadReg(hw: Hardware, b: nat, a: byte, command: nat, v0: byte,
                 ghost lines0: seq<Line>, ghost s: Slot) returns (rc: int, v: byte)
    requires On(hw.lines, lines0, b, a, s)
    modifies hw`lines
    ensures var (s', r) := ReadByteData(s, command);
      && On(hw.lines, lines0, b, a, s') && hw.lines[b].selected == a
      && (rc, v) == if r.Some? then (0, r.value) else (-1, v0)
  {
    ghost var before := hw.lines;
    ghost var s' := ReadByteData(s, command).0;
    OnNext(before, before[b := Reached(before[b], a, s')], lines0, b, a, s, s');
    rc, v := ReadByteDataFrom(hw, b, a, command, v0);
  }

  /** `dev_data->io_state = state` */
  method SetState(conf: IoConfig, b: nat, d: nat, state: IoState)
    requires b < conf.busses.Length && d < |conf.busses[b].devices| && conf.busses[b].devices[d].devData.Some?
    modifies conf.busses
    ensures conf.busses[..] == old(conf.busses[..])[b := WithState(old(conf.busses[b]), d, state)]
  {
    conf.busses[b] := WithState(conf.busses[b], d, state);
  }

  /** A device with the MCP23017 driver, by position. */
  ghost predicate IsMcp(conf: IoConfig, hw: Hardware, b: nat, d: nat)
    reads conf, conf.busses, hw
  {
    var w := WorldOf(conf, hw);
    HasDevice(w, b, d) && Ready(DevAt(w, b, d)) && DevAt(w, b, d).driver == Some(Mcp23017)
  }

  /** mcp23017_configure_io */
  method ConfigureIo(conf: IoConfig, hw: Hardware, b: nat, d: nat, desired: IoState,
                     ghost lines0: seq<Line>, ghost a: byte, ghost s: Slot)
    requires IsMcp(conf, hw, b, d)
    requires a == conf.busses[b].devices[d].busData.value.address
    requires On(hw.lines, lines0, b, a, s)
    modifies conf.busses, hw`lines
    ensures var (s', state) := Configure(s, desired);
      && On(hw.lines, lines0, b, a, s')
      && (desired != Unconfigured ==> hw.lines[b].selected == a)
      && conf.busses[..] == old(conf.busses[..])[b := WithState(old(conf.busses[b]), d, state)]
  {
    var ioStates: byte := 0x00;
    SetState(conf, b, d, Unconfigured);
    if desired != Writing && desired != Reading {
      return;
    }
    ioStates := if desired == Writing then 0x00 else 0xFF;
    var address := conf.busses[b].devices[d].busData.value.address;
    var rc := WriteReg(hw, b, address, IODIRA, ioStates, lines0, s);
    if rc == 0 {
      ghost var s1 := WriteByteData(s, IODIRA, ioStates).0;
      rc := WriteReg(hw, b, address, IODIRB, ioStates, lines0, s1);
      if rc == 0 {
        WithStateTwice(old(conf.busses[b]), d, Unconfigured, desired);
        SetState(conf, b, d, desired);
      }
    }
  }

  lemma {:induction false} OnEnd(w: World, lines: seq<Line>, b: nat, a: byte, s: Slot)
    requires On(lines, w.lines, b, a, s) && lines[b].selected == a
    ensures PutSlotAt(w, b, a, s) == w.(lines := lines)
  {
  }

  /** What a driver operation returns, writes to the reply buffer and leaves behind. */
  ghost predicate Did(w: World, b: nat, d: nat, out: DevOut, w': World, n: int, reply: string, reply': string)
    requires HasDevice(w, b, d) && Ready(DevAt(w, b, d))
  {
    w' == PutLocal(w, b, d, out.loc) && n == (if out.ok then 1 else 0) && reply' == Said(reply, out.complaint)
  }

  /** Lines 76 to 82 and 112 to 118 of src/mcp23017.c. */
  method TurnTo(conf: IoConfig, hw: Hardware, b: nat, d: nat, desired: IoState)
    requires IsMcp(conf, hw, b, d) && desired != Unconfigured
    modifies conf.busses, hw`lines
    ensures var w := old(WorldOf(conf, hw));
      var (s, state) := Turn(LocalOf(w, b, d).slot, LocalOf(w, b, d).state, desired);
      && On(hw.lines, w.lines, b, DevAt(w, b, d).busData.value.address, s)
      && conf.busses[..] == w.conf.busses[b := WithState(w.conf.busses[b], d, state)]
      && IsMcp(conf, hw, b, d)
      && conf.busses[b].devices[d].devData.value.ioState == state
      && conf.busses[b].devices[d].busData == DevAt(w, b, d).busData
      && (LocalOf(w, b, d).state != desired ==> hw.lines[b].selected == DevAt(w, b, d).busData.value.address)
  {
    ghost var lines0 := hw.lines;
    ghost var a := conf.busses[b].devices[d].busData.value.address;
    OnStart(lines0, b, a);
    if conf.busses[b].devices[d].devData.value.ioState != desired {
      hide On, Configure;
      ConfigureIo(conf, hw, b, d, desired, lines0, a, SlotAt(lines0[b], a));
      OnLength(hw.lines, lines0, b, a, Configure(SlotAt(lines0[b], a), desired).0);
    } else {
      WithStateSame(conf.busses[b], d);
    }
  }

  lemma {:induction false} OnLength(lines: seq<Line>, lines0: seq<Line>, b: nat, a: byte, s: Slot)
    requires On(lines, lines0, b, a, s)
    ensures b < |lines| == |lines0|
  {
  }

  /** mcp23017_write */
  method Mcp23017Write(conf: IoConfig, hw: Hardware, b: nat, d: nat, value: word, buf: array<char>, ghost reply: string)
    returns (n: int, ghost reply': string)
    requires IsMcp(conf, hw, b, d) && buf.Length == BUF_LEN && Holds(buf[..], 0, reply)
    modifies conf.busses, hw`lines, buf
    ensures var w := old(WorldOf(conf, hw));
      Did(w, b, d, McpWrite(LocalOf(w, b, d), value), WorldOf(conf, hw), n, reply, reply')
    ensures Holds(buf[..], 0, reply')
  {
    hide On, Configure, WriteByteData, Holds;
    ghost var w := WorldOf(conf, hw);
    ghost var a := DevAt(w, b, d).busData.value.address;
    ghost var loc := LocalOf(w, b, d);
    var states := value % 0x1_0000;
    TurnTo(conf, hw, b, d, Writing);
    n, reply' := 0, reply;
    ghost var s := Turn(loc.slot, loc.state, Writing).0;
    OnLength(hw.lines, w.lines, b, a, s);
    var address := conf.busses[b].devices[d].busData.value.address;
    if conf.busses[b].devices[d].devData.value.ioState == Writing {
      LowHighOfHalf(value);
      var rc := WriteReg(hw, b, address, OLATA, Low(states), w.lines, s);
      ghost var s1 := WriteByteData(s, OLATA, Low(states)).0;
      if rc == 0 {
        rc := WriteReg(hw, b, address, OLATB, High(states), w.lines, s1);
        if rc == 0 {
          n := 1;
        }
      }
    } else {
      WriteModeFailedText();
      ErrorToJson(WRITE_MODE_FAILED, buf);
      reply' := ErrorJson(WRITE_MODE_FAILED);
    }
    OnEnd(w, hw.lines, b, a, McpWrite(loc, value).loc.slot);
  }

  lemma {:induction false} LowHighOfHalf(v: word)
    ensures Low(v % 0x1_0000) == Low(v) && High(v % 0x1_0000) == High(v)
  {
  }

  lemma {:induction false} WriteModeFailedText()
    ensures NoNul(WRITE_MODE_FAILED) && |WRITE_MODE_FAILED| < 1000
  {
    NoNulJoin("Could not configure given ", "MCP23017 in write mode");
  }

  lemma {:induction false} ReadModeFailedText()
    ensures NoNul(READ_MODE_FAILED) && |READ_MODE_FAILED| < 1000
  {
    NoNulJoin("Could not configure givem ", "MCP23017 in read mode");
  }

  /** mcp23017_read */
  method Mcp23017Read(conf: IoConfig, hw: Hardware, b: nat, d: nat, value0: word, buf: array<char>, ghost reply: string)
    returns (n: int, value: word, ghost reply': string)
    requires IsMcp(conf, hw, b, d) && buf.Length == BUF_LEN && Holds(buf[..], 0, reply)
    modifies conf.busses, hw`lines, buf
    ensures var w := old(WorldOf(conf, hw));
      var out := McpRead(LocalOf(w, b, d), value0);
      Did(w, b, d, out, WorldOf(conf, hw), n, reply, reply') && value == out.value
    ensures Holds(buf[..], 0, reply')
  {
    hide On, Configure, ReadByteData, Holds, Join;
    ghost var w := WorldOf(conf, hw);
    ghost var a := DevAt(w, b, d).busData.value.address;
    ghost var loc := LocalOf(w, b, d);
    TurnTo(conf, hw, b, d, Reading);
    n, value, reply' := 0, value0, reply;
    ghost var s := Turn(loc.slot, loc.state, Reading).0;
    OnLength(hw.lines, w.lines, b, a, s);
    var address := conf.busses[b].devices[d].busData.value.address;
    if conf.busses[b].devices[d].devData.value.ioState == Reading {
      var statesA: byte, statesB: byte := 0, 0;
      var rc;
      rc, statesA := ReadReg(hw, b, address, GPIOA, statesA, w.lines, s);
      ghost var s1 := ReadByteData(s, GPIOA).0;
      if rc == 0 {
        rc, statesB := ReadReg(hw, b, address, GPIOB, statesB, w.lines, s1);
        if rc == 0 {
          JoinValue(statesA, statesB);
          value := Join(statesA, statesB);
          n := 1;
        }
      }
    } else {
      ReadModeFailedText();
      ErrorToJson(READ_MODE_FAILED, buf);
      reply' := ErrorJson(READ_MODE_FAILED);
    }
    OnEnd(w, hw.lines, b, a, McpRead(loc, value0).loc.slot);
  }

  // ---- PCF8574 ---------------------------------------------------------------------------------

  ghost predicate IsPcf(conf: IoConfig, hw: Hardware, b: nat, d: nat)
    reads conf, conf.busses, hw
  {
    var w := WorldOf(conf, hw);
    HasDevice(w, b, d) && Ready(DevAt(w, b, d)) && DevAt(w, b, d).driver == Some(Pcf8574)
  }

  method Pcf8574Write(conf: IoConfig, hw: Hardware, b: nat, d: nat, value: word) returns (n: int)
    requires IsPcf(conf, hw, b, d)
    modifies hw`lines
    ensures var w := old(WorldOf(conf, hw));
      Did(w, b, d, PcfWrite(LocalOf(w, b, d), value), WorldOf(conf, hw), n, "", "")
  {
    var rc := WriteByteTo(hw, b, conf.busses[b].devices[d].busData.value.address, Low(value));
    n := if rc == 0 then 1 else 0;
  }

  method Pcf8574Read(conf: IoConfig, hw: Hardware, b: nat, d: nat) returns (n: int, value: word)
    requires IsPcf(conf, hw, b, d)
    modifies hw`lines
    ensures var w := old(WorldOf(conf, hw));
      var out := PcfRead(LocalOf(w, b, d));
      Did(w, b, d, out, WorldOf(conf, hw), n, "", "") && value == out.value
  {
    var rc, states := ReadByteFrom(hw, b, conf.busses[b].devices[d].busData.value.address, 0);
    value := states;
    n := if rc == 0 then 1 else 0;
  }

  // ---- PiFace: src/pfio.c ------------------------------------------------------------------------

  method SpiWrite(hw: Hardware, port: byte, value: byte)
    modifies hw`spi
    ensures hw.spi == SpiStore(old(hw.spi), port, value)
  {
    var tx := new byte[3];
    var rx := new byte[3];
    tx[0], tx[1], tx[2] := SPI_WRITE_CMD, port, value;
    hw.SpiTransfer(tx, rx);
  }

  method SpiRead(hw: Hardware, port: byte) returns (value: byte)
    modifies hw`spi
    ensures value == SpiFetch(old(hw.spi), port)
    ensures hw.spi == old(hw.spi).(samples := old(hw.spi).samples + 1)
  {
    var tx := new byte[3];
    var rx := new byte[3];
    tx[0], tx[1], tx[2] := SPI_READ_CMD, port, 0xFF;
    hw.SpiTransfer(tx, rx);
    value := rx[2];
  }

  /** `1 << pin_number` as a uint8_t: pin 8 has an empty mask. */
  function PinBitMask(pin: nat): byte {
    Mask(pin) % 256
  }

  /** The outputs with one pin set or cleared. */
  function WithPin(outputs: byte, pin: nat, value: byte): byte {
    if value > 0 then OrByte(outputs, PinBitMask(pin)) else AndNot(outputs, PinBitMask(pin))
  }

  /** A written pin has the level asked for, and every other output the level it showed; there is no
      pin 8. */
  lemma {:induction false} DigitalWriteBits(outputs: byte, pin: nat, value: byte, k: nat)
    requires pin <= 8 && k < 8
    ensures Bit(WithPin(outputs, pin, value), k) <==> if k == pin then value > 0 else Bit(outputs, k)
  {
    hide Bit, Or, AndNot, Pow2;
    Pow2Values();
    MaskBits(pin, k);
    LowBits(Mask(pin), 8, k);
    OrBits(outputs, PinBitMask(pin), k);
    AndNotBits(outputs, PinBitMask(pin), k);
  }

  /** pfio_digital_write */
  method PfioDigitalWrite(hw: Hardware, pin: nat, value: byte)
    modifies hw`spi
    ensures var s := old(hw.spi);
      hw.spi == SpiStore(s.(samples := s.samples + 1), GPIOA, WithPin(SpiFetch(s, GPIOA), pin, value))
  {
    var outputs := SpiRead(hw, GPIOA);
    SpiWrite(hw, GPIOA, WithPin(outputs, pin, value));
  }

  /** pfio_init: whatever state the chip was in, it ends with port A driving eight low pins and
      port B reading with pull-ups. */
  method PfioInit(hw: Hardware)
    modifies hw`spi
    ensures var s := old(hw.spi);
      hw.spi == Spi(0x00, 0xFF, 8, 0xFF, 0x00, s.olatB, s.samples + 8, s.level)
  {
    SpiWrite(hw, IOCON, 8);
    SpiWrite(hw, GPIOA, 0x00);
    SpiWrite(hw, IODIRA, 0);
    SpiWrite(hw, IODIRB, 0xFF);
    SpiWrite(hw, GPPUB, 0xFF);
    for i := 1 to 9
      invariant var s := old(hw.spi);
        hw.spi == Spi(0x00, 0xFF, 8, 0xFF, 0x00, s.olatB, s.samples + i - 1, s.level)
    {
      PinLevelsSpec(0, hw.spi.level(hw.spi.samples));
      PfioDigitalWrite(hw, i, 0);
    }
  }
}
