/** src/io_i2c_linux.c: every transfer selects its own slave first. */
module I2cLinux {
  import opened Bits
  import opened Chips

  /** The line after a transfer to `address` that left slot s there: that slave is selected and
      no other chip has changed. */
  function Reached(l: Line, address: byte, s: Slot): Line
  {
    PutSlot(l.(selected := address), address, s)
  }

  method WriteByteDataTo(hw: Hardware, b: nat, address: byte, command: nat, v: byte) returns (rc: int)
    requires b < |hw.lines|
    modifies hw`lines
    ensures var l := old(hw.lines[b]);
      var (s, ok) := WriteByteData(SlotAt(l, address), command, v);
      hw.lines == old(hw.lines)[b := Reached(l, address, s)] && rc == if ok then 0 else -1
  {
    hw.SelectSlave(b, address);
    rc := hw.SmbusWriteByteData(b, command, v);
  }

  method ReadByteDataFrom(hw: Hardware, b: nat, address: byte, command: nat, v0: byte) returns (rc: int, v: byte)
    requires b < |hw.lines|
    modifies hw`lines
    ensures var l := old(hw.lines[b]);
      var (s, r) := ReadByteData(SlotAt(l, address), command);
      && hw.lines == old(hw.lines)[b := Reached(l, address, s)]
      && (rc, v) == if r.Some? then (0, r.value) else (-1, v0)
  {
    v := v0;
    hw.SelectSlave(b, address);
    var data := hw.SmbusReadByteData(b, command);
    if data < 0 {
      return -1, v0;
    }
    v, rc := data, 0;
  }

  method WriteByteTo(hw: Hardware, b: nat, address: byte, v: byte) returns (rc: int)
    requires b < |hw.lines|
    modifies hw`lines
    ensures var l := old(hw.lines[b]);
      var (s, ok) := SendByte(SlotAt(l, address), v);
      hw.lines == old(hw.lines)[b := Reached(l, address, s)] && rc == if ok then 0 else -1
  {
    hw.SelectSlave(b, address);
    rc := hw.SmbusWriteByte(b, v);
  }

  method ReadByteFrom(hw: Hardware, b: nat, address: byte, v0: byte) returns (rc: int, v: byte)
    requires b < |hw.lines|
    modifies hw`lines
    ensures var l := old(hw.lines[b]);
      var (s, r) := ReceiveByte(SlotAt(l, address));
      && hw.lines == old(hw.lines)[b := Reached(l, address, s)]
      && (rc, v) == if r.Some? then (0, r.value) else (-1, v0)
  {
    v := v0;
    hw.SelectSlave(b, address);
    var data := hw.SmbusReadByte(b);
    if data < 0 {
      return -1, v0;
    }
    v, rc := data, 0;
  }
}
