/** The configuration table of include/io.h. Structs that C embeds are values; a pointer to
    allocated data is a record that carries the number of its heap block. */
module IoTable {
  import opened Bits
  import opened Chips
  import opened Options

  const MAX_BUSSES := 8
  const MAX_IO_DEVICES := 128

  datatype IoState = Unconfigured | Reading | Writing

  datatype Driver = Pcf8574 | Piface | Mcp23017

  /** mcp23017_data */
  datatype McpData = McpData(block: nat, ioState: IoState)

  /** i2c_linux_dev_data */
  datatype DevBusData = DevBusData(block: nat, address: byte)

  /** i2c_linux_bus_data */
  datatype BusData = BusData(block: nat, device: string, fh: int)

  datatype IoDev = IoDev(driver: Option<Driver>, busData: Option<DevBusData>, devData: Option<McpData>)

  /** `i2c` tells whether drv_handle is the I2C bus driver or NULL. */
  datatype IoBus = IoBus(numDevices: nat, devices: seq<IoDev>, i2c: bool, busData: Option<BusData>)

  /** Blocks that are allocated, the next fresh block, and every block freed, in order. */
  datatype Heap = Heap(live: set<nat>, next: nat, freed: seq<nat>)

  datatype Conf = Conf(numBusses: nat, busses: seq<IoBus>, heap: Heap)

  /** Table dimensions: fixed array sizes, and counts within them. */
  ghost predicate Shaped(c: Conf) {
    && c.numBusses <= |c.busses| == MAX_BUSSES
    && forall b :: 0 <= b < MAX_BUSSES ==>
         c.busses[b].numDevices <= |c.busses[b].devices| == MAX_IO_DEVICES
  }

  /** io_config */
  class IoConfig {
    var numBusses: nat
    const busses: array<IoBus>
    var heap: Heap

    constructor (conf: Conf)
      ensures View() == conf && fresh(busses)
    {
      numBusses := conf.numBusses;
      busses := new IoBus[|conf.busses|](i requires 0 <= i < |conf.busses| => conf.busses[i]);
      heap := conf.heap;
    }

    ghost function View(): Conf
      reads this, busses
    {
      Conf(numBusses, busses[..], heap)
    }
  }

  /** The program's state and the hardware around it. */
  datatype World = World(conf: Conf, lines: seq<Line>, spi: Spi)

  ghost function WorldOf(conf: IoConfig, hw: Hardware): World
    reads conf, conf.busses, hw
  {
    World(conf.View(), hw.lines, hw.spi)
  }

  ghost predicate HasDevice(w: World, b: nat, d: nat) {
    && b < |w.conf.busses| == |w.lines|
    && d < |w.conf.busses[b].devices|
  }

  function DevAt(w: World, b: nat, d: nat): IoDev
    requires HasDevice(w, b, d)
  {
    w.conf.busses[b].devices[d]
  }

  /** The pointers that the device's driver follows are set. */
  ghost predicate Ready(dev: IoDev) {
    && dev.driver.Some?
    && (dev.driver.value != Piface ==> dev.busData.Some?)
    && (dev.driver.value == Mcp23017 ==> dev.devData.Some?)
  }

  /** An I2C driver reaches its device through the data of the bus. */
  ghost predicate Attached(bus: IoBus, dev: IoDev) {
    dev.driver == Some(Piface) || bus.busData.Some?
  }

  /** What one device's driver works on: the chip at its address, its cached direction, and the
      PiFace chip. */
  datatype Local = Local(slot: Slot, state: IoState, spi: Spi)

  function LocalOf(w: World, b: nat, d: nat): Local
    requires HasDevice(w, b, d)
  {
    var dev := DevAt(w, b, d);
    Local(if dev.busData.Some? then SlotAt(w.lines[b], dev.busData.value.address) else Absent,
          if dev.devData.Some? then dev.devData.value.ioState else Unconfigured,
          w.spi)
  }

  function WithState(bus: IoBus, d: nat, state: IoState): IoBus
    requires d < |bus.devices| && bus.devices[d].devData.Some?
  {
    var dev := bus.devices[d];
    bus.(devices := bus.devices[d := dev.(devData := Some(dev.devData.value.(ioState := state)))])
  }

  lemma {:induction false} WithStateTwice(bus: IoBus, d: nat, x: IoState, y: IoState)
    requires d < |bus.devices| && bus.devices[d].devData.Some?
    ensures WithState(WithState(bus, d, x), d, y) == WithState(bus, d, y)
  {
    var dev := bus.devices[d];
    var dx := dev.(devData := Some(dev.devData.value.(ioState := x)));
    var dy := dev.(devData := Some(dev.devData.value.(ioState := y)));
    assert bus.devices[d := dx][d := dy] == bus.devices[d := dy];
  }

  lemma {:induction false} WithStateSame(bus: IoBus, d: nat)
    requires d < |bus.devices| && bus.devices[d].devData.Some?
    ensures WithState(bus, d, bus.devices[d].devData.value.ioState) == bus
  {
  }

  /** The world after an operation of the device's driver: nothing else has changed. */
  function PutLocal(w: World, b: nat, d: nat, loc: Local): World
    requires HasDevice(w, b, d) && Ready(DevAt(w, b, d))
  {
    var dev := DevAt(w, b, d);
    match dev.driver.value
    case Piface => w.(spi := loc.spi)
    case Pcf8574 => PutSlotAt(w, b, dev.busData.value.address, loc.slot)
    case Mcp23017 =>
      var w' := PutSlotAt(w, b, dev.busData.value.address, loc.slot);
      w'.(conf := w.conf.(busses := w.conf.busses[b := WithState(w.conf.busses[b], d, loc.state)]))
  }

  function PutSlotAt(w: World, b: nat, address: byte, s: Slot): World
    requires b < |w.lines|
  {
    w.(lines := w.lines[b := PutSlot(w.lines[b].(selected := address), address, s)])
  }

  /** A driver changes no more than this of what it works on. */
  ghost predicate Touches(driver: Driver, before: Local, after: Local) {
    && (before.slot.Present? <==> after.slot.Present?)
    && match driver
       case Piface => after == before.(spi := after.spi)
       case Pcf8574 => after == before.(slot := after.slot)
       case Mcp23017 => after == before.(slot := after.slot, state := after.state)
  }

  lemma {:induction false} TouchesSelf(driver: Driver, loc: Local)
    ensures Touches(driver, loc, loc)
  {
  }

  lemma {:induction false} SlotAfterPut(l: Line, address: byte, s: Slot, t: Slot)
    requires s.Present? <==> address in l.chips
    ensures SlotAt(PutSlot(l, address, s), address) == s
    ensures PutSlot(PutSlot(l, address, s).(selected := address), address, t)
            == PutSlot(l.(selected := address), address, t) || s.Present? != t.Present?
  {
    if s.Present? && t.Present? {
      assert l.chips[address := s.chip][address := t.chip] == l.chips[address := t.chip];
    }
  }

  /** What was put can be read back, and putting again forgets what was put before. */
  lemma {:induction false} PutLocalTwice(w: World, b: nat, d: nat, x: Local, y: Local)
    requires HasDevice(w, b, d) && Ready(DevAt(w, b, d))
    requires Touches(DevAt(w, b, d).driver.value, LocalOf(w, b, d), x)
    requires Touches(DevAt(w, b, d).driver.value, x, y)
    ensures var w' := PutLocal(w, b, d, x);
      && HasDevice(w', b, d) && Ready(DevAt(w', b, d)) && DevAt(w', b, d).driver == DevAt(w, b, d).driver
      && LocalOf(w', b, d) == x && PutLocal(w', b, d, y) == PutLocal(w, b, d, y)
  {
    var dev := DevAt(w, b, d);
    var w', w'' := PutLocal(w, b, d, x), PutLocal(w, b, d, y);
    if dev.driver.value != Piface {
      var a, l := dev.busData.value.address, w.lines[b].(selected := dev.busData.value.address);
      SlotAfterPut(l, a, x.slot, y.slot);
      if dev.driver.value == Mcp23017 {
        WithStateTwice(w.conf.busses[b], d, x.state, y.state);
      }
    }
  }
}
