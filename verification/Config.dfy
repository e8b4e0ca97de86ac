/** src/parse_config.c: the handler that builds the table of busses and devices from the entries
    of the configuration file, inferring indices from changes of the section name. */
module Config {
  import opened CString
  import opened IniDocument
  import opened IniGrammar
  import opened IoTable
  import opened Numbers
  import opened Options

  const MAX_INI_ENTRY_LEN := 128
  const MAX_PARAM_LEN := 32
  const INI_BUS := "bus"
  const INI_DEV := "device"
  const INI_BUS_TYPE := "bus_type"
  const INI_BUS_TYPE_I2C := "i2c"
  const INI_BUS_PARAM := "bus_parameter"
  const INI_DEV_DRV := "devdrv"
  const INI_DEV_PARAM := "dev_parameter"
  const INI_DRV_PCF8574 := "pcf8574"
  const INI_DRV_PIFACE := "piface"
  const INI_DRV_MCP23017 := "mcp23017"

  /** bus_configs, with the table it points to. */
  datatype Builder = Builder(conf: Conf, lastSection: string, busId: int, devId: int)

  /** The section name differs from the last one, as far as it is compared. */
  predicate Changed(last: string, section: string) {
    Take(last, MAX_INI_ENTRY_LEN) != Take(section, MAX_INI_ENTRY_LEN)
  }

  /** update_user_data */
  function Update(u: Builder, section: string): Builder
  {
    var changed := Changed(u.lastSection, section);
    var busId := if changed && INI_BUS <= section then u.busId + 1 else u.busId;
    var devId := if !changed then u.devId
                 else if INI_BUS <= section then -1
                 else if INI_DEV <= section then u.devId + 1
                 else u.devId;
    Builder(u.conf.(numBusses := if busId >= 0 then busId + 1 else 0), Take(section, MAX_INI_ENTRY_LEN), busId, devId)
  }

  predicate IsDevEntry(name: string) {
    name == INI_DEV_DRV || name == INI_DEV_PARAM
  }

  /** What the code takes for granted about an entry: it belongs to a bus, an entry of a device to
      a device, and both are within the table. */
  predicate Legal(u: Builder, name: string) {
    && 0 <= u.busId < |u.conf.busses|
    && (IsDevEntry(name) ==> 0 <= u.devId < |u.conf.busses[u.busId].devices|)
  }

  function Alloc(h: Heap): (Heap, nat)
  {
    (h.(live := h.live + {h.next}, next := h.next + 1), h.next)
  }

  function PutBus(u: Builder, bus: IoBus): Builder
    requires 0 <= u.busId < |u.conf.busses|
  {
    u.(conf := u.conf.(busses := u.conf.busses[u.busId := bus]))
  }

  function PutDev(u: Builder, dev: IoDev): Builder
    requires 0 <= u.busId < |u.conf.busses| && 0 <= u.devId < |u.conf.busses[u.busId].devices|
  {
    var bus := u.conf.busses[u.busId];
    PutBus(u, bus.(devices := bus.devices[u.devId := dev]))
  }

  /** The driver a name selects; an unknown name leaves the driver as it is. */
  function DriverNamed(value: string, current: Option<Driver>): Option<Driver>
  {
    if value == INI_DRV_PCF8574 then Some(Pcf8574)
    else if value == INI_DRV_PIFACE then Some(Piface)
    else if value == INI_DRV_MCP23017 then Some(Mcp23017)
    else current
  }

  /** process_entries */
  function Process(u: Builder, name: string, value: string): (Builder, bool)
    requires Legal(u, name)
  {
    var bus := u.conf.busses[u.busId];
    if name == INI_BUS_PARAM then
      if bus.i2c then
        var (heap, block) := Alloc(u.conf.heap);
        (PutBus(u.(conf := u.conf.(heap := heap)),
                bus.(busData := Some(BusData(block, Take(value, MAX_PARAM_LEN), -1)))), true)
      else (u, true)
    else if name == INI_BUS_TYPE then
      (if value == INI_BUS_TYPE_I2C then PutBus(u, bus.(i2c := true)) else u, true)
    else if name == INI_DEV_DRV then
      var dev := bus.devices[u.devId];
      var u' := PutDev(u, dev.(driver := DriverNamed(value, dev.driver)));
      (PutBus(u', u'.conf.busses[u.busId].(numDevices := bus.numDevices + 1)), true)
    else if name == INI_DEV_PARAM then
      if bus.i2c then
        var (heap, block) := Alloc(u.conf.heap);
        var dev := bus.devices[u.devId];
        (PutDev(u.(conf := u.conf.(heap := heap)),
                dev.(busData := Some(DevBusData(block, Strtol(value, 16) % 256)))), true)
      else (u, true)
    else (u, false)
  }

  /** parser_handler. What the C code does outside Legal is undefined; here it is a rejection. */
  function Handle(u: Builder, section: string, name: string, value: string): (Builder, bool)
  {
    var u' := Update(u, section);
    if Legal(u', name) then Process(u', name, value) else (u', false)
  }

  /** Every entry is legal when its turn comes. */
  ghost predicate AllLegal(u: Builder, calls: seq<Call>)
    decreases |calls|
  {
    calls != [] ==>
      && Legal(Update(u, calls[0].section), calls[0].name)
      && AllLegal(Handle(u, calls[0].section, calls[0].name, calls[0].value).0, calls[1..])
  }

  /** The handler accepts legal entries only. */
  lemma {:induction false} AcceptedIsLegal(u: Builder, calls: seq<Call>)
    requires Accepts(Handle, calls, u)
    ensures AllLegal(u, calls)
    decreases |calls|
  {
    hide Process, Update;
    if calls != [] {
      AcceptedIsLegal(Handle(u, calls[0].section, calls[0].name, calls[0].value).0, calls[1..]);
    }
  }

  // ---- a configuration file --------------------------------------------------------------------

  /** What ini_parse_file leaves behind when it drives parser_handler over a file. */
  function Parse(conf: Conf, data: string): State<Builder> {
    Run(Handle, Chunks(data), Init(Builder(conf, "", -1, -1)))
  }

  /** The entries of the file, as the handler gets them. */
  function Entries(conf: Conf, data: string): seq<Call> {
    CallsIn(Handle, Chunks(data), Init(Builder(conf, "", -1, -1)))
  }

  /** No entry of the file makes the code leave the table. */
  ghost predicate LegalFile(conf: Conf, data: string) {
    AllLegal(Builder(conf, "", -1, -1), Entries(conf, data))
  }

  lemma {:induction false} ParseIsFeed(conf: Conf, data: string)
    ensures Parse(conf, data).user == Feed(Handle, Entries(conf, data), Builder(conf, "", -1, -1))
  {
    hide Run, CallsIn, Chunks, Handle, Feed;
    RunFeeds(Handle, Chunks(data), Init(Builder(conf, "", -1, -1)));
  }

  // ---- blocks ------------------------------------------------------------------------------------

  function BusBlock(bus: IoBus): Option<nat> {
    if bus.busData.Some? then Some(bus.busData.value.block) else None
  }

  function DevBusBlock(dev: IoDev): Option<nat> {
    if dev.busData.Some? then Some(dev.busData.value.block) else None
  }

  function AsSet(p: Option<nat>): set<nat> {
    if p.Some? then {p.value} else {}
  }

  /** The block that an entry drops: it allocates for a place that already holds a block. */
  function Overwritten(u: Builder, name: string): set<nat>
  {
    if !Legal(u, name) || !u.conf.busses[u.busId].i2c then {}
    else if name == INI_BUS_PARAM then AsSet(BusBlock(u.conf.busses[u.busId]))
    else if name == INI_DEV_PARAM then AsSet(DevBusBlock(u.conf.busses[u.busId].devices[u.devId]))
    else {}
  }

  /** No entry allocates for a place that already holds a block: at most one parameter is stored
      per bus and per device. */
  ghost predicate NeverOverwrites(u: Builder, calls: seq<Call>)
    decreases |calls|
  {
    calls != [] ==>
      && Overwritten(Update(u, calls[0].section), calls[0].name) == {}
      && NeverOverwrites(Handle(u, calls[0].section, calls[0].name, calls[0].value).0, calls[1..])
  }

  // ---- the code ----------------------------------------------------------------------------------

  /** malloc */
  method Malloc(conf: IoConfig) returns (block: nat)
    modifies conf`heap
    ensures (conf.heap, block) == Alloc(old(conf.heap))
  {
    block := conf.heap.next;
    conf.heap := conf.heap.(live := conf.heap.live + {block}, next := block + 1);
  }

  /** get_i2c_linux_bus_data */
  method GetBusData(conf: IoConfig, parameter: string) returns (data: BusData)
    modifies conf`heap
    ensures var (heap, block) := Alloc(old(conf.heap));
      conf.heap == heap && data == BusData(block, Take(parameter, MAX_PARAM_LEN), -1)
  {
    var block := Malloc(conf);
    data := BusData(block, Take(parameter, MAX_PARAM_LEN), -1);
  }

  /** get_i2c_linux_dev_data */
  method GetBusDevData(conf: IoConfig, parameter: string) returns (data: DevBusData)
    modifies conf`heap
    ensures var (heap, block) := Alloc(old(conf.heap));
      conf.heap == heap && data == DevBusData(block, Strtol(parameter, 16) % 256)
  {
    var block := Malloc(conf);
    data := DevBusData(block, Strtol(parameter, 16) % 256);
  }

  /** bus_configs */
  class BusConfigs {
    const config: IoConfig
    var lastSection: string
    var currentBusId: int
    var currentDevId: int

    constructor (config: IoConfig)
      ensures this.config == config && View() == Builder(config.View(), "", -1, -1)
    {
      this.config := config;
      lastSection := "";
      currentBusId, currentDevId := -1, -1;
    }

    ghost function View(): Builder
      reads this, config, config.busses
    {
      Builder(config.View(), lastSection, currentBusId, currentDevId)
    }

    method UpdateUserData(section: string)
      requires currentBusId >= -1
      modifies this, config
      ensures View() == Update(old(View()), section)
    {
      if Take(lastSection, MAX_INI_ENTRY_LEN) != Take(section, MAX_INI_ENTRY_LEN) {
        if INI_BUS <= section {
          currentBusId := currentBusId + 1;
          currentDevId := -1;
        } else if INI_DEV <= section {
          currentDevId := currentDevId + 1;
        }
      }
      lastSection := Take(section, MAX_INI_ENTRY_LEN);
      config.numBusses := currentBusId + 1;
    }

    method ProcessEntries(name: string, value: string) returns (ok: bool)
      requires Legal(View(), name)
      modifies config, config.busses
      ensures (View(), ok) == Process(old(View()), name, value)
    {
      ok := true;
      var b, d := currentBusId, currentDevId;
      if name == INI_BUS_PARAM {
        if config.busses[b].i2c {
          var data := GetBusData(config, value);
          config.busses[b] := config.busses[b].(busData := Some(data));
        }
      } else if name == INI_BUS_TYPE {
        if value == INI_BUS_TYPE_I2C {
          config.busses[b] := config.busses[b].(i2c := true);
        }
      } else if name == INI_DEV_DRV {
        var dev := config.busses[b].devices[d];
        dev := dev.(driver := DriverNamed(value, dev.driver));
        config.busses[b] := config.busses[b].(devices := config.busses[b].devices[d := dev]);
        config.busses[b] := config.busses[b].(numDevices := config.busses[b].numDevices + 1);
      } else if name == INI_DEV_PARAM {
        if config.busses[b].i2c {
          var data := GetBusDevData(config, value);
          var dev := config.busses[b].devices[d].(busData := Some(data));
          config.busses[b] := config.busses[b].(devices := config.busses[b].devices[d := dev]);
        }
      } else {
        ok := false;
      }
    }

    /** parser_handler */
    method ParserHandler(section: string, name: string, value: string) returns (ok: bool)
      requires currentBusId >= -1 && Legal(Update(View(), section), name)
      modifies this, config, config.busses
      ensures (View(), ok) == Handle(old(View()), section, name, value)
    {
      UpdateUserData(section);
      ok := ProcessEntries(name, value);
    }
  }
}
