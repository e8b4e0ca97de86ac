/** Round trip through both layers: the INI text of a configuration, whatever its layout, parses
    to exactly that configuration. */
module ConfigRoundTrip {
  import opened Bits
  import opened CString
  import opened Config
  import opened IniDocument
  import opened IniGrammar
  import opened IoTable
  import opened Numbers
  import opened Options

  datatype ADev = ADev(driver: Driver, address: Option<byte>)

  datatype ABus = ABus(i2c: bool, path: Option<string>, devs: seq<ADev>)

  function DriverName(d: Driver): string {
    match d
    case Pcf8574 => INI_DRV_PCF8574
    case Piface => INI_DRV_PIFACE
    case Mcp23017 => INI_DRV_MCP23017
  }

  function BusSection(b: nat): string { "bus-" + Digits(b, 10) }

  function DevSection(d: nat): string { "device-" + Digits(d, 10) }

  // ---- the entries of a configuration, in the style of config/io_ext.ini ------------------------

  function DevCalls(d: nat, dev: ADev): seq<Call>
  {
    [Call(DevSection(d), INI_DEV_DRV, DriverName(dev.driver))]
    + (if dev.address.Some? then [Call(DevSection(d), INI_DEV_PARAM, "0x" + Digits(dev.address.value, 16))] else [])
  }

  function DevsCalls(devs: seq<ADev>): seq<Call>
  {
    if devs == [] then []
    else DevsCalls(devs[..|devs| - 1]) + DevCalls(|devs| - 1, devs[|devs| - 1])
  }

  function BusType(bus: ABus): string {
    if bus.i2c then INI_BUS_TYPE_I2C else "piface"
  }

  function BusCalls(b: nat, bus: ABus): seq<Call>
  {
    [Call(BusSection(b), INI_BUS_TYPE, BusType(bus))]
    + (if bus.path.Some? then [Call(BusSection(b), INI_BUS_PARAM, bus.path.value)] else [])
  }

  function ConfigCalls(cfg: seq<ABus>): seq<Call>
  {
    if cfg == [] then []
    else
      var b := |cfg| - 1;
      ConfigCalls(cfg[..b]) + BusCalls(b, cfg[b]) + DevsCalls(cfg[b].devs)
  }

  ghost predicate GoodDev(bus: ABus, dev: ADev) {
    dev.address.Some? ==> bus.i2c
  }

  ghost predicate GoodBus(bus: ABus) {
    && (bus.path.Some? ==> bus.i2c && |bus.path.value| < MAX_PARAM_LEN)
    && |bus.devs| <= MAX_IO_DEVICES
    && forall d :: 0 <= d < |bus.devs| ==> GoodDev(bus, bus.devs[d])
  }

  ghost predicate GoodConfig(cfg: seq<ABus>) {
    |cfg| <= MAX_BUSSES && forall b :: 0 <= b < |cfg| ==> GoodBus(cfg[b])
  }

  // ---- what the table must say -------------------------------------------------------------------

  const NoDev := IoDev(None, None, None)

  ghost predicate IsDev(io: IoDev, dev: ADev) {
    && io.driver == Some(dev.driver) && io.devData == None
    && match dev.address
       case None => io.busData == None
       case Some(a) => io.busData.Some? && io.busData.value.address == a
  }

  ghost predicate IsBus(io: IoBus, bus: ABus) {
    && io.i2c == bus.i2c && io.numDevices == |bus.devs| <= |io.devices| == MAX_IO_DEVICES
    && (match bus.path
        case None => io.busData == None
        case Some(p) => io.busData.Some? && io.busData.value.device == p)
    && (forall d :: 0 <= d < |bus.devs| ==> IsDev(io.devices[d], bus.devs[d]))
    && (forall d :: |bus.devs| <= d < MAX_IO_DEVICES ==> io.devices[d] == NoDev)
  }

  ghost predicate IsEmptyBus(io: IoBus) {
    && !io.i2c && io.numDevices == 0 && io.busData == None && |io.devices| == MAX_IO_DEVICES
    && forall d :: 0 <= d < MAX_IO_DEVICES ==> io.devices[d] == NoDev
  }

  /** The table holds exactly these busses, and nothing else. */
  ghost predicate IsConfig(conf: Conf, cfg: seq<ABus>) {
    && conf.numBusses == |cfg| <= |conf.busses| == MAX_BUSSES
    && (forall b :: 0 <= b < |cfg| ==> IsBus(conf.busses[b], cfg[b]))
    && (forall b :: |cfg| <= b < MAX_BUSSES ==> IsEmptyBus(conf.busses[b]))
  }

  // ---- section names --------------------------------------------------------------------------------

  lemma {:induction false} DigitsShort(n: nat)
    requires n < 1000
    ensures |Digits(n, 10)| <= 3
  {
    assert Pow(10, 3) == 1000;
    DigitsLength(n, 10, 3);
  }

  lemma {:induction false} DigitsDiffer(m: nat, n: nat)
    requires m != n
    ensures Digits(m, 10) != Digits(n, 10)
  {
    DigitsRoundTrip(m, 10);
    DigitsRoundTrip(n, 10);
  }

  lemma {:induction false} SectionNames(b: nat, d: nat)
    requires b < 1000 && d < 1000
    ensures INI_BUS <= BusSection(b) && |BusSection(b)| < MAX_SECTION
    ensures INI_DEV <= DevSection(d) && !(INI_BUS <= DevSection(d)) && |DevSection(d)| < MAX_SECTION
    ensures BusSection(b) != DevSection(d) && BusSection(b) != "" && DevSection(d) != ""
  {
    hide Digits;
    DigitsShort(b);
    DigitsShort(d);
    assert BusSection(b)[0] == 'b' && DevSection(d)[0] == 'd';
  }

  lemma {:induction false} SectionsDiffer(m: nat, n: nat)
    requires m != n
    ensures BusSection(m) != BusSection(n) && DevSection(m) != DevSection(n)
  {
    hide Digits;
    DigitsDiffer(m, n);
    assert BusSection(m)[4..] == Digits(m, 10) && BusSection(n)[4..] == Digits(n, 10);
    assert DevSection(m)[7..] == Digits(m, 10) && DevSection(n)[7..] == Digits(n, 10);
  }

  lemma {:induction false} ShortChanged(s: string, t: string)
    requires |s| < MAX_SECTION && |t| < MAX_SECTION
    ensures Changed(s, t) <==> s != t
    ensures Take(t, MAX_INI_ENTRY_LEN) == t
  {
  }

  lemma {:induction false} EntryNames()
    ensures INI_BUS_PARAM != INI_BUS_TYPE && INI_BUS_PARAM != INI_DEV_DRV && INI_BUS_PARAM != INI_DEV_PARAM
    ensures INI_BUS_TYPE != INI_DEV_DRV && INI_BUS_TYPE != INI_DEV_PARAM && INI_DEV_DRV != INI_DEV_PARAM
    ensures "piface" != INI_BUS_TYPE_I2C
    ensures INI_DRV_PCF8574 != INI_DRV_PIFACE && INI_DRV_PCF8574 != INI_DRV_MCP23017
    ensures INI_DRV_PIFACE != INI_DRV_MCP23017
  {
    assert INI_BUS_PARAM[0] == 'b' && INI_DEV_PARAM[0] == 'd';
  }

  lemma {:induction false} HexAddress(a: byte)
    ensures Strtol("0x" + Digits(a, 16), 16) % 256 == a
  {
    hide Digits, Value, DigitRun, LTrim;
    var s := Digits(a, 16);
    var t := "0x" + s;
    DigitsRoundTrip(a, 16);
    assert t[2..] == s && IsDigit(s[0], 16) && t[2] == s[0];
    LTrimNoop(t);
    SuffixDigits(s, t, 16, 2);
    RunOfDigits(t, 16, 2);
    assert t[2..|t|] == s;
    assert Prefix(t, 16, 0) == 2;
  }

  // ---- running the handler -------------------------------------------------------------------------

  /** The entries take the builder from u to v; all are accepted and none drops a block. */
  ghost predicate Leads(u: Builder, calls: seq<Call>, v: Builder) {
    Feed(Handle, calls, u) == v && Accepts(Handle, calls, u) && NeverOverwrites(u, calls)
  }

  lemma {:induction false} LeadsJoin(u: Builder, a: seq<Call>, v: Builder, b: seq<Call>, w: Builder)
    requires Leads(u, a, v) && Leads(v, b, w)
    ensures Leads(u, a + b, w)
    decreases |a|
  {
    hide Handle;
    if a == [] {
      assert a + b == b;
    } else {
      assert (a + b)[1..] == a[1..] + b;
      LeadsJoin(Handle(u, a[0].section, a[0].name, a[0].value).0, a[1..], v, b, w);
    }
  }

  lemma {:induction false} LeadsOne(u: Builder, c: Call)
    requires Handle(u, c.section, c.name, c.value).1 && Overwritten(Update(u, c.section), c.name) == {}
    ensures Leads(u, [c], Handle(u, c.section, c.name, c.value).0)
  {
    hide Handle, Overwritten;
    var v := Handle(u, c.section, c.name, c.value).0;
    assert [c][1..] == [];
    assert Feed(Handle, [], v) == v && Accepts(Handle, [], v) && NeverOverwrites(v, []);
    assert Feed(Handle, [c], u) == Feed(Handle, [], v);
  }

  /** Around bus b, the earlier busses are complete and the later ones untouched. */
  ghost predicate Around(conf: Conf, cfg: seq<ABus>, b: nat)
    requires b < |cfg|
  {
    && |cfg| <= |conf.busses| == MAX_BUSSES && conf.numBusses == b + 1
    && (forall k :: 0 <= k < b ==> IsBus(conf.busses[k], cfg[k]))
    && (forall k :: b < k < MAX_BUSSES ==> IsEmptyBus(conf.busses[k]))
  }

  /** The first b busses are complete. */
  ghost predicate DoneBusses(u: Builder, cfg: seq<ABus>, b: nat)
    requires b <= |cfg|
  {
    && IsConfig(u.conf, cfg[..b]) && u.busId == b - 1
    && |u.lastSection| < MAX_SECTION && u.lastSection != BusSection(b)
  }

  /** Within bus b, the first j devices are complete. */
  ghost predicate DoneDevs(u: Builder, cfg: seq<ABus>, b: nat, j: nat)
    requires b < |cfg| && j <= |cfg[b].devs|
  {
    && Around(u.conf, cfg, b) && u.busId == b && u.devId == j - 1
    && IsBus(u.conf.busses[b], cfg[b].(devs := cfg[b].devs[..j]))
    && u.lastSection == if j == 0 then BusSection(b) else DevSection(j - 1)
  }

  lemma {:induction false} BusStarts(u: Builder, cfg: seq<ABus>, b: nat)
    requires GoodConfig(cfg) && b < |cfg| && DoneBusses(u, cfg, b)
    ensures var v := Update(u, BusSection(b));
      && v == Builder(u.conf.(numBusses := b + 1), BusSection(b), b, -1)
      && Around(v.conf, cfg, b) && IsEmptyBus(v.conf.busses[b])
  {
    SectionNames(b, 0);
    ShortChanged(u.lastSection, BusSection(b));
    assert forall k :: 0 <= k < b ==> cfg[..b][k] == cfg[k];
  }

  lemma {:induction false} SameSection(u: Builder, section: string)
    requires u.lastSection == section && |section| < MAX_SECTION && u.busId >= 0 && u.conf.numBusses == u.busId + 1
    ensures Update(u, section) == u
  {
  }

  lemma {:induction false} BusTypeEntry(u: Builder, v: string)
    requires 0 <= u.busId < |u.conf.busses|
    ensures var bus := u.conf.busses[u.busId];
      Process(u, INI_BUS_TYPE, v) == (if v == INI_BUS_TYPE_I2C then PutBus(u, bus.(i2c := true)) else u, true)
  {
    EntryNames();
  }

  lemma {:induction false} BusPathEntry(u: Builder, path: string)
    requires 0 <= u.busId < |u.conf.busses| && u.conf.busses[u.busId].i2c && |path| < MAX_PARAM_LEN
    ensures var bus := u.conf.busses[u.busId];
      var h := Alloc(u.conf.heap);
      Process(u, INI_BUS_PARAM, path) ==
        (PutBus(u.(conf := u.conf.(heap := h.0)), bus.(busData := Some(BusData(h.1, path, -1)))), true)
  {
  }

  /** The entries of a bus section. */
  lemma {:induction false} BusEntries(u: Builder, cfg: seq<ABus>, b: nat) returns (v: Builder)
    requires GoodConfig(cfg) && b < |cfg| && DoneBusses(u, cfg, b)
    ensures Leads(u, BusCalls(b, cfg[b]), v) && DoneDevs(v, cfg, b, 0)
  {
    hide Process, Update, Changed, Leads;
    var bus, s := cfg[b], BusSection(b);
    assert GoodBus(bus);
    SectionNames(b, 0);
    EntryNames();
    BusStarts(u, cfg, b);
    var u1 := Update(u, s);
    var kind := BusType(bus);
    BusTypeEntry(u1, kind);
    LeadsOne(u, Call(s, INI_BUS_TYPE, kind));
    v := Handle(u, s, INI_BUS_TYPE, kind).0;
    assert BusCalls(b, bus) == [Call(s, INI_BUS_TYPE, kind)]
           + (if bus.path.Some? then [Call(s, INI_BUS_PARAM, bus.path.value)] else []);
    if bus.path.Some? {
      var v1 := v;
      SameSection(v1, s);
      BusPathEntry(v1, bus.path.value);
      var c := Call(s, INI_BUS_PARAM, bus.path.value);
      LeadsOne(v1, c);
      v := Handle(v1, s, INI_BUS_PARAM, bus.path.value).0;
      LeadsJoin(u, [Call(s, INI_BUS_TYPE, kind)], v1, [c], v);
    } else {
      assert BusCalls(b, bus) == [Call(s, INI_BUS_TYPE, kind)];
    }
  }

  lemma {:induction false} DevStarts(u: Builder, cfg: seq<ABus>, b: nat, j: nat)
    requires GoodConfig(cfg) && b < |cfg| && j < |cfg[b].devs| && DoneDevs(u, cfg, b, j)
    ensures Update(u, DevSection(j)) == u.(lastSection := DevSection(j), devId := j)
  {
    hide DevSection, BusSection, Changed;
    assert GoodBus(cfg[b]);
    SectionNames(b, j);
    if j > 0 {
      SectionNames(b, j - 1);
      SectionsDiffer(j, j - 1);
    }
    ShortChanged(u.lastSection, DevSection(j));
  }

  lemma {:induction false} DriverEntry(u: Builder, d: Driver)
    requires 0 <= u.busId < |u.conf.busses| && 0 <= u.devId < |u.conf.busses[u.busId].devices|
    ensures var bus := u.conf.busses[u.busId];
      var dev := bus.devices[u.devId];
      Process(u, INI_DEV_DRV, DriverName(d)) ==
        (PutBus(u, bus.(devices := bus.devices[u.devId := dev.(driver := Some(d))],
                        numDevices := bus.numDevices + 1)), true)
  {
    EntryNames();
    var bus := u.conf.busses[u.busId];
    var dev := bus.devices[u.devId].(driver := Some(d));
    var bus1 := bus.(devices := bus.devices[u.devId := dev]);
    var bus2 := bus1.(numDevices := bus.numDevices + 1);
    assert u.conf.busses[u.busId := bus1][u.busId := bus2] == u.conf.busses[u.busId := bus2];
  }

  lemma {:induction false} AddressEntry(u: Builder, a: byte)
    requires 0 <= u.busId < |u.conf.busses| && 0 <= u.devId < |u.conf.busses[u.busId].devices|
    requires u.conf.busses[u.busId].i2c
    ensures var bus := u.conf.busses[u.busId];
      var dev := bus.devices[u.devId];
      var h := Alloc(u.conf.heap);
      Process(u, INI_DEV_PARAM, "0x" + Digits(a, 16)) ==
        (PutBus(u.(conf := u.conf.(heap := h.0)),
                bus.(devices := bus.devices[u.devId := dev.(busData := Some(DevBusData(h.1, a)))])), true)
  {
    hide Strtol, Digits;
    EntryNames();
    HexAddress(a);
  }

  lemma {:induction false} OneMoreDev(io: IoBus, bus: ABus, j: nat, io': IoBus)
    requires j < |bus.devs| <= MAX_IO_DEVICES && IsBus(io, bus.(devs := bus.devs[..j]))
    requires io' == io.(devices := io'.devices, numDevices := j + 1)
    requires |io'.devices| == MAX_IO_DEVICES && io'.devices == io.devices[j := io'.devices[j]]
    requires IsDev(io'.devices[j], bus.devs[j])
    ensures IsBus(io', bus.(devs := bus.devs[..j + 1]))
  {
    forall d | 0 <= d < j + 1
      ensures IsDev(io'.devices[d], bus.devs[..j + 1][d])
    {
      assert d < j ==> bus.devs[..j + 1][d] == bus.devs[..j][d];
    }
  }

  /** The entries of a device section. */
  lemma {:induction false} DevEntries(u: Builder, cfg: seq<ABus>, b: nat, j: nat) returns (v: Builder)
    requires GoodConfig(cfg) && b < |cfg| && j < |cfg[b].devs| && DoneDevs(u, cfg, b, j)
    ensures Leads(u, DevCalls(j, cfg[b].devs[j]), v) && DoneDevs(v, cfg, b, j + 1)
  {
    hide Process, Update, Changed, Leads, DevSection, BusSection, DriverName;
    var dev, s := cfg[b].devs[j], DevSection(j);
    assert GoodBus(cfg[b]) && GoodDev(cfg[b], dev);
    SectionNames(b, j);
    EntryNames();
    DevStarts(u, cfg, b, j);
    var u1 := Update(u, s);
    var bus := u.conf.busses[b];
    assert bus.devices[j] == NoDev;
    DriverEntry(u1, dev.driver);
    var c := Call(s, INI_DEV_DRV, DriverName(dev.driver));
    LeadsOne(u, c);
    v := Handle(u, s, INI_DEV_DRV, DriverName(dev.driver)).0;
    if dev.address.Some? {
      var v1 := v;
      SameSection(v1, s);
      AddressEntry(v1, dev.address.value);
      var e := Call(s, INI_DEV_PARAM, "0x" + Digits(dev.address.value, 16));
      LeadsOne(v1, e);
      v := Handle(v1, e.section, e.name, e.value).0;
      LeadsJoin(u, [c], v1, [e], v);
      assert DevCalls(j, dev) == [c] + [e];
    } else {
      assert DevCalls(j, dev) == [c];
    }
    OneMoreDev(bus, cfg[b], j, v.conf.busses[b]);
  }

  lemma {:induction false} DevsEntries(u: Builder, cfg: seq<ABus>, b: nat, j: nat) returns (v: Builder)
    requires GoodConfig(cfg) && b < |cfg| && j <= |cfg[b].devs| && DoneDevs(u, cfg, b, 0)
    ensures Leads(u, DevsCalls(cfg[b].devs[..j]), v) && DoneDevs(v, cfg, b, j)
    decreases j
  {
    hide DoneDevs, GoodConfig, Handle, DevCalls;
    if j == 0 {
      v := u;
    } else {
      var devs := cfg[b].devs[..j];
      assert devs[..j - 1] == cfg[b].devs[..j - 1];
      var mid := DevsEntries(u, cfg, b, j - 1);
      v := DevEntries(mid, cfg, b, j - 1);
      LeadsJoin(u, DevsCalls(devs[..j - 1]), mid, DevCalls(j - 1, devs[j - 1]), v);
    }
  }

  lemma {:induction false} BusCompleted(u: Builder, cfg: seq<ABus>, b: nat)
    requires GoodConfig(cfg) && b < |cfg| && DoneDevs(u, cfg, b, |cfg[b].devs|)
    ensures DoneBusses(u, cfg, b + 1)
  {
    hide BusSection, DevSection;
    assert GoodBus(cfg[b]);
    var n := |cfg[b].devs|;
    assert cfg[b].(devs := cfg[b].devs[..n]) == cfg[b];
    assert forall k :: 0 <= k < b + 1 ==> cfg[..b + 1][k] == cfg[k];
    SectionNames(b, 0);
    SectionsDiffer(b, b + 1);
    SectionNames(b + 1, if n == 0 then 0 else n - 1);
  }

  lemma {:induction false} BussesEntries(u: Builder, cfg: seq<ABus>, b: nat) returns (v: Builder)
    requires GoodConfig(cfg) && b <= |cfg| && DoneBusses(u, cfg, 0)
    ensures Leads(u, ConfigCalls(cfg[..b]), v) && DoneBusses(v, cfg, b)
    decreases b
  {
    hide DoneBusses, DoneDevs, GoodConfig, Handle, BusCalls;
    if b == 0 {
      v := u;
    } else {
      var front := cfg[..b];
      assert front[..b - 1] == cfg[..b - 1];
      var done := BussesEntries(u, cfg, b - 1);
      var started := BusEntries(done, cfg, b - 1);
      var n := |cfg[b - 1].devs|;
      assert cfg[b - 1].devs[..n] == cfg[b - 1].devs;
      v := DevsEntries(started, cfg, b - 1, n);
      BusCompleted(v, cfg, b - 1);
      LeadsJoin(u, ConfigCalls(front[..b - 1]), done, BusCalls(b - 1, cfg[b - 1]), started);
      LeadsJoin(u, ConfigCalls(front[..b - 1]) + BusCalls(b - 1, cfg[b - 1]), started, DevsCalls(cfg[b - 1].devs), v);
    }
  }

  ghost predicate FreshTable(conf: Conf) {
    conf.numBusses == 0 && |conf.busses| == MAX_BUSSES && forall b :: 0 <= b < MAX_BUSSES ==> IsEmptyBus(conf.busses[b])
  }

  /** The round trip through both layers: for every configuration, and every well-formed document
      with its entries in whatever layout, parsing the text reports no error and builds exactly
      that configuration. */
  lemma {:induction false} ConfigurationRoundTrip(cfg: seq<ABus>, doc: seq<Line>, bom: bool, conf: Conf)
    requires GoodConfig(cfg) && GoodDocument(doc, bom) && Calls(doc, "", "") == ConfigCalls(cfg)
    requires FreshTable(conf)
    ensures var end := Parse(conf, Text(doc, bom));
      && end.error == 0 && IsConfig(end.user.conf, cfg)
      && end.user == Feed(Handle, Calls(doc, "", ""), Builder(conf, "", -1, -1))
    ensures Entries(conf, Text(doc, bom)) == Calls(doc, "", "") && LegalFile(conf, Text(doc, bom))
    ensures NeverOverwrites(Builder(conf, "", -1, -1), Calls(doc, "", ""))
  {
    hide Run, Chunks, GoodDocument, Handle, Calls, ConfigCalls, NeverOverwrites, CallsIn, AllLegal;
    var u := Builder(conf, "", -1, -1);
    SectionNames(0, 0);
    DocumentRoundTrip(Handle, doc, bom, u);
    assert cfg[..0] == [] && cfg[..|cfg|] == cfg;
    var v := BussesEntries(u, cfg, |cfg|);
    AcceptedIsLegal(u, Calls(doc, "", ""));
  }
}
