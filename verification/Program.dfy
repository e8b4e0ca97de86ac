/** The program from start to shutdown: parse the configuration, initialise, serve requests,
    release everything. */
module Program {
  import opened Caches
  import opened Chips
  import opened Config
  import opened ConfigInvariants
  import opened ConfigRoundTrip
  import opened ConfigText
  import opened IniDocument
  import opened IoRequests
  import opened IoTable
  import opened Lifecycle
  import opened Options
  import opened Runs
  import opened Uri

  /** The blocks of the program's life, for every file that keeps within the table and names a device
      file for every I2C bus, malformed lines and repeated parameters included. */
  lemma {:induction false} OwnershipOfFile(c0: Conf, data: string, handles: string -> int, v: World, reqs: seq<Request>)
    requires FreshTable(c0) && c0.heap.live == {} && c0.heap.freed == [] && LegalFile(c0, data)
    requires var c1 := Parse(c0, data).user.conf;
      Shaped(c1) && Openable(c1) && v.conf == IoInit(c1, handles) && AllServable(v, reqs)
    ensures Shaped(Run(v, reqs).0.conf)
    ensures var lost := Lost(Builder(c0, "", -1, -1), Entries(c0, data));
      && Settled(ConfDeinit(IoDeinit(Run(v, reqs).0.conf)), lost, c0.heap.next)
      && (lost == {} <==> OneParameterEach(Entries(c0, data)))
  {
    hide Handle, Feed, Lost, FreshTable, Shaped, IoInit, IoDeinit, ConfDeinit, AllServable, Parse, Entries, Settled;
    hide OneParameterEach, AllLegal, Openable;
    ParseIsFeed(c0, data);
    Ownership(c0, Entries(c0, data), handles, v, reqs);
  }

  // ---- a file that loses a block -------------------------------------------------------------------

  /** One bus with two device files. */
  function TwoFiles(): seq<IniDocument.Line> {
    [Heading("", BusSection(0), ""), PlainEntry(INI_BUS_TYPE, INI_BUS_TYPE_I2C),
     PlainEntry(INI_BUS_PARAM, "/dev/i2c-1"), PlainEntry(INI_BUS_PARAM, "/dev/i2c-2")]
  }

  lemma {:induction false} TwoFilesCalls()
    ensures Calls(TwoFiles(), "", "") ==
      [Call(BusSection(0), INI_BUS_TYPE, INI_BUS_TYPE_I2C), Call(BusSection(0), INI_BUS_PARAM, "/dev/i2c-1"),
       Call(BusSection(0), INI_BUS_PARAM, "/dev/i2c-2")]
  {
    hide BusSection, Calls;
    var s, type0 := BusSection(0), PlainEntry(INI_BUS_TYPE, INI_BUS_TYPE_I2C);
    var one, two := PlainEntry(INI_BUS_PARAM, "/dev/i2c-1"), PlainEntry(INI_BUS_PARAM, "/dev/i2c-2");
    SectionNames(0, 0);
    NoLines(s, INI_BUS_PARAM);
    OneMoreEntry(INI_BUS_PARAM, "/dev/i2c-2", [], s, INI_BUS_PARAM);
    OneMoreEntry(INI_BUS_PARAM, "/dev/i2c-1", [two] + [], s, INI_BUS_TYPE);
    OneMoreEntry(INI_BUS_TYPE, INI_BUS_TYPE_I2C, [one] + ([two] + []), s, "");
    HeadingFirst(s, [type0] + ([one] + ([two] + [])));
    assert TwoFiles() == [Heading("", s, "")] + ([type0] + ([one] + ([two] + [])));
  }

  lemma {:induction false} NoLines(section: string, prev: string)
    ensures Calls([], section, prev) == []
  {
  }

  lemma {:induction false} TwoFilesGood()
    ensures GoodDocument(TwoFiles(), false)
  {
    hide GoodAnywhere, GoodFrom, DocChunks;
    var doc := TwoFiles();
    SectionNames(0, 0);
    EntryNamesSolid();
    SolidDigits("bus-", 0, 10);
    DigitsNotBracket("bus-", 0);
    HeadingGood(BusSection(0));
    SolidPath(INI_BUS_TYPE_I2C);
    EntryGood(INI_BUS_TYPE, INI_BUS_TYPE_I2C);
    DevicePathsSolid();
    SolidPath("/dev/i2c-1");
    SolidPath("/dev/i2c-2");
    EntryGood(INI_BUS_PARAM, "/dev/i2c-1");
    EntryGood(INI_BUS_PARAM, "/dev/i2c-2");
    assert AllGood(doc);
    AllGoodFrom(doc, "");
    ShortChunks(doc);
    HeadingNoBom(doc[0]);
  }

  lemma {:induction false} DevicePathsSolid()
    ensures Solid("/dev/i2c-1") && Solid("/dev/i2c-2")
  {
  }

  /** The lines of that file. */
  lemma {:induction false} TwoFilesText()
    ensures DocChunks(TwoFiles(), false) ==
      ["[bus-0]" + "\n", "bus_type" + " = " + "i2c" + "\n", "bus_parameter" + " = " + "/dev/i2c-1" + "\n",
       "bus_parameter" + " = " + "/dev/i2c-2" + "\n"]
  {
    hide Print;
    var doc := TwoFiles();
    HeadingText();
    EntryLine("bus_type", "i2c");
    EntryLine("bus_parameter", "/dev/i2c-1");
    EntryLine("bus_parameter", "/dev/i2c-2");
    assert doc[1..][0] == doc[1] && doc[1..][1..] == doc[2..];
    assert doc[2..][0] == doc[2] && doc[2..][1..] == doc[3..];
    assert doc[3..][0] == doc[3] && doc[3..][1..] == [];
  }

  lemma {:induction false} HeadingText()
    ensures "" + (Print(Heading("", BusSection(0), "")) + "\n") == "[bus-0]" + "\n"
  {
  }

  lemma {:induction false} EntryLine(name: string, value: string)
    ensures "" + (Print(PlainEntry(name, value)) + "\n") == name + " = " + value + "\n"
  {
    assert " " + (['='] + (" " + (value + ("" + "")))) == " = " + value;
    assert Print(PlainEntry(name, value)) == name + (" = " + value);
  }

  /** The program can start with the file, and a block is still allocated when it has released
      everything it knows of. */
  ghost predicate Leaks(c0: Conf, data: string, handles: string -> int) {
    var c1 := Parse(c0, data).user.conf;
    Shaped(c1) && Openable(c1) && ConfDeinit(IoDeinit(IoInit(c1, handles))).heap.live != {}
  }

  /** The builder behind the first three lines, and what the fourth does to it. */
  lemma {:induction false} SecondFileStored(u: Builder) returns (w: Builder)
    requires FreshTable(u.conf) && u == Builder(u.conf, "", -1, -1)
    ensures var calls := Calls(TwoFiles(), "", "");
      && AllLegal(u, calls) && Feed(Handle, calls, u) == w && !NeverOverwrites(u, calls)
    ensures Shaped(w.conf) && Openable(w.conf)
  {
    hide Process, Update, Changed, BusSection, Calls, AllLegal, Feed, NeverOverwrites, Accepts;
    TwoFilesCalls();
    var s, cfg := BusSection(0), [ABus(true, Some("/dev/i2c-1"), [])];
    var front, c := BusCalls(0, cfg[0]), Call(s, INI_BUS_PARAM, "/dev/i2c-2");
    assert Calls(TwoFiles(), "", "") == front + [c];
    SectionNames(0, 0);
    assert cfg[..0] == [];
    PathLengths();
    var v := BusEntries(u, cfg, 0);
    assert IsBus(v.conf.busses[0], cfg[0].(devs := cfg[0].devs[..0]));
    SameSection(v, s);
    BusPathEntry(v, "/dev/i2c-2");
    w := Handle(v, s, INI_BUS_PARAM, "/dev/i2c-2").0;
    FeedSnoc(Handle, front, c, u);
    AcceptedIsLegal(u, front);
    EntryNames();
    LegalSnoc(front, c, u);
    NeverSnoc(u, front, c);
    assert BusBlock(v.conf.busses[0]).value in Overwritten(v, INI_BUS_PARAM);
    OneBusShaped(v.conf, cfg, w.conf);
  }

  lemma {:induction false} PathLengths()
    ensures |"/dev/i2c-1"| < MAX_PARAM_LEN && |"/dev/i2c-2"| < MAX_PARAM_LEN
  {
  }

  lemma {:induction false} OneBusShaped(c: Conf, cfg: seq<ABus>, e: Conf)
    requires |cfg| == 1 && Around(c, cfg, 0) && e.numBusses == 1 && |e.busses| == MAX_BUSSES
    requires |e.busses[0].devices| == MAX_IO_DEVICES && e.busses[0].numDevices == 0 && e.busses[0].busData.Some?
    requires forall b :: 0 < b < MAX_BUSSES ==> e.busses[b] == c.busses[b]
    ensures Shaped(e) && Openable(e)
  {
    assert forall b :: 0 < b < MAX_BUSSES ==> IsEmptyBus(e.busses[b]);
  }

  /** Both paths are stored, and only the second is freed. */
  lemma {:induction false} SecondFileLeaks(c0: Conf, handles: string -> int)
    requires FreshTable(c0) && c0.heap.live == {} && c0.heap.freed == []
    ensures LegalFile(c0, Text(TwoFiles(), false)) && Leaks(c0, Text(TwoFiles(), false), handles)
  {
    hide FreshTable, Shaped, Openable, IoInit, IoDeinit, ConfDeinit, Parse, Entries, AllLegal, Calls, TwoFiles;
    hide NeverOverwrites, OneParameterEach, Lost, GoodDocument, Text, Feed, Handle, IsConfig;
    var u, data := Builder(c0, "", -1, -1), Text(TwoFiles(), false);
    var calls := Calls(TwoFiles(), "", "");
    TwoFilesGood();
    FileEntries(c0, TwoFiles());
    ParseIsFeed(c0, data);
    var w := SecondFileStored(u);
    OneParameterLosesNothing(u, calls);
    var v := World(IoInit(w.conf, handles), [], Spi(0, 0, 0, 0, 0, 0, 0, _ => 0));
    NoRequests(v);
    OwnershipOfFile(c0, data, handles, v, []);
  }

  lemma {:induction false} FileEntries(c0: Conf, doc: seq<IniDocument.Line>)
    requires GoodDocument(doc, false)
    ensures Entries(c0, Text(doc, false)) == Calls(doc, "", "")
  {
    hide GoodDocument, Text, Calls, CallsIn;
    DocumentRoundTrip(Handle, doc, false, Builder(c0, "", -1, -1));
  }

  lemma {:induction false} NoRequests(v: World)
    ensures AllServable(v, []) && Run(v, []).0 == v
  {
  }

  /** Every I2C bus has a device file; every device on an I2C chip has an address, and no two MCP23017
      of a bus have the same. */
  ghost predicate Operational(cfg: seq<ABus>) {
    && (forall b :: 0 <= b < |cfg| && cfg[b].i2c ==> cfg[b].path.Some?)
    && (forall b, d :: 0 <= b < |cfg| && 0 <= d < |cfg[b].devs| ==>
          cfg[b].devs[d].driver != Piface ==> cfg[b].devs[d].address.Some?)
    && (forall b, d, e :: 0 <= b < |cfg| && 0 <= d < e < |cfg[b].devs|
          && cfg[b].devs[d].driver == Mcp23017 && cfg[b].devs[e].driver == Mcp23017
          ==> cfg[b].devs[d].address != cfg[b].devs[e].address)
  }

  /** What the code takes for granted about the numbers in a request. */
  ghost predicate GoodNumbers(q: Request) {
    && q.data.bus >= -1 && q.data.dev >= -1 && Int32Data(q.data)
    && (q.cmd == CmdWrite ==> -1 <= q.data.sub < 31)
  }

  /** The table that io_init has made of a parsed configuration. */
  ghost predicate InitialisedFrom(c1: Conf, c2: Conf) {
    && SameParsed(c1, c2)
    && forall b: nat, d: nat :: InRange(c1, b, d) ==>
         if b < c1.numBusses && d < c1.busses[b].numDevices && IsMcpDev(c1, b, d) then IsFreshData(DataAt(c2, b, d))
         else DataAt(c2, b, d) == None
  }

  /** Entry (b, d) of the table is the configured device, or empty. */
  lemma {:induction false} EntryOf(cfg: seq<ABus>, c1: Conf, b: nat, d: nat)
    requires GoodConfig(cfg) && IsConfig(c1, cfg) && InRange(c1, b, d)
    ensures b < MAX_BUSSES && d < MAX_IO_DEVICES
    ensures |c1.busses| == MAX_BUSSES && |c1.busses[b].devices| == MAX_IO_DEVICES
    ensures if b < |cfg| && d < |cfg[b].devs|
            then IsDev(c1.busses[b].devices[d], cfg[b].devs[d]) && c1.busses[b].numDevices == |cfg[b].devs|
            else c1.busses[b].devices[d] == NoDev
  {
    if b < |cfg| {
      assert IsBus(c1.busses[b], cfg[b]);
    } else {
      assert IsEmptyBus(c1.busses[b]);
    }
  }

  lemma {:induction false} ConfigShaped(cfg: seq<ABus>, c1: Conf)
    requires GoodConfig(cfg) && IsConfig(c1, cfg)
    ensures Shaped(c1)
  {
    forall b | 0 <= b < MAX_BUSSES
      ensures c1.busses[b].numDevices <= |c1.busses[b].devices| == MAX_IO_DEVICES
    {
      if b < |cfg| {
        assert IsBus(c1.busses[b], cfg[b]);
      } else {
        assert IsEmptyBus(c1.busses[b]);
      }
    }
  }

  lemma {:induction false} DeviceReady(cfg: seq<ABus>, c1: Conf, c2: Conf, b: nat, d: nat)
    requires GoodConfig(cfg) && Operational(cfg) && IsConfig(c1, cfg) && InitialisedFrom(c1, c2)
    requires b < |cfg| && d < |cfg[b].devs| && InRange(c1, b, d)
    ensures InRange(c2, b, d) && Ready(c2.busses[b].devices[d])
    ensures Attached(c2.busses[b], c2.busses[b].devices[d])
  {
    EntryOf(cfg, c1, b, d);
    assert IsBus(c1.busses[b], cfg[b]) && GoodBus(cfg[b]) && GoodDev(cfg[b], cfg[b].devs[d]);
    assert BusBlock(c2.busses[b]) == BusBlock(c1.busses[b]);
    assert IsDev(c1.busses[b].devices[d], cfg[b].devs[d]);
    assert IsMcpDev(c1, b, d) ==> IsFreshData(DataAt(c2, b, d));
  }

  /** Every request with acceptable numbers can be served by the initialised table. */
  lemma {:induction false} TableServes(cfg: seq<ABus>, c1: Conf, w: World, q: Request)
    requires GoodConfig(cfg) && Operational(cfg) && IsConfig(c1, cfg) && InitialisedFrom(c1, w.conf)
    requires |w.lines| == MAX_BUSSES && GoodNumbers(q)
    ensures Servable(w, q.data, q.cmd)
  {
    hide Operational, GoodConfig, Ready, Attached;
    ConfigShaped(cfg, c1);
    ShapedKept(c1, w.conf);
    if InTable(w, q.data) {
      var b, d := q.data.bus, q.data.dev;
      assert IsBus(c1.busses[b], cfg[b]);
      assert InRange(c1, b, d);
      DeviceReady(cfg, c1, w.conf, b, d);
    }
  }

  lemma {:induction false} TableDistinct(cfg: seq<ABus>, c1: Conf, w: World)
    requires GoodConfig(cfg) && Operational(cfg) && IsConfig(c1, cfg) && InitialisedFrom(c1, w.conf)
    ensures NoSharedChip(w)
  {
    forall b: nat, d: nat, e: nat | Caching(w, b, d) && Caching(w, b, e) && d < e
      ensures !Sharing(w, b, d, e) && !Sharing(w, b, e, d)
    {
      assert InRange(c1, b, d) && InRange(c1, b, e);
      EntryOf(cfg, c1, b, d);
      EntryOf(cfg, c1, b, e);
      assert cfg[b].devs[d].address != cfg[b].devs[e].address;
    }
  }

  lemma {:induction false} TableTruthful(cfg: seq<ABus>, c1: Conf, w: World)
    requires InitialisedFrom(c1, w.conf)
    ensures TruthfulWorld(w)
  {
    forall b: nat, d: nat | Caching(w, b, d)
      ensures TruthfulAt(w, b, d)
    {
      assert InRange(c1, b, d);
      assert DataAt(w.conf, b, d) == None || IsFreshData(DataAt(w.conf, b, d));
    }
  }

  /** From the text of an operational configuration, in whatever layout, to shutdown: parsing
      reports no error; every request with acceptable numbers can be served; in every state the
      cached directions are those of the chips; and in the end every block that was allocated has
      been freed exactly once. */
  lemma {:induction false} WholeProgram(cfg: seq<ABus>, doc: seq<IniDocument.Line>, bom: bool, c0: Conf,
                                        handles: string -> int, lines: seq<Chips.Line>, spi: Spi, reqs: seq<Request>)
    requires GoodConfig(cfg) && Operational(cfg)
    requires GoodDocument(doc, bom) && Calls(doc, "", "") == ConfigCalls(cfg)
    requires FreshTable(c0) && c0.heap.live == {} && c0.heap.freed == []
    requires |lines| == MAX_BUSSES && forall k :: 0 <= k < |reqs| ==> GoodNumbers(reqs[k])
    ensures var parsed := Parse(c0, Text(doc, bom));
      && parsed.error == 0 && IsConfig(parsed.user.conf, cfg) && Shaped(parsed.user.conf)
      && var w := World(IoInit(parsed.user.conf, handles), lines, spi);
         && AllServable(w, reqs) && TruthfulWorld(Run(w, reqs).0) && Shaped(Run(w, reqs).0.conf)
         && SameParsed(parsed.user.conf, Run(w, reqs).0.conf)
         && Settled(ConfDeinit(IoDeinit(Run(w, reqs).0.conf)), {}, c0.heap.next)
  {
    hide GoodConfig, Operational, GoodDocument, Calls, ConfigCalls, FreshTable, IsConfig, Shaped, Servable;
    hide TruthfulWorld, IoDeinit, ConfDeinit, Settled, Openable, AllLegal, SameParsed, Entries, OneParameterEach;
    hide Handle, Feed, Lost, NeverOverwrites, InitialisedFrom, GoodNumbers, NoSharedChip, Parse;
    var u := Builder(c0, "", -1, -1);
    ConfigurationRoundTrip(cfg, doc, bom, c0);
    var c1 := Parse(c0, Text(doc, bom)).user.conf;
    ConfigShaped(cfg, c1);
    var calls := Calls(doc, "", "");
    NothingLost(u, calls);
    SameParsedReflexive(c1);
    OperationalOpens(cfg, c1, c1);
    Initialised(c0, calls, handles);
    var w := World(IoInit(c1, handles), lines, spi);
    forall k | 0 <= k < |reqs|
      ensures Servable(w, reqs[k].data, reqs[k].cmd)
    {
      TableServes(cfg, c1, w, reqs[k]);
    }
    TableDistinct(cfg, c1, w);
    TableTruthful(cfg, c1, w);
    AlwaysTruthful(w, reqs);
    Ownership(c0, calls, handles, w, reqs);
    StaysParsed(c1, w, reqs);
  }

  lemma {:induction false} StaysParsed(c1: Conf, w: World, reqs: seq<Request>)
    requires InitialisedFrom(c1, w.conf) && AllServable(w, reqs)
    ensures SameParsed(c1, Run(w, reqs).0.conf)
  {
    hide Run, SameTable, AllServable, SameParsed;
    RunKeepsTable(w, reqs);
    RequestsParsed(w, Run(w, reqs).0);
    SameParsedJoin(c1, w.conf, Run(w, reqs).0.conf);
  }

  /** The busses of an operational configuration can be opened, and closed after any requests. */
  lemma {:induction false} OperationalOpens(cfg: seq<ABus>, c1: Conf, c: Conf)
    requires GoodConfig(cfg) && Operational(cfg) && IsConfig(c1, cfg) && SameParsed(c1, c)
    ensures Openable(c)
  {
    forall b | 0 <= b < c.numBusses && b < |c.busses| && c.busses[b].i2c
      ensures c.busses[b].busData.Some?
    {
      assert IsBus(c1.busses[b], cfg[b]);
      assert BusBlock(c.busses[b]) == BusBlock(c1.busses[b]);
    }
  }

  lemma {:induction false} SameParsedReflexive(c: Conf)
    ensures SameParsed(c, c)
  {
  }

  lemma {:induction false} Initialised(c0: Conf, calls: seq<Call>, handles: string -> int)
    requires FreshTable(c0) && c0.heap.live == {} && c0.heap.freed == []
    requires AllLegal(Builder(c0, "", -1, -1), calls)
    requires Shaped(Feed(Handle, calls, Builder(c0, "", -1, -1)).conf)
    ensures var c1 := Feed(Handle, calls, Builder(c0, "", -1, -1)).conf;
      InitialisedFrom(c1, IoInit(c1, handles))
  {
    hide Accounted, Parsed, Lost, InitBusses, Handle, FreshTable;
    var u, base := Builder(c0, "", -1, -1), c0.heap.next;
    FreshAccounted(c0);
    ParseAccounted(u, calls, {}, base);
    var c1 := Feed(Handle, calls, u).conf;
    ParsedNoData(c1);
    InitBussesAccounted(c1, c1.numBusses, handles, {} + Lost(u, calls), base);
  }
}
