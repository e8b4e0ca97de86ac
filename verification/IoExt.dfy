/** The configuration file that comes with the program, to the letter, and the keywords it is made
    of. */
module IoExt {
  import opened Config
  import opened ConfigRoundTrip
  import opened ConfigText
  import opened CString
  import opened IniDocument
  import opened IniGrammar
  import opened IniReport
  import opened IoTable
  import opened Numbers
  import opened Options
  import opened Program

  // ---- keywords ------------------------------------------------------------------------------------

  predicate Keyword(name: string) {
    name == "bus_type" || name == "bus_parameter" || name == "devdrv" || name == "dev_parameter"
  }

  /** What the keywords of an entry mean: the names it can have, the one bus type with a driver, and
      the names of the device drivers. Any other name is rejected, any other driver ignored. */
  lemma {:induction false} EntryMeaning(u: Builder, name: string, value: string)
    requires Legal(u, name)
    ensures var (v, ok) := Process(u, name, value);
      var bus, bus' := u.conf.busses[u.busId], v.conf.busses[u.busId];
      && (ok <==> Keyword(name)) && (!ok ==> v == u)
      && (name == "bus_type" ==> bus' == bus.(i2c := bus.i2c || value == "i2c"))
      && (name == "bus_parameter" && bus.i2c ==>
            bus'.busData == Some(BusData(u.conf.heap.next, Take(value, 32), -1)))
      && (name == "devdrv" ==>
            bus'.devices[u.devId].driver ==
              if value == "pcf8574" then Some(Pcf8574)
              else if value == "piface" then Some(Piface)
              else if value == "mcp23017" then Some(Mcp23017)
              else bus.devices[u.devId].driver)
      && (name == "dev_parameter" && bus.i2c ==>
            bus'.devices[u.devId].busData == Some(DevBusData(u.conf.heap.next, Strtol(value, 16) % 256)))
  {
    hide Strtol;
    EntryNames();
  }

  // ---- the file ------------------------------------------------------------------------------------

  function FileLines(): seq<string> {
    ["[" + "bus-0" + "]\n",
     "\n",
     "bus_type" + " = " + "i2c" + "\n",
     "bus_parameter" + " = " + "/dev/i2c-1" + "\n",
     "\n",
     "[" + "device-0" + "]\n",
     "\n",
     "devdrv" + " = " + "pcf8574" + "\n",
     "dev_parameter" + " = " + "0x20" + "\n",
     "\n",
     "[" + "device-1" + "]\n",
     "\n",
     "devdrv" + " = " + "pcf8574" + "\n",
     "dev_parameter" + " = " + "0x38" + "\n",
     "\n",
     "[" + "bus-1" + "]\n",
     "\n",
     "bus_type" + " = " + "piface" + "\n",
     "\n",
     "[" + "device-0" + "]\n",
     "\n",
     "devdrv" + " = " + "piface" + "\n"]
  }

  /** What the file configures: two PCF8574 on an I2C bus, and a PiFace. */
  function FileConfig(): seq<ABus> {
    [ABus(true, Some("/dev/i2c-1"), [ADev(Pcf8574, Some(0x20)), ADev(Pcf8574, Some(0x38))]),
     ABus(false, None, [ADev(Piface, None)])]
  }

  function H(title: string): Line { Heading("", title, "") }

  function Empty(): Line { Blank("") }

  function FileBus0(): seq<Line> {
    [H("bus-0"), Empty(), PlainEntry("bus_type", "i2c"), PlainEntry("bus_parameter", "/dev/i2c-1"), Empty()]
  }

  function FileDev(title: string, address: string): seq<Line> {
    [H(title), Empty(), PlainEntry("devdrv", "pcf8574"), PlainEntry("dev_parameter", address), Empty()]
  }

  function FileBus1(): seq<Line> {
    [H("bus-1"), Empty(), PlainEntry("bus_type", "piface"), Empty()]
  }

  function FileDev2(): seq<Line> {
    [H("device-0"), Empty(), PlainEntry("devdrv", "piface")]
  }

  function FileDoc(): seq<Line> {
    FileBus0() + (FileDev("device-0", "0x20") + (FileDev("device-1", "0x38") + (FileBus1() + FileDev2())))
  }

  lemma {:induction false} Names()
    ensures BusSection(0) == "bus-0" && BusSection(1) == "bus-1"
    ensures DevSection(0) == "device-0" && DevSection(1) == "device-1"
    ensures "0x" + Digits(0x20, 16) == "0x20" && "0x" + Digits(0x38, 16) == "0x38"
  {
    assert Digits(0x20, 16) == Digits(2, 16) + [DigitChar(0)];
    assert Digits(0x38, 16) == Digits(3, 16) + [DigitChar(8)];
  }

  /** The file is the configuration in the program's own style, without the blank line at its end. */
  lemma {:induction false} FileIsPrinted()
    ensures ConfigLines(FileConfig()) == FileDoc() + [Empty()]
  {
    hide Digits, BusSection, DevSection;
    Names();
    var cfg := FileConfig();
    var devs := cfg[0].devs;
    assert devs[..1] == [devs[0]] && [devs[0]][..0] == [];
    assert DevsLines([]) == [];
    assert DevsLines([devs[0]]) == DevsLines([]) + DevLines(0, devs[0]);
    assert DevsLines(devs) == DevsLines([devs[0]]) + DevLines(1, devs[1]);
    assert DevLines(0, devs[0]) == FileDev("device-0", "0x20");
    assert DevLines(1, devs[1]) == FileDev("device-1", "0x38");
    assert BusLines(0, cfg[0]) == FileBus0();
    assert cfg[1].devs[..0] == [];
    assert DevsLines(cfg[1].devs) == DevsLines([]) + DevLines(0, cfg[1].devs[0]);
    assert DevLines(0, cfg[1].devs[0]) == FileDev2() + [Empty()];
    assert BusLines(1, cfg[1]) == FileBus1();
    assert cfg[..1] == [cfg[0]] && [cfg[0]][..0] == [];
    assert ConfigLines([]) == [];
    assert ConfigLines([cfg[0]]) == ConfigLines([]) + SectionLines(0, cfg[0]);
    assert ConfigLines(cfg) == ConfigLines([cfg[0]]) + SectionLines(1, cfg[1]);
  }

  lemma {:induction false} BlankAtEnd(doc: seq<Line>, section: string, prev: string)
    ensures Calls(doc + [Empty()], section, prev) == Calls(doc, section, prev)
    decreases |doc|
  {
    if doc == [] {
      assert doc + [Empty()] == [Empty()];
      BlankCalls(section, prev);
    } else {
      assert (doc + [Empty()])[1..] == doc[1..] + [Empty()];
      match doc[0]
      case Heading(_, title, _) => BlankAtEnd(doc[1..], Take(title, MAX_SECTION - 1), "");
      case Entry(_, name, _, _, _, value, _, _) => BlankAtEnd(doc[1..], section, Take(name, MAX_NAME - 1));
      case More(_, value, _) => BlankAtEnd(doc[1..], section, prev);
      case _ => BlankAtEnd(doc[1..], section, prev);
    }
  }

  lemma {:induction false} FileConfigGood()
    ensures GoodConfig(FileConfig()) && GoodPaths(FileConfig()) && Operational(FileConfig())
  {
    var cfg := FileConfig();
    PathLengths();
    DevicePathsSolid();
    SolidPath("/dev/i2c-1");
    assert GoodBus(cfg[0]) && GoodBus(cfg[1]);
  }

  lemma {:induction false} ChunksOfPart(a: seq<Line>, b: seq<Line>)
    ensures DocChunks(a + b, false) == DocChunks(a, false) + DocChunks(b, false)
    decreases |a|
  {
    hide Print;
    if a == [] {
      assert a + b == b;
    } else {
      assert (a + b)[1..] == a[1..] + b;
      ChunksOfPart(a[1..], b);
    }
  }

  lemma {:induction false} ChunkOfLine(l: Line)
    ensures DocChunks([l], false) == [Print(l) + "\n"]
  {
    hide Print;
    assert [l][1..] == [];
    assert "" + (Print(l) + "\n") == Print(l) + "\n";
  }

  lemma {:induction false} HeadingChunk(title: string, rest: seq<Line>)
    ensures DocChunks([H(title)] + rest, false) == ["[" + title + "]\n"] + DocChunks(rest, false)
  {
    ChunksOfPart([H(title)], rest);
    ChunkOfLine(H(title));
    assert Print(H(title)) + "\n" == "[" + title + "]\n";
  }

  lemma {:induction false} EmptyChunk(rest: seq<Line>)
    ensures DocChunks([Empty()] + rest, false) == ["\n"] + DocChunks(rest, false)
  {
    ChunksOfPart([Empty()], rest);
    ChunkOfLine(Empty());
    assert Print(Empty()) + "\n" == "\n";
  }

  lemma {:induction false} EntryChunk(name: string, value: string, rest: seq<Line>)
    ensures DocChunks([PlainEntry(name, value)] + rest, false)
            == [name + " = " + value + "\n"] + DocChunks(rest, false)
  {
    hide Print;
    ChunksOfPart([PlainEntry(name, value)], rest);
    ChunkOfLine(PlainEntry(name, value));
    EntryLine(name, value);
    assert "" + (Print(PlainEntry(name, value)) + "\n") == Print(PlainEntry(name, value)) + "\n";
  }

  /** A section of the file with two entries. */
  lemma {:induction false} FourLines(title: string, name: string, value: string, name2: string, value2: string)
    ensures DocChunks([H(title), Empty(), PlainEntry(name, value), PlainEntry(name2, value2), Empty()], false)
            == TwoEntries(title, name, value, name2, value2)
  {
    hide DocChunks;
    var l3 := [Empty()] + [];
    var l2 := [PlainEntry(name2, value2)] + l3;
    var l1 := [PlainEntry(name, value)] + l2;
    HeadingChunk(title, [Empty()] + l1);
    EmptyChunk(l1);
    EntryChunk(name, value, l2);
    EntryChunk(name2, value2, l3);
    EmptyChunk([]);
    NoLineChunks();
    assert [H(title), Empty(), PlainEntry(name, value), PlainEntry(name2, value2), Empty()]
           == [H(title)] + ([Empty()] + l1);
  }

  lemma {:induction false} NoLineChunks()
    ensures DocChunks([], false) == []
  {
  }

  /** And with one. */
  lemma {:induction false} ThreeLines(title: string, name: string, value: string, rest: seq<Line>)
    ensures DocChunks([H(title), Empty(), PlainEntry(name, value)] + rest, false)
            == OneEntry(title, name, value) + DocChunks(rest, false)
  {
    hide DocChunks;
    var l1 := [PlainEntry(name, value)] + rest;
    HeadingChunk(title, [Empty()] + l1);
    EmptyChunk(l1);
    EntryChunk(name, value, rest);
    assert [H(title), Empty(), PlainEntry(name, value)] + rest == [H(title)] + ([Empty()] + l1);
  }

  function TwoEntries(title: string, name: string, value: string, name2: string, value2: string): seq<string> {
    ["[" + title + "]\n", "\n", name + " = " + value + "\n", name2 + " = " + value2 + "\n", "\n"]
  }

  function OneEntry(title: string, name: string, value: string): seq<string> {
    ["[" + title + "]\n", "\n", name + " = " + value + "\n"]
  }

  lemma {:induction false} FileLinesJoined()
    ensures FileLines() ==
      TwoEntries("bus-0", "bus_type", "i2c", "bus_parameter", "/dev/i2c-1")
      + (TwoEntries("device-0", "devdrv", "pcf8574", "dev_parameter", "0x20")
         + (TwoEntries("device-1", "devdrv", "pcf8574", "dev_parameter", "0x38")
            + ((OneEntry("bus-1", "bus_type", "piface") + ["\n"]) + OneEntry("device-0", "devdrv", "piface"))))
  {
  }

  lemma {:induction false} FileText()
    ensures DocChunks(FileDoc(), false) == FileLines()
  {
    hide DocChunks, FileLines, TwoEntries, OneEntry;
    FileLinesJoined();
    var d0, d1 := FileDev("device-0", "0x20"), FileDev("device-1", "0x38");
    ChunksOfPart(FileBus0(), d0 + (d1 + (FileBus1() + FileDev2())));
    ChunksOfPart(d0, d1 + (FileBus1() + FileDev2()));
    ChunksOfPart(d1, FileBus1() + FileDev2());
    ChunksOfPart(FileBus1(), FileDev2());
    FourLines("bus-0", "bus_type", "i2c", "bus_parameter", "/dev/i2c-1");
    FourLines("device-0", "devdrv", "pcf8574", "dev_parameter", "0x20");
    FourLines("device-1", "devdrv", "pcf8574", "dev_parameter", "0x38");
    ThreeLines("bus-1", "bus_type", "piface", [Empty()] + []);
    EmptyChunk([]);
    NoLineChunks();
    ThreeLines("device-0", "devdrv", "piface", []);
    assert FileBus1() == [H("bus-1"), Empty(), PlainEntry("bus_type", "piface")] + ([Empty()] + []);
    assert FileDev2() == [H("device-0"), Empty(), PlainEntry("devdrv", "piface")] + [];
  }

  /** Parsing the file reports no error and builds two busses: one at /dev/i2c-1 with a PCF8574 at
      0x20 and one at 0x38, and one with a PiFace. */
  lemma {:induction false} FileParsed(conf: Conf)
    requires FreshTable(conf)
    ensures var end := Parse(conf, Flatten(FileLines()));
      end.error == 0 && IsConfig(end.user.conf, FileConfig()) && Operational(FileConfig())
  {
    hide DocChunks, FileDoc, FileConfig, FileLines, ConfigLines, Calls, ConfigCalls, GoodConfig, GoodPaths, Operational;
    hide AllGood, FreshTable, IsConfig, Parse, GoodFrom, Flatten;
    var doc := FileDoc();
    FileConfigGood();
    FileIsPrinted();
    ConfigTextCalls(FileConfig());
    BlankAtEnd(doc, "", "");
    AllGoodFront(doc, [Empty()]);
    AllGoodFrom(doc, "");
    ShortChunks(doc);
    FirstOfFile();
    HeadingNoBom(doc[0]);
    FileText();
    ConfigurationRoundTrip(FileConfig(), doc, false, conf);
  }

  lemma {:induction false} AllGoodFront(a: seq<Line>, b: seq<Line>)
    requires AllGood(a + b)
    ensures AllGood(a)
  {
    forall k | 0 <= k < |a|
      ensures GoodAnywhere(a[k])
    {
      assert (a + b)[k] == a[k];
    }
  }

  lemma {:induction false} FirstOfFile()
    ensures FileDoc() != [] && FileDoc()[0] == H("bus-0")
  {
  }
}
