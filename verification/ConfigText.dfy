/** The text of a configuration in the style of config/io_ext.ini, and the program's parse of it. */
module ConfigText {
  import opened Bits
  import opened CString
  import opened Config
  import opened ConfigRoundTrip
  import opened IniDocument
  import opened IniGrammar
  import opened IniParser
  import opened IoTable
  import opened Numbers

  // ---- printing ----------------------------------------------------------------------------------

  function PlainEntry(name: string, value: string): Line {
    Entry("", name, " ", '=', " ", value, "", "")
  }

  function DevLines(d: nat, dev: ADev): seq<Line>
  {
    [Heading("", DevSection(d), ""), Blank(""), PlainEntry(INI_DEV_DRV, DriverName(dev.driver))]
    + (if dev.address.Some? then [PlainEntry(INI_DEV_PARAM, "0x" + Digits(dev.address.value, 16))] else [])
    + [Blank("")]
  }

  function DevsLines(devs: seq<ADev>): seq<Line>
  {
    if devs == [] then []
    else DevsLines(devs[..|devs| - 1]) + DevLines(|devs| - 1, devs[|devs| - 1])
  }

  function BusLines(b: nat, bus: ABus): seq<Line>
  {
    [Heading("", BusSection(b), ""), Blank(""), PlainEntry(INI_BUS_TYPE, BusType(bus))]
    + (if bus.path.Some? then [PlainEntry(INI_BUS_PARAM, bus.path.value)] else [])
    + [Blank("")]
  }

  function SectionLines(b: nat, bus: ABus): seq<Line> {
    BusLines(b, bus) + DevsLines(bus.devs)
  }

  function ConfigLines(cfg: seq<ABus>): seq<Line>
  {
    if cfg == [] then []
    else
      var b := |cfg| - 1;
      ConfigLines(cfg[..b]) + SectionLines(b, cfg[b])
  }

  /** A device path can stand in an INI file. */
  ghost predicate GoodPath(p: string) {
    Trimmed(p) && Plain(p) && Clean(p, NUL)
  }

  ghost predicate GoodPaths(cfg: seq<ABus>) {
    forall b :: 0 <= b < |cfg| && cfg[b].path.Some? ==> GoodPath(cfg[b].path.value)
  }

  // ---- the printed lines are good, whatever is pending ----------------------------------------------

  ghost predicate GoodAnywhere(l: Line) {
    l.indent == "" && !l.More? && Good(l, "") && |Print(l)| < 100
  }

  ghost predicate AllGood(doc: seq<Line>) {
    forall k :: 0 <= k < |doc| ==> GoodAnywhere(doc[k])
  }

  lemma {:induction false} AllGoodJoin(a: seq<Line>, b: seq<Line>)
    requires AllGood(a) && AllGood(b)
    ensures AllGood(a + b)
  {
  }

  lemma {:induction false} AllGoodFrom(doc: seq<Line>, prev: string)
    requires AllGood(doc)
    ensures GoodFrom(doc, prev)
    decreases |doc|
  {
    hide Print;
    if doc != [] {
      assert GoodAnywhere(doc[0]);
      GoodAfter(doc[0], prev);
      AllGoodFrom(doc[1..], NextPrev(doc[0], prev));
    }
  }

  lemma {:induction false} GoodAfter(l: Line, prev: string)
    requires GoodAnywhere(l)
    ensures Good(l, prev)
  {
    hide Print, GoodEntry;
  }

  lemma {:induction false} ShortChunks(doc: seq<Line>)
    requires AllGood(doc)
    ensures forall k :: 0 <= k < |DocChunks(doc, false)| ==> |DocChunks(doc, false)[k]| < MAX_LINE
    decreases |doc|
  {
    hide Print, Good;
    if doc != [] {
      assert GoodAnywhere(doc[0]);
      ShortChunks(doc[1..]);
      var cs := DocChunks(doc, false);
      assert forall k :: 0 < k < |cs| ==> cs[k] == DocChunks(doc[1..], false)[k - 1];
    }
  }

  /** Characters that need no care: no whitespace, no NUL, no comment mark. */
  ghost predicate Solid(t: string) {
    forall k :: 0 <= k < |t| ==> !IsSpace(t[k]) && t[k] != NUL && t[k] != ';'
  }

  lemma {:induction false} SolidIsGood(t: string, c: char)
    requires Solid(t) && (c == NUL || forall k :: 0 <= k < |t| ==> t[k] != c)
    ensures Trimmed(t) && Plain(t) && Clean(t, c)
  {
  }

  lemma {:induction false} SolidDigits(prefix: string, n: nat, base: Base)
    requires Solid(prefix)
    ensures Solid(prefix + Digits(n, base))
  {
    DigitsRoundTrip(n, base);
    var s := Digits(n, base);
    assert forall k :: 0 <= k < |s| ==> IsDigit(s[k], base);
  }

  lemma {:induction false} PlainJoin(a: string, b: string)
    requires Plain(a) && Plain(b)
    ensures Plain(a + b)
  {
  }

  lemma {:induction false} BlankGood()
    ensures GoodAnywhere(Blank(""))
  {
  }

  lemma {:induction false} HeadingGood(title: string)
    requires Solid(title) && |title| < MAX_SECTION && forall k :: 0 <= k < |title| ==> title[k] != ']'
    ensures GoodAnywhere(Heading("", title, ""))
  {
    hide Clean, Solid, Plain;
    SolidIsGood(title, ']');
    PlainMarks();
    PlainJoin(title, "]" + "");
    PlainJoin("[", title + ("]" + ""));
    assert Print(Heading("", title, "")) == "[" + (title + ("]" + ""));
  }

  lemma {:induction false} PlainMarks()
    ensures Plain("[") && Plain("]" + "") && Plain(" ") && Plain(['='])
  {
  }

  lemma {:induction false} EntryGood(name: string, value: string)
    requires name != "" && Solid(name) && |name| < 20 && name[0] != '[' && name[0] != '#'
    requires forall k :: 0 <= k < |name| ==> name[k] != '='
    requires GoodPath(value) && |value| < MAX_PARAM_LEN
    ensures GoodAnywhere(PlainEntry(name, value))
  {
    hide Clean, Plain;
    SolidIsGood(name, '=');
    PlainMarks();
    FirstIsSolid(name);
    var rest := value + ("" + "");
    assert rest == value;
    PlainJoin(" ", rest);
    PlainJoin(['='], " " + rest);
    PlainJoin(" ", ['='] + (" " + rest));
    PlainJoin(name, " " + (['='] + (" " + rest)));
    assert Print(PlainEntry(name, value)) == name + (" " + (['='] + (" " + rest)));
  }

  lemma {:induction false} FirstIsSolid(t: string)
    requires t != "" && Solid(t)
    ensures t[0] != ';'
  {
  }

  lemma {:induction false} EntryNamesSolid()
    ensures Solid(INI_BUS_TYPE) && Solid(INI_BUS_PARAM) && Solid(INI_DEV_DRV) && Solid(INI_DEV_PARAM)
    ensures Solid(INI_BUS_TYPE_I2C) && Solid("piface")
    ensures Solid(INI_DRV_PCF8574) && Solid(INI_DRV_PIFACE) && Solid(INI_DRV_MCP23017)
    ensures Solid("bus-") && Solid("device-") && Solid("0x")
  {
  }

  lemma {:induction false} SolidPath(v: string)
    requires Solid(v)
    ensures GoodPath(v)
  {
    SolidIsGood(v, NUL);
  }

  lemma {:induction false} DigitsNotBracket(prefix: string, n: nat)
    requires forall k :: 0 <= k < |prefix| ==> prefix[k] != ']'
    ensures forall k :: 0 <= k < |prefix + Digits(n, 10)| ==> (prefix + Digits(n, 10))[k] != ']'
  {
    DigitsRoundTrip(n, 10);
    var s := Digits(n, 10);
    assert forall k :: 0 <= k < |s| ==> IsDigit(s[k], 10);
  }

  lemma {:induction false} DevLinesGood(d: nat, dev: ADev)
    requires d < 1000
    ensures AllGood(DevLines(d, dev)) && DevLines(d, dev)[0].Heading?
  {
    hide GoodAnywhere, Digits, Solid, GoodPath;
    EntryNamesSolid();
    SectionNames(0, d);
    SolidDigits("device-", d, 10);
    DigitsNotBracket("device-", d);
    HeadingGood(DevSection(d));
    BlankGood();
    SolidPath(DriverName(dev.driver));
    EntryGood(INI_DEV_DRV, DriverName(dev.driver));
    if dev.address.Some? {
      SolidDigits("0x", dev.address.value, 16);
      SolidPath("0x" + Digits(dev.address.value, 16));
      ByteDigits(dev.address.value);
      EntryGood(INI_DEV_PARAM, "0x" + Digits(dev.address.value, 16));
    }
  }

  lemma {:induction false} ByteDigits(a: byte)
    ensures |Digits(a, 16)| <= 2
  {
    assert Pow(16, 2) == 256;
    DigitsLength(a, 16, 2);
  }

  lemma {:induction false} BusLinesGood(b: nat, bus: ABus)
    requires b < 1000 && GoodBus(bus) && (bus.path.Some? ==> GoodPath(bus.path.value))
    ensures AllGood(BusLines(b, bus)) && BusLines(b, bus) != [] && BusLines(b, bus)[0].Heading?
  {
    hide GoodAnywhere, Digits, Solid, GoodPath, GoodDev;
    EntryNamesSolid();
    SectionNames(b, 0);
    SolidDigits("bus-", b, 10);
    DigitsNotBracket("bus-", b);
    HeadingGood(BusSection(b));
    BlankGood();
    var kind := BusType(bus);
    SolidPath(kind);
    EntryGood(INI_BUS_TYPE, kind);
    if bus.path.Some? {
      EntryGood(INI_BUS_PARAM, bus.path.value);
    }
  }

  // ---- the printed lines stand for the entries ----------------------------------------------------------

  lemma {:induction false} CallsJoin(a: seq<Line>, b: seq<Line>, section: string, prev: string)
    requires b == [] || b[0].Heading?
    ensures Calls(a + b, section, prev) == Calls(a, section, prev) + Calls(b, "", "")
    decreases |a|
  {
    if a == [] {
      assert a + b == b;
    } else {
      assert (a + b)[1..] == a[1..] + b;
      match a[0]
      case Heading(_, title, _) => CallsJoin(a[1..], b, Take(title, MAX_SECTION - 1), "");
      case Entry(_, name, _, _, _, value, _, _) => CallsJoin(a[1..], b, section, Take(name, MAX_NAME - 1));
      case More(_, value, _) => CallsJoin(a[1..], b, section, prev);
      case _ => CallsJoin(a[1..], b, section, prev);
    }
  }

  lemma {:induction false} BlankCalls(section: string, prev: string)
    ensures Calls([Blank("")], section, prev) == []
  {
    assert [Blank("")][1..] == [];
    assert Calls([], section, prev) == [];
  }

  /** A section with a blank line, one or two entries and a blank line. */
  lemma {:induction false} SectionCalls(title: string, name: string, value: string,
                                        second: bool, name2: string, value2: string)
    requires |title| < MAX_SECTION && |name| < MAX_NAME && |name2| < MAX_NAME
    ensures Calls([Heading("", title, ""), Blank(""), PlainEntry(name, value)]
                  + (if second then [PlainEntry(name2, value2)] else []) + [Blank("")], "", "")
            == [Call(title, name, value)] + (if second then [Call(title, name2, value2)] else [])
  {
    hide Calls;
    TakeShort(title, MAX_SECTION - 1);
    var last := [Blank("")];
    var more := if second then [PlainEntry(name2, value2)] else [];
    BlankCalls(title, name);
    BlankCalls(title, name2);
    if second {
      OneMoreEntry(name2, value2, last, title, name);
    } else {
      assert more + last == last;
    }
    OneMoreEntry(name, value, more + last, title, "");
    BlankFirst([PlainEntry(name, value)] + (more + last), title, "");
    HeadingFirst(title, [Blank("")] + ([PlainEntry(name, value)] + (more + last)));
    assert [Heading("", title, ""), Blank(""), PlainEntry(name, value)] + more + last
           == [Heading("", title, "")] + ([Blank("")] + ([PlainEntry(name, value)] + (more + last)));
  }

  lemma {:induction false} OneMoreEntry(name: string, value: string, rest: seq<Line>, section: string, prev: string)
    requires |name| < MAX_NAME
    ensures Calls([PlainEntry(name, value)] + rest, section, prev)
            == [Call(section, name, value)] + Calls(rest, section, name)
  {
    TakeShort(name, MAX_NAME - 1);
    assert ([PlainEntry(name, value)] + rest)[1..] == rest;
  }

  lemma {:induction false} BlankFirst(rest: seq<Line>, section: string, prev: string)
    ensures Calls([Blank("")] + rest, section, prev) == Calls(rest, section, prev)
  {
    assert ([Blank("")] + rest)[1..] == rest;
  }

  lemma {:induction false} HeadingFirst(title: string, rest: seq<Line>)
    requires |title| < MAX_SECTION
    ensures Calls([Heading("", title, "")] + rest, "", "") == Calls(rest, title, "")
  {
    TakeShort(title, MAX_SECTION - 1);
    assert ([Heading("", title, "")] + rest)[1..] == rest;
  }

  lemma {:induction false} DevsText(devs: seq<ADev>)
    requires |devs| <= MAX_IO_DEVICES
    ensures AllGood(DevsLines(devs)) && (DevsLines(devs) == [] || DevsLines(devs)[0].Heading?)
    ensures Calls(DevsLines(devs), "", "") == DevsCalls(devs)
    decreases |devs|
  {
    hide AllGood, DevLines, DevCalls, DevSection;
    if devs == [] {
      assert AllGood([]) by { NothingGood(); }
    } else {
      var d := |devs| - 1;
      DevsText(devs[..d]);
      DevLinesGood(d, devs[d]);
      DevText(d, devs[d]);
      AllGoodJoin(DevsLines(devs[..d]), DevLines(d, devs[d]));
      CallsJoin(DevsLines(devs[..d]), DevLines(d, devs[d]), "", "");
    }
  }

  lemma {:induction false} NothingGood()
    ensures AllGood([])
  {
  }

  lemma {:induction false} NoCalls()
    ensures Calls([], "", "") == []
  {
  }

  lemma {:induction false} DevText(d: nat, dev: ADev)
    requires d < 1000
    ensures Calls(DevLines(d, dev), "", "") == DevCalls(d, dev)
  {
    hide Calls, Digits, DevSection;
    SectionNames(0, d);
    SectionCalls(DevSection(d), INI_DEV_DRV, DriverName(dev.driver), dev.address.Some?, INI_DEV_PARAM,
                 if dev.address.Some? then "0x" + Digits(dev.address.value, 16) else "");
  }

  lemma {:induction false} BusText(b: nat, bus: ABus)
    requires b < 1000
    ensures Calls(BusLines(b, bus), "", "") == BusCalls(b, bus)
  {
    hide Calls, Digits, BusSection;
    SectionNames(b, 0);
    SectionCalls(BusSection(b), INI_BUS_TYPE, BusType(bus), bus.path.Some?, INI_BUS_PARAM,
                 if bus.path.Some? then bus.path.value else "");
  }

  lemma {:induction false} ConfigTextCalls(cfg: seq<ABus>)
    requires GoodConfig(cfg) && GoodPaths(cfg)
    ensures AllGood(ConfigLines(cfg)) && (ConfigLines(cfg) == [] || ConfigLines(cfg)[0].Heading?)
    ensures Calls(ConfigLines(cfg), "", "") == ConfigCalls(cfg)
    decreases |cfg|
  {
    hide AllGood, BusBlock, BusCalls, DevsCalls, BusSection, GoodBus, GoodPath, Calls;
    if cfg == [] {
      NothingGood();
      NoCalls();
    } else {
      var b := |cfg| - 1;
      assert GoodBus(cfg[b]);
      ConfigTextCalls(cfg[..b]);
      BusBlockText(b, cfg[b]);
      AllGoodJoin(ConfigLines(cfg[..b]), SectionLines(b, cfg[b]));
      CallsJoin(ConfigLines(cfg[..b]), SectionLines(b, cfg[b]), "", "");
      assert ConfigCalls(cfg) == ConfigCalls(cfg[..b]) + (BusCalls(b, cfg[b]) + DevsCalls(cfg[b].devs));
    }
  }

  lemma {:induction false} BusBlockText(b: nat, bus: ABus)
    requires b < 1000 && GoodBus(bus) && (bus.path.Some? ==> GoodPath(bus.path.value))
    ensures AllGood(SectionLines(b, bus)) && SectionLines(b, bus) != [] && SectionLines(b, bus)[0].Heading?
    ensures Calls(SectionLines(b, bus), "", "") == BusCalls(b, bus) + DevsCalls(bus.devs)
  {
    hide AllGood, BusLines, BusCalls, DevsLines, DevsCalls, BusSection, GoodBus, GoodPath, Calls;
    BusLinesGood(b, bus);
    GoodBusDevs(bus);
    DevsText(bus.devs);
    BusText(b, bus);
    AllGoodJoin(BusLines(b, bus), DevsLines(bus.devs));
    CallsJoin(BusLines(b, bus), DevsLines(bus.devs), "", "");
  }

  lemma {:induction false} GoodBusDevs(bus: ABus)
    requires GoodBus(bus)
    ensures |bus.devs| <= MAX_IO_DEVICES
  {
  }

  /** Printing a configuration in the style of config/io_ext.ini and parsing the text gives the
      configuration back, without an error. */
  lemma {:induction false} PrintedConfiguration(cfg: seq<ABus>, conf: Conf)
    requires GoodConfig(cfg) && GoodPaths(cfg) && FreshTable(conf)
    ensures var end := Parse(conf, Text(ConfigLines(cfg), false));
      end.error == 0 && IsConfig(end.user.conf, cfg)
  {
    hide Run, Chunks, Handle, Calls, ConfigCalls, ConfigLines, AllGood, GoodConfig, GoodPaths, FreshTable;
    hide DocChunks, GoodFrom;
    var doc := ConfigLines(cfg);
    ConfigTextCalls(cfg);
    AllGoodFrom(doc, "");
    ShortChunks(doc);
    if doc != [] {
      HeadingNoBom(doc[0]) by { FirstGood(doc); }
    }
    ConfigurationRoundTrip(cfg, doc, false, conf);
  }

  lemma {:induction false} FirstGood(doc: seq<Line>)
    requires AllGood(doc) && doc != []
    ensures doc[0].indent == ""
  {
    assert GoodAnywhere(doc[0]);
  }

  lemma {:induction false} HeadingNoBom(l: Line)
    requires l.Heading? && l.indent == ""
    ensures !(BOM <= Print(l) + "\n")
  {
    assert (Print(l) + "\n")[0] == '[' && BOM[0] == '\U{EF}';
  }

  // ---- parse_config ---------------------------------------------------------------------------------------

  lemma {:induction false} RunKeepsTableSize(chunks: seq<string>, st: State<Builder>)
    ensures |Run(Handle, chunks, st).user.conf.busses| == |st.user.conf.busses|
    decreases |chunks|
  {
    hide Handle, ItemOf;
    if chunks != [] {
      StepKeepsTableSize(st, chunks[0]);
      RunKeepsTableSize(chunks[1..], Step(Handle, st, chunks[0]));
    }
  }

  lemma {:induction false} StepKeepsTableSize(st: State<Builder>, chunk: string)
    ensures |Step(Handle, st, chunk).user.conf.busses| == |st.user.conf.busses|
  {
    hide Handle, ItemOf;
    forall name, value {
      HandleKeepsTableSize(st.user, st.section, name, value);
    }
  }

  lemma {:induction false} HandleKeepsTableSize(u: Builder, section: string, name: string, value: string)
    ensures |Handle(u, section, name, value).0.conf.busses| == |u.conf.busses|
  {
    hide Strtol, DriverNamed;
  }

  /** parse_config: the exit code reports only a file that cannot be opened; the table is what the
      handler builds from the file, even if entries were rejected. */
  method ParseConfig(file: File?, conf: IoConfig) returns (rc: int)
    requires file != null ==> file.Valid() && LegalFile(conf.View(), file.Rest())
    modifies conf, conf.busses, if file != null then {file} else {}
    ensures rc == if file == null then 1 else 0
    ensures file == null ==> conf.View() == old(conf.View())
    ensures file != null ==>
      conf.View() == Parse(old(conf.View()), old(file.Rest())).user.conf
  {
    hide Run, Chunks, Handle, LegalFile;
    if file == null {
      return 1;
    }
    var user := Builder(Conf(conf.numBusses, conf.busses[..], conf.heap), "", -1, -1);
    RunKeepsTableSize(Chunks(file.Rest()), Init(user));
    var error, end := ParseFile(file, Handle, user);
    StoreTable(conf, end.conf);
    rc := 0;
  }

  method StoreTable(conf: IoConfig, table: Conf)
    requires |table.busses| == conf.busses.Length
    modifies conf, conf.busses
    ensures conf.View() == table
  {
    conf.numBusses, conf.heap := table.numBusses, table.heap;
    for i := 0 to conf.busses.Length
      invariant forall k :: 0 <= k < i ==> conf.busses[k] == table.busses[k]
      invariant conf.numBusses == table.numBusses && conf.heap == table.heap
    {
      conf.busses[i] := table.busses[i];
    }
  }
}
