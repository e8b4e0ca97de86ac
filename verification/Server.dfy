/** The program as code: src/main.c without its daemon, from start-up through any requests to the
    signal that ends it. */
module Server {
  import opened Bits
  import opened Caches
  import opened Chips
  import opened CString
  import opened Config
  import opened ConfigRoundTrip
  import opened ConfigText
  import opened Http
  import opened IniDocument
  import opened IniParser
  import opened IoRequests
  import opened IoTable
  import opened Json
  import opened Lifecycle
  import opened LifecycleCode
  import opened Options
  import opened Program
  import opened Runs
  import opened Uri

  // ---- requests as they arrive -----------------------------------------------------------------

  function Meaning(uri: string): (RequestType, Data) {
    PathMeaning(Tokens(uri, '/'))
  }

  /** A URI that the code can take, standing for a request with acceptable numbers or for none. */
  ghost predicate GoodUri(uri: string) {
    var (t, data) := Meaning(uri);
    Parsable(uri) && NoNul(uri) && (t != RequestErr ==> GoodNumbers(Request(data, CommandOf(t))))
  }

  /** The requests that a list of URIs stands for. */
  function Requests(uris: seq<string>): seq<Request>
  {
    if uris == [] then []
    else
      var (t, data) := Meaning(uris[0]);
      (if t == RequestErr then [] else [Request(data, CommandOf(t))]) + Requests(uris[1..])
  }

  /** The replies to the URIs, given the answers to the requests among them. */
  function Replies(uris: seq<string>, answers: seq<Answer>): seq<string>
    requires |answers| == |Requests(uris)|
  {
    if uris == [] then []
    else if Meaning(uris[0]).0 == RequestErr then [ErrorJson(INVALID_REQUEST)] + Replies(uris[1..], answers)
    else [answers[0].reply] + Replies(uris[1..], answers[1..])
  }

  lemma {:induction false} GoodRequests(uris: seq<string>)
    requires forall k :: 0 <= k < |uris| ==> GoodUri(uris[k])
    ensures forall k :: 0 <= k < |Requests(uris)| ==> GoodNumbers(Requests(uris)[k])
  {
    hide Meaning, GoodNumbers, Parsable, NoNul;
    if uris != [] {
      assert GoodUri(uris[0]);
      GoodRequests(uris[1..]);
    }
  }

  /** Handling one URI and then the others is handling them all. */
  lemma {:induction false} FirstRequest(w: World, uris: seq<string>)
    requires uris != [] && AllServable(w, Requests(uris)) && Parsable(uris[0])
    ensures Acceptable(w, uris[0])
    ensures var (w1, reply) := Http.Handle(w, uris[0]);
      && AllServable(w1, Requests(uris[1..]))
      && var (end, answers) := Run(w, Requests(uris));
         var (end1, answers1) := Run(w1, Requests(uris[1..]));
         && |answers| == |Requests(uris)| && |answers1| == |Requests(uris[1..])|
         && end == end1 && Replies(uris, answers) == [reply] + Replies(uris[1..], answers1)
  {
    hide PathMeaning, Servable, Perform, Parsable, Tokens;
    var (t, data) := Meaning(uris[0]);
    var all, rest := Requests(uris), Requests(uris[1..]);
    RunLength(w, all);
    if t == RequestErr {
      assert all == rest;
    } else {
      var q := Request(data, CommandOf(t));
      assert all[0] == q && all[1..] == rest;
      var w1 := Perform(w, q.data, q.cmd, "").world;
      PerformKeepsTable(w, q, "");
      AllServableKept(w, w1, rest);
      RunLength(w1, rest);
    }
  }

  /** A copy of the URI as a C string. */
  method NewString(u: string) returns (s: array<char>)
    requires NoNul(u)
    ensures fresh(s) && Holds(s[..], 0, u)
  {
    s := new char[|u| + 1](i requires 0 <= i <= |u| => if i < |u| then u[i] else NUL);
  }

  /** The requests one after the other, as the server dispatches them. */
  method ServeAll(conf: IoConfig, hw: Hardware, uris: seq<string>) returns (replies: seq<string>)
    requires forall k :: 0 <= k < |uris| ==> GoodUri(uris[k])
    requires AllServable(WorldOf(conf, hw), Requests(uris))
    modifies conf.busses, hw
    ensures var (end, answers) := Run(old(WorldOf(conf, hw)), Requests(uris));
      && |answers| == |Requests(uris)|
      && WorldOf(conf, hw) == end && replies == Replies(uris, answers)
  {
    hide Run, Requests, Replies, AllServable, Acceptable, Http.Handle, Holds, Parsable, NoNul, Meaning;
    ghost var w0 := WorldOf(conf, hw);
    RunLength(w0, Requests(uris));
    replies := [];
    var i := 0;
    assert uris[0..] == uris;
    while i < |uris|
      invariant 0 <= i <= |uris|
      invariant AllServable(WorldOf(conf, hw), Requests(uris[i..]))
      invariant var (end, answers) := Run(w0, Requests(uris));
        var (end', answers') := Run(WorldOf(conf, hw), Requests(uris[i..]));
        && |answers| == |Requests(uris)| && |answers'| == |Requests(uris[i..])|
        && end == end' && Replies(uris, answers) == replies + Replies(uris[i..], answers')
    {
      assert GoodUri(uris[i]);
      assert uris[i..][0] == uris[i] && uris[i..][1..] == uris[i + 1..];
      FirstRequest(WorldOf(conf, hw), uris[i..]);
      var uri := NewString(uris[i]);
      var content, reply := HttpRequestHandler(conf, hw, uri, uris[i]);
      var text := ReadString(content, 0, reply);
      replies := replies + [text];
      i := i + 1;
    }
    NothingToServe(WorldOf(conf, hw));
    assert uris[|uris|..] == [];
  }

  lemma {:induction false} NothingToServe(w: World)
    ensures Requests([]) == [] && AllServable(w, [])
    ensures Run(w, []).0 == w && |Run(w, []).1| == 0 && Replies([], Run(w, []).1) == []
  {
  }

  // ---- from start to shutdown --------------------------------------------------------------------

  /** The calls of io_deinit depend on what was parsed, and on the handles of I2C busses. */
  lemma {:induction false} DeinitTraceSame(c: Conf, e: Conf, fhs: seq<int>, ghs: seq<int>, n: nat)
    requires Shaped(c) && Shaped(e) && SameParsed(c, e) && n <= c.numBusses
    requires forall b :: 0 <= b < n && c.busses[b].i2c ==> FhAt(fhs, b) == FhAt(ghs, b)
    ensures DeinitTrace(e, ghs, n) == DeinitTrace(c, fhs, n)
    decreases n
  {
    if n > 0 {
      var b := n - 1;
      DeinitTraceSame(c, e, fhs, ghs, b);
      assert forall d :: 0 <= d < c.busses[b].numDevices ==> InRange(c, b, d);
      DevEventsSame(c, e, b, c.busses[b].numDevices, false);
    }
  }

  lemma {:induction false} ParsedTable(cfg: seq<ABus>, doc: seq<IniDocument.Line>, bom: bool, c0: Conf)
    requires GoodConfig(cfg) && Operational(cfg) && FreshTable(c0)
    requires GoodDocument(doc, bom) && Calls(doc, "", "") == ConfigCalls(cfg)
    ensures var c := Parse(c0, Text(doc, bom)).user.conf;
      LegalFile(c0, Text(doc, bom)) && IsConfig(c, cfg) && Shaped(c) && Openable(c)
  {
    hide LegalFile, Entries, IsConfig, GoodConfig, Operational, GoodDocument, Calls, ConfigCalls, FreshTable;
    hide Parse, Text, Openable, SameParsed, Shaped;
    ConfigurationRoundTrip(cfg, doc, bom, c0);
    var c := Parse(c0, Text(doc, bom)).user.conf;
    ConfigShaped(cfg, c);
    SameParsedReflexive(c);
    OperationalOpens(cfg, c, c);
  }

  /** What is closed at the end is what was opened at the start. */
  lemma {:induction false} DeinitCalls(c: Conf, handles: string -> int, v: World, reqs: seq<Request>)
    requires Shaped(c) && v.conf == IoInit(c, handles) && AllServable(v, reqs)
    requires var e := Run(v, reqs).0.conf;
      Shaped(e) && SameParsed(c, e) && Openable(c)
    ensures var e := Run(v, reqs).0.conf;
      c.numBusses == e.numBusses
      && DeinitTrace(e, FhsOf(e), e.numBusses) == DeinitTrace(c, HandlesOf(c, handles), c.numBusses)
  {
    hide Run, IoInit, AllServable, DeinitTrace;
    var e := Run(v, reqs).0.conf;
    if c.numBusses > 0 {
      HandlesKept(c, handles, v, reqs, 0, 0);
      forall b | 0 <= b < c.numBusses && c.busses[b].i2c
        ensures FhAt(HandlesOf(c, handles), b) == FhAt(FhsOf(e), b)
      {
        assert e.busses[b].busData == OpenedData(c.busses[b].busData, handles);
      }
    }
    DeinitTraceSame(c, e, HandlesOf(c, handles), FhsOf(e), c.numBusses);
  }

  /** The first GET of a PiFace after the start is answered 0, whatever its latches held before. */
  lemma {:induction false} FirstReply(w: World, d: Data, uris: seq<string>)
    requires uris != [] && uris[0] == PrintUri(d, false) && AllServable(w, Requests(uris))
    requires Servable(w, d, CmdRead) && InTable(w, d) && DevAt(w, d.bus, d.dev).driver == Some(Piface)
    requires SetUp(w.spi)
    ensures |Run(w, Requests(uris)).1| == |Requests(uris)|
    ensures Replies(uris, Run(w, Requests(uris)).1)[0] == DataJson(d.(value := 0))
  {
    hide Run, Requests, Replies, AllServable, Perform, PrintUri, DataJson, Http.Handle, Parsable, Servable;
    HandlePrinted(w, d, false);
    RunLength(w, Requests(uris));
    UriRoundTrip(d, false) by { ServableNumbers(w, d); }
    FirstRequest(w, uris);
    ClearedRead(w, d.(value := 0)) by { ServableNumbers(w, d); }
  }

  lemma {:induction false} ServableNumbers(w: World, d: Data)
    requires Servable(w, d, CmdRead)
    ensures Int32Data(d) && Servable(w, d.(value := 0), CmdRead)
  {
  }

  lemma {:induction false} ClearedRead(w: World, d: Data)
    requires Servable(w, d, CmdRead) && InTable(w, d) && DevAt(w, d.bus, d.dev).driver == Some(Piface)
    requires SetUp(w.spi)
    ensures Perform(w, d, CmdRead, "").reply == DataJson(d.(value := 0))
  {
    hide DataJson, ErrorJson, PinLevels;
    PinLevelsSpec(w.spi.olatA, w.spi.level(w.spi.samples));
    ShiftOfZero(if d.sub < 0 then 0 else d.sub);
  }

  lemma {:induction false} ShiftOfZero(k: nat)
    ensures ShiftRight(0, k) == 0
    decreases k
  {
    if k > 0 {
      ShiftOfZero(k - 1);
    }
  }

  lemma {:induction false} Dimensions(c: Conf)
    requires Shaped(c)
    ensures |c.busses| == MAX_BUSSES && forall b :: 0 <= b < MAX_BUSSES ==> |c.busses[b].devices| == MAX_IO_DEVICES
  {
  }

  /** main and its signal handler, on the text of an operational configuration in whatever layout:
      the table is the configuration; every driver is opened, initialised, deinitialised and closed
      once, in order, and closed with the handle it was opened with; a PiFace in range starts with eight
      low outputs; the replies are those of the requests served one after the other by the
      initialised table; the cached directions are those of the chips when the signal comes; and in
      the end every block has been freed exactly once. */
  method RunProgram(file: File, conf: IoConfig, hw: Hardware, uris: seq<string>, handles: string -> int,
                    ghost cfg: seq<ABus>, ghost doc: seq<IniDocument.Line>, ghost bom: bool)
    returns (replies: seq<string>, ghost table: Conf, ghost started: World, ghost trace: seq<Event>)
    requires file.Valid() && file.Rest() == Text(doc, bom)
    requires GoodConfig(cfg) && Operational(cfg) && GoodDocument(doc, bom) && Calls(doc, "", "") == ConfigCalls(cfg)
    requires conf.busses.Length == MAX_BUSSES && conf.heap.live == {} && conf.heap.freed == []
    requires forall b :: 0 <= b < MAX_BUSSES ==> |conf.busses[b].devices| == MAX_IO_DEVICES && !conf.busses[b].i2c
    requires |hw.lines| == MAX_BUSSES && forall k :: 0 <= k < |uris| ==> GoodUri(uris[k])
    modifies file, conf, conf.busses, hw
    ensures IsConfig(table, cfg) && Shaped(table)
    ensures var fhs := HandlesOf(table, handles);
      Ordered(trace) && forall e :: multiset(trace)[e] == if Due(table, fhs, table.numBusses, e) then 1 else 0
    ensures started.conf == IoInit(table, handles) && started.lines == old(hw.lines)
    ensures if AnyPiface(table, table.numBusses) then SetUp(started.spi) else started.spi == old(hw.spi)
    ensures AllServable(started, Requests(uris)) && |Run(started, Requests(uris)).1| == |Requests(uris)|
    ensures replies == Replies(uris, Run(started, Requests(uris)).1)
    ensures TruthfulWorld(Run(started, Requests(uris)).0)
    ensures Settled(conf.View(), {}, old(conf.heap.next))
  {
    hide IsConfig, GoodConfig, Operational, GoodDocument, Calls, ConfigCalls, FreshTable, GoodUri, GoodNumbers;
    hide Run, Parse, Text, Requests, Replies, AllServable, TruthfulWorld;
    hide InitTrace, DeinitTrace, Due, Ordered, IoInit, IoDeinit, ConfDeinit, NoDuplicates, SameParsed, Openable;
    hide AnyPiface, SetUp, Shaped, LegalFile, Settled, HandlesOf, FhsOf;
    var rc := ConfInitCode(conf);
    ghost var c0 := conf.View();
    ParsedTable(cfg, doc, bom, c0);
    rc := ParseConfig(file, conf);
    table := conf.View();
    trace := IoInitCode(conf, hw, handles);
    started := WorldOf(conf, hw);
    GoodRequests(uris);
    WholeProgram(cfg, doc, bom, c0, handles, started.lines, started.spi, Requests(uris));
    assert started == World(IoInit(table, handles), started.lines, started.spi);
    replies := ServeAll(conf, hw, uris);
    ghost var last := conf.View();
    OperationalOpens(cfg, table, last);
    ghost var calls := IoDeinitCode(conf);
    DeinitCalls(table, handles, started, Requests(uris));
    trace := trace + calls;
    Bracketed(table, HandlesOf(table, handles));
    ShapedKept(last, conf.View());
    Dimensions(conf.View());
    rc := ConfDeinitCode(conf);
  }
}
