/** http_request_handler: from the URI of a request to the text of the reply. */
module Http {
  import opened Bits
  import opened Chips
  import opened CString
  import opened IoRequests
  import opened IoTable
  import opened Json
  import opened Options
  import opened PifaceMemory
  import opened Runs
  import opened Uri
  import PerformIo

  const INVALID_REQUEST := "Invalid request type"

  function CommandOf(t: RequestType): Command {
    if t == RequestGet then CmdRead else CmdWrite
  }

  /** The URI is one the code can take, and so is the request it stands for. */
  ghost predicate Acceptable(w: World, uri: string) {
    var (t, data) := PathMeaning(Tokens(uri, '/'));
    Parsable(uri) && (t != RequestErr ==> Servable(w, data, CommandOf(t)))
  }

  /** The world after a request, and the reply. */
  ghost function Handle(w: World, uri: string): (World, string)
    requires Acceptable(w, uri)
  {
    var (t, data) := PathMeaning(Tokens(uri, '/'));
    if t == RequestErr then (w, ErrorJson(INVALID_REQUEST))
    else
      var p := Perform(w, data, CommandOf(t), "");
      (p.world, p.reply)
  }

  /** http_request_handler */
  method HttpRequestHandler(conf: IoConfig, hw: Hardware, uri: array<char>, ghost u: string)
    returns (content: array<char>, ghost reply: string)
    requires Holds(uri[..], 0, u) && Acceptable(WorldOf(conf, hw), u)
    modifies conf.busses, hw
    ensures (WorldOf(conf, hw), reply) == Handle(old(WorldOf(conf, hw)), u)
    ensures fresh(content) && Holds(content[..], 0, reply)
  {
    hide Holds, PathMeaning, Servable, Perform, Tokens;
    content := new char[BUF_LEN](_ => NUL);
    HoldsEmpty(content[..], 0);
    reply := "";
    var parts := new IoData();
    var kind := ParseUri(uri, parts, u);
    if kind != RequestErr {
      var rc;
      rc, reply := PerformIo.Perform(conf, hw, parts, if kind == RequestGet then CmdRead else CmdWrite, content, reply);
    } else {
      InvalidRequestText();
      ErrorToJson(INVALID_REQUEST, content);
      reply := ErrorJson(INVALID_REQUEST);
    }
  }

  lemma {:induction false} InvalidRequestText()
    ensures NoNul(INVALID_REQUEST) && |INVALID_REQUEST| < 1000
  {
  }

  /** Requests that do not go to a PiFace leave its memory alone. */
  lemma {:induction false} NoAccess(w: World, reqs: seq<Request>, cells: seq<bool>)
    requires AllServable(w, reqs) && |cells| == 8
    requires forall k :: 0 <= k < |reqs| ==> !ToPiface(w, reqs[k])
    ensures Accesses(w, reqs, cells) == (cells, [])
  {
    hide Servable, ToPiface;
    if reqs != [] {
      NoAccess(w, reqs[1..], cells);
    }
  }

  /** A printed request is handled as the request it prints. */
  lemma {:induction false} HandlePrinted(w: World, d: Data, isSet: bool)
    requires Servable(w, d, if isSet then CmdWrite else CmdRead)
    ensures var q := if isSet then d else d.(value := 0);
      var cmd := if isSet then CmdWrite else CmdRead;
      && Acceptable(w, PrintUri(d, isSet)) && Servable(w, q, cmd)
      && Handle(w, PrintUri(d, isSet)) == (Perform(w, q, cmd, "").world, Perform(w, q, cmd, "").reply)
  {
    hide PathMeaning, Tokens, PrintUri, Perform;
    UriRoundTrip(d, isSet);
  }

  /** What a SET to a PiFace stores and a later GET returns. */
  function Stored(d: Data): word {
    if d.sub == IDX_INVALID then d.value % 256 else if d.value != 0 then 1 else 0
  }

  lemma {:induction false} AccessTwice(cells: seq<bool>, d: Data)
    requires |cells| == 8 && -1 <= d.sub < 8
    ensures Number(cells) < WORD
    ensures var after := Access(cells, d, CmdWrite).0;
      && |after| == 8 && Number(after) < WORD
      && Access(cells, d, CmdWrite).1 == d
      && Access(after, d.(value := 0), CmdRead) == (after, d.(value := Stored(d)))
  {
    hide BitsOf, Number;
    Pow2Values();
    NumberBound(cells);
    var after := Access(cells, d, CmdWrite).0;
    NumberBound(after);
    if d.sub == IDX_INVALID {
      LowCells(d.value);
    }
  }

  lemma {:induction false} LowCells(v: word)
    ensures Number(BitsOf(v, 8)) == v % 256
  {
    hide BitsOf, Number;
    Pow2Values();
    NumberOfBits(v % 256, 8);
    forall k | 0 <= k < 8
      ensures BitsOf(v, 8)[k] == BitsOf(v % 256, 8)[k]
    {
      hide Bit;
      BitsOfAt(v, 8, k);
      BitsOfAt(v % 256, 8, k);
      LowBits(v, 8, k);
    }
    assert BitsOf(v, 8) == BitsOf(v % 256, 8);
  }

  /** End to end: after the SET request of a PiFace value, and any requests to other devices, the
      GET request replies with the value modulo 256, or for one pin with 1 or 0. */
  lemma {:induction false} SetThenGet(w: World, d: Data, between: seq<Request>)
    requires Servable(w, d, CmdWrite) && InTable(w, d) && DevAt(w, d.bus, d.dev).driver == Some(Piface)
    requires Driving(w.spi) && d.sub < 8
    requires AllServable(w, between) && forall k :: 0 <= k < |between| ==> !ToPiface(w, between[k])
    ensures Acceptable(w, PrintUri(d, true))
    ensures var (w1, first) := Handle(w, PrintUri(d, true));
      && first == DataJson(d) && AllServable(w1, between)
      && var w2 := Run(w1, between).0;
         && Acceptable(w2, PrintUri(d, false))
         && Handle(w2, PrintUri(d, false)).1 == DataJson(d.(value := Stored(d)))
  {
    hide Perform, Servable, Acceptable, Handle, PrintUri, DataJson, Cells, Access, Driving, SameTable, Stored;
    var q := Request(d, CmdWrite);
    HandlePrinted(w, d, true);
    PifaceStep(w, q);
    var w1 := Perform(w, d, CmdWrite, "").world;
    PerformKeepsTable(w, q, "");
    AllServableKept(w, w1, between);
    SameTableSymmetric(w, w1);
    RunIsMemory(w, w1, between);
    CellsLength(w.spi);
    CellsLength(w1.spi);
    NoAccess(w, between, Cells(w1.spi));
    var w2 := Run(w1, between).0;
    RunKeepsTable(w1, between);
    SameTableTransitive(w, w1, w2);
    var g := Request(d, CmdRead);
    ServableRead(w, d);
    SameTableServable(w, w2, g);
    HandlePrinted(w2, d, false);
    var g0 := Request(d.(value := 0), CmdRead);
    SameTableServable(w, w2, g0);
    ToPifaceKept(w, w2, g0);
    PifaceStep(w2, g0);
    AccessTwice(Cells(w.spi), d);
  }

  lemma {:induction false} ServableRead(w: World, d: Data)
    requires Servable(w, d, CmdWrite)
    ensures Servable(w, d, CmdRead) && Servable(w, d.(value := 0), CmdRead) && -1 <= d.sub
  {
  }
}
