/** The direction caches of all MCP23017 devices over whole runs: they tell the truth in every state,
    exactly when no two of these devices share a chip. */
module Caches {
  import opened Bits
  import opened Drivers
  import opened IoRequests
  import opened IoTable
  import opened Json
  import opened Mcp23017Properties
  import opened Options
  import opened Runs
  import opened Uri

  /** A device with the MCP23017 driver that requests can name. */
  ghost predicate Caching(w: World, b: nat, d: nat) {
    InService(w, b, d) && DevAt(w, b, d).driver == Some(Mcp23017) && DevAt(w, b, d).busData.Some?
  }

  function AddressAt(w: World, b: nat, d: nat): nat
    requires HasDevice(w, b, d) && DevAt(w, b, d).busData.Some?
  {
    DevAt(w, b, d).busData.value.address
  }

  ghost predicate TruthfulAt(w: World, b: nat, d: nat)
    requires HasDevice(w, b, d)
  {
    Truthful(LocalOf(w, b, d).slot, LocalOf(w, b, d).state)
  }

  /** Every cached direction that a request can rely on is the direction of the chip. */
  ghost predicate TruthfulWorld(w: World) {
    forall b, d :: Caching(w, b, d) ==> TruthfulAt(w, b, d)
  }

  /** Two of the devices are configured at one address of one bus. */
  ghost predicate Sharing(w: World, b: nat, d: nat, e: nat) {
    Caching(w, b, d) && Caching(w, b, e) && d != e && AddressAt(w, b, d) == AddressAt(w, b, e)
  }

  ghost predicate NoSharedChip(w: World) {
    forall b: nat, d: nat, e: nat :: !Sharing(w, b, d, e)
  }

  lemma {:induction false} CachingKept(v: World, w: World, b: nat, d: nat)
    requires SameTable(v, w)
    ensures Caching(v, b, d) == Caching(w, b, d)
    ensures Caching(v, b, d) ==> AddressAt(v, b, d) == AddressAt(w, b, d)
  {
    if b < |v.conf.busses| {
      assert SameBus(v.conf.busses[b], w.conf.busses[b]);
    }
  }

  lemma {:induction false} NoSharedChipKept(v: World, w: World)
    requires SameTable(v, w) && NoSharedChip(v)
    ensures NoSharedChip(w)
  {
    hide SameTable;
    forall b: nat, d: nat, e: nat
      ensures !Sharing(w, b, d, e)
    {
      assert !Sharing(v, b, d, e);
      CachingKept(v, w, b, d);
      CachingKept(v, w, b, e);
    }
  }

  // ---- no shared chip: always truthful --------------------------------------------------------------

  /** A PCF8574 at the address of an MCP23017 does no harm: its driver writes no direction. */
  lemma {:induction false} PcfKeepsDirections(loc: Local, data: Data, cmd: Command)
    requires cmd == CmdWrite ==> -1 <= data.sub < 31
    ensures var s, s' := loc.slot, Serve(Pcf8574, loc, data, cmd, "").loc.slot;
      && (s.Present? <==> s'.Present?)
      && (s.Present? ==> s'.chip.iodirA == s.chip.iodirA && s'.chip.iodirB == s.chip.iodirB)
  {
    hide Merge, ShiftRight, DataJson, ErrorJson;
  }

  lemma {:induction false} AddressedTruthful(w: World, q: Request, b: nat, d: nat)
    requires Servable(w, q.data, q.cmd) && Caching(w, b, d) && TruthfulAt(w, b, d) && Addressed(w, q, b, d)
    ensures var w' := Perform(w, q.data, q.cmd, "").world;
      HasDevice(w', b, d) && TruthfulAt(w', b, d)
  {
    hide Serve, LocalOf, PutLocal, Truthful, Touches;
    var loc := LocalOf(w, b, d);
    var r := Serve(Mcp23017, loc, q.data, q.cmd, "");
    ServeTruthful(Mcp23017, loc, q.data, q.cmd, "");
    ServeTouches(Mcp23017, loc, q.data, q.cmd, "");
    PutLocalTwice(w, b, d, r.loc, r.loc) by { TouchesSelf(Mcp23017, r.loc); }
  }

  lemma {:induction false} SharedWithPcf(w: World, b: nat, p: nat, d: nat, loc: Local)
    requires HasDevice(w, b, p) && Ready(DevAt(w, b, p)) && DevAt(w, b, p).driver == Some(Pcf8574)
    requires Caching(w, b, d) && TruthfulAt(w, b, d) && AddressAt(w, b, d) == AddressAt(w, b, p)
    requires var s := LocalOf(w, b, p).slot;
      && (s.Present? <==> loc.slot.Present?)
      && (s.Present? ==> loc.slot.chip.iodirA == s.chip.iodirA && loc.slot.chip.iodirB == s.chip.iodirB)
    ensures var w' := PutLocal(w, b, p, loc);
      HasDevice(w', b, d) && TruthfulAt(w', b, d)
  {
  }

  lemma {:induction false} OtherTruthful(w: World, q: Request, b: nat, d: nat)
    requires Servable(w, q.data, q.cmd) && NoSharedChip(w)
    requires Caching(w, b, d) && TruthfulAt(w, b, d) && !Addressed(w, q, b, d)
    ensures var w' := Perform(w, q.data, q.cmd, "").world;
      HasDevice(w', b, d) && TruthfulAt(w', b, d)
  {
    hide Serve, LocalOf, PutLocal, Truthful;
    if InTable(w, q.data) && q.cmd != CmdNone {
      var b1, d1 := q.data.bus, q.data.dev;
      var dev := DevAt(w, b1, d1);
      var r := Serve(dev.driver.value, LocalOf(w, b1, d1), q.data, q.cmd, "");
      if b1 == b && IsI2c(dev) && AddressAt(w, b, d1) == AddressAt(w, b, d) {
        assert !Sharing(w, b, d1, d);
        PcfKeepsDirections(LocalOf(w, b, d1), q.data, q.cmd);
        SharedWithPcf(w, b, d1, d, r.loc);
      } else {
        PutLocalIsolates(w, b1, d1, r.loc, b, d);
      }
    }
  }

  lemma {:induction false} RequestTruthful(w: World, q: Request)
    requires Servable(w, q.data, q.cmd) && NoSharedChip(w) && TruthfulWorld(w)
    ensures TruthfulWorld(Perform(w, q.data, q.cmd, "").world)
  {
    hide Perform, TruthfulAt, NoSharedChip, Servable, SameTable, Addressed;
    var w' := Perform(w, q.data, q.cmd, "").world;
    PerformKeepsTable(w, q, "");
    forall b: nat, d: nat | Caching(w', b, d)
      ensures TruthfulAt(w', b, d)
    {
      CachingKept(w, w', b, d);
      if Addressed(w, q, b, d) {
        AddressedTruthful(w, q, b, d);
      } else {
        OtherTruthful(w, q, b, d);
      }
    }
  }

  /** In every state of every run, whatever transfers fail, a cached direction is the direction
      of the chip. */
  lemma {:induction false} AlwaysTruthful(w: World, reqs: seq<Request>)
    requires AllServable(w, reqs) && NoSharedChip(w) && TruthfulWorld(w)
    ensures TruthfulWorld(Run(w, reqs).0)
    decreases |reqs|
  {
    hide Perform, TruthfulWorld, NoSharedChip, Servable;
    if reqs != [] {
      var w1 := Perform(w, reqs[0].data, reqs[0].cmd, "").world;
      PerformKeepsTable(w, reqs[0], "");
      AllServableKept(w, w1, reqs[1..]);
      RequestTruthful(w, reqs[0]);
      NoSharedChipKept(w, w1);
      AlwaysTruthful(w1, reqs[1..]);
    }
  }

  // ---- a shared chip: not always -------------------------------------------------------------------

  /** A table in which everything works: requests can be served, and the chips of the caching devices
      answer without faults. */
  ghost predicate Working(w: World) {
    && Shaped(w.conf) && |w.lines| == MAX_BUSSES
    && forall b: nat, d: nat :: Caching(w, b, d) ==>
         && Ready(DevAt(w, b, d)) && Attached(w.conf.busses[b], DevAt(w, b, d))
         && FaultFree(LocalOf(w, b, d).slot)
  }

  /** One of two devices that share a chip has been at work. */
  lemma {:induction false} SharedPut(w: World, b: nat, d: nat, e: nat, loc: Local)
    requires Sharing(w, b, d, e)
    requires Ready(DevAt(w, b, d)) && Ready(DevAt(w, b, e)) && Touches(Mcp23017, LocalOf(w, b, d), loc)
    ensures var w' := PutLocal(w, b, d, loc);
      && Sharing(w', b, d, e)
      && Ready(DevAt(w', b, d)) && Ready(DevAt(w', b, e))
      && LocalOf(w', b, d) == loc && LocalOf(w', b, e) == loc.(state := LocalOf(w, b, e).state)
  {
    PutLocalTwice(w, b, d, loc, loc) by { TouchesSelf(Mcp23017, loc); }
  }

  /** The write and the read that break a cache. */
  function WriteThenRead(b: nat, d: nat, e: nat): seq<Request> {
    [Request(Data(b, d, IDX_INVALID, 0), CmdWrite), Request(Data(b, e, IDX_INVALID, 0), CmdRead)]
  }

  lemma {:induction false} TwoRequests(w: World, b: nat, d: nat, e: nat)
    requires Working(w) && Caching(w, b, d) && Caching(w, b, e)
    ensures AllServable(w, WriteThenRead(b, d, e))
    ensures var w1 := PutLocal(w, b, d, McpWrite(LocalOf(w, b, d), 0).loc);
      && HasDevice(w1, b, e) && Ready(DevAt(w1, b, e))
      && Run(w, WriteThenRead(b, d, e)).0 == PutLocal(w1, b, e, McpRead(LocalOf(w1, b, e), 0).loc)
  {
    hide McpWrite, McpRead, PutLocal, LocalOf;
    var reqs := WriteThenRead(b, d, e);
    var q, r := reqs[0], reqs[1];
    assert InTable(w, q.data) && InTable(w, r.data);
    assert Servable(w, q.data, q.cmd) && Servable(w, r.data, r.cmd);
    var w1 := Perform(w, q.data, q.cmd, "").world;
    PerformKeepsTable(w, q, "");
    SameTableServable(w, w1, r);
    assert SameBus(w.conf.busses[b], w1.conf.busses[b]);
    assert reqs[1..] == [r] && [r][1..] == [];
    assert Run(w, reqs).0 == Run(w1, [r]).0;
    var w2 := Perform(w1, r.data, r.cmd, "").world;
    assert Run(w1, [r]).0 == Run(w2, []).0 == w2;
  }

  /** Two devices on one chip: after a write through the one and a read through the other, each
      believes in its own direction. */
  lemma {:induction false} SharedChipBreaksCache(w: World, b: nat, d: nat, e: nat)
    requires Working(w) && Sharing(w, b, d, e)
    ensures AllServable(w, WriteThenRead(b, d, e)) && !TruthfulWorld(Run(w, WriteThenRead(b, d, e)).0)
  {
    hide McpWrite, McpRead, PutLocal, LocalOf, Touches, Run, AllServable, FaultFree;
    TwoRequests(w, b, d, e);
    var x := McpWrite(LocalOf(w, b, d), 0).loc;
    OperationTurns(LocalOf(w, b, d), 0);
    DriverTouches(Mcp23017, LocalOf(w, b, d), 0);
    SharedPut(w, b, d, e, x);
    var w1 := PutLocal(w, b, d, x);
    var y := McpRead(LocalOf(w1, b, e), 0).loc;
    OperationTurns(LocalOf(w1, b, e), 0);
    DriverTouches(Mcp23017, LocalOf(w1, b, e), 0);
    SharedPut(w1, b, e, d, y);
    var w2 := PutLocal(w1, b, e, y);
    assert LocalOf(w2, b, d).state == Writing && LocalOf(w2, b, e).state == Reading;
    assert LocalOf(w2, b, d).slot == LocalOf(w2, b, e).slot;
    assert HasDevice(w2, b, d) && HasDevice(w2, b, e);
    assert !(TruthfulAt(w2, b, d) && TruthfulAt(w2, b, e));
  }

  /** So the caches of a working table tell the truth in every run, if and only if no two of the
      devices share a chip. */
  lemma {:induction false} TruthfulIffNoSharedChip(w: World)
    requires Working(w) && TruthfulWorld(w)
    ensures (forall reqs :: AllServable(w, reqs) ==> TruthfulWorld(Run(w, reqs).0)) <==> NoSharedChip(w)
  {
    hide Working, TruthfulWorld, AllServable, Run, Sharing, WriteThenRead;
    if NoSharedChip(w) {
      forall reqs | AllServable(w, reqs)
        ensures TruthfulWorld(Run(w, reqs).0)
      {
        AlwaysTruthful(w, reqs);
      }
    } else {
      var b: nat, d: nat, e: nat :| Sharing(w, b, d, e);
      SharedChipBreaksCache(w, b, d, e);
    }
  }
}
