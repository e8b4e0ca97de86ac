/** What a PCF8574 holds and answers: the port of the chip behind a request. */
module Pcf8574Properties {
  import opened Bits
  import opened Chips
  import opened Http
  import opened IoRequests
  import opened IoTable
  import opened Json
  import opened Mcp23017Properties
  import opened Options
  import opened PifaceMemory
  import opened Runs
  import opened Transfers
  import opened Uri

  /** A request to a PCF8574 whose chip is there. */
  ghost predicate ToPcf(w: World, d: Data) {
    && InTable(w, d) && HasDevice(w, d.bus, d.dev) && DevAt(w, d.bus, d.dev).driver == Some(Pcf8574)
    && SlotOf(w, d).Present?
  }

  function SlotOf(w: World, d: Data): Slot
    requires 0 <= d.bus && 0 <= d.dev && HasDevice(w, d.bus, d.dev)
  {
    LocalOf(w, d.bus, d.dev).slot
  }

  /** The device after a request to it. */
  lemma {:induction false} DeviceAfter(w: World, d: Data, cmd: Command)
    requires Servable(w, d, cmd) && ToPcf(w, d) && cmd != CmdNone
    ensures var p, r := Perform(w, d, cmd, ""), Serve(Pcf8574, LocalOf(w, d.bus, d.dev), d, cmd, "");
      && HasDevice(p.world, d.bus, d.dev) && LocalOf(p.world, d.bus, d.dev) == r.loc
      && p.data == r.data && p.reply == r.reply && r.loc.slot.Present?
  {
    hide Serve, LocalOf, PutLocal, Touches;
    var loc := LocalOf(w, d.bus, d.dev);
    var r := Serve(Pcf8574, loc, d, cmd, "");
    ServeTouches(Pcf8574, loc, d, cmd, "");
    PutLocalTwice(w, d.bus, d.dev, r.loc, r.loc) by { TouchesSelf(Pcf8574, r.loc); }
    TouchedPresent(loc, r.loc);
  }

  lemma {:induction false} TouchedPresent(x: Local, y: Local)
    requires Touches(Pcf8574, x, y)
    ensures x.slot.Present? <==> y.slot.Present?
  {
  }

  // ---- one request -------------------------------------------------------------------------------

  /** SET of a whole value: the port holds its low eight bits if the transfer has landed, reported as
      done or not, and what it held before if it was lost. */
  lemma {:induction false} SetStores(w: World, d: Data)
    requires Servable(w, d, CmdWrite) && ToPcf(w, d) && d.sub == IDX_INVALID
    ensures var c, w' := SlotOf(w, d).chip, Perform(w, d, CmdWrite, "").world;
      && HasDevice(w', d.bus, d.dev) && SlotOf(w', d).Present?
      && SlotOf(w', d).chip.port == if c.env.outcome(c.ticks) == FailedLost then c.port else d.value % 256
  {
    hide Perform, DataJson, ErrorJson, PutLocal, Servable;
    DeviceAfter(w, d, CmdWrite);
  }

  /** What a sampled port shows: a bit is high when both its latch and the level outside are. */
  ghost predicate Shows(v: nat, c: Chip) {
    && v < 256
    && forall k :: 0 <= k < 8 ==> (Bit(v, k) <==> Bit(c.port, k) && Bit(c.env.level(c.samples), k))
  }

  lemma {:induction false} ReceivedShows(s: Slot)
    requires s.Present?
    ensures var (s', r) := ReceiveByte(s);
      && (r.Some? ==> Shows(r.value, s.chip))
      && s'.Present? && s'.chip.port == s.chip.port && s'.chip.env == s.chip.env
  {
    hide Bit, And;
    var v := And(s.chip.port, s.chip.env.level(s.chip.samples));
    forall k | 0 <= k < 8
      ensures Bit(v, k) <==> Bit(s.chip.port, k) && Bit(s.chip.env.level(s.chip.samples), k)
    {
      AndBits(s.chip.port, s.chip.env.level(s.chip.samples), k);
    }
  }

  /** GET of the whole device, when its transfer is done: the reply says what the port shows, and the
      port is as before. */
  lemma {:induction false} GetShows(w: World, d: Data)
    requires Servable(w, d, CmdRead) && ToPcf(w, d) && d.sub == IDX_INVALID && AllDone(SlotOf(w, d), 1)
    ensures var c, p := SlotOf(w, d).chip, Perform(w, d, CmdRead, "");
      && Shows(p.data.value, c) && p.reply == DataJson(d.(value := p.data.value))
      && HasDevice(p.world, d.bus, d.dev) && SlotOf(p.world, d).Present?
      && SlotOf(p.world, d).chip.port == c.port
  {
    hide Perform, DataJson, ErrorJson, PutLocal, Servable, ReceiveByte, Shows, AllDone;
    DeviceAfter(w, d, CmdRead);
    ReceivedShows(SlotOf(w, d));
    OneTransfer(SlotOf(w, d), 0, 0);
  }

  /** SET of one bit, when both its transfers are done: the bit is replaced in what the port showed. */
  lemma {:induction false} SetBitReplaces(w: World, d: Data)
    requires Servable(w, d, CmdWrite) && ToPcf(w, d) && d.sub != IDX_INVALID && AllDone(SlotOf(w, d), 2)
    ensures var c, w' := SlotOf(w, d).chip, Perform(w, d, CmdWrite, "").world;
      && HasDevice(w', d.bus, d.dev) && SlotOf(w', d).Present?
      && forall k :: 0 <= k < 8 ==>
           (Bit(SlotOf(w', d).chip.port, k) <==>
             if k == d.sub then d.value != 0 else Bit(c.port, k) && Bit(c.env.level(c.samples), k))
  {
    hide Perform, DataJson, ErrorJson, PutLocal, Bit, Merge, ReceiveByte, SendByte, AllDone;
    DeviceAfter(w, d, CmdWrite);
    var s := SlotOf(w, d);
    ReceivedShows(s);
    OneTransfer(s, 0, 0);
    var (s1, r) := ReceiveByte(s);
    SplitDone(s, s1);
    var v := Merge(r.value, d.sub, d.value);
    Sent(s1, Low(v));
    forall k | 0 <= k < 8
      ensures Bit(Low(v), k) <==> if k == d.sub then d.value != 0 else Bit(r.value, k)
    {
      LowBit(v, k);
      MergeAt(r.value, d.sub, d.value, k);
    }
  }

  lemma {:induction false} SplitDone(s: Slot, s1: Slot)
    requires AllDone(s, 2) && Transfers.After(s, s1, 1)
    ensures AllDone(s, 1) && AllDone(s1, 1)
  {
    assert DoneFrom(s.chip.env, s.chip.ticks, 1);
    DoneJoin(s, s1, 1, 1);
  }

  lemma {:induction false} Sent(s: Slot, v: byte)
    requires AllDone(s, 1)
    ensures var (s', ok) := SendByte(s, v);
      ok && s'.Present? && s'.chip.port == v && s'.chip.env == s.chip.env
  {
  }

  lemma {:induction false} LowBit(v: nat, k: nat)
    requires k < 8
    ensures Bit(Low(v), k) == Bit(v, k)
  {
    hide Bit;
    Pow2Values();
    LowBits(v, 8, k);
  }

  // ---- SET, then GET -----------------------------------------------------------------------------

  /** A chip that works, with nothing outside pulling a pin low. */
  ghost predicate Floating(s: Slot) {
    FaultFree(s) && forall n: nat :: s.chip.env.level(n) == 0xFF
  }

  lemma {:induction false} FloatingPresent(s: Slot)
    requires Floating(s)
    ensures s.Present?
  {
  }

  lemma {:induction false} FloatingRead(s: Slot)
    requires Floating(s)
    ensures s.Present?
    ensures ReceiveByte(s).1 == Some(s.chip.port) && Floating(ReceiveByte(s).0)
    ensures ReceiveByte(s).0.chip.port == s.chip.port
  {
    hide And, AndNot;
    Pow2Values();
    AndOnes(s.chip.port, 8);
  }

  lemma {:induction false} FloatingSend(s: Slot, v: byte)
    requires Floating(s)
    ensures var (s', ok) := SendByte(s, v);
      ok && Floating(s') && s'.chip.port == v
  {
  }

  /** What the port holds behind a SET. */
  function NewPort(port: byte, d: Data): byte
    requires -1 <= d.sub < 31
  {
    if d.sub == IDX_INVALID then Low(d.value) else Low(Merge(port, d.sub, d.value))
  }

  lemma {:induction false} SetFloating(loc: Local, d: Data)
    requires Floating(loc.slot) && -1 <= d.sub < 31
    ensures var r := Serve(Pcf8574, loc, d, CmdWrite, "");
      && r.reply == DataJson(d) && Floating(r.loc.slot) && r.loc.slot.chip.port == NewPort(loc.slot.chip.port, d)
  {
    hide ReceiveByte, SendByte, Merge, DataJson, ErrorJson, Floating;
    FloatingRead(loc.slot);
    var s := ReceiveByte(loc.slot).0;
    FloatingSend(loc.slot, Low(d.value));
    if d.sub != IDX_INVALID {
      FloatingSend(s, Low(Merge(loc.slot.chip.port, d.sub, d.value)));
    }
  }

  lemma {:induction false} GetFloating(loc: Local, d: Data)
    requires Floating(loc.slot) && -1 <= d.sub < 8
    ensures var r, port := Serve(Pcf8574, loc, d, CmdRead, ""), loc.slot.chip.port;
      r.reply == DataJson(d.(value := if d.sub == IDX_INVALID then port else if Bit(port, d.sub) then 1 else 0))
  {
    hide ReceiveByte, DataJson, ErrorJson, Floating;
    FloatingRead(loc.slot);
  }

  lemma {:induction false} PortHoldsStored(port: byte, d: Data)
    requires -1 <= d.sub < 8
    ensures var after := NewPort(port, d);
      Stored(d) == if d.sub == IDX_INVALID then after else if Bit(after, d.sub) then 1 else 0
  {
    hide Bit, Merge;
    if d.sub != IDX_INVALID {
      LowBit(Merge(port, d.sub, d.value), d.sub);
      MergeAt(port, d.sub, d.value, d.sub);
    }
  }

  lemma {:induction false} NoneMine(reqs: seq<Request>, b: nat, d: nat)
    requires forall k :: 0 <= k < |reqs| ==> !ToDevice(reqs[k], b, d)
    ensures Mine(reqs, b, d) == []
  {
    if reqs != [] {
      NoneMine(reqs[1..], b, d);
    }
  }

  /** Requests to other devices leave a device alone that has its address for itself. */
  lemma {:induction false} LeftAlone(w: World, reqs: seq<Request>, b: nat, d: nat)
    requires AllServable(w, reqs) && HasDevice(w, b, d) && IsI2c(DevAt(w, b, d)) && Alone(w, b, d)
    requires forall k :: 0 <= k < |reqs| ==> !ToDevice(reqs[k], b, d)
    ensures var end := Run(w, reqs).0;
      HasDevice(end, b, d) && SameI2c(LocalOf(end, b, d), LocalOf(w, b, d))
  {
    hide Run, LocalOf, Servable, Alone, IsI2c;
    NoneMine(reqs, b, d);
    SameTableReflexive(w);
    NonInterference(w, w, reqs, b, d);
    NoRun(w);
  }

  lemma {:induction false} NoRun(w: World)
    ensures AllServable(w, []) && Run(w, []).0 == w
  {
  }

  /** End to end on an I2C device: after the SET request of a PCF8574, and any requests to other
      devices, the GET request replies with the value modulo 256, or for one pin with 1 or 0. */
  lemma {:induction false} PcfSetThenGet(w: World, d: Data, between: seq<Request>)
    requires Servable(w, d, CmdWrite) && ToPcf(w, d) && d.sub < 8 && Floating(SlotOf(w, d))
    requires IsI2c(DevAt(w, d.bus, d.dev)) && Alone(w, d.bus, d.dev)
    requires AllServable(w, between) && forall k :: 0 <= k < |between| ==> !ToDevice(between[k], d.bus, d.dev)
    ensures Acceptable(w, PrintUri(d, true))
    ensures var (w1, first) := Handle(w, PrintUri(d, true));
      && first == DataJson(d) && AllServable(w1, between)
      && var w2 := Run(w1, between).0;
         && Acceptable(w2, PrintUri(d, false))
         && Handle(w2, PrintUri(d, false)).1 == DataJson(d.(value := Stored(d)))
  {
    hide Perform, Servable, Acceptable, Handle, PrintUri, DataJson, SameTable, Stored, Serve, LocalOf;
    hide Alone, IsI2c, Run, NewPort, Floating;
    var b, dev := d.bus, d.dev;
    HandlePrinted(w, d, true);
    ServableRead(w, d);
    DeviceAfter(w, d, CmdWrite);
    SetFloating(LocalOf(w, b, dev), d);
    var w1 := Perform(w, d, CmdWrite, "").world;
    PerformKeepsTable(w, Request(d, CmdWrite), "");
    AllServableKept(w, w1, between);
    AloneKept(w, w1, b, dev);
    LeftAlone(w1, between, b, dev);
    var w2 := Run(w1, between).0;
    RunKeepsTable(w1, between);
    SameTableTransitive(w, w1, w2);
    SameTableServable(w, w2, Request(d, CmdRead));
    SameTableServable(w, w2, Request(d.(value := 0), CmdRead));
    HandlePrinted(w2, d, false);
    DriverKept(w, w2, b, dev);
    FloatingPresent(LocalOf(w2, b, dev).slot);
    DeviceAfter(w2, d.(value := 0), CmdRead);
    GetFloating(LocalOf(w2, b, dev), d.(value := 0));
    PortHoldsStored(LocalOf(w, b, dev).slot.chip.port, d);
  }

  lemma {:induction false} DriverKept(w: World, w2: World, b: nat, d: nat)
    requires SameTable(w, w2) && HasDevice(w, b, d)
    ensures HasDevice(w2, b, d) && DevAt(w2, b, d).driver == DevAt(w, b, d).driver
  {
    assert SameBus(w.conf.busses[b], w2.conf.busses[b]);
  }
}
