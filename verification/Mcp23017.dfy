/** Properties of the MCP23017 driver and its direction cache. */
module Mcp23017Properties {
  import opened Bits
  import opened Chips
  import opened Drivers
  import opened IoRequests
  import opened IoTable
  import opened Json
  import opened Uri

  // ---- the cache tells the truth ------------------------------------------------------------------

  /** A cached direction is the direction of all sixteen pins. */
  ghost predicate Truthful(s: Slot, state: IoState) {
    && (state == Writing ==> s.Present? && s.chip.iodirA == 0x00 && s.chip.iodirB == 0x00)
    && (state == Reading ==> s.Present? && s.chip.iodirA == 0xFF && s.chip.iodirB == 0xFF)
  }

  /** Configuring yields the truth whatever happens on the bus: any transfer may fail, and a
      failed write may have landed. */
  lemma {:induction false} ConfigureTruthful(s: Slot, desired: IoState)
    ensures var (s', state) := Configure(s, desired);
      Truthful(s', state) && (state == Unconfigured || state == desired)
  {
  }

  lemma {:induction false} LatchKeepsDirections(s: Slot, v: word)
    ensures var s' := Latch(s, v).0;
      && (s.Present? <==> s'.Present?)
      && (s.Present? ==> s'.chip.iodirA == s.chip.iodirA && s'.chip.iodirB == s.chip.iodirB)
  {
  }

  lemma {:induction false} SampleKeepsRegisters(s: Slot)
    ensures var s' := Sample(s).0;
      && (s.Present? <==> s'.Present?)
      && (s.Present? ==>
            s'.chip == s.chip.(ticks := s'.chip.ticks, samples := s'.chip.samples))
  {
  }

  lemma {:induction false} OperationTruthful(driver: Driver, loc: Local, v: word)
    requires driver != Piface && Truthful(loc.slot, loc.state)
    ensures var out := DevWrite(driver, loc, v);
      Truthful(out.loc.slot, out.loc.state)
    ensures var out := DevRead(driver, loc, v);
      Truthful(out.loc.slot, out.loc.state)
  {
    if driver == Mcp23017 {
      hide Configure, Latch, Sample;
      ConfigureTruthful(loc.slot, Writing);
      ConfigureTruthful(loc.slot, Reading);
      LatchKeepsDirections(Turn(loc.slot, loc.state, Writing).0, v);
      SampleKeepsRegisters(Turn(loc.slot, loc.state, Reading).0);
    }
  }

  lemma {:induction false} ServeTruthful(driver: Driver, loc: Local, data: Data, cmd: Command, reply: string)
    requires driver != Piface && Truthful(loc.slot, loc.state)
    requires cmd == CmdWrite ==> -1 <= data.sub < 31
    ensures var out := Serve(driver, loc, data, cmd, reply).loc;
      Truthful(out.slot, out.state)
  {
    hide DevWrite, DevRead, Truthful, DataJson, ErrorJson;
    OperationTruthful(driver, loc, data.value);
    if cmd == CmdWrite && data.sub != IDX_INVALID {
      var r := DevRead(driver, loc, data.value);
      if r.ok {
        OperationTruthful(driver, r.loc, Merge(r.value, data.sub, data.value));
      }
    }
  }

  /** Without faults an operation leaves the state it asks for, whatever it was before. */
  lemma {:induction false} OperationTurns(loc: Local, v: word)
    requires FaultFree(loc.slot)
    ensures var out := McpWrite(loc, v);
      out.ok && out.loc.state == Writing && FaultFree(out.loc.slot)
    ensures var out := McpRead(loc, v);
      out.ok && out.loc.state == Reading && FaultFree(out.loc.slot)
  {
    hide PinLevels, Join, Low, High;
  }

  // ---- the cache saves transfers and changes nothing ------------------------------------------------

  datatype Op = OpWrite(value: word) | OpRead

  function Desired(op: Op): IoState {
    if op.OpWrite? then Writing else Reading
  }

  /** The driver without a cache: the directions are programmed before every operation. */
  function Uncached(loc: Local): Local {
    loc.(state := Unconfigured)
  }

  function Operate(loc: Local, op: Op): DevOut
  {
    match op
    case OpWrite(v) => McpWrite(loc, v)
    case OpRead => McpRead(loc, 0)
  }

  datatype Result = Result(ok: bool, value: word)

  function CachedRun(loc: Local, ops: seq<Op>): (Local, seq<Result>)
    decreases |ops|
  {
    if ops == [] then (loc, [])
    else
      var out := Operate(loc, ops[0]);
      var (end, rs) := CachedRun(out.loc, ops[1..]);
      (end, [Result(out.ok, out.value)] + rs)
  }

  function UncachedRun(loc: Local, ops: seq<Op>): (Local, seq<Result>)
    decreases |ops|
  {
    if ops == [] then (loc, [])
    else
      var out := Operate(Uncached(loc), ops[0]);
      var (end, rs) := UncachedRun(out.loc, ops[1..]);
      (end, [Result(out.ok, out.value)] + rs)
  }

  /** How often the cached state changes over a run. */
  function Turns(state: IoState, ops: seq<Op>): nat
    decreases |ops|
  {
    if ops == [] then 0
    else (if state != Desired(ops[0]) then 1 else 0) + Turns(Desired(ops[0]), ops[1..])
  }

  ghost predicate FaultFree(s: Slot) {
    s.Present? && forall n: nat :: s.chip.env.outcome(n) == Done
  }

  /** The same chip, apart from the number of transfers and of direction writes so far. */
  ghost predicate SameChip(s: Slot, t: Slot) {
    && s.Present? && t.Present?
    && t.chip == s.chip.(ticks := t.chip.ticks, dirWrites := t.chip.dirWrites)
  }

  /** What one operation does on a bus without faults. */
  lemma {:induction false} OperateFaultFree(loc: Local, op: Op)
    requires FaultFree(loc.slot) && Truthful(loc.slot, loc.state)
    ensures var out, c := Operate(loc, op), loc.slot.chip;
      && out.ok && out.loc.state == Desired(op) && FaultFree(out.loc.slot)
      && Truthful(out.loc.slot, out.loc.state)
      && var c' := out.loc.slot.chip;
         && c'.dirWrites == c.dirWrites + (if loc.state != Desired(op) then 2 else 0)
         && c'.env == c.env && c'.port == c.port
         && match op
            case OpWrite(v) =>
              out.value == v && c'.olatA == Low(v) && c'.olatB == High(v) && c'.samples == c.samples
            case OpRead =>
              && out.value == Join(PinLevels(c.olatA, c.env.level(c.samples), 0xFF),
                                   PinLevels(c.olatB, c.env.level(c.samples + 1), 0xFF))
              && c'.olatA == c.olatA && c'.olatB == c.olatB && c'.samples == c.samples + 2
  {
    hide PinLevels, Join, Low, High;
  }

  lemma {:induction false} OperateSame(x: Local, y: Local, op: Op)
    requires FaultFree(x.slot) && Truthful(x.slot, x.state) && SameChip(x.slot, y.slot)
    ensures var a, b := Operate(x, op), Operate(Uncached(y), op);
      && a.ok == b.ok && a.value == b.value && SameChip(a.loc.slot, b.loc.slot)
      && b.loc.slot.chip.dirWrites == y.slot.chip.dirWrites + 2
  {
    hide Operate, PinLevels, Join, Low, High;
    OperateFaultFree(x, op);
    OperateFaultFree(Uncached(y), op);
  }

  /** Over any run on a bus without faults the cached driver gives the same results and leaves
      the same latches and directions as one that programs the directions before every
      operation. It spends two direction writes per change of the cached state; the other one
      spends two per operation. */
  lemma {:induction false} CacheIsTransparent(x: Local, y: Local, ops: seq<Op>)
    requires FaultFree(x.slot) && Truthful(x.slot, x.state) && SameChip(x.slot, y.slot)
    ensures var (xEnd, xs) := CachedRun(x, ops);
      var (yEnd, ys) := UncachedRun(y, ops);
      && xs == ys && SameChip(xEnd.slot, yEnd.slot)
      && xEnd.slot.chip.dirWrites == x.slot.chip.dirWrites + 2 * Turns(x.state, ops)
      && yEnd.slot.chip.dirWrites == y.slot.chip.dirWrites + 2 * |ops|
    decreases |ops|
  {
    hide Operate;
    if ops != [] {
      OperateSame(x, y, ops[0]);
      OperateFaultFree(x, ops[0]);
      CacheIsTransparent(Operate(x, ops[0]).loc, Operate(Uncached(y), ops[0]).loc, ops[1..]);
    }
  }

  // ---- writing one bit ------------------------------------------------------------------------------

  /** A read that succeeds has sampled all sixteen pins as inputs; one that fails, and a
      successful one too, leaves the latches alone. */
  lemma {:induction false} ReadSamplesInputs(loc: Local, v0: word)
    requires Truthful(loc.slot, loc.state)
    ensures var out := McpRead(loc, v0);
      && (loc.slot.Present? <==> out.loc.slot.Present?)
      && (loc.slot.Present? ==>
            out.loc.slot.chip.olatA == loc.slot.chip.olatA && out.loc.slot.chip.olatB == loc.slot.chip.olatB)
      && (out.ok ==>
            && loc.slot.Present? && out.loc.state == Reading && Truthful(out.loc.slot, Reading)
            && var c := loc.slot.chip;
               out.value == Join(c.env.level(c.samples), c.env.level(c.samples + 1)))
  {
    hide Configure, Sample;
    ConfigureShape(loc.slot, Reading);
    ConfigureTruthful(loc.slot, Reading);
    var (s, state) := Turn(loc.slot, loc.state, Reading);
    SampleKeepsRegisters(s);
    if state == Reading {
      SampleInputs(s);
    }
  }

  lemma {:induction false} ConfigureShape(s: Slot, desired: IoState)
    ensures var s' := Configure(s, desired).0;
      && (s.Present? <==> s'.Present?)
      && (s.Present? ==> s'.chip == s.chip.(iodirA := s'.chip.iodirA, iodirB := s'.chip.iodirB,
                                             ticks := s'.chip.ticks, dirWrites := s'.chip.dirWrites))
  {
  }

  lemma {:induction false} SampleInputs(s: Slot)
    requires s.Present? && s.chip.iodirA == 0xFF && s.chip.iodirB == 0xFF
    ensures var (s', v) := Sample(s);
      v.Some? ==> v.value == Join(s.chip.env.level(s.chip.samples), s.chip.env.level(s.chip.samples + 1))
  {
    hide PinLevels, Join;
    PinLevelsSpec(s.chip.olatA, s.chip.env.level(s.chip.samples));
    PinLevelsSpec(s.chip.olatB, s.chip.env.level(s.chip.samples + 1));
  }

  /** A write that succeeds leaves the low sixteen bits in the latches of a chip whose pins are
      all outputs. */
  lemma {:induction false} WriteLatches(loc: Local, v: word)
    requires Truthful(loc.slot, loc.state)
    ensures var out := McpWrite(loc, v);
      out.ok ==>
        && out.loc.slot.Present? && out.loc.state == Writing && Truthful(out.loc.slot, Writing)
        && out.loc.slot.chip.olatA == Low(v) && out.loc.slot.chip.olatB == High(v)
  {
    hide Configure, Low, High;
    ConfigureTruthful(loc.slot, Writing);
  }

  /** The output latches as one number. */
  function Latches(c: Chip): nat {
    Join(c.olatA, c.olatB)
  }

  lemma {:induction false} MergeBits(sampled: nat, sub: nat, value: word, j: nat)
    requires sampled < 0x1_0000 && sub < 31 && j < 16
    ensures Bit(Merge(sampled, sub, value) % 0x1_0000, j) <==> if j == sub then value != 0 else Bit(sampled, j)
  {
    hide Bit;
    SetBit(sampled, sub, j);
    ClearBit(sampled, sub, j);
    LowBits(Merge(sampled, sub, value), 16, j);
    Pow2Values();
  }

  lemma {:induction false} LatchesHoldLowHalf(a: byte, b: byte, v: word)
    requires a == Low(v) && b == High(v)
    ensures Join(a, b) == v % 0x1_0000
  {
    hide Join, Low, High;
    JoinValue(a, b);
    LowHigh(v);
  }

  /** perform_io writing one bit: when it reports success, the sixteen latches are the levels
      sampled with every pin an input, with the requested bit replaced, and the pins are
      outputs. When sampling fails, no latch has changed. */
  lemma {:induction false} SingleBitWrite(loc: Local, data: Data, reply: string)
    requires Truthful(loc.slot, loc.state) && 0 <= data.sub < 31
    ensures var r := McpRead(loc, data.value);
      var out := Serve(Mcp23017, loc, data, CmdWrite, reply);
      && (!r.ok ==>
            && out.rc == EXIT_FAILURE && out.reply == ErrorJson(NO_READ)
            && (loc.slot.Present? ==> out.loc.slot.Present? && Latches(out.loc.slot.chip) == Latches(loc.slot.chip)))
      && (r.ok && McpWrite(r.loc, Merge(r.value, data.sub, data.value)).ok ==>
            && loc.slot.Present? && out.loc.slot.Present?
            && out.reply == DataJson(data) && out.loc.state == Writing && Truthful(out.loc.slot, Writing)
            && var sampled := Join(loc.slot.chip.env.level(loc.slot.chip.samples),
                                   loc.slot.chip.env.level(loc.slot.chip.samples + 1));
               forall j :: 0 <= j < 16 ==>
                 (Bit(Latches(out.loc.slot.chip), j) <==> if j == data.sub then data.value != 0 else Bit(sampled, j)))
  {
    hide McpRead, McpWrite, Bit, Merge, Join, Low, High, DataJson, ErrorJson;
    ReadSamplesInputs(loc, data.value);
    var r := McpRead(loc, data.value);
    if r.ok {
      var v := Merge(r.value, data.sub, data.value);
      WriteLatches(r.loc, v);
      LatchesHoldLowHalf(Low(v), High(v), v);
      var c := loc.slot.chip;
      JoinValue(c.env.level(c.samples), c.env.level(c.samples + 1));
      forall j | 0 <= j < 16
        ensures Bit(v % 0x1_0000, j) <==> if j == data.sub then data.value != 0 else Bit(r.value, j)
      {
        MergeBits(r.value, data.sub, data.value, j);
      }
    }
  }
}
