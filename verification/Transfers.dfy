/** Which transfers a request makes on the bus, and what it is answered when one of them fails. */
module Transfers {
  import opened Bits
  import opened Chips
  import opened Drivers
  import opened IoRequests
  import opened IoTable
  import opened Json
  import opened Replies
  import opened Runs
  import opened Uri

  // ---- transfers and their outcomes -----------------------------------------------------------------

  /** The n transfers from tick t on are done. */
  ghost predicate DoneFrom(env: Env, t: nat, n: nat) {
    forall i :: t <= i < t + n ==> env.outcome(i) == Done
  }

  /** The next n transfers reach a chip and are done. */
  ghost predicate AllDone(s: Slot, n: nat) {
    s.Present? && DoneFrom(s.chip.env, s.chip.ticks, n)
  }

  /** How many of n transfers are made from tick t on: none behind the first that fails. */
  function Made(env: Env, t: nat, n: nat): nat
    decreases n
  {
    if n == 0 then 0 else if env.outcome(t) != Done then 1 else 1 + Made(env, t + 1, n - 1)
  }

  lemma {:induction false} MadeJoin(env: Env, t: nat, m: nat, n: nat)
    ensures Made(env, t, m + n) == if DoneFrom(env, t, m) then m + Made(env, t + m, n) else Made(env, t, m)
    ensures DoneFrom(env, t, m) ==> Made(env, t, m) == m
    decreases m
  {
    if m > 0 && env.outcome(t) == Done {
      MadeJoin(env, t + 1, m - 1, n);
      assert DoneFrom(env, t, m) <==> DoneFrom(env, t + 1, m - 1);
    }
  }

  /** The slot behind n transfers to it: the same chip, in the same surroundings. */
  ghost predicate After(s: Slot, s': Slot, n: nat) {
    && (s.Present? <==> s'.Present?)
    && (s.Present? ==> s'.chip.env == s.chip.env && s'.chip.ticks == s.chip.ticks + Made(s.chip.env, s.chip.ticks, n))
  }

  /** m transfers, and then n more unless one of the m has failed. */
  lemma {:induction false} AfterJoin(s: Slot, s1: Slot, s2: Slot, m: nat, n: nat)
    requires After(s, s1, m) && (if AllDone(s, m) then After(s1, s2, n) else s2 == s1)
    ensures After(s, s2, m + n)
    ensures AllDone(s, m + n) <==> AllDone(s, m) && AllDone(s1, n)
  {
    if s.Present? {
      MadeJoin(s.chip.env, s.chip.ticks, m, n);
    }
  }

  lemma {:induction false} OneTransfer(s: Slot, command: nat, v: byte)
    ensures var (s', ok) := WriteByteData(s, command, v);
      After(s, s', 1) && (ok <==> AllDone(s, 1))
    ensures var (s', r) := ReadByteData(s, command);
      After(s, s', 1) && (r.Some? <==> AllDone(s, 1))
    ensures var (s', ok) := SendByte(s, v);
      After(s, s', 1) && (ok <==> AllDone(s, 1))
    ensures var (s', r) := ReceiveByte(s);
      After(s, s', 1) && (r.Some? <==> AllDone(s, 1))
  {
    hide Store, Fetch, Made, DoneFrom, Landed;
    if s.Present? {
      var c := s.chip;
      OneTick(c.env, c.ticks);
      LandedOnce(c, Store(c, command, v)) by { StoreKeeps(c, command, v); }
      LandedOnce(c, c.(samples := c.samples + 1));
      LandedOnce(c, c.(port := v));
    }
  }

  lemma {:induction false} OneTick(env: Env, t: nat)
    ensures Made(env, t, 1) == 1
    ensures DoneFrom(env, t, 1) <==> env.outcome(t) == Done
  {
    assert Made(env, t + 1, 0) == 0;
  }

  lemma {:induction false} LandedOnce(c: Chip, after: Chip)
    requires after.env == c.env && after.ticks == c.ticks
    ensures var (c', ok) := Landed(c, after);
      c'.env == c.env && c'.ticks == c.ticks + 1 && (ok <==> c.env.outcome(c.ticks) == Done)
  {
  }

  lemma {:induction false} StoreKeeps(c: Chip, command: nat, v: byte)
    ensures Store(c, command, v).env == c.env && Store(c, command, v).ticks == c.ticks
  {
  }

  // ---- the drivers ----------------------------------------------------------------------------------

  /** Setting the directions takes two transfers, unless they are cached. */
  function ToTurn(state: IoState, desired: IoState): nat {
    if state == desired then 0 else 2
  }

  lemma {:induction false} NoTransfer(s: Slot)
    ensures After(s, s, 0)
    ensures s.Present? ==> AllDone(s, 0)
  {
  }

  lemma {:induction false} TurnTransfers(s: Slot, state: IoState, desired: IoState)
    requires desired != Unconfigured
    ensures var (s', state') := Turn(s, state, desired);
      && After(s, s', ToTurn(state, desired))
      && (state' == desired <==> state == desired || AllDone(s, 2))
  {
    hide WriteByteData, After, AllDone, Directions;
    NoTransfer(s);
    if state != desired {
      var (s1, okA) := WriteByteData(s, IODIRA, Directions(desired));
      OneTransfer(s, IODIRA, Directions(desired));
      OneTransfer(s1, IODIRB, Directions(desired));
      AfterJoin(s, s1, Turn(s, state, desired).0, 1, 1);
    }
  }

  lemma {:induction false} LatchTransfers(s: Slot, v: word)
    ensures var (s', ok) := Latch(s, v);
      After(s, s', 2) && (ok <==> AllDone(s, 2))
  {
    hide WriteByteData, After, AllDone, Low, High;
    var s1 := WriteByteData(s, OLATA, Low(v)).0;
    OneTransfer(s, OLATA, Low(v));
    OneTransfer(s1, OLATB, High(v));
    AfterJoin(s, s1, Latch(s, v).0, 1, 1);
  }

  lemma {:induction false} SampleTransfers(s: Slot)
    ensures var (s', v) := Sample(s);
      After(s, s', 2) && (v.Some? <==> AllDone(s, 2))
  {
    hide ReadByteData, After, AllDone, Join;
    var s1 := ReadByteData(s, GPIOA).0;
    OneTransfer(s, GPIOA, 0);
    OneTransfer(s1, GPIOB, 0);
    AfterJoin(s, s1, Sample(s).0, 1, 1);
  }

  /** The transfers that a driver makes to write or to read a whole value. */
  function WriteTransfers(driver: Driver, state: IoState): nat {
    match driver
    case Piface => 0
    case Pcf8574 => 1
    case Mcp23017 => ToTurn(state, Writing) + 2
  }

  function ReadTransfers(driver: Driver, state: IoState): nat {
    match driver
    case Piface => 0
    case Pcf8574 => 1
    case Mcp23017 => ToTurn(state, Reading) + 2
  }

  /** A PiFace makes no transfer on the bus, and always works. */
  ghost predicate Works(driver: Driver, s: Slot, n: nat) {
    driver == Piface || AllDone(s, n)
  }

  ghost predicate AfterAll(driver: Driver, s: Slot, s': Slot, n: nat) {
    if driver == Piface then s' == s else After(s, s', n)
  }

  /** The directions could not be set. */
  ghost predicate Stuck(driver: Driver, s: Slot, state: IoState, desired: IoState) {
    driver == Mcp23017 && state != desired && !AllDone(s, 2)
  }

  /** A driver writes successfully exactly when every transfer it needs is done; it makes none behind
      one that fails, and complains exactly when it cannot set the directions. */
  lemma {:induction false} WriteOutcome(driver: Driver, loc: Local, v: word)
    ensures var out := DevWrite(driver, loc, v);
      && (out.ok <==> Works(driver, loc.slot, WriteTransfers(driver, loc.state)))
      && AfterAll(driver, loc.slot, out.loc.slot, WriteTransfers(driver, loc.state))
      && out.complaint == (if Stuck(driver, loc.slot, loc.state, Writing) then WRITE_MODE_FAILED else "")
  {
    hide Turn, Latch, After, AllDone, SendByte, SpiStore;
    OneTransfer(loc.slot, 0, Low(v));
    if driver == Mcp23017 {
      var (s, state) := Turn(loc.slot, loc.state, Writing);
      TurnTransfers(loc.slot, loc.state, Writing);
      LatchTransfers(s, v);
      AfterTurn(loc.slot, s, DevWrite(driver, loc, v).loc.slot, loc.state, Writing);
    }
  }

  /** Setting the directions and then two transfers. */
  lemma {:induction false} AfterTurn(s: Slot, s1: Slot, s2: Slot, state: IoState, desired: IoState)
    requires After(s, s1, ToTurn(state, desired))
    requires if state == desired || AllDone(s, 2) then After(s1, s2, 2) else s2 == s1
    ensures After(s, s2, ToTurn(state, desired) + 2)
    ensures AllDone(s, ToTurn(state, desired) + 2) <==> (state == desired || AllDone(s, 2)) && AllDone(s1, 2)
  {
    hide After, AllDone;
    if state != desired {
      AfterJoin(s, s1, s2, 2, 2);
    } else {
      AfterNone(s, s1, s2, 2);
    }
  }

  lemma {:induction false} AfterNone(s: Slot, s1: Slot, s2: Slot, n: nat)
    requires After(s, s1, 0) && After(s1, s2, n)
    ensures After(s, s2, n) && (AllDone(s, n) <==> AllDone(s1, n))
  {
  }

  lemma {:induction false} ReadOutcome(driver: Driver, loc: Local, v: word)
    ensures var out := DevRead(driver, loc, v);
      && (out.ok <==> Works(driver, loc.slot, ReadTransfers(driver, loc.state)))
      && AfterAll(driver, loc.slot, out.loc.slot, ReadTransfers(driver, loc.state))
      && out.complaint == (if Stuck(driver, loc.slot, loc.state, Reading) then READ_MODE_FAILED else "")
      && (driver == Mcp23017 && out.ok ==> out.loc.state == Reading)
      && (!out.ok ==> out.value == if driver == Pcf8574 then 0 else v)
  {
    hide Turn, Sample, After, AllDone, ReceiveByte, SpiFetch;
    OneTransfer(loc.slot, 0, 0);
    if driver == Mcp23017 {
      var (s, state) := Turn(loc.slot, loc.state, Reading);
      TurnTransfers(loc.slot, loc.state, Reading);
      SampleTransfers(s);
      AfterTurn(loc.slot, s, DevRead(driver, loc, v).loc.slot, loc.state, Reading);
    }
  }

  // ---- requests --------------------------------------------------------------------------------------

  /** The transfers that a request needs: a bit is written into what has been read first, and behind
      a read an MCP23017 has to be turned. */
  function Needed(driver: Driver, state: IoState, sub: int, cmd: Command): nat {
    if cmd != CmdWrite then ReadTransfers(driver, state)
    else if sub == IDX_INVALID then WriteTransfers(driver, state)
    else ReadTransfers(driver, state) + WriteTransfers(driver, if driver == Mcp23017 then Reading else state)
  }

  const CANNOT_READ := "Could not read from device."
  const CANNOT_TURN_TO_WRITE := "Could not configure given " + "MCP23017 in write mode"
  const CANNOT_TURN_TO_READ := "Could not configure givem " + "MCP23017 in read mode"

  /** What a request in vain is answered. */
  ghost function Failure(driver: Driver, s: Slot, state: IoState, sub: int, cmd: Command): (reply: string)
  {
    if cmd != CmdWrite then
      (if Stuck(driver, s, state, Reading) then ErrorJson(CANNOT_TURN_TO_READ) else "")
    else if sub == IDX_INVALID then
      (if Stuck(driver, s, state, Writing) then ErrorJson(CANNOT_TURN_TO_WRITE) else "")
    else if !Works(driver, s, ReadTransfers(driver, state)) then ErrorJson(CANNOT_READ)
    else if driver == Mcp23017 && !AllDone(s, ReadTransfers(driver, state) + 2) then ErrorJson(CANNOT_TURN_TO_WRITE)
    else ""
  }

  /** What one request is answered, from the outcomes of its transfers alone. */
  ghost predicate Answered(driver: Driver, s: Slot, state: IoState, d: Data, cmd: Command, after: Data, reply: string,
                           rc: int)
  {
    && (Works(driver, s, Needed(driver, state, d.sub, cmd)) ==> reply == DataJson(after) && rc == EXIT_SUCCESS)
    && (!Works(driver, s, Needed(driver, state, d.sub, cmd)) ==>
          && reply == Failure(driver, s, state, d.sub, cmd)
          && rc == if reply == ErrorJson(CANNOT_READ) then EXIT_FAILURE else EXIT_SUCCESS)
    && (cmd == CmdWrite ==> after == d) && after == d.(value := after.value)
    && (cmd != CmdWrite && !Works(driver, s, Needed(driver, state, d.sub, cmd)) ==>
          after.value == if driver == Pcf8574 then 0 else d.value)
  }

  lemma {:induction false} ServeWhole(driver: Driver, loc: Local, d: Data)
    requires d.sub == IDX_INVALID
    ensures var r := Serve(driver, loc, d, CmdWrite, "");
      && Answered(driver, loc.slot, loc.state, d, CmdWrite, r.data, r.reply, r.rc)
      && AfterAll(driver, loc.slot, r.loc.slot, Needed(driver, loc.state, d.sub, CmdWrite))
  {
    hide DevWrite, DataJson, ErrorJson, Works, AfterAll, Stuck, WriteTransfers;
    WriteOutcome(driver, loc, d.value);
    Messages();
    StuckFails(driver, loc.slot, loc.state);
    RepliesDiffer(d, CANNOT_READ);
    ReadMessageAlone();
  }

  lemma {:induction false} Messages()
    ensures CANNOT_READ == NO_READ
    ensures CANNOT_TURN_TO_WRITE == WRITE_MODE_FAILED && CANNOT_TURN_TO_READ == READ_MODE_FAILED
    ensures CANNOT_TURN_TO_WRITE != "" && CANNOT_TURN_TO_READ != ""
  {
  }

  lemma {:induction false} ReadMessageAlone()
    ensures ErrorJson(CANNOT_READ) != ErrorJson(CANNOT_TURN_TO_WRITE)
    ensures ErrorJson(CANNOT_READ) != ErrorJson(CANNOT_TURN_TO_READ) && ErrorJson(CANNOT_READ) != ""
  {
    hide ErrorJson;
    ErrorLength(CANNOT_READ);
    ErrorLength(CANNOT_TURN_TO_WRITE);
    ErrorLength(CANNOT_TURN_TO_READ);
    assert |CANNOT_READ| == 27 && |CANNOT_TURN_TO_WRITE| == 48 && |CANNOT_TURN_TO_READ| == 47;
  }

  lemma {:induction false} StuckFails(driver: Driver, s: Slot, state: IoState)
    ensures Stuck(driver, s, state, Writing) ==> !Works(driver, s, WriteTransfers(driver, state))
    ensures Stuck(driver, s, state, Reading) ==> !Works(driver, s, ReadTransfers(driver, state))
  {
    if driver == Mcp23017 && s.Present? {
      assert AllDone(s, 4) ==> AllDone(s, 2);
    }
  }

  lemma {:induction false} ServeReading(driver: Driver, loc: Local, d: Data)
    ensures var r := Serve(driver, loc, d, CmdRead, "");
      && Answered(driver, loc.slot, loc.state, d, CmdRead, r.data, r.reply, r.rc)
      && AfterAll(driver, loc.slot, r.loc.slot, Needed(driver, loc.state, d.sub, CmdRead))
  {
    hide DevRead, DataJson, ErrorJson, Works, AfterAll, Stuck, ReadTransfers, ShiftRight;
    ReadOutcome(driver, loc, d.value);
    Messages();
    StuckFails(driver, loc.slot, loc.state);
    ReadMessageAlone();
  }

  lemma {:induction false} ServeBit(driver: Driver, loc: Local, d: Data)
    requires 0 <= d.sub < 31
    ensures var r := Serve(driver, loc, d, CmdWrite, "");
      && Answered(driver, loc.slot, loc.state, d, CmdWrite, r.data, r.reply, r.rc)
      && AfterAll(driver, loc.slot, r.loc.slot, Needed(driver, loc.state, d.sub, CmdWrite))
  {
    hide DevWrite, DevRead, DataJson, ErrorJson, Works, AfterAll, Stuck, WriteTransfers, ReadTransfers, Merge;
    ReadOutcome(driver, loc, d.value);
    var r := DevRead(driver, loc, d.value);
    Messages();
    ReadMessageAlone();
    StuckFails(driver, loc.slot, loc.state);
    if r.ok {
      var v := Merge(r.value, d.sub, d.value);
      WriteOutcome(driver, r.loc, v);
      BehindRead(driver, loc.slot, loc.state, r.loc, DevWrite(driver, r.loc, v).loc.slot);
      OtherStateKept(driver, loc, d.value);
    } else {
      NothingBehindRead(driver, loc.slot, loc.state, r.loc.slot);
    }
  }

  lemma {:induction false} OtherStateKept(driver: Driver, loc: Local, v: word)
    ensures driver != Mcp23017 ==> DevRead(driver, loc, v).loc.state == loc.state
    ensures driver != Mcp23017 ==>
      WriteTransfers(driver, DevRead(driver, loc, v).loc.state) == WriteTransfers(driver, loc.state)
  {
    DriverTouches(driver, loc, v);
  }

  /** The write behind a read that has succeeded. */
  lemma {:induction false} BehindRead(driver: Driver, s: Slot, state: IoState, loc: Local, s2: Slot)
    requires Works(driver, s, ReadTransfers(driver, state))
    requires AfterAll(driver, s, loc.slot, ReadTransfers(driver, state))
    requires AfterAll(driver, loc.slot, s2, WriteTransfers(driver, loc.state))
    requires driver == Mcp23017 ==> loc.state == Reading
    ensures var n := ReadTransfers(driver, state) + WriteTransfers(driver, loc.state);
      && AfterAll(driver, s, s2, n)
      && (Works(driver, s, n) <==> Works(driver, loc.slot, WriteTransfers(driver, loc.state)))
    ensures Stuck(driver, loc.slot, loc.state, Writing) <==>
      driver == Mcp23017 && !AllDone(s, ReadTransfers(driver, state) + 2)
  {
    hide After, AllDone;
    if driver != Piface {
      AfterJoin(s, loc.slot, s2, ReadTransfers(driver, state), WriteTransfers(driver, loc.state));
      DoneJoin(s, loc.slot, ReadTransfers(driver, state), 2);
    }
  }

  lemma {:induction false} DoneJoin(s: Slot, s1: Slot, m: nat, n: nat)
    requires After(s, s1, m) && AllDone(s, m)
    ensures AllDone(s, m + n) <==> AllDone(s1, n)
  {
    MadeJoin(s.chip.env, s.chip.ticks, m, n);
  }

  lemma {:induction false} NothingBehindRead(driver: Driver, s: Slot, state: IoState, s1: Slot)
    requires !Works(driver, s, ReadTransfers(driver, state))
    requires AfterAll(driver, s, s1, ReadTransfers(driver, state))
    ensures
      var n := ReadTransfers(driver, state) + WriteTransfers(driver, if driver == Mcp23017 then Reading else state);
      AfterAll(driver, s, s1, n) && !Works(driver, s, n)
  {
    hide After, AllDone;
    var turned := if driver == Mcp23017 then Reading else state;
    AfterJoin(s, s1, s1, ReadTransfers(driver, state), WriteTransfers(driver, turned));
  }

  /** Every request in range, on every table: it is answered with success exactly when each transfer
      it needs reaches a chip and is done, and else with the message for the step that failed, or not
      at all; and no transfer is made behind one that has failed. */
  lemma {:induction false} RequestOutcome(w: World, q: Request)
    requires Servable(w, q.data, q.cmd) && InTable(w, q.data) && q.cmd != CmdNone
    ensures var b, d := q.data.bus, q.data.dev;
      var driver, loc, p := DevAt(w, b, d).driver.value, LocalOf(w, b, d), Perform(w, q.data, q.cmd, "");
      && Answered(driver, loc.slot, loc.state, q.data, q.cmd, p.data, p.reply, p.rc)
      && HasDevice(p.world, b, d)
      && AfterAll(driver, loc.slot, LocalOf(p.world, b, d).slot, Needed(driver, loc.state, q.data.sub, q.cmd))
  {
    hide Serve, LocalOf, PutLocal, Answered, AfterAll, Needed, Touches;
    var b, d := q.data.bus, q.data.dev;
    var driver, loc := DevAt(w, b, d).driver.value, LocalOf(w, b, d);
    if q.cmd == CmdRead {
      ServeReading(driver, loc, q.data);
    } else if q.data.sub == IDX_INVALID {
      ServeWhole(driver, loc, q.data);
    } else {
      ServeBit(driver, loc, q.data);
    }
    var r := Serve(driver, loc, q.data, q.cmd, "");
    ServeTouches(driver, loc, q.data, q.cmd, "");
    PutLocalTwice(w, b, d, r.loc, r.loc) by { TouchesSelf(driver, r.loc); }
  }

  /** So success is reported exactly when there was success. */
  lemma {:induction false} SuccessIffDone(w: World, q: Request)
    requires Servable(w, q.data, q.cmd) && InTable(w, q.data) && q.cmd != CmdNone
    ensures var b, d := q.data.bus, q.data.dev;
      var driver, loc, p := DevAt(w, b, d).driver.value, LocalOf(w, b, d), Perform(w, q.data, q.cmd, "");
      p.reply == DataJson(p.data) <==> Works(driver, loc.slot, Needed(driver, loc.state, q.data.sub, q.cmd))
  {
    hide Perform, LocalOf, Works, Needed, DataJson, ErrorJson, AfterAll, Servable;
    RequestOutcome(w, q);
    var p := Perform(w, q.data, q.cmd, "");
    RepliesDiffer(p.data, CANNOT_READ);
    RepliesDiffer(p.data, CANNOT_TURN_TO_WRITE);
    RepliesDiffer(p.data, CANNOT_TURN_TO_READ);
  }
}
