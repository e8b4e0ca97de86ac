/** perform_io as the program runs it, calling the drivers' read and write in turn. */
module PerformIo {
  import opened Bits
  import opened Chips
  import opened CString
  import opened DriverCode
  import opened Drivers
  import opened IoRequests
  import opened IoTable
  import opened Json
  import opened Uri

  lemma {:induction false} MessageTexts()
    ensures NoNul(NO_BUS) && NoNul(NO_DEVICE) && NoNul(ILLEGAL_COMMAND) && NoNul(NO_READ) && NoNul(BAD_SUB)
  {
  }

  /** drv_handle->write */
  method DriverWrite(conf: IoConfig, hw: Hardware, b: nat, d: nat, value: word, buf: array<char>, ghost reply: string)
    returns (n: int, ghost reply': string)
    requires HasDevice(WorldOf(conf, hw), b, d) && Ready(DevAt(WorldOf(conf, hw), b, d))
    requires buf.Length == BUF_LEN && Holds(buf[..], 0, reply)
    modifies conf.busses, hw, buf
    ensures var w := old(WorldOf(conf, hw));
      Did(w, b, d, DevWrite(DevAt(w, b, d).driver.value, LocalOf(w, b, d), value), WorldOf(conf, hw), n, reply, reply')
    ensures Holds(buf[..], 0, reply')
  {
    hide McpWrite, Holds;
    reply' := reply;
    match conf.busses[b].devices[d].driver.value {
      case Mcp23017 => n, reply' := Mcp23017Write(conf, hw, b, d, value, buf, reply);
      case Pcf8574 => n := Pcf8574Write(conf, hw, b, d, value);
      case Piface =>
        SpiWrite(hw, GPIOA, Low(value));
        n := 1;
    }
  }

  /** drv_handle->read */
  method DriverRead(conf: IoConfig, hw: Hardware, b: nat, d: nat, value0: word, buf: array<char>, ghost reply: string)
    returns (n: int, value: word, ghost reply': string)
    requires HasDevice(WorldOf(conf, hw), b, d) && Ready(DevAt(WorldOf(conf, hw), b, d))
    requires buf.Length == BUF_LEN && Holds(buf[..], 0, reply)
    modifies conf.busses, hw, buf
    ensures var w := old(WorldOf(conf, hw));
      var out := DevRead(DevAt(w, b, d).driver.value, LocalOf(w, b, d), value0);
      Did(w, b, d, out, WorldOf(conf, hw), n, reply, reply') && value == out.value
    ensures Holds(buf[..], 0, reply')
  {
    hide McpRead, Holds;
    reply' := reply;
    match conf.busses[b].devices[d].driver.value {
      case Mcp23017 => n, value, reply' := Mcp23017Read(conf, hw, b, d, value0, buf, reply);
      case Pcf8574 => n, value := Pcf8574Read(conf, hw, b, d);
      case Piface =>
        value := SpiRead(hw, GPIOA);
        n := 1;
    }
  }

  /** Lines 143 to 173 of src/io.c. */
  method ServeWriteCode(conf: IoConfig, hw: Hardware, data: IoData, buf: array<char>, ghost reply: string)
    returns (rc: int, ghost reply': string)
    requires Servable(WorldOf(conf, hw), data.View(), CmdWrite) && InTable(WorldOf(conf, hw), data.View())
    requires buf.Length == BUF_LEN && Holds(buf[..], 0, reply)
    modifies conf.busses, hw, buf
    ensures var w, q := old(WorldOf(conf, hw)), data.View();
      var r := ServeWrite(DevAt(w, q.bus, q.dev).driver.value, LocalOf(w, q.bus, q.dev), q, reply);
      && WorldOf(conf, hw) == PutLocal(w, q.bus, q.dev, r.loc)
      && data.View() == r.data && reply' == r.reply && rc == r.rc
    ensures Holds(buf[..], 0, reply')
  {
    hide Holds, DevWrite, DevRead, PutLocal, LocalOf, Touches, DataJson, NoNul;
    ghost var w, q := WorldOf(conf, hw), data.View();
    ghost var b, d := q.bus, q.dev;
    ghost var driver, loc := DevAt(w, b, d).driver.value, LocalOf(w, b, d);
    var value := data.value;
    reply' := reply;
    var n;
    if data.sub != IDX_INVALID {
      DriverTouches(driver, loc, q.value);
      ghost var r := DevRead(driver, loc, q.value);
      PutLocalTwice(w, b, d, r.loc, r.loc) by { TouchesSelf(driver, r.loc); }
      n, value, reply' := DriverRead(conf, hw, data.bus, data.dev, value, buf, reply);
      if n <= 0 {
        MessageTexts();
        ErrorToJson(NO_READ, buf);
        return EXIT_FAILURE, ErrorJson(NO_READ);
      }
      value := Merge(value, data.sub, data.value);
      DriverTouches(driver, r.loc, value);
      PutLocalTwice(w, b, d, r.loc, DevWrite(driver, r.loc, value).loc);
    }
    n, reply' := DriverWrite(conf, hw, data.bus, data.dev, value, buf, reply');
    if n > 0 {
      IoDataToJson(data, buf);
      reply' := DataJson(q);
    }
    rc := EXIT_SUCCESS;
  }

  /** Lines 175 to 195 of src/io.c. */
  method ServeReadCode(conf: IoConfig, hw: Hardware, data: IoData, buf: array<char>, ghost reply: string)
    returns (rc: int, ghost reply': string)
    requires Servable(WorldOf(conf, hw), data.View(), CmdRead) && InTable(WorldOf(conf, hw), data.View())
    requires buf.Length == BUF_LEN && Holds(buf[..], 0, reply)
    modifies conf.busses, hw, data, buf
    ensures var w, q := old(WorldOf(conf, hw)), old(data.View());
      var r := ServeRead(DevAt(w, q.bus, q.dev).driver.value, LocalOf(w, q.bus, q.dev), q, reply);
      && WorldOf(conf, hw) == PutLocal(w, q.bus, q.dev, r.loc)
      && data.View() == r.data && reply' == r.reply && rc == r.rc
    ensures Holds(buf[..], 0, reply')
  {
    hide Holds, DevRead, PutLocal, LocalOf, DataJson, NoNul, ShiftRight;
    var n, value;
    n, value, reply' := DriverRead(conf, hw, data.bus, data.dev, data.value, buf, reply);
    data.value := value;
    if n > 0 {
      if data.sub != IDX_INVALID {
        if data.sub >= 0 && data.sub < 32 {
          data.value := ShiftRight(data.value, data.sub) % 2;
        } else {
          MessageTexts();
          ErrorToJson(BAD_SUB, buf);
        }
      }
      IoDataToJson(data, buf);
      reply' := DataJson(data.View());
    }
    rc := EXIT_SUCCESS;
  }

  /** perform_io */
  method Perform(conf: IoConfig, hw: Hardware, data: IoData, cmd: Command, buf: array<char>, ghost reply: string)
    returns (rc: int, ghost reply': string)
    requires Servable(WorldOf(conf, hw), data.View(), cmd)
    requires buf.Length == BUF_LEN && Holds(buf[..], 0, reply)
    modifies conf.busses, hw, data, buf
    ensures var p := IoRequests.Perform(old(WorldOf(conf, hw)), old(data.View()), cmd, reply);
      && WorldOf(conf, hw) == p.world && data.View() == p.data && reply' == p.reply && rc == p.rc
    ensures Holds(buf[..], 0, reply')
  {
    hide Holds, ServeRead, ServeWrite, PutLocal, LocalOf, NoNul;
    MessageTexts();
    if data.bus == IDX_INVALID || data.bus >= conf.numBusses {
      ErrorToJson(NO_BUS, buf);
      return EXIT_FAILURE, ErrorJson(NO_BUS);
    }
    if data.dev == IDX_INVALID || data.dev >= conf.busses[data.bus].numDevices {
      ErrorToJson(NO_DEVICE, buf);
      return EXIT_FAILURE, ErrorJson(NO_DEVICE);
    }
    if cmd != CmdWrite && cmd != CmdRead {
      ErrorToJson(ILLEGAL_COMMAND, buf);
      return EXIT_FAILURE, ErrorJson(ILLEGAL_COMMAND);
    }
    if cmd == CmdWrite {
      rc, reply' := ServeWriteCode(conf, hw, data, buf, reply);
    } else {
      rc, reply' := ServeReadCode(conf, hw, data, buf, reply);
    }
  }
}
