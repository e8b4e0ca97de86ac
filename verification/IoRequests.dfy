/** perform_io: one request against the table of devices. */
module IoRequests {
  import opened Bits
  import opened Drivers
  import opened IoTable
  import opened Json
  import opened Uri

  datatype Command = CmdNone | CmdWrite | CmdRead

  const EXIT_SUCCESS := 0
  const EXIT_FAILURE := 1

  const NO_BUS := "Bus ID not existing."
  const NO_DEVICE := "Device ID not existing."
  const ILLEGAL_COMMAND := "Illegal command."
  const NO_READ := "Could not read from device."
  const BAD_SUB := "Invalid sub device-index given."

  /** Outcome of a request at one device. */
  datatype Served = Served(loc: Local, data: Data, reply: string, rc: int)

  /** Read-modify-write of one bit, in the copy of the value that has just been read. */
  function Merge(sampled: word, sub: nat, value: word): word
    requires sub < 31
  {
    if value != 0 then SetMask(sampled, sub) else AndNot(sampled, Mask(sub))
  }

  function WriteAt(driver: Driver, loc: Local, data: Data, v: word, reply: string): Served
  {
    var out := DevWrite(driver, loc, v);
    Served(out.loc, data, if out.ok then DataJson(data) else Said(reply, out.complaint), EXIT_SUCCESS)
  }

  function ServeWrite(driver: Driver, loc: Local, data: Data, reply: string): Served
    requires -1 <= data.sub < 31
  {
    if data.sub == IDX_INVALID then WriteAt(driver, loc, data, data.value, reply)
    else
      var r := DevRead(driver, loc, data.value);
      if !r.ok then Served(r.loc, data, ErrorJson(NO_READ), EXIT_FAILURE)
      else WriteAt(driver, r.loc, data, Merge(r.value, data.sub, data.value), Said(reply, r.complaint))
  }

  /** A sub-device index that is no bit number is reported first, and the reply is then
      overwritten with the whole value. */
  function ServeRead(driver: Driver, loc: Local, data: Data, reply: string): Served
  {
    var r := DevRead(driver, loc, data.value);
    var d := data.(value := if r.ok && 0 <= data.sub < 32 then ShiftRight(r.value, data.sub) % 2 else r.value);
    Served(r.loc, d, if r.ok then DataJson(d) else Said(reply, r.complaint), EXIT_SUCCESS)
  }

  function Serve(driver: Driver, loc: Local, data: Data, cmd: Command, reply: string): Served
    requires cmd == CmdWrite ==> -1 <= data.sub < 31
  {
    if cmd == CmdWrite then ServeWrite(driver, loc, data, reply) else ServeRead(driver, loc, data, reply)
  }

  /** Bus and device index name an entry of the table. */
  predicate InTable(w: World, data: Data) {
    && 0 <= data.bus < w.conf.numBusses && data.bus < |w.conf.busses|
    && 0 <= data.dev < w.conf.busses[data.bus].numDevices
  }

  /** What the code takes for granted about its arguments and the table. */
  ghost predicate Servable(w: World, data: Data, cmd: Command) {
    && Shaped(w.conf) && |w.lines| == MAX_BUSSES
    && data.bus >= -1 && data.dev >= -1 && Int32Data(data)
    && (cmd == CmdWrite ==> -1 <= data.sub < 31)
    && (InTable(w, data) ==>
          && Ready(DevAt(w, data.bus, data.dev))
          && Attached(w.conf.busses[data.bus], DevAt(w, data.bus, data.dev)))
  }

  datatype Performed = Performed(world: World, data: Data, reply: string, rc: int)

  /** perform_io */
  ghost function Perform(w: World, data: Data, cmd: Command, reply: string): Performed
    requires Servable(w, data, cmd)
  {
    if data.bus == IDX_INVALID || data.bus >= w.conf.numBusses then
      Performed(w, data, ErrorJson(NO_BUS), EXIT_FAILURE)
    else if data.dev == IDX_INVALID || data.dev >= w.conf.busses[data.bus].numDevices then
      Performed(w, data, ErrorJson(NO_DEVICE), EXIT_FAILURE)
    else if cmd == CmdNone then
      Performed(w, data, ErrorJson(ILLEGAL_COMMAND), EXIT_FAILURE)
    else
      var r := Serve(DevAt(w, data.bus, data.dev).driver.value, LocalOf(w, data.bus, data.dev), data, cmd, reply);
      Performed(PutLocal(w, data.bus, data.dev, r.loc), r.data, r.reply, r.rc)
  }
}
