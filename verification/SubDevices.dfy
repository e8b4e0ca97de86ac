/** What a read of a sub-device replies: an index that is no bit number is never reported. */
module SubDevices {
  import opened Bits
  import opened Chips
  import opened Drivers
  import opened Http
  import opened IoRequests
  import opened IoTable
  import opened Json
  import opened Numbers
  import opened Options
  import opened PifaceMemory
  import opened Replies
  import opened Runs
  import opened Uri

  predicate IsBitNumber(sub: int) {
    0 <= sub < 32
  }

  function BitValue(v: nat, sub: nat): word {
    if Bit(v, sub) then 1 else 0
  }

  /** The reply to a read whose device has answered: the bit for a bit number; for -1 and for every
      index that is no bit number the whole value, without any sign that the index is wrong. The
      two agree only if the whole value is its own bit. */
  lemma {:induction false} ReadReply(w: World, d: Data)
    requires Servable(w, d, CmdRead) && InTable(w, d)
    requires DevRead(DevAt(w, d.bus, d.dev).driver.value, LocalOf(w, d.bus, d.dev), d.value).ok
    ensures var whole := DevRead(DevAt(w, d.bus, d.dev).driver.value, LocalOf(w, d.bus, d.dev), d.value).value;
      var p := Perform(w, d, CmdRead, "");
      && p.rc == EXIT_SUCCESS
      && (IsBitNumber(d.sub) ==> p.reply == DataJson(d.(value := BitValue(whole, d.sub))))
      && (p.reply == DataJson(d.(value := whole)) <==>
            !IsBitNumber(d.sub) || whole == BitValue(whole, d.sub))
  {
    hide DevRead, DataJson, LocalOf, PutLocal, ShiftRight;
    var whole := DevRead(DevAt(w, d.bus, d.dev).driver.value, LocalOf(w, d.bus, d.dev), d.value).value;
    if IsBitNumber(d.sub) {
      ReplyTellsValue(d, whole, BitValue(whole, d.sub));
    }
  }

  /** No request at all, in no state of no table, is answered that its sub-device index is invalid:
      perform_io overwrites that reply. */
  lemma {:induction false} BadSubNeverReported(w: World, q: Request)
    requires Servable(w, q.data, q.cmd)
    ensures Perform(w, q.data, q.cmd, "").reply != ErrorJson(BAD_SUB)
  {
    hide DevRead, DevWrite, DataJson, ErrorJson, LocalOf, PutLocal, Merge, ShiftRight;
    ErrorLength(BAD_SUB);
    ErrorLength(NO_BUS);
    ErrorLength(NO_DEVICE);
    ErrorLength(ILLEGAL_COMMAND);
    ErrorLength(NO_READ);
    ErrorLength(WRITE_MODE_FAILED);
    ErrorLength(READ_MODE_FAILED);
    MessageLengths();
    if InTable(w, q.data) && q.cmd != CmdNone {
      var driver, loc := DevAt(w, q.data.bus, q.data.dev).driver.value, LocalOf(w, q.data.bus, q.data.dev);
      var p := Perform(w, q.data, q.cmd, "");
      Complaints(driver, loc, q.data.value);
      var r := DevRead(driver, loc, q.data.value);
      if q.cmd == CmdWrite && q.data.sub != IDX_INVALID && r.ok {
        Complaints(driver, r.loc, Merge(r.value, q.data.sub, q.data.value));
      }
      FrontOfReply(q.data);
      FrontOfReply(p.data);
    }
  }

  lemma {:induction false} MessageLengths()
    ensures |BAD_SUB| == 31 && |NO_BUS| == 20 && |NO_DEVICE| == 23 && |ILLEGAL_COMMAND| == 16 && |NO_READ| == 27
    ensures |WRITE_MODE_FAILED| == 48 && |READ_MODE_FAILED| == 47
  {
  }

  /** What a driver complains about: nothing, or a direction that it could not set. */
  lemma {:induction false} Complaints(driver: Driver, loc: Local, v: word)
    ensures DevWrite(driver, loc, v).complaint == "" || DevWrite(driver, loc, v).complaint == WRITE_MODE_FAILED
    ensures DevRead(driver, loc, v).complaint == "" || DevRead(driver, loc, v).complaint == READ_MODE_FAILED
  {
    hide Turn, Latch, Sample, SendByte, ReceiveByte;
  }

  /** For example bit 32 of a PiFace: the reply is a success with the whole value. */
  lemma {:induction false} InvalidSubDeviceUri(w: World)
    requires Servable(w, Data(0, 0, 32, 0), CmdRead) && InTable(w, Data(0, 0, 32, 0))
    requires DevAt(w, 0, 0).driver == Some(Piface) && Driving(w.spi)
    ensures Acceptable(w, "/0/0.32")
    ensures Handle(w, "/0/0.32").1 == DataJson(Data(0, 0, 32, w.spi.olatA))
  {
    hide DataJson, PinLevels, Acceptable, Handle, PathMeaning, Tokens;
    var d := Data(0, 0, 32, 0);
    UriOfBit32();
    HandlePrinted(w, d, false);
    ReadDriven(w.spi);
    ReadReply(w, d);
  }

  lemma {:induction false} UriOfBit32()
    ensures PrintUri(Data(0, 0, 32, 0), false) == "/0/0.32"
  {
    assert Digits(32, 10) == Digits(3, 10) + [DigitChar(2)];
    assert Decimal(32) == "32" && Decimal(0) == "0";
  }
}
