/** Requests that cannot be performed: what they are answered, and that they change nothing. */
module Rejections {
  import opened Http
  import opened IoRequests
  import opened IoTable
  import opened Json
  import opened Numbers
  import opened Numerals
  import opened Runs
  import opened Uri

  /** Nothing has happened, and the caller is told why. */
  ghost predicate Refused(p: Performed, w: World, d: Data, msg: string) {
    p.world == w && p.data == d && p.reply == ErrorJson(msg) && p.rc == EXIT_FAILURE
  }

  /** A request that names no bus, or no device of the bus, or that is neither a read nor a write. */
  lemma {:induction false} BadIndices(w: World, q: Request, reply: string)
    requires Servable(w, q.data, q.cmd)
    ensures var b, d, p := q.data.bus, q.data.dev, Perform(w, q.data, q.cmd, reply);
      && (b == -1 || b >= w.conf.numBusses ==> Refused(p, w, q.data, "Bus ID not existing."))
      && (0 <= b < w.conf.numBusses && (d == -1 || d >= w.conf.busses[b].numDevices) ==>
            Refused(p, w, q.data, "Device ID not existing."))
      && (InTable(w, q.data) && q.cmd == CmdNone ==> Refused(p, w, q.data, "Illegal command."))
  {
    hide Serve, PutLocal, LocalOf, ErrorJson;
  }

  /** The same from URI to reply. */
  lemma {:induction false} BadIndicesOfUri(w: World, d: Data, isSet: bool)
    requires Servable(w, d, if isSet then CmdWrite else CmdRead)
    ensures Acceptable(w, PrintUri(d, isSet))
    ensures d.bus == -1 || d.bus >= w.conf.numBusses ==>
      Handle(w, PrintUri(d, isSet)) == (w, ErrorJson("Bus ID not existing."))
    ensures 0 <= d.bus < w.conf.numBusses && (d.dev == -1 || d.dev >= w.conf.busses[d.bus].numDevices) ==>
      Handle(w, PrintUri(d, isSet)) == (w, ErrorJson("Device ID not existing."))
  {
    hide Perform, Handle, Acceptable, PrintUri, ErrorJson;
    var cmd := if isSet then CmdWrite else CmdRead;
    HandlePrinted(w, d, isSet);
    BadIndices(w, Request(if isSet then d else d.(value := 0), cmd), "");
  }

  /** The components of a URI that a request consists of are numbers. */
  ghost predicate Understood(uri: string) {
    var path := Tokens(uri, '/');
    && |path| >= 2 && IsNumeral(path[0], 10) && DevNumerals(path[1])
    && (|path| > 2 ==> IsNumeral(path[2], 16))
  }

  /** A URI is taken for a request exactly when its components are numbers to the last character;
      any other is answered with an error, and nothing happens. */
  lemma {:induction false} NotUnderstood(w: World, uri: string)
    requires Parsable(uri)
    ensures PathMeaning(Tokens(uri, '/')).0 == RequestErr <==> !Understood(uri)
    ensures !Understood(uri) ==>
      Acceptable(w, uri) && Handle(w, uri) == (w, ErrorJson("Invalid request type"))
  {
    hide Tokens, PathMeaning, IsNumeral, DevNumerals, Perform, ErrorJson;
    RequestOfUri(uri);
  }

  /** In particular one character behind the digits of a bus index or of a value is enough. */
  lemma {:induction false} TailIsError(w: World, uri: string, k: nat, p: Parts)
    requires Parsable(uri) && k < |Tokens(uri, '/')| && (k == 0 || k == 2)
    requires Tokens(uri, '/')[k] == Spelled(p) && Numeric(p, if k == 0 then 10 else 16) && p.tail != ""
    ensures Acceptable(w, uri) && Handle(w, uri) == (w, ErrorJson("Invalid request type"))
  {
    hide Tokens, PathMeaning, IsNumeral, DevNumerals, Acceptable, Handle, ErrorJson, Numeric, Spelled, Complete;
    TailIsNoNumeral(p, if k == 0 then 10 else 16);
    NotUnderstood(w, uri);
  }

  /** The same for a device or sub-device index. */
  lemma {:induction false} DevTailIsError(w: World, uri: string, k: nat, p: Parts)
    requires Parsable(uri) && |Tokens(uri, '/')| > 1 && k < |Tokens(Tokens(uri, '/')[1], '.')| && k < 2
    requires Tokens(Tokens(uri, '/')[1], '.')[k] == Spelled(p) && Numeric(p, 10) && p.tail != ""
    ensures Acceptable(w, uri) && Handle(w, uri) == (w, ErrorJson("Invalid request type"))
  {
    hide Tokens, PathMeaning, IsNumeral, Acceptable, Handle, ErrorJson, Numeric, Spelled, Complete;
    TailIsNoNumeral(p, 10);
    NotUnderstood(w, uri);
  }

  /** For example a device "1x". */
  lemma {:induction false} LetterBehindDigit(w: World)
    ensures Acceptable(w, "/0/1x") && Handle(w, "/0/1x") == (w, ErrorJson("Invalid request type"))
  {
    hide Acceptable, Handle, ErrorJson, Tokens;
    PathTokens("0", "1x", "");
    assert "/" + ("0" + ("/" + ("1x" + ""))) == "/0/1x";
    OneToken("1x", '.');
    var p := Parts("", "", "", "1", "x");
    assert Spelled(p) == "1x";
    DevTailIsError(w, "/0/1x", 0, p);
  }

  /** The spellings of a value: both cases of its digits, with and without prefix. */
  lemma {:induction false} SpellingsOfValue()
    ensures ToUint32(Strtoul("ff", 16)) == 255 && ToUint32(Strtoul("FF", 16)) == 255
    ensures ToUint32(Strtoul("0xFf", 16)) == 255 && Hex(255) == "ff"
  {
    hide Strtoul, ToUint32;
    TwoDigits("", 'f', 'f');
    TwoDigits("", 'F', 'F');
    TwoDigits("0x", 'F', 'f');
    assert "" + ['f', 'f'] == "ff" && "" + ['F', 'F'] == "FF" && "0x" + ['F', 'f'] == "0xFf";
  }

  lemma {:induction false} TwoDigits(prefix: string, a: char, b: char)
    requires DigitOf(a, 16) && DigitOf(b, 16) && (prefix == "" || prefix == "0x" || prefix == "0X")
    ensures ToUint32(Strtoul(prefix + [a, b], 16)) == 16 * DigitValue(a) + DigitValue(b)
  {
    hide Strtoul, ToUint32, DigitValue, DigitOf;
    var p := Parts("", "", prefix, [a, b], "");
    assert Spelled(p) == prefix + [a, b];
    assert [a, b][..1] == [a] && [a][..0] == "";
    assert Value([a], 16) == Value("", 16) * 16 + DigitValue(a);
    HexBelow16(a);
    HexBelow16(b);
    NumeralValue(p, 16);
  }

  lemma {:induction false} HexBelow16(c: char)
    requires DigitOf(c, 16)
    ensures DigitValue(c) < 16
  {
  }
}
