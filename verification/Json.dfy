/** The reply formats of src/http.c, and the buffer they are written to. */
module Json {
  import opened Bits
  import opened CString
  import opened Numbers
  import opened Uri

  function DataJson(d: Data): string
  {
    "callback({ " +
    "\"bus_idx\": \"" + Decimal(d.bus) + "\", " +
    "\"dev_idx\": " + Decimal(d.dev) + ", " +
    "\"dev_sub_idx\": " + Decimal(d.sub) + ", " +
    "\"value\": \"" + Hex(d.value) + "\"" +
    " })"
  }

  function ErrorJson(msg: string): string
  {
    "{ " + "\"msg\": \"" + msg + "\"" + " }"
  }

  /** The reply after a driver's complaint, if it had one. */
  function Said(reply: string, complaint: string): string {
    if complaint == "" then reply else ErrorJson(complaint)
  }

  /** snprintf(buf, buf.Length, "%s", s) */
  method Snprintf(buf: array<char>, s: string)
    requires buf.Length > 0 && NoNul(s)
    modifies buf
    ensures Holds(buf[..], 0, Take(s, buf.Length - 1))
  {
    var n := if |s| < buf.Length then |s| else buf.Length - 1;
    for i := 0 to n
      invariant forall k :: 0 <= k < i ==> buf[k] == s[k]
    {
      buf[i] := s[i];
    }
    buf[n] := NUL;
  }

  lemma {:induction false} DecimalNoNul(n: int)
    ensures NoNul(Decimal(n))
  {
    DigitsNoNul(if n < 0 then -n else n, 10);
  }

  lemma {:induction false} NoNulJoin(a: string, b: string)
    requires NoNul(a) && NoNul(b)
    ensures NoNul(a + b)
  {
  }

  /** One more field of a reply: its key and its value. */
  lemma {:induction false} NoNulField(front: string, key: string, value: string)
    requires NoNul(front) && NoNul(key) && NoNul(value)
    ensures NoNul(front + key + value)
  {
  }

  lemma {:induction false} JsonFits(d: Data)
    requires Int32Data(d)
    ensures NoNul(DataJson(d)) && |DataJson(d)| < BUF_LEN
  {
    hide Decimal, Hex;
    OutputLengths(d.bus, d.value);
    OutputLengths(d.dev, d.value);
    OutputLengths(d.sub, d.value);
    JsonNoNul(d);
  }

  lemma {:induction false} JsonNoNul(d: Data)
    ensures NoNul(DataJson(d))
  {
    hide Decimal, Hex, NoNul;
    DecimalNoNul(d.bus);
    DecimalNoNul(d.dev);
    DecimalNoNul(d.sub);
    HexNoNul(d.value);
    LabelsNoNul();
    var s := "callback({ " + "\"bus_idx\": \"" + Decimal(d.bus);
    NoNulField("callback({ ", "\"bus_idx\": \"", Decimal(d.bus));
    NoNulField(s, "\", ", "\"dev_idx\": ");
    s := s + "\", " + "\"dev_idx\": ";
    NoNulField(s, Decimal(d.dev), ", ");
    s := s + Decimal(d.dev) + ", ";
    NoNulField(s, "\"dev_sub_idx\": ", Decimal(d.sub));
    s := s + "\"dev_sub_idx\": " + Decimal(d.sub);
    NoNulField(s, ", ", "\"value\": \"");
    s := s + ", " + "\"value\": \"";
    NoNulField(s, Hex(d.value), "\"");
    s := s + Hex(d.value) + "\"";
    NoNulJoin(s, " })");
    assert DataJson(d) == s + " })";
  }

  lemma {:induction false} HexNoNul(v: word)
    ensures NoNul(Hex(v))
  {
    DigitsNoNul(v, 16);
  }

  lemma {:induction false} LabelsNoNul()
    ensures NoNul("callback({ ") && NoNul("\"bus_idx\": \"") && NoNul("\", ") && NoNul("\"dev_idx\": ")
    ensures NoNul("\"dev_sub_idx\": ") && NoNul(", ") && NoNul("\"value\": \"") && NoNul("\"") && NoNul(" })")
  {
  }

  /** io_data_to_json: a request of 32-bit parts always fits the reply buffer. */
  method IoDataToJson(data: IoData, buf: array<char>)
    requires buf.Length == BUF_LEN && Int32Data(data.View())
    modifies buf
    ensures Holds(buf[..], 0, DataJson(data.View()))
  {
    hide DataJson, NoNul;
    JsonFits(data.View());
    var d := Data(data.bus, data.dev, data.sub, data.value);
    Snprintf(buf, DataJson(d));
  }

  method ErrorToJson(msg: string, buf: array<char>)
    requires buf.Length == BUF_LEN && NoNul(msg) && |msg| < 1000
    modifies buf
    ensures Holds(buf[..], 0, ErrorJson(msg))
  {
    NoNulJoin("{ ", "\"msg\": \"");
    NoNulField("{ " + "\"msg\": \"", msg, "\"");
    NoNulJoin("{ " + "\"msg\": \"" + msg + "\"", " }");
    Snprintf(buf, ErrorJson(msg));
  }
}
