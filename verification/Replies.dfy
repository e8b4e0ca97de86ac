/** The texts of replies: how they begin, what they tell apart, and what they say to the letter. */
module Replies {
  import opened Bits
  import opened Json
  import opened Numbers
  import opened Uri

  lemma {:induction false} HexDiffers(x: word, y: word)
    requires x != y
    ensures Hex(x) != Hex(y)
  {
    hide Digits, Value;
    DigitsRoundTrip(x, 16);
    DigitsRoundTrip(y, 16);
  }

  /** The reply up to its value. */
  function ReplyFront(d: Data): string
  {
    "callback({ " +
    "\"bus_idx\": \"" + Decimal(d.bus) + "\", " +
    "\"dev_idx\": " + Decimal(d.dev) + ", " +
    "\"dev_sub_idx\": " + Decimal(d.sub) + ", " +
    "\"value\": \""
  }

  lemma {:induction false} ReplyParts(d: Data)
    ensures DataJson(d) == ReplyFront(d) + Hex(d.value) + "\"" + " })"
    ensures |ReplyFront(d)| > 0 && ReplyFront(d)[0] == 'c'
  {
    hide Decimal, Hex;
  }

  lemma {:induction false} ValueInReply(d: Data)
    ensures var reply, n := DataJson(d), |ReplyFront(d)|;
      n + 4 <= |reply| && reply[n..|reply| - 4] == Hex(d.value)
  {
    hide DataJson, Hex, ReplyFront;
    ReplyParts(d);
  }

  /** Two replies to the same request differ exactly when their values do. */
  lemma {:induction false} ReplyTellsValue(d: Data, x: word, y: word)
    ensures DataJson(d.(value := x)) == DataJson(d.(value := y)) <==> x == y
  {
    hide DataJson, Hex, ReplyFront;
    var dx, dy := d.(value := x), d.(value := y);
    ValueInReply(dx);
    ValueInReply(dy);
    SameFront(d, x, y);
    if x != y {
      HexDiffers(x, y);
    }
  }

  lemma {:induction false} SameFront(d: Data, x: word, y: word)
    ensures ReplyFront(d.(value := x)) == ReplyFront(d.(value := y))
  {
    hide Decimal;
  }

  lemma {:induction false} ErrorLength(msg: string)
    ensures |ErrorJson(msg)| == |msg| + 13 && ErrorJson(msg)[0] == '{'
  {
  }

  lemma {:induction false} FrontOfReply(d: Data)
    ensures DataJson(d) != "" && DataJson(d)[0] == 'c'
  {
    hide DataJson, ReplyFront, Hex;
    ReplyParts(d);
  }

  /** A success and an error are different texts, and neither is the empty reply. */
  lemma {:induction false} RepliesDiffer(d: Data, msg: string)
    ensures DataJson(d) != ErrorJson(msg) && DataJson(d) != "" && ErrorJson(msg) != ""
  {
    hide DataJson, ErrorJson;
    FrontOfReply(d);
    ErrorLength(msg);
  }

  /** A reply to the letter: bus 0, device 1, bit 2, value 255. */
  lemma {:induction false} ReplyText()
    ensures DataJson(Data(0, 1, 2, 255)) ==
      "callback({ " + "\"bus_idx\": \"0\", " + "\"dev_idx\": 1, " + "\"dev_sub_idx\": 2, " + "\"value\": \"ff\"" + " })"
  {
  }

  lemma {:induction false} ErrorText()
    ensures ErrorJson("Unknown") == "{ " + "\"msg\": \"Unknown\"" + " }"
  {
  }
}
