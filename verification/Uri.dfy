/** parse_uri: two nested strtok_r cursors over one mutable buffer. */
module Uri {
  import opened Bits
  import opened CString
  import opened Numbers

  const BUF_LEN := 1024
  const IDX_INVALID := -1

  // ---- tokens ------------------------------------------------------------------------------------

  /** Index of the first character from i on that is no delimiter. */
  function TokenStart(t: string, c: char, i: nat := 0): (r: nat)
    requires i <= |t|
    ensures i <= r <= |t|
    decreases |t| - i
  {
    if i < |t| && t[i] == c then TokenStart(t, c, i + 1) else i
  }

  /** Index of the first delimiter from i on. */
  function TokenEnd(t: string, c: char, i: nat): (r: nat)
    requires i <= |t|
    ensures i <= r <= |t|
    decreases |t| - i
  {
    if i < |t| && t[i] != c then TokenEnd(t, c, i + 1) else i
  }

  /** What is left to tokenise behind the first token. */
  function After(t: string, c: char): string
  {
    var e := TokenEnd(t, c, TokenStart(t, c));
    if e < |t| then t[e + 1..] else ""
  }

  /** The maximal runs of non-delimiters, in order. */
  function Tokens(t: string, c: char): seq<string>
    decreases |t|
  {
    var a := TokenStart(t, c);
    if a == |t| then [] else [t[a..TokenEnd(t, c, a)]] + Tokens(After(t, c), c)
  }

  lemma {:induction false} TokensUnfold(t: string, c: char)
    ensures var a := TokenStart(t, c);
      if a == |t| then Tokens(t, c) == []
      else var e := TokenEnd(t, c, a);
           && Tokens(t, c) == [t[a..e]] + Tokens(After(t, c), c)
           && After(t, c) == if e < |t| then t[e + 1..] else ""
  {
  }

  ghost predicate AllDelims(s: string, c: char) {
    forall k :: 0 <= k < |s| ==> s[k] == c
  }

  ghost predicate IsToken(s: string, c: char) {
    s != "" && forall k :: 0 <= k < |s| ==> s[k] != c
  }

  lemma {:induction false} TokenStartIs(t: string, c: char, i: nat, r: nat)
    requires i <= r <= |t| && (forall k :: i <= k < r ==> t[k] == c) && (r < |t| ==> t[r] != c)
    ensures TokenStart(t, c, i) == r
    decreases r - i
  {
    if i < r {
      TokenStartIs(t, c, i + 1, r);
    }
  }

  lemma {:induction false} TokenEndIs(t: string, c: char, i: nat, r: nat)
    requires i <= r <= |t| && (forall k :: i <= k < r ==> t[k] != c) && (r < |t| ==> t[r] == c)
    ensures TokenEnd(t, c, i) == r
    decreases r - i
  {
    if i < r {
      TokenEndIs(t, c, i + 1, r);
    }
  }

  /** A run of delimiters, a token, and then a delimiter or the end: that token comes first. */
  lemma {:induction false} TokensCons(delims: string, tok: string, rest: string, c: char)
    requires AllDelims(delims, c) && IsToken(tok, c) && (rest == "" || rest[0] == c)
    ensures Tokens(delims + (tok + rest), c) == [tok] + Tokens(rest, c)
  {
    hide TokenStart, TokenEnd, Tokens;
    var t := delims + (tok + rest);
    var a, e := |delims|, |delims| + |tok|;
    assert t[a] == tok[0];
    TokenStartIs(t, c, 0, a);
    assert forall k :: a <= k < e ==> t[k] == tok[k - a];
    assert rest != "" ==> t[e] == rest[0];
    TokenEndIs(t, c, a, e);
    assert t[a..e] == tok;
    TokensUnfold(t, c);
    if rest != "" {
      assert t[e + 1..] == rest[1..];
      DelimDropped(rest, c);
    } else {
      assert After(t, c) == rest;
    }
  }

  /** Delimiters alone hold no token, and whatever holds none is delimiters alone. */
  lemma {:induction false} NoTokens(t: string, c: char)
    ensures Tokens(t, c) == [] <==> AllDelims(t, c)
  {
    hide TokenStart, TokenEnd, Tokens;
    TokensUnfold(t, c);
    StartStops(t, c, 0);
    if AllDelims(t, c) {
      TokenStartIs(t, c, 0, |t|);
    }
  }

  lemma {:induction false} DelimDropped(rest: string, c: char)
    requires rest != "" && rest[0] == c
    ensures Tokens(rest, c) == Tokens(rest[1..], c)
  {
    hide TokenStart, TokenEnd, Tokens, After;
    var s := rest[1..];
    TokensUnfold(rest, c);
    TokensUnfold(s, c);
    StartSkip(rest, c);
    StartShift(rest, c, 1);
    var a := TokenStart(s, c);
    assert TokenStart(rest, c) == a + 1;
    if a < |s| {
      EndShift(rest, c, a);
      var e := TokenEnd(s, c, a);
      TailSlice(rest, a, e);
      if e < |s| {
        TailSlice(rest, e + 1, e + 1);
      }
      assert After(rest, c) == After(s, c);
    }
  }

  lemma {:induction false} StartSkip(t: string, c: char)
    requires t != "" && t[0] == c
    ensures TokenStart(t, c) == TokenStart(t, c, 1)
  {
  }

  lemma {:induction false} StartShift(t: string, c: char, i: nat)
    requires 1 <= i <= |t|
    ensures TokenStart(t, c, i) == TokenStart(t[1..], c, i - 1) + 1
    decreases |t| - i
  {
    if i < |t| && t[i] == c {
      StartShift(t, c, i + 1);
    }
  }

  lemma {:induction false} EndShift(t: string, c: char, i: nat)
    requires i + 1 <= |t|
    ensures TokenEnd(t, c, i + 1) == TokenEnd(t[1..], c, i) + 1
    decreases |t| - i
  {
    if i + 1 < |t| && t[i + 1] != c {
      EndShift(t, c, i + 1);
    }
  }

  // ---- strtok_r --------------------------------------------------------------------------------------

  /** strtok_r(p, c, &rest): p is the string, or the saved rest of an earlier call. The only byte
      written is the delimiter behind the token. */
  method StrtokR(buf: array<char>, p: nat, c: char, ghost t: string)
    returns (found: bool, tok: nat, rest: nat, ghost first: string, ghost after: string)
    requires Holds(buf[..], p, t) && c != NUL
    modifies buf
    ensures Tokens(t, c) == if found then [first] + Tokens(after, c) else []
    ensures found ==> Holds(buf[..], tok, first) && IsToken(first, c)
    ensures Holds(buf[..], rest, after)
    ensures p <= tok && tok + |first| <= rest && rest + |after| <= p + |t|
    ensures forall k :: 0 <= k < buf.Length && !(p <= k < p + |t|) ==> buf[k] == old(buf[k])
  {
    hide TokenStart, TokenEnd, Tokens, After, Holds, IsToken;
    TokensUnfold(t, c);
    HoldsBounds(buf[..], p, t);
    tok := SkipDelims(buf, p, c, t);
    HeldByte(buf[..], p, t, tok - p);
    if buf[tok] == NUL {
      HoldsEmpty(buf[..], tok);
      return false, tok, tok, "", "";
    }
    found := true;
    rest := ScanToken(buf, p, c, t, tok);
    ghost var a, e := tok - p, rest - p;
    first := t[a..e];
    after := After(t, c);
    rest := CutToken(buf, p, c, t, a, e, rest);
  }

  lemma {:induction false} HoldsBounds(b: seq<char>, p: nat, t: string)
    requires Holds(b, p, t)
    ensures p + |t| < |b|
  {
  }

  method SkipDelims(buf: array<char>, p: nat, c: char, ghost t: string) returns (tok: nat)
    requires Holds(buf[..], p, t) && c != NUL
    ensures tok == p + TokenStart(t, c)
  {
    tok := p;
    HoldsBytes(buf[..], p, t);
    while buf[tok] == c
      invariant p <= tok <= p + |t|
      invariant TokenStart(t, c) == TokenStart(t, c, tok - p)
      decreases p + |t| - tok
    {
      tok := tok + 1;
    }
  }

  method ScanToken(buf: array<char>, p: nat, c: char, ghost t: string, tok: nat) returns (rest: nat)
    requires Holds(buf[..], p, t) && c != NUL && tok == p + TokenStart(t, c) < p + |t|
    ensures rest == p + TokenEnd(t, c, tok - p)
    ensures IsToken(t[tok - p..rest - p], c)
    ensures rest < p + |t| ==> t[rest - p] == c
  {
    hide TokenStart;
    rest := tok;
    HoldsBytes(buf[..], p, t);
    StartStops(t, c, 0);
    while buf[rest] != c && buf[rest] != NUL
      invariant tok <= rest <= p + |t|
      invariant TokenEnd(t, c, tok - p) == TokenEnd(t, c, rest - p)
      invariant forall k :: tok - p <= k < rest - p ==> t[k] != c
      invariant rest > tok || t[rest - p] != c
      decreases p + |t| - rest
    {
      rest := rest + 1;
    }
  }

  lemma {:induction false} StartStops(t: string, c: char, i: nat)
    requires i <= |t|
    ensures var a := TokenStart(t, c, i);
      && (a < |t| ==> t[a] != c)
      && forall k :: i <= k < a ==> t[k] == c
    decreases |t| - i
  {
    if i < |t| && t[i] == c {
      StartStops(t, c, i + 1);
    }
  }

  /** The token t[a..e] and the text behind it, once the delimiter at e is a NUL. */
  method CutToken(buf: array<char>, p: nat, c: char, ghost t: string, ghost a: nat, ghost e: nat, end: nat)
    returns (rest: nat)
    requires Holds(buf[..], p, t) && a <= e <= |t| && end == p + e
    requires e < |t| ==> t[e] == c
    modifies buf
    ensures Holds(buf[..], p + a, t[a..e]) && Holds(buf[..], rest, if e < |t| then t[e + 1..] else "")
    ensures rest == if e < |t| then end + 1 else end
    ensures forall k :: 0 <= k < buf.Length && !(k == p + e && e < |t|) ==> buf[k] == old(buf[k])
  {
    ghost var b := buf[..];
    HoldsSuffix(b, p, t, a);
    HeldByte(b, p, t, e);
    if buf[end] != NUL {
      HoldsSuffix(b, p, t, e + 1);
      buf[end] := NUL;
      HoldsFrame(b, buf[..], end + 1, t[e + 1..]);
      rest := end + 1;
    } else {
      assert t[a..e] == t[a..];
      rest := end;
    }
  }

  // ---- the parts of a request ------------------------------------------------------------------------

  datatype Data = Data(bus: int, dev: int, sub: int, value: word)

  datatype RequestType = RequestErr | RequestGet | RequestSet

  /** io_data */
  class IoData {
    var bus: int
    var dev: int
    var sub: int
    var value: word

    constructor ()
    {
    }

    ghost function View(): Data
      reads this
    {
      Data(bus, dev, sub, value)
    }
  }

  const NoData := Data(IDX_INVALID, IDX_INVALID, IDX_INVALID, 0)

  function Index(token: string): int
  {
    ToInt32(Strtol(token, 10))
  }

  /** The device token: the device index and, behind a dot, the sub-device index. */
  function DevMeaning(token: string, d: Data): (bool, Data)
  {
    var ds := Tokens(token, '.');
    if ds == [] then (false, d)
    else
      var d1 := d.(dev := Index(ds[0]));
      if !Complete(ds[0], 10) then (false, d1)
      else if |ds| == 1 then (true, d1)
      else (Complete(ds[1], 10), d1.(sub := Index(ds[1])))
  }

  /** The request a list of path components stands for. */
  function PathMeaning(path: seq<string>): (RequestType, Data)
  {
    if path == [] then (RequestErr, NoData)
    else
      var d0 := NoData.(bus := Index(path[0]));
      if !Complete(path[0], 10) || |path| == 1 then (RequestErr, d0)
      else
        var (ok, d1) := DevMeaning(path[1], d0);
        if !ok then (RequestErr, d1)
        else if |path| == 2 then (RequestGet, d1)
        else (if Complete(path[2], 16) then RequestSet else RequestErr,
              d1.(value := ToUint32(Strtoul(path[2], 16))))
  }

  /** What the component at one stage adds to a request, and whether it parses. */
  function StageMeaning(stage: nat, token: string, d: Data): (bool, Data)
  {
    match stage
    case 0 => (Complete(token, 10), d.(bus := Index(token)))
    case 1 => DevMeaning(token, d)
    case _ => (Complete(token, 16), d.(value := ToUint32(Strtoul(token, 16))))
  }

  function StageResult(stage: nat): RequestType {
    if stage == 0 then RequestErr else if stage == 1 then RequestGet else RequestSet
  }

  /** The first `stage` components have parsed and are a request so far. */
  ghost predicate Advanced(path: seq<string>, stage: nat, t: RequestType, d: Data) {
    && stage <= 3 && stage <= |path| && (t, d) == PathMeaning(path[..stage])
    && (stage > 0 ==> Complete(path[0], 10)) && (stage > 1 ==> t != RequestErr)
  }

  /** One more component: either it parses, or the whole path is an error. */
  lemma {:induction false} NextStage(path: seq<string>, stage: nat, t: RequestType, d: Data)
    requires Advanced(path, stage, t, d) && stage < 3 && stage < |path|
    ensures var (ok, d') := StageMeaning(stage, path[stage], d);
      if ok then Advanced(path, stage + 1, StageResult(stage), d')
      else PathMeaning(path) == (RequestErr, d')
  {
    hide Tokens, Complete, Index, DevMeaning;
    assert stage > 0 ==> path[..stage][0] == path[0] == path[..stage + 1][0];
    assert stage > 1 ==> path[..stage][1] == path[1] == path[..stage + 1][1];
  }

  /** A fourth component is ignored, and a path ends where it ends. */
  lemma {:induction false} LastStage(path: seq<string>, stage: nat, t: RequestType, d: Data)
    requires Advanced(path, stage, t, d) && (stage == 3 || stage == |path|)
    ensures PathMeaning(path) == (t, d)
  {
    hide Tokens, Complete, Index, DevMeaning;
    if stage == |path| {
      assert path[..stage] == path;
    }
  }

  predicate DevParses(token: string) {
    var ds := Tokens(token, '.');
    ds != [] && Complete(ds[0], 10) && (|ds| > 1 ==> Complete(ds[1], 10))
  }

  /** A path of exactly two components is a GET if both parse; one of three or more is a SET if the
      first three parse, and any others are ignored; everything else is an error. A request has the
      numbers of its components, and a device without a dot has no sub-device. */
  lemma {:induction false} RequestKind(path: seq<string>)
    ensures var (t, d) := PathMeaning(path);
      var addressed := |path| >= 2 && Complete(path[0], 10) && DevParses(path[1]);
      && (t == RequestGet <==> addressed && |path| == 2)
      && (t == RequestSet <==> addressed && |path| >= 3 && Complete(path[2], 16))
      && (t != RequestErr ==>
            var ds := Tokens(path[1], '.');
            && d.bus == Index(path[0]) && d.dev == Index(ds[0])
            && d.sub == (if |ds| == 1 then IDX_INVALID else Index(ds[1]))
            && d.value == if t == RequestGet then 0 else ToUint32(Strtoul(path[2], 16)))
  {
    hide Tokens, Complete, Index, Strtoul, ToUint32;
  }

  /** parse_uri hands the first dot-separated part of the device token to strtol unchecked. */
  ghost predicate Parsable(uri: string) {
    var path := Tokens(uri, '/');
    && |uri| < BUF_LEN
    && (|path| >= 2 && Complete(path[0], 10) ==> Tokens(path[1], '.') != [])
  }

  method ParseBus(buf: array<char>, token: nat, parts: IoData, ghost t: string) returns (ok: bool)
    requires Holds(buf[..], token, t)
    modifies parts
    ensures ok == Complete(t, 10) && parts.View() == old(parts.View()).(bus := Index(t))
  {
    var s := ReadString(buf, token, t);
    parts.bus := Index(s);
    ok := Complete(s, 10);
  }

  /** parse_dev: strtok_r with its own cursor, inside the token that the outer cursor of
      parse_uri has cut out. Nothing outside that token is written. */
  method ParseDev(buf: array<char>, token: nat, parts: IoData, ghost t: string) returns (ok: bool)
    requires Holds(buf[..], token, t) && Tokens(t, '.') != []
    modifies buf, parts
    ensures (ok, parts.View()) == DevMeaning(t, old(parts.View()))
    ensures forall k :: 0 <= k < buf.Length && !(token <= k < token + |t|) ==> buf[k] == old(buf[k])
  {
    hide Tokens, Complete, Index;
    var found, tok, rest, first, after := StrtokR(buf, token, '.', t);
    var s := ReadString(buf, tok, first);
    parts.dev := Index(s);
    if !Complete(s, 10) {
      return false;
    }
    ghost var first', after';
    found, tok, rest, first', after' := StrtokR(buf, rest, '.', after);
    if found {
      s := ReadString(buf, tok, first');
      parts.sub := Index(s);
      return Complete(s, 10);
    }
    ok := true;
  }

  method ParseValue(buf: array<char>, token: nat, parts: IoData, ghost t: string) returns (ok: bool)
    requires Holds(buf[..], token, t)
    modifies parts
    ensures ok == Complete(t, 16)
    ensures parts.View() == old(parts.View()).(value := ToUint32(Strtoul(t, 16)))
  {
    var s := ReadString(buf, token, t);
    parts.value := ToUint32(Strtoul(s, 16));
    ok := Complete(s, 16);
  }

  /** One turn of the loop of parse_uri: the stage's part of the request. */
  method ParseStage(buf: array<char>, stage: nat, token: nat, parts: IoData, ghost t: string,
                    ghost rest: nat, ghost after: string) returns (ok: bool)
    requires Holds(buf[..], token, t) && Holds(buf[..], rest, after) && token + |t| <= rest
    requires stage <= 2 && (stage == 1 ==> Tokens(t, '.') != [])
    modifies buf, parts
    ensures Holds(buf[..], rest, after)
    ensures (ok, parts.View()) == StageMeaning(stage, t, old(parts.View()))
  {
    ghost var b := buf[..];
    if stage == 0 {
      ok := ParseBus(buf, token, parts, t);
    } else if stage == 1 {
      ok := ParseDev(buf, token, parts, t);
    } else {
      ok := ParseValue(buf, token, parts, t);
    }
    HoldsFrame(b, buf[..], rest, after);
  }

  /** parse_uri computes the meaning of the path components of the URI: the two cursors over the
      one buffer do not disturb each other. */
  method ParseUri(uri: array<char>, parts: IoData, ghost u: string) returns (result: RequestType)
    requires Holds(uri[..], 0, u) && Parsable(u)
    modifies parts
    ensures (result, parts.View()) == PathMeaning(Tokens(u, '/'))
  {
    hide Tokens, StageMeaning, Complete, Index, PathMeaning, Advanced;
    var buf := new char[BUF_LEN](_ => NUL);
    parts.bus, parts.dev, parts.sub, parts.value := IDX_INVALID, IDX_INVALID, IDX_INVALID, 0;
    Strncpy(buf, uri, 0, BUF_LEN, u);
    assert Holds(buf[..], 0, u);
    result := RequestErr;
    ghost var path := Tokens(u, '/');
    NoStage(path);
    var stage := 0;
    var found, token, rest, first, after := StrtokR(buf, 0, '/', u);
    while stage <= 2 && found
      invariant 0 <= stage <= 3 && stage <= |path| && 0 <= token && 0 <= rest
      invariant Holds(buf[..], rest, after) && fresh(buf)
      invariant path[stage..] == if found then [first] + Tokens(after, '/') else []
      invariant found ==> Holds(buf[..], token, first) && token + |first| <= rest
      invariant Advanced(path, stage, result, parts.View())
      decreases 3 - stage
    {
      assert path[stage] == path[stage..][0] == first;
      NextStage(path, stage, result, parts.View());
      AdvancedFirst(path, stage, result, parts.View());
      var ok := ParseStage(buf, stage, token, parts, first, rest, after);
      if !ok {
        return RequestErr;
      }
      result := if stage == 0 then result else if stage == 1 then RequestGet else RequestSet;
      stage := stage + 1;
      assert path[stage..] == path[stage - 1..][1..];
      found, token, rest, first, after := StrtokR(buf, rest, '/', after);
    }
    LastStage(path, stage, result, parts.View());
  }

  lemma {:induction false} NoStage(path: seq<string>)
    ensures Advanced(path, 0, RequestErr, NoData)
  {
  }

  lemma {:induction false} AdvancedFirst(path: seq<string>, stage: nat, t: RequestType, d: Data)
    requires Advanced(path, stage, t, d)
    ensures stage == 0 ==> t == RequestErr
    ensures stage > 0 ==> Complete(path[0], 10)
  {
  }

  // ---- printed requests --------------------------------------------------------------------------------

  function SubPart(sub: int): string {
    if sub == IDX_INVALID then "" else "." + Decimal(sub)
  }

  /** /bus/dev[.sub][/hexvalue] */
  function PrintUri(d: Data, isSet: bool): string
  {
    "/" + (Decimal(d.bus) + ("/" + (Decimal(d.dev) + SubPart(d.sub) + (if isSet then "/" + Hex(d.value) else ""))))
  }

  ghost predicate Int32Data(d: Data) {
    IsInt32(d.bus) && IsInt32(d.dev) && IsInt32(d.sub)
  }

  lemma {:induction false} DigitsAreToken(n: nat, base: Base, c: char)
    requires c == '/' || c == '.'
    ensures IsToken(Digits(n, base), c)
  {
    DigitsRoundTrip(n, base);
    var s := Digits(n, base);
    assert forall k :: 0 <= k < |s| ==> IsDigit(s[k], base);
  }

  lemma {:induction false} DecimalIsToken(n: int, c: char)
    requires c == '/' || c == '.'
    ensures IsToken(Decimal(n), c)
  {
    hide Digits;
    DigitsAreToken(if n < 0 then -n else n, 10, c);
  }

  lemma {:induction false} IsTokenJoin(a: string, b: string, c: char)
    requires IsToken(a, c) && IsToken(b, c)
    ensures IsToken(a + b, c)
  {
  }

  /** Exactly one token, and nothing else. */
  lemma {:induction false} OneToken(tok: string, c: char)
    requires IsToken(tok, c)
    ensures Tokens(tok, c) == [tok]
  {
    TokensCons("", tok, "", c);
    assert "" + (tok + "") == tok;
    assert Tokens("", c) == [];
  }

  lemma {:induction false} DevTokenRoundTrip(d: Data, d0: Data)
    requires Int32Data(d)
    requires d0.sub == IDX_INVALID
    ensures var tok := Decimal(d.dev) + SubPart(d.sub);
      && IsToken(tok, '/') && Tokens(tok, '.') != []
      && DevMeaning(tok, d0) == (true, d0.(dev := d.dev, sub := d.sub))
  {
    hide Tokens, Decimal, Complete, Strtol, ToInt32;
    DecimalRoundTrip(d.dev);
    DecimalIsToken(d.dev, '.');
    DecimalIsToken(d.dev, '/');
    if d.sub == IDX_INVALID {
      assert Decimal(d.dev) + "" == Decimal(d.dev);
      OneToken(Decimal(d.dev), '.');
    } else {
      DecimalRoundTrip(d.sub);
      DecimalIsToken(d.sub, '.');
      DecimalIsToken(d.sub, '/');
      IsTokenJoin(".", Decimal(d.sub), '/');
      IsTokenJoin(Decimal(d.dev), SubPart(d.sub), '/');
      TokensCons("", Decimal(d.dev), SubPart(d.sub), '.');
      assert "" + (Decimal(d.dev) + SubPart(d.sub)) == Decimal(d.dev) + SubPart(d.sub);
      TokensCons(".", Decimal(d.sub), "", '.');
      assert "." + (Decimal(d.sub) + "") == SubPart(d.sub);
      assert Tokens("", '.') == [] by { TokensUnfold("", '.'); }
    }
  }

  lemma {:induction false} PathTokens(a: string, b: string, c: string)
    requires IsToken(a, '/') && IsToken(b, '/') && (c == "" || IsToken(c, '/'))
    ensures Tokens("/" + (a + ("/" + (b + (if c == "" then "" else "/" + c)))), '/')
            == [a, b] + (if c == "" then [] else [c])
  {
    hide Tokens, IsToken;
    var end := if c == "" then "" else "/" + c;
    TokensCons("/", a, "/" + (b + end), '/');
    TokensCons("/", b, end, '/');
    if c == "" {
      assert Tokens("", '/') == [] by { TokensUnfold("", '/'); }
    } else {
      TokensCons("/", c, "", '/');
      assert "/" + (c + "") == end;
      assert Tokens("", '/') == [] by { TokensUnfold("", '/'); }
    }
  }

  /** For all 32-bit indices and values, the printed URI of a request parses back to that
      request. */
  lemma {:induction false} UriRoundTrip(d: Data, isSet: bool)
    requires Int32Data(d)
    ensures var uri := PrintUri(d, isSet);
      && Parsable(uri) && (forall k :: 0 <= k < |uri| ==> uri[k] != NUL)
      && PathMeaning(Tokens(uri, '/')) ==
           if isSet then (RequestSet, d) else (RequestGet, d.(value := 0))
  {
    hide Tokens, Decimal, Complete, Strtol, Strtoul, ToInt32, ToUint32, DevMeaning, Hex;
    var a, b, c := Decimal(d.bus), Decimal(d.dev) + SubPart(d.sub), if isSet then Hex(d.value) else "";
    DecimalRoundTrip(d.bus);
    DecimalIsToken(d.bus, '/');
    DevTokenRoundTrip(d, NoData.(bus := d.bus));
    HexRoundTrip(d.value);
    HexIsToken(d.value);
    PathTokens(a, b, c);
    var uri := PrintUri(d, isSet);
    assert uri == "/" + (a + ("/" + (b + (if c == "" then "" else "/" + c))));
    UriText(d, isSet);
  }

  lemma {:induction false} HexIsToken(v: word)
    ensures IsToken(Hex(v), '/')
  {
    DigitsAreToken(v, 16, '/');
  }

  ghost predicate NoNul(s: string) {
    forall k :: 0 <= k < |s| ==> s[k] != NUL
  }

  lemma {:induction false} DigitsNoNul(n: nat, base: Base)
    ensures NoNul(Digits(n, base))
  {
    DigitsRoundTrip(n, base);
    var s := Digits(n, base);
    assert forall k :: 0 <= k < |s| ==> IsDigit(s[k], base);
  }

  lemma {:induction false} UriText(d: Data, isSet: bool)
    requires Int32Data(d)
    ensures |PrintUri(d, isSet)| < BUF_LEN && NoNul(PrintUri(d, isSet))
  {
    hide Digits;
    OutputLengths(d.bus, d.value);
    OutputLengths(d.dev, d.value);
    OutputLengths(d.sub, d.value);
    DigitsNoNul(if d.bus < 0 then -d.bus else d.bus, 10);
    DigitsNoNul(if d.dev < 0 then -d.dev else d.dev, 10);
    DigitsNoNul(if d.sub < 0 then -d.sub else d.sub, 10);
    DigitsNoNul(d.value, 16);
  }
}
