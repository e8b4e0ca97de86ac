/** What strtol and strtoul accept, character by character (section 7.22.1.4 of ISO C11), and what
    that makes of the components of a URI. */
module Numerals {
  import opened Bits
  import opened CString
  import opened Numbers
  import opened Uri

  // ---- digits ------------------------------------------------------------------------------------

  const LOWER := "0123456789abcdef"
  const UPPER := "0123456789ABCDEF"

  predicate DigitOf(c: char, base: Base) {
    || '0' <= c <= '9'
    || (base == 16 && ('a' <= c <= 'f' || 'A' <= c <= 'F'))
  }

  /** Which characters are digits, what they are worth in either case, and which of them are printed. */
  lemma {:induction false} DigitTable(c: char, k: nat, base: Base)
    requires k < 16
    ensures IsDigit(c, base) <==> DigitOf(c, base)
    ensures DigitValue(LOWER[k]) == k && DigitValue(UPPER[k]) == k && DigitChar(k) == LOWER[k]
  {
  }

  // ---- the parts of a text that starts with a number ----------------------------------------------

  /** Blanks, a sign, a prefix, digits, and whatever follows. */
  datatype Parts = Parts(blanks: string, sign: string, prefix: string, digits: string, tail: string)

  function Spelled(p: Parts): string {
    p.blanks + (p.sign + (p.prefix + (p.digits + p.tail)))
  }

  predicate IsSign(s: string) {
    s == "" || s == "+" || s == "-"
  }

  ghost predicate Digital(s: string, base: Base) {
    s != "" && forall k :: 0 <= k < |s| ==> DigitOf(s[k], base)
  }

  /** The tail continues neither the digits nor a lonely zero to a prefix with digits. */
  predicate Ends(p: Parts, base: Base) {
    && (p.tail != "" ==> !DigitOf(p.tail[0], base))
    && (base == 16 && p.prefix == "" && p.digits == "0" && |p.tail| > 1 ==>
          !((p.tail[0] == 'x' || p.tail[0] == 'X') && DigitOf(p.tail[1], base)))
  }

  ghost predicate Numeric(p: Parts, base: Base) {
    && AllSpace(p.blanks) && IsSign(p.sign) && Digital(p.digits, base) && Ends(p, base)
    && (p.prefix == "" || (base == 16 && (p.prefix == "0x" || p.prefix == "0X")))
  }

  /** The number that the parts stand for. */
  function Signed(p: Parts, base: Base): int {
    var m: int := Value(p.digits, base);
    if p.sign == "-" then -m else m
  }

  /** A whole text that is a number: optional blanks, an optional sign, an optional prefix for base
      16, and digits to the last character. */
  ghost predicate IsNumeral(s: string, base: Base) {
    exists p :: Numeric(p, base) && p.tail == "" && Spelled(p) == s
  }

  lemma {:induction false} RunEnds(s: string, base: Base, i: nat, j: nat)
    requires i <= j <= |s| && (forall k :: i <= k < j ==> DigitOf(s[k], base))
    requires j < |s| ==> !DigitOf(s[j], base)
    ensures DigitRun(s, base, i) == j
    decreases j - i
  {
    if i < |s| {
      DigitTable(s[i], 0, base);
    }
    if i < j {
      RunEnds(s, base, i + 1, j);
    }
  }

  /** The scan from the sign on, once the prefix and the end of the digits are known. */
  lemma {:induction false} ScanAt(s: string, base: Base, i: nat, first: nat, end: nat)
    requires i == |s| - |LTrim(s)|
    requires var signed := i < |s| && (s[i] == '-' || s[i] == '+');
      (if signed then i + 1 else i) <= |s| && first == Prefix(s, base, if signed then i + 1 else i)
    requires first <= |s| && end == DigitRun(s, base, first)
    ensures Scan(s, base) ==
      if end == first then Scanned(false, 0, 0)
      else Scanned(i < |s| && s[i] == '-', Value(s[first..end], base), end)
  {
    hide LTrim, Prefix, DigitRun, Value;
  }

  /** Where the parts stand in the text. */
  lemma {:induction false} PartsPlaced(p: Parts)
    ensures var s := Spelled(p);
      var i, j, first := |p.blanks|, |p.blanks| + |p.sign|, |p.blanks| + |p.sign| + |p.prefix|;
      var end := first + |p.digits|;
      && |s| == end + |p.tail|
      && s == p.blanks + s[i..] && s[i..] == p.sign + (p.prefix + (p.digits + p.tail))
      && s[j..] == p.prefix + (p.digits + p.tail)
      && s[first..end] == p.digits && s[end..] == p.tail
  {
  }

  lemma {:induction false} DigitsPlaced(p: Parts)
    ensures var s := Spelled(p);
      var first := |p.blanks| + |p.sign| + |p.prefix|;
      var end := first + |p.digits|;
      |s| == end + |p.tail| && s[first..end] == p.digits
  {
    PartsPlaced(p);
  }

  lemma {:induction false} DigitsEnd(p: Parts, base: Base)
    requires Numeric(p, base)
    ensures var first := |p.blanks| + |p.sign| + |p.prefix|;
      first <= |Spelled(p)| && DigitRun(Spelled(p), base, first) == first + |p.digits|
  {
    hide Spelled, DigitRun, IsDigit, AllSpace, IsSign, DigitOf;
    var s := Spelled(p);
    PartsPlaced(p);
    var first := |p.blanks| + |p.sign| + |p.prefix|;
    var end := first + |p.digits|;
    forall k | first <= k < end
      ensures DigitOf(s[k], base)
    {
      assert s[k] == s[first..end][k - first] == p.digits[k - first];
    }
    assert p.tail != "" ==> s[end] == s[end..][0];
    RunEnds(s, base, first, end);
  }

  /** Where the scan finds the sign. */
  lemma {:induction false} BlanksSkipped(p: Parts, base: Base)
    requires Numeric(p, base)
    ensures |Spelled(p)| - |LTrim(Spelled(p))| == |p.blanks|
  {
    hide LTrim, Spelled, AllSpace, Digital, Ends, IsSign;
    var s := Spelled(p);
    PartsPlaced(p);
    FrontNotSpace(p, base);
    LTrimUnique(p.blanks, s[|p.blanks|..]);
  }

  /** Where it goes on behind the sign. */
  lemma {:induction false} SignSkipped(p: Parts, base: Base)
    requires Numeric(p, base)
    ensures var s, i := Spelled(p), |p.blanks|;
      && i < |s| && (s[i] == '-' <==> p.sign == "-")
      && (if s[i] == '-' || s[i] == '+' then i + 1 else i) == i + |p.sign|
  {
    hide Spelled, AllSpace, Digital, Ends;
    PartsPlaced(p);
    SignFound(Spelled(p), p, base, |p.blanks|);
  }

  /** And behind the prefix. */
  lemma {:induction false} PrefixSkipped(p: Parts, base: Base)
    requires Numeric(p, base)
    ensures var s, j := Spelled(p), |p.blanks| + |p.sign|;
      j <= |s| && Prefix(s, base, j) == j + |p.prefix|
  {
    hide Spelled, Prefix, AllSpace, Digital, Ends, IsSign;
    PartsPlaced(p);
    PrefixFound(Spelled(p), p, base, |p.blanks| + |p.sign|);
  }

  /** The numeric front of a text is converted, and nothing behind it. */
  lemma {:induction false} ScanNumeric(p: Parts, base: Base)
    requires Numeric(p, base)
    ensures Scan(Spelled(p), base) ==
      Scanned(p.sign == "-", Value(p.digits, base), |Spelled(p)| - |p.tail|)
  {
    hide *;
    DigitsPlaced(p);
    BlanksSkipped(p, base);
    SignSkipped(p, base);
    PrefixSkipped(p, base);
    DigitsEnd(p, base);
    DigitsNotEmpty(p, base);
    var j := |p.blanks| + |p.sign|;
    ScanAt(Spelled(p), base, |p.blanks|, j + |p.prefix|, j + |p.prefix| + |p.digits|);
  }

  lemma {:induction false} DigitsNotEmpty(p: Parts, base: Base)
    requires Numeric(p, base)
    ensures p.digits != ""
  {
  }

  lemma {:induction false} FrontNotSpace(p: Parts, base: Base)
    requires Numeric(p, base)
    ensures var rest := p.sign + (p.prefix + (p.digits + p.tail));
      rest != "" && !IsSpace(rest[0])
  {
    assert DigitOf(p.digits[0], base);
  }

  lemma {:induction false} SignFound(s: string, p: Parts, base: Base, i: nat)
    requires Numeric(p, base) && i <= |s| && s[i..] == p.sign + (p.prefix + (p.digits + p.tail))
    ensures i < |s| && (s[i] == '-' <==> p.sign == "-") && (s[i] == '+' <==> p.sign == "+")
  {
    var rest := s[i..];
    assert DigitOf(p.digits[0], base);
    assert s[i] == rest[0];
  }

  lemma {:induction false} PrefixFound(s: string, p: Parts, base: Base, j: nat)
    requires Numeric(p, base) && j <= |s| && s[j..] == p.prefix + (p.digits + p.tail)
    ensures Prefix(s, base, j) == j + |p.prefix|
  {
    hide IsDigit;
    var rest := s[j..];
    assert DigitOf(p.digits[0], base);
    assert s[j] == rest[0];
    if j + 2 < |s| {
      assert s[j + 1] == rest[1] && s[j + 2] == rest[2];
      DigitTable(s[j + 2], 0, base);
      if p.prefix == "" && |p.digits| > 1 {
        assert DigitOf(p.digits[1], base);
      }
    }
  }

  /** Where no digit follows the blanks and the sign, nothing is converted. */
  lemma {:induction false} ScanNothing(blanks: string, sign: string, rest: string, base: Base)
    requires AllSpace(blanks) && IsSign(sign) && (rest != "" ==> !DigitOf(rest[0], base))
    requires sign == "" && rest != "" ==> !IsSpace(rest[0]) && !IsSign([rest[0]])
    ensures Scan(blanks + (sign + rest), base) == Scanned(false, 0, 0)
  {
    hide LTrim, Value, Scan, DigitRun, IsDigit;
    var s := blanks + (sign + rest);
    LTrimUnique(blanks, sign + rest);
    var i, j := |blanks|, |blanks| + |sign|;
    assert s[j..] == rest;
    assert rest != "" ==> s[j] == rest[0];
    assert sign != "" ==> s[i] == sign[0];
    RunEnds(s, base, j, j);
    ScanAt(s, base, i, j, j);
  }

  // ---- every text is one or the other ----------------------------------------------------------------

  function DigitCount(s: string, base: Base): (n: nat)
    ensures n <= |s|
  {
    if s != "" && DigitOf(s[0], base) then 1 + DigitCount(s[1..], base) else 0
  }

  lemma {:induction false} CountedDigits(s: string, base: Base)
    ensures var n := DigitCount(s, base);
      (forall k :: 0 <= k < n ==> DigitOf(s[k], base)) && (n < |s| ==> !DigitOf(s[n], base))
  {
    if s != "" && DigitOf(s[0], base) {
      CountedDigits(s[1..], base);
    }
  }

  predicate Prefixed(rest: string, base: Base) {
    base == 16 && |rest| > 2 && rest[0] == '0' && (rest[1] == 'x' || rest[1] == 'X') && DigitOf(rest[2], base)
  }

  /** The parts of a text whose first character behind blanks and sign is a digit. */
  lemma {:induction false} Split(blanks: string, sign: string, rest: string, base: Base) returns (p: Parts)
    requires AllSpace(blanks) && IsSign(sign) && rest != "" && DigitOf(rest[0], base)
    ensures Numeric(p, base) && Spelled(p) == blanks + (sign + rest)
  {
    hide DigitCount, AllSpace, Ends, DigitOf, Digital;
    var m := if Prefixed(rest, base) then 2 else 0;
    var body := rest[m..];
    assert body[0] == rest[m];
    var n := DigitCount(body, base);
    CountedDigits(body, base);
    p := Parts(blanks, sign, rest[..m], body[..n], body[n..]);
    assert body == p.digits + p.tail && rest == p.prefix + body;
    TailEnds(rest, m, n, p, base);
    FirstDigits(body, n, base);
  }

  lemma {:induction false} FirstDigits(body: string, n: nat, base: Base)
    requires body != "" && DigitOf(body[0], base) && n == DigitCount(body, base)
    ensures Digital(body[..n], base)
  {
    CountedDigits(body, base);
  }

  lemma {:induction false} TailEnds(rest: string, m: nat, n: nat, p: Parts, base: Base)
    requires m <= |rest| && n <= |rest[m..]| && m == if Prefixed(rest, base) then 2 else 0
    requires p.prefix == rest[..m] && p.digits == rest[m..][..n] && p.tail == rest[m..][n..]
    requires n < |rest[m..]| ==> !DigitOf(rest[m..][n], base)
    ensures Ends(p, base) && (p.prefix == "" || (base == 16 && (p.prefix == "0x" || p.prefix == "0X")))
  {
    assert p.tail != "" ==> p.tail[0] == rest[m..][n];
    if m == 0 {
      assert rest[m..] == rest;
      assert p.digits == "0" && |p.tail| > 1 ==> rest[0] == '0' && p.tail[0] == rest[1] && p.tail[1] == rest[2];
    } else {
      assert rest[..m] == [rest[0], rest[1]];
    }
  }

  /** Blanks and a sign in front, and what follows them. */
  lemma {:induction false} Front(s: string) returns (blanks: string, sign: string, rest: string)
    ensures s == blanks + (sign + rest) && AllSpace(blanks) && IsSign(sign)
    ensures sign == "" && rest != "" ==> !IsSpace(rest[0]) && !IsSign([rest[0]])
  {
    hide LTrim, AllSpace, IsSpace;
    var u := LTrim(s);
    blanks := s[..|s| - |u|];
    BlanksInFront(s);
    sign := if u != "" && (u[0] == '+' || u[0] == '-') then [u[0]] else "";
    rest := u[|sign|..];
    assert u == sign + rest;
  }

  lemma {:induction false} BlanksInFront(s: string)
    ensures var u := LTrim(s);
      && s == s[..|s| - |u|] + u && AllSpace(s[..|s| - |u|])
      && (u != "" ==> !IsSpace(u[0]))
  {
    hide LTrim;
    LTrimSpec(s);
  }

  /** strtol and strtoul leave nothing behind exactly in a number, or in an empty text. */
  lemma {:induction false} CompleteIsNumeral(s: string, base: Base)
    ensures Complete(s, base) <==> s == "" || IsNumeral(s, base)
  {
    hide LTrim, Value, Scan, Spelled, Numeric, DigitOf, AllSpace, IsSign;
    if IsNumeral(s, base) {
      var p :| Numeric(p, base) && p.tail == "" && Spelled(p) == s;
      ScanNumeric(p, base);
    }
    var blanks, sign, rest := Front(s);
    if rest != "" && DigitOf(rest[0], base) {
      var p := Split(blanks, sign, rest, base);
      ScanNumeric(p, base);
      SpelledLength(p);
    } else {
      ScanNothing(blanks, sign, rest, base);
    }
  }

  lemma {:induction false} SpelledLength(p: Parts)
    ensures |Spelled(p)| >= |p.tail|
  {
  }

  /** Characters behind the digits: the text is no number. */
  lemma {:induction false} TailIsNoNumeral(p: Parts, base: Base)
    requires Numeric(p, base) && p.tail != ""
    ensures !Complete(Spelled(p), base) && !IsNumeral(Spelled(p), base)
  {
    hide Scan, Value, Spelled;
    ScanNumeric(p, base);
    SpelledLength(p);
    CompleteIsNumeral(Spelled(p), base);
  }

  // ---- values ----------------------------------------------------------------------------------------

  /** strtol keeps a number that a long can hold, and else gives the nearest one it can. */
  lemma {:induction false} StrtolValue(p: Parts, base: Base)
    requires Numeric(p, base)
    ensures var v, r, limit: int := Signed(p, base), Strtol(Spelled(p), base), LONG_LIMIT;
      && -limit <= r < limit
      && (-limit <= v < limit ==> r == v)
      && (v >= limit ==> r == limit - 1) && (v < -limit ==> r == -limit)
  {
    hide Scan, Value, Spelled;
    ScanNumeric(p, base);
  }

  /** strtoul keeps a magnitude that an unsigned long can hold, negated in the unsigned type behind a
      minus; a larger one gives the greatest unsigned long. */
  lemma {:induction false} StrtoulValue(p: Parts, base: Base)
    requires Numeric(p, base)
    ensures var m, r := Value(p.digits, base), Strtoul(Spelled(p), base);
      && r < 2 * LONG_LIMIT
      && (m < 2 * LONG_LIMIT && p.sign != "-" ==> r == m)
      && (m < 2 * LONG_LIMIT && p.sign == "-" ==> r == if m == 0 then 0 else 2 * LONG_LIMIT - m)
      && (m >= 2 * LONG_LIMIT ==> r == 2 * LONG_LIMIT - 1)
  {
    hide Scan, Value, Spelled;
    ScanNumeric(p, base);
  }

  /** Storing in 32 bits keeps the number modulo 2^32, in the range of the type. */
  lemma {:induction false} Narrowed(x: int, v: nat)
    ensures IsInt32(ToInt32(x)) && (x - ToInt32(x)) % WORD == 0
    ensures IsInt32(x) ==> ToInt32(x) == x
    ensures (v - ToUint32(v)) % WORD == 0 && (v < WORD ==> ToUint32(v) == v)
  {
  }

  /** Every number of 32 bits is read as what it says, in either case of its digits. */
  lemma {:induction false} NumeralValue(p: Parts, base: Base)
    requires Numeric(p, base)
    ensures IsInt32(Signed(p, base)) ==> ToInt32(Strtol(Spelled(p), base)) == Signed(p, base)
    ensures 0 <= Signed(p, base) < WORD ==> ToUint32(Strtoul(Spelled(p), base)) == Signed(p, base)
  {
    hide Strtol, Strtoul, Value, Spelled, ToInt32, ToUint32;
    StrtolValue(p, base);
    StrtoulValue(p, base);
    Narrowed(Signed(p, base), Value(p.digits, base));
  }

  /** A digit string in upper case. */
  function UpperCase(s: string): (u: string)
    ensures |u| == |s|
  {
    if s == "" then "" else
      UpperCase(s[..|s| - 1]) + [var c := s[|s| - 1]; if 'a' <= c <= 'f' then UPPER[DigitValue(c)] else c]
  }

  lemma {:induction false} UpperCaseValue(s: string)
    requires s != "" && Digital(s, 16)
    ensures Digital(UpperCase(s), 16) && Value(UpperCase(s), 16) == Value(s, 16)
  {
    var n := |s| - 1;
    assert DigitOf(s[n], 16);
    var u := UpperCase(s);
    assert u[..n] == UpperCase(s[..n]);
    if n > 0 {
      UpperCaseValue(s[..n]);
      assert forall k :: 0 <= k < n ==> u[k] == UpperCase(s[..n])[k];
    }
  }

  // ---- requests --------------------------------------------------------------------------------------

  ghost predicate DevNumerals(token: string) {
    var ds := Tokens(token, '.');
    ds != [] && IsNumeral(ds[0], 10) && (|ds| > 1 ==> IsNumeral(ds[1], 10))
  }

  lemma {:induction false} TokensNotEmpty(t: string, c: char)
    ensures forall k :: 0 <= k < |Tokens(t, c)| ==> Tokens(t, c)[k] != ""
    decreases |t|
  {
    hide TokenStart, TokenEnd, After;
    TokensUnfold(t, c);
    var a := TokenStart(t, c);
    if a < |t| {
      StartStops(t, c, 0);
      TokenNotEmpty(t, c, a);
      TokensNotEmpty(After(t, c), c);
    }
  }

  lemma {:induction false} TokenNotEmpty(t: string, c: char, a: nat)
    requires a < |t| && t[a] != c && a == TokenStart(t, c)
    ensures TokenEnd(t, c, a) > a && |After(t, c)| < |t|
  {
    hide TokenStart;
  }

  /** What kind of request a URI is, read off its characters. */
  lemma {:induction false} RequestOfUri(uri: string)
    ensures var path, t := Tokens(uri, '/'), PathMeaning(Tokens(uri, '/')).0;
      var addressed := |path| >= 2 && IsNumeral(path[0], 10) && DevNumerals(path[1]);
      && (t == RequestGet <==> addressed && |path| == 2)
      && (t == RequestSet <==> addressed && |path| >= 3 && IsNumeral(path[2], 16))
  {
    hide Tokens, Complete, PathMeaning, IsNumeral;
    var path := Tokens(uri, '/');
    RequestKind(path);
    TokensNotEmpty(uri, '/');
    if |path| >= 2 {
      CompleteIsNumeral(path[0], 10);
      var ds := Tokens(path[1], '.');
      TokensNotEmpty(path[1], '.');
      if ds != [] {
        CompleteIsNumeral(ds[0], 10);
      }
      if |ds| > 1 {
        CompleteIsNumeral(ds[1], 10);
      }
    }
    if |path| >= 3 {
      CompleteIsNumeral(path[2], 16);
    }
  }
}
