/** Number conversions: strtol and strtoul (section 7.22.1.4 of ISO C11), the conversions of
    their results to 32-bit types, and the %d and %x output formats. */
module Numbers {
  import opened Bits
  import opened CString

  /** The width of `long`: 32 on the Raspberry Pi, 64 on a 64-bit host. Everything below is
      proved for both. */
  type LongBits = n: nat | n == 32 || n == 64 witness 32
  const LONG_BITS: LongBits
  const LONG_LIMIT: nat := if LONG_BITS == 32 then 0x8000_0000 else 0x8000_0000_0000_0000

  type Base = b: nat | b == 10 || b == 16 witness 10

  // ---- digits ---------------------------------------------------------------------------------

  function DigitValue(c: char): nat
  {
    if '0' <= c <= '9' then c as nat - '0' as nat
    else if 'a' <= c <= 'f' then 10 + (c as nat - 'a' as nat)
    else if 'A' <= c <= 'F' then 10 + (c as nat - 'A' as nat)
    else 16
  }

  predicate IsDigit(c: char, base: Base) {
    DigitValue(c) < base
  }

  ghost predicate AllDigits(s: string, base: Base) {
    forall k :: 0 <= k < |s| ==> IsDigit(s[k], base)
  }

  function Value(s: string, base: Base): nat
  {
    if s == "" then 0 else Value(s[..|s| - 1], base) * base + DigitValue(s[|s| - 1])
  }

  function DigitChar(d: nat): char
    requires d < 16
  {
    if d < 10 then ('0' as nat + d) as char else ('a' as nat + (d - 10)) as char
  }

  /** The digits of n without leading zeros; letters are lower case. */
  function Digits(n: nat, base: Base): (s: string)
    ensures s != ""
  {
    if n < base then [DigitChar(n)]
    else if base == 10 then Digits(n / 10, base) + [DigitChar(n % 10)]
    else Digits(n / 16, base) + [DigitChar(n % 16)]
  }

  /** Reading the printed digits gives the number back. */
  lemma {:induction false} DigitsRoundTrip(n: nat, base: Base)
    ensures var s := Digits(n, base);
      AllDigits(s, base) && Value(s, base) == n
  {
    var s := Digits(n, base);
    if n < base {
      assert Value(s[..0], base) == 0;
    } else {
      var q := if base == 10 then n / 10 else n / 16;
      DigitsRoundTrip(q, base);
      assert s[..|s| - 1] == Digits(q, base);
    }
  }

  function Pow(base: Base, k: nat): nat
  {
    if k == 0 then 1 else if base == 10 then 10 * Pow(base, k - 1) else 16 * Pow(base, k - 1)
  }

  lemma {:induction false} DigitsLength(n: nat, base: Base, k: nat)
    requires k > 0 && n < Pow(base, k)
    ensures |Digits(n, base)| <= k
  {
    if n >= base {
      assert k > 1 by { assert Pow(base, 1) == base * Pow(base, 0) == base; }
      DigitsLength(if base == 10 then n / 10 else n / 16, base, k - 1);
    }
  }

  // ---- strtol and strtoul -----------------------------------------------------------------------

  function DigitRun(s: string, base: Base, i: nat): (j: nat)
    requires i <= |s|
    ensures i <= j <= |s|
    decreases |s| - i
  {
    if i < |s| && IsDigit(s[i], base) then DigitRun(s, base, i + 1) else i
  }

  /** What was converted: sign, magnitude, and the index behind the last character used; an
      index of 0 means that there was nothing to convert. */
  datatype Scanned = Scanned(negative: bool, magnitude: nat, end: nat)

  function Prefix(s: string, base: Base, i: nat): (j: nat)
    requires i <= |s|
    ensures i <= j <= |s|
  {
    if base == 16 && i + 2 < |s| && s[i] == '0' && (s[i + 1] == 'x' || s[i + 1] == 'X') && IsDigit(s[i + 2], 16)
    then i + 2 else i
  }

  function Scan(s: string, base: Base): Scanned
  {
    var i := |s| - |LTrim(s)|;
    var signed := i < |s| && (s[i] == '-' || s[i] == '+');
    var first := Prefix(s, base, if signed then i + 1 else i);
    var end := DigitRun(s, base, first);
    if end == first then Scanned(false, 0, 0)
    else Scanned(signed && s[i] == '-', Value(s[first..end], base), end)
  }

  function Strtol(s: string, base: Base): int
  {
    var r := Scan(s, base);
    var m: int, limit: int := r.magnitude, LONG_LIMIT;
    if r.negative then (if m > limit then -limit else -m)
    else if m >= limit then limit - 1 else m
  }

  function Strtoul(s: string, base: Base): nat
  {
    var r := Scan(s, base);
    if r.magnitude >= 2 * LONG_LIMIT then 2 * LONG_LIMIT - 1
    else if r.negative && r.magnitude > 0 then 2 * LONG_LIMIT - r.magnitude
    else r.magnitude
  }

  /** `*endptr == '\0'` */
  predicate Complete(s: string, base: Base) {
    Scan(s, base).end == |s|
  }

  function ToInt32(x: int): int
  {
    (x + 0x8000_0000) % 0x1_0000_0000 - 0x8000_0000
  }

  function ToUint32(x: nat): word
  {
    x % WORD
  }

  // ---- %d and %x ----------------------------------------------------------------------------------

  predicate IsInt32(n: int) {
    -0x8000_0000 <= n < 0x8000_0000
  }

  function Decimal(n: int): string
  {
    if n < 0 then "-" + Digits(-n, 10) else Digits(n, 10)
  }

  function Hex(v: word): string
  {
    Digits(v, 16)
  }

  lemma {:induction false} RunOfDigits(s: string, base: Base, i: nat)
    requires i <= |s| && forall k :: i <= k < |s| ==> IsDigit(s[k], base)
    ensures DigitRun(s, base, i) == |s|
    decreases |s| - i
  {
    if i < |s| {
      RunOfDigits(s, base, i + 1);
    }
  }

  lemma {:induction false} ScanDigits(sign: string, s: string, base: Base)
    requires s != "" && AllDigits(s, base) && (sign == "" || sign == "-")
    ensures Scan(sign + s, base) == Scanned(sign == "-", Value(s, base), |sign + s|)
  {
    hide Value, Prefix, DigitRun, LTrim, IsDigit, AllDigits, Scan;
    var t := sign + s;
    var i := |sign|;
    assert t[i..] == s;
    NoPrefix(s, t, base, i);
    SuffixDigits(s, t, base, i);
    RunOfDigits(t, base, i);
    LTrimNoop(t);
    ScanFrom(t, base, i);
  }

  lemma {:induction false} LTrimNoop(t: string)
    requires t != "" && !IsSpace(t[0])
    ensures LTrim(t) == t
  {
  }

  lemma {:induction false} SuffixDigits(s: string, t: string, base: Base, i: nat)
    requires AllDigits(s, base) && i <= |t| && t[i..] == s
    ensures forall k :: i <= k < |t| ==> IsDigit(t[k], base)
  {
    forall k | i <= k < |t|
      ensures IsDigit(t[k], base)
    {
      assert t[k] == s[k - i];
    }
  }

  lemma {:induction false} ScanFrom(t: string, base: Base, i: nat)
    requires i <= 1 && i < |t| && LTrim(t) == t && Prefix(t, base, i) == i && DigitRun(t, base, i) == |t|
    requires if i == 1 then t[0] == '-' else t[0] != '-' && t[0] != '+'
    ensures Scan(t, base) == Scanned(i == 1, Value(t[i..], base), |t|)
  {
    hide Prefix, DigitRun, LTrim, Value;
    assert t[i..|t|] == t[i..];
  }

  lemma {:induction false} NoPrefix(s: string, t: string, base: Base, i: nat)
    requires s != "" && AllDigits(s, base) && i <= |t| && t[i..] == s
    ensures Prefix(t, base, i) == i && !IsSpace(t[i]) && t[i] != '-' && t[i] != '+'
  {
    assert t[i] == s[0] && IsDigit(s[0], base);
    if |s| > 1 {
      assert t[i + 1] == s[1] && IsDigit(s[1], base);
    }
  }

  /** strtol reads back every %d output of a 32-bit integer. */
  lemma {:induction false} DecimalRoundTrip(n: int)
    requires IsInt32(n)
    ensures var s := Decimal(n);
      s != "" && Complete(s, 10) && ToInt32(Strtol(s, 10)) == n
  {
    hide Digits, Value, Scan;
    var m := if n < 0 then -n else n;
    DigitsRoundTrip(m, 10);
    ScanDigits(if n < 0 then "-" else "", Digits(m, 10), 10);
    assert "" + Digits(m, 10) == Digits(m, 10);
  }

  /** strtoul reads back every %x output of a 32-bit value. */
  lemma {:induction false} HexRoundTrip(v: word)
    ensures var s := Hex(v);
      s != "" && Complete(s, 16) && ToUint32(Strtoul(s, 16)) == v
  {
    hide Digits, Value, Scan;
    DigitsRoundTrip(v, 16);
    ScanDigits("", Digits(v, 16), 16);
    assert "" + Digits(v, 16) == Digits(v, 16);
  }

  lemma {:induction false} OutputLengths(n: int, v: word)
    requires IsInt32(n)
    ensures |Decimal(n)| <= 11 && |Hex(v)| <= 8
  {
    assert Pow(10, 10) == 10_000_000_000;
    DigitsLength(if n < 0 then -n else n, 10, 10);
    assert Pow(16, 8) == 0x1_0000_0000;
    DigitsLength(v, 16, 8);
  }
}
