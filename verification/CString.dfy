/** C strings in character buffers, with the library calls the program uses on them.
    A C byte is a Dafny `char`; a pointer is an index into the buffer it points to. */
module CString {

  const NUL: char := '\0'

  /** isspace in the "C" locale (section 7.4.1.10 of ISO C11). */
  predicate IsSpace(c: char) {
    c == ' ' || '\t' <= c <= '\r'
  }

  ghost predicate AllSpace(t: string) {
    forall k :: 0 <= k < |t| ==> IsSpace(t[k])
  }

  /** Buffer b holds the NUL-terminated string t at index p. */
  ghost predicate Holds(b: seq<char>, p: nat, t: string) {
    && p + |t| < |b|
    && (forall k :: 0 <= k < |t| ==> t[k] != NUL && b[p + k] == t[k])
    && b[p + |t|] == NUL
  }

  /** What a reader of a C string sees of s: everything before the first NUL. */
  function UpToNul(s: string): (t: string)
    ensures |t| <= |s|
  {
    if s == "" || s[0] == NUL then "" else [s[0]] + UpToNul(s[1..])
  }

  lemma {:induction false} UpToNulSpec(s: string)
    ensures var t := UpToNul(s);
      && t == s[..|t|]
      && (forall k :: 0 <= k < |t| ==> t[k] != NUL)
      && (|t| < |s| ==> s[|t|] == NUL)
  {
    if s == "" || s[0] == NUL {
    } else {
      UpToNulSpec(s[1..]);
    }
  }

  lemma {:induction false} HoldsBytes(b: seq<char>, p: nat, t: string)
    requires Holds(b, p, t)
    ensures forall k :: p <= k < p + |t| ==> b[k] == t[k - p] && b[k] != NUL
  {
    forall k | p <= k < p + |t|
      ensures b[k] == t[k - p] && b[k] != NUL
    {
      assert t[k - p] == b[p + (k - p)];
    }
  }

  lemma {:induction false} HoldsSuffix(b: seq<char>, p: nat, t: string, i: nat)
    requires Holds(b, p, t) && i <= |t|
    ensures Holds(b, p + i, t[i..])
  {
    forall k | 0 <= k < |t| - i
      ensures t[i..][k] != NUL && b[p + i + k] == t[i..][k]
    {
      assert t[i..][k] == t[i + k];
    }
  }

  /** The byte of a held string at index e, its terminator included. */
  lemma {:induction false} HeldByte(b: seq<char>, s: nat, t: string, e: nat)
    requires Holds(b, s, t) && e <= |t|
    ensures e < |t| ==> b[s + e] == t[e]
    ensures e == |t| ==> b[s + e] == NUL
    ensures e < |t| ==> t[e] != NUL
  {
  }

  /** Equal stretches of two buffers hold equal strings. */
  lemma {:induction false} HoldsFrame(b: seq<char>, c: seq<char>, p: nat, t: string)
    requires Holds(b, p, t) && |c| == |b|
    requires forall k :: p <= k <= p + |t| ==> c[k] == b[k]
    ensures Holds(c, p, t)
  {
  }

  // ---- trimming ------------------------------------------------------------------------

  function RTrim(t: string): (r: string)
    ensures |r| <= |t| && r == t[..|r|]
  {
    if t != "" && IsSpace(t[|t| - 1]) then RTrim(t[..|t| - 1]) else t
  }

  function LTrim(t: string): (r: string)
    ensures |r| <= |t| && r == t[|t| - |r|..]
  {
    if t != "" && IsSpace(t[0]) then LTrim(t[1..]) else t
  }

  lemma {:induction false} RTrimSpec(t: string)
    ensures var r := RTrim(t);
      && (r == "" || !IsSpace(r[|r| - 1]))
      && (forall k :: |r| <= k < |t| ==> IsSpace(t[k]))
  {
    if t != "" && IsSpace(t[|t| - 1]) {
      RTrimSpec(t[..|t| - 1]);
    }
  }

  lemma {:induction false} LTrimSpec(t: string)
    ensures var r := LTrim(t);
      && (r == "" || !IsSpace(r[0]))
      && (forall k :: 0 <= k < |t| - |r| ==> IsSpace(t[k]))
  {
    if t != "" && IsSpace(t[0]) {
      LTrimSpec(t[1..]);
      assert forall k :: 1 <= k < |t| ==> t[k] == t[1..][k - 1];
    }
  }

  /** The clauses of RTrimSpec determine RTrim. */
  lemma {:induction false} RTrimUnique(u: string, w: string)
    requires u == "" || !IsSpace(u[|u| - 1])
    requires AllSpace(w)
    ensures RTrim(u + w) == u
  {
    var r := RTrim(u + w);
    RTrimSpec(u + w);
    assert u != "" ==> (u + w)[|u| - 1] == u[|u| - 1];
    assert forall k :: |u| <= k < |u + w| ==> IsSpace((u + w)[k]);
    assert r != "" ==> r[|r| - 1] == (u + w)[|r| - 1];
  }

  lemma {:induction false} LTrimUnique(w: string, u: string)
    requires u == "" || !IsSpace(u[0])
    requires AllSpace(w)
    ensures LTrim(w + u) == u
  {
    var r := LTrim(w + u);
    LTrimSpec(w + u);
    var n := |w + u| - |r|;
    assert u != "" ==> (w + u)[|w|] == u[0];
    assert r != "" ==> r[0] == (w + u)[n];
    assert (w + u)[|w|..] == u;
  }

  lemma {:induction false} LTrimSplit(t: string, n: nat)
    requires n <= |t| && (forall k :: 0 <= k < n ==> IsSpace(t[k]))
    requires n == |t| || !IsSpace(t[n])
    ensures LTrim(t) == t[n..]
  {
    assert t == t[..n] + t[n..];
    LTrimUnique(t[..n], t[n..]);
  }

  // ---- the C functions -----------------------------------------------------------------

  method Strlen(b: array<char>, s: nat, ghost t: string) returns (n: nat)
    requires Holds(b[..], s, t)
    ensures n == |t|
  {
    n := 0;
    HoldsBytes(b[..], s, t);
    while b[s + n] != NUL
      invariant n <= |t|
      decreases |t| - n
    {
      n := n + 1;
    }
  }

  /** The contents a callee sees behind a `const char*`. */
  method ReadString(b: array<char>, s: nat, ghost t: string) returns (r: string)
    requires Holds(b[..], s, t)
    ensures r == t
  {
    r := "";
    HoldsBytes(b[..], s, t);
    while b[s + |r|] != NUL
      invariant |r| <= |t| && r == t[..|r|]
      decreases |t| - |r|
    {
      r := r + [b[s + |r|]];
    }
  }

  /** strncpy (section 7.24.2.4 of ISO C11): stop at the NUL, then pad with NULs. */
  method Strncpy(dest: array<char>, src: array<char>, s: nat, size: nat, ghost t: string)
    requires Holds(src[..], s, t) && dest != src && size <= dest.Length
    modifies dest
    ensures forall k :: 0 <= k < size ==> dest[k] == if k < |t| then t[k] else NUL
    ensures forall k :: size <= k < dest.Length ==> dest[k] == old(dest[k])
  {
    var i := 0;
    HoldsBytes(src[..], s, t);
    while i < size && src[s + i] != NUL
      invariant 0 <= i <= size && i <= |t|
      invariant forall k :: 0 <= k < i ==> dest[k] == t[k]
      invariant forall k :: size <= k < dest.Length ==> dest[k] == old(dest[k])
      decreases |t| - i
    {
      dest[i] := src[s + i];
      i := i + 1;
    }
    while i < size
      invariant 0 <= i <= size && (i < size ==> |t| <= i)
      invariant forall k :: 0 <= k < i ==> dest[k] == if k < |t| then t[k] else NUL
      invariant forall k :: size <= k < dest.Length ==> dest[k] == old(dest[k])
    {
      dest[i] := NUL;
      i := i + 1;
    }
  }

  lemma {:induction false} HoldsEmpty(b: seq<char>, p: nat)
    requires p < |b| && b[p] == NUL
    ensures Holds(b, p, "")
  {
  }

  /** Slices of a text without its first character. */
  lemma {:induction false} TailSlice(t: string, i: nat, j: nat)
    requires t != "" && i <= j < |t|
    ensures t[1..][i..j] == t[i + 1..j + 1] && t[1..][i..] == t[i + 1..]
  {
  }

  /** At most n characters of t. */
  function Take(t: string, n: nat): (r: string)
  {
    if |t| < n then t else t[..n]
  }

  lemma {:induction false} TakeShort(t: string, n: nat)
    requires |t| <= n
    ensures Take(t, n) == t
  {
    assert |t| == n ==> t[..n] == t;
  }
}
