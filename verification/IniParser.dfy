/** The in-place parser of src/ini.c: one line buffer whose bytes are overwritten with NULs,
    and two bounded name buffers. */
module IniParser {
  import opened CString
  import opened IniGrammar

  class File {
    const data: string
    var pos: nat

    ghost predicate Valid()
      reads this
    {
      pos <= |data|
    }

    ghost function Rest(): string
      reads this
      requires Valid()
    {
      data[pos..]
    }

    constructor (data: string)
      ensures Valid() && Rest() == data
    {
      this.data := data;
      pos := 0;
    }

    /** fgets(line, MAX_LINE, file) */
    method Fgets(line: array<char>) returns (ok: bool)
      requires Valid() && line.Length == MAX_LINE
      modifies line, this`pos
      ensures Valid()
      ensures ok <==> old(Rest()) != ""
      ensures ok ==>
        var n := ChunkLen(old(Rest()));
        line[..n] == old(Rest())[..n] && line[n] == NUL && Rest() == old(Rest())[n..]
      ensures !ok ==> Rest() == ""
    {
      ghost var rest := Rest();
      if pos == |data| {
        return false;
      }
      var n := 0;
      ghost var p0 := pos;
      while n < MAX_LINE - 1 && pos < |data|
        invariant 0 <= n <= MAX_LINE - 1 && pos == p0 + n <= |data|
        invariant forall k :: 0 <= k < n ==> line[k] == rest[k]
        invariant ChunkLen(rest) == ChunkLen(rest, n)
        decreases |data| - pos
      {
        line[n] := data[pos];
        n := n + 1;
        pos := pos + 1;
        if data[pos - 1] == '\n' {
          break;
        }
      }
      line[n] := NUL;
      assert n == ChunkLen(rest);
      assert Rest() == rest[n..];
      ok := true;
    }
  }

  method Rstrip(b: array<char>, s: nat, ghost t: string)
    requires Holds(b[..], s, t)
    modifies b
    ensures Holds(b[..], s, RTrim(t))
    ensures forall k :: 0 <= k < b.Length && !(s <= k < s + |t|) ==> b[k] == old(b[k])
  {
    ghost var r := RTrim(t);
    var n := Strlen(b, s, t);
    var p := s + n;
    assert t[..n] == t;
    while p > s
      invariant s <= p <= s + |t|
      invariant Holds(b[..], s, t[..p - s]) && RTrim(t[..p - s]) == r
      invariant forall k :: 0 <= k < b.Length && !(p <= k < s + |t|) ==> b[k] == old(b[k])
      decreases p
    {
      p := p - 1;
      assert t[..p - s + 1][..p - s] == t[..p - s];
      assert t[..p - s + 1][p - s] == b[..][p];
      if !IsSpace(b[p]) {
        break;
      }
      b[p] := NUL;
    }
  }

  method Lskip(b: array<char>, s: nat, ghost t: string) returns (p: nat)
    requires Holds(b[..], s, t)
    ensures p == s + |t| - |LTrim(t)| && Holds(b[..], p, LTrim(t))
  {
    hide LTrim;
    p := s;
    HoldsBytes(b[..], s, t);
    while b[p] != NUL && IsSpace(b[p])
      invariant s <= p <= s + |t|
      invariant forall k :: 0 <= k < p - s ==> IsSpace(t[k])
      decreases s + |t| - p
    {
      p := p + 1;
    }
    HoldsSuffix(b[..], s, t, p - s);
    LTrimSplit(t, p - s);
  }

  method FindCharOrComment(b: array<char>, s: nat, c: char, ghost t: string) returns (p: nat)
    requires Holds(b[..], s, t)
    ensures p == s + Find(t, c)
  {
    var wasWhitespace := false;
    p := s;
    HoldsBytes(b[..], s, t);
    while b[p] != NUL && b[p] != c && !(wasWhitespace && b[p] == ';')
      invariant s <= p <= s + |t| && Find(t, c) == Find(t, c, p - s)
      invariant wasWhitespace == (p > s && IsSpace(t[p - s - 1]))
      decreases s + |t| - p
    {
      wasWhitespace := IsSpace(b[p]);
      p := p + 1;
    }
  }

  method Strncpy0(dest: array<char>, src: array<char>, s: nat, ghost t: string)
    requires Holds(src[..], s, t) && dest != src && dest.Length > 0
    modifies dest
    ensures Holds(dest[..], 0, Take(t, dest.Length - 1))
  {
    Strncpy(dest, src, s, dest.Length, t);
    dest[dest.Length - 1] := NUL;
  }

  /** `*end = '\0'`: the string t at s is cut in two at its index e. */
  method PutNul(b: array<char>, s: nat, e: nat, ghost t: string)
    requires Holds(b[..], s, t) && e < |t|
    modifies b
    ensures Holds(b[..], s, t[..e]) && Holds(b[..], s + e + 1, t[e + 1..])
    ensures forall k :: 0 <= k < b.Length && k != s + e ==> b[k] == old(b[k])
  {
    ghost var b0 := b[..];
    HoldsSuffix(b0, s, t, e + 1);
    b[s + e] := NUL;
    HoldsFrame(b0, b[..], s + e + 1, t[e + 1..]);
  }

  /** "[section]": src/ini.c, lines 115 to 127. */
  method SectionLine(line: array<char>, start: nat, ghost u: string,
                     section: array<char>, prevName: array<char>) returns (ok: bool)
    requires Holds(line[..], start, u) && u != ""
    requires section.Length == MAX_SECTION && prevName.Length == MAX_NAME
    requires line != section && line != prevName && section != prevName
    modifies line, section, prevName
    ensures ok <==> SectionItem(u).Section?
    ensures ok ==> Holds(section[..], 0, Take(SectionItem(u).title, MAX_SECTION - 1))
    ensures ok ==> Holds(prevName[..], 0, "")
    ensures !ok ==> section[..] == old(section[..]) && prevName[..] == old(prevName[..])
  {
    HoldsSuffix(line[..], start, u, 1);
    var end := FindCharOrComment(line, start + 1, ']', u[1..]);
    ghost var e := end - start - 1;
    HeldByte(line[..], start + 1, u[1..], e);
    if line[end] == ']' {
      PutNul(line, start + 1, end - start - 1, u[1..]);
      Strncpy0(section, line, start + 1, u[1..][..e]);
      prevName[0] := NUL;
      ok := true;
    } else {
      ok := false;
    }
  }

  method FindSeparator(line: array<char>, start: nat, ghost u: string) returns (end: nat)
    requires Holds(line[..], start, u)
    ensures end == start + Separator(u)
  {
    hide Find;
    end := FindCharOrComment(line, start, '=', u);
    HeldByte(line[..], start, u, end - start);
    if line[end] != '=' {
      end := FindCharOrComment(line, start, ':', u);
    }
  }

  /** "name = value": src/ini.c, lines 128 to 144. Returns what the handler is given. */
  method PairLine(line: array<char>, start: nat, ghost u: string, prevName: array<char>)
    returns (ok: bool, name: string, value: string)
    requires Holds(line[..], start, u)
    requires prevName.Length == MAX_NAME && line != prevName
    modifies line, prevName
    ensures ok <==> PairItem(u).Pair?
    ensures ok ==> PairItem(u) == Pair(name, value)
    ensures ok ==> Holds(prevName[..], 0, Take(name, MAX_NAME - 1))
    ensures !ok ==> prevName[..] == old(prevName[..])
  {
    hide Separator, RTrim, LTrim, StripComment;
    name, value := "", "";
    var end := FindSeparator(line, start, u);
    HeldByte(line[..], start, u, end - start);
    if line[end] == '=' || line[end] == ':' {
      ghost var n := RTrim(u[..end - start]);
      ghost var v := RTrim(StripComment(LTrim(u[end + 1 - start..])));
      var val := CutPair(line, start, end, u, n, v);
      Strncpy0(prevName, line, start, n);
      name := ReadString(line, start, n);
      value := ReadString(line, val, v);
      ok := true;
    } else {
      ok := false;
    }
  }

  /** The name ends at the separator; its trailing whitespace goes too, and the text behind
      the separator is not touched. */
  method CutName(line: array<char>, start: nat, end: nat, ghost u: string)
    requires Holds(line[..], start, u) && start <= end < start + |u|
    modifies line
    ensures Holds(line[..], start, RTrim(u[..end - start]))
    ensures Holds(line[..], end + 1, u[end + 1 - start..])
  {
    PutNul(line, start, end - start, u);
    ghost var b1 := line[..];
    Rstrip(line, start, u[..end - start]);
    HoldsFrame(b1, line[..], end + 1, u[end + 1 - start..]);
  }

  /** Lines 138 to 140. */
  method CutComment(line: array<char>, s: nat, ghost v: string)
    requires Holds(line[..], s, v)
    modifies line
    ensures Holds(line[..], s, StripComment(v))
    ensures forall k :: 0 <= k < s ==> line[k] == old(line[k])
  {
    hide Find;
    var end := FindCharOrComment(line, s, NUL, v);
    HeldByte(line[..], s, v, end - s);
    if line[end] == ';' {
      PutNul(line, s, end - s, v);
    }
  }

  /** The value loses its leading whitespace, its comment and its trailing whitespace; nothing
      in front of it is touched. */
  method CutValue(line: array<char>, s: nat, ghost t: string) returns (value: nat)
    requires Holds(line[..], s, t)
    modifies line
    ensures Holds(line[..], value, RTrim(StripComment(LTrim(t))))
    ensures forall k :: 0 <= k < s ==> line[k] == old(line[k])
  {
    hide RTrim, LTrim, StripComment;
    value := Lskip(line, s, t);
    CutComment(line, value, LTrim(t));
    Rstrip(line, value, StripComment(LTrim(t)));
  }

  /** Lines 135 to 141: afterwards the buffer holds the trimmed name and the trimmed value side
      by side. */
  method CutPair(line: array<char>, start: nat, end: nat, ghost u: string, ghost n: string, ghost v: string)
    returns (value: nat)
    requires Holds(line[..], start, u) && start <= end < start + |u|
    requires n == RTrim(u[..end - start])
    requires v == RTrim(StripComment(LTrim(u[end + 1 - start..])))
    modifies line
    ensures Holds(line[..], start, n) && Holds(line[..], value, v)
  {
    hide RTrim, LTrim, StripComment;
    CutName(line, start, end, u);
    ghost var b := line[..];
    value := CutValue(line, end + 1, u[end + 1 - start..]);
    HoldsFrame(b, line[..], start, n);
  }

  /** Lines 104 to 152: what one line, trimmed and found at `start`, does. */
  method ParseItem<U>(line: array<char>, section: array<char>, prevName: array<char>, start: nat,
                      handler: Handler<U>, error0: nat, ghost st: State<U>,
                      ghost u: string, ghost item: Item, user0: U, lineno: nat)
    returns (error: nat, user: U)
    requires section.Length == MAX_SECTION && prevName.Length == MAX_NAME
    requires line != section && line != prevName && section != prevName
    requires Holds(line[..], start, u)
    requires Holds(section[..], 0, st.section) && Holds(prevName[..], 0, st.prevName)
    requires lineno == st.lineno && error0 == st.error && user0 == st.user
    requires item ==
      if u == "" || u[0] == ';' || u[0] == '#' then Nothing
      else if st.prevName != "" && start > 0 then Continuation(u)
      else if u[0] == '[' then SectionItem(u)
      else PairItem(u)
    modifies line, section, prevName
    ensures var next := Apply(handler, st, item);
            && Holds(section[..], 0, next.section) && Holds(prevName[..], 0, next.prevName)
            && error == next.error && user == next.user
  {
    hide SectionItem, PairItem;
    error, user := error0, user0;
    HeldByte(line[..], start, u, 0);
    HeldByte(prevName[..], 0, st.prevName, 0);
    if line[start] == ';' || line[start] == '#' {
    } else if prevName[0] != NUL && line[start] != NUL && start > 0 {
      var sec := ReadString(section, 0, st.section);
      var name := ReadString(prevName, 0, st.prevName);
      var value := ReadString(line, start, u);
      var (user', ok) := handler(user, sec, name, value);
      user := user';
      if !ok && error == 0 { error := lineno; }
    } else if line[start] == '[' {
      var ok := SectionLine(line, start, u, section, prevName);
      if !ok && error == 0 { error := lineno; }
    } else if line[start] != NUL && line[start] != ';' {
      var ok, name, value := PairLine(line, start, u, prevName);
      if ok {
        var sec := ReadString(section, 0, st.section);
        var (user', accepted) := handler(user, sec, name, value);
        user := user';
        if !accepted && error == 0 { error := lineno; }
      } else if error == 0 {
        error := lineno;
      }
    }
  }

  /** One turn of the loop of ini_parse_file. */
  method ParseChunk<U>(line: array<char>, section: array<char>, prevName: array<char>,
                       lineno: nat, error0: nat, handler: Handler<U>, user0: U,
                       ghost chunk: string, ghost st: State<U>)
    returns (error: nat, user: U)
    requires section.Length == MAX_SECTION && prevName.Length == MAX_NAME
    requires line != section && line != prevName && section != prevName
    requires Holds(line[..], 0, UpToNul(chunk)) && line.Length == MAX_LINE
    requires Holds(section[..], 0, st.section) && Holds(prevName[..], 0, st.prevName)
    requires lineno == st.lineno + 1 && error0 == st.error && user0 == st.user
    modifies line, section, prevName
    ensures var next := Step(handler, st, chunk);
            && Holds(section[..], 0, next.section) && Holds(prevName[..], 0, next.prevName)
            && error == next.error && user == next.user
  {
    hide HasBom, SectionItem, PairItem, Apply, RTrim, LTrim, UpToNul, Holds;
    ghost var s := UpToNul(chunk);
    var start := SkipBom(line, lineno, s);
    ghost var t := if HasBom(s, lineno) then s[3..] else s;
    Rstrip(line, start, t);
    start := Lskip(line, start, RTrim(t));
    error, user := ParseItem(line, section, prevName, start, handler, error0,
                             st.(lineno := lineno), LTrim(RTrim(t)), ItemOf(st, chunk), user0, lineno);
  }

  method SkipBom(line: array<char>, lineno: nat, ghost s: string) returns (start: nat)
    requires Holds(line[..], 0, s) && line.Length == MAX_LINE
    ensures start == if HasBom(s, lineno) then 3 else 0
    ensures Holds(line[..], start, if HasBom(s, lineno) then s[3..] else s)
  {
    HeldByte(line[..], 0, s, 0);
    if |s| >= 1 { HeldByte(line[..], 0, s, 1); }
    if |s| >= 2 { HeldByte(line[..], 0, s, 2); }
    assert HasBom(s, lineno) <==> lineno == 1 && |s| >= 3 && s[0] == BOM[0] && s[1] == BOM[1] && s[2] == BOM[2];
    if lineno == 1 && line[0] == BOM[0] && line[1] == BOM[1] && line[2] == BOM[2] {
      HoldsSuffix(line[..], 0, s, 3);
      start := 3;
    } else {
      start := 0;
    }
  }

  /** ini_parse_file: for every handler, every initial user data and every file contents, the
      buffer-mutating loop computes the fold of the grammar over the fgets chunks. */
  method ParseFile<U>(file: File, handler: Handler<U>, user0: U) returns (error: nat, user: U)
    requires file.Valid()
    modifies file`pos
    ensures var end := Run(handler, Chunks(old(file.Rest())), Init(user0));
            error == end.error && user == end.user
    ensures file.Valid() && file.Rest() == ""
  {
    hide Step, ChunkLen;
    var line := new char[MAX_LINE](_ => NUL);
    var section := new char[MAX_SECTION](_ => NUL);
    var prevName := new char[MAX_NAME](_ => NUL);
    var lineno := 0;
    error, user := 0, user0;
    ghost var st := Init(user0);
    while true
      invariant file.Valid() && line.Length == MAX_LINE
      invariant section.Length == MAX_SECTION && prevName.Length == MAX_NAME
      invariant fresh(line) && fresh(section) && fresh(prevName)
      invariant Holds(section[..], 0, st.section) && Holds(prevName[..], 0, st.prevName)
      invariant lineno == st.lineno && error == st.error && user == st.user
      invariant Run(handler, Chunks(old(file.Rest())), Init(user0)) == Run(handler, Chunks(file.Rest()), st)
      decreases |file.Rest()|
    {
      ghost var rest := file.Rest();
      var more := file.Fgets(line);
      if !more { break; }
      lineno := lineno + 1;
      ghost var chunk := rest[..ChunkLen(rest)];
      LineHoldsChunk(line[..], chunk);
      error, user := ParseChunk(line, section, prevName, lineno, error, handler, user, chunk, st);
      RunChunk(handler, rest, st);
      st := Step(handler, st, chunk);
    }
  }

  lemma {:induction false} LineHoldsChunk(b: seq<char>, chunk: string)
    requires |chunk| < |b| && b[..|chunk|] == chunk && b[|chunk|] == NUL
    ensures Holds(b, 0, UpToNul(chunk))
  {
    var s := UpToNul(chunk);
    UpToNulSpec(chunk);
    forall k | 0 <= k < |s|
      ensures b[k] == s[k]
    {
      assert b[..|chunk|][k] == chunk[k];
    }
    assert |s| < |chunk| ==> b[..|chunk|][|s|] == chunk[|s|];
  }
}
