/** What the layout of one line of a file cannot change: the file may be anything, well formed or
    not, around that line. */
module IniLayout {
  import opened CString
  import opened IniDocument
  import opened IniGrammar
  import opened IniReport

  ghost predicate OneLine(t: string) {
    forall k :: 0 <= k < |t| ==> t[k] != '\n'
  }

  lemma {:induction false} LineIsChunk(a: string)
    requires OneLine(a) && |a| + 1 < MAX_LINE
    ensures IsChunk(a + "\n") && EndsLine(a + "\n")
    ensures a != "" ==> IsChunk(a)
  {
  }

  lemma {:induction false} OneLineJoin(a: string, b: string)
    requires OneLine(a) && OneLine(b)
    ensures OneLine(a + b)
  {
  }

  // ---- replacing a line ------------------------------------------------------------------------

  lemma {:induction false} RunSplit<U>(h: Handler<U>, a: seq<string>, c: string, b: seq<string>, st: State<U>)
    ensures Run(h, a + [c] + b, st) == Run(h, b, Step(h, Run(h, a, st), c))
  {
    hide Step;
    assert a + [c] + b == a + ([c] + b) && ([c] + b)[1..] == b;
    RunAppend(h, a, [c] + b, st);
    assert Run(h, [c] + b, Run(h, a, st)) == Run(h, b, Step(h, Run(h, a, st), c));
  }

  lemma {:induction false} SameStep<U>(h: Handler<U>, st: State<U>, c: string, d: string)
    requires ItemOf(st, c) == ItemOf(st, d)
    ensures Step(h, st, c) == Step(h, st, d)
  {
    hide ItemOf, Apply;
  }

  /** Two lines that are read alike in their place are the same to the whole parse, its return code
      included. */
  lemma {:induction false} LineReplaced<U>(h: Handler<U>, x: string, c: string, d: string, y: string, user: U)
    requires AtLineStart(x) && IsChunk(c) && IsChunk(d) && (y == "" || (EndsLine(c) && EndsLine(d)))
    requires var st := Run(h, Chunks(x), Init(user));
      ItemOf(st, c) == ItemOf(st, d)
    ensures Run(h, Chunks(x + c + y), Init(user)) == Run(h, Chunks(x + d + y), Init(user))
  {
    hide Run, Chunks, ItemOf, Step, IsChunk, EndsLine, AtLineStart;
    LineWithin(x, c, y);
    LineWithin(x, d, y);
    RunSplit(h, Chunks(x), c, Chunks(y), Init(user));
    RunSplit(h, Chunks(x), d, Chunks(y), Init(user));
    SameStep(h, Run(h, Chunks(x), Init(user)), c, d);
  }

  // ---- trailing whitespace ---------------------------------------------------------------------

  lemma {:induction false} RTrimMore(t: string, w: string)
    requires AllSpace(w)
    ensures RTrim(t + w) == RTrim(t)
  {
    hide RTrim;
    RTrimSpec(t);
    var r := RTrim(t);
    RTrimUnique(r, t[|r|..] + w);
    assert t + w == r + (t[|r|..] + w);
  }

  /** What a reader sees of a text with whitespace behind it. */
  lemma {:induction false} UpToNulMore(a: string, w: string)
    requires AllSpace(w)
    ensures UpToNul(a + w) == UpToNul(a) + if |UpToNul(a)| == |a| then w else ""
    decreases |a|
  {
    if a == "" {
      assert a + w == w;
      UpToNulSpec(w);
    } else if a[0] != NUL {
      assert (a + w)[1..] == a[1..] + w;
      UpToNulMore(a[1..], w);
    }
  }

  /** A byte order mark in front of trailing whitespace is in front of the text. */
  lemma {:induction false} BomInside(a: string, w: string)
    requires AllSpace(w)
    ensures BOM <= a + w <==> |a| >= 3 && BOM <= a
  {
    assert w != "" ==> (a + w)[|a|] == w[0] && IsSpace(w[0]);
    assert forall k :: 0 <= k < |a| ==> (a + w)[k] == a[k];
  }

  /** Whitespace behind a text, a newline among it or not, is not seen. */
  lemma {:induction false} SpaceBehind<U>(st: State<U>, a: string, w: string)
    requires AllSpace(w)
    ensures ItemOf(st, a + w) == ItemOf(st, a)
  {
    hide Classify, RTrim, UpToNul;
    var s := UpToNul(a);
    var v := if |s| == |a| then w else "";
    UpToNulMore(a, w);
    BomInside(s, v);
    RTrimMore(s, v);
    if BOM <= s {
      assert (s + v)[3..] == s[3..] + v;
      RTrimMore(s[3..], v);
    }
  }

  /** The end of a line: a newline, or the end of the file behind a line that is not empty. */
  ghost predicate LineEnd(a: string, e: string, y: string) {
    e == "\n" || (e == "" && y == "" && a != "")
  }

  lemma {:induction false} EndIsSpace(e: string)
    requires e == "\n" || e == ""
    ensures AllSpace(e)
  {
  }

  lemma {:induction false} LineWithEnd(a: string, e: string, y: string)
    requires OneLine(a) && |a| + 1 < MAX_LINE && LineEnd(a, e, y)
    ensures IsChunk(a + e) && (y == "" || EndsLine(a + e))
  {
    LineIsChunk(a);
    assert a + "" == a;
  }

  /** Whitespace at the end of any line of any file changes nothing, as long as the line fits. */
  lemma {:induction false} TrailingSpaceIgnored<U>(h: Handler<U>, x: string, a: string, w: string, e: string,
                                                   y: string, user: U)
    requires AtLineStart(x) && OneLine(a) && OneLine(w) && AllSpace(w) && |a| + |w| + 1 < MAX_LINE
    requires LineEnd(a, e, y)
    ensures Run(h, Chunks(x + (a + w + e) + y), Init(user)) == Run(h, Chunks(x + (a + e) + y), Init(user))
  {
    hide Run, Chunks, ItemOf, AtLineStart, OneLine, IsChunk, EndsLine;
    OneLineJoin(a, w);
    LineWithEnd(a, e, y);
    LineWithEnd(a + w, e, y);
    var st := Run(h, Chunks(x), Init(user));
    EndIsSpace(e);
    AllSpaceJoin(w, e);
    assert a + w + e == a + (w + e);
    SpaceBehind(st, a, w + e);
    SpaceBehind(st, a, e);
    LineReplaced(h, x, a + w + e, a + e, y, user);
  }

  // ---- the layout of a line --------------------------------------------------------------------

  /** The line as it stands in the file: a byte order mark in front of it or not. */
  function Printed(l: Line, bom: bool): string {
    (if bom then BOM else "") + Print(l)
  }

  /** The line can stand behind x, and means there what it stands for. */
  ghost predicate Fits(l: Line, bom: bool, prev: string, x: string, e: string, y: string) {
    && Good(l, prev) && |Printed(l, bom)| + 1 < MAX_LINE && LineEnd(Printed(l, bom), e, y)
    && (x == "" && !bom ==> !(BOM <= Print(l)))
  }

  lemma {:induction false} FittingLine<U>(st: State<U>, l: Line, bom: bool, x: string, e: string, y: string)
    requires Fits(l, bom, st.prevName, x, e, y) && (bom ==> x == "") && (x == "" <==> st.lineno == 0)
    requires x == "" ==> st.prevName == ""
    ensures ItemOf(st, Printed(l, bom) + e) == ItemFor(l)
    ensures IsChunk(Printed(l, bom) + e) && (y == "" || EndsLine(Printed(l, bom) + e))
  {
    hide Good, ItemOf, Print, Plain, OneLine, IsChunk, EndsLine;
    GoodPlain(l, st.prevName);
    PlainOneLine(Print(l), bom);
    LineWithEnd(Printed(l, bom), e, y);
    EndIsSpace(e);
    EndIsSpace("\n");
    BomInside(Print(l), "\n");
    DocStep(st, l, bom);
    assert Printed(l, bom) + "\n" == (if bom then BOM else "") + (Print(l) + "\n");
    SpaceBehind(st, Printed(l, bom), e);
    SpaceBehind(st, Printed(l, bom), "\n");
  }

  lemma {:induction false} PlainOneLine(a: string, bom: bool)
    requires Plain(a)
    ensures OneLine((if bom then BOM else "") + a)
  {
    BomPlain(a);
    assert "" + a == a;
  }

  lemma {:induction false} LinesBefore<U>(h: Handler<U>, x: string, user: U)
    ensures var st := Run(h, Chunks(x), Init(user));
      && st.lineno == |Chunks(x)| && st.error <= st.lineno
      && (x == "" <==> st.lineno == 0) && (x == "" ==> st == Init(user))
  {
    hide ChunkLen, FailsAt, Step;
    RunError(h, Chunks(x), Init(user));
  }

  /** In any file one line may be written as any other that stands for the same: a heading with
      another tail, a pair with other padding, separator or comment, a continuation with another
      indentation, a comment or a blank line as another. */
  lemma {:induction false} LineRestyled<U>(h: Handler<U>, x: string, l: Line, m: Line, bom: bool, e: string,
                                           y: string, user: U)
    requires AtLineStart(x) && ItemFor(l) == ItemFor(m) && (bom ==> x == "")
    requires var prev := Run(h, Chunks(x), Init(user)).prevName;
      Fits(l, bom, prev, x, e, y) && Fits(m, bom, prev, x, e, y)
    ensures Run(h, Chunks(x + (Printed(l, bom) + e) + y), Init(user))
            == Run(h, Chunks(x + (Printed(m, bom) + e) + y), Init(user))
  {
    hide Run, Chunks, ItemOf, Fits, Printed, AtLineStart, IsChunk, EndsLine;
    LinesBefore(h, x, user);
    var st := Run(h, Chunks(x), Init(user));
    FittingLine(st, l, bom, x, e, y);
    FittingLine(st, m, bom, x, e, y);
    LineReplaced(h, x, Printed(l, bom) + e, Printed(m, bom) + e, y, user);
  }

  /** In particular a pair at the beginning of a line may be padded, separated and commented in any
      way, whatever the rest of the file is. */
  lemma {:induction false} EntryRestyled<U>(h: Handler<U>, x: string, l: Line, m: Line, y: string, user: U)
    requires AtLineStart(x) && (x == "" ==> !(BOM <= Print(l)) && !(BOM <= Print(m)))
    requires l.Entry? && m.Entry? && l.indent == m.indent == "" && l.name == m.name && l.value == m.value
    requires Good(l, "") && Good(m, "") && |Print(l)| + 1 < MAX_LINE && |Print(m)| + 1 < MAX_LINE
    ensures Run(h, Chunks(x + (Print(l) + "\n") + y), Init(user))
            == Run(h, Chunks(x + (Print(m) + "\n") + y), Init(user))
  {
    hide Run, Chunks, Print, AtLineStart, GoodEntry;
    var prev := Run(h, Chunks(x), Init(user)).prevName;
    assert Good(l, prev) && Good(m, prev);
    assert Printed(l, false) == Print(l) && Printed(m, false) == Print(m);
    LineRestyled(h, x, l, m, false, "\n", y, user);
  }

  // ---- inserting a line --------------------------------------------------------------------------

  /** A blank or a comment line, as text. */
  ghost predicate Ignored(w: string, t: string) {
    AllSpace(w) && OneLine(w) && OneLine(t) && (t == "" || t[0] == ';' || t[0] == '#')
  }

  lemma {:induction false} IgnoredItem<U>(st: State<U>, w: string, t: string)
    requires Ignored(w, t)
    ensures ItemOf(st, w + t) == Nothing
  {
    hide RTrim, LTrim, UpToNul;
    var s := UpToNul(t);
    UpToNulSpec(t);
    SpaceFront(w, t);
    if s == "" {
      assert w + s == w;
      RTrimSpaces(w);
      LTrimSpec("");
    } else {
      assert s[0] == t[0];
      TrimLine(w, s);
    }
    NoBomFront(w, s);
  }

  lemma {:induction false} NoBomFront(w: string, s: string)
    requires AllSpace(w) && (s == "" || s[0] == ';' || s[0] == '#')
    ensures !(BOM <= w + s)
  {
    assert w != "" ==> (w + s)[0] == w[0] && IsSpace(w[0]);
    assert w == "" ==> w + s == s;
  }

  lemma {:induction false} SpaceFront(w: string, t: string)
    requires AllSpace(w)
    ensures UpToNul(w + t) == w + UpToNul(t)
    decreases |w|
  {
    if w == "" {
      assert w + t == t && w + UpToNul(t) == UpToNul(t);
    } else {
      assert IsSpace(w[0]);
      assert (w + t)[1..] == w[1..] + t;
      SpaceFront(w[1..], t);
    }
  }

  /** The state after one more line of no meaning behind the first m chunks. */
  function Later<U>(st: State<U>, m: nat): State<U> {
    st.(lineno := st.lineno + 1, error := if st.error <= m then st.error else st.error + 1)
  }

  lemma {:induction false} LaterItem<U>(st: State<U>, m: nat, c: string)
    requires st.lineno > 0 || !(BOM <= c)
    ensures ItemOf(Later(st, m), c) == ItemOf(st, c)
  {
    hide Classify, RTrim, UpToNul;
    UpToNulSpec(c);
    var s := UpToNul(c);
    assert BOM <= s ==> BOM <= c by {
      assert s == c[..|s|];
    }
  }

  lemma {:induction false} LaterStep<U>(h: Handler<U>, st: State<U>, m: nat, c: string)
    requires st.lineno >= m && (st.lineno > 0 || !(BOM <= c))
    ensures Step(h, Later(st, m), c) == Later(Step(h, st, c), m)
    ensures Step(h, st, c).lineno == st.lineno + 1
  {
    hide ItemOf;
    LaterItem(st, m, c);
  }

  lemma {:induction false} LaterRun<U>(h: Handler<U>, cs: seq<string>, st: State<U>, m: nat)
    requires st.lineno >= m && (st.lineno > 0 || cs == [] || !(BOM <= cs[0]))
    ensures Run(h, cs, Later(st, m)) == Later(Run(h, cs, st), m)
    ensures CallsIn(h, cs, Later(st, m)) == CallsIn(h, cs, st)
    decreases |cs|
  {
    hide ItemOf, Step, BOM;
    if cs != [] {
      LaterItem(st, m, cs[0]);
      LaterStep(h, st, m, cs[0]);
      LaterRun(h, cs[1..], Step(h, st, cs[0]), m);
    }
  }

  lemma {:induction false} CallsSplit<U>(h: Handler<U>, a: seq<string>, b: seq<string>, st: State<U>)
    ensures CallsIn(h, a + b, st) == CallsIn(h, a, st) + CallsIn(h, b, Run(h, a, st))
    decreases |a|
  {
    hide ItemOf, Step;
    if a == [] {
      assert a + b == b;
    } else {
      assert (a + b)[1..] == a[1..] + b;
      CallsSplit(h, a[1..], b, Step(h, st, a[0]));
    }
  }

  /** A line that means nothing where it stands. */
  lemma {:induction false} NothingInserted<U>(h: Handler<U>, xs: seq<string>, c: string, ys: seq<string>, user: U)
    requires var st := Run(h, xs, Init(user));
      ItemOf(st, c) == Nothing && st.lineno == |xs| && st.error <= |xs|
    requires xs != [] || ys == [] || !(BOM <= ys[0])
    ensures Run(h, xs + [c] + ys, Init(user)) == Later(Run(h, xs + ys, Init(user)), |xs|)
    ensures CallsIn(h, xs + [c] + ys, Init(user)) == CallsIn(h, xs + ys, Init(user))
  {
    hide ItemOf, Step, Run, CallsIn, BOM;
    var st := Run(h, xs, Init(user));
    StepNothing(h, st, c);
    assert Step(h, st, c) == Later(st, |xs|);
    RunSplit(h, xs, c, ys, Init(user));
    RunAppend(h, xs, ys, Init(user));
    LaterRun(h, ys, st, |xs|);
    CallsSplit(h, xs, ys, Init(user));
    CallsSplit(h, xs, [c] + ys, Init(user));
    assert xs + [c] + ys == xs + ([c] + ys);
    NothingFirst(h, st, c, ys);
  }

  lemma {:induction false} NothingFirst<U>(h: Handler<U>, st: State<U>, c: string, ys: seq<string>)
    requires ItemOf(st, c) == Nothing
    ensures CallsIn(h, [c] + ys, st) == CallsIn(h, ys, Step(h, st, c))
  {
    hide ItemOf, Step;
    assert ([c] + ys)[1..] == ys;
  }

  /** In any file a blank or comment line may be inserted in front of any line, the first one
      included unless a byte order mark precedes it: the same calls are made, the handler's data is
      the same, and a reported error moves down one line if it was behind the insertion. */
  lemma {:induction false} InsertIgnored<U>(h: Handler<U>, x: string, w: string, t: string, y: string, user: U)
    requires AtLineStart(x) && (x == "" ==> !(BOM <= y))
    requires Ignored(w, t) && |w + t| + 1 < MAX_LINE
    ensures var before, after := Chunks(x + y), Chunks(x + (w + t + "\n") + y);
      && CallsIn(h, after, Init(user)) == CallsIn(h, before, Init(user))
      && Run(h, after, Init(user)).user == Run(h, before, Init(user)).user
      && var e := Run(h, before, Init(user)).error;
         Run(h, after, Init(user)).error == if e <= |Chunks(x)| then e else e + 1
  {
    hide Run, Chunks, ItemOf, AtLineStart, OneLine, IsChunk, EndsLine, CallsIn, BOM;
    var c := w + t + "\n";
    OneLineJoin(w, t);
    LineIsChunk(w + t);
    LineWithin(x, c, y);
    ChunksJoin(x, y);
    LinesBefore(h, x, user);
    var st := Run(h, Chunks(x), Init(user));
    IgnoredItem(st, w, t);
    EndIsSpace("\n");
    SpaceBehind(st, w + t, "\n");
    FirstChunkOf(y, BOM);
    NothingInserted(h, Chunks(x), c, Chunks(y), user);
  }

  lemma {:induction false} FirstChunkOf(y: string, b: string)
    ensures Chunks(y) != [] && b <= Chunks(y)[0] ==> b <= y
  {
    hide ChunkLen;
  }

  // ---- line ends -----------------------------------------------------------------------------------

  /** The characters that count as whitespace: space, tab, newline, vertical tab, form feed and
      carriage return. */
  lemma {:induction false} WhitespaceTable(c: char)
    ensures IsSpace(c) <==> c in [' ', '\t', '\n', '\U{0B}', '\U{0C}', '\r']
  {
  }

  /** The same file with a carriage return in front of every newline. */
  function Crlf(data: string): string
  {
    if data == "" then ""
    else (if data[0] == '\n' then "\r\n" else [data[0]]) + Crlf(data[1..])
  }

  lemma {:induction false} CrlfJoin(a: string, b: string)
    ensures Crlf(a + b) == Crlf(a) + Crlf(b)
  {
    if a == "" {
      assert a + b == b;
    } else {
      assert (a + b)[1..] == a[1..] + b;
      CrlfJoin(a[1..], b);
    }
  }

  lemma {:induction false} CrlfOneLine(a: string)
    requires OneLine(a)
    ensures Crlf(a) == a
  {
    if a != "" {
      CrlfOneLine(a[1..]);
    }
  }

  lemma {:induction false} CrlfLine(a: string, rest: string)
    requires OneLine(a)
    ensures Crlf(a + "\n" + rest) == a + "\r\n" + Crlf(rest)
  {
    CrlfJoin(a + "\n", rest);
    CrlfJoin(a, "\n");
    CrlfOneLine(a);
    assert Crlf("\n") == "\r\n" + Crlf("");
  }

  ghost predicate IsLine(c: string) {
    EndsLine(c) && OneLine(c[..|c| - 1])
  }

  lemma {:induction false} LinesOfRest(c: string, rest: string)
    requires IsLine(c)
    ensures Lines(c + rest) == [c] + Lines(rest)
    ensures LinesFit(c + rest) ==> |c| < MAX_LINE && LinesFit(rest)
  {
    var data := c + rest;
    LineLenSpec(data, 0);
    var n := LineLen(data);
    assert data[|c| - 1] == '\n';
    assert forall k :: 0 <= k < |c| - 1 ==> data[k] == c[..|c| - 1][k];
    assert n == |c|;
    assert data[..|c|] == c && data[|c|..] == rest;
    if LinesFit(data) {
      assert Lines(data)[0] == c;
      assert forall k :: 0 <= k < |Lines(rest)| ==> Lines(rest)[k] == Lines(data)[k + 1];
    }
  }

  lemma {:induction false} LineFirst(c: string, rest: string)
    requires IsLine(c) && |c| < MAX_LINE
    ensures Chunks(c + rest) == [c] + Chunks(rest)
  {
    hide Chunks;
    assert forall k :: 0 <= k < |c| - 1 ==> c[k] == c[..|c| - 1][k];
    OneChunk(c);
    ChunksJoin(c, rest);
  }

  /** The first line of a text, unless it is the last. */
  lemma {:induction false} FirstLine(data: string) returns (a: string, rest: string)
    requires !OneLine(data)
    ensures data == a + "\n" + rest && OneLine(a) && |rest| < |data|
  {
    var n := LineLen(data);
    LineLenSpec(data, 0);
    a, rest := data[..n - 1], data[n..];
  }

  /** One line with either line end. */
  lemma {:induction false} LineEnds<U>(h: Handler<U>, a: string, x: string, y: string, st: State<U>)
    requires OneLine(a) && |a| + 2 < MAX_LINE
    ensures var next := Step(h, st, a + "\n");
      && Run(h, Chunks(a + "\n" + x), st) == Run(h, Chunks(x), next)
      && Run(h, Chunks(a + "\r\n" + y), st) == Run(h, Chunks(y), next)
      && var calls := ItemCalls(st, ItemOf(st, a + "\n"));
         && CallsIn(h, Chunks(a + "\n" + x), st) == calls + CallsIn(h, Chunks(x), next)
         && CallsIn(h, Chunks(a + "\r\n" + y), st) == calls + CallsIn(h, Chunks(y), next)
  {
    hide Chunks, ItemOf, Step, ItemCalls;
    var c, d := a + "\n", a + "\r\n";
    assert c[..|c| - 1] == a && d[..|d| - 1] == a + "\r";
    LineFirst(c, x);
    LineFirst(d, y);
    SpaceBehind(st, a, "\n");
    SpaceBehind(st, a, "\r\n");
    SameStep(h, st, c, d);
    assert ([c] + Chunks(x))[1..] == Chunks(x) && ([d] + Chunks(y))[1..] == Chunks(y);
  }

  /** A file with CR LF line ends is parsed as the same file with LF line ends. */
  lemma {:induction false} CrlfIgnored<U>(h: Handler<U>, data: string, st: State<U>)
    requires LinesFit(Crlf(data))
    ensures Run(h, Chunks(Crlf(data)), st) == Run(h, Chunks(data), st)
    ensures CallsIn(h, Chunks(Crlf(data)), st) == CallsIn(h, Chunks(data), st)
    decreases |data|
  {
    hide Chunks, ItemOf, Step, Run, CallsIn, Crlf, LinesFit, OneLine;
    if OneLine(data) {
      CrlfOneLine(data);
    } else {
      var a, rest := FirstLine(data);
      CrlfLine(a, rest);
      CrlfIsLine(a);
      LinesOfRest(a + "\r\n", Crlf(rest));
      LineEnds(h, a, rest, Crlf(rest), st);
      CrlfIgnored(h, rest, Step(h, st, a + "\n"));
    }
  }

  lemma {:induction false} CrlfIsLine(a: string)
    requires OneLine(a)
    ensures IsLine(a + "\r\n")
  {
    assert (a + "\r\n")[..|a| + 1] == a + "\r";
  }
}
