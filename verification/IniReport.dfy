/** What the return code of ini_parse_file says: which chunk failed first, whether its index is
    the line number that ini.h promises, and that later chunks are processed all the same. */
module IniReport {
  import opened CString
  import opened IniGrammar

  // ---- chunking ------------------------------------------------------------------------------

  function Flatten(cs: seq<string>): string
  {
    if cs == [] then "" else cs[0] + Flatten(cs[1..])
  }

  ghost predicate EndsLine(c: string) {
    c != "" && c[|c| - 1] == '\n'
  }

  ghost predicate IsChunk(c: string) {
    && 0 < |c| < MAX_LINE
    && (forall k :: 0 <= k < |c| - 1 ==> c[k] != '\n')
  }

  /** What ChunkLen promises determines it. */
  lemma {:induction false} ChunkLenUnique(data: string, r: nat)
    requires r <= |data| && r < MAX_LINE && (data != "" ==> r > 0)
    requires forall k :: 0 <= k < r - 1 ==> data[k] != '\n'
    requires r == |data| || r == MAX_LINE - 1 || (r > 0 && data[r - 1] == '\n')
    ensures ChunkLen(data) == r
  {
  }

  /** Nothing of the file is lost or repeated, every chunk fits the buffer, and a chunk that
      does not end its line either fills the buffer or is the last. */
  lemma {:induction false} ChunksCoverFile(data: string)
    ensures var cs := Chunks(data);
      && Flatten(cs) == data
      && (forall k :: 0 <= k < |cs| ==> IsChunk(cs[k]))
      && (forall k :: 0 <= k < |cs| - 1 ==> EndsLine(cs[k]) || |cs[k]| == MAX_LINE - 1)
    decreases |data|
  {
    hide ChunkLen, IsChunk, EndsLine;
    if data != "" {
      var n := ChunkLen(data);
      FirstChunk(data);
      ChunksCoverFile(data[n..]);
      assert data == data[..n] + data[n..];
      assert Chunks(data[n..]) == [] ==> n == |data|;
    }
  }

  lemma {:induction false} FirstChunk(data: string)
    requires data != ""
    ensures var n := ChunkLen(data);
      IsChunk(data[..n]) && (n < |data| ==> EndsLine(data[..n]) || n == MAX_LINE - 1)
  {
    hide ChunkLen;
  }

  /** The file up to here is a number of whole lines. */
  ghost predicate AtLineStart(x: string) {
    x == "" || EndsLine(x)
  }

  /** What comes before a line has no influence on how the rest of the file is chunked. */
  lemma {:induction false} ChunksJoin(x: string, y: string)
    requires AtLineStart(x)
    ensures Chunks(x + y) == Chunks(x) + Chunks(y)
    decreases |x|
  {
    hide ChunkLen;
    if x == "" {
      assert x + y == y;
    } else {
      var n := ChunkLen(x);
      assert forall k :: 0 <= k < |x| ==> (x + y)[k] == x[k];
      ChunkLenUnique(x + y, n);
      assert (x + y)[..n] == x[..n] && (x + y)[n..] == x[n..] + y;
      ChunksJoin(x[n..], y);
    }
  }

  lemma {:induction false} OneChunk(c: string)
    requires IsChunk(c)
    ensures Chunks(c) == [c]
  {
    ChunkLenUnique(c, |c|);
    assert c[..|c|] == c;
  }

  /** One line within a file. */
  lemma {:induction false} LineWithin(x: string, c: string, y: string)
    requires AtLineStart(x) && IsChunk(c) && (EndsLine(c) || y == "")
    ensures Chunks(x + c + y) == Chunks(x) + [c] + Chunks(y)
  {
    hide Chunks;
    OneChunk(c);
    assert x + c + y == x + (c + y);
    ChunksJoin(x, c + y);
    if y == "" {
      assert c + y == c;
      NoChunks();
    } else {
      ChunksJoin(c, y);
    }
  }

  lemma {:induction false} NoChunks()
    ensures Chunks("") == []
  {
  }

  // ---- the first failing chunk -------------------------------------------------------------------

  /** The chunk makes the parser report an error: it is malformed, or the handler says no. */
  ghost predicate Fails<U>(h: Handler<U>, st: State<U>, chunk: string)
  {
    match ItemOf(st, chunk)
    case Nothing => false
    case Section(_) => false
    case Continuation(more) => !h(st.user, st.section, st.prevName, more).1
    case Pair(name, value) => !h(st.user, st.section, name, value).1
    case Malformed => true
  }

  ghost predicate FailsAt<U>(h: Handler<U>, st: State<U>, cs: seq<string>, k: nat)
    requires k < |cs|
  {
    Fails(h, Run(h, cs[..k], st), cs[k])
  }

  lemma {:induction false} RunAppend<U>(h: Handler<U>, a: seq<string>, b: seq<string>, st: State<U>)
    ensures Run(h, a + b, st) == Run(h, b, Run(h, a, st))
  {
    hide Step;
    if a == [] {
      assert a + b == b;
    } else {
      assert (a + b)[1..] == a[1..] + b;
      RunAppend(h, a[1..], b, Step(h, st, a[0]));
    }
  }

  lemma {:induction false} StepError<U>(h: Handler<U>, st: State<U>, chunk: string)
    ensures var next := Step(h, st, chunk);
      && next.lineno == st.lineno + 1
      && next.error == if st.error == 0 && Fails(h, st, chunk) then next.lineno else st.error
  {
    hide ItemOf;
  }

  lemma {:induction false} RunError<U>(h: Handler<U>, cs: seq<string>, st: State<U>)
    requires st.error == 0
    ensures var e := Run(h, cs, st).error;
      && (e == 0 ==> forall k :: 0 <= k < |cs| ==> !FailsAt(h, st, cs, k))
      && (e != 0 ==>
            && st.lineno < e <= st.lineno + |cs| && FailsAt(h, st, cs, e - st.lineno - 1)
            && forall k :: 0 <= k < e - st.lineno - 1 ==> !FailsAt(h, st, cs, k))
    ensures Run(h, cs, st).lineno == st.lineno + |cs|
    decreases |cs|
  {
    hide Step, Fails;
    if cs == [] {
    } else {
      var n := |cs| - 1;
      var init, mid := cs[..n], Run(h, cs[..n], st);
      RunError(h, init, st);
      assert cs == init + [cs[n]];
      RunAppend(h, init, [cs[n]], st);
      assert Run(h, [cs[n]], mid) == Step(h, mid, cs[n]);
      StepError(h, mid, cs[n]);
      forall k | 0 <= k < n
        ensures FailsAt(h, st, cs, k) == FailsAt(h, st, init, k)
      {
        assert cs[..k] == init[..k];
      }
    }
  }

  /** The return code is 0 exactly when no chunk fails, and otherwise the 1-based index of the
      earliest failing chunk. */
  lemma {:induction false} FirstError<U>(h: Handler<U>, data: string, user: U)
    ensures var cs, e := Chunks(data), Run(h, Chunks(data), Init(user)).error;
      && (e == 0 <==> forall k :: 0 <= k < |cs| ==> !FailsAt(h, Init(user), cs, k))
      && (forall k :: 0 <= k < |cs| ==>
            (e == k + 1 <==> FailsAt(h, Init(user), cs, k)
                             && forall j :: 0 <= j < k ==> !FailsAt(h, Init(user), cs, j)))
  {
    hide FailsAt, Run, Chunks;
    RunError(h, Chunks(data), Init(user));
  }

  /** An error found earlier changes nothing but the error number. */
  lemma {:induction false} ErrorDoesNotStop<U>(h: Handler<U>, cs: seq<string>, st: State<U>, x: nat)
    ensures Run(h, cs, st.(error := x)) == Run(h, cs, st).(error := Run(h, cs, st.(error := x)).error)
  {
    hide ItemOf;
    if cs != [] {
      var a, b := Step(h, st, cs[0]), Step(h, st.(error := x), cs[0]);
      assert ItemOf(st, cs[0]) == ItemOf(st.(error := x), cs[0]) by { ItemIgnoresError(st, cs[0], x); }
      assert b == a.(error := b.error);
      ErrorDoesNotStop(h, cs[1..], a, b.error);
    }
  }

  lemma {:induction false} ItemIgnoresError<U>(st: State<U>, chunk: string, x: nat)
    ensures ItemOf(st, chunk) == ItemOf(st.(error := x), chunk)
  {
    hide Classify, RTrim, UpToNul;
  }

  // ---- chunk index and line number -----------------------------------------------------------------

  function CountNewlines(s: string): nat
  {
    if s == "" then 0 else (if s[0] == '\n' then 1 else 0) + CountNewlines(s[1..])
  }

  /** The number of the line, counted from 1, that the k-th chunk of the file belongs to. */
  function LineOfChunk(data: string, k: nat): nat
    requires k <= |Chunks(data)|
  {
    1 + CountNewlines(Flatten(Chunks(data)[..k]))
  }

  lemma {:induction false} CountEmpty()
    ensures CountNewlines("") == 0
  {
  }

  lemma {:induction false} CountAppend(a: string, b: string)
    ensures CountNewlines(a + b) == CountNewlines(a) + CountNewlines(b)
  {
    if a == "" {
      assert a + b == b;
    } else {
      assert (a + b)[1..] == a[1..] + b;
      CountAppend(a[1..], b);
    }
  }

  lemma {:induction false} CountChunk(c: string)
    requires IsChunk(c)
    ensures CountNewlines(c) == if EndsLine(c) then 1 else 0
  {
    if |c| > 1 {
      CountChunk(c[1..]);
    }
  }

  lemma {:induction false} CountChunks(cs: seq<string>)
    requires forall k :: 0 <= k < |cs| ==> IsChunk(cs[k])
    ensures CountNewlines(Flatten(cs)) <= |cs|
    ensures CountNewlines(Flatten(cs)) == |cs| <==> forall k :: 0 <= k < |cs| ==> EndsLine(cs[k])
  {
    hide IsChunk, EndsLine, CountNewlines;
    if cs == [] {
      CountEmpty();
    } else {
      CountAppend(cs[0], Flatten(cs[1..]));
      CountChunk(cs[0]);
      CountChunks(cs[1..]);
      assert forall k :: 1 <= k < |cs| ==> cs[k] == cs[1..][k - 1];
    }
  }

  ghost predicate FirstFailure<U>(h: Handler<U>, st: State<U>, cs: seq<string>, k: nat) {
    k < |cs| && FailsAt(h, st, cs, k) && forall j :: 0 <= j < k ==> !FailsAt(h, st, cs, j)
  }

  /** ini.h promises the line number of the first error. The code returns the index of a chunk;
      that is the line number exactly when every chunk before the failing one ends its line, that
      is, when no line up to there is longer than the buffer takes. */
  lemma {:induction false} ErrorIsLineNumber<U>(h: Handler<U>, data: string, user: U, k: nat)
    requires FirstFailure(h, Init(user), Chunks(data), k)
    ensures var cs, e := Chunks(data), Run(h, Chunks(data), Init(user)).error;
      && e == k + 1 && LineOfChunk(data, k) <= e
      && (e == LineOfChunk(data, k) <==> forall j :: 0 <= j < k ==> EndsLine(cs[j]))
  {
    hide FailsAt, Run, Chunks, IsChunk, EndsLine, CountNewlines, Flatten;
    var cs := Chunks(data);
    FirstError(h, data, user);
    ChunksCoverFile(data);
    CountChunks(cs[..k]);
    assert forall j :: 0 <= j < k ==> cs[..k][j] == cs[j];
  }

  function LineLen(data: string, n: nat := 0): (r: nat)
    requires n <= |data|
    ensures n <= r <= |data| && (data != "" && n == 0 ==> r > 0)
    decreases |data| - n
  {
    if n == |data| then n else if data[n] == '\n' then n + 1 else LineLen(data, n + 1)
  }

  /** The lines of the file, each with its newline. */
  function Lines(data: string): seq<string>
    decreases |data|
  {
    if data == "" then [] else [data[..LineLen(data)]] + Lines(data[LineLen(data)..])
  }

  lemma {:induction false} LineLenSpec(data: string, n: nat)
    requires n <= |data|
    ensures var r := LineLen(data, n);
      && (forall k :: n <= k < r - 1 ==> data[k] != '\n')
      && (r == |data| || (r > n && data[r - 1] == '\n'))
    decreases |data| - n
  {
    if n < |data| && data[n] != '\n' {
      LineLenSpec(data, n + 1);
    }
  }

  ghost predicate LinesFit(data: string) {
    forall k :: 0 <= k < |Lines(data)| ==> |Lines(data)[k]| < MAX_LINE
  }

  /** The chunks are the lines of the file if and only if every line fits the buffer. */
  lemma {:induction false} ChunksAreLines(data: string)
    ensures Chunks(data) == Lines(data) <==> LinesFit(data)
  {
    ChunksCoverFile(data);
    if LinesFit(data) {
      FittingLinesAreChunks(data);
    }
  }

  lemma {:induction false} FittingLinesAreChunks(data: string)
    requires LinesFit(data)
    ensures Chunks(data) == Lines(data)
    decreases |data|
  {
    if data != "" {
      var n := LineLen(data);
      LineLenSpec(data, 0);
      assert |Lines(data)[0]| == n;
      ChunkLenUnique(data, n);
      forall k | 0 <= k < |Lines(data[n..])|
        ensures |Lines(data[n..])[k]| < MAX_LINE
      {
        assert Lines(data)[k + 1] == Lines(data[n..])[k];
      }
      FittingLinesAreChunks(data[n..]);
    }
  }

  /** So in a file whose lines all fit, every reported number is the number of the line. */
  lemma {:induction false} FittingFileReportsLine<U>(h: Handler<U>, data: string, user: U, k: nat)
    requires LinesFit(data) && FirstFailure(h, Init(user), Chunks(data), k)
    ensures Run(h, Chunks(data), Init(user)).error == LineOfChunk(data, k)
  {
    hide Run, LineOfChunk, IsChunk, FailsAt;
    ErrorIsLineNumber(h, data, user, k);
    FittingLinesAreChunks(data);
    LinesEnd(data);
  }

  lemma {:induction false} LinesEnd(data: string)
    ensures forall k :: 0 <= k < |Lines(data)| - 1 ==> EndsLine(Lines(data)[k])
    decreases |data|
  {
    if data != "" {
      LineLenSpec(data, 0);
      LinesEnd(data[LineLen(data)..]);
    }
  }

  /** The promise of ini.h fails on a blank stretch that fills the buffer, followed by a
      malformed rest of the same line: the file has one line, the error is reported on line 2. */
  lemma {:induction false} LongLineShiftsLineNumber<U>(h: Handler<U>, user: U)
    ensures var data := seq(199, _ => ' ') + "x";
      CountNewlines(data) == 0 && Run(h, Chunks(data), Init(user)).error == 2
  {
    hide ChunkLen, Step, ItemOf, CountNewlines;
    var blanks := seq(199, _ => ' ');
    var data := blanks + "x";
    NoNewlines(data);
    TwoChunks(blanks);
    var st := Init(user);
    BlankChunk(st, blanks);
    var mid := Step(h, st, blanks);
    assert mid == st.(lineno := 1) by { StepNothing(h, st, blanks); }
    BareWord(mid);
    StepMalformed(h, mid, "x");
    assert [blanks, "x"][1..] == ["x"];
    assert Run(h, [blanks, "x"], st) == Run(h, ["x"], mid) == Step(h, mid, "x");
  }

  lemma {:induction false} StepNothing<U>(h: Handler<U>, st: State<U>, c: string)
    requires ItemOf(st, c) == Nothing
    ensures Step(h, st, c) == st.(lineno := st.lineno + 1)
  {
    hide ItemOf;
  }

  lemma {:induction false} StepMalformed<U>(h: Handler<U>, st: State<U>, c: string)
    requires ItemOf(st, c) == Malformed && st.error == 0
    ensures Step(h, st, c).error == st.lineno + 1
  {
    hide ItemOf;
  }

  lemma {:induction false} TwoChunks(full: string)
    requires |full| == MAX_LINE - 1 && forall k :: 0 <= k < |full| ==> full[k] != '\n'
    ensures Chunks(full + "x") == [full, "x"]
  {
    hide ChunkLen;
    var data := full + "x";
    ChunkLenUnique(data, MAX_LINE - 1);
    ChunkLenUnique("x", 1);
    assert data[..MAX_LINE - 1] == full && data[MAX_LINE - 1..] == "x";
    assert "x"[1..] == "" && "x"[..1] == "x";
    assert Chunks("x") == ["x"] + Chunks("");
  }

  lemma {:induction false} NoNewlines(s: string)
    requires forall k :: 0 <= k < |s| ==> s[k] != '\n'
    ensures CountNewlines(s) == 0
  {
    if s != "" {
      NoNewlines(s[1..]);
    }
  }

  lemma {:induction false} BlankChunk<U>(st: State<U>, c: string)
    requires AllSpace(c)
    ensures ItemOf(st, c) == Nothing
  {
    var s := UpToNul(c);
    UpToNulSpec(c);
    assert s != "" ==> IsSpace(s[0]);
    RTrimUnique("", s);
    assert "" + s == s;
  }

  lemma {:induction false} BareWord<U>(st: State<U>)
    requires st.prevName == ""
    ensures ItemOf(st, "x") == Malformed
  {
    UpToNulSpec("x");
    assert UpToNul("x") == "x";
    RTrimUnique("x", "");
    LTrimUnique("", "x");
    assert "x" + "" == "x" && "" + "x" == "x";
    FindUnique("x", '=', 1);
    FindUnique("x", ':', 1);
  }
}
