/** Which lines are malformed, and what they do to the parse of any file: they are reported, and
    nothing else. */
module IniErrors {
  import opened CString
  import opened IniDocument
  import opened IniGrammar
  import opened IniLayout
  import opened IniReport

  // ---- malformed lines -------------------------------------------------------------------------

  /** The text of a line, from its first character on, is neither a closed heading nor a pair: every
      bracket that could close it, or every separator, stands in a comment. */
  ghost predicate Broken(t: string)
    requires t != ""
  {
    if t[0] == '[' then Shielded(t[1..], ']') else Shielded(t, '=') && Shielded(t, ':')
  }

  /** A heading is malformed exactly when no bracket closes it before a comment. */
  lemma {:induction false} HeadingMalformed(u: string)
    requires u != ""
    ensures SectionItem(u) == Malformed <==> Shielded(u[1..], ']')
  {
    hide Find, Shielded;
    NotFound(u[1..], ']');
  }

  /** Any other line is malformed exactly when it has no separator before a comment. */
  lemma {:induction false} PairMalformed(u: string)
    ensures PairItem(u) == Malformed <==> Shielded(u, '=') && Shielded(u, ':')
  {
    hide Find, Shielded, RTrim, LTrim, StripComment;
    NotFound(u, '=');
    NotFound(u, ':');
    FindSpec(u, ':', 0);
  }

  /** Trailing whitespace is neither a bracket nor a separator. */
  lemma {:induction false} TrimmedBroken(t: string)
    requires t != "" && !IsSpace(t[0])
    ensures var u := RTrim(t);
      u != "" && u[0] == t[0] && (Broken(u) <==> Broken(t))
  {
    hide RTrim, Shielded;
    var u := RTrim(t);
    RTrimSpec(t);
    var w := t[|u|..];
    assert t == u + w;
    ShieldedPrefix(u, w, '=');
    ShieldedPrefix(u, w, ':');
    assert t[1..] == u[1..] + w;
    ShieldedPrefix(u[1..], w, ']');
  }

  /** A line with some text that is no comment and continues no value is malformed exactly when it
      is broken. */
  lemma {:induction false} MalformedItem<U>(st: State<U>, a: string, w: string, t: string)
    requires UpToNul(a) == w + t && AllSpace(w) && t != "" && !IsSpace(t[0]) && t[0] != ';' && t[0] != '#'
    requires st.prevName == "" || w == ""
    requires st.lineno == 0 ==> !(BOM <= a)
    ensures ItemOf(st, a) == Malformed <==> Broken(t)
  {
    hide RTrim, LTrim, UpToNul, Shielded, SectionItem, PairItem, Broken;
    NoBomInText(st, a);
    ClassifyLine(w, t, false, st.prevName != "");
    NewlineTrimmed(w + t);
    TrimmedBroken(t);
    var u := RTrim(t);
    BrokenItem(u);
  }

  lemma {:induction false} BrokenItem(u: string)
    requires u != ""
    ensures (if u[0] == '[' then SectionItem(u) else PairItem(u)) == Malformed <==> Broken(u)
  {
    hide SectionItem, PairItem, Shielded;
    HeadingMalformed(u);
    PairMalformed(u);
  }

  lemma {:induction false} NoBomInText<U>(st: State<U>, a: string)
    requires st.lineno == 0 ==> !(BOM <= a)
    ensures !HasBom(UpToNul(a), st.lineno + 1)
  {
    hide UpToNul;
    UpToNulSpec(a);
    assert UpToNul(a) == a[..|UpToNul(a)|];
  }

  // ---- in a file -------------------------------------------------------------------------------

  lemma {:induction false} ErrorSticks<U>(h: Handler<U>, cs: seq<string>, st: State<U>)
    requires st.error != 0
    ensures Run(h, cs, st).error == st.error
    decreases |cs|
  {
    hide Step, Fails;
    if cs != [] {
      StepError(h, st, cs[0]);
      ErrorSticks(h, cs[1..], Step(h, st, cs[0]));
    }
  }

  /** A malformed line that stands where no name is pending, or that is not indented: the same calls
      are made and the same section and name are current as without it, and it is the reported line
      unless an earlier one is. */
  lemma {:induction false} BrokenLine<U>(h: Handler<U>, x: string, w: string, t: string, a: string, e: string,
                                         y: string, user: U)
    requires AtLineStart(x) && OneLine(a) && |a| + 1 < MAX_LINE && LineEnd(a, e, y)
    requires UpToNul(a) == w + t && AllSpace(w) && t != "" && !IsSpace(t[0]) && t[0] != ';' && t[0] != '#'
    requires Broken(t) && (w == "" || Run(h, Chunks(x), Init(user)).prevName == "")
    requires x == "" ==> !(BOM <= a) && !(BOM <= y)
    ensures var before, after := Chunks(x + y), Chunks(x + (a + e) + y);
      && CallsIn(h, after, Init(user)) == CallsIn(h, before, Init(user))
      && var s, r := Run(h, before, Init(user)), Run(h, after, Init(user));
         && r.user == s.user && r.section == s.section && r.prevName == s.prevName
         && var earlier := Run(h, Chunks(x), Init(user)).error;
            r.error == if earlier != 0 then earlier else |Chunks(x)| + 1
  {
    hide Run, Chunks, ItemOf, AtLineStart, OneLine, IsChunk, EndsLine, CallsIn, BOM, Broken, UpToNul, LineEnd;
    var c, xs, ys := a + e, Chunks(x), Chunks(y);
    LineWithEnd(a, e, y) by { LineEndKind(a, e, y); }
    LineWithin(x, c, y);
    ChunksJoin(x, y);
    LinesBefore(h, x, user);
    var st := Run(h, xs, Init(user));
    LineEndKind(a, e, y);
    EndIsSpace(e);
    MalformedItem(st, a, w, t);
    SpaceBehind(st, a, e);
    FirstChunkOf(y, BOM);
    MalformedAmong(h, xs, c, ys, user);
  }

  lemma {:induction false} LineEndKind(a: string, e: string, y: string)
    requires LineEnd(a, e, y)
    ensures e == "\n" || e == ""
  {
  }

  lemma {:induction false} StepBroken<U>(h: Handler<U>, st: State<U>, c: string)
    requires ItemOf(st, c) == Malformed
    ensures Step(h, st, c) == st.(lineno := st.lineno + 1, error := if st.error == 0 then st.lineno + 1 else st.error)
    ensures ItemCalls(st, ItemOf(st, c)) == []
  {
    hide ItemOf;
  }

  lemma {:induction false} MalformedAmong<U>(h: Handler<U>, xs: seq<string>, c: string, ys: seq<string>, user: U)
    requires var st := Run(h, xs, Init(user));
      ItemOf(st, c) == Malformed && st.lineno == |xs| && st.error <= |xs|
    requires xs != [] || ys == [] || !(BOM <= ys[0])
    ensures CallsIn(h, xs + [c] + ys, Init(user)) == CallsIn(h, xs + ys, Init(user))
    ensures var s, r := Run(h, xs + ys, Init(user)), Run(h, xs + [c] + ys, Init(user));
      && r.user == s.user && r.section == s.section && r.prevName == s.prevName
      && var earlier := Run(h, xs, Init(user)).error;
         r.error == if earlier != 0 then earlier else |xs| + 1
  {
    hide ItemOf, Step, Run, CallsIn, BOM, ItemCalls;
    var st := Run(h, xs, Init(user));
    StepBroken(h, st, c);
    var next := Step(h, st, c);
    RunSplit(h, xs, c, ys, Init(user));
    RunAppend(h, xs, ys, Init(user));
    LaterRun(h, ys, st, |xs|);
    ErrorDoesNotStop(h, ys, Later(st, |xs|), next.error);
    assert next == Later(st, |xs|).(error := next.error);
    ErrorSticks(h, ys, next);
    CallsSplit(h, xs, ys, Init(user));
    CallsSplit(h, xs, [c] + ys, Init(user));
    assert xs + [c] + ys == xs + ([c] + ys);
    CallsFirst(h, st, c, ys);
    CallsIgnoreHandler(h, h, ys, Later(st, |xs|), next);
  }

  lemma {:induction false} CallsFirst<U>(h: Handler<U>, st: State<U>, c: string, ys: seq<string>)
    ensures CallsIn(h, [c] + ys, st) == ItemCalls(st, ItemOf(st, c)) + CallsIn(h, ys, Step(h, st, c))
  {
    hide ItemOf, Step, ItemCalls;
    assert ([c] + ys)[1..] == ys;
  }

  /** For example a heading that lost its bracket: whatever stands behind the name, the section does
      not change, and the line is reported. */
  lemma {:induction false} UnclosedHeading<U>(h: Handler<U>, x: string, title: string, y: string, user: U)
    requires AtLineStart(x) && OneLine(title) && |title| + 2 < MAX_LINE && (x == "" ==> !(BOM <= y))
    requires forall k :: 0 <= k < |title| ==> title[k] != ']' && title[k] != NUL
    requires Run(h, Chunks(x), Init(user)).error == 0
    ensures var s, r := Run(h, Chunks(x + y), Init(user)), Run(h, Chunks(x + ("[" + title + "\n") + y), Init(user));
      r.user == s.user && r.section == s.section && r.error == |Chunks(x)| + 1
  {
    hide Run, Chunks, AtLineStart, UpToNul, Broken, OneLine, BOM;
    var a := "[" + title;
    BracketText(title);
    assert "" + a == a;
    BrokenLine(h, x, "", a, a, "\n", y, user);
  }

  lemma {:induction false} BracketText(title: string)
    requires OneLine(title) && forall k :: 0 <= k < |title| ==> title[k] != ']' && title[k] != NUL
    ensures var a := "[" + title;
      OneLine(a) && UpToNul(a) == a && Broken(a) && !(BOM <= a) && a != "" && a[0] == '['
  {
    hide UpToNul, CommentAt;
    var a := "[" + title;
    assert a[1..] == title;
    assert forall k :: 0 <= k < |a| ==> k == 0 || a[k] == title[k - 1];
    UpToNulSpec(a);
    assert UpToNul(a) == a;
    assert BOM[0] != '[';
  }
}
