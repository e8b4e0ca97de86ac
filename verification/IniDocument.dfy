/** INI documents with their layout, and the round trip through the parser: printing a document
    and parsing the text replays exactly the handler calls the document stands for. */
module IniDocument {
  import opened CString
  import opened IniGrammar
  import opened IniReport

  /** One line of a document; indents, pads, trails and comments are layout. */
  datatype Line =
    | Blank(indent: string)
    | Comment(indent: string, text: string)
    | Heading(indent: string, title: string, tail: string)
    | Entry(indent: string, name: string, padL: string, sep: char, padR: string, value: string,
            trail: string, comment: string)
    | More(indent: string, value: string, trail: string)

  function Print(l: Line): string
  {
    match l
    case Blank(indent) => indent
    case Comment(indent, text) => indent + text
    case Heading(indent, title, tail) => indent + ("[" + (title + ("]" + tail)))
    case Entry(indent, name, padL, sep, padR, value, trail, comment) =>
      indent + (name + (padL + ([sep] + (padR + (value + (trail + comment))))))
    case More(indent, value, trail) => indent + (value + trail)
  }

  /** The text the grammar sees: no leading and no trailing layout. */
  function ItemFor(l: Line): Item
  {
    match l
    case Blank(_) => Nothing
    case Comment(_, _) => Nothing
    case Heading(_, title, _) => Section(title)
    case Entry(_, name, _, _, _, value, _, _) => Pair(name, value)
    case More(_, value, _) => Continuation(value)
  }

  ghost predicate Trimmed(t: string) {
    t != "" ==> !IsSpace(t[0]) && !IsSpace(t[|t| - 1])
  }

  /** The scan for c runs through all of t. */
  ghost predicate Clean(t: string, c: char) {
    forall j :: 0 <= j < |t| ==> !Stops(t, c, j)
  }

  ghost predicate Plain(t: string) {
    forall j :: 0 <= j < |t| ==> t[j] != NUL && t[j] != '\n'
  }

  predicate CommentAt(t: string, i: nat) {
    0 < i < |t| && IsSpace(t[i - 1]) && t[i] == ';'
  }

  /** Every c stands behind a ';' that starts a comment. */
  ghost predicate Shielded(t: string, c: char) {
    forall j :: 0 <= j < |t| && t[j] == c ==> exists i: nat :: i < j && CommentAt(t, i)
  }

  ghost predicate GoodEntry(name: string, padL: string, sep: char, padR: string, value: string,
                            trail: string, comment: string)
  {
    && Trimmed(name) && Trimmed(value)
    && AllSpace(padL) && AllSpace(padR) && AllSpace(trail)
    && (name == "" ==> padL == "")
    && (name != "" ==> name[0] != '[' && name[0] != ';' && name[0] != '#')
    && (sep == '=' || sep == ':')
    && Clean(name, sep) && Clean(value, NUL)
    && (comment != "" ==> comment[0] == ';' && trail != "" && value != "")
  }

  /** The side conditions under which a line means what it says, after a line that left the
      name prev pending. An indented line would continue a pending name. */
  ghost predicate Good(l: Line, prev: string) {
    && Plain(Print(l)) && AllSpace(l.indent)
    && match l
       case Blank(_) => true
       case Comment(_, text) => text != "" && (text[0] == ';' || text[0] == '#')
       case Heading(indent, title, _) =>
         (prev == "" || indent == "") && Clean(title, ']')
       case Entry(indent, name, padL, sep, padR, value, trail, comment) =>
         && (prev == "" || indent == "")
         && GoodEntry(name, padL, sep, padR, value, trail, comment)
         && (sep == ':' ==> Shielded(name + (padL + ([sep] + (padR + (value + (trail + comment))))), '='))
       case More(indent, value, trail) =>
         && prev != "" && indent != "" && AllSpace(trail)
         && value != "" && Trimmed(value) && value[0] != ';' && value[0] != '#'
  }

  function NextPrev(l: Line, prev: string): string
  {
    match l
    case Heading(_, _, _) => ""
    case Entry(_, name, _, _, _, _, _, _) => Take(name, 49)
    case _ => prev
  }

  ghost predicate GoodFrom(doc: seq<Line>, prev: string)
  {
    doc != [] ==> Good(doc[0], prev) && GoodFrom(doc[1..], NextPrev(doc[0], prev))
  }

  // ---- one line ------------------------------------------------------------------------------

  lemma {:induction false} AllSpaceJoin(a: string, b: string)
    requires AllSpace(a) && AllSpace(b)
    ensures AllSpace(a + b)
  {
  }

  /** Trailing whitespace of a text that ends a longer one. */
  lemma {:induction false} RTrimTail(a: string, b: string)
    requires a != "" && !IsSpace(a[|a| - 1])
    ensures RTrim(a + b) == a + RTrim(b)
  {
    var r := RTrim(b);
    RTrimSpec(b);
    var w := b[|r|..];
    assert a + b == (a + r) + w;
    RTrimUnique(a + r, w);
  }

  lemma {:induction false} RTrimSpaces(w: string)
    requires AllSpace(w)
    ensures RTrim(w) == ""
  {
    RTrimUnique("", w);
    assert "" + w == w;
  }

  lemma {:induction false} RTrimNoop(t: string)
    requires t == "" || !IsSpace(t[|t| - 1])
    ensures RTrim(t) == t
  {
    RTrimUnique(t, "");
    assert t + "" == t;
  }

  /** The indented core of a line: what is left after both trims. */
  lemma {:induction false} TrimLine(indent: string, core: string)
    requires AllSpace(indent) && core != "" && !IsSpace(core[0])
    ensures var u := RTrim(core);
      && u != "" && u[0] == core[0]
      && RTrim(indent + core) == indent + u && LTrim(indent + u) == u
  {
    var u := RTrim(core);
    RTrimSpec(core);
    var w := core[|u|..];
    assert indent + core == (indent + u) + w;
    RTrimUnique(indent + u, w);
    LTrimUnique(indent, u);
  }

  lemma {:induction false} HeadingItem(title: string, tail: string)
    requires Clean(title, ']')
    ensures var u := RTrim("[" + (title + ("]" + tail)));
      u != "" && SectionItem(u) == Section(title)
  {
    hide RTrim, Find;
    var open := "[" + (title + "]");
    RTrimTail(open, tail);
    var u := open + RTrim(tail);
    assert "[" + (title + ("]" + tail)) == open + tail;
    var v := u[1..];
    assert v == title + ("]" + RTrim(tail));
    assert forall j :: 0 <= j < |title| ==> Stops(v, ']', j) == Stops(title, ']', j);
    assert Stops(v, ']', |title|);
    FindUnique(v, ']', |title|);
    assert v[..|title|] == title;
  }

  /** What becomes of the text behind the separator. */
  lemma {:induction false} ValueOf(padR: string, value: string, trail: string, comment: string)
    requires AllSpace(padR) && AllSpace(trail) && Trimmed(value) && Clean(value, NUL)
    requires comment != "" ==> comment[0] == ';' && trail != "" && value != ""
    ensures RTrim(StripComment(LTrim(RTrim(padR + (value + (trail + comment)))))) == value
  {
    hide RTrim, LTrim, StripComment;
    var body := padR + (value + (trail + comment));
    if value == "" {
      assert body == padR + trail;
      AllSpaceJoin(padR, trail);
      RTrimSpaces(body);
      NoValue();
    } else if comment == "" {
      assert body == (padR + value) + trail;
      RTrimUnique(padR + value, trail);
      LTrimUnique(padR, value);
      NoComment(value);
      RTrimNoop(value);
    } else {
      var front := padR + (value + (trail + ";"));
      assert comment == ";" + comment[1..];
      assert body == front + comment[1..];
      RTrimTail(front, comment[1..]);
      var v := value + (trail + (";" + RTrim(comment[1..])));
      assert front + RTrim(comment[1..]) == padR + v;
      LTrimUnique(padR, v);
      CommentFound(value, trail, RTrim(comment[1..]));
      RTrimUnique(value, trail);
    }
  }

  lemma {:induction false} NoValue()
    ensures RTrim(StripComment(LTrim(""))) == ""
  {
  }

  lemma {:induction false} NoComment(value: string)
    requires Clean(value, NUL)
    ensures StripComment(value) == value
  {
    FindUnique(value, NUL, |value|);
  }

  lemma {:induction false} CommentFound(value: string, trail: string, rest: string)
    requires value != "" && Clean(value, NUL) && trail != "" && AllSpace(trail)
    ensures StripComment(value + (trail + (";" + rest))) == value + trail
  {
    hide Find;
    var v, n := value + (trail + (";" + rest)), |value| + |trail|;
    forall j | 0 <= j < n
      ensures !Stops(v, NUL, j)
    {
      if j < |value| {
        assert Stops(v, NUL, j) == Stops(value, NUL, j);
      } else {
        assert v[j] == trail[j - |value|];
      }
    }
    assert v[n] == ';' && v[n - 1] == trail[|trail| - 1];
    FindUnique(v, NUL, n);
    assert v[..n] == value + trail;
  }

  /** The scan for c finds one exactly when some c is not shielded by a comment. */
  lemma {:induction false} NotFound(u: string, c: char)
    requires c != ';'
    ensures var e := Find(u, c);
      Shielded(u, c) <==> e == |u| || u[e] != c
  {
    hide Find;
    FindSpec(u, c, 0);
    var e := Find(u, c);
    assert forall i: nat :: CommentAt(u, i) ==> Stops(u, c, i);
    if e == |u| || u[e] != c {
      forall j | 0 <= j < |u| && u[j] == c
        ensures exists i: nat :: i < j && CommentAt(u, i)
      {
        assert Stops(u, c, j);
        assert CommentAt(u, e);
      }
    }
  }

  /** The separator of a printed entry is the one the parser finds. */
  lemma {:induction false} SeparatorFound(name: string, padL: string, sep: char, rest: string)
    requires Clean(name, sep) && AllSpace(padL)
    requires sep == '=' || (sep == ':' && Shielded(name + (padL + ([sep] + rest)), '='))
    ensures Separator(name + (padL + ([sep] + rest))) == |name| + |padL|
  {
    hide Find;
    var u, n := name + (padL + ([sep] + rest)), |name| + |padL|;
    if sep == ':' {
      NotFound(u, '=');
    }
    forall j | 0 <= j < n
      ensures !Stops(u, sep, j)
    {
      if j < |name| {
        assert Stops(u, sep, j) == Stops(name, sep, j);
      } else {
        assert u[j] == padL[j - |name|];
      }
    }
    assert u[n] == sep;
    FindUnique(u, sep, n);
  }

  lemma {:induction false} EntryCore(name: string, padL: string, sep: char, padR: string, value: string,
                  trail: string, comment: string)
    requires GoodEntry(name, padL, sep, padR, value, trail, comment)
    ensures var core := name + (padL + ([sep] + (padR + (value + (trail + comment)))));
      !IsSpace(core[0]) && core[0] != '[' && core[0] != ';' && core[0] != '#'
  {
  }

  lemma {:induction false} EntryItem(name: string, padL: string, sep: char, padR: string, value: string,
                  trail: string, comment: string)
    requires GoodEntry(name, padL, sep, padR, value, trail, comment)
    requires sep == ':' ==> Shielded(name + (padL + ([sep] + (padR + (value + (trail + comment))))), '=')
    ensures var core := name + (padL + ([sep] + (padR + (value + (trail + comment)))));
      PairItem(RTrim(core)) == Pair(name, value)
  {
    hide RTrim, LTrim, StripComment, Separator, Shielded;
    var body := padR + (value + (trail + comment));
    ValueOf(padR, value, trail, comment);
    EntryText(name, padL, sep, body);
    var u := name + (padL + ([sep] + RTrim(body)));
    SeparatorFound(name, padL, sep, RTrim(body));
    assert u[..|name| + |padL|] == name + padL;
    assert u[|name| + |padL| + 1..] == RTrim(body);
    RTrimUnique(name, padL);
  }

  lemma {:induction false} EntryText(name: string, padL: string, sep: char, body: string)
    requires !IsSpace(sep)
    ensures var core, u := name + (padL + ([sep] + body)), name + (padL + ([sep] + RTrim(body)));
      RTrim(core) == u && (Shielded(core, '=') ==> Shielded(u, '='))
  {
    hide RTrim;
    var core, u := name + (padL + ([sep] + body)), name + (padL + ([sep] + RTrim(body)));
    var front := name + (padL + [sep]);
    assert core == front + body && u == front + RTrim(body);
    RTrimTail(front, body);
    ShieldedPrefix(u, core[|u|..], '=');
    assert u + core[|u|..] == core;
  }

  lemma {:induction false} ShieldedPrefix(a: string, b: string, c: char)
    ensures Shielded(a + b, c) ==> Shielded(a, c)
    ensures Shielded(a, c) && (forall k :: 0 <= k < |b| ==> b[k] != c) ==> Shielded(a + b, c)
  {
    if Shielded(a + b, c) {
      forall j | 0 <= j < |a| && a[j] == c
        ensures exists i: nat :: i < j && CommentAt(a, i)
      {
        assert (a + b)[j] == c;
        var i: nat :| i < j && CommentAt(a + b, i);
        assert CommentAt(a, i);
      }
    }
    if Shielded(a, c) && forall k :: 0 <= k < |b| ==> b[k] != c {
      forall j | 0 <= j < |a + b| && (a + b)[j] == c
        ensures exists i: nat :: i < j && CommentAt(a + b, i)
      {
        assert j < |a|;
        var i: nat :| i < j && CommentAt(a, i);
        assert CommentAt(a + b, i);
      }
    }
  }

  /** The newline is trimmed like any other trailing whitespace. */
  lemma {:induction false} NewlineTrimmed(t: string)
    ensures RTrim(t + "\n") == RTrim(t)
  {
    assert (t + "\n")[..|t|] == t;
  }

  /** How a line with some text is classified, by its first character and its indentation. */
  lemma {:induction false} ClassifyLine(indent: string, core: string, shifted: bool, continuing: bool)
    requires AllSpace(indent) && core != "" && !IsSpace(core[0])
    ensures var u := RTrim(core);
      && u != "" && u[0] == core[0]
      && Classify(RTrim((indent + core) + "\n"), shifted, continuing) ==
           if u[0] == ';' || u[0] == '#' then Nothing
           else if continuing && (shifted || indent != "") then Continuation(u)
           else if u[0] == '[' then SectionItem(u)
           else PairItem(u)
  {
    hide RTrim, LTrim, SectionItem, PairItem;
    NewlineTrimmed(indent + core);
    TrimLine(indent, core);
  }

  /** A printed line, behind the byte order mark or not, is classified as what it stands for. */
  lemma {:induction false} LineItem(l: Line, prev: string, shifted: bool)
    requires Good(l, prev) && (shifted ==> prev == "")
    ensures Classify(RTrim(Print(l) + "\n"), shifted, prev != "") == ItemFor(l)
  {
    hide RTrim, Classify, SectionItem, PairItem, Plain, Clean;
    match l
    case Blank(indent) =>
      BlankItem(indent, shifted, prev != "");
    case Comment(indent, text) =>
      ClassifyLine(indent, text, shifted, prev != "");
    case Heading(indent, title, tail) =>
      ClassifyLine(indent, "[" + (title + ("]" + tail)), shifted, prev != "");
      HeadingItem(title, tail);
    case Entry(indent, name, padL, sep, padR, value, trail, comment) =>
      var core := name + (padL + ([sep] + (padR + (value + (trail + comment)))));
      EntryCore(name, padL, sep, padR, value, trail, comment);
      EntryItem(name, padL, sep, padR, value, trail, comment);
      ClassifyLine(indent, core, shifted, prev != "");
    case More(indent, value, trail) =>
      ClassifyLine(indent, value + trail, shifted, prev != "");
      RTrimUnique(value, trail);
  }

  lemma {:induction false} BlankItem(indent: string, shifted: bool, continuing: bool)
    requires AllSpace(indent)
    ensures Classify(RTrim(indent + "\n"), shifted, continuing) == Nothing
  {
    hide RTrim;
    NewlineTrimmed(indent);
    RTrimSpaces(indent);
    LTrimSpec("");
  }

  // ---- whole documents -----------------------------------------------------------------------

  /** What fgets delivers for each line; a byte order mark precedes the first. */
  function DocChunks(doc: seq<Line>, bom: bool): seq<string>
  {
    if doc == [] then []
    else [(if bom then BOM else "") + (Print(doc[0]) + "\n")] + DocChunks(doc[1..], false)
  }

  function Text(doc: seq<Line>, bom: bool): string
  {
    Flatten(DocChunks(doc, bom))
  }

  ghost predicate GoodDocument(doc: seq<Line>, bom: bool) {
    && GoodFrom(doc, "")
    && (forall k :: 0 <= k < |DocChunks(doc, bom)| ==> |DocChunks(doc, bom)[k]| < MAX_LINE)
    && (doc != [] && !bom ==> !(BOM <= Print(doc[0]) + "\n"))
  }

  function DocRun<U>(h: Handler<U>, doc: seq<Line>, st: State<U>): State<U>
  {
    if doc == [] then st
    else DocRun(h, doc[1..], Apply(h, st.(lineno := st.lineno + 1), ItemFor(doc[0])))
  }

  lemma {:induction false} PlainChunk(a: string)
    requires Plain(a)
    ensures UpToNul(a + "\n") == a + "\n" && EndsLine(a + "\n")
    ensures forall k :: 0 <= k < |a| ==> (a + "\n")[k] != '\n'
  {
    UpToNulSpec(a + "\n");
  }

  lemma {:induction false} BomPlain(a: string)
    requires Plain(a)
    ensures Plain(BOM + a) && BOM + (a + "\n") == (BOM + a) + "\n"
    ensures BOM <= BOM + (a + "\n") && (BOM + (a + "\n"))[3..] == a + "\n"
  {
  }

  lemma {:induction false} GoodPlain(l: Line, prev: string)
    requires Good(l, prev)
    ensures Plain(Print(l))
  {
  }

  /** Lines that fit are delivered one by one. */
  lemma {:induction false} ChunksOfLines(cs: seq<string>)
    requires forall k :: 0 <= k < |cs| ==> IsChunk(cs[k]) && EndsLine(cs[k])
    ensures Chunks(Flatten(cs)) == cs
  {
    hide ChunkLen;
    if cs != [] {
      var data := Flatten(cs);
      assert IsChunk(cs[0]) && EndsLine(cs[0]);
      assert forall k :: 0 <= k < |cs[0]| ==> data[k] == cs[0][k];
      ChunkLenUnique(data, |cs[0]|);
      assert data[..|cs[0]|] == cs[0] && data[|cs[0]|..] == Flatten(cs[1..]);
      ChunksOfLines(cs[1..]);
    }
  }

  lemma {:induction false} DocChunksAreChunks(doc: seq<Line>, prev: string, bom: bool)
    requires GoodFrom(doc, prev)
    requires forall k :: 0 <= k < |DocChunks(doc, bom)| ==> |DocChunks(doc, bom)[k]| < MAX_LINE
    ensures var cs := DocChunks(doc, bom);
      forall k :: 0 <= k < |cs| ==> IsChunk(cs[k]) && EndsLine(cs[k])
  {
    hide Good, Print, IsChunk, EndsLine;
    if doc != [] {
      var cs := DocChunks(doc, bom);
      assert |cs[0]| < MAX_LINE;
      assert forall k :: 0 <= k < |cs| - 1 ==> cs[1..][k] == cs[k + 1];
      DocChunksAreChunks(doc[1..], NextPrev(doc[0], prev), false);
      GoodPlain(doc[0], prev);
      LineChunk(Print(doc[0]), bom);
    }
  }

  lemma {:induction false} LineChunk(a: string, bom: bool)
    requires Plain(a) && |(if bom then BOM else "") + (a + "\n")| < MAX_LINE
    ensures var c := (if bom then BOM else "") + (a + "\n");
      IsChunk(c) && EndsLine(c)
  {
    PlainChunk(a);
    if bom {
      BomPlain(a);
      PlainChunk(BOM + a);
    } else {
      assert "" + (a + "\n") == a + "\n";
    }
  }

  lemma {:induction false} DocStep<U>(st: State<U>, l: Line, bom: bool)
    requires Good(l, st.prevName)
    requires bom ==> st.lineno == 0 && st.prevName == ""
    requires !bom && st.lineno == 0 ==> !(BOM <= Print(l) + "\n")
    ensures ItemOf(st, (if bom then BOM else "") + (Print(l) + "\n")) == ItemFor(l)
  {
    hide Good, Classify, RTrim, Print, UpToNul;
    var a := Print(l);
    GoodPlain(l, st.prevName);
    LineItem(l, st.prevName, bom);
    if bom {
      BomPlain(a);
      PlainChunk(BOM + a);
    } else {
      PlainChunk(a);
      assert "" + (a + "\n") == a + "\n";
    }
  }

  lemma {:induction false} RunDocument<U>(h: Handler<U>, doc: seq<Line>, bom: bool, st: State<U>)
    requires GoodFrom(doc, st.prevName)
    requires bom ==> st.lineno == 0 && st.prevName == ""
    requires doc != [] && !bom && st.lineno == 0 ==> !(BOM <= Print(doc[0]) + "\n")
    ensures Run(h, DocChunks(doc, bom), st) == DocRun(h, doc, st)
  {
    hide Good, ItemOf, Print, Apply, NextPrev, ItemFor;
    if doc != [] {
      DocStep(st, doc[0], bom);
      DocNext(h, st, doc[0]);
      RunDocument(h, doc[1..], false, Apply(h, st.(lineno := st.lineno + 1), ItemFor(doc[0])));
    }
  }

  function NextSection(l: Line, section: string): string
  {
    if l.Heading? then Take(l.title, 49) else section
  }

  /** The parser after a line. */
  lemma {:induction false} DocNext<U>(h: Handler<U>, st: State<U>, l: Line)
    ensures var next := Apply(h, st.(lineno := st.lineno + 1), ItemFor(l));
      && next.prevName == NextPrev(l, st.prevName) && next.section == NextSection(l, st.section)
      && next.lineno == st.lineno + 1
  {
  }

  // ---- what a document means -----------------------------------------------------------------------

  datatype Call = Call(section: string, name: string, value: string)

  /** The entries of a document in order, a continuation under the name it continues; of a section and
      of a continued name no more than 49 characters are kept. */
  function Calls(doc: seq<Line>, section: string, prev: string): seq<Call>
  {
    if doc == [] then []
    else match doc[0]
      case Heading(_, title, _) => Calls(doc[1..], Take(title, 49), "")
      case Entry(_, name, _, _, _, value, _, _) =>
        [Call(section, name, value)] + Calls(doc[1..], section, Take(name, 49))
      case More(_, value, _) => [Call(section, prev, value)] + Calls(doc[1..], section, prev)
      case _ => Calls(doc[1..], section, prev)
  }

  /** The handler fed with calls, one after the other. */
  function Feed<U>(h: Handler<U>, calls: seq<Call>, user: U): U
  {
    if calls == [] then user
    else Feed(h, calls[1..], h(user, calls[0].section, calls[0].name, calls[0].value).0)
  }

  predicate Accepts<U>(h: Handler<U>, calls: seq<Call>, user: U)
  {
    calls == [] ||
    var (u, ok) := h(user, calls[0].section, calls[0].name, calls[0].value);
    ok && Accepts(h, calls[1..], u)
  }

  lemma {:induction false} GoodMore(l: Line, prev: string)
    requires Good(l, prev)
    ensures l.More? ==> prev != ""
  {
  }

  lemma {:induction false} DocRunFeeds<U>(h: Handler<U>, doc: seq<Line>, st: State<U>)
    requires GoodFrom(doc, st.prevName)
    ensures var end, calls := DocRun(h, doc, st), Calls(doc, st.section, st.prevName);
      && end.user == Feed(h, calls, st.user)
      && (end.error == 0 <==> st.error == 0 && Accepts(h, calls, st.user))
  {
    hide Good;
    if doc != [] {
      GoodMore(doc[0], st.prevName);
      var calls := Calls(doc, st.section, st.prevName);
      var next := Apply(h, st.(lineno := st.lineno + 1), ItemFor(doc[0]));
      DocRunFeeds(h, doc[1..], next);
      if doc[0].Entry? || doc[0].More? {
        assert calls[1..] == Calls(doc[1..], next.section, next.prevName);
      }
    }
  }

  // ---- any file is a sequence of calls ---------------------------------------------------------

  function ItemCalls<U>(st: State<U>, item: Item): seq<Call>
  {
    match item
    case Continuation(more) => [Call(st.section, st.prevName, more)]
    case Pair(name, value) => [Call(st.section, name, value)]
    case _ => []
  }

  /** The calls that the parser makes on the chunks of a file. */
  function CallsIn<U>(h: Handler<U>, cs: seq<string>, st: State<U>): seq<Call>
  {
    if cs == [] then [] else ItemCalls(st, ItemOf(st, cs[0])) + CallsIn(h, cs[1..], Step(h, st, cs[0]))
  }

  /** Whatever the file, the handler's data is what it makes of these calls, in order. */
  lemma {:induction false} RunFeeds<U>(h: Handler<U>, cs: seq<string>, st: State<U>)
    ensures Run(h, cs, st).user == Feed(h, CallsIn(h, cs, st), st.user)
    decreases |cs|
  {
    hide ItemOf;
    if cs != [] {
      var next := Step(h, st, cs[0]);
      RunFeeds(h, cs[1..], next);
      var now, rest := ItemCalls(st, ItemOf(st, cs[0])), CallsIn(h, cs[1..], next);
      if now == [] {
        assert now + rest == rest;
      } else {
        assert (now + rest)[1..] == rest;
      }
    }
  }

  /** The handler has no influence on which calls are made. */
  lemma {:induction false} CallsIgnoreHandler<U, V>(h: Handler<U>, g: Handler<V>, cs: seq<string>,
                                                    st: State<U>, tt: State<V>)
    requires st.section == tt.section && st.prevName == tt.prevName && st.lineno == tt.lineno
    ensures CallsIn(h, cs, st) == CallsIn(g, cs, tt)
    decreases |cs|
  {
    hide ItemOf;
    if cs != [] {
      SameItems(st, tt, cs[0]);
      CallsIgnoreHandler(h, g, cs[1..], Step(h, st, cs[0]), Step(g, tt, cs[0]));
    }
  }

  lemma {:induction false} SameItems<U, V>(st: State<U>, tt: State<V>, c: string)
    requires st.prevName == tt.prevName && st.lineno == tt.lineno
    ensures ItemOf(st, c) == ItemOf(tt, c)
  {
    hide Classify, RTrim, UpToNul;
  }

  /** The calls the parser makes on a printed document are those the document stands for. */
  lemma {:induction false} DocumentCalls<U>(h: Handler<U>, doc: seq<Line>, bom: bool, st: State<U>)
    requires GoodFrom(doc, st.prevName)
    requires bom ==> st.lineno == 0 && st.prevName == ""
    requires doc != [] && !bom && st.lineno == 0 ==> !(BOM <= Print(doc[0]) + "\n")
    ensures CallsIn(h, DocChunks(doc, bom), st) == Calls(doc, st.section, st.prevName)
    decreases |doc|
  {
    hide Good, ItemOf, Print, Apply, NextPrev, ItemFor, ItemCalls, Calls;
    CallsUnfold(st, doc);
    if doc != [] {
      DocStep(st, doc[0], bom);
      DocNext(h, st, doc[0]);
      DocumentCalls(h, doc[1..], false, Apply(h, st.(lineno := st.lineno + 1), ItemFor(doc[0])));
    }
  }

  lemma {:induction false} CallsUnfold<U>(st: State<U>, doc: seq<Line>)
    ensures doc == [] ==> Calls(doc, st.section, st.prevName) == []
    ensures doc != [] ==>
      Calls(doc, st.section, st.prevName) == ItemCalls(st, ItemFor(doc[0]))
        + Calls(doc[1..], NextSection(doc[0], st.section), NextPrev(doc[0], st.prevName))
  {
  }

  // ---- the round trip ----------------------------------------------------------------------------

  /** Round trip: parsing the printed document makes exactly the calls it stands for, in order,
      whatever the handler; and the return code is 0 exactly when all of them are accepted. */
  lemma {:induction false} DocumentRoundTrip<U>(h: Handler<U>, doc: seq<Line>, bom: bool, user: U)
    requires GoodDocument(doc, bom)
    ensures var end, calls := Run(h, Chunks(Text(doc, bom)), Init(user)), Calls(doc, "", "");
      && CallsIn(h, Chunks(Text(doc, bom)), Init(user)) == calls
      && end.user == Feed(h, calls, user)
      && (end.error == 0 <==> Accepts(h, calls, user))
  {
    hide Good, Run, DocChunks, Flatten;
    DocChunksAreChunks(doc, "", bom);
    ChunksOfLines(DocChunks(doc, bom));
    DocumentCalls(h, doc, bom, Init(user));
    RunDocument(h, doc, bom, Init(user));
    DocRunFeeds(h, doc, Init(user));
  }

  /** Layout is irrelevant: documents with the same entries, however indented, padded, commented
      and interspersed with blank and comment lines, are the same to every handler. */
  lemma {:induction false} LayoutIrrelevant<U>(h: Handler<U>, a: seq<Line>, bomA: bool,
                                               b: seq<Line>, bomB: bool, user: U)
    requires GoodDocument(a, bomA) && GoodDocument(b, bomB)
    requires Calls(a, "", "") == Calls(b, "", "")
    ensures var endA, endB := Run(h, Chunks(Text(a, bomA)), Init(user)), Run(h, Chunks(Text(b, bomB)), Init(user));
      endA.user == endB.user && (endA.error == 0 <==> endB.error == 0)
  {
    hide GoodDocument, Text, Run, Chunks;
    DocumentRoundTrip(h, a, bomA, user);
    DocumentRoundTrip(h, b, bomB, user);
  }
}
