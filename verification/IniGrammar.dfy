/** The INI dialect as a grammar of single lines and a fold over the chunks that fgets
    delivers. The in-place parser is proved equal to this fold in IniParser. */
module IniGrammar {
  import opened CString

  const MAX_LINE := 200
  const MAX_SECTION := 50
  const MAX_NAME := 50
  const BOM := "\U{EF}\U{BB}\U{BF}"

  // ---- one line ------------------------------------------------------------------------

  /** The scan for c ends at j: c itself, or a ';' that follows whitespace. */
  predicate Stops(t: string, c: char, j: nat)
    requires j < |t|
  {
    t[j] == c || (j > 0 && IsSpace(t[j - 1]) && t[j] == ';')
  }

  /** The least index from i on where the scan for c ends, or |t|. */
  function Find(t: string, c: char, i: nat := 0): (r: nat)
    requires i <= |t|
    ensures i <= r <= |t|
    decreases |t| - i
  {
    if i == |t| || Stops(t, c, i) then i else Find(t, c, i + 1)
  }

  lemma {:induction false} FindSpec(t: string, c: char, i: nat)
    requires i <= |t|
    ensures var r := Find(t, c, i);
      && (forall j :: i <= j < r ==> !Stops(t, c, j))
      && (r < |t| ==> Stops(t, c, r))
    decreases |t| - i
  {
    if i == |t| || Stops(t, c, i) {
    } else {
      FindSpec(t, c, i + 1);
    }
  }

  /** The clauses of FindSpec determine Find. */
  lemma {:induction false} FindUnique(t: string, c: char, r: nat)
    requires r <= |t| && (forall j :: 0 <= j < r ==> !Stops(t, c, j))
    requires r < |t| ==> Stops(t, c, r)
    ensures Find(t, c) == r
  {
    FindSpec(t, c, 0);
  }

  datatype Item =
    | Nothing
    | Section(title: string)
    | Continuation(more: string)
    | Pair(name: string, value: string)
    | Malformed

  function SectionItem(u: string): (item: Item)
    requires u != ""
    ensures item.Section? || item == Malformed
  {
    var e := Find(u[1..], ']');
    if 1 + e < |u| && u[1 + e] == ']' then Section(u[1..][..e]) else Malformed
  }

  /** '=' is looked for first, ':' only when no '=' comes before a comment. */
  function Separator(u: string): (e: nat)
    ensures e <= |u|
  {
    var e := Find(u, '=');
    if e < |u| && u[e] == '=' then e else Find(u, ':')
  }

  function StripComment(v: string): (r: string)
  {
    var e := Find(v, NUL);
    if e < |v| && v[e] == ';' then v[..e] else v
  }

  function PairItem(u: string): (item: Item)
    ensures item.Pair? || item == Malformed
  {
    var e := Separator(u);
    if e < |u| && (u[e] == '=' || u[e] == ':')
    then Pair(RTrim(u[..e]), RTrim(StripComment(LTrim(u[e + 1..]))))
    else Malformed
  }

  /** A line whose trailing whitespace is gone. `continuing`: a name is pending;
      `shifted`: the text does not start at the beginning of the buffer. */
  function Classify(t: string, shifted: bool, continuing: bool): Item
  {
    var u := LTrim(t);
    if u == "" || u[0] == ';' || u[0] == '#' then Nothing
    else if continuing && (shifted || |u| < |t|) then Continuation(u)
    else if u[0] == '[' then SectionItem(u)
    else PairItem(u)
  }

  // ---- the fold over the chunks ----------------------------------------------------------

  /** The callback: new user data and whether the entry was accepted. */
  type Handler<!U> = (U, string, string, string) -> (U, bool)

  datatype State<U> = State(section: string, prevName: string, lineno: nat, error: nat, user: U)

  function Init<U>(user: U): State<U> { State("", "", 0, 0, user) }

  predicate HasBom(chunk: string, lineno: nat)
    ensures HasBom(chunk, lineno) ==> |chunk| >= 3
  {
    lineno == 1 && BOM <= chunk
  }

  function ItemOf<U>(st: State<U>, chunk: string): Item
  {
    var s := UpToNul(chunk);
    var bom := HasBom(s, st.lineno + 1);
    Classify(RTrim(if bom then s[3..] else s), bom, st.prevName != "")
  }

  function Deliver<U>(h: Handler<U>, st: State<U>, name: string, value: string): State<U>
  {
    var (u, ok) := h(st.user, st.section, name, value);
    st.(user := u, error := if !ok && st.error == 0 then st.lineno else st.error)
  }

  function Apply<U>(h: Handler<U>, st: State<U>, item: Item): State<U>
  {
    match item
    case Nothing => st
    case Section(title) => st.(section := Take(title, MAX_SECTION - 1), prevName := "")
    case Continuation(more) => Deliver(h, st, st.prevName, more)
    case Pair(name, value) => Deliver(h, st.(prevName := Take(name, MAX_NAME - 1)), name, value)
    case Malformed => st.(error := if st.error == 0 then st.lineno else st.error)
  }

  function Step<U>(h: Handler<U>, st: State<U>, chunk: string): State<U>
  {
    Apply(h, st.(lineno := st.lineno + 1), ItemOf(st, chunk))
  }

  function Run<U>(h: Handler<U>, chunks: seq<string>, st: State<U>): State<U>
  {
    if chunks == [] then st else Run(h, chunks[1..], Step(h, st, chunks[0]))
  }

  // ---- fgets -------------------------------------------------------------------------------

  /** How much one fgets(line, MAX_LINE, file) takes: through the first newline, at most
      MAX_LINE - 1 characters (section 7.21.7.2 of ISO C11). */
  function ChunkLen(data: string, n: nat := 0): (r: nat)
    requires n <= |data| && n < MAX_LINE
    ensures n <= r <= |data| && r < MAX_LINE
    ensures data != "" && n == 0 ==> r > 0
    ensures forall k :: n <= k < r - 1 ==> data[k] != '\n'
    ensures r == |data| || r == MAX_LINE - 1 || (r > n && data[r - 1] == '\n')
    decreases |data| - n
  {
    if n == |data| || n == MAX_LINE - 1 then n
    else if data[n] == '\n' then n + 1
    else ChunkLen(data, n + 1)
  }

  function Chunks(data: string): (cs: seq<string>)
    decreases |data|
  {
    if data == "" then [] else [data[..ChunkLen(data)]] + Chunks(data[ChunkLen(data)..])
  }

  lemma {:induction false} RunChunk<U>(h: Handler<U>, data: string, st: State<U>)
    requires data != ""
    ensures var n := ChunkLen(data);
            && Run(h, Chunks(data), st) == Run(h, Chunks(data[n..]), Step(h, st, data[..n]))
            && Step(h, st, data[..n]).lineno == st.lineno + 1
  {
    hide Classify, ItemOf, ChunkLen;
    var n := ChunkLen(data);
    assert Chunks(data)[1..] == Chunks(data[n..]);
  }
}
