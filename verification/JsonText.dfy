/** JSON as RFC 8259 writes it, down to the spaces and escapes, and what the scanner makes of it. */
module JsonText {
  import opened Results
  import opened JsonScan

  /** A character of a string: itself, or a backslash and the character after it. The four
      digits of a `u` escape are characters like any other. */
  datatype StrChar = Plain(c: char) | Escape(c: char)

  datatype Name = Name(chars: seq<StrChar>, mid: string, post: string)

  /** A value among its neighbours: the space around it and, in an object, its name. */
  datatype Entry = Entry(before: string, name: Option<Name>, value: Value, after: string)

  datatype Value =
    | Scalar(text: string)
    | Text(chars: seq<StrChar>)
    | Container(isObject: bool, gap: string, entries: seq<Entry>)

  // ------------------------------------------------------------------------ printing

  function PrintChars(cs: seq<StrChar>): string {
    if cs == [] then ""
    else (match cs[0] case Plain(c) => [c] case Escape(c) => ['\\', c]) + PrintChars(cs[1..])
  }

  function Quoted(cs: seq<StrChar>): string {
    "\"" + PrintChars(cs) + "\""
  }

  function PrintName(l: Option<Name>): string {
    if l.None? then "" else Quoted(l.value.chars) + (l.value.mid + (":" + l.value.post))
  }

  function Open(isObject: bool): string {
    if isObject then "{" else "["
  }

  function Close(isObject: bool): string {
    if isObject then "}" else "]"
  }

  function Print(v: Value): string
    decreases v, 0
  {
    match v
    case Scalar(text) => text
    case Text(chars) => Quoted(chars)
    case Container(isObject, gap, entries) => Open(isObject) + (gap + (PrintEntries(entries) + Close(isObject)))
  }

  function PrintEntries(es: seq<Entry>): string
    decreases es, 0
  {
    if es == [] then ""
    else Lead(es[0]) + (Print(es[0].value) + (Tail(es) + PrintEntries(es[1..])))
  }

  /** What follows a value up to the next: space, and a comma unless it is the last. */
  function Tail(es: seq<Entry>): string
    requires es != []
  {
    es[0].after + (if |es| > 1 then "," else "")
  }

  function Lead(e: Entry): string {
    e.before + PrintName(e.name)
  }

  // --------------------------------------------------------------- what RFC 8259 allows

  predicate Blank(s: string) {
    forall i :: 0 <= i < |s| ==> s[i] == ' ' || s[i] == '\t' || s[i] == '\n' || s[i] == '\r'
  }

  /** A character that is no quote, brace or bracket. */
  predicate Inert(s: string) {
    forall i :: 0 <= i < |s| ==> s[i] != '"' && s[i] != '{' && s[i] != '[' && s[i] != '}' && s[i] != ']'
  }

  predicate ValidChars(cs: seq<StrChar>) {
    forall i :: 0 <= i < |cs| ==> cs[i].Plain? ==> cs[i].c != '"' && cs[i].c != '\\'
  }

  predicate ValidName(l: Option<Name>, isObject: bool) {
    && (l.Some? <==> isObject)
    && (l.Some? ==> ValidChars(l.value.chars) && Blank(l.value.mid) && Blank(l.value.post))
  }

  /** A number or one of the three words is any text without quotes, braces and brackets. */
  predicate ValidValue(v: Value) {
    match v
    case Scalar(text) => Inert(text)
    case Text(chars) => ValidChars(chars)
    case Container(isObject, gap, entries) => Blank(gap) && ValidEntries(entries, isObject)
  }

  predicate ValidEntries(es: seq<Entry>, isObject: bool) {
    forall i :: 0 <= i < |es| ==>
      Blank(es[i].before) && Blank(es[i].after) && ValidName(es[i].name, isObject) && ValidValue(es[i].value)
  }

  /** The entries of an array whose elements are all objects and arrays. */
  predicate ElementList(es: seq<Entry>) {
    ValidEntries(es, false) && forall i :: 0 <= i < |es| ==> es[i].value.Container?
  }

  lemma FirstElement(es: seq<Entry>)
    requires ElementList(es) && es != []
    ensures ElementList(es[1..]) && ValidValue(es[0].value) && es[0].value.Container?
    ensures Inert(Lead(es[0])) && Inert(Tail(es))
  {
    forall i | 0 <= i < |es| - 1
      ensures es[1..][i].value.Container?
    {
      assert es[1..][i] == es[i + 1];
    }
  }

  // ------------------------------------------------------------ scanning printed pieces

  /** `piece` stands at position `i`. */
  predicate At(text: string, i: nat, piece: string) {
    i + |piece| <= |text| && forall k :: 0 <= k < |piece| ==> text[i + k] == piece[k]
  }

  lemma AtSplit(text: string, i: nat, a: string, b: string)
    requires At(text, i, a + b)
    ensures At(text, i, a) && At(text, i + |a|, b)
  {
    assert forall k | 0 <= k < |a| :: (a + b)[k] == a[k];
    forall k | 0 <= k < |b|
      ensures text[i + |a| + k] == b[k]
    {
      assert (a + b)[|a| + k] == b[k];
      assert text[i + (|a| + k)] == (a + b)[|a| + k];
    }
  }

  lemma AtSplit3(text: string, i: nat, a: string, b: string, c: string)
    requires At(text, i, a + (b + c))
    ensures At(text, i, a) && At(text, i + |a|, b) && At(text, i + |a| + |b|, c)
  {
    AtSplit(text, i, a, b + c);
    AtSplit(text, i + |a|, b, c);
  }

  lemma AtSplit4(text: string, i: nat, a: string, b: string, c: string, d: string)
    requires At(text, i, a + (b + (c + d)))
    ensures At(text, i, a) && At(text, i + |a|, b) && At(text, i + |a| + |b|, c) && At(text, i + |a| + |b| + |c|, d)
  {
    AtSplit(text, i, a, b + (c + d));
    AtSplit3(text, i + |a|, b, c, d);
  }

  lemma EntriesText(es: seq<Entry>)
    requires es != []
    ensures PrintEntries(es) == Lead(es[0]) + (Print(es[0].value) + (Tail(es) + PrintEntries(es[1..])))
  {}

  /** A text that is known to be made of four pieces. */
  lemma AtPieces(text: string, i: nat, whole: string, a: string, b: string, c: string, d: string)
    requires At(text, i, whole) && whole == a + (b + (c + d))
    ensures At(text, i, a) && At(text, i + |a|, b) && At(text, i + |a| + |b|, c) && At(text, i + |a| + |b| + |c|, d)
    ensures |whole| == |a| + |b| + |c| + |d|
  {
    AtSplit4(text, i, a, b, c, d);
  }

  /** Outside strings and not yet done. */
  predicate Calm(s: State) {
    !s.inString && !s.escaped && !s.stopped
  }

  lemma {:induction false} InertIsQuiet(text: string, i: nat, piece: string, s: State)
    requires At(text, i, piece) && Inert(piece) && Calm(s)
    ensures Run(text, i, i + |piece|, s) == s
    decreases |piece|
  {
    if piece != "" {
      assert text[i + 0] == piece[0];
      AtSplit(text, i, piece[..1], piece[1..]) by {
        assert piece[..1] + piece[1..] == piece;
      }
      InertIsQuiet(text, i + 1, piece[1..], s);
    }
  }

  lemma {:induction false} CharsAreQuiet(text: string, i: nat, cs: seq<StrChar>, s: State)
    requires At(text, i, PrintChars(cs)) && ValidChars(cs) && s.inString && !s.escaped && !s.stopped
    ensures Run(text, i, i + |PrintChars(cs)|, s) == s
    decreases |cs|
  {
    if cs != [] {
      var head := match cs[0] case Plain(c) => [c] case Escape(c) => ['\\', c];
      AtSplit(text, i, head, PrintChars(cs[1..]));
      assert text[i + 0] == head[0];
      if cs[0].Escape? {
        assert text[i + 1] == head[1];
        RunTwo(text, i, s);
      } else {
        RunOne(text, i, s);
      }
      RunSplit(text, i, i + |head|, i + |PrintChars(cs)|, s);
      CharsAreQuiet(text, i + |head|, cs[1..], s);
    }
  }

  lemma RunOne(text: string, i: nat, s: State)
    requires i < |text|
    ensures Run(text, i, i + 1, s) == Step(text, i, s)
  {}

  lemma RunTwo(text: string, i: nat, s: State)
    requires i + 1 < |text|
    ensures Run(text, i, i + 2, s) == Step(text, i + 1, Step(text, i, s))
  {
    RunOne(text, i + 1, Step(text, i, s));
  }

  lemma StringIsQuiet(text: string, i: nat, cs: seq<StrChar>, s: State)
    requires At(text, i, Quoted(cs)) && ValidChars(cs) && Calm(s) && s.depth > 0
    ensures Run(text, i, i + |Quoted(cs)|, s) == s
  {
    var body := PrintChars(cs);
    assert Quoted(cs) == "\"" + (body + "\"");
    AtSplit(text, i, "\"", body + "\"");
    AtSplit(text, i + 1, body, "\"");
    var inside := s.(inString := true);
    var end := i + 1 + |body|;
    assert text[i + 0] == "\""[0] && text[end + 0] == "\""[0];
    RunOne(text, i, s);
    CharsAreQuiet(text, i + 1, cs, inside);
    RunSplit(text, i, i + 1, end + 1, s);
    RunSplit(text, i + 1, end, end + 1, inside);
    RunOne(text, end, inside);
  }

  // --------------------------------------------------- texts that leave no impression

  predicate Leaves(text: string, i: nat, p: string, s: State) {
    At(text, i, p) && Calm(s) && s.depth > 0 ==> Run(text, i, i + |p|, s) == s
  }

  /** Wherever it stands inside a container, the scanner comes out of `p` as it went in. */
  ghost predicate Quiet(p: string) {
    forall text: string, i: nat, s: State :: Leaves(text, i, p, s)
  }

  lemma QuietConcat(a: string, b: string)
    requires Quiet(a) && Quiet(b)
    ensures Quiet(a + b)
  {
    forall text: string, i: nat, s: State
      ensures Leaves(text, i, a + b, s)
    {
      if At(text, i, a + b) && Calm(s) && s.depth > 0 {
        AtSplit(text, i, a, b);
        assert Leaves(text, i, a, s) && Leaves(text, i + |a|, b, s);
        RunSplit(text, i, i + |a|, i + |a| + |b|, s);
      }
    }
  }

  lemma InertQuiet(p: string)
    requires Inert(p)
    ensures Quiet(p)
  {
    forall text: string, i: nat, s: State
      ensures Leaves(text, i, p, s)
    {
      if At(text, i, p) && Calm(s) {
        InertIsQuiet(text, i, p, s);
      }
    }
  }

  lemma QuotedQuiet(cs: seq<StrChar>)
    requires ValidChars(cs)
    ensures Quiet(Quoted(cs))
  {
    forall text: string, i: nat, s: State
      ensures Leaves(text, i, Quoted(cs), s)
    {
      if At(text, i, Quoted(cs)) && Calm(s) && s.depth > 0 {
        StringIsQuiet(text, i, cs, s);
      }
    }
  }

  /** Brackets around a quiet text raise the depth and bring it back. */
  lemma BracketQuiet(isObject: bool, p: string)
    requires Quiet(p)
    ensures Quiet(Open(isObject) + (p + Close(isObject)))
  {
    var whole := Open(isObject) + (p + Close(isObject));
    forall text: string, i: nat, s: State
      ensures Leaves(text, i, whole, s)
    {
      if At(text, i, whole) && Calm(s) && s.depth > 0 {
        BracketRun(text, i, isObject, p, s);
      }
    }
  }

  /** Just inside an opening bracket. */
  function Inside(s: State, i: nat): State {
    s.(start := if s.depth == 0 then Some(i) else s.start, depth := s.depth + 1)
  }

  lemma OpenRun(text: string, i: nat, isObject: bool, s: State)
    requires At(text, i, Open(isObject)) && Calm(s)
    ensures Run(text, i, i + 1, s) == Inside(s, i)
  {
    assert text[i + 0] == Open(isObject)[0];
    RunOne(text, i, s);
  }

  /** From an opening bracket to just before the closing one, and over it. */
  lemma BracketRun(text: string, i: nat, isObject: bool, p: string, s: State)
    requires Quiet(p) && At(text, i, Open(isObject) + (p + Close(isObject))) && Calm(s)
    ensures var end := i + 1 + |p|;
            && Run(text, i, end, s) == Inside(s, i)
            && Run(text, i, end + 1, s) == Step(text, end, Inside(s, i))
            && text[end] == Close(isObject)[0]
  {
    AtSplit3(text, i, Open(isObject), p, Close(isObject));
    OpenRun(text, i, isObject, s);
    assert Leaves(text, i + 1, p, Inside(s, i));
    assert text[i + 1 + |p| + 0] == Close(isObject)[0];
    ThreeRuns(text, i, i + 1 + |p|, s, Inside(s, i));
  }

  lemma ThreeRuns(text: string, i: nat, end: nat, s: State, inside: State)
    requires i + 1 <= end < |text| && Run(text, i, i + 1, s) == inside && Run(text, i + 1, end, inside) == inside
    ensures Run(text, i, end, s) == inside && Run(text, i, end + 1, s) == Step(text, end, inside)
  {
    RunSplit(text, i, i + 1, end, s);
    RunSplit(text, i, end, end + 1, s);
    RunOne(text, end, inside);
  }

  // ------------------------------------------------------------- every value is quiet

  lemma NameQuiet(name: Option<Name>, isObject: bool)
    requires ValidName(name, isObject)
    ensures Quiet(PrintName(name))
  {
    if name.Some? {
      QuotedQuiet(name.value.chars);
      InertQuiet(name.value.mid);
      InertQuiet(":" + name.value.post);
      QuietConcat(name.value.mid, ":" + name.value.post);
      QuietConcat(Quoted(name.value.chars), name.value.mid + (":" + name.value.post));
    } else {
      InertQuiet("");
    }
  }

  lemma {:induction false} ValueQuiet(v: Value)
    requires ValidValue(v)
    ensures Quiet(Print(v))
    decreases v, 1
  {
    match v
    case Scalar(text) => InertQuiet(text);
    case Text(chars) => QuotedQuiet(chars);
    case Container(isObject, gap, entries) =>
      ContentsQuiet(v);
      BracketQuiet(isObject, gap + PrintEntries(entries));
      ContainerText(v);
  }

  lemma ContainerText(v: Value)
    requires v.Container?
    ensures Print(v) == Open(v.isObject) + ((v.gap + PrintEntries(v.entries)) + Close(v.isObject))
  {
    assert v.gap + (PrintEntries(v.entries) + Close(v.isObject))
        == (v.gap + PrintEntries(v.entries)) + Close(v.isObject);
  }

  lemma {:induction false} ContentsQuiet(v: Value)
    requires v.Container? && ValidValue(v)
    ensures Quiet(v.gap + PrintEntries(v.entries))
    decreases v, 0
  {
    InertQuiet(v.gap);
    EntriesQuiet(v.entries, v.isObject);
    QuietConcat(v.gap, PrintEntries(v.entries));
  }

  lemma {:induction false} EntriesQuiet(es: seq<Entry>, isObject: bool)
    requires ValidEntries(es, isObject)
    ensures Quiet(PrintEntries(es))
    decreases es, 0
  {
    if es == [] {
      InertQuiet("");
    } else {
      var e := es[0];
      InertQuiet(e.before);
      NameQuiet(e.name, isObject);
      QuietConcat(e.before, PrintName(e.name));
      ValueQuiet(e.value);
      InertQuiet(Tail(es));
      EntriesQuiet(es[1..], isObject);
      QuietConcat(Tail(es), PrintEntries(es[1..]));
      QuietConcat(Print(e.value), Tail(es) + PrintEntries(es[1..]));
      QuietConcat(Lead(e), Print(e.value) + (Tail(es) + PrintEntries(es[1..])));
    }
  }

  // -------------------------------------------------------------------- the document

  /** An array of objects and arrays, the space around it, and whatever the stream adds. */
  datatype Document = Document(lead: string, gap: string, entries: seq<Entry>, trail: string)

  predicate ValidDocument(d: Document) {
    Blank(d.lead) && Blank(d.gap) && ElementList(d.entries)
  }

  function PrintDocument(d: Document): string {
    d.lead + ("[" + (d.gap + (PrintEntries(d.entries) + ("]" + d.trail))))
  }

  /** Where the printed entries begin. */
  function Body(d: Document): nat {
    |d.lead| + 1 + |d.gap|
  }

  /** Where they end. */
  function End(d: Document): nat {
    Body(d) + |PrintEntries(d.entries)|
  }

  /** The parts of a printed document stand where they belong. */
  predicate Laid(text: string, d: Document) {
    && At(text, 0, d.lead) && At(text, |d.lead|, "[") && At(text, |d.lead| + 1, d.gap)
    && At(text, Body(d), PrintEntries(d.entries)) && At(text, End(d), "]" + d.trail)
  }

  lemma AtStart(a: string, b: string, c: string, d: string, e: string)
    ensures var text := a + (b + (c + (d + e)));
            && At(text, 0, a) && At(text, |a|, b) && At(text, |a| + |b|, c)
            && At(text, |a| + |b| + |c|, d) && At(text, |a| + |b| + |c| + |d|, e)
  {
    var text := a + (b + (c + (d + e)));
    assert At(text, 0, text);
    AtSplit(text, 0, a, b + (c + (d + e)));
    AtSplit4(text, |a|, b, c, d, e);
  }

  lemma DocumentLaid(d: Document)
    ensures Laid(PrintDocument(d), d)
  {
    AtStart(d.lead, "[", d.gap, PrintEntries(d.entries), "]" + d.trail);
  }

  lemma LaidBracket(text: string, d: Document)
    requires Laid(text, d) && Blank(d.lead)
    ensures FirstBracket(text, 0) == Some(|d.lead|)
  {
    assert text[|d.lead| + 0] == "["[0];
    forall k | 0 <= k < |d.lead|
      ensures text[k] != '['
    {
      assert text[0 + k] == d.lead[k];
    }
  }
}
