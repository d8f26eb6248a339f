/** The scanner on a JSON array of objects and arrays, cut anywhere. */
module JsonCut {
  import opened Results
  import opened JsonScan
  import opened JsonText

  // ------------------------------------------------------------------ an element whole

  /** At the top level a container is taken whole at its last character, and not before. */
  lemma ElementIsTaken(text: string, i: nat, v: Value, s: State)
    requires v.Container? && At(text, i, Print(v)) && ValidValue(v) && Calm(s) && s.depth == 0
    ensures Run(text, i, i + |Print(v)| - 1, s).out == s.out
    ensures Run(text, i, i + |Print(v)|, s) == s.(start := None, out := s.out + [Print(v)])
  {
    ContentsQuiet(v);
    ContainerText(v);
    BracketRun(text, i, v.isObject, v.gap + PrintEntries(v.entries), s);
    assert text[i..i + |Print(v)|] == Print(v);
  }

  /** A cut inside a stretch that adds nothing adds nothing. */
  lemma Sandwich(text: string, i: nat, k: nat, j: nat, s: State)
    requires i <= k <= j <= |text| && Run(text, i, j, s).out == s.out
    ensures Run(text, i, k, s).out == s.out
  {
    OutGrows(text, i, k, s);
    RunSplit(text, i, k, j, s);
    OutGrows(text, k, j, Run(text, i, k, s));
  }

  // ------------------------------------------------------------------- the array cut

  /** The elements that end within the first `room` characters of the printed entries. */
  function Whole(es: seq<Entry>, room: int): seq<string> {
    if es == [] || room < |Lead(es[0])| + |Print(es[0].value)| then []
    else [Print(es[0].value)] + Whole(es[1..], room - Width(es))
  }

  function Width(es: seq<Entry>): nat
    requires es != []
  {
    |Lead(es[0])| + |Print(es[0].value)| + |Tail(es)|
  }

  /** Where element `n` ends. */
  function EndOf(es: seq<Entry>, n: nat): nat
    requires n < |es|
  {
    if n == 0 then |Lead(es[0])| + |Print(es[0].value)| else Width(es) + EndOf(es[1..], n - 1)
  }

  /** `Whole` keeps exactly the elements that ended by the cut, each with its exact text. */
  lemma {:induction false} WholeIsExact(es: seq<Entry>, room: int, n: nat)
    requires n < |es|
    ensures n < |Whole(es, room)| <==> EndOf(es, n) <= room
    ensures |Whole(es, room)| <= |es|
    ensures n < |Whole(es, room)| ==> Whole(es, room)[n] == Print(es[n].value)
  {
    if room < |Lead(es[0])| + |Print(es[0].value)| {
      FirstEndsFirst(es, n);
    } else if n > 0 {
      WholeIsExact(es[1..], room - Width(es), n - 1);
    } else if |es| > 1 {
      WholeIsExact(es[1..], room - Width(es), 0);
    }
  }

  lemma {:induction false} FirstEndsFirst(es: seq<Entry>, n: nat)
    requires n < |es|
    ensures EndOf(es, 0) <= EndOf(es, n)
  {
    if n > 0 {
      assert EndOf(es, n) == Width(es) + EndOf(es[1..], n - 1);
    }
  }

  /** The first element of the entries is taken at its end. */
  lemma FirstIsTaken(text: string, i: nat, es: seq<Entry>, s: State)
    requires es != [] && At(text, i, PrintEntries(es)) && ElementList(es)
    requires Calm(s) && s.depth == 0
    ensures var b := i + EndOf(es, 0);
            && i < b <= |text|
            && Run(text, i, b - 1, s).out == s.out
            && Run(text, i, b, s) == WithFirst(es, s)
  {
    EntriesText(es);
    AtPieces(text, i, PrintEntries(es), Lead(es[0]), Print(es[0].value), Tail(es), PrintEntries(es[1..]));
    FirstElement(es);
    var a := i + |Lead(es[0])|;
    var b := a + |Print(es[0].value)|;
    InertIsQuiet(text, i, Lead(es[0]), s);
    ElementIsTaken(text, a, es[0].value, s);
    Chain(text, i, a, b - 1, s, s);
    Chain(text, i, a, b, s, s);
  }

  lemma WholeNone(es: seq<Entry>, room: int, out: seq<string>)
    requires es != [] && room < EndOf(es, 0)
    ensures out + Whole(es, room) == out
  {}

  lemma WholeCons(es: seq<Entry>, room: int)
    requires es != [] && room >= EndOf(es, 0)
    ensures Whole(es, room) == [Print(es[0].value)] + Whole(es[1..], room - Width(es))
  {}

  /** What the scanner holds once the first entry's value is taken. */
  function WithFirst(es: seq<Entry>, s: State): State
    requires es != []
  {
    s.(start := None, out := s.out + [Print(es[0].value)])
  }

  /** Scanning the entries of the array up to a cut adds the elements whole by then. */
  lemma {:induction false} CutEntries(text: string, i: nat, es: seq<Entry>, k: nat, s: State)
    requires At(text, i, PrintEntries(es)) && ElementList(es)
    requires Calm(s) && s.depth == 0 && i <= k <= i + |PrintEntries(es)|
    ensures Run(text, i, k, s).out == s.out + Whole(es, k - i)
    decreases es, 2
  {
    if es != [] {
      if k < i + EndOf(es, 0) {
        FirstIsTaken(text, i, es, s);
        Sandwich(text, i, k, i + EndOf(es, 0) - 1, s);
        WholeNone(es, k - i, s.out);
      } else {
        CutLater(text, i, es, k, s);
      }
    }
  }

  lemma {:induction false} CutLater(text: string, i: nat, es: seq<Entry>, k: nat, s: State)
    requires es != [] && At(text, i, PrintEntries(es)) && ElementList(es)
    requires Calm(s) && s.depth == 0 && i + EndOf(es, 0) <= k <= i + |PrintEntries(es)|
    ensures Run(text, i, k, s).out == s.out + Whole(es, k - i)
    decreases es, 1
  {
    var b := i + EndOf(es, 0);
    FirstIsTaken(text, i, es, s);
    TailSplit(text, i, es);
    CutAfterElement(text, b, es, k, WithFirst(es, s));
    Joined(text, i, b, k, s, WithFirst(es, s), Print(es[0].value), Whole(es[1..], k - i - Width(es)));
    WholeCons(es, k - i);
  }

  lemma Joined(text: string, i: nat, b: nat, k: nat, s: State, t: State, first: string, rest: seq<string>)
    requires i <= b <= k <= |text| && Run(text, i, b, s) == t && t.out == s.out + [first]
    requires Run(text, b, k, t).out == t.out + rest
    ensures Run(text, i, k, s).out == s.out + ([first] + rest)
  {
    Chain(text, i, b, k, s, t);
  }

  lemma TailSplit(text: string, i: nat, es: seq<Entry>)
    requires es != [] && At(text, i, PrintEntries(es))
    ensures var b := i + EndOf(es, 0);
            && At(text, b, Tail(es)) && At(text, b + |Tail(es)|, PrintEntries(es[1..]))
            && |PrintEntries(es)| == EndOf(es, 0) + |Tail(es)| + |PrintEntries(es[1..])|
            && Width(es) == EndOf(es, 0) + |Tail(es)|
  {
    EntriesText(es);
    AtPieces(text, i, PrintEntries(es), Lead(es[0]), Print(es[0].value), Tail(es), PrintEntries(es[1..]));
  }

  lemma {:induction false} CutAfterElement(text: string, b: nat, es: seq<Entry>, k: nat, s: State)
    requires es != [] && ElementList(es)
    requires At(text, b, Tail(es)) && At(text, b + |Tail(es)|, PrintEntries(es[1..]))
    requires Calm(s) && s.depth == 0 && b <= k <= b + |Tail(es)| + |PrintEntries(es[1..])|
    ensures Run(text, b, k, s).out == s.out + Whole(es[1..], k - b - |Tail(es)|)
    decreases es, 0
  {
    var c := b + |Tail(es)|;
    FirstElement(es);
    InertIsQuiet(text, b, Tail(es), s);
    if k < c {
      Sandwich(text, b, k, c, s);
    } else {
      Chain(text, b, c, k, s, s);
      CutEntries(text, c, es[1..], k, s);
    }
  }

  /** After the last entry the scanner is back where it started, outside everything. */
  lemma {:induction false} EntriesEndCalm(text: string, i: nat, es: seq<Entry>, s: State)
    requires At(text, i, PrintEntries(es)) && ElementList(es) && Calm(s) && s.depth == 0
    ensures var r := Run(text, i, i + |PrintEntries(es)|, s); Calm(r) && r.depth == 0
    decreases es
  {
    if es != [] {
      FirstIsTaken(text, i, es, s);
      TailSplit(text, i, es);
      FirstElement(es);
      var b := i + EndOf(es, 0);
      var taken := WithFirst(es, s);
      InertIsQuiet(text, b, Tail(es), taken);
      EntriesEndCalm(text, b + |Tail(es)|, es[1..], taken);
      ChainTwo(text, i, b, b + |Tail(es)|, i + |PrintEntries(es)|, s, taken);
    }
  }

  lemma ChainTwo(text: string, i: nat, b: nat, c: nat, end: nat, s: State, t: State)
    requires i <= b <= c <= end <= |text| && Run(text, i, b, s) == t && Run(text, b, c, t) == t
    ensures Run(text, i, end, s) == Run(text, c, end, t)
  {
    Chain(text, i, b, end, s, t);
    Chain(text, b, c, end, t, t);
  }

  // ---------------------------------------------------------------- a document, cut

  /** What a run from just inside the bracket has taken by position `k`. */
  lemma RunToCut(text: string, d: Document, k: nat)
    requires Laid(text, d) && ValidDocument(d) && |d.lead| < k <= |text|
    ensures Run(text, |d.lead| + 1, k, FRESH).out == Whole(d.entries, k - Body(d))
  {
    var from, body := |d.lead| + 1, Body(d);
    InertIsQuiet(text, from, d.gap, FRESH);
    if k < body {
      Sandwich(text, from, k, body, FRESH);
    } else {
      Chain(text, from, body, k, FRESH, FRESH);
      if k <= End(d) {
        CutEntries(text, body, d.entries, k, FRESH);
      } else {
        PastClose(text, body, d.entries, k, "]" + d.trail);
      }
    }
  }

  /** The array's own closing bracket ends the run: what follows it adds nothing. */
  lemma PastClose(text: string, body: nat, es: seq<Entry>, k: nat, rest: string)
    requires At(text, body, PrintEntries(es)) && ElementList(es)
    requires At(text, body + |PrintEntries(es)|, rest) && rest != "" && rest[0] == ']'
    requires body + |PrintEntries(es)| < k <= |text|
    ensures Run(text, body, k, FRESH).out == Whole(es, k - body)
  {
    var end := body + |PrintEntries(es)|;
    AllTaken(text, body, es);
    EntriesEndCalm(text, body, es, FRESH);
    StopsAtBracket(text, body, end, k, rest);
    WholeIsAll(es, k - body);
  }

  lemma AllTaken(text: string, body: nat, es: seq<Entry>)
    requires At(text, body, PrintEntries(es)) && ElementList(es)
    ensures Run(text, body, body + |PrintEntries(es)|, FRESH).out == Whole(es, |PrintEntries(es)|)
  {
    CutEntries(text, body, es, body + |PrintEntries(es)|, FRESH);
    assert FRESH.out + Whole(es, |PrintEntries(es)|) == Whole(es, |PrintEntries(es)|);
  }

  lemma StopsAtBracket(text: string, body: nat, end: nat, k: nat, rest: string)
    requires body <= end < k <= |text| && At(text, end, rest) && rest != "" && rest[0] == ']'
    requires var r := Run(text, body, end, FRESH); Calm(r) && r.depth == 0
    ensures Run(text, body, k, FRESH).out == Run(text, body, end, FRESH).out
  {
    var r := Run(text, body, end, FRESH);
    Chain(text, body, end, k, FRESH, r);
    assert text[end + 0] == rest[0];
    RunStopped(text, end + 1, k, Step(text, end, r));
  }

  lemma {:induction false} WholeIsAll(es: seq<Entry>, room: int)
    requires |PrintEntries(es)| <= room
    ensures Whole(es, room) == Whole(es, |PrintEntries(es)|)
  {
    if es != [] {
      EntriesLength(es);
      WholeIsAll(es[1..], room - Width(es));
    }
  }

  lemma EntriesLength(es: seq<Entry>)
    requires es != []
    ensures |PrintEntries(es)| == Width(es) + |PrintEntries(es[1..])|
  {}

  lemma CutLaid(text: string, d: Document, k: nat)
    requires Laid(text, d) && ValidDocument(d) && k <= |text|
    ensures Elements(text[..k]) == Whole(d.entries, k - Body(d))
  {
    LaidBracket(text, d);
    if k <= |d.lead| {
      assert forall j | 0 <= j < k :: text[..k][j] == text[j];
    } else {
      BracketInPrefix(text, k, |d.lead|);
      RunOnPrefix(text[..k], text, |d.lead| + 1, k, FRESH);
      RunToCut(text, d, k);
    }
  }

  lemma BracketInPrefix(text: string, k: nat, b: nat)
    requires FirstBracket(text, 0) == Some(b) && b < k <= |text|
    ensures FirstBracket(text[..k], 0) == Some(b)
  {
    assert forall j | 0 <= j < k :: text[..k][j] == text[j];
    assert text[..k][b] == '[';
  }

  /** For every array of objects and arrays, printed with any space and any escapes and cut at
      any character, the scanner returns the texts of the elements that end by the cut. */
  lemma CutAnywhere(d: Document, k: nat)
    requires ValidDocument(d) && k <= |PrintDocument(d)|
    ensures Elements(PrintDocument(d)[..k]) == Whole(d.entries, k - Body(d))
  {
    DocumentLaid(d);
    CutLaid(PrintDocument(d), d, k);
  }
}
