/** The scanner that takes the whole elements out of a JSON array cut short by a dead stream. */
module JsonScan {
  import opened Results

  /** The scanner's state; `stopped` is the break at the array's own closing bracket. */
  datatype State = State(depth: nat, start: Option<nat>, inString: bool, escaped: bool, stopped: bool, out: seq<string>)

  const FRESH := State(0, None, false, false, false, [])

  /** One character, at position `i`. */
  function Step(text: string, i: nat, s: State): State
    requires i < |text|
  {
    var ch := text[i];
    if s.stopped then s
    else if s.inString then
      if s.escaped then s.(escaped := false)
      else if ch == '\\' then s.(escaped := true)
      else if ch == '"' then s.(inString := false)
      else s
    else if ch == '"' then
      s.(inString := true, start := if s.depth == 0 && s.start.None? then Some(i) else s.start)
    else if ch == '{' || ch == '[' then
      s.(start := if s.depth == 0 then Some(i) else s.start, depth := s.depth + 1)
    else if ch == '}' || ch == ']' then
      if s.depth == 0 then s.(stopped := true)
      else if s.depth == 1 && s.start.Some? then
        s.(depth := 0, start := None, out := s.out + [Slice(text, s.start.value, i + 1)])
      else s.(depth := s.depth - 1)
    else s
  }

  /** JavaScript's slice for a start that may lie past the end. */
  function Slice(text: string, from: nat, to: nat): string
    requires to <= |text|
  {
    if from <= to then text[from..to] else ""
  }

  function Run(text: string, i: nat, j: nat, s: State): State
    requires j <= |text|
    decreases j - i
  {
    if i >= j then s else Run(text, i + 1, j, Step(text, i, s))
  }

  /** Where the first opening square bracket stands. */
  function FirstBracket(text: string, i: nat): (r: Option<nat>)
    requires i <= |text|
    ensures r.Some? ==> i <= r.value < |text| && text[r.value] == '[' && forall k :: i <= k < r.value ==> text[k] != '['
    ensures r.None? ==> forall k :: i <= k < |text| ==> text[k] != '['
    decreases |text| - i
  {
    if i == |text| then None else if text[i] == '[' then Some(i) else FirstBracket(text, i + 1)
  }

  function Elements(text: string): seq<string> {
    var b := FirstBracket(text, 0);
    if b.None? then [] else Run(text, b.value + 1, |text|, FRESH).out
  }

  method CompleteArrayElements(text: string) returns (out: seq<string>)
    ensures out == Elements(text)
  {
    out := [];
    var b := FirstBracket(text, 0);
    if b.None? {
      return;
    }
    var depth: nat, start: Option<nat>, inString, escaped := 0, None, false, false;
    var i := b.value + 1;
    while i < |text|
      invariant i <= |text|
      invariant Run(text, b.value + 1, |text|, FRESH)
             == Run(text, i, |text|, State(depth, start, inString, escaped, false, out))
      decreases |text| - i
    {
      var ch := text[i];
      if inString {
        if escaped {
          escaped := false;
        } else if ch == '\\' {
          escaped := true;
        } else if ch == '"' {
          inString := false;
        }
      } else if ch == '"' {
        inString := true;
        if depth == 0 && start.None? {
          start := Some(i);
        }
      } else if ch == '{' || ch == '[' {
        if depth == 0 {
          start := Some(i);
        }
        depth := depth + 1;
      } else if ch == '}' || ch == ']' {
        if depth == 0 {
          RunStopped(text, i + 1, |text|, State(depth, start, inString, escaped, true, out));
          break;
        }
        depth := depth - 1;
        if depth == 0 && start.Some? {
          out := out + [Slice(text, start.value, i + 1)];
          start := None;
        }
      }
      i := i + 1;
    }
  }

  lemma {:induction false} RunStopped(text: string, i: nat, j: nat, s: State)
    requires j <= |text| && s.stopped
    ensures Run(text, i, j, s) == s
    decreases j - i
  {
    if i < j {
      RunStopped(text, i + 1, j, Step(text, i, s));
    }
  }

  // ------------------------------------------------------- any text, cut anywhere

  lemma {:induction false} RunSplit(text: string, i: nat, j: nat, k: nat, s: State)
    requires i <= j <= k <= |text|
    ensures Run(text, i, k, s) == Run(text, j, k, Run(text, i, j, s))
    decreases j - i
  {
    if i < j {
      RunSplit(text, i + 1, j, k, Step(text, i, s));
    }
  }

  lemma Chain(text: string, i: nat, j: nat, k: nat, s: State, t: State)
    requires i <= j <= k <= |text| && Run(text, i, j, s) == t
    ensures Run(text, i, k, s) == Run(text, j, k, t)
  {
    RunSplit(text, i, j, k, s);
  }

  /** Elements are only ever added at the end. */
  lemma {:induction false} OutGrows(text: string, i: nat, j: nat, s: State)
    requires j <= |text|
    ensures s.out <= Run(text, i, j, s).out
    decreases j - i
  {
    if i < j {
      OutGrows(text, i + 1, j, Step(text, i, s));
    }
  }

  /** A run over a beginning of the text does not see the rest. */
  lemma {:induction false} RunOnPrefix(part: string, text: string, i: nat, j: nat, s: State)
    requires part <= text && j <= |part|
    requires s.start.Some? ==> s.start.value <= i
    ensures Run(part, i, j, s) == Run(text, i, j, s)
    decreases j - i
  {
    if i < j {
      assert part[i] == text[i];
      assert forall a, b | 0 <= a <= b <= |part| :: part[a..b] == text[a..b];
      RunOnPrefix(part, text, i + 1, j, Step(part, i, s));
    }
  }

  lemma BracketOnPrefix(part: string, text: string)
    requires part <= text
    ensures FirstBracket(part, 0).Some? ==> FirstBracket(text, 0) == FirstBracket(part, 0)
  {
    var p, t := FirstBracket(part, 0), FirstBracket(text, 0);
    if p.Some? {
      assert forall k | 0 <= k < |part| :: part[k] == text[k];
    }
  }

  /** On any input whatever, cutting the text cuts the list of elements and changes none. */
  lemma CutOnlyShortens(part: string, text: string)
    requires part <= text
    ensures Elements(part) <= Elements(text)
  {
    BracketOnPrefix(part, text);
    var b := FirstBracket(part, 0);
    if b.Some? {
      RunOnPrefix(part, text, b.value + 1, |part|, FRESH);
      RunSplit(text, b.value + 1, |part|, |text|, FRESH);
      OutGrows(text, |part|, |text|, Run(text, b.value + 1, |part|, FRESH));
    }
  }
}
