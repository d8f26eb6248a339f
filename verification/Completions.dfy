/** Reading a submission's outcome off the completion stream. */
module Completions {
  import opened Results

  datatype Status = Status(code: Option<int>, message: Option<string>)

  datatype Completion = Completion(commandId: Option<string>, submissionId: Option<string>,
                                   updateId: Option<string>, status: Option<Status>)

  /** A rejection's text: the status message, or failing that its code. */
  datatype Reason = Message(text: string) | Code(code: Option<int>)

  datatype Found = Settled(updateId: string) | Rejected(reason: Reason) | Absent

  function Why(s: Status): Reason {
    if s.message.Some? && s.message.value != "" then Message(s.message.value) else Code(s.code)
  }

  /** What one completion says of its submission: only a status code of exactly zero, or no
      status at all, is a commit. */
  function Reading(c: Completion): Found {
    if c.status.None? || c.status.value.code == Some(0) then
      Settled(if c.updateId.Some? then c.updateId.value else "")
    else Rejected(Why(c.status.value))
  }

  predicate IsFor(c: Completion, submission: string) {
    c.submissionId == Some(submission)
  }

  /** The first completion of the submission decides. */
  function Outcome(stream: seq<Completion>, submission: string): Found {
    if stream == [] then Absent
    else if IsFor(stream[0], submission) then Reading(stream[0])
    else Outcome(stream[1..], submission)
  }

  /** One pass over what a read delivered. */
  method FindCompletion(seen: seq<Completion>, submission: string) returns (found: Found)
    ensures found == Outcome(seen, submission)
  {
    for i := 0 to |seen|
      invariant Outcome(seen, submission) == Outcome(seen[i..], submission)
    {
      var v := seen[i];
      assert seen[i..][0] == v && seen[i..][1..] == seen[i + 1..];
      if v.submissionId != Some(submission) {
        continue;
      }
      if v.status.None? || v.status.value.code == Some(0) {
        return Settled(if v.updateId.Some? then v.updateId.value else "");
      }
      return Rejected(Why(v.status.value));
    }
    found := Absent;
  }

  // ------------------------------------------------------------ an append-only stream

  /** A read delivers some beginning of the stream; a failed one delivers nothing. */
  predicate Delivers(seen: seq<Completion>, stream: seq<Completion>) {
    seen <= stream
  }

  predicate Mentions(stream: seq<Completion>, submission: string) {
    exists i :: 0 <= i < |stream| && IsFor(stream[i], submission)
  }

  /** What the stream has said once it goes on saying however it grows. */
  lemma {:induction false} OutcomeIsStable(seen: seq<Completion>, stream: seq<Completion>, submission: string)
    requires Delivers(seen, stream) && Outcome(seen, submission) != Absent
    ensures Outcome(stream, submission) == Outcome(seen, submission)
  {
    assert seen[0] == stream[0];
    if !IsFor(seen[0], submission) {
      OutcomeIsStable(seen[1..], stream[1..], submission);
    }
  }

  /** Two reads at any two times, each failed or partial, never contradict one another. */
  lemma ReadsAgree(first: seq<Completion>, second: seq<Completion>, stream: seq<Completion>, submission: string)
    requires Delivers(first, stream) && Delivers(second, stream)
    ensures Outcome(first, submission) == Outcome(second, submission)
            || Outcome(first, submission) == Absent || Outcome(second, submission) == Absent
  {
    if Outcome(first, submission) != Absent && Outcome(second, submission) != Absent {
      OutcomeIsStable(first, stream, submission);
      OutcomeIsStable(second, stream, submission);
    }
  }

  /** Absent means exactly that the read holds no completion of the submission. */
  lemma {:induction false} AbsentMeansUnmentioned(seen: seq<Completion>, submission: string)
    ensures Outcome(seen, submission) == Absent <==> !Mentions(seen, submission)
  {
    if seen != [] {
      if IsFor(seen[0], submission) {
        assert Mentions(seen, submission);
      } else {
        AbsentMeansUnmentioned(seen[1..], submission);
        assert forall i | 0 < i < |seen| :: seen[i] == seen[1..][i - 1];
        assert forall i | 0 <= i < |seen| - 1 :: seen[1..][i] == seen[i + 1];
      }
    }
  }

  /** A rejection or a commit is always the word of an actual completion. */
  lemma {:induction false} OutcomeHasWitness(stream: seq<Completion>, submission: string) returns (i: nat)
    requires Outcome(stream, submission) != Absent
    ensures i < |stream| && IsFor(stream[i], submission) && Outcome(stream, submission) == Reading(stream[i])
    ensures forall j :: 0 <= j < i ==> !IsFor(stream[j], submission)
  {
    if IsFor(stream[0], submission) {
      i := 0;
    } else {
      i := OutcomeHasWitness(stream[1..], submission);
      i := i + 1;
      assert forall j | 0 < j < |stream| :: stream[j] == stream[1..][j - 1];
    }
  }

  // ------------------------------------------------------------------- with patience

  const POLLS: nat := 20

  /** The first poll that finds a completion, or Absent when all of them ran out. */
  function Polled(looks: seq<seq<Completion>>, submission: string): Found {
    if looks == [] then Absent
    else
      var found := Outcome(looks[0], submission);
      if found != Absent then found else Polled(looks[1..], submission)
  }

  method PollCompletion(looks: seq<seq<Completion>>, submission: string) returns (found: Found)
    requires |looks| == POLLS
    ensures found == Polled(looks, submission)
  {
    for attempt := 0 to POLLS
      invariant Polled(looks, submission) == Polled(looks[attempt..], submission)
    {
      assert looks[attempt..][0] == looks[attempt] && looks[attempt..][1..] == looks[attempt + 1..];
      found := FindCompletion(looks[attempt], submission);
      if found != Absent {
        return;
      }
    }
    found := Absent;
  }

  /** Polling reports what the stream says or that it has not been told. */
  lemma {:induction false} PollTellsTheStream(looks: seq<seq<Completion>>, stream: seq<Completion>, submission: string)
    requires forall r <- looks :: Delivers(r, stream)
    ensures Polled(looks, submission) == Absent || Polled(looks, submission) == Outcome(stream, submission)
  {
    if looks != [] {
      assert looks[0] in looks;
      if Outcome(looks[0], submission) != Absent {
        OutcomeIsStable(looks[0], stream, submission);
      } else {
        PollTellsTheStream(looks[1..], stream, submission);
      }
    }
  }

  // ------------------------------------------------ the other reader of the same stream

  /** The command reader's view: a rejection needs a status code that is there and not zero. */
  function Rejection(c: Completion): Option<Reason> {
    if c.status.Some? && c.status.value.code.Some? && c.status.value.code != Some(0)
    then Some(Why(c.status.value)) else None
  }

  function ForCommand(stream: seq<Completion>, command: string): seq<Completion> {
    if stream == [] then []
    else (if stream[0].commandId == Some(command) then [stream[0]] else []) + ForCommand(stream[1..], command)
  }

  method FindCommandCompletions(seen: seq<Completion>, command: string) returns (out: seq<Completion>)
    ensures out == ForCommand(seen, command)
  {
    out := [];
    for i := 0 to |seen|
      invariant out + ForCommand(seen[i..], command) == ForCommand(seen, command)
    {
      assert seen[i..][0] == seen[i] && seen[i..][1..] == seen[i + 1..];
      if seen[i].commandId != Some(command) {
        continue;
      }
      out := out + [seen[i]];
    }
  }

  /** A command's completions are only ever added to: a partial read shows the first of them. */
  lemma {:induction false} CommandReadsGrow(seen: seq<Completion>, stream: seq<Completion>, command: string)
    requires Delivers(seen, stream)
    ensures ForCommand(seen, command) <= ForCommand(stream, command)
  {
    if seen != [] {
      assert seen[0] == stream[0] && seen[1..] <= stream[1..];
      CommandReadsGrow(seen[1..], stream[1..], command);
    }
  }

  /** The two readers agree on whether a completion is a rejection exactly when it does not
      carry a status that lacks a code. */
  lemma ReadersAgree(c: Completion)
    ensures (Reading(c).Rejected? <==> Rejection(c).Some?) <==> !(c.status.Some? && c.status.value.code.None?)
    ensures Rejection(c).Some? ==> Reading(c) == Rejected(Rejection(c).value)
  {}
}
