/** How the facilitator classifies a submission it has handed over: on the live path, after
    the fact, and by the shared check that the funds moved. */
module TransferOutcome {
  import opened Results
  import opened Completions

  datatype LedgerEvent =
    | Archived(templateId: string)
    | Created(templateId: string)
    | Exercised(choice: string, tag: Option<string>)

  /** Whether the funds moved, whether that was only assumed, and what is reported beside it. */
  datatype Verdict = Verdict(transferred: bool, inconclusive: bool, tagUnreadable: bool, signalsDisagree: bool)

  predicate EndsWith(s: string, suffix: string) {
    |s| >= |suffix| && s[|s| - |suffix|..] == suffix
  }

  const AMULET := ":Splice.Amulet:Amulet"
  const INSTRUCTION := ":TransferInstruction"
  const TRANSFER := "TransferFactory_Transfer"
  const COMPLETED := "TransferInstructionResult_Completed"

  predicate ArchivesAmulet(events: seq<LedgerEvent>) {
    exists i :: 0 <= i < |events| && events[i].Archived? && EndsWith(events[i].templateId, AMULET)
  }

  predicate LeavesInstruction(events: seq<LedgerEvent>) {
    exists i :: 0 <= i < |events| && events[i].Created? && EndsWith(events[i].templateId, INSTRUCTION)
  }

  /** The first transfer exercise's own result: completed, not completed, or unreadable. */
  function ResultTag(events: seq<LedgerEvent>): Option<bool> {
    if events == [] then None
    else if events[0].Exercised? && events[0].choice == TRANSFER then
      (match events[0].tag case None => None case Some(t) => Some(t == COMPLETED))
    else ResultTag(events[1..])
  }

  method TransferCompletedFromResult(events: seq<LedgerEvent>) returns (r: Option<bool>)
    ensures r == ResultTag(events)
  {
    for i := 0 to |events|
      invariant ResultTag(events) == ResultTag(events[i..])
    {
      assert events[i..][0] == events[i] && events[i..][1..] == events[i + 1..];
      if !events[i].Exercised? || events[i].choice != TRANSFER {
        continue;
      }
      return match events[i].tag case None => None case Some(t) => Some(t == COMPLETED);
    }
    r := None;
  }

  /** A registry token trusts its result tag, and without one the absence of a pending
      instruction; Canton Coin needs the archived amulet as well. */
  predicate FundsMoved(registry: bool, events: seq<LedgerEvent>) {
    if !registry then ArchivesAmulet(events) && !LeavesInstruction(events)
    else if ResultTag(events).Some? then ResultTag(events).value
    else !LeavesInstruction(events)
  }

  function Judged(registry: bool, events: seq<LedgerEvent>): Verdict {
    Verdict(FundsMoved(registry, events), false, registry && ResultTag(events).None?,
            registry && ResultTag(events).Some? && ResultTag(events).value != !LeavesInstruction(events))
  }

  /** One look at the transaction: its events, or nothing when the read failed. */
  type Look = Option<seq<LedgerEvent>>

  predicate Shows(look: Look) {
    look.Some? && look.value != []
  }

  /** The first look that shows anything decides; when none does, the commit is trusted. */
  function Confirmed(looks: seq<Look>, registry: bool): Verdict {
    if looks == [] then Verdict(true, true, false, false)
    else if Shows(looks[0]) then Judged(registry, looks[0].value)
    else Confirmed(looks[1..], registry)
  }

  method ConfirmTransferred(looks: seq<Look>, registry: bool) returns (v: Verdict)
    ensures v == Confirmed(looks, registry)
  {
    for i := 0 to |looks|
      invariant Confirmed(looks, registry) == Confirmed(looks[i..], registry)
    {
      assert looks[i..][0] == looks[i] && looks[i..][1..] == looks[i + 1..];
      var events := if looks[i].Some? then looks[i].value else [];
      var sawArchivedAmulet, sawPendingInstruction, sawAnyEvent := Scan(events);
      if sawAnyEvent {
        var completedByResult := TransferCompletedFromResult(events);
        var nameSaid := !sawPendingInstruction;
        var transferred :=
          if !registry then sawArchivedAmulet && !sawPendingInstruction
          else if completedByResult.Some? then completedByResult.value
          else nameSaid;
        return Verdict(transferred, false, registry && completedByResult.None?,
                       registry && completedByResult.Some? && completedByResult.value != nameSaid);
      }
    }
    v := Verdict(true, true, false, false);
  }

  method Scan(events: seq<LedgerEvent>)
    returns (sawArchivedAmulet: bool, sawPendingInstruction: bool, sawAnyEvent: bool)
    ensures sawArchivedAmulet == ArchivesAmulet(events)
    ensures sawPendingInstruction == LeavesInstruction(events)
    ensures sawAnyEvent == (events != [])
  {
    sawArchivedAmulet, sawPendingInstruction, sawAnyEvent := false, false, false;
    for i := 0 to |events|
      invariant sawArchivedAmulet == ArchivesAmulet(events[..i])
      invariant sawPendingInstruction == LeavesInstruction(events[..i])
      invariant sawAnyEvent == (i > 0)
    {
      ScanStep(events, i);
      sawAnyEvent := true;
      if events[i].Archived? && EndsWith(events[i].templateId, AMULET) {
        sawArchivedAmulet := true;
      }
      if events[i].Created? && EndsWith(events[i].templateId, INSTRUCTION) {
        sawPendingInstruction := true;
      }
    }
    assert events[..|events|] == events;
  }

  lemma ScanStep(events: seq<LedgerEvent>, i: nat)
    requires i < |events|
    ensures ArchivesAmulet(events[..i + 1])
       <==> ArchivesAmulet(events[..i]) || (events[i].Archived? && EndsWith(events[i].templateId, AMULET))
    ensures LeavesInstruction(events[..i + 1])
       <==> LeavesInstruction(events[..i]) || (events[i].Created? && EndsWith(events[i].templateId, INSTRUCTION))
  {
    var a, b := events[..i], events[..i + 1];
    assert b[i] == events[i] && forall j | 0 <= j < i :: b[j] == a[j];
  }

  /** Funds are reported as not moved only on the strength of events that were read, and the
      verdict is a guess exactly when no look showed any. */
  lemma {:induction false} NotMovedIsEvidence(looks: seq<Look>, registry: bool)
    ensures var v := Confirmed(looks, registry);
            && (v.inconclusive <==> forall i :: 0 <= i < |looks| ==> !Shows(looks[i]))
            && (v.inconclusive ==> v.transferred)
            && (!v.transferred ==>
                  exists i :: 0 <= i < |looks| && Shows(looks[i]) && !FundsMoved(registry, looks[i].value))
  {
    if looks != [] && !Shows(looks[0]) {
      NotMovedIsEvidence(looks[1..], registry);
      assert forall i | 0 < i < |looks| :: looks[i] == looks[1..][i - 1];
      assert forall i | 0 <= i < |looks| - 1 :: looks[1..][i] == looks[i + 1];
    }
  }

  // --------------------------------------------------------------------- the live path

  /** What the execute call answered: an error, or acceptance with or without an update id. */
  datatype Posted = PostFailed | Accepted(updateId: Option<string>)

  datatype Executed =
    | NotSent
    | PostError
    | Result(updateId: string, verdict: Verdict)
    | RejectedBy(reason: Reason)
    | OutcomeUnknown

  /** `configured`: a participant named with the offset is still one of ours. `polls` and
      `looks` are what the reads after the post deliver. */
  method Execute(configured: bool, posted: Posted, polls: seq<seq<Completion>>, submission: string,
                 looks: seq<Look>, registry: bool) returns (r: Executed)
    requires |polls| == POLLS
    ensures r == Executes(configured, posted, polls, submission, looks, registry)
  {
    if !configured {
      return NotSent;
    }
    if posted.PostFailed? {
      return PostError;
    }
    var updateId := if posted.updateId.Some? then posted.updateId.value else "";
    if updateId == "" {
      var found := PollCompletion(polls, submission);
      match found {
        case Rejected(why) => return RejectedBy(why);
        case Absent => return OutcomeUnknown;
        case Settled(u) => updateId := u;
      }
    }
    var v := ConfirmTransferred(looks, registry);
    r := Result(updateId, v);
  }

  function Executes(configured: bool, posted: Posted, polls: seq<seq<Completion>>, submission: string,
                    looks: seq<Look>, registry: bool): Executed {
    if !configured then NotSent
    else if posted.PostFailed? then PostError
    else if posted.updateId.Some? && posted.updateId.value != "" then
      Result(posted.updateId.value, Confirmed(looks, registry))
    else
      match Polled(polls, submission)
      case Absent => OutcomeUnknown
      case Rejected(why) => RejectedBy(why)
      case Settled(u) => Result(u, Confirmed(looks, registry))
  }

  // ------------------------------------------------------------------- after the fact

  datatype Resolution = Resolved(updateId: string, verdict: Verdict) | Refused(reason: Reason) | Unknown

  /** A read that failed is None. */
  function ResolveDispatched(configured: bool, read: Option<seq<Completion>>, submission: string,
                             looks: seq<Look>, registry: bool): Resolution {
    if !configured || read.None? then Unknown
    else
      match Outcome(read.value, submission)
      case Absent => Unknown
      case Rejected(why) => Refused(why)
      case Settled(u) => if u == "" then Unknown else Resolved(u, Confirmed(looks, registry))
  }

  predicate ReadsFrom(read: Option<seq<Completion>>, stream: seq<Completion>) {
    read.Some? ==> Delivers(read.value, stream)
  }

  /** Two resolves of one submission, at any times and with any reads, never contradict: if
      both answer, both settle on the same update id or both report the same rejection. */
  lemma ResolvesAgree(c1: bool, r1: Option<seq<Completion>>, l1: seq<Look>,
                      c2: bool, r2: Option<seq<Completion>>, l2: seq<Look>,
                      stream: seq<Completion>, submission: string, registry: bool)
    requires ReadsFrom(r1, stream) && ReadsFrom(r2, stream)
    ensures var a := ResolveDispatched(c1, r1, submission, l1, registry);
            var b := ResolveDispatched(c2, r2, submission, l2, registry);
            || a.Unknown? || b.Unknown? || (a.Refused? && a == b)
            || (a.Resolved? && b.Resolved? && a.updateId == b.updateId)
  {
    if r1.Some? && r2.Some? {
      ReadsAgree(r1.value, r2.value, stream, submission);
    }
  }

  /** A resolve is unknown exactly when nothing was read of the submission, or its first
      completion commits without an update id. */
  lemma UnknownExactly(configured: bool, read: Option<seq<Completion>>, submission: string,
                       looks: seq<Look>, registry: bool)
    ensures ResolveDispatched(configured, read, submission, looks, registry).Unknown?
       <==> (|| !configured || read.None? || !Mentions(read.value, submission)
             || Outcome(read.value, submission) == Settled(""))
  {
    if read.Some? {
      AbsentMeansUnmentioned(read.value, submission);
    }
  }

  /** Once the post is accepted, execute ends in a result, in a rejection that an actual failed
      completion backs, or in "outcome unknown". Acceptance is never reported as an error. */
  lemma AcceptedEndings(polls: seq<seq<Completion>>, updateId: Option<string>, stream: seq<Completion>,
                        submission: string, looks: seq<Look>, registry: bool)
    requires forall p <- polls :: Delivers(p, stream)
    ensures var r := Executes(true, Accepted(updateId), polls, submission, looks, registry);
            && (r.Result? || r.RejectedBy? || r.OutcomeUnknown?)
            && (r.RejectedBy? ==>
                  exists i ::
                    0 <= i < |stream| && IsFor(stream[i], submission) && Reading(stream[i]) == Rejected(r.reason))
            && (r.RejectedBy? ==> Outcome(stream, submission) == Rejected(r.reason))
            && (r.Result? && (updateId.None? || updateId.value == "") ==>
                  Outcome(stream, submission) == Settled(r.updateId))
  {
    PollTellsTheStream(polls, stream, submission);
    if Outcome(stream, submission) != Absent {
      var i := OutcomeHasWitness(stream, submission);
    }
  }

  /** An update id that the post itself answers is the one the stream settles on. */
  predicate AnsweredFrom(updateId: Option<string>, stream: seq<Completion>, submission: string) {
    updateId.Some? && updateId.value != "" ==> Outcome(stream, submission) == Settled(updateId.value)
  }

  /** The live path and any later resolve tell the same story of one submission, whether the
      update id came with the post or from the polls. */
  lemma ExecuteAndResolveAgree(updateId: Option<string>, polls: seq<seq<Completion>>, stream: seq<Completion>,
                               submission: string, looks: seq<Look>, configured: bool,
                               read: Option<seq<Completion>>, later: seq<Look>, registry: bool)
    requires (forall p <- polls :: Delivers(p, stream)) && ReadsFrom(read, stream)
    requires AnsweredFrom(updateId, stream, submission)
    ensures var r := Executes(true, Accepted(updateId), polls, submission, looks, registry);
            var s := ResolveDispatched(configured, read, submission, later, registry);
            && (r.RejectedBy? ==> s.Unknown? || s == Refused(r.reason))
            && (r.Result? ==> s.Unknown? || (s.Resolved? && s.updateId == r.updateId))
  {
    PollTellsTheStream(polls, stream, submission);
    if read.Some? && Outcome(read.value, submission) != Absent {
      OutcomeIsStable(read.value, stream, submission);
    }
  }

  /** On the very same completion the two paths differ exactly when it commits with a blank
      update id: execute then reports a result for the blank id, resolve says unknown. */
  lemma BlankUpdateId(seen: seq<Completion>, submission: string, looks: seq<Look>, registry: bool)
    ensures var r := Executes(true, Accepted(None), seq(POLLS, _ => seen), submission, looks, registry);
            var s := ResolveDispatched(true, Some(seen), submission, looks, registry);
            (r.Result? && s.Unknown?) <==> Outcome(seen, submission) == Settled("")
  {
    SameEveryPoll(seen, POLLS, submission);
  }

  lemma {:induction false} SameEveryPoll(seen: seq<Completion>, n: nat, submission: string)
    ensures Polled(seq(n, _ => seen), submission) == if n == 0 then Absent else Outcome(seen, submission)
  {
    if n > 0 {
      assert seq(n, _ => seen)[1..] == seq(n - 1, _ => seen);
      SameEveryPoll(seen, n - 1, submission);
    }
  }
}
