/** The faucet's chain of payouts: each claim waits for the one before it, whatever its end. */
module PayoutLine {
  /** A claim in the order of arrival: waiting on its predecessor, at its first or second
      payout, or over, well or badly. */
  datatype Job = Waiting | Paying(attempt: nat) | Over(ok: bool)

  datatype Action = Arrive | Begin(i: nat) | Succeed(i: nat) | Contend(i: nat) | Fail(i: nat)

  predicate Enabled(jobs: seq<Job>, a: Action) {
    match a
    case Arrive => true
    case Begin(i) => i < |jobs| && jobs[i].Waiting? && (i == 0 || jobs[i - 1].Over?)
    case Succeed(i) => i < |jobs| && jobs[i].Paying?
    case Contend(i) => i < |jobs| && jobs[i].Paying?
    case Fail(i) => i < |jobs| && jobs[i].Paying?
  }

  /** Input contention is retried once; anything else, or a second contention, ends the claim. */
  function Next(jobs: seq<Job>, a: Action): seq<Job> {
    if !Enabled(jobs, a) then jobs
    else
      match a
      case Arrive => jobs + [Waiting]
      case Begin(i) => jobs[i := Paying(1)]
      case Succeed(i) => jobs[i := Over(true)]
      case Contend(i) => jobs[i := if jobs[i].attempt == 1 then Paying(2) else Over(false)]
      case Fail(i) => jobs[i := Over(false)]
  }

  function Run(jobs: seq<Job>, actions: seq<Action>): seq<Job>
    decreases |actions|
  {
    if actions == [] then jobs else Run(Next(jobs, actions[0]), actions[1..])
  }

  /** Behind a claim that is not over everyone waits. */
  predicate InLine(jobs: seq<Job>) {
    && (forall i, j :: 0 <= i < j < |jobs| && !jobs[i].Over? ==> jobs[j].Waiting?)
    && (forall i :: 0 <= i < |jobs| && jobs[i].Paying? ==> 1 <= jobs[i].attempt <= 2)
  }

  lemma InLineNext(jobs: seq<Job>, a: Action)
    requires InLine(jobs)
    ensures InLine(Next(jobs, a))
  {
    if a.Begin? && Enabled(jobs, a) {
      forall k | 0 <= k < a.i
        ensures jobs[k].Over?
      {
        assert k == a.i - 1 || !jobs[a.i - 1].Waiting?;
      }
    }
  }

  lemma {:induction false} InLineRun(jobs: seq<Job>, actions: seq<Action>)
    requires InLine(jobs)
    ensures InLine(Run(jobs, actions))
    decreases |actions|
  {
    if actions != [] {
      InLineNext(jobs, actions[0]);
      InLineRun(Next(jobs, actions[0]), actions[1..]);
    }
  }

  /** In every interleaving at most one payout is under way, every claim before it is over and
      every claim after it still waits, and none is tried more than twice. */
  lemma OneAtATime(actions: seq<Action>, i: nat)
    requires var jobs := Run([], actions); i < |jobs| && jobs[i].Paying?
    ensures var jobs := Run([], actions);
            && (forall k :: 0 <= k < i ==> jobs[k].Over?)
            && (forall k :: i < k < |jobs| ==> jobs[k].Waiting?)
            && 1 <= jobs[i].attempt <= 2
  {
    InLineRun([], actions);
  }
}
