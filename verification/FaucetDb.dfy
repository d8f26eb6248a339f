/** The Postgres faucet under READ COMMITTED, as a system of steps: every statement reads the
    snapshot taken when it starts, and rows appear to others only at commit. */
module FaucetDb {
  import opened Results
  import opened FaucetRows

  /** A claim in progress. `Running` carries the snapshot its INSERT reads. */
  datatype Phase = Begun | Locked | Running(snapshot: seq<Row>) | Inserted | Refused | Done(ok: bool) | Failed

  datatype Claim = Claim(q: Request, phase: Phase)

  /** `serialised` is an executor with transactions, whose claims take the advisory lock;
      `inFlight` bounds the claim statements under way at once when there is no lock. */
  datatype System = System(lim: Limits, serialised: bool, inFlight: nat)

  datatype State = State(rows: seq<Row>, holder: Option<nat>, claims: seq<Claim>)

  const EMPTY := State([], None, [])

  datatype Action =
    | Begin(q: Request)
    | Acquire(i: nat)
    | Start(i: nat)
    | Insert(i: nat)
    | Refuse(i: nat)
    | Commit(i: nat)
    | Rollback(i: nat)
    | Release(party: string)

  predicate UnderWay(c: Claim) {
    c.phase.Running? || c.phase.Inserted? || c.phase.Refused?
  }

  function Flying(claims: seq<Claim>): nat {
    if claims == [] then 0 else Flying(claims[..|claims| - 1]) + (if UnderWay(claims[|claims| - 1]) then 1 else 0)
  }

  function Moved(s: State, i: nat, phase: Phase): seq<Claim>
    requires i < |s.claims|
  {
    s.claims[i := s.claims[i].(phase := phase)]
  }

  function Unlock(s: State, i: nat): Option<nat> {
    if s.holder == Some(i) then None else s.holder
  }

  /** Another transaction has inserted the same primary key and not yet committed. */
  predicate KeyHeld(s: State, party: string) {
    exists j :: 0 <= j < |s.claims| && s.claims[j].phase.Inserted? && s.claims[j].q.party == party
  }

  predicate Enabled(sys: System, s: State, a: Action) {
    match a
    case Begin(_) => true
    case Release(_) => true
    case Acquire(i) => sys.serialised && i < |s.claims| && s.claims[i].phase.Begun? && s.holder.None?
    case Start(i) =>
      i < |s.claims|
      && if sys.serialised then s.claims[i].phase.Locked?
         else s.claims[i].phase.Begun? && Flying(s.claims) < sys.inFlight
    case Insert(i) =>
      && i < |s.claims| && s.claims[i].phase.Running? && Admits(sys.lim, s.claims[i].phase.snapshot, s.claims[i].q)
      && !Claimed(s.rows, s.claims[i].q.party) && !KeyHeld(s, s.claims[i].q.party)
    case Refuse(i) =>
      && i < |s.claims| && s.claims[i].phase.Running? && !Admits(sys.lim, s.claims[i].phase.snapshot, s.claims[i].q)
    case Commit(i) => i < |s.claims| && (s.claims[i].phase.Inserted? || s.claims[i].phase.Refused?)
    case Rollback(i) => i < |s.claims| && !s.claims[i].phase.Done? && !s.claims[i].phase.Failed?
  }

  function Effect(sys: System, s: State, a: Action): State
    requires Enabled(sys, s, a)
  {
    match a
    case Begin(q) => s.(claims := s.claims + [Claim(q, Begun)])
    case Acquire(i) => s.(holder := Some(i), claims := Moved(s, i, Locked))
    case Start(i) => s.(claims := Moved(s, i, Running(s.rows)))
    case Insert(i) => s.(claims := Moved(s, i, Inserted))
    case Refuse(i) => s.(claims := Moved(s, i, Refused))
    case Commit(i) =>
      State(if s.claims[i].phase.Inserted? then s.rows + [RowOf(s.claims[i].q)] else s.rows, Unlock(s, i),
            Moved(s, i, Done(s.claims[i].phase.Inserted?)))
    case Rollback(i) => State(s.rows, Unlock(s, i), Moved(s, i, Failed))
    case Release(party) => s.(rows := Without(s.rows, party))
  }

  /** A step that is not enabled has to wait: it changes nothing. */
  function Next(sys: System, s: State, a: Action): State {
    if Enabled(sys, s, a) then Effect(sys, s, a) else s
  }

  function Run(sys: System, s: State, actions: seq<Action>): State
    decreases |actions|
  {
    if actions == [] then s else Run(sys, Next(sys, s, actions[0]), actions[1..])
  }
}
