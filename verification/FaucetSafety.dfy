/** What the faucet's table keeps in every interleaving. */
module FaucetSafety {
  import opened Results
  import opened FaucetRows
  import opened FaucetDb

  // ----------------------------------------------------- with the advisory lock

  predicate InTransaction(c: Claim) {
    c.phase.Locked? || UnderWay(c)
  }

  /** What a claim's phase says about the table as it stands now. */
  predicate Consistent(lim: Limits, rows: seq<Row>, c: Claim) {
    match c.phase
    case Running(snapshot) => Admits(lim, snapshot, c.q) ==> Admits(lim, rows, c.q)
    case Inserted => Admits(lim, rows, c.q)
    case _ => true
  }

  predicate LockedClaim(lim: Limits, s: State, i: nat)
    requires i < |s.claims|
  {
    (InTransaction(s.claims[i]) ==> s.holder == Some(i)) && Consistent(lim, s.rows, s.claims[i])
  }

  predicate Serialised(lim: Limits, s: State) {
    Books(lim, s.rows) && forall i :: 0 <= i < |s.claims| ==> LockedClaim(lim, s, i)
  }

  lemma SerialisedMove(lim: Limits, s: State, i: nat, holder: Option<nat>, phase: Phase)
    requires Serialised(lim, s) && i < |s.claims|
    requires s.holder == Some(i) || (s.holder.None? && holder == Some(i)) || s.holder == holder
    requires var c := Claim(s.claims[i].q, phase);
             (InTransaction(c) ==> holder == Some(i)) && Consistent(lim, s.rows, c)
    ensures Serialised(lim, State(s.rows, holder, Moved(s, i, phase)))
  {
    var s' := State(s.rows, holder, Moved(s, i, phase));
    forall j | 0 <= j < |s'.claims|
      ensures LockedClaim(lim, s', j)
    {
      assert LockedClaim(lim, s, j);
    }
  }

  lemma SerialisedCommit(lim: Limits, s: State, i: nat)
    requires Serialised(lim, s) && i < |s.claims| && s.claims[i].phase.Inserted?
    ensures Serialised(lim, State(s.rows + [RowOf(s.claims[i].q)], Unlock(s, i), Moved(s, i, Done(true))))
  {
    var s' := State(s.rows + [RowOf(s.claims[i].q)], Unlock(s, i), Moved(s, i, Done(true)));
    assert LockedClaim(lim, s, i);
    AdmitKeepsBooks(lim, s.rows, s.claims[i].q);
    forall j | 0 <= j < |s'.claims|
      ensures LockedClaim(lim, s', j)
    {
      assert LockedClaim(lim, s, j);
    }
  }

  lemma SerialisedRelease(lim: Limits, s: State, party: string)
    requires Serialised(lim, s)
    ensures Serialised(lim, s.(rows := Without(s.rows, party)))
  {
    var s' := s.(rows := Without(s.rows, party));
    OneWithout(s.rows, party);
    BudgetedWithout(lim, s.rows, party);
    WithoutLess(s.rows, party, 0);
    forall j | 0 <= j < |s'.claims|
      ensures LockedClaim(lim, s', j)
    {
      assert LockedClaim(lim, s, j);
      if Admits(lim, s.rows, s.claims[j].q) {
        AdmitsWithout(lim, s.rows, party, s.claims[j].q);
      }
    }
  }

  lemma SerialisedBegin(lim: Limits, s: State, q: Request)
    requires Serialised(lim, s)
    ensures Serialised(lim, s.(claims := s.claims + [Claim(q, Begun)]))
  {
    var s' := s.(claims := s.claims + [Claim(q, Begun)]);
    forall j | 0 <= j < |s'.claims|
      ensures LockedClaim(lim, s', j)
    {
      if j < |s.claims| {
        assert LockedClaim(lim, s, j);
      }
    }
  }

  lemma SerialisedNext(sys: System, s: State, a: Action)
    requires sys.serialised && Serialised(sys.lim, s)
    ensures Serialised(sys.lim, Next(sys, s, a))
  {
    if Enabled(sys, s, a) {
      match a {
        case Begin(q) => SerialisedBegin(sys.lim, s, q);
        case Release(party) => SerialisedRelease(sys.lim, s, party);
        case Acquire(i) => SerialisedMove(sys.lim, s, i, Some(i), Locked);
        case Start(i) =>
          assert LockedClaim(sys.lim, s, i);
          SerialisedMove(sys.lim, s, i, s.holder, Running(s.rows));
        case Insert(i) =>
          assert LockedClaim(sys.lim, s, i);
          SerialisedMove(sys.lim, s, i, s.holder, Inserted);
        case Refuse(i) =>
          assert LockedClaim(sys.lim, s, i);
          SerialisedMove(sys.lim, s, i, s.holder, Refused);
        case Commit(i) =>
          if s.claims[i].phase.Inserted? {
            SerialisedCommit(sys.lim, s, i);
          } else {
            SerialisedMove(sys.lim, s, i, Unlock(s, i), Done(false));
          }
        case Rollback(i) => SerialisedMove(sys.lim, s, i, Unlock(s, i), Failed);
      }
    }
  }

  lemma {:induction false} SerialisedRun(sys: System, s: State, actions: seq<Action>)
    requires sys.serialised && Serialised(sys.lim, s)
    ensures Serialised(sys.lim, Run(sys, s, actions))
    decreases |actions|
  {
    if actions != [] {
      SerialisedNext(sys, s, actions[0]);
      SerialisedRun(sys, Next(sys, s, actions[0]), actions[1..]);
    }
  }

  /** With the lock, in every interleaving of claims, rollbacks and releases, and whatever
      times the callers give: one row a party, every window within the daily budget, the
      lifetime total within a positive cap. */
  lemma LockedFaucetKeepsItsLimits(sys: System, actions: seq<Action>, end: int)
    requires sys.serialised
    ensures var rows := Run(sys, EMPTY, actions).rows;
            && OnePerParty(rows)
            && SumWithin(rows, end - sys.lim.windowMs, end) <= Ceiling(sys.lim)
            && (sys.lim.lifetimeCap > 0 ==> Total(rows) <= sys.lim.lifetimeCap)
  {
    SerialisedRun(sys, EMPTY, actions);
    EveryWindow(sys.lim, Run(sys, EMPTY, actions).rows, end);
  }

  /** A claim that commits a row does what the in-memory store would do at that instant: the
      row is admissible on the table of the moment, not only on the snapshot it was judged by. */
  lemma CommitIsAdmissibleNow(sys: System, actions: seq<Action>, i: nat)
    requires sys.serialised
    requires var s := Run(sys, EMPTY, actions); i < |s.claims| && s.claims[i].phase.Inserted?
    ensures var s := Run(sys, EMPTY, actions); Admits(sys.lim, s.rows, s.claims[i].q)
  {
    SerialisedRun(sys, EMPTY, actions);
    assert LockedClaim(sys.lim, Run(sys, EMPTY, actions), i);
  }
}
