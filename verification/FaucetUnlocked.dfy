/** The faucet on an executor without transactions: no lock, one statement per claim. */
module FaucetUnlocked {
  import opened Results
  import opened FaucetRows
  import opened FaucetDb

  // ------------------------------------------------------------- one row a party

  /** The primary key: committed rows and uncommitted inserts never share a party. */
  predicate Keyed(s: State) {
    && OnePerParty(s.rows)
    && (forall i :: 0 <= i < |s.claims| && s.claims[i].phase.Inserted? ==> !Claimed(s.rows, s.claims[i].q.party))
    && (forall i, j :: 0 <= i < j < |s.claims| && s.claims[i].phase.Inserted? && s.claims[j].phase.Inserted?
          ==> s.claims[i].q.party != s.claims[j].q.party)
  }

  lemma KeyedCommit(s: State, i: nat)
    requires Keyed(s) && i < |s.claims| && s.claims[i].phase.Inserted?
    ensures Keyed(State(s.rows + [RowOf(s.claims[i].q)], Unlock(s, i), Moved(s, i, Done(true))))
  {
    forall j | 0 <= j < |s.claims| && j != i && s.claims[j].phase.Inserted?
      ensures !Claimed(s.rows + [RowOf(s.claims[i].q)], s.claims[j].q.party)
    {
      ClaimedStep(s.rows, RowOf(s.claims[i].q), s.claims[j].q.party);
    }
  }

  lemma KeyedRelease(s: State, party: string)
    requires Keyed(s)
    ensures Keyed(s.(rows := Without(s.rows, party)))
  {
    OneWithout(s.rows, party);
    forall i | 0 <= i < |s.claims| && s.claims[i].phase.Inserted?
      ensures !Claimed(Without(s.rows, party), s.claims[i].q.party)
    {
      WithoutMembers(s.rows, party, s.claims[i].q.party);
    }
  }

  lemma KeyedNext(sys: System, s: State, a: Action)
    requires Keyed(s)
    ensures Keyed(Next(sys, s, a))
  {
    if Enabled(sys, s, a) {
      match a {
        case Release(party) => KeyedRelease(s, party);
        case Commit(i) =>
          if s.claims[i].phase.Inserted? {
            KeyedCommit(s, i);
          }
        case _ =>
      }
    }
  }

  /** Lock or no lock, no interleaving gives a party two rows. */
  lemma {:induction false} OneRowPerParty(sys: System, s: State, actions: seq<Action>)
    requires Keyed(s)
    ensures Keyed(Run(sys, s, actions))
    decreases |actions|
  {
    if actions != [] {
      KeyedNext(sys, s, actions[0]);
      OneRowPerParty(sys, Next(sys, s, actions[0]), actions[1..]);
    }
  }

  // ------------------------------------------------------------ how far past the cap

  /** A claim whose snapshot left room under the cap, so that it may still add a row. */
  predicate MayAdd(lim: Limits, c: Claim) {
    c.phase.Inserted? || (c.phase.Running? && InCap(lim, c.phase.snapshot, c.q))
  }

  function Adders(lim: Limits, claims: seq<Claim>): nat {
    if claims == [] then 0
    else Adders(lim, claims[..|claims| - 1]) + (if MayAdd(lim, claims[|claims| - 1]) then 1 else 0)
  }

  lemma {:induction false} AddersFly(lim: Limits, claims: seq<Claim>)
    ensures Adders(lim, claims) <= Flying(claims)
  {
    if claims != [] {
      AddersFly(lim, claims[..|claims| - 1]);
    }
  }

  lemma {:induction false} AddersMove(lim: Limits, claims: seq<Claim>, i: nat, c: Claim)
    requires i < |claims|
    ensures Adders(lim, claims[i := c])
         == Adders(lim, claims) - (if MayAdd(lim, claims[i]) then 1 else 0) + (if MayAdd(lim, c) then 1 else 0)
  {
    var n := |claims| - 1;
    if i < n {
      AddersMove(lim, claims[..n], i, c);
      assert claims[i := c][..n] == claims[..n][i := c];
    } else {
      assert claims[i := c][..n] == claims[..n];
    }
  }

  /** The total and everything that may still be added stay within `inFlight - 1` payouts of the cap. */
  predicate Bounded(sys: System, payout: nat, s: State)
    requires sys.inFlight >= 1
  {
    && (forall i :: 0 <= i < |s.claims| ==> s.claims[i].q.amt == payout)
    && Total(s.rows) + Times(Adders(sys.lim, s.claims), payout) <= sys.lim.lifetimeCap + Times(sys.inFlight - 1, payout)
  }

  function Times(n: nat, payout: nat): nat {
    n * payout
  }

  lemma TimesStep(n: nat, m: nat, payout: nat)
    ensures Times(n + 1, payout) == Times(n, payout) + payout
    ensures n <= m ==> Times(n, payout) <= Times(m, payout)
  {
    if n <= m {
      assert m * payout == n * payout + (m - n) * payout;
    }
  }

  lemma BoundedMove(sys: System, payout: nat, s: State, i: nat, phase: Phase, holder: Option<nat>)
    requires sys.inFlight >= 1 && Bounded(sys, payout, s) && i < |s.claims|
    requires MayAdd(sys.lim, Claim(s.claims[i].q, phase)) ==> MayAdd(sys.lim, s.claims[i])
    ensures Bounded(sys, payout, State(s.rows, holder, Moved(s, i, phase)))
  {
    AddersMove(sys.lim, s.claims, i, Claim(s.claims[i].q, phase));
    TimesStep(Adders(sys.lim, Moved(s, i, phase)), Adders(sys.lim, s.claims), payout);
  }

  /** The only step that lets a new claim add: fewer than `inFlight` are under way. */
  lemma BoundedStart(sys: System, payout: nat, s: State, i: nat)
    requires sys.inFlight >= 1 && sys.lim.lifetimeCap > 0 && Bounded(sys, payout, s)
    requires i < |s.claims| && s.claims[i].phase.Begun? && Flying(s.claims) < sys.inFlight
    ensures Bounded(sys, payout, s.(claims := Moved(s, i, Running(s.rows))))
  {
    var c := Claim(s.claims[i].q, Running(s.rows));
    AddersMove(sys.lim, s.claims, i, c);
    if MayAdd(sys.lim, c) {
      AddersFly(sys.lim, s.claims);
      TimesStep(sys.inFlight - 1, sys.inFlight, payout);
      TimesStep(Adders(sys.lim, s.claims) + 1, sys.inFlight, payout);
    }
  }

  lemma BoundedCommit(sys: System, payout: nat, s: State, i: nat)
    requires sys.inFlight >= 1 && Bounded(sys, payout, s) && i < |s.claims| && s.claims[i].phase.Inserted?
    ensures Bounded(sys, payout, State(s.rows + [RowOf(s.claims[i].q)], Unlock(s, i), Moved(s, i, Done(true))))
  {
    AddersMove(sys.lim, s.claims, i, Claim(s.claims[i].q, Done(true)));
    TimesStep(Adders(sys.lim, Moved(s, i, Done(true))), 0, payout);
    RowAdded(s.rows, RowOf(s.claims[i].q));
  }

  lemma BoundedBegin(sys: System, payout: nat, s: State, q: Request)
    requires sys.inFlight >= 1 && Bounded(sys, payout, s) && q.amt == payout
    ensures Bounded(sys, payout, s.(claims := s.claims + [Claim(q, Begun)]))
  {
    assert (s.claims + [Claim(q, Begun)])[..|s.claims|] == s.claims;
  }

  predicate Pays(a: Action, payout: nat) {
    a.Begin? ==> a.q.amt == payout
  }

  lemma BoundedNext(sys: System, payout: nat, s: State, a: Action)
    requires !sys.serialised && sys.inFlight >= 1 && sys.lim.lifetimeCap > 0
    requires Bounded(sys, payout, s) && Pays(a, payout)
    ensures Bounded(sys, payout, Next(sys, s, a))
  {
    if Enabled(sys, s, a) {
      match a {
        case Begin(q) => BoundedBegin(sys, payout, s, q);
        case Release(party) => WithoutLess(s.rows, party, 0);
        case Acquire(_) =>
        case Start(i) => BoundedStart(sys, payout, s, i);
        case Insert(i) => BoundedMove(sys, payout, s, i, Inserted, s.holder);
        case Refuse(i) => BoundedMove(sys, payout, s, i, Refused, s.holder);
        case Commit(i) =>
          if s.claims[i].phase.Inserted? {
            BoundedCommit(sys, payout, s, i);
          } else {
            BoundedMove(sys, payout, s, i, Done(false), Unlock(s, i));
          }
        case Rollback(i) => BoundedMove(sys, payout, s, i, Failed, Unlock(s, i));
      }
    }
  }

  lemma {:induction false} BoundedRun(sys: System, payout: nat, s: State, actions: seq<Action>)
    requires !sys.serialised && sys.inFlight >= 1 && sys.lim.lifetimeCap > 0
    requires Bounded(sys, payout, s) && forall a <- actions :: Pays(a, payout)
    ensures Bounded(sys, payout, Run(sys, s, actions))
    decreases |actions|
  {
    if actions != [] {
      BoundedNext(sys, payout, s, actions[0]);
      BoundedRun(sys, payout, Next(sys, s, actions[0]), actions[1..]);
    }
  }

  /** Without the lock, with one fixed payout and at most `inFlight` statements under way,
      the lifetime total never passes the cap by more than `inFlight - 1` payouts. */
  lemma OvershootIsBounded(sys: System, payout: nat, actions: seq<Action>)
    requires !sys.serialised && sys.inFlight >= 1 && sys.lim.lifetimeCap > 0
    requires forall a <- actions :: Pays(a, payout)
    ensures Total(Run(sys, EMPTY, actions).rows) <= sys.lim.lifetimeCap + (sys.inFlight - 1) * payout
  {
    BoundedRun(sys, payout, EMPTY, actions);
  }

  // -------------------------------------------------------------- the bound is reached

  /** Distinct parties, one for each number. */
  function Name(i: nat): string {
    seq(i, _ => 'p')
  }

  function Ask(i: nat, payout: nat): Request {
    Request(Name(i), 0, payout)
  }

  function Waiting(n: nat, committed: nat, payout: nat): seq<Claim>
    requires committed <= n
  {
    seq(n, i requires 0 <= i < n => Claim(Ask(i, payout), if i < committed then Done(true) else Inserted))
  }

  function Paid(n: nat, payout: nat): seq<Row> {
    seq(n, i requires 0 <= i < n => RowOf(Ask(i, payout)))
  }

  function Open(n: nat): seq<Action> {
    if n == 0 then [] else Open(n - 1) + [Begin(Ask(n - 1, 1))] + [Start(n - 1)] + [Insert(n - 1)]
  }

  function Close(n: nat): seq<Action> {
    if n == 0 then [] else Close(n - 1) + [Commit(n - 1)]
  }

  lemma {:induction false} RunAppend(sys: System, s: State, a: seq<Action>, b: seq<Action>)
    ensures Run(sys, s, a + b) == Run(sys, Run(sys, s, a), b)
    decreases |a|
  {
    if a == [] {
      assert a + b == b;
    } else {
      assert (a + b)[1..] == a[1..] + b;
      RunAppend(sys, Next(sys, s, a[0]), a[1..], b);
    }
  }

  /** A system whose cap is one payout of one unit, with room for `n` statements at once. */
  function Tight(n: nat): System {
    System(Limits(1, n, 1), false, n)
  }

  lemma {:induction false} AllFly(n: nat)
    ensures Flying(Waiting(n, 0, 1)) == n
  {
    if n > 0 {
      assert Waiting(n, 0, 1)[..n - 1] == Waiting(n - 1, 0, 1);
      AllFly(n - 1);
    }
  }

  lemma RunThen(sys: System, s: State, actions: seq<Action>, a: Action)
    ensures Run(sys, s, actions + [a]) == Next(sys, Run(sys, s, actions), a)
  {
    RunAppend(sys, s, actions, [a]);
    assert [a][1..] == [];
  }

  function Opening(n: nat, last: Phase): State {
    State([], None, Waiting(n, 0, 1) + [Claim(Ask(n, 1), last)])
  }

  lemma StartOne(m: nat, n: nat)
    requires n < m
    ensures Next(Tight(m), Opening(n, Begun), Start(n)) == Opening(n, Running([]))
  {
    var s := Opening(n, Begun);
    AllFly(n);
    assert s.claims[..n] == Waiting(n, 0, 1);
    assert Moved(s, n, Running([])) == Opening(n, Running([])).claims;
  }

  lemma InsertOne(m: nat, n: nat)
    requires n < m
    ensures Next(Tight(m), Opening(n, Running([])), Insert(n)) == State([], None, Waiting(n + 1, 0, 1))
  {
    var s := Opening(n, Running([]));
    assert forall j | 0 <= j < n :: s.claims[j].q.party == Name(j) && |Name(j)| == j;
    assert |Name(n)| == n;
    assert Moved(s, n, Inserted) == Waiting(n + 1, 0, 1);
  }

  lemma {:induction false} OpenAll(m: nat, n: nat)
    requires n <= m
    ensures Run(Tight(m), EMPTY, Open(n)) == State([], None, Waiting(n, 0, 1))
  {
    if n > 0 {
      var k := n - 1;
      OpenAll(m, k);
      RunThen(Tight(m), EMPTY, Open(k), Begin(Ask(k, 1)));
      RunThen(Tight(m), EMPTY, Open(k) + [Begin(Ask(k, 1))], Start(k));
      StartOne(m, k);
      RunThen(Tight(m), EMPTY, Open(k) + [Begin(Ask(k, 1))] + [Start(k)], Insert(k));
      InsertOne(m, k);
    }
  }

  lemma {:induction false} CloseAll(m: nat, n: nat)
    requires n <= m
    ensures Run(Tight(m), State([], None, Waiting(m, 0, 1)), Close(n)) == State(Paid(n, 1), None, Waiting(m, n, 1))
  {
    if n == 0 {
      assert Paid(0, 1) == [];
    } else {
      CloseAll(m, n - 1);
      var s := State(Paid(n - 1, 1), None, Waiting(m, n - 1, 1));
      RunAppend(Tight(m), State([], None, Waiting(m, 0, 1)), Close(n - 1), [Commit(n - 1)]);
      assert Paid(n - 1, 1) + [RowOf(Ask(n - 1, 1))] == Paid(n, 1);
      assert Moved(s, n - 1, Done(true)) == Waiting(m, n, 1);
      assert Next(Tight(m), s, Commit(n - 1)) == State(Paid(n, 1), None, Waiting(m, n, 1));
    }
  }

  lemma {:induction false} PaidTotal(n: nat)
    ensures Total(Paid(n, 1)) == n
  {
    if n > 0 {
      assert Paid(n, 1)[..n - 1] == Paid(n - 1, 1);
      PaidTotal(n - 1);
    }
  }

  /** For every number of statements there is a run whose overshoot is exactly the bound. */
  lemma BoundIsReached(n: nat)
    requires n >= 1
    ensures forall a <- Open(n) + Close(n) :: Pays(a, 1)
    ensures Total(Run(Tight(n), EMPTY, Open(n) + Close(n)).rows) == Tight(n).lim.lifetimeCap + (n - 1) * 1
  {
    OpenAll(n, n);
    CloseAll(n, n);
    RunAppend(Tight(n), EMPTY, Open(n), Close(n));
    PaidTotal(n);
    OpenPays(n);
  }

  lemma {:induction false} OpenPays(n: nat)
    ensures forall a <- Open(n) + Close(n) :: Pays(a, 1)
  {
    if n > 0 {
      OpenPays(n - 1);
    }
  }
}
