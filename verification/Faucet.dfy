/** The in-memory faucet store: one synchronous check and insert. */
module Faucet {
  import opened FaucetRows

  datatype Reason = Ok | AlreadyClaimed | DailyBudget | LifetimeCap

  /** Why a claim is refused, the first failing guard in the order they are tried. */
  function Verdict(lim: Limits, rows: seq<Row>, q: Request): Reason {
    if Claimed(rows, q.party) then AlreadyClaimed
    else if !InBudget(lim, rows, q) then DailyBudget
    else if !InCap(lim, rows, q) then LifetimeCap
    else Ok
  }

  class FaucetStore {
    const lim: Limits
    var claims: seq<Row>

    ghost predicate Valid()
      reads this
    {
      Books(lim, claims)
    }

    constructor (lim: Limits)
      ensures Valid() && this.lim == lim && claims == []
    {
      this.lim := lim;
      claims := [];
    }

    method HasClaimed(party: string) returns (r: bool)
      ensures r == Claimed(claims, party)
    {
      r := exists i :: 0 <= i < |claims| && claims[i].party == party;
    }

    /** Claims that are refused leave the table alone; an admitted one adds its row. */
    method TryClaim(q: Request) returns (r: Reason)
      requires Valid()
      modifies this`claims
      ensures Valid() && r == Verdict(lim, old(claims), q)
      ensures r.Ok? <==> Admits(lim, old(claims), q)
      ensures claims == if r.Ok? then old(claims) + [RowOf(q)] else old(claims)
    {
      var claimed := HasClaimed(q.party);
      if claimed {
        return AlreadyClaimed;
      }
      var sinceMs := q.now - lim.windowMs;
      var daily, lifetime := 0, 0;
      for i := 0 to |claims|
        invariant daily == SumSince(claims[..i], sinceMs) && lifetime == Total(claims[..i])
      {
        assert claims[..i + 1][..i] == claims[..i];
        lifetime := lifetime + claims[i].amt;
        if claims[i].at > sinceMs {
          daily := daily + claims[i].amt;
        }
      }
      assert claims[..|claims|] == claims;
      if daily + q.amt > lim.dailyBudget {
        return DailyBudget;
      }
      if lim.lifetimeCap > 0 && lifetime + q.amt > lim.lifetimeCap {
        return LifetimeCap;
      }
      AdmitKeepsBooks(lim, claims, q);
      claims := claims + [RowOf(q)];
      r := Ok;
    }

    /** Gives the reservation back; the budgets can only gain room. */
    method Release(party: string)
      requires Valid()
      modifies this`claims
      ensures Valid() && claims == Without(old(claims), party)
    {
      OneWithout(claims, party);
      BudgetedWithout(lim, claims, party);
      WithoutLess(claims, party, 0);
      claims := Without(claims, party);
    }

    method SumSinceMs(sinceMs: int) returns (sum: nat)
      ensures sum == SumSince(claims, sinceMs)
    {
      sum := 0;
      for i := 0 to |claims|
        invariant sum == SumSince(claims[..i], sinceMs)
      {
        assert claims[..i + 1][..i] == claims[..i];
        if claims[i].at > sinceMs {
          sum := sum + claims[i].amt;
        }
      }
      assert claims[..|claims|] == claims;
    }
  }
}
