/** The faucet's claim table, its budgets, and the guard of a claim. Amounts are atomic units. */
module FaucetRows {
  datatype Row = Row(party: string, at: int, amt: nat)

  datatype Request = Request(party: string, now: int, amt: nat)

  datatype Limits = Limits(windowMs: int, dailyBudget: int, lifetimeCap: int)

  function Total(rows: seq<Row>): nat {
    if rows == [] then 0 else Total(rows[..|rows| - 1]) + rows[|rows| - 1].amt
  }

  /** What was claimed later than `since`. */
  function SumSince(rows: seq<Row>, since: int): nat {
    if rows == [] then 0
    else SumSince(rows[..|rows| - 1], since) + (if rows[|rows| - 1].at > since then rows[|rows| - 1].amt else 0)
  }

  /** What was claimed after `lo` and no later than `hi`. */
  function SumWithin(rows: seq<Row>, lo: int, hi: int): nat {
    if rows == [] then 0
    else SumWithin(rows[..|rows| - 1], lo, hi) + (if lo < rows[|rows| - 1].at <= hi then rows[|rows| - 1].amt else 0)
  }

  predicate Claimed(rows: seq<Row>, party: string) {
    exists i :: 0 <= i < |rows| && rows[i].party == party
  }

  predicate InBudget(lim: Limits, rows: seq<Row>, q: Request) {
    SumSince(rows, q.now - lim.windowMs) + q.amt <= lim.dailyBudget
  }

  predicate InCap(lim: Limits, rows: seq<Row>, q: Request) {
    lim.lifetimeCap <= 0 || Total(rows) + q.amt <= lim.lifetimeCap
  }

  /** The three guards of a claim, judged on one reading of the table. */
  predicate Admits(lim: Limits, rows: seq<Row>, q: Request) {
    !Claimed(rows, q.party) && InBudget(lim, rows, q) && InCap(lim, rows, q)
  }

  function Without(rows: seq<Row>, party: string): seq<Row> {
    if rows == [] then []
    else
      var init, last := rows[..|rows| - 1], rows[|rows| - 1];
      if last.party == party then Without(init, party) else Without(init, party) + [last]
  }

  // -------------------------------------------------------------- what the table keeps

  predicate OnePerParty(rows: seq<Row>) {
    forall i, j :: 0 <= i < j < |rows| ==> rows[i].party != rows[j].party
  }

  /** Each row fitted the budget of its own window over the rows then before it. */
  predicate Budgeted(lim: Limits, rows: seq<Row>) {
    rows == []
    || (var init, last := rows[..|rows| - 1], rows[|rows| - 1];
        Budgeted(lim, init) && SumSince(init, last.at - lim.windowMs) + last.amt <= lim.dailyBudget)
  }

  predicate Books(lim: Limits, rows: seq<Row>) {
    OnePerParty(rows) && Budgeted(lim, rows) && (lim.lifetimeCap > 0 ==> Total(rows) <= lim.lifetimeCap)
  }

  lemma RowAdded(rows: seq<Row>, r: Row)
    ensures Total(rows + [r]) == Total(rows) + r.amt
    ensures forall lim :: Budgeted(lim, rows + [r])
                     <==> Budgeted(lim, rows) && SumSince(rows, r.at - lim.windowMs) + r.amt <= lim.dailyBudget
  {
    assert (rows + [r])[..|rows|] == rows;
  }

  function RowOf(q: Request): Row {
    Row(q.party, q.now, q.amt)
  }

  lemma AdmitKeepsBooks(lim: Limits, rows: seq<Row>, q: Request)
    requires Books(lim, rows) && Admits(lim, rows, q)
    ensures Books(lim, rows + [RowOf(q)])
  {
    RowAdded(rows, RowOf(q));
  }

  lemma {:induction false} WithoutLess(rows: seq<Row>, party: string, since: int)
    ensures Total(Without(rows, party)) <= Total(rows)
    ensures SumSince(Without(rows, party), since) <= SumSince(rows, since)
  {
    if rows != [] {
      var init, last := rows[..|rows| - 1], rows[|rows| - 1];
      WithoutLess(init, party, since);
      assert (Without(init, party) + [last])[..|Without(init, party)|] == Without(init, party);
    }
  }

  lemma {:induction false} WithoutMembers(rows: seq<Row>, party: string, other: string)
    ensures Claimed(Without(rows, party), other) <==> other != party && Claimed(rows, other)
  {
    if rows != [] {
      var init, last := rows[..|rows| - 1], rows[|rows| - 1];
      WithoutMembers(init, party, other);
      ClaimedStep(init, last, other);
      assert rows == init + [last];
      if last.party != party {
        ClaimedStep(Without(init, party), last, other);
      }
    }
  }

  lemma ClaimedStep(rows: seq<Row>, r: Row, party: string)
    ensures Claimed(rows + [r], party) <==> Claimed(rows, party) || r.party == party
  {
    if Claimed(rows, party) {
      var i :| 0 <= i < |rows| && rows[i].party == party;
      assert (rows + [r])[i].party == party;
    }
    assert (rows + [r])[|rows|] == r;
  }

  lemma {:induction false} OneWithout(rows: seq<Row>, party: string)
    requires OnePerParty(rows)
    ensures OnePerParty(Without(rows, party))
  {
    if rows != [] {
      var init, last := rows[..|rows| - 1], rows[|rows| - 1];
      OneWithout(init, party);
      WithoutMembers(init, party, last.party);
    }
  }

  lemma {:induction false} BudgetedWithout(lim: Limits, rows: seq<Row>, party: string)
    requires Budgeted(lim, rows)
    ensures Budgeted(lim, Without(rows, party))
  {
    if rows != [] {
      var init, last := rows[..|rows| - 1], rows[|rows| - 1];
      BudgetedWithout(lim, init, party);
      WithoutLess(init, party, last.at - lim.windowMs);
      RowAdded(Without(init, party), last);
    }
  }

  /** A release frees room and takes none: what was admissible stays so. */
  lemma AdmitsWithout(lim: Limits, rows: seq<Row>, party: string, q: Request)
    requires Admits(lim, rows, q)
    ensures Admits(lim, Without(rows, party), q)
  {
    WithoutLess(rows, party, q.now - lim.windowMs);
    WithoutMembers(rows, party, q.party);
  }

  // ------------------------------------------------------------------ every window

  lemma {:induction false} WithinSince(rows: seq<Row>, lo: int, hi: int, since: int)
    requires since <= lo
    ensures SumWithin(rows, lo, hi) <= SumSince(rows, since)
  {
    if rows != [] {
      WithinSince(rows[..|rows| - 1], lo, hi, since);
    }
  }

  /** What a window may hold: a negative budget admits nothing. */
  function Ceiling(lim: Limits): nat {
    if lim.dailyBudget < 0 then 0 else lim.dailyBudget
  }

  /** In a budgeted table, whatever the order of its times, the claims of any window sum to
      no more than the daily budget. */
  lemma {:induction false} EveryWindow(lim: Limits, rows: seq<Row>, end: int)
    requires Budgeted(lim, rows)
    ensures SumWithin(rows, end - lim.windowMs, end) <= Ceiling(lim)
  {
    if rows != [] {
      var init, last := rows[..|rows| - 1], rows[|rows| - 1];
      if last.at <= end {
        WithinSince(init, end - lim.windowMs, end, last.at - lim.windowMs);
      }
      EveryWindow(lim, init, end);
    }
  }
}
