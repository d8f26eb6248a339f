/** What the settle store knows about one transaction: never seen, dispatched with its outcome
    unknown, or settled. Once as the in-memory rows hold it and once as the SQL rows do. */
module SettleCell {
  import opened Results

  /** Where a later resolve has to look; each part may be missing. */
  datatype Meta = Meta(submissionId: Option<string>, beginExclusive: Option<int>, participant: Option<string>)

  const NO_META := Meta(None, None, None)

  datatype Row = Row(updateId: Option<string>, meta: Meta, at: int)

  datatype Record = Settled(updateId: string) | Dispatched(meta: Meta)

  datatype Op = Dispatch(meta: Meta, at: int) | Settle(updateId: string, at: int) | Clear

  function Read(cell: Option<Row>): Option<Record> {
    match cell
    case None => None
    case Some(r) => Some(if r.updateId.Some? then Settled(r.updateId.value) else Dispatched(r.meta))
  }

  predicate IsSettled(cell: Option<Row>) {
    cell.Some? && cell.value.updateId.Some?
  }

  predicate IsDispatched(cell: Option<Row>) {
    cell.Some? && cell.value.updateId.None?
  }

  function After(cell: Option<Row>, op: Op): Option<Row> {
    match op
    case Dispatch(meta, at) => if cell.Some? then cell else Some(Row(None, meta, at))
    case Settle(u, at) =>
      if IsSettled(cell) then cell else Some(Row(Some(u), NO_META, if cell.Some? then cell.value.at else at))
    case Clear => if IsDispatched(cell) then None else cell
  }

  /** What the call answers: did it take effect? */
  predicate Wins(cell: Option<Row>, op: Op) {
    match op
    case Dispatch(_, _) => cell.None?
    case Settle(_, _) => !IsSettled(cell)
    case Clear => IsDispatched(cell)
  }

  // -------------------------------------------------------------- runs on one hash

  function Run(cell: Option<Row>, ops: seq<Op>): Option<Row>
    decreases |ops|
  {
    if ops == [] then cell else Run(After(cell, ops[0]), ops[1..])
  }

  function DispatchWins(cell: Option<Row>, ops: seq<Op>): nat
    decreases |ops|
  {
    if ops == [] then 0
    else (if ops[0].Dispatch? && Wins(cell, ops[0]) then 1 else 0) + DispatchWins(After(cell, ops[0]), ops[1..])
  }

  function SettleWins(cell: Option<Row>, ops: seq<Op>): nat
    decreases |ops|
  {
    if ops == [] then 0
    else (if ops[0].Settle? && Wins(cell, ops[0]) then 1 else 0) + SettleWins(After(cell, ops[0]), ops[1..])
  }

  function ClearWins(cell: Option<Row>, ops: seq<Op>): nat
    decreases |ops|
  {
    if ops == [] then 0
    else (if ops[0].Clear? && Wins(cell, ops[0]) then 1 else 0) + ClearWins(After(cell, ops[0]), ops[1..])
  }

  /** Once settled with an update id, settled with that id whatever is called after. */
  lemma {:induction false} SettledStays(cell: Option<Row>, ops: seq<Op>)
    requires IsSettled(cell)
    ensures Run(cell, ops) == cell
    decreases |ops|
  {
    if ops != [] {
      SettledStays(After(cell, ops[0]), ops[1..]);
    }
  }

  /** At most one call ever settles: exactly one if the run ends settled, none otherwise. */
  lemma {:induction false} SettledOnce(cell: Option<Row>, ops: seq<Op>)
    requires !IsSettled(cell)
    ensures SettleWins(cell, ops) == if IsSettled(Run(cell, ops)) then 1 else 0
    decreases |ops|
  {
    if ops != [] {
      var next := After(cell, ops[0]);
      if IsSettled(next) {
        SettledStays(next, ops[1..]);
        NoMoreWins(next, ops[1..]);
      } else {
        SettledOnce(next, ops[1..]);
      }
    }
  }

  lemma {:induction false} NoMoreWins(cell: Option<Row>, ops: seq<Op>)
    requires IsSettled(cell)
    ensures SettleWins(cell, ops) == 0 && DispatchWins(cell, ops) == 0 && ClearWins(cell, ops) == 0
    decreases |ops|
  {
    if ops != [] {
      NoMoreWins(After(cell, ops[0]), ops[1..]);
    }
  }

  /** Every dispatch that wins is paid for: from a transaction never seen, the winning
      dispatches exceed the clears that took effect by one at most, and by exactly one when
      a dispatch marker stands at the end. */
  lemma {:induction false} DispatchesArePaidFor(cell: Option<Row>, ops: seq<Op>)
    ensures DispatchWins(cell, ops) <= ClearWins(cell, ops) + (if cell.None? then 1 else 0)
    ensures IsDispatched(Run(cell, ops)) ==>
              DispatchWins(cell, ops) == ClearWins(cell, ops) + (if cell.None? then 1 else 0)
    decreases |ops|
  {
    if ops == [] {
    } else {
      var next := After(cell, ops[0]);
      DispatchesArePaidFor(next, ops[1..]);
      if IsSettled(next) {
        SettledStays(next, ops[1..]);
        NoMoreWins(next, ops[1..]);
      }
    }
  }

  /** The loser of a settle is told false whatever the recorded id: also for the same id,
      where the interface promises false only for a different one. */
  lemma SameIdLosesToo(cell: Option<Row>, u: string, at: int)
    ensures !Wins(cell, Settle(u, at)) <==> exists v :: Read(cell) == Some(Settled(v))
    ensures Read(cell) == Some(Settled(u)) ==> !Wins(cell, Settle(u, at)) && After(cell, Settle(u, at)) == cell
  {
    if IsSettled(cell) {
      assert Read(cell) == Some(Settled(cell.value.updateId.value));
    }
  }

  // -------------------------------------------------------------------- the SQL form

  datatype SqlRow = SqlRow(updateId: Option<string>, meta: Meta, settledAt: int)

  /** A column that is null or the empty string reads as missing. */
  function Truthy(s: Option<string>): Option<string> {
    if s == Some("") then None else s
  }

  function SqlRead(cell: Option<SqlRow>): Option<Record> {
    match cell
    case None => None
    case Some(r) =>
      Some(if r.updateId.Some? then Settled(r.updateId.value)
           else Dispatched(Meta(Truthy(r.meta.submissionId), r.meta.beginExclusive, Truthy(r.meta.participant))))
  }

  /** INSERT with ON CONFLICT DO NOTHING, INSERT with ON CONFLICT DO UPDATE WHERE update_id
      IS NULL, and DELETE WHERE update_id IS NULL; `at` is the server's clock. */
  function SqlAfter(cell: Option<SqlRow>, op: Op): Option<SqlRow> {
    match op
    case Dispatch(meta, at) => if cell.None? then Some(SqlRow(None, meta, at)) else cell
    case Settle(u, at) =>
      (match cell
       case None => Some(SqlRow(Some(u), NO_META, at))
       case Some(r) => if r.updateId.None? then Some(r.(updateId := Some(u), settledAt := at)) else cell)
    case Clear => if cell.Some? && cell.value.updateId.None? then None else cell
  }

  /** Rows affected is positive. */
  predicate SqlWins(cell: Option<SqlRow>, op: Op) {
    match op
    case Dispatch(_, _) => cell.None?
    case Settle(_, _) => cell.None? || cell.value.updateId.None?
    case Clear => cell.Some? && cell.value.updateId.None?
  }

  function SqlRun(cell: Option<SqlRow>, ops: seq<Op>): Option<SqlRow>
    decreases |ops|
  {
    if ops == [] then cell else SqlRun(SqlAfter(cell, ops[0]), ops[1..])
  }

  /** The two forms agree on a transaction, apart from its age and the leftovers of a settled row. */
  predicate Refines(sql: Option<SqlRow>, mem: Option<Row>) {
    match (sql, mem)
    case (None, None) => true
    case (Some(s), Some(m)) => s.updateId == m.updateId && (m.updateId.None? ==> s.meta == m.meta)
    case _ => false
  }

  lemma RefinesStep(sql: Option<SqlRow>, mem: Option<Row>, op: Op)
    requires Refines(sql, mem)
    ensures SqlWins(sql, op) == Wins(mem, op) && Refines(SqlAfter(sql, op), After(mem, op))
  {}

  predicate NoEmptyNames(cell: Option<Row>) {
    IsDispatched(cell) ==> cell.value.meta.submissionId != Some("") && cell.value.meta.participant != Some("")
  }

  /** After any run the SQL form reads what the in-memory form reads, exactly when the marker
      names neither an empty submission nor an empty participant. */
  lemma {:induction false} SqlRefinesMemory(sql: Option<SqlRow>, mem: Option<Row>, ops: seq<Op>)
    requires Refines(sql, mem)
    ensures Refines(SqlRun(sql, ops), Run(mem, ops))
    ensures SqlRead(SqlRun(sql, ops)) == Read(Run(mem, ops)) <==> NoEmptyNames(Run(mem, ops))
    decreases |ops|
  {
    if ops == [] {
    } else {
      RefinesStep(sql, mem, ops[0]);
      SqlRefinesMemory(SqlAfter(sql, ops[0]), After(mem, ops[0]), ops[1..]);
    }
  }
}
