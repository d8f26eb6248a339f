/** The in-memory settle store: one row per transaction hash, oldest evicted first. */
module SettleStore {
  import opened Results
  import opened OrderedMap
  import opened SettleCell

  class InlineSettleStore {
    const maxSize: int
    var rows: seq<Slot<Row>>

    ghost predicate Valid()
      reads this
    {
      Distinct(rows) && |rows| <= Limit(maxSize)
    }

    constructor (maxSize: int)
      ensures Valid() && this.maxSize == maxSize && rows == []
    {
      this.maxSize := maxSize;
      rows := [];
    }

    method GetRecord(hash: string) returns (r: Option<Record>)
      ensures r == Read(Get(rows, hash))
    {
      var row := Get(rows, hash);
      if row.None? {
        return None;
      }
      if row.value.updateId.Some? {
        return Some(Settled(row.value.updateId.value));
      }
      r := Some(Dispatched(row.value.meta));
    }

    /** First in, first out, until the store fits; what stays is unchanged. */
    method Evict()
      requires Distinct(rows)
      modifies this`rows
      ensures Valid() && rows == Newest(old(rows), Limit(maxSize))
    {
      while |rows| > maxSize && |rows| > 0
        invariant Distinct(rows) && |rows| <= |old(rows)| && rows == old(rows)[|old(rows)| - |rows|..]
        invariant |rows| >= Limit(maxSize) || rows == old(rows)
        decreases |rows|
      {
        DistinctRest(rows);
        rows := rows[1..];
      }
    }

    /** Writes the row of `hash` and evicts: a new hash in a full store costs the oldest row, and
        nothing else goes. */
    method Write(hash: string, row: Row)
      requires Valid()
      modifies this`rows
      ensures Valid() && rows == Newest(Put(old(rows), hash, row), Limit(maxSize))
      ensures forall h: string :: Get(rows, h) == Written(old(rows), h, hash, row, Limit(maxSize))
    {
      forall h: string
        ensures Get(Newest(Put(rows, hash, row), Limit(maxSize)), h) == Written(rows, h, hash, row, Limit(maxSize))
      {
        WrittenGet(rows, h, hash, row, Limit(maxSize));
      }
      PutKeys(rows, hash, row);
      rows := Put(rows, hash, row);
      Evict();
    }

    /** The intent to submit, written before anything is handed over. */
    method RecordDispatched(hash: string, meta: Meta, now: int) returns (ok: bool)
      requires Valid()
      modifies this`rows
      ensures Valid() && ok == Wins(Get(old(rows), hash), Dispatch(meta, now))
      ensures Follows(old(rows), rows, hash, Dispatch(meta, now), Limit(maxSize))
      ensures var row := SettleCell.Row(None, meta, now);
              rows == if ok then Newest(Put(old(rows), hash, row), Limit(maxSize)) else old(rows)
    {
      if Get(rows, hash).Some? {
        return false;
      }
      Write(hash, SettleCell.Row(None, meta, now));
      ok := true;
    }

    method RecordSettled(hash: string, updateId: string, now: int) returns (ok: bool)
      requires Valid()
      modifies this`rows
      ensures Valid() && ok == Wins(Get(old(rows), hash), Settle(updateId, now))
      ensures Follows(old(rows), rows, hash, Settle(updateId, now), Limit(maxSize))
      ensures var row := After(Get(old(rows), hash), Settle(updateId, now));
              rows == if ok then Newest(Put(old(rows), hash, row.value), Limit(maxSize)) else old(rows)
    {
      var existing := Get(rows, hash);
      if existing.Some? && existing.value.updateId.Some? {
        return false;
      }
      Write(hash, SettleCell.Row(Some(updateId), NO_META, if existing.Some? then existing.value.at else now));
      ok := true;
    }

    /** Drops a marker whose outcome is known and negative; never a settled row, nor another hash's. */
    method ClearDispatched(hash: string)
      requires Valid()
      modifies this`rows
      ensures Valid() && forall h: string :: Get(rows, h) == Moved(old(rows), h, hash, Clear)
      ensures rows == if IsDispatched(Get(old(rows), hash)) then Remove(old(rows), hash) else old(rows)
    {
      var r := Get(rows, hash);
      if r.Some? && r.value.updateId.None? {
        forall h: string
          ensures Get(Remove(rows, hash), h) == if h == hash then None else Get(rows, h)
        {
          GetRemove(rows, hash, h);
        }
        GetRemove(rows, hash, hash);
        RemoveKeys(rows, hash);
        rows := Remove(rows, hash);
      }
    }

    /** Deletes the rows older than `maxAgeMs`, no others, and counts them. */
    method Sweep(maxAgeMs: int, now: int) returns (removed: nat)
      requires Valid()
      modifies this`rows
      ensures Valid() && rows == YoungRows(old(rows), now - maxAgeMs) && |rows| + removed == |old(rows)|
    {
      var cutoff := now - maxAgeMs;
      var p := 0;
      removed := 0;
      assert rows[..0] + YoungRows(rows[0..], cutoff) == YoungRows(rows, cutoff);
      while p < |rows|
        invariant p <= |rows| && |rows| + removed == |old(rows)|
        invariant SweptTo(old(rows), rows, p, cutoff)
        decreases |rows| - p
      {
        if rows[p].val.at < cutoff {
          SweepStep(rows, p, cutoff);
          rows, removed := rows[..p] + rows[p + 1..], removed + 1;
        } else {
          KeepStep(rows, p, cutoff);
          p := p + 1;
        }
      }
      assert rows[..p] + YoungRows(rows[p..], cutoff) == rows;
      YoungKeys(old(rows), cutoff);
    }
  }

  /** The entry cap; a negative one counts as zero. */
  function Limit(maxSize: int): nat {
    if maxSize < 0 then 0 else maxSize
  }

  /** The last `limit` slots, the first-come ones gone. */
  function Newest<V>(m: seq<Slot<V>>, limit: nat): seq<Slot<V>> {
    if |m| <= limit then m else m[|m| - limit..]
  }

  /** A new hash in a full store costs the oldest row, or its own when the store can hold none. */
  predicate Evicted<V>(before: seq<Slot<V>>, h: string, hash: string, limit: nat) {
    Get(before, hash).None? && |before| == limit && h == if before == [] then hash else before[0].key
  }

  function Written<V>(before: seq<Slot<V>>, h: string, hash: string, row: V, limit: nat): Option<V> {
    if Evicted(before, h, hash, limit) then None else if h == hash then Some(row) else Get(before, h)
  }

  lemma WrittenGet<V>(m: seq<Slot<V>>, h: string, hash: string, row: V, limit: nat)
    requires Distinct(m) && |m| <= limit
    ensures Get(Newest(Put(m, hash, row), limit), h) == Written(m, h, hash, row, limit)
  {
    var p := Put(m, hash, row);
    GetPut(m, hash, row, h);
    PutKeys(m, hash, row);
    if |p| > limit {
      assert p[|p| - limit..] == p[1..];
      GetRest(p, h);
    }
  }

  /** The call moved its own hash as the machine says, and no other hash moved, except that a call
      which writes a new row into a full store costs the oldest row. */
  ghost predicate Follows(before: seq<Slot<Row>>, after: seq<Slot<Row>>, hash: string, op: Op, limit: nat) {
    forall h: string ::
      Get(after, h) == if Evicted(before, h, hash, limit) then None else Moved(before, h, hash, op)
  }

  function Moved(before: seq<Slot<Row>>, h: string, hash: string, op: Op): Option<Row> {
    if h == hash then After(Get(before, h), op) else Get(before, h)
  }

  function Young(cell: Option<Row>, cutoff: int): Option<Row> {
    if cell.Some? && cell.value.at < cutoff then None else cell
  }

  function YoungRows(m: seq<Slot<Row>>, cutoff: int): seq<Slot<Row>> {
    if m == [] then [] else (if m[0].val.at < cutoff then [] else [m[0]]) + YoungRows(m[1..], cutoff)
  }

  /** Up to `p` everything is young, and behind it nothing young is missing. */
  ghost predicate SweptTo(whole: seq<Slot<Row>>, m: seq<Slot<Row>>, p: nat, cutoff: int)
    requires p <= |m|
  {
    m[..p] + YoungRows(m[p..], cutoff) == YoungRows(whole, cutoff)
  }

  lemma KeepStep(m: seq<Slot<Row>>, p: nat, cutoff: int)
    requires p < |m| && m[p].val.at >= cutoff
    ensures m[..p + 1] + YoungRows(m[p + 1..], cutoff) == m[..p] + YoungRows(m[p..], cutoff)
  {
    assert m[p..][1..] == m[p + 1..] && m[..p + 1] == m[..p] + [m[p]];
  }

  lemma SweepStep(m: seq<Slot<Row>>, p: nat, cutoff: int)
    requires p < |m| && m[p].val.at < cutoff
    ensures var r := m[..p] + m[p + 1..]; r[..p] + YoungRows(r[p..], cutoff) == m[..p] + YoungRows(m[p..], cutoff)
  {
    var r := m[..p] + m[p + 1..];
    assert r[..p] == m[..p] && r[p..] == m[p + 1..] && m[p..][1..] == m[p + 1..];
  }

  /** A sweep keeps a hash's row exactly when it is young enough. */
  lemma {:induction false} YoungGet(m: seq<Slot<Row>>, cutoff: int, h: string)
    requires Distinct(m)
    ensures Get(YoungRows(m, cutoff), h) == Young(Get(m, h), cutoff)
  {
    if m != [] {
      DistinctRest(m);
      YoungGet(m[1..], cutoff, h);
      var r := YoungRows(m[1..], cutoff);
      if m[0].val.at < cutoff {
        assert [] + r == r;
        GetSome(m[1..], h);
      } else {
        assert ([m[0]] + r)[1..] == r;
      }
    }
  }

  lemma {:induction false} YoungKeys(m: seq<Slot<Row>>, cutoff: int)
    requires Distinct(m)
    ensures Distinct(YoungRows(m, cutoff))
  {
    if m != [] {
      DistinctRest(m);
      YoungKeys(m[1..], cutoff);
      HeadIsAlone(m);
      YoungGet(m[1..], cutoff, m[0].key);
      DistinctCons(m[0], YoungRows(m[1..], cutoff));
      assert [] + YoungRows(m[1..], cutoff) == YoungRows(m[1..], cutoff);
    }
  }
}
