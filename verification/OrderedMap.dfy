/** A map that remembers insertion order: writing a present key keeps its place, a new key
    goes last, and the first key is the oldest. */
module OrderedMap {
  import opened Results

  datatype Slot<V> = Slot(key: string, val: V)

  function Get<V>(m: seq<Slot<V>>, k: string): Option<V> {
    if m == [] then None else if m[0].key == k then Some(m[0].val) else Get(m[1..], k)
  }

  function Put<V>(m: seq<Slot<V>>, k: string, v: V): seq<Slot<V>> {
    if m == [] then [Slot(k, v)]
    else if m[0].key == k then [Slot(k, v)] + m[1..]
    else [m[0]] + Put(m[1..], k, v)
  }

  function Remove<V>(m: seq<Slot<V>>, k: string): seq<Slot<V>> {
    if m == [] then [] else if m[0].key == k then m[1..] else [m[0]] + Remove(m[1..], k)
  }

  predicate Distinct<V>(m: seq<Slot<V>>) {
    forall i, j :: 0 <= i < j < |m| ==> m[i].key != m[j].key
  }

  lemma {:induction false} GetSome<V>(m: seq<Slot<V>>, k: string)
    ensures Get(m, k).Some? <==> exists i :: 0 <= i < |m| && m[i].key == k
  {
    if m != [] {
      GetSome(m[1..], k);
      if m[0].key != k {
        forall i | 0 <= i < |m| && m[i].key == k
          ensures exists j :: 0 <= j < |m[1..]| && m[1..][j].key == k
        {
          assert m[1..][i - 1].key == k;
        }
      }
    }
  }

  lemma {:induction false} GetPut<V>(m: seq<Slot<V>>, k: string, v: V, other: string)
    ensures Get(Put(m, k, v), other) == if other == k then Some(v) else Get(m, other)
    ensures |Put(m, k, v)| == if Get(m, k).Some? then |m| else |m| + 1
  {
    if m != [] && m[0].key != k {
      GetPut(m[1..], k, v, other);
      assert Put(m, k, v)[1..] == Put(m[1..], k, v);
    } else if m != [] {
      assert Put(m, k, v)[1..] == m[1..];
    }
  }

  lemma {:induction false} GetRemove<V>(m: seq<Slot<V>>, k: string, other: string)
    requires Distinct(m)
    ensures Get(Remove(m, k), other) == if other == k then None else Get(m, other)
    ensures |Remove(m, k)| == if Get(m, k).Some? then |m| - 1 else |m|
  {
    if m != [] {
      DistinctRest(m);
      if m[0].key != k {
        GetRemove(m[1..], k, other);
        assert Remove(m, k)[1..] == Remove(m[1..], k);
      } else {
        GetSome(m[1..], k);
      }
    }
  }

  lemma DistinctRest<V>(m: seq<Slot<V>>)
    requires Distinct(m) && m != []
    ensures Distinct(m[1..])
  {
    forall i, j | 0 <= i < j < |m| - 1
      ensures m[1..][i].key != m[1..][j].key
    {
      assert m[i + 1].key != m[j + 1].key;
    }
  }

  lemma {:induction false} PutKeys<V>(m: seq<Slot<V>>, k: string, v: V)
    requires Distinct(m)
    ensures Distinct(Put(m, k, v))
    ensures forall i :: 0 <= i < |Put(m, k, v)| ==> Put(m, k, v)[i].key == if i < |m| then m[i].key else k
  {
    if m != [] && m[0].key != k {
      DistinctRest(m);
      PutKeys(m[1..], k, v);
      var p := Put(m[1..], k, v);
      forall i | 0 <= i < |p|
        ensures p[i].key != m[0].key
      {
        assert i < |m[1..]| ==> m[1..][i] == m[i + 1];
      }
    }
  }

  lemma DistinctCons<V>(s: Slot<V>, rest: seq<Slot<V>>)
    requires Distinct(rest) && Get(rest, s.key).None?
    ensures Distinct([s] + rest)
  {
    GetSome(rest, s.key);
  }

  lemma HeadIsAlone<V>(m: seq<Slot<V>>)
    requires Distinct(m) && m != []
    ensures Get(m[1..], m[0].key).None?
  {
    GetSome(m[1..], m[0].key);
  }

  lemma {:induction false} RemoveKeys<V>(m: seq<Slot<V>>, k: string)
    requires Distinct(m)
    ensures Distinct(Remove(m, k))
  {
    if m != [] {
      DistinctRest(m);
      if m[0].key != k {
        RemoveKeys(m[1..], k);
        HeadIsAlone(m);
        GetRemove(m[1..], k, m[0].key);
        DistinctCons(m[0], Remove(m[1..], k));
      }
    }
  }

  /** Dropping the oldest slot forgets its key and no other. */
  lemma GetRest<V>(m: seq<Slot<V>>, other: string)
    requires Distinct(m) && m != []
    ensures Get(m[1..], other) == if other == m[0].key then None else Get(m, other)
  {
    if other == m[0].key {
      GetSome(m[1..], other);
    }
  }
}
