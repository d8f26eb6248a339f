/** The faucet's input selection: largest holdings first, until they cover amount and fee. */
module Inputs {
  import opened Results

  /** One of the funder's holdings; amounts are atomic units. */
  datatype Holding = Holding(cid: string, amount: int)

  function Sum(hs: seq<Holding>): int {
    if hs == [] then 0 else hs[0].amount + Sum(hs[1..])
  }

  function Cids(hs: seq<Holding>): seq<string> {
    seq(|hs|, i requires 0 <= i < |hs| => hs[i].cid)
  }

  predicate Usable(h: Holding) {
    h.cid != "" && h.amount > 0
  }

  function UsableOnes(hs: seq<Holding>): seq<Holding> {
    if hs == [] then [] else (if Usable(hs[0]) then [hs[0]] else []) + UsableOnes(hs[1..])
  }

  predicate LargestFirst(hs: seq<Holding>) {
    forall i, j :: 0 <= i < j < |hs| ==> hs[i].amount >= hs[j].amount
  }

  // ------------------------------------------------------------------------- sorting

  /** Behind everything at least as large, so that equal amounts keep their order. */
  function Insert(h: Holding, hs: seq<Holding>): seq<Holding> {
    if hs == [] || h.amount >= hs[0].amount then [h] + hs else [hs[0]] + Insert(h, hs[1..])
  }

  function Sorted(hs: seq<Holding>): seq<Holding> {
    if hs == [] then [] else Insert(hs[0], Sorted(hs[1..]))
  }

  lemma {:induction false} InsertKeeps(h: Holding, hs: seq<Holding>)
    requires LargestFirst(hs)
    ensures LargestFirst(Insert(h, hs)) && multiset(Insert(h, hs)) == multiset{h} + multiset(hs)
    ensures Insert(h, hs)[0] == if hs == [] || h.amount >= hs[0].amount then h else hs[0]
  {
    if hs != [] && h.amount < hs[0].amount {
      assert hs == [hs[0]] + hs[1..];
      RestSorted(hs);
      InsertKeeps(h, hs[1..]);
      HeadThenRest(hs[0], Insert(h, hs[1..]));
    } else if hs != [] {
      HeadThenRest(h, hs);
    }
  }

  lemma RestSorted(hs: seq<Holding>)
    requires LargestFirst(hs) && hs != []
    ensures LargestFirst(hs[1..]) && (|hs| > 1 ==> hs[0].amount >= hs[1].amount)
  {
    forall i, j | 0 <= i < j < |hs| - 1
      ensures hs[1..][i].amount >= hs[1..][j].amount
    {
      assert hs[i + 1].amount >= hs[j + 1].amount;
    }
  }

  lemma HeadThenRest(h: Holding, hs: seq<Holding>)
    requires LargestFirst(hs) && (hs != [] ==> h.amount >= hs[0].amount)
    ensures LargestFirst([h] + hs)
  {
    forall i, j | 0 <= i < j < |hs| + 1
      ensures ([h] + hs)[i].amount >= ([h] + hs)[j].amount
    {
      assert hs[0].amount >= hs[j - 1].amount || j == 1;
    }
  }

  lemma RestMultiset(hs: seq<Holding>)
    requires hs != []
    ensures multiset(hs) == multiset{hs[0]} + multiset(hs[1..])
  {
    assert hs == [hs[0]] + hs[1..];
  }

  lemma {:induction false} SortedIsPermutation(hs: seq<Holding>)
    ensures LargestFirst(Sorted(hs)) && multiset(Sorted(hs)) == multiset(hs)
  {
    if hs != [] {
      SortedIsPermutation(hs[1..]);
      InsertKeeps(hs[0], Sorted(hs[1..]));
      RestMultiset(hs);
    }
  }

  // ----------------------------------------------------------------------- selection

  /** The loop: how many of the sorted holdings are taken. */
  function Taken(hs: seq<Holding>, total: int, goal: int): nat {
    if hs == [] then 0
    else if total + hs[0].amount >= goal then 1
    else 1 + Taken(hs[1..], total + hs[0].amount, goal)
  }

  function Chosen(holdings: seq<Holding>, want: int, margin: int): (r: seq<Holding>)
    ensures r <= Sorted(UsableOnes(holdings))
  {
    var hs := Sorted(UsableOnes(holdings));
    TakenFits(hs, 0, want + margin);
    hs[..Taken(hs, 0, want + margin)]
  }

  lemma {:induction false} TakenFits(hs: seq<Holding>, total: int, goal: int)
    ensures Taken(hs, total, goal) <= |hs|
  {
    if hs != [] {
      TakenFits(hs[1..], total + hs[0].amount, goal);
    }
  }

  /** None is the error for a funder that cannot cover the amount. */
  method SelectInputs(holdings: seq<Holding>, want: int, margin: nat) returns (r: Option<seq<string>>)
    ensures var c := Chosen(holdings, want, margin);
            r == if Sum(c) < want || c == [] then None else Some(Cids(c))
  {
    var hs := Sorted(UsableOnes(holdings));
    var inputs: seq<string>, total, i := [], 0, 0;
    TakenFits(hs, 0, want + margin);
    while i < |hs|
      invariant i <= |hs| && total == Sum(hs[..i]) && inputs == Cids(hs[..i])
      invariant Taken(hs, 0, want + margin) == i + Taken(hs[i..], total, want + margin)
    {
      SumSnoc(hs, i);
      assert hs[i..][1..] == hs[i + 1..];
      inputs := inputs + [hs[i].cid];
      total := total + hs[i].amount;
      i := i + 1;
      if total >= want + margin {
        break;
      }
    }
    if total < want || inputs == [] {
      return None;
    }
    r := Some(inputs);
  }

  lemma {:induction false} SumConcat(a: seq<Holding>, b: seq<Holding>)
    ensures Sum(a + b) == Sum(a) + Sum(b)
  {
    if a == [] {
      assert a + b == b;
    } else {
      assert (a + b)[1..] == a[1..] + b;
      SumConcat(a[1..], b);
    }
  }

  lemma SumSnoc(hs: seq<Holding>, i: nat)
    requires i < |hs|
    ensures hs[..i + 1] == hs[..i] + [hs[i]] && Sum(hs[..i + 1]) == Sum(hs[..i]) + hs[i].amount
    ensures Cids(hs[..i + 1]) == Cids(hs[..i]) + [hs[i].cid]
  {
    SumConcat(hs[..i], [hs[i]]);
    assert hs[..i + 1] == hs[..i] + [hs[i]];
  }

  // ---------------------------------------------------------------------- properties

  /** Either the goal is reached, and not one holding earlier, or everything was taken. */
  lemma {:induction false} TakenMeans(hs: seq<Holding>, total: int, goal: int)
    requires total < goal || hs == []
    ensures var n := Taken(hs, total, goal);
            && n <= |hs|
            && (total + Sum(hs[..n]) >= goal || n == |hs|)
            && forall k :: 0 <= k < n ==> total + Sum(hs[..k]) < goal
  {
    if hs != [] {
      var next := total + hs[0].amount;
      if next < goal {
        TakenMeans(hs[1..], next, goal);
        var n := Taken(hs[1..], next, goal);
        SumCons(hs, n + 1);
        forall k | 0 <= k < n + 1
          ensures total + Sum(hs[..k]) < goal
        {
          if k > 0 {
            SumCons(hs, k);
            assert next + Sum(hs[1..][..k - 1]) < goal;
          }
        }
      } else {
        SumCons(hs, 1);
      }
    }
  }

  lemma SumCons(hs: seq<Holding>, n: nat)
    requires 0 < n <= |hs|
    ensures Sum(hs[..n]) == hs[0].amount + Sum(hs[1..][..n - 1])
  {
    assert hs[..n][1..] == hs[1..][..n - 1];
  }

  function Minus(pick: seq<Holding>, h: Holding): (r: seq<Holding>)
    requires h in pick
    ensures |r| == |pick| - 1
  {
    if pick[0] == h then pick[1..] else [pick[0]] + Minus(pick[1..], h)
  }

  lemma {:induction false} DropOne(pick: seq<Holding>, h: Holding)
    requires h in pick
    ensures multiset(Minus(pick, h)) == multiset(pick) - multiset{h} && Sum(pick) == h.amount + Sum(Minus(pick, h))
  {
    RestMultiset(pick);
    if pick[0] != h {
      DropOne(pick[1..], h);
      SumHead(pick[0], Minus(pick[1..], h));
      KeepHead(pick[0], h, multiset(pick[1..]));
    }
  }

  lemma SumHead(h: Holding, rest: seq<Holding>)
    ensures Sum([h] + rest) == h.amount + Sum(rest)
  {
    assert ([h] + rest)[1..] == rest;
  }

  lemma KeepHead(a: Holding, h: Holding, rest: multiset<Holding>)
    requires a != h && h in rest
    ensures multiset{a} + (rest - multiset{h}) == (multiset{a} + rest) - multiset{h}
  {}

  /** No choice of as many holdings beats the largest ones. */
  lemma {:induction false} LargestSum(hs: seq<Holding>, pick: seq<Holding>)
    requires LargestFirst(hs) && multiset(pick) <= multiset(hs)
    ensures |pick| <= |hs| && Sum(pick) <= Sum(hs[..|pick|])
    decreases |hs|, 1
  {
    PickFits(hs, pick);
    if pick != [] {
      RestMultiset(hs);
      if hs[0] in pick {
        LargestWithHead(hs, pick);
      } else {
        RestSorted(hs);
        WithoutHead(multiset(pick), multiset(hs[1..]), hs[0]);
        LargestSum(hs[1..], pick);
        ShiftSum(hs, |pick|);
      }
    }
  }

  lemma {:induction false} LargestWithHead(hs: seq<Holding>, pick: seq<Holding>)
    requires hs != [] && hs[0] in pick && LargestFirst(hs) && multiset(pick) <= multiset(hs) && |pick| <= |hs|
    ensures Sum(pick) <= Sum(hs[..|pick|])
    decreases |hs|, 0
  {
    DropOne(pick, hs[0]);
    RestMultiset(hs);
    WithoutBoth(multiset(pick), multiset(hs[1..]), hs[0]);
    RestSorted(hs);
    LargestSum(hs[1..], Minus(pick, hs[0]));
    SumCons(hs, |pick|);
  }

  lemma WithoutBoth(pick: multiset<Holding>, rest: multiset<Holding>, h: Holding)
    requires pick <= multiset{h} + rest
    ensures pick - multiset{h} <= rest
  {}

  lemma WithoutHead(pick: multiset<Holding>, rest: multiset<Holding>, h: Holding)
    requires pick <= multiset{h} + rest && h !in pick
    ensures pick <= rest
  {}

  lemma PickFits(hs: seq<Holding>, pick: seq<Holding>)
    requires multiset(pick) <= multiset(hs)
    ensures |pick| <= |hs|
  {
    assert |multiset(hs)| == |multiset(pick)| + |multiset(hs) - multiset(pick)|;
  }

  lemma {:induction false} ShiftSum(hs: seq<Holding>, n: nat)
    requires LargestFirst(hs) && n < |hs|
    ensures Sum(hs[1..][..n]) <= Sum(hs[..n])
    decreases n
  {
    if n > 0 {
      RestSorted(hs);
      ShiftSum(hs[1..], n - 1);
      SumCons(hs[1..], n);
      SumCons(hs, n);
    }
  }

  predicate AllUsable(hs: seq<Holding>) {
    forall i :: 0 <= i < |hs| ==> Usable(hs[i])
  }

  lemma {:induction false} OnesAreUsable(hs: seq<Holding>)
    ensures AllUsable(UsableOnes(hs))
  {
    if hs != [] {
      OnesAreUsable(hs[1..]);
    }
  }

  lemma SortedUsable(hs: seq<Holding>)
    requires AllUsable(hs)
    ensures AllUsable(Sorted(hs))
  {
    SortedIsPermutation(hs);
    forall i | 0 <= i < |Sorted(hs)|
      ensures Usable(Sorted(hs)[i])
    {
      assert Sorted(hs)[i] in multiset(hs);
    }
  }

  lemma {:induction false} SumNotNegative(hs: seq<Holding>)
    requires AllUsable(hs)
    ensures Sum(hs) >= 0
  {
    if hs != [] {
      SumNotNegative(hs[1..]);
    }
  }

  lemma SumGrows(hs: seq<Holding>, n: nat)
    requires AllUsable(hs) && n <= |hs|
    ensures Sum(hs[..n]) <= Sum(hs)
  {
    assert hs == hs[..n] + hs[n..];
    SumConcat(hs[..n], hs[n..]);
    SumNotNegative(hs[n..]);
  }

  /** With nothing to reach, the first holding is enough and is all that is taken. */
  lemma TakenForNothing(hs: seq<Holding>, goal: int)
    requires goal <= 0 && hs != [] && AllUsable(hs)
    ensures Taken(hs, 0, goal) == 1 && Sum(hs[..1]) == hs[0].amount > 0
  {
    assert hs[..1][1..] == [];
  }

  /** Where the loop stops: the goal reached and not one holding earlier, or everything taken. */
  lemma StopsInTime(hs: seq<Holding>, goal: int)
    requires AllUsable(hs)
    ensures var n := Taken(hs, 0, goal);
            && n <= |hs| && (Sum(hs[..n]) >= goal || n == |hs|)
            && forall k :: 0 <= k < n && (k > 0 || goal > 0) ==> Sum(hs[..k]) < goal
  {
    TakenFits(hs, 0, goal);
    if goal <= 0 && hs != [] {
      TakenForNothing(hs, goal);
    } else {
      TakenMeans(hs, 0, goal);
    }
  }

  lemma SortedFacts(holdings: seq<Holding>)
    ensures var all := UsableOnes(holdings);
            && LargestFirst(Sorted(all)) && multiset(Sorted(all)) == multiset(all)
            && AllUsable(Sorted(all)) && Sum(Sorted(all)) == Sum(all)
  {
    var all := UsableOnes(holdings);
    SortedIsPermutation(all);
    SortSum(all);
    OnesAreUsable(holdings);
    SortedUsable(all);
  }

  lemma LeastOfSorted(hs: seq<Holding>, goal: int, pick: seq<Holding>)
    requires LargestFirst(hs) && AllUsable(hs) && multiset(pick) <= multiset(hs)
    ensures var n := Taken(hs, 0, goal); n <= |hs| && (|pick| < n && (pick != [] || goal > 0) ==> Sum(pick) < goal)
  {
    StopsInTime(hs, goal);
    LargestSum(hs, pick);
  }

  lemma GoalOrAll(hs: seq<Holding>, goal: int)
    requires AllUsable(hs)
    ensures var n := Taken(hs, 0, goal); n <= |hs| && (Sum(hs[..n]) >= goal || hs[..n] == hs)
  {
    StopsInTime(hs, goal);
    assert hs[..|hs|] == hs;
  }

  /** The selection covers amount and margin, or it is every usable holding there is; and no
      smaller choice of usable holdings covers amount and margin. */
  lemma SelectionIsLeast(holdings: seq<Holding>, want: int, margin: nat, pick: seq<Holding>)
    ensures var c := Chosen(holdings, want, margin);
            var all := UsableOnes(holdings);
            && (Sum(c) >= want + margin || c == Sorted(all))
            && (multiset(pick) <= multiset(all) && |pick| < |c| && (pick != [] || want + margin > 0)
                ==> Sum(pick) < want + margin)
  {
    var hs := Sorted(UsableOnes(holdings));
    SortedFacts(holdings);
    GoalOrAll(hs, want + margin);
    if multiset(pick) <= multiset(hs) {
      LeastOfSorted(hs, want + margin, pick);
    }
  }

  lemma ShortOnlyWhenAllShort(hs: seq<Holding>, want: int, margin: nat)
    requires AllUsable(hs)
    ensures var n := Taken(hs, 0, want + margin);
            n <= |hs| && (n == 0 <==> hs == []) && (Sum(hs[..n]) < want <==> Sum(hs) < want)
  {
    StopsInTime(hs, want + margin);
    var n := Taken(hs, 0, want + margin);
    SumGrows(hs, n);
    if n == |hs| {
      assert hs[..n] == hs;
    }
  }

  /** The selection is refused exactly when no holding is usable or all the usable ones
      together do not cover the amount. */
  lemma RefusedExactly(holdings: seq<Holding>, want: int, margin: nat)
    ensures var c := Chosen(holdings, want, margin);
            var all := UsableOnes(holdings);
            (Sum(c) < want || c == []) <==> (Sum(all) < want || all == [])
  {
    SortedFacts(holdings);
    NoneSorted(UsableOnes(holdings));
    ShortOnlyWhenAllShort(Sorted(UsableOnes(holdings)), want, margin);
  }

  lemma NoneSorted(hs: seq<Holding>)
    ensures Sorted(hs) == [] <==> hs == []
  {
    if hs != [] {
      InsertNotEmpty(hs[0], Sorted(hs[1..]));
    }
  }

  lemma InsertNotEmpty(h: Holding, hs: seq<Holding>)
    ensures Insert(h, hs) != []
  {}

  lemma {:induction false} SortSum(hs: seq<Holding>)
    ensures Sum(Sorted(hs)) == Sum(hs)
  {
    if hs != [] {
      SortSum(hs[1..]);
      InsertSum(hs[0], Sorted(hs[1..]));
    }
  }

  lemma {:induction false} InsertSum(h: Holding, hs: seq<Holding>)
    ensures Sum(Insert(h, hs)) == h.amount + Sum(hs)
  {
    if hs == [] || h.amount >= hs[0].amount {
      assert ([h] + hs)[1..] == hs;
    } else {
      InsertSum(h, hs[1..]);
      assert Insert(h, hs)[1..] == Insert(h, hs[1..]);
    }
  }
}
