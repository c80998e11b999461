/** Which coins a merge spends: `selectMergeInputs` of src/tx.ts. */
module Merging {
  import opened Coins
  import opened Selection

  datatype MergePick = MergePick(inputs: seq<Coin>, reaches: bool)

  /** The amount a merge must gather: its target and the fee of `size` inputs and one output. */
  function MergeGoal(fee: FeeCeiling, target: nat, size: nat): nat {
    target + fee(size, 1, 0)
  }

  /** A selection of `size` coins: j from the top of the list and the rest from its bottom. */
  function Shape(desc: seq<Coin>, size: nat, j: nat): seq<Coin>
    requires j <= size <= |desc|
  {
    desc[..j] + desc[|desc| - (size - j)..]
  }

  function FirstReaching(desc: seq<Coin>, size: nat, goal: nat, j: nat): (r: nat)
    requires j <= size <= |desc|
    ensures j <= r <= size
    decreases size - j
  {
    if j < size && Sum(Shape(desc, size, j)) < goal then FirstReaching(desc, size, goal, j + 1) else j
  }

  function PickFrom(desc: seq<Coin>, size: nat, goal: nat): MergePick
    requires size <= |desc|
  {
    var j := FirstReaching(desc, size, goal, 0);
    MergePick(Shape(desc, size, j), Sum(Shape(desc, size, j)) >= goal)
  }

  function SelectMerge(fee: FeeCeiling, coins: seq<Coin>, target: nat, maxInputs: nat): MergePick {
    var desc := LargestFirst(coins);
    var size := Min(maxInputs, |desc|);
    PickFrom(desc, size, MergeGoal(fee, target, size))
  }

  function LargestFirst(coins: seq<Coin>): (r: seq<Coin>)
    ensures |r| == |coins| && multiset(r) == multiset(coins)
    ensures Sorted(Descending, r)
  {
    SortSorted(Descending, coins);
    Sort(Descending, coins)
  }

  lemma ShapeSum(desc: seq<Coin>, size: nat, j: nat)
    requires j <= size <= |desc|
    ensures Sum(Shape(desc, size, j)) == Sum(desc[..j]) + Sum(desc[|desc| - (size - j)..])
    ensures Sum(Shape(desc, size, j)) == Sum(desc[..j]) + Sum(desc) - Sum(desc[..|desc| - (size - j)])
  {
    hide Sum;
    var cut := |desc| - (size - j);
    SumConcat(desc[..j], desc[cut..]);
    SumSplit(desc, cut);
  }

  /** Running sums: `prefix[k]` adds up the first k coins. */
  method PrefixSums(coins: seq<Coin>) returns (prefix: seq<int>)
    ensures |prefix| == |coins| + 1
    ensures forall k :: 0 <= k <= |coins| ==> prefix[k] == Sum(coins[..k])
  {
    prefix := [0];
    for i := 0 to |coins|
      invariant |prefix| == i + 1
      invariant forall k :: 0 <= k <= i ==> prefix[k] == Sum(coins[..k])
    {
      SumSnoc(coins, i);
      prefix := prefix + [prefix[|prefix| - 1] + coins[i].sats];
    }
  }

  /** Two subtractions of running sums price each shape, so the search never re-adds a list. */
  method SearchShapes(desc: seq<Coin>, prefix: seq<int>, size: nat, goal: nat) returns (j: nat)
    requires size <= |desc| && |prefix| == |desc| + 1
    requires forall k :: 0 <= k <= |desc| ==> prefix[k] == Sum(desc[..k])
    ensures j == FirstReaching(desc, size, goal, 0)
    ensures Sum(Shape(desc, size, j)) == prefix[j] + prefix[|desc|] - prefix[|desc| - (size - j)]
  {
    hide Sum, Shape;
    var n := |desc|;
    assert desc[..n] == desc;
    j := 0;
    ShapeSum(desc, size, 0);
    while j < size && prefix[j] + prefix[n] - prefix[n - (size - j)] < goal
      invariant 0 <= j <= size
      invariant Sum(Shape(desc, size, j)) == prefix[j] + prefix[n] - prefix[n - (size - j)]
      invariant FirstReaching(desc, size, goal, 0) == FirstReaching(desc, size, goal, j)
    {
      j := j + 1;
      ShapeSum(desc, size, j);
    }
  }

  method SelectMergeInputs(fee: FeeCeiling, coins: seq<Coin>, target: nat, maxInputs: nat)
    returns (r: MergePick)
    ensures r == SelectMerge(fee, coins, target, maxInputs)
  {
    var descending := LargestFirst(coins);
    var n := |descending|;
    var size := Min(maxInputs, n);
    var goal := MergeGoal(fee, target, size);
    var prefix := PrefixSums(descending);
    var j := SearchShapes(descending, prefix, size, goal);
    return MergePick(descending[..j] + descending[n - (size - j)..],
                     prefix[j] + prefix[n] - prefix[n - (size - j)] >= goal);
  }

  // ------------------------------------------------------------------ optimality

  lemma {:induction false} FirstReachingLeast(desc: seq<Coin>, size: nat, goal: nat, j: nat)
    requires j <= size <= |desc|
    ensures var r := FirstReaching(desc, size, goal, j);
      && (forall k :: j <= k < r ==> Sum(Shape(desc, size, k)) < goal)
      && (r < size ==> Sum(Shape(desc, size, r)) >= goal)
    decreases size - j
  {
    if j < size && Sum(Shape(desc, size, j)) < goal {
      FirstReachingLeast(desc, size, goal, j + 1);
    }
  }

  lemma PicksStep(run: seq<Coin>, t: seq<Coin>) returns (t': seq<Coin>)
    requires run != [] && Picks(run, t)
    ensures |t'| == |t| - 1 && Sum(t) == run[0].sats + Sum(t') && Picks(run[1..], t') && Picks(t', t)
  {
    assert run[0] in multiset(run);
    t' := Without(t, run[0]);
    assert run == [run[0]] + run[1..];
  }

  /** Taking a sub-list out of a list. */
  lemma {:induction false} Subtract(run: seq<Coin>, t: seq<Coin>) returns (rest: seq<Coin>)
    requires Picks(run, t)
    ensures |t| == |run| + |rest| && Sum(t) == Sum(run) + Sum(rest) && Picks(rest, t)
    decreases |run|
  {
    if run == [] {
      rest := t;
    } else {
      hide Picks;
      var t' := PicksStep(run, t);
      rest := Subtract(run[1..], t');
      PicksTrans(rest, t', t);
    }
  }

  lemma ShapePicks(desc: seq<Coin>, size: nat, j: nat)
    requires j <= size <= |desc|
    ensures Picks(Shape(desc, size, j), desc) && |Shape(desc, size, j)| == size
    ensures Picks(desc[|desc| - (size - j)..], Shape(desc, size, j))
  {
    var a, b, c := desc[..j], desc[j..|desc| - (size - j)], desc[|desc| - (size - j)..];
    assert desc == a + b + c;
  }

  /** A choice that holds the m smallest coins sums to no more than the shape with that many. */
  lemma RunBound(desc: seq<Coin>, size: nat, m: nat, t: seq<Coin>)
    requires Sorted(Descending, desc) && m <= size <= |desc|
    requires Picks(t, desc) && |t| == size && Picks(desc[|desc| - m..], t)
    ensures Sum(t) <= Sum(Shape(desc, size, size - m))
  {
    hide Picks, Sorted, Sum;
    var run := desc[|desc| - m..];
    var rest := Subtract(run, t);
    PicksTrans(rest, t, desc);
    Extreme(Descending, desc, rest);
    ShapeSum(desc, size, size - m);
  }

  /** Any choice of at most `size` coins sums to no more than the `size` largest. */
  lemma TopBound(desc: seq<Coin>, size: nat, t: seq<Coin>)
    requires Sorted(Descending, desc) && size <= |desc| && Picks(t, desc) && |t| <= size
    ensures Sum(t) <= Sum(desc[..size])
  {
    hide Sum, Picks, Sorted;
    Extreme(Descending, desc, t);
    assert desc[..size][..|t|] == desc[..|t|];
    SumSplit(desc[..size], |t|);
  }

  lemma PickReaches(desc: seq<Coin>, size: nat, goal: nat)
    requires Sorted(Descending, desc) && size <= |desc|
    ensures var r := PickFrom(desc, size, goal);
      && Picks(r.inputs, desc) && |r.inputs| == size
      && (r.reaches <==> Sum(r.inputs) >= goal)
      && (r.reaches || Sum(r.inputs) == Sum(desc[..size]))
      && (r.reaches <==> Sum(desc[..size]) >= goal)
  {
    hide Picks, Sum, FirstReaching;
    FirstReachingLeast(desc, size, goal, 0);
    var j := FirstReaching(desc, size, goal, 0);
    ShapePicks(desc, size, j);
    assert desc[..size] == Shape(desc, size, size);
    TopBound(desc, size, Shape(desc, size, j));
  }

  /**
   * `selectMergeInputs` spends exactly min(maxInputs, n) of the wallet's coins;
   * it reaches its goal iff any choice of that many or fewer does; and short of
   * the goal it takes the largest sum there is.
   */
  lemma MergeReaches(fee: FeeCeiling, coins: seq<Coin>, target: nat, maxInputs: nat)
    ensures var r := SelectMerge(fee, coins, target, maxInputs);
      var size := Min(maxInputs, |coins|);
      var goal := target + fee(size, 1, 0);
      && Picks(r.inputs, coins) && |r.inputs| == size
      && (r.reaches <==> Sum(r.inputs) >= goal)
      && (r.reaches <==> exists t :: Picks(t, coins) && |t| <= size && Sum(t) >= goal)
      && (!r.reaches ==> forall t :: Picks(t, coins) && |t| <= size ==> Sum(t) <= Sum(r.inputs))
  {
    hide Picks, Sum, PickFrom, LargestFirst, Sorted;
    var desc := LargestFirst(coins);
    var size := Min(maxInputs, |coins|);
    var goal := MergeGoal(fee, target, size);
    PickReaches(desc, size, goal);
    var r := PickFrom(desc, size, goal);
    PicksPermutation(r.inputs, desc, coins);
    forall t | Picks(t, coins) && |t| <= size ensures Sum(t) <= Sum(desc[..size]) {
      PicksPermutation(t, coins, desc);
      TopBound(desc, size, t);
    }
  }

  /** The k smallest coins of a wallet. */
  function Smallest(coins: seq<Coin>, k: nat): seq<Coin>
    requires k <= |coins|
  {
    LargestFirst(coins)[|coins| - k..]
  }

  /** How many of the smallest coins the merge sweeps. */
  function SweptRun(fee: FeeCeiling, coins: seq<Coin>, target: nat, maxInputs: nat): (m: nat)
    ensures m <= Min(maxInputs, |coins|)
  {
    var size := Min(maxInputs, |coins|);
    size - FirstReaching(LargestFirst(coins), size, MergeGoal(fee, target, size), 0)
  }

  lemma PickSweepsMost(desc: seq<Coin>, size: nat, goal: nat, t: seq<Coin>, k: nat)
    requires Sorted(Descending, desc) && k <= size <= |desc| && PickFrom(desc, size, goal).reaches
    requires Picks(t, desc) && |t| == size && Sum(t) >= goal && Picks(desc[|desc| - k..], t)
    ensures k <= size - FirstReaching(desc, size, goal, 0)
  {
    hide Picks, Sorted, Sum, Shape;
    FirstReachingLeast(desc, size, goal, 0);
    RunBound(desc, size, k, t);
  }

  lemma PickSweepsRun(desc: seq<Coin>, size: nat, goal: nat)
    requires size <= |desc|
    ensures var j := FirstReaching(desc, size, goal, 0);
      Picks(desc[|desc| - (size - j)..], PickFrom(desc, size, goal).inputs)
  {
    hide Picks, Shape, FirstReaching;
    ShapePicks(desc, size, FirstReaching(desc, size, goal, 0));
  }

  /** The merge spends the whole run it is said to sweep. */
  lemma MergeSweepsRun(fee: FeeCeiling, coins: seq<Coin>, target: nat, maxInputs: nat)
    ensures Picks(Smallest(coins, SweptRun(fee, coins, target, maxInputs)),
                  SelectMerge(fee, coins, target, maxInputs).inputs)
  {
    hide Picks, FirstReaching, Shape, MergeGoal, LargestFirst;
    var desc := LargestFirst(coins);
    var size := Min(maxInputs, |desc|);
    PickSweepsRun(desc, size, MergeGoal(fee, target, size));
  }

  /** A shorter run of the smallest coins is part of a longer one. */
  lemma RunWithin(coins: seq<Coin>, k: nat, m: nat)
    requires k <= m <= |coins|
    ensures Picks(Smallest(coins, k), Smallest(coins, m))
  {
    var long := Smallest(coins, m);
    assert long == long[..m - k] + long[m - k..];
    assert long[m - k..] == Smallest(coins, k);
  }

  /**
   * The merge reaches its goal exactly when some choice of as many coins as one
   * merge may spend pays for the target and for the fee of a merge of that size.
   */
  lemma ReachesIff(fee: FeeCeiling, coins: seq<Coin>, target: nat, maxInputs: nat)
    ensures SelectMerge(fee, coins, target, maxInputs).reaches <==>
      exists t :: Picks(t, coins) && |t| <= Min(maxInputs, |coins|)
        && Sum(t) >= target + fee(Min(maxInputs, |coins|), 1, 0)
  {
    hide SelectMerge, Picks, Sum;
    MergeReaches(fee, coins, target, maxInputs);
  }

  /** When a merge reaches its goal, no reaching choice of its size sweeps a longer run of the smallest coins. */
  lemma MergeSweepsMost(fee: FeeCeiling, coins: seq<Coin>, target: nat, maxInputs: nat, t: seq<Coin>, k: nat)
    requires SelectMerge(fee, coins, target, maxInputs).reaches
    requires Picks(t, coins) && |t| == Min(maxInputs, |coins|) && k <= |t|
    requires Sum(t) >= target + fee(|t|, 1, 0) && Picks(Smallest(coins, k), t)
    ensures k <= SweptRun(fee, coins, target, maxInputs)
    ensures Picks(Smallest(coins, k), SelectMerge(fee, coins, target, maxInputs).inputs)
  {
    hide Picks, FirstReaching, Shape, LargestFirst, Sum;
    MergeSweepsRun(fee, coins, target, maxInputs);
    PicksPermutation(t, coins, LargestFirst(coins));
    PickSweepsMost(LargestFirst(coins), |t|, MergeGoal(fee, target, |t|), t, k);
    RunWithin(coins, k, SweptRun(fee, coins, target, maxInputs));
    PicksTrans(Smallest(coins, k), Smallest(coins, SweptRun(fee, coins, target, maxInputs)),
               SelectMerge(fee, coins, target, maxInputs).inputs);
  }
}
