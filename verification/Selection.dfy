/** Which coins a transaction spends: `selectInputs` and `selectMergeInputs` of src/tx.ts. */
module Selection {
  import opened Coins

  /** Worst-case fee in duffs for a shape: inputs, outputs, extra payload bytes. */
  type FeeCeiling = (nat, nat, nat) -> nat

  ghost predicate AllConfirmed(s: seq<Coin>) {
    forall c: Coin :: c in s ==> c.Confirmed()
  }

  datatype Goal = Goal(fee: FeeCeiling, target: nat, outputs: nat, payload: nat) {
    function Required(inputs: nat): nat {
      target + fee(if inputs < 1 then 1 else inputs, outputs, payload)
    }

    /** These coins pay for the target and for the fee of spending exactly them. */
    ghost predicate CoveredBy(s: seq<Coin>) {
      s != [] && Sum(s) >= target + fee(|s|, outputs, payload)
    }

    ghost predicate Alone(coins: seq<Coin>, c: Coin) {
      c in coins && c.sats >= target + fee(1, outputs, payload)
    }

    ghost predicate SomeAlone(coins: seq<Coin>) {
      exists c :: Alone(coins, c)
    }

    /** A choice of coins, confirmed or not, that covers the target. */
    ghost predicate Joint(coins: seq<Coin>, s: seq<Coin>) {
      Picks(s, coins) && CoveredBy(s)
    }

    ghost predicate SomeJoint(coins: seq<Coin>) {
      exists s :: Joint(coins, s)
    }

    /** A choice of confirmed coins that covers the target. */
    ghost predicate Settled(coins: seq<Coin>, s: seq<Coin>) {
      Joint(coins, s) && AllConfirmed(s)
    }

    ghost predicate SomeSettled(coins: seq<Coin>) {
      exists s :: Settled(coins, s)
    }
  }

  datatype Selection =
    | Selected(coins: seq<Coin>)
    | UnconfirmedFunds(confirmed: nat, required: nat)
    | InsufficientFunds(available: nat, required: nat)

  function FirstAtLeast(s: seq<Coin>, bound: nat): Option<Coin> {
    if s == [] then None
    else if s[0].sats >= bound then Some(s[0])
    else FirstAtLeast(s[1..], bound)
  }

  /** The shortest prefix, longer than `from` coins, that covers the goal. */
  function CoveringPrefix(g: Goal, s: seq<Coin>, from: nat): Option<seq<Coin>>
    decreases |s| - from
  {
    if from >= |s| then None
    else if Sum(s[..from + 1]) >= g.Required(from + 1) then Some(s[..from + 1])
    else CoveringPrefix(g, s, from + 1)
  }

  function Reverse(s: seq<Coin>): seq<Coin> {
    if s == [] then [] else Reverse(s[1..]) + [s[0]]
  }

  function ConfirmedOf(s: seq<Coin>): seq<Coin> {
    Filter(s, (c: Coin) => c.Confirmed())
  }

  function Select(g: Goal, coins: seq<Coin>): Selection {
    var ascending := Sort(Ascending, coins);
    var single := FirstAtLeast(ascending, g.Required(1));
    if single.Some? then Selected([single.value]) else
    var descending := Reverse(ascending);
    var confirmed := ConfirmedOf(descending);
    var picked := CoveringPrefix(g, confirmed, 0);
    if picked.Some? then Selected(picked.value)
    else if CoveringPrefix(g, descending, 0).Some? then
      UnconfirmedFunds(Sum(confirmed), g.Required(|confirmed|))
    else InsufficientFunds(Sum(coins), g.Required(|coins|))
  }

  // ------------------------------------------------------------------ the loops

  method LargestFirst(g: Goal, coins: seq<Coin>) returns (r: Option<seq<Coin>>)
    ensures r == CoveringPrefix(g, coins, 0)
    ensures r.Some? ==> r.value <= coins && g.CoveredBy(r.value)
    ensures forall k :: 0 < k <= |coins| && (r.None? || k < |r.value|) ==> !g.CoveredBy(coins[..k])
  {
    var picked: seq<Coin> := [];
    var sum := 0;
    for i := 0 to |coins|
      invariant picked == coins[..i] && sum == Sum(picked)
      invariant CoveringPrefix(g, coins, 0) == CoveringPrefix(g, coins, i)
      invariant forall k :: 0 < k <= i ==> !g.CoveredBy(coins[..k])
    {
      SumSnoc(coins, i);
      picked := picked + [coins[i]];
      sum := sum + coins[i].sats;
      assert picked == coins[..i + 1];
      if sum >= g.Required(|picked|) {
        return Some(picked);
      }
    }
    return None;
  }

  method SelectInputs(g: Goal, coins: seq<Coin>) returns (r: Selection)
    ensures r == Select(g, coins)
  {
    var ascending := Sort(Ascending, coins);
    var i := 0;
    while i < |ascending| && ascending[i].sats < g.Required(1)
      invariant i <= |ascending|
      invariant FirstAtLeast(ascending, g.Required(1)) == FirstAtLeast(ascending[i..], g.Required(1))
    {
      assert ascending[i..][1..] == ascending[i + 1..];
      i := i + 1;
    }
    if i < |ascending| {
      return Selected([ascending[i]]);
    }
    var descending := Reverse(ascending);
    var confirmed := ConfirmedOf(descending);
    var picked := LargestFirst(g, confirmed);
    if picked.Some? {
      return Selected(picked.value);
    }
    var all := LargestFirst(g, descending);
    if all.Some? {
      return UnconfirmedFunds(Sum(confirmed), g.Required(|confirmed|));
    }
    return InsufficientFunds(Sum(coins), g.Required(|coins|));
  }

  // ------------------------------------------------------------------ what it chooses

  lemma {:induction false} ReverseSorted(s: seq<Coin>)
    requires Sorted(Ascending, s)
    ensures Sorted(Descending, Reverse(s)) && multiset(Reverse(s)) == multiset(s)
  {
    if s != [] {
      var t := Reverse(s[1..]);
      ReverseSorted(s[1..]);
      assert s == [s[0]] + s[1..];
      forall x | x in t ensures x.sats >= s[0].sats {
        assert x in multiset(t);
      }
    }
  }

  lemma {:induction false} FilterSorted(o: Order, s: seq<Coin>, p: Coin -> bool)
    requires Sorted(o, s)
    ensures Sorted(o, Filter(s, p))
  {
    if s != [] {
      var rest := Filter(s[1..], p);
      FilterSorted(o, s[1..], p);
      FilterIn(s[1..], p);
      forall x | x in rest ensures o.Le(s[0], x) {
        assert x in s[1..];
      }
    }
  }

  lemma {:induction false} FirstAtLeastSmallest(s: seq<Coin>, bound: nat)
    requires Sorted(Ascending, s)
    ensures match FirstAtLeast(s, bound)
      case None => forall c :: c in s ==> c.sats < bound
      case Some(c) => c in s && c.sats >= bound && forall d :: d in s && d.sats >= bound ==> c.sats <= d.sats
  {
    if s != [] {
      FirstAtLeastSmallest(s[1..], bound);
    }
  }

  lemma {:induction false} CoveringPrefixShortest(g: Goal, s: seq<Coin>, from: nat)
    ensures match CoveringPrefix(g, s, from)
      case None => forall k :: from < k <= |s| ==> !g.CoveredBy(s[..k])
      case Some(p) =>
        && from < |p| <= |s| && p == s[..|p|] && g.CoveredBy(p)
        && forall k :: from < k < |p| ==> !g.CoveredBy(s[..k])
    decreases |s| - from
  {
    if from < |s| && Sum(s[..from + 1]) < g.Required(from + 1) {
      CoveringPrefixShortest(g, s, from + 1);
    }
  }

  /** On a list sorted largest first, the covering prefix exists iff any choice covers, and none is smaller. */
  lemma PrefixDecides(g: Goal, s: seq<Coin>)
    requires Sorted(Descending, s)
    ensures CoveringPrefix(g, s, 0).Some? <==> g.SomeJoint(s)
    ensures var p := CoveringPrefix(g, s, 0); p.Some? ==>
      g.Joint(s, p.value)
      && (forall t :: g.Joint(s, t) ==> |p.value| <= |t|)
      && (forall t :: Picks(t, s) && |t| == |p.value| ==> Sum(t) <= Sum(p.value))
  {
    CoveringPrefixShortest(g, s, 0);
    var p := CoveringPrefix(g, s, 0);
    if p.Some? {
      assert s == p.value + s[|p.value|..];
      assert g.Joint(s, p.value);
    }
    forall t | Picks(t, s) ensures |t| <= |s| && Sum(t) <= Sum(s[..|t|]) {
      Extreme(Descending, s, t);
    }
    forall t | g.Joint(s, t) ensures p.Some? && |p.value| <= |t| {
      assert g.CoveredBy(s[..|t|]);
    }
  }

  /** Reordering the wallet changes nothing about which choices there are. */
  lemma JointPermutation(g: Goal, a: seq<Coin>, b: seq<Coin>)
    requires multiset(a) == multiset(b)
    ensures g.SomeJoint(a) <==> g.SomeJoint(b)
    ensures forall t :: g.Joint(a, t) <==> g.Joint(b, t)
  {
    forall t ensures g.Joint(a, t) <==> g.Joint(b, t) {}
  }

  lemma SettledFilter(g: Goal, coins: seq<Coin>)
    ensures forall t :: g.Joint(ConfirmedOf(coins), t) <==> g.Settled(coins, t)
    ensures g.SomeJoint(ConfirmedOf(coins)) <==> g.SomeSettled(coins)
  {
    forall t ensures g.Joint(ConfirmedOf(coins), t) <==> g.Settled(coins, t) {
      PicksFilter(t, coins, (c: Coin) => c.Confirmed());
    }
  }

  /** The sorted views `Select` works on hold exactly the wallet's coins. */
  lemma SortedViews(coins: seq<Coin>) returns (descending: seq<Coin>)
    ensures descending == Reverse(Sort(Ascending, coins))
    ensures Sorted(Descending, descending) && multiset(descending) == multiset(coins)
    ensures Sorted(Descending, ConfirmedOf(descending))
    ensures forall c :: c in Sort(Ascending, coins) <==> c in coins
  {
    SortSorted(Ascending, coins);
    descending := Reverse(Sort(Ascending, coins));
    ReverseSorted(Sort(Ascending, coins));
    FilterSorted(Descending, descending, (c: Coin) => c.Confirmed());
  }

  /** A single coin that covers the goal wins, and it is the smallest such coin. */
  lemma SelectAlone(g: Goal, coins: seq<Coin>)
    requires g.SomeAlone(coins)
    ensures var r := Select(g, coins);
      && r.Selected? && |r.coins| == 1 && g.Alone(coins, r.coins[0])
      && forall d :: g.Alone(coins, d) ==> r.coins[0].sats <= d.sats
  {
    SortSorted(Ascending, coins);
    FirstAtLeastSmallest(Sort(Ascending, coins), g.Required(1));
  }

  lemma NoneAlone(g: Goal, coins: seq<Coin>)
    requires !g.SomeAlone(coins)
    ensures FirstAtLeast(Sort(Ascending, coins), g.Required(1)).None?
  {
    SortSorted(Ascending, coins);
    FirstAtLeastSmallest(Sort(Ascending, coins), g.Required(1));
    forall c | c in coins ensures c.sats < g.Required(1) {
      assert !g.Alone(coins, c);
    }
  }

  /**
   * With no such coin: the fewest confirmed coins that cover the goal, and the
   * largest sum of that many, whenever any confirmed coins cover it at all.
   */
  lemma SelectSettled(g: Goal, coins: seq<Coin>)
    requires !g.SomeAlone(coins)
    ensures var r := Select(g, coins);
      && (r.Selected? <==> g.SomeSettled(coins))
      && (r.Selected? ==>
        && g.Settled(coins, r.coins)
        && (forall t :: g.Settled(coins, t) ==> |r.coins| <= |t|)
        && (forall t :: Picks(t, coins) && |t| == |r.coins| && AllConfirmed(t)
              ==> Sum(t) <= Sum(r.coins)))
      && (r.UnconfirmedFunds? <==> !g.SomeSettled(coins) && g.SomeJoint(coins))
      && (r.InsufficientFunds? <==> !g.SomeJoint(coins))
  {
    hide Picks, Sum, Sort, Filter, Reverse, CoveringPrefix, FirstAtLeast, Sorted;
    NoneAlone(g, coins);
    var descending := SortedViews(coins);
    var confirmed := ConfirmedOf(descending);
    PrefixDecides(g, confirmed);
    PrefixDecides(g, descending);
    SettledFilter(g, descending);
    JointPermutation(g, descending, coins);
    forall t ensures g.Settled(descending, t) <==> g.Settled(coins, t) {}
    assert g.SomeSettled(descending) <==> g.SomeSettled(coins);
    forall t | Picks(t, coins) && AllConfirmed(t) ensures Picks(t, confirmed) {
      PicksPermutation(t, coins, descending);
      PicksFilter(t, descending, (c: Coin) => c.Confirmed());
    }
    if g.SomeSettled(coins) {
      var t :| g.Settled(coins, t);
      assert g.Joint(coins, t);
    }
  }

  /** A covering choice of one coin is that coin alone. */
  lemma JointOfOne(g: Goal, coins: seq<Coin>, t: seq<Coin>)
    requires g.Joint(coins, t) && |t| == 1
    ensures g.Alone(coins, t[0])
  {
    assert t[1..] == [];
    assert Sum(t) == t[0].sats + Sum(t[1..]);
    assert t[0] in multiset(t);
  }

  /**
   * `selectInputs` is complete: it refuses as insufficient exactly when no
   * non-empty choice of coins covers target and fee, and as unconfirmed exactly
   * when some do but every one that does joins two or more coins of which one
   * is unconfirmed.
   */
  lemma SelectComplete(g: Goal, coins: seq<Coin>)
    ensures Select(g, coins).InsufficientFunds? <==> !g.SomeJoint(coins)
    ensures Select(g, coins).UnconfirmedFunds? <==>
      && g.SomeJoint(coins)
      && forall t :: g.Joint(coins, t) ==> |t| >= 2 && !AllConfirmed(t)
    ensures Select(g, coins).Selected? <==> g.SomeAlone(coins) || g.SomeSettled(coins)
  {
    if g.SomeAlone(coins) {
      SelectAlone(g, coins);
      var c :| g.Alone(coins, c);
      assert c in multiset(coins);
      assert [c][1..] == [];
      assert Sum([c]) == c.sats && Picks([c], coins);
      assert g.Joint(coins, [c]);
    } else {
      SelectSettled(g, coins);
      forall t | g.Joint(coins, t) ensures |t| >= 2 {
        if |t| == 1 {
          JointOfOne(g, coins, t);
        }
      }
      if Select(g, coins).UnconfirmedFunds? {
        forall t | g.Joint(coins, t) ensures !AllConfirmed(t) {
          assert !g.Settled(coins, t);
        }
      }
    }
  }

  /** Whatever is selected is a choice from the wallet that covers the goal. */
  lemma SelectSound(g: Goal, coins: seq<Coin>)
    requires Select(g, coins).Selected?
    ensures g.Joint(coins, Select(g, coins).coins)
    ensures |Select(g, coins).coins| == 1 || AllConfirmed(Select(g, coins).coins)
  {
    if g.SomeAlone(coins) {
      SelectAlone(g, coins);
      var r := Select(g, coins).coins;
      assert r == [r[0]] && r[1..] == [];
      assert r[0] in multiset(coins);
    } else {
      SelectSettled(g, coins);
    }
  }

  /** The selection needs the fewest coins: one if one suffices, else no settled choice is smaller. */
  lemma SelectMinimal(g: Goal, coins: seq<Coin>, t: seq<Coin>)
    requires g.Settled(coins, t)
    ensures Select(g, coins).Selected? && |Select(g, coins).coins| <= |t|
  {
    if g.SomeAlone(coins) {
      SelectAlone(g, coins);
    } else {
      SelectSettled(g, coins);
    }
  }

  /**
   * What a refusal reports: what the confirmed coins, or all of them, sum to,
   * and what spending just as many would have to pay for.
   */
  lemma RefusalAmounts(g: Goal, coins: seq<Coin>)
    ensures var r := Select(g, coins);
      && (r.UnconfirmedFunds? ==>
            && r.confirmed == Sum(ConfirmedOf(coins))
            && r.required == g.target + g.fee(Max(1, |ConfirmedOf(coins)|), g.outputs, g.payload))
      && (r.InsufficientFunds? ==>
            && r.available == Sum(coins)
            && r.required == g.target + g.fee(Max(1, |coins|), g.outputs, g.payload))
  {
    hide Sum, Sort, Filter, Reverse, CoveringPrefix, FirstAtLeast, Sorted;
    var descending := SortedViews(coins);
    ConfirmedPermutation(descending, coins);
  }

  lemma ConfirmedPermutation(a: seq<Coin>, b: seq<Coin>)
    requires multiset(a) == multiset(b)
    ensures Sum(ConfirmedOf(a)) == Sum(ConfirmedOf(b)) && |ConfirmedOf(a)| == |ConfirmedOf(b)|
  {
    hide Sum;
    var p := (c: Coin) => c.Confirmed();
    forall x: Coin ensures multiset(ConfirmedOf(a))[x] == multiset(ConfirmedOf(b))[x] {
      FilterCount(a, p, x);
      FilterCount(b, p, x);
    }
    SumPermutation(ConfirmedOf(a), ConfirmedOf(b));
  }
}
