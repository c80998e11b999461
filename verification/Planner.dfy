/** Which coins maintenance may merge: `spareCoins`, `mergeMaterial`, `planMerge`, `planTidy` of src/treasury.ts. */
module Planner {
  import opened Coins
  import opened Views
  import opened Selection
  import opened Merging

  const COLLATERAL_COIN_SATS: nat := MN_COLLATERAL_SATS + COIN
  const LOOSE_COINS_MAX: nat := 5

  datatype Config = Config(
    fee: FeeCeiling,
    dust: nat,
    poolMin: nat,
    poolTarget: nat,
    poolUtxoSats: nat,
    maxPayoutInputs: nat,
    collateralCoins: nat,
    dryRun: bool)
  {
    predicate Merging() {
      collateralCoins > 0 && !dryRun
    }

    predicate PoolCoin(c: Coin) {
      poolUtxoSats <= c.sats < 2 * poolUtxoSats
    }
  }

  datatype MergePlan =
    | NoMerge
    | Waiting
    | Merge(inputs: seq<Coin>, reaches: bool)

  /** `s.slice(-k)`: the last k elements, all of a shorter list, and all of any list when k is 0. */
  function SliceFromEnd<T>(s: seq<T>, k: nat): seq<T> {
    if k == 0 || k >= |s| then s else s[|s| - k..]
  }

  /** `s.slice(max(0, |s| - k))`: the last k elements, none when k is 0. */
  function Last<T>(s: seq<T>, k: nat): seq<T> {
    if k >= |s| then s else s[|s| - k..]
  }

  function Drop(coins: seq<Coin>, kept: seq<Coin>): seq<Coin> {
    Filter(coins, (c: Coin) => c.op !in Ops(kept))
  }

  function Below(view: seq<Coin>, goal: nat): seq<Coin> {
    Sort(Descending, Filter(view, (c: Coin) => c.sats < goal))
  }

  function PoolCoins(cfg: Config, coins: seq<Coin>): seq<Coin> {
    Filter(coins, (c: Coin) => cfg.PoolCoin(c))
  }

  function CollateralOf(coins: seq<Coin>): seq<Coin> {
    Filter(coins, (c: Coin) => c.sats >= COLLATERAL_COIN_SATS)
  }

  function KeptPool(cfg: Config, view: seq<Coin>, goal: nat): seq<Coin> {
    SliceFromEnd(PoolCoins(cfg, Below(view, goal)), cfg.poolTarget)
  }

  function Material(cfg: Config, view: seq<Coin>, goal: nat): seq<Coin> {
    Drop(Below(view, goal), KeptPool(cfg, view, goal))
  }

  function KeptCollateral(cfg: Config, view: seq<Coin>, goal: nat): seq<Coin> {
    Last(CollateralOf(Material(cfg, view, goal)), cfg.collateralCoins)
  }

  function Spare(cfg: Config, view: seq<Coin>, goal: nat): seq<Coin> {
    Drop(Material(cfg, view, goal), KeptCollateral(cfg, view, goal))
  }

  function MergeMaterial(cfg: Config, view: seq<Coin>, goal: nat): seq<Coin> {
    if Sum(Spare(cfg, view, goal)) >= goal then Spare(cfg, view, goal) else Material(cfg, view, goal)
  }

  function PlanMerge(cfg: Config, view: seq<Coin>, goal: nat): MergePlan {
    var material := MergeMaterial(cfg, view, goal);
    if Sum(material) < goal then NoMerge else
    var confirmed := ConfirmedOf(material);
    var pick := SelectMerge(cfg.fee, confirmed, goal, cfg.maxPayoutInputs);
    var stuck := !pick.reaches && (|pick.inputs| < 2 || |pick.inputs| == |confirmed|);
    if stuck then (if |confirmed| == |material| then NoMerge else Waiting)
    else Merge(pick.inputs, pick.reaches)
  }

  function Loose(cfg: Config, view: seq<Coin>): seq<Coin> {
    Sort(Ascending, ConfirmedOf(Spare(cfg, view, COLLATERAL_COIN_SATS)))
  }

  function PlanTidy(cfg: Config, view: seq<Coin>): Option<MergePlan> {
    var loose := Loose(cfg, view);
    if |loose| <= LOOSE_COINS_MAX || cfg.maxPayoutInputs < 2 then None
    else Some(Merge(loose[..Min(cfg.maxPayoutInputs, |loose|)], true))
  }

  // ------------------------------------------------------------------ what is kept

  /** Dropping some of a view's own coins by outpoint drops exactly those coins. */
  lemma DropExact(coins: seq<Coin>, kept: seq<Coin>)
    requires View(coins) && forall c :: c in kept ==> c in coins
    ensures View(Drop(coins, kept))
    ensures forall c :: c in Drop(coins, kept) <==> c in coins && c !in kept
  {
    FilterView(coins, (c: Coin) => c.op !in Ops(kept));
    forall c | c in coins && c !in kept ensures c.op !in Ops(kept) {
    }
  }

  lemma BelowShape(view: seq<Coin>, goal: nat)
    requires View(view)
    ensures View(Below(view, goal)) && Sorted(Descending, Below(view, goal))
    ensures forall c :: c in Below(view, goal) <==> c in view && c.sats < goal
  {
    var p := (c: Coin) => c.sats < goal;
    FilterView(view, p);
    SortView(Descending, Filter(view, p));
  }

  /** The tail of a list sorted largest first is its smallest elements. */
  lemma TailSmallest(s: seq<Coin>, k: nat)
    requires Sorted(Descending, s) && View(s) && k <= |s|
    ensures View(s[|s| - k..])
    ensures forall a, b :: a in s[|s| - k..] && b in s && b !in s[|s| - k..] ==> a.sats <= b.sats
  {
    var tail := s[|s| - k..];
    forall a, b | a in tail && b in s && b !in tail ensures a.sats <= b.sats {
      var i :| 0 <= i < |s| && s[i] == b;
      var j :| 0 <= j < |tail| && tail[j] == a;
      assert tail[j] == s[|s| - k + j];
    }
    forall i, j | 0 <= i < j < |tail| ensures tail[i].op != tail[j].op {
      assert tail[i] == s[|s| - k + i] && tail[j] == s[|s| - k + j];
    }
  }

  /** A list of `kept` coins, all among `of`, none larger than any other coin of `of`. */
  ghost predicate SmallestOf(kept: seq<Coin>, of: seq<Coin>) {
    (forall c :: c in kept ==> c in of)
    && forall a, b :: a in kept && b in of && b !in kept ==> a.sats <= b.sats
  }

  /**
   * The kept pool coins are the `poolTarget` smallest pool coins below the goal,
   * or all of them when there are fewer. With a target of 0 the negative slice
   * keeps every one of them instead of none.
   */
  lemma KeptPoolSmallest(cfg: Config, view: seq<Coin>, goal: nat)
    requires View(view)
    ensures var kept := KeptPool(cfg, view, goal);
      var pool := PoolCoins(cfg, Below(view, goal));
      && SmallestOf(kept, pool) && View(kept)
      && (forall c :: c in pool <==> c in view && c.sats < goal && cfg.poolUtxoSats <= c.sats < 2 * cfg.poolUtxoSats)
      && (|kept| == Min(cfg.poolTarget, |pool|) <==> cfg.poolTarget > 0 || pool == [])
      && (cfg.poolTarget == 0 ==> kept == pool)
  {
    BelowShape(view, goal);
    var below := Below(view, goal);
    var pool := PoolCoins(cfg, below);
    FilterView(below, (c: Coin) => cfg.PoolCoin(c));
    FilterSorted(Descending, below, (c: Coin) => cfg.PoolCoin(c));
    if 0 < cfg.poolTarget < |pool| {
      TailSmallest(pool, cfg.poolTarget);
    }
  }

  lemma MaterialShape(cfg: Config, view: seq<Coin>, goal: nat)
    requires View(view)
    ensures var m := Material(cfg, view, goal);
      View(m) && Sorted(Descending, m)
      && forall c :: c in m <==> c in view && c.sats < goal && c !in KeptPool(cfg, view, goal)
  {
    hide PoolCoins, KeptPool, Below, Sorted, View;
    BelowShape(view, goal);
    KeptPoolSmallest(cfg, view, goal);
    var kept := KeptPool(cfg, view, goal);
    forall c | c in kept ensures c in Below(view, goal) {
      assert c in PoolCoins(cfg, Below(view, goal));
    }
    DropExact(Below(view, goal), kept);
    FilterSorted(Descending, Below(view, goal), (c: Coin) => c.op !in Ops(kept));
  }

  /** The kept collateral coins are the `collateralCoins` smallest of collateral size among the material. */
  lemma KeptCollateralSmallest(cfg: Config, view: seq<Coin>, goal: nat)
    requires View(view)
    ensures var kept := KeptCollateral(cfg, view, goal);
      var collateral := CollateralOf(Material(cfg, view, goal));
      && SmallestOf(kept, collateral) && |kept| == Min(cfg.collateralCoins, |collateral|)
      && (forall c :: c in collateral <==> c in Material(cfg, view, goal) && c.sats >= COLLATERAL_COIN_SATS)
  {
    hide Material;
    MaterialShape(cfg, view, goal);
    var m := Material(cfg, view, goal);
    FilterView(m, (c: Coin) => c.sats >= COLLATERAL_COIN_SATS);
    FilterSorted(Descending, m, (c: Coin) => c.sats >= COLLATERAL_COIN_SATS);
    var collateral := CollateralOf(m);
    if cfg.collateralCoins < |collateral| {
      TailSmallest(collateral, cfg.collateralCoins);
    }
  }

  lemma SpareShape(cfg: Config, view: seq<Coin>, goal: nat)
    requires View(view)
    ensures var s := Spare(cfg, view, goal);
      View(s)
      && forall c :: c in s <==> c in Material(cfg, view, goal) && c !in KeptCollateral(cfg, view, goal)
  {
    hide Material, KeptCollateral, CollateralOf;
    MaterialShape(cfg, view, goal);
    KeptCollateralSmallest(cfg, view, goal);
    forall c | c in KeptCollateral(cfg, view, goal) ensures c in Material(cfg, view, goal) {
      assert c in CollateralOf(Material(cfg, view, goal));
    }
    DropExact(Material(cfg, view, goal), KeptCollateral(cfg, view, goal));
  }

  lemma MergeMaterialShape(cfg: Config, view: seq<Coin>, goal: nat)
    requires View(view)
    ensures var m := MergeMaterial(cfg, view, goal);
      && View(m)
      && (forall c :: c in m <==>
            && c in view && c.sats < goal && c !in KeptPool(cfg, view, goal)
            && (c in KeptCollateral(cfg, view, goal) ==> Sum(Spare(cfg, view, goal)) < goal))
  {
    hide Spare, Material, KeptPool, KeptCollateral, View;
    MaterialShape(cfg, view, goal);
    SpareShape(cfg, view, goal);
  }

  // ------------------------------------------------------------------ what is merged

  /** A merge of two to `maxPayoutInputs` distinct confirmed coins of the wallet, no kept pool coin among them. */
  ghost predicate SoundMerge(cfg: Config, view: seq<Coin>, goal: nat, inputs: seq<Coin>) {
    && 2 <= |inputs| <= cfg.maxPayoutInputs
    && View(inputs)
    && AllConfirmed(inputs)
    && forall c :: c in inputs ==> c in view && c.sats < goal && c !in KeptPool(cfg, view, goal)
  }

  lemma {:induction false} SumBound(s: seq<Coin>, goal: nat)
    requires forall c: Coin :: c in s ==> c.sats < goal
    ensures |s| < 2 && goal > 0 ==> Sum(s) < goal
  {
    if |s| == 1 {
      assert s[1..] == [] && s[0] in s;
    }
  }

  lemma PickedMerge(cfg: Config, view: seq<Coin>, goal: nat, material: seq<Coin>)
    requires View(material) && goal > 0
    requires forall c :: c in material ==> c in view && c.sats < goal && c !in KeptPool(cfg, view, goal)
    ensures var confirmed := ConfirmedOf(material);
      var pick := SelectMerge(cfg.fee, confirmed, goal, cfg.maxPayoutInputs);
      var stuck := !pick.reaches && (|pick.inputs| < 2 || |pick.inputs| == |confirmed|);
      && (!stuck ==> SoundMerge(cfg, view, goal, pick.inputs) && forall c :: c in pick.inputs ==> c in material)
  {
    hide SelectMerge, Sum, Picks, KeptPool, MergeGoal, View;
    var confirmed := ConfirmedOf(material);
    FilterView(material, (c: Coin) => c.Confirmed());
    MergeReaches(cfg.fee, confirmed, goal, cfg.maxPayoutInputs);
    var pick := SelectMerge(cfg.fee, confirmed, goal, cfg.maxPayoutInputs);
    ViewPicks(pick.inputs, confirmed);
    SumBound(pick.inputs, goal);
    GoalAbove(cfg.fee, goal, Min(cfg.maxPayoutInputs, |confirmed|));
  }

  lemma GoalAbove(fee: FeeCeiling, target: nat, size: nat)
    ensures MergeGoal(fee, target, size) >= target
  {
  }

  /**
   * Every merge toward a goal spends two to `maxPayoutInputs` distinct
   * confirmed coins, each below the goal and none a kept pool coin; it spends a
   * kept collateral coin only when the sum of everything else falls short.
   */
  lemma PlanMergeSound(cfg: Config, view: seq<Coin>, goal: nat)
    requires View(view) && goal > 0
    ensures var plan := PlanMerge(cfg, view, goal);
      plan.Merge? ==>
        && SoundMerge(cfg, view, goal, plan.inputs)
        && ((exists c :: c in plan.inputs && c in KeptCollateral(cfg, view, goal)) ==>
              Sum(Spare(cfg, view, goal)) < goal)
  {
    hide MergeMaterial, SelectMerge, KeptPool, KeptCollateral, Spare, Sum, View;
    MergeMaterialShape(cfg, view, goal);
    PickedMerge(cfg, view, goal, MergeMaterial(cfg, view, goal));
  }

  /** Waiting means enough coins are held, none of what is confirmed reaches, and some material still has to confirm. */
  lemma PlanMergeWaits(cfg: Config, view: seq<Coin>, goal: nat)
    requires View(view)
    ensures var material := MergeMaterial(cfg, view, goal);
      var size := Min(cfg.maxPayoutInputs, |ConfirmedOf(material)|);
      PlanMerge(cfg, view, goal).Waiting? ==>
        && Sum(material) >= goal
        && (exists c :: c in material && !c.Confirmed())
        && (forall t :: Picks(t, material) && AllConfirmed(t) && |t| <= size ==> Sum(t) < goal + cfg.fee(size, 1, 0))
  {
    hide MergeMaterial, SelectMerge, Sum, Picks;
    var material := MergeMaterial(cfg, view, goal);
    var confirmed := ConfirmedOf(material);
    FilterShorter(material, (c: Coin) => c.Confirmed());
    MergeReaches(cfg.fee, confirmed, goal, cfg.maxPayoutInputs);
    forall t | Picks(t, material) && AllConfirmed(t) ensures Picks(t, confirmed) {
      PicksFilter(t, material, (c: Coin) => c.Confirmed());
    }
    if |confirmed| < |material| {
      FilterMisses(material, (c: Coin) => c.Confirmed());
    }
  }

  /** Some confirmed coins of the material, no more than one merge may spend, pay for the goal and its fee. */
  ghost predicate OneMergeReaches(cfg: Config, material: seq<Coin>, goal: nat) {
    var size := Min(cfg.maxPayoutInputs, |ConfirmedOf(material)|);
    exists t :: Picks(t, material) && AllConfirmed(t) && |t| <= size && Sum(t) >= goal + cfg.fee(size, 1, 0)
  }

  /** More coins have confirmed than one merge may spend, so merging some of them is progress. */
  predicate MergeAdvances(cfg: Config, material: seq<Coin>) {
    2 <= cfg.maxPayoutInputs < |ConfirmedOf(material)|
  }

  lemma ConfirmedPicks(material: seq<Coin>)
    ensures forall t :: Picks(t, ConfirmedOf(material)) <==> Picks(t, material) && AllConfirmed(t)
    ensures |ConfirmedOf(material)| <= |material|
    ensures |ConfirmedOf(material)| == |material| <==> forall c :: c in material ==> c.Confirmed()
  {
    forall t ensures Picks(t, ConfirmedOf(material)) <==> Picks(t, material) && AllConfirmed(t) {
      PicksFilter(t, material, (c: Coin) => c.Confirmed());
    }
    FilterShorter(material, (c: Coin) => c.Confirmed());
    if |ConfirmedOf(material)| < |material| {
      FilterMisses(material, (c: Coin) => c.Confirmed());
    } else {
      FilterAll(material, (c: Coin) => c.Confirmed());
      FilterIn(material, (c: Coin) => c.Confirmed());
    }
  }

  /** One coin below the goal never reaches it, so a single confirmed coin makes no merge. */
  lemma LoneFallsShort(cfg: Config, view: seq<Coin>, goal: nat)
    requires View(view) && goal > 0
    ensures var material := MergeMaterial(cfg, view, goal);
      forall t :: Picks(t, material) && |t| < 2 ==> Sum(t) < goal
  {
    hide MergeMaterial, KeptPool, KeptCollateral, Spare, View;
    MergeMaterialShape(cfg, view, goal);
    var material := MergeMaterial(cfg, view, goal);
    forall t | Picks(t, material) && |t| < 2 ensures Sum(t) < goal {
      ViewPicks(t, material);
      SumBound(t, goal);
    }
  }

  /**
   * What a merge toward a goal comes to. Nothing is planned exactly when the
   * material sums below the goal, or is all confirmed and neither reaches it in
   * one merge nor can be advanced by a partial one; it waits exactly when the
   * same holds but some of the material still has to confirm; and otherwise it
   * merges, saying whether it reaches.
   */
  lemma PlanMergeIff(cfg: Config, view: seq<Coin>, goal: nat)
    requires View(view) && goal > 0
    ensures var plan, material := PlanMerge(cfg, view, goal), MergeMaterial(cfg, view, goal);
      var stuck := !OneMergeReaches(cfg, material, goal) && !MergeAdvances(cfg, material);
      && (plan.NoMerge? <==> Sum(material) < goal || (stuck && AllConfirmed(material)))
      && (plan.Waiting? <==> Sum(material) >= goal && stuck && !AllConfirmed(material))
      && (plan.Merge? <==> Sum(material) >= goal && !stuck)
      && (plan.Merge? ==> (plan.reaches <==> OneMergeReaches(cfg, material, goal)))
  {
    hide MergeMaterial, SelectMerge, Sum, Picks;
    var material := MergeMaterial(cfg, view, goal);
    ConfirmedPicks(material);
    LoneFallsShort(cfg, view, goal);
    ReachesIff(cfg.fee, ConfirmedOf(material), goal, cfg.maxPayoutInputs);
    MergeReaches(cfg.fee, ConfirmedOf(material), goal, cfg.maxPayoutInputs);
  }

  /** A partial merge is planned only when a later one is needed: it leaves confirmed coins behind. */
  lemma PlanMergePartial(cfg: Config, view: seq<Coin>, goal: nat)
    requires PlanMerge(cfg, view, goal).Merge? && !PlanMerge(cfg, view, goal).reaches
    ensures var plan := PlanMerge(cfg, view, goal);
      var confirmed := ConfirmedOf(MergeMaterial(cfg, view, goal));
      && |plan.inputs| == cfg.maxPayoutInputs < |confirmed|
      && forall t :: Picks(t, confirmed) && |t| <= cfg.maxPayoutInputs ==> Sum(t) <= Sum(plan.inputs)
  {
    hide MergeMaterial, SelectMerge, Sum, Picks, MergeGoal;
    MergeReaches(cfg.fee, ConfirmedOf(MergeMaterial(cfg, view, goal)), goal, cfg.maxPayoutInputs);
  }

  /** Loose coins are the confirmed ones below collateral size that are no kept pool coins. */
  lemma LooseIff(cfg: Config, view: seq<Coin>)
    requires View(view)
    ensures View(Loose(cfg, view))
    ensures forall c :: c in Loose(cfg, view) <==>
      c in view && c.Confirmed() && c.sats < COLLATERAL_COIN_SATS && c !in KeptPool(cfg, view, COLLATERAL_COIN_SATS)
  {
    hide Spare, Material, KeptPool, KeptCollateral, CollateralOf;
    var goal := COLLATERAL_COIN_SATS;
    MaterialShape(cfg, view, goal);
    KeptCollateralSmallest(cfg, view, goal);
    SpareShape(cfg, view, goal);
    forall c | c in KeptCollateral(cfg, view, goal) ensures c in CollateralOf(Material(cfg, view, goal)) {}
    FilterView(Spare(cfg, view, goal), (c: Coin) => c.Confirmed());
    SortView(Ascending, ConfirmedOf(Spare(cfg, view, goal)));
  }

  /**
   * Tidying happens exactly when more than five coins are loose and a merge may
   * spend two. It merges the smallest loose coins: confirmed, below collateral
   * size, none a kept pool coin.
   */
  lemma PlanTidySound(cfg: Config, view: seq<Coin>)
    requires View(view)
    ensures PlanTidy(cfg, view).Some? <==> |Loose(cfg, view)| > 5 && cfg.maxPayoutInputs >= 2
    ensures var plan := PlanTidy(cfg, view);
      plan.Some? ==>
        && plan.value.Merge?
        && SoundMerge(cfg, view, COLLATERAL_COIN_SATS, plan.value.inputs)
        && SmallestOf(plan.value.inputs, Loose(cfg, view))
        && |plan.value.inputs| == Min(cfg.maxPayoutInputs, |Loose(cfg, view)|)
        && plan.value.reaches
  {
    hide Spare, Material, KeptPool, KeptCollateral;
    var goal := COLLATERAL_COIN_SATS;
    SpareShape(cfg, view, goal);
    MaterialShape(cfg, view, goal);
    var spare := Spare(cfg, view, goal);
    FilterView(spare, (c: Coin) => c.Confirmed());
    SortView(Ascending, ConfirmedOf(spare));
    var loose := Loose(cfg, view);
    if |loose| > LOOSE_COINS_MAX && cfg.maxPayoutInputs >= 2 {
      HeadSmallest(loose, Min(cfg.maxPayoutInputs, |loose|));
    }
  }

  lemma HeadSmallest(s: seq<Coin>, k: nat)
    requires Sorted(Ascending, s) && View(s) && k <= |s|
    ensures View(s[..k]) && SmallestOf(s[..k], s)
  {
    forall a, b | a in s[..k] && b in s && b !in s[..k] ensures a.sats <= b.sats {
      var i :| 0 <= i < |s| && s[i] == b;
      var j :| 0 <= j < k && s[..k][j] == a;
    }
  }
}
