/** One maintenance pass, and why the passes it books come to an end: `maintainLocked` and `consolidate`. */
module Maintenance {
  import opened Coins
  import opened Views
  import opened Selection
  import opened Builders
  import opened Merging
  import opened Planner

  /** A coin size some payout needed and only a merge can provide. */
  datatype Demand = Demand(sats: nat, at: Time)

  datatype Decision =
    | Blocked
    | Idle
    | AwaitCoins
    | DoMerge(inputs: seq<Coin>, reaches: bool)
    | DoSplit(coin: Coin, count: nat)

  // ------------------------------------------------------------------ merge demand

  function Largest(coins: seq<Coin>): nat {
    if coins == [] then 0 else var m := Largest(coins[1..]); if coins[0].sats > m then coins[0].sats else m
  }

  function LargestDemand(rows: seq<Demand>): nat {
    if rows == [] then 0 else var m := LargestDemand(rows[1..]); if rows[0].sats > m then rows[0].sats else m
  }

  /** Demands some coin now meets are settled. */
  function OpenDemands(rows: seq<Demand>, largest: nat): seq<Demand> {
    Filter(rows, (d: Demand) => d.sats > largest)
  }

  function DropDemands(rows: seq<Demand>, atLeast: nat): seq<Demand> {
    Filter(rows, (d: Demand) => d.sats < atLeast)
  }

  function Ready(view: seq<Coin>): nat {
    |CollateralOf(view)|
  }

  /** Amounts to merge toward, largest first. */
  function Goals(cfg: Config, view: seq<Coin>, demand: nat): seq<nat> {
    var collateral := if Ready(view) < cfg.collateralCoins then COLLATERAL_COIN_SATS else 0;
    if demand >= collateral then Positive([demand, collateral]) else Positive([collateral, demand])
  }

  function Positive(goals: seq<nat>): seq<nat> {
    Filter(goals, (g: nat) => g > 0)
  }

  datatype Consolidated = Consolidated(plan: MergePlan, rows: seq<Demand>)

  /** The first goal with anything to do wins; a demand found out of reach is forgotten. */
  function TryGoals(cfg: Config, view: seq<Coin>, demand: nat, goals: seq<nat>, rows: seq<Demand>): Consolidated {
    if goals == [] then Consolidated(NoMerge, rows) else
    var plan := PlanMerge(cfg, view, goals[0]);
    if !plan.NoMerge? then Consolidated(plan, rows)
    else TryGoals(cfg, view, demand, goals[1..], if goals[0] == demand then DropDemands(rows, demand) else rows)
  }

  function Consolidate(cfg: Config, view: seq<Coin>, rows: seq<Demand>): Consolidated {
    var open := OpenDemands(rows, Largest(view));
    var demand := LargestDemand(open);
    var r := TryGoals(cfg, view, demand, Goals(cfg, view, demand), open);
    if r.plan.NoMerge? && cfg.Merging() && PlanTidy(cfg, view).Some?
      then Consolidated(PlanTidy(cfg, view).value, r.rows) else r
  }

  // ------------------------------------------------------------------ one pass

  predicate BelowKept(cfg: Config, c: Coin) {
    cfg.collateralCoins == 0 || c.sats < COLLATERAL_COIN_SATS
  }

  /** Coins that give the faucet throughput: pool-sized and not a kept collateral coin. */
  predicate Throughput(cfg: Config, c: Coin) {
    c.sats >= cfg.poolUtxoSats && BelowKept(cfg, c)
  }

  function Pool(cfg: Config, view: seq<Coin>): seq<Coin> {
    Filter(view, (c: Coin) => Throughput(cfg, c))
  }

  /** `satoshis * 0.99 >= 2 * poolUtxoSats`, exactly. */
  predicate FundsTwo(cfg: Config, c: Coin) {
    99 * c.sats >= 200 * cfg.poolUtxoSats
  }

  /** Coins other than kept collateral that can fund two pool coins. */
  predicate Refills(cfg: Config, c: Coin) {
    BelowKept(cfg, c) && FundsTwo(cfg, c)
  }

  function Splittable(cfg: Config, view: seq<Coin>): Option<Coin> {
    var s := Filter(Sort(Descending, view), (c: Coin) => Refills(cfg, c));
    if s == [] then None else Some(s[0])
  }

  /** `ceil(2 * poolUtxoSats / 0.99)`. */
  function RefillGoal(cfg: Config): nat {
    (200 * cfg.poolUtxoSats + 98) / 99
  }

  function SplitCount(cfg: Config, view: seq<Coin>, coin: Coin): int
    requires cfg.poolUtxoSats > 0
  {
    var wanted := cfg.poolTarget - |Pool(cfg, view)|;
    var affordable := 99 * coin.sats / (100 * cfg.poolUtxoSats);
    if wanted <= affordable then wanted else affordable
  }

  function PlanSplit(cfg: Config, view: seq<Coin>, coin: Coin): Decision
    requires cfg.poolUtxoSats > 0
  {
    var count := SplitCount(cfg, view, coin);
    if count < 2 then Blocked else if cfg.dryRun then Idle else DoSplit(coin, count)
  }

  function Planned(cfg: Config, plan: MergePlan): Decision {
    match plan
    case NoMerge => Idle
    case Waiting => AwaitCoins
    case Merge(inputs, reaches) => if cfg.dryRun then Idle else DoMerge(inputs, reaches)
  }

  function Decide(cfg: Config, view: seq<Coin>, rows: seq<Demand>): Decision
    requires cfg.poolUtxoSats > 0
  {
    if |Pool(cfg, view)| >= cfg.poolMin then Planned(cfg, Consolidate(cfg, view, rows).plan) else
    var splittable := Splittable(cfg, view);
    var plan := if splittable.None? && cfg.Merging() then PlanMerge(cfg, view, RefillGoal(cfg)) else NoMerge;
    if plan.Merge? then DoMerge(plan.inputs, plan.reaches) else
    var descending := Sort(Descending, view);
    if splittable.Some? then PlanSplit(cfg, view, splittable.value)
    else if descending == [] then Blocked
    else PlanSplit(cfg, view, descending[0])
  }

  function Act(cfg: Config, txid: Txid, d: Decision): Build {
    match d
    case DoMerge(inputs, _) => Consolidation(Rules(cfg.fee, cfg.dust), txid, inputs)
    case DoSplit(coin, count) => Split(Rules(cfg.fee, cfg.dust), txid, [coin], count, cfg.poolUtxoSats)
    case _ => Refused
  }

  /** The merge_demand table, and the pass that reads and prunes it. */
  class Demands {
    var rows: seq<Demand>

    constructor ()
      ensures rows == []
    {
      rows := [];
    }

    /** Called by a payout that only a merge could fund. */
    method Ask(sats: nat, now: Time)
      modifies this
      ensures rows == old(rows) + [Demand(sats, now)]
    {
      rows := rows + [Demand(sats, now)];
    }

    method MergeDemand(view: seq<Coin>) returns (demand: nat)
      modifies this
      ensures rows == OpenDemands(old(rows), Largest(view))
      ensures demand == LargestDemand(rows)
    {
      var largest := 0;
      for i := 0 to |view|
        invariant Largest(view) == (if Largest(view[i..]) > largest then Largest(view[i..]) else largest)
      {
        if view[i].sats > largest {
          largest := view[i].sats;
        }
      }
      rows := OpenDemands(rows, largest);
      demand := LargestDemand(rows);
    }

    method ConsolidatePass(cfg: Config, view: seq<Coin>) returns (plan: MergePlan)
      modifies this
      ensures Consolidated(plan, rows) == Consolidate(cfg, view, old(rows))
    {
      var demand := MergeDemand(view);
      ghost var open := rows;
      var goals := Goals(cfg, view, demand);
      plan := NoMerge;
      var i := 0;
      while i < |goals| && plan.NoMerge?
        invariant i <= |goals|
        invariant plan.NoMerge? ==>
          TryGoals(cfg, view, demand, goals, open) == TryGoals(cfg, view, demand, goals[i..], rows)
        invariant !plan.NoMerge? ==> TryGoals(cfg, view, demand, goals, open) == Consolidated(plan, rows)
        decreases |goals| - i
      {
        plan := PlanMerge(cfg, view, goals[i]);
        if plan.NoMerge? && goals[i] == demand {
          rows := DropDemands(rows, demand);
        }
        i := i + 1;
      }
      if plan.NoMerge? && cfg.Merging() {
        var tidy := PlanTidy(cfg, view);
        if tidy.Some? {
          plan := tidy.value;
        }
      }
    }
  }

  // ------------------------------------------------------------------ demand bookkeeping

  lemma {:induction false} LargestBounds(coins: seq<Coin>)
    ensures forall c :: c in coins ==> c.sats <= Largest(coins)
    ensures coins != [] ==> exists c :: c in coins && c.sats == Largest(coins)
  {
    if coins != [] {
      LargestBounds(coins[1..]);
      assert coins[0] in coins;
      if Largest(coins) != coins[0].sats {
        var c :| c in coins[1..] && c.sats == Largest(coins[1..]);
        assert c in coins;
      }
    }
  }

  lemma {:induction false} LargestDemandBounds(rows: seq<Demand>)
    ensures forall d :: d in rows ==> d.sats <= LargestDemand(rows)
    ensures LargestDemand(rows) > 0 ==> exists d :: d in rows && d.sats == LargestDemand(rows)
  {
    if rows != [] {
      LargestDemandBounds(rows[1..]);
      assert rows[0] in rows;
      if LargestDemand(rows) != rows[0].sats && LargestDemand(rows) > 0 {
        var d :| d in rows[1..] && d.sats == LargestDemand(rows[1..]);
        assert d in rows;
      }
    }
  }

  lemma {:induction false} TryGoalsKeeps(cfg: Config, view: seq<Coin>, demand: nat, goals: seq<nat>, rows: seq<Demand>)
    requires forall d :: d in rows ==> d.sats <= demand
    ensures var r := TryGoals(cfg, view, demand, goals, rows);
      && (forall d :: d in r.rows ==> d in rows)
      && (forall d :: d in rows && d.sats < demand ==> d in r.rows)
      && (demand in goals && r.plan.NoMerge? ==> forall d :: d in r.rows ==> d.sats < demand)
    ensures var r := TryGoals(cfg, view, demand, goals, rows);
      r.plan.NoMerge? <==> forall g :: g in goals ==> PlanMerge(cfg, view, g).NoMerge?
  {
    if goals != [] && PlanMerge(cfg, view, goals[0]).NoMerge? {
      var rest := if goals[0] == demand then DropDemands(rows, demand) else rows;
      FilterIn(rows, (d: Demand) => d.sats < demand);
      TryGoalsKeeps(cfg, view, demand, goals[1..], rest);
    } else if goals != [] {
      assert goals[0] in goals;
    }
  }

  /** A demand is forgotten when nothing can be done toward it, and neither toward a larger goal tried before it. */
  predicate Forgets(cfg: Config, view: seq<Coin>, demand: nat) {
    && demand > 0 && PlanMerge(cfg, view, demand).NoMerge?
    && (Ready(view) < cfg.collateralCoins && COLLATERAL_COIN_SATS > demand ==>
          PlanMerge(cfg, view, COLLATERAL_COIN_SATS).NoMerge?)
  }

  lemma DropTwice(rows: seq<Demand>, atLeast: nat)
    ensures DropDemands(DropDemands(rows, atLeast), atLeast) == DropDemands(rows, atLeast)
  {
    var p := (d: Demand) => d.sats < atLeast;
    FilterFilter(rows, p, p, p);
  }

  function AfterGoal(cfg: Config, view: seq<Coin>, demand: nat, goal: nat, rows: seq<Demand>): seq<Demand> {
    if goal == demand && PlanMerge(cfg, view, goal).NoMerge? then DropDemands(rows, demand) else rows
  }

  lemma TryOne(cfg: Config, view: seq<Coin>, demand: nat, g: nat, rows: seq<Demand>)
    ensures TryGoals(cfg, view, demand, [g], rows).rows == AfterGoal(cfg, view, demand, g, rows)
  {
    hide PlanMerge, DropDemands;
    assert [g][1..] == [];
  }

  lemma TryPair(cfg: Config, view: seq<Coin>, demand: nat, g: nat, h: nat, rows: seq<Demand>)
    ensures TryGoals(cfg, view, demand, [g, h], rows).rows ==
      if !PlanMerge(cfg, view, g).NoMerge? then rows
      else AfterGoal(cfg, view, demand, h, AfterGoal(cfg, view, demand, g, rows))
  {
    hide PlanMerge, DropDemands;
    assert [g, h][1..] == [h];
    TryOne(cfg, view, demand, h, AfterGoal(cfg, view, demand, g, rows));
  }

  /** The one or two goals of a pass, tried in turn. */
  lemma TryTwo(cfg: Config, view: seq<Coin>, demand: nat, collateral: nat, rows: seq<Demand>)
    ensures var goals :=
        if demand >= collateral then Positive([demand, collateral]) else Positive([collateral, demand]);
      TryGoals(cfg, view, demand, goals, rows).rows ==
        if demand > 0 && PlanMerge(cfg, view, demand).NoMerge?
            && (collateral > demand ==> PlanMerge(cfg, view, collateral).NoMerge?)
          then DropDemands(rows, demand) else rows
  {
    hide PlanMerge, DropDemands;
    var first: nat := if demand >= collateral then demand else collateral;
    var second: nat := if demand >= collateral then collateral else demand;
    FilterPair<nat>(first, second, (g: nat) => g > 0);
    TryOne(cfg, view, demand, first, rows);
    TryPair(cfg, view, demand, first, second, rows);
    DropTwice(rows, demand);
  }

  /**
   * A consolidating pass keeps no demand that a coin already covers, and every
   * other one, unless it finds the largest out of reach: then, and only then,
   * the largest is forgotten, and nothing smaller with it.
   */
  lemma ConsolidateDemands(cfg: Config, view: seq<Coin>, rows: seq<Demand>)
    ensures var r := Consolidate(cfg, view, rows);
      var open := OpenDemands(rows, Largest(view));
      var demand := LargestDemand(open);
      && (forall d :: d in r.rows ==> d in rows && d.sats > Largest(view))
      && (forall d :: d in rows && Largest(view) < d.sats < demand ==> d in r.rows)
      && (!PlanMerge(cfg, view, demand).NoMerge? ==> r.rows == open)
      && r.rows == (if Forgets(cfg, view, demand) then DropDemands(open, demand) else open)
      && (PlanMerge(cfg, view, demand).Merge? && demand > 0 && demand >= COLLATERAL_COIN_SATS ==>
            r.plan == PlanMerge(cfg, view, demand))
  {
    hide PlanMerge, PlanTidy, LargestDemand;
    var open := OpenDemands(rows, Largest(view));
    var demand := LargestDemand(open);
    FilterIn(rows, (d: Demand) => d.sats > Largest(view));
    LargestDemandBounds(open);
    TryGoalsKeeps(cfg, view, demand, Goals(cfg, view, demand), open);
    TryTwo(cfg, view, demand, if Ready(view) < cfg.collateralCoins then COLLATERAL_COIN_SATS else 0, open);
    if demand > 0 && demand >= COLLATERAL_COIN_SATS {
      assert Goals(cfg, view, demand)[0] == demand;
    }
  }

  // ------------------------------------------------------------------ what a split spends

  lemma HeadLargest(s: seq<Coin>)
    requires Sorted(Descending, s) && s != []
    ensures s[0] in s && forall c :: c in s ==> c.sats <= s[0].sats
  {
  }

  lemma SplittableLargest(cfg: Config, view: seq<Coin>)
    ensures match Splittable(cfg, view)
      case None => forall c :: c in view ==> !Refills(cfg, c)
      case Some(s) => s in view && Refills(cfg, s) && forall c :: c in view && Refills(cfg, c) ==> c.sats <= s.sats
  {
    hide Refills, Sorted, Filter, Sort;
    SortSorted(Descending, view);
    var sorted := Sort(Descending, view);
    var p := (c: Coin) => Refills(cfg, c);
    FilterIn(sorted, p);
    FilterSorted(Descending, sorted, p);
    var s := Filter(sorted, p);
    forall c ensures c in s <==> c in view && Refills(cfg, c) {}
    if s != [] {
      HeadLargest(s);
    }
  }

  lemma DecideSplits(cfg: Config, view: seq<Coin>, rows: seq<Demand>)
    requires cfg.poolUtxoSats > 0 && Decide(cfg, view, rows).DoSplit?
    ensures var c, splittable, sorted := Decide(cfg, view, rows).coin, Splittable(cfg, view), Sort(Descending, view);
      && (splittable.Some? ==> c == splittable.value)
      && (splittable.None? ==> sorted != [] && c == sorted[0])
      && (splittable.None? && cfg.Merging() ==> !PlanMerge(cfg, view, RefillGoal(cfg)).Merge?)
  {
    hide Consolidate, PlanMerge, Splittable, Pool, RefillGoal, SplitCount, Sort;
  }

  /**
   * A split takes the largest coin that refills the pool and is no kept
   * collateral coin. Only when there is none, and no merge makes one, does it
   * fall back to the largest coin of all.
   */
  lemma SplitSparesCollateral(cfg: Config, view: seq<Coin>, rows: seq<Demand>)
    requires cfg.poolUtxoSats > 0 && Decide(cfg, view, rows).DoSplit?
    ensures var c := Decide(cfg, view, rows).coin;
      && c in view
      && ((exists d :: d in view && Refills(cfg, d)) ==>
            Refills(cfg, c) && forall d :: d in view && Refills(cfg, d) ==> d.sats <= c.sats)
      && (!Refills(cfg, c) ==>
            && (forall d :: d in view ==> !Refills(cfg, d) && d.sats <= c.sats)
            && (cfg.Merging() ==> !PlanMerge(cfg, view, RefillGoal(cfg)).Merge?))
  {
    hide Decide, PlanMerge, Splittable, Refills, RefillGoal, Sort, Sorted;
    DecideSplits(cfg, view, rows);
    SplittableLargest(cfg, view);
    SortSorted(Descending, view);
    if Splittable(cfg, view).None? {
      HeadLargest(Sort(Descending, view));
    }
  }

  // ------------------------------------------------------------------ what a pass decides

  /** A merge that reaches its goal builds one coin worth at least the goal. */
  lemma MergeBuildsGoal(cfg: Config, view: seq<Coin>, goal: nat, txid: Txid)
    requires View(view) && goal > 0
    requires PlanMerge(cfg, view, goal).Merge? && PlanMerge(cfg, view, goal).reaches
    ensures var r := Consolidation(Rules(cfg.fee, cfg.dust), txid, PlanMerge(cfg, view, goal).inputs);
      && (goal > cfg.dust ==> r.Built?)
      && (r.Built? ==> |r.tx.ownOutputs| == 1 && r.tx.ownOutputs[0].sats >= goal)
  {
    hide MergeMaterial, SelectMerge, Sum, Picks, View, KeptPool, KeptCollateral, Spare, Consolidation;
    var plan := PlanMerge(cfg, view, goal);
    var confirmed := ConfirmedOf(MergeMaterial(cfg, view, goal));
    PlanMergeSound(cfg, view, goal);
    MergeReaches(cfg.fee, confirmed, goal, cfg.maxPayoutInputs);
    ConsolidationBuilds(Rules(cfg.fee, cfg.dust), txid, plan.inputs);
  }

  /** The refill goal is the least amount whose 99% funds two pool coins. */
  lemma RefillGoalLeast(cfg: Config, sats: nat)
    ensures 99 * sats >= 200 * cfg.poolUtxoSats <==> sats >= RefillGoal(cfg)
  {
  }

  /** No coin but a collateral one refills the pool, and merging can make one that does. */
  ghost predicate RefillMerge(cfg: Config, view: seq<Coin>) {
    && cfg.collateralCoins > 0 && !cfg.dryRun
    && (forall c :: c in view ==> c.sats >= COLLATERAL_COIN_SATS || 99 * c.sats < 200 * cfg.poolUtxoSats)
    && PlanMerge(cfg, view, RefillGoal(cfg)).Merge?
  }

  /** Some coin funds two pool coins, and two are wanted. */
  ghost predicate CanSplit(cfg: Config, view: seq<Coin>, pool: nat) {
    pool + 2 <= cfg.poolTarget && exists c :: c in view && 99 * c.sats >= 200 * cfg.poolUtxoSats
  }

  /** `n` is as many as are wanted, or else the most that the amount pays for at `each`. */
  predicate MostAffordable(n: int, wanted: int, amount: nat, each: nat) {
    && n <= wanted && n * each <= amount
    && (n == wanted || (n + 1) * each > amount)
  }

  lemma Quotient(amount: nat, each: nat)
    requires each > 0
    ensures MostAffordable(amount / each, amount / each, amount, each)
    ensures (amount / each + 1) * each > amount
  {
  }

  lemma Lesser(n: int, wanted: int, quotient: nat, amount: nat, each: nat)
    requires quotient * each <= amount < (quotient + 1) * each
    requires n == if wanted <= quotient then wanted else quotient
    ensures MostAffordable(n, wanted, amount, each)
    ensures n >= 2 <==> wanted >= 2 && amount >= 2 * each
  {
    Grows(n, quotient, each);
    if quotient >= 2 {
      Grows(2, quotient, each);
    } else {
      Grows(quotient + 1, 2, each);
    }
  }

  lemma Grows(a: int, b: int, each: nat)
    requires a <= b
    ensures a * each <= b * each
  {
  }

  lemma LesserQuotient(wanted: int, amount: nat, each: nat, n: int)
    requires each > 0 && n == if wanted <= amount / each then wanted else amount / each
    ensures MostAffordable(n, wanted, amount, each)
    ensures n >= 2 <==> wanted >= 2 && amount >= 2 * each
  {
    Quotient(amount, each);
    var quotient: nat := amount / each;
    Lesser(n, wanted, quotient, amount, each);
  }

  lemma CountIs(cfg: Config, view: seq<Coin>, c: Coin)
    requires cfg.poolUtxoSats > 0
    ensures var n, wanted := SplitCount(cfg, view, c), cfg.poolTarget - |Pool(cfg, view)|;
      && MostAffordable(n, wanted, 99 * c.sats, 100 * cfg.poolUtxoSats)
      && (n >= 2 <==> wanted >= 2 && 99 * c.sats >= 200 * cfg.poolUtxoSats)
  {
    hide Pool, MostAffordable;
    LesserQuotient(cfg.poolTarget - |Pool(cfg, view)|, 99 * c.sats, 100 * cfg.poolUtxoSats, SplitCount(cfg, view, c));
  }

  /**
   * With the pool low, a pass merges exactly when only a merge can refill it.
   * Otherwise it splits exactly when some coin funds two pool coins and two are
   * wanted, into as many as are wanted and the coin affords; a dry run says so
   * and does nothing; and it is blocked in every other case.
   */
  lemma DecideLowIff(cfg: Config, view: seq<Coin>, rows: seq<Demand>)
    requires cfg.poolUtxoSats > 0 && |Pool(cfg, view)| < cfg.poolMin
    ensures var d, pool := Decide(cfg, view, rows), |Pool(cfg, view)|;
      && (d.DoMerge? <==> RefillMerge(cfg, view))
      && (d.DoMerge? ==> Planned(cfg, PlanMerge(cfg, view, RefillGoal(cfg))) == d)
      && (d.DoSplit? <==> !RefillMerge(cfg, view) && CanSplit(cfg, view, pool) && !cfg.dryRun)
      && (d.Idle? <==> !RefillMerge(cfg, view) && CanSplit(cfg, view, pool) && cfg.dryRun)
      && (d.Blocked? <==> !RefillMerge(cfg, view) && !CanSplit(cfg, view, pool))
      && (d.DoSplit? ==>
            && d.count >= 2
            && MostAffordable(d.count, cfg.poolTarget - pool, 99 * d.coin.sats, 100 * cfg.poolUtxoSats))
  {
    hide Pool, PlanMerge, Splittable, RefillGoal, SplitCount, Sort, Sorted, Consolidate, MostAffordable;
    SplittableLargest(cfg, view);
    SortSorted(Descending, view);
    var sorted := Sort(Descending, view);
    if Splittable(cfg, view).Some? {
      CountIs(cfg, view, Splittable(cfg, view).value);
    } else if sorted != [] {
      HeadLargest(sorted);
      CountIs(cfg, view, sorted[0]);
    }
    if view != [] {
      assert view[0] in sorted;
    }
  }

  /** Pool coins are those of pool size, kept collateral coins aside. */
  lemma PoolIs(cfg: Config, view: seq<Coin>)
    ensures Pool(cfg, view) == Filter(view, (c: Coin) =>
      c.sats >= cfg.poolUtxoSats && (cfg.collateralCoins == 0 || c.sats < 1001 * 100_000_000))
  {
    FilterSame(view, (c: Coin) => Throughput(cfg, c), (c: Coin) =>
      c.sats >= cfg.poolUtxoSats && (cfg.collateralCoins == 0 || c.sats < 1001 * 100_000_000));
  }

  /** With enough pool coins a pass does what the consolidation plans, and in a dry run no merge. */
  lemma DecideFullIff(cfg: Config, view: seq<Coin>, rows: seq<Demand>)
    requires cfg.poolUtxoSats > 0 && |Pool(cfg, view)| >= cfg.poolMin
    ensures var d, plan := Decide(cfg, view, rows), Consolidate(cfg, view, rows).plan;
      && (d.DoMerge? <==> plan.Merge? && !cfg.dryRun)
      && (d.DoMerge? ==> d.inputs == plan.inputs && d.reaches == plan.reaches)
      && (d.AwaitCoins? <==> plan.Waiting?)
      && (d.Idle? <==> plan.NoMerge? || (plan.Merge? && cfg.dryRun))
  {
    hide Pool, Consolidate;
  }

  /** The first of two plans with anything to do, when each is wanted. */
  function FirstPlan(wanted: bool, first: MergePlan, other: MergePlan): MergePlan {
    if wanted && !first.NoMerge? then first else other
  }

  lemma TryPlans(cfg: Config, view: seq<Coin>, demand: nat, first: nat, second: nat, rows: seq<Demand>)
    ensures TryGoals(cfg, view, demand, Positive([first, second]), rows).plan ==
      FirstPlan(first > 0, PlanMerge(cfg, view, first), FirstPlan(second > 0, PlanMerge(cfg, view, second), NoMerge))
  {
    hide PlanMerge, DropDemands;
    FilterPair<nat>(first, second, (g: nat) => g > 0);
    TryLast(cfg, view, demand, first, rows);
    TryLast(cfg, view, demand, second, rows);
    TryLast(cfg, view, demand, second, AfterGoal(cfg, view, demand, first, rows));
    assert [first, second][1..] == [second];
  }

  lemma TryLast(cfg: Config, view: seq<Coin>, demand: nat, g: nat, rows: seq<Demand>)
    ensures TryGoals(cfg, view, demand, [g], rows).plan == PlanMerge(cfg, view, g)
  {
    hide PlanMerge, DropDemands;
    assert [g][1..] == [];
  }

  /**
   * What a consolidating pass plans: toward the larger of the open demand and a
   * missing collateral coin first, then toward the other, and tidying when
   * neither gives anything to do.
   */
  lemma ConsolidatePlan(cfg: Config, view: seq<Coin>, rows: seq<Demand>)
    ensures var demand := LargestDemand(OpenDemands(rows, Largest(view)));
      var missing := |Filter(view, (c: Coin) => c.sats >= COLLATERAL_COIN_SATS)| < cfg.collateralCoins;
      var toward, collateral := PlanMerge(cfg, view, demand), PlanMerge(cfg, view, COLLATERAL_COIN_SATS);
      var plan :=
        if demand >= COLLATERAL_COIN_SATS then FirstPlan(demand > 0, toward, FirstPlan(missing, collateral, NoMerge))
        else FirstPlan(missing, collateral, FirstPlan(demand > 0, toward, NoMerge));
      Consolidate(cfg, view, rows).plan ==
        if plan.NoMerge? && cfg.collateralCoins > 0 && !cfg.dryRun && PlanTidy(cfg, view).Some?
          then PlanTidy(cfg, view).value else plan
  {
    hide PlanMerge, PlanTidy, LargestDemand, OpenDemands, Largest, TryGoals, Positive;
    var open := OpenDemands(rows, Largest(view));
    var demand := LargestDemand(open);
    var missing := if Ready(view) < cfg.collateralCoins then COLLATERAL_COIN_SATS else 0;
    TryPlans(cfg, view, demand, demand, missing, open);
    TryPlans(cfg, view, demand, missing, demand, open);
  }
}
