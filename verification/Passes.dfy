/** Undisturbed maintenance comes to rest: the chain of passes it books for itself is finite. */
module Passes {
  import opened Coins
  import opened Views
  import opened Selection
  import opened Builders
  import opened Merging
  import opened Planner
  import opened Maintenance
  import opened Wallet

  function Inputs(d: Decision): seq<Coin> {
    match d
    case DoMerge(inputs, _) => inputs
    case DoSplit(coin, _) => [coin]
    case _ => []
  }

  /** Every transaction pays something. */
  ghost predicate Priced(cfg: Config) {
    forall inputs, outputs, payload :: cfg.fee(inputs, outputs, payload) >= 1
  }

  // ------------------------------------------------------------------ one pass

  lemma {:induction false} TryGoalsMerges(cfg: Config, view: seq<Coin>, demand: nat, goals: seq<nat>, rows: seq<Demand>)
    requires TryGoals(cfg, view, demand, goals, rows).plan.Merge?
    ensures exists g :: g in goals && TryGoals(cfg, view, demand, goals, rows).plan == PlanMerge(cfg, view, g)
  {
    if PlanMerge(cfg, view, goals[0]).NoMerge? {
      TryGoalsMerges(cfg, view, demand, goals[1..], if goals[0] == demand then DropDemands(rows, demand) else rows);
    } else {
      assert goals[0] in goals;
    }
  }

  ghost predicate MergesSoundly(cfg: Config, view: seq<Coin>, inputs: seq<Coin>) {
    exists goal :: SoundMerge(cfg, view, goal, inputs)
  }

  lemma ConsolidateSound(cfg: Config, view: seq<Coin>, rows: seq<Demand>)
    requires View(view)
    ensures var plan := Consolidate(cfg, view, rows).plan;
      plan.Merge? ==> MergesSoundly(cfg, view, plan.inputs)
  {
    hide PlanMerge, PlanTidy, SoundMerge, Positive, TryGoals, View;
    var open := OpenDemands(rows, Largest(view));
    var demand := LargestDemand(open);
    var goals := Goals(cfg, view, demand);
    PlanTidySound(cfg, view);
    var r := TryGoals(cfg, view, demand, goals, open);
    if r.plan.Merge? {
      TryGoalsMerges(cfg, view, demand, goals, open);
      var g :| g in goals && r.plan == PlanMerge(cfg, view, g);
      PositiveIn(goals, demand, if Ready(view) < cfg.collateralCoins then COLLATERAL_COIN_SATS else 0, g);
      PlanMergeSound(cfg, view, g);
    }
  }

  lemma PositiveIn(goals: seq<nat>, a: nat, b: nat, g: nat)
    requires goals == Positive([a, b]) || goals == Positive([b, a])
    requires g in goals
    ensures g > 0
  {
    FilterIn([a, b], (g: nat) => g > 0);
    FilterIn([b, a], (g: nat) => g > 0);
  }

  lemma SplittableIn(cfg: Config, view: seq<Coin>)
    ensures Splittable(cfg, view).Some? ==> Splittable(cfg, view).value in view
    ensures Sort(Descending, view) != [] ==> Sort(Descending, view)[0] in view
  {
    SortSorted(Descending, view);
    var sorted := Sort(Descending, view);
    FilterIn(sorted, (c: Coin) => Refills(cfg, c));
    if Splittable(cfg, view).Some? {
      assert Splittable(cfg, view).value in Filter(sorted, (c: Coin) => Refills(cfg, c));
    }
  }

  /** Whatever maintenance spends is a choice of distinct coins of the wallet. */
  lemma DecideSound(cfg: Config, w: seq<Coin>, rows: seq<Demand>)
    requires View(w) && cfg.poolUtxoSats > 0
    ensures var d := Decide(cfg, w, rows);
      && (d.DoMerge? ==> MergesSoundly(cfg, w, d.inputs))
      && (d.DoSplit? ==> d.coin in w && d.count >= 2)
  {
    hide Consolidate, PlanMerge, Splittable, Pool, View, SoundMerge, MergesSoundly;
    hide PlanSplit, Planned, Sort, RefillGoal;
    ConsolidateSound(cfg, w, rows);
    SplittableIn(cfg, w);
    RefillSound(cfg, w);
    PlannedSound(cfg, Consolidate(cfg, w, rows).plan);
    var splittable := Splittable(cfg, w);
    if splittable.Some? {
      PlanSplitSound(cfg, w, splittable.value);
    }
    if Sort(Descending, w) != [] {
      PlanSplitSound(cfg, w, Sort(Descending, w)[0]);
    }
  }

  lemma PlannedSound(cfg: Config, plan: MergePlan)
    ensures !Planned(cfg, plan).DoSplit?
    ensures Planned(cfg, plan).DoMerge? ==> plan.Merge? && Planned(cfg, plan).inputs == plan.inputs
  {
  }

  lemma PlanSplitSound(cfg: Config, w: seq<Coin>, c: Coin)
    requires cfg.poolUtxoSats > 0
    ensures !PlanSplit(cfg, w, c).DoMerge?
    ensures PlanSplit(cfg, w, c).DoSplit? ==> PlanSplit(cfg, w, c).coin == c && PlanSplit(cfg, w, c).count >= 2
  {
  }

  lemma RefillSound(cfg: Config, w: seq<Coin>)
    requires View(w) && cfg.poolUtxoSats > 0
    ensures var plan := PlanMerge(cfg, w, RefillGoal(cfg)); plan.Merge? ==> MergesSoundly(cfg, w, plan.inputs)
  {
    hide PlanMerge, SoundMerge;
    PlanMergeSound(cfg, w, RefillGoal(cfg));
  }

  lemma OneOfOne(s: seq<Coin>, c: Coin)
    requires Picks(s, [c]) && s != []
    ensures s == [c]
  {
    SumPicks(s, [c]);
    assert s[0] in multiset(s);
  }

  /** What a pass that acts does to the wallet's books. */
  lemma ActSpends(cfg: Config, w: seq<Coin>, rows: seq<Demand>, txid: Txid)
    requires View(w) && cfg.poolUtxoSats > 0
    requires Act(cfg, txid, Decide(cfg, w, rows)).Built?
    ensures var d := Decide(cfg, w, rows);
      var tx := Act(cfg, txid, d).tx;
      && View(Inputs(d)) && (forall c :: c in Inputs(d) ==> c in w)
      && tx.inputs == Outpoints(Inputs(d)) && tx.totalIn == Sum(Inputs(d))
      && tx.totalIn == tx.fee + Paid(tx.ownOutputs)
      && (Priced(cfg) ==> tx.fee >= 1)
      && (d.DoMerge? ==> |Inputs(d)| >= 2 && |tx.ownOutputs| == 1)
      && (d.DoSplit? ==> |PoolOutputs(tx, cfg.poolUtxoSats)| >= 2)
  {
    hide Decide, Consolidation, Split, Finish, PoolOutputs, Sum, Outpoints, View, Select;
    var d := Decide(cfg, w, rows);
    var rules := Rules(cfg.fee, cfg.dust);
    DecideSound(cfg, w, rows);
    if d.DoMerge? {
      var goal :| SoundMerge(cfg, w, goal, d.inputs);
      ConsolidationBuilds(rules, txid, d.inputs);
      OnePaid(Outpoint(txid, 0), Sum(d.inputs) - rules.fee(|d.inputs|, 1, 0));
    } else {
      var g := SplitGoal(rules, d.count, cfg.poolUtxoSats);
      SplitBuilds(rules, txid, [d.coin], d.count, cfg.poolUtxoSats);
      SelectSound(g, [d.coin]);
      OneOfOne(Select(g, [d.coin]).coins, d.coin);
      OneView(d.coin);
    }
  }

  lemma OneView(c: Coin)
    ensures View([c])
  {
  }

  lemma OnePaid(op: Outpoint, sats: nat)
    ensures Paid([OwnOutput(op, sats)]) == sats
  {
    assert [OwnOutput(op, sats)][1..] == [];
  }

  /** A pass that acts strictly lowers the balance; a merge strictly lowers the number of coins. */
  lemma ActShrinks(cfg: Config, w: seq<Coin>, rows: seq<Demand>, txid: Txid)
    requires View(w) && cfg.poolUtxoSats > 0 && Fresh(w, txid) && Priced(cfg)
    requires Act(cfg, txid, Decide(cfg, w, rows)).Built?
    ensures var d := Decide(cfg, w, rows);
      var w' := After(w, Act(cfg, txid, d).tx);
      && View(w')
      && Sum(w') < Sum(w)
      && (d.DoMerge? ==> |w'| < |w| && w' != [])
  {
    hide Decide, Act, View, Sum, Outpoints, After, Paid, PoolOutputs;
    ActSpends(cfg, w, rows, txid);
    var d := Decide(cfg, w, rows);
    var tx := Act(cfg, txid, d).tx;
    AfterSum(w, Inputs(d), tx);
    ActOwns(cfg, txid, d);
    AfterView(w, tx);
    assert |After(w, tx)| >= |tx.ownOutputs| by {
      assert After(w, tx) == Unspent(w, tx.inputs) + NewCoins(tx.ownOutputs) by { AfterIs(w, tx); }
    }
  }

  lemma AfterIs(w: seq<Coin>, tx: BuiltTx)
    ensures After(w, tx) == Unspent(w, tx.inputs) + NewCoins(tx.ownOutputs)
  {
  }

  /** A built transaction's own outputs carry its id, each at its own index. */
  lemma ActOwns(cfg: Config, txid: Txid, d: Decision)
    requires Act(cfg, txid, d).Built?
    ensures var tx := Act(cfg, txid, d).tx;
      && tx.txid == txid
      && (forall o :: o in tx.ownOutputs ==> o.op.txid == txid)
      && (forall i, j :: 0 <= i < j < |tx.ownOutputs| ==> tx.ownOutputs[i].op != tx.ownOutputs[j].op)
  {
    hide Select, OwnAmong, PoolOutputs, TotalOut, Sum, SplitOutputs;
    var rules := Rules(cfg.fee, cfg.dust);
    match d
    case DoMerge(inputs, _) =>
      FinishBalances(txid, inputs, [TxOutput(Sum(inputs) - rules.fee(|inputs|, 1, 0), true)]);
    case DoSplit(coin, count) =>
      var s := Select(SplitGoal(rules, count, cfg.poolUtxoSats), [coin]).coins;
      var change := Sum(s) - count * cfg.poolUtxoSats - rules.fee(|s|, count + 1, 0);
      FinishBalances(txid, s, SplitOutputs(rules, count, cfg.poolUtxoSats, change));
  }

  // ------------------------------------------------------------------ pool coins

  lemma FilterLoses(s: seq<Coin>, p: Coin -> bool, x: Coin)
    requires View(s)
    ensures |Filter(Filter(s, (c: Coin) => c.op !in [x.op]), p)| >= |Filter(s, p)| - 1
  {
    FilterLosesFrom(s, p, x);
  }

  lemma {:induction false} FilterLosesFrom(s: seq<Coin>, p: Coin -> bool, x: Coin)
    requires View(s)
    ensures var rest := Filter(s, (c: Coin) => c.op !in [x.op]);
      && |Filter(rest, p)| >= |Filter(s, p)| - 1
      && ((forall c :: c in s ==> c.op != x.op) ==> rest == s)
  {
    if s != [] {
      ViewTail(s);
      FilterLosesFrom(s[1..], p, x);
      assert s == [s[0]] + s[1..];
      assert s[0] in s;
    }
  }

  lemma {:induction false} NewPool(cfg: Config, outs: seq<OwnOutput>)
    requires BelowKept(cfg, Coin(Outpoint(0, 0), cfg.poolUtxoSats, None))
    ensures |Filter(NewCoins(outs), (c: Coin) => Throughput(cfg, c))|
         >= |Filter(outs, (o: OwnOutput) => o.sats == cfg.poolUtxoSats)|
  {
    if outs != [] {
      assert NewCoins(outs)[1..] == NewCoins(outs[1..]);
      NewPool(cfg, outs[1..]);
    }
  }

  /** Every split leaves the wallet with at least one more pool coin than it had. */
  lemma SplitRefills(cfg: Config, w: seq<Coin>, rows: seq<Demand>, txid: Txid)
    requires View(w) && cfg.poolUtxoSats > 0
    requires cfg.collateralCoins == 0 || cfg.poolUtxoSats < COLLATERAL_COIN_SATS
    requires Decide(cfg, w, rows).DoSplit? && Act(cfg, txid, Decide(cfg, w, rows)).Built?
    ensures |Pool(cfg, After(w, Act(cfg, txid, Decide(cfg, w, rows)).tx))| >= |Pool(cfg, w)| + 1
  {
    hide Decide, Act, Sum, Paid, Filter;
    ActSpends(cfg, w, rows, txid);
    var d := Decide(cfg, w, rows);
    var tx := Act(cfg, txid, d).tx;
    var p := (c: Coin) => Throughput(cfg, c);
    assert tx.inputs == [d.coin.op];
    FilterLoses(w, p, d.coin);
    NewPool(cfg, tx.ownOutputs);
    FilterConcat(Unspent(w, tx.inputs), NewCoins(tx.ownOutputs), p);
  }

  /** Kept collateral coins are no pool coins, so a pool size at or above theirs leaves the pool empty for good. */
  lemma {:induction false} PoolOutOfReach(cfg: Config, w: seq<Coin>)
    requires cfg.collateralCoins > 0 && cfg.poolUtxoSats >= COLLATERAL_COIN_SATS
    ensures Pool(cfg, w) == []
  {
    if w != [] {
      PoolOutOfReach(cfg, w[1..]);
    }
  }

  /**
   * The 1% headroom is enough: with the pool low and two more coins wanted, a
   * splittable coin whose hundredth covers the fee is always split.
   */
  lemma HeadroomSuffices(cfg: Config, w: seq<Coin>, rows: seq<Demand>, txid: Txid, count: nat)
    requires cfg.poolUtxoSats > 0 && !cfg.dryRun
    requires |Pool(cfg, w)| < cfg.poolMin && |Pool(cfg, w)| + 2 <= cfg.poolTarget
    requires Splittable(cfg, w).Some? && count == SplitCount(cfg, w, Splittable(cfg, w).value)
    requires 100 * cfg.fee(1, count + 1, 0) <= Splittable(cfg, w).value.sats
    ensures Decide(cfg, w, rows) == DoSplit(Splittable(cfg, w).value, count)
    ensures Act(cfg, txid, Decide(cfg, w, rows)).Built?
  {
    hide Pool, View, PlanMerge, Consolidate, Split, Consolidation, Splittable, FundsTwo, SplitCount;
    var c := Splittable(cfg, w).value;
    CountFits(cfg, w);
    OneCoinSplits(cfg, txid, c, count);
  }

  lemma CountFits(cfg: Config, w: seq<Coin>)
    requires cfg.poolUtxoSats > 0 && |Pool(cfg, w)| + 2 <= cfg.poolTarget && Splittable(cfg, w).Some?
    ensures var c := Splittable(cfg, w).value;
      SplitCount(cfg, w, c) >= 2 && 100 * (SplitCount(cfg, w, c) * cfg.poolUtxoSats) <= 99 * c.sats
  {
    hide Pool, Splittable;
    var c := Splittable(cfg, w).value;
    SplittableFunds(cfg, w);
    Headroom(c.sats, cfg.poolUtxoSats, cfg.poolTarget - |Pool(cfg, w)|);
  }

  lemma OneCoinSplits(cfg: Config, txid: Txid, c: Coin, count: nat)
    requires count >= 2 && 100 * (count * cfg.poolUtxoSats) <= 99 * c.sats && 100 * cfg.fee(1, count + 1, 0) <= c.sats
    ensures Split(Rules(cfg.fee, cfg.dust), txid, [c], count, cfg.poolUtxoSats).Built?
  {
    hide Split, Select, PoolOutputs, Picks, Sum;
    var g := SplitGoal(Rules(cfg.fee, cfg.dust), count, cfg.poolUtxoSats);
    SplitBuilds(Rules(cfg.fee, cfg.dust), txid, [c], count, cfg.poolUtxoSats);
    assert g.Alone([c], c);
    SelectComplete(g, [c]);
  }

  lemma SplittableFunds(cfg: Config, w: seq<Coin>)
    requires Splittable(cfg, w).Some?
    ensures FundsTwo(cfg, Splittable(cfg, w).value)
  {
    var p := (c: Coin) => Refills(cfg, c);
    FilterIn(Sort(Descending, w), p);
    assert Splittable(cfg, w).value in Filter(Sort(Descending, w), p);
  }

  /** Whatever number of pool coins 99% of a coin affords leaves its hundredth for the fee. */
  lemma Headroom(sats: nat, each: nat, wanted: int)
    requires each > 0 && 99 * sats >= 200 * each && wanted >= 2
    ensures var affordable := 99 * sats / (100 * each);
      var count := if wanted <= affordable then wanted else affordable;
      count >= 2 && 100 * (count * each) <= 99 * sats
  {
    var affordable := 99 * sats / (100 * each);
    var count := if wanted <= affordable then wanted else affordable;
    assert affordable * (100 * each) <= 99 * sats;
    assert 2 * (100 * each) <= 99 * sats;
    assert count * (100 * each) <= affordable * (100 * each);
    assert count * (100 * each) == 100 * (count * each);
  }

  // ------------------------------------------------------------------ runs

  /** Explorers catching up may reorder the view and confirm coins, and change nothing else. */
  ghost predicate SameFunds(w: seq<Coin>, w': seq<Coin>) {
    multiset(Unconfirmed(w)) == multiset(Unconfirmed(w'))
  }

  function Unconfirmed(w: seq<Coin>): (r: seq<Coin>)
    ensures |r| == |w| && forall i :: 0 <= i < |w| ==> r[i] == w[i].(height := None)
  {
    seq(|w|, i requires 0 <= i < |w| => w[i].(height := None))
  }

  /**
   * What happens between two looks at the wallet: the explorers catch up, a
   * pass acts, or a pass waits for coins to confirm. Acting and waiting both
   * book the next pass.
   */
  datatype Event = Settles(w: seq<Coin>) | Passes(rows: seq<Demand>, txid: Txid) | Waits(rows: seq<Demand>)

  ghost predicate Valid(cfg: Config, w: seq<Coin>, events: seq<Event>)
    requires cfg.poolUtxoSats > 0
    decreases |events|
  {
    events == [] ||
    match events[0]
    case Settles(w') => View(w') && SameFunds(w, w') && Valid(cfg, w', events[1..])
    case Passes(rows, txid) =>
      var b := Act(cfg, txid, Decide(cfg, w, rows));
      Fresh(w, txid) && b.Built? && Valid(cfg, After(w, b.tx), events[1..])
    case Waits(rows) => Decide(cfg, w, rows).AwaitCoins? && Valid(cfg, w, events[1..])
  }

  ghost function End(cfg: Config, w: seq<Coin>, events: seq<Event>): seq<Coin>
    requires cfg.poolUtxoSats > 0 && Valid(cfg, w, events)
    decreases |events|
  {
    if events == [] then w else
    match events[0]
    case Settles(w') => End(cfg, w', events[1..])
    case Passes(rows, txid) => End(cfg, After(w, Act(cfg, txid, Decide(cfg, w, rows)).tx), events[1..])
    case Waits(_) => End(cfg, w, events[1..])
  }

  /** Passes that act. */
  function Acted(events: seq<Event>): nat {
    if events == [] then 0 else (if events[0].Passes? then 1 else 0) + Acted(events[1..])
  }

  /** Passes that book their own follow-up. */
  function Booked(events: seq<Event>): nat {
    if events == [] then 0 else (if events[0].Settles? then 0 else 1) + Booked(events[1..])
  }

  /** No pass of the run splits. */
  ghost predicate MergesOnly(cfg: Config, w: seq<Coin>, events: seq<Event>)
    requires cfg.poolUtxoSats > 0 && Valid(cfg, w, events)
    decreases |events|
  {
    events == [] ||
    match events[0]
    case Settles(w') => MergesOnly(cfg, w', events[1..])
    case Passes(rows, txid) =>
      && Decide(cfg, w, rows).DoMerge?
      && MergesOnly(cfg, After(w, Act(cfg, txid, Decide(cfg, w, rows)).tx), events[1..])
    case Waits(_) => MergesOnly(cfg, w, events[1..])
  }

  lemma {:induction false} UnconfirmedSum(w: seq<Coin>)
    ensures Sum(Unconfirmed(w)) == Sum(w)
  {
    if w != [] {
      assert Unconfirmed(w)[1..] == Unconfirmed(w[1..]);
      UnconfirmedSum(w[1..]);
    }
  }

  lemma SameFundsSum(w: seq<Coin>, w': seq<Coin>)
    requires SameFunds(w, w')
    ensures Sum(w) == Sum(w') && |w| == |w'|
  {
    UnconfirmedSum(w);
    UnconfirmedSum(w');
    SumPermutation(Unconfirmed(w), Unconfirmed(w'));
  }

  /**
   * However long the run, its acting passes number at most the duffs in the
   * wallet. Waiting passes are not bounded by this: see `ChainEnds`.
   */
  lemma {:induction false} PassesEnd(cfg: Config, w: seq<Coin>, events: seq<Event>)
    requires cfg.poolUtxoSats > 0 && Priced(cfg) && View(w) && Valid(cfg, w, events)
    ensures Sum(End(cfg, w, events)) + Acted(events) <= Sum(w)
    decreases |events|
  {
    hide View, Sum, SameFunds, Act, Decide, After;
    if events != [] {
      match events[0]
      case Settles(w') =>
        SameFundsSum(w, w');
        PassesEnd(cfg, w', events[1..]);
      case Passes(rows, txid) =>
        ActShrinks(cfg, w, rows, txid);
        PassesEnd(cfg, After(w, Act(cfg, txid, Decide(cfg, w, rows)).tx), events[1..]);
      case Waits(_) => PassesEnd(cfg, w, events[1..]);
    }
  }

  /** A stretch without splits has fewer merges than the coins it starts with. */
  lemma {:induction false} MergesEnd(cfg: Config, w: seq<Coin>, events: seq<Event>)
    requires cfg.poolUtxoSats > 0 && Priced(cfg) && View(w) && Valid(cfg, w, events)
    requires MergesOnly(cfg, w, events)
    ensures Acted(events) == 0 || Acted(events) < |w|
    ensures |End(cfg, w, events)| + Acted(events) <= |w|
    decreases |events|
  {
    hide View, Sum, SameFunds, Act, Decide, After;
    if events != [] {
      match events[0]
      case Settles(w') =>
        SameFundsSum(w, w');
        MergesEnd(cfg, w', events[1..]);
      case Passes(rows, txid) =>
        ActShrinks(cfg, w, rows, txid);
        MergesEnd(cfg, After(w, Act(cfg, txid, Decide(cfg, w, rows)).tx), events[1..]);
      case Waits(_) => MergesEnd(cfg, w, events[1..]);
    }
  }

  // ------------------------------------------------------------------ waiting

  lemma {:induction false} TryGoalsWaits(cfg: Config, view: seq<Coin>, demand: nat, goals: seq<nat>, rows: seq<Demand>)
    ensures TryGoals(cfg, view, demand, goals, rows).plan.Waiting? ==>
      exists g :: g in goals && PlanMerge(cfg, view, g).Waiting?
  {
    hide PlanMerge, DropDemands;
    if goals != [] {
      assert goals[0] in goals;
      TryGoalsWaits(cfg, view, demand, goals[1..], if goals[0] == demand then DropDemands(rows, demand) else rows);
    }
  }

  lemma ConsolidateWaits(cfg: Config, view: seq<Coin>, rows: seq<Demand>)
    requires View(view)
    ensures Consolidate(cfg, view, rows).plan.Waiting? ==> exists g :: PlanMerge(cfg, view, g).Waiting?
  {
    hide PlanMerge, PlanTidy, Goals, TryGoals, SoundMerge, OpenDemands, LargestDemand, View;
    PlanTidySound(cfg, view);
    var open := OpenDemands(rows, Largest(view));
    var demand := LargestDemand(open);
    TryGoalsWaits(cfg, view, demand, Goals(cfg, view, demand), open);
  }

  lemma AwaitsConsolidation(cfg: Config, w: seq<Coin>, rows: seq<Demand>)
    requires cfg.poolUtxoSats > 0
    ensures Decide(cfg, w, rows).AwaitCoins? <==>
      |Pool(cfg, w)| >= cfg.poolMin && Consolidate(cfg, w, rows).plan.Waiting?
  {
    hide Consolidate, Pool, PlanMerge, Splittable, Sort;
  }

  /** A pass waits only while some coin of the wallet is unconfirmed. */
  lemma WaitNeedsUnconfirmed(cfg: Config, w: seq<Coin>, rows: seq<Demand>)
    requires cfg.poolUtxoSats > 0 && View(w)
    ensures Decide(cfg, w, rows).AwaitCoins? ==> !AllConfirmed(w)
  {
    hide Decide, Consolidate, PlanMerge, View, MergeMaterial, KeptPool, KeptCollateral, Spare, Pool, Sum, Picks;
    AwaitsConsolidation(cfg, w, rows);
    ConsolidateWaits(cfg, w, rows);
    if g :| PlanMerge(cfg, w, g).Waiting? {
      PlanMergeWaits(cfg, w, g);
      MergeMaterialShape(cfg, w, g);
    }
  }

  /**
   * Passes may follow one another as fast as they like, acting or waiting. All
   * that is asked is that coins confirm in time: when a pass is about to wait
   * after `k` waits since the last one that acted, every coin has confirmed.
   */
  ghost predicate Patient(cfg: Config, k: nat, w: seq<Coin>, events: seq<Event>, waited: nat)
    requires cfg.poolUtxoSats > 0 && Valid(cfg, w, events)
    decreases |events|
  {
    events == [] ||
    match events[0]
    case Settles(w') => Patient(cfg, k, w', events[1..], waited)
    case Passes(rows, txid) =>
      Patient(cfg, k, After(w, Act(cfg, txid, Decide(cfg, w, rows)).tx), events[1..], 0)
    case Waits(_) =>
      (waited >= k ==> AllConfirmed(w)) && Patient(cfg, k, w, events[1..], waited + 1)
  }

  /** Each acting pass is followed by at most `k` waits. */
  lemma {:induction false} WaitsBetween(cfg: Config, k: nat, w: seq<Coin>, events: seq<Event>, waited: nat)
    requires cfg.poolUtxoSats > 0 && Priced(cfg) && View(w) && Valid(cfg, w, events)
    requires waited <= k && Patient(cfg, k, w, events, waited)
    ensures Booked(events) <= (k + 1) * Acted(events) + (k - waited)
    decreases |events|
  {
    hide View, Sum, SameFunds, Act, Decide, After, AllConfirmed;
    if events != [] {
      match events[0]
      case Settles(w') => WaitsBetween(cfg, k, w', events[1..], waited);
      case Passes(rows, txid) =>
        ActShrinks(cfg, w, rows, txid);
        WaitsBetween(cfg, k, After(w, Act(cfg, txid, Decide(cfg, w, rows)).tx), events[1..], 0);
        OneMore(k + 1, Acted(events[1..]));
      case Waits(rows) =>
        WaitNeedsUnconfirmed(cfg, w, rows);
        WaitsBetween(cfg, k, w, events[1..], waited + 1);
    }
  }

  lemma OneMore(m: nat, n: nat)
    ensures m * (n + 1) == m * n + m
  {
  }

  lemma ProductGrows(m: nat, a: nat, b: nat)
    requires a <= b
    ensures m * a <= m * b
  {
  }

  /**
   * The chain of passes that book their own follow-up is finite, however fast
   * they follow one another, when coins confirm within `k` waits: there are at
   * most `k + 1` passes for each duff the wallet loses, and `k` more.
   */
  lemma ChainEnds(cfg: Config, k: nat, w: seq<Coin>, events: seq<Event>)
    requires cfg.poolUtxoSats > 0 && Priced(cfg) && View(w) && Valid(cfg, w, events)
    requires Patient(cfg, k, w, events, 0)
    ensures Sum(End(cfg, w, events)) <= Sum(w)
    ensures Booked(events) <= (k + 1) * (Sum(w) - Sum(End(cfg, w, events))) + k
    ensures Booked(events) <= (k + 1) * Sum(w) + k
  {
    hide View, Sum, Patient, Valid, End;
    PassesEnd(cfg, w, events);
    WaitsBetween(cfg, k, w, events, 0);
    var lost := Sum(w) - Sum(End(cfg, w, events));
    ProductGrows(k + 1, Acted(events), lost);
    ProductGrows(k + 1, lost, Sum(w));
  }

  /**
   * While nothing confirms, whatever wallet makes a pass wait makes it wait any
   * number of times, and never changes.
   */
  lemma {:induction false} WaitsUnbounded(cfg: Config, w: seq<Coin>, rows: seq<Demand>, n: nat)
      returns (events: seq<Event>)
    requires cfg.poolUtxoSats > 0 && Decide(cfg, w, rows).AwaitCoins?
    ensures Valid(cfg, w, events) && Booked(events) == n && End(cfg, w, events) == w
  {
    hide Decide;
    if n == 0 {
      events := [];
    } else {
      var rest := WaitsUnbounded(cfg, w, rows, n - 1);
      events := [Waits(rows)] + rest;
      assert events[1..] == rest;
    }
  }

  /** With enough coins for a goal and none of them confirmed, merging toward it waits. */
  lemma NothingConfirmedWaits(cfg: Config, view: seq<Coin>, goal: nat)
    requires View(view) && goal > 0 && forall c: Coin :: c in view ==> !c.Confirmed()
    requires Sum(MergeMaterial(cfg, view, goal)) >= goal
    ensures PlanMerge(cfg, view, goal).Waiting?
  {
    hide MergeMaterial, SelectMerge, KeptPool, KeptCollateral, View;
    var material := MergeMaterial(cfg, view, goal);
    MergeMaterialShape(cfg, view, goal);
    FilterNone(material, (c: Coin) => c.Confirmed());
    MergeReaches(cfg.fee, [], goal, cfg.maxPayoutInputs);
  }

  /** A wallet that keeps one collateral coin and holds 1200 DASH in two unconfirmed coins. */
  const WAITING: Config := Config((_, _, _) => 1, 0, 0, 1, COIN, 10, 1, false)
  const HALVES: seq<Coin> :=
    [Coin(Outpoint(0, 0), 600 * COIN, None), Coin(Outpoint(0, 1), 600 * COIN, None)]

  /** A wallet short of collateral coins and without open demands waits when the merge toward one does. */
  lemma CollateralWaits(cfg: Config, w: seq<Coin>)
    requires cfg.poolUtxoSats > 0 && |Pool(cfg, w)| >= cfg.poolMin && Ready(w) < cfg.collateralCoins
    requires PlanMerge(cfg, w, COLLATERAL_COIN_SATS).Waiting?
    ensures Decide(cfg, w, []).AwaitCoins?
  {
    hide PlanMerge, Pool, Ready, Largest;
    assert OpenDemands([], Largest(w)) == [];
    var goal := COLLATERAL_COIN_SATS;
    FilterPair(goal, 0, (g: nat) => g > 0);
    assert Goals(cfg, w, 0) == [goal];
    hide Goals, Decide, PlanTidy;
    AwaitsConsolidation(cfg, w, []);
  }

  /** Such a wallet exists: it waits, at a price for every transaction. */
  lemma HalvesWait()
    ensures Priced(WAITING) && View(HALVES) && Decide(WAITING, HALVES, []).AwaitCoins?
  {
    hide Decide, PlanMerge, MergeMaterial;
    HalvesMaterial();
    NothingConfirmedWaits(WAITING, HALVES, COLLATERAL_COIN_SATS);
    FilterPair(HALVES[0], HALVES[1], (c: Coin) => c.sats >= COLLATERAL_COIN_SATS);
    assert HALVES == [HALVES[0], HALVES[1]];
    CollateralWaits(WAITING, HALVES);
  }

  lemma HalvesMaterial()
    ensures View(HALVES) && Sum(MergeMaterial(WAITING, HALVES, COLLATERAL_COIN_SATS)) >= COLLATERAL_COIN_SATS
  {
    var goal := COLLATERAL_COIN_SATS;
    BelowShape(HALVES, goal);
    KeptPoolSmallest(WAITING, HALVES, goal);
    MaterialShape(WAITING, HALVES, goal);
    KeptCollateralSmallest(WAITING, HALVES, goal);
    SpareShape(WAITING, HALVES, goal);
    var m := MergeMaterial(WAITING, HALVES, goal);
    hide MergeMaterial, Spare, Material, KeptPool, KeptCollateral, PoolCoins, CollateralOf, Below;
    assert HALVES[0] in m && HALVES[1] in m;
    TwoSum(m, HALVES[0], HALVES[1]);
  }

  lemma TwoSum(s: seq<Coin>, a: Coin, b: Coin)
    requires a in s && b in s && a != b
    ensures Sum(s) >= a.sats + b.sats
  {
    var rest := Without(s, a);
    assert b in multiset(rest);
    var more := Without(rest, b);
  }
}
