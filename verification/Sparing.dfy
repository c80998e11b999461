/** How a payout is funded without spending a kept collateral coin: `buildPayout` and `buildPayoutSparingCollateral`. */
module Sparing {
  import opened Coins
  import opened Selection

  datatype Funding =
    | Funded(coins: seq<Coin>)
    | TooFragmented(inputs: nat, maxInputs: nat)
    | Unconfirmed(confirmed: nat, required: nat)
    | Insufficient(available: nat, required: nat)
    | SelfPay

  /** What a payout asks of the wallet. */
  datatype Ask = Ask(goal: Goal, maxInputs: nat, selfPay: bool) {
    /** One coin pays, or at most `maxInputs` confirmed coins do together. */
    ghost predicate FundableBy(coins: seq<Coin>) {
      goal.SomeAlone(coins) || exists t :: goal.Settled(coins, t) && |t| <= maxInputs
    }
  }

  function Fund(ask: Ask, coins: seq<Coin>): Funding {
    if ask.selfPay then SelfPay else
    match Select(ask.goal, coins)
    case InsufficientFunds(available, required) => Insufficient(available, required)
    case UnconfirmedFunds(confirmed, required) => Unconfirmed(confirmed, required)
    case Selected(coins) =>
      if |coins| > ask.maxInputs then TooFragmented(|coins|, ask.maxInputs) else Funded(coins)
  }

  /** Coins below collateral size. */
  function Ordinary(coins: seq<Coin>, collateral: nat): seq<Coin> {
    Filter(coins, (c: Coin) => c.sats < collateral)
  }

  /** `keep` is off for an mn payout and in a wallet that keeps no collateral coins. */
  function FundSparing(ask: Ask, coins: seq<Coin>, collateral: nat, keep: bool): Funding {
    var spare := Ordinary(coins, collateral);
    if !keep || |spare| == |coins| then Fund(ask, coins)
    else
      var first := Fund(ask, spare);
      if first.Insufficient? || first.TooFragmented? || first.Unconfirmed? then Fund(ask, coins) else first
  }

  ghost predicate SpendsCollateral(s: seq<Coin>, collateral: nat) {
    exists c: Coin :: c in s && c.sats >= collateral
  }

  // ------------------------------------------------------------------ what may be spent

  /** A payout is funded exactly when one coin, or few enough confirmed coins, cover it. */
  lemma FundComplete(ask: Ask, coins: seq<Coin>)
    requires ask.maxInputs >= 1
    ensures Fund(ask, coins).Funded? <==> !ask.selfPay && ask.FundableBy(coins)
    ensures Fund(ask, coins).Funded? ==>
      && ask.goal.Joint(coins, Fund(ask, coins).coins)
      && (|Fund(ask, coins).coins| == 1 || ask.goal.Settled(coins, Fund(ask, coins).coins))
      && |Fund(ask, coins).coins| <= ask.maxInputs
    ensures Fund(ask, coins).SelfPay? <==> ask.selfPay
  {
    hide Select, Picks, Sum;
    var g := ask.goal;
    SelectComplete(g, coins);
    var s := Select(g, coins);
    if g.SomeAlone(coins) {
      SelectAlone(g, coins);
      SelectSound(g, coins);
    } else {
      SelectSettled(g, coins);
    }
    forall t | g.Settled(coins, t) ensures s.Selected? && |s.coins| <= |t| {
      SelectMinimal(g, coins, t);
    }
  }

  /**
   * Why a payout is refused: nothing covers it; only unconfirmed coins together
   * do; or it takes more coins than one transaction may carry, and then the
   * fewest that would do are reported.
   */
  lemma FundRefusals(ask: Ask, coins: seq<Coin>)
    ensures var r, g := Fund(ask, coins), ask.goal;
      && (r.Insufficient? <==> !ask.selfPay && !g.SomeJoint(coins))
      && (r.Insufficient? ==>
            r.available == Sum(coins) && r.required == g.target + g.fee(Max(1, |coins|), g.outputs, g.payload))
      && (r.Unconfirmed? ==>
            && r.confirmed == Sum(ConfirmedOf(coins))
            && r.required == g.target + g.fee(Max(1, |ConfirmedOf(coins)|), g.outputs, g.payload))
      && (r.Unconfirmed? <==> !ask.selfPay && g.SomeJoint(coins) && !g.SomeAlone(coins) && !g.SomeSettled(coins))
      && (r.TooFragmented? ==>
            && r.inputs > r.maxInputs == ask.maxInputs
            && (forall t :: g.Settled(coins, t) ==> r.inputs <= |t|))
  {
    hide Select, Picks, Sum, ConfirmedOf;
    SelectComplete(ask.goal, coins);
    RefusalAmounts(ask.goal, coins);
    forall t | ask.goal.Settled(coins, t)
      ensures Select(ask.goal, coins).Selected? && |Select(ask.goal, coins).coins| <= |t|
    {
      SelectMinimal(ask.goal, coins, t);
    }
  }

  /** Choices from the ordinary coins are the wallet's choices that hold no collateral coin. */
  lemma OrdinaryChoices(g: Goal, coins: seq<Coin>, collateral: nat)
    ensures forall t :: g.Settled(Ordinary(coins, collateral), t) <==>
      g.Settled(coins, t) && !SpendsCollateral(t, collateral)
    ensures forall c :: g.Alone(Ordinary(coins, collateral), c) <==> g.Alone(coins, c) && c.sats < collateral
  {
    var p := (c: Coin) => c.sats < collateral;
    forall t ensures g.Settled(Ordinary(coins, collateral), t) <==>
      g.Settled(coins, t) && !SpendsCollateral(t, collateral)
    {
      PicksFilter(t, coins, p);
    }
    FilterIn(coins, p);
  }

  lemma OrdinaryAll(coins: seq<Coin>, collateral: nat)
    requires |Ordinary(coins, collateral)| == |coins|
    ensures Ordinary(coins, collateral) == coins
  {
    FilterAll(coins, (c: Coin) => c.sats < collateral);
  }

  /** What the ordinary coins can fund, the wallet can. */
  lemma FundableMonotone(ask: Ask, coins: seq<Coin>, collateral: nat)
    requires ask.FundableBy(Ordinary(coins, collateral))
    ensures ask.FundableBy(coins)
  {
    hide Ordinary;
    OrdinaryChoices(ask.goal, coins, collateral);
    if ask.goal.SomeAlone(Ordinary(coins, collateral)) {
      var c :| ask.goal.Alone(Ordinary(coins, collateral), c);
      assert ask.goal.Alone(coins, c);
    }
  }

  /**
   * Sparing the collateral coins never refuses a payout the whole wallet could
   * fund, and a payout that keeps them spends one exactly when the smaller
   * coins admit no funding at all.
   */
  lemma SparingSpares(ask: Ask, coins: seq<Coin>, collateral: nat, keep: bool)
    requires ask.maxInputs >= 1
    ensures var r := FundSparing(ask, coins, collateral, keep);
      && (r.Funded? <==> !ask.selfPay && ask.FundableBy(coins))
      && (r.Funded? ==> ask.goal.Joint(coins, r.coins) && |r.coins| <= ask.maxInputs)
      && (!r.Funded? ==> r == Fund(ask, coins))
      && (r.Funded? && keep ==>
            (SpendsCollateral(r.coins, collateral) <==> !ask.FundableBy(Ordinary(coins, collateral))))
  {
    hide Fund, Ordinary, Picks, Sum;
    var spare := Ordinary(coins, collateral);
    FundComplete(ask, coins);
    FundComplete(ask, spare);
    var r := FundSparing(ask, coins, collateral, keep);
    if ask.FundableBy(spare) {
      FundableMonotone(ask, coins, collateral);
    }
    if keep && |spare| == |coins| {
      OrdinaryAll(coins, collateral);
    }
    if r.Funded? && keep {
      if ask.FundableBy(spare) {
        assert r == Fund(ask, spare);
        FundedOrdinary(ask, coins, spare, collateral, r.coins);
      } else if !SpendsCollateral(r.coins, collateral) {
        assert r == Fund(ask, coins);
        OrdinaryFundable(ask, coins, collateral, r.coins);
      }
    }
  }

  /** Funding drawn from the ordinary coins is a choice of the wallet without collateral coins. */
  lemma FundedOrdinary(ask: Ask, coins: seq<Coin>, spare: seq<Coin>, collateral: nat, s: seq<Coin>)
    requires spare == Ordinary(coins, collateral) && ask.goal.Joint(spare, s)
    ensures ask.goal.Joint(coins, s) && !SpendsCollateral(s, collateral)
  {
    PicksFilter(s, coins, (c: Coin) => c.sats < collateral);
  }

  /** A funding without collateral coins is one the ordinary coins admit. */
  lemma OrdinaryFundable(ask: Ask, coins: seq<Coin>, collateral: nat, s: seq<Coin>)
    requires ask.goal.Joint(coins, s) && |s| <= ask.maxInputs && !SpendsCollateral(s, collateral)
    requires |s| == 1 || ask.goal.Settled(coins, s)
    ensures ask.FundableBy(Ordinary(coins, collateral))
  {
    hide Ordinary, Picks, Sum;
    OrdinaryChoices(ask.goal, coins, collateral);
    if |s| == 1 {
      JointOfOne(ask.goal, coins, s);
      assert s[0] in s;
      assert ask.goal.Alone(Ordinary(coins, collateral), s[0]);
    }
  }
}
