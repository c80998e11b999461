/** Value arithmetic of the transaction builders in src/tx.ts. Signing and hashing are foreign code. */
module Builders {
  import opened Coins
  import opened Selection

  datatype TxOutput = TxOutput(sats: nat, ours: bool)

  datatype OwnOutput = OwnOutput(op: Outpoint, sats: nat)

  datatype BuiltTx = BuiltTx(
    txid: Txid,
    inputs: seq<Outpoint>,
    ownOutputs: seq<OwnOutput>,
    fee: int,
    totalIn: nat)

  datatype Build =
    | Built(tx: BuiltTx)
    | Insufficient(available: nat, required: nat)
    | Unconfirmed(confirmed: nat, required: nat)
    | Refused

  /** The network's fee ceiling and dust threshold. */
  datatype Rules = Rules(fee: FeeCeiling, dust: nat)

  function Outpoints(coins: seq<Coin>): (r: seq<Outpoint>)
    ensures |r| == |coins| && forall i :: 0 <= i < |coins| ==> r[i] == coins[i].op
  {
    seq(|coins|, i requires 0 <= i < |coins| => coins[i].op)
  }

  function TotalOut(outputs: seq<TxOutput>): nat {
    if outputs == [] then 0 else outputs[0].sats + TotalOut(outputs[1..])
  }

  function Paid(outputs: seq<OwnOutput>): nat {
    if outputs == [] then 0 else outputs[0].sats + Paid(outputs[1..])
  }

  /** Our own outputs among the first n, with the position each has in the transaction. */
  function OwnAmong(txid: Txid, outputs: seq<TxOutput>, n: nat): seq<OwnOutput>
    requires n <= |outputs|
  {
    if n == 0 then []
    else
      var o := outputs[n - 1];
      OwnAmong(txid, outputs, n - 1) + (if o.ours then [OwnOutput(Outpoint(txid, n - 1), o.sats)] else [])
  }

  function Finish(txid: Txid, inputs: seq<Coin>, outputs: seq<TxOutput>): BuiltTx {
    BuiltTx(txid, Outpoints(inputs), OwnAmong(txid, outputs, |outputs|),
            Sum(inputs) - TotalOut(outputs), Sum(inputs))
  }

  function Change(rules: Rules, change: int): seq<TxOutput> {
    if change > rules.dust then [TxOutput(change, true)] else []
  }

  function Copies(n: nat, sats: nat): (r: seq<TxOutput>)
    ensures |r| == n && forall i :: 0 <= i < n ==> r[i] == TxOutput(sats, true)
  {
    seq(n, _ => TxOutput(sats, true))
  }

  function PoolOutputs(tx: BuiltTx, sats: nat): seq<OwnOutput> {
    Filter(tx.ownOutputs, (o: OwnOutput) => o.sats == sats)
  }

  /** The credit output of an asset lock: everything that is neither fee nor change. */
  function VoucherAmount(tx: BuiltTx): int {
    tx.totalIn - tx.fee - Paid(tx.ownOutputs)
  }

  function Split(rules: Rules, txid: Txid, coins: seq<Coin>, count: nat, each: nat): Build {
    if count < 2 then Refused else
    match Select(SplitGoal(rules, count, each), coins)
    case InsufficientFunds(available, required) => Insufficient(available, required)
    case UnconfirmedFunds(confirmed, required) => Unconfirmed(confirmed, required)
    case Selected(selected) =>
      var fee := rules.fee(|selected|, count + 1, 0);
      var change := Sum(selected) - count * each - fee;
      if change < 0 then Insufficient(Sum(selected), count * each + fee) else
      var tx := Finish(txid, selected, SplitOutputs(rules, count, each, change));
      if |PoolOutputs(tx, each)| < count then Refused else Built(tx)
  }

  function SplitOutputs(rules: Rules, count: nat, each: nat, change: int): seq<TxOutput> {
    Copies(count, each) + Change(rules, change)
  }

  function SplitGoal(rules: Rules, count: nat, each: nat): Goal {
    Goal(rules.fee, count * each, count + 1, 0)
  }

  function Consolidation(rules: Rules, txid: Txid, inputs: seq<Coin>): Build {
    if |inputs| < 2 then Refused else
    var fee := rules.fee(|inputs|, 1, 0);
    var merged := Sum(inputs) - fee;
    if merged <= rules.dust then Insufficient(Sum(inputs), fee)
    else Built(Finish(txid, inputs, [TxOutput(merged, true)]))
  }

  const PAYLOAD_BYTES: nat := 36

  function AssetLockGoal(rules: Rules, sats: nat): Goal {
    Goal(rules.fee, sats, 2, PAYLOAD_BYTES)
  }

  function AssetLockOutputs(rules: Rules, sats: nat, change: int): seq<TxOutput> {
    [TxOutput(sats, false)] + Change(rules, change)
  }

  function AssetLock(rules: Rules, txid: Txid, coins: seq<Coin>, sats: nat): Build {
    match Select(AssetLockGoal(rules, sats), coins)
    case InsufficientFunds(available, required) => Insufficient(available, required)
    case UnconfirmedFunds(confirmed, required) => Unconfirmed(confirmed, required)
    case Selected(selected) =>
      var fee := rules.fee(|selected|, 2, PAYLOAD_BYTES);
      var change := Sum(selected) - sats - fee;
      if change < 0 then Insufficient(Sum(selected), sats + fee)
      else Built(Finish(txid, selected, AssetLockOutputs(rules, sats, change)))
  }

  /** What the library drafts for a selection: the recipient's output, and perhaps change. */
  datatype Draft = Draft(paid: nat, change: Option<nat>) {
    function Outputs(): seq<TxOutput> {
      [TxOutput(paid, false)] + (if change.Some? then [TxOutput(change.value, true)] else [])
    }

    function Back(): nat {
      if change.Some? then change.value else 0
    }
  }

  function PayoutGoal(rules: Rules, sats: nat): Goal {
    Goal(rules.fee, sats, 2, 0)
  }

  /** A draft that does not pay the recipient the exact amount is refused. */
  function Payout(rules: Rules, txid: Txid, coins: seq<Coin>, sats: nat, draft: seq<Coin> -> Draft): Build {
    match Select(PayoutGoal(rules, sats), coins)
    case InsufficientFunds(available, required) => Insufficient(available, required)
    case UnconfirmedFunds(confirmed, required) => Unconfirmed(confirmed, required)
    case Selected(selected) =>
      if draft(selected).paid != sats then Refused else Built(Finish(txid, selected, draft(selected).Outputs()))
  }

  // ------------------------------------------------------------------ the loops

  /** Own outputs are found by script, walking the outputs in order. */
  method FinishTx(txid: Txid, inputs: seq<Coin>, outputs: seq<TxOutput>) returns (tx: BuiltTx)
    ensures tx == Finish(txid, inputs, outputs)
  {
    var own: seq<OwnOutput> := [];
    for i := 0 to |outputs|
      invariant own == OwnAmong(txid, outputs, i)
    {
      if outputs[i].ours {
        own := own + [OwnOutput(Outpoint(txid, i), outputs[i].sats)];
      }
    }
    tx := BuiltTx(txid, Outpoints(inputs), own, Sum(inputs) - TotalOut(outputs), Sum(inputs));
  }

  method BuildSplit(rules: Rules, txid: Txid, coins: seq<Coin>, count: nat, each: nat) returns (r: Build)
    ensures r == Split(rules, txid, coins, count, each)
  {
    hide Select, Finish, PoolOutputs, Sum;
    if count < 2 {
      return Refused;
    }
    var selection := SelectInputs(SplitGoal(rules, count, each), coins);
    match selection
    case InsufficientFunds(available, required) => return Insufficient(available, required);
    case UnconfirmedFunds(confirmed, required) => return Unconfirmed(confirmed, required);
    case Selected(selected) =>
      var outputs := Copies(count, each);
      var fee := rules.fee(|selected|, count + 1, 0);
      var change := Sum(selected) - count * each - fee;
      if change < 0 {
        return Insufficient(Sum(selected), count * each + fee);
      }
      outputs := outputs + Change(rules, change);
      var tx := FinishTx(txid, selected, outputs);
      if |PoolOutputs(tx, each)| < count {
        return Refused;
      }
      return Built(tx);
  }

  // ------------------------------------------------------------------ conservation

  lemma {:induction false} OwnAmongShape(txid: Txid, outputs: seq<TxOutput>, n: nat)
    requires n <= |outputs|
    ensures forall o :: o in OwnAmong(txid, outputs, n) ==>
      o.op.txid == txid && o.op.index < n && outputs[o.op.index] == TxOutput(o.sats, true)
    ensures forall i, j :: 0 <= i < j < |OwnAmong(txid, outputs, n)| ==>
      OwnAmong(txid, outputs, n)[i].op.index < OwnAmong(txid, outputs, n)[j].op.index
  {
    if n > 0 {
      OwnAmongShape(txid, outputs, n - 1);
    }
  }

  lemma {:induction false} PaidConcat(a: seq<OwnOutput>, b: seq<OwnOutput>)
    ensures Paid(a + b) == Paid(a) + Paid(b)
  {
    if a == [] {
      assert a + b == b;
    } else {
      assert (a + b)[1..] == a[1..] + b;
      PaidConcat(a[1..], b);
    }
  }

  lemma {:induction false} TotalOutConcat(a: seq<TxOutput>, b: seq<TxOutput>)
    ensures TotalOut(a + b) == TotalOut(a) + TotalOut(b)
  {
    if a == [] {
      assert a + b == b;
    } else {
      assert (a + b)[1..] == a[1..] + b;
      TotalOutConcat(a[1..], b);
    }
  }

  function Foreign(outputs: seq<TxOutput>): nat {
    if outputs == [] then 0 else (if outputs[0].ours then 0 else outputs[0].sats) + Foreign(outputs[1..])
  }

  lemma {:induction false} ForeignConcat(a: seq<TxOutput>, b: seq<TxOutput>)
    ensures Foreign(a + b) == Foreign(a) + Foreign(b)
  {
    if a == [] {
      assert a + b == b;
    } else {
      assert (a + b)[1..] == a[1..] + b;
      ForeignConcat(a[1..], b);
    }
  }

  lemma OneOutput(txid: Txid, i: nat, o: TxOutput)
    ensures TotalOut([o]) == o.sats && Foreign([o]) == (if o.ours then 0 else o.sats)
    ensures Paid(if o.ours then [OwnOutput(Outpoint(txid, i), o.sats)] else []) == if o.ours then o.sats else 0
  {
    assert [o][1..] == [];
    var own := [OwnOutput(Outpoint(txid, i), o.sats)];
    assert own[1..] == [];
  }

  lemma {:induction false} OutputsBalance(txid: Txid, outputs: seq<TxOutput>, n: nat)
    requires n <= |outputs|
    ensures TotalOut(outputs[..n]) == Foreign(outputs[..n]) + Paid(OwnAmong(txid, outputs, n))
  {
    if n > 0 {
      hide TotalOut, Foreign, Paid;
      var o := outputs[n - 1];
      OutputsBalance(txid, outputs, n - 1);
      assert outputs[..n] == outputs[..n - 1] + [o];
      TotalOutConcat(outputs[..n - 1], [o]);
      ForeignConcat(outputs[..n - 1], [o]);
      OneOutput(txid, n - 1, o);
      PaidConcat(OwnAmong(txid, outputs, n - 1), if o.ours then [OwnOutput(Outpoint(txid, n - 1), o.sats)] else []);
    }
  }

  /** Every finished transaction balances: what goes in is the fee, what leaves, and what comes back. */
  lemma FinishBalances(txid: Txid, inputs: seq<Coin>, outputs: seq<TxOutput>)
    ensures var tx := Finish(txid, inputs, outputs);
      && tx.totalIn == Sum(inputs)
      && tx.totalIn == tx.fee + Foreign(outputs) + Paid(tx.ownOutputs)
      && VoucherAmount(tx) == Foreign(outputs)
      && tx.inputs == Outpoints(inputs) && tx.fee == Sum(inputs) - TotalOut(outputs)
      && (forall o :: o in tx.ownOutputs ==> o.op.txid == txid)
      && (forall i, j :: 0 <= i < j < |tx.ownOutputs| ==> tx.ownOutputs[i].op != tx.ownOutputs[j].op)
  {
    OutputsBalance(txid, outputs, |outputs|);
    assert outputs[..|outputs|] == outputs;
    OwnAmongShape(txid, outputs, |outputs|);
  }

  lemma {:induction false} CopiesOwn(txid: Txid, n: nat, sats: nat, rest: seq<TxOutput>, k: nat)
    requires n <= k <= n + |rest|
    ensures |Filter(OwnAmong(txid, Copies(n, sats) + rest, k), (o: OwnOutput) => o.sats == sats)| >= n
  {
    CopiesOwnPrefix(txid, n, sats, rest, n);
    FilterGrows(txid, Copies(n, sats) + rest, sats, n, k);
  }

  lemma {:induction false} CopiesOwnPrefix(txid: Txid, n: nat, sats: nat, rest: seq<TxOutput>, k: nat)
    requires k <= n
    ensures |Filter(OwnAmong(txid, Copies(n, sats) + rest, k), (o: OwnOutput) => o.sats == sats)| == k
  {
    if k > 0 {
      var outputs := Copies(n, sats) + rest;
      CopiesOwnPrefix(txid, n, sats, rest, k - 1);
      assert outputs[k - 1] == TxOutput(sats, true);
      FilterConcat(OwnAmong(txid, outputs, k - 1), [OwnOutput(Outpoint(txid, k - 1), sats)],
                   (o: OwnOutput) => o.sats == sats);
    }
  }

  lemma {:induction false} FilterGrows(txid: Txid, outputs: seq<TxOutput>, sats: nat, i: nat, k: nat)
    requires i <= k <= |outputs|
    ensures |Filter(OwnAmong(txid, outputs, i), (o: OwnOutput) => o.sats == sats)|
         <= |Filter(OwnAmong(txid, outputs, k), (o: OwnOutput) => o.sats == sats)|
    decreases k
  {
    if i < k {
      FilterGrows(txid, outputs, sats, i, k - 1);
      var o := outputs[k - 1];
      FilterConcat(OwnAmong(txid, outputs, k - 1),
                   if o.ours then [OwnOutput(Outpoint(txid, k - 1), o.sats)] else [],
                   (o: OwnOutput) => o.sats == sats);
    }
  }

  lemma {:induction false} CopiesForeign(n: nat, sats: nat)
    ensures Foreign(Copies(n, sats)) == 0 && TotalOut(Copies(n, sats)) == n * sats
  {
    if n > 0 {
      assert Copies(n, sats)[1..] == Copies(n - 1, sats);
      CopiesForeign(n - 1, sats);
      assert n * sats == sats + (n - 1) * sats;
    }
  }

  lemma SplitOutputsPay(rules: Rules, txid: Txid, selected: seq<Coin>, count: nat, each: nat, change: nat)
    ensures var outputs := SplitOutputs(rules, count, each, change);
      && Foreign(outputs) == 0
      && TotalOut(outputs) == count * each + (if change > rules.dust then change else 0)
      && |PoolOutputs(Finish(txid, selected, outputs), each)| >= count
  {
    var pool, rest := Copies(count, each), Change(rules, change);
    CopiesForeign(count, each);
    ForeignConcat(pool, rest);
    TotalOutConcat(pool, rest);
    assert TotalOut(rest) == if change > rules.dust then change else 0;
    CopiesOwn(txid, count, each, rest, |pool + rest|);
  }

  /** The fee is the ceiling, and what is left beyond it too when that is no more than dust. */
  predicate FeeIs(rules: Rules, tx: BuiltTx, ceiling: nat, left: int) {
    left >= ceiling && tx.fee == if left - ceiling > rules.dust then ceiling else left
  }

  /** A selection pays for its target and for the fee of spending it. */
  lemma SelectedPays(g: Goal, coins: seq<Coin>)
    requires Select(g, coins).Selected?
    ensures var s := Select(g, coins).coins;
      |s| >= 1 && Sum(s) >= g.target + g.fee(|s|, g.outputs, g.payload)
  {
    SelectSound(g, coins);
  }

  /**
   * A split is built exactly when its amount can be selected: neither the
   * negative-change branch nor the pool-count refusal is ever taken. It pays
   * at least the fee ceiling and at most the dust threshold more, sends
   * nothing away, and returns at least `count` coins of the pool size.
   */
  lemma SplitBuilds(rules: Rules, txid: Txid, coins: seq<Coin>, count: nat, each: nat)
    requires count >= 2
    ensures var r := Split(rules, txid, coins, count, each);
      var s := Select(SplitGoal(rules, count, each), coins);
      && (r.Built? <==> s.Selected?)
      && !r.Refused?
      && (r.Insufficient? <==> s.InsufficientFunds?)
      && (r.Built? ==>
        && r.tx.totalIn == Sum(s.coins) && r.tx.inputs == Outpoints(s.coins)
        && rules.fee(|s.coins|, count + 1, 0) <= r.tx.fee <= rules.fee(|s.coins|, count + 1, 0) + rules.dust
        && FeeIs(rules, r.tx, rules.fee(|s.coins|, count + 1, 0), Sum(s.coins) - count * each)
        && r.tx.totalIn == r.tx.fee + Paid(r.tx.ownOutputs)
        && |PoolOutputs(r.tx, each)| >= count)
  {
    hide Select, SplitOutputs, Finish, Outpoints, PoolOutputs, Paid, Sum, Foreign, TotalOut;
    var g := SplitGoal(rules, count, each);
    var s := Select(g, coins);
    if s.Selected? {
      SelectedPays(g, coins);
      var change := Sum(s.coins) - count * each - rules.fee(|s.coins|, count + 1, 0);
      SplitOutputsPay(rules, txid, s.coins, count, each, change);
      FinishBalances(txid, s.coins, SplitOutputs(rules, count, each, change));
    }
  }

  /** A merge returns exactly one coin, worth its inputs less the fee ceiling, and sends nothing away. */
  lemma ConsolidationBuilds(rules: Rules, txid: Txid, inputs: seq<Coin>)
    ensures var r := Consolidation(rules, txid, inputs);
      var fee := rules.fee(|inputs|, 1, 0);
      && (r.Built? <==> |inputs| >= 2 && Sum(inputs) > fee + rules.dust)
      && (r.Insufficient? ==> r.available == Sum(inputs) && r.required == fee)
      && (r.Refused? <==> |inputs| < 2)
      && (r.Built? ==>
        && r.tx.fee == fee && r.tx.totalIn == Sum(inputs) && r.tx.inputs == Outpoints(inputs)
        && r.tx.ownOutputs == [OwnOutput(Outpoint(txid, 0), Sum(inputs) - fee)])
  {
    var fee := rules.fee(|inputs|, 1, 0);
    if |inputs| >= 2 && Sum(inputs) > fee + rules.dust {
      var outputs := [TxOutput(Sum(inputs) - fee, true)];
      assert OwnAmong(txid, outputs, 0) == [];
      assert OwnAmong(txid, outputs, 1) == [OwnOutput(Outpoint(txid, 0), Sum(inputs) - fee)];
      assert outputs[1..] == [];
      assert TotalOut(outputs) == Sum(inputs) - fee;
    }
  }

  lemma AssetLockOutputsPay(rules: Rules, sats: nat, change: nat)
    ensures var outputs := AssetLockOutputs(rules, sats, change);
      Foreign(outputs) == sats && TotalOut(outputs) == sats + if change > rules.dust then change else 0
  {
    var burn, rest := [TxOutput(sats, false)], Change(rules, change);
    ForeignConcat(burn, rest);
    TotalOutConcat(burn, rest);
    assert burn[1..] == [];
    assert TotalOut(rest) == if change > rules.dust then change else 0;
  }

  /**
   * An asset lock is built exactly when its amount can be selected, and the
   * amount it locks is recovered exactly from the stored transaction.
   */
  lemma AssetLockBuilds(rules: Rules, txid: Txid, coins: seq<Coin>, sats: nat)
    ensures var r := AssetLock(rules, txid, coins, sats);
      var s := Select(AssetLockGoal(rules, sats), coins);
      && (r.Built? <==> s.Selected?)
      && (r.Insufficient? <==> s.InsufficientFunds?)
      && (r.Built? ==>
        && VoucherAmount(r.tx) == sats && r.tx.inputs == Outpoints(s.coins)
        && r.tx.totalIn == Sum(s.coins)
        && rules.fee(|s.coins|, 2, PAYLOAD_BYTES) <= r.tx.fee
             <= rules.fee(|s.coins|, 2, PAYLOAD_BYTES) + rules.dust
        && FeeIs(rules, r.tx, rules.fee(|s.coins|, 2, PAYLOAD_BYTES), Sum(s.coins) - sats)
        && r.tx.totalIn == r.tx.fee + sats + Paid(r.tx.ownOutputs))
  {
    hide Select, AssetLockOutputs, Finish, Outpoints, Paid, Sum, Foreign, TotalOut;
    var g := AssetLockGoal(rules, sats);
    var s := Select(g, coins);
    if s.Selected? {
      SelectedPays(g, coins);
      var change := Sum(s.coins) - sats - rules.fee(|s.coins|, 2, PAYLOAD_BYTES);
      AssetLockOutputsPay(rules, sats, change);
      FinishBalances(txid, s.coins, AssetLockOutputs(rules, sats, change));
    }
  }

  lemma DraftPays(txid: Txid, selected: seq<Coin>, d: Draft)
    ensures var tx := Finish(txid, selected, d.Outputs());
      && Foreign(d.Outputs()) == d.paid && TotalOut(d.Outputs()) == d.paid + d.Back()
      && tx.totalIn == Sum(selected) == tx.fee + d.paid + Paid(tx.ownOutputs)
      && tx.inputs == Outpoints(selected) && Paid(tx.ownOutputs) == d.Back()
  {
    var paid := [TxOutput(d.paid, false)];
    var back := if d.change.Some? then [TxOutput(d.change.value, true)] else [];
    FinishBalances(txid, selected, paid + back);
    ForeignConcat(paid, back);
    TotalOutConcat(paid, back);
    assert paid[1..] == [];
  }

  /**
   * A payout is built exactly when its amount can be selected and the draft
   * pays the recipient that very amount, whatever else the draft does. It
   * always has room for the fee ceiling, and with change no larger than what
   * the selection leaves over its fee is never negative, nor below the ceiling
   * when the change leaves the ceiling over as well.
   */
  lemma PayoutBalances(rules: Rules, txid: Txid, coins: seq<Coin>, sats: nat, draft: seq<Coin> -> Draft)
    ensures var r := Payout(rules, txid, coins, sats, draft);
      var s := Select(PayoutGoal(rules, sats), coins);
      && (r.Built? <==> s.Selected? && draft(s.coins).paid == sats)
      && (r.Insufficient? <==> s.InsufficientFunds?) && (r.Unconfirmed? <==> s.UnconfirmedFunds?)
      && (r.Built? ==>
        var ceiling, left := rules.fee(|s.coins|, 2, 0), Sum(s.coins) - sats;
        && left >= ceiling
        && r.tx.inputs == Outpoints(s.coins)
        && r.tx.totalIn == Sum(s.coins) == r.tx.fee + sats + Paid(r.tx.ownOutputs)
        && Paid(r.tx.ownOutputs) == draft(s.coins).Back()
        && (draft(s.coins).Back() <= left ==> r.tx.fee >= 0)
        && (draft(s.coins).Back() <= left - ceiling ==> r.tx.fee >= ceiling))
  {
    hide Select, Finish, Sum, Paid, Outpoints;
    var s := Select(PayoutGoal(rules, sats), coins);
    if s.Selected? {
      SelectedPays(PayoutGoal(rules, sats), coins);
      DraftPays(txid, s.coins, draft(s.coins));
    }
  }

  /** A refusal for want of funds names what there is, and what spending all of it would have to cover. */
  ghost predicate NamesAmounts(r: Build, coins: seq<Coin>, target: nat, fee: FeeCeiling, outputs: nat, payload: nat) {
    && (r.Insufficient? ==>
          && r.available == Sum(coins)
          && r.required == target + fee(Max(1, |coins|), outputs, payload))
    && (r.Unconfirmed? ==>
          && r.confirmed == Sum(ConfirmedOf(coins))
          && r.required == target + fee(Max(1, |ConfirmedOf(coins)|), outputs, payload))
  }

  lemma SplitRefusals(rules: Rules, txid: Txid, coins: seq<Coin>, count: nat, each: nat)
    requires count >= 2
    ensures NamesAmounts(Split(rules, txid, coins, count, each), coins, count * each, rules.fee, count + 1, 0)
  {
    hide Select, SplitOutputs, Finish, PoolOutputs, Sum, ConfirmedOf;
    SplitBuilds(rules, txid, coins, count, each);
    RefusalAmounts(SplitGoal(rules, count, each), coins);
  }

  lemma AssetLockRefusals(rules: Rules, txid: Txid, coins: seq<Coin>, sats: nat)
    ensures NamesAmounts(AssetLock(rules, txid, coins, sats), coins, sats, rules.fee, 2, 36)
  {
    hide Select, AssetLockOutputs, Finish, Sum, ConfirmedOf;
    AssetLockBuilds(rules, txid, coins, sats);
    RefusalAmounts(AssetLockGoal(rules, sats), coins);
  }

  lemma PayoutRefusals(rules: Rules, txid: Txid, coins: seq<Coin>, sats: nat, draft: seq<Coin> -> Draft)
    ensures NamesAmounts(Payout(rules, txid, coins, sats, draft), coins, sats, rules.fee, 2, 0)
  {
    hide Select, Finish, Sum, ConfirmedOf;
    RefusalAmounts(PayoutGoal(rules, sats), coins);
  }
}
