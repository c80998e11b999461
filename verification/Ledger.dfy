/** The in-flight coin ledger of src/treasury.ts: the `spent` and `pending` tables and the view they give. */
module Ledger {
  import opened Coins
  import opened Views
  import opened Builders
  import opened Wallet

  const SPENT_SETTLED_MS: nat := 30 * 60_000
  const SPENT_STALE_MS: nat := 24 * HOUR_MS
  const PENDING_TTL_MS: nat := HOUR_MS

  datatype PendingRow = PendingRow(op: Outpoint, sats: nat, at: Time)

  /** `spent` is keyed by outpoint; `pending` keeps its rows in insertion order. */
  datatype Tables = Tables(spent: map<Outpoint, Time>, pending: seq<PendingRow>)

  // ------------------------------------------------------------------ table operations

  function LockAll(spent: map<Outpoint, Time>, inputs: seq<Outpoint>, now: Time): (r: map<Outpoint, Time>)
    ensures r.Keys == spent.Keys + (set op | op in inputs)
    ensures forall op :: op in r ==> r[op] == if op in inputs then now else spent[op]
  {
    map op | op in spent.Keys + (set op | op in inputs) :: if op in inputs then now else spent[op]
  }

  /** INSERT OR REPLACE: the old row, if any, makes way for one at the end. */
  function PutRow(rows: seq<PendingRow>, row: PendingRow): seq<PendingRow> {
    Filter(rows, (r: PendingRow) => r.op != row.op) + [row]
  }

  function PutAll(rows: seq<PendingRow>, outs: seq<OwnOutput>, now: Time): seq<PendingRow>
    decreases |outs|
  {
    if outs == [] then rows
    else PutAll(PutRow(rows, PendingRow(outs[0].op, outs[0].sats, now)), outs[1..], now)
  }

  function Lock(t: Tables, tx: BuiltTx, now: Time): Tables {
    t.(spent := LockAll(t.spent, tx.inputs, now))
  }

  function Record(t: Tables, tx: BuiltTx, now: Time): Tables {
    Lock(t, tx, now).(pending := PutAll(t.pending, tx.ownOutputs, now))
  }

  /** The spend has landed: the explorers stopped listing the coin long enough ago. */
  predicate Settled(listed: set<Outpoint>, op: Outpoint, at: Time, now: Time) {
    op !in listed && now - at > SPENT_SETTLED_MS
  }

  /** The spend never landed: the explorers still list the coin long afterwards. */
  predicate Stale(listed: set<Outpoint>, op: Outpoint, at: Time, now: Time) {
    op in listed && now - at > SPENT_STALE_MS
  }

  function Reconciled(t: Tables, listed: set<Outpoint>, now: Time): Tables {
    Tables(
      map op | op in t.spent
        && !Settled(listed, op, t.spent[op], now) && !Stale(listed, op, t.spent[op], now) :: t.spent[op],
      Filter(t.pending, (r: PendingRow) =>
        r.op !in listed && !(r.op in t.spent && Settled(listed, r.op, t.spent[r.op], now))))
  }

  function PrunePending(t: Tables, now: Time): Tables {
    t.(pending := Filter(t.pending, (r: PendingRow) => r.at >= now - PENDING_TTL_MS))
  }

  // ------------------------------------------------------------------ the view

  function PendingCoins(rows: seq<PendingRow>): (r: seq<Coin>)
    ensures |r| == |rows|
    ensures forall i :: 0 <= i < |r| ==> r[i] == Coin(rows[i].op, rows[i].sats, None)
  {
    NewCoins(seq(|rows|, i requires 0 <= i < |rows| => OwnOutput(rows[i].op, rows[i].sats)))
  }

  /** Everything the explorers list, then our own outputs they do not list yet. */
  function Merged(t: Tables, listing: seq<Coin>): seq<Coin> {
    listing + Filter(PendingCoins(t.pending), (c: Coin) => c.op !in Ops(listing))
  }

  predicate Spendable(spent: map<Outpoint, Time>, immature: set<Txid>, c: Coin) {
    c.op !in spent && c.op.txid !in immature
  }

  function ViewOf(t: Tables, listing: seq<Coin>, immature: set<Txid>): seq<Coin> {
    Filter(Merged(t, listing), (c: Coin) => Spendable(t.spent, immature, c))
  }

  lemma LockOne(spent: map<Outpoint, Time>, inputs: seq<Outpoint>, i: nat, now: Time)
    requires i < |inputs|
    ensures LockAll(spent, inputs[..i], now)[inputs[i] := now] == LockAll(spent, inputs[..i + 1], now)
  {
    assert inputs[..i + 1] == inputs[..i] + [inputs[i]];
    forall op ensures op in inputs[..i + 1] <==> op in inputs[..i] || op == inputs[i] {}
  }

  lemma NoLocks(spent: map<Outpoint, Time>, now: Time)
    ensures LockAll(spent, [], now) == spent
  {
  }

  // ------------------------------------------------------------------ reconciling row by row

  /** The guards left while those of `todo` are still to be looked at. */
  function SpentLeft(t: Tables, listed: set<Outpoint>, todo: set<Outpoint>, now: Time): map<Outpoint, Time> {
    map op | op in t.spent
      && (op in todo || (!Settled(listed, op, t.spent[op], now) && !Stale(listed, op, t.spent[op], now))) :: t.spent[op]
  }

  /** The own outputs left meanwhile: a settled guard takes its twin along. */
  function PendingLeft(t: Tables, listed: set<Outpoint>, todo: set<Outpoint>, now: Time): seq<PendingRow> {
    Filter(t.pending, Staying(t, listed, todo, now))
  }

  function Staying(t: Tables, listed: set<Outpoint>, todo: set<Outpoint>, now: Time): PendingRow -> bool {
    (r: PendingRow) => !(r.op in t.spent && r.op !in todo && Settled(listed, r.op, t.spent[r.op], now))
  }

  lemma AllLeft(t: Tables, listed: set<Outpoint>, now: Time)
    ensures SpentLeft(t, listed, t.spent.Keys, now) == t.spent && PendingLeft(t, listed, t.spent.Keys, now) == t.pending
  {
    FilterTrue(t.pending, Staying(t, listed, t.spent.Keys, now));
  }

  /** Looking at one guard. */
  lemma LeftBy(t: Tables, listed: set<Outpoint>, todo: set<Outpoint>, op: Outpoint, now: Time)
    requires todo <= t.spent.Keys && op in todo
    ensures var before, after := SpentLeft(t, listed, todo, now), SpentLeft(t, listed, todo - {op}, now);
      && op in before && before[op] == t.spent[op]
      && after ==
        if Settled(listed, op, t.spent[op], now) || Stale(listed, op, t.spent[op], now) then before - {op} else before
    ensures var before, after := PendingLeft(t, listed, todo, now), PendingLeft(t, listed, todo - {op}, now);
      after == if Settled(listed, op, t.spent[op], now) then Filter(before, (r: PendingRow) => r.op != op) else before
  {
    hide Settled, Stale;
    var p, q := Staying(t, listed, todo, now), Staying(t, listed, todo - {op}, now);
    if Settled(listed, op, t.spent[op], now) {
      FilterFilter(t.pending, p, (r: PendingRow) => r.op != op, q);
    } else {
      FilterSame(t.pending, p, q);
    }
  }

  lemma NoneLeft(t: Tables, listed: set<Outpoint>, now: Time)
    ensures SpentLeft(t, listed, {}, now) == Reconciled(t, listed, now).spent
    ensures Filter(PendingLeft(t, listed, {}, now), (r: PendingRow) => r.op !in listed)
      == Reconciled(t, listed, now).pending
  {
    hide Settled, Stale;
    FilterFilter(t.pending, Staying(t, listed, {}, now),
      (r: PendingRow) => r.op !in listed,
      (r: PendingRow) => r.op !in listed && !(r.op in t.spent && Settled(listed, r.op, t.spent[r.op], now)));
  }

  // ------------------------------------------------------------------ the actor's tables

  class CoinLedger {
    var spent: map<Outpoint, Time>
    var pending: seq<PendingRow>

    function Value(): Tables
      reads this
    {
      Tables(spent, pending)
    }

    constructor ()
      ensures Value() == Tables(map[], [])
    {
      spent, pending := map[], [];
    }

    method LockInputs(tx: BuiltTx, now: Time)
      modifies this
      ensures Value() == Lock(old(Value()), tx, now)
    {
      hide LockAll;
      NoLocks(spent, now);
      for i := 0 to |tx.inputs|
        invariant pending == old(pending)
        invariant spent == LockAll(old(spent), tx.inputs[..i], now)
      {
        LockOne(old(spent), tx.inputs, i, now);
        spent := spent[tx.inputs[i] := now];
      }
      assert tx.inputs[..|tx.inputs|] == tx.inputs;
    }

    method RecordSpend(tx: BuiltTx, now: Time)
      modifies this
      ensures Value() == Record(old(Value()), tx, now)
    {
      LockInputs(tx, now);
      for i := 0 to |tx.ownOutputs|
        invariant spent == LockAll(old(spent), tx.inputs, now)
        invariant PutAll(old(pending), tx.ownOutputs, now) == PutAll(pending, tx.ownOutputs[i..], now)
      {
        var out := tx.ownOutputs[i];
        pending := PutRow(pending, PendingRow(out.op, out.sats, now));
      }
    }

    /** Both loops of the reconciliation: guards whose work is done, then outputs the explorers now carry. */
    method Reconcile(listed: set<Outpoint>, now: Time)
      modifies this
      ensures Value() == Reconciled(old(Value()), listed, now)
    {
      ghost var t := Value();
      var todo := spent.Keys;
      AllLeft(t, listed, now);
      while todo != {}
        invariant todo <= t.spent.Keys
        invariant spent == SpentLeft(t, listed, todo, now) && pending == PendingLeft(t, listed, todo, now)
        decreases todo
      {
        hide SpentLeft, PendingLeft, Filter, Settled, Stale;
        var op :| op in todo;
        LeftBy(t, listed, todo, op, now);
        todo := todo - {op};
        if Settled(listed, op, spent[op], now) {
          spent := spent - {op};
          pending := Filter(pending, (r: PendingRow) => r.op != op);
        } else if Stale(listed, op, spent[op], now) {
          spent := spent - {op};
        }
      }
      NoneLeft(t, listed, now);
      pending := Filter(pending, (r: PendingRow) => r.op !in listed);
    }

    method Prune(now: Time)
      modifies this
      ensures Value() == PrunePending(old(Value()), now)
    {
      pending := Filter(pending, (r: PendingRow) => r.at >= now - PENDING_TTL_MS);
    }

    /** Reconciles with what the explorers list, then reads the wallet off both. */
    method SpendableUtxos(listing: seq<Coin>, immature: set<Txid>, now: Time) returns (view: seq<Coin>)
      modifies this
      ensures Value() == Reconciled(old(Value()), Ops(listing), now)
      ensures view == ViewOf(Value(), listing, immature)
    {
      Reconcile(Ops(listing), now);
      var merged := listing;
      for i := 0 to |pending|
        invariant Value() == Reconciled(old(Value()), Ops(listing), now)
        invariant merged == listing + Filter(PendingCoins(pending[..i]), (c: Coin) => c.op !in Ops(listing))
      {
        var row := pending[i];
        var coin := Coin(row.op, row.sats, None);
        assert PendingCoins(pending[..i + 1]) == PendingCoins(pending[..i]) + [coin];
        FilterConcat(PendingCoins(pending[..i]), [coin], (c: Coin) => c.op !in Ops(listing));
        if row.op !in Ops(listing) {
          merged := merged + [coin];
        }
      }
      assert pending[..|pending|] == pending;
      var locked := spent;
      view := Filter(merged, (c: Coin) => Spendable(locked, immature, c));
    }
  }
}
