/** Recording a transaction moves value exactly: what the wallet view loses is what was sent away and the fee. */
module Conservation {
  import opened Coins
  import opened Views
  import opened Builders
  import opened Wallet
  import opened Ledger

  ghost predicate UniqueRows(rows: seq<PendingRow>) {
    forall i, j :: 0 <= i < j < |rows| ==> rows[i].op != rows[j].op
  }

  /** The transaction id has never been seen: no table and no listing mentions an output of it. */
  ghost predicate Unseen(t: Tables, listing: seq<Coin>, txid: Txid) {
    && (forall c: Coin :: c in listing ==> c.op.txid != txid)
    && (forall r: PendingRow :: r in t.pending ==> r.op.txid != txid)
    && (forall op: Outpoint :: op in t.spent ==> op.txid != txid)
  }

  /** Own outputs carry the transaction's id at distinct indices, and it does not spend itself. */
  ghost predicate WellBuilt(tx: BuiltTx) {
    && (forall o :: o in tx.ownOutputs ==> o.op.txid == tx.txid)
    && (forall i, j :: 0 <= i < j < |tx.ownOutputs| ==> tx.ownOutputs[i].op != tx.ownOutputs[j].op)
    && (forall op: Outpoint :: op in tx.inputs ==> op.txid != tx.txid)
  }

  function Rows(outs: seq<OwnOutput>, now: Time): (r: seq<PendingRow>)
    ensures |r| == |outs| && forall i :: 0 <= i < |r| ==> r[i] == PendingRow(outs[i].op, outs[i].sats, now)
  {
    seq(|outs|, i requires 0 <= i < |outs| => PendingRow(outs[i].op, outs[i].sats, now))
  }

  // ------------------------------------------------------------------ the pending table

  lemma PutRowAppends(rows: seq<PendingRow>, row: PendingRow)
    requires forall r :: r in rows ==> r.op != row.op
    ensures PutRow(rows, row) == rows + [row]
  {
    FilterTrue(rows, (r: PendingRow) => r.op != row.op);
  }

  lemma RowsCons(rows: seq<PendingRow>, outs: seq<OwnOutput>, now: Time)
    requires outs != []
    ensures rows + [PendingRow(outs[0].op, outs[0].sats, now)] + Rows(outs[1..], now) == rows + Rows(outs, now)
  {
  }

  lemma {:induction false} PutAllAppends(rows: seq<PendingRow>, outs: seq<OwnOutput>, now: Time)
    requires forall r, o :: r in rows && o in outs ==> r.op != o.op
    requires forall i, j :: 0 <= i < j < |outs| ==> outs[i].op != outs[j].op
    ensures PutAll(rows, outs, now) == rows + Rows(outs, now)
    decreases |outs|
  {
    if outs != [] {
      hide PutRow, Rows;
      var row := PendingRow(outs[0].op, outs[0].sats, now);
      assert outs[0] in outs;
      PutRowAppends(rows, row);
      forall r, o | r in rows + [row] && o in outs[1..] ensures r.op != o.op {
        assert o in outs;
      }
      PutAllAppends(rows + [row], outs[1..], now);
      RowsCons(rows, outs, now);
    }
  }

  lemma {:induction false} FilterRows(rows: seq<PendingRow>, p: PendingRow -> bool)
    requires UniqueRows(rows)
    ensures UniqueRows(Filter(rows, p)) && forall r :: r in Filter(rows, p) <==> r in rows && p(r)
  {
    FilterIn(rows, p);
    if rows != [] {
      assert UniqueRows(rows[1..]);
      FilterRows(rows[1..], p);
      FilterIn(rows[1..], p);
      assert forall r :: r in rows[1..] ==> r.op != rows[0].op;
    }
  }

  lemma PutRowUnique(rows: seq<PendingRow>, row: PendingRow)
    requires UniqueRows(rows)
    ensures UniqueRows(PutRow(rows, row))
    ensures forall r :: r in PutRow(rows, row) <==> r == row || (r in rows && r.op != row.op)
  {
    var kept := Filter(rows, (r: PendingRow) => r.op != row.op);
    FilterRows(rows, (r: PendingRow) => r.op != row.op);
    forall i | 0 <= i < |kept| ensures kept[i].op != row.op {
      assert kept[i] in kept;
    }
  }

  lemma {:induction false} PutAllUnique(rows: seq<PendingRow>, outs: seq<OwnOutput>, now: Time)
    requires UniqueRows(rows)
    ensures UniqueRows(PutAll(rows, outs, now))
    ensures forall r :: r in PutAll(rows, outs, now) ==>
      || (r in rows && forall o :: o in outs ==> o.op != r.op)
      || exists o :: o in outs && r == PendingRow(o.op, o.sats, now)
    decreases |outs|
  {
    if outs != [] {
      var row := PendingRow(outs[0].op, outs[0].sats, now);
      PutRowUnique(rows, row);
      PutAllUnique(PutRow(rows, row), outs[1..], now);
      forall r | r in PutAll(rows, outs, now)
        ensures
          || (r in rows && forall o :: o in outs ==> o.op != r.op)
          || exists o :: o in outs && r == PendingRow(o.op, o.sats, now)
      {
        if o :| o in outs[1..] && r == PendingRow(o.op, o.sats, now) {
          assert o in outs;
        } else if r == row {
          assert outs[0] in outs;
        } else {
          assert r in PutRow(rows, row);
        }
      }
    }
  }

  // ------------------------------------------------------------------ the view

  lemma {:induction false} PendingFilter(rows: seq<PendingRow>, listed: set<Outpoint>)
    requires UniqueRows(rows)
    ensures var cs := Filter(PendingCoins(rows), (c: Coin) => c.op !in listed);
      View(cs) && forall c :: c in cs ==> c.op !in listed && exists r :: r in rows && c == Coin(r.op, r.sats, None)
  {
    var coins := PendingCoins(rows);
    assert View(coins);
    FilterView(coins, (c: Coin) => c.op !in listed);
    forall c | c in coins ensures exists r :: r in rows && c == Coin(r.op, r.sats, None) {
      var i :| 0 <= i < |coins| && coins[i] == c;
      assert rows[i] in rows;
    }
  }

  /** The view lists each outpoint once: it is a wallet coin selection may draw from. */
  lemma ViewOfView(t: Tables, listing: seq<Coin>, immature: set<Txid>)
    requires View(listing) && UniqueRows(t.pending)
    ensures View(ViewOf(t, listing, immature))
    ensures forall c :: c in ViewOf(t, listing, immature) ==>
      && c.op !in t.spent && c.op.txid !in immature
      && (c in listing || exists r :: r in t.pending && c == Coin(r.op, r.sats, None))
  {
    PendingFilter(t.pending, Ops(listing));
    var extra := Filter(PendingCoins(t.pending), (c: Coin) => c.op !in Ops(listing));
    var m := Merged(t, listing);
    forall i, j | 0 <= i < j < |m| ensures m[i].op != m[j].op {
      if i < |listing| && j >= |listing| {
        assert listing[i] in listing && extra[j - |listing|] in extra;
      }
    }
    FilterView(m, (c: Coin) => Spendable(t.spent, immature, c));
  }

  /** A guard stays exactly while the explorers may still be catching up with its spend, or with its loss. */
  lemma GuardIff(t: Tables, listed: set<Outpoint>, now: Time, op: Outpoint)
    ensures var spent := Reconciled(t, listed, now).spent;
      && (op in spent <==>
            && op in t.spent
            && now - t.spent[op] <= if op in listed then 24 * 60 * 60_000 else 30 * 60_000)
      && (op in spent ==> spent[op] == t.spent[op])
  {
  }

  /** An own output stays pending exactly until the explorers list it, or its settled guard goes. */
  lemma PendingIff(t: Tables, listed: set<Outpoint>, now: Time, r: PendingRow)
    ensures r in Reconciled(t, listed, now).pending <==>
      && r in t.pending && r.op !in listed
      && (r.op in t.spent ==> now - t.spent[r.op] <= SPENT_SETTLED_MS)
  {
    FilterIn(t.pending, (r: PendingRow) =>
      r.op !in listed && !(r.op in t.spent && Settled(listed, r.op, t.spent[r.op], now)));
  }

  /** An own output is given up exactly when it is older than the pending time. */
  lemma PruneIff(t: Tables, now: Time, r: PendingRow)
    ensures r in PrunePending(t, now).pending <==> r in t.pending && now - r.at <= 60 * 60_000
    ensures PrunePending(t, now).spent == t.spent
  {
    FilterIn(t.pending, (r: PendingRow) => r.at >= now - PENDING_TTL_MS);
  }

  /** The view holds exactly the coins listed, or pending and not listed, that are neither guarded nor immature. */
  lemma ViewIff(t: Tables, listing: seq<Coin>, immature: set<Txid>, c: Coin)
    ensures c in ViewOf(t, listing, immature) <==>
      && c.op !in t.spent && c.op.txid !in immature
      && (c in listing || (c.op !in Ops(listing) && exists r :: r in t.pending && c == Coin(r.op, r.sats, None)))
  {
    var extra := (c: Coin) => c.op !in Ops(listing);
    FilterIn(PendingCoins(t.pending), extra);
    FilterIn(Merged(t, listing), (c: Coin) => Spendable(t.spent, immature, c));
    forall c ensures c in PendingCoins(t.pending) <==> exists r :: r in t.pending && c == Coin(r.op, r.sats, None) {
      if r :| r in t.pending && c == Coin(r.op, r.sats, None) {
        var i :| 0 <= i < |t.pending| && t.pending[i] == r;
        assert PendingCoins(t.pending)[i] == c;
      }
      if c in PendingCoins(t.pending) {
        var i :| 0 <= i < |t.pending| && PendingCoins(t.pending)[i] == c;
        assert t.pending[i] in t.pending;
      }
    }
  }

  /** A coin whose spend never landed is let go: listed past its guard's time, it is back in the view. */
  lemma StaleReturns(t: Tables, listing: seq<Coin>, immature: set<Txid>, now: Time, c: Coin)
    requires c in listing && c.op in t.spent && now - t.spent[c.op] > SPENT_STALE_MS && c.op.txid !in immature
    ensures c in ViewOf(Reconciled(t, Ops(listing), now), listing, immature)
  {
    GuardIff(t, Ops(listing), now, c.op);
    ViewIff(Reconciled(t, Ops(listing), now), listing, immature, c);
  }

  /**
   * Reconciling never drops a guard and leaves its pending twin: a guarded coin
   * is in the view that follows, guard or no guard, only if the explorer lists it.
   */
  lemma ReconcileMasks(t: Tables, listing: seq<Coin>, immature: set<Txid>, now: Time, c: Coin)
    requires View(listing) && UniqueRows(t.pending)
    requires c in ViewOf(Reconciled(t, Ops(listing), now), listing, immature) && c.op in t.spent
    ensures c in listing
  {
    hide ViewOf;
    FilterRows(t.pending, (r: PendingRow) =>
      r.op !in Ops(listing) && !(r.op in t.spent && Settled(Ops(listing), r.op, t.spent[r.op], now)));
    ViewOfView(Reconciled(t, Ops(listing), now), listing, immature);
  }

  lemma PendingSplit(t: Tables, listing: seq<Coin>, tx: BuiltTx, now: Time)
    requires Unseen(t, listing, tx.txid) && WellBuilt(tx)
    ensures Merged(Record(t, tx, now), listing) == Merged(t, listing) + NewCoins(tx.ownOutputs)
  {
    hide PutAll, Filter, Rows;
    forall r, o | r in t.pending && o in tx.ownOutputs ensures r.op != o.op {
      assert r.op.txid != tx.txid;
    }
    PutAllAppends(t.pending, tx.ownOutputs, now);
    var rows := Rows(tx.ownOutputs, now);
    var p := (c: Coin) => c.op !in Ops(listing);
    assert PendingCoins(t.pending + rows) == PendingCoins(t.pending) + NewCoins(tx.ownOutputs);
    FilterConcat(PendingCoins(t.pending), NewCoins(tx.ownOutputs), p);
    forall c | c in NewCoins(tx.ownOutputs) ensures p(c) {
      NewCoinOwn(tx, c);
    }
    FilterTrue(NewCoins(tx.ownOutputs), p);
  }

  lemma NewCoinOwn(tx: BuiltTx, c: Coin)
    requires WellBuilt(tx) && c in NewCoins(tx.ownOutputs)
    ensures c.op.txid == tx.txid
  {
    var i :| 0 <= i < |tx.ownOutputs| && NewCoins(tx.ownOutputs)[i] == c;
    assert tx.ownOutputs[i] in tx.ownOutputs;
  }

  /** Recording a fresh transaction takes its inputs out of the view and puts its own outputs in, and nothing else. */
  lemma RecordView(t: Tables, listing: seq<Coin>, immature: set<Txid>, tx: BuiltTx, now: Time)
    requires Unseen(t, listing, tx.txid) && WellBuilt(tx) && tx.txid !in immature
    ensures ViewOf(Record(t, tx, now), listing, immature) == After(ViewOf(t, listing, immature), tx)
  {
    hide Merged, Record, LockAll;
    PendingSplit(t, listing, tx, now);
    RecordSpent(t, tx, now);
    var spent' := Record(t, tx, now).spent;
    var before, after := (c: Coin) => Spendable(t.spent, immature, c), (c: Coin) => Spendable(spent', immature, c);
    var m, added := Merged(t, listing), NewCoins(tx.ownOutputs);
    FilterConcat(m, added, after);
    FilterFilter(m, before, (c: Coin) => c.op !in tx.inputs, after);
    forall c | c in added ensures after(c) {
      NewCoinOwn(tx, c);
    }
    FilterTrue(added, after);
  }

  lemma RecordSpent(t: Tables, tx: BuiltTx, now: Time)
    ensures forall op :: op in Record(t, tx, now).spent <==> op in t.spent || op in tx.inputs
  {
  }

  /**
   * With the explorers unchanged, recording a transaction built from the view
   * lowers the spendable sum by exactly what it sends away plus its fee.
   */
  lemma RecordConserves(t: Tables, listing: seq<Coin>, immature: set<Txid>, inputs: seq<Coin>,
                        txid: Txid, outputs: seq<TxOutput>, now: Time)
    requires View(listing) && UniqueRows(t.pending) && Unseen(t, listing, txid) && txid !in immature
    requires View(inputs) && forall c :: c in inputs ==> c in ViewOf(t, listing, immature)
    ensures var tx := Finish(txid, inputs, outputs);
      && Sum(ViewOf(Record(t, tx, now), listing, immature))
           == Sum(ViewOf(t, listing, immature)) - Foreign(outputs) - tx.fee
      && View(ViewOf(Record(t, tx, now), listing, immature))
  {
    hide ViewOf, Record, Sum, Finish, After, Paid;
    var view := ViewOf(t, listing, immature);
    var tx := Finish(txid, inputs, outputs);
    FinishBalances(txid, inputs, outputs);
    FinishId(txid, inputs, outputs);
    ViewOfView(t, listing, immature);
    forall c | c in view ensures c.op.txid != txid {}
    forall op | op in tx.inputs ensures op.txid != txid {
      var i :| 0 <= i < |tx.inputs| && tx.inputs[i] == op;
      assert inputs[i] in inputs;
    }
    RecordView(t, listing, immature, tx, now);
    AfterSum(view, inputs, tx);
    AfterView(view, tx);
  }

  lemma FinishId(txid: Txid, inputs: seq<Coin>, outputs: seq<TxOutput>)
    ensures Finish(txid, inputs, outputs).txid == txid
  {
  }
}
