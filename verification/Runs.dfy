/**
 * Whole runs of the treasury's spending actor. The clock never goes back,
 * explorer listings and relay answers are arbitrary, and each locked operation
 * reads the wallet, builds, broadcasts and keeps its books in one step.
 */
module Runs {
  import opened Coins
  import opened Views
  import opened Builders
  import opened Wallet
  import opened Ledger
  import opened Conservation
  import opened Settlement

  datatype Step =
    /** A look at the wallet that spends nothing. */
    | Look(now: Time, listing: seq<Coin>)
    /** Time-based cleanup. */
    | Sweep(now: Time)
    /** Build from the current view, broadcast, settle, record. */
    | Spend(now: Time, listing: seq<Coin>, immature: set<Txid>, tx: BuiltTx, net: Net)
    /** Broadcast an unresolved voucher again, later. */
    | Retry(now: Time, tx: BuiltTx, net: Net)
    /** An unresolved voucher turned out ChainLocked: record its spend, late. */
    | Recover(now: Time, tx: BuiltTx)

  datatype Entry = Entry(tx: BuiltTx, at: Time, net: Net) {
    /** The transaction was not cleanly rejected. */
    predicate Kept() {
      LocksInputs(Settle(net))
    }
  }

  /** One listing, and how many transactions had been built before it was read. */
  datatype Seen = Seen(listed: set<Outpoint>, after: nat)

  datatype State = State(tables: Tables, clock: Time, spends: seq<Entry>, views: seq<Seen>) {
    ghost predicate Consumed(op: Outpoint) {
      exists i :: 0 <= i < |spends| && spends[i].Kept() && op in spends[i].tx.inputs
    }
  }

  const START: State := State(Tables(map[], []), 0, [], [])

  function Looked(s: State, now: Time, listing: seq<Coin>): State {
    s.(tables := Reconciled(s.tables, Ops(listing), now), clock := now,
       views := s.views + [Seen(Ops(listing), |s.spends|)])
  }

  function KeepBooks(t: Tables, tx: BuiltTx, now: Time, outcome: Verdict): Tables {
    if outcome.Live? then Record(t, tx, now)
    else if LocksInputs(outcome) then Lock(t, tx, now)
    else t
  }

  function Apply(s: State, step: Step): State {
    match step
    case Look(now, listing) => Looked(s, now, listing)
    case Sweep(now) => s.(tables := PrunePending(s.tables, now), clock := now)
    case Spend(now, listing, immature, tx, net) =>
      var seen := Looked(s, now, listing);
      seen.(tables := KeepBooks(seen.tables, tx, now, Settle(net)), spends := s.spends + [Entry(tx, now, net)])
    case Retry(now, tx, net) => s.(tables := KeepBooks(s.tables, tx, now, Settle(net)), clock := now)
    case Recover(now, tx) => s.(tables := Record(s.tables, tx, now), clock := now)
  }

  /** A new transaction's id is new: no earlier transaction has it or spends an output of it. */
  ghost predicate NewId(s: State, txid: Txid) {
    forall i :: 0 <= i < |s.spends| ==>
      s.spends[i].tx.txid != txid && forall op: Outpoint :: op in s.spends[i].tx.inputs ==> op.txid != txid
  }

  /** A voucher whose broadcast settled nothing: unresolved, or with nobody to ask. */
  ghost predicate LeftUnresolved(s: State, tx: BuiltTx) {
    exists i :: 0 <= i < |s.spends| && s.spends[i].tx == tx
      && (Settle(s.spends[i].net).Unresolved? || Settle(s.spends[i].net).NoRelays?)
  }

  ghost predicate Allowed(s: State, step: Step) {
    && s.clock <= step.now
    && match step
       case Look(_, listing) => View(listing)
       case Sweep(_) => true
       case Spend(now, listing, immature, tx, net) =>
         var seen := Looked(s, now, listing);
         && View(listing) && WellBuilt(tx) && tx.txid !in immature
         && Unseen(seen.tables, listing, tx.txid) && NewId(s, tx.txid)
         && forall op :: op in tx.inputs ==> exists c :: c in ViewOf(seen.tables, listing, immature) && c.op == op
       case Retry(_, tx, net) => LeftUnresolved(s, tx)
       case Recover(_, tx) => LeftUnresolved(s, tx)
  }

  function Reach(steps: seq<Step>): State {
    if steps == [] then START else Apply(Reach(steps[..|steps| - 1]), steps[|steps| - 1])
  }

  ghost predicate Run(steps: seq<Step>) {
    steps == [] || (Run(steps[..|steps| - 1]) && Allowed(Reach(steps[..|steps| - 1]), steps[|steps| - 1]))
  }

  /**
   * What a settled spend does to the view: one that is live swaps its inputs for
   * its own outputs; one that may be, or whose inputs were stale, takes its
   * inputs out and claims nothing; any other changes nothing.
   */
  lemma SettledView(t: Tables, listing: seq<Coin>, immature: set<Txid>, tx: BuiltTx, now: Time, outcome: Verdict)
    requires Unseen(t, listing, tx.txid) && WellBuilt(tx) && tx.txid !in immature
    ensures var before := ViewOf(t, listing, immature);
      var after := ViewOf(KeepBooks(t, tx, now, outcome), listing, immature);
      match outcome
      case Live(_) => after == After(before, tx)
      case Unresolved => after == Unspent(before, tx.inputs)
      case StaleInputs => after == Unspent(before, tx.inputs)
      case CleanlyRejected => after == before
      case NoRelays => after == before
  {
    hide Record, After, Filter;
    match outcome
    case Live(_) => RecordView(t, listing, immature, tx, now);
    case Unresolved => LockView(t, listing, immature, tx, now);
    case StaleInputs => LockView(t, listing, immature, tx, now);
    case _ =>
  }

  lemma LockView(t: Tables, listing: seq<Coin>, immature: set<Txid>, tx: BuiltTx, now: Time)
    ensures ViewOf(Lock(t, tx, now), listing, immature) == Unspent(ViewOf(t, listing, immature), tx.inputs)
  {
    var spent' := Lock(t, tx, now).spent;
    FilterFilter(Merged(t, listing), (c: Coin) => Spendable(t.spent, immature, c), (c: Coin) => c.op !in tx.inputs,
                 (c: Coin) => Spendable(spent', immature, c));
  }

  // ------------------------------------------------------------------ guards

  /** By `now` the explorers have had long enough to show the spend, or it has been given up on. */
  ghost predicate Aged(s: State, i: nat, op: Outpoint, now: Time, upTo: nat)
    requires i < |s.spends|
  {
    && now - s.spends[i].at > SPENT_SETTLED_MS
    && (now - s.spends[i].at > SPENT_STALE_MS
        || exists k :: 0 <= k < |s.views| && i < s.views[k].after <= upTo && op !in s.views[k].listed)
  }

  /** The coin's guard is in place and no older than the transaction. */
  predicate Held(s: State, i: nat, op: Outpoint)
    requires i < |s.spends|
  {
    op in s.tables.spent && s.tables.spent[op] >= s.spends[i].at
  }

  ghost predicate Guarded(s: State) {
    forall i, op :: 0 <= i < |s.spends| && s.spends[i].Kept() && op in s.spends[i].tx.inputs ==>
      Held(s, i, op) || Aged(s, i, op, s.clock, |s.spends|)
  }

  ghost predicate InOrder(s: State) {
    && (forall i :: 0 <= i < |s.spends| ==> s.spends[i].at <= s.clock)
    && (forall k :: 0 <= k < |s.views| ==> s.views[k].after <= |s.spends|)
  }

  /** Neither transaction was cleanly rejected, and both spend this coin. */
  predicate Shared(s: State, i: nat, j: nat, op: Outpoint)
    requires i < j < |s.spends|
  {
    && s.spends[i].Kept() && op in s.spends[i].tx.inputs
    && s.spends[j].Kept() && op in s.spends[j].tx.inputs
  }

  /** Two kept transactions that share a coin are far apart. */
  ghost predicate Separated(s: State) {
    forall i, j, op :: 0 <= i < j < |s.spends| && Shared(s, i, j, op) ==> Aged(s, i, op, s.spends[j].at, j)
  }

  lemma AgedGrows(s: State, s': State, i: nat, op: Outpoint, now: Time, now': Time, upTo: nat, upTo': nat)
    requires i < |s.spends| && s.spends <= s'.spends && s.views <= s'.views && now <= now' && upTo <= upTo'
    requires Aged(s, i, op, now, upTo)
    ensures Aged(s', i, op, now', upTo')
  {
    if now - s.spends[i].at <= SPENT_STALE_MS {
      var k :| 0 <= k < |s.views| && i < s.views[k].after <= upTo && op !in s.views[k].listed;
      assert s'.views[k] == s.views[k];
    }
  }

  /** A look drops a guard only once the coin has aged. */
  lemma LookGuards(s: State, now: Time, listing: seq<Coin>)
    requires Guarded(s) && InOrder(s) && s.clock <= now
    ensures Guarded(Looked(s, now, listing)) && InOrder(Looked(s, now, listing))
  {
    var s' := Looked(s, now, listing);
    var listed := Ops(listing);
    forall i, op | 0 <= i < |s'.spends| && s'.spends[i].Kept() && op in s'.spends[i].tx.inputs
      ensures Held(s', i, op) || Aged(s', i, op, s'.clock, |s'.spends|)
    {
      if Aged(s, i, op, s.clock, |s.spends|) {
        AgedGrows(s, s', i, op, s.clock, now, |s.spends|, |s'.spends|);
      } else if op !in s'.tables.spent {
        var at := s.tables.spent[op];
        assert Settled(listed, op, at, now) || Stale(listed, op, at, now);
        if op !in listed {
          assert s'.views[|s.views|] == Seen(listed, |s.spends|);
        }
      }
    }
  }

  lemma KeptGuards(s: State, tx: BuiltTx, now: Time, outcome: Verdict)
    ensures var t := KeepBooks(s.tables, tx, now, outcome);
      && (forall op :: op in t.spent <==> op in s.tables.spent || (LocksInputs(outcome) && op in tx.inputs))
      && (forall op :: op in t.spent ==>
            t.spent[op] == if LocksInputs(outcome) && op in tx.inputs then now else s.tables.spent[op])
  {
  }

  /** A table change that only adds guards, or renews them, keeps every coin guarded. */
  lemma RenewGuards(s: State, s': State)
    requires Guarded(s) && InOrder(s) && s'.spends == s.spends && s'.views == s.views && s.clock <= s'.clock
    requires forall op :: op in s.tables.spent ==>
      op in s'.tables.spent && (s'.tables.spent[op] == s.tables.spent[op] || s'.tables.spent[op] >= s.clock)
    ensures Guarded(s') && InOrder(s')
  {
    forall i, op | 0 <= i < |s'.spends| && s'.spends[i].Kept() && op in s'.spends[i].tx.inputs
      ensures Held(s', i, op) || Aged(s', i, op, s'.clock, |s'.spends|)
    {
      if Aged(s, i, op, s.clock, |s.spends|) {
        AgedGrows(s, s', i, op, s.clock, s'.clock, |s.spends|, |s'.spends|);
      }
    }
  }

  /** One more transaction on the books, its inputs guarded from now unless it was cleanly rejected. */
  ghost predicate Booked(s: State, s': State, e: Entry) {
    && s'.spends == s.spends + [e] && s'.views == s.views && s'.clock == s.clock == e.at
    && (forall op :: op in s.tables.spent ==>
          op in s'.tables.spent && (s'.tables.spent[op] == s.tables.spent[op] || s'.tables.spent[op] >= s.clock))
    && (e.Kept() ==> forall op :: op in e.tx.inputs ==> op in s'.tables.spent && s'.tables.spent[op] >= e.at)
  }

  lemma BookedGuards(s: State, s': State, e: Entry)
    requires Guarded(s) && InOrder(s) && Booked(s, s', e)
    ensures Guarded(s') && InOrder(s')
  {
    forall i, op | 0 <= i < |s'.spends| && s'.spends[i].Kept() && op in s'.spends[i].tx.inputs
      ensures Held(s', i, op) || Aged(s', i, op, s'.clock, |s'.spends|)
    {
      if i < |s.spends| {
        assert s'.spends[i] == s.spends[i];
        if Aged(s, i, op, s.clock, |s.spends|) {
          AgedGrows(s, s', i, op, s.clock, s.clock, |s.spends|, |s'.spends|);
        }
      }
    }
  }

  /** A transaction that spends only unguarded coins is far from every earlier one it shares a coin with. */
  lemma BookedSeparated(s: State, s': State, e: Entry)
    requires Guarded(s) && Separated(s) && Booked(s, s', e)
    requires forall op :: op in e.tx.inputs ==> op !in s.tables.spent
    ensures Separated(s')
  {
    var n := |s.spends|;
    forall i, j, op | 0 <= i < j < |s'.spends| && Shared(s', i, j, op)
      ensures Aged(s', i, op, s'.spends[j].at, j)
    {
      assert s'.spends[i] == s.spends[i];
      if j < n {
        assert s'.spends[j] == s.spends[j];
        assert Shared(s, i, j, op);
        AgedGrows(s, s', i, op, s.spends[j].at, s.spends[j].at, j, j);
      } else {
        assert !Held(s, i, op);
        AgedGrows(s, s', i, op, s.clock, s.clock, n, n);
      }
    }
  }

  /** Whatever is in the view has no guard. */
  lemma ViewUnguarded(t: Tables, listing: seq<Coin>, immature: set<Txid>, inputs: seq<Outpoint>)
    requires View(listing) && UniqueRows(t.pending)
    requires forall op :: op in inputs ==> exists c :: c in ViewOf(t, listing, immature) && c.op == op
    ensures forall op :: op in inputs ==> op !in t.spent
  {
    ViewOfView(t, listing, immature);
  }

  /** So an earlier kept spend of any input has aged. */
  lemma SpendSeparates(s: State, now: Time, listing: seq<Coin>, immature: set<Txid>, tx: BuiltTx, net: Net)
    requires Guarded(s) && InOrder(s) && Separated(s) && UniqueRows(s.tables.pending)
    requires Allowed(s, Spend(now, listing, immature, tx, net))
    ensures var s' := Apply(s, Spend(now, listing, immature, tx, net));
      Guarded(s') && InOrder(s') && Separated(s')
  {
    hide Guarded, InOrder, Separated, UniqueRows, ViewOf, Unseen, WellBuilt, Settle, Reconciled;
    var seen := Looked(s, now, listing);
    LookGuards(s, now, listing);
    LookUnique(s, now, listing);
    SameSpendsSeparated(s, seen);
    ViewUnguarded(seen.tables, listing, immature, tx.inputs);
    var s' := Apply(s, Spend(now, listing, immature, tx, net));
    KeptGuards(seen, tx, now, Settle(net));
    BookedGuards(seen, s', Entry(tx, now, net));
    BookedSeparated(seen, s', Entry(tx, now, net));
  }

  lemma SameSpendsSeparated(s: State, s': State)
    requires Separated(s) && s'.spends == s.spends && s.views <= s'.views
    ensures Separated(s')
  {
    forall i, j, op | 0 <= i < j < |s.spends| && Shared(s, i, j, op)
      ensures Aged(s', i, op, s'.spends[j].at, j)
    {
      AgedGrows(s, s', i, op, s.spends[j].at, s.spends[j].at, j, j);
    }
  }

  lemma ApplyUnique(s: State, step: Step)
    requires UniqueRows(s.tables.pending)
    ensures UniqueRows(Apply(s, step).tables.pending)
  {
    match step
    case Look(now, listing) => LookUnique(s, now, listing);
    case Sweep(now) => FilterRows(s.tables.pending, (r: PendingRow) => r.at >= now - PENDING_TTL_MS);
    case Spend(now, listing, _, tx, _) =>
      LookUnique(s, now, listing);
      PutAllUnique(Looked(s, now, listing).tables.pending, tx.ownOutputs, now);
    case Retry(now, tx, _) => PutAllUnique(s.tables.pending, tx.ownOutputs, now);
    case Recover(now, tx) => PutAllUnique(s.tables.pending, tx.ownOutputs, now);
  }

  lemma LookUnique(s: State, now: Time, listing: seq<Coin>)
    requires UniqueRows(s.tables.pending)
    ensures UniqueRows(Looked(s, now, listing).tables.pending)
    ensures forall r :: r in Looked(s, now, listing).tables.pending <==>
      r in s.tables.pending && r.op !in Ops(listing)
      && !(r.op in s.tables.spent && Settled(Ops(listing), r.op, s.tables.spent[r.op], now))
  {
    FilterRows(s.tables.pending, (r: PendingRow) =>
      r.op !in Ops(listing) && !(r.op in s.tables.spent && Settled(Ops(listing), r.op, s.tables.spent[r.op], now)));
  }

  lemma {:induction false} RunGuards(steps: seq<Step>)
    requires Run(steps)
    ensures var s := Reach(steps);
      Guarded(s) && InOrder(s) && Separated(s) && UniqueRows(s.tables.pending)
  {
    if steps != [] {
      hide Guarded, InOrder, Separated, UniqueRows, Reconciled;
      var before, step := steps[..|steps| - 1], steps[|steps| - 1];
      RunGuards(before);
      var s := Reach(before);
      ApplyUnique(s, step);
      var s' := Apply(s, step);
      match step
      case Look(now, listing) =>
        LookGuards(s, now, listing);
        SameSpendsSeparated(s, s');
      case Sweep(now) =>
        RenewGuards(s, s');
        SameSpendsSeparated(s, s');
      case Spend(now, listing, immature, tx, net) =>
        SpendSeparates(s, now, listing, immature, tx, net);
      case Retry(now, tx, net) =>
        KeptGuards(s, tx, now, Settle(net));
        RenewGuards(s, s');
        SameSpendsSeparated(s, s');
      case Recover(now, tx) =>
        KeptGuards(s, tx, now, Live([]));
        RenewGuards(s, s');
        SameSpendsSeparated(s, s');
    } else {
      assert Reach(steps) == START;
    }
  }

  /**
   * In every run, two different transactions neither of which was cleanly
   * rejected share an input only when built more than SPENT_SETTLED_MS apart,
   * and more than SPENT_STALE_MS apart unless some explorer view read in
   * between no longer listed that coin.
   */
  lemma NoDoubleSpend(steps: seq<Step>, i: nat, j: nat, op: Outpoint)
    requires Run(steps) && i < j < |Reach(steps).spends| && Shared(Reach(steps), i, j, op)
    ensures var s := Reach(steps);
      var apart := s.spends[j].at - s.spends[i].at;
      && apart > SPENT_SETTLED_MS
      && ((forall k :: 0 <= k < |s.views| && i < s.views[k].after <= j ==> op in s.views[k].listed) ==>
            apart > SPENT_STALE_MS)
  {
    RunGuards(steps);
    assert Aged(Reach(steps), i, op, Reach(steps).spends[j].at, j);
  }

  /** The same of transactions the network may really hold, whatever the relays answered. */
  lemma LiveSpendsApart(steps: seq<Step>, i: nat, j: nat, op: Outpoint)
    requires Run(steps) && i < j < |Reach(steps).spends|
    requires var s := Reach(steps);
      forall k :: k == i || k == j ==>
        && Configured(s.spends[k].net) && HonestRound(s.spends[k].net.first) && MayBeLive(s.spends[k].net)
        && op in s.spends[k].tx.inputs
    ensures var s := Reach(steps);
      var apart := s.spends[j].at - s.spends[i].at;
      && apart > SPENT_SETTLED_MS
      && ((forall k :: 0 <= k < |s.views| && i < s.views[k].after <= j ==> op in s.views[k].listed) ==>
            apart > SPENT_STALE_MS)
  {
    hide Reach, Run, Settle, MayBeLive, Configured, HonestRound;
    var s := Reach(steps);
    LiveIsLocked(s.spends[i].net);
    LiveIsLocked(s.spends[j].net);
    NoDoubleSpend(steps, i, j, op);
  }

  // ------------------------------------------------------------------ phantom coins

  /** An output of ours that has been consumed is never pending without its guard. */
  ghost predicate Masked(s: State) {
    forall r :: r in s.tables.pending && s.Consumed(r.op) ==> r.op in s.tables.spent
  }

  predicate RecordsLate(step: Step) {
    step.Recover? || (step.Retry? && Settle(step.net).Live?)
  }

  /** A late recording is safe when every output it re-adds is unspent, or still has its guard. */
  ghost predicate SafelyLate(s: State, step: Step) {
    RecordsLate(step) ==>
      forall o :: o in step.tx.ownOutputs && s.Consumed(o.op) ==> o.op in s.tables.spent || o.op in step.tx.inputs
  }

  lemma LookMasks(s: State, now: Time, listing: seq<Coin>)
    requires Masked(s) && UniqueRows(s.tables.pending)
    ensures Masked(Looked(s, now, listing))
  {
    var s' := Looked(s, now, listing);
    LookUnique(s, now, listing);
    forall r | r in s'.tables.pending && s'.Consumed(r.op) ensures r.op in s'.tables.spent {
      assert s.Consumed(r.op);
    }
  }

  lemma SpendMasks(s: State, now: Time, listing: seq<Coin>, immature: set<Txid>, tx: BuiltTx, net: Net)
    requires Masked(s) && UniqueRows(s.tables.pending)
    requires Allowed(s, Spend(now, listing, immature, tx, net))
    ensures Masked(Apply(s, Spend(now, listing, immature, tx, net)))
  {
    var seen := Looked(s, now, listing);
    LookMasks(s, now, listing);
    LookUnique(s, now, listing);
    PutAllUnique(seen.tables.pending, tx.ownOutputs, now);
    KeptGuards(seen, tx, now, Settle(net));
    var s' := Apply(s, Spend(now, listing, immature, tx, net));
    forall r | r in s'.tables.pending && s'.Consumed(r.op) ensures r.op in s'.tables.spent {
      var i :| 0 <= i < |s'.spends| && s'.spends[i].Kept() && r.op in s'.spends[i].tx.inputs;
      if i < |s.spends| {
        assert s'.spends[i] == s.spends[i];
        assert s.Consumed(r.op) && seen.Consumed(r.op);
      }
    }
  }

  /** Re-adding outputs late keeps them masked exactly when each is unspent or guarded. */
  lemma LateMasks(s: State, tx: BuiltTx, now: Time)
    requires Masked(s) && UniqueRows(s.tables.pending)
    ensures Masked(s.(tables := Record(s.tables, tx, now), clock := now)) <==>
      forall o :: o in tx.ownOutputs && s.Consumed(o.op) ==> o.op in s.tables.spent || o.op in tx.inputs
  {
    var s' := s.(tables := Record(s.tables, tx, now), clock := now);
    PutAllUnique(s.tables.pending, tx.ownOutputs, now);
    forall op ensures s'.Consumed(op) <==> s.Consumed(op) {}
    if Masked(s') {
      forall o | o in tx.ownOutputs && s.Consumed(o.op) ensures o.op in s.tables.spent || o.op in tx.inputs {
        PutAllHas(s.tables.pending, tx.ownOutputs, now, o.op);
        var r :| r in s'.tables.pending && r.op == o.op;
      }
    }
  }

  lemma {:induction false} PutAllHas(rows: seq<PendingRow>, outs: seq<OwnOutput>, now: Time, op: Outpoint)
    requires (exists o :: o in outs && o.op == op) || (exists r :: r in rows && r.op == op)
    ensures exists r :: r in PutAll(rows, outs, now) && r.op == op
    decreases |outs|
  {
    if outs != [] {
      var row := PendingRow(outs[0].op, outs[0].sats, now);
      var rows' := PutRow(rows, row);
      FilterIn(rows, (r: PendingRow) => r.op != row.op);
      if op == row.op {
        assert row in rows';
      } else if r :| r in rows && r.op == op {
        assert r in rows';
      }
      PutAllHas(rows', outs[1..], now, op);
    }
  }

  ghost predicate RunSafely(steps: seq<Step>) {
    steps == [] ||
    (RunSafely(steps[..|steps| - 1]) && SafelyLate(Reach(steps[..|steps| - 1]), steps[|steps| - 1]))
  }

  lemma {:induction false} RunMasks(steps: seq<Step>)
    requires Run(steps) && RunSafely(steps)
    ensures Masked(Reach(steps))
  {
    if steps != [] {
      hide Masked, UniqueRows, Reconciled, PrunePending, Record, Guarded, InOrder, Separated;
      hide Settle, Looked, LocksInputs;
      var before, step := steps[..|steps| - 1], steps[|steps| - 1];
      RunMasks(before);
      RunGuards(before);
      var s := Reach(before);
      match step
      case Look(now, listing) => LookMasks(s, now, listing);
      case Sweep(now) => SweepMasks(s, now);
      case Spend(now, listing, immature, tx, net) => SpendMasks(s, now, listing, immature, tx, net);
      case Retry(now, tx, net) =>
        if Settle(net).Live? {
          LateMasks(s, tx, now);
        } else {
          RelockMasks(s, tx, now, Settle(net));
        }
      case Recover(now, tx) => LateMasks(s, tx, now);
    } else {
      assert Reach(steps) == START;
    }
  }

  lemma SweepMasks(s: State, now: Time)
    requires Masked(s) && UniqueRows(s.tables.pending)
    ensures Masked(s.(tables := PrunePending(s.tables, now), clock := now))
  {
    var s' := s.(tables := PrunePending(s.tables, now), clock := now);
    FilterRows(s.tables.pending, (r: PendingRow) => r.at >= now - PENDING_TTL_MS);
    forall op ensures s'.Consumed(op) <==> s.Consumed(op) {}
  }

  lemma RelockMasks(s: State, tx: BuiltTx, now: Time, outcome: Verdict)
    requires Masked(s) && !outcome.Live?
    ensures Masked(s.(tables := KeepBooks(s.tables, tx, now, outcome), clock := now))
  {
    var s' := s.(tables := KeepBooks(s.tables, tx, now, outcome), clock := now);
    KeptGuards(s, tx, now, outcome);
    forall op ensures s'.Consumed(op) <==> s.Consumed(op) {}
  }

  /**
   * No phantom coins: in a run whose late recordings re-add only outputs that
   * are unspent or guarded, a coin some kept transaction consumed is in a later
   * view only if the explorer itself lists it.
   */
  lemma NoPhantoms(steps: seq<Step>, now: Time, listing: seq<Coin>, immature: set<Txid>, c: Coin)
    requires Run(steps) && RunSafely(steps) && View(listing)
    requires var seen := Looked(Reach(steps), now, listing);
      c in ViewOf(seen.tables, listing, immature) && seen.Consumed(c.op)
    ensures c in listing
  {
    hide Run, RunSafely, Reach, ViewOf, Guarded, InOrder, Separated;
    RunMasks(steps);
    RunGuards(steps);
    var s := Reach(steps);
    var seen := Looked(s, now, listing);
    LookMasks(s, now, listing);
    LookUnique(s, now, listing);
    ViewOfView(seen.tables, listing, immature);
  }

  /**
   * The condition on late recordings is exact: re-adding a consumed output that
   * has lost its guard puts it back in the very next view, though no explorer
   * lists it.
   */
  lemma LatePhantom(s: State, tx: BuiltTx, o: OwnOutput, at: Time, now: Time, listing: seq<Coin>, immature: set<Txid>)
    requires UniqueRows(s.tables.pending) && View(listing) && at <= now
    requires o in tx.ownOutputs && s.Consumed(o.op) && o.op !in s.tables.spent && o.op !in tx.inputs
    requires o.op !in Ops(listing) && o.op.txid !in immature
    ensures var late := s.(tables := Record(s.tables, tx, at), clock := at);
      var seen := Looked(late, now, listing);
      && seen.Consumed(o.op)
      && exists c :: c in ViewOf(seen.tables, listing, immature) && c.op == o.op && c !in listing
  {
    var late := s.(tables := Record(s.tables, tx, at), clock := at);
    var seen := Looked(late, now, listing);
    PutAllHas(s.tables.pending, tx.ownOutputs, at, o.op);
    PutAllUnique(s.tables.pending, tx.ownOutputs, at);
    LookUnique(late, now, listing);
    var i :| 0 <= i < |s.spends| && s.spends[i].Kept() && o.op in s.spends[i].tx.inputs;
    assert seen.spends[i] == s.spends[i];
    var r :| r in late.tables.pending && r.op == o.op;
    assert r in seen.tables.pending;
    PendingShows(seen.tables, listing, immature, r);
  }

  /** A pending output that is unguarded, unlisted and mature is in the view. */
  lemma PendingShows(t: Tables, listing: seq<Coin>, immature: set<Txid>, r: PendingRow)
    requires r in t.pending && r.op !in t.spent && r.op !in Ops(listing) && r.op.txid !in immature
    ensures Coin(r.op, r.sats, None) in ViewOf(t, listing, immature)
    ensures Coin(r.op, r.sats, None) !in listing
  {
    var c := Coin(r.op, r.sats, None);
    var i :| 0 <= i < |t.pending| && t.pending[i] == r;
    assert PendingCoins(t.pending)[i] == c;
    FilterIn(PendingCoins(t.pending), (c: Coin) => c.op !in Ops(listing));
    assert c in Merged(t, listing);
    FilterIn(Merged(t, listing), (c: Coin) => Spendable(t.spent, immature, c));
  }

  /** A later view, of some listing, holds a coin a kept transaction consumed and the listing does not. */
  ghost predicate ShowsPhantom(s: State, now: Time, listing: seq<Coin>, immature: set<Txid>, c: Coin) {
    && s.clock <= now && View(listing) && c !in listing
    && c in ViewOf(Looked(s, now, listing).tables, listing, immature)
    && Looked(s, now, listing).Consumed(c.op)
  }

  ghost predicate PhantomAhead(s: State) {
    exists now, listing, immature, c :: ShowsPhantom(s, now, listing, immature, c)
  }

  /** A phantom lies ahead exactly when some consumed output is pending without its guard. */
  lemma PhantomIffUnmasked(s: State)
    requires UniqueRows(s.tables.pending)
    ensures PhantomAhead(s) <==> !Masked(s)
  {
    if !Masked(s) {
      hide ViewOf;
      var r :| r in s.tables.pending && s.Consumed(r.op) && r.op !in s.tables.spent;
      LookUnique(s, s.clock, []);
      PendingShows(Looked(s, s.clock, []).tables, [], {}, r);
      assert Looked(s, s.clock, []).Consumed(r.op);
      assert ShowsPhantom(s, s.clock, [], {}, Coin(r.op, r.sats, None));
    }
    if PhantomAhead(s) && Masked(s) {
      var now, listing, immature, c :| ShowsPhantom(s, now, listing, immature, c);
      MaskedShowsNone(s, now, listing, immature, c);
    }
  }

  lemma MaskedShowsNone(s: State, now: Time, listing: seq<Coin>, immature: set<Txid>, c: Coin)
    requires Masked(s) && UniqueRows(s.tables.pending)
    ensures !ShowsPhantom(s, now, listing, immature, c)
  {
    if ShowsPhantom(s, now, listing, immature, c) {
      hide ViewOf;
      LookMasks(s, now, listing);
      LookUnique(s, now, listing);
      ViewOfView(Looked(s, now, listing).tables, listing, immature);
    }
  }

  /**
   * After a run with no unsafe late recording, one more late recording puts a
   * phantom into some later view exactly when it re-adds an output that has
   * been consumed and has lost its guard.
   */
  lemma LatePhantomIff(steps: seq<Step>, step: Step)
    requires Run(steps) && RunSafely(steps) && Allowed(Reach(steps), step) && RecordsLate(step)
    ensures PhantomAhead(Apply(Reach(steps), step)) <==>
      exists o :: o in step.tx.ownOutputs && Reach(steps).Consumed(o.op)
        && o.op !in Reach(steps).tables.spent && o.op !in step.tx.inputs
  {
    hide Reach, Run, RunSafely, Masked, Guarded, InOrder, Separated, Settle, Record;
    RunMasks(steps);
    RunGuards(steps);
    var s := Reach(steps);
    LateMasks(s, step.tx, step.now);
    ApplyUnique(s, step);
    PhantomIffUnmasked(Apply(s, step));
  }

  lemma {:induction false} RunPrefix(steps: seq<Step>, n: nat)
    requires Run(steps) && n <= |steps|
    ensures Run(steps[..n]) && (RunSafely(steps) ==> RunSafely(steps[..n]))
    decreases |steps|
  {
    if n == |steps| {
      assert steps[..n] == steps;
    } else {
      hide Reach, Allowed, SafelyLate;
      assert steps[..|steps| - 1][..n] == steps[..n];
      RunPrefix(steps[..|steps| - 1], n);
    }
  }

  /**
   * No phantom coin is ever possible, at any point of a run, exactly when every
   * late recording in it re-adds only outputs that are unspent or still guarded.
   */
  lemma {:induction false} NoPhantomsIff(steps: seq<Step>)
    requires Run(steps)
    ensures RunSafely(steps) <==> forall n :: 0 <= n <= |steps| ==> !PhantomAhead(Reach(steps[..n]))
  {
    if RunSafely(steps) {
      forall n | 0 <= n <= |steps| ensures !PhantomAhead(Reach(steps[..n])) {
        RunPrefix(steps, n);
        RunMasks(steps[..n]);
        RunGuards(steps[..n]);
        PhantomIffUnmasked(Reach(steps[..n]));
      }
    } else {
      var n := UnsafeShows(steps);
    }
  }

  lemma {:induction false} UnsafeShows(steps: seq<Step>) returns (n: nat)
    requires Run(steps) && !RunSafely(steps)
    ensures n <= |steps| && PhantomAhead(Reach(steps[..n]))
  {
    hide PhantomAhead, Allowed, Masked;
    var before, step := steps[..|steps| - 1], steps[|steps| - 1];
    if RunSafely(before) {
      LatePhantomIff(before, step);
      n := |steps|;
      assert steps[..n] == steps;
    } else {
      n := UnsafeShows(before);
      assert before[..n] == steps[..n];
    }
  }

  // ------------------------------------------------------------------ a phantom run

  const A: Outpoint := Outpoint(0, 0)
  const B: Outpoint := Outpoint(1, 0)
  const RELAY: Provider := Provider(0, false, true)
  const SILENCE: Round := Round([Asked(RELAY, Silent, true)], [])
  const UNRESOLVED: Net := Net(SILENCE, SILENCE, [], [])
  const ACCEPTED: Net := Net(Round([Asked(RELAY, Took(true), true)], []), SILENCE, [], [])

  /** An asset lock whose change is B, and a payout that spends B. */
  const VOUCHER: BuiltTx := BuiltTx(1, [A], [OwnOutput(B, 5)], 1, 6)
  const PAYOUT: BuiltTx := BuiltTx(2, [B], [], 1, 5)

  const LISTS_A: seq<Coin> := [Coin(A, 6, Some(1))]
  const LISTS_B: seq<Coin> := [Coin(B, 5, Some(2))]
  const LATE: Time := SPENT_SETTLED_MS + 2

  const BEFORE: seq<Step> :=
    [Spend(0, LISTS_A, {}, VOUCHER, UNRESOLVED), Spend(1, LISTS_B, {}, PAYOUT, ACCEPTED), Look(LATE, [])]

  const BOOKED: seq<Entry> := [Entry(VOUCHER, 0, UNRESOLVED), Entry(PAYOUT, 1, ACCEPTED)]

  lemma OneRelay(reply: Reply)
    ensures var a := Asked(RELAY, reply, true);
      Broadcast(Round([a], [])) == Some(Vouch(Count(EMPTY, a)))
  {
    var a := Asked(RELAY, reply, true);
    FilterOne(a, (a: Asked) => a.relay.canBroadcast);
    assert [a][..0] == [];
    assert CountAll(EMPTY, [a]) == Count(EMPTY, a);
    assert Relays([]) == [];
  }

  lemma Verdicts()
    ensures Settle(UNRESOLVED).Unresolved? && Settle(ACCEPTED).Live?
  {
    hide Broadcast;
    OneRelay(Silent);
    OneRelay(Took(true));
  }

  /** A view that lists one unguarded coin has it. */
  lemma ListedShows(t: Tables, c: Coin)
    requires t.pending == [] && c.op !in t.spent
    ensures ViewOf(t, [c], {}) == [c] && Ops([c]) == {c.op}
  {
    assert PendingCoins([]) == [];
    assert Merged(t, [c]) == [c];
    FilterOne(c, (c: Coin) => Spendable(t.spent, {}, c));
  }

  lemma FirstSpend()
    ensures var step := Spend(0, LISTS_A, {}, VOUCHER, UNRESOLVED);
      && Allowed(START, step)
      && Apply(START, step) == State(Tables(map[A := 0], []), 0, [BOOKED[0]], [Seen({A}, 0)])
  {
    hide Settle, ViewOf;
    Verdicts();
    ListedShows(Tables(map[], []), LISTS_A[0]);
    assert LISTS_A == [LISTS_A[0]];
    assert Reconciled(START.tables, {A}, 0) == START.tables;
    assert LISTS_A[0] in LISTS_A;
  }

  lemma SecondSpend()
    ensures var s := State(Tables(map[A := 0], []), 0, [BOOKED[0]], [Seen({A}, 0)]);
      var step := Spend(1, LISTS_B, {}, PAYOUT, ACCEPTED);
      && Allowed(s, step)
      && Apply(s, step) == State(Tables(map[A := 0, B := 1], []), 1, BOOKED, [Seen({A}, 0), Seen({B}, 1)])
  {
    hide Settle, ViewOf;
    Verdicts();
    var t := Tables(map[A := 0], []);
    ListedShows(t, LISTS_B[0]);
    assert LISTS_B == [LISTS_B[0]];
    assert Reconciled(t, {B}, 1) == t;
    assert LISTS_B[0] in LISTS_B;
    assert PutAll([], [], 1) == [];
  }

  lemma LateLook()
    ensures var s := State(Tables(map[A := 0, B := 1], []), 1, BOOKED, [Seen({A}, 0), Seen({B}, 1)]);
      && Allowed(s, Look(LATE, []))
      && Apply(s, Look(LATE, [])) == State(Tables(map[], []), LATE, BOOKED, [Seen({A}, 0), Seen({B}, 1), Seen({}, 2)])
  {
    assert Ops([]) == {};
  }

  lemma RunSnoc(steps: seq<Step>, step: Step)
    requires Run(steps) && Allowed(Reach(steps), step)
    ensures Run(steps + [step]) && Reach(steps + [step]) == Apply(Reach(steps), step)
    ensures RunSafely(steps) && !RecordsLate(step) ==> RunSafely(steps + [step])
  {
    assert (steps + [step])[..|steps|] == steps;
  }

  lemma BeforeRuns()
    ensures Run(BEFORE) && RunSafely(BEFORE)
    ensures var s := Reach(BEFORE); s.tables == Tables(map[], []) && s.clock == LATE && s.spends == BOOKED
  {
    assert Run([]) && RunSafely([]) && Reach([]) == START;
    hide Run, Reach, RunSafely, Apply, Allowed;
    FirstSpend();
    SecondSpend();
    LateLook();
    RunSnoc([], BEFORE[0]);
    assert [] + [BEFORE[0]] == [BEFORE[0]];
    RunSnoc([BEFORE[0]], BEFORE[1]);
    assert [BEFORE[0]] + [BEFORE[1]] == [BEFORE[0], BEFORE[1]];
    RunSnoc([BEFORE[0], BEFORE[1]], BEFORE[2]);
    assert [BEFORE[0], BEFORE[1]] + [BEFORE[2]] == BEFORE;
  }

  /**
   * A run that ends in a phantom: an unresolved voucher whose change was listed
   * and spent, both guards gone with time, is recovered, and its change is back.
   */
  lemma PhantomRun()
    ensures Run(BEFORE + [Recover(LATE, VOUCHER)])
    ensures PhantomAhead(Reach(BEFORE + [Recover(LATE, VOUCHER)]))
  {
    hide Run, Reach, RunSafely, Apply, Settle, PhantomAhead;
    BeforeRuns();
    Verdicts();
    var s, step := Reach(BEFORE), Recover(LATE, VOUCHER);
    assert s.spends[0].tx == VOUCHER && s.spends[1].tx == PAYOUT;
    RunSnoc(BEFORE, step);
    LatePhantomIff(BEFORE, step);
    assert s.spends[1].Kept() && B in s.spends[1].tx.inputs;
    assert OwnOutput(B, 5) in VOUCHER.ownOutputs;
  }

  /** In every reachable state an accepted spend lowers the spendable sum by what it sends away plus its fee. */
  lemma SpendConserves(steps: seq<Step>, now: Time, listing: seq<Coin>, immature: set<Txid>,
                       inputs: seq<Coin>, txid: Txid, outputs: seq<TxOutput>, net: Net)
    requires Run(steps)
    requires Allowed(Reach(steps), Spend(now, listing, immature, Finish(txid, inputs, outputs), net))
    requires View(inputs)
      && forall c :: c in inputs ==> c in ViewOf(Looked(Reach(steps), now, listing).tables, listing, immature)
    requires Settle(net).Live?
    ensures var tx := Finish(txid, inputs, outputs);
      var seen := Looked(Reach(steps), now, listing).tables;
      var after := Apply(Reach(steps), Spend(now, listing, immature, tx, net)).tables;
      Sum(ViewOf(after, listing, immature)) == Sum(ViewOf(seen, listing, immature)) - Foreign(outputs) - tx.fee
  {
    hide Run, Reach, ViewOf, Guarded, InOrder, Separated, Reconciled, Sum, OwnAmong, TotalOut, Settle;
    RunGuards(steps);
    LookUnique(Reach(steps), now, listing);
    RecordConserves(Looked(Reach(steps), now, listing).tables, listing, immature, inputs, txid, outputs, now);
  }
}
