/**
 * Invitation vouchers: `issueInvitationLocked`, `maintainInvitationsLocked` and
 * `mintInvitation` of src/treasury.ts, over the invitation_inventory table.
 */
module Vouchers {
  import opened Coins
  import opened Settlement

  datatype Stage =
    | BroadcastUnknown
    | AwaitingChainLock
    | Available
    | Issued(device: nat, at: Time)
    | Claimed
    | Failed

  /** Rows in creation order. */
  datatype Voucher = Voucher(id: nat, amount: nat, stage: Stage)

  /** What checking a candidate against Platform, and opening it, comes to. */
  datatype Answer = ExplorerDown | AlreadyClaimed | Undecryptable | Opens

  /** What Core says of a voucher's transaction. */
  datatype ChainStatus = NoAnswer | Known(chainLocked: bool) | Unknown

  predicate Candidate(v: Voucher, amount: nat) {
    v.stage.Available? && v.amount == amount
  }

  // ------------------------------------------------------------------ one batch

  function After(v: Voucher, answer: Answer, device: nat, now: Time): (r: Voucher)
    ensures r.id == v.id
  {
    match answer
    case ExplorerDown => v
    case AlreadyClaimed => v.(stage := Claimed)
    case Undecryptable => v.(stage := Failed)
    case Opens => v.(stage := Issued(device, now))
  }

  function Handle(v: Voucher, amount: nat, answers: nat -> Answer, device: nat, now: Time): Voucher {
    if Candidate(v, amount) then After(v, answers(v.id), device, now) else v
  }

  /** The inventory with its first `cut` rows examined. */
  function Handled(rows: seq<Voucher>, cut: nat, amount: nat, answers: nat -> Answer, device: nat, now: Time)
    : (r: seq<Voucher>)
    requires cut <= |rows|
    ensures |r| == |rows|
  {
    seq(|rows|, i requires 0 <= i < |rows| =>
      if i < cut then Handle(rows[i], amount, answers, device, now) else rows[i])
  }

  /**
   * Row by row, what a batch does to the inventory: an examined voucher that was
   * available at the amount ends reserved to the device exactly when it opened,
   * claimed exactly when Platform says so, failed exactly when it cannot be
   * decrypted, and unchanged exactly when nobody could tell. Every other row is
   * as it was.
   */
  lemma BatchTable(rows: seq<Voucher>, cut: nat, amount: nat, answers: nat -> Answer, device: nat, now: Time, i: nat)
    requires cut <= |rows| && i < |rows|
    ensures var v, v' := rows[i], Handled(rows, cut, amount, answers, device, now)[i];
      && v'.id == v.id && v'.amount == v.amount
      && (i < cut && v.stage.Available? && v.amount == amount ==>
            && (v'.stage == Issued(device, now) <==> answers(v.id).Opens?)
            && (v'.stage.Claimed? <==> answers(v.id).AlreadyClaimed?)
            && (v'.stage.Failed? <==> answers(v.id).Undecryptable?)
            && (v' == v <==> answers(v.id).ExplorerDown?))
      && (i >= cut || !v.stage.Available? || v.amount != amount ==> v' == v)
  {
  }

  /** The vouchers open among the first `cut` rows, oldest first. */
  function Opened(rows: seq<Voucher>, cut: nat, amount: nat, answers: nat -> Answer): seq<nat>
    requires cut <= |rows|
  {
    if cut == 0 then []
    else
      var v := rows[cut - 1];
      Opened(rows, cut - 1, amount, answers) + if Candidate(v, amount) && answers(v.id).Opens? then [v.id] else []
  }

  predicate DownAmong(rows: seq<Voucher>, cut: nat, amount: nat, answers: nat -> Answer)
    requires cut <= |rows|
  {
    exists i :: 0 <= i < cut && Candidate(rows[i], amount) && answers(rows[i].id).ExplorerDown?
  }

  /** Row numbers of the oldest available vouchers of an amount, at most `limit` of them. */
  function Query(rows: seq<Voucher>, amount: nat, limit: nat, from: nat): (r: seq<nat>)
    ensures |r| <= limit
    decreases |rows| - from
  {
    if from >= |rows| || limit == 0 then []
    else if Candidate(rows[from], amount) then [from] + Query(rows, amount, limit - 1, from + 1)
    else Query(rows, amount, limit, from + 1)
  }

  /** Row numbers of candidates from `start` on, in order, with none left out in between. */
  ghost predicate Found(rows: seq<Voucher>, start: nat, found: seq<nat>, amount: nat) {
    && (forall i :: 0 <= i < |found| ==> start <= found[i] < |rows| && Candidate(rows[found[i]], amount))
    && (forall i, j :: 0 <= i < j < |found| ==> found[i] < found[j])
    && (forall i, k :: 0 <= i < |found| && Next(found, start, i) <= k < found[i] ==> !Candidate(rows[k], amount))
  }

  /** Where the search for the i-th candidate begins. */
  function Next(found: seq<nat>, start: nat, i: nat): nat
    requires i <= |found|
  {
    if i == 0 then start else found[i - 1] + 1
  }

  lemma FoundNone(rows: seq<Voucher>, from: nat, amount: nat)
    ensures Found(rows, from, [], amount)
  {
  }

  /** A query lists the first candidates; with fewer than asked for it lists them all. */
  lemma {:induction false} QueryFinds(rows: seq<Voucher>, amount: nat, limit: nat, from: nat)
    ensures var r := Query(rows, amount, limit, from);
      && Found(rows, from, r, amount)
      && (limit > 0 && r == [] ==> forall k :: from <= k < |rows| ==> !Candidate(rows[k], amount))
    decreases |rows| - from
  {
    hide Found;
    FoundNone(rows, from, amount);
    if from < |rows| && limit > 0 {
      if Candidate(rows[from], amount) {
        QueryFinds(rows, amount, limit - 1, from + 1);
        FoundCons(rows, from, Query(rows, amount, limit - 1, from + 1), amount);
      } else {
        QueryFinds(rows, amount, limit, from + 1);
        FoundSkip(rows, from, Query(rows, amount, limit, from + 1), amount);
      }
    }
  }

  lemma FoundCons(rows: seq<Voucher>, from: nat, rest: seq<nat>, amount: nat)
    requires from < |rows| && Candidate(rows[from], amount) && Found(rows, from + 1, rest, amount)
    ensures Found(rows, from, [from] + rest, amount)
  {
    var r := [from] + rest;
    forall i | 0 < i < |r| ensures r[i] == rest[i - 1] && Next(r, from, i) == Next(rest, from + 1, i - 1) {}
    forall i, k | 0 <= i < |r| && Next(r, from, i) <= k < r[i] ensures !Candidate(rows[k], amount) {
      assert i > 0;
    }
  }

  lemma FoundSkip(rows: seq<Voucher>, from: nat, r: seq<nat>, amount: nat)
    requires from < |rows| && !Candidate(rows[from], amount) && Found(rows, from + 1, r, amount)
    ensures Found(rows, from, r, amount)
  {
    forall i, k | 0 <= i < |r| && Next(r, from, i) <= k < r[i] ensures !Candidate(rows[k], amount) {
      if k > from {
        assert Next(r, from + 1, i) <= k;
      }
    }
  }

  /**
   * Where a batch stops: it holds no more than was asked for, and as many,
   * unless the explorer was down or no candidate is left.
   */
  ghost predicate BatchCut(rows: seq<Voucher>, cut: nat, count: nat, amount: nat, answers: nat -> Answer) {
    && cut <= |rows| && |Opened(rows, cut, amount, answers)| <= count
    && (|Opened(rows, cut, amount, answers)| == count
        || DownAmong(rows, cut, amount, answers)
        || forall i :: cut <= i < |rows| ==> !Candidate(rows[i], amount))
  }

  // ------------------------------------------------------------------ minting

  /** One mint: nothing was built, or a voucher was stored and its transaction broadcast. */
  datatype Mint = NotBuilt | Broadcasted(verdict: Verdict)

  function MintStage(v: Verdict): Stage {
    match v
    case Live(_) => AwaitingChainLock
    case StaleInputs => Failed
    case CleanlyRejected => Failed
    case _ => BroadcastUnknown
  }

  /** Refilling goes on after a transaction that is, or may be, live. */
  predicate GoesOn(m: Mint) {
    m.Broadcasted? && (m.verdict.Live? || m.verdict.Unresolved?)
  }

  /** The row a mint leaves behind. */
  function Minted(id: nat, amount: nat, m: Mint): seq<Voucher> {
    match m
    case NotBuilt => []
    case Broadcasted(verdict) => [Voucher(id, amount, MintStage(verdict))]
  }

  function MintedUpTo(n: nat, amount: nat, ids: nat -> nat, mints: nat -> Mint): seq<Voucher> {
    if n == 0 then [] else MintedUpTo(n - 1, amount, ids, mints) + Minted(ids(n - 1), amount, mints(n - 1))
  }

  predicate InPipeline(v: Voucher, amount: nat) {
    v.amount == amount && (v.stage.BroadcastUnknown? || v.stage.AwaitingChainLock? || v.stage.Available?)
  }

  /** Vouchers available or on their way. */
  function Pipeline(rows: seq<Voucher>, amount: nat): nat {
    |Filter(rows, (v: Voucher) => InPipeline(v, amount))|
  }

  lemma PipelineGrows(rows: seq<Voucher>, id: nat, amount: nat, m: Mint)
    ensures Pipeline(rows, amount) <= Pipeline(rows + Minted(id, amount, m), amount) <= Pipeline(rows, amount) + 1
    ensures GoesOn(m) ==> Pipeline(rows + Minted(id, amount, m), amount) == Pipeline(rows, amount) + 1
  {
    var p := (v: Voucher) => InPipeline(v, amount);
    FilterConcat(rows, Minted(id, amount, m), p);
    if m.Broadcasted? {
      FilterOne(Voucher(id, amount, MintStage(m.verdict)), p);
    }
  }

  /** What a mint stores, by its settlement: nothing only when nothing was built. */
  lemma MintTable(id: nat, amount: nat, m: Mint)
    ensures Minted(id, amount, m) == [] <==> m.NotBuilt?
    ensures m.Broadcasted? ==>
      exists v :: Minted(id, amount, m) == [v] && v.id == id && v.amount == amount
        && (v.stage.AwaitingChainLock? <==> m.verdict.Live?)
        && (v.stage.BroadcastUnknown? <==> m.verdict.Unresolved? || m.verdict.NoRelays?)
        && (v.stage.Failed? <==> m.verdict.StaleInputs? || m.verdict.CleanlyRejected?)
  {
    if m.Broadcasted? {
      assert Minted(id, amount, m)[0].id == id;
    }
  }

  /** A failed mint: no configured relay vouched for its transaction, and none left the matter open. */
  lemma FailedMintIff(id: nat, amount: nat, net: Net)
    ensures var stored := Minted(id, amount, Broadcasted(Settle(net)));
      |stored| == 1
      && (stored[0].stage.Failed? <==>
            !NobodyToAsk(net.first) && !Vouched(AskedIn(net.first)) && !SomeUncertain(net.first))
  {
    VerdictIff(net);
  }

  /** Every voucher of the amount that is not reserved, spent or failed is in the pipeline, and no other. */
  lemma PipelineIs(rows: seq<Voucher>, amount: nat)
    ensures Pipeline(rows, amount) == |Filter(rows, (v: Voucher) =>
      v.amount == amount && !v.stage.Issued? && !v.stage.Claimed? && !v.stage.Failed?)|
  {
    FilterSame(rows, (v: Voucher) => InPipeline(v, amount), (v: Voucher) =>
      v.amount == amount && !v.stage.Issued? && !v.stage.Claimed? && !v.stage.Failed?);
  }

  lemma {:induction false} OpenedCounts(rows: seq<Voucher>, cut: nat, amount: nat, answers: nat -> Answer)
    requires cut <= |rows|
    ensures |Opened(rows, cut, amount, answers)| == |Filter(rows[..cut], (v: Voucher) =>
      v.stage.Available? && v.amount == amount && answers(v.id).Opens?)|
  {
    var p := (v: Voucher) => v.stage.Available? && v.amount == amount && answers(v.id).Opens?;
    if cut > 0 {
      OpenedCounts(rows, cut - 1, amount, answers);
      assert rows[..cut] == rows[..cut - 1] + [rows[cut - 1]];
      FilterConcat(rows[..cut - 1], [rows[cut - 1]], p);
      FilterOne(rows[cut - 1], p);
    }
  }

  /** With the explorer up, a batch holds what was asked for, or every voucher that opens if those are fewer. */
  lemma BatchFills(rows: seq<Voucher>, cut: nat, count: nat, amount: nat, answers: nat -> Answer)
    requires BatchCut(rows, cut, count, amount, answers)
    requires forall v :: v in rows ==> !answers(v.id).ExplorerDown?
    ensures |Opened(rows, cut, amount, answers)| == Min(count, |Filter(rows, (v: Voucher) =>
      v.stage.Available? && v.amount == amount && answers(v.id).Opens?)|)
  {
    var p := (v: Voucher) => v.stage.Available? && v.amount == amount && answers(v.id).Opens?;
    OpenedCounts(rows, cut, amount, answers);
    assert rows == rows[..cut] + rows[cut..];
    FilterConcat(rows[..cut], rows[cut..], p);
    if |Opened(rows, cut, amount, answers)| < count {
      FilterNone(rows[cut..], p);
    }
  }

  class Inventory {
    var rows: seq<Voucher>

    constructor ()
      ensures rows == []
    {
      rows := [];
    }

    /** Checks and opens one candidate. */
    method Examine(k: nat, answer: Answer, device: nat, now: Time) returns (open: bool, down: bool)
      requires k < |rows|
      modifies this
      ensures rows == old(rows)[k := After(old(rows)[k], answer, device, now)]
      ensures open == answer.Opens? && down == answer.ExplorerDown?
    {
      var v := rows[k];
      open, down := false, false;
      match answer
      case ExplorerDown =>
        down := true;
        assert rows == rows[k := v];
      case AlreadyClaimed => rows := rows[k := v.(stage := Claimed)];
      case Undecryptable => rows := rows[k := v.(stage := Failed)];
      case Opens =>
        rows := rows[k := v.(stage := Issued(device, now))];
        open := true;
    }

    /** One pass over the candidates a query found. */
    method Pass(found: seq<nat>, ghost before: seq<Voucher>, ghost start: nat, amount: nat, answers: nat -> Answer,
                device: nat, now: Time) returns (issued: seq<nat>, explorerDown: bool)
      requires start <= |before| && rows == Handled(before, start, amount, answers, device, now)
      requires Found(before, start, found, amount)
      modifies this
      ensures var cut := Next(found, start, |found|);
        && cut <= |before| && rows == Handled(before, cut, amount, answers, device, now)
        && Opened(before, start, amount, answers) + issued == Opened(before, cut, amount, answers)
        && |issued| <= |found|
        && (explorerDown || DownAmong(before, start, amount, answers) <==> DownAmong(before, cut, amount, answers))
    {
      hide Handled, Opened, DownAmong, Found, Candidate, Next, After;
      issued, explorerDown := [], false;
      FoundStart(found, start);
      ghost var cut := start;
      for i := 0 to |found|
        invariant cut == Next(found, start, i) <= |before|
        invariant rows == Handled(before, cut, amount, answers, device, now)
        invariant Opened(before, start, amount, answers) + issued == Opened(before, cut, amount, answers)
        invariant |issued| <= i
        invariant explorerDown || DownAmong(before, start, amount, answers) <==> DownAmong(before, cut, amount, answers)
      {
        var k := found[i];
        FoundAt(before, start, found, amount, i);
        ExamineNext(before, cut, k, amount, answers, device, now);
        var open, down := Examine(k, answers(rows[k].id), device, now);
        if open {
          issued := issued + [rows[k].id];
        }
        if down {
          explorerDown := true;
        }
        cut := k + 1;
      }
    }

    /**
     * Hands out up to `count` vouchers, oldest first, in passes of as many as
     * are still wanted. Exactly the rows before the returned cut are examined,
     * each once; the loop stops when enough are open, the explorer is down, or
     * none is left.
     */
    method IssueBatch(count: nat, amount: nat, answers: nat -> Answer, device: nat, now: Time)
      returns (issued: seq<nat>, explorerDown: bool, ghost cut: nat)
      modifies this
      ensures cut <= |old(rows)|
      ensures rows == Handled(old(rows), cut, amount, answers, device, now)
      ensures issued == Opened(old(rows), cut, amount, answers)
      ensures explorerDown <==> DownAmong(old(rows), cut, amount, answers)
      ensures BatchCut(old(rows), cut, count, amount, answers)
    {
      hide Handled, Opened, DownAmong, Found, Query;
      ghost var before := rows;
      issued, explorerDown, cut := [], false, 0;
      HandledNone(before, amount, answers, device, now);
      while |issued| < count && !explorerDown
        invariant cut <= |before|
        invariant rows == Handled(before, cut, amount, answers, device, now)
        invariant issued == Opened(before, cut, amount, answers) && |issued| <= count
        invariant explorerDown <==> DownAmong(before, cut, amount, answers)
        decreases |before| - cut
      {
        var found := Query(rows, amount, count - |issued|, 0);
        QueryNext(before, rows, cut, count - |issued|, amount, answers, device, now);
        if found == [] {
          return;
        }
        var more, down := Pass(found, before, cut, amount, answers, device, now);
        cut := found[|found| - 1] + 1;
        issued := issued + more;
        explorerDown := down;
      }
    }

    /**
     * Mints until the pipeline is full or a mint stops the refill; `mints(k)`
     * is what the k-th mint comes to. The pipeline never passes its target.
     */
    method Refill(target: nat, amount: nat, ids: nat -> nat, mints: nat -> Mint) returns (minted: nat, full: bool)
      modifies this
      ensures forall k :: 0 <= k < minted ==> GoesOn(mints(k))
      ensures full <==> minted == Max(Pipeline(old(rows), amount), target) - Pipeline(old(rows), amount)
      ensures !full ==> !GoesOn(mints(minted))
      ensures rows == old(rows) + MintedUpTo(if full then minted else minted + 1, amount, ids, mints)
      ensures Pipeline(rows, amount) <= Max(Pipeline(old(rows), amount), target)
      ensures full ==> Pipeline(rows, amount) == Max(Pipeline(old(rows), amount), target)
    {
      hide Pipeline, Minted, GoesOn;
      minted := 0;
      var i := Pipeline(rows, amount);
      assert rows + [] == rows;
      while i < target
        invariant i == Pipeline(old(rows), amount) + minted == Pipeline(rows, amount)
        invariant i <= Max(Pipeline(old(rows), amount), target)
        invariant forall k :: 0 <= k < minted ==> GoesOn(mints(k))
        invariant rows == old(rows) + MintedUpTo(minted, amount, ids, mints)
      {
        var m := mints(minted);
        PipelineGrows(rows, ids(minted), amount, m);
        rows := rows + Minted(ids(minted), amount, m);
        if !GoesOn(m) {
          return minted, false;
        }
        minted, i := minted + 1, i + 1;
      }
      full := true;
    }
  }

  lemma HandledNone(rows: seq<Voucher>, amount: nat, answers: nat -> Answer, device: nat, now: Time)
    ensures Handled(rows, 0, amount, answers, device, now) == rows
    ensures Opened(rows, 0, amount, answers) == [] && !DownAmong(rows, 0, amount, answers)
  {
  }

  /** Rows past the cut are still as they were. */
  lemma HandledLater(rows: seq<Voucher>, cut: nat, amount: nat, answers: nat -> Answer, device: nat, now: Time)
    requires cut < |rows|
    ensures Handled(rows, cut, amount, answers, device, now)[cut] == rows[cut]
  {
  }

  lemma HandleOne(rows: seq<Voucher>, k: nat, amount: nat, answers: nat -> Answer, device: nat, now: Time)
    requires k < |rows| && Candidate(rows[k], amount)
    ensures Handled(rows, k + 1, amount, answers, device, now) ==
      Handled(rows, k, amount, answers, device, now)[k := After(rows[k], answers(rows[k].id), device, now)]
    ensures Opened(rows, k + 1, amount, answers) ==
      Opened(rows, k, amount, answers) + if answers(rows[k].id).Opens? then [rows[k].id] else []
    ensures DownAmong(rows, k + 1, amount, answers) <==>
      DownAmong(rows, k, amount, answers) || answers(rows[k].id).ExplorerDown?
  {
  }

  lemma FoundStart(found: seq<nat>, start: nat)
    ensures Next(found, start, 0) == start
  {
  }

  lemma FoundAt(rows: seq<Voucher>, start: nat, found: seq<nat>, amount: nat, i: nat)
    requires Found(rows, start, found, amount) && i < |found|
    ensures Next(found, start, i) <= found[i] < |rows| && Candidate(rows[found[i]], amount)
    ensures Next(found, start, i + 1) == found[i] + 1
    ensures forall k :: Next(found, start, i) <= k < found[i] ==> !Candidate(rows[k], amount)
  {
  }

  /** The next candidate, with the rows in between that are none. */
  lemma ExamineNext(rows: seq<Voucher>, cut: nat, k: nat, amount: nat,
                    answers: nat -> Answer, device: nat, now: Time)
    requires cut <= k < |rows| && Candidate(rows[k], amount)
    requires forall i :: cut <= i < k ==> !Candidate(rows[i], amount)
    ensures var handled := Handled(rows, cut, amount, answers, device, now);
      && handled[k] == rows[k]
      && Handled(rows, k + 1, amount, answers, device, now)
           == handled[k := After(rows[k], answers(rows[k].id), device, now)]
    ensures Opened(rows, k + 1, amount, answers) ==
      Opened(rows, cut, amount, answers) + if answers(rows[k].id).Opens? then [rows[k].id] else []
    ensures DownAmong(rows, k + 1, amount, answers) <==>
      DownAmong(rows, cut, amount, answers) || answers(rows[k].id).ExplorerDown?
  {
    hide Handled, Opened, DownAmong;
    SkipTo(rows, cut, k, amount, answers, device, now);
    HandledLater(rows, k, amount, answers, device, now);
    HandleOne(rows, k, amount, answers, device, now);
  }

  /** A query on the half-examined inventory finds the next candidates of the original one. */
  lemma QueryNext(before: seq<Voucher>, rows: seq<Voucher>, cut: nat, limit: nat, amount: nat,
                  answers: nat -> Answer, device: nat, now: Time)
    requires cut <= |before| && rows == Handled(before, cut, amount, answers, device, now)
    requires !DownAmong(before, cut, amount, answers) && limit > 0
    ensures Found(before, cut, Query(rows, amount, limit, 0), amount)
    ensures Query(rows, amount, limit, 0) == [] ==> forall i :: cut <= i < |before| ==> !Candidate(before[i], amount)
  {
    NoneBefore(before, rows, cut, amount, answers, device, now);
    QueryFinds(rows, amount, limit, 0);
    FoundLater(before, rows, cut, Query(rows, amount, limit, 0), amount);
  }

  lemma FoundLater(before: seq<Voucher>, rows: seq<Voucher>, cut: nat, found: seq<nat>, amount: nat)
    requires |rows| == |before| && cut <= |rows| && Found(rows, 0, found, amount)
    requires forall k :: 0 <= k < cut ==> !Candidate(rows[k], amount)
    requires forall k :: cut <= k < |rows| ==> rows[k] == before[k]
    ensures Found(before, cut, found, amount)
  {
    forall i, k | 0 <= i < |found| && Next(found, cut, i) <= k < found[i] ensures !Candidate(before[k], amount) {
      assert Next(found, 0, i) <= k;
    }
  }

  /** While the explorer answers, no examined row is still a candidate. */
  lemma NoneBefore(before: seq<Voucher>, rows: seq<Voucher>, cut: nat, amount: nat,
                   answers: nat -> Answer, device: nat, now: Time)
    requires cut <= |before| && rows == Handled(before, cut, amount, answers, device, now)
    requires !DownAmong(before, cut, amount, answers)
    ensures forall k :: 0 <= k < cut ==> !Candidate(rows[k], amount)
    ensures forall k :: cut <= k < |rows| ==> rows[k] == before[k]
  {
  }

  /** Rows that are no candidates may count as examined. */
  lemma {:induction false} SkipTo(rows: seq<Voucher>, cut: nat, k: nat, amount: nat,
                                  answers: nat -> Answer, device: nat, now: Time)
    requires cut <= k <= |rows| && forall i :: cut <= i < k ==> !Candidate(rows[i], amount)
    ensures Handled(rows, k, amount, answers, device, now) == Handled(rows, cut, amount, answers, device, now)
    ensures Opened(rows, k, amount, answers) == Opened(rows, cut, amount, answers)
    ensures DownAmong(rows, k, amount, answers) <==> DownAmong(rows, cut, amount, answers)
    decreases k - cut
  {
    if cut < k {
      SkipTo(rows, cut, k - 1, amount, answers, device, now);
    }
  }
}
