/** Whole runs of the voucher inventory: reservations are exclusive, and vouchers reach people only once ChainLocked. */
module VoucherRuns {
  import opened Coins
  import opened Settlement
  import opened Windows
  import opened Vouchers

  datatype Policy = Policy(amount: nat, ttl: nat, window: nat, maxPerRequest: nat)

  datatype Issuance = Issuance(id: nat, at: Time)

  /** `ipHits` and `deviceHits` are the pruned table; the logs are what it would hold unpruned. */
  datatype State = State(
    rows: seq<Voucher>,
    clock: Time,
    ipHits: seq<Hit>,
    deviceHits: seq<Hit>,
    ipLog: seq<Hit>,
    deviceLog: seq<Hit>,
    issues: seq<Issuance>,
    locked: set<nat>)

  const START: State := State([], 0, [], [], [], [], [], {})

  datatype Gate = Replay | RateLimited(retryAfter: nat) | Proceed

  datatype Step =
    | Mint(now: Time, id: nat, amount: nat, verdict: Verdict)
    | Issue(now: Time, ip: nat, device: nat, answers: nat -> Answer, wanted: Option<nat>, cut: nat)
    | Maintain(now: Time, claimed: nat -> Option<bool>, chain: nat -> ChainStatus, verdicts: nat -> Verdict)

  // ------------------------------------------------------------------ the gate

  function HintOf(hits: seq<Hit>, who: nat, now: Time, window: nat): nat {
    var recent := Recent(hits, who, now - window);
    if recent == [] then 0 else RetryAfter(recent, now, window)
  }

  predicate Held(v: Voucher, device: nat, since: int) {
    v.stage.Issued? && v.stage.device == device && v.stage.at > since
  }

  /** Replays and limits protect the issuance window; without one, every request proceeds. */
  function GateOf(p: Policy, rows: seq<Voucher>, ipHits: seq<Hit>, deviceHits: seq<Hit>,
                  ip: nat, device: nat, now: Time): Gate
  {
    if p.window == 0 then Proceed
    else if exists v :: v in rows && Held(v, device, now - p.ttl) then Replay
    else
      var hint := Max(HintOf(ipHits, ip, now, p.window), HintOf(deviceHits, device, now, p.window));
      if hint > 0 then RateLimited(hint) else Proceed
  }

  // ------------------------------------------------------------------ maintenance

  /** A reservation past its time is recycled, unless the voucher was claimed or nobody can tell. */
  function Recycle(p: Policy, v: Voucher, claimed: Option<bool>, now: Time): Voucher {
    if !(v.stage.Issued? && v.stage.at <= now - p.ttl) then v else
    match claimed
    case None => v
    case Some(yes) => v.(stage := if yes then Claimed else Available)
  }

  function Advance(v: Voucher, status: ChainStatus, verdict: Verdict): Voucher {
    if !(v.stage.BroadcastUnknown? || v.stage.AwaitingChainLock?) then v
    else if status == Known(true) then v.(stage := Available)
    else if v.stage.BroadcastUnknown? && status.Unknown? then
      match verdict
      case Live(_) => v.(stage := AwaitingChainLock)
      case StaleInputs => v.(stage := Failed)
      case CleanlyRejected => v.(stage := Failed)
      case _ => v
    else v
  }

  function Maintained(p: Policy, v: Voucher, step: Step): Voucher
    requires step.Maintain?
  {
    if v.stage.Issued? then Recycle(p, v, step.claimed(v.id), step.now)
    else Advance(v, step.chain(v.id), step.verdicts(v.id))
  }

  function MaintainedAll(p: Policy, rows: seq<Voucher>, step: Step): (r: seq<Voucher>)
    requires step.Maintain?
    ensures |r| == |rows| && forall i :: 0 <= i < |r| ==> r[i] == Maintained(p, rows[i], step)
  {
    seq(|rows|, i requires 0 <= i < |rows| => Maintained(p, rows[i], step))
  }

  /** Both maintenance loops over the table, updating each row in place. */
  method MaintainRows(p: Policy, table: array<Voucher>, step: Step)
    requires step.Maintain?
    modifies table
    ensures table[..] == MaintainedAll(p, old(table[..]), step)
  {
    ghost var before := table[..];
    for i := 0 to table.Length
      invariant forall k :: 0 <= k < i ==>
        table[k] ==
          if before[k].stage.Issued? then Recycle(p, before[k], step.claimed(before[k].id), step.now) else before[k]
      invariant forall k :: i <= k < table.Length ==> table[k] == before[k]
    {
      if table[i].stage.Issued? {
        table[i] := Recycle(p, table[i], step.claimed(table[i].id), step.now);
      }
    }
    for i := 0 to table.Length
      invariant forall k :: 0 <= k < i ==> table[k] == Maintained(p, before[k], step)
      invariant forall k :: i <= k < table.Length ==>
        table[k] ==
          if before[k].stage.Issued? then Recycle(p, before[k], step.claimed(before[k].id), step.now) else before[k]
    {
      if table[i].stage.BroadcastUnknown? || table[i].stage.AwaitingChainLock? {
        table[i] := Advance(table[i], step.chain(table[i].id), step.verdicts(table[i].id));
      }
    }
  }

  /**
   * Row by row, what maintenance does. A reservation past its time becomes
   * available exactly when Platform says nobody claimed it, claimed exactly when
   * it says somebody did, and stays exactly when Platform cannot tell; one still
   * running stays. A voucher on its way becomes available exactly on its
   * ChainLock; one whose broadcast settled nothing, and which Core does not
   * know, goes by its new broadcast. Nothing else changes.
   */
  lemma MaintainTable(p: Policy, rows: seq<Voucher>, step: Step, i: nat)
    requires step.Maintain? && i < |rows|
    ensures var v, v' := rows[i], MaintainedAll(p, rows, step)[i];
      && v'.id == v.id && v'.amount == v.amount
      && (v.stage.Issued? && v.stage.at + p.ttl <= step.now ==>
            && (v'.stage.Available? <==> step.claimed(v.id) == Some(false))
            && (v'.stage.Claimed? <==> step.claimed(v.id) == Some(true))
            && (v' == v <==> step.claimed(v.id) == None))
      && (v.stage.Issued? && v.stage.at + p.ttl > step.now ==> v' == v)
      && (v.stage.AwaitingChainLock? ==>
            && (v'.stage.Available? <==> step.chain(v.id) == Known(true))
            && (v' == v <==> step.chain(v.id) != Known(true)))
      && (v.stage.BroadcastUnknown? ==>
            var again, verdict := step.chain(v.id) == Unknown, step.verdicts(v.id);
            && (v'.stage.Available? <==> step.chain(v.id) == Known(true))
            && (v'.stage.AwaitingChainLock? <==> again && verdict.Live?)
            && (v'.stage.Failed? <==> again && (verdict.StaleInputs? || verdict.CleanlyRejected?))
            && (v' == v <==> step.chain(v.id) != Known(true) && (again ==> verdict.Unresolved? || verdict.NoRelays?)))
      && (v.stage.Available? || v.stage.Claimed? || v.stage.Failed? ==> v' == v)
  {
  }

  // ------------------------------------------------------------------ steps

  function Stamp(ids: seq<nat>, now: Time): (r: seq<Issuance>)
    ensures |r| == |ids| && forall i :: 0 <= i < |r| ==> r[i] == Issuance(ids[i], now)
  {
    seq(|ids|, i requires 0 <= i < |ids| => Issuance(ids[i], now))
  }

  function Swept(p: Policy, s: State, now: Time): State {
    s.(clock := now, ipHits := Prune(s.ipHits, now - p.window), deviceHits := Prune(s.deviceHits, now - p.window))
  }

  function NewlyLocked(rows: seq<Voucher>, chain: nat -> ChainStatus): set<nat> {
    set v | v in rows && (v.stage.BroadcastUnknown? || v.stage.AwaitingChainLock?) && chain(v.id) == Known(true) :: v.id
  }

  function Apply(p: Policy, s0: State, step: Step): State {
    var s := Swept(p, s0, step.now);
    match step
    case Mint(now, id, amount, verdict) => s.(rows := s.rows + Minted(id, amount, Broadcasted(verdict)))
    case Issue(now, ip, device, answers, _, cut) =>
      if GateOf(p, s.rows, s.ipHits, s.deviceHits, ip, device, now).Proceed? && cut <= |s.rows| then
        var ids := Opened(s.rows, cut, p.amount, answers);
        var t := s.(rows := Handled(s.rows, cut, p.amount, answers, device, now), issues := s.issues + Stamp(ids, now));
        if ids == [] then t
        else t.(ipHits := t.ipHits + [Hit(ip, now)], deviceHits := t.deviceHits + [Hit(device, now)],
                ipLog := t.ipLog + [Hit(ip, now)], deviceLog := t.deviceLog + [Hit(device, now)])
      else s
    case Maintain(now, claimed, chain, verdicts) =>
      s.(rows := MaintainedAll(p, s.rows, step), locked := s.locked + NewlyLocked(s.rows, chain))
  }

  /** How many vouchers a request may have. */
  function BatchSize(p: Policy, wanted: Option<nat>): nat {
    Max(1, Min(if wanted.Some? then wanted.value else 1, p.maxPerRequest))
  }

  ghost predicate Allowed(p: Policy, s: State, step: Step) {
    && s.clock <= step.now
    && (step.Issue? ==> BatchCut(s.rows, step.cut, BatchSize(p, step.wanted), p.amount, step.answers))
    && (step.Mint? ==>
          && (forall v :: v in s.rows ==> v.id != step.id)
          && forall i :: 0 <= i < |s.issues| ==> s.issues[i].id != step.id)
  }

  function Reach(p: Policy, steps: seq<Step>): State {
    if steps == [] then START else Apply(p, Reach(p, steps[..|steps| - 1]), steps[|steps| - 1])
  }

  ghost predicate Run(p: Policy, steps: seq<Step>) {
    steps == [] || (Run(p, steps[..|steps| - 1]) && Allowed(p, Reach(p, steps[..|steps| - 1]), steps[|steps| - 1]))
  }

  // ------------------------------------------------------------------ reservations

  ghost predicate UniqueIds(rows: seq<Voucher>) {
    forall i, j :: 0 <= i < j < |rows| ==> rows[i].id != rows[j].id
  }

  /** What a row's stage says of its past. */
  ghost predicate RowSound(p: Policy, s: State, v: Voucher) {
    && (v.stage.Available? || v.stage.Issued? || v.stage.Claimed? ==> v.id in s.locked)
    && (v.stage.Available? ==>
          forall k :: 0 <= k < |s.issues| && s.issues[k].id == v.id ==> s.issues[k].at + p.ttl <= s.clock)
    && (v.stage.Issued? ==> v.stage.at <= s.clock)
    && (v.stage.Issued? ==> forall k :: 0 <= k < |s.issues| && s.issues[k].id == v.id ==> s.issues[k].at <= v.stage.at)
    && (v.stage.BroadcastUnknown? || v.stage.AwaitingChainLock? ==>
          forall k :: 0 <= k < |s.issues| ==> s.issues[k].id != v.id)
  }

  ghost predicate Spaced(p: Policy, issues: seq<Issuance>) {
    forall i, j :: 0 <= i < j < |issues| && issues[i].id == issues[j].id ==> issues[i].at + p.ttl <= issues[j].at
  }

  ghost predicate Reserved(p: Policy, s: State) {
    && UniqueIds(s.rows)
    && (forall v :: v in s.rows ==> RowSound(p, s, v))
    && Spaced(p, s.issues)
  }

  /** Row i is the examined candidate that was opened under this id. */
  predicate OpenedAt(rows: seq<Voucher>, cut: nat, amount: nat, answers: nat -> Answer, i: nat, id: nat) {
    i < cut <= |rows| && rows[i].id == id && Candidate(rows[i], amount) && answers(id).Opens?
  }

  lemma {:induction false} OpenedRow(rows: seq<Voucher>, cut: nat, amount: nat, answers: nat -> Answer, k: nat)
    returns (i: nat)
    requires cut <= |rows| && k < |Opened(rows, cut, amount, answers)|
    ensures OpenedAt(rows, cut, amount, answers, i, Opened(rows, cut, amount, answers)[k])
  {
    if k < |Opened(rows, cut - 1, amount, answers)| {
      i := OpenedRow(rows, cut - 1, amount, answers, k);
    } else {
      i := cut - 1;
    }
  }

  lemma {:induction false} OpenedDistinct(rows: seq<Voucher>, cut: nat, amount: nat, answers: nat -> Answer)
    requires cut <= |rows| && UniqueIds(rows)
    ensures Distinct(Opened(rows, cut, amount, answers))
  {
    if cut > 0 {
      OpenedDistinct(rows, cut - 1, amount, answers);
      var before := Opened(rows, cut - 1, amount, answers);
      forall k | 0 <= k < |before| ensures before[k] != rows[cut - 1].id {
        var i := OpenedRow(rows, cut - 1, amount, answers, k);
      }
    }
  }

  lemma SweptReserved(p: Policy, s: State, now: Time)
    requires Reserved(p, s) && s.clock <= now
    ensures Reserved(p, Swept(p, s, now))
  {
    var s' := Swept(p, s, now);
    forall v | v in s'.rows ensures RowSound(p, s', v) {
      assert RowSound(p, s, v);
    }
  }

  lemma MintReserved(p: Policy, s: State, v: Voucher)
    requires Reserved(p, s) && (forall w :: w in s.rows ==> w.id != v.id)
    requires forall k :: 0 <= k < |s.issues| ==> s.issues[k].id != v.id
    requires !v.stage.Available? && !v.stage.Issued? && !v.stage.Claimed?
    ensures Reserved(p, s.(rows := s.rows + [v]))
  {
    var s' := s.(rows := s.rows + [v]);
    forall w | w in s'.rows ensures RowSound(p, s', w) {
      assert w == v || RowSound(p, s, w);
    }
    forall i | 0 <= i < |s.rows| ensures s.rows[i].id != v.id {
      assert s.rows[i] in s.rows;
    }
  }

  /** A voucher handed out was available, so every earlier reservation of it is over. */
  lemma IssueReserved(p: Policy, s: State, cut: nat, answers: nat -> Answer, device: nat)
    requires Reserved(p, s) && cut <= |s.rows|
    ensures Reserved(p, s.(rows := Handled(s.rows, cut, p.amount, answers, device, s.clock),
                          issues := s.issues + Stamp(Opened(s.rows, cut, p.amount, answers), s.clock)))
  {
    var ids := Opened(s.rows, cut, p.amount, answers);
    var stamped := Stamp(ids, s.clock);
    var s' := s.(rows := Handled(s.rows, cut, p.amount, answers, device, s.clock), issues := s.issues + stamped);
    OpenedDistinct(s.rows, cut, p.amount, answers);
    IssueSpaced(p, s, cut, answers);
    forall i | 0 <= i < |s.rows| ensures s'.rows[i].id == s.rows[i].id && RowSound(p, s', s'.rows[i]) {
      assert s.rows[i] in s.rows && RowSound(p, s, s.rows[i]);
      IssueRow(p, s, s', i, cut, answers, device);
    }
  }

  lemma IssueRow(p: Policy, s: State, s': State, i: nat, cut: nat, answers: nat -> Answer, device: nat)
    requires cut <= |s.rows| && i < |s.rows| && UniqueIds(s.rows) && RowSound(p, s, s.rows[i])
    requires forall v :: v in s.rows ==> RowSound(p, s, v)
    requires s'.rows == Handled(s.rows, cut, p.amount, answers, device, s.clock)
    requires s'.issues == s.issues + Stamp(Opened(s.rows, cut, p.amount, answers), s.clock)
    requires s'.clock == s.clock && s'.locked == s.locked
    ensures s'.rows[i].id == s.rows[i].id && RowSound(p, s', s'.rows[i])
  {
    var ids := Opened(s.rows, cut, p.amount, answers);
    var v, v' := s.rows[i], s'.rows[i];
    OpenedDistinct(s.rows, cut, p.amount, answers);
    forall k | |s.issues| <= k < |s'.issues| && s'.issues[k].id == v.id
      ensures s'.issues[k].at == s.clock && v'.stage.Issued? && v'.stage.at == s.clock
    {
      var m := k - |s.issues|;
      assert s'.issues[k] == Issuance(ids[m], s.clock);
      var j := OpenedRow(s.rows, cut, p.amount, answers, m);
      assert i == j;
    }
    forall k | 0 <= k < |s.issues| && s.issues[k].id == v.id ensures v.stage.Available? ==> s.issues[k].at <= s.clock {
    }
  }

  lemma IssueSpaced(p: Policy, s: State, cut: nat, answers: nat -> Answer)
    requires Reserved(p, s) && cut <= |s.rows|
    ensures Spaced(p, s.issues + Stamp(Opened(s.rows, cut, p.amount, answers), s.clock))
  {
    var ids := Opened(s.rows, cut, p.amount, answers);
    var all := s.issues + Stamp(ids, s.clock);
    OpenedDistinct(s.rows, cut, p.amount, answers);
    forall i, j | 0 <= i < j < |all| && all[i].id == all[j].id ensures all[i].at + p.ttl <= all[j].at {
      if j >= |s.issues| {
        var m := j - |s.issues|;
        assert all[j] == Issuance(ids[m], s.clock);
        if i < |s.issues| {
          var k := OpenedRow(s.rows, cut, p.amount, answers, m);
          assert s.rows[k] in s.rows && RowSound(p, s, s.rows[k]);
        }
      }
    }
  }

  lemma MaintainReserved(p: Policy, s: State, step: Step)
    requires Reserved(p, s) && step.Maintain? && step.now == s.clock
    ensures Reserved(p, s.(rows := MaintainedAll(p, s.rows, step),
                          locked := s.locked + NewlyLocked(s.rows, step.chain)))
  {
    var s' := s.(rows := MaintainedAll(p, s.rows, step), locked := s.locked + NewlyLocked(s.rows, step.chain));
    forall i | 0 <= i < |s.rows| ensures s'.rows[i].id == s.rows[i].id && RowSound(p, s', s'.rows[i]) {
      var v := s.rows[i];
      assert v in s.rows && RowSound(p, s, v);
    }
  }

  lemma StepReserved(p: Policy, s: State, step: Step)
    requires Reserved(p, s) && Allowed(p, s, step)
    ensures Reserved(p, Apply(p, s, step))
  {
    hide Reserved, GateOf, Handled, Opened, MaintainedAll, Prune;
    SweptReserved(p, s, step.now);
    var t := Swept(p, s, step.now);
    match step
    case Mint(now, id, amount, verdict) => MintReserved(p, t, Voucher(id, amount, MintStage(verdict)));
    case Issue(now, ip, device, answers, _, cut) =>
      if cut <= |t.rows| {
        IssueReserved(p, t, cut, answers, device);
        ReservedFrame(p, t.(rows := Handled(t.rows, cut, p.amount, answers, device, now),
                            issues := t.issues + Stamp(Opened(t.rows, cut, p.amount, answers), now)),
                      Apply(p, s, step));
      }
      ReservedFrame(p, t, Apply(p, s, step));
    case Maintain(_, _, _, _) => MaintainReserved(p, t, step);
  }

  /** Hit tables play no part in reservations. */
  lemma ReservedFrame(p: Policy, s: State, s': State)
    requires Reserved(p, s)
    ensures s'.rows == s.rows && s'.issues == s.issues && s'.clock == s.clock && s'.locked == s.locked ==>
      Reserved(p, s')
  {
    if s'.rows == s.rows && s'.issues == s.issues && s'.clock == s.clock && s'.locked == s.locked {
      forall v | v in s'.rows ensures RowSound(p, s', v) {
        assert RowSound(p, s, v);
      }
    }
  }

  // ------------------------------------------------------------------ issuance windows

  ghost predicate Apart(log: seq<Hit>, window: nat) {
    forall i, j :: 0 <= i < j < |log| && log[i].who == log[j].who ==> log[i].at + window <= log[j].at
  }

  /** The pruned hits are the tail of a log whose hits by one party are a window apart. */
  ghost predicate Tracked(hits: seq<Hit>, log: seq<Hit>, clock: Time, window: nat) {
    && hits == Prune(log, clock - window)
    && Apart(log, window)
    && forall i :: 0 <= i < |log| ==> log[i].at <= clock
  }

  lemma NoneRecent(log: seq<Hit>, who: nat, since: int)
    requires Recent(log, who, since) == []
    ensures forall i :: 0 <= i < |log| && log[i].who == who ==> log[i].at <= since
  {
    FilterIn(log, (h: Hit) => h.who == who && h.at > since);
    forall i | 0 <= i < |log| && log[i].who == who ensures log[i].at <= since {
      assert log[i] in log && log[i] !in Recent(log, who, since);
    }
  }

  lemma SweptTracked(hits: seq<Hit>, log: seq<Hit>, clock: Time, now: Time, window: nat)
    requires Tracked(hits, log, clock, window) && clock <= now
    ensures Tracked(Prune(hits, now - window), log, now, window)
  {
    PruneTwice(log, clock - window, now - window);
  }

  lemma HitTracked(hits: seq<Hit>, log: seq<Hit>, now: Time, window: nat, who: nat)
    requires Tracked(hits, log, now, window) && (window > 0 ==> HintOf(hits, who, now, window) == 0)
    ensures Tracked(hits + [Hit(who, now)], log + [Hit(who, now)], now, window)
  {
    var h := Hit(who, now);
    FilterConcat(log, [h], (h: Hit) => h.at >= now - window);
    if window > 0 {
      PruneInvisible(log, who, now - window, now - window);
      NoneRecent(log, who, now - window);
    }
  }

  lemma StepTracked(p: Policy, s: State, step: Step)
    requires Tracked(s.ipHits, s.ipLog, s.clock, p.window) && Tracked(s.deviceHits, s.deviceLog, s.clock, p.window)
    requires s.clock <= step.now
    ensures var s' := Apply(p, s, step);
      Tracked(s'.ipHits, s'.ipLog, s'.clock, p.window) && Tracked(s'.deviceHits, s'.deviceLog, s'.clock, p.window)
  {
    hide Tracked, Prune, HintOf, Handled, Opened, MaintainedAll;
    SweptTracked(s.ipHits, s.ipLog, s.clock, step.now, p.window);
    SweptTracked(s.deviceHits, s.deviceLog, s.clock, step.now, p.window);
    var t := Swept(p, s, step.now);
    if step.Issue? && GateOf(p, t.rows, t.ipHits, t.deviceHits, step.ip, step.device, step.now).Proceed? {
      HitTracked(t.ipHits, t.ipLog, step.now, p.window, step.ip);
      HitTracked(t.deviceHits, t.deviceLog, step.now, p.window, step.device);
    }
  }

  lemma {:induction false} RunReserved(p: Policy, steps: seq<Step>)
    requires Run(p, steps)
    ensures var s := Reach(p, steps);
      && Reserved(p, s)
      && Tracked(s.ipHits, s.ipLog, s.clock, p.window) && Tracked(s.deviceHits, s.deviceLog, s.clock, p.window)
  {
    if steps != [] {
      hide Reserved, Tracked, Apply;
      RunReserved(p, steps[..|steps| - 1]);
      StepReserved(p, Reach(p, steps[..|steps| - 1]), steps[|steps| - 1]);
      StepTracked(p, Reach(p, steps[..|steps| - 1]), steps[|steps| - 1]);
    }
  }

  /**
   * Reservations are exclusive in every run: a voucher is open to people, or
   * claimed by one, only after its ChainLock; two issuances of the same voucher
   * are at least a reservation apart.
   */
  lemma VouchersExclusive(p: Policy, steps: seq<Step>)
    requires Run(p, steps)
    ensures var s := Reach(p, steps);
      && (forall v :: v in s.rows && (v.stage.Available? || v.stage.Issued? || v.stage.Claimed?) ==> v.id in s.locked)
      && (forall i, j :: 0 <= i < j < |s.issues| && s.issues[i].id == s.issues[j].id ==>
            s.issues[j].at - s.issues[i].at >= p.ttl)
  {
    hide Reach, Run, Tracked;
    RunReserved(p, steps);
    var s := Reach(p, steps);
    forall v | v in s.rows && (v.stage.Available? || v.stage.Issued? || v.stage.Claimed?) ensures v.id in s.locked {
      assert RowSound(p, s, v);
    }
  }

  /** Rows are never dropped or renamed, and no step leaves `claimed` or `failed`. */
  lemma StepKeepsEnds(p: Policy, s: State, step: Step)
    ensures var s' := Apply(p, s, step);
      && |s.rows| <= |s'.rows|
      && forall i :: 0 <= i < |s.rows| ==>
           s'.rows[i].id == s.rows[i].id
           && (s.rows[i].stage.Claimed? || s.rows[i].stage.Failed? ==> s'.rows[i] == s.rows[i])
  {
    hide GateOf, Prune, Opened;
  }

  /** Spent and broken vouchers stay so for the rest of any run. */
  lemma {:induction false} EndsAreFinal(p: Policy, steps: seq<Step>, n: nat, i: nat)
    requires Run(p, steps) && n <= |steps| && i < |Reach(p, steps[..n]).rows|
    ensures i < |Reach(p, steps).rows| && Reach(p, steps).rows[i].id == Reach(p, steps[..n]).rows[i].id
    ensures var v := Reach(p, steps[..n]).rows[i];
      v.stage.Claimed? || v.stage.Failed? ==> Reach(p, steps).rows[i] == v
    decreases |steps|
  {
    if n == |steps| {
      assert steps[..n] == steps;
    } else {
      hide Apply;
      var before := steps[..|steps| - 1];
      assert before[..n] == steps[..n];
      EndsAreFinal(p, before, n, i);
      StepKeepsEnds(p, Reach(p, before), steps[|steps| - 1]);
    }
  }

  /** Row i was available, is in the batch under this id, and is reserved to the device afterwards. */
  predicate HandedOut(rows: seq<Voucher>, after: seq<Voucher>, i: nat, id: nat, device: nat, now: Time) {
    && i < |rows| == |after| && rows[i].id == id && rows[i].stage.Available?
    && after[i] == rows[i].(stage := Issued(device, now))
  }

  ghost predicate Reserves(rows: seq<Voucher>, after: seq<Voucher>, id: nat, device: nat, now: Time) {
    exists i :: HandedOut(rows, after, i, id, device, now)
  }

  lemma BatchRows(rows: seq<Voucher>, cut: nat, amount: nat, answers: nat -> Answer, device: nat, now: Time)
    requires UniqueIds(rows) && cut <= |rows|
    ensures Distinct(Opened(rows, cut, amount, answers))
    ensures forall id :: id in Opened(rows, cut, amount, answers) ==>
      Reserves(rows, Handled(rows, cut, amount, answers, device, now), id, device, now) && answers(id).Opens?
  {
    var ids := Opened(rows, cut, amount, answers);
    var after := Handled(rows, cut, amount, answers, device, now);
    OpenedDistinct(rows, cut, amount, answers);
    forall id | id in ids ensures Reserves(rows, after, id, device, now) && answers(id).Opens? {
      var k :| 0 <= k < |ids| && ids[k] == id;
      var i := OpenedRow(rows, cut, amount, answers, k);
      assert HandedOut(rows, after, i, id, device, now);
    }
  }

  /** One batch hands out distinct vouchers, each available just before and reserved to the caller just after. */
  lemma BatchDistinct(p: Policy, steps: seq<Step>, cut: nat, answers: nat -> Answer, device: nat, now: Time)
    requires Run(p, steps) && cut <= |Reach(p, steps).rows|
    ensures var rows := Reach(p, steps).rows;
      var ids := Opened(rows, cut, p.amount, answers);
      var after := Handled(rows, cut, p.amount, answers, device, now);
      && Distinct(ids)
      && forall id :: id in ids ==> Reserves(rows, after, id, device, now) && answers(id).Opens?
  {
    hide Reach, Run, Tracked, Opened, Handled, Reserves;
    RunReserved(p, steps);
    BatchRows(Reach(p, steps).rows, cut, p.amount, answers, device, now);
  }

  /**
   * The pruned hit table gates every request exactly as the full log would, and
   * accepted batches of one IP, or of one device, are a whole window apart.
   */
  lemma IssuanceWindows(p: Policy, steps: seq<Step>, ip: nat, device: nat, now: Time)
    requires Run(p, steps) && Reach(p, steps).clock <= now
    ensures var s := Swept(p, Reach(p, steps), now);
      && GateOf(p, s.rows, s.ipHits, s.deviceHits, ip, device, now)
           == GateOf(p, s.rows, s.ipLog, s.deviceLog, ip, device, now)
      && Apart(s.ipLog, p.window) && Apart(s.deviceLog, p.window)
  {
    hide Reach, Run, Reserved;
    RunReserved(p, steps);
    var s := Reach(p, steps);
    SweptTracked(s.ipHits, s.ipLog, s.clock, now, p.window);
    SweptTracked(s.deviceHits, s.deviceLog, s.clock, now, p.window);
    PruneInvisible(s.ipLog, ip, now - p.window, now - p.window);
    PruneInvisible(s.deviceLog, device, now - p.window, now - p.window);
  }

  /** Hits of one party a window apart leave at most one of them recent. */
  lemma {:induction false} OneRecent(log: seq<Hit>, who: nat, now: Time, window: nat)
    requires Apart(log, window) && forall i :: 0 <= i < |log| ==> log[i].at <= now
    ensures |Recent(log, who, now - window)| <= 1
  {
    if log != [] {
      var rest := log[1..];
      assert forall i :: 0 <= i < |rest| ==> rest[i] == log[i + 1];
      OneRecent(rest, who, now, window);
      if log[0].who == who && log[0].at > now - window {
        NoneAfter(log, who, now, window);
      }
    }
  }

  lemma NoneAfter(log: seq<Hit>, who: nat, now: Time, window: nat)
    requires log != [] && Apart(log, window) && forall i :: 0 <= i < |log| ==> log[i].at <= now
    requires log[0].who == who && log[0].at > now - window
    ensures Recent(log[1..], who, now - window) == []
  {
    forall h | h in log[1..] ensures !(h.who == who && h.at > now - window) {
      var i :| 0 <= i < |log[1..]| && log[1..][i] == h;
      assert log[i + 1] == h;
    }
    FilterNone(log[1..], (h: Hit) => h.who == who && h.at > now - window);
  }

  /** After one party's hint its limit is open again. */
  lemma HintOver(log: seq<Hit>, who: nat, now: Time, window: nat, later: Time)
    requires Apart(log, window) && forall i :: 0 <= i < |log| ==> log[i].at <= now
    requires later >= now + 1000 * HintOf(log, who, now, window)
    ensures HintOf(log, who, later, window) == 0
  {
    hide Recent, RetryAfter;
    OneRecent(log, who, now, window);
    if Recent(log, who, now - window) == [] {
      FewerRecent(log, who, now - window, later - window);
    } else {
      RetryOpens(log, who, now, window, 1, later);
    }
  }

  /**
   * A rate-limited request that comes back after the hinted wait, with no other
   * batch in between, is not rate limited again.
   */
  lemma BatchRetryOpens(p: Policy, steps: seq<Step>, ip: nat, device: nat, now: Time, later: Time)
    requires Run(p, steps) && Reach(p, steps).clock <= now
    requires var s := Swept(p, Reach(p, steps), now);
      && GateOf(p, s.rows, s.ipHits, s.deviceHits, ip, device, now).RateLimited?
      && later >= now + 1000 * GateOf(p, s.rows, s.ipHits, s.deviceHits, ip, device, now).retryAfter
    ensures var s := Swept(p, Reach(p, steps), later);
      !GateOf(p, s.rows, s.ipHits, s.deviceHits, ip, device, later).RateLimited?
  {
    hide Reach, Run, Reserved, HintOf, Prune, Apart;
    RunReserved(p, steps);
    var s := Reach(p, steps);
    IssuanceWindows(p, steps, ip, device, now);
    IssuanceWindows(p, steps, ip, device, later);
    HintOver(s.ipLog, ip, now, p.window, later);
    HintOver(s.deviceLog, device, now, p.window, later);
  }

  // ------------------------------------------------------------------ batch sizes

  /** Every accepted batch hands out at most `maxPerRequest` vouchers, or one. */
  lemma {:induction false} BatchesBounded(p: Policy, steps: seq<Step>)
    requires Run(p, steps)
    ensures |Reach(p, steps).issues| <= Max(1, p.maxPerRequest) * |Reach(p, steps).ipLog|
  {
    if steps != [] {
      hide Reach, Opened, Handled, DownAmong, GateOf, Prune, MaintainedAll;
      var before, step := steps[..|steps| - 1], steps[|steps| - 1];
      BatchesBounded(p, before);
      OneBatch(p, Reach(p, before), step);
      ReachLast(p, steps);
    }
  }

  /**
   * With the explorer up, an issuance that is let through hands out as many
   * vouchers as were asked for, at least one and at most `maxPerRequest`, or
   * every voucher that opens if those are fewer.
   */
  lemma IssueFills(p: Policy, s: State, step: Step)
    requires Allowed(p, s, step) && step.Issue?
    requires Admitted(p, s, step)
    requires forall v :: v in s.rows ==> !step.answers(v.id).ExplorerDown?
    ensures var asked := if step.wanted == None || step.wanted == Some(0) then 1 else step.wanted.value;
      |Apply(p, s, step).issues| - |s.issues| ==
        Min(Min(asked, Max(1, p.maxPerRequest)), |Filter(s.rows, (v: Voucher) =>
          v.stage.Available? && v.amount == p.amount && step.answers(v.id).Opens?)|)
  {
    hide Opened, Handled, GateOf, Prune;
    BatchFills(s.rows, step.cut, BatchSize(p, step.wanted), p.amount, step.answers);
  }

  /** A batch is charged to its IP and device, once, exactly when it hands out a voucher. */
  lemma IssueCharges(p: Policy, s: State, step: Step)
    requires step.Issue?
    ensures var s' := Apply(p, s, step);
      if |s'.issues| > |s.issues| then
        && s'.ipLog == s.ipLog + [Hit(step.ip, step.now)]
        && s'.deviceLog == s.deviceLog + [Hit(step.device, step.now)]
      else s'.issues == s.issues && s'.ipLog == s.ipLog && s'.deviceLog == s.deviceLog
  {
    hide Opened, Handled, GateOf, Prune;
  }

  /** The gate lets an issuance through, on the tables as pruned for it. */
  predicate Admitted(p: Policy, s: State, step: Step)
    requires step.Issue?
  {
    var t := Swept(p, s, step.now);
    GateOf(p, t.rows, t.ipHits, t.deviceHits, step.ip, step.device, step.now).Proceed?
  }

  lemma ReachLast(p: Policy, steps: seq<Step>)
    requires steps != []
    ensures Reach(p, steps) == Apply(p, Reach(p, steps[..|steps| - 1]), steps[|steps| - 1])
  {
  }

  lemma OneBatch(p: Policy, s: State, step: Step)
    requires Allowed(p, s, step) && |s.issues| <= Max(1, p.maxPerRequest) * |s.ipLog|
    ensures var s' := Apply(p, s, step);
      && |s'.issues| <= |s.issues| + Max(1, p.maxPerRequest)
      && |s'.issues| <= Max(1, p.maxPerRequest) * |s'.ipLog|
  {
    hide Opened, Handled, DownAmong, GateOf, Prune, MaintainedAll;
    var m, n := Max(1, p.maxPerRequest), |s.ipLog|;
    assert m * (n + 1) == m * n + m;
  }

  // ------------------------------------------------------------------ the gate, spelled out

  ghost predicate SomeHit(hits: seq<Hit>, who: nat, since: int) {
    exists h :: h in hits && h.who == who && h.at > since
  }

  lemma HintIff(hits: seq<Hit>, who: nat, now: Time, window: nat)
    ensures HintOf(hits, who, now, window) > 0 <==> SomeHit(hits, who, now - window)
  {
    hide RetryAfter;
    var recent := Recent(hits, who, now - window);
    FilterIn(hits, (h: Hit) => h.who == who && h.at > now - window);
    if recent != [] {
      assert recent[0] in recent;
    }
  }

  /**
   * With a window, a device holding an unexpired reservation is shown it again;
   * otherwise the request is limited exactly when its IP or its device got a
   * batch within the window, and goes ahead exactly when neither did.
   */
  lemma GateIff(p: Policy, rows: seq<Voucher>, ipHits: seq<Hit>, deviceHits: seq<Hit>, ip: nat, device: nat, now: Time)
    ensures var g := GateOf(p, rows, ipHits, deviceHits, ip, device, now);
      var held := exists v :: v in rows && v.stage.Issued? && v.stage.device == device && v.stage.at + p.ttl > now;
      var hit := SomeHit(ipHits, ip, now - p.window) || SomeHit(deviceHits, device, now - p.window);
      && (g.Replay? <==> p.window > 0 && held)
      && (g.RateLimited? <==> p.window > 0 && !held && hit)
      && (g.Proceed? <==> p.window == 0 || (!held && !hit))
  {
    hide HintOf, SomeHit;
    HintIff(ipHits, ip, now, p.window);
    HintIff(deviceHits, device, now, p.window);
  }
}
