/**
 * The public limits of `payoutLocked` in src/treasury.ts: one claim per
 * address and day, hits per IP, and the daily budget, kept in tables that are
 * pruned as time passes.
 */
module Limits {
  import opened Coins
  import opened Windows

  datatype Tier = Soft | Turnstile | Hard

  datatype Policy = Policy(payoutSats: nat, dailyBudgetSats: nat, soft: nat, turnstile: nat, hard: nat) {
    function Ceiling(t: Tier): nat {
      match t
      case Soft => soft
      case Turnstile => turnstile
      case Hard => hard
    }
  }

  datatype Request = Request(address: nat, ip: nat, tier: Tier)

  datatype Claim = Claim(txid: Txid, sats: nat, at: Time)

  datatype Books = Books(claims: map<(nat, int), Claim>, hits: seq<Hit>, budget: map<int, nat>)

  datatype Decision =
    | Replay(txid: Txid, sats: nat)
    | RateLimited(retryAfter: nat)
    | BudgetExhausted(retryAfter: nat)
    | Admit

  /** Days since the epoch, UTC. */
  function Day(t: int): int {
    t / DAY_MS
  }

  function SpentOn(b: Books, day: int): nat {
    if day in b.budget then b.budget[day] else 0
  }

  function Pruned(b: Books, now: Time): Books {
    Books(
      map k | k in b.claims && b.claims[k].at >= now - 7 * DAY_MS :: b.claims[k],
      Prune(b.hits, now - HOUR_MS),
      map d | d in b.budget && d >= Day(now - 7 * DAY_MS) :: b.budget[d])
  }

  function UntilMidnight(now: Time): nat {
    AtLeastOne(CeilSeconds((Day(now) + 1) * DAY_MS - now))
  }

  function Decide(p: Policy, b: Books, r: Request, now: Time): Decision {
    var key := (r.address, Day(now));
    var recent := Recent(b.hits, r.ip, now - HOUR_MS);
    if key in b.claims then Replay(b.claims[key].txid, b.claims[key].sats)
    else if |recent| >= p.Ceiling(r.tier) then RateLimited(RetryAfter(recent, now, HOUR_MS))
    else if SpentOn(b, Day(now)) + p.payoutSats > p.dailyBudgetSats then BudgetExhausted(UntilMidnight(now))
    else Admit
  }

  function Commit(p: Policy, b: Books, r: Request, txid: Txid, now: Time): Books {
    Books(
      b.claims[(r.address, Day(now)) := Claim(txid, p.payoutSats, now)],
      b.hits + [Hit(r.ip, now)],
      b.budget[Day(now) := SpentOn(b, Day(now)) + p.payoutSats])
  }

  /** The actor's public tables, and the two halves of a payout around its broadcast. */
  class PublicBooks {
    var claims: map<(nat, int), Claim>
    var hits: seq<Hit>
    var budget: map<int, nat>

    function Value(): Books
      reads this
    {
      Books(claims, hits, budget)
    }

    constructor ()
      ensures Value() == Books(map[], [], map[])
    {
      claims, hits, budget := map[], [], map[];
    }

    method Check(p: Policy, r: Request, now: Time) returns (d: Decision)
      modifies this
      ensures Value() == Pruned(old(Value()), now)
      ensures d == Decide(p, Value(), r, now)
    {
      hits := Prune(hits, now - HOUR_MS);
      claims := map k | k in claims && claims[k].at >= now - 7 * DAY_MS :: claims[k];
      budget := map d | d in budget && d >= Day(now - 7 * DAY_MS) :: budget[d];
      var key := (r.address, Day(now));
      if key in claims {
        return Replay(claims[key].txid, claims[key].sats);
      }
      var recent := Recent(hits, r.ip, now - HOUR_MS);
      if |recent| >= p.Ceiling(r.tier) {
        return RateLimited(RetryAfter(recent, now, HOUR_MS));
      }
      var spent := if Day(now) in budget then budget[Day(now)] else 0;
      if spent + p.payoutSats > p.dailyBudgetSats {
        return BudgetExhausted(UntilMidnight(now));
      }
      return Admit;
    }

    method Record(p: Policy, r: Request, txid: Txid, now: Time)
      modifies this
      ensures Value() == Commit(p, old(Value()), r, txid, now)
    {
      claims := claims[(r.address, Day(now)) := Claim(txid, p.payoutSats, now)];
      hits := hits + [Hit(r.ip, now)];
      if Day(now) in budget {
        budget := budget[Day(now) := budget[Day(now)] + p.payoutSats];
      } else {
        budget := budget[Day(now) := p.payoutSats];
      }
    }
  }

  // ------------------------------------------------------------------ the log

  /** One recorded public payout: the append-only history no table keeps. */
  datatype Paid = Paid(request: Request, txid: Txid, at: Time)

  function LogHits(log: seq<Paid>): (r: seq<Hit>)
    ensures |r| == |log| && forall i :: 0 <= i < |r| ==> r[i] == Hit(log[i].request.ip, log[i].at)
  {
    seq(|log|, i requires 0 <= i < |log| => Hit(log[i].request.ip, log[i].at))
  }

  /** How many payouts the log holds for a day. */
  function PaidOn(log: seq<Paid>, day: int): nat {
    if log == [] then 0
    else PaidOn(log[..|log| - 1], day) + if Day(log[|log| - 1].at) == day then 1 else 0
  }

  predicate IsClaim(p: Paid, address: nat, day: int) {
    p.request.address == address && Day(p.at) == day
  }

  function FindClaim(log: seq<Paid>, address: nat, day: int): Option<Paid> {
    if log == [] then None
    else if IsClaim(log[|log| - 1], address, day) then Some(log[|log| - 1])
    else FindClaim(log[..|log| - 1], address, day)
  }

  /** The same decision, taken from the complete history. */
  function DecideFromLog(p: Policy, log: seq<Paid>, r: Request, now: Time): Decision {
    var claim := FindClaim(log, r.address, Day(now));
    var recent := Recent(LogHits(log), r.ip, now - HOUR_MS);
    if claim.Some? then Replay(claim.value.txid, p.payoutSats)
    else if |recent| >= p.Ceiling(r.tier) then RateLimited(RetryAfter(recent, now, HOUR_MS))
    else if p.payoutSats * PaidOn(log, Day(now)) + p.payoutSats > p.dailyBudgetSats then
      BudgetExhausted(UntilMidnight(now))
    else Admit
  }

  // ------------------------------------------------------------------ runs

  datatype Step =
    /** A public payout; only an accepted broadcast of an admitted request is recorded. */
    | Pay(now: Time, request: Request, txid: Txid, accepted: bool)
    /** Any other locked operation, which prunes. */
    | Sweep(now: Time)

  datatype State = State(books: Books, clock: Time, log: seq<Paid>)

  const START: State := State(Books(map[], [], map[]), 0, [])

  function Apply(p: Policy, s: State, step: Step): State {
    var b := Pruned(s.books, step.now);
    match step
    case Sweep(now) => State(b, now, s.log)
    case Pay(now, r, txid, accepted) =>
      if accepted && Decide(p, b, r, now).Admit?
        then State(Commit(p, b, r, txid, now), now, s.log + [Paid(r, txid, now)])
        else State(b, now, s.log)
  }

  function Reach(p: Policy, steps: seq<Step>): State {
    if steps == [] then START else Apply(p, Reach(p, steps[..|steps| - 1]), steps[|steps| - 1])
  }

  /** The clock never goes back. */
  ghost predicate Run(steps: seq<Step>) {
    forall i, j :: 0 <= i < j < |steps| ==> steps[i].now <= steps[j].now
  }

  // ------------------------------------------------------------------ the tables refine the log

  /** The tables hold exactly what the log implies for every day and hour still looked back over. */
  ghost predicate Refines(p: Policy, s: State) {
    && s.books.hits == Prune(LogHits(s.log), s.clock - HOUR_MS)
    && (forall a: nat, d: int :: (a, d) in s.books.claims ==>
          FindClaim(s.log, a, d).Some? && ClaimOf(p, FindClaim(s.log, a, d).value) == s.books.claims[(a, d)])
    && (forall a: nat, d: int ::
          FindClaim(s.log, a, d).Some? && FindClaim(s.log, a, d).value.at >= s.clock - 7 * DAY_MS ==>
          (a, d) in s.books.claims)
    && (forall d :: d in s.books.budget ==> s.books.budget[d] == p.payoutSats * PaidOn(s.log, d))
    && (forall d :: d >= Day(s.clock - 7 * DAY_MS) && PaidOn(s.log, d) > 0 ==> d in s.books.budget)
    && (forall i :: 0 <= i < |s.log| ==> s.log[i].at <= s.clock)
  }

  function ClaimOf(p: Policy, paid: Paid): Claim {
    Claim(paid.txid, p.payoutSats, paid.at)
  }

  lemma {:induction false} FindClaimIs(log: seq<Paid>, address: nat, day: int)
    ensures match FindClaim(log, address, day)
      case None => forall i :: 0 <= i < |log| ==> !IsClaim(log[i], address, day)
      case Some(paid) => paid in log && IsClaim(paid, address, day)
  {
    if log != [] && !IsClaim(log[|log| - 1], address, day) {
      FindClaimIs(log[..|log| - 1], address, day);
    }
  }

  lemma DayMonotone(a: int, b: int)
    requires a <= b
    ensures Day(a) <= Day(b)
  {
  }

  lemma DayRecent(at: Time, now: Time)
    requires Day(at) == Day(now) && at <= now
    ensures at >= now - 7 * DAY_MS
  {
  }

  lemma ProductMonotone(k: nat, n: nat)
    ensures n == 0 ==> k * n == 0
    ensures k * (n + 1) == k * n + k
  {
  }

  lemma PrunedRefines(p: Policy, s: State, now: Time)
    requires Refines(p, s) && s.clock <= now
    ensures Refines(p, State(Pruned(s.books, now), now, s.log))
  {
    PruneTwice(LogHits(s.log), s.clock - HOUR_MS, now - HOUR_MS);
    DayMonotone(s.clock - 7 * DAY_MS, now - 7 * DAY_MS);
  }

  /** On freshly pruned tables, today's decision is the one the whole history gives. */
  lemma DecideRefines(p: Policy, s: State, r: Request)
    requires Refines(p, s)
    ensures Decide(p, s.books, r, s.clock) == DecideFromLog(p, s.log, r, s.clock)
  {
    var now := s.clock;
    PruneInvisible(LogHits(s.log), r.ip, now - HOUR_MS, now - HOUR_MS);
    FindClaimIs(s.log, r.address, Day(now));
    if FindClaim(s.log, r.address, Day(now)).Some? {
      DayRecent(FindClaim(s.log, r.address, Day(now)).value.at, now);
    }
    DayMonotone(now - 7 * DAY_MS, now);
    ProductMonotone(p.payoutSats, PaidOn(s.log, Day(now)));
  }

  lemma FindClaimSnoc(log: seq<Paid>, paid: Paid, address: nat, day: int)
    ensures FindClaim(log + [paid], address, day) ==
      if IsClaim(paid, address, day) then Some(paid) else FindClaim(log, address, day)
  {
    assert (log + [paid])[..|log|] == log;
  }

  lemma PaidOnSnoc(log: seq<Paid>, paid: Paid, day: int)
    ensures PaidOn(log + [paid], day) == PaidOn(log, day) + if Day(paid.at) == day then 1 else 0
  {
    assert (log + [paid])[..|log|] == log;
  }

  lemma CommitHits(log: seq<Paid>, paid: Paid)
    ensures Prune(LogHits(log + [paid]), paid.at - HOUR_MS) ==
      Prune(LogHits(log), paid.at - HOUR_MS) + [Hit(paid.request.ip, paid.at)]
  {
    var h := Hit(paid.request.ip, paid.at);
    assert LogHits(log + [paid]) == LogHits(log) + [h];
    FilterConcat(LogHits(log), [h], (h: Hit) => h.at >= paid.at - HOUR_MS);
    assert [h][1..] == [];
  }

  lemma CommitRefines(p: Policy, s: State, r: Request, txid: Txid)
    requires Refines(p, s)
    ensures Refines(p, State(Commit(p, s.books, r, txid, s.clock), s.clock, s.log + [Paid(r, txid, s.clock)]))
  {
    var paid := Paid(r, txid, s.clock);
    var s' := State(Commit(p, s.books, r, txid, s.clock), s.clock, s.log + [paid]);
    hide Prune, PaidOn, FindClaim, Day;
    CommitHits(s.log, paid);
    forall a: nat, d: int ensures FindClaim(s'.log, a, d) ==
      if IsClaim(paid, a, d) then Some(paid) else FindClaim(s.log, a, d)
    {
      FindClaimSnoc(s.log, paid, a, d);
    }
    forall d ensures PaidOn(s'.log, d) == PaidOn(s.log, d) + if Day(paid.at) == d then 1 else 0 {
      PaidOnSnoc(s.log, paid, d);
    }
    DayMonotone(s.clock - 7 * DAY_MS, s.clock);
    ProductMonotone(p.payoutSats, PaidOn(s.log, Day(s.clock)));
  }

  // ------------------------------------------------------------------ the limits

  /** The hits of the log, each with the ceiling its own proof was good for. */
  function Grants(p: Policy, log: seq<Paid>): (r: seq<Grant>)
    ensures |r| == |log|
    ensures forall i :: 0 <= i < |r| ==>
      r[i] == Grant(Hit(log[i].request.ip, log[i].at), p.Ceiling(log[i].request.tier))
  {
    seq(|log|, i requires 0 <= i < |log| => Grant(Hit(log[i].request.ip, log[i].at), p.Ceiling(log[i].request.tier)))
  }

  ghost predicate Within(p: Policy, log: seq<Paid>) {
    && Paced(Grants(p, log), HOUR_MS)
    && (forall d :: p.payoutSats * PaidOn(log, d) <= p.dailyBudgetSats)
    && forall i, j :: 0 <= i < j < |log| ==>
         !(log[i].request.address == log[j].request.address && Day(log[i].at) == Day(log[j].at))
  }

  lemma AdmitPaced(p: Policy, s: State, r: Request, txid: Txid)
    requires Refines(p, s) && Paced(Grants(p, s.log), HOUR_MS) && Decide(p, s.books, r, s.clock).Admit?
    ensures Paced(Grants(p, s.log + [Paid(r, txid, s.clock)]), HOUR_MS)
  {
    hide Paced;
    DecideRefines(p, s, r);
    assert Hits(Grants(p, s.log)) == LogHits(s.log);
    var g := Grant(Hit(r.ip, s.clock), p.Ceiling(r.tier));
    assert Grants(p, s.log + [Paid(r, txid, s.clock)]) == Grants(p, s.log) + [g];
    PacedSnoc(Grants(p, s.log), g, HOUR_MS);
  }

  lemma AdmitBudget(p: Policy, s: State, r: Request, txid: Txid, d: int)
    requires Refines(p, s) && Decide(p, s.books, r, s.clock).Admit?
    requires p.payoutSats * PaidOn(s.log, d) <= p.dailyBudgetSats
    ensures p.payoutSats * PaidOn(s.log + [Paid(r, txid, s.clock)], d) <= p.dailyBudgetSats
  {
    hide Refines, Recent;
    DecideRefines(p, s, r);
    PaidOnSnoc(s.log, Paid(r, txid, s.clock), d);
    ProductMonotone(p.payoutSats, PaidOn(s.log, d));
  }

  lemma AdmitOnce(p: Policy, s: State, r: Request)
    requires Refines(p, s) && Decide(p, s.books, r, s.clock).Admit?
    ensures forall i :: 0 <= i < |s.log| ==> !IsClaim(s.log[i], r.address, Day(s.clock))
  {
    hide Refines, Recent, Day;
    DecideRefines(p, s, r);
    FindClaimIs(s.log, r.address, Day(s.clock));
  }

  lemma AdmitWithin(p: Policy, s: State, r: Request, txid: Txid)
    requires Refines(p, s) && Within(p, s.log) && Decide(p, s.books, r, s.clock).Admit?
    ensures Within(p, s.log + [Paid(r, txid, s.clock)])
  {
    hide Refines, Paced, Decide, PaidOn, Day;
    var log' := s.log + [Paid(r, txid, s.clock)];
    AdmitPaced(p, s, r, txid);
    forall d ensures p.payoutSats * PaidOn(log', d) <= p.dailyBudgetSats {
      AdmitBudget(p, s, r, txid, d);
    }
    AdmitOnce(p, s, r);
    forall i, j | 0 <= i < j < |log'|
      ensures !(log'[i].request.address == log'[j].request.address && Day(log'[i].at) == Day(log'[j].at))
    {
      if j == |s.log| {
        assert !IsClaim(s.log[i], r.address, Day(s.clock));
      }
    }
  }

  lemma {:induction false} PaidOnNone(p: Policy, d: int)
    ensures p.payoutSats * PaidOn([], d) == 0
  {
  }

  lemma {:induction false} RunRefines(p: Policy, steps: seq<Step>)
    requires Run(steps)
    ensures Refines(p, Reach(p, steps)) && Within(p, Reach(p, steps).log)
    ensures steps != [] ==> Reach(p, steps).clock == steps[|steps| - 1].now
  {
    if steps == [] {
      forall d ensures p.payoutSats * PaidOn([], d) == 0 {
        PaidOnNone(p, d);
      }
      assert LogHits([]) == [];
    } else {
      hide Refines, Within, Pruned, Commit, Decide;
      var before, step := steps[..|steps| - 1], steps[|steps| - 1];
      assert Run(before);
      RunRefines(p, before);
      var s := Reach(p, before);
      if before != [] {
        assert steps[|before| - 1].now <= step.now;
      }
      PrunedRefines(p, s, step.now);
      var s' := State(Pruned(s.books, step.now), step.now, s.log);
      if step.Pay? && step.accepted && Decide(p, s'.books, step.request, step.now).Admit? {
        CommitRefines(p, s', step.request, step.txid);
        AdmitWithin(p, s', step.request, step.txid);
      }
    }
  }

  /**
   * The pruned tables refine the append-only history: after any run, whatever
   * request comes next, at whatever later time, the tables answer it (accept,
   * replay, refuse, and how long to wait) exactly as the full log would.
   */
  lemma TablesRefineLog(p: Policy, steps: seq<Step>, r: Request, now: Time)
    requires Run(steps) && Reach(p, steps).clock <= now
    ensures Decide(p, Pruned(Reach(p, steps).books, now), r, now) == DecideFromLog(p, Reach(p, steps).log, r, now)
  {
    hide Refines, Within, Pruned, Decide, DecideFromLog, Reach;
    RunRefines(p, steps);
    var s := Reach(p, steps);
    PrunedRefines(p, s, now);
    DecideRefines(p, State(Pruned(s.books, now), now, s.log), r);
  }

  /**
   * In every reachable state: the budget row of a day still on the books is
   * `payoutSats` times that day's recorded payouts, no day exceeds the budget,
   * and no address is paid twice on a day.
   */
  lemma PublicLimitsHold(p: Policy, steps: seq<Step>, day: int)
    requires Run(steps)
    ensures var s := Reach(p, steps);
      && (day in s.books.budget ==> s.books.budget[day] == p.payoutSats * PaidOn(s.log, day))
      && (day >= Day(s.clock - 7 * DAY_MS) && day !in s.books.budget ==> PaidOn(s.log, day) == 0)
      && p.payoutSats * PaidOn(s.log, day) <= p.dailyBudgetSats
      && (forall i, j :: 0 <= i < j < |s.log| && s.log[i].request.address == s.log[j].request.address ==>
            Day(s.log[i].at) != Day(s.log[j].at))
  {
    hide Paced, Reach, Day, PaidOn;
    RunRefines(p, steps);
  }

  /** The i-th payout of the log is the last of its IP in the hour that begins at `start`. */
  predicate LastOfHour(log: seq<Paid>, i: nat, ip: nat, start: int)
    requires i < |log|
  {
    && log[i].request.ip == ip && start <= log[i].at < start + HOUR_MS
    && forall j :: i < j < |log| ==> !(log[j].request.ip == ip && start <= log[j].at < start + HOUR_MS)
  }

  /** In any hour, wherever it starts, an IP has no more payouts than the ceiling of the last one accepted in it. */
  lemma IpHoursHold(p: Policy, steps: seq<Step>, ip: nat, start: int)
    requires Run(steps)
    ensures var log := Reach(p, steps).log;
      var hour := InWindow(LogHits(log), ip, start, HOUR_MS);
      hour != [] ==>
        exists i :: 0 <= i < |log| && LastOfHour(log, i, ip, start) && |hour| <= p.Ceiling(log[i].request.tier)
  {
    hide InWindow, Paced, Reach, Refines;
    RunRefines(p, steps);
    var log := Reach(p, steps).log;
    var grants := Grants(p, log);
    assert Hits(grants) == LogHits(log);
    PacedWindow(grants, ip, start, HOUR_MS);
    if InWindow(LogHits(log), ip, start, HOUR_MS) != [] {
      var i :| 0 <= i < |grants| && LastInWindow(grants, i, ip, start, HOUR_MS)
        && |InWindow(Hits(grants), ip, start, HOUR_MS)| <= grants[i].limit;
      GrantLast(p, log, i, ip, start);
    }
  }

  lemma GrantLast(p: Policy, log: seq<Paid>, i: nat, ip: nat, start: int)
    requires i < |log| && LastInWindow(Grants(p, log), i, ip, start, HOUR_MS)
    ensures LastOfHour(log, i, ip, start)
  {
    forall j | i < j < |log| ensures !(log[j].request.ip == ip && start <= log[j].at < start + HOUR_MS) {
      assert Grants(p, log)[j].hit == Hit(log[j].request.ip, log[j].at);
    }
  }

  // ------------------------------------------------------------------ the retry hint

  /** What the tables answer a request at some later time, with nothing recorded since. */
  function Answer(p: Policy, s: State, r: Request, now: Time): Decision {
    Decide(p, Pruned(s.books, now), r, now)
  }

  /** Whether the request would be rate limited, by the log: no claim today, and its IP at its tier's ceiling. */
  lemma LimitedIff(p: Policy, steps: seq<Step>, r: Request, now: Time)
    requires Run(steps) && Reach(p, steps).clock <= now
    ensures var log := Reach(p, steps).log;
      Answer(p, Reach(p, steps), r, now).RateLimited? <==>
        FindClaim(log, r.address, Day(now)).None? && |Recent(LogHits(log), r.ip, now - HOUR_MS)| >= p.Ceiling(r.tier)
    ensures var log := Reach(p, steps).log;
      Answer(p, Reach(p, steps), r, now).RateLimited? ==>
        Answer(p, Reach(p, steps), r, now).retryAfter
          == RetryAfter(Recent(LogHits(log), r.ip, now - HOUR_MS), now, HOUR_MS)
  {
    hide Reach, Pruned, Decide, Recent;
    TablesRefineLog(p, steps, r, now);
  }

  /** An address that has no claim today has none on a later day either. */
  lemma NoClaimLater(p: Policy, steps: seq<Step>, address: nat, now: Time, later: Time)
    requires Run(steps) && Reach(p, steps).clock <= now <= later
    requires FindClaim(Reach(p, steps).log, address, Day(now)).None?
    ensures FindClaim(Reach(p, steps).log, address, Day(later)).None?
  {
    hide Reach, Within, Day;
    RunRefines(p, steps);
    var log := Reach(p, steps).log;
    FindClaimIs(log, address, Day(now));
    FindClaimIs(log, address, Day(later));
    DayMonotone(now, later);
    forall i | 0 <= i < |log| ensures Day(log[i].at) <= Day(now) {
      DayMonotone(log[i].at, now);
    }
  }

  /**
   * A rate-limited request that comes back when its hint says, with nothing
   * recorded meanwhile, is let past the limit exactly when the hits of its IP
   * that have left the hour by then outnumber what the hour held beyond its
   * ceiling.
   */
  lemma PublicHintOpensIff(p: Policy, steps: seq<Step>, r: Request, now: Time)
    requires Run(steps) && Reach(p, steps).clock <= now
    requires Answer(p, Reach(p, steps), r, now).RateLimited?
    ensures var s := Reach(p, steps);
      var later := now + 1000 * Answer(p, s, r, now).retryAfter;
      !Answer(p, s, r, later).RateLimited? <==>
        |Recent(LogHits(s.log), r.ip, now - HOUR_MS)|
          < p.Ceiling(r.tier) + |Leaving(LogHits(s.log), r.ip, now, HOUR_MS, later)|
  {
    hide Reach, Pruned, Decide, Recent, Leaving, Day, RetryAfter;
    var s := Reach(p, steps);
    var later := now + 1000 * Answer(p, s, r, now).retryAfter;
    LimitedIff(p, steps, r, now);
    LimitedIff(p, steps, r, later);
    NoClaimLater(p, steps, r.address, now, later);
    HintOpensIff(LogHits(s.log), r.ip, now, HOUR_MS, p.Ceiling(r.tier));
  }

  /** When no hit of the hour was admitted under a higher ceiling, the hour holds no more than this one. */
  lemma HourWithin(p: Policy, steps: seq<Step>, r: Request, now: Time)
    requires Run(steps) && Reach(p, steps).clock <= now
    requires forall q :: q in Reach(p, steps).log && q.request.ip == r.ip && q.at > now - HOUR_MS ==>
      p.Ceiling(q.request.tier) <= p.Ceiling(r.tier)
    ensures |Recent(LogHits(Reach(p, steps).log), r.ip, now - HOUR_MS)| <= p.Ceiling(r.tier)
  {
    hide Reach, Recent, InWindow, Within;
    RunRefines(p, steps);
    var log := Reach(p, steps).log;
    RecentIsWindow(LogHits(log), r.ip, now, HOUR_MS);
    IpHoursHold(p, steps, r.ip, now - HOUR_MS + 1);
    var hour := InWindow(LogHits(log), r.ip, now - HOUR_MS + 1, HOUR_MS);
    if hour != [] {
      var i :| 0 <= i < |log| && LastOfHour(log, i, r.ip, now - HOUR_MS + 1)
        && |hour| <= p.Ceiling(log[i].request.tier);
      assert log[i] in log;
    }
  }

  /**
   * The hint is long enough whenever no hit of the IP in the hour was admitted
   * under a higher ceiling than the request's own, which must not be 0.
   */
  lemma PublicRetryOpens(p: Policy, steps: seq<Step>, r: Request, now: Time, later: Time)
    requires Run(steps) && Reach(p, steps).clock <= now && p.Ceiling(r.tier) >= 1
    requires Answer(p, Reach(p, steps), r, now).RateLimited?
    requires forall q :: q in Reach(p, steps).log && q.request.ip == r.ip && q.at > now - HOUR_MS ==>
      p.Ceiling(q.request.tier) <= p.Ceiling(r.tier)
    requires later >= now + 1000 * Answer(p, Reach(p, steps), r, now).retryAfter
    ensures !Answer(p, Reach(p, steps), r, later).RateLimited?
  {
    hide Reach, Run, Answer, Recent, Day, RetryAfter, LogHits, FindClaim;
    LimitedIff(p, steps, r, now);
    LimitedIff(p, steps, r, later);
    HourWithin(p, steps, r, now);
    RetryOpens(LogHits(Reach(p, steps).log), r.ip, now, HOUR_MS, p.Ceiling(r.tier), later);
  }

  const STRICT: Policy := Policy(1, 10, 1, 1, 2)

  /** Two payouts to one IP on hard proofs, half an hour apart. */
  const TWO_HARD: seq<Step> :=
    [Pay(FIRST.at, FIRST.request, FIRST.txid, true), Pay(SECOND.at, SECOND.request, SECOND.txid, true)]

  /** One more accepted broadcast, by the log alone. */
  lemma PayLogged(p: Policy, steps: seq<Step>, now: Time, r: Request, txid: Txid)
    requires Run(steps) && Reach(p, steps).clock <= now
    ensures var s, s' := Reach(p, steps), Reach(p, steps + [Pay(now, r, txid, true)]);
      && s'.clock == now
      && s'.log == if DecideFromLog(p, s.log, r, now).Admit? then s.log + [Paid(r, txid, now)] else s.log
  {
    TablesRefineLog(p, steps, r, now);
    assert (steps + [Pay(now, r, txid, true)])[..|steps|] == steps;
    hide Pruned, Decide, DecideFromLog;
  }

  const FIRST: Paid := Paid(Request(0, 0, Hard), 0, 0)
  const SECOND: Paid := Paid(Request(1, 0, Hard), 1, HOUR_MS / 2)

  lemma BothAdmitted()
    ensures DecideFromLog(STRICT, [], FIRST.request, FIRST.at).Admit?
    ensures DecideFromLog(STRICT, [FIRST], SECOND.request, SECOND.at).Admit?
  {
    assert LogHits([]) == [];
    assert LogHits([FIRST]) == [Hit(0, 0)] && [Hit(0, 0)][1..] == [] && [FIRST][..0] == [];
    FindClaimIs([FIRST], 1, Day(SECOND.at));
    RecentShort([Hit(0, 0)], 0, SECOND.at - HOUR_MS);
    assert PaidOn([FIRST], Day(SECOND.at)) <= 1;
  }

  lemma TwoHardRuns()
    ensures Run([]) && Run(TWO_HARD[..1]) && Run(TWO_HARD)
    ensures TWO_HARD[0] == Pay(FIRST.at, FIRST.request, FIRST.txid, true) && [] + [TWO_HARD[0]] == TWO_HARD[..1]
    ensures TWO_HARD[1] == Pay(SECOND.at, SECOND.request, SECOND.txid, true)
    ensures TWO_HARD[..1] + [TWO_HARD[1]] == TWO_HARD
  {
  }

  lemma AfterTwoHard()
    ensures Run(TWO_HARD) && Reach(STRICT, TWO_HARD).clock == SECOND.at
    ensures Reach(STRICT, TWO_HARD).log == [FIRST, SECOND]
  {
    BothAdmitted();
    AtStart(STRICT);
    TwoHardRuns();
    hide Reach, DecideFromLog, Run;
    PayLogged(STRICT, [], FIRST.at, FIRST.request, FIRST.txid);
    assert [] + [FIRST] == [FIRST];
    PayLogged(STRICT, TWO_HARD[..1], SECOND.at, SECOND.request, SECOND.txid);
    assert [FIRST] + [SECOND] == [FIRST, SECOND];
  }

  lemma AtStart(p: Policy)
    ensures Reach(p, []) == START
  {
  }

  /**
   * The hint can be too short: after those payouts a soft request, whose
   * ceiling is one, is told to come back in 1800 seconds, and is told again
   * when it does.
   */
  lemma PublicHintTooShort()
    ensures Run(TWO_HARD) && Reach(STRICT, TWO_HARD).clock <= HOUR_MS / 2
    ensures var s, r := Reach(STRICT, TWO_HARD), Request(2, 0, Soft);
      && Answer(STRICT, s, r, HOUR_MS / 2) == RateLimited(1800)
      && Answer(STRICT, s, r, HOUR_MS / 2 + 1000 * 1800).RateLimited?
  {
    AfterTwoHard();
    hide Reach, Run, Pruned, Decide, Answer;
    var s, r, now := Reach(STRICT, TWO_HARD), Request(2, 0, Soft), HOUR_MS / 2;
    LimitedIff(STRICT, TWO_HARD, r, now);
    LimitedIff(STRICT, TWO_HARD, r, 2 * now);
    var hits := LogHits(s.log);
    assert hits == [Hit(0, 0), Hit(0, now)];
    FilterPair(Hit(0, 0), Hit(0, now), (h: Hit) => h.who == 0 && h.at > now - HOUR_MS);
    FilterPair(Hit(0, 0), Hit(0, now), (h: Hit) => h.who == 0 && h.at > 2 * now - HOUR_MS);
    assert hits[1..] == [Hit(0, now)] && hits[1..][1..] == [];
    FindClaimIs(s.log, 2, Day(now));
    FindClaimIs(s.log, 2, Day(2 * now));
  }

  // ------------------------------------------------------------------ the answers, spelled out

  ghost predicate ClaimedToday(log: seq<Paid>, r: Request, now: Time) {
    exists paid :: paid in log && paid.request.address == r.address && Day(paid.at) == Day(now)
  }

  /** This transaction paid the address that day. */
  ghost predicate PaidToday(log: seq<Paid>, r: Request, now: Time, txid: Txid) {
    exists paid :: paid in log && paid.request.address == r.address && Day(paid.at) == Day(now) && paid.txid == txid
  }

  /**
   * What the tables answer, by the log alone: the transaction already paid to
   * the address that day; or a limit when its IP's payouts of the last hour are
   * at the ceiling of the proof; or an exhausted budget when one payout more
   * would pass it; or yes, when none of these holds.
   */
  lemma AnswerIff(p: Policy, steps: seq<Step>, r: Request, now: Time)
    requires Run(steps) && Reach(p, steps).clock <= now
    ensures var log, d := Reach(p, steps).log, Answer(p, Reach(p, steps), r, now);
      var ceiling := match r.tier case Soft => p.soft case Turnstile => p.turnstile case Hard => p.hard;
      var full := |Recent(LogHits(log), r.ip, now - HOUR_MS)| >= ceiling;
      var spent := p.payoutSats * (PaidOn(log, Day(now)) + 1) > p.dailyBudgetSats;
      && (d.Replay? <==> ClaimedToday(log, r, now))
      && (d.Replay? ==> d.sats == p.payoutSats && PaidToday(log, r, now, d.txid))
      && (d.RateLimited? <==> !ClaimedToday(log, r, now) && full)
      && (d.BudgetExhausted? <==> !ClaimedToday(log, r, now) && !full && spent)
      && (d.Admit? <==> !ClaimedToday(log, r, now) && !full && !spent)
  {
    hide Reach, Pruned, Decide, Recent, Day;
    TablesRefineLog(p, steps, r, now);
    var log := Reach(p, steps).log;
    FindClaimIs(log, r.address, Day(now));
    ProductMonotone(p.payoutSats, PaidOn(log, Day(now)));
    if FindClaim(log, r.address, Day(now)).None? && ClaimedToday(log, r, now) {
      ClaimIndexed(log, r, now);
    }
  }

  lemma ClaimIndexed(log: seq<Paid>, r: Request, now: Time)
    requires ClaimedToday(log, r, now)
    ensures exists i :: 0 <= i < |log| && IsClaim(log[i], r.address, Day(now))
  {
    hide Day;
    var paid :| paid in log && paid.request.address == r.address && Day(paid.at) == Day(now);
    var i :| 0 <= i < |log| && log[i] == paid;
    assert IsClaim(log[i], r.address, Day(now));
  }

  /** An exhausted budget's hint is the first second of the next day, and no sooner. */
  lemma MidnightIsNext(now: Time)
    ensures Day(now + 1000 * UntilMidnight(now)) == Day(now) + 1
    ensures UntilMidnight(now) >= 2 ==> Day(now + 1000 * (UntilMidnight(now) - 1)) == Day(now)
  {
    var left := (Day(now) + 1) * DAY_MS - now;
    assert 0 < left <= DAY_MS;
    assert left <= 1000 * UntilMidnight(now) < left + 1000;
  }

  /** A check forgets hits older than an hour, claims older than a week, and the budgets of days before that. */
  lemma PrunedForgets(b: Books, now: Time)
    ensures var after := Pruned(b, now);
      && (forall h :: h in after.hits <==> h in b.hits && h.at >= now - HOUR_MS)
      && (forall k :: k in after.claims <==> k in b.claims && b.claims[k].at >= now - 7 * DAY_MS)
      && (forall d :: d in after.budget <==> d in b.budget && d >= Day(now - 7 * DAY_MS))
  {
    FilterIn(b.hits, (h: Hit) => h.at >= now - HOUR_MS);
  }
}
