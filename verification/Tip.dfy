/** The best-known tip and the provider a listing is read from: `tipHeight` and `getUtxos` of src/chain/index.ts. */
module Tip {
  import opened Coins

  const MAX_LAG_BLOCKS: nat := 10

  /** One provider's answer to the survey; `height` is None when it did not answer. */
  datatype Report = Report(name: nat, evonode: bool, canReadUtxos: bool, height: Option<nat>)

  function Heights(reports: seq<Report>, evonodes: bool): seq<nat> {
    if reports == [] then []
    else
      var r, rest := reports[|reports| - 1], Heights(reports[..|reports| - 1], evonodes);
      if r.height.Some? && r.evonode == evonodes then rest + [r.height.value] else rest
  }

  function MaxOf(s: seq<nat>): nat
    requires s != []
  {
    if |s| == 1 then s[0] else var m := MaxOf(s[1..]); if s[0] > m then s[0] else m
  }

  // ------------------------------------------------------------------ the median

  predicate Ordered(s: seq<nat>) {
    forall i, j :: 0 <= i < j < |s| ==> s[i] <= s[j]
  }

  function InsertHeight(x: nat, s: seq<nat>): seq<nat> {
    if s == [] || x <= s[0] then [x] + s else [s[0]] + InsertHeight(x, s[1..])
  }

  function SortHeights(s: seq<nat>): seq<nat> {
    if s == [] then [] else InsertHeight(s[0], SortHeights(s[1..]))
  }

  function Median(s: seq<nat>): nat
    requires s != []
  {
    SortCounts(s, 0);
    SortHeights(s)[(|s| - 1) / 2]
  }

  /** How many heights lie above a bound. */
  function Above(s: seq<nat>, bound: nat): nat {
    if s == [] then 0 else (if s[0] > bound then 1 else 0) + Above(s[1..], bound)
  }

  lemma {:induction false} InsertCounts(x: nat, s: seq<nat>, bound: nat)
    ensures |InsertHeight(x, s)| == |s| + 1
    ensures Above(InsertHeight(x, s), bound) == Above(s, bound) + if x > bound then 1 else 0
    ensures Ordered(s) ==> Ordered(InsertHeight(x, s))
    ensures forall y :: y in InsertHeight(x, s) <==> y == x || y in s
  {
    if s != [] && x > s[0] {
      InsertCounts(x, s[1..], bound);
    }
  }

  lemma {:induction false} SortCounts(s: seq<nat>, bound: nat)
    ensures |SortHeights(s)| == |s| && Ordered(SortHeights(s))
    ensures Above(SortHeights(s), bound) == Above(s, bound)
    ensures forall y :: y in SortHeights(s) <==> y in s
  {
    if s != [] {
      SortCounts(s[1..], bound);
      InsertCounts(s[0], SortHeights(s[1..]), bound);
    }
  }

  lemma {:induction false} AboveBounds(s: seq<nat>, bound: nat)
    ensures Above(s, bound) <= |s|
    ensures (forall i :: 0 <= i < |s| ==> s[i] <= bound) ==> Above(s, bound) == 0
    ensures (forall i :: 0 <= i < |s| ==> s[i] > bound) ==> Above(s, bound) == |s|
  {
    if s != [] {
      AboveBounds(s[1..], bound);
      assert forall i :: 0 <= i < |s[1..]| ==> s[1..][i] == s[i + 1];
    }
  }

  lemma {:induction false} AboveSplit(s: seq<nat>, m: nat, bound: nat)
    requires m <= |s|
    ensures Above(s, bound) == Above(s[..m], bound) + Above(s[m..], bound)
  {
    if m > 0 {
      AboveSplit(s[1..], m - 1, bound);
      assert s[..m][1..] == s[1..][..m - 1] && s[m..] == s[1..][m - 1..];
    } else {
      assert s[..0] == [] && s[0..] == s;
    }
  }

  /** In an ordered list, item m is within a bound exactly when no more than the items after it exceed the bound. */
  lemma OrderedWithin(t: seq<nat>, m: nat, bound: nat)
    requires Ordered(t) && m < |t|
    ensures t[m] <= bound <==> Above(t, bound) <= |t| - 1 - m
  {
    if t[m] <= bound {
      AboveSplit(t, m + 1, bound);
      AboveBounds(t[..m + 1], bound);
      AboveBounds(t[m + 1..], bound);
    } else {
      AboveSplit(t, m, bound);
      AboveBounds(t[m..], bound);
    }
  }

  /** The lower median is within a bound exactly when at most half of the heights, rounded down, exceed it. */
  lemma MedianWithin(s: seq<nat>, bound: nat)
    requires s != []
    ensures Median(s) <= bound <==> Above(s, bound) <= |s| / 2
    ensures Median(s) in s
  {
    SortCounts(s, bound);
    OrderedWithin(SortHeights(s), (|s| - 1) / 2, bound);
    assert SortHeights(s)[(|s| - 1) / 2] in SortHeights(s);
  }

  // ------------------------------------------------------------------ the tip

  /** What the sampled evonodes contribute: their median, or a lone answer held near the configured ones. */
  function EvonodeVote(trusted: seq<nat>, sampled: seq<nat>): seq<nat> {
    if |sampled| > 1 then [Median(sampled)]
    else if sampled == [] then []
    else if trusted == [] then sampled
    else [var cap := MaxOf(trusted) + MAX_LAG_BLOCKS; if sampled[0] <= cap then sampled[0] else cap]
  }

  function Candidates(reports: seq<Report>): seq<nat> {
    var trusted := Heights(reports, false);
    trusted + EvonodeVote(trusted, Heights(reports, true))
  }

  function TipOf(reports: seq<Report>): Option<nat> {
    if Candidates(reports) == [] then None else Some(MaxOf(Candidates(reports)))
  }

  /** Evonodes far above the median. */
  function Wild(reports: seq<Report>): set<nat> {
    var sampled := Heights(reports, true);
    if |sampled| <= 1 then {}
    else
      set r | r in reports && r.evonode && r.height.Some?
        && r.height.value > Median(sampled) + MAX_LAG_BLOCKS :: r.name
  }

  method TipHeight(reports: seq<Report>) returns (tip: Option<nat>, benched: set<nat>)
    ensures tip == TipOf(reports)
    ensures benched == Wild(reports)
  {
    var trusted: seq<nat>, sampled: seq<nat> := [], [];
    for i := 0 to |reports|
      invariant trusted == Heights(reports[..i], false) && sampled == Heights(reports[..i], true)
    {
      assert reports[..i + 1][..i] == reports[..i];
      var r := reports[i];
      if r.height.Some? {
        if r.evonode {
          sampled := sampled + [r.height.value];
        } else {
          trusted := trusted + [r.height.value];
        }
      }
    }
    assert reports[..|reports|] == reports;
    var candidates := trusted;
    benched := {};
    if |sampled| > 1 {
      var median := Median(sampled);
      candidates := candidates + [median];
      for i := 0 to |reports|
        invariant benched == set r | r in reports[..i] && r.evonode && r.height.Some?
          && r.height.value > median + MAX_LAG_BLOCKS :: r.name
      {
        var r := reports[i];
        assert reports[..i + 1] == reports[..i] + [r];
        if r.evonode && r.height.Some? && r.height.value > median + MAX_LAG_BLOCKS {
          benched := benched + {r.name};
        }
      }
      assert reports[..|reports|] == reports;
    } else if |sampled| == 1 {
      candidates := candidates + EvonodeVote(trusted, sampled);
    }
    assert candidates == Candidates(reports);
    tip := if candidates == [] then None else Some(MaxOf(candidates));
  }

  lemma {:induction false} MaxBounds(s: seq<nat>)
    requires s != []
    ensures MaxOf(s) in s && forall x :: x in s ==> x <= MaxOf(s)
  {
    if |s| > 1 {
      MaxBounds(s[1..]);
      forall x | x in s ensures x == s[0] || x in s[1..] {}
    }
  }

  lemma MaxWithin(s: seq<nat>, bound: nat)
    requires s != []
    ensures MaxOf(s) <= bound <==> forall x :: x in s ==> x <= bound
  {
    MaxBounds(s);
  }

  /**
   * An evonode is benched exactly when at least two answered and at most half of
   * the heights, rounded down, exceed its own less MAX_LAG_BLOCKS and one.
   */
  lemma BenchedIff(reports: seq<Report>, name: nat)
    ensures name in Wild(reports) <==>
      exists r :: r in reports && r.evonode && r.name == name && FarAhead(reports, r)
  {
    var sampled := Heights(reports, true);
    if |sampled| > 1 {
      forall r | r in reports && r.height.Some?
        ensures r.height.value > Median(sampled) + MAX_LAG_BLOCKS <==> FarAhead(reports, r)
      {
        if r.height.value > 10 {
          MedianWithin(sampled, r.height.value - 11);
        }
      }
    }
  }

  predicate FarAhead(reports: seq<Report>, r: Report) {
    var sampled := Heights(reports, true);
    |sampled| >= 2 && r.height.Some? && r.height.value > 10
    && Above(sampled, r.height.value - 11) <= |sampled| / 2
  }

  ghost predicate AllWithin(s: seq<nat>, bound: nat) {
    forall x :: x in s ==> x <= bound
  }

  /** The tip is never below a configured height, and there is none only when nobody answered. */
  lemma TipCoversConfigured(reports: seq<Report>)
    ensures TipOf(reports).None? <==> Heights(reports, false) == [] && Heights(reports, true) == []
    ensures TipOf(reports).Some? ==> AllWithin(Heights(reports, false), TipOf(reports).value)
  {
    if TipOf(reports).Some? {
      MaxBounds(Candidates(reports));
      forall x | x in Heights(reports, false) ensures x in Candidates(reports) {}
    }
  }

  /**
   * With two or more evonode heights, the tip is within a bound exactly when
   * every configured height is and at most half of the evonodes, rounded down,
   * exceed it: no minority of false heights can lift it above an honest one.
   */
  lemma TipWithinIff(reports: seq<Report>, bound: nat)
    requires |Heights(reports, true)| >= 2
    ensures TipOf(reports).Some?
    ensures var sampled := Heights(reports, true);
      TipOf(reports).value <= bound <==>
        AllWithin(Heights(reports, false), bound) && Above(sampled, bound) <= |sampled| / 2
  {
    hide Median;
    var trusted, sampled := Heights(reports, false), Heights(reports, true);
    MedianWithin(sampled, bound);
    var c := Candidates(reports);
    assert c == trusted + [Median(sampled)];
    MaxWithin(c, bound);
    forall x ensures x in c <==> x in trusted || x == Median(sampled) {}
    assert Median(sampled) in c;
    assert (forall x :: x in c ==> x <= bound) <==> AllWithin(trusted, bound) && Median(sampled) <= bound;
  }

  /** A lone evonode leads the best configured height by at most the lag allowance. */
  lemma LoneEvonodeCapped(reports: seq<Report>)
    requires |Heights(reports, true)| <= 1 && Heights(reports, false) != []
    ensures var best := MaxOf(Heights(reports, false));
      TipOf(reports).Some? && best <= TipOf(reports).value <= best + MAX_LAG_BLOCKS
  {
    var trusted := Heights(reports, false);
    var c := Candidates(reports);
    MaxBounds(trusted);
    MaxBounds(c);
    assert MaxOf(trusted) in c;
    forall x | x in c ensures x <= MaxOf(trusted) + MAX_LAG_BLOCKS {
      assert x in trusted || x in EvonodeVote(trusted, Heights(reports, true));
    }
  }

  /**
   * With at most one evonode height the tip is the best configured height, or
   * the lone evonode's where that is higher, held to the lag allowance; without
   * a configured height it is the evonode's.
   */
  lemma LoneTipIs(reports: seq<Report>)
    requires |Heights(reports, true)| <= 1 && TipOf(reports).Some?
    ensures var trusted, sampled := Heights(reports, false), Heights(reports, true);
      TipOf(reports).value ==
        if trusted == [] then sampled[0]
        else if sampled == [] then MaxOf(trusted)
        else Max(MaxOf(trusted), Min(sampled[0], MaxOf(trusted) + 10))
  {
    var trusted, sampled := Heights(reports, false), Heights(reports, true);
    if sampled != [] && trusted != [] {
      assert Candidates(reports) == trusted + [Min(sampled[0], MaxOf(trusted) + MAX_LAG_BLOCKS)];
      MaxSnoc(trusted, Min(sampled[0], MaxOf(trusted) + MAX_LAG_BLOCKS));
    } else if trusted != [] {
      assert Candidates(reports) == trusted;
    }
  }

  lemma MaxSnoc(s: seq<nat>, x: nat)
    requires s != []
    ensures MaxOf(s + [x]) == Max(MaxOf(s), x)
  {
    MaxBounds(s);
    MaxBounds(s + [x]);
    assert x in s + [x] && MaxOf(s) in s + [x];
    assert MaxOf(s + [x]) in s || MaxOf(s + [x]) == x;
  }

  // ------------------------------------------------------------------ reading a listing

  predicate Eligible(r: Report, tip: nat) {
    r.canReadUtxos && r.height.Some? && tip - r.height.value <= MAX_LAG_BLOCKS
  }

  lemma {:induction false} HeightsHas(reports: seq<Report>, r: Report)
    requires r in reports && r.height.Some?
    ensures r.height.value in Heights(reports, r.evonode)
  {
    var last := |reports| - 1;
    if reports[last] != r {
      assert reports == reports[..last] + [reports[last]];
      HeightsHas(reports[..last], r);
    }
  }

  /**
   * The best configured source is refused as stale exactly when more than half
   * of two or more evonodes claim to be further ahead of it than the lag
   * allowance; a minority, or one alone, can never make it look stale.
   */
  lemma BestStaysEligible(reports: seq<Report>, r: Report)
    requires r in reports && !r.evonode && r.canReadUtxos && r.height.Some?
    requires AllWithin(Heights(reports, false), r.height.value)
    ensures var sampled := Heights(reports, true);
      && TipOf(reports).Some?
      && (Eligible(r, TipOf(reports).value) <==>
            |sampled| <= 1 || Above(sampled, r.height.value + MAX_LAG_BLOCKS) <= |sampled| / 2)
  {
    hide Median;
    var trusted := Heights(reports, false);
    HeightsHas(reports, r);
    MaxBounds(trusted);
    if |Heights(reports, true)| <= 1 {
      LoneEvonodeCapped(reports);
    } else {
      TipWithinIff(reports, r.height.value + MAX_LAG_BLOCKS);
    }
  }

  function EligibleOf(reports: seq<Report>, tip: nat): seq<Report> {
    Filter(reports, (r: Report) => Eligible(r, tip))
  }

  /** Eligible sources are within the lag allowance of the best-known tip. */
  lemma SourcesAreFresh(reports: seq<Report>, tip: nat, i: nat)
    requires TipOf(reports) == Some(tip) && i < |EligibleOf(reports, tip)|
    ensures var r := EligibleOf(reports, tip)[i];
      r in reports && r.canReadUtxos && r.height.Some? && tip - r.height.value <= MAX_LAG_BLOCKS
  {
    FilterIn(reports, (r: Report) => Eligible(r, tip));
    assert EligibleOf(reports, tip)[i] in EligibleOf(reports, tip);
  }

  /** One listing request: coins, or a failure with or without the deadline having passed. */
  datatype Attempt = Listing(coins: seq<Coin>) | Failed(timedOut: bool)

  datatype Read = Read(coins: seq<Coin>, source: nat) | AllFailed

  /** Asks the i-th source in its turn; the run's first quick failure earns its provider one more try. */
  function Walk(n: nat, i: nat, retried: bool, answers: nat -> Attempt, calls: nat): Read
    decreases n - i, if retried then 0 else 1
  {
    if i >= n then AllFailed else
    match answers(calls)
    case Listing(coins) => Read(coins, i)
    case Failed(timedOut) =>
      if !retried && !timedOut then Walk(n, i, true, answers, calls + 1)
      else Walk(n, i + 1, retried, answers, calls + 1)
  }

  /** `answers(k)` is the outcome of the k-th request made. */
  method GetUtxos(reports: seq<Report>, answers: nat -> Attempt) returns (r: Read, calls: nat, tip: Option<nat>)
    ensures tip == TipOf(reports)
    ensures tip.None? ==> r == AllFailed && calls == 0
    ensures tip.Some? ==>
      var eligible := EligibleOf(reports, tip.value);
      && r == Walk(|eligible|, 0, false, answers, 0)
      && calls <= |eligible| + 1
      && (r.Read? ==>
            && r.source < |eligible| && calls > 0 && answers(calls - 1) == Listing(r.coins)
            && eligible[r.source] in reports && eligible[r.source].canReadUtxos
            && eligible[r.source].height.Some? && tip.value - eligible[r.source].height.value <= MAX_LAG_BLOCKS)
      && (r.AllFailed? ==> calls >= |eligible| && forall k :: 0 <= k < calls ==> answers(k).Failed?)
  {
    var benched;
    tip, benched := TipHeight(reports);
    calls := 0;
    if tip.None? {
      return AllFailed, 0, tip;
    }
    var eligible := EligibleOf(reports, tip.value);
    var retried, i := false, 0;
    while i < |eligible|
      invariant i <= |eligible| && calls == i + if retried then 1 else 0
      invariant Walk(|eligible|, 0, false, answers, 0) == Walk(|eligible|, i, retried, answers, calls)
      invariant forall k :: 0 <= k < calls ==> answers(k).Failed?
      decreases |eligible| - i, if retried then 0 else 1
    {
      var answer := answers(calls);
      calls := calls + 1;
      match answer
      case Listing(coins) =>
        SourcesAreFresh(reports, tip.value, i);
        return Read(coins, i), calls, tip;
      case Failed(timedOut) =>
        if !retried && !timedOut {
          retried := true;
        } else {
          i := i + 1;
        }
    }
    r := AllFailed;
  }

  // ------------------------------------------------------------------ who is asked

  /** A failure before the deadline. */
  predicate Quick(a: Attempt) {
    a.Failed? && !a.timedOut
  }

  predicate QuickBefore(answers: nat -> Attempt, k: nat) {
    exists j :: 0 <= j < k && Quick(answers(j))
  }

  /** Which source the k-th request goes to: the first quick failure, and only that, is asked again. */
  function SourceOf(answers: nat -> Attempt, k: nat): nat {
    if QuickBefore(answers, k) then k - 1 else k
  }

  lemma SourcesAdvance(answers: nat -> Attempt, j: nat, k: nat)
    requires j <= k
    ensures SourceOf(answers, j) <= SourceOf(answers, k)
  {
    if QuickBefore(answers, j) {
      assert QuickBefore(answers, k);
    }
  }

  lemma SourceNext(answers: nat -> Attempt, k: nat)
    ensures QuickBefore(answers, k + 1) <==> QuickBefore(answers, k) || Quick(answers(k))
    ensures SourceOf(answers, k + 1) ==
      SourceOf(answers, k) + if Quick(answers(k)) && !QuickBefore(answers, k) then 0 else 1
    ensures !QuickBefore(answers, 0) && SourceOf(answers, 0) == 0
  {
    hide Quick;
    if QuickBefore(answers, k) {
      var j :| 0 <= j < k && Quick(answers(j));
      assert 0 <= j < k + 1;
    }
  }

  /** The k-th request is the first that lists coins. */
  predicate ListsFirst(answers: nat -> Attempt, k: nat, coins: seq<Coin>) {
    answers(k) == Listing(coins) && forall j :: 0 <= j < k ==> answers(j).Failed?
  }

  lemma {:induction false} WalkFrom(n: nat, i: nat, retried: bool, answers: nat -> Attempt, calls: nat)
    requires forall j :: 0 <= j < calls ==> answers(j).Failed?
    requires retried == QuickBefore(answers, calls) && SourceOf(answers, calls) == i
    ensures match Walk(n, i, retried, answers, calls)
      case Read(coins, s) => exists k :: ListsFirst(answers, k, coins) && SourceOf(answers, k) == s < n
      case AllFailed => forall k: nat :: SourceOf(answers, k) < n ==> answers(k).Failed?
    decreases n - i, if retried then 0 else 1
  {
    hide QuickBefore, SourceOf;
    SourceNext(answers, calls);
    if i >= n {
      forall k: nat | SourceOf(answers, k) < n ensures answers(k).Failed? {
        if k >= calls {
          SourcesAdvance(answers, calls, k);
        }
      }
    } else if answers(calls).Listing? {
      assert ListsFirst(answers, calls, answers(calls).coins);
    } else {
      if !retried && Quick(answers(calls)) {
        WalkFrom(n, i, true, answers, calls + 1);
      } else {
        WalkFrom(n, i + 1, retried, answers, calls + 1);
      }
    }
  }

  /**
   * A listing is read exactly from the first request that succeeds, if its turn
   * comes before the sources run out; and none is read exactly when every
   * request that has a source fails.
   */
  lemma WalkIff(n: nat, answers: nat -> Attempt)
    ensures var r := Walk(n, 0, false, answers, 0);
      && (forall coins, s: nat :: r == Read(coins, s) <==>
            exists k :: ListsFirst(answers, k, coins) && SourceOf(answers, k) == s < n)
      && (r.AllFailed? <==> forall k: nat :: SourceOf(answers, k) < n ==> answers(k).Failed?)
  {
    var r := Walk(n, 0, false, answers, 0);
    SourceNext(answers, 0);
    hide QuickBefore, SourceOf;
    WalkFrom(n, 0, false, answers, 0);
    forall coins, s: nat, k: nat | ListsFirst(answers, k, coins) && SourceOf(answers, k) == s < n
      ensures r == Read(coins, s)
    {
      if r.Read? {
        var m :| ListsFirst(answers, m, r.coins) && SourceOf(answers, m) == r.source < n;
        assert m == k;
      }
    }
  }
}
