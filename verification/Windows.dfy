/** Rolling windows: how hits are counted, when a limit opens again, and what pacing guarantees. */
module Windows {
  import opened Coins

  datatype Hit = Hit(who: nat, at: Time)

  /** One party's hits after a moment. */
  function Recent(hits: seq<Hit>, who: nat, since: int): seq<Hit> {
    Filter(hits, (h: Hit) => h.who == who && h.at > since)
  }

  /** What is left once the hits before a moment are deleted. */
  function Prune(hits: seq<Hit>, bound: int): seq<Hit> {
    Filter(hits, (h: Hit) => h.at >= bound)
  }

  /** The earliest time, or `none` without any. */
  function Oldest(hits: seq<Hit>, none: Time): Time {
    if hits == [] then none
    else var o := Oldest(hits[1..], hits[0].at); if hits[0].at < o then hits[0].at else o
  }

  function CeilSeconds(ms: int): int {
    (ms + 999) / 1000
  }

  function AtLeastOne(n: int): (r: nat)
    ensures r >= 1 && r >= n
  {
    if n < 1 then 1 else n
  }

  /** Seconds until the oldest hit of the window leaves it. */
  function RetryAfter(recent: seq<Hit>, now: Time, width: nat): (r: nat)
    ensures r >= 1
  {
    AtLeastOne(CeilSeconds(Oldest(recent, now) + width - now))
  }

  // ------------------------------------------------------------------ lists of hits

  lemma {:induction false} RecentSnoc(hits: seq<Hit>, h: Hit, who: nat, since: int)
    ensures Recent(hits + [h], who, since) ==
      Recent(hits, who, since) + if h.who == who && h.at > since then [h] else []
  {
    var p := (h: Hit) => h.who == who && h.at > since;
    FilterConcat(hits, [h], p);
    assert [h][1..] == [];
  }

  lemma RecentShort(hits: seq<Hit>, who: nat, since: int)
    ensures |Recent(hits, who, since)| <= |hits|
  {
    FilterShorter(hits, (h: Hit) => h.who == who && h.at > since);
  }

  /** Pruning by the same window a limit looks back over changes no count. */
  lemma PruneInvisible(hits: seq<Hit>, who: nat, bound: int, since: int)
    requires bound <= since + 1
    ensures Recent(Prune(hits, bound), who, since) == Recent(hits, who, since)
  {
    FilterFilter(hits, (h: Hit) => h.at >= bound, (h: Hit) => h.who == who && h.at > since,
                (h: Hit) => h.who == who && h.at > since);
  }

  lemma PruneTwice(hits: seq<Hit>, a: int, b: int)
    requires a <= b
    ensures Prune(Prune(hits, a), b) == Prune(hits, b)
  {
    FilterFilter(hits, (h: Hit) => h.at >= a, (h: Hit) => h.at >= b, (h: Hit) => h.at >= b);
  }

  lemma {:induction false} FewerRecent(hits: seq<Hit>, who: nat, a: int, b: int)
    requires a <= b
    ensures |Recent(hits, who, b)| <= |Recent(hits, who, a)|
    ensures (exists h :: h in hits && h.who == who && a < h.at <= b) ==>
      |Recent(hits, who, b)| < |Recent(hits, who, a)|
  {
    if hits != [] {
      FewerRecent(hits[1..], who, a, b);
      if h :| h in hits && h.who == who && a < h.at <= b {
        assert h == hits[0] || h in hits[1..];
      }
    }
  }

  lemma {:induction false} OldestIn(hits: seq<Hit>, none: Time)
    ensures hits != [] ==> exists h :: h in hits && h.at == Oldest(hits, none)
    ensures forall h :: h in hits ==> Oldest(hits, none) <= h.at
    ensures hits == [] ==> Oldest(hits, none) == none
  {
    if hits != [] {
      OldestIn(hits[1..], hits[0].at);
      assert hits[0] in hits;
      if hits[1..] != [] {
        var h :| h in hits[1..] && h.at == Oldest(hits[1..], hits[0].at);
        assert h in hits;
      }
    }
  }

  // ------------------------------------------------------------------ retry hints

  /**
   * Waiting out the hint opens the limit, when no more than `limit` hits are in
   * the window and none is added: by then the oldest has left it.
   */
  lemma RetryOpens(hits: seq<Hit>, who: nat, now: Time, width: nat, limit: nat, later: Time)
    requires limit >= 1 && |Recent(hits, who, now - width)| <= limit
    requires later >= now + 1000 * RetryAfter(Recent(hits, who, now - width), now, width)
    ensures |Recent(hits, who, later - width)| < limit
  {
    var recent := Recent(hits, who, now - width);
    FilterIn(hits, (h: Hit) => h.who == who && h.at > now - width);
    OldestIn(recent, now);
    if recent == [] {
      FewerRecent(hits, who, now - width, later - width);
    } else {
      var h :| h in recent && h.at == Oldest(recent, now);
      assert h in hits;
      FewerRecent(hits, who, now - width, later - width);
    }
  }

  /** The hint is tight to the second: a second before it, no hit has left the window. */
  lemma RetryTight(hits: seq<Hit>, who: nat, now: Time, width: nat)
    requires Recent(hits, who, now - width) != []
    requires RetryAfter(Recent(hits, who, now - width), now, width) >= 2
    ensures var early := now + 1000 * (RetryAfter(Recent(hits, who, now - width), now, width) - 1);
      Recent(hits, who, early - width) == Recent(hits, who, now - width)
  {
    var recent := Recent(hits, who, now - width);
    var early := now + 1000 * (RetryAfter(recent, now, width) - 1);
    var p, q := (h: Hit) => h.who == who && h.at > now - width, (h: Hit) => h.who == who && h.at > early - width;
    OldestIn(recent, now);
    FilterIn(hits, p);
    forall h | h in hits ensures p(h) == q(h) {
      if p(h) {
        assert h in recent;
      }
    }
    FilterSame(hits, p, q);
  }

  /** Hits of the window now that will have left it by `later`. */
  function Leaving(hits: seq<Hit>, who: nat, now: Time, width: nat, later: Time): seq<Hit> {
    Filter(hits, (h: Hit) => h.who == who && now - width < h.at <= later - width)
  }

  /** Whatever the number of hits, the limit is open later exactly when enough of them leave in time. */
  lemma {:induction false} OpensIff(hits: seq<Hit>, who: nat, now: Time, width: nat, limit: nat, later: Time)
    requires now <= later
    ensures |Recent(hits, who, later - width)| < limit <==>
      |Leaving(hits, who, now, width, later)| > |Recent(hits, who, now - width)| - limit
    ensures |Recent(hits, who, now - width)| ==
      |Recent(hits, who, later - width)| + |Leaving(hits, who, now, width, later)|
  {
    if hits != [] {
      OpensIff(hits[1..], who, now, width, limit, later);
    }
  }

  /** The moment a hint names. */
  function Hinted(hits: seq<Hit>, who: nat, now: Time, width: nat): Time {
    now + 1000 * RetryAfter(Recent(hits, who, now - width), now, width)
  }

  /** At the moment the hint names, a limit is open exactly when the hits leaving by then outnumber the excess. */
  lemma HintOpensIff(hits: seq<Hit>, who: nat, now: Time, width: nat, limit: nat)
    ensures var later := Hinted(hits, who, now, width);
      |Recent(hits, who, later - width)| < limit <==>
        |Recent(hits, who, now - width)| < limit + |Leaving(hits, who, now, width, later)|
  {
    OpensIff(hits, who, now, width, limit, Hinted(hits, who, now, width));
  }

  // ------------------------------------------------------------------ pacing

  /** A hit, with the ceiling it was admitted under. */
  datatype Grant = Grant(hit: Hit, limit: nat)

  function Hits(grants: seq<Grant>): (r: seq<Hit>)
    ensures |r| == |grants| && forall i :: 0 <= i < |r| ==> r[i] == grants[i].hit
  {
    seq(|grants|, i requires 0 <= i < |grants| => grants[i].hit)
  }

  /** In time order, and each admitted only below its ceiling. */
  ghost predicate Paced(grants: seq<Grant>, width: nat) {
    && (forall i, j :: 0 <= i < j < |grants| ==> grants[i].hit.at <= grants[j].hit.at)
    && forall i :: 0 <= i < |grants| ==>
         |Recent(Hits(grants)[..i], grants[i].hit.who, grants[i].hit.at - width)| < grants[i].limit
  }

  lemma {:induction false} RecentPrefix(hits: seq<Hit>, i: nat, who: nat, since: int)
    requires i <= |hits|
    ensures |Recent(hits[..i], who, since)| <= |Recent(hits, who, since)|
    decreases |hits| - i
  {
    if i < |hits| {
      assert hits[..i + 1] == hits[..i] + [hits[i]];
      RecentSnoc(hits[..i], hits[i], who, since);
      RecentPrefix(hits, i + 1, who, since);
    } else {
      assert hits[..i] == hits;
    }
  }

  /** One more admitted hit, at the end and below its ceiling. */
  lemma PacedSnoc(grants: seq<Grant>, g: Grant, width: nat)
    requires Paced(grants, width) && (forall i :: 0 <= i < |grants| ==> grants[i].hit.at <= g.hit.at)
    requires |Recent(Hits(grants), g.hit.who, g.hit.at - width)| < g.limit
    ensures Paced(grants + [g], width)
  {
    hide Recent;
    var all := grants + [g];
    forall i | 0 <= i <= |grants| ensures Hits(all)[..i] == Hits(grants)[..i] {}
    assert Hits(grants)[..|grants|] == Hits(grants);
  }

  /** Hits of one party in a half-open window. */
  function InWindow(hits: seq<Hit>, who: nat, start: int, width: nat): seq<Hit> {
    Filter(hits, (h: Hit) => h.who == who && start <= h.at < start + width)
  }

  /**
   * Pacing bounds every window, wherever it starts: it holds no more hits than
   * the ceiling of the last one admitted in it.
   */
  lemma {:induction false} PacedWindow(grants: seq<Grant>, who: nat, start: int, width: nat)
    requires Paced(grants, width)
    ensures InWindow(Hits(grants), who, start, width) != [] ==>
      exists i :: 0 <= i < |grants| && LastInWindow(grants, i, who, start, width)
        && |InWindow(Hits(grants), who, start, width)| <= grants[i].limit
    decreases |grants|
  {
    if grants != [] {
      var n := |grants| - 1;
      var before, g := grants[..n], grants[n];
      assert Hits(grants) == Hits(before) + [g.hit];
      var p := (h: Hit) => h.who == who && start <= h.at < start + width;
      FilterConcat(Hits(before), [g.hit], p);
      assert [g.hit][1..] == [];
      if p(g.hit) {
        assert Hits(before) == Hits(grants)[..n];
        WindowRecent(Hits(before), who, start, width, g.hit.at);
        assert LastInWindow(grants, n, who, start, width);
      } else {
        PacedPrefix(grants, n, width);
        PacedWindow(before, who, start, width);
        LastOfMore(grants, n, who, start, width);
      }
    }
  }

  /** A grant outside the window changes nothing about the last one in it. */
  lemma LastOfMore(grants: seq<Grant>, n: nat, who: nat, start: int, width: nat)
    requires |grants| == n + 1
    requires !(grants[n].hit.who == who && start <= grants[n].hit.at < start + width)
    ensures forall i :: 0 <= i < n && LastInWindow(grants[..n], i, who, start, width) ==>
      LastInWindow(grants, i, who, start, width) && grants[..n][i].limit == grants[i].limit
  {
    forall i | 0 <= i < n && LastInWindow(grants[..n], i, who, start, width)
      ensures LastInWindow(grants, i, who, start, width)
    {
      forall j | i < j < |grants| ensures !(grants[j].hit.who == who && start <= grants[j].hit.at < start + width) {
        if j < n {
          assert grants[..n][j] == grants[j];
        }
      }
    }
  }

  predicate LastInWindow(grants: seq<Grant>, i: nat, who: nat, start: int, width: nat)
    requires i < |grants|
  {
    && grants[i].hit.who == who && start <= grants[i].hit.at < start + width
    && forall j :: i < j < |grants| ==>
         !(grants[j].hit.who == who && start <= grants[j].hit.at < start + width)
  }

  lemma PacedPrefix(grants: seq<Grant>, n: nat, width: nat)
    requires Paced(grants, width) && n <= |grants|
    ensures Paced(grants[..n], width)
  {
    forall i | 0 <= i < n
      ensures |Recent(Hits(grants[..n])[..i], grants[i].hit.who, grants[i].hit.at - width)| < grants[i].limit
    {
      assert Hits(grants[..n])[..i] == Hits(grants)[..i];
    }
  }

  /** Every hit of a window is recent at any hit of the same window. */
  lemma {:induction false} WindowRecent(hits: seq<Hit>, who: nat, start: int, width: nat, at: Time)
    requires start <= at < start + width
    ensures |InWindow(hits, who, start, width)| <= |Recent(hits, who, at - width)|
  {
    if hits != [] {
      WindowRecent(hits[1..], who, start, width, at);
    }
  }

  lemma {:induction false} RecentIsWindow(hits: seq<Hit>, who: nat, now: Time, width: nat)
    requires forall i :: 0 <= i < |hits| ==> hits[i].at <= now
    ensures Recent(hits, who, now - width) == InWindow(hits, who, now - width + 1, width)
  {
    if hits != [] {
      assert forall i :: 0 <= i < |hits[1..]| ==> hits[1..][i] == hits[i + 1];
      RecentIsWindow(hits[1..], who, now, width);
    }
  }
}
