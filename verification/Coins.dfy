/** Coins, their sums, and the sorting and filtering the selection code is written with. */
module Coins {

  datatype Option<+T> = None | Some(value: T)

  /** A transaction id: only ever compared for equality. */
  type Txid = nat
  /** Milliseconds since the epoch. */
  type Time = nat

  const HOUR_MS: nat := 3_600_000
  const DAY_MS: nat := 24 * HOUR_MS

  const COIN: nat := 100_000_000
  /** What a masternode's collateral output holds. */
  const MN_COLLATERAL_SATS: nat := 1000 * COIN

  function Min(a: nat, b: nat): (m: nat)
    ensures m <= a && m <= b
  {
    if a <= b then a else b
  }

  function Max(a: nat, b: nat): (m: nat)
    ensures m >= a && m >= b
  {
    if a >= b then a else b
  }

  datatype Outpoint = Outpoint(txid: Txid, index: nat)

  datatype Coin = Coin(op: Outpoint, sats: nat, height: Option<nat>) {
    predicate Confirmed() {
      height.Some?
    }
  }

  function Sum(coins: seq<Coin>): nat {
    if coins == [] then 0 else coins[0].sats + Sum(coins[1..])
  }

  /** `s` is a choice of coins from `coins`, each at most as often as it occurs there. */
  ghost predicate Picks(s: seq<Coin>, coins: seq<Coin>) {
    multiset(s) <= multiset(coins)
  }

  ghost predicate Distinct<T(!new)>(s: seq<T>) {
    forall i, j :: 0 <= i < j < |s| ==> s[i] != s[j]
  }

  lemma PicksTrans(a: seq<Coin>, b: seq<Coin>, c: seq<Coin>)
    requires Picks(a, b) && Picks(b, c)
    ensures Picks(a, c)
  {
  }

  lemma PicksPermutation(t: seq<Coin>, a: seq<Coin>, b: seq<Coin>)
    requires multiset(a) == multiset(b)
    ensures Picks(t, a) <==> Picks(t, b)
  {
  }

  // ------------------------------------------------------------------ sums

  lemma {:induction false} SumConcat(a: seq<Coin>, b: seq<Coin>)
    ensures Sum(a + b) == Sum(a) + Sum(b)
  {
    if a == [] {
      assert a + b == b;
    } else {
      assert (a + b)[1..] == a[1..] + b;
      SumConcat(a[1..], b);
    }
  }

  /** One more step of a loop that adds up a list. */
  lemma SumSnoc(coins: seq<Coin>, i: nat)
    requires i < |coins|
    ensures Sum(coins[..i + 1]) == Sum(coins[..i]) + coins[i].sats
  {
    assert coins[..i + 1] == coins[..i] + [coins[i]];
    SumConcat(coins[..i], [coins[i]]);
  }

  lemma SumSplit(coins: seq<Coin>, i: nat)
    requires i <= |coins|
    ensures Sum(coins) == Sum(coins[..i]) + Sum(coins[i..])
  {
    assert coins == coins[..i] + coins[i..];
    SumConcat(coins[..i], coins[i..]);
  }

  /** Taking out one occurrence of a coin. */
  lemma Without(s: seq<Coin>, c: Coin) returns (rest: seq<Coin>)
    requires c in s
    ensures |rest| == |s| - 1 && Sum(s) == c.sats + Sum(rest)
    ensures multiset(rest) == multiset(s) - multiset{c}
  {
    var i :| 0 <= i < |s| && s[i] == c;
    rest := s[..i] + s[i + 1..];
    assert s == s[..i] + ([c] + s[i + 1..]);
    SumConcat(s[..i], [c] + s[i + 1..]);
    SumConcat(s[..i], s[i + 1..]);
  }

  lemma {:induction false} SumPermutation(a: seq<Coin>, b: seq<Coin>)
    requires multiset(a) == multiset(b)
    ensures Sum(a) == Sum(b) && |a| == |b|
    decreases |a|
  {
    assert |multiset(a)| == |a| && |multiset(b)| == |b|;
    if a != [] {
      assert a[0] in multiset(b);
      var rest := Without(b, a[0]);
      assert a == [a[0]] + a[1..];
      SumPermutation(a[1..], rest);
    }
  }

  lemma {:induction false} SumPicks(s: seq<Coin>, coins: seq<Coin>)
    requires Picks(s, coins)
    ensures |s| <= |coins| && Sum(s) <= Sum(coins)
    decreases |s|
  {
    if s != [] {
      assert s[0] in multiset(s);
      var rest := Without(coins, s[0]);
      assert s == [s[0]] + s[1..];
      SumPicks(s[1..], rest);
    }
  }

  // ------------------------------------------------------------------ filters

  function Filter<T>(s: seq<T>, p: T -> bool): seq<T> {
    if s == [] then []
    else if p(s[0]) then [s[0]] + Filter(s[1..], p)
    else Filter(s[1..], p)
  }

  lemma {:induction false} FilterCount<T>(s: seq<T>, p: T -> bool, x: T)
    ensures multiset(Filter(s, p))[x] == if p(x) then multiset(s)[x] else 0
  {
    if s != [] {
      FilterCount(s[1..], p, x);
      assert s == [s[0]] + s[1..];
    }
  }

  /** A choice from the filtered list is a choice from the list whose elements all pass. */
  lemma PicksFilter(t: seq<Coin>, s: seq<Coin>, p: Coin -> bool)
    ensures Picks(t, Filter(s, p)) <==> Picks(t, s) && forall c :: c in t ==> p(c)
  {
    forall x: Coin ensures multiset(Filter(s, p))[x] == if p(x) then multiset(s)[x] else 0 {
      FilterCount(s, p, x);
    }
    forall c | c in t ensures c in multiset(t) {}
  }

  lemma FilterIn<T>(s: seq<T>, p: T -> bool)
    ensures forall x :: x in Filter(s, p) <==> x in s && p(x)
    ensures multiset(Filter(s, p)) <= multiset(s)
    ensures |Filter(s, p)| <= |s|
  {
    forall x: T ensures multiset(Filter(s, p))[x] == if p(x) then multiset(s)[x] else 0 {
      FilterCount(s, p, x);
    }
    forall x | x in s ensures x in multiset(s) {}
    forall x | x in Filter(s, p) ensures x in multiset(Filter(s, p)) {}
    FilterShorter(s, p);
  }

  lemma {:induction false} FilterNone<T>(s: seq<T>, p: T -> bool)
    requires forall x :: x in s ==> !p(x)
    ensures Filter(s, p) == []
  {
    if s != [] {
      assert s[0] in s;
      FilterNone(s[1..], p);
    }
  }

  lemma FilterOne<T>(x: T, p: T -> bool)
    ensures Filter([x], p) == if p(x) then [x] else []
  {
    assert [x][1..] == [];
  }

  lemma FilterPair<T>(a: T, b: T, p: T -> bool)
    ensures Filter([a, b], p) == (if p(a) then [a] else []) + (if p(b) then [b] else [])
  {
    assert [a, b][1..] == [b];
    FilterOne(b, p);
  }

  lemma {:induction false} FilterShorter<T>(s: seq<T>, p: T -> bool)
    ensures |Filter(s, p)| <= |s|
  {
    if s != [] { FilterShorter(s[1..], p); }
  }

  lemma {:induction false} FilterConcat<T>(a: seq<T>, b: seq<T>, p: T -> bool)
    ensures Filter(a + b, p) == Filter(a, p) + Filter(b, p)
  {
    if a == [] {
      assert a + b == b;
    } else {
      assert (a + b)[1..] == a[1..] + b;
      FilterConcat(a[1..], b, p);
    }
  }

  lemma {:induction false} FilterTrue<T>(s: seq<T>, p: T -> bool)
    requires forall x :: x in s ==> p(x)
    ensures Filter(s, p) == s
  {
    if s != [] {
      assert s[0] in s;
      FilterTrue(s[1..], p);
    }
  }

  lemma {:induction false} FilterSame<T>(s: seq<T>, p: T -> bool, q: T -> bool)
    requires forall x :: x in s ==> p(x) == q(x)
    ensures Filter(s, p) == Filter(s, q)
  {
    if s != [] {
      assert s[0] in s;
      FilterSame(s[1..], p, q);
    }
  }

  lemma {:induction false} FilterFilter<T>(s: seq<T>, p: T -> bool, q: T -> bool, both: T -> bool)
    requires forall x :: x in s ==> (both(x) <==> p(x) && q(x))
    ensures Filter(Filter(s, p), q) == Filter(s, both)
  {
    if s != [] {
      assert s[0] in s;
      FilterFilter(s[1..], p, q, both);
    }
  }

  lemma {:induction false} FilterAll<T>(s: seq<T>, p: T -> bool)
    requires |Filter(s, p)| == |s|
    ensures Filter(s, p) == s
  {
    if s != [] {
      FilterShorter(s[1..], p);
      FilterAll(s[1..], p);
    }
  }

  lemma {:induction false} FilterMisses<T>(s: seq<T>, p: T -> bool)
    requires |Filter(s, p)| < |s|
    ensures exists x :: x in s && !p(x)
  {
    if p(s[0]) {
      FilterMisses(s[1..], p);
    }
  }

  // ------------------------------------------------------------------ sorting

  datatype Order = Ascending | Descending {
    predicate Le(a: Coin, b: Coin) {
      if Ascending? then a.sats <= b.sats else a.sats >= b.sats
    }
  }

  predicate Sorted(o: Order, s: seq<Coin>) {
    forall i, j :: 0 <= i < j < |s| ==> o.Le(s[i], s[j])
  }

  /** `c` goes before the first coin it may precede, so equal coins keep their order. */
  function Insert(o: Order, c: Coin, s: seq<Coin>): (r: seq<Coin>)
    ensures multiset(r) == multiset{c} + multiset(s)
  {
    if s == [] then [c]
    else if o.Le(c, s[0]) then [c] + s
    else
      assert s == [s[0]] + s[1..];
      [s[0]] + Insert(o, c, s[1..])
  }

  /** The language's own stable sort, by amount. */
  function Sort(o: Order, s: seq<Coin>): (r: seq<Coin>)
    ensures multiset(r) == multiset(s)
  {
    if s == [] then []
    else
      assert s == [s[0]] + s[1..];
      Insert(o, s[0], Sort(o, s[1..]))
  }

  lemma SortedTail(o: Order, s: seq<Coin>)
    requires s != [] && Sorted(o, s)
    ensures Sorted(o, s[1..]) && forall y :: y in s[1..] ==> o.Le(s[0], y)
  {
  }

  lemma SortedCons(o: Order, x: Coin, t: seq<Coin>)
    requires Sorted(o, t) && (t != [] ==> o.Le(x, t[0]) || forall y :: y in t ==> o.Le(x, y))
    ensures Sorted(o, [x] + t)
  {
    var s := [x] + t;
    forall i, j | 0 <= i < j < |s| ensures o.Le(s[i], s[j]) {
      assert s[j] == t[j - 1];
    }
  }

  lemma InsertIn(o: Order, c: Coin, s: seq<Coin>)
    ensures forall x :: x in Insert(o, c, s) ==> x == c || x in s
  {
    forall x | x in Insert(o, c, s) ensures x == c || x in s {
      assert x in multiset(Insert(o, c, s));
    }
  }

  lemma {:induction false} InsertSorted(o: Order, c: Coin, s: seq<Coin>)
    requires Sorted(o, s)
    ensures Sorted(o, Insert(o, c, s))
  {
    if s == [] {
    } else if !o.Le(c, s[0]) {
      hide Sorted;
      SortedTail(o, s);
      var t := Insert(o, c, s[1..]);
      InsertSorted(o, c, s[1..]);
      InsertIn(o, c, s[1..]);
      SortedCons(o, s[0], t);
    } else {
      SortedCons(o, c, s);
    }
  }

  lemma {:induction false} SortSorted(o: Order, s: seq<Coin>)
    ensures Sorted(o, Sort(o, s))
    ensures multiset(Sort(o, s)) == multiset(s)
    ensures |Sort(o, s)| == |s| && Sum(Sort(o, s)) == Sum(s)
    ensures forall c :: c in Sort(o, s) <==> c in s
  {
    if s != [] {
      SortSorted(o, s[1..]);
      InsertSorted(o, s[0], Sort(o, s[1..]));
    }
    SumPermutation(Sort(o, s), s);
    forall c ensures c in Sort(o, s) <==> c in s {
      assert c in multiset(Sort(o, s)) <==> c in multiset(s);
    }
  }

  // ------------------------------------------------------------------ exchange arguments

  /** A sorted list's first k coins are extreme: each later window of k sums to no more (no less). */
  lemma {:induction false} ShiftWindow(o: Order, s: seq<Coin>, k: nat)
    requires Sorted(o, s) && k < |s|
    ensures o.Descending? ==> Sum(s[1..][..k]) <= Sum(s[..k])
    ensures o.Ascending? ==> Sum(s[1..][..k]) >= Sum(s[..k])
  {
    if k > 0 {
      ShiftWindow(o, s, k - 1);
      SumSnoc(s, k - 1);
      SumSnoc(s[1..], k - 1);
    }
  }

  /** A choice that avoids the head is a choice from the tail; one that has it loses it with the head. */
  lemma PicksTail(s: seq<Coin>, coins: seq<Coin>) returns (rest: seq<Coin>)
    requires coins != [] && Picks(s, coins)
    ensures Picks(rest, coins[1..])
    ensures if coins[0] in s then |rest| + 1 == |s| && Sum(s) == coins[0].sats + Sum(rest) else rest == s
  {
    assert coins == [coins[0]] + coins[1..];
    if coins[0] in s {
      rest := Without(s, coins[0]);
    } else {
      rest := s;
      assert coins[0] !in multiset(s);
    }
  }

  /** Among choices of a given size from a sorted list, the leading ones are extreme. */
  lemma {:induction false} Extreme(o: Order, sorted: seq<Coin>, s: seq<Coin>)
    requires Sorted(o, sorted) && Picks(s, sorted)
    ensures |s| <= |sorted|
    ensures o.Descending? ==> Sum(s) <= Sum(sorted[..|s|])
    ensures o.Ascending? ==> Sum(s) >= Sum(sorted[..|s|])
    decreases |sorted|
  {
    SumPicks(s, sorted);
    if s != [] {
      var rest := PicksTail(s, sorted);
      Extreme(o, sorted[1..], rest);
      if |rest| < |s| {
        assert sorted[..|s|] == [sorted[0]] + sorted[1..][..|rest|];
      } else if |s| < |sorted| {
        ShiftWindow(o, sorted, |s|);
      }
    }
  }
}
