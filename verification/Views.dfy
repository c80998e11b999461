/** Wallet views: coins by outpoint, each listed once. */
module Views {
  import opened Coins

  /** A wallet view lists each outpoint once. */
  ghost predicate View(coins: seq<Coin>) {
    forall i, j :: 0 <= i < j < |coins| ==> coins[i].op != coins[j].op
  }

  function Ops(coins: seq<Coin>): set<Outpoint> {
    set c | c in coins :: c.op
  }

  lemma {:induction false} ViewTail(coins: seq<Coin>)
    requires coins != [] && View(coins)
    ensures View(coins[1..]) && forall c: Coin :: c in coins[1..] ==> c.op != coins[0].op
  {
  }

  /** A choice from a view is a view of some of its coins. */
  lemma {:induction false} ViewPicks(t: seq<Coin>, coins: seq<Coin>)
    requires View(coins) && Picks(t, coins)
    ensures View(t) && forall c :: c in t ==> c in coins
  {
    forall c | c in t ensures c in coins {
      assert c in multiset(t);
    }
    forall i, j | 0 <= i < j < |t| ensures t[i].op != t[j].op {
      if t[i].op == t[j].op {
        SameOp(coins, t[i], t[j]);
        TwiceIn(t, i, j);
        OnceIn(coins, t[i]);
      }
    }
  }

  lemma SameOp(coins: seq<Coin>, a: Coin, b: Coin)
    requires View(coins) && a in coins && b in coins && a.op == b.op
    ensures a == b
  {
  }

  lemma TwiceIn(t: seq<Coin>, i: nat, j: nat)
    requires i < j < |t| && t[i] == t[j]
    ensures multiset(t)[t[i]] >= 2
  {
    assert t == t[..j] + t[j..];
    assert t[i] in t[..j] && t[j] in t[j..];
    assert t[i] in multiset(t[..j]) && t[j] in multiset(t[j..]);
  }

  lemma {:induction false} OnceIn(coins: seq<Coin>, c: Coin)
    requires View(coins)
    ensures multiset(coins)[c] <= 1
  {
    if coins != [] {
      assert coins == [coins[0]] + coins[1..];
      ViewTail(coins);
      OnceIn(coins[1..], c);
      if c == coins[0] {
        assert c !in coins[1..];
        assert c !in multiset(coins[1..]);
      }
    }
  }

  lemma FilterView(coins: seq<Coin>, p: Coin -> bool)
    requires View(coins)
    ensures View(Filter(coins, p))
    ensures forall c :: c in Filter(coins, p) <==> c in coins && p(c)
  {
    FilterIn(coins, p);
    ViewPicks(Filter(coins, p), coins);
  }

  lemma SortView(o: Order, coins: seq<Coin>)
    requires View(coins)
    ensures View(Sort(o, coins)) && Sorted(o, Sort(o, coins))
    ensures forall c :: c in Sort(o, coins) <==> c in coins
  {
    SortSorted(o, coins);
    ViewPicks(Sort(o, coins), coins);
  }
}
