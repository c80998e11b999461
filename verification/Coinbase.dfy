/** Young coinbases sit out: `immatureTxids` and the coinbase_checks table of src/treasury.ts. */
module Coinbase {
  import opened Coins

  const COINBASE_MATURITY: nat := 101
  const MAX_COINBASE_LOOKUPS: nat := 6

  type Checks = map<Txid, bool>

  predicate Young(c: Coin, tip: nat) {
    c.height.None? || tip + 1 - c.height.value < COINBASE_MATURITY
  }

  /** Transactions of the young coins, each once, in listing order. */
  function YoungTxids(listing: seq<Coin>, tip: nat): seq<Txid> {
    if listing == [] then []
    else
      var c, rest := listing[|listing| - 1], YoungTxids(listing[..|listing| - 1], tip);
      if Young(c, tip) && c.op.txid !in rest then rest + [c.op.txid] else rest
  }

  function Unknown(young: seq<Txid>, checks: Checks): seq<Txid> {
    var u := Filter(young, (t: Txid) => t !in checks);
    if |u| <= MAX_COINBASE_LOOKUPS then u else u[..MAX_COINBASE_LOOKUPS]
  }

  /** INSERT OR IGNORE of every lookup that was answered. */
  function Learn(checks: Checks, asked: seq<Txid>, answers: map<Txid, bool>): Checks {
    if asked == [] then checks
    else
      var t, rest := asked[|asked| - 1], Learn(checks, asked[..|asked| - 1], answers);
      if t in answers && t !in rest then rest[t := answers[t]] else rest
  }

  predicate SitsOut(checks: Checks, t: Txid) {
    t in checks ==> checks[t]
  }

  function Immature(young: seq<Txid>, checks: Checks): set<Txid> {
    set t | t in young && SitsOut(checks, t)
  }

  class CoinbaseChecks {
    var checks: Checks

    constructor ()
      ensures checks == map[]
    {
      checks := map[];
    }

    /** Ours are never coinbases. */
    method RecordOwn(txid: Txid)
      modifies this
      ensures checks == if txid in old(checks) then old(checks) else old(checks)[txid := false]
    {
      if txid !in checks {
        checks := checks[txid := false];
      }
    }

    /** `answers` holds the lookups that succeed. */
    method ImmatureTxids(listing: seq<Coin>, tip: nat, answers: map<Txid, bool>) returns (immature: set<Txid>)
      modifies this
      ensures var young := YoungTxids(listing, tip);
        && checks == Learn(old(checks), Unknown(young, old(checks)), answers)
        && immature == Immature(young, checks)
    {
      var young: seq<Txid> := [];
      for i := 0 to |listing|
        invariant young == YoungTxids(listing[..i], tip)
      {
        assert listing[..i + 1][..i] == listing[..i];
        if Young(listing[i], tip) && listing[i].op.txid !in young {
          young := young + [listing[i].op.txid];
        }
      }
      assert listing[..|listing|] == listing;
      var known := checks;
      var unknown := Unknown(young, known);
      for i := 0 to |unknown|
        invariant checks == Learn(known, unknown[..i], answers)
      {
        assert unknown[..i + 1][..i] == unknown[..i];
        if unknown[i] in answers && unknown[i] !in checks {
          checks := checks[unknown[i] := answers[unknown[i]]];
        }
      }
      assert unknown[..|unknown|] == unknown;
      immature := Immature(young, checks);
    }
  }

  ghost predicate Truthful(verdicts: map<Txid, bool>, coinbases: iset<Txid>) {
    forall t :: t in verdicts && !verdicts[t] ==> t !in coinbases
  }

  /** Coins of one transaction are listed at one height. */
  ghost predicate OneHeight(listing: seq<Coin>) {
    forall c, d :: c in listing && d in listing && c.op.txid == d.op.txid ==> c.height == d.height
  }

  lemma {:induction false} YoungTxidsIn(listing: seq<Coin>, tip: nat)
    ensures forall c :: c in listing && Young(c, tip) ==> c.op.txid in YoungTxids(listing, tip)
    ensures forall t :: t in YoungTxids(listing, tip) ==> exists c :: c in listing && Young(c, tip) && c.op.txid == t
  {
    if listing != [] {
      var init, c := listing[..|listing| - 1], listing[|listing| - 1];
      YoungTxidsIn(init, tip);
      forall t | t in YoungTxids(listing, tip) ensures exists d :: d in listing && Young(d, tip) && d.op.txid == t {
        if t in YoungTxids(init, tip) {
          var d :| d in init && Young(d, tip) && d.op.txid == t;
          assert d in listing;
        } else {
          assert c in listing && Young(c, tip) && c.op.txid == t;
        }
      }
    }
  }

  lemma {:induction false} LearnKeeps(checks: Checks, asked: seq<Txid>, answers: map<Txid, bool>, coinbases: iset<Txid>)
    requires Truthful(checks, coinbases) && Truthful(answers, coinbases)
    ensures Truthful(Learn(checks, asked, answers), coinbases)
    ensures forall t :: t in checks ==>
      t in Learn(checks, asked, answers) && Learn(checks, asked, answers)[t] == checks[t]
  {
    if asked != [] {
      LearnKeeps(checks, asked[..|asked| - 1], answers, coinbases);
    }
  }

  /**
   * With truthful lookups no coinbase less than COINBASE_MATURITY deep is ever
   * offered to coin selection, and verdicts stay truthful. A coin classified as
   * none never sits out; any other only while one of its transaction is young,
   * which is the coin itself when a transaction is listed at one height.
   */
  lemma CoinbasesSitOut(listing: seq<Coin>, tip: nat, checks: Checks, answers: map<Txid, bool>, coinbases: iset<Txid>)
    requires Truthful(checks, coinbases) && Truthful(answers, coinbases)
    ensures var young := YoungTxids(listing, tip);
      var checks' := Learn(checks, Unknown(young, checks), answers);
      var immature := Immature(young, checks');
      && Truthful(checks', coinbases)
      && (forall c :: c in listing && c.op.txid in coinbases && c.op.txid !in immature ==> !Young(c, tip))
      && (forall c :: c in listing && c.op.txid in immature ==>
            exists d :: d in listing && d.op.txid == c.op.txid && Young(d, tip))
      && (forall t :: t in checks && !checks[t] ==> t !in immature)
      && (OneHeight(listing) ==> forall c :: c in listing && c.op.txid in immature ==> Young(c, tip))
  {
    var young := YoungTxids(listing, tip);
    YoungTxidsIn(listing, tip);
    LearnKeeps(checks, Unknown(young, checks), answers, coinbases);
  }

  /** At most six lookups are made, of young transactions not yet classified, and of all of those if they are fewer. */
  lemma LookupsBounded(listing: seq<Coin>, tip: nat, checks: Checks)
    ensures var young := YoungTxids(listing, tip);
      var asked := Unknown(young, checks);
      && |asked| <= 6
      && (forall t :: t in asked ==> t in young && t !in checks)
      && (|asked| < 6 ==> forall t :: t in young && t !in checks ==> t in asked)
  {
    var young := YoungTxids(listing, tip);
    FilterIn(young, (t: Txid) => t !in checks);
  }

  /** A lookup that is answered is remembered, unless a verdict is stored already, and nothing else is. */
  lemma {:induction false} LearnIff(checks: Checks, asked: seq<Txid>, answers: map<Txid, bool>, t: Txid)
    ensures var after := Learn(checks, asked, answers);
      && (t in after <==> t in checks || (t in asked && t in answers))
      && (t in after ==> after[t] == if t in checks then checks[t] else answers[t])
  {
    if asked != [] {
      var init, last := asked[..|asked| - 1], asked[|asked| - 1];
      LearnIff(checks, init, answers, t);
      LearnIff(checks, init, answers, last);
      assert t in asked <==> t in init || t == last;
    }
  }

  /** A coin is young until 101 blocks stand on its own one, counting that. */
  lemma YoungIff(c: Coin, tip: nat)
    ensures !Young(c, tip) <==> c.height.Some? && tip >= c.height.value + 100
  {
  }
}
