/** A wallet after a transaction of ours: its inputs gone, its own outputs there, unconfirmed. */
module Wallet {
  import opened Coins
  import opened Views
  import opened Builders

  function NewCoins(outs: seq<OwnOutput>): (r: seq<Coin>)
    ensures |r| == |outs|
    ensures forall i :: 0 <= i < |r| ==> r[i] == Coin(outs[i].op, outs[i].sats, None)
  {
    seq(|outs|, i requires 0 <= i < |outs| => Coin(outs[i].op, outs[i].sats, None))
  }

  /** Coins whose outpoint is none of `ops`. */
  function Unspent(coins: seq<Coin>, ops: seq<Outpoint>): seq<Coin> {
    Filter(coins, (c: Coin) => c.op !in ops)
  }

  function After(w: seq<Coin>, tx: BuiltTx): seq<Coin> {
    Unspent(w, tx.inputs) + NewCoins(tx.ownOutputs)
  }

  ghost predicate Fresh(w: seq<Coin>, txid: Txid) {
    forall c: Coin :: c in w ==> c.op.txid != txid
  }

  lemma {:induction false} NewCoinsPay(outs: seq<OwnOutput>)
    ensures Sum(NewCoins(outs)) == Paid(outs)
  {
    if outs != [] {
      assert NewCoins(outs)[1..] == NewCoins(outs[1..]);
      NewCoinsPay(outs[1..]);
    }
  }

  /** Spending some of a view's coins leaves the others, and both sums add up. */
  lemma UnspentSum(w: seq<Coin>, inputs: seq<Coin>)
    requires View(w) && View(inputs) && forall c :: c in inputs ==> c in w
    ensures Sum(Unspent(w, Outpoints(inputs))) == Sum(w) - Sum(inputs)
    ensures |Unspent(w, Outpoints(inputs))| == |w| - |inputs|
  {
    var left := Unspent(w, Outpoints(inputs));
    forall x: Coin ensures multiset(left + inputs)[x] == multiset(w)[x] {
      FilterCount(w, (c: Coin) => c.op !in Outpoints(inputs), x);
      OnceIn(inputs, x);
      OnceIn(w, x);
      SpentByOp(w, inputs, x);
    }
    assert multiset(left + inputs) == multiset(w);
    SumPermutation(left + inputs, w);
    SumConcat(left, inputs);
  }

  /** A coin of the wallet is spent by outpoint exactly when it is one of the inputs. */
  lemma SpentByOp(w: seq<Coin>, inputs: seq<Coin>, x: Coin)
    requires View(w) && forall c :: c in inputs ==> c in w
    ensures x in w ==> (x.op in Outpoints(inputs) <==> x in inputs)
    ensures x in inputs ==> x in w
  {
    var ops := Outpoints(inputs);
    if x in w && x.op in ops {
      var i :| 0 <= i < |ops| && ops[i] == x.op;
      assert inputs[i] in inputs;
      SameOp(w, x, inputs[i]);
    }
    if x in inputs {
      var i :| 0 <= i < |inputs| && inputs[i] == x;
      assert ops[i] == x.op;
    }
  }

  /** A wallet stays a view: a fresh transaction's outputs collide with nothing. */
  lemma AfterView(w: seq<Coin>, tx: BuiltTx)
    requires View(w) && Fresh(w, tx.txid)
    requires forall o :: o in tx.ownOutputs ==> o.op.txid == tx.txid
    requires forall i, j :: 0 <= i < j < |tx.ownOutputs| ==> tx.ownOutputs[i].op != tx.ownOutputs[j].op
    ensures View(After(w, tx))
  {
    var left, added := Unspent(w, tx.inputs), NewCoins(tx.ownOutputs);
    FilterView(w, (c: Coin) => c.op !in tx.inputs);
    var w' := After(w, tx);
    forall i, j | 0 <= i < j < |w'| ensures w'[i].op != w'[j].op {
      if i < |left| && j >= |left| {
        assert left[i] in w;
        assert added[j - |left|].op == tx.ownOutputs[j - |left|].op;
        assert tx.ownOutputs[j - |left|] in tx.ownOutputs;
      }
    }
  }

  /** The wallet loses exactly what the transaction sends away plus its fee. */
  lemma AfterSum(w: seq<Coin>, inputs: seq<Coin>, tx: BuiltTx)
    requires View(w) && View(inputs) && forall c :: c in inputs ==> c in w
    requires tx.inputs == Outpoints(inputs) && tx.totalIn == Sum(inputs)
    ensures Sum(After(w, tx)) == Sum(w) - tx.totalIn + Paid(tx.ownOutputs)
    ensures |After(w, tx)| == |w| - |inputs| + |tx.ownOutputs|
  {
    UnspentSum(w, inputs);
    NewCoinsPay(tx.ownOutputs);
    SumConcat(Unspent(w, tx.inputs), NewCoins(tx.ownOutputs));
  }
}
