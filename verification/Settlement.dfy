/**
 * Broadcasting a transaction and deciding whether it is on the network:
 * `broadcast`, `relay`, `anyKnowsTx` and `knowsTx` of src/chain/index.ts, and
 * `settleBroadcast` of src/treasury.ts.
 */
module Settlement {
  import opened Coins

  /** A fixed provider, or a sampled evonode: an arbitrary third party. */
  datatype Provider = Provider(name: nat, evonode: bool, canBroadcast: bool)

  datatype Reply =
    | Took(sameTxid: bool)
    | AlreadyKnown
    | Rejects(missingInputs: bool)
    | Silent

  /** One provider's answer to one broadcast, and whether it now holds the transaction. */
  datatype Asked = Asked(relay: Provider, reply: Reply, holds: bool)

  datatype Rejection = Rejection(name: nat, missingInputs: bool)

  datatype Tally = Tally(
    accepted: seq<nat>,
    rejected: seq<Rejection>,
    ambiguous: seq<nat>,
    unvouched: seq<nat>)

  const EMPTY: Tally := Tally([], [], [], [])

  /** The answers of the fixed providers and the sample, and those the fallback relays would give. */
  datatype Round = Round(active: seq<Asked>, fallback: seq<Asked>)

  datatype Lookup = Lookup(source: Provider, answer: Option<bool>)

  /** Everything the network answers while one transaction is settled. */
  datatype Net = Net(first: Round, second: Round, lookActive: seq<Lookup>, lookFallback: seq<Lookup>)

  datatype Verdict =
    | Live(accepted: seq<nat>)
    | Unresolved
    | StaleInputs
    | CleanlyRejected
    | NoRelays

  function Count(t: Tally, a: Asked): Tally {
    var name := a.relay.name;
    match a.reply
    case Took(same) =>
      if a.relay.evonode && !same then t.(ambiguous := t.ambiguous + [name])
      else if a.relay.evonode then t.(unvouched := t.unvouched + [name])
      else t.(accepted := t.accepted + [name])
    case AlreadyKnown =>
      if a.relay.evonode then t.(unvouched := t.unvouched + [name])
      else t.(accepted := t.accepted + [name])
    case Rejects(missing) => t.(rejected := t.rejected + [Rejection(name, missing)])
    case Silent => t.(ambiguous := t.ambiguous + [name])
  }

  function CountAll(t: Tally, asked: seq<Asked>): Tally {
    if asked == [] then t else Count(CountAll(t, asked[..|asked| - 1]), asked[|asked| - 1])
  }

  function Relays(asked: seq<Asked>): seq<Asked> {
    Filter(asked, (a: Asked) => a.relay.canBroadcast)
  }

  /** Acceptance by evonodes alone counts as nothing better than silence. */
  function Vouch(t: Tally): Tally {
    if t.accepted != [] then t.(accepted := t.accepted + t.unvouched)
    else t.(ambiguous := t.ambiguous + t.unvouched)
  }

  function Broadcast(r: Round): Option<Tally> {
    var relays := Relays(r.active);
    if relays == [] && r.fallback == [] then None
    else
      var t := CountAll(EMPTY, relays);
      Some(Vouch(if t.accepted == [] then CountAll(t, Relays(r.fallback)) else t))
  }

  function KnowsTx(looks: seq<Lookup>): Option<bool> {
    if exists l :: l in looks && l.answer == Some(true) && !l.source.evonode then Some(true)
    else if exists l :: l in looks && l.answer == Some(false) then Some(false)
    else None
  }

  function AnyKnowsTx(active: seq<Lookup>, fallback: seq<Lookup>): Option<bool> {
    var first := KnowsTx(active);
    if first.Some? || fallback == [] then first else KnowsTx(fallback)
  }

  function Settle(net: Net): Verdict {
    var first := Broadcast(net.first);
    if first.None? then NoRelays
    else if first.value.accepted != [] then Live(first.value.accepted)
    else if first.value.ambiguous != [] then
      var second := Broadcast(net.second);
      if second.None? then NoRelays
      else if second.value.accepted != [] then Live(second.value.accepted)
      else if AnyKnowsTx(net.lookActive, net.lookFallback) == Some(true) then Live([])
      else Unresolved
    else if exists x :: x in first.value.rejected && x.missingInputs then StaleInputs
    else CleanlyRejected
  }

  // ------------------------------------------------------------------ the shared result

  /** The result one broadcast fills in, answer by answer, and the evonodes it benches on the way. */
  class BroadcastResult {
    var accepted: seq<nat>
    var rejected: seq<Rejection>
    var ambiguous: seq<nat>
    var unvouched: seq<nat>
    var benched: set<nat>

    function Value(): Tally
      reads this
    {
      Tally(accepted, rejected, ambiguous, unvouched)
    }

    constructor ()
      ensures Value() == EMPTY && benched == {}
    {
      accepted, rejected, ambiguous, unvouched := [], [], [], [];
      benched := {};
    }

    /** Only evonodes are ever benched, and never for a rejection or an acceptance. */
    method Relay(relays: seq<Asked>)
      modifies this
      ensures Value() == CountAll(old(Value()), relays)
      ensures benched == old(benched) + Failing(relays)
    {
      for i := 0 to |relays|
        invariant Value() == CountAll(old(Value()), relays[..i])
        invariant benched == old(benched) + Failing(relays[..i])
      {
        var a := relays[i];
        assert relays[..i + 1][..i] == relays[..i];
        FailingSnoc(relays[..i], a);
        assert relays[..i + 1] == relays[..i] + [a];
        match a.reply
        case Took(same) =>
          if a.relay.evonode && !same {
            benched := benched + {a.relay.name};
            ambiguous := ambiguous + [a.relay.name];
          } else if a.relay.evonode {
            unvouched := unvouched + [a.relay.name];
          } else {
            accepted := accepted + [a.relay.name];
          }
        case AlreadyKnown =>
          if a.relay.evonode {
            unvouched := unvouched + [a.relay.name];
          } else {
            accepted := accepted + [a.relay.name];
          }
        case Rejects(missing) =>
          rejected := rejected + [Rejection(a.relay.name, missing)];
        case Silent =>
          if a.relay.evonode {
            benched := benched + {a.relay.name};
          }
          ambiguous := ambiguous + [a.relay.name];
      }
      assert relays[..|relays|] == relays;
    }

    /** One whole broadcast on an empty result; false stands for the error thrown when there is nobody to ask. */
    method Run(r: Round) returns (ok: bool)
      requires Value() == EMPTY
      modifies this
      ensures ok <==> Broadcast(r).Some?
      ensures ok ==> Value() == Broadcast(r).value
    {
      var relays := Relays(r.active);
      if relays == [] && r.fallback == [] {
        return false;
      }
      Relay(relays);
      if accepted == [] {
        Relay(Relays(r.fallback));
      }
      if accepted != [] {
        accepted := accepted + unvouched;
      } else {
        ambiguous := ambiguous + unvouched;
      }
      return true;
    }
  }

  predicate Fails(a: Asked) {
    a.relay.evonode && (a.reply.Silent? || a.reply == Took(false))
  }

  function Failing(asked: seq<Asked>): set<nat> {
    set a | a in asked && Fails(a) :: a.relay.name
  }

  lemma FailingSnoc(asked: seq<Asked>, a: Asked)
    ensures Failing(asked + [a]) == Failing(asked) + if Fails(a) then {a.relay.name} else {}
  {
    forall n ensures n in Failing(asked + [a]) <==> n in Failing(asked) || (Fails(a) && n == a.relay.name) {
      if n in Failing(asked) {
        var b :| b in asked && Fails(b) && b.relay.name == n;
        assert b in asked + [a];
      }
      if Fails(a) && n == a.relay.name {
        assert a in asked + [a];
      }
    }
  }

  method AskAll(looks: seq<Lookup>) returns (r: Option<bool>)
    ensures r == KnowsTx(looks)
  {
    var answered := false;
    for i := 0 to |looks|
      invariant forall j :: 0 <= j < i ==> !(looks[j].answer == Some(true) && !looks[j].source.evonode)
      invariant answered <==> exists j :: 0 <= j < i && looks[j].answer == Some(false)
    {
      if looks[i].answer == Some(true) && !looks[i].source.evonode {
        return Some(true);
      }
      if looks[i].answer == Some(false) {
        answered := true;
      }
    }
    if answered {
      var j :| 0 <= j < |looks| && looks[j].answer == Some(false);
      assert looks[j] in looks;
      return Some(false);
    }
    return None;
  }

  method SettleBroadcast(net: Net) returns (r: Verdict)
    ensures r == Settle(net)
  {
    var first := new BroadcastResult();
    var ok := first.Run(net.first);
    if !ok {
      return NoRelays;
    }
    if first.accepted != [] {
      return Live(first.accepted);
    }
    if first.ambiguous != [] {
      var second := new BroadcastResult();
      ok := second.Run(net.second);
      if !ok {
        return NoRelays;
      }
      if second.accepted != [] {
        return Live(second.accepted);
      }
      var known := AskAll(net.lookActive);
      if known.None? && net.lookFallback != [] {
        known := AskAll(net.lookFallback);
      }
      if known == Some(true) {
        return Live([]);
      }
      return Unresolved;
    }
    if exists x :: x in first.rejected && x.missingInputs {
      return StaleInputs;
    }
    return CleanlyRejected;
  }

  // ------------------------------------------------------------------ what a verdict rests on

  /** A configured relay that took the transaction, or already had it. */
  predicate Vouches(a: Asked) {
    !a.relay.evonode && (a.reply.Took? || a.reply.AlreadyKnown?)
  }

  /** An answer after which the transaction may be in some mempool, though nobody vouched for it. */
  predicate Uncertain(a: Asked) {
    a.reply.Silent? || (a.relay.evonode && (a.reply.Took? || a.reply.AlreadyKnown?))
  }

  ghost predicate Vouched(asked: seq<Asked>) {
    exists a :: a in asked && Vouches(a)
  }

  /** The relays one broadcast really asks: the fallbacks only when no active one vouches. */
  ghost function AskedIn(r: Round): seq<Asked> {
    var relays := Relays(r.active);
    if Vouched(relays) then relays else relays + Relays(r.fallback)
  }

  lemma {:induction false} CountAllConcat(t: Tally, a: seq<Asked>, b: seq<Asked>)
    ensures CountAll(t, a + b) == CountAll(CountAll(t, a), b)
  {
    if b == [] {
      assert a + b == a;
    } else {
      assert (a + b)[..|a + b| - 1] == a + b[..|b| - 1];
      CountAllConcat(t, a, b[..|b| - 1]);
    }
  }

  ghost predicate Counted(t: Tally, asked: seq<Asked>) {
    && (t.accepted != [] <==> Vouched(asked))
    && (t.ambiguous + t.unvouched != [] <==> exists a :: a in asked && Uncertain(a))
    && ((exists x :: x in t.rejected && x.missingInputs) <==> exists a :: a in asked && a.reply == Rejects(true))
  }

  lemma {:induction false} CountedAll(asked: seq<Asked>)
    ensures Counted(CountAll(EMPTY, asked), asked)
  {
    if asked != [] {
      var init, a := asked[..|asked| - 1], asked[|asked| - 1];
      CountedAll(init);
      assert asked == init + [a];
      CountedSnoc(CountAll(EMPTY, init), init, a);
    }
  }

  lemma InSnoc(asked: seq<Asked>, a: Asked)
    ensures forall b :: b in asked + [a] <==> b in asked || b == a
  {
  }

  lemma CountedSnoc(t: Tally, asked: seq<Asked>, a: Asked)
    requires Counted(t, asked)
    ensures Counted(Count(t, a), asked + [a])
  {
    var t' := Count(t, a);
    InSnoc(asked, a);
    assert Vouched(asked + [a]) <==> Vouched(asked) || Vouches(a);
    assert (exists b :: b in asked + [a] && Uncertain(b)) <==> (exists b :: b in asked && Uncertain(b)) || Uncertain(a);
    assert (exists b :: b in asked + [a] && b.reply == Rejects(true)) <==>
      (exists b :: b in asked && b.reply == Rejects(true)) || a.reply == Rejects(true);
    assert forall x :: x in t'.rejected <==>
      x in t.rejected || (a.reply.Rejects? && x == Rejection(a.relay.name, a.reply.missingInputs));
  }

  /** What one broadcast reports, in terms of the answers it got. */
  lemma BroadcastReports(r: Round)
    ensures Broadcast(r).None? <==> Relays(r.active) == [] && r.fallback == []
    ensures var b, asked := Broadcast(r), AskedIn(r); b.Some? ==>
      && (b.value.accepted != [] <==> Vouched(asked))
      && (!Vouched(asked) ==> (b.value.ambiguous != [] <==> exists a :: a in asked && Uncertain(a)))
      && ((exists x :: x in b.value.rejected && x.missingInputs) <==>
            exists a :: a in asked && a.reply == Rejects(true))
  {
    var relays := Relays(r.active);
    CountedAll(relays);
    CountedAll(AskedIn(r));
    CountAllConcat(EMPTY, relays, Relays(r.fallback));
  }

  /** Some answer of this kind came from the provider of this name. */
  ghost predicate Named(asked: seq<Asked>, name: nat, kind: Asked -> bool) {
    exists a :: a in asked && a.relay.name == name && kind(a)
  }

  /** An evonode that says it took our transaction, or already had it. */
  predicate Claims(a: Asked) {
    a.relay.evonode && (a.reply == Took(true) || a.reply.AlreadyKnown?)
  }

  /** No answer, or an evonode's answer about another transaction. */
  predicate Unclear(a: Asked) {
    a.reply.Silent? || (a.relay.evonode && a.reply == Took(false))
  }

  ghost predicate Tallied(t: Tally, asked: seq<Asked>) {
    && (forall n :: n in t.accepted <==> Named(asked, n, Vouches))
    && (forall n :: n in t.unvouched <==> Named(asked, n, Claims))
    && (forall n :: n in t.ambiguous <==> Named(asked, n, Unclear))
    && (forall x :: x in t.rejected <==> Named(asked, x.name, (a: Asked) => a.reply == Rejects(x.missingInputs)))
  }

  lemma NamedSnoc(asked: seq<Asked>, a: Asked, name: nat, kind: Asked -> bool)
    ensures Named(asked + [a], name, kind) <==> Named(asked, name, kind) || (a.relay.name == name && kind(a))
  {
    InSnoc(asked, a);
    if Named(asked, name, kind) {
      var b :| b in asked && b.relay.name == name && kind(b);
      assert b in asked + [a];
    }
    if a.relay.name == name && kind(a) {
      assert a in asked + [a];
    }
  }

  lemma TalliedSnoc(t: Tally, asked: seq<Asked>, a: Asked)
    requires Tallied(t, asked)
    ensures Tallied(Count(t, a), asked + [a])
  {
    hide Named;
    var t', all := Count(t, a), asked + [a];
    forall n ensures n in t'.accepted <==> Named(all, n, Vouches) {
      NamedSnoc(asked, a, n, Vouches);
    }
    forall n ensures n in t'.unvouched <==> Named(all, n, Claims) {
      NamedSnoc(asked, a, n, Claims);
    }
    forall n ensures n in t'.ambiguous <==> Named(all, n, Unclear) {
      NamedSnoc(asked, a, n, Unclear);
    }
    forall x: Rejection
      ensures x in t'.rejected <==> Named(all, x.name, (a: Asked) => a.reply == Rejects(x.missingInputs))
    {
      NamedSnoc(asked, a, x.name, (a: Asked) => a.reply == Rejects(x.missingInputs));
    }
  }

  lemma {:induction false} TalliedAll(asked: seq<Asked>)
    ensures Tallied(CountAll(EMPTY, asked), asked)
  {
    if asked != [] {
      hide Tallied;
      var init, a := asked[..|asked| - 1], asked[|asked| - 1];
      TalliedAll(init);
      assert asked == init + [a];
      TalliedSnoc(CountAll(EMPTY, init), init, a);
    }
  }

  /**
   * Who is named in a broadcast's report: accepted are the configured relays
   * that vouch and, beside them only, the evonodes that claim to have taken it;
   * ambiguous are the unclear answers and claims nobody configured backs;
   * rejected are the refusals, each with its reason.
   */
  lemma BroadcastNames(r: Round)
    requires Broadcast(r).Some?
    ensures var b, asked := Broadcast(r).value, AskedIn(r);
      && (forall n :: n in b.accepted <==>
            Named(asked, n, Vouches) || (Vouched(asked) && Named(asked, n, Claims)))
      && (forall n :: n in b.ambiguous <==>
            Named(asked, n, Unclear) || (!Vouched(asked) && Named(asked, n, Claims)))
      && (forall x :: x in b.rejected <==>
            Named(asked, x.name, (a: Asked) => a.reply == Rejects(x.missingInputs)))
  {
    hide Named, CountAll;
    var relays := Relays(r.active);
    CountedAll(relays);
    CountedAll(AskedIn(r));
    TalliedAll(AskedIn(r));
    CountAllConcat(EMPTY, relays, Relays(r.fallback));
  }

  ghost predicate SomeUncertain(r: Round) {
    exists a :: a in AskedIn(r) && Uncertain(a)
  }

  /** A configured provider says it knows the transaction, the fallbacks being asked when nobody else could answer. */
  ghost predicate Observed(net: Net) {
    || (exists l :: l in net.lookActive && l.answer == Some(true) && !l.source.evonode)
    || (KnowsTx(net.lookActive).None?
        && exists l :: l in net.lookFallback && l.answer == Some(true) && !l.source.evonode)
  }

  /**
   * Success is reported exactly on the word of a configured provider: a relay
   * that took the transaction, at once or on the retry an uncertain first
   * broadcast earns, or a lookup that found it. Evonodes alone never suffice.
   */
  lemma LiveIffVouched(net: Net)
    requires Broadcast(net.first).Some? && Broadcast(net.second).Some?
    ensures Settle(net).Live? <==>
      || Vouched(AskedIn(net.first))
      || (SomeUncertain(net.first) && (Vouched(AskedIn(net.second)) || Observed(net)))
  {
    hide AskedIn, Vouched, Broadcast;
    BroadcastReports(net.first);
    BroadcastReports(net.second);
  }

  ghost predicate Honest(a: Asked) {
    a.reply.Rejects? ==> !a.holds
  }

  ghost predicate HonestRound(r: Round) {
    forall a :: a in AskedIn(r) ==> Honest(a)
  }

  /** Some relay asked while settling holds the transaction. */
  ghost predicate MayBeLive(net: Net) {
    || (exists a :: a in AskedIn(net.first) && a.holds)
    || (Broadcast(net.first).Some? && !Vouched(AskedIn(net.first)) && SomeUncertain(net.first)
          && exists a :: a in AskedIn(net.second) && a.holds)
  }

  predicate LocksInputs(s: Verdict) {
    s.Live? || s.Unresolved? || s.StaleInputs?
  }

  /**
   * Somebody can be asked. The fixed relays are the same for every broadcast and
   * the evonode directory never samples empty, so this holds of both or neither.
   */
  ghost predicate Configured(net: Net) {
    Broadcast(net.first).Some? && Broadcast(net.second).Some?
  }

  /** Nobody can be asked to relay. */
  ghost predicate NobodyToAsk(r: Round) {
    Relays(r.active) == [] && r.fallback == []
  }

  ghost predicate MissesInputs(r: Round) {
    exists a :: a in AskedIn(r) && a.reply == Rejects(true)
  }

  /** Who is asked: every configured relay, and the fallbacks exactly when none of those took the transaction. */
  lemma AskedIff(r: Round, a: Asked)
    ensures a in AskedIn(r) <==>
      && a.relay.canBroadcast
      && (a in r.active
          || (a in r.fallback && forall b :: b in r.active && b.relay.canBroadcast ==> !Vouches(b)))
  {
    FilterIn(r.active, (x: Asked) => x.relay.canBroadcast);
    FilterIn(r.fallback, (x: Asked) => x.relay.canBroadcast);
  }

  /** The evonodes benched are those that left it unclear whether they hold the transaction. */
  lemma BenchedIff(asked: seq<Asked>, name: nat)
    ensures name in Failing(asked) <==> Named(asked, name, (a: Asked) => a.relay.evonode && Unclear(a))
  {
    assert forall a: Asked :: Fails(a) <==> a.relay.evonode && Unclear(a);
  }

  /** Whom a success names: those that took it in the round that settled it, nobody when a lookup did. */
  lemma LiveNames(net: Net, name: nat)
    requires Settle(net).Live?
    ensures var first, second := AskedIn(net.first), AskedIn(net.second);
      name in Settle(net).accepted <==>
        if Vouched(first) then Named(first, name, Vouches) || Named(first, name, Claims)
        else Vouched(second) && (Named(second, name, Vouches) || Named(second, name, Claims))
  {
    hide Broadcast, AskedIn, Named, AnyKnowsTx, Vouched;
    BroadcastReports(net.first);
    BroadcastNames(net.first);
    if !Vouched(AskedIn(net.first)) {
      BroadcastReports(net.second);
      BroadcastNames(net.second);
    }
  }

  /**
   * What each verdict that is no success rests on. It is unresolved when the
   * first round is uncertain and nobody configured vouches on the retry or the
   * lookup; stale when every answer of the first round is a refusal and one says
   * the inputs are missing; rejected when all refuse and none says so; and there
   * are no relays when there is nobody to ask in a round that comes about.
   */
  lemma VerdictIff(net: Net)
    ensures var s, asked := Settle(net), AskedIn(net.first);
      var retried := !NobodyToAsk(net.first) && !Vouched(asked) && SomeUncertain(net.first);
      && (s.Unresolved? <==> retried && !NobodyToAsk(net.second) && !Vouched(AskedIn(net.second)) && !Observed(net))
      && (s.StaleInputs? <==>
            !NobodyToAsk(net.first) && !Vouched(asked) && !SomeUncertain(net.first) && MissesInputs(net.first))
      && (s.CleanlyRejected? <==>
            !NobodyToAsk(net.first) && !Vouched(asked) && !SomeUncertain(net.first) && !MissesInputs(net.first))
      && (s.NoRelays? <==> NobodyToAsk(net.first) || (retried && NobodyToAsk(net.second)))
  {
    hide AskedIn, Vouched, Broadcast;
    BroadcastReports(net.first);
    BroadcastReports(net.second);
  }

  /**
   * The inputs stay spendable exactly when every relay asked refused the
   * transaction itself, or when there was nobody to ask: at first, or on the
   * retry after an uncertain first round.
   */
  lemma ReleasedIffRefused(net: Net)
    ensures !LocksInputs(Settle(net)) <==>
      || (forall a :: a in AskedIn(net.first) ==> a.reply == Rejects(false))
      || Broadcast(net.first).None?
      || (Broadcast(net.second).None? && !Vouched(AskedIn(net.first)) && SomeUncertain(net.first))
  {
    hide AskedIn, Broadcast;
    BroadcastReports(net.first);
    BroadcastReports(net.second);
    var asked := AskedIn(net.first);
    if forall a :: a in asked ==> a.reply == Rejects(false) {
      assert !Vouched(asked) && !SomeUncertain(net.first);
    } else {
      var a :| a in asked && a.reply != Rejects(false);
      assert Vouches(a) || Uncertain(a) || a.reply == Rejects(true);
    }
  }

  /** A transaction some relay may hold always has its inputs locked. */
  lemma LiveIsLocked(net: Net)
    requires Configured(net) && HonestRound(net.first) && MayBeLive(net)
    ensures LocksInputs(Settle(net))
  {
    hide AskedIn, Broadcast, Settle;
    ReleasedIffRefused(net);
    if !LocksInputs(Settle(net)) {
      forall a | a in AskedIn(net.first) ensures !a.holds && !Uncertain(a) {
        assert Honest(a);
      }
    }
  }
}
