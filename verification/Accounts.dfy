/**
 * API keys and redemption codes: `authorizeKeyPayout`, `recordKeyPayout` of
 * src/treasury.ts and `checkCode`, `recordRedemption`, `updateCode` of
 * src/accounts.ts. A payout checks, then broadcasts, then records; admin edits
 * may land in between.
 */
module Accounts {
  import opened Coins
  import opened Windows

  datatype KeyTier = Trusted | Mn

  datatype Key = Key(
    tier: KeyTier,
    perDay: Option<nat>,
    revoked: bool,
    expiresAt: Option<Time>,
    lastUsed: Option<Time>,
    payouts: nat,
    paidSats: nat)

  datatype KeyPayout = KeyPayout(key: nat, txid: Txid, address: nat, sats: nat, at: Time)

  datatype Code = Code(
    amount: nat,
    maxRedemptions: nat,
    redemptions: nat,
    expiresAt: Option<Time>,
    disabled: bool)

  datatype Redemption = Redemption(code: nat, address: nat, txid: Txid, sats: nat, at: Time)

  datatype Patch = Patch(
    amount: Option<nat>,
    maxRedemptions: Option<nat>,
    expiresAt: Option<Option<Time>>,
    disabled: Option<bool>)

  datatype Limits = Limits(enabled: bool, payoutSats: nat, maxPerRequest: nat)

  datatype Tables = Tables(
    keys: map<nat, Key>,
    keyPayouts: seq<KeyPayout>,
    codes: map<nat, Code>,
    redemptions: seq<Redemption>)

  datatype KeyCheck =
    | Authorized(sats: nat)
    | Unauthorized
    | BadRequest
    | RateLimited(retryAfter: nat)

  datatype CodeCheck = Redeemable(code: Code) | Invalid | Used

  // ------------------------------------------------------------------ checks

  predicate Expired(e: Option<Time>, now: Time) {
    e.Some? && e.value <= now
  }

  predicate ActiveKey(k: Key, now: Time) {
    !k.revoked && !Expired(k.expiresAt, now)
  }

  function KeyHits(rows: seq<KeyPayout>): (r: seq<Hit>)
    ensures |r| == |rows| && forall i :: 0 <= i < |r| ==> r[i] == Hit(rows[i].key, rows[i].at)
  {
    seq(|rows|, i requires 0 <= i < |rows| => Hit(rows[i].key, rows[i].at))
  }

  function Amount(l: Limits, k: Key, requested: Option<nat>): Option<nat> {
    if k.tier.Mn? then
      if requested.Some? && requested.value != MN_COLLATERAL_SATS then None else Some(MN_COLLATERAL_SATS)
    else
      var sats := if requested.Some? then requested.value else l.payoutSats;
      if sats > l.maxPerRequest then None else Some(sats)
  }

  function Authorize(l: Limits, t: Tables, key: nat, requested: Option<nat>, now: Time): KeyCheck {
    if !l.enabled || key !in t.keys || !ActiveKey(t.keys[key], now) then Unauthorized else
    var k := t.keys[key];
    var sats := Amount(l, k, requested);
    if sats.None? then BadRequest else
    var recent := Recent(KeyHits(t.keyPayouts), key, now - DAY_MS);
    if k.perDay.Some? && |recent| >= k.perDay.value then RateLimited(RetryAfter(recent, now, DAY_MS))
    else Authorized(sats.value)
  }

  function CheckCode(l: Limits, t: Tables, code: nat, address: nat, now: Time): CodeCheck {
    if !l.enabled || code !in t.codes then Invalid else
    var c := t.codes[code];
    if c.disabled || Expired(c.expiresAt, now) || c.redemptions >= c.maxRedemptions then Invalid
    else if exists r :: r in t.redemptions && r.code == code && r.address == address then Used
    else Redeemable(c)
  }

  // ------------------------------------------------------------------ writes

  /** The audit row, and the key's own totals when the row's key still exists. */
  function RecordKeyPayout(t: Tables, row: KeyPayout): Tables {
    var paid := t.(keyPayouts := t.keyPayouts + [row]);
    if row.key !in t.keys then paid else
    var k := t.keys[row.key];
    var k' := k.(lastUsed := Some(row.at), payouts := k.payouts + 1, paidSats := k.paidSats + row.sats);
    paid.(keys := t.keys[row.key := k'])
  }

  function RecordRedemption(t: Tables, row: Redemption): Tables {
    var paid := t.(redemptions := t.redemptions + [row]);
    if row.code !in t.codes then paid else
    var c := t.codes[row.code];
    paid.(codes := t.codes[row.code := c.(redemptions := c.redemptions + 1)])
  }

  function Patched(c: Code, p: Patch): Code {
    Code(
      if p.amount.Some? then p.amount.value else c.amount,
      if p.maxRedemptions.Some? then p.maxRedemptions.value else c.maxRedemptions,
      c.redemptions,
      if p.expiresAt.Some? then p.expiresAt.value else c.expiresAt,
      if p.disabled.Some? then p.disabled.value else c.disabled)
  }

  function UpdateCode(t: Tables, code: nat, p: Patch): Tables {
    if code !in t.codes then t else t.(codes := t.codes[code := Patched(t.codes[code], p)])
  }

  function RevokeKey(t: Tables, key: nat): Tables {
    if key !in t.keys then t else t.(keys := t.keys[key := t.keys[key].(revoked := true)])
  }

  class AccountTables {
    var keys: map<nat, Key>
    var keyPayouts: seq<KeyPayout>
    var codes: map<nat, Code>
    var redemptions: seq<Redemption>

    function Value(): Tables
      reads this
    {
      Tables(keys, keyPayouts, codes, redemptions)
    }

    constructor ()
      ensures Value() == Tables(map[], [], map[], [])
    {
      keys, keyPayouts, codes, redemptions := map[], [], map[], [];
    }

    method ChargeKey(key: nat, txid: Txid, address: nat, sats: nat, now: Time)
      modifies this
      ensures Value() == RecordKeyPayout(old(Value()), KeyPayout(key, txid, address, sats, now))
    {
      keyPayouts := keyPayouts + [KeyPayout(key, txid, address, sats, now)];
      if key in keys {
        var k := keys[key];
        keys := keys[key := k.(lastUsed := Some(now), payouts := k.payouts + 1, paidSats := k.paidSats + sats)];
      }
    }

    method Redeem(code: nat, address: nat, txid: Txid, sats: nat, now: Time)
      modifies this
      ensures Value() == RecordRedemption(old(Value()), Redemption(code, address, txid, sats, now))
    {
      redemptions := redemptions + [Redemption(code, address, txid, sats, now)];
      if code in codes {
        codes := codes[code := codes[code].(redemptions := codes[code].redemptions + 1)];
      }
    }

    /** False when there is no such code. */
    method Edit(code: nat, patch: Patch) returns (found: bool)
      modifies this
      ensures found == (code in old(codes))
      ensures Value() == UpdateCode(old(Value()), code, patch)
    {
      found := code in codes;
      if found {
        codes := codes[code := Patched(codes[code], patch)];
      }
    }

    method AllFree(batch: seq<nat>) returns (free: bool)
      ensures free <==> forall c :: c in batch ==> c !in codes
    {
      for i := 0 to |batch|
        invariant forall k :: 0 <= k < i ==> batch[k] !in codes
      {
        if batch[i] in codes {
          return false;
        }
      }
      return true;
    }

    /**
     * Inserts every code or none when one is taken. A batch that repeats a code
     * runs into the unique index at the repeat, after `made` codes.
     */
    method Create(batch: seq<nat>, code: Code) returns (r: Creation, ghost made: nat)
      modifies this
      ensures r.Taken? <==> exists c :: c in batch && c in old(codes)
      ensures r.Created? <==> (forall c :: c in batch ==> c !in old(codes)) && Distinct(batch)
      ensures made <= |batch| && codes == old(codes) + Batch(batch[..made], code)
      ensures r.Taken? ==> made == 0 && codes == old(codes)
      ensures r.Created? ==> made == |batch|
      ensures r.Repeated? ==> made < |batch| && Distinct(batch[..made]) && batch[made] in batch[..made]
      ensures keys == old(keys) && keyPayouts == old(keyPayouts) && redemptions == old(redemptions)
    {
      made := 0;
      var free := AllFree(batch);
      BatchStarts(codes, batch, code);
      if !free {
        return Taken, 0;
      }
      for i := 0 to |batch|
        invariant made == i && codes == old(codes) + Batch(batch[..i], code)
        invariant Distinct(batch[..i])
        invariant keys == old(keys) && keyPayouts == old(keyPayouts) && redemptions == old(redemptions)
      {
        if batch[i] in codes {
          return Repeated, made;
        }
        BatchGrows(old(codes), batch, i, code);
        codes := codes[batch[i] := code];
        made := made + 1;
      }
      assert batch[..|batch|] == batch;
      return Created, made;
    }
  }

  datatype Creation = Created | Taken | Repeated

  /** The codes a batch adds, each with the same terms. */
  function Batch(batch: seq<nat>, code: Code): map<nat, Code> {
    map c | c in batch :: code
  }

  lemma BatchStarts(codes: map<nat, Code>, batch: seq<nat>, code: Code)
    ensures codes == codes + Batch(batch[..0], code)
  {
    assert Batch(batch[..0], code) == map[];
  }

  lemma BatchGrows(codes: map<nat, Code>, batch: seq<nat>, i: nat, code: Code)
    requires i < |batch|
    ensures (codes + Batch(batch[..i], code))[batch[i] := code] == codes + Batch(batch[..i + 1], code)
  {
    assert batch[..i + 1] == batch[..i] + [batch[i]];
  }

  // ------------------------------------------------------------------ runs

  /** What a payout has been cleared for, while its broadcast is under way. */
  datatype Flight =
    | Grounded
    | KeyFlight(key: nat, address: nat, sats: nat, since: Time)
    | CodeFlight(code: nat, address: nat, sats: nat, since: Time)

  datatype Step =
    | StartKey(now: Time, key: nat, requested: Option<nat>, address: nat)
    | StartCode(now: Time, code: nat, address: nat)
    /** The broadcast settled; one that may be live is charged like an accepted one. */
    | Land(now: Time, txid: Txid, charged: bool)
    | Mint(now: Time, key: nat, tier: KeyTier, perDay: Option<nat>, expiresAt: Option<Time>)
    | Revoke(now: Time, key: nat)
    | NewCode(now: Time, code: nat, made: Code)
    | EditCode(now: Time, code: nat, patch: Patch)

  /** `caps` remembers the largest cap each code was ever given. */
  datatype State = State(tables: Tables, clock: Time, flight: Flight, caps: map<nat, nat>)

  const START: State := State(Tables(map[], [], map[], []), 0, Grounded, map[])

  function Landed(t: Tables, f: Flight, txid: Txid): Tables {
    match f
    case Grounded => t
    case KeyFlight(key, address, sats, since) => RecordKeyPayout(t, KeyPayout(key, txid, address, sats, since))
    case CodeFlight(code, address, sats, since) => RecordRedemption(t, Redemption(code, address, txid, sats, since))
  }

  function Apply(l: Limits, s: State, step: Step): State {
    var s := s.(clock := step.now);
    match step
    case StartKey(now, key, requested, address) =>
      var check := Authorize(l, s.tables, key, requested, now);
      if check.Authorized? then s.(flight := KeyFlight(key, address, check.sats, now)) else s
    case StartCode(now, code, address) =>
      var check := CheckCode(l, s.tables, code, address, now);
      if check.Redeemable? then s.(flight := CodeFlight(code, address, check.code.amount, now)) else s
    case Land(now, txid, charged) =>
      State(if charged then Landed(s.tables, s.flight, txid) else s.tables, now, Grounded, s.caps)
    case Mint(now, key, tier, perDay, expiresAt) =>
      s.(tables := s.tables.(keys := s.tables.keys[key := Key(tier, perDay, false, expiresAt, None, 0, 0)]))
    case Revoke(now, key) => s.(tables := RevokeKey(s.tables, key))
    case NewCode(now, code, made) =>
      s.(tables := s.tables.(codes := s.tables.codes[code := made]), caps := s.caps[code := made.maxRedemptions])
    case EditCode(now, code, patch) =>
      var t := UpdateCode(s.tables, code, patch);
      s.(tables := t, caps := if code in t.codes && code in s.caps
                                then s.caps[code := Max(s.caps[code], t.codes[code].maxRedemptions)] else s.caps)
  }

  /** Payouts take turns; keys and codes get ids nobody has used; a day limit is positive. */
  predicate Allowed(s: State, step: Step) {
    && s.clock <= step.now
    && match step
       case StartKey(_, _, _, _) => s.flight.Grounded?
       case StartCode(_, _, _) => s.flight.Grounded?
       case Land(_, _, _) => true
       case Mint(_, key, _, perDay, _) =>
         && key !in s.tables.keys && (perDay.Some? ==> perDay.value >= 1)
         && forall i :: 0 <= i < |s.tables.keyPayouts| ==> s.tables.keyPayouts[i].key != key
       case Revoke(_, _) => true
       case NewCode(_, code, made) =>
         && code !in s.tables.codes && made.redemptions == 0
         && forall i :: 0 <= i < |s.tables.redemptions| ==> s.tables.redemptions[i].code != code
       case EditCode(_, _, _) => true
  }

  function Reach(l: Limits, steps: seq<Step>): State {
    if steps == [] then START else Apply(l, Reach(l, steps[..|steps| - 1]), steps[|steps| - 1])
  }

  predicate Run(l: Limits, steps: seq<Step>) {
    steps == [] || (Run(l, steps[..|steps| - 1]) && Allowed(Reach(l, steps[..|steps| - 1]), steps[|steps| - 1]))
  }

  // ------------------------------------------------------------------ keys

  function PayoutsOf(rows: seq<KeyPayout>, key: nat): nat {
    if rows == [] then 0
    else PayoutsOf(rows[..|rows| - 1], key) + if rows[|rows| - 1].key == key then 1 else 0
  }

  function PaidBy(rows: seq<KeyPayout>, key: nat): nat {
    if rows == [] then 0
    else PaidBy(rows[..|rows| - 1], key) + if rows[|rows| - 1].key == key then rows[|rows| - 1].sats else 0
  }

  function LastUse(rows: seq<KeyPayout>, key: nat): Option<Time> {
    if rows == [] then None
    else if rows[|rows| - 1].key == key then Some(rows[|rows| - 1].at)
    else LastUse(rows[..|rows| - 1], key)
  }

  /** The audit log as admitted hits: a limited key under its day limit, any other under none. */
  function KeyGrants(keys: map<nat, Key>, rows: seq<KeyPayout>): (r: seq<Grant>)
    ensures |r| == |rows|
    ensures forall i :: 0 <= i < |r| ==> r[i] == KeyGrant(keys, rows[i], i)
  {
    seq(|rows|, i requires 0 <= i < |rows| => KeyGrant(keys, rows[i], i))
  }

  function KeyGrant(keys: map<nat, Key>, row: KeyPayout, i: nat): Grant {
    Grant(Hit(row.key, row.at), DayLimit(keys, row.key, i + 1))
  }

  function DayLimit(keys: map<nat, Key>, key: nat, unlimited: nat): nat {
    if key in keys && keys[key].perDay.Some? then keys[key].perDay.value else unlimited
  }

  ghost predicate KeysSound(s: State) {
    && (forall k :: k in s.tables.keys ==>
          s.tables.keys[k].payouts == PayoutsOf(s.tables.keyPayouts, k)
          && s.tables.keys[k].paidSats == PaidBy(s.tables.keyPayouts, k)
          && s.tables.keys[k].lastUsed == LastUse(s.tables.keyPayouts, k)
          && (s.tables.keys[k].perDay.Some? ==> s.tables.keys[k].perDay.value >= 1))
    && Paced(KeyGrants(s.tables.keys, s.tables.keyPayouts), DAY_MS)
    && (forall i :: 0 <= i < |s.tables.keyPayouts| ==>
          s.tables.keyPayouts[i].key in s.tables.keys && s.tables.keyPayouts[i].at <= s.clock)
  }

  /** While a key payout is in flight, its key exists and one more payout stays within the day limit. */
  ghost predicate KeyCleared(s: State) {
    s.flight.KeyFlight? ==>
      && s.flight.key in s.tables.keys && s.flight.since <= s.clock
      && (forall i :: 0 <= i < |s.tables.keyPayouts| ==> s.tables.keyPayouts[i].at <= s.flight.since)
      && (s.tables.keys[s.flight.key].perDay.Some? ==>
            |Recent(KeyHits(s.tables.keyPayouts), s.flight.key, s.flight.since - DAY_MS)|
              < s.tables.keys[s.flight.key].perDay.value)
  }

  lemma TotalsSnoc(rows: seq<KeyPayout>, row: KeyPayout, key: nat)
    ensures PayoutsOf(rows + [row], key) == PayoutsOf(rows, key) + if row.key == key then 1 else 0
    ensures PaidBy(rows + [row], key) == PaidBy(rows, key) + if row.key == key then row.sats else 0
    ensures LastUse(rows + [row], key) == if row.key == key then Some(row.at) else LastUse(rows, key)
  {
    assert (rows + [row])[..|rows|] == rows;
  }

  lemma {:induction false} NoTotals(rows: seq<KeyPayout>, key: nat)
    requires forall i :: 0 <= i < |rows| ==> rows[i].key != key
    ensures PayoutsOf(rows, key) == 0 && PaidBy(rows, key) == 0 && LastUse(rows, key).None?
  {
    if rows != [] {
      NoTotals(rows[..|rows| - 1], key);
    }
  }

  /** Landing a cleared key payout keeps totals, pacing and order. */
  lemma LandKey(s: State, txid: Txid)
    requires KeysSound(s) && KeyCleared(s) && s.flight.KeyFlight?
    ensures KeysSound(s.(tables := Landed(s.tables, s.flight, txid)))
  {
    hide PayoutsOf, PaidBy, LastUse, Paced, Recent;
    var f := s.flight;
    var row := KeyPayout(f.key, txid, f.address, f.sats, f.since);
    var rows := s.tables.keyPayouts;
    var s' := s.(tables := Landed(s.tables, f, txid));
    forall k ensures PayoutsOf(rows + [row], k) == PayoutsOf(rows, k) + (if row.key == k then 1 else 0)
      && PaidBy(rows + [row], k) == PaidBy(rows, k) + (if row.key == k then row.sats else 0)
      && LastUse(rows + [row], k) == if row.key == k then Some(row.at) else LastUse(rows, k)
    {
      TotalsSnoc(rows, row, k);
    }
    LandPaced(s.tables.keys, s'.tables.keys, rows, row);
  }

  lemma LandPaced(keys: map<nat, Key>, keys': map<nat, Key>, rows: seq<KeyPayout>, row: KeyPayout)
    requires Paced(KeyGrants(keys, rows), DAY_MS)
    requires keys'.Keys == keys.Keys && forall k :: k in keys ==> keys'[k].perDay == keys[k].perDay
    requires forall i :: 0 <= i < |rows| ==> rows[i].at <= row.at
    requires row.key in keys
    requires keys[row.key].perDay.Some? ==>
      |Recent(KeyHits(rows), row.key, row.at - DAY_MS)| < keys[row.key].perDay.value
    ensures Paced(KeyGrants(keys', rows + [row]), DAY_MS)
  {
    hide Paced;
    var grants := KeyGrants(keys, rows);
    var g := Grant(Hit(row.key, row.at), DayLimit(keys, row.key, |rows| + 1));
    assert KeyGrants(keys', rows + [row]) == grants + [g];
    assert Hits(grants) == KeyHits(rows);
    RecentShort(KeyHits(rows), row.key, row.at - DAY_MS);
    PacedSnoc(grants, g, DAY_MS);
  }

  /** A table change that keeps the log and every day limit of the keys in it. */
  lemma KeepPaced(keys: map<nat, Key>, keys': map<nat, Key>, rows: seq<KeyPayout>)
    requires Paced(KeyGrants(keys, rows), DAY_MS)
    requires forall i :: 0 <= i < |rows| ==>
      rows[i].key in keys && rows[i].key in keys' && keys'[rows[i].key].perDay == keys[rows[i].key].perDay
    ensures Paced(KeyGrants(keys', rows), DAY_MS)
  {
    assert KeyGrants(keys', rows) == KeyGrants(keys, rows);
  }

  // ------------------------------------------------------------------ codes

  function RedeemedOn(rows: seq<Redemption>, code: nat): nat {
    if rows == [] then 0
    else RedeemedOn(rows[..|rows| - 1], code) + if rows[|rows| - 1].code == code then 1 else 0
  }

  ghost predicate CodesSound(s: State) {
    && s.caps.Keys == s.tables.codes.Keys
    && (forall c :: c in s.tables.codes ==>
          && s.tables.codes[c].redemptions == RedeemedOn(s.tables.redemptions, c) <= s.caps[c]
          && s.tables.codes[c].maxRedemptions <= s.caps[c])
    && (forall i :: 0 <= i < |s.tables.redemptions| ==> s.tables.redemptions[i].code in s.tables.codes)
    && (forall i, j :: 0 <= i < j < |s.tables.redemptions| ==>
          !(s.tables.redemptions[i].code == s.tables.redemptions[j].code
            && s.tables.redemptions[i].address == s.tables.redemptions[j].address))
  }

  /** While a code payout is in flight, its cap has room and its address has not redeemed it. */
  ghost predicate CodeCleared(s: State) {
    s.flight.CodeFlight? ==>
      && s.flight.code in s.tables.codes && s.flight.code in s.caps
      && s.tables.codes[s.flight.code].redemptions < s.caps[s.flight.code]
      && forall i :: 0 <= i < |s.tables.redemptions| ==>
           !(s.tables.redemptions[i].code == s.flight.code && s.tables.redemptions[i].address == s.flight.address)
  }

  lemma RedeemedSnoc(rows: seq<Redemption>, row: Redemption, code: nat)
    ensures RedeemedOn(rows + [row], code) == RedeemedOn(rows, code) + if row.code == code then 1 else 0
  {
    assert (rows + [row])[..|rows|] == rows;
  }

  lemma {:induction false} NoneRedeemed(rows: seq<Redemption>, code: nat)
    requires forall i :: 0 <= i < |rows| ==> rows[i].code != code
    ensures RedeemedOn(rows, code) == 0
  {
    if rows != [] {
      NoneRedeemed(rows[..|rows| - 1], code);
    }
  }

  lemma LandCode(s: State, txid: Txid)
    requires CodesSound(s) && CodeCleared(s) && s.flight.CodeFlight?
    ensures CodesSound(s.(tables := Landed(s.tables, s.flight, txid)))
  {
    hide RedeemedOn;
    var f := s.flight;
    var row := Redemption(f.code, f.address, txid, f.sats, f.since);
    var rows := s.tables.redemptions;
    forall c ensures RedeemedOn(rows + [row], c) == RedeemedOn(rows, c) + if row.code == c then 1 else 0 {
      RedeemedSnoc(rows, row, c);
    }
  }

  // ------------------------------------------------------------------ every step keeps the books

  ghost predicate Sound(s: State) {
    KeysSound(s) && KeyCleared(s) && CodesSound(s) && CodeCleared(s)
  }

  /** A step that leaves the key tables alone and grounds the payout, or leaves it in flight. */
  lemma KeysFrame(s: State, s': State)
    requires KeysSound(s) && s.clock <= s'.clock
    requires s'.tables.keys == s.tables.keys && s'.tables.keyPayouts == s.tables.keyPayouts
    requires !s'.flight.KeyFlight? || (s'.flight == s.flight && KeyCleared(s))
    ensures KeysSound(s') && KeyCleared(s')
  {
    hide Paced, Recent;
  }

  /** A clearance is given only to a payout the day limit still has room for. */
  lemma KeyStarts(l: Limits, s: State, now: Time, key: nat, requested: Option<nat>, address: nat)
    requires KeysSound(s) && s.clock <= now && s.flight.Grounded?
    ensures var s' := Apply(l, s, StartKey(now, key, requested, address)); KeysSound(s') && KeyCleared(s')
  {
    hide Paced, Recent;
  }

  /** A change to the keys that keeps every logged key's totals and limit, and adds only keys with no payouts. */
  lemma KeysChange(s: State, s': State)
    requires KeysSound(s) && KeyCleared(s) && s.clock <= s'.clock && s'.flight == s.flight
    requires s'.tables.keyPayouts == s.tables.keyPayouts
    requires forall k :: k in s.tables.keys ==> k in s'.tables.keys && SameTerms(s.tables.keys[k], s'.tables.keys[k])
    requires forall k :: k in s'.tables.keys && k !in s.tables.keys ==>
      Blank(s'.tables.keys[k]) && forall i :: 0 <= i < |s.tables.keyPayouts| ==> s.tables.keyPayouts[i].key != k
    ensures KeysSound(s') && KeyCleared(s')
  {
    hide Paced, Recent, PayoutsOf, PaidBy, LastUse;
    KeepPaced(s.tables.keys, s'.tables.keys, s.tables.keyPayouts);
    forall k | k in s'.tables.keys && k !in s.tables.keys
      ensures PayoutsOf(s.tables.keyPayouts, k) == 0 && PaidBy(s.tables.keyPayouts, k) == 0
      ensures LastUse(s.tables.keyPayouts, k).None?
    {
      NoTotals(s.tables.keyPayouts, k);
    }
  }

  predicate SameTerms(k: Key, k': Key) {
    k'.payouts == k.payouts && k'.paidSats == k.paidSats && k'.lastUsed == k.lastUsed && k'.perDay == k.perDay
  }

  predicate Blank(k: Key) {
    k.payouts == 0 && k.paidSats == 0 && k.lastUsed.None? && (k.perDay.Some? ==> k.perDay.value >= 1)
  }

  lemma MintKeeps(l: Limits, s: State, step: Step)
    requires KeysSound(s) && KeyCleared(s) && Allowed(s, step) && step.Mint?
    ensures KeysSound(Apply(l, s, step)) && KeyCleared(Apply(l, s, step))
  {
    hide KeysSound, KeyCleared;
    KeysChange(s, Apply(l, s, step));
  }

  lemma RevokeKeeps(l: Limits, s: State, now: Time, key: nat)
    requires KeysSound(s) && KeyCleared(s) && s.clock <= now
    ensures var s' := Apply(l, s, Revoke(now, key)); KeysSound(s') && KeyCleared(s')
  {
    hide KeysSound, KeyCleared;
    KeysChange(s, Apply(l, s, Revoke(now, key)));
  }

  lemma StepKeys(l: Limits, s: State, step: Step)
    requires KeysSound(s) && KeyCleared(s) && Allowed(s, step)
    ensures KeysSound(Apply(l, s, step)) && KeyCleared(Apply(l, s, step))
  {
    hide KeysSound, KeyCleared, Authorize, CheckCode;
    var s' := Apply(l, s, step);
    match step
    case StartKey(now, key, requested, address) => KeyStarts(l, s, now, key, requested, address);
    case Land(now, txid, charged) =>
      if charged && s.flight.KeyFlight? {
        LandKey(s, txid);
        KeysFrame(s.(tables := Landed(s.tables, s.flight, txid)), s');
      } else {
        KeysFrame(s, s');
      }
    case Mint(_, _, _, _, _) => MintKeeps(l, s, step);
    case Revoke(now, key) => RevokeKeeps(l, s, now, key);
    case _ => KeysFrame(s, s');
  }

  lemma CodesFrame(s: State, s': State)
    requires CodesSound(s)
    requires s'.tables.codes == s.tables.codes && s'.tables.redemptions == s.tables.redemptions && s'.caps == s.caps
    requires !s'.flight.CodeFlight? || (s'.flight == s.flight && CodeCleared(s))
    ensures CodesSound(s') && CodeCleared(s')
  {
  }

  lemma CodeStarts(l: Limits, s: State, now: Time, code: nat, address: nat)
    requires CodesSound(s) && s.flight.Grounded?
    ensures var s' := Apply(l, s, StartCode(now, code, address)); CodesSound(s') && CodeCleared(s')
  {
    var s' := Apply(l, s, StartCode(now, code, address));
    if s'.flight.CodeFlight? {
      forall i | 0 <= i < |s.tables.redemptions|
        ensures !(s.tables.redemptions[i].code == code && s.tables.redemptions[i].address == address)
      {
        assert s.tables.redemptions[i] in s.tables.redemptions;
      }
    }
  }

  lemma NewCodeKeeps(l: Limits, s: State, step: Step)
    requires CodesSound(s) && CodeCleared(s) && Allowed(s, step) && step.NewCode?
    ensures CodesSound(Apply(l, s, step)) && CodeCleared(Apply(l, s, step))
  {
    hide RedeemedOn;
    NoneRedeemed(s.tables.redemptions, step.code);
  }

  /** An edit may lower the cap, even below the count; the largest cap ever still bounds it. */
  lemma EditKeeps(l: Limits, s: State, now: Time, code: nat, patch: Patch)
    requires CodesSound(s) && CodeCleared(s)
    ensures var s' := Apply(l, s, EditCode(now, code, patch)); CodesSound(s') && CodeCleared(s')
  {
    hide RedeemedOn;
  }

  lemma StepCodes(l: Limits, s: State, step: Step)
    requires CodesSound(s) && CodeCleared(s) && Allowed(s, step)
    ensures CodesSound(Apply(l, s, step)) && CodeCleared(Apply(l, s, step))
  {
    hide CodesSound, CodeCleared, Authorize, CheckCode;
    var s' := Apply(l, s, step);
    match step
    case StartCode(now, code, address) => CodeStarts(l, s, now, code, address);
    case Land(now, txid, charged) =>
      if charged && s.flight.CodeFlight? {
        LandCode(s, txid);
        CodesFrame(s.(tables := Landed(s.tables, s.flight, txid)), s');
      } else {
        CodesFrame(s, s');
      }
    case NewCode(_, _, _) => NewCodeKeeps(l, s, step);
    case EditCode(now, code, patch) => EditKeeps(l, s, now, code, patch);
    case _ => CodesFrame(s, s');
  }

  lemma {:induction false} RunSound(l: Limits, steps: seq<Step>)
    requires Run(l, steps)
    ensures Sound(Reach(l, steps))
  {
    if steps != [] {
      hide KeysSound, KeyCleared, CodesSound, CodeCleared, Apply, Allowed;
      RunSound(l, steps[..|steps| - 1]);
      StepKeys(l, Reach(l, steps[..|steps| - 1]), steps[|steps| - 1]);
      StepCodes(l, Reach(l, steps[..|steps| - 1]), steps[|steps| - 1]);
    }
  }

  /**
   * Key accounting survives unresolved broadcasts and interleaved edits: a
   * key's totals and last use are those of its log, and no rolling 24 hours, wherever
   * they start, hold more payouts of a limited key than its day limit.
   */
  lemma KeyLimitsHold(l: Limits, steps: seq<Step>, key: nat, start: int)
    requires Run(l, steps) && key in Reach(l, steps).tables.keys
    ensures var t := Reach(l, steps).tables;
      && t.keys[key].payouts == PayoutsOf(t.keyPayouts, key)
      && t.keys[key].paidSats == PaidBy(t.keyPayouts, key)
      && t.keys[key].lastUsed == LastUse(t.keyPayouts, key)
      && (t.keys[key].perDay.Some? ==>
            |InWindow(KeyHits(t.keyPayouts), key, start, DAY_MS)| <= t.keys[key].perDay.value)
  {
    hide InWindow, Paced, Reach, Run, CodesSound, CodeCleared;
    RunSound(l, steps);
    var t := Reach(l, steps).tables;
    var grants := KeyGrants(t.keys, t.keyPayouts);
    assert Hits(grants) == KeyHits(t.keyPayouts);
    PacedWindow(grants, key, start, DAY_MS);
    if InWindow(KeyHits(t.keyPayouts), key, start, DAY_MS) != [] {
      var i :| 0 <= i < |grants| && LastInWindow(grants, i, key, start, DAY_MS)
        && |InWindow(Hits(grants), key, start, DAY_MS)| <= grants[i].limit;
      assert grants[i].hit.who == key;
    }
  }

  /** After the hinted wait, with no other payout on that key, its day limit admits it again. */
  lemma KeyRetryOpens(l: Limits, steps: seq<Step>, key: nat, requested: Option<nat>, now: Time, later: Time)
    requires Run(l, steps) && Reach(l, steps).clock <= now
    requires Authorize(l, Reach(l, steps).tables, key, requested, now).RateLimited?
    requires later >= now + 1000 * Authorize(l, Reach(l, steps).tables, key, requested, now).retryAfter
    ensures !Authorize(l, Reach(l, steps).tables, key, requested, later).RateLimited?
  {
    hide Reach, Run, Paced, InWindow, RetryAfter, CodesSound, CodeCleared;
    RunSound(l, steps);
    var t := Reach(l, steps).tables;
    var hits := KeyHits(t.keyPayouts);
    KeyLimitsHold(l, steps, key, now - DAY_MS + 1);
    RecentIsWindow(hits, key, now, DAY_MS);
    RetryOpens(hits, key, now, DAY_MS, t.keys[key].perDay.value, later);
  }

  /**
   * Code accounting survives unresolved broadcasts and edits that land between
   * check and record: an address redeems a code at most once, a code's counter
   * is its number of rows, and it never exceeds the largest cap it ever had.
   */
  lemma CodeLimitsHold(l: Limits, steps: seq<Step>)
    requires Run(l, steps)
    ensures var s := Reach(l, steps);
      && (forall i, j :: 0 <= i < j < |s.tables.redemptions| ==>
            !(s.tables.redemptions[i].code == s.tables.redemptions[j].code
              && s.tables.redemptions[i].address == s.tables.redemptions[j].address))
      && (forall c :: c in s.tables.codes ==>
            && c in s.caps
            && s.tables.codes[c].redemptions == RedeemedOn(s.tables.redemptions, c) <= s.caps[c])
  {
    hide Reach, Run, KeysSound, KeyCleared;
    RunSound(l, steps);
  }

  // ------------------------------------------------------------------ who is paid, and how much

  /** The key exists and is neither revoked nor past its expiry. */
  predicate Usable(t: Tables, key: nat, now: Time) {
    && key in t.keys && !t.keys[key].revoked
    && (t.keys[key].expiresAt.Some? ==> now < t.keys[key].expiresAt.value)
  }

  /** An mn key pays one collateral, asked for or not; any other what was asked for, or the default, up to the most. */
  predicate Payable(l: Limits, k: Key, requested: Option<nat>, sats: nat) {
    if k.tier.Mn? then sats == 1000 * 100_000_000 && (requested.None? || requested == Some(sats))
    else (if requested.Some? then requested == Some(sats) else sats == l.payoutSats) && sats <= l.maxPerRequest
  }

  /** How often the key was paid in the last 24 hours. */
  function PaidToday(t: Tables, key: nat, now: Time): nat {
    |Recent(KeyHits(t.keyPayouts), key, now - DAY_MS)|
  }

  /**
   * A key payout is authorized, for some amount, exactly when keys are enabled,
   * the key is usable, the amount is what the key may pay, and its payouts of
   * the last 24 hours are below its day limit. Each refusal comes exactly when
   * the first of these to fail is its own.
   */
  lemma AuthorizedIff(l: Limits, t: Tables, key: nat, requested: Option<nat>, now: Time)
    ensures var r := Authorize(l, t, key, requested, now);
      var known := l.enabled && Usable(t, key, now);
      && (forall sats :: r == Authorized(sats) <==>
            && known && Payable(l, t.keys[key], requested, sats)
            && (t.keys[key].perDay.Some? ==> PaidToday(t, key, now) < t.keys[key].perDay.value))
      && (r.Unauthorized? <==> !known)
      && (r.BadRequest? <==> known && forall sats: nat :: !Payable(l, t.keys[key], requested, sats))
      && (r.RateLimited? <==>
            && known && (exists sats: nat :: Payable(l, t.keys[key], requested, sats))
            && t.keys[key].perDay.Some? && PaidToday(t, key, now) >= t.keys[key].perDay.value)
  {
    hide Recent;
    if l.enabled && Usable(t, key, now) {
      PayableIs(l, t.keys[key], requested);
    }
  }

  lemma PayableIs(l: Limits, k: Key, requested: Option<nat>)
    ensures forall sats: nat :: Payable(l, k, requested, sats) <==> Amount(l, k, requested) == Some(sats)
    ensures (exists sats: nat :: Payable(l, k, requested, sats)) <==> Amount(l, k, requested).Some?
  {
    if Amount(l, k, requested).Some? {
      assert Payable(l, k, requested, Amount(l, k, requested).value);
    }
  }

  /** The code exists, is on, has not expired, and has a redemption left. */
  predicate Open(t: Tables, code: nat, now: Time) {
    && code in t.codes && !t.codes[code].disabled && t.codes[code].redemptions < t.codes[code].maxRedemptions
    && (t.codes[code].expiresAt.Some? ==> now < t.codes[code].expiresAt.value)
  }

  /**
   * A code pays an address exactly when codes are enabled, it is open, and the
   * address has not redeemed it; only the last of these is told apart.
   */
  lemma RedeemableIff(l: Limits, t: Tables, code: nat, address: nat, now: Time)
    ensures var r := CheckCode(l, t, code, address, now);
      var redeemed := exists row :: row in t.redemptions && row.code == code && row.address == address;
      && (r.Redeemable? <==> l.enabled && Open(t, code, now) && !redeemed)
      && (r.Used? <==> l.enabled && Open(t, code, now) && redeemed)
      && (r.Invalid? <==> !(l.enabled && Open(t, code, now)))
      && (r.Redeemable? ==> r.code == t.codes[code])
  {
  }

  /** A term named in an edit takes its new value; one that is not keeps the old. */
  ghost predicate Takes<T>(edit: Option<T>, before: T, after: T) {
    match edit
    case Some(value) => after == value
    case None => after == before
  }

  /** An edit changes the terms it names, of its own code, and nothing else anywhere. */
  lemma EditTable(t: Tables, code: nat, p: Patch)
    ensures var after := UpdateCode(t, code, p);
      && after == t.(codes := after.codes) && after.codes.Keys == t.codes.Keys
      && forall k :: k in t.codes ==>
           var c, c' := t.codes[k], after.codes[k];
           && (k != code ==> c' == c)
           && (k == code ==>
                 && c'.redemptions == c.redemptions
                 && Takes(p.amount, c.amount, c'.amount)
                 && Takes(p.maxRedemptions, c.maxRedemptions, c'.maxRedemptions)
                 && Takes(p.expiresAt, c.expiresAt, c'.expiresAt)
                 && Takes(p.disabled, c.disabled, c'.disabled))
  {
  }

  /** What starting a payout puts in flight: exactly what was cleared, for whom, and from when. */
  lemma StartsIff(l: Limits, s: State, now: Time, id: nat, requested: Option<nat>, address: nat)
    requires s.flight.Grounded?
    ensures var s' := Apply(l, s, StartKey(now, id, requested, address));
      && s'.tables == s.tables
      && forall sats :: s'.flight == KeyFlight(id, address, sats, now) <==>
           Authorize(l, s.tables, id, requested, now) == Authorized(sats)
    ensures var s' := Apply(l, s, StartCode(now, id, address));
      && s'.tables == s.tables
      && forall sats :: s'.flight == CodeFlight(id, address, sats, now) <==>
           CheckCode(l, s.tables, id, address, now).Redeemable? && sats == s.tables.codes[id].amount
  {
    hide Authorize;
    RedeemableIff(l, s.tables, id, address, now);
  }

  predicate InFlight(s: State, key: nat) {
    s.flight.KeyFlight? && s.flight.key == key
  }

  /** Payouts of a key on the log, and the one in flight. */
  function Payouts(s: State, key: nat): nat {
    PayoutsOf(s.tables.keyPayouts, key) + if InFlight(s, key) then 1 else 0
  }

  /** Since the earlier state the revoked key has gone no further than the payout it had in flight. */
  ghost predicate Quiet(s0: State, s: State, key: nat) {
    && key in s.tables.keys && s.tables.keys[key].revoked
    && (InFlight(s, key) ==> s.flight == s0.flight)
    && Payouts(s, key) <= Payouts(s0, key)
    && s0.tables.keyPayouts <= s.tables.keyPayouts
    && forall i :: |s0.tables.keyPayouts| <= i < |s.tables.keyPayouts| && s.tables.keyPayouts[i].key == key ==>
         InFlight(s0, key) && s.tables.keyPayouts[i].at == s0.flight.since
  }

  /** Nothing new on the log, the key still revoked, and its payout, if one is in flight, the same. */
  lemma QuietFrame(s0: State, s: State, s': State, key: nat)
    requires Quiet(s0, s, key) && s'.tables.keyPayouts == s.tables.keyPayouts
    requires key in s'.tables.keys && s'.tables.keys[key].revoked
    requires InFlight(s', key) ==> s'.flight == s.flight
    ensures Quiet(s0, s', key)
  {
    hide PayoutsOf;
  }

  /** One more row on the log: the payout that was in flight. */
  lemma QuietLogged(s0: State, s: State, s': State, row: KeyPayout, key: nat)
    requires Quiet(s0, s, key) && s.flight.KeyFlight? && s'.flight.Grounded?
    requires s'.tables.keyPayouts == s.tables.keyPayouts + [row]
    requires row.key == s.flight.key && row.at == s.flight.since
    requires key in s'.tables.keys && s'.tables.keys[key].revoked
    ensures Quiet(s0, s', key)
  {
    TotalsSnoc(s.tables.keyPayouts, row, key);
    hide PayoutsOf;
    var rows, rows' := s.tables.keyPayouts, s'.tables.keyPayouts;
    forall i | |s0.tables.keyPayouts| <= i < |rows'| && rows'[i].key == key
      ensures InFlight(s0, key) && rows'[i].at == s0.flight.since
    {
      if i < |rows| {
        assert rows'[i] == rows[i];
      }
    }
  }

  lemma LandedLogs(t: Tables, f: Flight, txid: Txid, key: nat)
    requires f.KeyFlight? && key in t.keys && t.keys[key].revoked
    ensures var t' := Landed(t, f, txid);
      && t'.keyPayouts == t.keyPayouts + [KeyPayout(f.key, txid, f.address, f.sats, f.since)]
      && key in t'.keys && t'.keys[key].revoked
  {
  }

  lemma QuietStep(l: Limits, s0: State, s: State, step: Step, key: nat)
    requires Quiet(s0, s, key) && Allowed(s, step)
    ensures Quiet(s0, Apply(l, s, step), key)
  {
    AllowedStart(s, step);
    assert key in s.tables.keys && s.tables.keys[key].revoked;
    hide Quiet, Authorize, CheckCode, Allowed;
    var s' := Apply(l, s, step);
    match step
    case StartKey(now, id, requested, address) =>
      AuthorizedIff(l, s.tables, id, requested, now);
      QuietFrame(s0, s, s', key);
    case Land(now, txid, charged) =>
      if charged && s.flight.KeyFlight? {
        LandedLogs(s.tables, s.flight, txid, key);
        var f := s.flight;
        QuietLogged(s0, s, s', KeyPayout(f.key, txid, f.address, f.sats, f.since), key);
      } else {
        QuietFrame(s0, s, s', key);
      }
    case _ => QuietFrame(s0, s, s', key);
  }

  lemma AllowedStart(s: State, step: Step)
    requires Allowed(s, step)
    ensures step.StartKey? || step.StartCode? ==> s.flight.Grounded?
    ensures step.Mint? ==> step.key !in s.tables.keys
  {
  }

  /**
   * Revoking a key takes effect at once: whatever the rest of the run does, no
   * payout of that key starts any more. At most the one that was in flight
   * still lands, with the time it was cleared at.
   */
  lemma {:induction false} RevokedIsFinal(l: Limits, steps: seq<Step>, n: nat, key: nat)
    requires Run(l, steps) && n < |steps| && steps[n].Revoke? && steps[n].key == key
    requires key in Reach(l, steps[..n]).tables.keys
    ensures Quiet(Reach(l, steps[..n]), Reach(l, steps), key)
    decreases |steps|
  {
    hide Quiet, Run, Reach, Allowed, Apply;
    var before, step := steps[..|steps| - 1], steps[|steps| - 1];
    RunLast(l, steps);
    assert before[..n] == steps[..n];
    if n == |before| {
      assert steps[..n] == before;
      QuietStart(l, Reach(l, before), step);
    } else {
      RevokedIsFinal(l, before, n, key);
      QuietStep(l, Reach(l, steps[..n]), Reach(l, before), step, key);
    }
  }

  lemma QuietStart(l: Limits, s: State, step: Step)
    requires step.Revoke? && step.key in s.tables.keys
    ensures Quiet(s, Apply(l, s, step), step.key)
  {
  }

  lemma RunLast(l: Limits, steps: seq<Step>)
    requires Run(l, steps) && steps != []
    ensures var before, step := steps[..|steps| - 1], steps[|steps| - 1];
      Run(l, before) && Allowed(Reach(l, before), step) && Reach(l, steps) == Apply(l, Reach(l, before), step)
  {
  }

  // ------------------------------------------------------------------ caps that shrink

  /** Redemptions of a code, with the one a payout in flight may still add. */
  function Counting(s: State, code: nat): nat
    requires code in s.tables.codes
  {
    s.tables.codes[code].redemptions + if s.flight.CodeFlight? && s.flight.code == code then 1 else 0
  }

  /** No code is over its current cap, now or once the payout in flight is charged. */
  ghost predicate HasRoom(s: State) {
    forall c :: c in s.tables.codes ==> Counting(s, c) <= s.tables.codes[c].maxRedemptions
  }

  /** An edit that sets no cap below what its code has been, and is being, redeemed. */
  predicate Roomy(s: State, step: Step) {
    step.EditCode? && step.code in s.tables.codes && step.patch.maxRedemptions.Some? ==>
      Counting(s, step.code) <= step.patch.maxRedemptions.value
  }

  ghost predicate RunRoomy(l: Limits, steps: seq<Step>) {
    steps == [] ||
    (RunRoomy(l, steps[..|steps| - 1]) && Roomy(Reach(l, steps[..|steps| - 1]), steps[|steps| - 1]))
  }

  lemma EditRoom(l: Limits, s: State, now: Time, code: nat, patch: Patch)
    requires HasRoom(s)
    ensures HasRoom(Apply(l, s, EditCode(now, code, patch))) <==> Roomy(s, EditCode(now, code, patch))
  {
    var s' := Apply(l, s, EditCode(now, code, patch));
    if code in s.tables.codes {
      assert Counting(s', code) == Counting(s, code);
      assert forall c :: c in s.tables.codes && c != code ==> s'.tables.codes[c] == s.tables.codes[c];
      forall c | c in s.tables.codes && c != code ensures Counting(s', c) <= s'.tables.codes[c].maxRedemptions {
        assert Counting(s', c) == Counting(s, c);
      }
    }
  }

  lemma StartRoom(l: Limits, s: State, now: Time, code: nat, address: nat)
    requires HasRoom(s) && s.flight.Grounded?
    ensures HasRoom(Apply(l, s, StartCode(now, code, address)))
  {
    var s' := Apply(l, s, StartCode(now, code, address));
    forall c | c in s'.tables.codes ensures Counting(s', c) <= s'.tables.codes[c].maxRedemptions {
      assert Counting(s, c) <= s.tables.codes[c].maxRedemptions;
    }
  }

  lemma LandRoom(l: Limits, s: State, step: Step)
    requires HasRoom(s) && CodeCleared(s) && step.Land?
    ensures HasRoom(Apply(l, s, step))
  {
    var s' := Apply(l, s, step);
    forall c | c in s'.tables.codes ensures Counting(s', c) <= s'.tables.codes[c].maxRedemptions {
      assert Counting(s, c) <= s.tables.codes[c].maxRedemptions;
    }
  }

  /** A step that leaves the codes alone, or adds one, and takes no code payout into flight. */
  lemma OtherRoom(l: Limits, s: State, step: Step)
    requires HasRoom(s) && CodeCleared(s) && Allowed(s, step)
    requires step.StartKey? || step.Mint? || step.Revoke? || step.NewCode?
    ensures HasRoom(Apply(l, s, step))
  {
    hide Authorize;
    var s' := Apply(l, s, step);
    forall c | c in s'.tables.codes ensures Counting(s', c) <= s'.tables.codes[c].maxRedemptions {
      assert c in s.tables.codes ==> Counting(s, c) <= s.tables.codes[c].maxRedemptions;
    }
  }

  /** Only an edit that is not roomy takes the room away. */
  lemma StepRoom(l: Limits, s: State, step: Step)
    requires HasRoom(s) && CodeCleared(s) && Allowed(s, step)
    ensures HasRoom(Apply(l, s, step)) <==> Roomy(s, step)
  {
    hide HasRoom, CodeCleared, Counting, Apply;
    match step
    case EditCode(now, code, patch) => EditRoom(l, s, now, code, patch);
    case StartCode(now, code, address) => StartRoom(l, s, now, code, address);
    case Land(_, _, _) => LandRoom(l, s, step);
    case _ => OtherRoom(l, s, step);
  }

  lemma {:induction false} RunPrefix(l: Limits, steps: seq<Step>, n: nat)
    requires Run(l, steps) && n <= |steps|
    ensures Run(l, steps[..n]) && (RunRoomy(l, steps) ==> RunRoomy(l, steps[..n]))
    decreases |steps|
  {
    if n == |steps| {
      assert steps[..n] == steps;
    } else {
      hide Reach, Allowed, Roomy;
      assert steps[..|steps| - 1][..n] == steps[..n];
      RunPrefix(l, steps[..|steps| - 1], n);
    }
  }

  lemma {:induction false} RoomyHasRoom(l: Limits, steps: seq<Step>)
    requires Run(l, steps) && RunRoomy(l, steps)
    ensures HasRoom(Reach(l, steps))
  {
    if steps != [] {
      hide HasRoom, CodeCleared, Roomy, Apply, Allowed, KeysSound, KeyCleared, CodesSound;
      var before := steps[..|steps| - 1];
      RoomyHasRoom(l, before);
      RunSound(l, before);
      StepRoom(l, Reach(l, before), steps[|steps| - 1]);
    }
  }

  lemma {:induction false} TightShows(l: Limits, steps: seq<Step>) returns (n: nat)
    requires Run(l, steps) && !RunRoomy(l, steps)
    ensures n <= |steps| && !HasRoom(Reach(l, steps[..n]))
  {
    hide HasRoom, CodeCleared, Roomy, Apply, Allowed, KeysSound, KeyCleared, CodesSound;
    var before := steps[..|steps| - 1];
    if RunRoomy(l, before) {
      RoomyHasRoom(l, before);
      RunSound(l, before);
      StepRoom(l, Reach(l, before), steps[|steps| - 1]);
      n := |steps|;
      assert steps[..n] == steps;
    } else {
      n := TightShows(l, before);
      assert before[..n] == steps[..n];
    }
  }

  /**
   * At no point of a run is a code over its current cap, now or once the payout
   * in flight is charged, exactly when every edit that sets a cap leaves room
   * for the redemptions so far and for a payout of that code in flight.
   */
  lemma CapsHoldIff(l: Limits, steps: seq<Step>)
    requires Run(l, steps)
    ensures RunRoomy(l, steps) <==> forall n :: 0 <= n <= |steps| ==> HasRoom(Reach(l, steps[..n]))
  {
    hide HasRoom, Reach, Run, RunRoomy;
    if RunRoomy(l, steps) {
      forall n | 0 <= n <= |steps| ensures HasRoom(Reach(l, steps[..n])) {
        RunPrefix(l, steps, n);
        RoomyHasRoom(l, steps[..n]);
      }
    } else {
      var n := TightShows(l, steps);
    }
  }

  /** A plain edit, with no payout in flight, can set the cap below the count. */
  lemma PlainEditBelowCount(l: Limits) returns (steps: seq<Step>)
    requires l.enabled
    ensures Run(l, steps) && 0 in Reach(l, steps).tables.codes && Reach(l, steps).flight.Grounded?
    ensures var c := Reach(l, steps).tables.codes[0]; c.redemptions > c.maxRedemptions
  {
    hide Reach, Run, KeyHits;
    steps := RedeemedOnce(l);
    steps := Then(l, steps, EditCode(0, 0, Patch(None, Some(0), None, None)));
  }

  /** A code that may be redeemed twice, redeemed once. */
  lemma RedeemedOnce(l: Limits) returns (steps: seq<Step>)
    requires l.enabled
    ensures Run(l, steps)
    ensures var t := Tables(map[], [], map[0 := Code(1, 2, 1, None, false)], [Redemption(0, 7, 1, 1, 0)]);
      Reach(l, steps) == State(t, 0, Grounded, map[0 := 2])
  {
    hide Reach, Run, KeyHits;
    var c := Code(1, 2, 0, None, false);
    AtStart(l);
    steps := Then(l, [], NewCode(0, 0, c));
    var t := Tables(map[], [], map[0 := c], []);
    assert Reach(l, steps) == State(t, 0, Grounded, map[0 := 2]);
    steps := Then(l, steps, StartCode(0, 0, 7));
    assert Reach(l, steps) == State(t, 0, CodeFlight(0, 7, 1, 0), map[0 := 2]);
    steps := Then(l, steps, Land(0, 1, true));
  }

  /** An edit that lands during a broadcast, at the count itself, ends below it too. */
  lemma CapMayShrinkBelowCount(l: Limits) returns (steps: seq<Step>)
    requires l.enabled
    ensures Run(l, steps) && 0 in Reach(l, steps).tables.codes
    ensures var c := Reach(l, steps).tables.codes[0]; c.redemptions > c.maxRedemptions
  {
    hide Reach, Run, KeyHits;
    var rows := [Redemption(0, 7, 1, 1, 0)];
    steps := RedeemedOnce(l);
    steps := Then(l, steps, StartCode(0, 0, 8));
    var t := Tables(map[], [], map[0 := Code(1, 2, 1, None, false)], rows);
    assert Reach(l, steps) == State(t, 0, CodeFlight(0, 8, 1, 0), map[0 := 2]);
    steps := Then(l, steps, EditCode(0, 0, Patch(None, Some(1), None, None)));
    t := Tables(map[], [], map[0 := Code(1, 1, 1, None, false)], rows);
    assert Reach(l, steps) == State(t, 0, CodeFlight(0, 8, 1, 0), map[0 := 2]);
    steps := Then(l, steps, Land(0, 2, true));
  }

  lemma AtStart(l: Limits)
    ensures Run(l, []) && Reach(l, []) == START
  {
  }

  lemma Then(l: Limits, steps: seq<Step>, step: Step) returns (more: seq<Step>)
    requires Run(l, steps) && Allowed(Reach(l, steps), step)
    ensures Run(l, more) && Reach(l, more) == Apply(l, Reach(l, steps), step)
  {
    more := steps + [step];
    RunSnoc(l, steps, step);
  }

  lemma RunSnoc(l: Limits, steps: seq<Step>, step: Step)
    requires Run(l, steps) && Allowed(Reach(l, steps), step)
    ensures Run(l, steps + [step]) && Reach(l, steps + [step]) == Apply(l, Reach(l, steps), step)
  {
    assert (steps + [step])[..|steps|] == steps;
  }
}
