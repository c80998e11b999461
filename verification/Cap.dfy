/** The self-describing captcha tokens of src/cap.ts and their single use in src/treasury.ts. */
module Cap {
  import opened Coins
  import opened Octets

  const CHALLENGE_TTL_MS: nat := 600_000
  const CAP_TOKEN_GRACE_MS: nat := 600_000
  const PAYLOAD_BYTES: nat := 16
  const TOKEN_MAC_BYTES: nat := 9
  const TOKEN_HEX_LEN: nat := 50
  const REDEEM_MAC_HEX_LEN: nat := 64
  const EXPIRY_LIMIT: nat := 0x1_0000_0000_0000

  /** The keyed hash, by domain; it always yields 32 bytes. */
  type Mac = (string, seq<byte>) -> seq<byte>

  ghost predicate Hashes(mac: Mac) {
    forall domain, data :: |mac(domain, data)| == 32
  }

  // ------------------------------------------------------------------ hexadecimal text

  predicate IsHexChar(c: char) { '0' <= c <= '9' || 'a' <= c <= 'f' }

  predicate HexText(s: string) { forall i :: 0 <= i < |s| ==> IsHexChar(s[i]) }

  function Nibble(c: char): (n: nat)
    requires IsHexChar(c)
    ensures n < 16
  {
    if c <= '9' then c as int - 48 else c as int - 87
  }

  function HexChar(n: nat): (c: char)
    requires n < 16
    ensures IsHexChar(c) && Nibble(c) == n
  {
    if n < 10 then (48 + n) as char else (87 + n) as char
  }

  lemma HexCharInverts(c: char)
    requires IsHexChar(c)
    ensures HexChar(Nibble(c)) == c
  {
  }

  function HexOf(b: byte): (s: string) { [HexChar(b / 16), HexChar(b % 16)] }

  function ByteOf(high: char, low: char): byte
    requires IsHexChar(high) && IsHexChar(low)
  {
    Nibble(high) * 16 + Nibble(low)
  }

  lemma HexOfInverts(b: byte)
    ensures HexText(HexOf(b)) && ByteOf(HexOf(b)[0], HexOf(b)[1]) == b
  {
    hide Nibble, HexChar;
  }

  lemma ByteOfInverts(high: char, low: char)
    requires IsHexChar(high) && IsHexChar(low)
    ensures HexOf(ByteOf(high, low)) == [high, low]
  {
    hide Nibble, HexChar;
    var h, l := Nibble(high), Nibble(low);
    assert (h * 16 + l) / 16 == h && (h * 16 + l) % 16 == l;
    HexCharInverts(high);
    HexCharInverts(low);
  }

  function ToHex(bytes: seq<byte>): (s: string)
    ensures |s| == 2 * |bytes|
  {
    if bytes == [] then "" else ToHex(bytes[..|bytes| - 1]) + HexOf(bytes[|bytes| - 1])
  }

  method RenderHex(bytes: seq<byte>) returns (out: string)
    ensures out == ToHex(bytes)
  {
    out := "";
    for i := 0 to |bytes|
      invariant out == ToHex(bytes[..i])
    {
      assert bytes[..i + 1][..i] == bytes[..i];
      out := out + HexOf(bytes[i]);
    }
    assert bytes[..|bytes|] == bytes;
  }

  /** The bytes a text spells, two digits each; a last odd digit is dropped. */
  function FromHex(hex: string): (bytes: seq<byte>)
    requires HexText(hex)
    ensures |bytes| == |hex| / 2
  {
    seq(|hex| / 2, i requires 0 <= i < |hex| / 2 => ByteOf(hex[2 * i], hex[2 * i + 1]))
  }

  lemma FromHexAppend(front: string, high: char, low: char)
    requires HexText(front) && |front| % 2 == 0 && IsHexChar(high) && IsHexChar(low)
    ensures HexText(front + [high, low]) && FromHex(front + [high, low]) == FromHex(front) + [ByteOf(high, low)]
  {
    hide ByteOf;
  }

  lemma {:induction false} HexInverts(bytes: seq<byte>)
    ensures HexText(ToHex(bytes)) && FromHex(ToHex(bytes)) == bytes
  {
    hide FromHex, HexOf, ByteOf;
    if bytes != [] {
      var n := |bytes| - 1;
      var last := HexOf(bytes[n]);
      HexInverts(bytes[..n]);
      HexOfInverts(bytes[n]);
      HexOfIsTwo(bytes[n]);
      FromHexAppend(ToHex(bytes[..n]), last[0], last[1]);
      assert bytes == bytes[..n] + [bytes[n]];
    } else {
      assert ToHex(bytes) == "";
    }
  }

  lemma HexOfIsTwo(b: byte)
    ensures |HexOf(b)| == 2 && HexOf(b) == [HexOf(b)[0], HexOf(b)[1]]
  {
  }

  lemma {:induction false} HexSpells(hex: string)
    requires HexText(hex) && |hex| % 2 == 0
    ensures ToHex(FromHex(hex)) == hex
  {
    hide FromHex, HexOf, ByteOf;
    if hex != "" {
      var n := |hex| - 2;
      HexSpells(hex[..n]);
      FromHexAppend(hex[..n], hex[n], hex[n + 1]);
      ByteOfInverts(hex[n], hex[n + 1]);
      assert hex == hex[..n] + [hex[n], hex[n + 1]];
      ToHexAppend(FromHex(hex[..n]), ByteOf(hex[n], hex[n + 1]));
    }
  }

  lemma ToHexAppend(bytes: seq<byte>, b: byte)
    ensures ToHex(bytes + [b]) == ToHex(bytes) + HexOf(b)
  {
    assert (bytes + [b])[..|bytes|] == bytes;
  }

  lemma {:induction false} HexPrefix(bytes: seq<byte>, k: nat)
    requires k <= |bytes|
    ensures ToHex(bytes)[..2 * k] == ToHex(bytes[..k])
  {
    if k < |bytes| {
      var front := bytes[..|bytes| - 1];
      HexPrefix(front, k);
      assert front[..k] == bytes[..k];
    } else {
      assert bytes[..k] == bytes;
    }
  }

  /**
   * Whether the hexadecimal rendering of a digest starts with a target, with
   * only as many bytes rendered as the target can reach.
   */
  method DigestHasPrefix(digest: seq<byte>, target: string) returns (r: bool)
    requires |target| <= 2 * |digest|
    ensures r <==> target <= ToHex(digest)
  {
    var bytes := (|target| + 1) / 2;
    var hex := "";
    for i := 0 to bytes
      invariant hex == ToHex(digest[..i])
    {
      assert digest[..i + 1][..i] == digest[..i];
      hex := hex + HexOf(digest[i]);
    }
    r := |target| <= |hex| && hex[..|target|] == target;
    HexPrefix(digest, bytes);
    assert ToHex(digest)[..|target|] == hex[..|target|];
  }

  /** Every position is looked at before the verdict. */
  method TimingSafeEqual(a: string, b: string) returns (same: bool)
    ensures same <==> a == b
  {
    if |a| != |b| {
      return false;
    }
    same := true;
    for i := 0 to |a|
      invariant same <==> a[..i] == b[..i]
    {
      assert a[..i + 1] == a[..i] + [a[i]] && b[..i + 1] == b[..i] + [b[i]];
      same := same && a[i] == b[i];
    }
    assert a[..|a|] == a && b[..|b|] == b;
  }

  // ------------------------------------------------------------------ tokens

  datatype Params = Params(c: int, s: int, d: int)

  datatype TokenParse = Parsed(expires: nat, params: Params) | Invalid

  function BigEndian(bytes: seq<byte>): nat {
    if bytes == [] then 0 else BigEndian(bytes[..|bytes| - 1]) * 256 + bytes[|bytes| - 1]
  }

  /** The six bytes a payload keeps of an expiry. */
  function ExpiryBytes(expires: nat): (e: seq<byte>)
    ensures |e| == 6
  {
    [ expires / 0x100_0000_0000 % 256, expires / 0x1_0000_0000 % 256, expires / 0x100_0000 % 256,
      expires / 0x1_0000 % 256, expires / 0x100 % 256, expires % 256]
  }

  function Payload(params: Params, expires: nat, random: seq<byte>): (p: seq<byte>)
    requires |random| == 7
    ensures |p| == PAYLOAD_BYTES
  {
    ExpiryBytes(expires) + [(params.c - 1) % 256, (params.s - 1) % 256, params.d % 256] + random
  }

  function Seal(mac: Mac, payload: seq<byte>): (token: string)
    requires Hashes(mac)
  {
    ToHex(payload) + ToHex(mac("cap-challenge:", payload)[..TOKEN_MAC_BYTES])
  }

  /** What a payload commits to. */
  function ReadPayload(payload: seq<byte>): (r: TokenParse)
    requires |payload| == PAYLOAD_BYTES
    ensures r.Parsed?
  {
    Parsed(BigEndian(payload[..6]), Params(payload[6] as int + 1, payload[7] as int + 1, payload[8]))
  }

  method Sign(mac: Mac, payload: seq<byte>) returns (token: string)
    requires Hashes(mac)
    ensures token == Seal(mac, payload)
  {
    var head := RenderHex(payload);
    var tag := RenderHex(mac("cap-challenge:", payload)[..TOKEN_MAC_BYTES]);
    token := head + tag;
  }

  /** The payload is filled byte by byte; a stored byte keeps a number modulo 256. */
  method FillPayload(payload: array<byte>, params: Params, expires: nat, random: seq<byte>)
    requires payload.Length == PAYLOAD_BYTES && |random| == 7
    modifies payload
    ensures payload[..] == Payload(params, expires, random)
  {
    forall i | 0 <= i < 7 {
      payload[9 + i] := random[i];
    }
    payload[6], payload[7], payload[8] := (params.c - 1) % 256, (params.s - 1) % 256, params.d % 256;
    var e := ExpiryBytes(expires);
    hide ExpiryBytes;
    payload[0], payload[1], payload[2] := e[0], e[1], e[2];
    payload[3], payload[4], payload[5] := e[3], e[4], e[5];
  }

  method MintChallenge(mac: Mac, params: Params, now: nat, random: seq<byte>)
      returns (token: string, expires: nat)
    requires Hashes(mac) && |random| == 7
    ensures expires == now + 10 * 60_000
    ensures token == Seal(mac, Payload(params, expires, random))
  {
    hide Seal, Payload;
    expires := now + CHALLENGE_TTL_MS;
    var payload := new byte[PAYLOAD_BYTES](_ => 0);
    FillPayload(payload, params, expires, random);
    token := Sign(mac, payload[..]);
  }

  function ParsedToken(mac: Mac, token: string): TokenParse
    requires Hashes(mac)
  {
    if |token| != TOKEN_HEX_LEN || !HexText(token) then Invalid
    else
      var payload := FromHex(token[..32]);
      if token[32..] != ToHex(mac("cap-challenge:", payload)[..TOKEN_MAC_BYTES]) then Invalid
      else ReadPayload(payload)
  }

  method ParseToken(mac: Mac, token: string) returns (r: TokenParse)
    requires Hashes(mac)
    ensures r == ParsedToken(mac, token)
  {
    if |token| != TOKEN_HEX_LEN || !HexText(token) {
      return Invalid;
    }
    var payload := FromHex(token[..32]);
    var expected := RenderHex(mac("cap-challenge:", payload)[..TOKEN_MAC_BYTES]);
    var same := TimingSafeEqual(token[32..], expected);
    if !same {
      return Invalid;
    }
    var expires: nat := 0;
    for i := 0 to 6
      invariant expires == BigEndian(payload[..i])
    {
      assert payload[..i + 1][..i] == payload[..i];
      expires := expires * 256 + payload[i];
    }
    r := Parsed(expires, Params(payload[6] as int + 1, payload[7] as int + 1, payload[8]));
  }

  /** A token parses exactly when it is the seal of some payload, and then to what that payload commits to. */
  lemma ParseIff(mac: Mac, token: string)
    requires Hashes(mac)
    ensures ParsedToken(mac, token).Parsed? <==>
      exists payload: seq<byte> :: |payload| == PAYLOAD_BYTES && token == Seal(mac, payload)
    ensures forall payload: seq<byte> :: |payload| == PAYLOAD_BYTES && token == Seal(mac, payload) ==>
      ParsedToken(mac, token) == ReadPayload(payload)
  {
    if ParsedToken(mac, token).Parsed? {
      var payload := FromHex(token[..32]);
      HexSpells(token[..32]);
      assert token == token[..32] + token[32..];
      assert token == Seal(mac, payload);
    }
    forall payload: seq<byte> | |payload| == PAYLOAD_BYTES && token == Seal(mac, payload)
      ensures ParsedToken(mac, token) == ReadPayload(payload)
    {
      SealParses(mac, payload);
    }
  }

  lemma SealParses(mac: Mac, payload: seq<byte>)
    requires Hashes(mac) && |payload| == PAYLOAD_BYTES
    ensures ParsedToken(mac, Seal(mac, payload)) == ReadPayload(payload)
  {
    hide ReadPayload, ToHex;
    var tag := mac("cap-challenge:", payload)[..TOKEN_MAC_BYTES];
    HexInverts(payload);
    HexInverts(tag);
    var token := Seal(mac, payload);
    assert token[..32] == ToHex(payload) && token[32..] == ToHex(tag);
    forall i | 0 <= i < |token| ensures IsHexChar(token[i]) {
      assert token[i] == if i < 32 then ToHex(payload)[i] else ToHex(tag)[i - 32];
    }
  }

  lemma BigEndianSix(a: byte, b: byte, c: byte, d: byte, e: byte, f: byte)
    ensures BigEndian([a, b, c, d, e, f]) == ((((a * 256 + b) * 256 + c) * 256 + d) * 256 + e) * 256 + f
  {
    assert BigEndian([a]) == a by { assert [a][..0] == []; }
    assert BigEndian([a, b]) == BigEndian([a]) * 256 + b by { assert [a, b][..1] == [a]; }
    assert BigEndian([a, b, c]) == BigEndian([a, b]) * 256 + c by { assert [a, b, c][..2] == [a, b]; }
    assert BigEndian([a, b, c, d]) == BigEndian([a, b, c]) * 256 + d by { assert [a, b, c, d][..3] == [a, b, c]; }
    assert BigEndian([a, b, c, d, e]) == BigEndian([a, b, c, d]) * 256 + e by {
      assert [a, b, c, d, e][..4] == [a, b, c, d];
    }
    assert [a, b, c, d, e, f][..5] == [a, b, c, d, e];
  }

  lemma NestedDivisions(n: nat)
    ensures n / 0x100 / 0x100 == n / 0x1_0000
    ensures n / 0x1_0000 / 0x100 == n / 0x100_0000
    ensures n / 0x100_0000 / 0x100 == n / 0x1_0000_0000
    ensures n / 0x1_0000_0000 / 0x100 == n / 0x100_0000_0000
    ensures n / 0x100_0000_0000 / 0x100 == n / EXPIRY_LIMIT
  {
  }

  lemma LowDigit(n: nat)
    ensures n == n / 256 * 256 + n % 256
  {
  }

  lemma ExpiryDigits(expires: nat)
    ensures BigEndian(ExpiryBytes(expires)) == expires % EXPIRY_LIMIT
  {
    hide BigEndian;
    var p := ExpiryBytes(expires);
    BigEndianSix(p[0], p[1], p[2], p[3], p[4], p[5]);
    NestedDivisions(expires);
    LowDigit(expires);
    LowDigit(expires / 0x100);
    LowDigit(expires / 0x1_0000);
    LowDigit(expires / 0x100_0000);
    LowDigit(expires / 0x1_0000_0000);
    LowDigit(expires / 0x100_0000_0000);
    assert expires == expires / EXPIRY_LIMIT * EXPIRY_LIMIT + BigEndian(p);
  }

  /** A minted token reads back as what was asked for exactly when every part fits its bytes. */
  lemma MintParses(mac: Mac, params: Params, expires: nat, random: seq<byte>)
    requires Hashes(mac) && |random| == 7
    ensures ParsedToken(mac, Seal(mac, Payload(params, expires, random))) == Parsed(expires, params) <==>
      expires < EXPIRY_LIMIT && 1 <= params.c <= 256 && 1 <= params.s <= 256 && 0 <= params.d < 256
  {
    hide Seal, ParsedToken, BigEndian;
    var payload := Payload(params, expires, random);
    SealParses(mac, payload);
    ExpiryDigits(expires);
    assert payload[..6] == ExpiryBytes(expires);
  }

  // ------------------------------------------------------------------ redeeming

  function Ascii(s: string): seq<byte>
    requires HexText(s)
  {
    seq(|s|, i requires 0 <= i < |s| => s[i] as int)
  }

  function DeriveCapToken(mac: Mac, token: string): string
    requires Hashes(mac) && HexText(token)
  {
    token + ToHex(mac("cap-redeem:", Ascii(token)))
  }

  datatype CapCheck = Authentic(expiresAt: nat, params: Params) | NotOurs | Expired

  method VerifyCapToken(mac: Mac, capToken: string, now: nat) returns (r: CapCheck)
    requires Hashes(mac)
    ensures r == CapTokenCheck(mac, capToken, now)
  {
    if |capToken| != TOKEN_HEX_LEN + REDEEM_MAC_HEX_LEN || !HexText(capToken) {
      return NotOurs;
    }
    var token := capToken[..TOKEN_HEX_LEN];
    var parsed := ParseToken(mac, token);
    if parsed.Invalid? {
      return NotOurs;
    }
    var same := TimingSafeEqual(capToken, DeriveCapToken(mac, token));
    if !same {
      return NotOurs;
    }
    var expiresAt := parsed.expires + CAP_TOKEN_GRACE_MS;
    if now > expiresAt {
      return Expired;
    }
    r := Authentic(expiresAt, parsed.params);
  }

  function CapTokenCheck(mac: Mac, capToken: string, now: nat): CapCheck
    requires Hashes(mac)
  {
    if |capToken| != TOKEN_HEX_LEN + REDEEM_MAC_HEX_LEN || !HexText(capToken) then NotOurs
    else
      var token := capToken[..TOKEN_HEX_LEN];
      match ParsedToken(mac, token)
      case Invalid => NotOurs
      case Parsed(expires, params) =>
        if capToken != DeriveCapToken(mac, token) then NotOurs
        else if now > expires + CAP_TOKEN_GRACE_MS then Expired
        else Authentic(expires + CAP_TOKEN_GRACE_MS, params)
  }

  lemma SealIsHex(mac: Mac, payload: seq<byte>)
    requires Hashes(mac) && |payload| == PAYLOAD_BYTES
    ensures HexText(Seal(mac, payload)) && |Seal(mac, payload)| == TOKEN_HEX_LEN
  {
    SealParses(mac, payload);
  }

  /** The token handed out for a challenge is honoured until its grace runs out, for the shape the challenge had. */
  lemma DerivedVerifies(mac: Mac, payload: seq<byte>, now: nat)
    requires Hashes(mac) && |payload| == PAYLOAD_BYTES
    ensures HexText(Seal(mac, payload))
    ensures var p := ReadPayload(payload);
      CapTokenCheck(mac, DeriveCapToken(mac, Seal(mac, payload)), now) ==
        if now > p.expires + CAP_TOKEN_GRACE_MS then Expired else Authentic(p.expires + CAP_TOKEN_GRACE_MS, p.params)
  {
    hide ReadPayload, Seal, ToHex, ParsedToken;
    SealIsHex(mac, payload);
    SealParses(mac, payload);
    var token := Seal(mac, payload);
    var tag := mac("cap-redeem:", Ascii(token));
    HexInverts(tag);
    var capToken := DeriveCapToken(mac, token);
    assert capToken[..TOKEN_HEX_LEN] == token;
    forall i | 0 <= i < |capToken| ensures IsHexChar(capToken[i]) {
      assert capToken[i] == if i < |token| then token[i] else ToHex(tag)[i - |token|];
    }
  }

  /** No token is honoured but one derived from a challenge that was sealed here, while its grace lasts. */
  lemma HonouredIff(mac: Mac, capToken: string, now: nat)
    requires Hashes(mac)
    ensures CapTokenCheck(mac, capToken, now).Authentic? <==>
      exists payload: seq<byte> ::
        DerivedFrom(mac, capToken, payload) && now <= ReadPayload(payload).expires + CAP_TOKEN_GRACE_MS
  {
    hide ReadPayload, ParsedToken;
    if CapTokenCheck(mac, capToken, now).Authentic? {
      var token := capToken[..TOKEN_HEX_LEN];
      ParseIff(mac, token);
      var payload: seq<byte> :| |payload| == PAYLOAD_BYTES && token == Seal(mac, payload);
      assert DerivedFrom(mac, capToken, payload);
    }
    forall payload: seq<byte> |
      DerivedFrom(mac, capToken, payload) && now <= ReadPayload(payload).expires + CAP_TOKEN_GRACE_MS
      ensures CapTokenCheck(mac, capToken, now).Authentic?
    {
      DerivedVerifies(mac, payload, now);
    }
  }

  /** What was not derived here is not ours, whatever it says and whenever it is shown. */
  lemma NotOursIff(mac: Mac, capToken: string, now: nat)
    requires Hashes(mac)
    ensures CapTokenCheck(mac, capToken, now).NotOurs? <==>
      !exists payload: seq<byte> :: DerivedFrom(mac, capToken, payload)
  {
    hide ReadPayload, ParsedToken;
    if !CapTokenCheck(mac, capToken, now).NotOurs? {
      var token := capToken[..TOKEN_HEX_LEN];
      ParseIff(mac, token);
      var payload: seq<byte> :| |payload| == PAYLOAD_BYTES && token == Seal(mac, payload);
      assert DerivedFrom(mac, capToken, payload);
    }
    forall payload: seq<byte> | DerivedFrom(mac, capToken, payload)
      ensures !CapTokenCheck(mac, capToken, now).NotOurs?
    {
      DerivedVerifies(mac, payload, now);
    }
  }

  ghost predicate DerivedFrom(mac: Mac, capToken: string, payload: seq<byte>)
    requires Hashes(mac)
  {
    |payload| == PAYLOAD_BYTES && HexText(Seal(mac, payload)) && capToken == DeriveCapToken(mac, Seal(mac, payload))
  }

  // ------------------------------------------------------------------ solutions

  const MAX_SAFE_INTEGER: nat := 0x1F_FFFF_FFFF_FFFF

  type Prng = (string, nat) -> string

  type Sha = string -> seq<byte>

  /** A presented nonce: an integer, or anything else a request may hold. */
  datatype Nonce = Int(n: int) | NotAnInteger

  datatype Reason = BadToken | ChallengeExpired | BadSolutions | SolutionRejected

  /** `Crashed` is the exception a target longer than the digest runs into. */
  datatype Redeem = Redeemed(capToken: string, expiresAt: nat) | Refused(reason: Reason) | Crashed

  function Decimal(n: nat): string {
    if n < 10 then [(48 + n) as char] else Decimal(n / 10) + [(48 + n % 10) as char]
  }

  function Salt(prng: Prng, token: string, i: nat, params: Params): string
    requires params.s >= 0
  {
    prng(token + Decimal(i), params.s)
  }

  function Target(prng: Prng, token: string, i: nat, params: Params): string
    requires params.d >= 0
  {
    prng(token + Decimal(i) + "d", params.d)
  }

  datatype Grade = Solved | NotANonce | Wrong | TooLong

  /** What the i-th nonce is worth for a challenge. */
  function GradeOf(prng: Prng, sha: Sha, token: string, params: Params, i: nat, nonce: Nonce): Grade
    requires params.s >= 0 && params.d >= 0
  {
    if nonce.NotAnInteger? || nonce.n < 0 || nonce.n > MAX_SAFE_INTEGER then NotANonce
    else
      var digest := sha(Salt(prng, token, i, params) + Decimal(nonce.n));
      var target := Target(prng, token, i, params);
      if |target| > 2 * |digest| then TooLong
      else if target <= ToHex(digest) then Solved else Wrong
  }

  function Failure(g: Grade): Redeem
    requires g != Solved
  {
    match g
    case NotANonce => Refused(BadSolutions)
    case Wrong => Refused(SolutionRejected)
    case TooLong => Crashed
  }

  /** The first grade short of Solved from the i-th nonce on. */
  function GradeFrom(prng: Prng, sha: Sha, token: string, params: Params, nonces: seq<Nonce>, i: nat): Grade
    requires params.s >= 0 && params.d >= 0 && i <= |nonces|
    decreases |nonces| - i
  {
    if i == |nonces| then Solved
    else
      var g := GradeOf(prng, sha, token, params, i + 1, nonces[i]);
      if g != Solved then g else GradeFrom(prng, sha, token, params, nonces, i + 1)
  }

  function RedeemResult(mac: Mac, prng: Prng, sha: Sha, token: string, nonces: Option<seq<Nonce>>, now: nat): Redeem
    requires Hashes(mac)
  {
    match ParsedToken(mac, token)
    case Invalid => Refused(BadToken)
    case Parsed(expires, params) =>
      if now > expires then Refused(ChallengeExpired)
      else if nonces.None? || |nonces.value| != params.c then Refused(BadSolutions)
      else
        var g := GradeFrom(prng, sha, token, params, nonces.value, 0);
        if g != Solved then Failure(g)
        else Redeemed(DeriveCapToken(mac, token), expires + CAP_TOKEN_GRACE_MS)
  }

  method VerifySolutions(mac: Mac, prng: Prng, sha: Sha, token: string, nonces: Option<seq<Nonce>>, now: nat)
      returns (r: Redeem)
    requires Hashes(mac)
    ensures r == RedeemResult(mac, prng, sha, token, nonces, now)
  {
    hide GradeOf, DeriveCapToken, ReadPayload;
    var parsed := ParseToken(mac, token);
    if parsed.Invalid? {
      return Refused(BadToken);
    }
    if now > parsed.expires {
      return Refused(ChallengeExpired);
    }
    var params := parsed.params;
    ParsedShape(mac, token);
    hide ParsedToken;
    if nonces.None? || |nonces.value| != params.c {
      return Refused(BadSolutions);
    }
    for i := 0 to |nonces.value|
      invariant GradeFrom(prng, sha, token, params, nonces.value, 0)
        == GradeFrom(prng, sha, token, params, nonces.value, i)
    {
      var grade := Grading(prng, sha, token, params, i + 1, nonces.value[i]);
      if grade != Solved {
        return Failure(grade);
      }
    }
    r := Redeemed(DeriveCapToken(mac, token), parsed.expires + CAP_TOKEN_GRACE_MS);
  }

  lemma {:induction false} GradeFromIff(prng: Prng, sha: Sha, token: string, params: Params, nonces: seq<Nonce>, i: nat)
    requires params.s >= 0 && params.d >= 0 && i <= |nonces|
    ensures GradeFrom(prng, sha, token, params, nonces, i) == Solved <==>
      forall j :: i <= j < |nonces| ==> GradeOf(prng, sha, token, params, j + 1, nonces[j]) == Solved
    decreases |nonces| - i
  {
    hide GradeOf;
    if i < |nonces| {
      GradeFromIff(prng, sha, token, params, nonces, i + 1);
    }
  }

  /**
   * A nonce solves part i of a challenge: it is a safe integer, not negative, and
   * the hash of the part's salt and it begins, in hexadecimal, with the part's
   * target; both are drawn from the token and the number of the part.
   */
  predicate Solves(prng: Prng, sha: Sha, token: string, p: Params, i: nat, nonce: Nonce)
    requires p.s >= 0 && p.d >= 0
  {
    && nonce.Int? && 0 <= nonce.n < 0x20_0000_0000_0000
    && prng(token + Decimal(i) + "d", p.d) <= ToHex(sha(prng(token + Decimal(i), p.s) + Decimal(nonce.n)))
  }

  lemma SolvesIff(prng: Prng, sha: Sha, token: string, p: Params, i: nat, nonce: Nonce)
    requires p.s >= 0 && p.d >= 0
    ensures GradeOf(prng, sha, token, p, i, nonce) == Solved <==> Solves(prng, sha, token, p, i, nonce)
  {
    hide Decimal;
  }

  /**
   * A set of nonces earns a captcha token exactly when the challenge is one we
   * sealed and still open, there is one nonce for each of its parts, and every
   * one solves its part.
   */
  lemma RedeemedIff(mac: Mac, prng: Prng, sha: Sha, payload: seq<byte>, nonces: seq<Nonce>, now: nat)
    requires Hashes(mac) && |payload| == PAYLOAD_BYTES
    ensures ReadPayload(payload).params.s >= 0 && ReadPayload(payload).params.d >= 0
    ensures var p, token := ReadPayload(payload), Seal(mac, payload);
      RedeemResult(mac, prng, sha, token, Some(nonces), now).Redeemed? <==>
        && now <= p.expires && |nonces| == p.params.c
        && forall i :: 0 <= i < |nonces| ==> Solves(prng, sha, token, p.params, i + 1, nonces[i])
  {
    var p, token := ReadPayload(payload), Seal(mac, payload);
    SealParses(mac, payload);
    hide ParsedToken, Seal, GradeOf, DeriveCapToken, ReadPayload, Solves;
    forall i | 0 <= i < |nonces| ensures GradeOf(prng, sha, token, p.params, i + 1, nonces[i]) == Solved
      <==> Solves(prng, sha, token, p.params, i + 1, nonces[i])
    {
      SolvesIff(prng, sha, token, p.params, i + 1, nonces[i]);
    }
    GradeFromIff(prng, sha, token, p.params, nonces, 0);
    var g := GradeFrom(prng, sha, token, p.params, nonces, 0);
    assert g != Solved ==> !Failure(g).Redeemed?;
  }

  lemma ParsedShape(mac: Mac, token: string)
    requires Hashes(mac) && ParsedToken(mac, token).Parsed?
    ensures HexText(token) && |token| == TOKEN_HEX_LEN
    ensures var p := ParsedToken(mac, token).params; 1 <= p.c <= 256 && 1 <= p.s <= 256 && 0 <= p.d < 256
  {
  }

  method Grading(prng: Prng, sha: Sha, token: string, params: Params, i: nat, nonce: Nonce) returns (g: Grade)
    requires params.s >= 0 && params.d >= 0
    ensures g == GradeOf(prng, sha, token, params, i, nonce)
  {
    if nonce.NotAnInteger? || nonce.n < 0 || nonce.n > MAX_SAFE_INTEGER {
      return NotANonce;
    }
    var target := Target(prng, token, i, params);
    var digest := sha(Salt(prng, token, i, params) + Decimal(nonce.n));
    if |target| > 2 * |digest| {
      return TooLong;
    }
    var solved := DigestHasPrefix(digest, target);
    g := if solved then Solved else Wrong;
  }

  /**
   * A redeemed challenge gives a token that verifies, for the very shape it was
   * solved at, exactly until the expiry handed out with it: the challenge's own
   * and the grace.
   */
  lemma RedeemedVerifies(mac: Mac, prng: Prng, sha: Sha, token: string, nonces: Option<seq<Nonce>>,
                         now: nat, later: nat)
    requires Hashes(mac) && RedeemResult(mac, prng, sha, token, nonces, now).Redeemed?
    ensures var r, p := RedeemResult(mac, prng, sha, token, nonces, now), ParsedToken(mac, token);
      && p.Parsed? && r.expiresAt == p.expires + 10 * 60_000
      && r.capToken[..Min(TOKEN_HEX_LEN, |r.capToken|)] == token
      && CapTokenCheck(mac, r.capToken, later) ==
           if later > r.expiresAt then Expired else Authentic(r.expiresAt, p.params)
  {
    hide CapTokenCheck, ParsedToken, DeriveCapToken, RedeemResult;
    RedeemedIs(mac, prng, sha, token, nonces, now);
    ParsedShape(mac, token);
    HonouredUntil(mac, token, later);
    DerivedStarts(mac, token);
  }

  lemma HonouredUntil(mac: Mac, token: string, later: nat)
    requires Hashes(mac) && HexText(token) && ParsedToken(mac, token).Parsed?
    ensures var p := ParsedToken(mac, token);
      CapTokenCheck(mac, DeriveCapToken(mac, token), later) ==
        if later > p.expires + CAP_TOKEN_GRACE_MS then Expired else Authentic(p.expires + CAP_TOKEN_GRACE_MS, p.params)
  {
    hide CapTokenCheck, ParsedToken, DeriveCapToken, Seal, ReadPayload;
    ParseIff(mac, token);
    var payload: seq<byte> :| |payload| == PAYLOAD_BYTES && token == Seal(mac, payload);
    DerivedVerifies(mac, payload, later);
  }

  lemma DerivedStarts(mac: Mac, token: string)
    requires Hashes(mac) && HexText(token) && |token| == TOKEN_HEX_LEN
    ensures var capToken := DeriveCapToken(mac, token);
      |capToken| >= TOKEN_HEX_LEN && capToken[..TOKEN_HEX_LEN] == token
  {
  }

  lemma RedeemedIs(mac: Mac, prng: Prng, sha: Sha, token: string, nonces: Option<seq<Nonce>>, now: nat)
    requires Hashes(mac) && RedeemResult(mac, prng, sha, token, nonces, now).Redeemed?
    ensures var r, p := RedeemResult(mac, prng, sha, token, nonces, now), ParsedToken(mac, token);
      && p.Parsed? && HexText(token)
      && r.capToken == DeriveCapToken(mac, token) && r.expiresAt == p.expires + CAP_TOKEN_GRACE_MS
  {
    hide GradeOf, ReadPayload, FromHex, ToHex;
  }

  /** The first part its nonce does not solve. */
  ghost predicate FirstUnsolved(prng: Prng, sha: Sha, token: string, p: Params, nonces: seq<Nonce>, i: nat)
    requires p.s >= 0 && p.d >= 0
  {
    && i < |nonces| && !Solves(prng, sha, token, p, i + 1, nonces[i])
    && forall j :: 0 <= j < i ==> Solves(prng, sha, token, p, j + 1, nonces[j])
  }

  lemma {:induction false} GradeFromFirst(prng: Prng, sha: Sha, token: string, p: Params, nonces: seq<Nonce>,
                                          from: nat, i: nat)
    requires p.s >= 0 && p.d >= 0 && from <= i && FirstUnsolved(prng, sha, token, p, nonces, i)
    ensures GradeFrom(prng, sha, token, p, nonces, from) == GradeOf(prng, sha, token, p, i + 1, nonces[i]) != Solved
    decreases i - from
  {
    hide GradeOf, Solves;
    SolvesIff(prng, sha, token, p, from + 1, nonces[from]);
    if from < i {
      GradeFromFirst(prng, sha, token, p, nonces, from + 1, i);
    }
  }

  /**
   * The first unsolved part decides the refusal: bad solutions when its nonce is
   * no safe non-negative integer, a crash when its target is longer than any
   * digest, and a rejected solution otherwise.
   */
  lemma UnsolvedIs(mac: Mac, prng: Prng, sha: Sha, payload: seq<byte>, nonces: seq<Nonce>, now: nat, i: nat)
    requires Hashes(mac) && |payload| == PAYLOAD_BYTES
    requires var p := ReadPayload(payload);
      && now <= p.expires && |nonces| == p.params.c && p.params.s >= 0 && p.params.d >= 0
      && FirstUnsolved(prng, sha, Seal(mac, payload), p.params, nonces, i)
    ensures var p, token := ReadPayload(payload).params, Seal(mac, payload);
      RedeemResult(mac, prng, sha, token, Some(nonces), now) ==
        match nonces[i]
        case NotAnInteger => Refused(BadSolutions)
        case Int(n) =>
          if n < 0 || n >= 0x20_0000_0000_0000 then Refused(BadSolutions)
          else if |prng(token + Decimal(i + 1) + "d", p.d)|
                    > 2 * |sha(prng(token + Decimal(i + 1), p.s) + Decimal(n))| then Crashed
          else Refused(SolutionRejected)
  {
    var p, token := ReadPayload(payload).params, Seal(mac, payload);
    SealParses(mac, payload);
    hide ParsedToken, Seal, DeriveCapToken, ReadPayload, Solves, Decimal;
    GradeFromFirst(prng, sha, token, p, nonces, 0, i);
  }

  /** The refusals that come before any nonce is looked at. */
  lemma RefusedIff(mac: Mac, prng: Prng, sha: Sha, token: string, nonces: Option<seq<Nonce>>, now: nat)
    requires Hashes(mac)
    ensures var r, p := RedeemResult(mac, prng, sha, token, nonces, now), ParsedToken(mac, token);
      && (r == Refused(BadToken) <==> p.Invalid?)
      && (r == Refused(ChallengeExpired) <==> p.Parsed? && now > p.expires)
      && (p.Parsed? && now <= p.expires && (nonces.None? || |nonces.value| != p.params.c) ==>
            r == Refused(BadSolutions))
  {
    if ParsedToken(mac, token).Parsed? {
      ParsedShape(mac, token);
    }
    hide GradeOf, ParsedToken, DeriveCapToken;
  }

  /** A decimal numeral read back. */
  function DecimalNumber(s: string): int {
    if s == "" then 0 else 10 * DecimalNumber(s[..|s| - 1]) + (s[|s| - 1] as int - 48)
  }

  lemma {:induction false} DecimalReads(n: nat)
    ensures DecimalNumber(Decimal(n)) == n && Decimal(n) != ""
  {
    var s := Decimal(n);
    if n >= 10 {
      DecimalReads(n / 10);
      assert s[..|s| - 1] == Decimal(n / 10);
    } else {
      assert s[..0] == "";
    }
  }

  // ------------------------------------------------------------------ single use

  /** One presentation of a token, with the expiry it verified with. */
  datatype Use = Use(token: string, expiresAt: nat, now: nat)

  function Live(used: map<string, nat>, now: nat): map<string, nat> {
    map t | t in used && used[t] >= now :: used[t]
  }

  function Marked(used: map<string, nat>, u: Use): map<string, nat> {
    var live := Live(used, u.now);
    if u.token in live then live else live[u.token := u.expiresAt]
  }

  /** The table of spent captcha tokens. */
  class UsedCaps {
    var used: map<string, nat>

    constructor ()
      ensures used == map[]
    {
      used := map[];
    }

    /** Expired rows go first, by the clock; the token's own expiry is never compared with it. */
    method Consume(token: string, expiresAt: nat, now: nat) returns (ok: bool)
      modifies this
      ensures used == Marked(old(used), Use(token, expiresAt, now))
      ensures ok <==> token !in Live(old(used), now)
    {
      used := map t | t in used && used[t] >= now :: used[t];
      if token in used {
        return false;
      }
      used := used[token := expiresAt];
      ok := true;
    }
  }

  function UsedAfter(uses: seq<Use>): map<string, nat> {
    if uses == [] then map[] else Marked(UsedAfter(uses[..|uses| - 1]), uses[|uses| - 1])
  }

  /** Whether the j-th use of a run was accepted. */
  predicate Accepted(uses: seq<Use>, j: nat)
    requires j < |uses|
  {
    uses[j].token !in Live(UsedAfter(uses[..j]), uses[j].now)
  }

  ghost predicate Clocked(uses: seq<Use>) {
    forall i, j :: 0 <= i < j < |uses| ==> uses[i].now <= uses[j].now
  }

  /** A token carries its own expiry, so it always comes with the same one. */
  ghost predicate Committed(uses: seq<Use>) {
    forall i, j :: 0 <= i < |uses| && 0 <= j < |uses| && uses[i].token == uses[j].token ==>
      uses[i].expiresAt == uses[j].expiresAt
  }

  ghost predicate Presented(uses: seq<Use>, token: string, expiresAt: nat) {
    exists i :: 0 <= i < |uses| && uses[i].token == token && uses[i].expiresAt == expiresAt
  }

  lemma {:induction false} LiveIsPresented(uses: seq<Use>, now: nat, token: string)
    requires forall i :: 0 <= i < |uses| ==> uses[i].now <= now
    requires Clocked(uses)
    ensures var live := Live(UsedAfter(uses), now); token in live ==> Presented(uses, token, live[token])
  {
    if uses != [] {
      var front, u := uses[..|uses| - 1], uses[|uses| - 1];
      LiveIsPresented(front, u.now, token);
      var live := Live(UsedAfter(uses), now);
      if token in live {
        if token in Live(UsedAfter(front), u.now) {
          var i :| 0 <= i < |front| && front[i].token == token && front[i].expiresAt == live[token];
          assert uses[i] == front[i];
        } else {
          assert uses[|uses| - 1].token == token;
        }
      }
    }
  }

  lemma {:induction false} PresentedIsLive(uses: seq<Use>, now: nat, token: string, expiresAt: nat)
    requires forall i :: 0 <= i < |uses| ==> uses[i].now <= now
    requires Clocked(uses) && Committed(uses)
    requires Presented(uses, token, expiresAt) && expiresAt >= now
    ensures var live := Live(UsedAfter(uses), now); token in live && live[token] == expiresAt
  {
    var front, u := uses[..|uses| - 1], uses[|uses| - 1];
    var i :| 0 <= i < |uses| && uses[i].token == token && uses[i].expiresAt == expiresAt;
    assert forall k :: 0 <= k < |front| ==> front[k] == uses[k];
    LiveIsPresented(front, u.now, token);
    if i < |front| {
      assert front[i].token == token && front[i].expiresAt == expiresAt;
      PresentedIsLive(front, u.now, token, expiresAt);
    } else {
      assert u.token == token && u.expiresAt == expiresAt;
      var live := Live(UsedAfter(front), u.now);
      if token in live {
        var k :| 0 <= k < |front| && front[k].token == token && front[k].expiresAt == live[token];
        assert uses[k].expiresAt == u.expiresAt;
      }
    }
  }

  ghost predicate Earlier(uses: seq<Use>, j: nat)
    requires j < |uses|
  {
    exists i :: 0 <= i < j && uses[i].token == uses[j].token
  }

  /**
   * Over every run with a clock that never goes back, a token is accepted when
   * it is new, and again whenever it is presented past its own expiry: the
   * expiry is then the caller's to enforce.
   */
  lemma AcceptedIff(uses: seq<Use>, j: nat)
    requires Clocked(uses) && Committed(uses) && j < |uses|
    ensures Accepted(uses, j) <==> !Earlier(uses, j) || uses[j].now > uses[j].expiresAt
  {
    hide UsedAfter, Live;
    var u, before := uses[j], uses[..j];
    LiveIsPresented(before, u.now, u.token);
    var live := Live(UsedAfter(before), u.now);
    if u.token in live {
      LiveIsLate(UsedAfter(before), u.now, u.token);
      var i :| 0 <= i < |before| && before[i].token == u.token && before[i].expiresAt == live[u.token];
      assert uses[i] == before[i];
    }
    if Earlier(uses, j) && u.now <= u.expiresAt {
      var i :| 0 <= i < j && uses[i].token == u.token;
      assert before[i] == uses[i];
      assert before[i].token == u.token && before[i].expiresAt == u.expiresAt;
      PresentedIsLive(before, u.now, u.token, u.expiresAt);
    }
  }

  lemma LiveIsLate(used: map<string, nat>, now: nat, token: string)
    requires token in Live(used, now)
    ensures Live(used, now)[token] >= now
  {
  }

  /** Consumed no later than it expires, a token is accepted exactly once in any run. */
  lemma SingleUse(uses: seq<Use>, i: nat, j: nat)
    requires Clocked(uses) && Committed(uses) && i < j < |uses|
    requires uses[i].token == uses[j].token && uses[j].now <= uses[j].expiresAt
    ensures !Accepted(uses, j)
  {
    AcceptedIff(uses, j);
  }

  /** Consumed late, the same token is accepted twice. */
  lemma LateReuse()
    ensures exists uses: seq<Use> ::
      && Clocked(uses) && Committed(uses) && |uses| == 2 && uses[0].token == uses[1].token
      && uses[0].now <= uses[0].expiresAt && Accepted(uses, 0) && Accepted(uses, 1)
  {
    var uses := [Use("a", 5, 5), Use("a", 5, 6)];
    AcceptedIff(uses, 0);
    AcceptedIff(uses, 1);
    assert |uses| == 2 && uses[0].token == uses[1].token;
  }
}
