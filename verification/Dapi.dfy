/** The protobuf and grpc-web coding of src/chain/dapi.ts, on bytes. Numbers stay exact, as they do below 2^53 there. */
module Dapi {
  import opened Coins
  import opened Octets

  // ------------------------------------------------------------------ varints

  /** Seven bits a byte, the low ones first; every byte but the last carries the high bit. */
  function Varint(n: nat): seq<byte> {
    if n < 0x80 then [n] else [n % 0x80 + 0x80] + Varint(n / 0x80)
  }

  method WriteVarint(n: nat) returns (out: seq<byte>)
    ensures out == Varint(n)
  {
    var m := n;
    out := [];
    while m >= 0x80
      invariant out + Varint(m) == Varint(n)
    {
      var b: byte := m % 0x80 + 0x80;
      assert out + Varint(m) == out + [b] + Varint(m / 0x80);
      out := out + [b];
      m := m / 0x80;
    }
    out := out + [m];
  }

  /** A number read off the front of a buffer, and how many bytes it took. */
  datatype Reading = Number(value: nat, used: nat) | Truncated

  function ReadNumber(s: seq<byte>): (r: Reading)
    ensures r.Number? ==> 0 < r.used <= |s|
  {
    if s == [] then Truncated
    else if s[0] < 0x80 then Number(s[0], 1)
    else
      match ReadNumber(s[1..])
      case Truncated => Truncated
      case Number(v, used) => Number(s[0] % 0x80 + 0x80 * v, used + 1)
  }

  lemma {:induction false} NumberInverts(n: nat, rest: seq<byte>)
    ensures ReadNumber(Varint(n) + rest) == Number(n, |Varint(n)|)
  {
    if n >= 0x80 {
      NumberInverts(n / 0x80, rest);
      assert (Varint(n) + rest)[1..] == Varint(n / 0x80) + rest;
    }
  }

  /** A number cut short is noticed. */
  lemma {:induction false} NumberCut(n: nat, k: nat)
    requires k < |Varint(n)|
    ensures ReadNumber(Varint(n)[..k]) == Truncated
  {
    if k > 0 && n >= 0x80 {
      NumberCut(n / 0x80, k - 1);
      assert Varint(n)[..k][1..] == Varint(n / 0x80)[..k - 1];
    }
  }

  lemma ScaleStep(result: nat, scale: nat, low: nat, v: nat)
    ensures result + scale * (low + 0x80 * v) == result + low * scale + scale * 128 * v
  {
    assert scale * (low + 0x80 * v) == scale * low + scale * (0x80 * v);
    assert scale * (0x80 * v) == scale * 128 * v;
  }

  /** What is left to read, once `done` bytes have put `result` together and the next seven bits weigh `scale`. */
  ghost function Resume(s: seq<byte>, done: nat, result: nat, scale: nat): Reading {
    match ReadNumber(s)
    case Truncated => Truncated
    case Number(v, used) => Number(result + scale * v, done + used)
  }

  /** The weight of the seven bits of a byte. */
  function Weigh(b: byte, scale: nat): nat { b % 0x80 * scale }

  lemma ResumeStep(s: seq<byte>, done: nat, result: nat, scale: nat)
    requires s != []
    ensures s[0] >= 0x80 ==>
      Resume(s, done, result, scale) == Resume(s[1..], done + 1, result + Weigh(s[0], scale), scale * 128)
    ensures s[0] < 0x80 ==> Resume(s, done, result, scale) == Number(result + Weigh(s[0], scale), done + 1)
  {
    match ReadNumber(s[1..])
    case Truncated =>
    case Number(v, _) => ScaleStep(result, scale, s[0] % 0x80, v);
  }

  lemma ResumeEnds(s: seq<byte>, done: nat, result: nat, scale: nat)
    ensures Resume(s[0..], 0, 0, 1) == ReadNumber(s)
    ensures Resume([], done, result, scale) == Truncated
  {
    assert s[0..] == s;
  }

  method ReadVarint(buf: seq<byte>, at: nat) returns (r: Reading)
    requires at <= |buf|
    ensures r == ReadNumber(buf[at..])
  {
    hide ReadNumber, Resume, Weigh;
    var i: nat, result: nat, scale: nat := at, 0, 1;
    ResumeEnds(buf[at..], 0, 0, 1);
    assert buf[at..][0..] == buf[at..];
    while i < |buf|
      invariant at <= i <= |buf|
      invariant ReadNumber(buf[at..]) == Resume(buf[i..], i - at, result, scale)
    {
      var b := buf[i];
      ResumeStep(buf[i..], i - at, result, scale);
      assert buf[i..][1..] == buf[i + 1..];
      i := i + 1;
      result := result + Weigh(b, scale);
      scale := scale * 128;
      if b < 0x80 {
        return Number(result, i - at);
      }
    }
    ResumeEnds(buf, i - at, result, scale);
    assert buf[i..] == [];
    r := Truncated;
  }

  // ------------------------------------------------------------------ messages

  datatype Value = Num(n: nat) | Bytes(data: seq<byte>)

  /** One field of a message as it travels; the two fixed widths are passed over unread. */
  datatype Entry =
    | IntField(number: nat, n: nat)
    | BytesField(number: nat, data: seq<byte>)
    | Fixed64(number: nat, raw: seq<byte>)
    | Fixed32(number: nat, raw: seq<byte>)

  datatype DecodeError = TruncatedVarint | TruncatedField | UnsupportedWireType(wire: nat)

  datatype Parsed = Entries(entries: seq<Entry>) | Broken(error: DecodeError)

  /** One field read off the front of a buffer; a fixed width may claim more bytes than are left. */
  datatype Step = Took(entry: Entry, used: nat) | Failed(error: DecodeError)

  /** What follows a key of `k` bytes. */
  function ReadBody(number: nat, wire: nat, rest: seq<byte>, k: nat): Step {
    match wire
    case 0 => (
      match ReadNumber(rest)
      case Truncated => Failed(TruncatedVarint)
      case Number(n, used) => Took(IntField(number, n), k + used))
    case 2 => (
      match ReadNumber(rest)
      case Truncated => Failed(TruncatedVarint)
      case Number(length, used) =>
        if used + length > |rest| then Failed(TruncatedField)
        else Took(BytesField(number, rest[used..used + length]), k + used + length))
    case 1 => Took(Fixed64(number, rest[..Min(8, |rest|)]), k + 8)
    case 5 => Took(Fixed32(number, rest[..Min(4, |rest|)]), k + 4)
    case w => Failed(UnsupportedWireType(w))
  }

  function ReadEntry(s: seq<byte>): (r: Step)
    ensures r.Took? ==> r.used > 0
  {
    match ReadNumber(s)
    case Truncated => Failed(TruncatedVarint)
    case Number(key, k) => ReadBody(key / 8, key % 8, s[k..], k)
  }

  function ParseFields(s: seq<byte>): Parsed
    decreases |s|
  {
    if s == [] then Entries([]) else
    match ReadEntry(s)
    case Failed(e) => Broken(e)
    case Took(entry, used) =>
      match ParseFields(s[Min(used, |s|)..])
      case Broken(e) => Broken(e)
      case Entries(rest) => Entries([entry] + rest)
  }

  predicate Carries(e: Entry) { e.IntField? || e.BytesField? }

  function ValueOf(e: Entry): Value
    requires Carries(e)
  {
    if e.IntField? then Num(e.n) else Bytes(e.data)
  }

  /** The first value given for each field number. */
  function FirstValues(entries: seq<Entry>): map<nat, Value> {
    if entries == [] then map[]
    else
      var e, rest := entries[0], FirstValues(entries[1..]);
      if Carries(e) then rest[e.number := ValueOf(e)] else rest
  }

  function AddIfNew(fields: map<nat, Value>, number: nat, value: Value): map<nat, Value> {
    if number in fields then fields else fields[number := value]
  }

  function Noted(fields: map<nat, Value>, e: Entry): map<nat, Value> {
    if Carries(e) then AddIfNew(fields, e.number, ValueOf(e)) else fields
  }

  lemma {:induction false} FirstValuesAppend(entries: seq<Entry>, e: Entry)
    ensures FirstValues(entries + [e]) == Noted(FirstValues(entries), e)
  {
    if entries == [] {
      assert entries + [e] == [e];
    } else {
      FirstValuesAppend(entries[1..], e);
      assert (entries + [e])[1..] == entries[1..] + [e];
    }
  }

  datatype Decoded = Fields(fields: map<nat, Value>) | Refused(error: DecodeError)

  function DecodedOf(p: Parsed): Decoded {
    match p
    case Broken(e) => Refused(e)
    case Entries(entries) => Fields(FirstValues(entries))
  }

  /** The parse of a buffer whose first fields have been read already. */
  ghost function Continue(done: seq<Entry>, s: seq<byte>): Parsed {
    match ParseFields(s)
    case Broken(e) => Broken(e)
    case Entries(rest) => Entries(done + rest)
  }

  lemma ContinueStep(done: seq<Entry>, s: seq<byte>)
    requires s != []
    ensures match ReadEntry(s)
      case Failed(e) => Continue(done, s) == Broken(e)
      case Took(entry, used) => Continue(done, s) == Continue(done + [entry], s[Min(used, |s|)..])
  {
    match ReadEntry(s)
    case Failed(_) =>
    case Took(entry, used) =>
      match ParseFields(s[Min(used, |s|)..])
      case Broken(_) =>
      case Entries(rest) => assert done + ([entry] + rest) == done + [entry] + rest;
  }

  /** Fields already read come first; `i` may stand past the end after a fixed width. */
  method Decode(buf: seq<byte>) returns (r: Decoded)
    ensures r == DecodedOf(ParseFields(buf))
  {
    hide ParseFields, ReadNumber, Continue, ReadEntry, ReadBody, Min;
    var fields: map<nat, Value> := map[];
    var i := 0;
    ghost var done: seq<Entry> := [];
    ContinueStart(buf);
    DropStep(buf, 0, 0);
    while i < |buf|
      invariant fields == FirstValues(done)
      invariant ParseFields(buf) == Continue(done, buf[Min(i, |buf|)..])
      decreases |buf| - i
    {
      hide FirstValues;
      DropStep(buf, i, 0);
      ContinueStep(done, buf[i..]);
      var step := ReadField(buf, i);
      if step.Failed? {
        return Refused(step.error);
      }
      DropStep(buf, i, step.used);
      i := i + step.used;
      FirstValuesAppend(done, step.entry);
      done := done + [step.entry];
      if Carries(step.entry) && step.entry.number !in fields {
        fields := fields[step.entry.number := ValueOf(step.entry)];
      }
    }
    ContinueEnd(done);
    DropStep(buf, i, 0);
    r := Fields(fields);
  }

  lemma DropStep(buf: seq<byte>, i: nat, used: nat)
    ensures Min(i, |buf|) <= |buf| && Min(i + used, |buf|) <= |buf|
    ensures i < |buf| ==> Min(i, |buf|) == i && buf[i..][Min(used, |buf[i..]|)..] == buf[Min(i + used, |buf|)..]
    ensures i >= |buf| ==> buf[Min(i, |buf|)..] == []
  {
  }

  lemma ContinueStart(s: seq<byte>)
    ensures Continue([], s) == ParseFields(s) && s[0..] == s
  {
    if ParseFields(s).Entries? {
      assert [] + ParseFields(s).entries == ParseFields(s).entries;
    }
  }

  lemma ContinueEnd(done: seq<Entry>)
    ensures Continue(done, []) == Entries(done)
  {
    assert done + [] == done;
  }

  method ReadField(buf: seq<byte>, at: nat) returns (r: Step)
    requires at < |buf|
    ensures r == ReadEntry(buf[at..])
  {
    hide ReadNumber;
    var i := at;
    var key := ReadVarint(buf, i);
    if key.Truncated? {
      return Failed(TruncatedVarint);
    }
    i := i + key.used;
    var number, wire := key.value / 8, key.value % 8;
    assert buf[at..][key.used..] == buf[i..];
    r := ReadValue(buf, i, number, wire, key.used);
  }

  /** What follows a key of `k` bytes that ends at `at`. */
  method ReadValue(buf: seq<byte>, at: nat, number: nat, wire: nat, k: nat) returns (r: Step)
    requires at <= |buf|
    ensures r == ReadBody(number, wire, buf[at..], k)
  {
    hide ReadNumber;
    if wire == 0 {
      var n := ReadVarint(buf, at);
      r := if n.Truncated? then Failed(TruncatedVarint) else Took(IntField(number, n.value), k + n.used);
    } else if wire == 2 {
      var length := ReadVarint(buf, at);
      if length.Truncated? {
        return Failed(TruncatedVarint);
      }
      var i := at + length.used;
      if i + length.value > |buf| {
        return Failed(TruncatedField);
      }
      assert buf[i..i + length.value] == buf[at..][length.used..length.used + length.value];
      r := Took(BytesField(number, buf[i..i + length.value]), k + length.used + length.value);
    } else if wire == 1 {
      r := Took(Fixed64(number, buf[at..][..Min(8, |buf| - at)]), k + 8);
    } else if wire == 5 {
      r := Took(Fixed32(number, buf[at..][..Min(4, |buf| - at)]), k + 4);
    } else {
      r := Failed(UnsupportedWireType(wire));
    }
  }

  // ------------------------------------------------------------------ round trips

  function Encode(e: Entry): seq<byte> {
    match e
    case IntField(number, n) => Varint(number * 8) + Varint(n)
    case BytesField(number, data) => Varint(number * 8 + 2) + (Varint(|data|) + data)
    case Fixed64(number, raw) => Varint(number * 8 + 1) + raw
    case Fixed32(number, raw) => Varint(number * 8 + 5) + raw
  }

  /** One length-delimited field, the only kind a request is made of. */
  method Field(number: nat, bytes: seq<byte>) returns (out: seq<byte>)
    ensures out == Encode(BytesField(number, bytes))
  {
    var key := WriteVarint(number * 8 + 2);
    var length := WriteVarint(|bytes|);
    out := key + (length + bytes);
  }

  predicate WellFormed(e: Entry) {
    (e.Fixed64? ==> |e.raw| == 8) && (e.Fixed32? ==> |e.raw| == 4)
  }

  lemma EntryInverts(e: Entry, rest: seq<byte>)
    requires WellFormed(e)
    ensures ReadEntry(Encode(e) + rest) == Took(e, |Encode(e)|)
  {
    match e
    case IntField(number, n) => IntInverts(number, n, rest);
    case BytesField(number, data) => BytesInverts(number, data, rest);
    case Fixed64(number, raw) => FixedInverts(number, 1, raw, rest);
    case Fixed32(number, raw) => FixedInverts(number, 5, raw, rest);
  }

  lemma IntInverts(number: nat, n: nat, rest: seq<byte>)
    ensures ReadEntry(Encode(IntField(number, n)) + rest) == Took(IntField(number, n), |Encode(IntField(number, n))|)
  {
    hide ReadNumber, Varint;
    var body := Varint(n) + rest;
    var s := Encode(IntField(number, n)) + rest;
    assert s == Varint(number * 8) + body;
    KeyInverts(number, 0, body, s);
    NumberInverts(n, rest);
  }

  lemma BytesInverts(number: nat, data: seq<byte>, rest: seq<byte>)
    ensures ReadEntry(Encode(BytesField(number, data)) + rest)
         == Took(BytesField(number, data), |Encode(BytesField(number, data))|)
  {
    hide ReadNumber, Varint;
    var length := Varint(|data|);
    var body := length + (data + rest);
    var s := Encode(BytesField(number, data)) + rest;
    assert s == Varint(number * 8 + 2) + body;
    KeyInverts(number, 2, body, s);
    NumberInverts(|data|, data + rest);
    assert body[|length|..|length| + |data|] == data;
  }

  lemma FixedInverts(number: nat, wire: nat, raw: seq<byte>, rest: seq<byte>)
    requires (wire == 1 && |raw| == 8) || (wire == 5 && |raw| == 4)
    ensures var e := if wire == 1 then Fixed64(number, raw) else Fixed32(number, raw);
      ReadEntry(Encode(e) + rest) == Took(e, |Encode(e)|)
  {
    hide ReadNumber, Varint;
    var e := if wire == 1 then Fixed64(number, raw) else Fixed32(number, raw);
    var s := Encode(e) + rest;
    assert s == Varint(number * 8 + wire) + (raw + rest);
    KeyInverts(number, wire, raw + rest, s);
    assert (raw + rest)[..|raw|] == raw;
  }

  lemma KeyInverts(number: nat, wire: nat, rest: seq<byte>, s: seq<byte>)
    requires wire < 8 && s == Varint(number * 8 + wire) + rest
    ensures ReadNumber(s) == Number(number * 8 + wire, |Varint(number * 8 + wire)|)
    ensures s[|Varint(number * 8 + wire)|..] == rest
    ensures (number * 8 + wire) / 8 == number && (number * 8 + wire) % 8 == wire
  {
    NumberInverts(number * 8 + wire, rest);
  }

  function EncodeAll(entries: seq<Entry>): seq<byte> {
    if entries == [] then [] else Encode(entries[0]) + EncodeAll(entries[1..])
  }

  /** What follows a run of well-formed fields is parsed as if it stood alone. */
  lemma {:induction false} ParsePrefix(entries: seq<Entry>, rest: seq<byte>)
    requires forall e :: e in entries ==> WellFormed(e)
    ensures ParseFields(EncodeAll(entries) + rest) == Continue(entries, rest)
  {
    if entries == [] {
      assert EncodeAll(entries) + rest == rest;
      ContinueStart(rest);
    } else {
      var e, more := entries[0], EncodeAll(entries[1..]) + rest;
      ParseOne(e, more);
      ParsePrefix(entries[1..], rest);
      assert EncodeAll(entries) + rest == Encode(e) + more;
      ContinueCons(e, entries[1..], rest);
      assert [e] + entries[1..] == entries;
    }
  }

  lemma ParseOne(e: Entry, more: seq<byte>)
    requires WellFormed(e)
    ensures ParseFields(Encode(e) + more) == Continue([e], more)
  {
    hide ReadEntry, Encode;
    var s := Encode(e) + more;
    EntryInverts(e, more);
    assert s[Min(|Encode(e)|, |s|)..] == more;
  }

  lemma ContinueCons(e: Entry, entries: seq<Entry>, rest: seq<byte>)
    ensures Continue([e] + entries, rest) ==
      match Continue(entries, rest) case Broken(x) => Broken(x) case Entries(tail) => Entries([e] + tail)
  {
    if ParseFields(rest).Entries? {
      assert [e] + entries + ParseFields(rest).entries == [e] + (entries + ParseFields(rest).entries);
    }
  }

  predicate Gives(e: Entry, number: nat) { Carries(e) && e.number == number }

  lemma {:induction false} FirstWins(entries: seq<Entry>, number: nat, i: nat)
    requires i <= |entries|
    requires forall j :: 0 <= j < i ==> !Gives(entries[j], number)
    requires i < |entries| ==> Gives(entries[i], number)
    ensures number in FirstValues(entries) <==> i < |entries|
    ensures i < |entries| ==> FirstValues(entries)[number] == ValueOf(entries[i])
  {
    if i > 0 {
      assert !Gives(entries[0], number);
      FirstWins(entries[1..], number, i - 1);
    }
  }

  /**
   * Decoding any sequence of fields gives each number the value it first
   * carried, whatever unread fixed-width fields stand between: field i decides
   * a number none before it gave, and a number no field gives stays absent.
   */
  lemma DecodeInverts(entries: seq<Entry>, number: nat, i: nat)
    requires forall e :: e in entries ==> WellFormed(e)
    requires i <= |entries|
    requires forall j :: 0 <= j < i ==> !Gives(entries[j], number)
    requires i < |entries| ==> Gives(entries[i], number)
    ensures var r := DecodedOf(ParseFields(EncodeAll(entries)));
      && r.Fields?
      && (number in r.fields <==> i < |entries|)
      && (i < |entries| ==> r.fields[number] == ValueOf(entries[i]))
  {
    ParsePrefix(entries, []);
    assert EncodeAll(entries) + [] == EncodeAll(entries) && entries + [] == entries;
    FirstWins(entries, number, i);
  }

  lemma EntryCut(e: Entry, k: nat)
    requires Carries(e) && 0 < k < |Encode(e)|
    ensures ReadEntry(Encode(e)[..k]) ==
      Failed(if e.BytesField? && k >= |Encode(e)| - |e.data| then TruncatedField else TruncatedVarint)
  {
    hide ReadNumber, Varint;
    var wire := if e.IntField? then 0 else 2;
    var key := Varint(e.number * 8 + wire);
    var body := if e.IntField? then Varint(e.n) else Varint(|e.data|) + e.data;
    assert Encode(e) == key + body;
    if k < |key| {
      assert Encode(e)[..k] == key[..k];
      NumberCut(e.number * 8 + wire, k);
    } else {
      var cut := body[..k - |key|];
      assert Encode(e)[..k] == key + cut;
      KeyInverts(e.number, wire, cut, key + cut);
      BodyCut(e, k - |key|);
    }
  }

  lemma BodyCut(e: Entry, k: nat)
    requires Carries(e)
    requires k < if e.IntField? then |Varint(e.n)| else |Varint(|e.data|)| + |e.data|
    ensures e.IntField? ==> ReadNumber(Varint(e.n)[..k]) == Truncated
    ensures e.BytesField? ==>
      var cut := (Varint(|e.data|) + e.data)[..k];
      if k < |Varint(|e.data|)| then ReadNumber(cut) == Truncated
      else ReadNumber(cut).Number? && ReadNumber(cut).used + ReadNumber(cut).value > |cut|
  {
    hide ReadNumber, Varint;
    if e.IntField? {
      NumberCut(e.n, k);
    } else {
      var length := Varint(|e.data|);
      if k < |length| {
        assert (length + e.data)[..k] == length[..k];
        NumberCut(|e.data|, k);
      } else {
        assert (length + e.data)[..k] == length + e.data[..k - |length|];
        NumberInverts(|e.data|, e.data[..k - |length|]);
      }
    }
  }

  /** A reply cut anywhere inside a number or a length-delimited field is refused, never read as a shorter one. */
  lemma CutRefused(entries: seq<Entry>, e: Entry, k: nat)
    requires forall x :: x in entries ==> WellFormed(x)
    requires Carries(e) && 0 < k < |Encode(e)|
    ensures DecodedOf(ParseFields(EncodeAll(entries) + Encode(e)[..k]))
      == Refused(if e.BytesField? && k >= |Encode(e)| - |e.data| then TruncatedField else TruncatedVarint)
  {
    hide ReadEntry, Encode;
    ParsePrefix(entries, Encode(e)[..k]);
    EntryCut(e, k);
  }

  // ------------------------------------------------------------------ grpc-web frames

  const FRAME_LIMIT: nat := 0x1_0000_0000

  datatype Frame = Frame(flag: byte, payload: seq<byte>)

  function Be32(n: nat): (r: seq<byte>)
    requires n < FRAME_LIMIT
    ensures |r| == 4
  {
    var q := n / 0x100;
    var p := q / 0x100;
    [p / 0x100, p % 0x100, q % 0x100, n % 0x100]
  }

  function FromBe32(a: byte, b: byte, c: byte, d: byte): nat {
    ((a * 0x100 + b) * 0x100 + c) * 0x100 + d
  }

  /** The length prefix keeps only 32 bits of a length. */
  function EncodeFrame(f: Frame): seq<byte> {
    [f.flag] + Be32(|f.payload| % FRAME_LIMIT) + f.payload
  }

  method FrameRequest(message: seq<byte>) returns (out: array<byte>)
    ensures fresh(out) && out[..] == EncodeFrame(Frame(0, message))
  {
    out := new byte[5 + |message|](_ => 0);
    var length := Be32(|message| % FRAME_LIMIT);
    forall i | 0 <= i < 4 {
      out[1 + i] := length[i];
    }
    forall i | 0 <= i < |message| {
      out[5 + i] := message[i];
    }
  }

  function EncodeFrames(frames: seq<Frame>): seq<byte> {
    if frames == [] then [] else EncodeFrame(frames[0]) + EncodeFrames(frames[1..])
  }

  /** The frames a body is made of, or None when the last is cut short. */
  function ParseFrames(body: seq<byte>): Option<seq<Frame>>
    decreases |body|
  {
    if body == [] then Some([])
    else if |body| < 5 then None
    else
      var length := FromBe32(body[1], body[2], body[3], body[4]);
      if 5 + length > |body| then None else
      match ParseFrames(body[5 + length..])
      case None => None
      case Some(rest) => Some([Frame(body[0], body[5..5 + length])] + rest)
  }

  predicate IsTrailer(f: Frame) { f.flag >= 0x80 }

  function Trailers(frames: seq<Frame>): seq<seq<byte>> {
    if frames == [] then []
    else
      var f, before := frames[|frames| - 1], Trailers(frames[..|frames| - 1]);
      if IsTrailer(f) then before + [f.payload] else before
  }

  function FirstMessage(frames: seq<Frame>): Option<seq<byte>> {
    if frames == [] then None
    else if IsTrailer(frames[0]) then FirstMessage(frames[1..]) else Some(frames[0].payload)
  }

  lemma {:induction false} FirstMessageAppend(frames: seq<Frame>, f: Frame)
    ensures FirstMessage(frames + [f]) ==
      if FirstMessage(frames).Some? || IsTrailer(f) then FirstMessage(frames) else Some(f.payload)
  {
    if frames == [] {
      assert frames + [f] == [f];
    } else {
      FirstMessageAppend(frames[1..], f);
      assert (frames + [f])[1..] == frames[1..] + [f];
    }
  }

  ghost function ContinueFrames(done: seq<Frame>, body: seq<byte>): Option<seq<Frame>> {
    match ParseFrames(body)
    case None => None
    case Some(rest) => Some(done + rest)
  }

  lemma FramesStart(body: seq<byte>)
    ensures ContinueFrames([], body[0..]) == ParseFrames(body)
  {
    assert body[0..] == body;
    if ParseFrames(body).Some? {
      assert [] + ParseFrames(body).value == ParseFrames(body).value;
    }
  }

  lemma FramesStep(done: seq<Frame>, body: seq<byte>)
    requires body != []
    ensures |body| < 5 ==> ContinueFrames(done, body) == None
    ensures |body| >= 5 ==>
      var end := 5 + FromBe32(body[1], body[2], body[3], body[4]);
      ContinueFrames(done, body) ==
        if end > |body| then None else ContinueFrames(done + [Frame(body[0], body[5..end])], body[end..])
  {
    hide FromBe32;
    if |body| >= 5 {
      var end := 5 + FromBe32(body[1], body[2], body[3], body[4]);
      if end <= |body| && ParseFrames(body[end..]).Some? {
        var f, rest := Frame(body[0], body[5..end]), ParseFrames(body[end..]).value;
        assert done + ([f] + rest) == done + [f] + rest;
      }
    }
  }

  lemma NoteFrame(done: seq<Frame>, f: Frame)
    ensures Trailers(done + [f]) == if IsTrailer(f) then Trailers(done) + [f.payload] else Trailers(done)
    ensures FirstMessage(done + [f]) ==
      if FirstMessage(done).Some? || IsTrailer(f) then FirstMessage(done) else Some(f.payload)
  {
    FirstMessageAppend(done, f);
    assert (done + [f])[..|done|] == done;
  }

  /** A reply body taken apart: the first message and every trailer block, or a failure when it is cut short. */
  method ReadFrames(body: seq<byte>)
      returns (ok: bool, message: Option<seq<byte>>, trailers: seq<seq<byte>>)
    ensures ok <==> ParseFrames(body).Some?
    ensures ok ==> message == FirstMessage(ParseFrames(body).value) && trailers == Trailers(ParseFrames(body).value)
  {
    hide ParseFrames, FromBe32;
    message, trailers := None, [];
    var i := 0;
    ghost var done: seq<Frame> := [];
    FramesStart(body);
    while i < |body|
      invariant i <= |body|
      invariant ParseFrames(body) == ContinueFrames(done, body[i..])
      invariant message == FirstMessage(done) && trailers == Trailers(done)
    {
      hide ContinueFrames, FirstMessage, Trailers;
      ghost var rest := body[i..];
      FramesStep(done, rest);
      if i + 5 > |body| {
        return false, None, [];
      }
      var end := i + 5 + FromBe32(body[i + 1], body[i + 2], body[i + 3], body[i + 4]);
      if end > |body| {
        return false, None, [];
      }
      var payload := body[i + 5..end];
      assert rest[5..end - i] == payload && rest[end - i..] == body[end..];
      NoteFrame(done, Frame(body[i], payload));
      if body[i] >= 0x80 {
        trailers := trailers + [payload];
      } else if message.None? {
        message := Some(payload);
      }
      done := done + [Frame(body[i], payload)];
      i := end;
    }
    FramesEnd(done);
    assert body[i..] == [];
    ok := true;
  }

  lemma FramesEnd(done: seq<Frame>)
    ensures ContinueFrames(done, []) == Some(done)
  {
    assert done + [] == done;
  }

  lemma Be32Inverts(n: nat)
    requires n < FRAME_LIMIT
    ensures FromBe32(Be32(n)[0], Be32(n)[1], Be32(n)[2], Be32(n)[3]) == n
  {
  }

  lemma Be32Unique(a: byte, b: byte, c: byte, d: byte)
    ensures FromBe32(a, b, c, d) < FRAME_LIMIT && Be32(FromBe32(a, b, c, d)) == [a, b, c, d]
  {
  }

  predicate Framable(frames: seq<Frame>) {
    forall f :: f in frames ==> |f.payload| < FRAME_LIMIT
  }

  lemma ParseOneFrame(f: Frame, rest: seq<byte>)
    requires |f.payload| < FRAME_LIMIT
    ensures ParseFrames(EncodeFrame(f) + rest) ==
      match ParseFrames(rest) case None => None case Some(frames) => Some([f] + frames)
  {
    hide Be32, FromBe32;
    var body, head := EncodeFrame(f) + rest, Be32(|f.payload|);
    Be32Inverts(|f.payload|);
    assert body == [f.flag] + head + f.payload + rest;
    assert body[1] == head[0] && body[2] == head[1] && body[3] == head[2] && body[4] == head[3];
    assert body[5..5 + |f.payload|] == f.payload && body[5 + |f.payload|..] == rest;
  }

  lemma SplitFrame(body: seq<byte>, end: nat)
    requires |body| >= 5 && end == 5 + FromBe32(body[1], body[2], body[3], body[4]) <= |body|
    ensures |body[5..end]| < FRAME_LIMIT && EncodeFrame(Frame(body[0], body[5..end])) + body[end..] == body
  {
    hide Be32, FromBe32;
    Be32Unique(body[1], body[2], body[3], body[4]);
    assert EncodeFrame(Frame(body[0], body[5..end])) == [body[0]] + [body[1], body[2], body[3], body[4]] + body[5..end];
  }

  lemma {:induction false} ParsedIsEncoded(body: seq<byte>)
    requires ParseFrames(body).Some?
    ensures var frames := ParseFrames(body).value; body == EncodeFrames(frames) && Framable(frames)
    decreases |body|
  {
    hide EncodeFrame, FromBe32;
    if body != [] {
      var end := 5 + FromBe32(body[1], body[2], body[3], body[4]);
      SplitFrame(body, end);
      ParsedIsEncoded(body[end..]);
      assert ParseFrames(body).value[1..] == ParseFrames(body[end..]).value;
    }
  }

  lemma {:induction false} EncodedParses(frames: seq<Frame>)
    requires Framable(frames)
    ensures ParseFrames(EncodeFrames(frames)) == Some(frames)
  {
    hide EncodeFrame, FromBe32;
    if frames != [] {
      assert frames[0] in frames;
      EncodedParses(frames[1..]);
      ParseOneFrame(frames[0], EncodeFrames(frames[1..]));
      assert [frames[0]] + frames[1..] == frames;
    }
  }

  /** A body parses to some frames exactly when it is those frames, end to end. */
  lemma FramesInvert(body: seq<byte>, frames: seq<Frame>)
    ensures ParseFrames(body) == Some(frames) <==> body == EncodeFrames(frames) && Framable(frames)
  {
    if ParseFrames(body) == Some(frames) {
      ParsedIsEncoded(body);
    }
    if body == EncodeFrames(frames) && Framable(frames) {
      EncodedParses(frames);
    }
  }

  /** A framed request comes back as its own message, with no trailer, as long as its length fits the prefix. */
  lemma RequestInverts(message: seq<byte>)
    ensures var body := EncodeFrame(Frame(0, message));
      (ParseFrames(body).Some? && FirstMessage(ParseFrames(body).value) == Some(message)) <==> |message| < FRAME_LIMIT
  {
    var f := Frame(0, message);
    var body := EncodeFrame(f);
    if |message| < FRAME_LIMIT {
      assert body == EncodeFrames([f]);
      FramesInvert(body, [f]);
    } else if ParseFrames(body).Some? && FirstMessage(ParseFrames(body).value) == Some(message) {
      var frames := ParseFrames(body).value;
      FramesInvert(body, frames);
      MessageIsAFrame(frames, message);
      assert false;
    }
  }

  lemma {:induction false} MessageIsAFrame(frames: seq<Frame>, message: seq<byte>)
    requires FirstMessage(frames) == Some(message)
    ensures exists f :: f in frames && f.payload == message
  {
    if IsTrailer(frames[0]) {
      MessageIsAFrame(frames[1..], message);
      var f :| f in frames[1..] && f.payload == message;
      assert f in frames;
    } else {
      assert frames[0] in frames;
    }
  }

  // ------------------------------------------------------------------ what is refused, what is passed over

  /** A field of any other wire type is refused, whatever comes before and after it. */
  lemma WireRefused(entries: seq<Entry>, number: nat, wire: nat, rest: seq<byte>)
    requires forall e :: e in entries ==> WellFormed(e)
    requires wire == 3 || wire == 4 || wire == 6 || wire == 7
    ensures DecodedOf(ParseFields(EncodeAll(entries) + (Varint(number * 8 + wire) + rest)))
      == Refused(UnsupportedWireType(wire))
  {
    hide ReadNumber, Varint, EncodeAll, Encode;
    var s := Varint(number * 8 + wire) + rest;
    ParsePrefix(entries, s);
    KeyInverts(number, wire, rest, s);
  }

  /** A last fixed-width field cut short after its key is passed over like a whole one. */
  lemma FixedCut(entries: seq<Entry>, number: nat, wire: nat, raw: seq<byte>)
    requires forall e :: e in entries ==> WellFormed(e)
    requires (wire == 1 && |raw| <= 8) || (wire == 5 && |raw| <= 4)
    ensures DecodedOf(ParseFields(EncodeAll(entries) + (Varint(number * 8 + wire) + raw)))
      == DecodedOf(ParseFields(EncodeAll(entries)))
  {
    hide ReadNumber, Varint, EncodeAll, Encode, FirstValues;
    var s, e := Varint(number * 8 + wire) + raw, if wire == 1 then Fixed64(number, raw) else Fixed32(number, raw);
    KeyInverts(number, wire, raw, s);
    assert raw[..|raw|] == raw;
    assert ReadEntry(s) == Took(e, |Varint(number * 8 + wire)| + if wire == 1 then 8 else 4);
    assert ParseFields([]) == Entries([]);
    assert ParseFields(s) == Entries([e] + []);
    ParsePrefix(entries, s);
    ParsePrefix(entries, []);
    assert EncodeAll(entries) + [] == EncodeAll(entries) && entries + [] == entries;
    assert [e] + [] == [e];
    FirstValuesAppend(entries, e);
  }

  /** A short field in bytes: its number and type in the first, its length in the second. */
  lemma ShortField(number: nat, data: seq<byte>)
    requires number < 16 && |data| < 0x80
    ensures Encode(BytesField(number, data)) == [number * 8 + 2, |data|] + data
    ensures Varint(300) == [0xAC, 0x02]
  {
    assert Varint(300) == [300 % 0x80 + 0x80] + Varint(2);
  }

  /** A short request in bytes: no flag, and the length in the last of four bytes. */
  lemma ShortFrame(message: seq<byte>)
    requires |message| < 0x1_0000
    ensures EncodeFrame(Frame(0, message)) == [0, 0, 0, |message| / 0x100, |message| % 0x100] + message
  {
    var q := |message| / 0x100;
    assert q / 0x100 == 0 && q % 0x100 == q;
  }

  lemma {:induction false} TrailersConcat(a: seq<Frame>, b: seq<Frame>)
    ensures Trailers(a + b) == Trailers(a) + Trailers(b)
    decreases |b|
  {
    if b == [] {
      assert a + b == a;
    } else {
      var n := |b| - 1;
      TrailersConcat(a, b[..n]);
      assert (a + b)[..|a + b| - 1] == a + b[..n];
    }
  }

  lemma {:induction false} MessageConcat(a: seq<Frame>, b: seq<Frame>)
    ensures FirstMessage(a + b) == if FirstMessage(a).Some? then FirstMessage(a) else FirstMessage(b)
  {
    if a == [] {
      assert a + b == b;
    } else {
      assert (a + b)[1..] == a[1..] + b;
      MessageConcat(a[1..], b);
    }
  }

  /** Trailers are the frames with the high bit of the flag set, all and in order; the message is the first other. */
  lemma FramesRead(a: seq<Frame>, f: Frame, b: seq<Frame>)
    ensures Trailers(a + [f] + b) == Trailers(a) + (if f.flag >= 0x80 then [f.payload] else []) + Trailers(b)
    ensures FirstMessage(a + [f] + b) ==
      if FirstMessage(a).Some? then FirstMessage(a) else if f.flag < 0x80 then Some(f.payload) else FirstMessage(b)
    ensures Trailers([]) == [] && FirstMessage([]) == None
  {
    TrailersConcat(a + [f], b);
    TrailersConcat(a, [f]);
    MessageConcat(a + [f], b);
    MessageConcat(a, [f]);
    assert [f][..0] == [] && [f][1..] == [];
  }
}
