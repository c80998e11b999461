/** The HTTP chunked-body decoder of src/chain/socket.ts, on bytes. */
module Socket {
  import opened Coins
  import opened Octets

  const CR: byte := 13
  const LF: byte := 10
  const SEMICOLON: byte := 59
  const CRLF: seq<byte> := [CR, LF]

  // ------------------------------------------------------------------ searching and joining

  predicate MatchesAt(haystack: seq<byte>, needle: seq<byte>, i: nat) {
    i + |needle| <= |haystack| && haystack[i..i + |needle|] == needle
  }

  /** The first occurrence at or after `start`, or -1; `start` may lie past the end. */
  method IndexOf(haystack: seq<byte>, needle: seq<byte>, start: nat) returns (r: int)
    ensures r == -1 || (r >= start && MatchesAt(haystack, needle, r))
    ensures forall k: nat :: start <= k && (r == -1 || k < r) ==> !MatchesAt(haystack, needle, k)
  {
    var i := start;
    while i <= |haystack| - |needle|
      invariant i >= start
      invariant forall k: nat :: start <= k < i ==> !MatchesAt(haystack, needle, k)
    {
      var j := 0;
      while j < |needle| && haystack[i + j] == needle[j]
        invariant j <= |needle| && forall q :: 0 <= q < j ==> haystack[i + q] == needle[q]
      {
        j := j + 1;
      }
      if j == |needle| {
        return i;
      }
      assert haystack[i..i + |needle|][j] != needle[j];
      i := i + 1;
    }
    r := -1;
  }

  function Flatten(parts: seq<seq<byte>>): seq<byte> {
    if parts == [] then [] else Flatten(parts[..|parts| - 1]) + parts[|parts| - 1]
  }

  lemma {:induction false} FlattenPrefix(parts: seq<seq<byte>>, k: nat)
    requires k <= |parts|
    ensures |Flatten(parts[..k])| <= |Flatten(parts)|
  {
    if k < |parts| {
      FlattenPrefix(parts[..|parts| - 1], k);
      assert parts[..|parts| - 1][..k] == parts[..k];
    } else {
      assert parts[..k] == parts;
    }
  }

  method Concat(parts: seq<seq<byte>>, total: nat) returns (out: array<byte>)
    requires total == |Flatten(parts)|
    ensures fresh(out) && out[..] == Flatten(parts)
  {
    out := new byte[total](_ => 0);
    var at := 0;
    for k := 0 to |parts|
      invariant at == |Flatten(parts[..k])| <= total
      invariant out[..at] == Flatten(parts[..k])
    {
      var part := parts[k];
      assert parts[..k + 1][..k] == parts[..k];
      FlattenPrefix(parts, k + 1);
      forall i | 0 <= i < |part| {
        out[at + i] := part[i];
      }
      assert out[..at + |part|] == Flatten(parts[..k]) + part;
      at := at + |part|;
    }
    assert parts[..|parts|] == parts;
  }

  // ------------------------------------------------------------------ chunk sizes

  predicate IsSpace(b: byte) { 9 <= b <= 13 || b == 32 }

  predicate IsHex(b: byte) { 48 <= b <= 57 || 65 <= b <= 70 || 97 <= b <= 102 }

  function Digit(b: byte): nat
    requires IsHex(b)
  {
    if b <= 57 then b - 48 else if b <= 70 then b - 55 else b - 87
  }

  predicate AllHex(s: seq<byte>) { forall i :: 0 <= i < |s| ==> IsHex(s[i]) }

  predicate AllSpace(s: seq<byte>) { forall i :: 0 <= i < |s| ==> IsSpace(s[i]) }

  function HexNumber(digits: seq<byte>): nat
    requires AllHex(digits)
  {
    if digits == [] then 0 else 16 * HexNumber(digits[..|digits| - 1]) + Digit(digits[|digits| - 1])
  }

  function BeforeSemicolon(line: seq<byte>): seq<byte> {
    if line == [] || line[0] == SEMICOLON then [] else [line[0]] + BeforeSemicolon(line[1..])
  }

  function TrimStart(s: seq<byte>): seq<byte> {
    if s != [] && IsSpace(s[0]) then TrimStart(s[1..]) else s
  }

  function TrimEnd(s: seq<byte>): seq<byte> {
    if s != [] && IsSpace(s[|s| - 1]) then TrimEnd(s[..|s| - 1]) else s
  }

  /** The size a chunk's header line announces, or None when it is malformed. */
  function SizeOf(line: seq<byte>): Option<nat> {
    var text := TrimEnd(TrimStart(BeforeSemicolon(line)));
    if text == [] || !AllHex(text) then None else Some(HexNumber(text))
  }

  lemma {:induction false} BeforeSemicolonStops(s: seq<byte>, ext: seq<byte>)
    requires SEMICOLON !in s
    requires ext == [] || ext[0] == SEMICOLON
    ensures BeforeSemicolon(s + ext) == s
  {
    if s != [] {
      assert (s + ext)[1..] == s[1..] + ext;
      BeforeSemicolonStops(s[1..], ext);
    } else {
      assert s + ext == ext;
    }
  }

  lemma {:induction false} TrimStartDrops(lead: seq<byte>, s: seq<byte>)
    requires AllSpace(lead) && s != [] && !IsSpace(s[0])
    ensures TrimStart(lead + s) == s
  {
    if lead != [] {
      assert (lead + s)[1..] == lead[1..] + s;
      TrimStartDrops(lead[1..], s);
    } else {
      assert lead + s == s;
    }
  }

  lemma {:induction false} TrimEndDrops(s: seq<byte>, trail: seq<byte>)
    requires AllSpace(trail) && s != [] && !IsSpace(s[|s| - 1])
    ensures TrimEnd(s + trail) == s
  {
    var k := |trail|;
    if trail != [] {
      assert (s + trail)[..|s + trail| - 1] == s + trail[..k - 1];
      TrimEndDrops(s, trail[..k - 1]);
    } else {
      assert s + trail == s;
    }
  }

  /** A hexadecimal size in either case, padded or not, with or without an extension, is read for its value. */
  lemma SizeReads(lead: seq<byte>, digits: seq<byte>, trail: seq<byte>, ext: seq<byte>)
    requires AllSpace(lead) && AllSpace(trail) && AllHex(digits) && digits != []
    requires ext == [] || ext[0] == SEMICOLON
    ensures SizeOf(lead + digits + trail + ext) == Some(HexNumber(digits))
  {
    var s := lead + digits + trail;
    BeforeSemicolonStops(s, ext);
    assert s == lead + (digits + trail);
    TrimStartDrops(lead, digits + trail);
    TrimEndDrops(digits, trail);
  }

  /** The lower-case hexadecimal numeral of n. */
  function Numeral(n: nat): (s: seq<byte>)
    ensures s != []
  {
    var d := n % 16;
    var digit: byte := if d < 10 then 48 + d else 87 + d;
    if n < 16 then [digit] else Numeral(n / 16) + [digit]
  }

  lemma {:induction false} NumeralReads(n: nat)
    ensures AllHex(Numeral(n)) && HexNumber(Numeral(n)) == n
  {
    var s := Numeral(n);
    if n >= 16 {
      NumeralReads(n / 16);
      assert s[..|s| - 1] == Numeral(n / 16);
    } else {
      assert s[..0] == [];
    }
  }

  // ------------------------------------------------------------------ chunked bodies

  /** One chunk as it travels: its header line, its data, and the two bytes that follow the data. */
  datatype Chunk = Chunk(line: seq<byte>, data: seq<byte>, gap: seq<byte>)

  datatype Body =
    | Whole(chunks: seq<Chunk>, last: seq<byte>, trailer: seq<byte>)
    | TruncatedBody
    | MalformedSize

  /** Where the first CRLF stands, or None. */
  function FirstCrlf(s: seq<byte>): (r: Option<nat>)
    ensures r.Some? ==> r.value + 2 <= |s|
  {
    if |s| < 2 then None
    else if s[0] == CR && s[1] == LF then Some(0)
    else match FirstCrlf(s[1..]) case None => None case Some(i) => Some(i + 1)
  }

  /** The two bytes after a chunk's data are passed over without a look. */
  function ParseBody(s: seq<byte>): Body
    decreases |s|
  {
    match FirstCrlf(s)
    case None => TruncatedBody
    case Some(end) =>
      match SizeOf(s[..end])
      case None => MalformedSize
      case Some(size) =>
        var at := end + 2;
        if size == 0 then Whole([], s[..end], s[at..])
        else if at + size > |s| then TruncatedBody
        else if at + size + 2 > |s| then TruncatedBody
        else
          var c := Chunk(s[..end], s[at..at + size], s[at + size..at + size + 2]);
          WithChunk(c, ParseBody(s[at + size + 2..]))
  }

  function WithChunk(c: Chunk, b: Body): Body {
    if b.Whole? then b.(chunks := [c] + b.chunks) else b
  }

  function WithChunks(cs: seq<Chunk>, b: Body): Body {
    if b.Whole? then b.(chunks := cs + b.chunks) else b
  }

  function DataOf(cs: seq<Chunk>): seq<seq<byte>> {
    seq(|cs|, i requires 0 <= i < |cs| => cs[i].data)
  }

  lemma {:induction false} CrlfIsFirst(s: seq<byte>, start: nat)
    requires start <= |s|
    ensures match FirstCrlf(s[start..])
      case None => forall k: nat :: k >= start ==> !MatchesAt(s, CRLF, k)
      case Some(i) =>
        MatchesAt(s, CRLF, start + i) && forall k: nat :: start <= k < start + i ==> !MatchesAt(s, CRLF, k)
    decreases |s| - start
  {
    if |s| - start >= 2 {
      var t := s[start..];
      assert t[1..] == s[start + 1..];
      assert MatchesAt(s, CRLF, start) <==> t[0] == CR && t[1] == LF by {
        assert s[start..start + 2] == [t[0], t[1]];
      }
      CrlfIsFirst(s, start + 1);
    }
  }

  datatype Outcome = Data(bytes: seq<byte>) | Truncated | Malformed

  function OutcomeOf(b: Body): Outcome {
    match b
    case Whole(chunks, _, _) => Data(Flatten(DataOf(chunks)))
    case TruncatedBody => Truncated
    case MalformedSize => Malformed
  }

  function Rest(data: seq<byte>, at: nat): seq<byte> {
    if at <= |data| then data[at..] else []
  }

  lemma DataOfAppend(cs: seq<Chunk>, c: Chunk)
    ensures DataOf(cs + [c]) == DataOf(cs) + [c.data]
    ensures Flatten(DataOf(cs + [c])) == Flatten(DataOf(cs)) + c.data
  {
    assert (DataOf(cs) + [c.data])[..|cs|] == DataOf(cs);
  }

  /** The search the decoder makes finds what the parse of the remainder finds. */
  lemma LineEnd(data: seq<byte>, at: nat, r: int)
    requires r == -1 || (r >= at && MatchesAt(data, CRLF, r))
    requires forall k: nat :: at <= k && (r == -1 || k < r) ==> !MatchesAt(data, CRLF, k)
    ensures r == -1 ==> FirstCrlf(Rest(data, at)) == None
    ensures r >= 0 ==> at <= |data| && FirstCrlf(Rest(data, at)) == Some(r - at)
  {
    if at <= |data| {
      CrlfIsFirst(data, at);
    }
  }

  /** One chunk taken off the front of a remainder. */
  lemma SplitChunk(s: seq<byte>, end: nat, size: nat)
    requires FirstCrlf(s) == Some(end) && SizeOf(s[..end]) == Some(size) && size > 0 && end + 2 + size + 2 <= |s|
    ensures ParseBody(s) ==
      WithChunk(Chunk(s[..end], s[end + 2..end + 2 + size], s[end + 2 + size..end + 2 + size + 2]),
                ParseBody(s[end + 2 + size + 2..]))
  {
    hide SizeOf, FirstCrlf;
  }

  lemma WithChunksCons(done: seq<Chunk>, c: Chunk, b: Body)
    ensures WithChunks(done, WithChunk(c, b)) == WithChunks(done + [c], b)
  {
    if b.Whole? {
      assert done + ([c] + b.chunks) == done + [c] + b.chunks;
    }
  }

  /** One chunk taken off the front, whether or not both bytes after its data are there. */
  lemma TakeChunk(done: seq<Chunk>, data: seq<byte>, at: nat, end: nat, size: nat) returns (c: Chunk)
    requires at <= |data| && FirstCrlf(data[at..]) == Some(end - at) && at <= end
    requires end + 2 + size <= |data| && SizeOf(data[at..end]) == Some(size) && size > 0
    ensures c.data == data[end + 2..end + 2 + size]
    ensures WithChunks(done, ParseBody(data[at..])) == WithChunks(done + [c], ParseBody(Rest(data, end + 2 + size + 2)))
  {
    hide SizeOf, FirstCrlf, ParseBody, WithChunks;
    var s, stop := data[at..], end + 2 + size;
    assert s[..end - at] == data[at..end];
    if stop + 2 <= |data| {
      c := Chunk(data[at..end], data[end + 2..stop], data[stop..stop + 2]);
      SplitChunk(s, end - at, size);
      assert s[end - at + 2..end - at + 2 + size] == c.data;
      assert s[stop - at..stop - at + 2] == c.gap && s[stop - at + 2..] == data[stop + 2..];
      WithChunksCons(done, c, ParseBody(data[stop + 2..]));
    } else {
      c := Chunk(data[at..end], data[end + 2..stop], []);
      NothingLeft(Rest(data, stop + 2));
      GapCut(s, end - at, size);
      Kept(done, TruncatedBody);
      Kept(done + [c], TruncatedBody);
    }
  }

  lemma GapCut(s: seq<byte>, end: nat, size: nat)
    requires FirstCrlf(s) == Some(end) && SizeOf(s[..end]) == Some(size) && size > 0 && end + 2 + size + 2 > |s|
    ensures ParseBody(s) == TruncatedBody
  {
    hide SizeOf, FirstCrlf;
  }

  lemma NothingLeft(s: seq<byte>)
    requires |s| < 2
    ensures ParseBody(s) == TruncatedBody
  {
  }

  lemma StartWhole(data: seq<byte>)
    ensures WithChunks([], ParseBody(Rest(data, 0))) == ParseBody(data)
  {
    assert data[0..] == data;
    if ParseBody(data).Whole? {
      assert [] + ParseBody(data).chunks == ParseBody(data).chunks;
    }
  }

  /** What the remainder says when its first line is found. */
  lemma FirstLine(done: seq<Chunk>, data: seq<byte>, at: nat, end: nat)
    requires at <= end && end + 2 <= |data| && FirstCrlf(data[at..]) == Some(end - at)
    ensures SizeOf(data[at..end]).None? ==> ParseBody(data[at..]) == MalformedSize
    ensures SizeOf(data[at..end]) == Some(0) ==>
      WithChunks(done, ParseBody(data[at..])) == Whole(done, data[at..end], data[end + 2..])
    ensures var size := SizeOf(data[at..end]);
      size.Some? && size.value > 0 && end + 2 + size.value > |data| ==>
      ParseBody(data[at..]) == TruncatedBody
  {
    hide SizeOf, FirstCrlf;
    assert data[at..][..end - at] == data[at..end];
    assert data[at..][end - at + 2..] == data[end + 2..];
    assert done + [] == done;
  }

  /** The cursor strictly advances, and only bytes inside the buffer are read. */
  method Dechunk(data: seq<byte>) returns (r: Outcome)
    ensures r == OutcomeOf(ParseBody(data))
  {
    hide ParseBody, FirstCrlf, SizeOf, Rest, WithChunks, Flatten;
    var parts: seq<seq<byte>>, total: nat, at: nat := [], 0, 0;
    ghost var done: seq<Chunk> := [];
    StartWhole(data);
    NoParts();
    while true
      invariant parts == DataOf(done) && total == |Flatten(parts)|
      invariant ParseBody(data) == WithChunks(done, ParseBody(Rest(data, at)))
      decreases |data| - at
    {
      var lineEnd := IndexOf(data, CRLF, at);
      LineEnd(data, at, lineEnd);
      if lineEnd < 0 {
        Stopped(done, Rest(data, at));
        return Truncated;
      }
      RestInside(data, at);
      FirstLine(done, data, at, lineEnd);
      var size := SizeOf(data[at..lineEnd]);
      if size.None? {
        Kept(done, ParseBody(data[at..]));
        return Malformed;
      }
      ghost var start := at;
      at := lineEnd + 2;
      if size.value == 0 {
        var out := Concat(parts, total);
        return Data(out[..]);
      }
      if at + size.value > |data| {
        Kept(done, ParseBody(data[start..]));
        return Truncated;
      }
      ghost var c := TakeChunk(done, data, start, lineEnd, size.value);
      DataOfAppend(done, c);
      parts := parts + [data[at..at + size.value]];
      total := total + size.value;
      at := at + size.value + 2;
      done := done + [c];
    }
  }

  lemma NoParts()
    ensures Flatten([]) == []
  {
  }

  lemma RestInside(data: seq<byte>, at: nat)
    requires at <= |data|
    ensures Rest(data, at) == data[at..]
  {
  }

  lemma Kept(done: seq<Chunk>, b: Body)
    requires !b.Whole?
    ensures WithChunks(done, b) == b
  {
  }

  lemma Stopped(done: seq<Chunk>, s: seq<byte>)
    requires FirstCrlf(s) == None
    ensures WithChunks(done, ParseBody(s)) == TruncatedBody
  {
  }

  // ------------------------------------------------------------------ round trips

  predicate NoCrlf(line: seq<byte>) {
    forall i :: 0 <= i < |line| - 1 ==> !(line[i] == CR && line[i + 1] == LF)
  }

  predicate WellFormed(c: Chunk) {
    NoCrlf(c.line) && c.data != [] && SizeOf(c.line) == Some(|c.data|) && |c.gap| == 2
  }

  predicate EndsBody(last: seq<byte>) {
    NoCrlf(last) && SizeOf(last) == Some(0)
  }

  function EncodeChunk(c: Chunk): seq<byte> {
    c.line + (CRLF + (c.data + c.gap))
  }

  function EncodeBody(cs: seq<Chunk>, end: seq<byte>): seq<byte> {
    if cs == [] then end else EncodeChunk(cs[0]) + EncodeBody(cs[1..], end)
  }

  lemma {:induction false} FirstCrlfAfter(line: seq<byte>, rest: seq<byte>)
    requires NoCrlf(line)
    ensures FirstCrlf(line + (CRLF + rest)) == Some(|line|)
  {
    var s := line + (CRLF + rest);
    if line == [] {
      assert s == CRLF + rest;
    } else {
      assert forall i :: 0 <= i < |line[1..]| ==> line[1..][i] == line[i + 1];
      FirstCrlfAfter(line[1..], rest);
      assert s[1..] == line[1..] + (CRLF + rest);
      if |line| > 1 {
        assert s[0] == line[0] && s[1] == line[1];
      }
    }
  }

  lemma {:induction false} CrlfStands(s: seq<byte>)
    requires FirstCrlf(s).Some?
    ensures var end := FirstCrlf(s).value;
      && s[end] == CR && s[end + 1] == LF
      && forall i :: 0 <= i < end ==> !(s[i] == CR && s[i + 1] == LF)
  {
    if FirstCrlf(s).value > 0 {
      CrlfStands(s[1..]);
      assert forall i :: 0 < i < |s| ==> s[i] == s[1..][i - 1];
    }
  }

  lemma NoCrlfBefore(s: seq<byte>)
    requires FirstCrlf(s).Some?
    ensures var end := FirstCrlf(s).value; NoCrlf(s[..end]) && s == s[..end] + (CRLF + s[end + 2..])
  {
    hide FirstCrlf;
    CrlfStands(s);
  }

  lemma ParseLast(last: seq<byte>, trailer: seq<byte>)
    requires EndsBody(last)
    ensures ParseBody(last + (CRLF + trailer)) == Whole([], last, trailer)
  {
    hide SizeOf, FirstCrlf;
    var s := last + (CRLF + trailer);
    FirstCrlfAfter(last, trailer);
    assert s[..|last|] == last && s[|last| + 2..] == trailer;
  }

  lemma ChunkSlices(c: Chunk, rest: seq<byte>, s: seq<byte>, at: nat, stop: nat)
    requires s == EncodeChunk(c) + rest && at == |c.line| + 2 && stop == at + |c.data| && |c.gap| == 2
    ensures s == c.line + (CRLF + (c.data + c.gap + rest))
    ensures stop + 2 <= |s| && s[..|c.line|] == c.line && s[at..stop] == c.data
    ensures s[stop..stop + 2] == c.gap && s[stop + 2..] == rest
  {
  }

  lemma ParseChunk(c: Chunk, rest: seq<byte>)
    requires WellFormed(c)
    ensures ParseBody(EncodeChunk(c) + rest) == WithChunk(c, ParseBody(rest))
  {
    hide SizeOf, FirstCrlf, EncodeChunk, ParseBody, NoCrlf;
    var s, at := EncodeChunk(c) + rest, |c.line| + 2;
    ChunkSlices(c, rest, s, at, at + |c.data|);
    FirstCrlfAfter(c.line, c.data + c.gap + rest);
    SplitChunk(s, |c.line|, |c.data|);
  }

  lemma {:induction false} EncodedParses(cs: seq<Chunk>, last: seq<byte>, trailer: seq<byte>)
    requires EndsBody(last) && forall c :: c in cs ==> WellFormed(c)
    ensures ParseBody(EncodeBody(cs, last + (CRLF + trailer))) == Whole(cs, last, trailer)
  {
    hide ParseBody, EncodeChunk, EndsBody, WellFormed;
    if cs == [] {
      ParseLast(last, trailer);
    } else {
      assert cs[0] in cs;
      EncodedParses(cs[1..], last, trailer);
      ParseChunk(cs[0], EncodeBody(cs[1..], last + (CRLF + trailer)));
      assert [cs[0]] + cs[1..] == cs;
    }
  }

  lemma WholeSplits(s: seq<byte>)
    requires ParseBody(s).Whole?
    ensures FirstCrlf(s).Some? && SizeOf(s[..FirstCrlf(s).value]).Some?
    ensures var end := FirstCrlf(s).value;
      var at, size := end + 2, SizeOf(s[..end]).value;
      if size == 0 then ParseBody(s) == Whole([], s[..end], s[at..])
      else at + size + 2 <= |s|
  {
    hide SizeOf, FirstCrlf;
  }

  ghost predicate Encoded(s: seq<byte>, b: Body)
    requires b.Whole?
  {
    && s == EncodeBody(b.chunks, b.last + (CRLF + b.trailer))
    && EndsBody(b.last) && forall c :: c in b.chunks ==> WellFormed(c)
  }

  lemma EncodedCons(c: Chunk, s: seq<byte>, b: Body)
    requires b.Whole? && Encoded(s, b) && WellFormed(c)
    ensures Encoded(EncodeChunk(c) + s, WithChunk(c, b))
  {
    hide WellFormed, EndsBody, EncodeChunk;
    assert ([c] + b.chunks)[1..] == b.chunks;
  }

  /** The first chunk of a whole body, put back in front of the rest. */
  lemma FirstChunk(s: seq<byte>, end: nat, size: nat) returns (c: Chunk)
    requires FirstCrlf(s) == Some(end) && SizeOf(s[..end]) == Some(size) && size > 0 && end + 2 + size + 2 <= |s|
    ensures WellFormed(c) && s == EncodeChunk(c) + s[end + 2 + size + 2..]
    ensures ParseBody(s) == WithChunk(c, ParseBody(s[end + 2 + size + 2..]))
  {
    hide SizeOf, FirstCrlf, ParseBody, NoCrlf, EncodeChunk;
    var stop := end + 2 + size;
    c := Chunk(s[..end], s[end + 2..stop], s[stop..stop + 2]);
    NoCrlfBefore(s);
    SplitChunk(s, end, size);
    Rejoin(s, end, stop);
  }

  lemma Rejoin(s: seq<byte>, end: nat, stop: nat)
    requires end + 2 <= stop && stop + 2 <= |s| && s == s[..end] + (CRLF + s[end + 2..])
    ensures s == EncodeChunk(Chunk(s[..end], s[end + 2..stop], s[stop..stop + 2])) + s[stop + 2..]
  {
    assert s[end + 2..stop] + s[stop..stop + 2] + s[stop + 2..] == s[end + 2..];
  }

  lemma {:induction false} ParsedIsEncoded(s: seq<byte>)
    requires ParseBody(s).Whole?
    ensures Encoded(s, ParseBody(s))
    decreases |s|
  {
    hide SizeOf, FirstCrlf, ParseBody, NoCrlf, EncodeChunk, WellFormed;
    WholeSplits(s);
    var end := FirstCrlf(s).value;
    var size := SizeOf(s[..end]).value;
    if size > 0 {
      var c := FirstChunk(s, end, size);
      var rest := s[end + 2 + size + 2..];
      assert ParseBody(rest).Whole?;
      ParsedIsEncoded(rest);
      EncodedCons(c, rest, ParseBody(rest));
    } else {
      NoCrlfBefore(s);
    }
  }

  /**
   * A body decodes exactly when it is a run of chunks, a line of size zero and
   * anything at all: each chunk's line announces the length of its data, and
   * the two bytes after the data are free.
   */
  lemma BodyIff(s: seq<byte>, cs: seq<Chunk>, last: seq<byte>, trailer: seq<byte>)
    ensures ParseBody(s) == Whole(cs, last, trailer) <==>
      && s == EncodeBody(cs, last + (CRLF + trailer))
      && EndsBody(last) && (forall c :: c in cs ==> WellFormed(c))
  {
    hide ParseBody, EncodeBody, WellFormed, EndsBody;
    if ParseBody(s) == Whole(cs, last, trailer) {
      ParsedIsEncoded(s);
    }
    if s == EncodeBody(cs, last + (CRLF + trailer)) && EndsBody(last) && forall c :: c in cs ==> WellFormed(c) {
      EncodedParses(cs, last, trailer);
    }
  }

  /**
   * A header line as section 7.1 of RFC 9112 writes it: a hexadecimal size,
   * blanks, and any extensions, which begin with a semicolon.
   */
  datatype Header = Header(digits: seq<byte>, blanks: seq<byte>, ext: seq<byte>) {
    function Text(): seq<byte> { digits + blanks + ext }

    predicate Announces(size: nat) {
      && AllHex(digits) && digits != [] && HexNumber(digits) == size
      && (forall b :: b in blanks ==> b == 9 || b == 32)
      && (ext == [] || ext[0] == SEMICOLON) && NoCrlf(ext)
    }
  }

  lemma HeaderReads(h: Header, size: nat)
    requires h.Announces(size)
    ensures SizeOf(h.Text()) == Some(size) && NoCrlf(h.Text())
  {
    hide SizeOf;
    forall i | 0 <= i < |h.blanks| ensures IsSpace(h.blanks[i]) {
      assert h.blanks[i] in h.blanks;
    }
    SizeReads([], h.digits, h.blanks, h.ext);
    assert [] + h.digits + h.blanks + h.ext == h.Text();
    HeaderNoCrlf(h, size);
  }

  lemma HeaderNoCrlf(h: Header, size: nat)
    requires h.Announces(size)
    ensures NoCrlf(h.Text())
  {
    var line, n := h.Text(), |h.digits + h.blanks|;
    forall i | 0 <= i < |line| - 1 ensures !(line[i] == CR && line[i + 1] == LF) {
      if i < |h.digits| {
        assert IsHex(h.digits[i]);
      } else if i < n {
        assert line[i] == h.blanks[i - |h.digits|] && h.blanks[i - |h.digits|] in h.blanks;
      } else {
        assert line[i] == h.ext[i - n] && line[i + 1] == h.ext[i + 1 - n];
      }
    }
  }

  function ChunksOf(headers: seq<Header>, pieces: seq<seq<byte>>): seq<Chunk>
    requires |headers| == |pieces|
  {
    seq(|pieces|, i requires 0 <= i < |pieces| => Chunk(headers[i].Text(), pieces[i], CRLF))
  }

  /**
   * Every chunked body as section 7.1 of RFC 9112 writes it decodes to its
   * pieces joined in order: sizes in either case and with leading zeros, blanks
   * and extensions on any line, the closing one included, and any trailer.
   */
  lemma DechunkInverts(headers: seq<Header>, pieces: seq<seq<byte>>, last: Header, trailer: seq<byte>)
    requires |headers| == |pieces| && last.Announces(0)
    requires forall i :: 0 <= i < |pieces| ==> pieces[i] != [] && headers[i].Announces(|pieces[i]|)
    ensures var body := EncodeBody(ChunksOf(headers, pieces), last.Text() + (CRLF + trailer));
      OutcomeOf(ParseBody(body)) == Data(Flatten(pieces))
  {
    hide ParseBody, EncodeBody, SizeOf, NoCrlf, Flatten;
    var cs := ChunksOf(headers, pieces);
    forall c | c in cs ensures WellFormed(c) {
      var i :| 0 <= i < |cs| && cs[i] == c;
      HeaderReads(headers[i], |pieces[i]|);
    }
    HeaderReads(last, 0);
    EncodedParses(cs, last.Text(), trailer);
    assert DataOf(cs) == pieces;
  }

  lemma {:induction false} CutLine(line: seq<byte>, k: nat)
    requires NoCrlf(line) && k < |line| + 2
    ensures FirstCrlf((line + CRLF)[..k]) == None
  {
    var s := (line + CRLF)[..k];
    if k >= 2 {
      if line == [] {
        assert false;
      } else {
        assert forall i :: 0 <= i < |line[1..]| ==> line[1..][i] == line[i + 1];
        CutLine(line[1..], k - 1);
        assert s[1..] == (line[1..] + CRLF)[..k - 1];
      }
    }
  }

  /** A body cut anywhere before the end of its closing line is refused as truncated, never read as a shorter one. */
  lemma {:induction false} CutIsTruncated(cs: seq<Chunk>, last: seq<byte>, k: nat)
    requires EndsBody(last) && forall c :: c in cs ==> WellFormed(c)
    requires k < |EncodeBody(cs, last + CRLF)|
    ensures ParseBody(EncodeBody(cs, last + CRLF)[..k]) == TruncatedBody
  {
    hide ParseBody, EncodeChunk, SizeOf;
    if cs == [] {
      CutLine(last, k);
      Stopped([], (last + CRLF)[..k]);
    } else {
      var c, rest := cs[0], EncodeBody(cs[1..], last + CRLF);
      assert c in cs;
      var n := |EncodeChunk(c)|;
      var s := EncodeBody(cs, last + CRLF)[..k];
      if k < n {
        assert s == EncodeChunk(c)[..k];
        CutChunk(c, k);
      } else {
        assert s == EncodeChunk(c) + rest[..k - n];
        CutIsTruncated(cs[1..], last, k - n);
        ParseChunk(c, rest[..k - n]);
      }
    }
  }

  lemma CutChunk(c: Chunk, k: nat)
    requires WellFormed(c) && k < |EncodeChunk(c)|
    ensures ParseBody(EncodeChunk(c)[..k]) == TruncatedBody
  {
    hide SizeOf, FirstCrlf;
    var s, n := EncodeChunk(c)[..k], |c.line| + 2;
    if k < n {
      CutLine(c.line, k);
      assert s == (c.line + CRLF)[..k];
    } else {
      assert s == c.line + (CRLF + (c.data + c.gap)[..k - n]);
      FirstCrlfAfter(c.line, (c.data + c.gap)[..k - n]);
      assert s[..|c.line|] == c.line;
    }
  }

  /** The same digit in lower case. */
  function Lower(b: byte): byte
    requires IsHex(b)
  {
    if 65 <= b <= 70 then b + 32 else b
  }

  function LowerAll(s: seq<byte>): (r: seq<byte>)
    requires AllHex(s)
    ensures |r| == |s| && AllHex(r)
  {
    seq(|s|, i requires 0 <= i < |s| => Lower(s[i]))
  }

  /** A size means the same in either case. */
  lemma {:induction false} CaseFree(s: seq<byte>)
    requires AllHex(s)
    ensures HexNumber(LowerAll(s)) == HexNumber(s)
  {
    if s != [] {
      var n := |s| - 1;
      CaseFree(s[..n]);
      assert LowerAll(s)[..n] == LowerAll(s[..n]);
    }
  }
}
