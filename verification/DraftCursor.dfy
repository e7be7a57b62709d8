/** Page cursors: a JSON document in base64url without padding (sections 3.2 and 5 of RFC 4648).
    The JSON text itself is a parameter: a pair of mutually inverse functions. */
module DraftCursor {
  import opened Wrappers

  type Byte = x: int | 0 <= x < 256
  type Sextet = x: int | 0 <= x < 64

  // ---- base64url ------------------------------------------------------------------------------

  function CharOf(s: Sextet): char {
    if s < 26 then 'A' + s as char
    else if s < 52 then 'a' + (s - 26) as char
    else if s < 62 then '0' + (s - 52) as char
    else if s == 62 then '-'
    else '_'
  }

  function SextetOf(c: char): Option<Sextet> {
    if 'A' <= c <= 'Z' then Some((c - 'A') as int)
    else if 'a' <= c <= 'z' then Some((c - 'a') as int + 26)
    else if '0' <= c <= '9' then Some((c - '0') as int + 52)
    else if c == '-' then Some(62)
    else if c == '_' then Some(63)
    else None
  }

  lemma AlphabetRoundTrip(s: Sextet)
    ensures SextetOf(CharOf(s)) == Some(s) && CharOf(s) != '='
  {
  }

  function Quad(a: Byte, b: Byte, c: Byte): string {
    [CharOf(a / 4), CharOf(a % 4 * 16 + b / 16), CharOf(b % 16 * 4 + c / 64), CharOf(c % 64)]
  }

  /** urlsafe_b64encode: three bytes to four characters, the last group padded with '='. */
  function Encode(bs: seq<Byte>): string {
    if |bs| == 0 then ""
    else if |bs| == 1 then [CharOf(bs[0] / 4), CharOf(bs[0] % 4 * 16), '=', '=']
    else if |bs| == 2 then [CharOf(bs[0] / 4), CharOf(bs[0] % 4 * 16 + bs[1] / 16), CharOf(bs[1] % 16 * 4), '=']
    else Quad(bs[0], bs[1], bs[2]) + Encode(bs[3..])
  }

  function Bytes3(a: Sextet, b: Sextet, c: Sextet, d: Sextet): seq<Byte> {
    [a * 4 + b / 16, b % 16 * 16 + c / 4, c % 4 * 64 + d]
  }

  /** urlsafe_b64decode on text of the alphabet; anything else is refused. */
  function Decode(t: string): Option<seq<Byte>> {
    if t == "" then Some([])
    else if |t| < 4 then None
    else
      var a, b, c, d := SextetOf(t[0]), SextetOf(t[1]), SextetOf(t[2]), SextetOf(t[3]);
      if a.None? || b.None? then None
      else if |t| == 4 && t[2] == '=' && t[3] == '=' then Some([a.value * 4 + b.value / 16])
      else if c.None? then None
      else if |t| == 4 && t[3] == '=' then Some([a.value * 4 + b.value / 16, b.value % 16 * 16 + c.value / 4])
      else if d.None? then None
      else match Decode(t[4..])
        case None => None
        case Some(rest) => Some(Bytes3(a.value, b.value, c.value, d.value) + rest)
  }

  lemma GroupRoundTrip(a: Byte, b: Byte, c: Byte)
    ensures Bytes3(a / 4, a % 4 * 16 + b / 16, b % 16 * 4 + c / 64, c % 64) == [a, b, c]
  {
  }

  lemma OneByteRoundTrip(x: Byte)
    ensures Decode([CharOf(x / 4), CharOf(x % 4 * 16), '=', '=']) == Some([x])
  {
    AlphabetRoundTrip(x / 4);
    AlphabetRoundTrip(x % 4 * 16);
    assert x / 4 * 4 + x % 4 * 16 / 16 == x;
  }

  lemma TwoByteRoundTrip(x: Byte, y: Byte)
    ensures Decode([CharOf(x / 4), CharOf(x % 4 * 16 + y / 16), CharOf(y % 16 * 4), '=']) == Some([x, y])
  {
    AlphabetRoundTrip(x / 4);
    AlphabetRoundTrip(x % 4 * 16 + y / 16);
    AlphabetRoundTrip(y % 16 * 4);
    var b, c := x % 4 * 16 + y / 16, y % 16 * 4;
    assert x / 4 * 4 + b / 16 == x && b % 16 * 16 + c / 4 == y;
  }

  lemma EncodeOne(x: Byte)
    ensures Encode([x]) == [CharOf(x / 4), CharOf(x % 4 * 16), '=', '=']
  {
  }

  lemma EncodeTwo(x: Byte, y: Byte)
    ensures Encode([x, y]) == [CharOf(x / 4), CharOf(x % 4 * 16 + y / 16), CharOf(y % 16 * 4), '=']
  {
  }

  lemma OneRoundTrip(x: Byte)
    ensures Decode(Encode([x])) == Some([x])
  {
    EncodeOne(x);
    OneByteRoundTrip(x);
  }

  lemma TwoRoundTrip(x: Byte, y: Byte)
    ensures Decode(Encode([x, y])) == Some([x, y])
  {
    EncodeTwo(x, y);
    TwoByteRoundTrip(x, y);
  }

  lemma ShortRoundTrip(bs: seq<Byte>)
    requires |bs| < 3
    ensures Decode(Encode(bs)) == Some(bs)
  {
    if |bs| == 1 {
      assert bs == [bs[0]];
      OneRoundTrip(bs[0]);
    } else if |bs| == 2 {
      assert bs == [bs[0], bs[1]];
      TwoRoundTrip(bs[0], bs[1]);
    }
  }

  lemma {:induction false} EncodedLength(bs: seq<Byte>)
    ensures |Encode(bs)| == (|bs| + 2) / 3 * 4
    ensures bs != [] ==> |Encode(bs)| >= 4
    decreases |bs|
  {
    if |bs| >= 3 {
      EncodedLength(bs[3..]);
      assert (|bs| + 2) / 3 == (|bs[3..]| + 2) / 3 + 1;
    } else if |bs| > 0 {
      assert (|bs| + 2) / 3 == 1;
    }
  }

  lemma QuadDecodes(a: Byte, b: Byte, c: Byte, rest: string)
    requires rest == "" || |rest| >= 4
    ensures Decode(Quad(a, b, c) + rest) == match Decode(rest) case None => None case Some(bs) => Some([a, b, c] + bs)
  {
    AlphabetRoundTrip(a / 4);
    AlphabetRoundTrip(a % 4 * 16 + b / 16);
    AlphabetRoundTrip(b % 16 * 4 + c / 64);
    AlphabetRoundTrip(c % 64);
    GroupRoundTrip(a, b, c);
    var t := Quad(a, b, c) + rest;
    assert t[4..] == rest && t[0] == CharOf(a / 4) && t[3] == CharOf(c % 64);
  }

  lemma {:induction false} LongRoundTrip(a: Byte, b: Byte, c: Byte, rest: seq<Byte>)
    ensures Decode(Encode([a, b, c] + rest)) == Some([a, b, c] + rest)
    decreases |rest| + 3, 0
  {
    var t := Encode(rest);
    Base64RoundTrip(rest);
    EncodedLength(rest);
    QuadDecodes(a, b, c, t);
    assert ([a, b, c] + rest)[3..] == rest;
    assert Encode([a, b, c] + rest) == Quad(a, b, c) + t;
  }

  lemma {:induction false} Base64RoundTrip(bs: seq<Byte>)
    ensures Decode(Encode(bs)) == Some(bs)
    decreases |bs|, 1
  {
    if |bs| < 3 {
      ShortRoundTrip(bs);
    } else {
      LongRoundTrip(bs[0], bs[1], bs[2], bs[3..]);
      assert [bs[0], bs[1], bs[2]] + bs[3..] == bs;
    }
  }

  // ---- padding --------------------------------------------------------------------------------

  /** rstrip("="). */
  function Strip(t: string): string {
    if t != "" && t[|t|-1] == '=' then Strip(t[..|t|-1]) else t
  }

  /** value + "=" * (-len(value) % 4). */
  function Pad(t: string): string { t + seq(Padding(|t|), _ => '=') }

  function Padding(n: nat): nat { (0 - n) % 4 }

  function UnpaddedLength(n: nat): nat { n / 3 * 4 + if n % 3 == 0 then 0 else n % 3 + 1 }

  lemma {:induction false} StripPrefix(a: string, b: string)
    requires b != "" && Strip(b) != ""
    ensures Strip(a + b) == a + Strip(b)
    decreases |b|
  {
    if b[|b|-1] == '=' {
      var shorter := b[..|b|-1];
      assert (a + b)[..|a+b|-1] == a + shorter;
      if shorter != "" { StripPrefix(a, shorter); }
    }
  }

  lemma StripTwo(a: char, b: char)
    requires b != '='
    ensures Strip([a, b, '=', '=']) == [a, b]
  {
    var t := [a, b, '=', '='];
    assert t[..3] == [a, b, '='] && [a, b, '='][..2] == [a, b];
    assert Strip([a, b]) == [a, b];
    assert Strip([a, b, '=']) == [a, b];
  }

  lemma StripOne(a: char, b: char, c: char)
    requires c != '='
    ensures Strip([a, b, c, '=']) == [a, b, c]
  {
    assert [a, b, c, '='][..3] == [a, b, c];
    assert Strip([a, b, c]) == [a, b, c];
  }

  lemma StripOneByte(x: Byte)
    ensures Strip(Encode([x])) == Encode([x])[..2]
  {
    EncodeOne(x);
    AlphabetRoundTrip(x % 4 * 16);
    StripTwo(CharOf(x / 4), CharOf(x % 4 * 16));
  }

  lemma StripTwoBytes(x: Byte, y: Byte)
    ensures Strip(Encode([x, y])) == Encode([x, y])[..3]
  {
    EncodeTwo(x, y);
    AlphabetRoundTrip(y % 16 * 4);
    StripOne(CharOf(x / 4), CharOf(x % 4 * 16 + y / 16), CharOf(y % 16 * 4));
  }

  lemma ShortStrip(bs: seq<Byte>)
    requires |bs| < 3
    ensures Strip(Encode(bs)) == Encode(bs)[..UnpaddedLength(|bs|)]
  {
    if |bs| == 1 {
      StripOneByte(bs[0]);
      assert bs == [bs[0]];
    } else if |bs| == 2 {
      StripTwoBytes(bs[0], bs[1]);
      assert bs == [bs[0], bs[1]];
    }
  }

  /** Stripping removes exactly the padding. */
  lemma {:induction false} StripIs(bs: seq<Byte>)
    ensures UnpaddedLength(|bs|) <= |Encode(bs)|
    ensures Strip(Encode(bs)) == Encode(bs)[..UnpaddedLength(|bs|)]
    ensures forall i :: UnpaddedLength(|bs|) <= i < |Encode(bs)| ==> Encode(bs)[i] == '='
    decreases |bs|
  {
    EncodedLength(bs);
    if |bs| < 3 {
      ShortStrip(bs);
    } else {
      StripIs(bs[3..]);
      var quad, rest := Quad(bs[0], bs[1], bs[2]), Encode(bs[3..]);
      if bs[3..] == [] {
        AlphabetRoundTrip(bs[2] % 64);
        assert quad + rest == quad;
      } else {
        EncodedLength(bs[3..]);
        StripPrefix(quad, rest);
        assert (quad + rest)[..UnpaddedLength(|bs|)] == quad + rest[..UnpaddedLength(|bs|) - 4];
      }
    }
  }

  lemma PaddingOf(q: nat, k: nat)
    requires k < 4
    ensures Padding(4 * q + k) == if k == 0 then 0 else 4 - k
  {
    assert 0 - (4 * q + k) == 4 * (0 - q - 1) + (4 - k);
  }

  lemma LengthsOf(q: nat, r: nat)
    requires r < 3
    ensures (3 * q + r) / 3 == q && (3 * q + r) % 3 == r
    ensures (3 * q + r + 2) / 3 == if r == 0 then q else q + 1
  {
  }

  lemma PaddedLength(n: nat)
    ensures UnpaddedLength(n) + Padding(UnpaddedLength(n)) == (n + 2) / 3 * 4
  {
    var q, r := n / 3, n % 3;
    LengthsOf(q, r);
    PaddingOf(q, if r == 0 then 0 else r + 1);
  }

  lemma PadRestores(t: string, n: nat)
    requires n + Padding(n) == |t| && forall i :: n <= i < |t| ==> t[i] == '='
    ensures Pad(t[..n]) == t
  {
    forall i | 0 <= i < |t| ensures Pad(t[..n])[i] == t[i] {}
  }

  lemma PaddingFits(bs: seq<Byte>)
    ensures UnpaddedLength(|bs|) + Padding(UnpaddedLength(|bs|)) == |Encode(bs)|
  {
    EncodedLength(bs);
    PaddedLength(|bs|);
  }

  /** Stripping the padding and restoring it is a round trip. */
  lemma PaddingRoundTrip(bs: seq<Byte>)
    ensures Pad(Strip(Encode(bs))) == Encode(bs)
    ensures |Strip(Encode(bs))| == UnpaddedLength(|bs|)
  {
    StripIs(bs);
    PaddingFits(bs);
    PadRestores(Encode(bs), UnpaddedLength(|bs|));
  }

  // ---- cursors --------------------------------------------------------------------------------

  /** Writing and reading the JSON document of a cursor. */
  datatype JsonCodec = JsonCodec(write: (int, string) -> seq<Byte>, read: seq<Byte> -> Option<(int, string)>)

  ghost predicate Faithful(json: JsonCodec) {
    forall t, id {:trigger json.write(t, id)} :: json.read(json.write(t, id)) == Some((t, id)) && |json.write(t, id)| > |id|
  }

  const MAX_CURSOR := 2048

  function EncodeCursor(json: JsonCodec, createdAt: int, id: string): string {
    Strip(Encode(json.write(createdAt, id)))
  }

  function DecodeCursor(json: JsonCodec, value: string): Result<(int, string), ()> {
    if value == "" || |value| > MAX_CURSOR then Err(())
    else match Decode(Pad(value))
      case None => Err(())
      case Some(raw) =>
        match json.read(raw)
        case None => Err(())
        case Some(payload) => if payload.1 == "" then Err(()) else Ok(payload)
  }

  /** The proposals a cursor can resume from. */
  predicate Resumable(json: JsonCodec, createdAt: int, id: string) {
    id != "" && |json.write(createdAt, id)| <= 1536
  }

  lemma LongestDocument(n: nat)
    ensures UnpaddedLength(n) <= MAX_CURSOR <==> n <= 1536
  {
  }

  /** A cursor decodes to what was encoded exactly when the id is not empty and the document has
      at most 1536 bytes; otherwise the service refuses the cursor it issued itself. */
  lemma CursorRoundTripIff(json: JsonCodec, createdAt: int, id: string)
    requires Faithful(json)
    ensures DecodeCursor(json, EncodeCursor(json, createdAt, id)) ==
            if Resumable(json, createdAt, id) then Ok((createdAt, id)) else Err(())
  {
    var raw := json.write(createdAt, id);
    PaddingRoundTrip(raw);
    Base64RoundTrip(raw);
    LongestDocument(|raw|);
  }

  /** A proposal id of 1536 characters, which storage accepts, yields a cursor that is refused. */
  lemma LongIdExample(json: JsonCodec, createdAt: int)
    requires Faithful(json)
    ensures DecodeCursor(json, EncodeCursor(json, createdAt, seq(1536, _ => 'a'))) == Err(())
  {
    CursorRoundTripIff(json, createdAt, seq(1536, _ => 'a'));
  }
}
