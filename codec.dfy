/** The identifier codec: standard base64 (section 4 of RFC 4648, with `=`
    padding) and lowercase hexadecimal (section 8 of RFC 4648), and the
    gateway's `base64_to_hex`, which decodes the one and writes the other. */
module Codec {
  import opened Wrappers
  import Integers

  type byte = b: int | 0 <= b < 256
  type sextet = v: int | 0 <= v < 64

  /** The symbol of the base64 alphabet for a 6-bit value. */
  function SymbolOf(v: sextet): char {
    if v < 26 then ('A' as int + v) as char
    else if v < 52 then ('a' as int + (v - 26)) as char
    else if v < 62 then ('0' as int + (v - 52)) as char
    else if v == 62 then '+'
    else '/'
  }

  /** The 6-bit value of a base64 symbol; `=` and every character outside the
      alphabet have none. */
  function SextetOf(c: char): (r: Option<sextet>)
    ensures r.Some? ==> SymbolOf(r.value) == c
  {
    if 'A' <= c <= 'Z' then Some(c as int - 'A' as int)
    else if 'a' <= c <= 'z' then Some(c as int - 'a' as int + 26)
    else if '0' <= c <= '9' then Some(c as int - '0' as int + 52)
    else if c == '+' then Some(62)
    else if c == '/' then Some(63)
    else None
  }

  predicate IsSymbol(c: char) {
    SextetOf(c).Some?
  }

  /** Three bytes as four symbols. */
  function EncodeGroup(b0: byte, b1: byte, b2: byte): string {
    [SymbolOf(b0 / 4), SymbolOf(b0 % 4 * 16 + b1 / 16), SymbolOf(b1 % 16 * 4 + b2 / 64), SymbolOf(b2 % 64)]
  }

  /** A final two bytes: three symbols, the last with two zero bits, and one `=`. */
  function EncodeTwo(b0: byte, b1: byte): string {
    [SymbolOf(b0 / 4), SymbolOf(b0 % 4 * 16 + b1 / 16), SymbolOf(b1 % 16 * 4), '=']
  }

  /** A final single byte: two symbols, the last with four zero bits, and `==`. */
  function EncodeOne(b0: byte): string {
    [SymbolOf(b0 / 4), SymbolOf(b0 % 4 * 16), '=', '=']
  }

  /** `base64::encode`: standard alphabet, padded to a multiple of four. */
  function Encode(b: seq<byte>): (s: string)
    ensures |s| % 4 == 0 && (|s| == 0 <==> |b| == 0)
    decreases |b|
  {
    if |b| == 0 then []
    else if |b| == 1 then EncodeOne(b[0])
    else if |b| == 2 then EncodeTwo(b[0], b[1])
    else EncodeGroup(b[0], b[1], b[2]) + Encode(b[3..])
  }

  /** The text is the canonical base64 form of some bytes. */
  ghost predicate IsBase64(s: string) {
    exists b: seq<byte> :: Encode(b) == s
  }

  /** `base64::DecodeError`: the offending character and its position. */
  datatype DecodeError =
    | InvalidByte(offset: nat, symbol: char)
    | InvalidLength
    | InvalidLastSymbol(offset: nat, symbol: char)

  /** The `Display` text of a `DecodeError`. */
  function DecodeErrorMessage(e: DecodeError): string {
    match e
    case InvalidByte(offset, c) =>
      "Invalid byte " + Integers.FormatNat(c as int) + ", offset " + Integers.FormatNat(offset) + "."
    case InvalidLength => "Encoded text cannot have a 6-bit remainder."
    case InvalidLastSymbol(offset, c) =>
      "Invalid last symbol " + Integers.FormatNat(c as int) + ", offset " + Integers.FormatNat(offset) + "."
  }

  /** The position (counted from `offset`) of the first non-symbol among the
      first `n` characters of `q`, if any. */
  function FirstNonSymbol(q: string, n: nat, offset: nat): (r: Option<DecodeError>)
    requires n <= |q|
    ensures r.None? <==> forall i :: 0 <= i < n ==> IsSymbol(q[i])
    ensures r.Some? ==> r.value.InvalidByte?
  {
    if n == 0 then None
    else match FirstNonSymbol(q, n - 1, offset)
      case Some(e) => Some(e)
      case None => if IsSymbol(q[n - 1]) then None else Some(InvalidByte(offset + n - 1, q[n - 1]))
  }

  /** Four symbols that are not the last quad: always three bytes. */
  function DecodeGroup(q: string, offset: nat): (r: Result<seq<byte>, DecodeError>)
    requires |q| == 4
    ensures r.Ok? ==> |r.value| == 3
  {
    match FirstNonSymbol(q, 4, offset)
    case Some(e) => Err(e)
    case None =>
      assert IsSymbol(q[0]) && IsSymbol(q[1]) && IsSymbol(q[2]) && IsSymbol(q[3]);
      var v0, v1, v2, v3 := SextetOf(q[0]).value, SextetOf(q[1]).value, SextetOf(q[2]).value, SextetOf(q[3]).value;
      GroupFromSextets(v0, v1, v2, v3);
      Ok([v0 * 4 + v1 / 16, v1 % 16 * 16 + v2 / 4, v2 % 4 * 64 + v3])
  }

  lemma DecodeGroupCanonical(q: string, offset: nat)
    requires |q| == 4
    ensures DecodeGroup(q, offset).Ok? ==> EncodeGroup(DecodeGroup(q, offset).value[0], DecodeGroup(q, offset).value[1], DecodeGroup(q, offset).value[2]) == q
  {
    if DecodeGroup(q, offset).Ok? {
      assert FirstNonSymbol(q, 4, offset).None?;
      assert IsSymbol(q[0]) && IsSymbol(q[1]) && IsSymbol(q[2]) && IsSymbol(q[3]);
      var v0, v1, v2, v3 := SextetOf(q[0]).value, SextetOf(q[1]).value, SextetOf(q[2]).value, SextetOf(q[3]).value;
      GroupEncodesSextets(v0, v1, v2, v3);
      assert SymbolOf(v0) == q[0] && SymbolOf(v1) == q[1] && SymbolOf(v2) == q[2] && SymbolOf(v3) == q[3];
    }
  }

  /** A last quad `xy==`: one byte, and `y` must leave four zero bits. */
  function DecodePaddedOne(q: string, offset: nat): (r: Result<seq<byte>, DecodeError>)
    requires |q| == 4 && q[2] == '=' && q[3] == '='
    ensures r.Ok? ==> |r.value| == 1
  {
    match FirstNonSymbol(q, 2, offset)
    case Some(e) => Err(e)
    case None =>
      var v0, v1 := SextetOf(q[0]).value, SextetOf(q[1]).value;
      if v1 % 16 != 0 then Err(InvalidLastSymbol(offset + 1, q[1]))
      else
        OneFromSextets(v0, v1);
        Ok([v0 * 4 + v1 / 16])
  }

  lemma DecodePaddedOneCanonical(q: string, offset: nat)
    requires |q| == 4 && q[2] == '=' && q[3] == '='
    ensures DecodePaddedOne(q, offset).Ok? ==> EncodeOne(DecodePaddedOne(q, offset).value[0]) == q
  {
    if DecodePaddedOne(q, offset).Ok? {
      assert FirstNonSymbol(q, 2, offset).None?;
      var v0, v1 := SextetOf(q[0]).value, SextetOf(q[1]).value;
      OneFromSextets(v0, v1);
      assert SymbolOf(v0) == q[0] && SymbolOf(v1) == q[1];
    }
  }

  /** A last quad `xyz=`: two bytes, and `z` must leave two zero bits. */
  function DecodePaddedTwo(q: string, offset: nat): (r: Result<seq<byte>, DecodeError>)
    requires |q| == 4 && q[3] == '='
    ensures r.Ok? ==> |r.value| == 2
  {
    match FirstNonSymbol(q, 3, offset)
    case Some(e) => Err(e)
    case None =>
      var v0, v1, v2 := SextetOf(q[0]).value, SextetOf(q[1]).value, SextetOf(q[2]).value;
      if v2 % 4 != 0 then Err(InvalidLastSymbol(offset + 2, q[2]))
      else
        TwoFromSextets(v0, v1, v2);
        Ok([v0 * 4 + v1 / 16, v1 % 16 * 16 + v2 / 4])
  }

  lemma DecodePaddedTwoCanonical(q: string, offset: nat)
    requires |q| == 4 && q[3] == '='
    ensures DecodePaddedTwo(q, offset).Ok? ==>
      EncodeTwo(DecodePaddedTwo(q, offset).value[0], DecodePaddedTwo(q, offset).value[1]) == q
  {
    if DecodePaddedTwo(q, offset).Ok? {
      assert FirstNonSymbol(q, 3, offset).None?;
      var v0, v1, v2 := SextetOf(q[0]).value, SextetOf(q[1]).value, SextetOf(q[2]).value;
      TwoFromSextets(v0, v1, v2);
      assert SymbolOf(v0) == q[0] && SymbolOf(v1) == q[1] && SymbolOf(v2) == q[2];
    }
  }

  /** The last quad: three bytes, or two bytes and `=`, or one byte and `==`;
      the bits the padding leaves over must be zero. */
  function DecodeLast(q: string, offset: nat): (r: Result<seq<byte>, DecodeError>)
    requires |q| == 4
  {
    if q[2] == '=' && q[3] == '=' then DecodePaddedOne(q, offset)
    else if q[3] == '=' then DecodePaddedTwo(q, offset)
    else DecodeGroup(q, offset)
  }

  lemma DecodeLastCanonical(q: string, offset: nat)
    requires |q| == 4
    ensures DecodeLast(q, offset).Ok? ==> Encode(DecodeLast(q, offset).value) == q
  {
    var r := DecodeLast(q, offset);
    if r.Ok? {
      if q[2] == '=' && q[3] == '=' {
        DecodePaddedOneCanonical(q, offset);
      } else if q[3] == '=' {
        DecodePaddedTwoCanonical(q, offset);
      } else {
        DecodeGroupCanonical(q, offset);
        assert r.value[3..] == [];
      }
    }
  }

  /** Decodes the quads of `s`, whose first character sits at `offset` of the
      whole input. */
  function DecodeQuads(s: string, offset: nat): Result<seq<byte>, DecodeError>
    requires |s| % 4 == 0
    decreases |s|
  {
    if s == [] then Ok([])
    else if |s| == 4 then DecodeLast(s, offset)
    else
      match DecodeGroup(s[..4], offset)
      case Err(e) => Err(e)
      case Ok(g) =>
        match DecodeQuads(s[4..], offset + 4)
        case Err(e) => Err(e)
        case Ok(rest) => Ok(g + rest)
  }

  /** Whatever `DecodeQuads` accepts is the encoding of what it returns. */
  lemma {:induction false} DecodeQuadsCanonical(s: string, offset: nat)
    requires |s| % 4 == 0
    ensures DecodeQuads(s, offset).Ok? ==> Encode(DecodeQuads(s, offset).value) == s
    decreases |s|
  {
    if |s| == 4 {
      DecodeLastCanonical(s, offset);
    } else if |s| > 4 {
      DecodeQuadsCanonical(s[4..], offset + 4);
      DecodeQuadsCanonicalStep(s, offset);
    }
  }

  /** The inductive step of `DecodeQuadsCanonical`: a leading group. */
  lemma DecodeQuadsCanonicalStep(s: string, offset: nat)
    requires |s| > 4 && |s| % 4 == 0
    requires DecodeQuads(s[4..], offset + 4).Ok? ==> Encode(DecodeQuads(s[4..], offset + 4).value) == s[4..]
    ensures DecodeQuads(s, offset).Ok? ==> Encode(DecodeQuads(s, offset).value) == s
  {
    if DecodeQuads(s, offset).Ok? {
      DecodeQuadsSplit(s, offset);
      var g, rest := DecodeGroup(s[..4], offset).value, DecodeQuads(s[4..], offset + 4).value;
      DecodeGroupCanonical(s[..4], offset);
      EncodeCons(g, rest);
      assert s == s[..4] + s[4..];
    }
  }

  /** What `DecodeQuads` accepts beyond one quad is a group and what follows. */
  lemma DecodeQuadsSplit(s: string, offset: nat)
    requires |s| > 4 && |s| % 4 == 0 && DecodeQuads(s, offset).Ok?
    ensures DecodeGroup(s[..4], offset).Ok? && DecodeQuads(s[4..], offset + 4).Ok?
    ensures DecodeQuads(s, offset).value == DecodeGroup(s[..4], offset).value + DecodeQuads(s[4..], offset + 4).value
  {
  }

  /** `Encode` writes a leading group of three bytes as one quad. */
  lemma EncodeCons(g: seq<byte>, rest: seq<byte>)
    requires |g| == 3
    ensures Encode(g + rest) == EncodeGroup(g[0], g[1], g[2]) + Encode(rest)
  {
    assert (g + rest)[3..] == rest;
  }

  /** `base64::decode` in the strict form of RFC 4648: a length that is a
      multiple of four, symbols of the standard alphabet, padding only at the
      end, and zero leftover bits. Whatever it accepts is the canonical
      encoding of what it returns. */
  function Decode(s: string): (r: Result<seq<byte>, DecodeError>)
    ensures r.Ok? ==> Encode(r.value) == s
    ensures |s| % 4 != 0 ==> r == Err(InvalidLength)
  {
    if |s| % 4 != 0 then Err(InvalidLength)
    else
      DecodeQuadsCanonical(s, 0);
      DecodeQuads(s, 0)
  }

  lemma {:induction false} DecodeEncode(b: seq<byte>)
    ensures Decode(Encode(b)) == Ok(b)
  {
    DecodeQuadsEncode(b, 0);
  }

  lemma {:induction false} DecodeQuadsEncode(b: seq<byte>, offset: nat)
    ensures DecodeQuads(Encode(b), offset) == Ok(b)
    decreases |b|
  {
    if |b| <= 3 {
      DecodeQuadsEncodeLast(b, offset);
    } else {
      DecodeQuadsEncode(b[3..], offset + 4);
      DecodeQuadsEncodeStep(b, offset);
    }
  }

  /** The base of `DecodeQuadsEncode`: at most one quad. */
  lemma DecodeQuadsEncodeLast(b: seq<byte>, offset: nat)
    requires |b| <= 3
    ensures DecodeQuads(Encode(b), offset) == Ok(b)
  {
    if |b| == 1 {
      DecodeEncodeOne(b[0], offset);
      assert [b[0]] == b;
    } else if |b| == 2 {
      DecodeEncodeTwo(b[0], b[1], offset);
      assert [b[0], b[1]] == b;
    } else if |b| == 3 {
      DecodeEncodeGroup(b[0], b[1], b[2], offset);
      assert Encode(b) == EncodeGroup(b[0], b[1], b[2]) + [];
      assert [b[0], b[1], b[2]] == b;
    }
  }

  /** The inductive step of `DecodeQuadsEncode`: a leading group of three bytes. */
  lemma DecodeQuadsEncodeStep(b: seq<byte>, offset: nat)
    requires |b| > 3 && DecodeQuads(Encode(b[3..]), offset + 4) == Ok(b[3..])
    ensures DecodeQuads(Encode(b), offset) == Ok(b)
  {
    var g, rest := EncodeGroup(b[0], b[1], b[2]), Encode(b[3..]);
    DecodeEncodeGroup(b[0], b[1], b[2], offset);
    DecodeQuadsCons(g, rest, offset);
    assert [b[0], b[1], b[2]] + b[3..] == b;
  }

  /** One step of `DecodeQuads` on a leading group followed by more quads. */
  lemma DecodeQuadsCons(g: string, rest: string, offset: nat)
    requires |g| == 4 && |rest| > 0 && |rest| % 4 == 0
    requires DecodeGroup(g, offset).Ok? && DecodeQuads(rest, offset + 4).Ok?
    ensures DecodeQuads(g + rest, offset) == Ok(DecodeGroup(g, offset).value + DecodeQuads(rest, offset + 4).value)
  {
    var s := g + rest;
    assert s[..4] == g && s[4..] == rest;
  }

  lemma SymbolsDecode(v: sextet)
    ensures SextetOf(SymbolOf(v)) == Some(v) && SymbolOf(v) != '='
  {
  }

  lemma DecodeEncodeOne(b0: byte, offset: nat)
    ensures DecodeLast(EncodeOne(b0), offset) == Ok([b0])
  {
    var v0, v1 := b0 / 4, b0 % 4 * 16;
    SymbolsDecode(v0);
    SymbolsDecode(v1);
    OneToSextets(b0);
  }

  lemma DecodeEncodeTwo(b0: byte, b1: byte, offset: nat)
    ensures DecodeLast(EncodeTwo(b0, b1), offset) == Ok([b0, b1])
  {
    var v0, v1, v2 := b0 / 4, b0 % 4 * 16 + b1 / 16, b1 % 16 * 4;
    TwoToSextets(b0, b1);
    SymbolsDecode(v0);
    SymbolsDecode(v1);
    SymbolsDecode(v2);
  }

  lemma DecodeEncodeGroup(b0: byte, b1: byte, b2: byte, offset: nat)
    ensures DecodeGroup(EncodeGroup(b0, b1, b2), offset) == Ok([b0, b1, b2])
    ensures DecodeLast(EncodeGroup(b0, b1, b2), offset) == Ok([b0, b1, b2])
  {
    var v0, v1, v2, v3 := b0 / 4, b0 % 4 * 16 + b1 / 16, b1 % 16 * 4 + b2 / 64, b2 % 64;
    GroupToSextets(b0, b1, b2);
    SymbolsDecode(v0);
    SymbolsDecode(v1);
    SymbolsDecode(v2);
    SymbolsDecode(v3);
  }

  // Bit arithmetic of the quads, one fact per lemma.

  lemma GroupFromSextets(v0: sextet, v1: sextet, v2: sextet, v3: sextet)
    ensures 0 <= v0 * 4 + v1 / 16 < 256 && 0 <= v1 % 16 * 16 + v2 / 4 < 256 && 0 <= v2 % 4 * 64 + v3 < 256
    ensures var b0, b1, b2 := v0 * 4 + v1 / 16, v1 % 16 * 16 + v2 / 4, v2 % 4 * 64 + v3;
      b0 / 4 == v0 && b0 % 4 * 16 + b1 / 16 == v1 && b1 % 16 * 4 + b2 / 64 == v2 && b2 % 64 == v3
  {
  }

  lemma GroupEncodesSextets(v0: sextet, v1: sextet, v2: sextet, v3: sextet)
    ensures 0 <= v0 * 4 + v1 / 16 < 256 && 0 <= v1 % 16 * 16 + v2 / 4 < 256 && 0 <= v2 % 4 * 64 + v3 < 256
    ensures EncodeGroup(v0 * 4 + v1 / 16, v1 % 16 * 16 + v2 / 4, v2 % 4 * 64 + v3) == [SymbolOf(v0), SymbolOf(v1), SymbolOf(v2), SymbolOf(v3)]
  {
    GroupFromSextets(v0, v1, v2, v3);
  }

  lemma TwoFromSextets(v0: sextet, v1: sextet, v2: sextet)
    requires v2 % 4 == 0
    ensures 0 <= v0 * 4 + v1 / 16 < 256 && 0 <= v1 % 16 * 16 + v2 / 4 < 256
    ensures var b0, b1 := v0 * 4 + v1 / 16, v1 % 16 * 16 + v2 / 4;
      b0 / 4 == v0 && b0 % 4 * 16 + b1 / 16 == v1 && b1 % 16 * 4 == v2
  {
  }

  lemma OneFromSextets(v0: sextet, v1: sextet)
    requires v1 % 16 == 0
    ensures 0 <= v0 * 4 + v1 / 16 < 256
    ensures var b0 := v0 * 4 + v1 / 16; b0 / 4 == v0 && b0 % 4 * 16 == v1
  {
  }

  lemma GroupToSextets(b0: byte, b1: byte, b2: byte)
    ensures var v0, v1, v2, v3 := b0 / 4, b0 % 4 * 16 + b1 / 16, b1 % 16 * 4 + b2 / 64, b2 % 64;
      0 <= v1 < 64 && 0 <= v2 < 64 &&
      v0 * 4 + v1 / 16 == b0 && v1 % 16 * 16 + v2 / 4 == b1 && v2 % 4 * 64 + v3 == b2
  {
  }

  lemma TwoToSextets(b0: byte, b1: byte)
    ensures var v0, v1, v2 := b0 / 4, b0 % 4 * 16 + b1 / 16, b1 % 16 * 4;
      0 <= v1 < 64 && 0 <= v2 < 64 && v2 % 4 == 0 &&
      v0 * 4 + v1 / 16 == b0 && v1 % 16 * 16 + v2 / 4 == b1
  {
  }

  lemma OneToSextets(b0: byte)
    ensures var v0, v1 := b0 / 4, b0 % 4 * 16;
      0 <= v1 < 64 && v1 % 16 == 0 && v0 * 4 + v1 / 16 == b0
  {
  }

  /** Decoding succeeds exactly on the canonical base64 texts. */
  lemma DecodeOkIff(s: string)
    ensures Decode(s).Ok? <==> IsBase64(s)
  {
    if IsBase64(s) {
      var b: seq<byte> :| Encode(b) == s;
      DecodeEncode(b);
    }
  }

  /** The lowercase hexadecimal digit for a 4-bit value. */
  function HexDigit(v: int): (c: char)
    requires 0 <= v < 16
    ensures IsLowerHexDigit(c)
  {
    if v < 10 then ('0' as int + v) as char else ('a' as int + (v - 10)) as char
  }

  predicate IsLowerHexDigit(c: char) {
    '0' <= c <= '9' || 'a' <= c <= 'f'
  }

  /** The 4-bit value of a lowercase hexadecimal digit. */
  function HexDigitValue(c: char): (v: nat)
    requires IsLowerHexDigit(c)
    ensures v < 16 && HexDigit(v) == c
  {
    if c <= '9' then c as int - '0' as int else c as int - 'a' as int + 10
  }

  /** `hex::encode`: two lowercase digits per byte, high nibble first. */
  function Hex(b: seq<byte>): (s: string)
    ensures |s| == 2 * |b|
    ensures forall i :: 0 <= i < |s| ==> IsLowerHexDigit(s[i])
  {
    if b == [] then [] else [HexDigit(b[0] / 16), HexDigit(b[0] % 16)] + Hex(b[1..])
  }

  /** The bytes an even-length lowercase hexadecimal text names; the
      specification's inverse of `Hex`. */
  function HexDecode(s: string): Option<seq<byte>>
    decreases |s|
  {
    if s == [] then Some([])
    else if |s| == 1 || !IsLowerHexDigit(s[0]) || !IsLowerHexDigit(s[1]) then None
    else
      match HexDecode(s[2..])
      case None => None
      case Some(rest) => Some([HexDigitValue(s[0]) * 16 + HexDigitValue(s[1])] + rest)
  }

  lemma {:induction false} HexDecodeHex(b: seq<byte>)
    ensures HexDecode(Hex(b)) == Some(b)
    decreases |b|
  {
    if b != [] {
      var s := Hex(b);
      assert s[2..] == Hex(b[1..]);
      HexDecodeHex(b[1..]);
      HexDigitsDecode(b[0]);
      assert [b[0]] + b[1..] == b;
    }
  }

  lemma HexDigitsDecode(b: byte)
    ensures HexDigitValue(HexDigit(b / 16)) * 16 + HexDigitValue(HexDigit(b % 16)) == b
  {
  }

  /** `base64_to_hex`: the lowercase hexadecimal form of the bytes a standard
      base64 text encodes. It fails exactly on the texts that are not
      canonical base64, and on success the hexadecimal names the very bytes
      whose base64 encoding is the input. */
  function Base64ToHex(s: string): (r: Result<string, DecodeError>)
    ensures r.Ok? <==> IsBase64(s)
    ensures r.Ok? ==> forall i :: 0 <= i < |r.value| ==> IsLowerHexDigit(r.value[i])
    ensures r.Ok? ==>
      && HexDecode(r.value).Some?
      && |r.value| == 2 * |HexDecode(r.value).value|
      && Encode(HexDecode(r.value).value) == s
  {
    var d := Decode(s);
    DecodeOkIff(s);
    if d.Err? then Err(d.error)
    else
      var h := Hex(d.value);
      HexDecodeHex(d.value);
      assert HexDecode(h) == Some(d.value);
      Ok(h)
  }

  /** Any bytes, base64-encoded and passed through the codec, come out as
      their hexadecimal form. */
  lemma Base64ToHexEncode(b: seq<byte>)
    ensures Base64ToHex(Encode(b)) == Ok(Hex(b))
  {
    DecodeEncode(b);
  }
}
