/** The two text encodings of signature bytes: base64 (section 4 of RFC 4648) as `Buffer` writes and
    reads it, and hex as `Buffer` reads it. */
module Base64 {
  import opened Text

  type Byte = b: int | 0 <= b < 256
  type Bytes = seq<Byte>

  /** The base64 alphabet. */
  function Digit(n: nat): char
    requires n < 64
  {
    if n < 26 then ('A' as int + n) as char
    else if n < 52 then ('a' as int + n - 26) as char
    else if n < 62 then ('0' as int + n - 52) as char
    else if n == 62 then '+' else '/'
  }

  /** The value of a character when decoding, -1 for a character the decoder skips. `Buffer` also
      accepts the URL-safe alphabet. */
  function Value(c: char): (v: int)
    ensures -1 <= v < 64
  {
    if 'A' <= c <= 'Z' then c as int - 'A' as int
    else if 'a' <= c <= 'z' then c as int - 'a' as int + 26
    else if '0' <= c <= '9' then c as int - '0' as int + 52
    else if c == '+' || c == '-' then 62
    else if c == '/' || c == '_' then 63
    else -1
  }

  type Sextet = n: int | 0 <= n < 64

  function Encode(bytes: Bytes): string {
    if bytes == [] then ""
    else if |bytes| == 1 then [Digit(bytes[0] / 4), Digit(bytes[0] % 4 * 16), '=', '=']
    else if |bytes| == 2 then
      [Digit(bytes[0] / 4), Digit(bytes[0] % 4 * 16 + bytes[1] / 16), Digit(bytes[1] % 16 * 4), '=']
    else
      [Digit(bytes[0] / 4), Digit(bytes[0] % 4 * 16 + bytes[1] / 16),
       Digit(bytes[1] % 16 * 4 + bytes[2] / 64), Digit(bytes[2] % 64)] + Encode(bytes[3..])
  }

  /** The values of the characters the decoder does not skip. */
  function Sextets(s: string): seq<Sextet> {
    if s == "" then []
    else if Value(s[0]) == -1 then Sextets(s[1..])
    else [Value(s[0])] + Sextets(s[1..])
  }

  // The three bytes that four sextets carry.

  function Byte0(a: int, b: int): Byte
    requires 0 <= a < 64 && 0 <= b < 64
  {
    a * 4 + b / 16
  }

  function Byte1(b: int, c: int): Byte
    requires 0 <= b < 64 && 0 <= c < 64
  {
    b % 16 * 16 + c / 4
  }

  function Byte2(c: int, d: int): Byte
    requires 0 <= c < 64 && 0 <= d < 64
  {
    c % 4 * 64 + d
  }

  function Pack(v: seq<Sextet>): Bytes {
    if |v| < 2 then []
    else if |v| == 2 then [Byte0(v[0], v[1])]
    else if |v| == 3 then [Byte0(v[0], v[1]), Byte1(v[1], v[2])]
    else [Byte0(v[0], v[1]), Byte1(v[1], v[2]), Byte2(v[2], v[3])] + Pack(v[4..])
  }

  /** `Buffer.from(s, 'base64')` */
  function Decode(s: string): Bytes {
    Pack(Sextets(s))
  }

  function HexValue(c: char): (v: int)
    ensures -1 <= v < 16
  {
    if '0' <= c <= '9' then c as int - '0' as int
    else if 'a' <= c <= 'f' then c as int - 'a' as int + 10
    else if 'A' <= c <= 'F' then c as int - 'A' as int + 10
    else -1
  }

  /** `Buffer.from(s, 'hex')`: whole pairs, up to the first pair that is not hex. */
  function DecodeHex(s: string): (r: Bytes)
    ensures 2 * |r| <= |s|
  {
    if |s| < 2 || HexValue(s[0]) == -1 || HexValue(s[1]) == -1 then []
    else [HexValue(s[0]) * 16 + HexValue(s[1])] + DecodeHex(s[2..])
  }

  /** How the verifier and the executor both read a signature string: a leading `0x` means hex. */
  function DecodeSignature(s: string): Bytes {
    if StartsWith(s, "0x") then DecodeHex(s[2..]) else Decode(s)
  }

  lemma DigitValue(n: nat)
    requires n < 64
    ensures Value(Digit(n)) == n && Digit(n) != '='
  {
  }

  lemma {:induction false} SextetsOfAppend(s: string, t: string)
    ensures Sextets(s + t) == Sextets(s) + Sextets(t)
  {
    if s == "" {
      assert s + t == t;
    } else {
      assert (s + t)[1..] == s[1..] + t;
      SextetsOfAppend(s[1..], t);
    }
  }

  lemma PackedBytes(x: Byte, y: Byte, z: Byte)
    ensures Byte0(x / 4, x % 4 * 16 + y / 16) == x
    ensures Byte1(x % 4 * 16 + y / 16, y % 16 * 4 + z / 64) == y
    ensures Byte2(y % 16 * 4 + z / 64, z % 64) == z
  {
  }

  /** Decoding undoes encoding, for every byte sequence. */
  lemma {:induction false} DecodeEncode(bytes: Bytes)
    ensures Decode(Encode(bytes)) == bytes
    decreases |bytes|
  {
    hide Decode, Digit;
    if bytes == [] {
      DecodeNothing();
    } else if |bytes| == 1 {
      DecodeOne(bytes[0]);
      assert bytes == [bytes[0]];
    } else if |bytes| == 2 {
      DecodeTwo(bytes[0], bytes[1]);
      assert bytes == [bytes[0], bytes[1]];
    } else if |bytes| >= 3 {
      DecodeGroup(bytes[0], bytes[1], bytes[2], Encode(bytes[3..]));
      DecodeEncode(bytes[3..]);
      assert bytes == [bytes[0], bytes[1], bytes[2]] + bytes[3..];
    }
  }

  lemma DecodeNothing()
    ensures Decode("") == []
  {
  }

  lemma DecodeOne(x: Byte)
    ensures Decode([Digit(x / 4), Digit(x % 4 * 16), '=', '=']) == [x]
  {
    SextetsOf4(Digit(x / 4), Digit(x % 4 * 16), '=', '=');
    PackedBytes(x, 0, 0);
    assert Sextets([Digit(x / 4), Digit(x % 4 * 16), '=', '=']) == [x / 4, x % 4 * 16];
  }

  lemma DecodeTwo(x: Byte, y: Byte)
    ensures Decode([Digit(x / 4), Digit(x % 4 * 16 + y / 16), Digit(y % 16 * 4), '=']) == [x, y]
  {
    var a, b, c := x / 4, x % 4 * 16 + y / 16, y % 16 * 4;
    SextetsOf4(Digit(a), Digit(b), Digit(c), '=');
    PackedBytes(x, y, 0);
    assert Sextets([Digit(a), Digit(b), Digit(c), '=']) == [a, b, c];
  }

  lemma DecodeGroup(x: Byte, y: Byte, z: Byte, rest: string)
    ensures Decode([Digit(x / 4), Digit(x % 4 * 16 + y / 16), Digit(y % 16 * 4 + z / 64), Digit(z % 64)] + rest)
            == [x, y, z] + Decode(rest)
  {
    hide Value;
    DigitValue(x / 4); DigitValue(x % 4 * 16 + y / 16); DigitValue(y % 16 * 4 + z / 64); DigitValue(z % 64);
    var a, b, c, d := x / 4, x % 4 * 16 + y / 16, y % 16 * 4 + z / 64, z % 64;
    var group := [Digit(a), Digit(b), Digit(c), Digit(d)];
    SextetsOf4(Digit(a), Digit(b), Digit(c), Digit(d));
    SextetsOfAppend(group, rest);
    PackedBytes(x, y, z);
    var v := Sextets(group + rest);
    assert Sextets(group) == [a, b, c, d];
    assert v[4..] == Sextets(rest);
  }

  lemma SextetsOf4(a: char, b: char, c: char, d: char)
    requires Value(a) != -1 && Value(b) != -1
    requires Value(c) == -1 ==> Value(d) == -1
    ensures Sextets([a, b, c, d]) ==
            [Value(a), Value(b)] + (if Value(c) == -1 then [] else [Value(c)]) + (if Value(d) == -1 then [] else [Value(d)])
  {
    var s := [a, b, c, d];
    assert s[1..] == [b, c, d] && s[1..][1..] == [c, d] && s[1..][1..][1..] == [d] && s[1..][1..][1..][1..] == [];
    assert Sextets([]) == [];
    assert Sextets([d]) == if Value(d) == -1 then [] else [Value(d)];
    assert Sextets([c, d]) == (if Value(c) == -1 then [] else [Value(c)]) + Sextets([d]);
  }

  lemma {:induction false} EncodeLength(bytes: Bytes)
    ensures |Encode(bytes)| % 4 == 0
    ensures 3 * |Encode(bytes)| <= 4 * |bytes| + 8
    ensures bytes != [] ==> |Encode(bytes)| >= 4
    decreases |bytes|
  {
    hide Digit;
    if |bytes| >= 3 {
      EncodeLength(bytes[3..]);
    }
  }

  /** The leading twelve bits of `bytes` are those that base64 writes as "0x". */
  predicate Looks0x(bytes: Bytes) {
    |bytes| >= 2 && bytes[0] == 0xD3 && bytes[1] / 16 == 1
  }

  lemma EncodesAs0x(bytes: Bytes)
    ensures StartsWith(Encode(bytes), "0x") <==> Looks0x(bytes)
  {
    var s := Encode(bytes);
    if bytes != [] {
      EncodeLength(bytes);
      assert s[..2] == [s[0], s[1]];
      assert s[0] == Digit(bytes[0] / 4);
      assert Digit(52) == '0' && Digit(49) == 'x';
      DigitValue(bytes[0] / 4);
      if |bytes| == 1 {
        DigitValue(bytes[0] % 4 * 16);
      } else {
        DigitValue(bytes[0] % 4 * 16 + bytes[1] / 16);
      }
    }
  }

  /** A base64 signature is read back as the bytes it encodes exactly when those bytes do not begin
      with the twelve bits that base64 writes as "0x". */
  lemma SignatureSurvivesDecoding(bytes: Bytes)
    ensures DecodeSignature(Encode(bytes)) == bytes <==> !Looks0x(bytes)
  {
    EncodesAs0x(bytes);
    if Looks0x(bytes) {
      EncodeLength(bytes);
      assert 2 * |DecodeHex(Encode(bytes)[2..])| <= |Encode(bytes)| - 2;
    } else {
      DecodeEncode(bytes);
    }
  }

  /** The alphabet of section 4 of RFC 4648, in its order; the text form of a signature uses no other
      characters. */
  lemma AlphabetIsStandard(n: nat)
    requires n < 64
    ensures n < 26 ==> Digit(n) == "ABCDEFGHIJKLMNOPQRSTUVWXYZ"[n]
    ensures 26 <= n < 52 ==> Digit(n) == "abcdefghijklmnopqrstuvwxyz"[n - 26]
    ensures 52 <= n < 62 ==> Digit(n) == "0123456789"[n - 52]
    ensures n == 62 ==> Digit(n) == '+'
    ensures n == 63 ==> Digit(n) == '/'
  {
  }

  /** The test vectors of section 10 of RFC 4648: "f", "fo", "foo" and "foobar". */
  lemma StandardVectors()
    ensures Encode([102]) == "Zg==" && Encode([102, 111]) == "Zm8=" && Encode([102, 111, 111]) == "Zm9v"
    ensures Encode([102, 111, 111, 98, 97, 114]) == "Zm9vYmFy"
  {
    assert [102, 111, 111, 98, 97, 114][3..] == [98, 97, 114];
    assert [102, 111, 111][3..] == [] && [98, 97, 114][3..] == [];
  }

  /** `high` and `low` are the two hex digits of `b`, in either case. */
  predicate HexDigitsOf(b: Byte, high: char, low: char) {
    && (high == "0123456789abcdef"[b / 16] || high == "0123456789ABCDEF"[b / 16])
    && (low == "0123456789abcdef"[b % 16] || low == "0123456789ABCDEF"[b % 16])
  }

  predicate HexDigitsOfAll(bytes: Bytes, s: string) {
    |s| == 2 * |bytes| && forall i :: 0 <= i < |bytes| ==> HexDigitsOf(bytes[i], s[2 * i], s[2 * i + 1])
  }

  lemma HexDigitValues(b: Byte, high: char, low: char)
    requires HexDigitsOf(b, high, low)
    ensures HexValue(high) == b / 16 && HexValue(low) == b % 16
  {
  }

  lemma {:induction false} HexIsRead(bytes: Bytes, s: string)
    requires HexDigitsOfAll(bytes, s)
    ensures DecodeHex(s) == bytes
    decreases |bytes|
  {
    hide HexDigitsOf, HexValue;
    if bytes != [] {
      assert HexDigitsOf(bytes[0], s[2 * 0], s[2 * 0 + 1]);
      HexDigitValues(bytes[0], s[0], s[1]);
      forall i | 0 <= i < |bytes| - 1 ensures HexDigitsOf(bytes[1..][i], s[2..][2 * i], s[2..][2 * i + 1]) {
        assert HexDigitsOf(bytes[i + 1], s[2 * (i + 1)], s[2 * (i + 1) + 1]);
      }
      HexIsRead(bytes[1..], s[2..]);
    }
  }

  /** A signature written as `0x` and hex, in either case, is read as the bytes it spells. */
  lemma HexSignatureIsRead(bytes: Bytes, s: string)
    requires HexDigitsOfAll(bytes, s)
    ensures DecodeSignature("0x" + s) == bytes
  {
    assert ("0x" + s)[..2] == "0x" && ("0x" + s)[2..] == s;
    HexIsRead(bytes, s);
  }
}
