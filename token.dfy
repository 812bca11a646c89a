/**
  The unsubscribe-token generator: `crypto.randomBytes(32).toString('hex')`.
  The random bytes are a parameter (the entropy source is outside the model);
  the encoding is lower-case hexadecimal, two characters per byte.
 */
module Token {

  type Byte = b: int | 0 <= b < 256

  /** What `crypto.randomBytes(32)` returns. */
  type Bytes32 = s: seq<Byte> | |s| == 32 witness seq(32, i => 0)

  /** One of the characters 0-9, a-f. */
  predicate IsHexChar(c: char) {
    ('0' <= c <= '9') || ('a' <= c <= 'f')
  }

  /** A token of the designed format: 64 lower-case hex characters. */
  predicate IsToken(t: string) {
    |t| == 64 && forall i :: 0 <= i < |t| ==> IsHexChar(t[i])
  }

  function HexChar(d: int): (c: char)
    requires 0 <= d < 16
    ensures IsHexChar(c)
  {
    if d < 10 then ('0' as int + d) as char else ('a' as int + d - 10) as char
  }

  /** The value of one lower-case hex digit. */
  function HexValue(c: char): (d: int)
    requires IsHexChar(c)
    ensures 0 <= d < 16 && HexChar(d) == c
  {
    if '0' <= c <= '9' then c as int - '0' as int else c as int - 'a' as int + 10
  }

  /** `Buffer.toString('hex')`. */
  function HexEncode(bytes: seq<Byte>): (r: string)
    ensures |r| == 2 * |bytes|
    ensures forall i :: 0 <= i < |r| ==> IsHexChar(r[i])
  {
    if bytes == [] then ""
    else [HexChar(bytes[0] / 16), HexChar(bytes[0] % 16)] + HexEncode(bytes[1..])
  }

  /** `Buffer.from(s, 'hex')`, the partner of HexEncode. */
  function HexDecode(s: string): seq<Byte>
    requires |s| % 2 == 0
    requires forall i :: 0 <= i < |s| ==> IsHexChar(s[i])
  {
    if s == [] then []
    else [HexValue(s[0]) * 16 + HexValue(s[1])] + HexDecode(s[2..])
  }

  /** Decoding a hex encoding gives the bytes back. */
  lemma {:induction false} HexRoundTrip(bytes: seq<Byte>)
    ensures HexDecode(HexEncode(bytes)) == bytes
  {
    if bytes != [] {
      var s := HexEncode(bytes);
      var b := bytes[0];
      var hi, lo := b / 16, b % 16;
      assert s[0] == HexChar(hi) && s[1] == HexChar(lo);
      assert s[2..] == HexEncode(bytes[1..]);
      HexRoundTrip(bytes[1..]);
      HexValueOfChar(hi);
      HexValueOfChar(lo);
      assert hi * 16 + lo == b;
      assert HexDecode(s) == [HexValue(s[0]) * 16 + HexValue(s[1])] + HexDecode(s[2..]);
    }
  }

  /** Reading a digit back gives its value. */
  lemma HexValueOfChar(d: int)
    requires 0 <= d < 16
    ensures HexValue(HexChar(d)) == d
  {
  }

  /** Distinct random bytes give distinct tokens. */
  lemma HexEncodeInjective(a: seq<Byte>, b: seq<Byte>)
    requires HexEncode(a) == HexEncode(b)
    ensures a == b
  {
    HexRoundTrip(a);
    HexRoundTrip(b);
  }

  /** The generator's output: a token of the designed format. */
  function Generate(random: Bytes32): (t: string)
    ensures IsToken(t)
  {
    HexEncode(random)
  }
}
