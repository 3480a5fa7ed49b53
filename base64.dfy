/** `btoa`: the base64 encoding of section 4 of RFC 4648 (alphabet A-Z, a-z,
    0-9, '+', '/', padded with '=') applied to a string whose characters are
    all at most U+00FF, each taken as one byte. Any other character makes
    `btoa` throw, which is `None` here. */
module Base64 {
  import opened Wrappers

  const Pad := '='

  predicate IsLatin1(s: string) {
    forall i :: 0 <= i < |s| ==> s[i] as int < 256
  }

  /** The alphabet character for a 6-bit value. */
  function Sextet(v: nat): (c: char)
    requires v < 64
    ensures SextetValue(c) == v && c != Pad
  {
    if v < 26 then ('A' as int + v) as char
    else if v < 52 then ('a' as int + (v - 26)) as char
    else if v < 62 then ('0' as int + (v - 52)) as char
    else if v == 62 then '+'
    else '/'
  }

  /** The 6-bit value of an alphabet character. */
  function SextetValue(c: char): (v: nat)
    ensures v < 64
  {
    if 'A' <= c <= 'Z' then c as int - 'A' as int
    else if 'a' <= c <= 'z' then c as int - 'a' as int + 26
    else if '0' <= c <= '9' then c as int - '0' as int + 52
    else if c == '+' then 62
    else 63
  }

  /** Three bytes become four characters. */
  function EncodeTriple(a: nat, b: nat, c: nat): string
    requires a < 256 && b < 256 && c < 256
  {
    [Sextet(a / 4), Sextet((a % 4) * 16 + b / 16), Sextet((b % 16) * 4 + c / 64), Sextet(c % 64)]
  }

  /** A final pair of bytes: three characters and one pad. */
  function EncodePair(a: nat, b: nat): string
    requires a < 256 && b < 256
  {
    [Sextet(a / 4), Sextet((a % 4) * 16 + b / 16), Sextet((b % 16) * 4), Pad]
  }

  /** A final single byte: two characters and two pads. */
  function EncodeSingle(a: nat): string
    requires a < 256
  {
    [Sextet(a / 4), Sextet((a % 4) * 16), Pad, Pad]
  }

  function Encode(s: string): (e: string)
    requires IsLatin1(s)
    ensures |e| == 4 * ((|s| + 2) / 3)
  {
    if |s| == 0 then ""
    else if |s| == 1 then EncodeSingle(s[0] as int)
    else if |s| == 2 then EncodePair(s[0] as int, s[1] as int)
    else EncodeTriple(s[0] as int, s[1] as int, s[2] as int) + Encode(s[3..])
  }

  /** `btoa(s)`: fails exactly when some character is above U+00FF. */
  function Btoa(s: string): (r: Option<string>)
    ensures r.Some? <==> IsLatin1(s)
  {
    if IsLatin1(s) then Some(Encode(s)) else None
  }

  /** One group of four characters back to one, two or three bytes. */
  function DecodeQuad(g: string): string
    requires |g| == 4
  {
    var v0, v1, v2, v3 := SextetValue(g[0]), SextetValue(g[1]), SextetValue(g[2]), SextetValue(g[3]);
    var a := v0 * 4 + v1 / 16;
    var b := (v1 % 16) * 16 + v2 / 4;
    var c := (v2 % 4) * 64 + v3;
    if g[2] == Pad then [a as char]
    else if g[3] == Pad then [a as char, b as char]
    else [a as char, b as char, c as char]
  }

  /** `atob`: the inverse of the encoding on well-formed input. */
  function Atob(e: string): string
    decreases |e|
  {
    if |e| < 4 then "" else DecodeQuad(e[..4]) + Atob(e[4..])
  }

  lemma DecodeTriple(a: nat, b: nat, c: nat)
    requires a < 256 && b < 256 && c < 256
    ensures DecodeQuad(EncodeTriple(a, b, c)) == [a as char, b as char, c as char]
  {
    var v1 := (a % 4) * 16 + b / 16;
    var v2 := (b % 16) * 4 + c / 64;
    assert v1 / 16 == a % 4 && v1 % 16 == b / 16;
    assert v2 / 4 == b % 16 && v2 % 4 == c / 64;
  }

  lemma DecodePair(a: nat, b: nat)
    requires a < 256 && b < 256
    ensures DecodeQuad(EncodePair(a, b)) == [a as char, b as char]
  {
    var v1 := (a % 4) * 16 + b / 16;
    var v2 := (b % 16) * 4;
    assert v1 / 16 == a % 4 && v1 % 16 == b / 16;
    assert v2 / 4 == b % 16;
  }

  lemma DecodeSingle(a: nat)
    requires a < 256
    ensures DecodeQuad(EncodeSingle(a)) == [a as char]
  {
    var v1 := (a % 4) * 16;
    assert v1 / 16 == a % 4;
  }

  /** Decoding undoes encoding. */
  lemma {:induction false} AtobEncode(s: string)
    requires IsLatin1(s)
    ensures Atob(Encode(s)) == s
  {
    if |s| == 1 {
      DecodeSingle(s[0] as int);
      assert EncodeSingle(s[0] as int)[..4] == EncodeSingle(s[0] as int);
    } else if |s| == 2 {
      DecodePair(s[0] as int, s[1] as int);
      assert EncodePair(s[0] as int, s[1] as int)[..4] == EncodePair(s[0] as int, s[1] as int);
    } else if |s| >= 3 {
      var head := EncodeTriple(s[0] as int, s[1] as int, s[2] as int);
      var e := Encode(s);
      assert e[..4] == head;
      assert e[4..] == Encode(s[3..]);
      DecodeTriple(s[0] as int, s[1] as int, s[2] as int);
      AtobEncode(s[3..]);
      assert s == s[..3] + s[3..];
    }
  }

  /** Two strings that both encode encode to the same text only if they are equal. */
  lemma BtoaInjective(s: string, t: string)
    requires Btoa(s).Some? && Btoa(s) == Btoa(t)
    ensures s == t
  {
    AtobEncode(s);
    AtobEncode(t);
  }
}
