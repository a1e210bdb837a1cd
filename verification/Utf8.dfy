/** UTF-8 (section 3 of RFC 3629), as far as environment values need it. */
module Utf8 {
  import opened Bytes

  /** A Unicode scalar value. */
  type CodePoint = x: int | 0 <= x < 0xD800 || 0xE000 <= x < 0x11_0000

  type Text = seq<CodePoint>

  function EncodeOne(c: CodePoint): (b: bytes)
    ensures 1 <= |b| <= 4
    ensures forall i :: 0 <= i < |b| ==> b[i] != 0xFF
    ensures forall i :: 0 <= i < |b| ==> (b[i] == 0 <==> c == 0)
  {
    if c < 0x80 then [c]
    else if c < 0x800 then [0xC0 + c / 64, 0x80 + c % 64]
    else if c < 0x1_0000 then [0xE0 + c / 4096, 0x80 + c / 64 % 64, 0x80 + c % 64]
    else [0xF0 + c / 262144, 0x80 + c / 4096 % 64, 0x80 + c / 64 % 64, 0x80 + c % 64]
  }

  /** Encoded text never contains 0xFF, and contains a zero byte only for U+0000. */
  function Encode(t: Text): (b: bytes)
    ensures 0xFF !in b
    ensures 0 in b <==> 0 in t
  {
    if t == [] then [] else
      var rest := Encode(t[1..]);
      assert t == [t[0]] + t[1..];
      EncodeOne(t[0]) + rest
  }

  const REPLACEMENT: CodePoint := 0xFFFD

  /** How many bytes a character with this lead byte takes; 1 also for bytes no character starts with. */
  function Width(lead: byte): (n: nat)
    ensures 1 <= n <= 4
  {
    if 0xC2 <= lead < 0xE0 then 2 else if 0xE0 <= lead < 0xF0 then 3 else if 0xF0 <= lead < 0xF5 then 4 else 1
  }

  predicate Continues(b: byte) {
    0x80 <= b < 0xC0
  }

  /** The second byte also rules out overlong forms, surrogates and what is beyond the last plane. */
  predicate Second(lead: byte, b: byte) {
    && Continues(b)
    && (lead == 0xE0 ==> b >= 0xA0) && (lead == 0xED ==> b < 0xA0)
    && (lead == 0xF0 ==> b >= 0x90) && (lead == 0xF4 ==> b < 0x90)
  }

  /** A well-formed character. */
  predicate Formed(b: bytes) {
    && b != [] && |b| == Width(b[0])
    && (|b| == 1 ==> b[0] < 0x80) && (|b| >= 2 ==> Second(b[0], b[1]))
    && (|b| >= 3 ==> Continues(b[2])) && (|b| >= 4 ==> Continues(b[3]))
  }

  function DecodeOne(b: bytes): CodePoint
    requires Formed(b)
  {
    if |b| == 1 then b[0]
    else if |b| == 2 then (b[0] as int - 0xC0) * 64 + (b[1] as int - 0x80)
    else if |b| == 3 then (b[0] as int - 0xE0) * 4096 + (b[1] as int - 0x80) * 64 + (b[2] as int - 0x80)
    else (b[0] as int - 0xF0) * 262144 + (b[1] as int - 0x80) * 4096 + (b[2] as int - 0x80) * 64 + (b[3] as int - 0x80)
  }

  /** How many bytes from the front are the beginning of some character; at least one is used up. */
  function Extent(b: bytes): (n: nat)
    requires b != []
    ensures 1 <= n <= |b| && n <= Width(b[0])
  {
    var width := Width(b[0]);
    if width == 1 || |b| < 2 || !Second(b[0], b[1]) then 1
    else if width == 2 || |b| < 3 || !Continues(b[2]) then 2
    else if width == 3 || |b| < 4 || !Continues(b[3]) then 3
    else 4
  }

  /** Decoding; each longest beginning of a character that is not completed gives one replacement. */
  function Decode(b: bytes): (t: Text)
    ensures |t| <= |b|
    decreases |b|
  {
    if b == [] then [] else
      var first := b[..Extent(b)];
      [if Formed(first) then DecodeOne(first) else REPLACEMENT] + Decode(b[|first|..])
  }

  lemma Digits(c: nat)
    ensures c == c / 64 * 64 + c % 64
    ensures c / 64 == c / 4096 * 64 + c / 64 % 64
    ensures c / 4096 == c / 262144 * 64 + c / 4096 % 64
  {
  }

  lemma EncodedIsFormed(c: CodePoint)
    ensures Formed(EncodeOne(c)) && DecodeOne(EncodeOne(c)) == c
  {
    Digits(c);
  }

  lemma FormedExtent(b: bytes, rest: bytes)
    requires Formed(b)
    ensures Extent(b + rest) == |b| && (b + rest)[..|b|] == b && (b + rest)[|b|..] == rest
  {
  }

  /** Decoding undoes encoding. */
  lemma {:induction false} DecodeEncode(t: Text)
    ensures Decode(Encode(t)) == t
  {
    if t != [] {
      EncodedIsFormed(t[0]);
      FormedExtent(EncodeOne(t[0]), Encode(t[1..]));
      DecodeEncode(t[1..]);
      assert t == [t[0]] + t[1..];
    }
  }
}
