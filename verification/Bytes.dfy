/** Bytes, byte orders and the hexadecimal texts U-Boot exchanges with the server. */
module Bytes {
  type byte = x: int | 0 <= x < 256
  type word = x: int | 0 <= x < 0x1_0000_0000
  type bytes = seq<byte>

  function Fill(n: nat, b: byte): (r: bytes)
    ensures |r| == n && forall i :: 0 <= i < n ==> r[i] == b
  {
    seq(n, _ => b)
  }

  /** `base` with `data` written over it from `at` on. */
  function Splice(base: bytes, at: nat, data: bytes): (r: bytes)
    requires at + |data| <= |base|
    ensures |r| == |base|
    ensures r[at..at + |data|] == data
    ensures forall i {:trigger r[i]} :: 0 <= i < |base| && !(at <= i < at + |data|) ==> r[i] == base[i]
  {
    base[..at] + data + base[at + |data|..]
  }

  function Reverse(b: bytes): (r: bytes)
    ensures |r| == |b| && forall i :: 0 <= i < |b| ==> r[i] == b[|b| - 1 - i]
  {
    seq(|b|, i requires 0 <= i < |b| => b[|b| - 1 - i])
  }

  // ----- bitwise and, the only way a NOR write can change a byte -----

  function AndBits(a: nat, b: nat, width: nat): nat {
    if width == 0 then 0 else 2 * AndBits(a / 2, b / 2, width - 1) + (if a % 2 == 1 && b % 2 == 1 then 1 else 0)
  }

  function Pow2(k: nat): (r: nat)
    ensures r >= 1
  {
    if k == 0 then 1 else 2 * Pow2(k - 1)
  }

  lemma {:induction false} AndBitsBound(a: nat, b: nat, width: nat)
    ensures AndBits(a, b, width) < Pow2(width)
  {
    if width > 0 {
      AndBitsBound(a / 2, b / 2, width - 1);
    }
  }

  lemma {:induction false} AndBitsOnes(b: nat, width: nat)
    requires b < Pow2(width)
    ensures AndBits(Pow2(width) - 1, b, width) == b
  {
    if width > 0 {
      assert (Pow2(width) - 1) / 2 == Pow2(width - 1) - 1 && (Pow2(width) - 1) % 2 == 1;
      AndBitsOnes(b / 2, width - 1);
    }
  }

  function And(a: byte, b: byte): byte {
    AndBitsBound(a, b, 8);
    assert Pow2(8) == 256;
    AndBits(a, b, 8)
  }

  /** Writing over an erased byte stores the value as given. */
  lemma AndErased(b: byte)
    ensures And(0xFF, b) == b
  {
    assert Pow2(8) == 256;
    AndBitsOnes(b, 8);
  }

  function AndAll(a: bytes, b: bytes): (r: bytes)
    requires |a| == |b|
    ensures |r| == |a| && forall i :: 0 <= i < |a| ==> r[i] == And(a[i], b[i])
  {
    seq(|a|, i requires 0 <= i < |a| => And(a[i], b[i]))
  }

  // ----- byte orders -----

  function Pow256(k: nat): (r: nat)
    ensures r >= 1
  {
    if k == 0 then 1 else 256 * Pow256(k - 1)
  }

  /** The `k` low bytes of `n`, most significant first. */
  function BigEndian(n: nat, k: nat): (r: bytes)
    ensures |r| == k
  {
    if k == 0 then [] else BigEndian(n / 256, k - 1) + [n % 256]
  }

  function FromBig(b: bytes): nat {
    if b == [] then 0 else 256 * FromBig(b[..|b| - 1]) + b[|b| - 1]
  }

  function LittleEndian(n: nat, k: nat): (r: bytes)
    ensures |r| == k
  {
    Reverse(BigEndian(n, k))
  }

  function FromLittle(b: bytes): nat {
    FromBig(Reverse(b))
  }

  lemma {:induction false} FromBigOfBigEndian(n: nat, k: nat)
    requires n < Pow256(k)
    ensures FromBig(BigEndian(n, k)) == n
  {
    if k > 0 {
      FromBigOfBigEndian(n / 256, k - 1);
      var b := BigEndian(n, k);
      assert b[..|b| - 1] == BigEndian(n / 256, k - 1);
    }
  }

  lemma {:induction false} FromBigBound(b: bytes)
    ensures FromBig(b) < Pow256(|b|)
  {
    if b != [] {
      FromBigBound(b[..|b| - 1]);
    }
  }

  lemma {:induction false} BigEndianOfFromBig(b: bytes)
    ensures BigEndian(FromBig(b), |b|) == b
  {
    if b != [] {
      BigEndianOfFromBig(b[..|b| - 1]);
      assert FromBig(b) / 256 == FromBig(b[..|b| - 1]);
      assert b == b[..|b| - 1] + [b[|b| - 1]];
    }
  }

  lemma ReverseTwice(b: bytes)
    ensures Reverse(Reverse(b)) == b
  {
  }

  lemma FromLittleOfLittleEndian(n: nat, k: nat)
    requires n < Pow256(k)
    ensures FromLittle(LittleEndian(n, k)) == n
  {
    ReverseTwice(BigEndian(n, k));
    FromBigOfBigEndian(n, k);
  }

  lemma LittleEndianOfFromLittle(b: bytes)
    ensures LittleEndian(FromLittle(b), |b|) == b
  {
    BigEndianOfFromBig(Reverse(b));
    ReverseTwice(b);
  }

  lemma Pow256Four()
    ensures Pow256(4) == 0x1_0000_0000
  {
  }

  // ----- hexadecimal texts -----

  function Digit(v: nat): (c: char)
    requires v < 16
    ensures HexDigit(c) && DigitValue(c) == v
  {
    if v < 10 then '0' + (v as char) else 'a' + ((v - 10) as char)
  }

  predicate HexDigit(c: char) {
    '0' <= c <= '9' || 'a' <= c <= 'f' || 'A' <= c <= 'F'
  }

  function DigitValue(c: char): (v: nat)
    requires HexDigit(c)
    ensures v < 16
  {
    if c <= '9' then c as int - '0' as int
    else if c <= 'F' then c as int - 'A' as int + 10
    else c as int - 'a' as int + 10
  }

  predicate AllHex(s: string) {
    forall i :: 0 <= i < |s| ==> HexDigit(s[i])
  }

  function HexValue(s: string): nat
    requires AllHex(s)
  {
    if s == "" then 0 else 16 * HexValue(s[..|s| - 1]) + DigitValue(s[|s| - 1])
  }

  /** What `%lx` prints: no prefix and no leading zeros. */
  function HexText(n: nat): (s: string)
    ensures s != "" && AllHex(s) && HexValue(s) == n
  {
    if n < 16 then [Digit(n)] else
      var s := HexText(n / 16) + [Digit(n % 16)];
      assert s[..|s| - 1] == HexText(n / 16);
      s
  }

  /** What Python's `hex` prints. */
  function HexLiteral(n: nat): string {
    "0x" + HexText(n)
  }

  lemma {:induction false} HexTextLength(n: nat, k: nat)
    requires k >= 1 && n < Pow16(k)
    ensures |HexText(n)| <= k
  {
    if n >= 16 {
      assert k >= 2;
      HexTextLength(n / 16, k - 1);
    }
  }

  function Pow16(k: nat): (r: nat)
    ensures r >= 1
  {
    if k == 0 then 1 else 16 * Pow16(k - 1)
  }

  /** Python's `str.zfill` on a text without a sign. */
  function ZFill(s: string, width: nat): (r: string)
    ensures |r| == if |s| >= width then |s| else width
    decreases width - |s|
  {
    if |s| >= width then s else ZFill("0" + s, width)
  }

  lemma {:induction false} LeadingZero(s: string)
    requires AllHex(s)
    ensures AllHex("0" + s) && HexValue("0" + s) == HexValue(s)
  {
    var t := "0" + s;
    if s == "" {
      assert t[..0] == "";
    } else {
      LeadingZero(s[..|s| - 1]);
      assert t[..|t| - 1] == "0" + s[..|s| - 1];
    }
  }

  lemma {:induction false} ZFillValue(s: string, width: nat)
    requires AllHex(s)
    ensures AllHex(ZFill(s, width)) && HexValue(ZFill(s, width)) == HexValue(s)
    decreases width - |s|
  {
    if |s| < width {
      LeadingZero(s);
      ZFillValue("0" + s, width);
    }
  }

  /** Python's `bytes.fromhex` on a text of an even number of digits. */
  function FromHex(s: string): (r: bytes)
    requires AllHex(s) && |s| % 2 == 0
  {
    if s == "" then [] else
      FromHex(s[..|s| - 2]) + [16 * DigitValue(s[|s| - 2]) + DigitValue(s[|s| - 1])]
  }

  lemma {:induction false} FromHexIsBigEndian(s: string)
    requires AllHex(s) && |s| % 2 == 0
    ensures FromHex(s) == BigEndian(HexValue(s), |s| / 2)
  {
    if s != "" {
      var front := s[..|s| - 2];
      FromHexIsBigEndian(front);
      assert s[..|s| - 1][..|s| - 2] == front;
      assert HexValue(s[..|s| - 1]) == 16 * HexValue(front) + DigitValue(s[|s| - 2]);
      var low := 16 * DigitValue(s[|s| - 2]) + DigitValue(s[|s| - 1]);
      assert HexValue(s) == 256 * HexValue(front) + low;
      assert HexValue(s) / 256 == HexValue(front) && HexValue(s) % 256 == low;
    }
  }

  /** Padding a word's text to eight digits and decoding it gives its big-endian bytes. */
  lemma WordText(n: word)
    ensures |HexText(n)| <= 8
    ensures AllHex(ZFill(HexText(n), 8)) && |ZFill(HexText(n), 8)| == 8
    ensures FromHex(ZFill(HexText(n), 8)) == BigEndian(n, 4)
  {
    assert Pow16(8) == 0x1_0000_0000;
    HexTextLength(n, 8);
    ZFillValue(HexText(n), 8);
    FromHexIsBigEndian(ZFill(HexText(n), 8));
  }
}
