/** UTF-8 validity (section 4 of RFC 3629) and the clipping of failure reasons.
    Strings the domain measures in bytes are byte sequences here. */
module Utf8 {

  type Byte = x: int | 0 <= x < 256

  type Bytes = seq<Byte>

  const MAX_LAST_ERROR_LEN := 512

  predicate IsCont(b: Byte) {
    0x80 <= b <= 0xBF
  }

  /** The range of the second byte, which excludes overlong forms, surrogates
      and values above U+10FFFF. */
  predicate SecondByteOk(lead: Byte, b: Byte) {
    if lead == 0xE0 then 0xA0 <= b <= 0xBF
    else if lead == 0xED then 0x80 <= b <= 0x9F
    else if lead == 0xF0 then 0x90 <= b <= 0xBF
    else if lead == 0xF4 then 0x80 <= b <= 0x8F
    else IsCont(b)
  }

  /** How many bytes a sequence starting with this lead byte has; 0 if no
      sequence starts with it. */
  function SequenceLength(lead: Byte): (n: nat)
    ensures n <= 4
  {
    if lead < 0x80 then 1
    else if 0xC2 <= lead <= 0xDF then 2
    else if 0xE0 <= lead <= 0xEF then 3
    else if 0xF0 <= lead <= 0xF4 then 4
    else 0
  }

  /** The length of the well-formed character `s` starts with, or 0. */
  function FirstChar(s: Bytes): (n: nat)
    ensures n <= 4 && n <= |s|
  {
    if s == [] then 0
    else
      var n := SequenceLength(s[0]);
      if n > |s| then 0
      else if n >= 2 && !SecondByteOk(s[0], s[1]) then 0
      else if n >= 3 && !IsCont(s[2]) then 0
      else if n >= 4 && !IsCont(s[3]) then 0
      else n
  }

  predicate Valid(s: Bytes)
    decreases |s|
  {
    s == [] || (FirstChar(s) > 0 && Valid(s[FirstChar(s)..]))
  }

  /** The longest valid prefix of `s` that is no longer than `cap`. */
  function LongestValidPrefix(s: Bytes, cap: nat): (r: Bytes)
    requires cap <= |s|
    ensures r <= s && |r| <= cap && Valid(r)
    ensures forall k :: |r| < k <= cap ==> !Valid(s[..k])
  {
    if Valid(s[..cap]) then s[..cap]
    else LongestValidPrefix(s, cap - 1)
  }

  function Clipped(s: Bytes): (r: Bytes)
    ensures r <= s && |r| <= MAX_LAST_ERROR_LEN
  {
    if |s| <= MAX_LAST_ERROR_LEN then s else LongestValidPrefix(s, MAX_LAST_ERROR_LEN)
  }

  /** The loop that drops one byte at a time until what is left is valid. */
  method TruncateReason(s: Bytes) returns (cut: Bytes)
    ensures cut == Clipped(s)
    ensures |s| <= 512 ==> cut == s
    ensures |s| > 512 ==> cut <= s && |cut| <= 512 && Valid(cut)
    ensures forall k :: |cut| < k <= 512 && k <= |s| ==> |s| > 512 && !Valid(s[..k])
  {
    if |s| <= MAX_LAST_ERROR_LEN {
      return s;
    }
    cut := s[..MAX_LAST_ERROR_LEN];
    while |cut| > 0 && !Valid(cut)
      invariant |cut| <= MAX_LAST_ERROR_LEN && cut == s[..|cut|]
      invariant LongestValidPrefix(s, |cut|) == LongestValidPrefix(s, MAX_LAST_ERROR_LEN)
    {
      cut := cut[..|cut| - 1];
    }
  }

  /** A character is decided by its own bytes, whatever follows them. */
  lemma FirstCharOfPrefix(s: Bytes, k: nat)
    requires 0 < FirstChar(s) <= k <= |s|
    ensures FirstChar(s[..k]) == FirstChar(s)
  {
  }

  lemma {:induction false} ConcatValid(a: Bytes, b: Bytes)
    requires FirstChar(a) == |a| > 0 && Valid(b)
    ensures Valid(a + b)
  {
    assert (a + b)[..|a|] == a;
    assert (a + b)[|a|..] == b;
  }

  /** Character boundaries are at most four bytes apart, so a valid string has
      a valid prefix within three bytes of any cut. */
  lemma {:induction false} BoundaryNear(s: Bytes, cap: nat) returns (k: nat)
    requires Valid(s) && cap <= |s|
    ensures k <= cap <= k + 3 && Valid(s[..k])
    decreases |s|
  {
    var n := FirstChar(s);
    if cap == 0 || cap < n {
      k := 0;
    } else {
      var rest := s[n..];
      var j := BoundaryNear(rest, cap - n);
      k := n + j;
      FirstCharOfPrefix(s, n);
      ConcatValid(s[..n], rest[..j]);
      assert s[..k] == s[..n] + rest[..j];
    }
  }

  /** Clipping a valid string that is too long keeps it valid and loses at
      most three bytes below the cap. */
  lemma ClippingValidText(s: Bytes)
    requires Valid(s) && |s| > MAX_LAST_ERROR_LEN
    ensures Valid(Clipped(s))
    ensures 509 <= |Clipped(s)| <= 512
    ensures forall p: Bytes :: p <= s && Valid(p) && |p| <= MAX_LAST_ERROR_LEN ==> |p| <= |Clipped(s)|
  {
    var k := BoundaryNear(s, MAX_LAST_ERROR_LEN);
    forall p: Bytes | p <= s && Valid(p) && |p| <= MAX_LAST_ERROR_LEN
      ensures |p| <= |Clipped(s)|
    {
      assert p == s[..|p|];
    }
  }

  /** The clip repairs only what it shortens: a short reason is kept byte for
      byte, valid or not. */
  lemma ClippedIsValidExactlyWhen(s: Bytes)
    ensures Valid(Clipped(s)) <==> Valid(s) || |s| > MAX_LAST_ERROR_LEN
  {
    if Valid(s) && |s| > MAX_LAST_ERROR_LEN {
      ClippingValidText(s);
    }
  }

  // -------------------------------------------------------- the reference encoding

  /** A Unicode scalar value. */
  predicate IsScalar(cp: int) {
    0 <= cp < 0xD800 || 0xE000 <= cp <= 0x10FFFF
  }

  /** The bit distribution of section 3 of RFC 3629. */
  function Encoded(cp: int): Bytes
    requires IsScalar(cp)
  {
    if cp < 0x80 then [cp]
    else if cp < 0x800 then [0xC0 + cp / 0x40, 0x80 + cp % 0x40]
    else if cp < 0x10000 then [0xE0 + cp / 0x1000, 0x80 + cp / 0x40 % 0x40, 0x80 + cp % 0x40]
    else [0xF0 + cp / 0x40000, 0x80 + cp / 0x1000 % 0x40, 0x80 + cp / 0x40 % 0x40, 0x80 + cp % 0x40]
  }

  function EncodedAll(cps: seq<int>): Bytes
    requires forall i :: 0 <= i < |cps| ==> IsScalar(cps[i])
  {
    if cps == [] then [] else Encoded(cps[0]) + EncodedAll(cps[1..])
  }

  lemma EncodedIsOneChar(cp: int, rest: Bytes)
    requires IsScalar(cp)
    ensures FirstChar(Encoded(cp) + rest) == |Encoded(cp)|
  {
  }

  // The payload bits of a sequence, put together and taken apart again.

  lemma TwoParts(a: int, b: int)
    requires 0 <= b < 0x40
    ensures (a * 0x40 + b) / 0x40 == a && (a * 0x40 + b) % 0x40 == b
  {
  }

  lemma ThreeParts(a: int, b: int, c: int)
    requires 0 <= b < 0x40 && 0 <= c < 0x40
    ensures var cp := a * 0x1000 + b * 0x40 + c;
            cp / 0x1000 == a && cp / 0x40 % 0x40 == b && cp % 0x40 == c
  {
    TwoParts(a * 0x40 + b, c);
    TwoParts(a, b);
  }

  lemma FourParts(a: int, b: int, c: int, d: int)
    requires 0 <= b < 0x40 && 0 <= c < 0x40 && 0 <= d < 0x40
    ensures var cp := a * 0x40000 + b * 0x1000 + c * 0x40 + d;
            cp / 0x40000 == a && cp / 0x1000 % 0x40 == b && cp / 0x40 % 0x40 == c && cp % 0x40 == d
  {
    ThreeParts(a * 0x40 + b, c, d);
    TwoParts(a, b);
  }

  lemma ThreeBytes(a: Byte, b: Byte, c: Byte) returns (cp: int)
    requires 0xE0 <= a <= 0xEF && SecondByteOk(a, b) && IsCont(c)
    ensures IsScalar(cp) && Encoded(cp) == [a, b, c]
  {
    var x: int, y: int, z: int := a, b, c;
    cp := (x - 0xE0) * 0x1000 + (y - 0x80) * 0x40 + (z - 0x80);
    ThreeParts(x - 0xE0, y - 0x80, z - 0x80);
  }

  lemma FourBytes(a: Byte, b: Byte, c: Byte, d: Byte) returns (cp: int)
    requires 0xF0 <= a <= 0xF4 && SecondByteOk(a, b) && IsCont(c) && IsCont(d)
    ensures IsScalar(cp) && Encoded(cp) == [a, b, c, d]
  {
    var x: int, y: int, z: int, w: int := a, b, c, d;
    cp := (x - 0xF0) * 0x40000 + (y - 0x80) * 0x1000 + (z - 0x80) * 0x40 + (w - 0x80);
    FourParts(x - 0xF0, y - 0x80, z - 0x80, w - 0x80);
  }

  lemma OneCharIsEncoded(s: Bytes) returns (cp: int)
    requires FirstChar(s) > 0
    ensures IsScalar(cp) && Encoded(cp) == s[..FirstChar(s)]
  {
    var n := FirstChar(s);
    if n == 1 {
      cp := s[0];
    } else if n == 2 {
      var a: int, b: int := s[0], s[1];
      cp := (a - 0xC0) * 0x40 + (b - 0x80);
      TwoParts(a - 0xC0, b - 0x80);
    } else if n == 3 {
      cp := ThreeBytes(s[0], s[1], s[2]);
    } else {
      cp := FourBytes(s[0], s[1], s[2], s[3]);
    }
  }

  /** What counts as valid is exactly what encodes some scalar values. */
  lemma {:induction false} EncodedIsValid(cps: seq<int>)
    requires forall i :: 0 <= i < |cps| ==> IsScalar(cps[i])
    ensures Valid(EncodedAll(cps))
  {
    if cps != [] {
      var rest := EncodedAll(cps[1..]);
      EncodedIsValid(cps[1..]);
      EncodedIsOneChar(cps[0], rest);
      assert (Encoded(cps[0]) + rest)[|Encoded(cps[0])|..] == rest;
    }
  }

  lemma {:induction false} ValidIsEncoded(s: Bytes) returns (cps: seq<int>)
    requires Valid(s)
    ensures forall i :: 0 <= i < |cps| ==> IsScalar(cps[i])
    ensures EncodedAll(cps) == s
    decreases |s|
  {
    cps := [];
    if s != [] {
      var n := FirstChar(s);
      var cp := OneCharIsEncoded(s);
      var rest := ValidIsEncoded(s[n..]);
      cps := [cp] + rest;
      assert cps[1..] == rest;
      assert s == s[..n] + s[n..];
    }
  }
}
