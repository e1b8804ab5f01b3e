/**
 * Well-formed UTF-8 (RFC 3629, section 4), the test that
 * `String::from_utf8` applies to an info log before
 * `src/gl/shader/mod.rs` accepts it. Bytes are `bv8`.
 */
module Utf8 {

  /** Continuation bytes: `UTF8-tail = %x80-BF`. */
  predicate IsTail(b: bv8)
  {
    0x80 <= b <= 0xBF
  }

  /**
   * The length of the sequence that a lead byte starts, or 0 when the byte
   * cannot start one (a continuation byte, `C0`, `C1` or `F5`-`FF`).
   */
  function LeadLength(b: bv8): (n: nat)
    ensures n <= 4
  {
    if b <= 0x7F then 1
    else if 0xC2 <= b <= 0xDF then 2
    else if 0xE0 <= b <= 0xEF then 3
    else if 0xF0 <= b <= 0xF4 then 4
    else 0
  }

  /**
   * The second byte of a multi-byte sequence: narrower than a plain tail
   * after `E0` (no overlong forms), `ED` (no surrogates), `F0` (no
   * overlong forms) and `F4` (nothing above U+10FFFF).
   */
  predicate SecondOk(lead: bv8, b: bv8)
  {
    if lead == 0xE0 then 0xA0 <= b <= 0xBF
    else if lead == 0xED then 0x80 <= b <= 0x9F
    else if lead == 0xF0 then 0x90 <= b <= 0xBF
    else if lead == 0xF4 then 0x80 <= b <= 0x8F
    else IsTail(b)
  }

  /** One encoded character, exactly: the rules `UTF8-1` to `UTF8-4`. */
  predicate IsChar(c: seq<bv8>)
  {
    |c| >= 1 && LeadLength(c[0]) == |c|
    && (|c| >= 2 ==> SecondOk(c[0], c[1]))
    && (forall i :: 2 <= i < |c| ==> IsTail(c[i]))
  }

  /** `UTF8-octets = *( UTF8-char )`. */
  predicate Valid(s: seq<bv8>)
    decreases |s|
  {
    s == [] || (var n := LeadLength(s[0]); 0 < n <= |s| && IsChar(s[..n]) && Valid(s[n..]))
  }

  /** ASCII text is valid UTF-8. */
  lemma {:induction false} AsciiValid(s: seq<bv8>)
    requires forall i :: 0 <= i < |s| ==> s[i] <= 0x7F
    ensures Valid(s)
  {
    if s != [] {
      assert s[..1] == [s[0]];
      AsciiValid(s[1..]);
    }
  }

  /** Valid texts concatenate to a valid text. */
  lemma {:induction false} ValidConcat(a: seq<bv8>, b: seq<bv8>)
    requires Valid(a) && Valid(b)
    ensures Valid(a + b)
    decreases |a|
  {
    if a == [] {
      assert a + b == b;
    } else {
      var n := LeadLength(a[0]);
      assert (a + b)[0] == a[0];
      assert (a + b)[..n] == a[..n];
      assert (a + b)[n..] == a[n..] + b;
      ValidConcat(a[n..], b);
    }
  }

  /** A character followed by a valid text is a valid text. */
  lemma CharPrefix(c: seq<bv8>, rest: seq<bv8>)
    requires IsChar(c) && Valid(rest)
    ensures Valid(c + rest)
  {
    var s := c + rest;
    assert s[0] == c[0];
    assert s[..|c|] == c;
    assert s[|c|..] == rest;
  }

  /** Unicode scalar values: code points outside the surrogate range. */
  predicate IsScalarValue(cp: nat)
  {
    cp <= 0x10FFFF && !(0xD800 <= cp <= 0xDFFF)
  }

  /** The encoding of one scalar value (RFC 3629, section 3). */
  function Encode(cp: nat): (c: seq<bv8>)
    requires IsScalarValue(cp)
    ensures 1 <= |c| <= 4
  {
    if cp <= 0x7F then [cp as bv8]
    else if cp <= 0x7FF then [(0xC0 + cp / 64) as bv8, (0x80 + cp % 64) as bv8]
    else if cp <= 0xFFFF then
      [(0xE0 + cp / 4096) as bv8, (0x80 + cp / 64 % 64) as bv8, (0x80 + cp % 64) as bv8]
    else
      [(0xF0 + cp / 262144) as bv8, (0x80 + cp / 4096 % 64) as bv8,
       (0x80 + cp / 64 % 64) as bv8, (0x80 + cp % 64) as bv8]
  }

  /** A continuation byte `80 + r`, and where it falls in the narrowed second-byte ranges. */
  lemma TailByte(r: nat)
    requires r < 64
    ensures IsTail((0x80 + r) as bv8)
    ensures (0xA0 <= (0x80 + r) as bv8) <==> r >= 32
    ensures (0x90 <= (0x80 + r) as bv8) <==> r >= 16
  {
  }

  lemma LeadByte(base: nat, hi: nat)
    requires (base == 0xE0 && hi <= 15) || (base == 0xF0 && hi <= 4)
    ensures base as bv8 <= (base + hi) as bv8 <= (base + 15) as bv8
    ensures ((base + hi) as bv8 == base as bv8) <==> hi == 0
    ensures ((base + hi) as bv8 == (base + 4) as bv8) <==> hi == 4
    ensures ((base + hi) as bv8 == (base + 13) as bv8) <==> hi == 13
  {
  }

  lemma Encode2IsChar(cp: nat)
    requires 0x80 <= cp <= 0x7FF
    ensures IsChar(Encode(cp))
  {
    var q := cp / 64;
    assert 2 <= q <= 31;
    assert 0xC2 <= (0xC0 + q) as bv8 <= 0xDF;
    TailByte(cp % 64);
  }

  lemma Split3(cp: nat)
    requires 0x800 <= cp <= 0xFFFF && !(0xD800 <= cp <= 0xDFFF)
    ensures cp / 4096 <= 15
    ensures cp / 4096 == 0 ==> cp / 64 % 64 >= 32
    ensures cp / 4096 == 13 ==> cp / 64 % 64 < 32
  {
  }

  lemma Encode3IsChar(cp: nat)
    requires 0x800 <= cp <= 0xFFFF && !(0xD800 <= cp <= 0xDFFF)
    ensures IsChar(Encode(cp))
  {
    Split3(cp);
    LeadByte(0xE0, cp / 4096);
    TailByte(cp / 64 % 64);
    TailByte(cp % 64);
    var c := Encode(cp);
    assert LeadLength(c[0]) == 3;
    assert SecondOk(c[0], c[1]);
  }

  lemma Split4(cp: nat)
    requires 0x10000 <= cp <= 0x10FFFF
    ensures cp / 262144 <= 4
    ensures cp / 262144 == 0 ==> cp / 4096 % 64 >= 16
    ensures cp / 262144 == 4 ==> cp / 4096 % 64 < 16
  {
  }

  /** The lead byte `F0 + hi` and second byte `80 + t` of a four-byte character. */
  lemma Lead4(hi: nat, t: nat)
    requires hi <= 4 && t < 64
    requires hi == 0 ==> t >= 16
    requires hi == 4 ==> t < 16
    ensures LeadLength((0xF0 + hi) as bv8) == 4
    ensures SecondOk((0xF0 + hi) as bv8, (0x80 + t) as bv8)
  {
    LeadByte(0xF0, hi);
    TailByte(t);
  }

  lemma Encode4IsChar(cp: nat)
    requires 0x10000 <= cp <= 0x10FFFF
    ensures IsChar(Encode(cp))
  {
    Split4(cp);
    Lead4(cp / 262144, cp / 4096 % 64);
    TailByte(cp / 64 % 64);
    TailByte(cp % 64);
  }

  /** Every scalar value encodes to exactly one well-formed character. */
  lemma EncodeIsChar(cp: nat)
    requires IsScalarValue(cp)
    ensures IsChar(Encode(cp))
  {
    if cp <= 0x7F {
    } else if cp <= 0x7FF {
      Encode2IsChar(cp);
    } else if cp <= 0xFFFF {
      Encode3IsChar(cp);
    } else {
      Encode4IsChar(cp);
    }
  }

  /** The encoding of a text of scalar values, character by character. */
  function EncodeAll(cps: seq<nat>): (s: seq<bv8>)
    requires forall i :: 0 <= i < |cps| ==> IsScalarValue(cps[i])
    ensures |cps| <= |s| <= 4 * |cps|
  {
    if cps == [] then [] else Encode(cps[0]) + EncodeAll(cps[1..])
  }

  /** Every encoded text is valid, so `from_utf8` accepts any log the driver writes as proper text. */
  lemma {:induction false} EncodeAllValid(cps: seq<nat>)
    requires forall i :: 0 <= i < |cps| ==> IsScalarValue(cps[i])
    ensures Valid(EncodeAll(cps))
  {
    if cps != [] {
      EncodeIsChar(cps[0]);
      EncodeAllValid(cps[1..]);
      CharPrefix(Encode(cps[0]), EncodeAll(cps[1..]));
    }
  }

  /** "é" (U+00E9) is the two bytes C3 A9; cutting the log after the first byte makes it invalid. */
  lemma TruncationBreaksCharacter()
    ensures Valid([0xC3, 0xA9])
    ensures !Valid([0xC3])
  {
    var s: seq<bv8> := [0xC3, 0xA9];
    assert s[..2] == s;
    assert s[2..] == [];
  }
}
