/** The check for text accepts exactly the UTF-8 encodings of sequences of Unicode scalar values. */
module Utf8 {
  import opened ByteStrings
  import opened Text

  /** Code points without the surrogates. */
  ghost predicate IsScalar(c: nat) {
    c < 0xd800 || 0xe000 <= c < 0x11_0000
  }

  /** The shortest form: each byte after the first carries six bits. */
  ghost function Encode(c: nat): (b: Bytes)
    requires IsScalar(c)
    ensures 1 <= |b| <= 4
  {
    if c < 0x80 then [c]
    else if c < 0x800 then [0xc0 + c / 64, 0x80 + c % 64]
    else if c < 0x1_0000 then [0xe0 + c / 4096, 0x80 + c / 64 % 64, 0x80 + c % 64]
    else [0xf0 + c / 262144, 0x80 + c / 4096 % 64, 0x80 + c / 64 % 64, 0x80 + c % 64]
  }

  ghost predicate AllScalars(cs: seq<nat>) {
    forall i :: 0 <= i < |cs| ==> IsScalar(cs[i])
  }

  ghost function EncodeAll(cs: seq<nat>): (b: Bytes)
    requires AllScalars(cs)
  {
    if cs == [] then [] else Encode(cs[0]) + EncodeAll(cs[1..])
  }

  /** One continuation byte. */
  lemma Continued(x: byte, rest: Bytes, need: nat, lo: byte, hi: byte)
    requires need > 0
    ensures Utf8From([x] + rest, need, lo, hi) <==> lo <= x <= hi && Utf8From(rest, need - 1, 0x80, 0xbf)
  {
    assert ([x] + rest)[1..] == rest;
  }

  lemma TwoBytes(x: byte, y: byte, rest: Bytes)
    requires 0xc0 <= x <= 0xdf
    ensures IsText([x, y] + rest) <==> 0xc2 <= x && 0x80 <= y <= 0xbf && IsText(rest)
  {
    assert ([x, y] + rest)[1..] == [y] + rest;
    Continued(y, rest, 1, 0x80, 0xbf);
  }

  lemma ThreeBytes(x: byte, y: byte, z: byte, rest: Bytes)
    requires 0xe0 <= x <= 0xef
    ensures IsText([x, y, z] + rest) <==>
      && (if x == 0xe0 then 0xa0 else 0x80) <= y <= (if x == 0xed then 0x9f else 0xbf)
      && 0x80 <= z <= 0xbf && IsText(rest)
  {
    assert ([x, y, z] + rest)[1..] == [y] + ([z] + rest);
    Continued(y, [z] + rest, 2, if x == 0xe0 then 0xa0 else 0x80, if x == 0xed then 0x9f else 0xbf);
    Continued(z, rest, 1, 0x80, 0xbf);
  }

  lemma FourBytes(x: byte, y: byte, z: byte, w: byte, rest: Bytes)
    requires 0xf0 <= x <= 0xf4
    ensures IsText([x, y, z, w] + rest) <==>
      && (if x == 0xf0 then 0x90 else 0x80) <= y <= (if x == 0xf4 then 0x8f else 0xbf)
      && 0x80 <= z <= 0xbf && 0x80 <= w <= 0xbf && IsText(rest)
  {
    assert ([x, y, z, w] + rest)[1..] == [y] + ([z] + ([w] + rest));
    Continued(y, [z] + ([w] + rest), 3, if x == 0xf0 then 0x90 else 0x80, if x == 0xf4 then 0x8f else 0xbf);
    Continued(z, [w] + rest, 2, 0x80, 0xbf);
    Continued(w, rest, 1, 0x80, 0xbf);
  }

  /** A scalar value can be put before anything. */
  lemma EncodedFirst(c: nat, rest: Bytes)
    requires IsScalar(c)
    ensures IsText(Encode(c) + rest) <==> IsText(rest)
  {
    if c < 0x80 {
      assert (Encode(c) + rest)[1..] == rest;
    } else if c < 0x800 {
      TwoBytes(0xc0 + c / 64, 0x80 + c % 64, rest);
    } else if c < 0x1_0000 {
      ThreeBytes(0xe0 + c / 4096, 0x80 + c / 64 % 64, 0x80 + c % 64, rest);
    } else {
      FourBytes(0xf0 + c / 262144, 0x80 + c / 4096 % 64, 0x80 + c / 64 % 64, 0x80 + c % 64, rest);
    }
  }

  lemma {:induction false} LongEnough(b: Bytes, need: nat, lo: byte, hi: byte)
    requires Utf8From(b, need, lo, hi)
    ensures |b| >= need
    decreases |b|
  {
    if need > 0 {
      LongEnough(b[1..], need - 1, 0x80, 0xbf);
    }
  }

  /** Six bits more. */
  lemma SixBits(q: nat, r: nat)
    requires r < 64
    ensures (64 * q + r) / 64 == q && (64 * q + r) % 64 == r
  {
  }

  /** Dividing in steps of six bits. */
  lemma SixBitSteps(c: nat)
    ensures c / 4096 == c / 64 / 64 && c / 262144 == c / 4096 / 64
  {
  }

  lemma DecodeTwo(x: int, y: int) returns (c: nat)
    requires 0xc2 <= x <= 0xdf && 0x80 <= y <= 0xbf
    ensures IsScalar(c) && Encode(c) == [x, y]
  {
    c := (x - 0xc0) * 64 + (y - 0x80);
  }

  lemma DecodeThree(x: int, y: int, z: int) returns (c: nat)
    requires 0xe0 <= x <= 0xef && 0x80 <= z <= 0xbf
    requires (if x == 0xe0 then 0xa0 else 0x80) <= y <= (if x == 0xed then 0x9f else 0xbf)
    ensures IsScalar(c) && Encode(c) == [x, y, z]
  {
    c := (x - 0xe0) * 4096 + (y - 0x80) * 64 + (z - 0x80);
  }

  lemma DecodeFour(x: int, y: int, z: int, w: int) returns (c: nat)
    requires 0xf0 <= x <= 0xf4 && 0x80 <= z <= 0xbf && 0x80 <= w <= 0xbf
    requires (if x == 0xf0 then 0x90 else 0x80) <= y <= (if x == 0xf4 then 0x8f else 0xbf)
    ensures IsScalar(c) && Encode(c) == [x, y, z, w]
  {
    var hi := 64 * (x - 0xf0) + (y - 0x80);
    var mid := 64 * hi + (z - 0x80);
    c := 64 * mid + (w - 0x80);
    SixBitSteps(c);
    SixBits(mid, w - 0x80);
    SixBits(hi, z - 0x80);
    SixBits(x - 0xf0, y - 0x80);
  }

  /** Every text begins with a scalar value. */
  lemma FirstEncoded(b: Bytes) returns (c: nat, rest: Bytes)
    requires b != [] && IsText(b)
    ensures IsScalar(c) && b == Encode(c) + rest
  {
    if b[0] < 0x80 {
      c, rest := b[0], b[1..];
    } else if b[0] <= 0xdf {
      LongEnough(b[1..], 1, 0x80, 0xbf);
      rest := b[2..];
      assert b == [b[0], b[1]] + rest;
      TwoBytes(b[0], b[1], rest);
      c := DecodeTwo(b[0], b[1]);
    } else if b[0] <= 0xef {
      LongEnough(b[1..], 2, if b[0] == 0xe0 then 0xa0 else 0x80, if b[0] == 0xed then 0x9f else 0xbf);
      rest := b[3..];
      assert b == [b[0], b[1], b[2]] + rest;
      ThreeBytes(b[0], b[1], b[2], rest);
      c := DecodeThree(b[0], b[1], b[2]);
    } else {
      LongEnough(b[1..], 3, if b[0] == 0xf0 then 0x90 else 0x80, if b[0] == 0xf4 then 0x8f else 0xbf);
      rest := b[4..];
      assert b == [b[0], b[1], b[2], b[3]] + rest;
      FourBytes(b[0], b[1], b[2], b[3], rest);
      c := DecodeFour(b[0], b[1], b[2], b[3]);
    }
  }

  lemma {:induction false} EncodedIsText(cs: seq<nat>)
    requires AllScalars(cs)
    ensures IsText(EncodeAll(cs))
  {
    if cs != [] {
      EncodedIsText(cs[1..]);
      EncodedFirst(cs[0], EncodeAll(cs[1..]));
    }
  }

  lemma {:induction false} TextIsEncoded(b: Bytes) returns (cs: seq<nat>)
    requires IsText(b)
    ensures AllScalars(cs) && b == EncodeAll(cs)
    decreases |b|
  {
    if b == [] {
      cs := [];
    } else {
      var c, rest := FirstEncoded(b);
      EncodedFirst(c, rest);
      var cs' := TextIsEncoded(rest);
      cs := [c] + cs';
      assert cs[1..] == cs';
    }
  }

  /** `utils::string_from_bytes` succeeds exactly on UTF-8. */
  lemma TextIffUtf8(b: Bytes)
    ensures IsText(b) <==> exists cs :: AllScalars(cs) && b == EncodeAll(cs)
  {
    if IsText(b) {
      var cs := TextIsEncoded(b);
    }
    if cs :| AllScalars(cs) && b == EncodeAll(cs) {
      EncodedIsText(cs);
    }
  }
}
