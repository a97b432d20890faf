/** Text parts of keys. A Rust string is a byte vector that is well-formed UTF-8; reading one
    back from a key is the check below. Well-formed UTF-8 never contains 0xff, which is what
    makes 0xff a safe separator.
 */
module Text {
  import opened ByteStrings

  /** Well-formed UTF-8 byte sequences (table 3-7 of the Unicode standard), with `need`
      continuation bytes still to come, the next one between `lo` and `hi`. */
  predicate Utf8From(b: Bytes, need: nat, lo: byte, hi: byte)
    decreases |b|
  {
    if b == [] then need == 0
    else if need > 0 then lo <= b[0] <= hi && Utf8From(b[1..], need - 1, 0x80, 0xbf)
    else if b[0] < 0x80 then Utf8From(b[1..], 0, 0x80, 0xbf)
    else if 0xc2 <= b[0] <= 0xdf then Utf8From(b[1..], 1, 0x80, 0xbf)
    else if b[0] == 0xe0 then Utf8From(b[1..], 2, 0xa0, 0xbf)
    else if b[0] == 0xed then Utf8From(b[1..], 2, 0x80, 0x9f)
    else if 0xe1 <= b[0] <= 0xef then Utf8From(b[1..], 2, 0x80, 0xbf)
    else if b[0] == 0xf0 then Utf8From(b[1..], 3, 0x90, 0xbf)
    else if 0xf1 <= b[0] <= 0xf3 then Utf8From(b[1..], 3, 0x80, 0xbf)
    else if b[0] == 0xf4 then Utf8From(b[1..], 3, 0x80, 0x8f)
    else false
  }

  /** `utils::string_from_bytes` succeeds. */
  predicate IsText(b: Bytes) {
    Utf8From(b, 0, 0x80, 0xbf)
  }

  lemma {:induction false} Utf8HasNoSep(b: Bytes, need: nat, lo: byte, hi: byte)
    requires Utf8From(b, need, lo, hi) && hi < 0xc0
    ensures NoSep(b)
    decreases |b|
  {
    if b != [] {
      if need > 0 {
        Utf8HasNoSep(b[1..], need - 1, 0x80, 0xbf);
      } else if b[0] < 0x80 {
        Utf8HasNoSep(b[1..], 0, 0x80, 0xbf);
      } else if b[0] <= 0xdf {
        Utf8HasNoSep(b[1..], 1, 0x80, 0xbf);
      } else if b[0] <= 0xef {
        Utf8HasNoSep(b[1..], 2, if b[0] == 0xe0 then 0xa0 else 0x80, if b[0] == 0xed then 0x9f else 0xbf);
      } else {
        Utf8HasNoSep(b[1..], 3, if b[0] == 0xf0 then 0x90 else 0x80, if b[0] == 0xf4 then 0x8f else 0xbf);
      }
      assert b == [b[0]] + b[1..];
    }
  }

  /** UTF-8 never contains the separator. */
  lemma TextHasNoSep(b: Bytes)
    requires IsText(b)
    ensures NoSep(b) && 0xff !in b
  {
    Utf8HasNoSep(b, 0, 0x80, 0xbf);
  }

  /** What follows an ASCII character of a text is a text. */
  lemma {:induction false} TextAfterAscii(b: Bytes, i: nat, need: nat, lo: byte, hi: byte)
    requires Utf8From(b, need, lo, hi) && 0x80 <= lo && hi < 0xc0
    requires i < |b| && b[i] < 0x80
    ensures IsText(b[i + 1..])
    decreases |b|
  {
    if need > 0 {
      TextAfterAscii(b[1..], i - 1, need - 1, 0x80, 0xbf);
    } else if i == 0 {
    } else if b[0] < 0x80 {
      TextAfterAscii(b[1..], i - 1, 0, 0x80, 0xbf);
    } else if b[0] <= 0xdf {
      TextAfterAscii(b[1..], i - 1, 1, 0x80, 0xbf);
    } else if b[0] <= 0xef {
      TextAfterAscii(b[1..], i - 1, 2, if b[0] == 0xe0 then 0xa0 else 0x80, if b[0] == 0xed then 0x9f else 0xbf);
    } else {
      TextAfterAscii(b[1..], i - 1, 3, if b[0] == 0xf0 then 0x90 else 0x80, if b[0] == 0xf4 then 0x8f else 0xbf);
    }
    assert i > 0 ==> b[1..][i..] == b[i + 1..];
  }
}
