/** Byte strings as the key-value engines see them: lexicographic order, prefixes,
    0xff-separated keys and big-endian 64-bit integers.
 */
module ByteStrings {

  type byte = x: int | 0 <= x < 256

  type Bytes = seq<byte>

  /** The separator between the text parts of a key. */
  const SEP: byte := 0xff

  /** 2^64: values of type `u64` are below this. */
  const U64: int := 0x1_0000_0000_0000_0000

  const U64_MAX: nat := 0xffff_ffff_ffff_ffff

  datatype Option<+T> = None | Some(value: T)

  datatype Result<T, E> = Ok(value: T) | Err(error: E)

  // ------------------------------------------------------------------
  // Lexicographic order
  // ------------------------------------------------------------------

  /** The order in which every engine sorts keys (memcmp, shorter first). */
  predicate LexLe(a: Bytes, b: Bytes)
    decreases |a|
  {
    |a| == 0 ||
    (|b| > 0 && (a[0] < b[0] || (a[0] == b[0] && LexLe(a[1..], b[1..]))))
  }

  lemma {:induction false} LexRefl(a: Bytes)
    ensures LexLe(a, a)
    decreases |a|
  {
    if a != [] {
      LexRefl(a[1..]);
    }
  }

  lemma {:induction false} LexTotal(a: Bytes, b: Bytes)
    ensures LexLe(a, b) || LexLe(b, a)
    decreases |a|
  {
    if a != [] && b != [] {
      LexTotal(a[1..], b[1..]);
    }
  }

  lemma {:induction false} LexAntisym(a: Bytes, b: Bytes)
    requires LexLe(a, b) && LexLe(b, a)
    ensures a == b
    decreases |a|
  {
    if a != [] && b != [] {
      LexAntisym(a[1..], b[1..]);
      assert a == [a[0]] + a[1..] && b == [b[0]] + b[1..];
    }
  }

  lemma {:induction false} LexTrans(a: Bytes, b: Bytes, c: Bytes)
    requires LexLe(a, b) && LexLe(b, c)
    ensures LexLe(a, c)
    decreases |a|
  {
    if a != [] {
      if a[0] == b[0] == c[0] {
        LexTrans(a[1..], b[1..], c[1..]);
      }
    }
  }

  /** A common prefix does not affect the order. */
  lemma {:induction false} LexCancel(p: Bytes, a: Bytes, b: Bytes)
    ensures LexLe(p + a, p + b) <==> LexLe(a, b)
    decreases |p|
  {
    if p == [] {
      assert p + a == a && p + b == b;
    } else {
      LexCancel(p[1..], a, b);
      assert (p + a)[1..] == p[1..] + a;
      assert (p + b)[1..] == p[1..] + b;
    }
  }

  lemma PrefixLexLe(p: Bytes, k: Bytes)
    requires p <= k
    ensures LexLe(p, k)
  {
  }

  /** The keys that start with `p` are an interval of the key order. */
  lemma {:induction false} PrefixConvex(p: Bytes, k: Bytes, hi: Bytes)
    requires LexLe(p, k) && LexLe(k, hi) && p <= hi
    ensures p <= k
    decreases |p|
  {
    if p != [] {
      assert k[0] == p[0];
      PrefixConvex(p[1..], k[1..], hi[1..]);
      assert p == [p[0]] + p[1..] && k == [k[0]] + k[1..];
    }
  }

  /** Two different strings of the same length decide the order, whatever follows them. */
  lemma {:induction false} LexSameLength(a: Bytes, b: Bytes, x: Bytes, y: Bytes)
    requires |a| == |b| && a != b
    ensures LexLe(a + x, b + y) <==> LexLe(a, b)
    decreases |a|
  {
    assert (a + x)[0] == a[0] && (b + y)[0] == b[0];
    if a[0] == b[0] {
      assert a == [a[0]] + a[1..] && b == [b[0]] + b[1..];
      assert (a + x)[1..] == a[1..] + x && (b + y)[1..] == b[1..] + y;
      LexSameLength(a[1..], b[1..], x, y);
    }
  }

  // ------------------------------------------------------------------
  // Big-endian integers
  // ------------------------------------------------------------------

  function Pow256(w: nat): (r: nat)
    ensures r >= 1
  {
    if w == 0 then 1 else 256 * Pow256(w - 1)
  }

  lemma Pow256Of8()
    ensures Pow256(8) == U64
  {
  }

  function ToBe(n: nat, w: nat): (b: Bytes)
    ensures |b| == w
    decreases w
  {
    if w == 0 then [] else ToBe(n / 256, w - 1) + [n % 256]
  }

  function FromBe(b: Bytes): (n: nat)
    ensures n < Pow256(|b|)
    decreases |b|
  {
    if b == [] then 0
    else
      var hi := FromBe(b[..|b| - 1]);
      256 * hi + b[|b| - 1]
  }

  lemma {:induction false} FromToBe(n: nat, w: nat)
    requires n < Pow256(w)
    ensures FromBe(ToBe(n, w)) == n
    decreases w
  {
    if w != 0 {
      FromToBe(n / 256, w - 1);
      var b := ToBe(n, w);
      assert b[..|b| - 1] == ToBe(n / 256, w - 1);
    }
  }

  lemma {:induction false} BeOrder(m: nat, n: nat, w: nat)
    requires m < Pow256(w) && n < Pow256(w)
    ensures LexLe(ToBe(m, w), ToBe(n, w)) <==> m <= n
    decreases w
  {
    if w != 0 {
      var mh, nh := ToBe(m / 256, w - 1), ToBe(n / 256, w - 1);
      BeOrder(m / 256, n / 256, w - 1);
      if m / 256 == n / 256 {
        LexCancel(mh, [m % 256], [n % 256]);
        assert [m % 256][1..] == [];
      } else {
        FromToBe(m / 256, w - 1);
        FromToBe(n / 256, w - 1);
        LexSameLength(mh, nh, [m % 256], [n % 256]);
      }
    }
  }

  const ZERO64: Bytes := [0, 0, 0, 0, 0, 0, 0, 0]

  /** `u64::to_be_bytes`. */
  function Be64(n: nat): (b: Bytes)
    requires n < U64
    ensures |b| == 8
  {
    ToBe(n, |ZERO64|)
  }

  /** `utils::u64_from_bytes`: any length other than eight is an error. */
  function U64FromBytes(b: Bytes): (r: Option<nat>)
    ensures r.Some? <==> |b| == 8
    ensures r.Some? ==> r.value < U64
  {
    if |b| != 8 then None else
      Pow256Of8();
      Some(FromBe(b))
  }

  lemma Be64RoundTrip(n: nat)
    requires n < U64
    ensures U64FromBytes(Be64(n)) == Some(n)
  {
    Pow256Of8();
    FromToBe(n, |ZERO64|);
  }

  lemma Be64Injective(m: nat, n: nat)
    requires m < U64 && n < U64
    ensures Be64(m) == Be64(n) <==> m == n
  {
    Be64RoundTrip(m);
    Be64RoundTrip(n);
  }

  /** Big-endian order is numeric order, whatever bytes follow different numbers. */
  lemma Be64Order(m: nat, n: nat, x: Bytes, y: Bytes)
    requires m < U64 && n < U64
    ensures m != n ==> (LexLe(Be64(m) + x, Be64(n) + y) <==> m < n)
    ensures LexLe(Be64(m), Be64(n)) <==> m <= n
  {
    Pow256Of8();
    BeOrder(m, n, |ZERO64|);
    if m != n {
      Be64Injective(m, n);
      LexSameLength(Be64(m), Be64(n), x, y);
    }
  }

  /** Addition of machine words in an optimised build. */
  function WrappingAdd(m: nat, n: nat): (r: nat)
    requires m < U64 && n < U64
    ensures r == if m + n < U64 then m + n else m + n - U64
  {
    (m + n) % U64
  }

  // ------------------------------------------------------------------
  // Keys joined with 0xff
  // ------------------------------------------------------------------

  predicate NoSep(b: Bytes) {
    SEP !in b
  }

  /** Index of the first separator, or the length when there is none. */
  function FindSep(b: Bytes): (i: nat)
    ensures i <= |b|
    ensures NoSep(b[..i])
    ensures i < |b| ==> b[i] == SEP
    decreases |b|
  {
    if b == [] || b[0] == SEP then 0
    else
      var i := FindSep(b[1..]);
      assert b[..1 + i] == [b[0]] + b[1..][..i];
      1 + i
  }

  /** The two parts of `splitn(2, |&b| b == 0xff)`; the second is missing when there is no separator. */
  function SplitFirst(b: Bytes): (r: (Bytes, Option<Bytes>))
    ensures NoSep(r.0)
    ensures r.1.Some? ==> b == r.0 + [SEP] + r.1.value
    ensures r.1.None? ==> b == r.0
  {
    var i := FindSep(b);
    if i < |b| then (b[..i], Some(b[i + 1..])) else (b, None)
  }

  lemma {:induction false} FindSepAt(a: Bytes, x: Bytes)
    requires NoSep(a)
    ensures FindSep(a + [SEP] + x) == |a|
    decreases |a|
  {
    if a != [] {
      assert (a + [SEP] + x)[1..] == a[1..] + [SEP] + x;
      FindSepAt(a[1..], x);
    }
  }

  /** Splitting undoes joining: the part before the separator must be text, the part after it need not be. */
  lemma SplitJoin(a: Bytes, x: Bytes)
    requires NoSep(a)
    ensures SplitFirst(a + [SEP] + x) == (a, Some(x))
  {
    FindSepAt(a, x);
    var b := a + [SEP] + x;
    assert b[..|a|] == a && b[|a| + 1..] == x;
  }

  lemma JoinInjective(a: Bytes, x: Bytes, a': Bytes, x': Bytes)
    requires NoSep(a) && NoSep(a')
    ensures a + [SEP] + x == a' + [SEP] + x' <==> a == a' && x == x'
  {
    SplitJoin(a, x);
    SplitJoin(a', x');
  }

  /** A key can only start with `a` and a separator when its own first part is `a`. */
  lemma JoinPrefix(a: Bytes, a': Bytes, x': Bytes)
    requires NoSep(a) && NoSep(a')
    ensures a + [SEP] <= a' + [SEP] + x' <==> a == a'
  {
    var k := a' + [SEP] + x';
    if a + [SEP] <= k {
      assert k == a + [SEP] + k[|a| + 1..];
      JoinInjective(a, k[|a| + 1..], a', x');
    }
  }

  /** The last element of `rsplit(|&b| b == 0xff)`: what follows the last separator. */
  function LastPart(b: Bytes): (r: Bytes)
    ensures NoSep(r)
    ensures |r| <= |b| && r == b[|b| - |r|..]
    ensures |r| < |b| ==> b[|b| - |r| - 1] == SEP
    decreases |b|
  {
    if b == [] || b[|b| - 1] == SEP then []
    else
      var init := b[..|b| - 1];
      var r := LastPart(init);
      assert b == init + [b[|b| - 1]];
      r + [b[|b| - 1]]
  }

  lemma {:induction false} LastPartJoin(x: Bytes, a: Bytes)
    requires NoSep(a)
    ensures LastPart(x + [SEP] + a) == a
    decreases |a|
  {
    var b := x + [SEP] + a;
    if a != [] {
      assert b[..|b| - 1] == x + [SEP] + a[..|a| - 1];
      LastPartJoin(x, a[..|a| - 1]);
      assert a == a[..|a| - 1] + [a[|a| - 1]];
    }
  }
}
