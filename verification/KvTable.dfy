/** The contract of a key-value tree: an ordered map from byte strings to byte strings.
    Iterators visit keys in (reverse) lexicographic order from a start key; every lookup in
    the server is such an iteration cut off by `take_while(starts_with)`. The theorems here
    say that these cut-offs are plain filters of the table.
 */
module KvTable {
  import opened ByteStrings

  type Table = map<Bytes, Bytes>

  // ------------------------------------------------------------------
  // Ordered enumeration of a set of keys
  // ------------------------------------------------------------------

  ghost predicate Ascending(s: seq<Bytes>) {
    forall i, j :: 0 <= i < j < |s| ==> LexLe(s[i], s[j]) && s[i] != s[j]
  }

  ghost function Elems<T>(s: seq<T>): set<T> {
    set x | x in s
  }

  lemma {:induction false} MinExists(s: set<Bytes>)
    requires s != {}
    ensures exists k :: k in s && forall x | x in s :: LexLe(k, x)
    decreases |s|
  {
    var e :| e in s;
    LexRefl(e);
    if s == {e} {
      assert forall x | x in s :: LexLe(e, x);
    } else {
      var rest := s - {e};
      assert rest != {};
      MinExists(rest);
      var m :| m in rest && forall x | x in rest :: LexLe(m, x);
      LexTotal(e, m);
      if LexLe(m, e) {
        assert forall x | x in s :: LexLe(m, x);
      } else {
        forall x | x in s
          ensures LexLe(e, x)
        {
          if x != e {
            LexTrans(e, m, x);
          }
        }
      }
    }
  }

  /** The first key in lexicographic order. */
  function MinKey(s: set<Bytes>): (k: Bytes)
    requires s != {}
    ensures k in s
    ensures forall x | x in s :: LexLe(k, x)
  {
    MinExists(s);
    assert forall k, k' |
        && k in s && (forall x | x in s :: LexLe(k, x))
        && k' in s && (forall x | x in s :: LexLe(k', x)) :: k == k' by {
      forall k, k' |
        && k in s && (forall x | x in s :: LexLe(k, x))
        && k' in s && (forall x | x in s :: LexLe(k', x))
        ensures k == k'
      {
        LexAntisym(k, k');
      }
    }
    var k :| k in s && forall x | x in s :: LexLe(k, x);
    k
  }

  /** `ORDER BY key ASC`. */
  function Sorted(s: set<Bytes>): (r: seq<Bytes>)
    ensures |r| == |s|
    decreases |s|
  {
    if s == {} then []
    else
      var k := MinKey(s);
      [k] + Sorted(s - {k})
  }

  lemma {:induction false} SortedElems(s: set<Bytes>)
    ensures forall k :: k in Sorted(s) <==> k in s
    decreases |s|
  {
    if s != {} {
      var k := MinKey(s);
      SortedElems(s - {k});
    }
  }

  lemma {:induction false} SortedAscending(s: set<Bytes>)
    ensures Ascending(Sorted(s))
    decreases |s|
  {
    if s != {} {
      var k := MinKey(s);
      var rest := Sorted(s - {k});
      SortedAscending(s - {k});
      SortedElems(s - {k});
      forall i, j | 0 <= i < j < |Sorted(s)|
        ensures LexLe(Sorted(s)[i], Sorted(s)[j]) && Sorted(s)[i] != Sorted(s)[j]
      {
        assert Sorted(s)[j] == rest[j - 1] && rest[j - 1] in rest;
        if i != 0 {
          assert Sorted(s)[i] == rest[i - 1];
        }
      }
    }
  }

  /** An ascending enumeration is determined by its elements. */
  lemma {:induction false} AscendingUnique(a: seq<Bytes>, b: seq<Bytes>)
    requires Ascending(a) && Ascending(b)
    requires forall k :: k in a <==> k in b
    ensures a == b
    decreases |a|
  {
    assert a != [] ==> a[0] in b;
    assert b != [] ==> b[0] in a;
    if a != [] {
      LexAntisymHeads(a, b);
      forall k
        ensures k in a[1..] <==> k in b[1..]
      {
        TailMembers(a, k);
        TailMembers(b, k);
      }
      AscendingUnique(a[1..], b[1..]);
      assert a == [a[0]] + a[1..] && b == [b[0]] + b[1..];
    }
  }

  lemma LexAntisymHeads(a: seq<Bytes>, b: seq<Bytes>)
    requires Ascending(a) && Ascending(b)
    requires a != [] && b != [] && a[0] in b && b[0] in a
    ensures a[0] == b[0]
  {
    var i :| 0 <= i < |b| && b[i] == a[0];
    var j :| 0 <= j < |a| && a[j] == b[0];
    if i != 0 && j != 0 {
      LexAntisym(a[0], b[0]);
    }
  }

  lemma TailMembers(a: seq<Bytes>, k: Bytes)
    requires Ascending(a) && a != []
    ensures k in a[1..] <==> k in a && k != a[0]
  {
  }

  lemma SortedIsTheAscending(s: set<Bytes>, a: seq<Bytes>)
    requires Ascending(a)
    requires forall k :: k in a <==> k in s
    ensures a == Sorted(s)
  {
    SortedElems(s);
    SortedAscending(s);
    AscendingUnique(a, Sorted(s));
  }

  /** The first n elements, as `Iterator::take` gives them. */
  function Take<T>(s: seq<T>, n: nat): (r: seq<T>) {
    if |s| <= n then s else s[..n]
  }

  function Reverse<T>(s: seq<T>): (r: seq<T>)
    ensures |r| == |s|
  {
    if s == [] then [] else Reverse(s[1..]) + [s[0]]
  }

  lemma {:induction false} ReverseAt<T>(s: seq<T>, i: nat)
    requires i < |s|
    ensures Reverse(s)[i] == s[|s| - 1 - i]
  {
    if i < |s| - 1 {
      ReverseAt(s[1..], i);
    }
  }

  lemma ReverseMembers<T(!new)>(s: seq<T>)
    ensures forall x :: x in Reverse(s) <==> x in s
  {
  }

  lemma ReverseReverse<T>(s: seq<T>)
    ensures Reverse(Reverse(s)) == s
  {
    var r := Reverse(s);
    forall i | 0 <= i < |s|
      ensures Reverse(r)[i] == s[i]
    {
      ReverseAt(r, i);
      ReverseAt(s, |s| - 1 - i);
    }
  }

  // ------------------------------------------------------------------
  // Iteration
  // ------------------------------------------------------------------

  function KeysFrom(t: Table, lo: Bytes): (r: set<Bytes>) {
    set k | k in t && LexLe(lo, k)
  }

  function KeysUpTo(t: Table, hi: Bytes): (r: set<Bytes>) {
    set k | k in t && LexLe(k, hi)
  }

  /** The rows of one prefix. */
  function KeysWith(t: Table, p: Bytes): (r: set<Bytes>) {
    set k | k in t && p <= k
  }

  /** `iter_from`: keys at or after `from` in order, or at or before it in reverse order. */
  function IterFrom(t: Table, from: Bytes, backwards: bool): (r: seq<Bytes>)
  {
    if backwards then Reverse(Sorted(KeysUpTo(t, from)))
    else Sorted(KeysFrom(t, from))
  }

  /** `take_while(|(k, _)| k.starts_with(p))`. */
  function TakePrefixed(keys: seq<Bytes>, p: Bytes): (r: seq<Bytes>)
    ensures r <= keys
  {
    if keys == [] || !(p <= keys[0]) then [] else [keys[0]] + TakePrefixed(keys[1..], p)
  }

  /** Cutting at the first mismatch loses nothing when the matches come first. */
  lemma {:induction false} TakePrefixedMembers(keys: seq<Bytes>, p: Bytes)
    requires forall i, j :: 0 <= i < j < |keys| && p <= keys[j] ==> p <= keys[i]
    ensures forall k :: k in TakePrefixed(keys, p) <==> k in keys && p <= k
  {
    if keys != [] {
      assert keys == [keys[0]] + keys[1..];
      if p <= keys[0] {
        TakePrefixedMembers(keys[1..], p);
      } else {
        forall k | k in keys
          ensures !(p <= k)
        {
          var j :| 0 <= j < |keys| && keys[j] == k;
        }
      }
    }
  }

  lemma PrefixAscending(a: seq<Bytes>, b: seq<Bytes>)
    requires Ascending(b) && a <= b
    ensures Ascending(a)
  {
    forall i, j | 0 <= i < j < |a|
      ensures LexLe(a[i], a[j]) && a[i] != a[j]
    {
      assert a[i] == b[i] && a[j] == b[j];
    }
  }

  /** `scan_prefix`. */
  function ScanPrefix(t: Table, p: Bytes): (r: seq<Bytes>)
  {
    TakePrefixed(IterFrom(t, p, false), p)
  }

  /** A forward iteration from `p ++ x`, cut off when the prefix `p` ends. */
  function ScanFrom(t: Table, p: Bytes, x: Bytes): (r: seq<Bytes>)
  {
    TakePrefixed(IterFrom(t, p + x, false), p)
  }

  /** A backward iteration from `p ++ x`, cut off when the prefix `p` ends. */
  function ScanBack(t: Table, p: Bytes, x: Bytes): (r: seq<Bytes>)
  {
    TakePrefixed(IterFrom(t, p + x, true), p)
  }

  /** A forward scan is the ordered filter of the table. */
  lemma ScanFromIsFilter(t: Table, p: Bytes, x: Bytes)
    ensures ScanFrom(t, p, x) == Sorted(KeysWith(t, p) * KeysFrom(t, p + x))
  {
    var all := KeysFrom(t, p + x);
    var keys := Sorted(all);
    SortedElems(all);
    SortedAscending(all);
    forall i, j | 0 <= i < j < |keys| && p <= keys[j]
      ensures p <= keys[i]
    {
      assert keys[i] in keys;
      PrefixLexLe(p, p + x);
      LexTrans(p, p + x, keys[i]);
      PrefixConvex(p, keys[i], keys[j]);
    }
    TakePrefixedMembers(keys, p);
    PrefixAscending(TakePrefixed(keys, p), keys);
    SortedIsTheAscending(KeysWith(t, p) * all, TakePrefixed(keys, p));
  }

  /** A prefix scan visits exactly the keys with that prefix, in order. */
  lemma ScanPrefixIsFilter(t: Table, p: Bytes)
    ensures ScanPrefix(t, p) == Sorted(KeysWith(t, p))
  {
    assert p + [] == p;
    ScanFromIsFilter(t, p, []);
    forall k | p <= k
      ensures LexLe(p, k)
    {
      PrefixLexLe(p, k);
    }
    assert KeysWith(t, p) * KeysFrom(t, p) == KeysWith(t, p);
  }

  lemma ScanPrefixMembers(t: Table, p: Bytes)
    ensures forall k :: k in ScanPrefix(t, p) <==> k in t && p <= k
    ensures Ascending(ScanPrefix(t, p))
    ensures |ScanPrefix(t, p)| == |KeysWith(t, p)|
  {
    ScanPrefixIsFilter(t, p);
    SortedElems(KeysWith(t, p));
    SortedAscending(KeysWith(t, p));
  }

  ghost predicate Descending(s: seq<Bytes>) {
    forall i, j :: 0 <= i < j < |s| ==> LexLe(s[j], s[i]) && s[i] != s[j]
  }

  lemma ReverseDescends(s: seq<Bytes>)
    requires Ascending(s)
    ensures Descending(Reverse(s))
  {
    var r := Reverse(s);
    forall i, j | 0 <= i < j < |r|
      ensures LexLe(r[j], r[i]) && r[i] != r[j]
    {
      ReverseAt(s, i);
      ReverseAt(s, j);
    }
  }

  lemma ReverseAscends(s: seq<Bytes>)
    requires Descending(s)
    ensures Ascending(Reverse(s))
  {
    var r := Reverse(s);
    forall i, j | 0 <= i < j < |r|
      ensures LexLe(r[i], r[j]) && r[i] != r[j]
    {
      ReverseAt(s, i);
      ReverseAt(s, j);
    }
  }

  /** A backward scan is the filter of the table, in descending order. */
  lemma ScanBackIsFilter(t: Table, p: Bytes, x: Bytes)
    ensures ScanBack(t, p, x) == Reverse(Sorted(KeysWith(t, p) * KeysUpTo(t, p + x)))
  {
    var all := KeysUpTo(t, p + x);
    var keys := Reverse(Sorted(all));
    SortedElems(all);
    SortedAscending(all);
    ReverseDescends(Sorted(all));
    ReverseMembers(Sorted(all));
    forall i, j | 0 <= i < j < |keys| && p <= keys[j]
      ensures p <= keys[i]
    {
      assert keys[i] in keys;
      PrefixLexLe(p, keys[j]);
      LexTrans(p, keys[j], keys[i]);
      PrefixConvex(p, keys[i], p + x);
    }
    TakePrefixedMembers(keys, p);
    var back := TakePrefixed(keys, p);
    PrefixDescending(back, keys);
    ReverseAscends(back);
    ReverseMembers(back);
    SortedIsTheAscending(KeysWith(t, p) * all, Reverse(back));
    ReverseReverse(back);
  }

  lemma PrefixDescending(a: seq<Bytes>, b: seq<Bytes>)
    requires Descending(b) && a <= b
    ensures Descending(a)
  {
    forall i, j | 0 <= i < j < |a|
      ensures LexLe(a[j], a[i]) && a[i] != a[j]
    {
      assert a[i] == b[i] && a[j] == b[j];
    }
  }

  lemma ScanBackMembers(t: Table, p: Bytes, x: Bytes)
    ensures forall k :: k in ScanBack(t, p, x) <==> k in t && p <= k && LexLe(k, p + x)
    ensures Descending(ScanBack(t, p, x))
  {
    var s := KeysWith(t, p) * KeysUpTo(t, p + x);
    ScanBackIsFilter(t, p, x);
    SortedElems(s);
    SortedAscending(s);
    ReverseDescends(Sorted(s));
    ReverseMembers(Sorted(s));
  }

  lemma ScanFromMembers(t: Table, p: Bytes, x: Bytes)
    ensures forall k :: k in ScanFrom(t, p, x) <==> k in t && p <= k && LexLe(p + x, k)
    ensures Ascending(ScanFrom(t, p, x))
  {
    var s := KeysWith(t, p) * KeysFrom(t, p + x);
    ScanFromIsFilter(t, p, x);
    SortedElems(s);
    SortedAscending(s);
  }

  // ------------------------------------------------------------------
  // Counters
  // ------------------------------------------------------------------

  /** `utils::increment`: a missing or malformed counter starts at one. The addition wraps, as it
      does in an optimised build. */
  function Increment(prev: Option<Bytes>): (r: Bytes)
    ensures |r| == 8
  {
    match prev
    case Some(b) => if |b| == 8 then Be64(WrappingAdd(U64FromBytes(b).value, 1)) else Be64(1)
    case None => Be64(1)
  }

  /** What a reader of the counter sees: zero before the first increment, an error if malformed. */
  function Count(prev: Option<Bytes>): (n: Option<nat>)
  {
    match prev
    case None => Some(0)
    case Some(b) => U64FromBytes(b)
  }

  /** A readable counter goes up by one exactly when it is not at its largest value, from which it
      falls to zero; an unreadable one becomes one. */
  lemma IncrementCounts(prev: Option<Bytes>)
    ensures U64FromBytes(Increment(None)) == Some(1)
    ensures Count(prev).None? ==> Count(Some(Increment(prev))) == Some(1)
    ensures Count(prev).Some? && Count(prev).value != U64_MAX ==>
      Count(Some(Increment(prev))) == Some(Count(prev).value + 1)
    ensures Count(prev) == Some(U64_MAX) ==> Count(Some(Increment(prev))) == Some(0)
  {
    Be64RoundTrip(1);
    if prev.Some? && |prev.value| == 8 {
      Be64RoundTrip(WrappingAdd(U64FromBytes(prev.value).value, 1));
    }
  }
}
