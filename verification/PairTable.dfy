/** Tables whose keys join two texts with 0xff, such as user and room, in one order or the
    other. A table holds a map from pairs to values; scanning a first component enumerates its
    partners.
 */
module PairTable {
  import opened ByteStrings
  import opened KvTable
  import opened Text

  type Pair = (Bytes, Bytes)

  function Join(a: Bytes, b: Bytes): (k: Bytes) {
    a + [SEP] + b
  }

  /** The key of a pair, with the second component first when swapped. */
  function PairKey(p: Pair, swap: bool): (k: Bytes) {
    if swap then Join(p.1, p.0) else Join(p.0, p.1)
  }

  predicate ValidPair(p: Pair) {
    IsText(p.0) && IsText(p.1)
  }

  lemma PairKeyInjective(p: Pair, q: Pair, swap: bool)
    requires ValidPair(p) && ValidPair(q)
    ensures PairKey(p, swap) == PairKey(q, swap) <==> p == q
  {
    TextHasNoSep(p.0);
    TextHasNoSep(p.1);
    TextHasNoSep(q.0);
    TextHasNoSep(q.1);
    if swap {
      JoinInjective(p.1, p.0, q.1, q.0);
    } else {
      JoinInjective(p.0, p.1, q.0, q.1);
    }
  }

  // ------------------------------------------------------------------
  // A table that holds a map
  // ------------------------------------------------------------------

  ghost predicate PairAt(t: Table, m: map<Pair, Bytes>, swap: bool, p: Pair) {
    ValidPair(p) ==>
      && (PairKey(p, swap) in t <==> p in m)
      && (p in m && PairKey(p, swap) in t ==> t[PairKey(p, swap)] == m[p])
  }

  ghost predicate KeyAt(t: Table, m: map<Pair, Bytes>, swap: bool, k: Bytes) {
    k in t ==> exists p :: p in m && k == PairKey(p, swap)
  }

  /** The table has one row for every pair of the map and no other row. */
  ghost predicate Holds(t: Table, m: map<Pair, Bytes>, swap: bool) {
    && (forall p :: p in m ==> ValidPair(p))
    && (forall p {:trigger PairAt(t, m, swap, p)} :: PairAt(t, m, swap, p))
    && (forall k {:trigger KeyAt(t, m, swap, k)} :: KeyAt(t, m, swap, k))
  }

  lemma HoldsEmpty(swap: bool)
    ensures Holds(map[], map[], swap)
  {
  }

  lemma HoldsGet(t: Table, m: map<Pair, Bytes>, swap: bool, p: Pair)
    requires Holds(t, m, swap) && ValidPair(p)
    ensures PairKey(p, swap) in t <==> p in m
    ensures p in m ==> t[PairKey(p, swap)] == m[p]
  {
    assert PairAt(t, m, swap, p);
  }

  lemma HoldsPut(t: Table, m: map<Pair, Bytes>, swap: bool, p: Pair, v: Bytes)
    requires Holds(t, m, swap) && ValidPair(p)
    ensures Holds(t[PairKey(p, swap) := v], m[p := v], swap)
  {
    var t', m' := t[PairKey(p, swap) := v], m[p := v];
    forall q
      ensures PairAt(t', m', swap, q)
    {
      assert PairAt(t, m, swap, q);
      if ValidPair(q) {
        PairKeyInjective(p, q, swap);
      }
    }
    forall k
      ensures KeyAt(t', m', swap, k)
    {
      assert KeyAt(t, m, swap, k);
      if k in t {
        var q :| q in m && k == PairKey(q, swap);
        assert q in m';
      } else if k in t' {
        assert p in m';
      }
    }
  }

  lemma HoldsRemove(t: Table, m: map<Pair, Bytes>, swap: bool, p: Pair)
    requires Holds(t, m, swap) && ValidPair(p)
    ensures Holds(t - {PairKey(p, swap)}, m - {p}, swap)
  {
    var t', m' := t - {PairKey(p, swap)}, m - {p};
    forall q
      ensures PairAt(t', m', swap, q)
    {
      assert PairAt(t, m, swap, q);
      if ValidPair(q) {
        PairKeyInjective(p, q, swap);
      }
    }
    forall k
      ensures KeyAt(t', m', swap, k)
    {
      assert KeyAt(t, m, swap, k);
      if k in t' {
        var q :| q in m && k == PairKey(q, swap);
        assert q in m';
      }
    }
  }

  // ------------------------------------------------------------------
  // Enumeration
  // ------------------------------------------------------------------

  function First(p: Pair, swap: bool): (a: Bytes) {
    if swap then p.1 else p.0
  }

  function Second(p: Pair, swap: bool): (b: Bytes) {
    if swap then p.0 else p.1
  }

  function MakePair(a: Bytes, b: Bytes, swap: bool): (p: Pair) {
    if swap then (b, a) else (a, b)
  }

  /** The partners of a first component. */
  ghost function Partners(m: map<Pair, Bytes>, a: Bytes, swap: bool): (r: set<Bytes>) {
    set p | p in m && First(p, swap) == a :: Second(p, swap)
  }

  lemma PartnersMember(m: map<Pair, Bytes>, a: Bytes, swap: bool, b: Bytes)
    ensures b in Partners(m, a, swap) <==> MakePair(a, b, swap) in m
  {
  }

  function LastParts(keys: seq<Bytes>): (r: seq<Bytes>)
    ensures |r| == |keys|
    ensures forall i :: 0 <= i < |r| ==> r[i] == LastPart(keys[i])
  {
    seq(|keys|, i requires 0 <= i < |keys| => LastPart(keys[i]))
  }

  /** Every iterator over such a table: `scan_prefix`, then `rsplit(0xff).next()`. */
  function Enumerate(t: Table, a: Bytes): (r: seq<Bytes>) {
    LastParts(ScanPrefix(t, a + [SEP]))
  }

  lemma ScannedPair(t: Table, m: map<Pair, Bytes>, swap: bool, a: Bytes, k: Bytes) returns (b: Bytes)
    requires Holds(t, m, swap) && NoSep(a) && k in ScanPrefix(t, a + [SEP])
    ensures MakePair(a, b, swap) in m && IsText(b) && k == Join(a, b) && LastPart(k) == b
  {
    ScanPrefixMembers(t, a + [SEP]);
    assert KeyAt(t, m, swap, k);
    var p :| p in m && k == PairKey(p, swap);
    b := Second(p, swap);
    TextHasNoSep(First(p, swap));
    TextHasNoSep(b);
    JoinPrefix(a, First(p, swap), b);
    LastPartJoin(a, b);
  }

  lemma PartnerIsListed(t: Table, m: map<Pair, Bytes>, swap: bool, a: Bytes, b: Bytes)
    requires Holds(t, m, swap) && MakePair(a, b, swap) in m
    ensures b in Enumerate(t, a)
  {
    var keys := ScanPrefix(t, a + [SEP]);
    HoldsGet(t, m, swap, MakePair(a, b, swap));
    ScanPrefixMembers(t, a + [SEP]);
    assert Join(a, b) in keys;
    var i :| 0 <= i < |keys| && keys[i] == Join(a, b);
    TextHasNoSep(b);
    LastPartJoin(a, b);
    assert Enumerate(t, a)[i] == b;
  }

  lemma ListedIsPartner(t: Table, m: map<Pair, Bytes>, swap: bool, a: Bytes, b: Bytes)
    requires Holds(t, m, swap) && NoSep(a) && b in Enumerate(t, a)
    ensures MakePair(a, b, swap) in m
  {
    var keys, r := ScanPrefix(t, a + [SEP]), Enumerate(t, a);
    var i :| 0 <= i < |r| && r[i] == b;
    assert keys[i] in keys;
    var b' := ScannedPair(t, m, swap, a, keys[i]);
  }

  lemma EnumerateMembers(t: Table, m: map<Pair, Bytes>, swap: bool, a: Bytes)
    requires Holds(t, m, swap) && NoSep(a)
    ensures forall b :: b in Enumerate(t, a) <==> b in Partners(m, a, swap)
  {
    forall b
      ensures b in Enumerate(t, a) <==> b in Partners(m, a, swap)
    {
      PartnersMember(m, a, swap, b);
      if b in Enumerate(t, a) {
        ListedIsPartner(t, m, swap, a, b);
      } else if MakePair(a, b, swap) in m {
        PartnerIsListed(t, m, swap, a, b);
      }
    }
  }

  lemma EnumerateAscending(t: Table, m: map<Pair, Bytes>, swap: bool, a: Bytes)
    requires Holds(t, m, swap) && NoSep(a)
    ensures Ascending(Enumerate(t, a))
  {
    var keys, r := ScanPrefix(t, a + [SEP]), Enumerate(t, a);
    ScanPrefixMembers(t, a + [SEP]);
    forall i, j | 0 <= i < j < |r|
      ensures LexLe(r[i], r[j]) && r[i] != r[j]
    {
      assert keys[i] in keys && keys[j] in keys;
      var b := ScannedPair(t, m, swap, a, keys[i]);
      var c := ScannedPair(t, m, swap, a, keys[j]);
      LexCancel(a + [SEP], b, c);
    }
  }

  /** The enumeration is the ordered list of the partners, and each of them is text again. */
  lemma EnumerateIs(t: Table, m: map<Pair, Bytes>, swap: bool, a: Bytes)
    requires Holds(t, m, swap) && IsText(a)
    ensures Enumerate(t, a) == Sorted(Partners(m, a, swap))
    ensures forall b :: b in Enumerate(t, a) ==> IsText(b)
  {
    TextHasNoSep(a);
    EnumerateMembers(t, m, swap, a);
    EnumerateAscending(t, m, swap, a);
    SortedIsTheAscending(Partners(m, a, swap), Enumerate(t, a));
  }

  /** The iterators that also return the stored value. */
  function EnumerateRows(t: Table, a: Bytes): (r: seq<(Bytes, Bytes)>)
    ensures |r| == |Enumerate(t, a)|
    ensures forall i :: 0 <= i < |r| ==> r[i].0 == Enumerate(t, a)[i]
  {
    ScanPrefixMembers(t, a + [SEP]);
    var keys := ScanPrefix(t, a + [SEP]);
    seq(|keys|, i requires 0 <= i < |keys| => (LastPart(keys[i]), assert keys[i] in keys; t[keys[i]]))
  }

  /** Each partner is listed with its own value. */
  lemma EnumerateRowsIs(t: Table, m: map<Pair, Bytes>, swap: bool, a: Bytes)
    requires Holds(t, m, swap) && IsText(a)
    ensures forall i :: 0 <= i < |EnumerateRows(t, a)| ==>
      var (b, v) := EnumerateRows(t, a)[i];
      MakePair(a, b, swap) in m && m[MakePair(a, b, swap)] == v
  {
    TextHasNoSep(a);
    ScanPrefixMembers(t, a + [SEP]);
    var keys, rows := ScanPrefix(t, a + [SEP]), EnumerateRows(t, a);
    forall i | 0 <= i < |rows|
      ensures MakePair(a, rows[i].0, swap) in m && m[MakePair(a, rows[i].0, swap)] == rows[i].1
    {
      assert keys[i] in keys;
      var b := ScannedPair(t, m, swap, a, keys[i]);
      HoldsGet(t, m, swap, MakePair(a, b, swap));
    }
  }
}
