/** Account data: one value per user, room (or none) and type, kept in a data table ordered by
    the count of the last change and found through an index by type.
 */
module AccountData {
  import opened ByteStrings
  import opened KvTable
  import opened Text

  /** Whose data: the room is empty for global account data. */
  datatype Scope = Scope(room: Bytes, user: Bytes)

  datatype Name = Name(scope: Scope, kind: Bytes)

  /** The last update of one name. */
  datatype Entry = Entry(count: nat, value: Bytes)

  type Entries = map<Name, Entry>

  predicate ValidScope(s: Scope) {
    IsText(s.room) && IsText(s.user)
  }

  predicate ValidName(n: Name) {
    ValidScope(n.scope) && IsText(n.kind)
  }

  function Prefix(s: Scope): (p: Bytes) {
    s.room + [SEP] + (s.user + [SEP])
  }

  /** A key of the data table. */
  function DataKey(n: Name, count: nat): (k: Bytes)
    requires count < U64
  {
    Prefix(n.scope) + (Be64(count) + [SEP] + n.kind)
  }

  /** A key of the type index. */
  function IndexKey(n: Name): (k: Bytes) {
    Prefix(n.scope) + n.kind
  }

  lemma PrefixUnique(s: Scope, s': Scope, x: Bytes, x': Bytes)
    requires ValidScope(s) && ValidScope(s')
    ensures Prefix(s) + x == Prefix(s') + x' <==> s == s' && x == x'
  {
    TextHasNoSep(s.room);
    TextHasNoSep(s.user);
    TextHasNoSep(s'.room);
    TextHasNoSep(s'.user);
    assert Prefix(s) + x == s.room + [SEP] + (s.user + [SEP] + x);
    assert Prefix(s') + x' == s'.room + [SEP] + (s'.user + [SEP] + x');
    JoinInjective(s.room, s.user + [SEP] + x, s'.room, s'.user + [SEP] + x');
    JoinInjective(s.user, x, s'.user, x');
  }

  lemma PrefixExact(s: Scope, s': Scope, x': Bytes)
    requires ValidScope(s) && ValidScope(s')
    ensures Prefix(s) <= Prefix(s') + x' <==> s == s'
  {
    var k := Prefix(s') + x';
    if Prefix(s) <= k {
      assert k == Prefix(s) + k[|Prefix(s)|..];
      PrefixUnique(s, s', k[|Prefix(s)|..], x');
    }
  }

  lemma IndexKeyInjective(n: Name, n': Name)
    requires ValidName(n) && ValidName(n')
    ensures IndexKey(n) == IndexKey(n') <==> n == n'
  {
    PrefixUnique(n.scope, n'.scope, n.kind, n'.kind);
  }

  lemma DataKeyInjective(n: Name, c: nat, n': Name, c': nat)
    requires ValidName(n) && ValidName(n') && c < U64 && c' < U64
    ensures DataKey(n, c) == DataKey(n', c') <==> n == n' && c == c'
  {
    var x, x' := Be64(c) + [SEP] + n.kind, Be64(c') + [SEP] + n'.kind;
    PrefixUnique(n.scope, n'.scope, x, x');
    if x == x' {
      assert x[..8] == Be64(c) && x'[..8] == Be64(c');
      assert x[9..] == n.kind && x'[9..] == n'.kind;
      Be64Injective(c, c');
    }
  }

  // ------------------------------------------------------------------
  // The two tables hold the entries
  // ------------------------------------------------------------------

  ghost predicate IndexAt(index: Table, m: Entries, n: Name) {
    ValidName(n) ==>
      && (IndexKey(n) in index <==> n in m)
      && (n in m && m[n].count < U64 && IndexKey(n) in index ==> index[IndexKey(n)] == DataKey(n, m[n].count))
  }

  ghost predicate DataAt(data: Table, m: Entries, n: Name) {
    n in m ==> ValidName(n) && m[n].count < U64 && DataKey(n, m[n].count) in data &&
               data[DataKey(n, m[n].count)] == m[n].value
  }

  ghost predicate RowAt(data: Table, m: Entries, k: Bytes) {
    k in data ==> exists n :: n in m && ValidName(n) && m[n].count < U64 && k == DataKey(n, m[n].count)
  }

  ghost predicate IndexRowAt(index: Table, m: Entries, k: Bytes) {
    k in index ==> exists n :: n in m && ValidName(n) && k == IndexKey(n)
  }

  /** Each entry has one data row and one index row that names it, and there are no other rows. */
  ghost predicate Holds(data: Table, index: Table, m: Entries) {
    && (forall n {:trigger IndexAt(index, m, n)} :: IndexAt(index, m, n))
    && (forall n {:trigger DataAt(data, m, n)} :: DataAt(data, m, n))
    && (forall k {:trigger RowAt(data, m, k)} :: RowAt(data, m, k))
    && (forall k {:trigger IndexRowAt(index, m, k)} :: IndexRowAt(index, m, k))
  }

  /** The data rows after an update: the new row in, the previous one of that name out. */
  function DataAfter(data: Table, index: Table, n: Name, c: nat, v: Bytes): (data': Table)
    requires c < U64
  {
    var added := data[DataKey(n, c) := v];
    if IndexKey(n) in index then added - {index[IndexKey(n)]} else added
  }

  ghost predicate Fresh(m: Entries, c: nat) {
    c < U64 && forall n :: n in m ==> m[n].count < c
  }

  lemma UpdateIndexAt(data: Table, index: Table, m: Entries, n: Name, c: nat, v: Bytes, q: Name)
    requires Holds(data, index, m) && ValidName(n) && Fresh(m, c)
    ensures IndexAt(index[IndexKey(n) := DataKey(n, c)], m[n := Entry(c, v)], q)
  {
    assert IndexAt(index, m, q);
    if ValidName(q) {
      IndexKeyInjective(n, q);
    }
  }

  lemma UpdateDataAt(data: Table, index: Table, m: Entries, n: Name, c: nat, v: Bytes, q: Name)
    requires Holds(data, index, m) && ValidName(n) && Fresh(m, c)
    ensures DataAt(DataAfter(data, index, n, c, v), m[n := Entry(c, v)], q)
  {
    assert DataAt(data, m, q) && IndexAt(index, m, n) && DataAt(data, m, n);
    if q in m {
      DataKeyInjective(n, c, q, m[q].count);
    }
    if n in m {
      DataKeyInjective(n, c, n, m[n].count);
      if q in m {
        DataKeyInjective(n, m[n].count, q, m[q].count);
      }
    }
  }

  lemma UpdateRowAt(data: Table, index: Table, m: Entries, n: Name, c: nat, v: Bytes, k: Bytes)
    requires Holds(data, index, m) && ValidName(n) && Fresh(m, c)
    ensures RowAt(DataAfter(data, index, n, c, v), m[n := Entry(c, v)], k)
  {
    var m' := m[n := Entry(c, v)];
    assert RowAt(data, m, k) && IndexAt(index, m, n);
    if k == DataKey(n, c) {
      assert n in m' && m'[n].count == c;
    } else if k in DataAfter(data, index, n, c, v) {
      var q :| q in m && ValidName(q) && m[q].count < U64 && k == DataKey(q, m[q].count);
      assert q in m' && q != n;
    }
  }

  lemma UpdateIndexRowAt(data: Table, index: Table, m: Entries, n: Name, c: nat, v: Bytes, k: Bytes)
    requires Holds(data, index, m) && ValidName(n) && Fresh(m, c)
    ensures IndexRowAt(index[IndexKey(n) := DataKey(n, c)], m[n := Entry(c, v)], k)
  {
    var m' := m[n := Entry(c, v)];
    assert IndexRowAt(index, m, k);
    if k == IndexKey(n) {
      assert n in m';
    } else if k in index {
      var q :| q in m && ValidName(q) && k == IndexKey(q);
      assert q in m';
    }
  }

  /** An update keeps index and data in bijection and replaces one entry. */
  lemma UpdateHolds(data: Table, index: Table, m: Entries, n: Name, c: nat, v: Bytes)
    requires Holds(data, index, m) && ValidName(n) && Fresh(m, c)
    ensures Holds(DataAfter(data, index, n, c, v), index[IndexKey(n) := DataKey(n, c)], m[n := Entry(c, v)])
  {
    var data', index', m' := DataAfter(data, index, n, c, v), index[IndexKey(n) := DataKey(n, c)], m[n := Entry(c, v)];
    forall q
      ensures IndexAt(index', m', q) && DataAt(data', m', q)
    {
      UpdateIndexAt(data, index, m, n, c, v, q);
      UpdateDataAt(data, index, m, n, c, v, q);
    }
    forall k
      ensures RowAt(data', m', k) && IndexRowAt(index', m', k)
    {
      UpdateRowAt(data, index, m, n, c, v, k);
      UpdateIndexRowAt(data, index, m, n, c, v, k);
    }
  }

  // ------------------------------------------------------------------
  // Changes since a token
  // ------------------------------------------------------------------

  /** `since + 1` in 64 bits, as an optimised build computes it. */
  function FirstPossible(since: nat): (n: nat)
    requires since < U64
    ensures n < U64
  {
    WrappingAdd(since, 1)
  }

  /** The latest values of one scope from a count on. */
  ghost function ChangedFrom(m: Entries, s: Scope, first: nat): (r: map<Bytes, Bytes>) {
    map n | n in m && n.scope == s && m[n].count >= first :: n.kind := m[n].value
  }

  /** Bytes of a scope's keys are ordered by count, whatever the type. */
  lemma DataKeyFrom(n: Name, c: nat, first: nat)
    requires c < U64 && first < U64
    ensures LexLe(Prefix(n.scope) + Be64(first), DataKey(n, c)) <==> first <= c
  {
    var x := [SEP] + n.kind;
    assert Be64(c) + [SEP] + n.kind == Be64(c) + x;
    LexCancel(Prefix(n.scope), Be64(first), Be64(c) + x);
    if first == c {
      PrefixLexLe(Be64(first), Be64(c) + x);
    } else {
      Be64Order(first, c, [], x);
      assert Be64(first) + [] == Be64(first);
    }
  }

  lemma KindOfKey(n: Name, c: nat)
    requires ValidName(n) && c < U64
    ensures LastPart(DataKey(n, c)) == n.kind
  {
    TextHasNoSep(n.kind);
    assert DataKey(n, c) == Prefix(n.scope) + Be64(c) + [SEP] + n.kind;
    LastPartJoin(Prefix(n.scope) + Be64(c), n.kind);
  }

  /** The entry behind a key of one scope. */
  lemma NameOfKey(data: Table, index: Table, m: Entries, s: Scope, k: Bytes) returns (n: Name)
    requires Holds(data, index, m) && ValidScope(s) && k in data && Prefix(s) <= k
    ensures n in m && n.scope == s && m[n].count < U64 && k == DataKey(n, m[n].count)
    ensures LastPart(k) == n.kind && IsText(n.kind) && data[k] == m[n].value
  {
    assert RowAt(data, m, k);
    n :| n in m && ValidName(n) && m[n].count < U64 && k == DataKey(n, m[n].count);
    PrefixExact(s, n.scope, Be64(m[n].count) + [SEP] + n.kind);
    KindOfKey(n, m[n].count);
    assert DataAt(data, m, n);
  }

  /** A key's type and value belong to the result. */
  ghost predicate Belongs(data: Table, all: map<Bytes, Bytes>, k: Bytes, kind: Bytes) {
    k in data && kind in all && IsText(kind) && all[kind] == data[k]
  }

  /** The loop of `changes_since`: each row is filed under its type. */
  method Collect(data: Table, keys: seq<Bytes>, kindOf: Bytes -> Bytes, ghost all: map<Bytes, Bytes>)
    returns (r: map<Bytes, Bytes>)
    requires forall i :: 0 <= i < |keys| ==> Belongs(data, all, keys[i], kindOf(keys[i]))
    ensures forall kind :: kind in r ==> kind in all && r[kind] == all[kind]
    ensures forall i :: 0 <= i < |keys| ==> kindOf(keys[i]) in r
  {
    r := map[];
    for i := 0 to |keys|
      invariant forall kind :: kind in r ==> kind in all && r[kind] == all[kind]
      invariant forall j :: 0 <= j < i ==> kindOf(keys[j]) in r
    {
      var kind := kindOf(keys[i]);
      assert Belongs(data, all, keys[i], kind);
      r := r[kind := data[keys[i]]];
    }
  }

  lemma KeyIsChange(data: Table, index: Table, m: Entries, s: Scope, first: nat, k: Bytes)
    requires Holds(data, index, m) && ValidScope(s) && first < U64
    requires k in data && Prefix(s) <= k && LexLe(Prefix(s) + Be64(first), k)
    ensures Belongs(data, ChangedFrom(m, s, first), k, LastPart(k))
  {
    var n := NameOfKey(data, index, m, s, k);
    DataKeyFrom(n, m[n].count, first);
    assert n.kind in ChangedFrom(m, s, first);
  }

  lemma ChangeHasKey(data: Table, index: Table, m: Entries, s: Scope, first: nat, kind: Bytes) returns (k: Bytes)
    requires Holds(data, index, m) && ValidScope(s) && first < U64 && kind in ChangedFrom(m, s, first)
    ensures k in data && Prefix(s) <= k && LexLe(Prefix(s) + Be64(first), k) && LastPart(k) == kind
  {
    var n :| n in m && n.scope == s && m[n].count >= first && n.kind == kind;
    assert DataAt(data, m, n);
    k := DataKey(n, m[n].count);
    DataKeyFrom(n, m[n].count, first);
    KindOfKey(n, m[n].count);
    assert Prefix(s) <= k;
  }

  /** Index rows and data rows pair up one to one. */
  lemma IndexDataBijection(data: Table, index: Table, m: Entries)
    requires Holds(data, index, m)
    ensures forall i :: i in index ==> index[i] in data
    ensures forall k :: k in data ==> exists i :: i in index && index[i] == k
    ensures forall i, j :: i in index && j in index && index[i] == index[j] ==> i == j
  {
    forall i | i in index
      ensures index[i] in data
    {
      var n := NameOfIndex(data, index, m, i);
    }
    forall k | k in data
      ensures exists i :: i in index && index[i] == k
    {
      assert RowAt(data, m, k);
      var n :| n in m && ValidName(n) && m[n].count < U64 && k == DataKey(n, m[n].count);
      assert IndexAt(index, m, n);
      assert IndexKey(n) in index && index[IndexKey(n)] == k;
    }
    forall i, j | i in index && j in index && index[i] == index[j]
      ensures i == j
    {
      var n := NameOfIndex(data, index, m, i);
      var n' := NameOfIndex(data, index, m, j);
      DataKeyInjective(n, m[n].count, n', m[n'].count);
    }
  }

  lemma NameOfIndex(data: Table, index: Table, m: Entries, i: Bytes) returns (n: Name)
    requires Holds(data, index, m) && i in index
    ensures n in m && ValidName(n) && m[n].count < U64 && i == IndexKey(n)
    ensures index[i] == DataKey(n, m[n].count) && index[i] in data
  {
    assert IndexRowAt(index, m, i);
    n :| n in m && ValidName(n) && i == IndexKey(n);
    assert IndexAt(index, m, n) && DataAt(data, m, n);
  }

  /** The value lacks its type or its content. */
  datatype Error = BadRequest

  class Store {
    var data: Table
    var index: Table
    var count: nat
    /** The last update of each name. */
    ghost var entries: Entries

    ghost predicate Valid()
      reads this
    {
      Holds(data, index, entries) && count < U64 && forall n :: n in entries ==> entries[n].count <= count
    }

    constructor ()
      ensures Valid() && entries == map[] && count == 0
    {
      data, index, count, entries := map[], map[], 0, map[];
      new;
      assert forall n {:trigger IndexAt(index, entries, n)} :: IndexAt(index, entries, n);
      assert forall k {:trigger RowAt(data, entries, k)} :: RowAt(data, entries, k);
      assert forall k {:trigger IndexRowAt(index, entries, k)} :: IndexRowAt(index, entries, k);
    }

    /** The count is drawn even when the value is then refused; only the counter shows it. */
    method Update(n: Name, value: Bytes, complete: bool) returns (r: Result<(), Error>)
      requires Valid() && ValidName(n) && count + 1 < U64
      modifies this
      ensures Valid() && count == old(count) + 1
      ensures complete ==> r == Ok(()) && entries == old(entries)[n := Entry(count, value)]
      ensures !complete ==> r == Err(BadRequest) && unchanged(`data, `index, `entries)
    {
      count := count + 1;
      var dataId := DataKey(n, count);
      var key := IndexKey(n);
      if !complete {
        return Err(BadRequest);
      }
      data := data[dataId := value];
      var prev := if key in index then Some(index[key]) else None;
      index := index[key := dataId];
      if prev.Some? {
        data := data - {prev.value};
      }
      entries := entries[n := Entry(count, value)];
      UpdateHolds(old(data), old(index), old(entries), n, count, value);
      r := Ok(());
    }

    /** The value of the last update, if there was one. */
    method Get(n: Name) returns (r: Option<Bytes>)
      requires Valid() && ValidName(n)
      ensures r == if n in entries then Some(entries[n].value) else None
    {
      var key := IndexKey(n);
      assert IndexAt(index, entries, n) && DataAt(data, entries, n);
      if key in index && index[key] in data {
        r := Some(data[index[key]]);
      } else {
        r := None;
      }
    }

    /** Exactly the types last updated after `since`, each with its latest value, unless
        `since + 1` wraps around. */
    method ChangesSince(s: Scope, since: nat) returns (r: map<Bytes, Bytes>)
      requires Valid() && ValidScope(s) && since < U64
      ensures r == ChangedFrom(entries, s, FirstPossible(since))
    {
      var first := FirstPossible(since);
      ghost var all := ChangedFrom(entries, s, first);
      var keys := ScanFrom(data, Prefix(s), Be64(first));
      ScanFromMembers(data, Prefix(s), Be64(first));
      forall i | 0 <= i < |keys|
        ensures Belongs(data, all, keys[i], LastPart(keys[i]))
      {
        assert keys[i] in keys;
        KeyIsChange(data, index, entries, s, first, keys[i]);
      }
      r := Collect(data, keys, LastPart, all);
      forall kind | kind in all
        ensures kind in r
      {
        var k := ChangeHasKey(data, index, entries, s, first, kind);
        assert k in keys;
      }
    }
  }

  /** What `changes_since` promises: the types whose last update is after the token. */
  ghost function ChangedAfter(m: Entries, s: Scope, since: nat): (r: map<Bytes, Bytes>) {
    map n | n in m && n.scope == s && m[n].count > since :: n.kind := m[n].value
  }

  /** The promise is kept for every token but the largest one, for which everything is returned
      although nothing has changed. */
  lemma ChangesExact(m: Entries, s: Scope, since: nat)
    requires since < U64 && forall n :: n in m ==> m[n].count < U64
    ensures ChangedFrom(m, s, FirstPossible(since)) == ChangedAfter(m, s, since)
      <==> since != U64_MAX || (forall n :: n in m ==> n.scope != s)
  {
    if since != U64_MAX {
      assert FirstPossible(since) == since + 1;
    } else {
      assert FirstPossible(since) == 0;
      forall n | n in m && n.scope == s
        ensures n.kind in ChangedFrom(m, s, 0) && n.kind !in ChangedAfter(m, s, since)
      {
      }
    }
  }

  /** With one entry, made at count 1, the largest token returns it all the same. */
  lemma LargestTokenReturnsAll(n: Name, v: Bytes)
    ensures
      var m := map[n := Entry(1, v)];
      && n.kind in ChangedFrom(m, n.scope, FirstPossible(U64_MAX))
      && n.kind !in ChangedAfter(m, n.scope, U64_MAX)
  {
  }
}
