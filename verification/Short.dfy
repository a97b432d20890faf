/** Short ids: event ids, state keys, state hashes and room ids are interned as numbers drawn
    from the global counter. Event ids and state keys can be looked up in both directions, each
    direction through a bounded cache.
 */
module Short {
  import opened ByteStrings
  import opened KvTable
  import opened Text

  /** What is interned. */
  datatype Id =
    | EventId(id: Bytes)
    | StateKey(kind: Bytes, key: Bytes)
    | StateHash(hash: Bytes)
    | RoomId(room: Bytes)

  predicate ValidId(k: Id) {
    match k
    case EventId(id) => IsText(id)
    case StateKey(kind, key) => IsText(kind) && IsText(key)
    case StateHash(_) => true
    case RoomId(room) => IsText(room)
  }

  function IdBytes(k: Id): (b: Bytes) {
    match k
    case EventId(id) => id
    case StateKey(kind, key) => kind + [SEP] + key
    case StateHash(hash) => hash
    case RoomId(room) => room
  }

  datatype Tables = Tables(
    eventidShort: Table, shortEventid: Table,
    statekeyShort: Table, shortStatekey: Table,
    statehashShort: Table, roomidShort: Table)

  /** The table an id is interned in. */
  function Forward(ts: Tables, k: Id): (t: Table) {
    match k
    case EventId(_) => ts.eventidShort
    case StateKey(_, _) => ts.statekeyShort
    case StateHash(_) => ts.statehashShort
    case RoomId(_) => ts.roomidShort
  }

  predicate Reversible(k: Id) {
    k.EventId? || k.StateKey?
  }

  /** The table that leads back from a short id. */
  function Backward(ts: Tables, k: Id): (t: Table)
    requires Reversible(k)
  {
    if k.EventId? then ts.shortEventid else ts.shortStatekey
  }

  predicate SameKind(k: Id, k': Id) {
    (k.EventId? <==> k'.EventId?) && (k.StateKey? <==> k'.StateKey?) && (k.StateHash? <==> k'.StateHash?)
  }

  lemma IdBytesInjective(k: Id, k': Id)
    requires ValidId(k) && ValidId(k') && SameKind(k, k')
    ensures IdBytes(k) == IdBytes(k') <==> k == k'
  {
    if k.StateKey? {
      TextHasNoSep(k.kind);
      TextHasNoSep(k'.kind);
      JoinInjective(k.kind, k.key, k'.kind, k'.key);
    }
  }

  // ------------------------------------------------------------------
  // The tables hold the assignment
  // ------------------------------------------------------------------

  type Shorts = map<Id, nat>

  /** The row of one id in its own table. */
  ghost predicate RowIn(t: Table, ids: Shorts, k: Id) {
    && (IdBytes(k) in t <==> k in ids)
    && (k in ids && ids[k] < U64 && IdBytes(k) in t ==> t[IdBytes(k)] == Be64(ids[k]))
  }

  ghost predicate ForwardAt(ts: Tables, ids: Shorts, k: Id) {
    ValidId(k) ==> RowIn(Forward(ts, k), ids, k)
  }

  ghost predicate BackwardAt(ts: Tables, ids: Shorts, k: Id) {
    k in ids && ids[k] < U64 && Reversible(k) ==>
      Be64(ids[k]) in Backward(ts, k) && Backward(ts, k)[Be64(ids[k])] == IdBytes(k)
  }

  /** A reverse row leads back to an id that has that number. */
  ghost predicate BackRowAt(ts: Tables, ids: Shorts, r: Id, n: nat) {
    Reversible(r) && n < U64 && Be64(n) in Backward(ts, r) ==>
      exists k :: k in ids && SameKind(k, r) && ids[k] == n
  }

  /** No two ids of any kind share a number, and every number was drawn from the counter. */
  ghost predicate NumberedAt(ids: Shorts, count: nat, k: Id) {
    k in ids ==> ValidId(k) && ids[k] <= count && forall k' :: k' in ids && ids[k'] == ids[k] ==> k' == k
  }

  ghost predicate Interned(ts: Tables, ids: Shorts, count: nat) {
    && count < U64
    && (forall k {:trigger ForwardAt(ts, ids, k)} :: ForwardAt(ts, ids, k))
    && (forall k {:trigger BackwardAt(ts, ids, k)} :: BackwardAt(ts, ids, k))
    && (forall r, n: nat {:trigger BackRowAt(ts, ids, r, n)} :: BackRowAt(ts, ids, r, n))
    && (forall k {:trigger NumberedAt(ids, count, k)} :: NumberedAt(ids, count, k))
  }

  /** The rows written for a new id. */
  function WithNew(ts: Tables, k: Id, n: nat): (ts': Tables)
    requires n < U64
  {
    var b := IdBytes(k);
    match k
    case EventId(_) =>
      ts.(eventidShort := ts.eventidShort[b := Be64(n)], shortEventid := ts.shortEventid[Be64(n) := b])
    case StateKey(_, _) =>
      ts.(statekeyShort := ts.statekeyShort[b := Be64(n)], shortStatekey := ts.shortStatekey[Be64(n) := b])
    case StateHash(_) => ts.(statehashShort := ts.statehashShort[b := Be64(n)])
    case RoomId(_) => ts.(roomidShort := ts.roomidShort[b := Be64(n)])
  }

  lemma NewTables(ts: Tables, k: Id, n: nat, q: Id)
    requires n < U64
    ensures Forward(WithNew(ts, k, n), q) ==
      if SameKind(k, q) then Forward(ts, q)[IdBytes(k) := Be64(n)] else Forward(ts, q)
    ensures Reversible(q) ==>
      Backward(WithNew(ts, k, n), q) ==
      (if SameKind(k, q) then Backward(ts, q)[Be64(n) := IdBytes(k)] else Backward(ts, q))
  {
  }

  lemma NewRow(t: Table, ids: Shorts, k: Id, n: nat, q: Id)
    requires RowIn(t, ids, q) && ValidId(k) && ValidId(q) && SameKind(k, q) && n < U64
    ensures RowIn(t[IdBytes(k) := Be64(n)], ids[k := n], q)
  {
    IdBytesInjective(k, q);
  }

  lemma NewForwardSame(ts: Tables, ids: Shorts, k: Id, n: nat, q: Id)
    requires ForwardAt(ts, ids, q) && ValidId(k) && SameKind(k, q) && n < U64
    ensures ForwardAt(WithNew(ts, k, n), ids[k := n], q)
  {
    NewTables(ts, k, n, q);
    if ValidId(q) {
      NewRow(Forward(ts, q), ids, k, n, q);
    }
  }

  lemma NewForwardOther(ts: Tables, ids: Shorts, k: Id, n: nat, q: Id)
    requires ForwardAt(ts, ids, q) && !SameKind(k, q) && n < U64
    ensures ForwardAt(WithNew(ts, k, n), ids[k := n], q)
  {
    NewTables(ts, k, n, q);
  }

  lemma NewForward(ts: Tables, ids: Shorts, count: nat, k: Id, q: Id)
    requires Interned(ts, ids, count) && ValidId(k) && k !in ids && count + 1 < U64
    ensures ForwardAt(WithNew(ts, k, count + 1), ids[k := count + 1], q)
  {
    assert ForwardAt(ts, ids, q);
    if SameKind(k, q) {
      NewForwardSame(ts, ids, k, count + 1, q);
    } else {
      NewForwardOther(ts, ids, k, count + 1, q);
    }
  }

  lemma NewBackward(ts: Tables, ids: Shorts, count: nat, k: Id, q: Id)
    requires Interned(ts, ids, count) && ValidId(k) && k !in ids && count + 1 < U64
    ensures BackwardAt(WithNew(ts, k, count + 1), ids[k := count + 1], q)
  {
    var n := count + 1;
    assert BackwardAt(ts, ids, q) && NumberedAt(ids, count, q);
    NewTables(ts, k, n, q);
    if q in ids {
      Be64Injective(ids[q], n);
    }
  }

  lemma NewBackRow(ts: Tables, ids: Shorts, count: nat, k: Id, r: Id, n: nat)
    requires Interned(ts, ids, count) && ValidId(k) && k !in ids && count + 1 < U64
    ensures BackRowAt(WithNew(ts, k, count + 1), ids[k := count + 1], r, n)
  {
    var ids' := ids[k := count + 1];
    assert BackRowAt(ts, ids, r, n);
    if n < U64 && Reversible(r) {
      Be64Injective(n, count + 1);
      NewTables(ts, k, count + 1, r);
      if Be64(n) in Backward(ts, r) {
        var q :| q in ids && SameKind(q, r) && ids[q] == n;
        assert q in ids' && ids'[q] == n;
      } else if Be64(n) in Backward(WithNew(ts, k, count + 1), r) {
        assert k in ids' && ids'[k] == n && SameKind(k, r);
      }
    }
  }

  lemma NewNumbered(ts: Tables, ids: Shorts, count: nat, k: Id, q: Id)
    requires Interned(ts, ids, count) && ValidId(k) && k !in ids && count + 1 < U64
    ensures NumberedAt(ids[k := count + 1], count + 1, q)
  {
    assert NumberedAt(ids, count, q);
    forall k' | k' in ids
      ensures ids[k'] <= count
    {
      assert NumberedAt(ids, count, k');
    }
  }

  /** Interning a new id keeps the tables inverse to one another and the numbers distinct. */
  lemma InternNew(ts: Tables, ids: Shorts, count: nat, k: Id)
    requires Interned(ts, ids, count) && ValidId(k) && k !in ids && count + 1 < U64
    ensures Interned(WithNew(ts, k, count + 1), ids[k := count + 1], count + 1)
  {
    var ts', ids', n := WithNew(ts, k, count + 1), ids[k := count + 1], count + 1;
    forall q
      ensures ForwardAt(ts', ids', q) && BackwardAt(ts', ids', q) && NumberedAt(ids', n, q)
    {
      NewForward(ts, ids, count, k, q);
      NewBackward(ts, ids, count, k, q);
      NewNumbered(ts, ids, count, k, q);
    }
    forall r, m: nat
      ensures BackRowAt(ts', ids', r, m)
    {
      NewBackRow(ts, ids, count, k, r, m);
    }
  }

  /** What a forward lookup finds. */
  lemma ForwardGet(ts: Tables, ids: Shorts, count: nat, k: Id)
    requires Interned(ts, ids, count) && ValidId(k)
    ensures IdBytes(k) in Forward(ts, k) <==> k in ids
    ensures k in ids ==> ids[k] <= count && U64FromBytes(Forward(ts, k)[IdBytes(k)]) == Some(ids[k])
  {
    assert ForwardAt(ts, ids, k) && NumberedAt(ids, count, k);
    if k in ids {
      Be64RoundTrip(ids[k]);
    }
  }

  /** What a reverse lookup finds: the bytes of the one id of that kind with that number. */
  lemma BackwardGet(ts: Tables, ids: Shorts, count: nat, r: Id, n: nat) returns (k: Option<Id>)
    requires Interned(ts, ids, count) && Reversible(r) && n < U64
    ensures k.Some? <==> Be64(n) in Backward(ts, r)
    ensures k.Some? ==>
      k.value in ids && SameKind(k.value, r) && ids[k.value] == n && ValidId(k.value) &&
      Backward(ts, r)[Be64(n)] == IdBytes(k.value)
    ensures k.None? ==> forall q :: q in ids && SameKind(q, r) ==> ids[q] != n
  {
    assert BackRowAt(ts, ids, r, n);
    if Be64(n) in Backward(ts, r) {
      var q :| q in ids && SameKind(q, r) && ids[q] == n;
      assert BackwardAt(ts, ids, q) && NumberedAt(ids, count, q);
      k := Some(q);
    } else {
      forall q | q in ids && SameKind(q, r)
        ensures ids[q] != n
      {
        assert BackwardAt(ts, ids, q);
      }
      k := None;
    }
  }

  /** The number an id has, or gets. */
  function Assigned(ids: Shorts, count: nat, k: Id): (n: nat) {
    if k in ids then ids[k] else count + 1
  }

  /** Ids of any kinds never share a number. */
  lemma NumbersDistinct(ts: Tables, ids: Shorts, count: nat, k: Id, k': Id)
    requires Interned(ts, ids, count) && k in ids && k' in ids
    ensures ids[k] == ids[k'] <==> k == k'
  {
    assert NumberedAt(ids, count, k);
  }

  // ------------------------------------------------------------------
  // Caches
  // ------------------------------------------------------------------

  datatype Caches = Caches(
    eventidShort: map<Bytes, nat>,
    shortEventid: map<nat, Bytes>,
    statekeyShort: map<(Bytes, Bytes), nat>,
    shortStatekey: map<nat, (Bytes, Bytes)>)

  /** Some cache, in one direction or the other, says that `k` has number `n`. */
  ghost predicate Cached(c: Caches, k: Id, n: nat) {
    match k
    case EventId(id) =>
      || (id in c.eventidShort && c.eventidShort[id] == n)
      || (n in c.shortEventid && c.shortEventid[n] == id)
    case StateKey(kind, key) =>
      || ((kind, key) in c.statekeyShort && c.statekeyShort[(kind, key)] == n)
      || (n in c.shortStatekey && c.shortStatekey[n] == (kind, key))
    case _ => false
  }

  ghost predicate CacheAt(c: Caches, ids: Shorts, k: Id, n: nat) {
    Cached(c, k, n) ==> k in ids && ids[k] == n
  }

  ghost predicate CachesOk(c: Caches, ids: Shorts) {
    forall k, n: nat {:trigger CacheAt(c, ids, k, n)} :: CacheAt(c, ids, k, n)
  }

  /** Caches that say nothing new stay right: entries may be added for known ids, evicted at
      any time, and ids may be added. */
  lemma CachesStay(c: Caches, ids: Shorts, c': Caches, ids': Shorts, added: Id)
    requires CachesOk(c, ids)
    requires forall k :: k in ids ==> k in ids' && ids'[k] == ids[k]
    requires forall k, n: nat :: Cached(c', k, n) ==> Cached(c, k, n) || (k == added && k in ids' && ids'[k] == n)
    ensures CachesOk(c', ids')
  {
    forall k, n: nat
      ensures CacheAt(c', ids', k, n)
    {
      assert CacheAt(c, ids, k, n);
    }
  }
}
