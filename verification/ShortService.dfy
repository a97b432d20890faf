/** The interning operations over the tables and their caches. Every operation computes what it
    would compute without caches, whatever the caches hold and whenever entries are evicted.
 */
module ShortService {
  import opened ByteStrings
  import opened Text
  import opened Short

  datatype Error = BadDatabase

  class Interner {
    var tables: Tables
    var caches: Caches
    var count: nat
    /** Which number each id has. */
    ghost var ids: Shorts

    ghost predicate Valid()
      reads this
    {
      Interned(tables, ids, count) && CachesOk(caches, ids)
    }

    constructor ()
      ensures Valid() && ids == map[] && count == 0
    {
      tables := Tables(map[], map[], map[], map[], map[], map[]);
      caches := Caches(map[], map[], map[], map[]);
      count, ids := 0, map[];
      new;
      assert forall k {:trigger ForwardAt(tables, ids, k)} :: ForwardAt(tables, ids, k);
      assert forall r, n: nat {:trigger BackRowAt(tables, ids, r, n)} :: BackRowAt(tables, ids, r, n);
      assert forall k, n: nat {:trigger CacheAt(caches, ids, k, n)} :: CacheAt(caches, ids, k, n);
    }

    /** The caches are bounded: any entries may be gone at any time. */
    method Evict(events: set<Bytes>, eventShorts: set<nat>, states: set<(Bytes, Bytes)>, stateShorts: set<nat>)
      requires Valid()
      modifies `caches
      ensures Valid()
      ensures caches.eventidShort == old(caches).eventidShort - events
      ensures caches.shortEventid == old(caches).shortEventid - eventShorts
      ensures caches.statekeyShort == old(caches).statekeyShort - states
      ensures caches.shortStatekey == old(caches).shortStatekey - stateShorts
    {
      caches := Caches(caches.eventidShort - events, caches.shortEventid - eventShorts,
                       caches.statekeyShort - states, caches.shortStatekey - stateShorts);
      CachesStay(old(caches), ids, caches, ids, RoomId([]));
    }

    /** The table part shared by the four get-or-create operations: look up, or draw a number and
        write the rows. */
    method Intern(k: Id) returns (r: Result<nat, Error>, existed: bool)
      requires Interned(tables, ids, count) && ValidId(k) && count + 1 < U64
      modifies `tables, `count, `ids
      ensures Interned(tables, ids, count)
      ensures r == Ok(Assigned(old(ids), old(count), k)) && existed == (k in old(ids))
      ensures ids == old(ids)[k := r.value]
      ensures count == if existed then old(count) else old(count) + 1
    {
      ForwardGet(tables, ids, count, k);
      var b := IdBytes(k);
      if b in Forward(tables, k) {
        existed := true;
        var short := U64FromBytes(Forward(tables, k)[b]);
        r := if short.Some? then Ok(short.value) else Err(BadDatabase);
        assert ids == ids[k := ids[k]];
      } else {
        existed := false;
        InternNew(tables, ids, count, k);
        count := count + 1;
        tables := WithNew(tables, k, count);
        ids := ids[k := count];
        r := Ok(count);
      }
    }

    method GetOrCreateShortEventId(id: Bytes) returns (r: Result<nat, Error>)
      requires Valid() && IsText(id) && count + 1 < U64
      modifies this
      ensures Valid()
      ensures r == Ok(Assigned(old(ids), old(count), EventId(id)))
      ensures ids == old(ids)[EventId(id) := r.value]
      ensures count == if EventId(id) in old(ids) then old(count) else old(count) + 1
    {
      ghost var k := EventId(id);
      if id in caches.eventidShort {
        assert CacheAt(caches, ids, k, caches.eventidShort[id]);
        assert ids == ids[k := ids[k]];
        return Ok(caches.eventidShort[id]);
      }
      var existed;
      r, existed := Intern(EventId(id));
      caches := caches.(eventidShort := caches.eventidShort[id := r.value]);
      CachesStay(old(caches), old(ids), caches, ids, k);
    }

    method GetShortStateKey(kind: Bytes, key: Bytes) returns (r: Result<Option<nat>, Error>)
      requires Valid() && IsText(kind) && IsText(key)
      modifies `caches
      ensures Valid()
      ensures r == Ok(if StateKey(kind, key) in ids then Some(ids[StateKey(kind, key)]) else None)
    {
      ghost var k := StateKey(kind, key);
      if (kind, key) in caches.statekeyShort {
        assert CacheAt(caches, ids, k, caches.statekeyShort[(kind, key)]);
        return Ok(Some(caches.statekeyShort[(kind, key)]));
      }
      var statekey := kind + [SEP] + key;
      ForwardGet(tables, ids, count, k);
      if statekey !in tables.statekeyShort {
        return Ok(None);
      }
      var short := U64FromBytes(tables.statekeyShort[statekey]);
      if short.None? {
        return Err(BadDatabase);
      }
      caches := caches.(statekeyShort := caches.statekeyShort[(kind, key) := short.value]);
      CachesStay(old(caches), ids, caches, ids, k);
      r := Ok(Some(short.value));
    }

    method GetOrCreateShortStateKey(kind: Bytes, key: Bytes) returns (r: Result<nat, Error>)
      requires Valid() && IsText(kind) && IsText(key) && count + 1 < U64
      modifies this
      ensures Valid()
      ensures r == Ok(Assigned(old(ids), old(count), StateKey(kind, key)))
      ensures ids == old(ids)[StateKey(kind, key) := r.value]
      ensures count == if StateKey(kind, key) in old(ids) then old(count) else old(count) + 1
    {
      ghost var k := StateKey(kind, key);
      if (kind, key) in caches.statekeyShort {
        assert CacheAt(caches, ids, k, caches.statekeyShort[(kind, key)]);
        assert ids == ids[k := ids[k]];
        return Ok(caches.statekeyShort[(kind, key)]);
      }
      var existed;
      r, existed := Intern(StateKey(kind, key));
      caches := caches.(statekeyShort := caches.statekeyShort[(kind, key) := r.value]);
      CachesStay(old(caches), old(ids), caches, ids, k);
    }

    /** The reverse of event interning; an unknown number is an error. */
    method GetEventIdFromShort(n: nat) returns (r: Result<Bytes, Error>)
      requires Valid() && n < U64
      modifies `caches
      ensures Valid()
      ensures forall id :: EventId(id) in ids && ids[EventId(id)] == n ==> r == Ok(id)
      ensures r.Ok? ==> EventId(r.value) in ids && ids[EventId(r.value)] == n
    {
      ghost var k := BackwardGet(tables, ids, count, EventId([]), n);
      if n in caches.shortEventid {
        var id := caches.shortEventid[n];
        OnlyEvent(id, n);
        return Ok(id);
      }
      if Be64(n) !in tables.shortEventid {
        return Err(BadDatabase);
      }
      var id := tables.shortEventid[Be64(n)];
      assert k.value == EventId(id);
      if !IsText(id) {
        return Err(BadDatabase);
      }
      caches := caches.(shortEventid := caches.shortEventid[n := id]);
      CachesStay(old(caches), ids, caches, ids, EventId(id));
      UniqueEvent(id, n);
      r := Ok(id);
    }

    lemma OnlyEvent(id: Bytes, n: nat)
      requires Valid() && n in caches.shortEventid && caches.shortEventid[n] == id
      ensures EventId(id) in ids && ids[EventId(id)] == n
      ensures forall id' :: EventId(id') in ids && ids[EventId(id')] == n ==> id' == id
    {
      assert CacheAt(caches, ids, EventId(id), n);
      UniqueEvent(id, n);
    }

    lemma UniqueEvent(id: Bytes, n: nat)
      requires Valid() && EventId(id) in ids && ids[EventId(id)] == n
      ensures forall id' :: EventId(id') in ids && ids[EventId(id')] == n ==> id' == id
    {
      forall id' | EventId(id') in ids && ids[EventId(id')] == n
        ensures id' == id
      {
        NumbersDistinct(tables, ids, count, EventId(id), EventId(id'));
      }
    }

    /** The reverse of state key interning, through the split at the separator. */
    method GetStateKeyFromShort(n: nat) returns (r: Result<(Bytes, Bytes), Error>)
      requires Valid() && n < U64
      modifies `caches
      ensures Valid()
      ensures forall kind, key :: StateKey(kind, key) in ids && ids[StateKey(kind, key)] == n ==> r == Ok((kind, key))
      ensures r.Ok? ==> StateKey(r.value.0, r.value.1) in ids && ids[StateKey(r.value.0, r.value.1)] == n
    {
      ghost var k := BackwardGet(tables, ids, count, StateKey([], []), n);
      if n in caches.shortStatekey {
        var id := caches.shortStatekey[n];
        assert CacheAt(caches, ids, StateKey(id.0, id.1), n);
        UniqueStateKey(id.0, id.1, n);
        return Ok(id);
      }
      if Be64(n) !in tables.shortStatekey {
        return Err(BadDatabase);
      }
      var parts := SplitFirst(tables.shortStatekey[Be64(n)]);
      TextHasNoSep(k.value.kind);
      SplitJoin(k.value.kind, k.value.key);
      if parts.1.None? || !IsText(parts.0) || !IsText(parts.1.value) {
        return Err(BadDatabase);
      }
      var id := (parts.0, parts.1.value);
      caches := caches.(shortStatekey := caches.shortStatekey[n := id]);
      CachesStay(old(caches), ids, caches, ids, StateKey(id.0, id.1));
      UniqueStateKey(id.0, id.1, n);
      r := Ok(id);
    }

    lemma UniqueStateKey(kind: Bytes, key: Bytes, n: nat)
      requires Valid() && StateKey(kind, key) in ids && ids[StateKey(kind, key)] == n
      ensures forall kind', key' :: StateKey(kind', key') in ids && ids[StateKey(kind', key')] == n ==>
        (kind', key') == (kind, key)
    {
      forall kind', key' | StateKey(kind', key') in ids && ids[StateKey(kind', key')] == n
        ensures (kind', key') == (kind, key)
      {
        NumbersDistinct(tables, ids, count, StateKey(kind, key), StateKey(kind', key'));
      }
    }

    /** Also says whether the hash was known. */
    method GetOrCreateShortStateHash(hash: Bytes) returns (r: Result<nat, Error>, existed: bool)
      requires Valid() && count + 1 < U64
      modifies this
      ensures Valid()
      ensures r == Ok(Assigned(old(ids), old(count), StateHash(hash))) && existed == (StateHash(hash) in old(ids))
      ensures ids == old(ids)[StateHash(hash) := r.value]
      ensures count == if existed then old(count) else old(count) + 1
    {
      r, existed := Intern(StateHash(hash));
      CachesStay(old(caches), old(ids), caches, ids, StateHash(hash));
    }

    method GetShortRoomId(room: Bytes) returns (r: Result<Option<nat>, Error>)
      requires Valid() && IsText(room)
      ensures r == Ok(if RoomId(room) in ids then Some(ids[RoomId(room)]) else None)
    {
      ForwardGet(tables, ids, count, RoomId(room));
      if room !in tables.roomidShort {
        return Ok(None);
      }
      var short := U64FromBytes(tables.roomidShort[room]);
      r := if short.Some? then Ok(short) else Err(BadDatabase);
    }

    method GetOrCreateShortRoomId(room: Bytes) returns (r: Result<nat, Error>)
      requires Valid() && IsText(room) && count + 1 < U64
      modifies this
      ensures Valid()
      ensures r == Ok(Assigned(old(ids), old(count), RoomId(room)))
      ensures ids == old(ids)[RoomId(room) := r.value]
      ensures count == if RoomId(room) in old(ids) then old(count) else old(count) + 1
    {
      var existed;
      r, existed := Intern(RoomId(room));
      CachesStay(old(caches), old(ids), caches, ids, RoomId(room));
    }
  }
}
