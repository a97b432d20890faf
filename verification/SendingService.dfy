/** The sending service as the server runs it: byte tables, loops that write one row at a
    time, and the handler's memory. Every method carries out a run of the state machine of
    `SendingMachine`, which the object records, so everything proved about runs holds of
    every state the service can get into.
 */
module SendingService {
  import opened ByteStrings
  import opened KvTable
  import opened SendingKeys
  import opened Text
  import opened SendingMachine
  import opened SendingRows
  import opened SendingFlight
  import opened SendingBounds
  import opened SendingTheorems

  // ------------------------------------------------------------------
  // Byte tables and rows
  // ------------------------------------------------------------------

  ghost predicate StoredAt(t: Table, rows: Rows, k: Bytes) {
    (k in t <==> k in rows) && (k in t && k in rows ==> t[k] == RowValue(rows[k].event))
  }

  /** The byte table holds exactly these rows. */
  ghost predicate Stored(t: Table, rows: Rows) {
    forall k {:trigger StoredAt(t, rows, k)} :: StoredAt(t, rows, k)
  }

  lemma StoredAdds(t: Table, rows: Rows, key: Bytes, row: Row)
    requires Stored(t, rows)
    ensures Stored(t[key := RowValue(row.event)], rows[key := row])
  {
    var t', rows' := t[key := RowValue(row.event)], rows[key := row];
    forall k
      ensures StoredAt(t', rows', k)
    {
      assert StoredAt(t, rows, k);
    }
  }

  lemma StoredRemoves(t: Table, rows: Rows, key: Bytes)
    requires Stored(t, rows)
    ensures Stored(t - {key}, rows - {key})
  {
    var t', rows' := t - {key}, rows - {key};
    forall k
      ensures StoredAt(t', rows', k)
    {
      assert StoredAt(t, rows, k);
    }
  }

  lemma StoredEmpty()
    ensures Stored(map[], map[])
  {
  }

  ghost predicate KnownTable(s: State, t: Table, rows: Rows) {
    IssuedOk(s.hist.issued, s.count) && KnownRows(s, rows) && Stored(t, rows)
  }

  lemma StoredParses(s: State, t: Table, rows: Rows, k: Bytes)
    requires KnownTable(s, t, rows) && k in t
    ensures k in rows && Parse(k, t[k]) == Some((rows[k].kind, rows[k].event))
  {
    assert StoredAt(t, rows, k);
    FitsParses(k, rows[k], s.count);
  }

  lemma PrefixRows(s: State, t: Table, rows: Rows, kind: OutgoingKind)
    requires KnownTable(s, t, rows) && ValidKind(kind)
    ensures KeysWith(t, Prefix(kind)) == KeysOf(rows, kind)
  {
    forall k
      ensures k in KeysWith(t, Prefix(kind)) <==> k in KeysOf(rows, kind)
    {
      assert StoredAt(t, rows, k);
      if k in rows {
        FitsPrefix(k, rows[k], s.count, kind);
      }
    }
  }

  /** A prefix scan of the byte table visits the destination's rows in order. */
  lemma ScanStored(s: State, t: Table, rows: Rows, kind: OutgoingKind)
    requires KnownTable(s, t, rows) && ValidKind(kind)
    ensures ScanPrefix(t, Prefix(kind)) == OrderedKeys(rows, kind)
  {
    PrefixRows(s, t, rows, kind);
    ScanPrefixIsFilter(t, Prefix(kind));
  }

  function ParseItem(key: Bytes, value: Bytes): (r: seq<Item>) {
    match Parse(key, value)
    case Some((_, event)) => [Item(event, key)]
    case None => []
  }

  /** The rows of a scan that parse: `filter_map(|r| r.ok())`. */
  function ParseItems(t: Table, keys: seq<Bytes>): (r: seq<Item>)
    requires forall k | k in keys :: k in t
  {
    if keys == [] then [] else ParseItem(keys[0], t[keys[0]]) + ParseItems(t, keys[1..])
  }

  ghost predicate ItemParses(t: Table, rows: Rows, k: Bytes) {
    k in t && k in rows && ParseItem(k, t[k]) == [Item(rows[k].event, k)]
  }

  lemma ItemsOfStep(rows: Rows, keys: seq<Bytes>)
    requires keys != [] && forall k | k in keys :: k in rows
    ensures ItemsOf(rows, keys) == [Item(rows[keys[0]].event, keys[0])] + ItemsOf(rows, keys[1..])
  {
  }

  lemma {:induction false} ParseItemsAll(t: Table, rows: Rows, keys: seq<Bytes>)
    requires forall k | k in keys :: k in t && k in rows
    requires forall i :: 0 <= i < |keys| ==> ItemParses(t, rows, keys[i])
    ensures ParseItems(t, keys) == ItemsOf(rows, keys)
  {
    if keys != [] {
      assert ItemParses(t, rows, keys[0]);
      ParseItemsAll(t, rows, keys[1..]);
      ItemsOfStep(rows, keys);
    }
  }

  lemma ParseItemsStored(s: State, t: Table, rows: Rows, keys: seq<Bytes>)
    requires KnownTable(s, t, rows) && forall k | k in keys :: k in t
    ensures forall k | k in keys :: k in rows
    ensures ParseItems(t, keys) == ItemsOf(rows, keys)
  {
    forall k | k in keys
      ensures k in rows && ItemParses(t, rows, k)
    {
      StoredParses(s, t, rows, k);
    }
    ParseItemsAll(t, rows, keys);
  }

  /** `queued_requests` and `active_requests_for`. */
  function Requests(t: Table, kind: OutgoingKind): (r: seq<Item>)
  {
    ScanPrefixMembers(t, Prefix(kind));
    ParseItems(t, ScanPrefix(t, Prefix(kind)))
  }

  lemma RequestsAreItems(s: State, t: Table, rows: Rows, kind: OutgoingKind)
    requires KnownTable(s, t, rows) && ValidKind(kind)
    ensures forall k | k in OrderedKeys(rows, kind) :: k in rows
    ensures Requests(t, kind) == ItemsOf(rows, OrderedKeys(rows, kind))
  {
    ScanStored(s, t, rows, kind);
    ScanPrefixMembers(t, Prefix(kind));
    ParseItemsStored(s, t, rows, ScanPrefix(t, Prefix(kind)));
  }

  lemma ItemsFacts(rows: Rows, kind: OutgoingKind, items: seq<Item>)
    requires forall k | k in OrderedKeys(rows, kind) :: k in rows
    requires items == ItemsOf(rows, OrderedKeys(rows, kind))
    ensures Take(items, BATCH) == NextBatch(rows, kind)
    ensures ItemEvents(items) == RowEvents(rows, kind)
  {
  }

  lemma RequestsStored(s: State, t: Table, rows: Rows, kind: OutgoingKind)
    requires KnownTable(s, t, rows) && ValidKind(kind)
    ensures Take(Requests(t, kind), BATCH) == NextBatch(rows, kind)
    ensures ItemEvents(Requests(t, kind)) == RowEvents(rows, kind)
  {
    RequestsAreItems(s, t, rows, kind);
    ItemsFacts(rows, kind, Requests(t, kind));
  }

  // ------------------------------------------------------------------
  // The rows of one destination
  // ------------------------------------------------------------------

  ghost predicate RowOf(t: Table, kind: OutgoingKind, item: Item) {
    item.key in t && Prefix(kind) <= item.key && Parse(item.key, t[item.key]) == Some((kind, item.event))
  }

  /** The items are all the rows of the destination, in key order. */
  ghost predicate ListsRows(t: Table, kind: OutgoingKind, items: seq<Item>) {
    && (forall i, j :: 0 <= i < j < |items| ==> LexLe(items[i].key, items[j].key) && items[i].key != items[j].key)
    && (forall i :: 0 <= i < |items| ==> RowOf(t, kind, items[i]))
    && (forall k :: k in t && Prefix(kind) <= k ==> exists i :: 0 <= i < |items| && items[i].key == k)
  }

  lemma KnownRowOf(s: State, t: Table, rows: Rows, kind: OutgoingKind, k: Bytes)
    requires KnownTable(s, t, rows) && ValidKind(kind) && k in KeysOf(rows, kind)
    ensures RowOf(t, kind, Item(rows[k].event, k))
  {
    PrefixRows(s, t, rows, kind);
    assert k in KeysWith(t, Prefix(kind));
    StoredParses(s, t, rows, k);
  }

  lemma OrderedPlace(s: State, t: Table, rows: Rows, kind: OutgoingKind, k: Bytes) returns (i: nat)
    requires KnownTable(s, t, rows) && ValidKind(kind) && k in t && Prefix(kind) <= k
    ensures i < |OrderedKeys(rows, kind)| && OrderedKeys(rows, kind)[i] == k
  {
    PrefixRows(s, t, rows, kind);
    SortedElems(KeysOf(rows, kind));
    assert k in KeysWith(t, Prefix(kind)) && k in OrderedKeys(rows, kind);
    i :| 0 <= i < |OrderedKeys(rows, kind)| && OrderedKeys(rows, kind)[i] == k;
  }

  lemma OrderedRowOf(s: State, t: Table, rows: Rows, kind: OutgoingKind, i: nat)
    requires KnownTable(s, t, rows) && ValidKind(kind) && i < |OrderedKeys(rows, kind)|
    ensures OrderedKeys(rows, kind)[i] in KeysOf(rows, kind)
    ensures RowOf(t, kind, Item(rows[OrderedKeys(rows, kind)[i]].event, OrderedKeys(rows, kind)[i]))
  {
    var k := OrderedKeys(rows, kind)[i];
    SortedElems(KeysOf(rows, kind));
    assert k in OrderedKeys(rows, kind);
    KnownRowOf(s, t, rows, kind, k);
  }

  lemma RequestsListRows(s: State, t: Table, rows: Rows, kind: OutgoingKind)
    requires KnownTable(s, t, rows) && ValidKind(kind)
    ensures ListsRows(t, kind, Requests(t, kind))
  {
    var items := Requests(t, kind);
    RequestsAreItems(s, t, rows, kind);
    SortedAscending(KeysOf(rows, kind));
    forall i | 0 <= i < |items|
      ensures RowOf(t, kind, items[i])
    {
      OrderedRowOf(s, t, rows, kind, i);
    }
    forall k | k in t && Prefix(kind) <= k
      ensures exists i :: 0 <= i < |items| && items[i].key == k
    {
      var i := OrderedPlace(s, t, rows, kind, k);
      assert items[i].key == k;
    }
  }

  /** What is stored under a parsed row is the value of its event. */
  lemma ParsedValue(key: Bytes, value: Bytes)
    requires Parse(key, value).Some?
    ensures RowValue(Parse(key, value).value.1) == value
  {
    var suffix := ParseIsPrefixed(key, value);
  }

  /** The destination's rows with a smaller key. */
  ghost function Before(t: Table, p: Bytes, k: Bytes): (r: set<Bytes>) {
    set x | x in t && p <= x && LexLe(x, k) && x != k
  }

  ghost function FirstKeys(items: seq<Item>, n: nat): (r: set<Bytes>)
    requires n <= |items|
  {
    set i | 0 <= i < n :: items[i].key
  }

  lemma {:induction false} FirstKeysCard(items: seq<Item>, n: nat)
    requires n <= |items| && forall i, j :: 0 <= i < j < |items| ==> items[i].key != items[j].key
    ensures |FirstKeys(items, n)| == n
  {
    if n == 0 {
      assert FirstKeys(items, 0) == {};
    } else {
      FirstKeysCard(items, n - 1);
      assert FirstKeys(items, n) == FirstKeys(items, n - 1) + {items[n - 1].key};
    }
  }

  /** The position of a row in the list is the number of rows before it. */
  lemma PositionIs(t: Table, kind: OutgoingKind, items: seq<Item>, i: nat)
    requires ListsRows(t, kind, items) && i < |items|
    ensures |Before(t, Prefix(kind), items[i].key)| == i
  {
    var k := items[i].key;
    forall x
      ensures x in Before(t, Prefix(kind), k) <==> x in FirstKeys(items, i)
    {
      if x in Before(t, Prefix(kind), k) {
        var j :| 0 <= j < |items| && items[j].key == x;
        if j > i {
          LexAntisym(k, x);
        }
        assert j < i;
      }
      if x in FirstKeys(items, i) {
        var j :| 0 <= j < i && items[j].key == x;
        assert RowOf(t, kind, items[j]);
      }
    }
    assert Before(t, Prefix(kind), k) == FirstKeys(items, i);
    FirstKeysCard(items, i);
  }

  function InsertAll(t: Table, batch: seq<(Bytes, Bytes)>): (r: Table)
    decreases |batch|
  {
    if batch == [] then t
    else
      var n := |batch| - 1;
      InsertAll(t, batch[..n])[batch[n].0 := batch[n].1]
  }

  /** The active table after `mark_as_active` has inserted the first n rows. */
  function InsertItems(t: Table, items: seq<Item>, n: nat): (r: Table)
    requires n <= |items|
  {
    if n == 0 then t else InsertItems(t, items, n - 1)[items[n - 1].key := RowValue(items[n - 1].event)]
  }

  /** The queue after `mark_as_active` has removed the first n rows. */
  function RemoveItems(t: Table, items: seq<Item>, n: nat): (r: Table)
    requires n <= |items|
  {
    if n == 0 then t else RemoveItems(t, items, n - 1) - {items[n - 1].key}
  }

  function RemoveKeys(t: Table, keys: seq<Bytes>, n: nat): (r: Table)
    requires n <= |keys|
  {
    if n == 0 then t else RemoveKeys(t, keys, n - 1) - {keys[n - 1]}
  }

  lemma {:induction false} RemoveItemsIs(t: Table, items: seq<Item>, n: nat)
    requires n <= |items|
    ensures forall k :: k in RemoveItems(t, items, n) <==> k in t && forall i :: 0 <= i < n ==> items[i].key != k
    ensures forall k :: k in RemoveItems(t, items, n) ==> RemoveItems(t, items, n)[k] == t[k]
  {
    if n != 0 {
      RemoveItemsIs(t, items, n - 1);
    }
  }

  /** One key, one event. */
  ghost predicate Consistent(items: seq<Item>) {
    forall i, j :: 0 <= i < j < |items| && items[i].key == items[j].key ==> items[i].event == items[j].event
  }

  lemma {:induction false} InsertedItem(t: Table, items: seq<Item>, n: nat, i: nat)
    requires i < n <= |items| && Consistent(items)
    ensures
      var r := InsertItems(t, items, n);
      items[i].key in r && r[items[i].key] == RowValue(items[i].event)
  {
    if i < n - 1 {
      InsertedItem(t, items, n - 1, i);
    }
  }

  lemma {:induction false} InsertedOther(t: Table, items: seq<Item>, n: nat, k: Bytes)
    requires n <= |items| && NoItem(items, k)
    ensures SameAt(t, InsertItems(t, items, n), k)
  {
    if n != 0 {
      InsertedOther(t, items, n - 1, k);
    }
  }

  ghost predicate SameAt(t: Table, t': Table, k: Bytes) {
    (k in t' <==> k in t) && (k in t ==> t'[k] == t[k])
  }

  ghost predicate MovedAt(active': Table, queued': Table, item: Item) {
    item.key in active' && active'[item.key] == RowValue(item.event) && item.key !in queued'
  }

  ghost predicate NoItem(items: seq<Item>, k: Bytes) {
    forall i :: 0 <= i < |items| ==> items[i].key != k
  }

  /** The items have moved: each is in the active table with its value and not in the queue, and
      every other key of either table is as it was. */
  ghost predicate Moved(active: Table, queued: Table, active': Table, queued': Table, items: seq<Item>) {
    && (forall i :: 0 <= i < |items| ==> MovedAt(active', queued', items[i]))
    && (forall k :: NoItem(items, k) ==> SameAt(active, active', k) && SameAt(queued, queued', k))
  }

  lemma ItemMoved(active: Table, queued: Table, items: seq<Item>, i: nat)
    requires Consistent(items) && i < |items|
    ensures MovedAt(InsertItems(active, items, |items|), RemoveItems(queued, items, |items|), items[i])
  {
    InsertedItem(active, items, |items|, i);
    RemoveItemsIs(queued, items, |items|);
  }

  lemma OthersStay(active: Table, queued: Table, items: seq<Item>, k: Bytes)
    requires NoItem(items, k)
    ensures SameAt(active, InsertItems(active, items, |items|), k)
    ensures SameAt(queued, RemoveItems(queued, items, |items|), k)
  {
    InsertedOther(active, items, |items|, k);
    RemoveItemsIs(queued, items, |items|);
  }

  lemma MovedIs(active: Table, queued: Table, items: seq<Item>)
    requires Consistent(items)
    ensures Moved(active, queued, InsertItems(active, items, |items|), RemoveItems(queued, items, |items|), items)
  {
    forall i | 0 <= i < |items|
      ensures MovedAt(InsertItems(active, items, |items|), RemoveItems(queued, items, |items|), items[i])
    {
      ItemMoved(active, queued, items, i);
    }
    forall k | NoItem(items, k)
      ensures SameAt(active, InsertItems(active, items, |items|), k)
      ensures SameAt(queued, RemoveItems(queued, items, |items|), k)
    {
      OthersStay(active, queued, items, k);
    }
  }

  /** What a successful transaction does under one key: keys of other destinations are as they
      were; of its own destination, a row with fewer than thirty queued rows before it has moved
      to the active table, and nothing else is active. */
  ghost predicate NextBatchAt(kind: OutgoingKind, active: Table, queued: Table,
                              active': Table, queued': Table, k: Bytes)
  {
    if !(Prefix(kind) <= k) then
      SameAt(active, active', k) && SameAt(queued, queued', k)
    else if k in queued && |Before(queued, Prefix(kind), k)| < 30 then
      k !in queued' && k in active' && active'[k] == queued[k]
    else
      k !in active' && SameAt(queued, queued', k)
  }

  lemma NextBatchIs(kind: OutgoingKind, active: Table, queued: Table, active': Table, queued': Table,
                    rows: seq<Item>, k: Bytes)
    requires ListsRows(queued, kind, rows)
    requires Moved(active - KeysWith(active, Prefix(kind)), queued, active', queued', Take(rows, 30))
    ensures NextBatchAt(kind, active, queued, active', queued', k)
  {
    var items := Take(rows, 30);
    if i :| 0 <= i < |rows| && rows[i].key == k {
      PositionIs(queued, kind, rows, i);
      assert RowOf(queued, kind, rows[i]);
      if i < 30 {
        assert MovedAt(active', queued', items[i]);
        ParsedValue(k, queued[k]);
      } else {
        assert NoItem(items, k);
      }
    } else {
      assert NoItem(items, k);
      assert SameAt(active - KeysWith(active, Prefix(kind)), active', k) && SameAt(queued, queued', k);
    }
  }

  lemma {:induction false} RemoveKeysIs(t: Table, keys: seq<Bytes>, n: nat)
    requires n <= |keys|
    ensures forall k :: k in RemoveKeys(t, keys, n) <==> k in t && forall i :: 0 <= i < n ==> keys[i] != k
    ensures forall k :: k in RemoveKeys(t, keys, n) ==> RemoveKeys(t, keys, n)[k] == t[k]
  {
    if n != 0 {
      RemoveKeysIs(t, keys, n - 1);
    }
  }

  /** Removing what a prefix scan found removes the prefix. */
  lemma RemoveScan(t: Table, p: Bytes)
    ensures var keys := ScanPrefix(t, p); RemoveKeys(t, keys, |keys|) == t - KeysWith(t, p)
  {
    var keys := ScanPrefix(t, p);
    var r := RemoveKeys(t, keys, |keys|);
    RemoveKeysIs(t, keys, |keys|);
    ScanPrefixMembers(t, p);
    forall k
      ensures k in r <==> k in t && k !in KeysWith(t, p)
    {
      assert k in r <==> k in t && k !in keys;
    }
    assert r.Keys == (t - KeysWith(t, p)).Keys;
  }

  function Appended(channel: seq<Msg>, msgs: seq<Msg>, n: nat): (r: seq<Msg>)
    requires n <= |msgs|
    ensures r == channel + msgs[..n]
  {
    if n == 0 then channel
    else
      assert msgs[..n] == msgs[..n - 1] + [msgs[n - 1]];
      Appended(channel, msgs, n - 1) + [msgs[n - 1]]
  }

  /** The keys of one destination among the first n keys of the table. */
  function KeysFor(rows: Rows, keys: seq<Bytes>, n: nat, kind: OutgoingKind): (r: seq<Bytes>)
    requires n <= |keys|
  {
    if n == 0 then []
    else
      var r := KeysFor(rows, keys, n - 1, kind);
      if keys[n - 1] in rows && rows[keys[n - 1]].kind == kind then r + [keys[n - 1]] else r
  }

  lemma {:induction false} KeysForMembers(rows: Rows, keys: seq<Bytes>, n: nat, kind: OutgoingKind)
    requires n <= |keys|
    ensures forall k :: k in KeysFor(rows, keys, n, kind) <==>
              k in rows && rows[k].kind == kind && exists i :: 0 <= i < n && keys[i] == k
  {
    if n != 0 {
      KeysForMembers(rows, keys, n - 1, kind);
    }
  }

  lemma {:induction false} KeysForAscending(rows: Rows, keys: seq<Bytes>, n: nat, kind: OutgoingKind)
    requires n <= |keys| && Ascending(keys)
    ensures Ascending(KeysFor(rows, keys, n, kind))
  {
    if n != 0 {
      var r := KeysFor(rows, keys, n - 1, kind);
      KeysForAscending(rows, keys, n - 1, kind);
      KeysForMembers(rows, keys, n - 1, kind);
      forall i, j | 0 <= i < j < |KeysFor(rows, keys, n, kind)|
        ensures LexLe(KeysFor(rows, keys, n, kind)[i], KeysFor(rows, keys, n, kind)[j])
        ensures KeysFor(rows, keys, n, kind)[i] != KeysFor(rows, keys, n, kind)[j]
      {
        if j == |r| {
          assert r[i] in r;
        }
      }
    }
  }

  /** Picking a destination's rows out of the whole table in order is scanning its rows. */
  lemma KeysForAll(rows: Rows, kind: OutgoingKind)
    ensures var keys := Sorted(rows.Keys); KeysFor(rows, keys, |keys|, kind) == OrderedKeys(rows, kind)
  {
    var keys := Sorted(rows.Keys);
    SortedElems(rows.Keys);
    SortedAscending(rows.Keys);
    KeysForMembers(rows, keys, |keys|, kind);
    KeysForAscending(rows, keys, |keys|, kind);
    SortedIsTheAscending(KeysOf(rows, kind), KeysFor(rows, keys, |keys|, kind));
  }

  /** What the startup loop has collected after n rows. */
  ghost predicate CollectedRows(acc: map<OutgoingKind, seq<Event>>, rows: Rows, keys: seq<Bytes>, n: nat)
    requires n <= |keys| && forall k | k in keys :: k in rows
  {
    forall kind {:trigger CollectedFor(acc, rows, keys, n, kind)} :: CollectedFor(acc, rows, keys, n, kind)
  }

  ghost predicate CollectedFor(acc: map<OutgoingKind, seq<Event>>, rows: Rows, keys: seq<Bytes>, n: nat,
                               kind: OutgoingKind)
    requires n <= |keys| && forall k | k in keys :: k in rows
  {
    var own := KeysFor(rows, keys, n, kind);
    KeysForMembers(rows, keys, n, kind);
    (kind in acc <==> own != []) && Collected(acc, kind) == EventsOf(rows, own)
  }

  lemma CollectStep(acc: map<OutgoingKind, seq<Event>>, rows: Rows, keys: seq<Bytes>, n: nat)
    requires n < |keys| && forall k | k in keys :: k in rows
    requires CollectedRows(acc, rows, keys, n)
    ensures var row := rows[keys[n]];
            CollectedRows(acc[row.kind := Collected(acc, row.kind) + [row.event]], rows, keys, n + 1)
  {
    var row := rows[keys[n]];
    var acc' := acc[row.kind := Collected(acc, row.kind) + [row.event]];
    var m := n + 1;
    forall kind
      ensures CollectedFor(acc', rows, keys, m, kind)
    {
      assert CollectedFor(acc, rows, keys, n, kind);
      KeysForMembers(rows, keys, n, kind);
      KeysForMembers(rows, keys, n + 1, kind);
    }
  }

  // ------------------------------------------------------------------
  // The service
  // ------------------------------------------------------------------

  class Service {
    var queued: Table // servernameevent_data
    var active: Table // servercurrentevent_data
    var status: map<OutgoingKind, Status>
    var futures: seq<Txn>
    var channel: seq<Msg>
    var count: nat
    var now: nat

    ghost var states: seq<State>
    ghost var acts: seq<Action>

    ghost predicate Traced()
      reads this`states, this`acts
    {
      IsRun(states, acts)
    }

    /** The state of the machine that the service has reached. */
    ghost function Model(): (s: State)
      requires Traced()
      reads this`states, this`acts
    {
      states[|acts|]
    }

    ghost predicate LinkedMemory(s: State)
      reads this
    {
      && s.status == status && s.futures == futures && s.channel == channel
      && s.count == count && s.now == now
    }

    ghost predicate Valid()
      reads this
    {
      && Traced()
      && LinkedMemory(Model())
      && Stored(queued, Model().queued)
      && Stored(active, Model().active)
    }

    lemma ModelInv()
      requires Valid()
      ensures Inv(Model())
      ensures KnownTable(Model(), queued, Model().queued) && KnownTable(Model(), active, Model().active)
    {
      Reachable(states, acts, |acts|);
    }

    lemma KnownTables()
      requires Valid()
      ensures KnownTable(Model(), queued, Model().queued) && KnownTable(Model(), active, Model().active)
    {
      ModelInv();
    }

    ghost method Advance(a: Action)
      requires Traced() && Enabled(Model(), a)
      modifies this`states, this`acts
      ensures Traced() && Model() == Next(old(Model()), a)
      ensures acts == old(acts) + [a]
    {
      var s, s' := Model(), Next(Model(), a);
      var n := |acts|;
      assert Step(s, a, s');
      states, acts := states + [s'], acts + [a];
      forall i | 0 <= i < |acts|
        ensures StepAt(states, acts, i)
      {
        if i < n {
          assert StepAt(old(states), old(acts), i);
        }
      }
    }

    constructor ()
      ensures Valid() && Model() == INIT
      ensures queued == map[] && active == map[]
    {
      queued, active, status, futures, channel, count, now := map[], map[], map[], [], [], 0, 0;
      states, acts := [INIT], [];
      StoredEmpty();
    }

    // ----------------------------------------------------------------
    // Callers
    // ----------------------------------------------------------------

    ghost predicate CanQueue(requests: seq<(OutgoingKind, Event)>)
      reads this
    {
      && count + |requests| < U64
      && forall i :: 0 <= i < |requests| ==> Queueable(requests[i].0, requests[i].1)
    }

    /** The machine queues one more row. */
    ghost method RecordQueue(start: State, msgs: seq<Msg>, m: Msg)
      requires Traced() && Queueable(m.kind, m.event) && CountAfter(Model(), m.event) < U64
      requires m.key == NewKey(Model(), m.kind, m.event)
      requires QueuedAll(start, Model(), msgs)
      modifies this`states, this`acts
      ensures Traced() && AddedRow(old(Model()), Model(), m.key, Row(m.kind, m.event))
      ensures Model().count == CountAfter(old(Model()), m.event)
      ensures QueuedAll(start, Model(), msgs + [m])
    {
      Reachable(states, acts, |acts|);
      QueueKeepsKnown(Model(), m.kind, m.event);
      QueuedAllStep(start, Model(), msgs, m);
      Advance(Queue(m.kind, m.event));
    }

    /** The key of a new row, taking the next count for an EDU. */
    method NextKey(kind: OutgoingKind, event: Event) returns (key: Bytes)
      requires count + 1 < U64
      modifies this`count
      ensures count == if event.Edu? then old(count) + 1 else old(count)
      ensures key == RowKey(kind, event, count)
    {
      key := Prefix(kind);
      match event {
        case Pdu(id) => key := key + id;
        case Edu(_) =>
          count := count + 1;
          key := key + Be64(count);
      }
    }

    method QueueOne(kind: OutgoingKind, event: Event, ghost t: Table, ghost start: State, ghost msgs: seq<Msg>)
      returns (key: Bytes)
      requires Traced() && LinkedMemory(Model()) && Stored(t, Model().queued)
      requires Queueable(kind, event) && count + 1 < U64
      requires QueuedAll(start, Model(), msgs)
      modifies this`count, this`states, this`acts
      ensures Traced() && LinkedMemory(Model()) && Stored(t[key := RowValue(event)], Model().queued)
      ensures count <= old(count) + 1
      ensures QueuedAll(start, Model(), msgs + [Msg(kind, event, key)])
    {
      key := NextKey(kind, event);
      ghost var s := Model();
      RecordQueue(start, msgs, Msg(kind, event, key));
      StoredAdds(t, s.queued, key, Row(kind, event));
    }

    /** `queue_requests`: every request is stored as a row that parses back to it, older rows
        keep their contents, and nothing else is stored. */
    method QueueRequests(requests: seq<(OutgoingKind, Event)>) returns (keys: seq<Bytes>)
      requires Valid() && CanQueue(requests)
      modifies this`queued, this`count, this`states, this`acts
      ensures Valid() && |keys| == |requests|
      ensures StoredAll(old(queued), queued, Msgs(requests, keys))
      ensures QueuedAll(old(Model()), Model(), Msgs(requests, keys))
      ensures count <= old(count) + |requests|
    {
      var batch := [];
      keys := [];
      ghost var start := Model();
      ghost var msgs := [];
      var i := 0;
      while i < |requests|
        invariant i <= |requests| && |keys| == i
        invariant msgs == Msgs(requests, keys)
        invariant Traced() && LinkedMemory(Model())
        invariant Stored(InsertAll(queued, batch), Model().queued)
        invariant queued == old(queued) && count <= old(count) + i
        invariant QueuedAll(start, Model(), msgs)
      {
        var (kind, event) := requests[i];
        var key := QueueOne(kind, event, InsertAll(queued, batch), start, msgs);
        InsertAllStep(queued, batch, (key, RowValue(event)));
        MsgsStep(requests, keys, key);
        batch := batch + [(key, RowValue(event))];
        keys := keys + [key];
        msgs := msgs + [Msg(kind, event, key)];
        i := i + 1;
      }
      queued := InsertAll(queued, batch);
      KnownTables();
      QueuedIsStored(start, Model(), old(queued), queued, msgs);
    }

    /** `sender.send`. */
    method Send(m: Msg)
      requires Valid() && m in Model().unsent
      modifies this`channel, this`states, this`acts
      ensures Valid() && Model().pc == old(Model().pc)
      ensures channel == old(channel) + [m]
      ensures Model().unsent == old(Model().unsent) - multiset{m}
    {
      Advance(Action.Send(m));
      channel := channel + [m];
    }

    method SendNth(msgs: seq<Msg>, i: nat)
      requires Valid() && i < |msgs| && multiset(msgs[i..]) <= Model().unsent
      modifies this`channel, this`states, this`acts
      ensures Valid() && Model().pc == old(Model().pc)
      ensures channel == old(channel) + [msgs[i]]
      ensures multiset(msgs[i + 1..]) <= Model().unsent
    {
      assert msgs[i..] == [msgs[i]] + msgs[i + 1..];
      Send(msgs[i]);
    }

    method SendAll(msgs: seq<Msg>)
      requires Valid() && multiset(msgs) <= Model().unsent
      modifies this`channel, this`states, this`acts
      ensures Valid() && Model().pc == old(Model().pc)
      ensures channel == old(channel) + msgs
    {
      var i := 0;
      assert msgs[0..] == msgs;
      while i < |msgs|
        invariant i <= |msgs|
        invariant Valid() && Model().pc == old(Model().pc)
        invariant channel == Appended(old(channel), msgs, i)
        invariant multiset(msgs[i..]) <= Model().unsent
      {
        SendNth(msgs, i);
        i := i + 1;
      }
      assert msgs[..i] == msgs;
    }

    /** `send_pdu`, and with one request `send_push_pdu`, `send_reliable_edu` and
        `send_pdu_appservice`: queue the rows, then send a message for each of them. */
    method SendRequests(requests: seq<(OutgoingKind, Event)>) returns (keys: seq<Bytes>)
      requires Valid() && CanQueue(requests)
      modifies this`queued, this`count, this`channel, this`states, this`acts
      ensures Valid() && Model().pc == old(Model().pc) && |keys| == |requests|
      ensures StoredAll(old(queued), queued, Msgs(requests, keys))
      ensures channel == old(channel) + Msgs(requests, keys)
    {
      keys := QueueRequests(requests);
      SendAll(Msgs(requests, keys));
    }

    // ----------------------------------------------------------------
    // Table writes of the handler
    // ----------------------------------------------------------------

    method RemoveActive(kind: OutgoingKind, keys: seq<Bytes>, i: nat)
      requires Valid() && i < |keys| && Model().pc == Deleting(kind, keys[i..])
      modifies this`active, this`states, this`acts
      ensures Valid() && Model().pc == Deleting(kind, keys[i + 1..])
      ensures active == old(active) - {keys[i]}
    {
      assert keys[i..][1..] == keys[i + 1..];
      StoredRemoves(active, Model().active, keys[i]);
      Advance(Delete);
      active := active - {keys[i]};
    }

    ghost method FinishDeleting(kind: OutgoingKind)
      requires Valid() && Model().pc == Deleting(kind, [])
      modifies this`states, this`acts
      ensures Valid() && Model().pc == Reading(kind)
    {
      Advance(Delete);
    }

    lemma ScanActive(kind: OutgoingKind)
      requires Valid() && ValidKind(kind)
      ensures ScanPrefix(active, Prefix(kind)) == OrderedKeys(Model().active, kind)
    {
      KnownTables();
      ScanStored(Model(), active, Model().active, kind);
    }

    /** `delete_all_active_requests_for`. */
    method DeleteAllActiveRequestsFor(kind: OutgoingKind)
      requires Valid() && ValidKind(kind)
      requires Model().pc == Deleting(kind, OrderedKeys(Model().active, kind))
      modifies this`active, this`states, this`acts
      ensures Valid() && Model().pc == Reading(kind)
      ensures active == old(active) - KeysWith(old(active), Prefix(kind))
    {
      var keys := ScanPrefix(active, Prefix(kind));
      ScanActive(kind);
      RemoveScan(active, Prefix(kind));
      RemoveAllActive(kind, keys);
      FinishDeleting(kind);
    }

    method RemoveAllActive(kind: OutgoingKind, keys: seq<Bytes>)
      requires Valid() && Model().pc == Deleting(kind, keys)
      modifies this`active, this`states, this`acts
      ensures Valid() && Model().pc == Deleting(kind, [])
      ensures active == RemoveKeys(old(active), keys, |keys|)
    {
      assert keys[0..] == keys;
      var i := 0;
      while i < |keys|
        invariant i <= |keys|
        invariant Valid() && Model().pc == Deleting(kind, keys[i..])
        invariant active == RemoveKeys(old(active), keys, i)
      {
        RemoveActive(kind, keys, i);
        i := i + 1;
      }
    }

    method InsertActive(item: Item)
      requires Valid() && Model().pc.Marking? && Model().pc.next < |Model().pc.items| && !Model().pc.inserted
      requires item == Model().pc.items[Model().pc.next]
      modifies this`active, this`states, this`acts
      ensures Valid() && Model().pc == old(Model().pc).(inserted := true)
      ensures active == old(active)[item.key := RowValue(item.event)]
    {
      StoredAdds(active, Model().active, item.key, Row(Model().pc.kind, item.event));
      Advance(Mark);
      active := active[item.key := RowValue(item.event)];
    }

    method RemoveQueued(item: Item)
      requires Valid() && Model().pc.Marking? && Model().pc.next < |Model().pc.items| && Model().pc.inserted
      requires item == Model().pc.items[Model().pc.next]
      modifies this`queued, this`states, this`acts
      ensures Valid() && Model().pc == old(Model().pc).(inserted := false, next := old(Model().pc).next + 1)
      ensures queued == old(queued) - {item.key}
    {
      StoredRemoves(queued, Model().queued, item.key);
      Advance(Mark);
      queued := queued - {item.key};
    }

    /** `mark_as_active`: every row is first inserted into the active table and then removed from
        the queue. */
    method MarkAsActive(items: seq<Item>)
      requires Valid() && Model().pc.Marking? && Model().pc.items == items
      requires Model().pc.next == 0 && !Model().pc.inserted
      modifies this`active, this`queued, this`states, this`acts
      ensures Valid() && Model().pc == old(Model().pc).(next := |items|)
      ensures active == InsertItems(old(active), items, |items|)
      ensures queued == RemoveItems(old(queued), items, |items|)
      ensures Moved(old(active), old(queued), active, queued, items)
    {
      MarkedConsistent();
      MovedIs(active, queued, items);
      MarkItems(items);
    }

    lemma MarkedConsistent()
      requires Valid() && Model().pc.Marking?
      ensures Consistent(Model().pc.items)
    {
      ModelInv();
      var s, items := Model(), Model().pc.items;
      forall i, j | 0 <= i < j < |items| && items[i].key == items[j].key
        ensures items[i].event == items[j].event
      {
        assert SendingRows.Known(s, items[i].key, Row(s.pc.kind, items[i].event));
        assert SendingRows.Known(s, items[j].key, Row(s.pc.kind, items[j].event));
      }
    }

    method MarkItems(items: seq<Item>)
      requires Valid() && Model().pc.Marking? && Model().pc.items == items
      requires Model().pc.next == 0 && !Model().pc.inserted
      modifies this`active, this`queued, this`states, this`acts
      ensures Valid() && Model().pc == old(Model().pc).(next := |items|)
      ensures active == InsertItems(old(active), items, |items|)
      ensures queued == RemoveItems(old(queued), items, |items|)
    {
      var i := 0;
      while i < |items|
        invariant i <= |items|
        invariant Valid() && Model().pc == old(Model().pc).(next := i)
        invariant active == InsertItems(old(active), items, i)
        invariant queued == RemoveItems(old(queued), items, i)
      {
        MarkItem(items, i);
        i := i + 1;
      }
    }

    method MarkItem(items: seq<Item>, i: nat)
      requires Valid() && Model().pc.Marking? && Model().pc.items == items
      requires Model().pc.next == i && !Model().pc.inserted
      requires i < |items|
      modifies this`active, this`queued, this`states, this`acts
      ensures Valid() && Model().pc == old(Model().pc).(next := i + 1)
      ensures active == old(active)[items[i].key := RowValue(items[i].event)]
      ensures queued == old(queued) - {items[i].key}
    {
      InsertActive(items[i]);
      RemoveQueued(items[i]);
    }

    // ----------------------------------------------------------------
    // The arms of the handler's `select!`
    // ----------------------------------------------------------------

    lemma FutureKind(i: nat)
      requires Valid() && Model().pc.Idle? && i < |futures|
      ensures futures[i].kind in status && ValidKind(futures[i].kind)
      ensures !status[futures[i].kind].Failed?
    {
      ModelInv();
      FailureWasRunning(Model(), i);
    }

    /** A future resolved with Ok. */
    method TakeOk(i: nat) returns (kind: OutgoingKind)
      requires Valid() && Model().pc.Idle? && i < |futures|
      modifies this`futures, this`states, this`acts
      ensures Valid() && ValidKind(kind) && kind == old(futures)[i].kind
      ensures Model().pc == Deleting(kind, OrderedKeys(Model().active, kind))
      ensures futures == RemoveAt(old(futures), i)
    {
      FutureKind(i);
      kind := futures[i].kind;
      futures := RemoveAt(futures, i);
      Advance(TxnOk(i));
    }

    method ReadQueue(kind: OutgoingKind) returns (items: seq<Item>)
      requires Valid() && Model().pc == Reading(kind) && ValidKind(kind)
      modifies this`states, this`acts
      ensures Valid() && items == Take(Requests(queued, kind), BATCH)
      ensures items == [] ==> Model().pc == Clearing(kind)
      ensures items != [] ==> Model().pc == Marking(kind, ItemEvents(items), items, 0, false)
    {
      items := Take(Requests(queued, kind), BATCH);
      KnownTables();
      RequestsStored(Model(), queued, Model().queued, kind);
      Advance(Read);
    }

    /** The marked events go out. */
    method PushTransaction(kind: OutgoingKind, events: seq<Event>, ghost items: seq<Item>)
      requires Valid() && Model().pc == Marking(kind, events, items, |items|, false)
      modifies this`futures, this`states, this`acts
      ensures Valid() && Model().pc.Idle?
      ensures futures == old(futures) + [Txn(kind, events)]
    {
      futures := futures + [Txn(kind, events)];
      Advance(Mark);
    }

    method MarkAndPush(kind: OutgoingKind, events: seq<Event>, items: seq<Item>)
      requires Valid() && Model().pc == Marking(kind, events, items, 0, false)
      modifies this`active, this`queued, this`futures, this`states, this`acts
      ensures Valid() && Model().pc.Idle?
      ensures active == InsertItems(old(active), items, |items|)
      ensures queued == RemoveItems(old(queued), items, |items|)
      ensures Moved(old(active), old(queued), active, queued, items)
      ensures futures == old(futures) + [Txn(kind, events)]
    {
      MarkAsActive(items);
      PushTransaction(kind, events, items);
    }

    method DropStatus(kind: OutgoingKind)
      requires Valid() && Model().pc == Clearing(kind)
      modifies this`status, this`states, this`acts
      ensures Valid() && Model().pc.Idle?
      ensures status == old(status) - {kind}
    {
      status := status - {kind};
      Advance(Clear);
    }

    method FinishTransaction(i: nat) returns (kind: OutgoingKind)
      requires Valid() && Model().pc.Idle? && i < |futures|
      modifies this`active, this`futures, this`states, this`acts
      ensures Valid() && ValidKind(kind) && kind == old(futures)[i].kind && Model().pc == Reading(kind)
      ensures futures == RemoveAt(old(futures), i)
      ensures active == old(active) - KeysWith(old(active), Prefix(kind))
    {
      kind := TakeOk(i);
      DeleteAllActiveRequestsFor(kind);
    }

    method NextTransaction(kind: OutgoingKind) returns (items: seq<Item>)
      requires Valid() && Model().pc == Reading(kind) && ValidKind(kind)
      modifies this`active, this`queued, this`status, this`futures, this`states, this`acts
      ensures Valid() && Model().pc.Idle?
      ensures items == Take(Requests(old(queued), kind), BATCH)
      ensures Moved(old(active), old(queued), active, queued, items)
      ensures status == if items == [] then old(status) - {kind} else old(status)
      ensures futures == old(futures) + (if items == [] then [] else [Txn(kind, ItemEvents(items))])
    {
      items := ReadQueue(kind);
      if items != [] {
        MarkAndPush(kind, ItemEvents(items), items);
      } else {
        DropStatus(kind);
      }
    }

    /** The Ok arm: the destination's active rows are deleted, and at most thirty queued rows
        become the next transaction; with an empty queue the status goes away. */
    method HandleOk(i: nat) returns (kind: OutgoingKind, items: seq<Item>)
      requires Valid() && Model().pc.Idle? && i < |futures|
      modifies this`active, this`queued, this`status, this`futures, this`states, this`acts
      ensures Valid() && Model().pc.Idle?
      ensures kind == old(futures)[i].kind
      ensures exists rows :: ListsRows(old(queued), kind, rows) && items == if |rows| <= 30 then rows else rows[..30]
      ensures forall k :: NextBatchAt(kind, old(active), old(queued), active, queued, k)
      ensures status == if items == [] then old(status) - {kind} else old(status)
      ensures futures == RemoveAt(old(futures), i) + (if items == [] then [] else [Txn(kind, ItemEvents(items))])
    {
      FutureKind(i);
      kind := futures[i].kind;
      ghost var rows := Requests(queued, kind);
      RowsListed(kind);
      var finished := FinishTransaction(i);
      items := NextTransaction(kind);
      forall k
        ensures NextBatchAt(kind, old(active), old(queued), active, queued, k)
      {
        NextBatchIs(kind, old(active), old(queued), active, queued, rows, k);
      }
    }

    lemma RowsListed(kind: OutgoingKind)
      requires Valid() && ValidKind(kind)
      ensures ListsRows(queued, kind, Requests(queued, kind)) && ListsRows(active, kind, Requests(active, kind))
    {
      KnownTables();
      RequestsListRows(Model(), queued, Model().queued, kind);
      RequestsListRows(Model(), active, Model().active, kind);
    }

    /** The Err arm: the failure is counted and timed, the rows stay active. */
    method HandleErr(i: nat)
      requires Valid() && Model().pc.Idle? && i < |futures|
      modifies this`status, this`futures, this`states, this`acts
      ensures Valid() && Model().pc.Idle?
      ensures futures == RemoveAt(old(futures), i)
      ensures var kind := old(futures)[i].kind;
              && kind in old(status) && !old(status)[kind].Failed?
              && var tries := if old(status)[kind].Running? then 1 else old(status)[kind].tries + 1;
                 status == old(status)[kind := Failed(tries, now)]
    {
      FutureKind(i);
      var kind := futures[i].kind;
      if kind in status {
        status := status[kind := AfterFailure(status[kind], now)];
      }
      futures := RemoveAt(futures, i);
      Advance(TxnErr(i));
    }

    // ----------------------------------------------------------------
    // A message from a caller
    // ----------------------------------------------------------------

    lemma MessageKind()
      requires Valid() && channel != []
      ensures ValidKind(channel[0].kind)
    {
      ModelInv();
      var m := channel[0];
      KnownKind(Model(), m.key, Row(m.kind, m.event));
    }

    /** Whether `select_events` lets a retry through now. */
    predicate RetryDue(kind: OutgoingKind)
      reads this`status, this`now
    {
      kind in status && status[kind].Failed? && now - status[kind].at >= Backoff(status[kind].tries)
    }

    /** The destination is busy, or has failed too recently. */
    method Ignore()
      requires Valid() && Model().pc.Idle? && channel != []
      requires channel[0].kind in status && !RetryDue(channel[0].kind)
      modifies this`channel, this`states, this`acts
      ensures Valid() && Model().pc.Idle?
      ensures channel == old(channel)[1..]
    {
      channel := channel[1..];
      Advance(Receive([]));
    }

    method Retry()
      requires Valid() && Model().pc.Idle? && channel != [] && RetryDue(channel[0].kind)
      modifies this`channel, this`status, this`futures, this`states, this`acts
      ensures Valid() && Model().pc.Idle?
      ensures channel == old(channel)[1..]
      ensures var kind := old(channel)[0].kind;
              && status == old(status)[kind := Retrying(old(status)[kind].tries)]
              && futures == old(futures) + [Txn(kind, ItemEvents(Requests(active, kind)))]
    {
      var kind := channel[0].kind;
      MessageKind();
      KnownTables();
      RequestsStored(Model(), active, Model().active, kind);
      status := status[kind := Retrying(status[kind].tries)];
      futures := futures + [Txn(kind, ItemEvents(Requests(active, kind)))];
      channel := channel[1..];
      Advance(Receive([]));
    }

    method FirstTransaction(edus: seq<Event>)
      requires Valid() && Model().pc.Idle? && channel != [] && channel[0].kind !in status
      requires AllEdus(edus) && (edus != [] ==> channel[0].kind.Normal?)
      modifies this`active, this`queued, this`channel, this`status, this`futures, this`states, this`acts
      ensures Valid() && Model().pc.Idle?
      ensures channel == old(channel)[1..]
      ensures var m := old(channel)[0];
              && status == old(status)[m.kind := Running]
              && active == old(active)[m.key := RowValue(m.event)] && queued == old(queued) - {m.key}
              && futures == old(futures) + [Txn(m.kind, [m.event] + edus)]
    {
      var m := channel[0];
      status := status[m.kind := Running];
      channel := channel[1..];
      Advance(Receive(edus));
      var items := [Item(m.event, m.key)];
      MarkAndPush(m.kind, [m.event] + edus, items);
      assert InsertItems(old(active), items, 1) == InsertItems(old(active), items, 0)[m.key := RowValue(m.event)];
      assert RemoveItems(old(queued), items, 1) == RemoveItems(old(queued), items, 0) - {m.key};
    }

    /** The channel arm and `select_events`; the EDUs are what `select_edus` would add for a
        server. A destination without status starts with the received row; one whose waiting
        time is over resends all its active rows; any other message is dropped. */
    method HandleMessage(edus: seq<Event>)
      requires Valid() && Model().pc.Idle? && channel != [] && AllEdus(edus)
      modifies this`active, this`queued, this`channel, this`status, this`futures, this`states, this`acts
      ensures Valid() && Model().pc.Idle?
      ensures channel == old(channel)[1..]
      ensures var m := old(channel)[0];
              if m.kind !in old(status) then
                && status == old(status)[m.kind := Running]
                && active == old(active)[m.key := RowValue(m.event)] && queued == old(queued) - {m.key}
                && futures == old(futures) + [Txn(m.kind, [m.event] + (if m.kind.Normal? then edus else []))]
              else
                var e := old(status)[m.kind];
                if e.Failed? && now - e.at >= 1_000_000_000 * (if 30 * e.tries * e.tries > 86400 then 86400
                                                                else 30 * e.tries * e.tries) then
                  && status == old(status)[m.kind := Retrying(e.tries)]
                  && active == old(active) && queued == old(queued)
                  && exists rows :: ListsRows(active, m.kind, rows) &&
                       futures == old(futures) + [Txn(m.kind, ItemEvents(rows))]
                else
                  status == old(status) && active == old(active) && queued == old(queued) && futures == old(futures)
    {
      var kind := channel[0].kind;
      if kind in status && status[kind].Failed? {
        BackoffIs(status[kind].tries);
      }
      if kind !in status {
        FirstTransaction(if kind.Normal? then edus else []);
      } else if RetryDue(kind) {
        MessageKind();
        RowsListed(kind);
        Retry();
      } else {
        Ignore();
      }
    }

    // ----------------------------------------------------------------
    // Start, crash, cleanup
    // ----------------------------------------------------------------

    /** One row of the startup loop. */
    method CollectRow(acc: map<OutgoingKind, seq<Event>>, key: Bytes, row: Row)
      returns (acc': map<OutgoingKind, seq<Event>>)
      requires Valid() && Model().pc.Booting? && Model().pc.next < |Model().pc.rows|
      requires Model().pc.acc == acc && Model().pc.rows[Model().pc.next] == (key, row)
      modifies this`active, this`states, this`acts
      ensures Valid() && Model().pc == old(Model().pc).(next := old(Model().pc).next + 1, acc := acc')
      ensures Model() == DoBootRow(old(Model()))
      ensures |Collected(acc, row.kind)| <= BATCH ==>
                active == old(active) && acc' == acc[row.kind := Collected(acc, row.kind) + [row.event]]
    {
      var entry := Collected(acc, row.kind);
      StoredRemoves(active, Model().active, key);
      Advance(BootRow);
      if |entry| > BATCH {
        // "Dropping some current events"
        active := active - {key};
        acc' := acc[row.kind := entry];
      } else {
        acc' := acc[row.kind := entry + [row.event]];
      }
    }

    lemma RoomForRow()
      requires Valid() && Model().pc.Booting? && Model().pc.next < |Model().pc.rows|
      ensures |Collected(Model().pc.acc, Model().pc.rows[Model().pc.next].1.kind)| < BATCH
    {
      ModelInv();
      NothingDropped(Model());
    }

    /** The rows of the active table in key order, as the startup loop sees them. */
    ghost predicate BootRead(rows: Rows, keys: seq<Bytes>, n: nat, acc: map<OutgoingKind, seq<Event>>)
      requires Traced()
      reads this
    {
      && keys == Sorted(rows.Keys) && n <= |keys| && (forall k | k in keys :: k in rows)
      && Model().pc == Booting(Snapshot(rows), n, acc)
      && CollectedRows(acc, rows, keys, n)
    }

    ghost method BeginBoot() returns (rows: Rows)
      requires Valid() && Model().pc.BootStart?
      modifies this`states, this`acts
      ensures Valid() && rows == Model().active && KnownTable(Model(), active, rows)
      ensures active.Keys == rows.Keys
      ensures BootRead(rows, Sorted(active.Keys), 0, map[])
    {
      KnownTables();
      rows := Model().active;
      forall k
        ensures k in active <==> k in rows
      {
        assert StoredAt(active, rows, k);
      }
      assert active.Keys == rows.Keys;
      SortedElems(rows.Keys);
      BootNothing(rows);
      Advance(Boot);
    }

    method CollectNext(before: Table, ghost s: State, ghost rows: Rows, keys: seq<Bytes>, n: nat,
                       acc: map<OutgoingKind, seq<Event>>)
      returns (acc': map<OutgoingKind, seq<Event>>)
      requires Valid() && BootRead(rows, keys, n, acc) && n < |keys|
      requires before.Keys == rows.Keys && KnownTable(s, before, rows)
      modifies this`active, this`states, this`acts
      ensures Valid() && BootRead(rows, keys, n + 1, acc') && active == old(active)
    {
      var key := keys[n];
      acc' := acc;
      assert key in keys;
      StoredParses(s, before, rows, key);
      assert Snapshot(rows)[n] == (key, rows[key]);
      RoomForRow();
      match Parse(key, before[key]) {
        case Some((kind, event)) =>
          CollectStep(acc, rows, keys, n);
          acc' := CollectRow(acc, key, Row(kind, event));
        case None => assert false;
      }
    }

    /** `for (outgoing_kind, events) in initial_transactions`, in any order. */
    method StartCollected(acc: map<OutgoingKind, seq<Event>>)
      requires Valid() && Model().pc.Booting? && Model().pc.acc == acc && Model().pc.next == |Model().pc.rows|
      modifies this`status, this`futures, this`states, this`acts
      ensures Valid() && Model().pc.Idle?
      ensures Started(acc, status, futures)
    {
      var order, running, started := StartAll(acc);
      StartedAll(Model(), order, running, started);
      status, futures := running, started;
      AdvanceBootDone(order);
    }

    ghost method AdvanceBootDone(order: seq<OutgoingKind>)
      requires Traced() && Enabled(Model(), BootDone(order))
      modifies this`states, this`acts
      ensures Traced() && Model() == DoBootDone(old(Model()), order)
    {
      Advance(BootDone(order));
    }

    method CollectAll(ghost rows: Rows) returns (acc: map<OutgoingKind, seq<Event>>)
      requires Valid() && KnownTable(Model(), active, rows) && active.Keys == rows.Keys
      requires BootRead(rows, Sorted(active.Keys), 0, map[])
      modifies this`active, this`states, this`acts
      ensures Valid() && active == old(active)
      ensures BootRead(rows, Sorted(active.Keys), |Sorted(active.Keys)|, acc)
    {
      var before := active;
      var keys := Sorted(active.Keys);
      ghost var s := Model();
      acc := map[];
      var i := 0;
      while i < |keys|
        invariant i <= |keys| && active == before
        invariant Valid() && BootRead(rows, keys, i, acc)
      {
        acc := CollectNext(before, s, rows, keys, i, acc);
        i := i + 1;
      }
    }

    /** The beginning of `handler`: every destination with active rows gets a running
        transaction with exactly these rows, and no row is dropped. */
    method Start()
      requires Valid() && Model().pc.BootStart?
      modifies this`active, this`status, this`futures, this`states, this`acts
      ensures Valid() && Model().pc.Idle? && active == old(active)
      ensures forall kind :: ValidKind(kind) ==>
                && (kind in status <==> KeysWith(active, Prefix(kind)) != {})
                && (Flying(futures, kind) <==> kind in status)
      ensures forall kind :: kind in status ==> status[kind] == Running
      ensures forall t :: t in futures ==>
                ValidKind(t.kind) && exists rows :: ListsRows(active, t.kind, rows) && t.events == ItemEvents(rows)
    {
      ghost var rows := BeginBoot();
      ghost var s := Model();
      var acc := CollectAll(rows);
      StartCollected(acc);
      StartFacts(s, active, rows, acc, status, futures);
      forall t | t in futures
        ensures exists rows :: ListsRows(active, t.kind, rows) && t.events == ItemEvents(rows)
      {
        RowsListed(t.kind);
      }
    }

    // ----------------------------------------------------------------
    // Cleanup, crash, time
    // ----------------------------------------------------------------

    lemma RowOfScan(queue: bool, id: Bytes, key: Bytes)
      requires Valid() && IsText(id) && Prefix(Appservice(id)) <= key
      requires if queue then key in queued else key in active
      ensures if queue then key in Model().queued && Model().queued[key].kind == Appservice(id)
              else key in Model().active && Model().active[key].kind == Appservice(id)
    {
      KnownTables();
      if queue {
        PrefixRows(Model(), queued, Model().queued, Appservice(id));
        assert key in KeysWith(queued, Prefix(Appservice(id)));
      } else {
        PrefixRows(Model(), active, Model().active, Appservice(id));
        assert key in KeysWith(active, Prefix(Appservice(id)));
      }
    }

    method CleanupActiveRow(id: Bytes, key: Bytes)
      requires Valid() && IsText(id) && Prefix(Appservice(id)) <= key && key in active
      modifies this`active, this`states, this`acts
      ensures Valid() && active == old(active) - {key} && Model().pc == old(Model().pc)
    {
      RowOfScan(false, id, key);
      StoredRemoves(active, Model().active, key);
      Advance(CleanupActive(key));
      active := active - {key};
    }

    method CleanupQueuedRow(id: Bytes, key: Bytes)
      requires Valid() && IsText(id) && Prefix(Appservice(id)) <= key && key in queued
      modifies this`queued, this`states, this`acts
      ensures Valid() && queued == old(queued) - {key} && Model().pc == old(Model().pc)
    {
      RowOfScan(true, id, key);
      StoredRemoves(queued, Model().queued, key);
      Advance(CleanupQueued(key));
      queued := queued - {key};
    }

    method CleanupActiveRows(id: Bytes)
      requires Valid() && IsText(id)
      modifies this`active, this`states, this`acts
      ensures Valid() && Model().pc == old(Model().pc)
      ensures active == old(active) - KeysWith(old(active), Prefix(Appservice(id)))
    {
      var keys := ScanPrefix(active, Prefix(Appservice(id)));
      RemoveScan(active, Prefix(Appservice(id)));
      forall i | 0 <= i < |keys|
        ensures Removable(active, keys, i, Prefix(Appservice(id)))
      {
        StillThere(active, Prefix(Appservice(id)), i);
      }
      CleanupActiveKeys(id, keys);
    }

    method CleanupActiveKeys(id: Bytes, keys: seq<Bytes>)
      requires Valid() && IsText(id)
      requires forall i :: 0 <= i < |keys| ==> Removable(active, keys, i, Prefix(Appservice(id)))
      modifies this`active, this`states, this`acts
      ensures Valid() && Model().pc == old(Model().pc)
      ensures active == RemoveKeys(old(active), keys, |keys|)
    {
      var i := 0;
      while i < |keys|
        invariant i <= |keys|
        invariant Valid() && Model().pc == old(Model().pc)
        invariant active == RemoveKeys(old(active), keys, i)
      {
        assert Removable(old(active), keys, i, Prefix(Appservice(id)));
        CleanupActiveRow(id, keys[i]);
        i := i + 1;
      }
    }

    method CleanupQueuedRows(id: Bytes)
      requires Valid() && IsText(id)
      modifies this`queued, this`states, this`acts
      ensures Valid() && Model().pc == old(Model().pc)
      ensures queued == old(queued) - KeysWith(old(queued), Prefix(Appservice(id)))
    {
      var keys := ScanPrefix(queued, Prefix(Appservice(id)));
      RemoveScan(queued, Prefix(Appservice(id)));
      forall i | 0 <= i < |keys|
        ensures Removable(queued, keys, i, Prefix(Appservice(id)))
      {
        StillThere(queued, Prefix(Appservice(id)), i);
      }
      CleanupQueuedKeys(id, keys);
    }

    method CleanupQueuedKeys(id: Bytes, keys: seq<Bytes>)
      requires Valid() && IsText(id)
      requires forall i :: 0 <= i < |keys| ==> Removable(queued, keys, i, Prefix(Appservice(id)))
      modifies this`queued, this`states, this`acts
      ensures Valid() && Model().pc == old(Model().pc)
      ensures queued == RemoveKeys(old(queued), keys, |keys|)
    {
      var i := 0;
      while i < |keys|
        invariant i <= |keys|
        invariant Valid() && Model().pc == old(Model().pc)
        invariant queued == RemoveKeys(old(queued), keys, i)
      {
        assert Removable(old(queued), keys, i, Prefix(Appservice(id)));
        CleanupQueuedRow(id, keys[i]);
        i := i + 1;
      }
    }

    /** `cleanup_events`: the appservice's rows disappear from both tables, nothing else does. */
    method CleanupEvents(id: Bytes)
      requires Valid() && IsText(id)
      modifies this`active, this`queued, this`states, this`acts
      ensures Valid() && Model().pc == old(Model().pc)
      ensures active == old(active) - KeysWith(old(active), Prefix(Appservice(id)))
      ensures queued == old(queued) - KeysWith(old(queued), Prefix(Appservice(id)))
    {
      CleanupActiveRows(id);
      CleanupQueuedRows(id);
    }

    /** The process stops, at any point; only the tables and the counter are left. */
    method Crash()
      requires Valid()
      modifies this`status, this`futures, this`channel, this`states, this`acts
      ensures Valid() && Model().pc.BootStart?
      ensures status == map[] && futures == [] && channel == []
    {
      status, futures, channel := map[], [], [];
      Advance(Action.Crash);
    }

    method Wait(nanos: nat)
      requires Valid()
      modifies this`now, this`states, this`acts
      ensures Valid() && now == old(now) + nanos && Model().pc == old(Model().pc)
    {
      now := now + nanos;
      Advance(Tick(nanos));
    }
  }

  ghost predicate Removable(t: Table, keys: seq<Bytes>, i: nat, p: Bytes) {
    i < |keys| && keys[i] in RemoveKeys(t, keys, i) && p <= keys[i]
  }

  /** A key of a scan is still in the table when its turn to be removed comes. */
  lemma StillThere(t: Table, p: Bytes, i: nat)
    requires i < |ScanPrefix(t, p)|
    ensures Removable(t, ScanPrefix(t, p), i, p)
  {
    var keys := ScanPrefix(t, p);
    ScanPrefixMembers(t, p);
    assert keys[i] in keys;
    RemoveKeysIs(t, keys, i);
  }

  /** One running transaction for every collected destination. */
  ghost predicate Started(acc: map<OutgoingKind, seq<Event>>, status: map<OutgoingKind, Status>, futures: seq<Txn>) {
    && status.Keys == acc.Keys
    && (forall kind :: kind in status ==> status[kind] == Running)
    && (forall t :: t in futures ==> t.kind in acc && t.events == acc[t.kind])
    && (forall kind :: kind in acc ==> Flying(futures, kind))
  }

  /** The collected destinations, each once and in some order, with their transactions. */
  ghost predicate Launched(acc: map<OutgoingKind, seq<Event>>, order: seq<OutgoingKind>,
                           status: map<OutgoingKind, Status>, futures: seq<Txn>) {
    && Distinct(order) && (forall k :: k in order <==> k in acc)
    && status == (map k | k in acc :: Running)
    && |futures| == |order| && (forall i :: 0 <= i < |order| ==> futures[i] == Txn(order[i], acc[order[i]]))
  }

  method StartAll(acc: map<OutgoingKind, seq<Event>>)
    returns (order: seq<OutgoingKind>, status: map<OutgoingKind, Status>, futures: seq<Txn>)
    ensures Launched(acc, order, status, futures)
  {
    var todo := acc.Keys;
    order, status, futures := [], map[], [];
    while todo != {}
      invariant todo <= acc.Keys
      invariant forall k :: k in order <==> k in acc && k !in todo
      invariant Distinct(order)
      invariant status.Keys == acc.Keys - todo && forall k :: k in status ==> status[k] == Running
      invariant |futures| == |order|
      invariant forall i :: 0 <= i < |order| ==> futures[i] == Txn(order[i], acc[order[i]])
      decreases |todo|
    {
      var kind :| kind in todo;
      status := status[kind := Running];
      futures := futures + [Txn(kind, acc[kind])];
      order := order + [kind];
      todo := todo - {kind};
    }
  }

  lemma CollectedAll(s: State, t: Table, rows: Rows, acc: map<OutgoingKind, seq<Event>>, kind: OutgoingKind)
    requires KnownTable(s, t, rows)
    requires
      var keys := Sorted(rows.Keys);
      (forall k | k in keys :: k in rows) && CollectedRows(acc, rows, keys, |keys|)
    ensures kind in acc ==> ValidKind(kind)
    ensures ValidKind(kind) ==> (kind in acc <==> KeysWith(t, Prefix(kind)) != {})
    ensures kind in acc ==> acc[kind] == ItemEvents(Requests(t, kind))
  {
    var keys := Sorted(rows.Keys);
    assert CollectedFor(acc, rows, keys, |keys|, kind);
    KeysForAll(rows, kind);
    var own := OrderedKeys(rows, kind);
    SortedElems(KeysOf(rows, kind));
    if own != [] {
      assert own[0] in own;
      KnownKind(s, own[0], rows[own[0]]);
    }
    if ValidKind(kind) {
      PrefixRows(s, t, rows, kind);
      RequestsStored(s, t, rows, kind);
    }
  }

  lemma StartFacts(s: State, t: Table, rows: Rows, acc: map<OutgoingKind, seq<Event>>,
                   status: map<OutgoingKind, Status>, futures: seq<Txn>)
    requires KnownTable(s, t, rows) && Started(acc, status, futures)
    requires
      var keys := Sorted(rows.Keys);
      (forall k | k in keys :: k in rows) && CollectedRows(acc, rows, keys, |keys|)
    ensures forall kind :: ValidKind(kind) ==>
              (kind in status <==> KeysWith(t, Prefix(kind)) != {}) && (Flying(futures, kind) <==> kind in status)
    ensures forall txn :: txn in futures ==> ValidKind(txn.kind) && txn.events == ItemEvents(Requests(t, txn.kind))
  {
    forall kind | ValidKind(kind)
      ensures (kind in status <==> KeysWith(t, Prefix(kind)) != {}) && (Flying(futures, kind) <==> kind in status)
    {
      CollectedAll(s, t, rows, acc, kind);
      if Flying(futures, kind) {
        var i :| 0 <= i < |futures| && futures[i].kind == kind;
        assert futures[i] in futures;
      }
    }
    forall txn | txn in futures
      ensures ValidKind(txn.kind) && txn.events == ItemEvents(Requests(t, txn.kind))
    {
      CollectedAll(s, t, rows, acc, txn.kind);
    }
  }

  lemma BootNothing(rows: Rows)
    requires forall k | k in Sorted(rows.Keys) :: k in rows
    ensures CollectedRows(map[], rows, Sorted(rows.Keys), 0)
  {
  }

  lemma StartedAll(s: State, order: seq<OutgoingKind>, status: map<OutgoingKind, Status>, futures: seq<Txn>)
    requires s.pc.Booting? && s.pc.next == |s.pc.rows| && Launched(s.pc.acc, order, status, futures)
    ensures Enabled(s, BootDone(order))
    ensures DoBootDone(s, order).status == status && DoBootDone(s, order).futures == futures
    ensures Started(s.pc.acc, status, futures)
  {
    FlyingOrder(s.pc.acc, order, futures);
  }

  lemma FlyingOrder(acc: map<OutgoingKind, seq<Event>>, order: seq<OutgoingKind>, futures: seq<Txn>)
    requires forall k :: k in order <==> k in acc
    requires |futures| == |order| && forall i :: 0 <= i < |order| ==> futures[i] == Txn(order[i], acc[order[i]])
    ensures forall kind :: kind in acc ==> Flying(futures, kind)
    ensures forall t :: t in futures ==> t.kind in acc && t.events == acc[t.kind]
  {
  }

  ghost predicate AddedRow(s: State, s': State, key: Bytes, row: Row) {
    && s'.queued == s.queued[key := row] && s'.active == s.active
    && s'.status == s.status && s'.futures == s.futures && s'.channel == s.channel && s'.now == s.now
  }

  ghost predicate Queued(rows: Rows, m: Msg) {
    m.key in rows && rows[m.key] == Row(m.kind, m.event)
  }

  /** The channel messages for the first requests, as many as there are keys. */
  function Msgs(requests: seq<(OutgoingKind, Event)>, keys: seq<Bytes>): (r: seq<Msg>)
    requires |keys| <= |requests|
    ensures |r| == |keys|
    decreases |keys|
  {
    if keys == [] then []
    else
      var n := |keys| - 1;
      Msgs(requests, keys[..n]) + [Msg(requests[n].0, requests[n].1, keys[n])]
  }

  lemma MsgsStep(requests: seq<(OutgoingKind, Event)>, keys: seq<Bytes>, key: Bytes)
    requires |keys| < |requests|
    ensures Msgs(requests, keys + [key]) == Msgs(requests, keys) + [Msg(requests[|keys|].0, requests[|keys|].1, key)]
  {
  }

  lemma InsertAllStep(t: Table, batch: seq<(Bytes, Bytes)>, entry: (Bytes, Bytes))
    ensures InsertAll(t, batch + [entry]) == InsertAll(t, batch)[entry.0 := entry.1]
  {
  }

  ghost predicate QueuedRows(before: Rows, after: Rows, msgs: seq<Msg>) {
    && (forall m :: m in msgs ==> Queued(after, m))
    && (forall k :: k in before ==> k in after && after[k] == before[k])
    && (forall k :: k in after ==> k in before || exists m :: m in msgs && m.key == k)
  }

  ghost predicate UnsentAdds(start: State, s: State, msgs: seq<Msg>) {
    s.unsent == start.unsent + multiset(msgs)
  }

  /** Between the two states exactly these rows were queued. */
  ghost predicate QueuedAll(start: State, s: State, msgs: seq<Msg>) {
    && QueuedRows(start.queued, s.queued, msgs)
    && s.pc == start.pc && UnsentAdds(start, s, msgs)
    && s.active == start.active && s.status == start.status && s.futures == start.futures && s.channel == start.channel
  }

  /** The same of the byte table: the rows parse back to the requests. */
  ghost predicate StoredAll(before: Table, after: Table, msgs: seq<Msg>) {
    && (forall m :: m in msgs ==> m.key in after && Parse(m.key, after[m.key]) == Some((m.kind, m.event)))
    && (forall k :: k in before ==> k in after && after[k] == before[k])
    && (forall k :: k in after ==> k in before || exists m :: m in msgs && m.key == k)
  }

  lemma QueuedAllStep(start: State, s: State, msgs: seq<Msg>, m: Msg)
    requires QueuedAll(start, s, msgs) && CountAfter(s, m.event) < U64 && m.key == NewKey(s, m.kind, m.event)
    requires KnownRows(s, s.queued)
    requires m.key in s.hist.issued ==> s.hist.issued[m.key] == Row(m.kind, m.event)
    ensures QueuedAll(start, DoQueue(s, m.kind, m.event), msgs + [m])
  {
  }

  lemma QueuedIsStored(start: State, s: State, before: Table, after: Table, msgs: seq<Msg>)
    requires QueuedAll(start, s, msgs)
    requires Stored(before, start.queued) && KnownTable(s, after, s.queued)
    ensures StoredAll(before, after, msgs)
  {
    forall m | m in msgs
      ensures m.key in after && Parse(m.key, after[m.key]) == Some((m.kind, m.event))
    {
      assert Queued(s.queued, m);
      assert StoredAt(after, s.queued, m.key);
      StoredParses(s, after, s.queued, m.key);
    }
    forall k
      ensures k in before ==> k in after && after[k] == before[k]
      ensures k in after ==> k in before || exists m :: m in msgs && m.key == k
    {
      assert StoredAt(before, start.queued, k) && StoredAt(after, s.queued, k);
    }
  }
}
