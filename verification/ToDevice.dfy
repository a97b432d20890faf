/** The to-device queue: events waiting for one device of one user, keyed by user, device and the
    global count at which they were sent.
 */
module ToDevice {
  import opened ByteStrings
  import opened KvTable
  import opened Text

  datatype Device = Device(user: Bytes, id: Bytes)

  predicate ValidDevice(d: Device) {
    IsText(d.user) && IsText(d.id)
  }

  /** A slot of the queue: the device and the count of the event. */
  datatype Slot = Slot(device: Device, count: nat)

  type Events = map<Slot, Bytes>

  function Prefix(d: Device): (p: Bytes) {
    d.user + [SEP] + (d.id + [SEP])
  }

  function Key(d: Device, n: nat): (k: Bytes)
    requires n < U64
  {
    Prefix(d) + Be64(n)
  }

  predicate ValidSlot(s: Slot) {
    ValidDevice(s.device) && s.count < U64
  }

  /** A key starts with a device's prefix only when it is one of its own rows. */
  lemma PrefixExact(d: Device, s: Slot)
    requires ValidDevice(d) && ValidSlot(s)
    ensures Prefix(d) <= Key(s.device, s.count) <==> d == s.device
  {
    var e, k := s.device, Key(s.device, s.count);
    TextHasNoSep(d.user);
    TextHasNoSep(d.id);
    TextHasNoSep(e.user);
    TextHasNoSep(e.id);
    var x := e.id + [SEP] + Be64(s.count);
    assert k == e.user + [SEP] + x;
    if Prefix(d) <= k {
      var y := k[|Prefix(d)|..];
      assert k == Prefix(d) + y == d.user + [SEP] + (d.id + [SEP] + y);
      JoinInjective(d.user, d.id + [SEP] + y, e.user, x);
      JoinInjective(d.id, y, e.id, Be64(s.count));
    }
  }

  lemma KeyInjective(s: Slot, s': Slot)
    requires ValidSlot(s) && ValidSlot(s')
    ensures Key(s.device, s.count) == Key(s'.device, s'.count) <==> s == s'
  {
    var k, k' := Key(s.device, s.count), Key(s'.device, s'.count);
    if k == k' {
      assert Prefix(s.device) <= k;
      PrefixExact(s.device, s');
      assert k[|Prefix(s.device)|..] == Be64(s.count) && k'[|Prefix(s.device)|..] == Be64(s'.count);
      Be64Injective(s.count, s'.count);
    }
  }

  // ------------------------------------------------------------------
  // The table holds the events
  // ------------------------------------------------------------------

  ghost predicate SlotAt(t: Table, es: Events, s: Slot) {
    ValidSlot(s) ==>
      && (Key(s.device, s.count) in t <==> s in es)
      && (s in es && Key(s.device, s.count) in t ==> t[Key(s.device, s.count)] == es[s])
  }

  ghost predicate RowAt(t: Table, es: Events, k: Bytes) {
    k in t ==> exists s :: s in es && ValidSlot(s) && k == Key(s.device, s.count)
  }

  ghost predicate Holds(t: Table, es: Events) {
    && (forall s {:trigger SlotAt(t, es, s)} :: SlotAt(t, es, s))
    && (forall k {:trigger RowAt(t, es, k)} :: RowAt(t, es, k))
  }

  lemma HoldsPut(t: Table, es: Events, s: Slot, v: Bytes)
    requires Holds(t, es) && ValidSlot(s)
    ensures Holds(t[Key(s.device, s.count) := v], es[s := v])
  {
    var k := Key(s.device, s.count);
    var t', es' := t[k := v], es[s := v];
    forall q
      ensures SlotAt(t', es', q)
    {
      assert SlotAt(t, es, q);
      if ValidSlot(q) {
        KeyInjective(s, q);
      }
    }
    forall k'
      ensures RowAt(t', es', k')
    {
      assert RowAt(t, es, k');
      if k' in t && k' != k {
        var q :| q in es && ValidSlot(q) && k' == Key(q.device, q.count);
        assert q in es';
      }
    }
  }

  lemma HoldsRemove(t: Table, es: Events, s: Slot)
    requires Holds(t, es) && ValidSlot(s)
    ensures Holds(t - {Key(s.device, s.count)}, es - {s})
  {
    var k := Key(s.device, s.count);
    var t', es' := t - {k}, es - {s};
    forall q
      ensures SlotAt(t', es', q)
    {
      assert SlotAt(t, es, q);
      if ValidSlot(q) {
        KeyInjective(s, q);
      }
    }
    forall k'
      ensures RowAt(t', es', k')
    {
      assert RowAt(t, es, k');
      if k' in t' {
        var q :| q in es && ValidSlot(q) && k' == Key(q.device, q.count);
        assert q in es';
      }
    }
  }

  /** The row behind a key of one device's range. */
  lemma SlotOfKey(t: Table, es: Events, d: Device, k: Bytes) returns (n: nat)
    requires Holds(t, es) && ValidDevice(d) && k in t && Prefix(d) <= k
    ensures n < U64 && Slot(d, n) in es && k == Key(d, n) && t[k] == es[Slot(d, n)]
    ensures KeyCount(k) == Some(n)
  {
    assert RowAt(t, es, k);
    var s :| s in es && ValidSlot(s) && k == Key(s.device, s.count);
    PrefixExact(d, s);
    n := s.count;
    assert SlotAt(t, es, s) && s == Slot(d, n);
    assert k[|k| - 8..] == Be64(n);
    Be64RoundTrip(n);
  }

  // ------------------------------------------------------------------
  // Reading and removing
  // ------------------------------------------------------------------

  ghost predicate Rising(s: seq<nat>) {
    forall i, j :: 0 <= i < j < |s| ==> s[i] < s[j]
  }

  /** The events of one device, oldest first. */
  ghost predicate Lists(es: Events, d: Device, counts: seq<nat>, values: seq<Bytes>) {
    && |values| == |counts| && Rising(counts)
    && (forall i :: 0 <= i < |counts| ==> Slot(d, counts[i]) in es && es[Slot(d, counts[i])] == values[i])
    && (forall n :: Slot(d, n) in es ==> n in counts)
  }

  /** What is left once a device has acknowledged everything up to a count. */
  function Acknowledged(es: Events, d: Device, until: nat): (r: Events) {
    map s | s in es && !(s.device == d && s.count <= until) :: es[s]
  }

  /** What is left once a device is removed. */
  function WithoutDevice(es: Events, d: Device): (r: Events) {
    map s | s in es && s.device != d :: es[s]
  }

  /** The count at the end of a key. */
  function KeyCount(k: Bytes): (n: Option<nat>) {
    if |k| < 8 then None else U64FromBytes(k[|k| - 8..])
  }

  lemma KeyOrder(d: Device, m: nat, n: nat)
    requires m < U64 && n < U64
    ensures LexLe(Key(d, m), Key(d, n)) <==> m <= n
  {
    LexCancel(Prefix(d), Be64(m), Be64(n));
    Be64Order(m, n, [], []);
  }

  lemma CountUpTo(t: Table, es: Events, d: Device, until: nat, k: Bytes)
    requires Holds(t, es) && ValidDevice(d) && until < U64
    requires k in t && Prefix(d) <= k && LexLe(k, Prefix(d) + Be64(until))
    ensures KeyCount(k).Some? && KeyCount(k).value <= until
  {
    var n := SlotOfKey(t, es, d, k);
    KeyOrder(d, n, until);
  }

  /** Deleting a device's keys up to a bound is what acknowledging means. */
  lemma AcknowledgedHolds(t: Table, es: Events, d: Device, until: nat, gone: set<Bytes>)
    requires Holds(t, es) && ValidDevice(d) && until < U64
    requires forall k :: k in gone <==> k in t && Prefix(d) <= k && LexLe(k, Key(d, until))
    ensures Holds(t - gone, Acknowledged(es, d, until))
  {
    var t', es' := t - gone, Acknowledged(es, d, until);
    forall s
      ensures SlotAt(t', es', s)
    {
      assert SlotAt(t, es, s);
      if ValidSlot(s) {
        PrefixExact(d, s);
        KeyOrder(s.device, s.count, until);
      }
    }
    forall k
      ensures RowAt(t', es', k)
    {
      assert RowAt(t, es, k);
      if k in t' {
        var s :| s in es && ValidSlot(s) && k == Key(s.device, s.count);
        PrefixExact(d, s);
        KeyOrder(s.device, s.count, until);
        assert s in es';
      }
    }
  }

  lemma WithoutDeviceHolds(t: Table, es: Events, d: Device, gone: set<Bytes>)
    requires Holds(t, es) && ValidDevice(d)
    requires forall k :: k in gone <==> k in t && Prefix(d) <= k
    ensures Holds(t - gone, WithoutDevice(es, d))
  {
    var t', es' := t - gone, WithoutDevice(es, d);
    forall s
      ensures SlotAt(t', es', s)
    {
      assert SlotAt(t, es, s);
      if ValidSlot(s) {
        PrefixExact(d, s);
      }
    }
    forall k
      ensures RowAt(t', es', k)
    {
      assert RowAt(t, es, k);
      if k in t' {
        var s :| s in es && ValidSlot(s) && k == Key(s.device, s.count);
        PrefixExact(d, s);
        assert s in es';
      }
    }
  }

  /** The counts of a device's keys. */
  function Counts(keys: seq<Bytes>): (r: seq<nat>)
    ensures |r| == |keys|
  {
    seq(|keys|, i requires 0 <= i < |keys| => if KeyCount(keys[i]).Some? then KeyCount(keys[i]).value else 0)
  }

  lemma ScannedEvent(t: Table, es: Events, d: Device, keys: seq<Bytes>, i: nat)
    requires Holds(t, es) && ValidDevice(d) && i < |keys| && keys[i] in t && Prefix(d) <= keys[i]
    ensures
      var n := Counts(keys)[i];
      n < U64 && Slot(d, n) in es && es[Slot(d, n)] == t[keys[i]] && keys[i] == Key(d, n)
  {
    var n := SlotOfKey(t, es, d, keys[i]);
  }

  lemma ScannedOrder(t: Table, es: Events, d: Device, keys: seq<Bytes>, i: nat, j: nat)
    requires Holds(t, es) && ValidDevice(d) && i < j < |keys| && Ascending(keys)
    requires keys[i] in t && Prefix(d) <= keys[i] && keys[j] in t && Prefix(d) <= keys[j]
    ensures Counts(keys)[i] < Counts(keys)[j]
  {
    ScannedEvent(t, es, d, keys, i);
    ScannedEvent(t, es, d, keys, j);
    KeyOrder(d, Counts(keys)[i], Counts(keys)[j]);
  }

  lemma SlotListed(t: Table, es: Events, d: Device, keys: seq<Bytes>, n: nat)
    requires Holds(t, es) && ValidDevice(d) && Slot(d, n) in es && n < U64
    requires Key(d, n) in t ==> Key(d, n) in keys
    ensures n in Counts(keys)
  {
    assert SlotAt(t, es, Slot(d, n));
    var k := Key(d, n);
    var i :| 0 <= i < |keys| && keys[i] == k;
    assert k[|k| - 8..] == Be64(n);
    Be64RoundTrip(n);
    assert Counts(keys)[i] == n;
  }

  /** A scan of a device's prefix, read in order, lists its events oldest first. */
  lemma ScanLists(t: Table, es: Events, d: Device, values: seq<Bytes>)
    requires Holds(t, es) && ValidDevice(d) && (forall s :: s in es ==> ValidSlot(s))
    requires
      var keys := ScanPrefix(t, Prefix(d));
      |values| == |keys| && forall i :: 0 <= i < |keys| ==> keys[i] in t && values[i] == t[keys[i]]
    ensures Lists(es, d, Counts(ScanPrefix(t, Prefix(d))), values)
  {
    var keys := ScanPrefix(t, Prefix(d));
    var counts := Counts(keys);
    ScanPrefixMembers(t, Prefix(d));
    forall i | 0 <= i < |counts|
      ensures Slot(d, counts[i]) in es && es[Slot(d, counts[i])] == values[i]
    {
      assert keys[i] in keys;
      ScannedEvent(t, es, d, keys, i);
    }
    forall i, j | 0 <= i < j < |counts|
      ensures counts[i] < counts[j]
    {
      assert keys[i] in keys && keys[j] in keys;
      ScannedOrder(t, es, d, keys, i, j);
    }
    forall n | Slot(d, n) in es
      ensures n in counts
    {
      assert ValidSlot(Slot(d, n));
      assert Prefix(d) <= Key(d, n);
      SlotListed(t, es, d, keys, n);
    }
  }

  class Queue {
    var todeviceEvents: Table
    var count: nat
    /** What the table stands for. */
    ghost var events: Events

    ghost predicate Valid()
      reads this
    {
      && Holds(todeviceEvents, events)
      && count < U64
      && forall s :: s in events ==> ValidSlot(s) && s.count <= count
    }

    constructor ()
      ensures Valid() && events == map[] && count == 0
    {
      todeviceEvents, count, events := map[], 0, map[];
      new;
      assert forall s {:trigger SlotAt(todeviceEvents, events, s)} :: SlotAt(todeviceEvents, events, s);
      assert forall k {:trigger RowAt(todeviceEvents, events, k)} :: RowAt(todeviceEvents, events, k);
    }

    /** Taking the count and inserting the row are one step. */
    method AddToDeviceEvent(d: Device, content: Bytes)
      requires Valid() && ValidDevice(d) && count + 1 < U64
      modifies this
      ensures Valid() && count == old(count) + 1
      ensures Slot(d, count) !in old(events)
      ensures events == old(events)[Slot(d, count) := content]
    {
      count := count + 1;
      todeviceEvents := todeviceEvents[Key(d, count) := content];
      events := events[Slot(d, count) := content];
      HoldsPut(old(todeviceEvents), old(events), Slot(d, count), content);
    }

    /** Every waiting event of the device, in the order of their counts. */
    method GetToDeviceEvents(d: Device) returns (r: seq<Bytes>)
      requires Valid() && ValidDevice(d)
      ensures exists counts :: Lists(events, d, counts, r)
    {
      var keys := ScanPrefix(todeviceEvents, Prefix(d));
      ScanPrefixMembers(todeviceEvents, Prefix(d));
      r := [];
      for i := 0 to |keys|
        invariant |r| == i
        invariant forall j :: 0 <= j < i ==> keys[j] in todeviceEvents && r[j] == todeviceEvents[keys[j]]
      {
        assert keys[i] in keys;
        r := r + [todeviceEvents[keys[i]]];
      }
      ScanLists(todeviceEvents, events, d, r);
    }

    /** Removal deletes exactly the device's events with a count up to `until`. */
    method RemoveToDeviceEvents(d: Device, until: nat)
      requires Valid() && ValidDevice(d) && until < U64
      modifies `todeviceEvents, `events
      ensures Valid()
      ensures events == Acknowledged(old(events), d, until)
    {
      var keys := ScanBack(todeviceEvents, Prefix(d), Be64(until));
      ScanBackMembers(todeviceEvents, Prefix(d), Be64(until));
      forall k | k in keys
        ensures KeyCount(k).Some? && KeyCount(k).value <= until
      {
        CountUpTo(todeviceEvents, events, d, until, k);
      }
      RemoveWhile(keys, until);
      events := Acknowledged(events, d, until);
      AcknowledgedHolds(old(todeviceEvents), old(events), d, until, Elems(keys));
    }

    /** The loop: keys without a count are skipped, a count above the bound ends it. */
    method RemoveWhile(keys: seq<Bytes>, until: nat)
      requires forall k :: k in keys ==> KeyCount(k).Some? && KeyCount(k).value <= until
      modifies `todeviceEvents
      ensures todeviceEvents == old(todeviceEvents) - Elems(keys)
    {
      var i := 0;
      while i < |keys|
        invariant i <= |keys| && todeviceEvents == old(todeviceEvents) - Elems(keys[..i])
      {
        var key := keys[i];
        assert key in keys;
        var n := KeyCount(key);
        if n.Some? && n.value > until {
          break;
        }
        if n.Some? {
          todeviceEvents := todeviceEvents - {key};
        }
        assert Elems(keys[..i + 1]) == Elems(keys[..i]) + {key};
        i := i + 1;
      }
      assert keys[..|keys|] == keys;
    }

    /** The part of `remove_device` that empties the device's queue. */
    method RemoveDeviceEvents(d: Device)
      requires Valid() && ValidDevice(d)
      modifies `todeviceEvents, `events
      ensures Valid()
      ensures events == WithoutDevice(old(events), d)
    {
      var keys := ScanPrefix(todeviceEvents, Prefix(d));
      ScanPrefixMembers(todeviceEvents, Prefix(d));
      RemoveKeys(keys);
      events := WithoutDevice(events, d);
      WithoutDeviceHolds(old(todeviceEvents), old(events), d, Elems(keys));
    }

    method RemoveKeys(keys: seq<Bytes>)
      modifies `todeviceEvents
      ensures todeviceEvents == old(todeviceEvents) - Elems(keys)
    {
      for i := 0 to |keys|
        invariant todeviceEvents == old(todeviceEvents) - Elems(keys[..i])
      {
        todeviceEvents := todeviceEvents - {keys[i]};
        assert Elems(keys[..i + 1]) == Elems(keys[..i]) + {keys[i]};
      }
      assert keys[..|keys|] == keys;
    }
  }
}
