/** Bounded batches: no run leaves more than thirty active rows for a destination, so the
    startup loop never drops a row and no transaction carries more than thirty PDUs.
 */
module SendingBounds {
  import opened ByteStrings
  import opened SendingKeys
  import opened SendingMachine
  import opened SendingRows
  import opened SendingFlight

  function PduCount(events: seq<Event>): (n: nat)
    ensures n <= |events|
  {
    if events == [] then 0
    else PduCount(events[..|events| - 1]) + (if events[|events| - 1].Pdu? then 1 else 0)
  }

  /** The places of the PDUs in a transaction. */
  ghost function PduPlaces(events: seq<Event>): (r: set<int>) {
    set i | 0 <= i < |events| && events[i].Pdu?
  }

  lemma {:induction false} PduCountIs(events: seq<Event>)
    ensures PduCount(events) == |PduPlaces(events)|
    decreases |events|
  {
    if events != [] {
      var n := |events| - 1;
      PduCountIs(events[..n]);
      assert PduPlaces(events) == PduPlaces(events[..n]) + if events[n].Pdu? then {n} else {};
    }
  }

  lemma {:induction false} PduCountAppendEdus(events: seq<Event>, edus: seq<Event>)
    requires AllEdus(edus)
    ensures PduCount(events + edus) == PduCount(events)
    decreases |edus|
  {
    if edus == [] {
      assert events + edus == events;
    } else {
      var n := |edus| - 1;
      assert (events + edus)[..|events| + n] == events + edus[..n];
      PduCountAppendEdus(events, edus[..n]);
    }
  }

  /** How many of the rows read at startup belong to one destination. */
  function CountKind(rows: seq<(Bytes, Row)>, kind: OutgoingKind): (n: nat)
  {
    if rows == [] then 0
    else CountKind(rows[..|rows| - 1], kind) + (if rows[|rows| - 1].1.kind == kind then 1 else 0)
  }

  lemma {:induction false} CountKindPrefix(rows: seq<(Bytes, Row)>, n: nat, kind: OutgoingKind)
    requires n <= |rows|
    ensures CountKind(rows[..n], kind) <= CountKind(rows, kind)
    decreases |rows|
  {
    if n < |rows| {
      var init := rows[..|rows| - 1];
      assert init[..n] == rows[..n];
      CountKindPrefix(init, n, kind);
    } else {
      assert rows[..n] == rows;
    }
  }

  ghost function RowKeys(rows: seq<(Bytes, Row)>, kind: OutgoingKind): (r: set<Bytes>)
    ensures forall k :: k in r ==> exists i :: 0 <= i < |rows| && rows[i].0 == k && rows[i].1.kind == kind
  {
    if rows == [] then {}
    else
      var n := |rows| - 1;
      var r := RowKeys(rows[..n], kind);
      assert forall i :: 0 <= i < n ==> rows[..n][i] == rows[i];
      if rows[n].1.kind == kind then r + {rows[n].0} else r
  }

  lemma {:induction false} CountKindIsCardinality(rows: seq<(Bytes, Row)>, kind: OutgoingKind)
    requires forall i, j :: 0 <= i < j < |rows| ==> rows[i].0 != rows[j].0
    ensures CountKind(rows, kind) == |RowKeys(rows, kind)|
    decreases |rows|
  {
    if rows != [] {
      CountKindIsCardinality(rows[..|rows| - 1], kind);
    }
  }

  lemma {:induction false} SubsetCard<T>(a: set<T>, b: set<T>)
    requires a <= b
    ensures |a| <= |b|
    decreases |a|
  {
    if a != {} {
      var x :| x in a;
      SubsetCard(a - {x}, b - {x});
    }
  }

  lemma SnapshotCount(rows: Rows, kind: OutgoingKind)
    ensures CountKind(Snapshot(rows), kind) <= |KeysOf(rows, kind)|
  {
    var snap := Snapshot(rows);
    SnapshotRows(rows);
    CountKindIsCardinality(snap, kind);
    SubsetCard(RowKeys(snap, kind), KeysOf(rows, kind));
  }

  ghost function ItemKeys(items: seq<Item>): (r: set<Bytes>) {
    set i | 0 <= i < |items| :: items[i].key
  }

  lemma {:induction false} ItemKeysCard(items: seq<Item>)
    ensures |ItemKeys(items)| <= |items|
    decreases |items|
  {
    if items == [] {
      assert ItemKeys(items) == {};
    } else {
      var n := |items| - 1;
      ItemKeysCard(items[..n]);
      assert ItemKeys(items) == ItemKeys(items[..n]) + {items[n].key};
    }
  }

  // ------------------------------------------------------------------
  // The bound
  // ------------------------------------------------------------------

  ghost predicate AtMostBatch(active: Rows) {
    forall kind :: |KeysOf(active, kind)| <= BATCH
  }

  ghost predicate BootCounts(pc: Pc) {
    pc.Booting? ==>
      && pc.next <= |pc.rows|
      && forall kind ::
           CountKind(pc.rows, kind) <= BATCH && |Collected(pc.acc, kind)| == CountKind(pc.rows[..pc.next], kind)
  }

  ghost predicate SmallTxns(s: State) {
    && (forall i :: 0 <= i < |s.futures| ==> PduCount(s.futures[i].events) <= BATCH)
    && (s.pc.Marking? ==> PduCount(s.pc.events) <= BATCH)
  }

  ghost predicate BoundOk(s: State) {
    AtMostBatch(s.active) && BootCounts(s.pc) && SmallTxns(s)
  }

  lemma FewerRows(a: Rows, b: Rows)
    requires AtMostBatch(b)
    requires forall k :: k in a ==> k in b && a[k] == b[k]
    ensures AtMostBatch(a)
  {
    forall kind
      ensures |KeysOf(a, kind)| <= BATCH
    {
      SubsetCard(KeysOf(a, kind), KeysOf(b, kind));
    }
  }

  /** While rows are marked, the destination's active rows are among the rows being marked. */
  lemma MarkKeepsBatch(s: State)
    requires s.pc.Marking? && AtMostBatch(s.active) && CoverOk(DoMark(s)) && MarkOk(s.pc)
    ensures AtMostBatch(DoMark(s).active)
  {
    var s' := DoMark(s);
    var kind := s.pc.kind;
    if s.pc.next < |s.pc.items| && !s.pc.inserted {
      forall other
        ensures |KeysOf(s'.active, other)| <= BATCH
      {
        if other == kind {
          forall k | k in KeysOf(s'.active, kind)
            ensures k in ItemKeys(s.pc.items)
          {
            assert RowCovered(s', k, s'.active[k]);
          }
          ItemKeysCard(s.pc.items);
          SubsetCard(KeysOf(s'.active, kind), ItemKeys(s.pc.items));
        } else {
          SubsetCard(KeysOf(s'.active, other), KeysOf(s.active, other));
        }
      }
    }
  }

  lemma MarkKeepsBound(s: State)
    requires BoundOk(s) && s.pc.Marking? && CoverOk(DoMark(s)) && MarkOk(s.pc)
    ensures BoundOk(DoMark(s))
  {
    MarkKeepsBatch(s);
  }

  /** A retry carries no more than the active rows. */
  lemma RetryIsSmall(rows: Rows, kind: OutgoingKind)
    requires AtMostBatch(rows)
    ensures PduCount(RowEvents(rows, kind)) <= BATCH
  {
    RowEventsCover(rows, kind);
    assert |KeysOf(rows, kind)| <= BATCH;
  }

  lemma FirstIsSmall(event: Event, edus: seq<Event>)
    requires AllEdus(edus)
    ensures PduCount([event] + edus) <= BATCH
  {
    PduCountAppendEdus([event], edus);
  }

  lemma ReceiveKeepsBound(s: State, edus: seq<Event>)
    requires BoundOk(s) && s.pc.Idle? && s.channel != [] && AllEdus(edus)
    ensures BoundOk(DoReceive(s, edus))
  {
    var m, s' := s.channel[0], DoReceive(s, edus);
    RetryIsSmall(s.active, m.kind);
    FirstIsSmall(m.event, edus);
    assert s'.active == s.active && !s'.pc.Booting?;
    assert SmallTxns(s');
  }

  lemma OkKeepsBound(s: State, i: nat)
    requires BoundOk(s) && i < |s.futures| && s.pc.Idle?
    ensures BoundOk(DoOk(s, i))
  {
  }

  lemma ErrKeepsBound(s: State, i: nat)
    requires BoundOk(s) && i < |s.futures| && s.pc.Idle?
    ensures BoundOk(DoErr(s, i))
  {
  }

  lemma DeleteKeepsBound(s: State)
    requires BoundOk(s) && s.pc.Deleting?
    ensures BoundOk(DoDelete(s))
  {
    FewerRows(DoDelete(s).active, s.active);
  }

  lemma ReadKeepsBound(s: State)
    requires BoundOk(s) && s.pc.Reading?
    ensures BoundOk(DoRead(s))
  {
  }

  lemma ClearKeepsBound(s: State)
    requires BoundOk(s) && s.pc.Clearing?
    ensures BoundOk(DoClear(s))
  {
  }

  lemma BootKeepsBound(s: State)
    requires BoundOk(s) && s.pc.BootStart?
    ensures BoundOk(DoBootStart(s))
  {
    forall kind
      ensures CountKind(Snapshot(s.active), kind) <= BATCH
    {
      SnapshotCount(s.active, kind);
    }
    assert Snapshot(s.active)[..0] == [];
  }

  /** The startup loop has room for every row it reads. */
  lemma NothingDropped(s: State)
    requires BoundOk(s) && s.pc.Booting? && s.pc.next < |s.pc.rows|
    ensures |Collected(s.pc.acc, s.pc.rows[s.pc.next].1.kind)| < BATCH
    ensures DoBootRow(s).active == s.active
  {
    var pc := s.pc;
    var row := pc.rows[pc.next].1;
    var kind := row.kind;
    assert pc.rows[..pc.next + 1][..pc.next] == pc.rows[..pc.next];
    CountKindPrefix(pc.rows, pc.next + 1, kind);
    assert CountKind(pc.rows, kind) <= BATCH;
  }

  lemma BootRowKeepsBound(s: State)
    requires BoundOk(s) && s.pc.Booting? && s.pc.next < |s.pc.rows|
    ensures BoundOk(DoBootRow(s))
  {
    var pc, pc' := s.pc, DoBootRow(s).pc;
    NothingDropped(s);
    forall kind
      ensures |Collected(pc'.acc, kind)| == CountKind(pc'.rows[..pc'.next], kind)
    {
      assert pc.rows[..pc.next + 1][..pc.next] == pc.rows[..pc.next];
      assert |Collected(pc.acc, kind)| == CountKind(pc.rows[..pc.next], kind);
    }
  }

  lemma BootDoneKeepsBound(s: State, order: seq<OutgoingKind>)
    requires BoundOk(s) && Enabled(s, BootDone(order))
    ensures BoundOk(DoBootDone(s, order))
  {
    var s' := DoBootDone(s, order);
    forall i | 0 <= i < |s'.futures|
      ensures PduCount(s'.futures[i].events) <= BATCH
    {
      assert order[i] in order;
      assert s.pc.rows[..s.pc.next] == s.pc.rows;
      assert |Collected(s.pc.acc, order[i])| <= BATCH;
    }
  }

  lemma CallersKeepBound(s: State, a: Action)
    requires BoundOk(s) && Enabled(s, a)
    requires a.Queue? || a.Send? || a.CleanupActive? || a.CleanupQueued? || a.Tick? || a.Crash?
    ensures BoundOk(Next(s, a))
  {
    FewerRows(Next(s, a).active, s.active);
  }

  lemma StepKeepsBound(s: State, a: Action)
    requires BoundOk(s) && Enabled(s, a) && MarkOk(s.pc) && CoverOk(Next(s, a))
    ensures BoundOk(Next(s, a))
  {
    match a {
      case Receive(edus) => ReceiveKeepsBound(s, edus);
      case TxnOk(i) => OkKeepsBound(s, i);
      case TxnErr(i) => ErrKeepsBound(s, i);
      case Delete => DeleteKeepsBound(s);
      case Read => ReadKeepsBound(s);
      case Clear => ClearKeepsBound(s);
      case Mark => MarkKeepsBound(s);
      case Boot => BootKeepsBound(s);
      case BootRow => BootRowKeepsBound(s);
      case BootDone(order) => BootDoneKeepsBound(s, order);
      case _ => CallersKeepBound(s, a);
    }
  }
}
