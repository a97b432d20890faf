/** Every row of the protocol, wherever it is (queued, active, in a message, being marked or
    read at startup), is a row that was queued under that key, and a key never stands for
    two different rows.
 */
module SendingRows {
  import opened ByteStrings
  import opened KvTable
  import opened SendingKeys
  import opened SendingMachine

  /** `key` is a key that `queue_requests` may have made for the row, up to this count. */
  ghost predicate Fits(key: Bytes, row: Row, count: nat) {
    && Queueable(row.kind, row.event)
    && count < U64
    && match row.event
       case Pdu(id) => key == Prefix(row.kind) + id
       case Edu(_) => exists c :: 0 < c <= count && key == Prefix(row.kind) + Be64(c)
  }

  ghost predicate Known(s: State, key: Bytes, row: Row) {
    key in s.hist.issued && s.hist.issued[key] == row
  }

  ghost predicate KnownRows(s: State, rows: Rows) {
    forall k :: k in rows ==> Known(s, k, rows[k])
  }

  ghost predicate KnownPc(s: State) {
    match s.pc
    case Marking(kind, events, items, next, inserted) =>
      forall i :: 0 <= i < |items| ==> Known(s, items[i].key, Row(kind, items[i].event))
    case Booting(rows, next, acc) =>
      forall i :: 0 <= i < |rows| ==> Known(s, rows[i].0, rows[i].1)
    case Deleting(kind, todo) =>
      forall i :: 0 <= i < |todo| ==> todo[i] in s.hist.issued && s.hist.issued[todo[i]].kind == kind
    case _ => true
  }

  ghost predicate KnownMsgs(s: State) {
    && (forall i :: 0 <= i < |s.channel| ==> Known(s, s.channel[i].key, Row(s.channel[i].kind, s.channel[i].event)))
    && (forall m :: m in s.unsent ==> Known(s, m.key, Row(m.kind, m.event)))
  }

  /** Every key is one that was made for its row. */
  ghost predicate IssuedOk(issued: Rows, count: nat) {
    && count < U64
    && (forall k :: k in issued ==> Fits(k, issued[k], count))
  }

  /** Every row in play was issued. */
  ghost predicate PlacesOk(s: State) {
    && s.hist.outstanding <= s.hist.issued.Keys
    && KnownRows(s, s.queued)
    && KnownRows(s, s.active)
    && KnownMsgs(s)
    && KnownPc(s)
  }

  ghost predicate SameIssued(s: State, s': State) {
    s'.hist.issued == s.hist.issued && s'.count == s.count
  }

  ghost predicate RowsOk(s: State) {
    IssuedOk(s.hist.issued, s.count) && PlacesOk(s)
  }

  // ------------------------------------------------------------------
  // A key stands for one row
  // ------------------------------------------------------------------

  lemma FitsSuffix(key: Bytes, row: Row, count: nat) returns (suffix: Bytes)
    requires Fits(key, row, count)
    ensures ValidKind(row.kind) && key == Prefix(row.kind) + suffix
    ensures row.event.Pdu? ==> row.event.id == suffix && |suffix| != 8
    ensures row.event.Edu? ==> |suffix| == 8 && FromBe(suffix) <= count
  {
    match row.event {
      case Pdu(id) => suffix := id;
      case Edu(_) =>
        var c :| 0 < c <= count && key == Prefix(row.kind) + Be64(c);
        suffix := Be64(c);
        Be64RoundTrip(c);
    }
  }

  lemma KeyDetermines(key: Bytes, row: Row, count: nat, kind: OutgoingKind, suffix: Bytes)
    requires Fits(key, row, count) && ValidKind(kind) && key == Prefix(kind) + suffix
    ensures row.kind == kind
    ensures row.event.Pdu? ==> row.event.id == suffix && |suffix| != 8
    ensures row.event.Edu? ==> |suffix| == 8 && FromBe(suffix) <= count
  {
    var x := FitsSuffix(key, row, count);
    SuffixUnique(row.kind, kind, x, suffix);
  }

  /** Queueing a PDU again under the same key queues the same row. */
  lemma PduKeyAgrees(key: Bytes, row: Row, count: nat, kind: OutgoingKind, id: Bytes)
    requires Fits(key, row, count) && ValidKind(kind) && |id| != 8 && key == Prefix(kind) + id
    ensures row == Row(kind, Pdu(id))
  {
    KeyDetermines(key, row, count, kind, id);
  }

  /** A key that ends in a count was made for an EDU, no later than that count. */
  lemma EduKeyCount(key: Bytes, row: Row, count: nat, kind: OutgoingKind, c: nat)
    requires Fits(key, row, count) && ValidKind(kind) && c < U64 && key == Prefix(kind) + Be64(c)
    ensures row.kind == kind && row.event.Edu? && c <= count
  {
    KeyDetermines(key, row, count, kind, Be64(c));
    Be64RoundTrip(c);
  }

  /** The rows of a destination in the byte table are the rows of its prefix. */
  lemma FitsPrefix(key: Bytes, row: Row, count: nat, kind: OutgoingKind)
    requires Fits(key, row, count) && ValidKind(kind)
    ensures Prefix(kind) <= key <==> row.kind == kind
  {
    FitsParses(key, row, count);
    PrefixIffParse(kind, key, RowValue(row.event));
  }

  /** A known row is parsed back from its stored form. */
  lemma FitsParses(key: Bytes, row: Row, count: nat)
    requires Fits(key, row, count)
    ensures Parse(key, RowValue(row.event)) == Some((row.kind, row.event))
  {
    var suffix := FitsSuffix(key, row, count);
    ParsePrefixed(row.kind, suffix, RowValue(row.event));
  }

  // ------------------------------------------------------------------
  // Preservation
  // ------------------------------------------------------------------

  /** What a step that queues nothing has to show. */
  lemma KnownFrame(s: State, s': State)
    requires PlacesOk(s)
    requires s'.hist.issued == s.hist.issued && s'.count == s.count
    requires forall k :: k in s'.queued ==> k in s.queued && s'.queued[k] == s.queued[k]
    requires forall k :: k in s'.active ==> Known(s, k, s'.active[k])
    requires forall m :: m in s'.channel ==> m in s.channel || m in s.unsent
    requires forall m :: m in s'.unsent ==> m in s.unsent
    requires s'.hist.outstanding <= s.hist.outstanding
    requires KnownPc(s')
    ensures PlacesOk(s')
  {
  }

  lemma NewKeyFits(s: State, kind: OutgoingKind, event: Event)
    requires Enabled(s, Queue(kind, event))
    ensures Fits(NewKey(s, kind, event), Row(kind, event), CountAfter(s, event))
  {
  }

  lemma IssuedPdu(issued: Rows, count: nat, kind: OutgoingKind, id: Bytes, key: Bytes)
    requires IssuedOk(issued, count) && ValidKind(kind) && |id| != 8 && key == Prefix(kind) + id
    ensures key in issued ==> issued[key] == Row(kind, Pdu(id))
  {
    if key in issued {
      PduKeyAgrees(key, issued[key], count, kind, id);
    }
  }

  lemma IssuedEdu(issued: Rows, count: nat, kind: OutgoingKind, key: Bytes)
    requires IssuedOk(issued, count) && ValidKind(kind) && count + 1 < U64 && key == Prefix(kind) + Be64(count + 1)
    ensures key !in issued
  {
    if key in issued {
      EduKeyCount(key, issued[key], count, kind, count + 1);
    }
  }

  lemma QueueKeepsKnown(s: State, kind: OutgoingKind, event: Event)
    requires IssuedOk(s.hist.issued, s.count) && Enabled(s, Queue(kind, event))
    ensures var key := NewKey(s, kind, event);
            && Fits(key, Row(kind, event), CountAfter(s, event))
            && (key in s.hist.issued ==> s.hist.issued[key] == Row(kind, event))
  {
    var key := NewKey(s, kind, event);
    NewKeyFits(s, kind, event);
    match event {
      case Pdu(id) => IssuedPdu(s.hist.issued, s.count, kind, id, key);
      case Edu(_) => IssuedEdu(s.hist.issued, s.count, kind, key);
    }
  }

  lemma KnownGrows(s: State, s': State)
    requires PlacesOk(s)
    requires forall k :: k in s.hist.issued ==> k in s'.hist.issued && s'.hist.issued[k] == s.hist.issued[k]
    requires s'.pc == s.pc && s'.channel == s.channel
    ensures KnownPc(s') && KnownRows(s', s.queued) && KnownRows(s', s.active)
    ensures forall i :: 0 <= i < |s'.channel| ==>
      Known(s', s'.channel[i].key, Row(s'.channel[i].kind, s'.channel[i].event))
    ensures forall m :: m in s.unsent ==> Known(s', m.key, Row(m.kind, m.event))
  {
  }

  lemma QueueKeepsIssued(s: State, kind: OutgoingKind, event: Event)
    requires IssuedOk(s.hist.issued, s.count) && Enabled(s, Queue(kind, event))
    ensures var s' := DoQueue(s, kind, event); IssuedOk(s'.hist.issued, s'.count)
  {
  }

  lemma QueueKeepsPlaces(s: State, kind: OutgoingKind, event: Event)
    requires PlacesOk(s) && CountAfter(s, event) < U64
    requires var key := NewKey(s, kind, event); key in s.hist.issued ==> s.hist.issued[key] == Row(kind, event)
    ensures PlacesOk(DoQueue(s, kind, event))
  {
    KnownGrows(s, DoQueue(s, kind, event));
  }

  lemma BatchKnown(s: State, kind: OutgoingKind)
    requires PlacesOk(s)
    ensures forall i :: 0 <= i < |NextBatch(s.queued, kind)| ==>
              Known(s, NextBatch(s.queued, kind)[i].key, Row(kind, NextBatch(s.queued, kind)[i].event))
  {
    var keys := OrderedKeys(s.queued, kind);
    SortedElems(KeysOf(s.queued, kind));
    forall i | 0 <= i < |NextBatch(s.queued, kind)|
      ensures Known(s, NextBatch(s.queued, kind)[i].key, Row(kind, NextBatch(s.queued, kind)[i].event))
    {
      assert keys[i] in keys;
    }
  }

  lemma SnapshotRows(rows: Rows)
    ensures forall i :: 0 <= i < |Snapshot(rows)| ==>
      Snapshot(rows)[i].0 in rows && rows[Snapshot(rows)[i].0] == Snapshot(rows)[i].1
    ensures forall k :: k in rows ==> (k, rows[k]) in Snapshot(rows)
    ensures forall i, j :: 0 <= i < j < |Snapshot(rows)| ==> Snapshot(rows)[i].0 != Snapshot(rows)[j].0
  {
    var keys, snap := Sorted(rows.Keys), Snapshot(rows);
    SortedElems(rows.Keys);
    SortedAscending(rows.Keys);
    forall i | 0 <= i < |snap|
      ensures snap[i].0 in rows && rows[snap[i].0] == snap[i].1 && snap[i].0 == keys[i]
    {
      assert keys[i] in keys;
    }
    forall k | k in rows
      ensures (k, rows[k]) in snap
    {
      var i :| 0 <= i < |keys| && keys[i] == k;
      assert snap[i] == (k, rows[k]);
    }
  }

  lemma CallersKeepPlaces(s: State, a: Action)
    requires PlacesOk(s) && Enabled(s, a)
    requires a.Send? || a.CleanupActive? || a.CleanupQueued?
    ensures PlacesOk(Next(s, a)) && SameIssued(s, Next(s, a))
  {
    KnownFrame(s, Next(s, a));
  }

  lemma ReceiveKeepsPlaces(s: State, edus: seq<Event>)
    requires PlacesOk(s) && s.channel != []
    ensures PlacesOk(DoReceive(s, edus)) && SameIssued(s, DoReceive(s, edus))
  {
    KnownFrame(s, DoReceive(s, edus));
  }

  lemma OkKeepsPlaces(s: State, i: nat)
    requires PlacesOk(s) && i < |s.futures|
    ensures PlacesOk(DoOk(s, i)) && SameIssued(s, DoOk(s, i))
  {
    var kind := s.futures[i].kind;
    SortedElems(KeysOf(s.active, kind));
    var todo := OrderedKeys(s.active, kind);
    forall j | 0 <= j < |todo|
      ensures todo[j] in s.hist.issued && s.hist.issued[todo[j]].kind == kind
    {
      assert todo[j] in todo;
    }
    KnownFrame(s, DoOk(s, i));
  }

  lemma ErrKeepsPlaces(s: State, i: nat)
    requires PlacesOk(s) && i < |s.futures|
    ensures PlacesOk(DoErr(s, i)) && SameIssued(s, DoErr(s, i))
  {
  }

  lemma DeleteKeepsPlaces(s: State)
    requires PlacesOk(s) && s.pc.Deleting?
    ensures PlacesOk(DoDelete(s)) && SameIssued(s, DoDelete(s))
  {
    KnownFrame(s, DoDelete(s));
  }

  lemma ReadKeepsPlaces(s: State)
    requires PlacesOk(s) && s.pc.Reading?
    ensures PlacesOk(DoRead(s)) && SameIssued(s, DoRead(s))
  {
    BatchKnown(s, s.pc.kind);
    KnownFrame(s, DoRead(s));
  }

  lemma ClearKeepsPlaces(s: State)
    requires PlacesOk(s) && s.pc.Clearing?
    ensures PlacesOk(DoClear(s)) && SameIssued(s, DoClear(s))
  {
  }

  lemma MarkKeepsPlaces(s: State)
    requires PlacesOk(s) && s.pc.Marking?
    ensures PlacesOk(DoMark(s)) && SameIssued(s, DoMark(s))
  {
    KnownFrame(s, DoMark(s));
  }

  lemma CrashKeepsPlaces(s: State)
    requires PlacesOk(s)
    ensures PlacesOk(DoCrash(s)) && SameIssued(s, DoCrash(s))
  {
  }

  lemma BootKeepsPlaces(s: State)
    requires PlacesOk(s)
    ensures PlacesOk(DoBootStart(s)) && SameIssued(s, DoBootStart(s))
  {
    SnapshotRows(s.active);
    KnownFrame(s, DoBootStart(s));
  }

  lemma BootRowKeepsPlaces(s: State)
    requires PlacesOk(s) && s.pc.Booting? && s.pc.next < |s.pc.rows|
    ensures PlacesOk(DoBootRow(s)) && SameIssued(s, DoBootRow(s))
  {
    KnownFrame(s, DoBootRow(s));
  }

  lemma BootDoneKeepsPlaces(s: State, order: seq<OutgoingKind>)
    requires PlacesOk(s) && s.pc.Booting? && forall k | k in order :: k in s.pc.acc
    ensures PlacesOk(DoBootDone(s, order)) && SameIssued(s, DoBootDone(s, order))
  {
  }

  lemma StepKeepsPlaces(s: State, a: Action)
    requires PlacesOk(s) && Enabled(s, a)
    requires !a.Queue?
    ensures PlacesOk(Next(s, a)) && SameIssued(s, Next(s, a))
  {
    match a {
      case Send(m) => CallersKeepPlaces(s, a);
      case CleanupActive(key) => CallersKeepPlaces(s, a);
      case CleanupQueued(key) => CallersKeepPlaces(s, a);
      case Receive(edus) => ReceiveKeepsPlaces(s, edus);
      case TxnOk(i) => OkKeepsPlaces(s, i);
      case TxnErr(i) => ErrKeepsPlaces(s, i);
      case Delete => DeleteKeepsPlaces(s);
      case Read => ReadKeepsPlaces(s);
      case Clear => ClearKeepsPlaces(s);
      case Mark => MarkKeepsPlaces(s);
      case Tick(_) =>
      case Crash => CrashKeepsPlaces(s);
      case Boot => BootKeepsPlaces(s);
      case BootRow => BootRowKeepsPlaces(s);
      case BootDone(order) => BootDoneKeepsPlaces(s, order);
    }
  }

  lemma StepKeepsRows(s: State, a: Action)
    requires RowsOk(s) && Enabled(s, a)
    ensures RowsOk(Next(s, a))
  {
    if a.Queue? {
      QueueKeepsKnown(s, a.kind, a.event);
      QueueKeepsIssued(s, a.kind, a.event);
      QueueKeepsPlaces(s, a.kind, a.event);
    } else {
      StepKeepsPlaces(s, a);
    }
  }

  // ------------------------------------------------------------------
  // Destinations
  // ------------------------------------------------------------------

  /** Only destinations of queued rows get a status. */
  ghost predicate KindsOk(s: State) {
    && (forall kind :: kind in s.status ==> ValidKind(kind))
    && (s.pc.Booting? ==> forall kind :: kind in s.pc.acc ==> ValidKind(kind))
  }

  lemma KnownKind(s: State, key: Bytes, row: Row)
    requires IssuedOk(s.hist.issued, s.count) && Known(s, key, row)
    ensures ValidKind(row.kind)
  {
  }

  ghost predicate FewerKinds(s: State, s': State) {
    s'.status.Keys <= s.status.Keys && (s'.pc.Booting? ==> s.pc.Booting? && s'.pc.acc == s.pc.acc)
  }

  lemma ReceiveKeepsKinds(s: State, edus: seq<Event>)
    requires KindsOk(s) && RowsOk(s) && s.pc.Idle? && s.channel != []
    ensures KindsOk(DoReceive(s, edus))
  {
    var m := s.channel[0];
    KnownKind(s, m.key, Row(m.kind, m.event));
  }

  lemma BootRowKeepsKinds(s: State)
    requires KindsOk(s) && RowsOk(s) && s.pc.Booting? && s.pc.next < |s.pc.rows|
    ensures KindsOk(DoBootRow(s))
  {
  }

  lemma ReadKinds(s: State)
    requires s.pc.Reading?
    ensures FewerKinds(s, DoRead(s))
  {
  }

  lemma MarkKinds(s: State)
    requires s.pc.Marking?
    ensures FewerKinds(s, DoMark(s))
  {
  }

  lemma WorkKinds(s: State, a: Action)
    requires Enabled(s, a) && (a.TxnOk? || a.TxnErr? || a.Delete? || a.Clear?)
    ensures FewerKinds(s, Next(s, a))
  {
  }

  lemma CallersKinds(s: State, a: Action)
    requires Enabled(s, a)
    requires a.Queue? || a.Send? || a.CleanupActive? || a.CleanupQueued? || a.Tick? || a.Crash?
    ensures FewerKinds(s, Next(s, a))
  {
  }

  lemma StepKeepsKinds(s: State, a: Action)
    requires KindsOk(s) && RowsOk(s) && Enabled(s, a)
    ensures KindsOk(Next(s, a))
  {
    match a {
      case Receive(edus) => ReceiveKeepsKinds(s, edus);
      case BootRow => BootRowKeepsKinds(s);
      case Boot => assert KindsOk(DoBootStart(s));
      case BootDone(order) => assert KindsOk(DoBootDone(s, order));
      case Read => ReadKinds(s);
      case Mark => MarkKinds(s);
      case TxnOk(_) => WorkKinds(s, a);
      case TxnErr(_) => WorkKinds(s, a);
      case Delete => WorkKinds(s, a);
      case Clear => WorkKinds(s, a);
      case _ => CallersKinds(s, a);
    }
  }
}
