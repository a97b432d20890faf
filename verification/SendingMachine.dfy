/** The outgoing sending protocol as a state machine. One step is one table write, one
    channel operation or one change of the handler's memory, so every interleaving of the
    handler with callers that queue rows, and a crash between any two writes, is a run.
    Tables are seen through their parsed rows (`SendingKeys.Parse`).
 */
module SendingMachine {
  import opened ByteStrings
  import opened KvTable
  import opened SendingKeys

  datatype Row = Row(kind: OutgoingKind, event: Event)

  type Rows = map<Bytes, Row>

  datatype Status =
    | Running
    | Failed(tries: nat, at: nat) // number of times failed, time of last failure
    | Retrying(tries: nat)        // number of times failed

  /** A `handle_events` future. */
  datatype Txn = Txn(kind: OutgoingKind, events: seq<Event>)

  datatype Msg = Msg(kind: OutgoingKind, event: Event, key: Bytes)

  /** An event together with the key of its row. */
  datatype Item = Item(event: Event, key: Bytes)

  /** Where the handler is between two of its atomic steps. */
  datatype Pc =
    | BootStart                                                                    // before the active table is read
    | Booting(rows: seq<(Bytes, Row)>, next: nat, acc: map<OutgoingKind, seq<Event>>) // collecting unfinished requests
    | Idle                                                                         // waiting in `select!`
    | Deleting(kind: OutgoingKind, todo: seq<Bytes>)                               // after Ok: removing active rows
    | Reading(kind: OutgoingKind)                                                  // after Ok: about to read the queue
    | Marking(kind: OutgoingKind, events: seq<Event>, items: seq<Item>, next: nat, inserted: bool)
    | Clearing(kind: OutgoingKind)                                                 // after Ok: about to drop the status

  /** What an observer of the whole run remembers; the protocol never reads it. */
  datatype History = History(
    issued: Rows,                    // every row ever queued
    outstanding: set<Bytes>,         // rows queued and not delivered since then
    cleaned: set<Bytes>,             // rows that `cleanup_events` took away and that were not queued anew
    woken: set<OutgoingKind>,        // destinations queued to or started since the last crash
    born: map<OutgoingKind, nat>,    // when the status entry was created
    fails: map<OutgoingKind, nat>)   // failures since the status entry was created

  datatype State = State(
    queued: Rows,
    active: Rows,
    status: map<OutgoingKind, Status>,
    futures: seq<Txn>,
    channel: seq<Msg>,
    unsent: multiset<Msg>,           // rows queued whose channel message is still to be sent
    pc: Pc,
    now: nat,                        // nanoseconds
    count: nat,                      // the global counter
    hist: History)

  // ------------------------------------------------------------------
  // Constants and small functions
  // ------------------------------------------------------------------

  const BATCH: nat := 30

  const DAY: nat := 86400

  const NANOS: nat := 1_000_000_000

  /** Seconds to wait after the n-th failure. */
  function BackoffSecs(n: nat): (secs: nat) {
    if 30 * n * n > DAY then DAY else 30 * n * n
  }

  function Backoff(n: nat): (nanos: nat) {
    BackoffSecs(n) * NANOS
  }

  /** Thirty seconds times the square of the number of failures, at most a day, in nanoseconds. */
  lemma BackoffIs(n: nat)
    ensures Backoff(n) == 1_000_000_000 * (if 30 * n * n > 86400 then 86400 else 30 * n * n)
  {
  }

  function KeysOf(rows: Rows, kind: OutgoingKind): (r: set<Bytes>) {
    set k | k in rows && rows[k].kind == kind
  }

  /** The rows of one destination in key order. */
  function OrderedKeys(rows: Rows, kind: OutgoingKind): (r: seq<Bytes>) {
    Sorted(KeysOf(rows, kind))
  }

  function EventsOf(rows: Rows, keys: seq<Bytes>): (r: seq<Event>)
    requires forall k | k in keys :: k in rows
    ensures |r| == |keys|
    ensures forall i :: 0 <= i < |r| ==> r[i] == rows[keys[i]].event
  {
    seq(|keys|, i requires 0 <= i < |keys| => rows[keys[i]].event)
  }

  function ItemsOf(rows: Rows, keys: seq<Bytes>): (r: seq<Item>)
    requires forall k | k in keys :: k in rows
    ensures |r| == |keys|
    ensures forall i :: 0 <= i < |r| ==> r[i] == Item(rows[keys[i]].event, keys[i])
  {
    seq(|keys|, i requires 0 <= i < |keys| => Item(rows[keys[i]].event, keys[i]))
  }

  function ItemEvents(items: seq<Item>): (r: seq<Event>)
    ensures |r| == |items|
    ensures forall i :: 0 <= i < |r| ==> r[i] == items[i].event
  {
    seq(|items|, i requires 0 <= i < |items| => items[i].event)
  }

  function RemoveAt<T>(s: seq<T>, i: nat): (r: seq<T>)
    requires i < |s|
  {
    s[..i] + s[i + 1..]
  }

  /** All events of one destination in the order of its rows. */
  function RowEvents(rows: Rows, kind: OutgoingKind): (r: seq<Event>)
  {
    var keys := OrderedKeys(rows, kind);
    SortedElems(KeysOf(rows, kind));
    EventsOf(rows, keys)
  }

  /** The first rows of one destination, at most a batch. */
  function NextBatch(rows: Rows, kind: OutgoingKind): (r: seq<Item>)
    ensures |r| <= BATCH
  {
    var keys := OrderedKeys(rows, kind);
    SortedElems(KeysOf(rows, kind));
    var first := Take(keys, BATCH);
    assert forall k | k in first :: k in keys;
    ItemsOf(rows, first)
  }

  // ------------------------------------------------------------------
  // Steps of the callers
  // ------------------------------------------------------------------

  const EMPTY_HISTORY: History := History(map[], {}, {}, {}, map[], map[])

  const INIT: State := State(map[], map[], map[], [], [], multiset{}, BootStart, 0, 0, EMPTY_HISTORY)

  /** Pdu ids are sixteen bytes, EDU keys end in an eight-byte count. */
  predicate Queueable(kind: OutgoingKind, event: Event) {
    ValidKind(kind) && ValidEvent(event) && (event.Pdu? ==> |event.id| != 8)
  }

  function CountAfter(s: State, event: Event): (n: nat) {
    if event.Edu? then s.count + 1 else s.count
  }

  function NewKey(s: State, kind: OutgoingKind, event: Event): (key: Bytes)
    requires CountAfter(s, event) < U64
  {
    RowKey(kind, event, CountAfter(s, event))
  }

  /** The handler is between the two writes that mark this row active, and a cleanup has removed
      the first of them: the second one will remove whatever is queued under the key. */
  predicate Orphans(s: State, key: Bytes) {
    && s.pc.Marking? && s.pc.inserted && s.pc.next < |s.pc.items|
    && s.pc.items[s.pc.next].key == key && key !in s.active
  }

  /** `queue_requests` for one row: the row is in the table, its message is still to be sent. */
  function DoQueue(s: State, kind: OutgoingKind, event: Event): (s': State)
    requires CountAfter(s, event) < U64
  {
    var key := NewKey(s, kind, event);
    s.(queued := s.queued[key := Row(kind, event)],
       count := CountAfter(s, event),
       unsent := s.unsent + multiset{Msg(kind, event, key)},
       hist := s.hist.(issued := s.hist.issued[key := Row(kind, event)],
                       outstanding := s.hist.outstanding + {key},
                       cleaned := if Orphans(s, key) then s.hist.cleaned else s.hist.cleaned - {key},
                       woken := s.hist.woken + {kind}))
  }

  /** `sender.send`. */
  function DoSend(s: State, m: Msg): (s': State) {
    s.(unsent := s.unsent - multiset{m}, channel := s.channel + [m])
  }

  /** One `remove` of `delete_all_requests_for`, which runs beside the handler. */
  function DoCleanupActive(s: State, key: Bytes): (s': State) {
    s.(active := s.active - {key}, hist := s.hist.(cleaned := s.hist.cleaned + {key}))
  }

  function DoCleanupQueued(s: State, key: Bytes): (s': State) {
    s.(queued := s.queued - {key}, hist := s.hist.(cleaned := s.hist.cleaned + {key}))
  }

  // ------------------------------------------------------------------
  // Steps of the handler
  // ------------------------------------------------------------------

  function Born(s: State, kind: OutgoingKind): (h: History) {
    s.hist.(born := s.hist.born[kind := s.now], fails := s.hist.fails[kind := 0])
  }

  /** Receiving a message: `select_events` up to its first table write. The EDUs are what
      `select_edus` adds for a server. */
  function DoReceive(s: State, edus: seq<Event>): (s': State)
    requires s.channel != []
  {
    var m := s.channel[0];
    var s1 := s.(channel := s.channel[1..]);
    if m.kind in s.status then
      match s.status[m.kind]
      case Running => s1
      case Retrying(_) => s1
      case Failed(n, at) =>
        if s.now - at < Backoff(n) then s1
        else s1.(status := s.status[m.kind := Retrying(n)],
                 futures := s.futures + [Txn(m.kind, RowEvents(s.active, m.kind))])
    else
      s1.(status := s.status[m.kind := Running],
          pc := Marking(m.kind, [m.event] + edus, [Item(m.event, m.key)], 0, false),
          hist := Born(s, m.kind))
  }

  /** The rows a successful transaction delivers: those active rows whose event it carried. */
  function DeliveredBy(s: State, t: Txn): (r: set<Bytes>) {
    set k | k in s.active && s.active[k].kind == t.kind && s.active[k].event in t.events
  }

  /** A transaction returned Ok; the scan of the active rows to delete has been made. */
  function DoOk(s: State, i: nat): (s': State)
    requires i < |s.futures|
  {
    var t := s.futures[i];
    s.(futures := RemoveAt(s.futures, i),
       pc := Deleting(t.kind, OrderedKeys(s.active, t.kind)),
       hist := s.hist.(outstanding := s.hist.outstanding - DeliveredBy(s, t)))
  }

  /** The status of a destination whose transaction failed. The last arm is the one that
      logs "Request that was not even running failed?!". */
  function AfterFailure(e: Status, now: nat): (e': Status) {
    match e
    case Running => Failed(1, now)
    case Retrying(n) => Failed(n + 1, now)
    case Failed(_, _) => e
  }

  /** A transaction returned Err. */
  function DoErr(s: State, i: nat): (s': State)
    requires i < |s.futures|
  {
    var kind := s.futures[i].kind;
    s.(futures := RemoveAt(s.futures, i),
       status := if kind in s.status then s.status[kind := AfterFailure(s.status[kind], s.now)] else s.status,
       hist := s.hist.(fails :=
         if kind in s.hist.fails then s.hist.fails[kind := s.hist.fails[kind] + 1] else s.hist.fails))
  }

  function DoDelete(s: State): (s': State)
    requires s.pc.Deleting?
  {
    if s.pc.todo == [] then s.(pc := Reading(s.pc.kind))
    else s.(active := s.active - {s.pc.todo[0]}, pc := Deleting(s.pc.kind, s.pc.todo[1..]))
  }

  function DoRead(s: State): (s': State)
    requires s.pc.Reading?
  {
    var kind := s.pc.kind;
    var items := NextBatch(s.queued, kind);
    if items == [] then s.(pc := Clearing(kind))
    else s.(pc := Marking(kind, ItemEvents(items), items, 0, false))
  }

  function DoClear(s: State): (s': State)
    requires s.pc.Clearing?
  {
    s.(status := s.status - {s.pc.kind}, pc := Idle,
       hist := s.hist.(born := s.hist.born - {s.pc.kind}, fails := s.hist.fails - {s.pc.kind}))
  }

  /** `mark_as_active`, one write at a time: insert into active, then remove from queued. When
      all rows are marked the transaction starts. */
  function DoMark(s: State): (s': State)
    requires s.pc.Marking?
  {
    var pc := s.pc;
    if pc.next >= |pc.items| then
      s.(futures := s.futures + [Txn(pc.kind, pc.events)], pc := Idle)
    else
      var item := pc.items[pc.next];
      if !pc.inserted then
        s.(active := s.active[item.key := Row(pc.kind, item.event)], pc := pc.(inserted := true))
      else
        s.(queued := s.queued - {item.key}, pc := pc.(inserted := false, next := pc.next + 1))
  }

  // ------------------------------------------------------------------
  // Crash and start
  // ------------------------------------------------------------------

  /** Only the tables and the counter survive. */
  function DoCrash(s: State): (s': State) {
    s.(status := map[], futures := [], channel := [], unsent := multiset{}, pc := BootStart,
       hist := s.hist.(woken := {}, born := map[], fails := map[]))
  }

  function Snapshot(rows: Rows): (r: seq<(Bytes, Row)>)
    ensures |r| == |rows.Keys|
  {
    var keys := Sorted(rows.Keys);
    SortedElems(rows.Keys);
    assert forall i :: 0 <= i < |keys| ==> keys[i] in keys;
    seq(|keys|, i requires 0 <= i < |keys| => (keys[i], rows[keys[i]]))
  }

  function DoBootStart(s: State): (s': State) {
    s.(pc := Booting(Snapshot(s.active), 0, map[]))
  }

  function Collected(acc: map<OutgoingKind, seq<Event>>, kind: OutgoingKind): (r: seq<Event>) {
    if kind in acc then acc[kind] else []
  }

  /** One round of the startup loop, with its dropping branch. */
  function DoBootRow(s: State): (s': State)
    requires s.pc.Booting? && s.pc.next < |s.pc.rows|
  {
    var pc := s.pc;
    var (key, row) := pc.rows[pc.next];
    var entry := Collected(pc.acc, row.kind);
    if |entry| > BATCH then
      s.(active := s.active - {key}, pc := pc.(next := pc.next + 1, acc := pc.acc[row.kind := entry]))
    else
      s.(pc := pc.(next := pc.next + 1, acc := pc.acc[row.kind := entry + [row.event]]))
  }

  /** The collected requests become running transactions, in some order of destinations. */
  function DoBootDone(s: State, order: seq<OutgoingKind>): (s': State)
    requires s.pc.Booting? && forall k | k in order :: k in s.pc.acc
  {
    var acc := s.pc.acc;
    s.(status := map k | k in acc :: Running,
       futures := seq(|order|, i requires 0 <= i < |order| => Txn(order[i], acc[order[i]])),
       pc := Idle,
       hist := s.hist.(woken := s.hist.woken + acc.Keys,
                       born := map k | k in acc :: s.now, fails := map k | k in acc :: 0))
  }

  // ------------------------------------------------------------------
  // Runs
  // ------------------------------------------------------------------

  datatype Action =
    | Queue(kind: OutgoingKind, event: Event)
    | Send(m: Msg)
    | CleanupActive(key: Bytes)
    | CleanupQueued(key: Bytes)
    | Receive(edus: seq<Event>)
    | TxnOk(i: nat)
    | TxnErr(i: nat)
    | Delete
    | Read
    | Clear
    | Mark
    | Tick(nanos: nat)
    | Crash
    | Boot
    | BootRow
    | BootDone(order: seq<OutgoingKind>)

  ghost predicate AllEdus(events: seq<Event>) {
    forall i :: 0 <= i < |events| ==> events[i].Edu?
  }

  ghost predicate Distinct<T(!new)>(s: seq<T>) {
    forall i, j :: 0 <= i < j < |s| ==> s[i] != s[j]
  }

  ghost predicate Enabled(s: State, a: Action) {
    match a
    case Queue(kind, event) => Queueable(kind, event) && CountAfter(s, event) < U64
    case Send(m) => m in s.unsent
    case CleanupActive(key) => key in s.active && s.active[key].kind.Appservice?
    case CleanupQueued(key) => key in s.queued && s.queued[key].kind.Appservice?
    case Receive(edus) =>
      && s.pc.Idle? && s.channel != [] && AllEdus(edus)
      && (edus != [] ==> s.channel[0].kind.Normal?)
    case TxnOk(i) => s.pc.Idle? && i < |s.futures|
    case TxnErr(i) => s.pc.Idle? && i < |s.futures|
    case Delete => s.pc.Deleting?
    case Read => s.pc.Reading?
    case Clear => s.pc.Clearing?
    case Mark => s.pc.Marking?
    case Tick(_) => true
    case Crash => true
    case Boot => s.pc.BootStart?
    case BootRow => s.pc.Booting? && s.pc.next < |s.pc.rows|
    case BootDone(order) =>
      && s.pc.Booting? && s.pc.next == |s.pc.rows|
      && Distinct(order) && (forall k :: k in order <==> k in s.pc.acc)
  }

  ghost function Next(s: State, a: Action): (s': State)
    requires Enabled(s, a)
  {
    match a
    case Queue(kind, event) => DoQueue(s, kind, event)
    case Send(m) => DoSend(s, m)
    case CleanupActive(key) => DoCleanupActive(s, key)
    case CleanupQueued(key) => DoCleanupQueued(s, key)
    case Receive(edus) => DoReceive(s, edus)
    case TxnOk(i) => DoOk(s, i)
    case TxnErr(i) => DoErr(s, i)
    case Delete => DoDelete(s)
    case Read => DoRead(s)
    case Clear => DoClear(s)
    case Mark => DoMark(s)
    case Tick(nanos) => s.(now := s.now + nanos)
    case Crash => DoCrash(s)
    case Boot => DoBootStart(s)
    case BootRow => DoBootRow(s)
    case BootDone(order) => DoBootDone(s, order)
  }

  ghost predicate Step(s: State, a: Action, s': State) {
    Enabled(s, a) && s' == Next(s, a)
  }

  ghost predicate StepAt(states: seq<State>, acts: seq<Action>, i: nat)
    requires |states| == |acts| + 1 && i < |acts|
  {
    Step(states[i], acts[i], states[i + 1])
  }

  /** A run from empty tables: its actions and the states before, between and after them. */
  ghost predicate IsRun(states: seq<State>, acts: seq<Action>) {
    && |states| == |acts| + 1
    && states[0] == INIT
    && forall i {:trigger StepAt(states, acts, i)} :: 0 <= i < |acts| ==> StepAt(states, acts, i)
  }
}
