/** The walk of `get_missing_events`: breadth first from the latest events back along
    `prev_events`, stopping at events the sender already has and at the limit.
 */
module MissingEvents {
  import opened ByteStrings

  type EventId = string
  type RoomId = string

  /** A stored event; a field is absent when it is missing or malformed. */
  datatype Pdu = Pdu(room: Option<RoomId>, prev: Option<seq<EventId>>)

  datatype Found = LookupFailed | Unknown | Known(pdu: Pdu)

  datatype Error = DatabaseError | EvilEvent

  /** A request, and the database it is answered from. */
  datatype Query = Query(
    lookup: EventId -> Found,
    room: RoomId,
    latest: seq<EventId>,
    earliest: seq<EventId>)

  /** The event is stored, belongs to the room and is not one the sender has. */
  predicate Open(q: Query, x: EventId) {
    match q.lookup(x)
    case Known(pdu) => pdu.room == Some(q.room) && x !in q.earliest && pdu.prev.Some?
    case _ => false
  }

  function Prev(q: Query, x: EventId): (ids: seq<EventId>)
    requires Open(q, x)
  {
    q.lookup(x).pdu.prev.value
  }

  /** Visiting the event ends the walk with an error: its lookup fails, its room is malformed or
      another one, or it would be returned but has no readable `prev_events`. */
  predicate Bad(q: Query, x: EventId) {
    match q.lookup(x)
    case LookupFailed => true
    case Unknown => false
    case Known(pdu) => pdu.room != Some(q.room) || (x !in q.earliest && pdu.prev.None?)
  }

  /** Reachable from the latest events in `d` steps, each from an open event. */
  ghost predicate Reach(q: Query, d: nat, x: EventId) {
    if d == 0 then x in q.latest
    else exists p :: Open(q, p) && Reach(q, d - 1, p) && x in Prev(q, p)
  }

  /** `x` is at most as far as `y`. */
  ghost predicate NoFarther(q: Query, x: EventId, y: EventId) {
    forall d: nat :: Reach(q, d, y) ==> exists e: nat :: e <= d && Reach(q, e, x)
  }

  predicate FirstAt(s: seq<EventId>, a: nat) {
    a < |s| && s[a] !in s[..a]
  }

  // ------------------------------------------------------------------
  // The queue of the walk
  // ------------------------------------------------------------------

  /** A queue entry at depth `d` was reached in `d` steps. */
  ghost predicate DepthAt(q: Query, queue: seq<EventId>, depth: seq<nat>, j: nat) {
    j < |queue| == |depth| ==> Reach(q, depth[j], queue[j])
  }

  /** Depths never fall along the queue. */
  ghost predicate Sorted(depth: seq<nat>) {
    forall j, k :: 0 <= j < k < |depth| ==> depth[j] <= depth[k]
  }

  /** The entry was expanded: each of its predecessors is queued one step deeper. */
  ghost predicate ExpandedAt(q: Query, queue: seq<EventId>, depth: seq<nat>, j: nat) {
    j < |queue| == |depth| && Open(q, queue[j]) ==>
      forall x :: x in Prev(q, queue[j]) ==> QueuedAt(queue, depth, x, depth[j] + 1)
  }

  ghost predicate QueuedAt(queue: seq<EventId>, depth: seq<nat>, x: EventId, d: nat) {
    exists k: nat :: k < |queue| && k < |depth| && queue[k] == x && depth[k] <= d
  }

  ghost predicate LatestAt(q: Query, queue: seq<EventId>, depth: seq<nat>, x: EventId) {
    x in q.latest ==> QueuedAt(queue, depth, x, 0)
  }

  /** The queue after the first `i` entries were visited. */
  ghost predicate QueueOk(q: Query, queue: seq<EventId>, depth: seq<nat>, i: nat) {
    && |depth| == |queue| && i <= |queue| && Sorted(depth)
    && (forall j: nat {:trigger DepthAt(q, queue, depth, j)} :: DepthAt(q, queue, depth, j))
    && (forall j: nat {:trigger ExpandedAt(q, queue, depth, j)} :: j < i ==> ExpandedAt(q, queue, depth, j))
    && (forall x {:trigger LatestAt(q, queue, depth, x)} :: LatestAt(q, queue, depth, x))
    && (i < |queue| ==> depth[|queue| - 1] <= depth[i] + 1)
  }

  /** Everything reachable in `d` steps is queued that early, once all shallower entries are visited. */
  lemma {:induction false} ReachedIsQueued(q: Query, queue: seq<EventId>, depth: seq<nat>, i: nat, d: nat, x: EventId)
    requires QueueOk(q, queue, depth, i) && Reach(q, d, x)
    requires forall j :: i <= j < |queue| ==> depth[j] >= d
    ensures QueuedAt(queue, depth, x, d)
  {
    if d == 0 {
      assert LatestAt(q, queue, depth, x);
    } else {
      var p :| Open(q, p) && Reach(q, d - 1, p) && x in Prev(q, p);
      ReachedIsQueued(q, queue, depth, i, d - 1, p);
      var k: nat :| k < |queue| && k < |depth| && queue[k] == p && depth[k] <= d - 1;
      assert ExpandedAt(q, queue, depth, k);
      var m: nat :| m < |queue| && m < |depth| && queue[m] == x && depth[m] <= depth[k] + 1;
      assert QueuedAt(queue, depth, x, d);
    }
  }

  lemma ShallowerIsEarlier(q: Query, queue: seq<EventId>, depth: seq<nat>, i: nat, a: nat, d: nat)
    requires QueueOk(q, queue, depth, i) && a < i && Reach(q, d, queue[a]) && d < depth[a]
    ensures exists k :: 0 <= k < a && queue[k] == queue[a]
  {
    ReachedIsQueued(q, queue, depth, i, d, queue[a]);
    var k: nat :| k < |queue| && k < |depth| && queue[k] == queue[a] && depth[k] <= d;
    assert k < a;
  }

  /** The first entry of an event is at its distance. */
  lemma FirstIsShortest(q: Query, queue: seq<EventId>, depth: seq<nat>, i: nat, a: nat, d: nat)
    requires QueueOk(q, queue, depth, i) && a < i && Reach(q, d, queue[a])
    requires forall k :: 0 <= k < a ==> queue[k] != queue[a]
    ensures depth[a] <= d
  {
    if d < depth[a] {
      ShallowerIsEarlier(q, queue, depth, i, a, d);
      assert false;
    }
  }

  /** Expanding the entry at `i` keeps the queue in order. */
  lemma ExpandKeepsQueue(q: Query, queue: seq<EventId>, depth: seq<nat>, i: nat)
    requires QueueOk(q, queue, depth, i) && i < |queue| && Open(q, queue[i])
    ensures
      var next := Prev(q, queue[i]);
      QueueOk(q, queue + next, depth + seq(|next|, _ => depth[i] + 1), i + 1)
  {
    var next := Prev(q, queue[i]);
    var queue', depth' := queue + next, depth + seq(|next|, _ => depth[i] + 1);
    assert DepthAt(q, queue, depth, i);
    forall j: nat
      ensures DepthAt(q, queue', depth', j)
    {
      assert DepthAt(q, queue, depth, j);
      if |queue| <= j < |queue'| {
        assert queue'[j] == next[j - |queue|] && queue'[j] in next;
        assert Reach(q, depth[i] + 1, queue'[j]);
      }
    }
    forall x, d: nat | QueuedAt(queue, depth, x, d)
      ensures QueuedAt(queue', depth', x, d)
    {
      var k: nat :| k < |queue| && k < |depth| && queue[k] == x && depth[k] <= d;
      assert queue'[k] == x && depth'[k] <= d;
    }
    forall j: nat | j < i + 1
      ensures ExpandedAt(q, queue', depth', j)
    {
      if j < i {
        assert ExpandedAt(q, queue, depth, j);
      } else {
        forall x | x in next
          ensures QueuedAt(queue', depth', x, depth[i] + 1)
        {
          var k: nat :| k < |next| && next[k] == x;
          assert queue'[|queue| + k] == x && depth'[|queue| + k] == depth[i] + 1;
        }
      }
    }
    forall x
      ensures LatestAt(q, queue', depth', x)
    {
      assert LatestAt(q, queue, depth, x);
    }
  }

  lemma SkipKeepsQueue(q: Query, queue: seq<EventId>, depth: seq<nat>, i: nat)
    requires QueueOk(q, queue, depth, i) && i < |queue| && !Open(q, queue[i])
    ensures QueueOk(q, queue, depth, i + 1)
  {
  }

  lemma InitialQueue(q: Query)
    ensures QueueOk(q, q.latest, seq(|q.latest|, _ => 0), 0)
  {
  }

  // ------------------------------------------------------------------
  // What has been returned
  // ------------------------------------------------------------------

  /** The events returned so far are the open entries visited, in queue order. */
  ghost predicate EventsOk(q: Query, queue: seq<EventId>, i: nat, events: seq<EventId>, at: seq<nat>) {
    && |at| == |events| && i <= |queue|
    && (forall a, b :: 0 <= a < b < |at| ==> at[a] < at[b])
    && (forall a :: 0 <= a < |at| ==> at[a] < i && queue[at[a]] == events[a] && Open(q, events[a]))
    && (forall j :: 0 <= j < i ==> !Bad(q, queue[j]) && (Open(q, queue[j]) ==> j in at))
  }

  lemma TakeKeepsEvents(q: Query, queue: seq<EventId>, i: nat, events: seq<EventId>, at: seq<nat>, more: seq<EventId>)
    requires EventsOk(q, queue, i, events, at) && i < |queue| && Open(q, queue[i])
    ensures EventsOk(q, queue + more, i + 1, events + [queue[i]], at + [i])
  {
  }

  lemma SkipKeepsEvents(q: Query, queue: seq<EventId>, i: nat, events: seq<EventId>, at: seq<nat>)
    requires EventsOk(q, queue, i, events, at) && i < |queue| && !Open(q, queue[i]) && !Bad(q, queue[i])
    ensures EventsOk(q, queue, i + 1, events, at)
  {
  }

  lemma FirstEntry(q: Query, queue: seq<EventId>, i: nat, events: seq<EventId>, at: seq<nat>, a: nat)
    requires EventsOk(q, queue, i, events, at) && FirstAt(events, a)
    ensures forall k :: 0 <= k < at[a] ==> queue[k] != queue[at[a]]
  {
  }

  /** First occurrences come back nearest first. */
  lemma NearestFirst(q: Query, queue: seq<EventId>, depth: seq<nat>, i: nat, events: seq<EventId>, at: seq<nat>,
                     a: nat, b: nat)
    requires QueueOk(q, queue, depth, i) && EventsOk(q, queue, i, events, at)
    requires a < b && FirstAt(events, b)
    ensures NoFarther(q, events[a], events[b])
  {
    FirstEntry(q, queue, i, events, at, b);
    forall d: nat | Reach(q, d, events[b])
      ensures exists e: nat :: e <= d && Reach(q, e, events[a])
    {
      FirstIsShortest(q, queue, depth, i, at[b], d);
      assert DepthAt(q, queue, depth, at[a]);
      assert depth[at[a]] <= d && Reach(q, depth[at[a]], events[a]);
    }
  }

  /** Once the queue is exhausted, everything reachable was visited. */
  lemma ExhaustedIsComplete(q: Query, queue: seq<EventId>, depth: seq<nat>, events: seq<EventId>, at: seq<nat>,
                            d: nat, x: EventId)
    requires QueueOk(q, queue, depth, |queue|) && EventsOk(q, queue, |queue|, events, at) && Reach(q, d, x)
    ensures !Bad(q, x) && (Open(q, x) ==> x in events)
  {
    ReachedIsQueued(q, queue, depth, |queue|, d, x);
    var k: nat :| k < |queue| && k < |depth| && queue[k] == x && depth[k] <= d;
    if Open(q, x) {
      assert k in at;
      var a :| 0 <= a < |at| && at[a] == k;
      assert events[a] == x;
    }
  }

  /** Returned: open, and reachable. */
  ghost predicate Returnable(q: Query, x: EventId) {
    Open(q, x) && exists d: nat :: Reach(q, d, x)
  }

  /** Why a walk fails. */
  ghost predicate Blames(q: Query, x: EventId, e: Error) {
    && Bad(q, x) && (exists d: nat :: Reach(q, d, x))
    && (e.EvilEvent? <==> q.lookup(x).Known? && q.lookup(x).pdu.room.Some? && q.lookup(x).pdu.room.value != q.room)
  }

  /** The walk returns at most `limit` events, all open and reachable and nearest first; if it
      exhausts its queue it returns every open reachable event; it fails only for a bad
      reachable event, and an exhausted walk has met none. */
  method Walk(q: Query, limit: nat) returns (r: Result<seq<EventId>, Error>, ghost exhausted: bool)
    ensures r.Ok? ==> |r.value| <= limit && (!exhausted ==> |r.value| == limit)
    ensures r.Ok? ==> forall x :: x in r.value ==> Returnable(q, x)
    ensures r.Ok? ==> forall a: nat, b: nat :: a < b && FirstAt(r.value, b) ==> NoFarther(q, r.value[a], r.value[b])
    ensures r.Ok? && exhausted ==> forall d: nat, x :: Reach(q, d, x) ==> !Bad(q, x) && (Open(q, x) ==> x in r.value)
    ensures r.Err? ==> exists x :: Blames(q, x, r.error)
  {
    var queued, events: seq<EventId> := q.latest, [];
    ghost var depth: seq<nat>, at: seq<nat> := seq(|queued|, _ => 0), [];
    InitialQueue(q);
    var i := 0;
    exhausted := false;
    while i < |queued| && |events| < limit
      invariant |events| <= limit
      invariant QueueOk(q, queued, depth, i) && EventsOk(q, queued, i, events, at)
      decreases limit - |events|, |queued| - i
    {
      var x := queued[i];
      assert DepthAt(q, queued, depth, i);
      match q.lookup(x) {
        case LookupFailed =>
          assert Blames(q, x, DatabaseError);
          return Err(DatabaseError), false;
        case Unknown =>
          SkipKeepsQueue(q, queued, depth, i);
          SkipKeepsEvents(q, queued, i, events, at);
        case Known(pdu) =>
          if pdu.room.None? {
            assert Blames(q, x, DatabaseError);
            return Err(DatabaseError), false;
          }
          if pdu.room.value != q.room {
            assert Blames(q, x, EvilEvent);
            return Err(EvilEvent), false;
          }
          if x in q.earliest {
            SkipKeepsQueue(q, queued, depth, i);
            SkipKeepsEvents(q, queued, i, events, at);
            i := i + 1;
            continue;
          }
          if pdu.prev.None? {
            assert Blames(q, x, DatabaseError);
            return Err(DatabaseError), false;
          }
          ExpandKeepsQueue(q, queued, depth, i);
          TakeKeepsEvents(q, queued, i, events, at, pdu.prev.value);
          depth := depth + seq(|pdu.prev.value|, _ => depth[i] + 1);
          at := at + [i];
          queued := queued + pdu.prev.value;
          events := events + [x];
      }
      i := i + 1;
    }
    exhausted := i == |queued|;
    r := Ok(events);
    Conclude(q, queued, depth, i, events, at);
  }

  lemma Conclude(q: Query, queue: seq<EventId>, depth: seq<nat>, i: nat, events: seq<EventId>, at: seq<nat>)
    requires QueueOk(q, queue, depth, i) && EventsOk(q, queue, i, events, at)
    ensures forall x :: x in events ==> Returnable(q, x)
    ensures forall a: nat, b: nat :: a < b && FirstAt(events, b) ==> NoFarther(q, events[a], events[b])
    ensures i == |queue| ==> forall d: nat, x :: Reach(q, d, x) ==> !Bad(q, x) && (Open(q, x) ==> x in events)
  {
    forall x | x in events
      ensures Returnable(q, x)
    {
      var a :| 0 <= a < |events| && events[a] == x;
      assert DepthAt(q, queue, depth, at[a]);
    }
    forall a: nat, b: nat | a < b && FirstAt(events, b)
      ensures NoFarther(q, events[a], events[b])
    {
      NearestFirst(q, queue, depth, i, events, at, a, b);
    }
    if i == |queue| {
      forall d: nat, x | Reach(q, d, x)
        ensures !Bad(q, x) && (Open(q, x) ==> x in events)
      {
        ExhaustedIsComplete(q, queue, depth, events, at, d, x);
      }
    }
  }
}
