/** To-device delivery as a protocol: any number of `/sync` requests of any devices run
    interleaved with sends, other uses of the counter and device removals. A request takes its
    `next_batch` from the counter first, then deletes what its `since` acknowledges one row at a
    time, then reads what is left into its response. A device acknowledges only with the
    `next_batch` of a response it received, or with no token, which counts as zero. A send draws
    its count in one step and writes its row in another.
 */
module ToDeviceSync {
  import opened ByteStrings
  import opened ToDevice

  datatype Request = Request(device: Device, since: nat, nextBatch: nat)

  datatype Response = Response(device: Device, nextBatch: nat, events: Events)

  /** `responses` is the log of all responses ever built, `received` the ones that reached their
      device. `sent`, `late` and `erased` record all events ever written, those written after a
      response of their device whose token already covers their count, and those deleted with
      their device. */
  datatype State = State(
    count: nat,
    drawn: set<Slot>,
    events: Events,
    requests: map<nat, Request>,
    responses: seq<Response>,
    received: set<nat>,
    sent: Events,
    late: set<Slot>,
    erased: set<Slot>)

  datatype Action =
    | Allocate(device: Device)
    | Insert(slot: Slot, content: Bytes)
    | OtherCount
    | Start(id: nat, device: Device, since: nat)
    | RemoveOne(id: nat, count: nat)
    | Respond(id: nat)
    | Abandon(id: nat)
    | Receive(index: nat)
    | RemoveDevice(device: Device)

  const INIT: State := State(0, {}, map[], map[], [], {}, map[], {}, {})

  /** A token the device holds. */
  ghost predicate Holding(s: State, d: Device, since: nat) {
    || since == 0
    || exists i :: i in s.received && i < |s.responses| && TokenOf(s, i) == (d, since)
  }

  ghost function TokenOf(s: State, i: nat): (r: (Device, nat))
    requires i < |s.responses|
  {
    (s.responses[i].device, s.responses[i].nextBatch)
  }

  /** Some response of the device was already built with a token that covers the count. */
  ghost predicate Covered(s: State, e: Slot) {
    exists i: nat :: i < |s.responses| && Covers(s, i, e)
  }

  ghost predicate Covers(s: State, i: nat, e: Slot)
    requires i < |s.responses|
  {
    s.responses[i].device == e.device && e.count <= s.responses[i].nextBatch
  }

  /** A request may answer with rows up to its `since` still queued: those that were written after
      its removal loop had started. */
  ghost predicate Enabled(s: State, a: Action) {
    match a
    case Allocate(_) => true
    case Insert(e, _) => e in s.drawn
    case OtherCount => true
    case Start(id, d, since) => id !in s.requests && Holding(s, d, since)
    case RemoveOne(id, n) => id in s.requests && n <= s.requests[id].since && Slot(s.requests[id].device, n) in s.events
    case Respond(id) => id in s.requests
    case Abandon(id) => id in s.requests
    case Receive(i) => i < |s.responses|
    case RemoveDevice(_) => true
  }

  /** The events of one device. */
  ghost function WaitingFor(es: Events, d: Device): (r: Events) {
    map e | e in es && e.device == d :: es[e]
  }

  ghost function Next(s: State, a: Action): (s': State)
    requires Enabled(s, a)
  {
    match a
    case Allocate(d) => s.(count := s.count + 1, drawn := s.drawn + {Slot(d, s.count + 1)})
    case Insert(e, content) =>
      s.(drawn := s.drawn - {e}, events := s.events[e := content], sent := s.sent[e := content],
         late := if Covered(s, e) then s.late + {e} else s.late)
    case OtherCount => s.(count := s.count + 1)
    case Start(id, d, since) => s.(requests := s.requests[id := Request(d, since, s.count)])
    case RemoveOne(id, n) => s.(events := s.events - {Slot(s.requests[id].device, n)})
    case Respond(id) =>
      var q := s.requests[id];
      s.(responses := s.responses + [Response(q.device, q.nextBatch, WaitingFor(s.events, q.device))],
         requests := s.requests - {id})
    case Abandon(id) => s.(requests := s.requests - {id})
    case Receive(i) => s.(received := s.received + {i})
    case RemoveDevice(d) =>
      s.(events := WithoutDevice(s.events, d), erased := s.erased + (set e | e in s.events && e.device == d))
  }

  ghost predicate StepAt(states: seq<State>, acts: seq<Action>, i: nat) {
    i < |acts| < |states| ==> Enabled(states[i], acts[i]) && states[i + 1] == Next(states[i], acts[i])
  }

  ghost predicate IsRun(states: seq<State>, acts: seq<Action>) {
    && |states| == |acts| + 1 && states[0] == INIT
    && forall i: nat {:trigger StepAt(states, acts, i)} :: StepAt(states, acts, i)
  }
}
