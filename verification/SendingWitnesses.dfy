/** Runs of the sending protocol that reach its corner cases: rows stranded by a failure and by a
    crash, and a row lost by a cleanup in the middle of marking it active.
 */
module SendingWitnesses {
  import opened ByteStrings
  import opened SendingKeys
  import opened SendingMachine
  import opened SendingFlight
  import opened SendingWoken
  import opened SendingStranding

  function Last(states: seq<State>): (s: State)
    requires states != []
  {
    states[|states| - 1]
  }

  /** One more step of a run. */
  lemma Extend(states: seq<State>, acts: seq<Action>, a: Action) returns (states': seq<State>, acts': seq<Action>)
    requires IsRun(states, acts) && Enabled(Last(states), a)
    ensures IsRun(states', acts') && acts' == acts + [a] && states' == states + [Next(Last(states), a)]
  {
    states', acts' := states + [Next(Last(states), a)], acts + [a];
    forall i | 0 <= i < |acts'|
      ensures StepAt(states', acts', i)
    {
      if i < |acts| {
        assert StepAt(states, acts, i);
      }
    }
  }

  lemma Start() returns (states: seq<State>, acts: seq<Action>)
    ensures IsRun(states, acts) && |acts| == 0 && Last(states) == INIT
  {
    states, acts := [INIT], [];
  }

  /** The handler is idle, with these tables, statuses and transactions, and no messages. */
  ghost predicate Quiet(s: State, queued: Rows, active: Rows, status: map<OutgoingKind, Status>, futures: seq<Txn>) {
    && s.pc.Idle? && s.queued == queued && s.active == active && s.status == status && s.futures == futures
    && s.channel == [] && s.unsent == multiset{} && s.count == 0
  }

  lemma Booted() returns (states: seq<State>, acts: seq<Action>)
    ensures IsRun(states, acts) && |acts| == 2 && NoCrash(acts, 0, 2)
    ensures Quiet(Last(states), map[], map[], map[], [])
  {
    states, acts := Start();
    states, acts := Extend(states, acts, Boot);
    assert Last(states).pc == Booting([], 0, map[]);
    states, acts := Extend(states, acts, BootDone([]));
  }

  /** Queueing a PDU and receiving its message, from a quiet state. */
  lemma QueueAndReceive(states: seq<State>, acts: seq<Action>, kind: OutgoingKind, event: Event)
    returns (states': seq<State>, acts': seq<Action>)
    requires IsRun(states, acts) && Queueable(kind, event) && event.Pdu?
    requires Last(states).pc.Idle? && Last(states).channel == [] && Last(states).unsent == multiset{}
    requires Last(states).count == 0
    ensures IsRun(states', acts') && |acts'| == |acts| + 3 && acts <= acts'
    ensures acts'[|acts|] == Queue(kind, event) && !acts'[|acts| + 1].Crash? && !acts'[|acts| + 2].Crash?
    ensures
      var s := Last(states);
      var s' := DoQueue(s, kind, event);
      Last(states') == DoReceive(s'.(channel := [Msg(kind, event, NewKey(s, kind, event))], unsent := multiset{}), [])
  {
    var m := Msg(kind, event, NewKey(Last(states), kind, event));
    states', acts' := Extend(states, acts, Queue(kind, event));
    assert Last(states').unsent == multiset{m};
    states', acts' := Extend(states', acts', Send(m));
    assert Last(states').channel == [m] && Last(states').unsent == multiset{};
    states', acts' := Extend(states', acts', Receive([]));
  }

  /** The first PDU of a destination, up to the start of its transaction. */
  lemma FirstMarked(kind: OutgoingKind, event: Event) returns (states: seq<State>, acts: seq<Action>)
    requires Queueable(kind, event) && event.Pdu?
    ensures IsRun(states, acts) && |acts| == 5 && NoCrash(acts, 0, 5)
    ensures
      var key, row, s := NewKey(INIT, kind, event), Row(kind, event), Last(states);
      && s.pc == Marking(kind, [event], [Item(event, key)], 0, false)
      && s.queued == map[key := row] && s.active == map[] && s.status == map[kind := Running] && s.futures == []
      && s.channel == [] && s.unsent == multiset{} && s.count == 0
  {
    states, acts := Booted();
    states, acts := QueueAndReceive(states, acts, kind, event);
  }

  lemma FirstFlying(kind: OutgoingKind, event: Event) returns (states: seq<State>, acts: seq<Action>)
    requires Queueable(kind, event) && event.Pdu?
    ensures IsRun(states, acts) && |acts| == 8 && NoCrash(acts, 0, 8)
    ensures
      var key, row := NewKey(INIT, kind, event), Row(kind, event);
      Quiet(Last(states), map[], map[key := row], map[kind := Running], [Txn(kind, [event])])
  {
    var key, row := NewKey(INIT, kind, event), Row(kind, event);
    states, acts := FirstMarked(kind, event);
    states, acts := Extend(states, acts, Mark);
    assert Last(states).active == map[key := row];
    states, acts := Extend(states, acts, Mark);
    assert Last(states).queued == map[];
    states, acts := Extend(states, acts, Mark);
  }

  lemma RunningIgnores(s: State)
    requires s.channel != [] && s.channel[0].kind in s.status && s.status[s.channel[0].kind].Running?
    ensures DoReceive(s, []) == s.(channel := s.channel[1..])
  {
  }

  lemma SecondIgnored(kind: OutgoingKind, event: Event, event': Event) returns (states: seq<State>, acts: seq<Action>)
    requires Queueable(kind, event) && event.Pdu? && Queueable(kind, event') && event'.Pdu?
    ensures IsRun(states, acts) && |acts| == 11 && NoCrash(acts, 0, 11)
    ensures
      var key, row := NewKey(INIT, kind, event), Row(kind, event);
      var key', row' := NewKey(INIT, kind, event'), Row(kind, event');
      Quiet(Last(states), map[key' := row'], map[key := row], map[kind := Running], [Txn(kind, [event])])
  {
    states, acts := FirstFlying(kind, event);
    var s, m := Last(states), Msg(kind, event', NewKey(Last(states), kind, event'));
    RunningIgnores(DoQueue(s, kind, event').(channel := [m], unsent := multiset{}));
    states, acts := QueueAndReceive(states, acts, kind, event');
  }

  /** The only transaction of an otherwise quiet state fails. */
  lemma FailedIsStuck(s: State, kind: OutgoingKind, events: seq<Event>)
    requires s.pc.Idle? && s.channel == [] && s.unsent == multiset{}
    requires s.status == map[kind := Running] && s.futures == [Txn(kind, events)]
    ensures
      var s' := DoErr(s, 0);
      s'.queued == s.queued && s'.pc.Idle? && HasFailed(s', kind) && !Working(s', kind)
  {
    assert DoErr(s, 0).futures == [];
  }

  /** A failure strands the rows queued meanwhile, without any crash: the status is there, but
      nothing will read the queue until another row for the destination is queued. */
  lemma FailureStrands(kind: OutgoingKind, event: Event, event': Event)
    returns (states: seq<State>, acts: seq<Action>)
    requires Queueable(kind, event) && event.Pdu? && Queueable(kind, event') && event'.Pdu?
    ensures IsRun(states, acts) && NoCrash(acts, 0, |acts|) && !Starting(Last(states).pc)
    ensures
      var key', s := NewKey(INIT, kind, event'), Last(states);
      && key' in s.queued && s.queued[key'] == Row(kind, event')
      && HasFailed(s, kind) && !Working(s, kind)
  {
    states, acts := SecondIgnored(kind, event, event');
    FailedIsStuck(Last(states), kind, [event]);
    states, acts := Extend(states, acts, TxnErr(0));
  }

  /** A start that finds no active rows wakes nobody. */
  lemma StartsIdle(s: State)
    requires s.pc.BootStart? && s.active == map[] && s.status == map[] && s.futures == []
    requires s.channel == [] && s.unsent == multiset{}
    ensures DoBootStart(s).pc == Booting([], 0, map[])
    ensures
      var s' := DoBootDone(DoBootStart(s), []);
      s'.pc.Idle? && s'.queued == s.queued && s'.status == map[] && forall kind :: !Working(s', kind)
  {
    var s' := DoBootDone(DoBootStart(s), []);
    assert s'.futures == [];
  }

  lemma CrashedQueued(kind: OutgoingKind, event: Event) returns (states: seq<State>, acts: seq<Action>)
    requires Queueable(kind, event) && event.Pdu?
    ensures IsRun(states, acts)
    ensures Last(states) == DoCrash(DoQueue(INIT, kind, event))
  {
    states, acts := Start();
    states, acts := Extend(states, acts, Queue(kind, event));
    states, acts := Extend(states, acts, Crash);
  }

  /** A crash strands the rows that were queued and not yet marked active: the start reads only
      the active rows. */
  lemma CrashStrands(kind: OutgoingKind, event: Event) returns (states: seq<State>, acts: seq<Action>)
    requires Queueable(kind, event) && event.Pdu?
    ensures IsRun(states, acts) && !Starting(Last(states).pc)
    ensures
      var key, s := NewKey(INIT, kind, event), Last(states);
      && key in s.queued && s.queued[key] == Row(kind, event)
      && kind !in s.status && !Working(s, kind)
  {
    states, acts := CrashedQueued(kind, event);
    StartsIdle(Last(states));
    states, acts := Extend(states, acts, Boot);
    states, acts := Extend(states, acts, BootDone([]));
  }

  /** Half-way through marking, the row is cleaned up and queued again. */
  lemma Orphaned(id: Bytes, event: Event) returns (states: seq<State>, acts: seq<Action>)
    requires Queueable(Appservice(id), event) && event.Pdu?
    ensures IsRun(states, acts) && |acts| == 8 && acts[7] == Queue(Appservice(id), event)
    ensures
      var kind, key, s := Appservice(id), NewKey(INIT, Appservice(id), event), Last(states);
      && s.pc == Marking(kind, [event], [Item(event, key)], 0, true)
      && s.queued == map[key := Row(kind, event)] && s.active == map[] && s.futures == []
  {
    var kind := Appservice(id);
    var key := NewKey(INIT, kind, event);
    states, acts := FirstMarked(kind, event);
    states, acts := Extend(states, acts, Mark);
    states, acts := Extend(states, acts, CleanupActive(key));
    states, acts := Extend(states, acts, Queue(kind, event));
  }

  /** The exception to no loss is real: an appservice row is cleaned up half-way through marking,
      queued again, and removed by the second half; when the transaction then fails, the row is
      in no table, was in no successful transaction, and no cleanup came after it was queued. */
  lemma OrphanIsLost(id: Bytes, event: Event) returns (states: seq<State>, acts: seq<Action>)
    requires Queueable(Appservice(id), event) && event.Pdu?
    ensures IsRun(states, acts) && |acts| == 11 && acts[7] == Queue(Appservice(id), event)
    ensures acts[8..] == [Mark, Mark, TxnErr(0)]
    ensures
      var key := NewKey(INIT, Appservice(id), event);
      key !in Last(states).queued && key !in Last(states).active
  {
    states, acts := Orphaned(id, event);
    states, acts := Extend(states, acts, Mark);
    assert Last(states).queued == map[];
    states, acts := Extend(states, acts, Mark);
    assert Last(states).futures == [Txn(Appservice(id), [event])];
    states, acts := Extend(states, acts, TxnErr(0));
  }
}
