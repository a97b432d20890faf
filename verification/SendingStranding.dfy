/** When queued rows are stranded, over every run: exactly when nothing will happen for their
    destination until another row is queued to it or the process restarts. The handler has no
    timer, so a destination whose last transaction failed waits for the next message.
 */
module SendingStranding {
  import opened ByteStrings
  import opened SendingKeys
  import opened SendingMachine
  import opened SendingRows
  import opened SendingFlight
  import opened SendingWoken
  import opened SendingTheorems

  // ------------------------------------------------------------------
  // Woken since the last crash
  // ------------------------------------------------------------------

  /** The step queues a row to the destination, or ends a start that found active rows of it. */
  ghost predicate Wakes(s: State, a: Action, kind: OutgoingKind) {
    (a.Queue? && a.kind == kind) || (a.BootDone? && s.pc.Booting? && kind in s.pc.acc)
  }

  ghost predicate NoCrash(acts: seq<Action>, lo: nat, hi: nat) {
    forall i :: lo <= i < hi && i < |acts| ==> !acts[i].Crash?
  }

  ghost predicate WokenSince(states: seq<State>, acts: seq<Action>, n: nat, kind: OutgoingKind)
    requires |states| == |acts| + 1 && n <= |acts|
  {
    exists j :: 0 <= j < n && Wakes(states[j], acts[j], kind) && NoCrash(acts, j + 1, n)
  }

  lemma ReceiveSameWoken(s: State, edus: seq<Event>)
    requires s.channel != []
    ensures DoReceive(s, edus).hist.woken == s.hist.woken
  {
  }

  lemma MarkSameWoken(s: State)
    requires s.pc.Marking?
    ensures DoMark(s).hist.woken == s.hist.woken
  {
  }

  lemma BootRowSameWoken(s: State)
    requires s.pc.Booting? && s.pc.next < |s.pc.rows|
    ensures DoBootRow(s).hist.woken == s.hist.woken
  {
  }

  lemma ReadSameWoken(s: State)
    requires s.pc.Reading?
    ensures DoRead(s).hist.woken == s.hist.woken
  {
  }

  lemma DeleteSameWoken(s: State)
    requires s.pc.Deleting?
    ensures DoDelete(s).hist.woken == s.hist.woken
  {
  }

  lemma OtherSameWoken(s: State, a: Action)
    requires Enabled(s, a)
    requires a.Send? || a.CleanupActive? || a.CleanupQueued? || a.TxnOk? || a.TxnErr? || a.Clear? || a.Tick? || a.Boot?
    ensures Next(s, a).hist.woken == s.hist.woken
  {
  }

  lemma WokenStep(s: State, a: Action, kind: OutgoingKind)
    requires Enabled(s, a)
    ensures kind in Next(s, a).hist.woken <==> Wakes(s, a, kind) || (kind in s.hist.woken && !a.Crash?)
  {
    match a {
      case Queue(_, _) =>
      case Crash =>
      case BootDone(_) =>
      case Receive(edus) => ReceiveSameWoken(s, edus);
      case Mark => MarkSameWoken(s);
      case BootRow => BootRowSameWoken(s);
      case Read => ReadSameWoken(s);
      case Delete => DeleteSameWoken(s);
      case _ => OtherSameWoken(s, a);
    }
  }

  lemma WokenSinceStep(states: seq<State>, acts: seq<Action>, n: nat, kind: OutgoingKind)
    requires |states| == |acts| + 1 && n < |acts|
    ensures WokenSince(states, acts, n + 1, kind) <==>
      Wakes(states[n], acts[n], kind) || (WokenSince(states, acts, n, kind) && !acts[n].Crash?)
  {
    if WokenSince(states, acts, n, kind) && !acts[n].Crash? {
      var j :| 0 <= j < n && Wakes(states[j], acts[j], kind) && NoCrash(acts, j + 1, n);
      assert NoCrash(acts, j + 1, n + 1);
    }
    if Wakes(states[n], acts[n], kind) {
      assert NoCrash(acts, n + 1, n + 1);
    }
    if WokenSince(states, acts, n + 1, kind) && !Wakes(states[n], acts[n], kind) {
      var j :| 0 <= j < n + 1 && Wakes(states[j], acts[j], kind) && NoCrash(acts, j + 1, n + 1);
      assert j < n && NoCrash(acts, j + 1, n);
    }
  }

  /** The record of woken destinations says what happened in the run. */
  lemma {:induction false} WokenInRun(states: seq<State>, acts: seq<Action>, n: nat, kind: OutgoingKind)
    requires IsRun(states, acts) && n <= |acts|
    ensures kind in states[n].hist.woken <==> WokenSince(states, acts, n, kind)
  {
    if n != 0 {
      WokenInRun(states, acts, n - 1, kind);
      assert StepAt(states, acts, n - 1);
      WokenStep(states[n - 1], acts[n - 1], kind);
      WokenSinceStep(states, acts, n - 1, kind);
    }
  }

  // ------------------------------------------------------------------
  // Who is tracked
  // ------------------------------------------------------------------

  /** In every reachable state a destination with queued rows has a status or a message if and
      only if it was woken since the last crash; and then the status is not about to be dropped
      without a message, even when the rows arrive while the handler is dropping it. */
  lemma TrackedIffWoken(states: seq<State>, acts: seq<Action>, n: nat, kind: OutgoingKind)
    requires IsRun(states, acts) && n <= |acts| && RowsFor(states[n].queued, kind)
    ensures kind in states[n].status || HasMessage(states[n], kind) <==> WokenSince(states, acts, n, kind)
    ensures Tracked(states[n], kind) <==> WokenSince(states, acts, n, kind)
  {
    Reachable(states, acts, n);
    assert WokenAt(states[n], kind);
    WokenInRun(states, acts, n, kind);
  }

  /** A row queued since the last crash keeps its destination tracked as long as rows wait. */
  lemma RecentRowsTracked(states: seq<State>, acts: seq<Action>, j: nat, n: nat)
    requires IsRun(states, acts) && j < n <= |acts| && acts[j].Queue? && NoCrash(acts, j + 1, n)
    requires RowsFor(states[n].queued, acts[j].kind)
    ensures Tracked(states[n], acts[j].kind)
  {
    assert Wakes(states[j], acts[j], acts[j].kind);
    TrackedIffWoken(states, acts, n, acts[j].kind);
  }

  ghost predicate QueuedWoken(s: State) {
    forall k :: k in s.queued ==> s.queued[k].kind in s.hist.woken
  }

  lemma QueuedWokenStep(s: State, a: Action)
    requires Enabled(s, a) && !a.Crash? && QueuedWoken(s)
    ensures QueuedWoken(Next(s, a))
  {
    match a {
      case Receive(edus) => assert QueuedWoken(DoReceive(s, edus));
      case Mark => assert QueuedWoken(DoMark(s));
      case Read => assert QueuedWoken(DoRead(s));
      case Delete => assert QueuedWoken(DoDelete(s));
      case BootRow => assert QueuedWoken(DoBootRow(s));
      case _ =>
    }
  }

  lemma {:induction false} QueuedIsWoken(states: seq<State>, acts: seq<Action>, n: nat)
    requires IsRun(states, acts) && n <= |acts| && NoCrash(acts, 0, n)
    ensures QueuedWoken(states[n])
  {
    if n != 0 {
      QueuedIsWoken(states, acts, n - 1);
      assert StepAt(states, acts, n - 1);
      QueuedWokenStep(states[n - 1], acts[n - 1]);
    }
  }

  /** No stranded queue: in a run without crashes a destination with queued rows has a status
      that is not about to be dropped, or a message for it is in the channel or about to be sent. */
  lemma NoStrandedQueue(states: seq<State>, acts: seq<Action>, n: nat)
    requires IsRun(states, acts) && n <= |acts| && NoCrash(acts, 0, n)
    ensures forall k :: k in states[n].queued ==> Tracked(states[n], states[n].queued[k].kind)
  {
    Reachable(states, acts, n);
    QueuedIsWoken(states, acts, n);
    forall k | k in states[n].queued
      ensures Tracked(states[n], states[n].queued[k].kind)
    {
      assert WokenAt(states[n], states[n].queued[k].kind);
    }
  }

  // ------------------------------------------------------------------
  // Who is stranded
  // ------------------------------------------------------------------

  ghost predicate HasFailed(s: State, kind: OutgoingKind) {
    kind in s.status && s.status[kind].Failed?
  }

  /** Once the start is over, queued rows have nothing working for them if and only if there is
      no message for their destination and its last transaction failed, or it was not woken
      since the last crash. */
  lemma StrandedIff(states: seq<State>, acts: seq<Action>, n: nat, kind: OutgoingKind)
    requires IsRun(states, acts) && n <= |acts| && !Starting(states[n].pc) && RowsFor(states[n].queued, kind)
    ensures !Working(states[n], kind) <==>
      !HasMessage(states[n], kind) && (HasFailed(states[n], kind) || !WokenSince(states, acts, n, kind))
  {
    Reachable(states, acts, n);
    TrackedIffWoken(states, acts, n, kind);
    assert Sending(states[n], kind) <==> Flying(states[n].futures, kind) || Busy(states[n].pc) == Some(kind);
  }

  /** The last message for a failed destination leaves its rows stranded if and only if it comes
      before the waiting time is over: it is then dropped without effect. */
  lemma LastMessageStrands(states: seq<State>, acts: seq<Action>, n: nat, kind: OutgoingKind)
    requires IsRun(states, acts) && n < |acts| && acts[n].Receive? && states[n].channel != []
    requires states[n].channel[0].kind == kind && !MessageIn(states[n].channel[1..], states[n].unsent, kind)
    requires HasFailed(states[n], kind)
    ensures
      var tries, at := states[n].status[kind].tries, states[n].status[kind].at;
      !Working(states[n + 1], kind) <==>
      states[n].now - at < 1_000_000_000 * (if 30 * tries * tries > 86400 then 86400 else 30 * tries * tries)
  {
    BackoffIs(states[n].status[kind].tries);
    Reachable(states, acts, n);
    assert StepAt(states, acts, n);
    LastReceived(states[n], acts[n].edus, kind);
  }

  lemma LastReceived(s: State, edus: seq<Event>, kind: OutgoingKind)
    requires FlightOk(s) && s.pc.Idle? && s.channel != [] && s.channel[0].kind == kind && HasFailed(s, kind)
    requires !MessageIn(s.channel[1..], s.unsent, kind)
    ensures !Working(DoReceive(s, edus), kind) <==> s.now - s.status[kind].at < Backoff(s.status[kind].tries)
  {
    var s' := DoReceive(s, edus);
    assert !Sending(s, kind);
    if s'.futures != s.futures {
      assert s'.futures[|s.futures|].kind == kind;
    }
  }

  /** Nothing is under way, in work or waiting for the destination. */
  ghost predicate Stuck(s: State, kind: OutgoingKind) {
    !Starting(s.pc) && !Flying(s.futures, kind) && Busy(s.pc) != Some(kind) && !HasMessage(s, kind)
  }

  /** No row of the destination is taken out of the queue. */
  ghost predicate KeptRows(rows: Rows, rows': Rows, kind: OutgoingKind) {
    forall k :: k in rows && rows[k].kind == kind ==> k in rows' && rows'[k] == rows[k]
  }

  ghost predicate SameStatusOf(s: State, s': State, kind: OutgoingKind) {
    if kind in s.status then kind in s'.status && s'.status[kind] == s.status[kind] else kind !in s'.status
  }

  /** The destination is as it was; only a cleanup may have taken rows, of an appservice. */
  ghost predicate SameFor(s: State, s': State, kind: OutgoingKind) {
    SameStatusOf(s, s', kind) && (kind.Appservice? || KeptRows(s.queued, s'.queued, kind))
  }

  /** What is queued under a key has that key's destination. */
  lemma QueuedUnderKey(s: State, kind: OutgoingKind, event: Event)
    requires RowsOk(s) && Enabled(s, Queue(kind, event))
    ensures var key := NewKey(s, kind, event); key in s.queued ==> s.queued[key].kind == kind
  {
    var key := NewKey(s, kind, event);
    QueueKeepsKnown(s, kind, event);
    assert key in s.queued ==> Known(s, key, s.queued[key]);
  }

  lemma QueuedUnderItem(s: State)
    requires RowsOk(s) && s.pc.Marking? && s.pc.next < |s.pc.items|
    ensures var key := s.pc.items[s.pc.next].key; key in s.queued ==> s.queued[key].kind == s.pc.kind
  {
    var item := s.pc.items[s.pc.next];
    assert Known(s, item.key, Row(s.pc.kind, item.event));
    assert item.key in s.queued ==> Known(s, item.key, s.queued[item.key]);
  }

  lemma QueueStuck(s: State, kind: OutgoingKind, event: Event, q: OutgoingKind)
    requires Stuck(s, q) && CountAfter(s, event) < U64 && kind != q
    requires var key := NewKey(s, kind, event); key in s.queued ==> s.queued[key].kind == kind
    ensures Stuck(DoQueue(s, kind, event), q) && SameFor(s, DoQueue(s, kind, event), q)
  {
    MessageQueued(s.channel, s.unsent, Msg(kind, event, NewKey(s, kind, event)), q);
  }

  lemma SendStuck(s: State, m: Msg, q: OutgoingKind)
    requires Stuck(s, q) && m in s.unsent
    ensures Stuck(DoSend(s, m), q) && SameFor(s, DoSend(s, m), q)
  {
    MessageSent(s.channel, s.unsent, m, q);
  }

  lemma ReceiveStuck(s: State, edus: seq<Event>, q: OutgoingKind)
    requires Stuck(s, q) && s.pc.Idle? && s.channel != []
    ensures Stuck(DoReceive(s, edus), q) && SameFor(s, DoReceive(s, edus), q)
  {
    MessageReceived(s.channel, s.unsent, q);
    var kind := s.channel[0].kind;
    var f := s.futures + [Txn(kind, RowEvents(s.active, kind))];
    assert forall i :: 0 <= i < |f| ==> f[i].kind != q;
  }

  lemma DoneStuck(s: State, i: nat, q: OutgoingKind)
    requires Stuck(s, q) && OneEach(s.futures) && s.pc.Idle? && i < |s.futures|
    ensures Stuck(DoOk(s, i), q) && SameFor(s, DoOk(s, i), q)
    ensures Stuck(DoErr(s, i), q) && SameFor(s, DoErr(s, i), q)
  {
    FlyingRemove(s.futures, i);
    assert Flying(s.futures, s.futures[i].kind);
  }

  lemma PushStuck(s: State, q: OutgoingKind)
    requires Stuck(s, q) && s.pc.Marking? && s.pc.next >= |s.pc.items|
    ensures Stuck(DoMark(s), q) && SameFor(s, DoMark(s), q)
  {
    var f := s.futures + [Txn(s.pc.kind, s.pc.events)];
    assert forall i :: 0 <= i < |f| ==> f[i].kind != q;
  }

  lemma MoveStuck(s: State, q: OutgoingKind)
    requires Stuck(s, q) && s.pc.Marking? && s.pc.next < |s.pc.items|
    requires var key := s.pc.items[s.pc.next].key; key in s.queued ==> s.queued[key].kind == s.pc.kind
    ensures Stuck(DoMark(s), q) && SameFor(s, DoMark(s), q)
  {
  }

  lemma MarkStuck(s: State, q: OutgoingKind)
    requires Stuck(s, q) && RowsOk(s) && s.pc.Marking?
    ensures Stuck(DoMark(s), q) && SameFor(s, DoMark(s), q)
  {
    if s.pc.next >= |s.pc.items| {
      PushStuck(s, q);
    } else {
      QueuedUnderItem(s);
      MoveStuck(s, q);
    }
  }

  lemma DeleteStuck(s: State, q: OutgoingKind)
    requires Stuck(s, q) && s.pc.Deleting?
    ensures Stuck(DoDelete(s), q) && SameFor(s, DoDelete(s), q)
  {
  }

  lemma ReadStuck(s: State, q: OutgoingKind)
    requires Stuck(s, q) && s.pc.Reading?
    ensures Stuck(DoRead(s), q) && SameFor(s, DoRead(s), q)
  {
  }

  lemma OtherStuck(s: State, a: Action, q: OutgoingKind)
    requires Stuck(s, q) && Enabled(s, a)
    requires a.CleanupActive? || a.CleanupQueued? || a.Clear? || a.Tick?
    ensures Stuck(Next(s, a), q) && SameFor(s, Next(s, a), q)
  {
  }

  lemma StuckStep(s: State, a: Action, q: OutgoingKind)
    requires Stuck(s, q) && RowsOk(s) && OneEach(s.futures) && Enabled(s, a)
    requires !a.Crash? && !(a.Queue? && a.kind == q)
    ensures Stuck(Next(s, a), q) && SameFor(s, Next(s, a), q)
  {
    match a {
      case Queue(kind, event) =>
        QueuedUnderKey(s, kind, event);
        QueueStuck(s, kind, event, q);
      case Send(m) => SendStuck(s, m, q);
      case Receive(edus) => ReceiveStuck(s, edus, q);
      case TxnOk(i) => DoneStuck(s, i, q);
      case TxnErr(i) => DoneStuck(s, i, q);
      case Mark => MarkStuck(s, q);
      case Delete => DeleteStuck(s, q);
      case Read => ReadStuck(s, q);
      case _ => OtherStuck(s, a, q);
    }
  }

  ghost predicate LeftAlone(acts: seq<Action>, j: nat, n: nat, kind: OutgoingKind) {
    forall i :: j <= i < n && i < |acts| ==> !acts[i].Crash? && !(acts[i].Queue? && acts[i].kind == kind)
  }

  lemma SameForTrans(s: State, s': State, s'': State, kind: OutgoingKind)
    requires SameFor(s, s', kind) && SameFor(s', s'', kind)
    ensures SameFor(s, s'', kind)
  {
  }

  lemma StuckRunStep(states: seq<State>, acts: seq<Action>, i: nat, kind: OutgoingKind)
    requires IsRun(states, acts) && i < |acts| && Stuck(states[i], kind)
    requires !acts[i].Crash? && !(acts[i].Queue? && acts[i].kind == kind)
    ensures Stuck(states[i + 1], kind) && SameFor(states[i], states[i + 1], kind)
  {
    Reachable(states, acts, i);
    assert StepAt(states, acts, i);
    StuckStep(states[i], acts[i], kind);
  }

  lemma {:induction false} StuckInRun(states: seq<State>, acts: seq<Action>, j: nat, n: nat, kind: OutgoingKind)
    requires IsRun(states, acts) && j <= n <= |acts| && Stuck(states[j], kind) && LeftAlone(acts, j, n, kind)
    ensures Stuck(states[n], kind) && SameFor(states[j], states[n], kind)
    decreases n
  {
    if j < n {
      StuckInRun(states, acts, j, n - 1, kind);
      StuckRunStep(states, acts, n - 1, kind);
      SameForTrans(states[j], states[n - 1], states[n], kind);
    }
  }

  /** Stranded rows stay stranded: until a row for their destination is queued or the process
      restarts, whatever else happens and however much time passes, nothing works for them,
      the status stays what it is, and no row leaves the queue but by an appservice cleanup. */
  lemma StrandedStays(states: seq<State>, acts: seq<Action>, j: nat, n: nat, kind: OutgoingKind)
    requires IsRun(states, acts) && j <= n <= |acts| && LeftAlone(acts, j, n, kind)
    requires !Starting(states[j].pc) && RowsFor(states[j].queued, kind) && !Working(states[j], kind)
    ensures !Starting(states[n].pc) && !Working(states[n], kind) && SameFor(states[j], states[n], kind)
  {
    Reachable(states, acts, j);
    assert WokenAt(states[j], kind);
    assert Sending(states[j], kind) <==> Flying(states[j].futures, kind) || Busy(states[j].pc) == Some(kind);
    StuckInRun(states, acts, j, n, kind);
  }
}
