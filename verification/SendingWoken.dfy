/** Which destinations the handler knows of. A destination with queued rows has a status or a
    message exactly when it was woken since the last crash: by a row queued to it, or because the
    start found active rows of it.
 */
module SendingWoken {
  import opened ByteStrings
  import opened KvTable
  import opened SendingKeys
  import opened SendingMachine
  import opened SendingFlight

  ghost predicate MessageIn(channel: seq<Msg>, unsent: multiset<Msg>, kind: OutgoingKind) {
    exists m: Msg :: m.kind == kind && (m in channel || m in unsent)
  }

  /** A message for the destination is in the channel or about to be sent. */
  ghost predicate HasMessage(s: State, kind: OutgoingKind) {
    MessageIn(s.channel, s.unsent, kind)
  }

  ghost predicate RowsFor(rows: Rows, kind: OutgoingKind) {
    exists k :: k in rows && rows[k].kind == kind
  }

  /** The destination has a status that is not about to be dropped, or a message. */
  ghost predicate Tracked(s: State, kind: OutgoingKind) {
    (kind in s.status && s.pc != Clearing(kind)) || HasMessage(s, kind)
  }

  /** Without any further row to the destination, the handler will still deal with it: a
      transaction is under way, or the handler is at work on it and not about to drop it, or a
      message is waiting. A message may turn out to have no effect. */
  ghost predicate Working(s: State, kind: OutgoingKind) {
    || Flying(s.futures, kind)
    || (Busy(s.pc) == Some(kind) && !s.pc.Clearing?)
    || HasMessage(s, kind)
  }

  ghost predicate WokenAt(s: State, kind: OutgoingKind) {
    && (kind in s.status || HasMessage(s, kind) ==> kind in s.hist.woken)
    && (kind in s.hist.woken && RowsFor(s.queued, kind) ==> Tracked(s, kind))
  }

  ghost predicate WokenOk(s: State) {
    forall kind {:trigger WokenAt(s, kind)} :: WokenAt(s, kind)
  }

  // ------------------------------------------------------------------
  // Messages and rows
  // ------------------------------------------------------------------

  lemma MessageQueued(channel: seq<Msg>, unsent: multiset<Msg>, m: Msg, kind: OutgoingKind)
    ensures MessageIn(channel, unsent + multiset{m}, kind) <==> MessageIn(channel, unsent, kind) || kind == m.kind
  {
    if MessageIn(channel, unsent, kind) {
      var w: Msg :| w.kind == kind && (w in channel || w in unsent);
      assert w in channel || w in unsent + multiset{m};
    }
    assert m in unsent + multiset{m};
  }

  lemma MessageSent(channel: seq<Msg>, unsent: multiset<Msg>, m: Msg, kind: OutgoingKind)
    requires m in unsent
    ensures MessageIn(channel + [m], unsent - multiset{m}, kind) <==> MessageIn(channel, unsent, kind)
  {
    var channel', unsent' := channel + [m], unsent - multiset{m};
    if MessageIn(channel, unsent, kind) {
      var w: Msg :| w.kind == kind && (w in channel || w in unsent);
      assert w in channel' || w in unsent';
    }
    if MessageIn(channel', unsent', kind) {
      var w: Msg :| w.kind == kind && (w in channel' || w in unsent');
      assert w in channel || w in unsent;
    }
  }

  lemma MessageReceived(channel: seq<Msg>, unsent: multiset<Msg>, kind: OutgoingKind)
    requires channel != []
    ensures MessageIn(channel, unsent, kind) <==> MessageIn(channel[1..], unsent, kind) || channel[0].kind == kind
  {
    assert channel == [channel[0]] + channel[1..];
    if MessageIn(channel, unsent, kind) {
      var w: Msg :| w.kind == kind && (w in channel || w in unsent);
      assert w == channel[0] || w in channel[1..] || w in unsent;
    }
    if MessageIn(channel[1..], unsent, kind) {
      var w: Msg :| w.kind == kind && (w in channel[1..] || w in unsent);
      assert w in channel || w in unsent;
    }
    assert channel[0] in channel;
  }

  lemma FewerRowsFor(rows: Rows, rows': Rows, kind: OutgoingKind)
    requires forall k :: k in rows' && rows'[k].kind == kind ==> k in rows && rows[k] == rows'[k]
    ensures RowsFor(rows', kind) ==> RowsFor(rows, kind)
  {
  }

  /** An empty batch means an empty queue. */
  lemma EmptyBatch(rows: Rows, kind: OutgoingKind)
    ensures NextBatch(rows, kind) == [] <==> !RowsFor(rows, kind)
  {
    var keys := KeysOf(rows, kind);
    SortedElems(keys);
    if RowsFor(rows, kind) {
      var k :| k in rows && rows[k].kind == kind;
      assert k in Sorted(keys);
    } else {
      assert keys == {};
    }
  }

  // ------------------------------------------------------------------
  // Preservation
  // ------------------------------------------------------------------

  lemma QueueKeepsWoken(s: State, kind: OutgoingKind, event: Event, q: OutgoingKind)
    requires WokenAt(s, q) && CountAfter(s, event) < U64
    ensures WokenAt(DoQueue(s, kind, event), q)
  {
    var s' := DoQueue(s, kind, event);
    MessageQueued(s.channel, s.unsent, Msg(kind, event, NewKey(s, kind, event)), q);
    if q != kind {
      FewerRowsFor(s.queued, s'.queued, q);
    }
  }

  lemma SendKeepsWoken(s: State, m: Msg, q: OutgoingKind)
    requires WokenAt(s, q) && m in s.unsent
    ensures WokenAt(DoSend(s, m), q)
  {
    MessageSent(s.channel, s.unsent, m, q);
  }

  lemma ReceiveKeepsWoken(s: State, edus: seq<Event>, q: OutgoingKind)
    requires WokenAt(s, q) && s.pc.Idle? && s.channel != []
    ensures WokenAt(DoReceive(s, edus), q)
  {
    MessageReceived(s.channel, s.unsent, q);
  }

  lemma ReadKeepsWoken(s: State, q: OutgoingKind)
    requires WokenAt(s, q) && s.pc.Reading?
    ensures WokenAt(DoRead(s), q)
  {
    EmptyBatch(s.queued, s.pc.kind);
  }

  lemma ClearKeepsWoken(s: State, q: OutgoingKind)
    requires WokenAt(s, q) && s.pc.Clearing?
    ensures WokenAt(DoClear(s), q)
  {
  }

  lemma CrashKeepsWoken(s: State, q: OutgoingKind)
    ensures WokenAt(DoCrash(s), q)
  {
  }

  lemma BootDoneKeepsWoken(s: State, order: seq<OutgoingKind>, q: OutgoingKind)
    requires WokenAt(s, q) && s.status == map[]
    requires s.pc.Booting? && forall k | k in order :: k in s.pc.acc
    ensures WokenAt(DoBootDone(s, order), q)
  {
  }

  /** Steps that touch neither messages nor which destinations have a status. */
  lemma SameWoken(s: State, s': State, q: OutgoingKind)
    requires WokenAt(s, q)
    requires s'.channel == s.channel && s'.unsent == s.unsent && s'.status.Keys == s.status.Keys
    requires s'.hist.woken == s.hist.woken && (s'.pc.Clearing? ==> s'.pc == s.pc)
    requires forall k :: k in s'.queued ==> k in s.queued && s'.queued[k] == s.queued[k]
    ensures WokenAt(s', q)
  {
    FewerRowsFor(s.queued, s'.queued, q);
  }

  lemma OtherKeepsWoken(s: State, a: Action, q: OutgoingKind)
    requires WokenAt(s, q) && Enabled(s, a)
    requires a.CleanupActive? || a.CleanupQueued? || a.Tick? || a.TxnOk? || a.TxnErr? || a.Delete?
    ensures WokenAt(Next(s, a), q)
  {
    SameWoken(s, Next(s, a), q);
  }

  lemma MarkKeepsWoken(s: State, q: OutgoingKind)
    requires WokenAt(s, q) && s.pc.Marking?
    ensures WokenAt(DoMark(s), q)
  {
    SameWoken(s, DoMark(s), q);
  }

  lemma BootKeepsWoken(s: State, q: OutgoingKind)
    requires WokenAt(s, q)
    ensures WokenAt(DoBootStart(s), q)
  {
    SameWoken(s, DoBootStart(s), q);
  }

  lemma BootRowKeepsWoken(s: State, q: OutgoingKind)
    requires WokenAt(s, q) && s.pc.Booting? && s.pc.next < |s.pc.rows|
    ensures WokenAt(DoBootRow(s), q)
  {
    SameWoken(s, DoBootRow(s), q);
  }

  lemma StepWoken(s: State, a: Action, q: OutgoingKind)
    requires WokenAt(s, q) && FlightOk(s) && Enabled(s, a)
    ensures WokenAt(Next(s, a), q)
  {
    match a {
      case Queue(kind, event) => QueueKeepsWoken(s, kind, event, q);
      case Send(m) => SendKeepsWoken(s, m, q);
      case Receive(edus) => ReceiveKeepsWoken(s, edus, q);
      case Read => ReadKeepsWoken(s, q);
      case Clear => ClearKeepsWoken(s, q);
      case Mark => MarkKeepsWoken(s, q);
      case Crash => CrashKeepsWoken(s, q);
      case Boot => BootKeepsWoken(s, q);
      case BootRow => BootRowKeepsWoken(s, q);
      case BootDone(order) => BootDoneKeepsWoken(s, order, q);
      case _ => OtherKeepsWoken(s, a, q);
    }
  }

  lemma StepKeepsWoken(s: State, a: Action)
    requires WokenOk(s) && FlightOk(s) && Enabled(s, a)
    ensures WokenOk(Next(s, a))
  {
    var s' := Next(s, a);
    forall kind
      ensures WokenAt(s', kind)
    {
      assert WokenAt(s, kind);
      StepWoken(s, a, kind);
    }
  }
}
