/** Single flight: a destination never has two transactions under way, it has one exactly
    while its status says so, and whatever it carries covers every active row.
 */
module SendingFlight {
  import opened ByteStrings
  import opened KvTable
  import opened SendingKeys
  import opened SendingMachine
  import opened SendingRows

  predicate Starting(pc: Pc) {
    pc.BootStart? || pc.Booting?
  }

  /** The destination whose response or message the handler is working on. */
  function Busy(pc: Pc): (r: Option<OutgoingKind>) {
    match pc
    case Deleting(kind, _) => Some(kind)
    case Reading(kind) => Some(kind)
    case Marking(kind, _, _, _, _) => Some(kind)
    case Clearing(kind) => Some(kind)
    case _ => None
  }

  ghost predicate Flying(futures: seq<Txn>, kind: OutgoingKind) {
    exists i :: 0 <= i < |futures| && futures[i].kind == kind
  }

  predicate Sending(s: State, kind: OutgoingKind) {
    kind in s.status && !s.status[kind].Failed?
  }

  ghost predicate OneEach(futures: seq<Txn>) {
    forall i, j :: 0 <= i < j < |futures| ==> futures[i].kind != futures[j].kind
  }

  ghost predicate FlightOk(s: State) {
    && OneEach(s.futures)
    && (Starting(s.pc) ==> s.status == map[] && s.futures == [])
    && (!Starting(s.pc) ==> forall kind :: Sending(s, kind) <==> Flying(s.futures, kind) || Busy(s.pc) == Some(kind))
    && (forall i :: 0 <= i < |s.futures| ==> Busy(s.pc) != Some(s.futures[i].kind))
  }

  // ------------------------------------------------------------------
  // Futures
  // ------------------------------------------------------------------

  lemma FlyingRemove(f: seq<Txn>, i: nat)
    requires OneEach(f) && i < |f|
    ensures OneEach(RemoveAt(f, i))
    ensures forall kind :: Flying(RemoveAt(f, i), kind) <==> Flying(f, kind) && kind != f[i].kind
    ensures forall t :: t in RemoveAt(f, i) ==> t in f && t.kind != f[i].kind
  {
    var g := RemoveAt(f, i);
    assert forall j :: 0 <= j < |g| ==> g[j] == if j < i then f[j] else f[j + 1];
    forall kind | Flying(f, kind) && kind != f[i].kind
      ensures Flying(g, kind)
    {
      var j :| 0 <= j < |f| && f[j].kind == kind;
      assert g[if j < i then j else j - 1].kind == kind;
    }
  }

  lemma FlyingAppend(f: seq<Txn>, t: Txn)
    requires OneEach(f) && !Flying(f, t.kind)
    ensures OneEach(f + [t])
    ensures forall kind :: Flying(f + [t], kind) <==> Flying(f, kind) || kind == t.kind
  {
    forall kind
      ensures Flying(f + [t], kind) <==> Flying(f, kind) || kind == t.kind
    {
      if Flying(f, kind) {
        var j :| 0 <= j < |f| && f[j].kind == kind;
        assert (f + [t])[j].kind == kind;
      }
      assert (f + [t])[|f|] == t;
    }
  }

  // ------------------------------------------------------------------
  // Preservation
  // ------------------------------------------------------------------

  lemma ReceiveKeepsFlight(s: State, edus: seq<Event>)
    requires FlightOk(s) && s.pc.Idle? && s.channel != []
    ensures FlightOk(DoReceive(s, edus))
  {
    var m := s.channel[0];
    if m.kind in s.status && s.status[m.kind].Failed? {
      assert !Sending(s, m.kind);
      FlyingAppend(s.futures, Txn(m.kind, RowEvents(s.active, m.kind)));
    }
  }

  lemma OkKeepsFlight(s: State, i: nat)
    requires FlightOk(s) && s.pc.Idle? && i < |s.futures|
    ensures FlightOk(DoOk(s, i))
  {
    var kind, s' := s.futures[i].kind, DoOk(s, i);
    FlyingRemove(s.futures, i);
    assert Flying(s.futures, kind);
    forall k
      ensures Sending(s', k) <==> Flying(s'.futures, k) || Busy(s'.pc) == Some(k)
    {
      assert Sending(s, k) <==> Flying(s.futures, k);
    }
    forall j | 0 <= j < |s'.futures|
      ensures Busy(s'.pc) != Some(s'.futures[j].kind)
    {
      assert s'.futures[j] in s'.futures;
    }
  }

  lemma ErrKeepsFlight(s: State, i: nat)
    requires FlightOk(s) && s.pc.Idle? && i < |s.futures|
    ensures FlightOk(DoErr(s, i))
  {
    var kind, s' := s.futures[i].kind, DoErr(s, i);
    FlyingRemove(s.futures, i);
    assert Flying(s.futures, kind);
    assert Sending(s, kind);
    forall k
      ensures Sending(s', k) <==> Flying(s'.futures, k) || Busy(s'.pc) == Some(k)
    {
      assert Sending(s, k) <==> Flying(s.futures, k);
    }
  }

  /** The error arm of the handler is never reached: whoever fails was running. */
  lemma FailureWasRunning(s: State, i: nat)
    requires FlightOk(s) && s.pc.Idle? && i < |s.futures|
    ensures s.futures[i].kind in s.status
    ensures s.status[s.futures[i].kind].Running? || s.status[s.futures[i].kind].Retrying?
  {
  }

  lemma ClearKeepsFlight(s: State)
    requires FlightOk(s) && s.pc.Clearing?
    ensures FlightOk(DoClear(s))
  {
  }

  lemma MarkKeepsFlight(s: State)
    requires FlightOk(s) && s.pc.Marking?
    ensures FlightOk(DoMark(s))
  {
    var kind, s' := s.pc.kind, DoMark(s);
    if s.pc.next >= |s.pc.items| {
      assert !Flying(s.futures, kind);
      FlyingAppend(s.futures, Txn(kind, s.pc.events));
      forall k
        ensures Sending(s', k) <==> Flying(s'.futures, k) || Busy(s'.pc) == Some(k)
      {
        assert Sending(s, k) <==> Flying(s.futures, k) || k == kind;
      }
    } else {
      assert Busy(s'.pc) == Busy(s.pc);
      assert forall k :: Sending(s', k) == Sending(s, k);
    }
  }

  /** Steps that touch neither statuses nor futures nor the destination in work. */
  lemma SameFlight(s: State, s': State)
    requires FlightOk(s)
    requires s'.status == s.status && s'.futures == s.futures
    requires Starting(s'.pc) == Starting(s.pc) && Busy(s'.pc) == Busy(s.pc)
    ensures FlightOk(s')
  {
  }

  lemma BootDoneKeepsFlight(s: State, order: seq<OutgoingKind>)
    requires FlightOk(s) && Enabled(s, BootDone(order))
    ensures FlightOk(DoBootDone(s, order))
  {
    var s' := DoBootDone(s, order);
    forall k
      ensures Sending(s', k) <==> Flying(s'.futures, k)
    {
      if k in order {
        var i :| 0 <= i < |order| && order[i] == k;
        assert s'.futures[i].kind == k;
      }
    }
  }

  lemma CallersKeepFlight(s: State, a: Action)
    requires FlightOk(s) && Enabled(s, a)
    requires a.Queue? || a.Send? || a.CleanupActive? || a.CleanupQueued? || a.Tick?
    ensures FlightOk(Next(s, a))
  {
  }

  lemma BootKeepsFlight(s: State, a: Action)
    requires FlightOk(s) && Enabled(s, a)
    requires a.Boot? || a.BootRow?
    ensures FlightOk(Next(s, a))
  {
  }

  lemma StepKeepsFlight(s: State, a: Action)
    requires FlightOk(s) && Enabled(s, a)
    ensures FlightOk(Next(s, a))
  {
    match a {
      case Receive(edus) => ReceiveKeepsFlight(s, edus);
      case TxnOk(i) => OkKeepsFlight(s, i);
      case TxnErr(i) => ErrKeepsFlight(s, i);
      case Delete => SameFlight(s, DoDelete(s));
      case Read => SameFlight(s, DoRead(s));
      case Clear => ClearKeepsFlight(s);
      case Mark => MarkKeepsFlight(s);
      case Crash => assert FlightOk(DoCrash(s));
      case Boot => BootKeepsFlight(s, a);
      case BootRow => BootKeepsFlight(s, a);
      case BootDone(order) => BootDoneKeepsFlight(s, order);
      case _ => CallersKeepFlight(s, a);
    }
  }

  // ------------------------------------------------------------------
  // Coverage of the active rows
  // ------------------------------------------------------------------

  ghost predicate MarkOk(pc: Pc) {
    pc.Marking? ==>
      && 1 <= |pc.items| <= BATCH
      && pc.next <= |pc.items|
      && (pc.inserted ==> pc.next < |pc.items|)
      && ItemEvents(pc.items) <= pc.events
  }

  /** How the handler's memory accounts for one active row. */
  ghost predicate RowCovered(s: State, k: Bytes, row: Row) {
    match s.pc
    case BootStart => true
    case Booting(rows, next, acc) =>
      (exists j :: next <= j < |rows| && rows[j] == (k, row)) || row.event in Collected(acc, row.kind)
    case _ =>
      && row.kind in s.status
      && (forall i :: 0 <= i < |s.futures| && s.futures[i].kind == row.kind ==> row.event in s.futures[i].events)
      && (Busy(s.pc) == Some(row.kind) ==> WorkCovers(s.pc, k, row))
  }

  ghost predicate WorkCovers(pc: Pc, k: Bytes, row: Row) {
    match pc
    case Deleting(_, todo) => k in todo
    case Marking(_, _, items, next, inserted) =>
      exists j :: 0 <= j < |items| && (j < next || (j == next && inserted)) && items[j] == Item(row.event, k)
    case _ => false
  }

  ghost predicate CoverOk(s: State) {
    && MarkOk(s.pc)
    && (forall k :: k in s.active ==> RowCovered(s, k, s.active[k]))
  }

  lemma SameCover(s: State, s': State)
    requires CoverOk(s)
    requires s'.status == s.status && s'.futures == s.futures && s'.pc == s.pc
    requires forall k :: k in s'.active ==> k in s.active && s'.active[k] == s.active[k]
    ensures CoverOk(s')
  {
  }

  /** A retry carries all active rows of the destination. */
  lemma RetryKeepsCover(s: State, s': State, kind: OutgoingKind, n: nat)
    requires CoverOk(s) && s.pc.Idle? && s'.pc.Idle?
    requires s'.active == s.active && s'.status == s.status[kind := Retrying(n)]
    requires s'.futures == s.futures + [Txn(kind, RowEvents(s.active, kind))]
    ensures CoverOk(s')
  {
    RowEventsCover(s.active, kind);
    forall k | k in s'.active
      ensures RowCovered(s', k, s'.active[k])
    {
      assert RowCovered(s, k, s.active[k]);
    }
  }

  /** A destination without status has no active rows, so marking starts from none. */
  lemma StartKeepsCover(s: State, s': State, m: Msg, edus: seq<Event>)
    requires CoverOk(s) && s.pc.Idle? && m.kind !in s.status
    requires s'.active == s.active && s'.status == s.status[m.kind := Running] && s'.futures == s.futures
    requires s'.pc == Marking(m.kind, [m.event] + edus, [Item(m.event, m.key)], 0, false)
    ensures CoverOk(s')
  {
  }

  lemma ReceiveKeepsCover(s: State, edus: seq<Event>)
    requires CoverOk(s) && s.pc.Idle? && s.channel != []
    ensures CoverOk(DoReceive(s, edus))
  {
    var m, s' := s.channel[0], DoReceive(s, edus);
    if m.kind !in s.status {
      StartKeepsCover(s, s', m, edus);
    } else if s.status[m.kind].Failed? && s.now - s.status[m.kind].at >= Backoff(s.status[m.kind].tries) {
      RetryKeepsCover(s, s', m.kind, s.status[m.kind].tries);
    } else {
      SameCover(s, s');
    }
  }

  lemma RowEventsCover(rows: Rows, kind: OutgoingKind)
    ensures forall k :: k in rows && rows[k].kind == kind ==> rows[k].event in RowEvents(rows, kind)
    ensures |RowEvents(rows, kind)| == |KeysOf(rows, kind)|
  {
    var keys := OrderedKeys(rows, kind);
    SortedElems(KeysOf(rows, kind));
    forall k | k in rows && rows[k].kind == kind
      ensures rows[k].event in RowEvents(rows, kind)
    {
      assert k in KeysOf(rows, kind);
      var i :| 0 <= i < |keys| && keys[i] == k;
      assert RowEvents(rows, kind)[i] == rows[k].event;
    }
  }

  lemma OkKeepsCover(s: State, i: nat)
    requires CoverOk(s) && FlightOk(s) && s.pc.Idle? && i < |s.futures|
    ensures CoverOk(DoOk(s, i))
  {
    var kind, s' := s.futures[i].kind, DoOk(s, i);
    FlyingRemove(s.futures, i);
    SortedElems(KeysOf(s.active, kind));
    forall k | k in s'.active
      ensures RowCovered(s', k, s'.active[k])
    {
      assert RowCovered(s, k, s.active[k]);
      StillCovered(s.futures, s'.futures, s.active[k]);
    }
  }

  lemma StillCovered(f: seq<Txn>, g: seq<Txn>, row: Row)
    requires forall t :: t in g ==> t in f
    requires forall i :: 0 <= i < |f| && f[i].kind == row.kind ==> row.event in f[i].events
    ensures forall i :: 0 <= i < |g| && g[i].kind == row.kind ==> row.event in g[i].events
  {
    forall i | 0 <= i < |g| && g[i].kind == row.kind
      ensures row.event in g[i].events
    {
      assert g[i] in g;
      assert g[i] in f;
    }
  }

  lemma ErrKeepsCover(s: State, i: nat)
    requires CoverOk(s) && FlightOk(s) && s.pc.Idle? && i < |s.futures|
    ensures CoverOk(DoErr(s, i))
  {
  }

  lemma DeleteKeepsCover(s: State)
    requires CoverOk(s) && s.pc.Deleting?
    ensures CoverOk(DoDelete(s))
  {
  }

  lemma ReadKeepsCover(s: State)
    requires CoverOk(s) && s.pc.Reading?
    ensures CoverOk(DoRead(s))
  {
    var s' := DoRead(s);
    forall k | k in s'.active
      ensures RowCovered(s', k, s'.active[k])
    {
      assert RowCovered(s, k, s.active[k]);
    }
  }

  lemma ClearKeepsCover(s: State)
    requires CoverOk(s) && s.pc.Clearing?
    ensures CoverOk(DoClear(s))
  {
  }

  lemma MarkKeepsCover(s: State)
    requires CoverOk(s) && FlightOk(s) && s.pc.Marking?
    ensures CoverOk(DoMark(s))
  {
    var pc, s' := s.pc, DoMark(s);
    assert Sending(s, pc.kind);
    forall k | k in s'.active
      ensures RowCovered(s', k, s'.active[k])
    {
      if pc.next < |pc.items| && !pc.inserted && k == pc.items[pc.next].key {
        assert s'.pc.items[pc.next] == Item(s'.active[k].event, k);
      } else {
        assert RowCovered(s, k, s.active[k]);
        if Busy(pc) == Some(s.active[k].kind) {
          var row := s.active[k];
          var j :| 0 <= j < |pc.items| && (j < pc.next || (j == pc.next && pc.inserted)) &&
                   pc.items[j] == Item(row.event, k);
          assert ItemEvents(pc.items)[j] == row.event == pc.events[j];
        }
      }
    }
  }

  lemma BootKeepsCover(s: State)
    requires CoverOk(s) && s.pc.BootStart?
    ensures CoverOk(DoBootStart(s))
  {
    var s' := DoBootStart(s);
    SnapshotRows(s.active);
    forall k | k in s'.active
      ensures RowCovered(s', k, s'.active[k])
    {
      var j :| 0 <= j < |s'.pc.rows| && s'.pc.rows[j] == (k, s.active[k]);
    }
  }

  lemma BootRowKeepsCover(s: State)
    requires CoverOk(s) && s.pc.Booting? && s.pc.next < |s.pc.rows|
    ensures CoverOk(DoBootRow(s))
  {
    var s' := DoBootRow(s);
    forall k | k in s'.active
      ensures RowCovered(s', k, s'.active[k])
    {
      assert RowCovered(s, k, s.active[k]);
      if s.active[k].event !in Collected(s.pc.acc, s.active[k].kind) {
        var j :| s.pc.next <= j < |s.pc.rows| && s.pc.rows[j] == (k, s.active[k]);
      }
    }
  }

  lemma BootDoneKeepsCover(s: State, order: seq<OutgoingKind>)
    requires CoverOk(s) && Enabled(s, BootDone(order))
    ensures CoverOk(DoBootDone(s, order))
  {
    var s' := DoBootDone(s, order);
    forall k | k in s'.active
      ensures RowCovered(s', k, s'.active[k])
    {
      assert RowCovered(s, k, s.active[k]);
    }
  }

  lemma CrashKeepsCover(s: State)
    ensures CoverOk(DoCrash(s))
  {
  }

  lemma StepKeepsCover(s: State, a: Action)
    requires CoverOk(s) && FlightOk(s) && Enabled(s, a)
    ensures CoverOk(Next(s, a))
  {
    match a {
      case Queue(kind, event) => SameCover(s, DoQueue(s, kind, event));
      case Send(m) => SameCover(s, DoSend(s, m));
      case CleanupActive(key) => SameCover(s, DoCleanupActive(s, key));
      case CleanupQueued(key) => SameCover(s, DoCleanupQueued(s, key));
      case Receive(edus) => ReceiveKeepsCover(s, edus);
      case TxnOk(i) => OkKeepsCover(s, i);
      case TxnErr(i) => ErrKeepsCover(s, i);
      case Delete => DeleteKeepsCover(s);
      case Read => ReadKeepsCover(s);
      case Clear => ClearKeepsCover(s);
      case Mark => MarkKeepsCover(s);
      case Tick(nanos) => SameCover(s, s.(now := s.now + nanos));
      case Crash => CrashKeepsCover(s);
      case Boot => BootKeepsCover(s);
      case BootRow => BootRowKeepsCover(s);
      case BootDone(order) => BootDoneKeepsCover(s, order);
    }
  }
}
