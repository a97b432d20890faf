/** What every run of the sending protocol keeps: the invariants together, and the statements
    a user of the service relies on, about runs from empty tables with any interleaving of
    callers, handler, cleanups, crashes and restarts.
 */
module SendingTheorems {
  import opened ByteStrings
  import opened SendingKeys
  import opened SendingMachine
  import opened SendingRows
  import opened SendingFlight
  import opened SendingBounds
  import opened SendingDelivery
  import opened SendingWoken
  import opened SendingBackoff

  ghost predicate Inv(s: State) {
    && RowsOk(s)
    && FlightOk(s)
    && CoverOk(s)
    && BoundOk(s)
    && NoLossOk(s)
    && WokenOk(s)
    && BackoffOk(s)
    && KindsOk(s)
  }

  lemma InitInv()
    ensures Inv(INIT)
  {
  }

  lemma StepKeepsDelivery(s: State, a: Action)
    requires RowsOk(s) && CoverOk(s) && BoundOk(s) && NoLossOk(s) && Enabled(s, a)
    ensures NoLossOk(Next(s, a))
  {
    if a.Queue? {
      QueueKeepsKnown(s, a.kind, a.event);
      QueueKeepsNoLoss(s, a.kind, a.event);
    } else {
      StepKeepsNoLoss(s, a);
    }
  }

  lemma StepKeepsInv(s: State, a: Action)
    requires Inv(s) && Enabled(s, a)
    ensures Inv(Next(s, a))
  {
    StepKeepsRows(s, a);
    StepKeepsFlight(s, a);
    StepKeepsCover(s, a);
    StepKeepsBound(s, a);
    StepKeepsDelivery(s, a);
    StepKeepsWoken(s, a);
    StepKeepsBackoff(s, a);
    StepKeepsKinds(s, a);
  }

  /** Every reachable state satisfies every invariant. */
  lemma {:induction false} Reachable(states: seq<State>, acts: seq<Action>, n: nat)
    requires IsRun(states, acts) && n <= |acts|
    ensures Inv(states[n])
  {
    if n == 0 {
      InitInv();
    } else {
      Reachable(states, acts, n - 1);
      assert StepAt(states, acts, n - 1);
      StepKeepsInv(states[n - 1], acts[n - 1]);
    }
  }

  // ------------------------------------------------------------------
  // No loss
  // ------------------------------------------------------------------

  /** The action is the success of a transaction to this destination that carried this event. */
  ghost predicate Delivers(s: State, a: Action, row: Row) {
    a.TxnOk? && a.i < |s.futures| && s.futures[a.i].kind == row.kind && row.event in s.futures[a.i].events
  }

  ghost predicate Cleans(a: Action, key: Bytes) {
    a == CleanupActive(key) || a == CleanupQueued(key)
  }

  /** A row stops being outstanding only by the success of a transaction that carried it. */
  lemma OkOutstanding(s: State, i: nat, k: Bytes)
    requires PlacesOk(s) && i < |s.futures| && k in s.hist.outstanding && k !in DoOk(s, i).hist.outstanding
    ensures Delivers(s, TxnOk(i), s.hist.issued[k])
  {
  }

  /** What one step does to the record of one row. */
  lemma RowStep(s: State, a: Action, k: Bytes)
    requires RowsOk(s) && Enabled(s, a) && k in s.hist.issued
    ensures k in Next(s, a).hist.issued && Next(s, a).hist.issued[k] == s.hist.issued[k]
  {
    if a.Queue? {
      QueueKeepsKnown(s, a.kind, a.event);
    } else {
      StepKeepsPlaces(s, a);
    }
  }

  ghost predicate SameRecord(s: State, s': State) {
    s'.hist.outstanding == s.hist.outstanding && s'.hist.cleaned == s.hist.cleaned
  }

  lemma ReceiveRecord(s: State, edus: seq<Event>)
    requires s.channel != []
    ensures SameRecord(s, DoReceive(s, edus))
  {
  }

  lemma ReadRecord(s: State)
    requires s.pc.Reading?
    ensures SameRecord(s, DoRead(s))
  {
  }

  lemma MarkRecord(s: State)
    requires s.pc.Marking?
    ensures SameRecord(s, DoMark(s))
  {
  }

  lemma BootRowRecord(s: State)
    requires s.pc.Booting? && s.pc.next < |s.pc.rows|
    ensures SameRecord(s, DoBootRow(s))
  {
  }

  lemma ErrRecord(s: State, i: nat)
    requires i < |s.futures|
    ensures SameRecord(s, DoErr(s, i))
  {
  }

  lemma DeleteRecord(s: State)
    requires s.pc.Deleting?
    ensures SameRecord(s, DoDelete(s))
  {
  }

  lemma BootDoneRecord(s: State, order: seq<OutgoingKind>)
    requires s.pc.Booting? && forall k | k in order :: k in s.pc.acc
    ensures SameRecord(s, DoBootDone(s, order))
  {
  }

  lemma QuietRecord(s: State, a: Action)
    requires Enabled(s, a)
    requires a.Send? || a.Clear? || a.Tick? || a.Crash? || a.Boot?
    ensures SameRecord(s, Next(s, a))
  {
  }

  lemma StepRecord(s: State, a: Action)
    requires Enabled(s, a) && !a.TxnOk? && !a.Queue? && !a.CleanupActive? && !a.CleanupQueued?
    ensures SameRecord(s, Next(s, a))
  {
    match a {
      case Receive(edus) => ReceiveRecord(s, edus);
      case Read => ReadRecord(s);
      case Mark => MarkRecord(s);
      case BootRow => BootRowRecord(s);
      case TxnErr(i) => ErrRecord(s, i);
      case Delete => DeleteRecord(s);
      case BootDone(order) => BootDoneRecord(s, order);
      case _ => QuietRecord(s, a);
    }
  }

  lemma OutstandingStep(s: State, a: Action, k: Bytes)
    requires RowsOk(s) && Enabled(s, a) && k in s.hist.outstanding
    ensures k in Next(s, a).hist.outstanding || Delivers(s, a, s.hist.issued[k])
  {
    if a.TxnOk? {
      if k !in DoOk(s, a.i).hist.outstanding {
        OkOutstanding(s, a.i, k);
      }
    } else if !a.Queue? && !a.CleanupActive? && !a.CleanupQueued? {
      StepRecord(s, a);
    }
  }

  lemma CleanedStep(s: State, a: Action, k: Bytes)
    requires PlacesOk(s) && Enabled(s, a) && k in Next(s, a).hist.cleaned && k !in s.hist.cleaned
    ensures Cleans(a, k) && k in s.hist.issued && s.hist.issued[k].kind.Appservice?
  {
    if !a.TxnOk? && !a.Queue? && !a.CleanupActive? && !a.CleanupQueued? {
      StepRecord(s, a);
    }
  }

  /** A cleanup removed the row at some step from `j` on; only appservice rows are cleaned up. */
  ghost predicate CleanedSince(acts: seq<Action>, j: nat, key: Bytes, row: Row) {
    row.kind.Appservice? && exists l :: j <= l < |acts| && Cleans(acts[l], key)
  }

  ghost predicate DeliveredSince(states: seq<State>, acts: seq<Action>, j: nat, n: nat, row: Row)
    requires IsRun(states, acts) && n <= |acts|
  {
    exists l :: j <= l < n && Delivers(states[l], acts[l], row)
  }

  /** Either the row had been cleaned up before, or this step does it. */
  lemma CleanedRunStep(s: State, a: Action, s': State, k: Bytes)
    requires RowsOk(s) && Step(s, a, s') && k in s'.hist.cleaned
    ensures k in s.hist.cleaned || (Cleans(a, k) && k in s.hist.issued && s.hist.issued[k].kind.Appservice?)
    ensures k in s.hist.issued ==> Known(s', k, s.hist.issued[k])
  {
    if k !in s.hist.cleaned {
      CleanedStep(s, a, k);
    }
    if k in s.hist.issued {
      RowStep(s, a, k);
    }
  }

  ghost predicate StepOk(s: State, a: Action, s': State) {
    RowsOk(s) && Step(s, a, s')
  }

  /** A row counted as cleaned at the end was so at step j, or a cleanup since then removed it. */
  lemma {:induction false} CleanedInRun(states: seq<State>, acts: seq<Action>, j: nat, n: nat, k: Bytes)
    requires |states| == |acts| + 1 && j <= n <= |acts|
    requires forall i :: j <= i < n ==> StepOk(states[i], acts[i], states[i + 1])
    requires k in states[n].hist.cleaned && k !in states[j].hist.cleaned
    ensures k in states[n].hist.issued && CleanedSince(acts, j, k, states[n].hist.issued[k])
    decreases n
  {
    var s, a := states[n - 1], acts[n - 1];
    assert StepOk(s, a, states[n - 1 + 1]);
    CleanedRunStep(s, a, states[n], k);
    if k in s.hist.cleaned {
      CleanedInRun(states, acts, j, n - 1, k);
    } else {
      assert Cleans(acts[n - 1], k);
    }
  }

  /** From the moment a row is queued it is outstanding until a transaction delivers it. */
  lemma {:induction false} OutstandingInRun(states: seq<State>, acts: seq<Action>, j: nat, n: nat, k: Bytes, row: Row)
    requires IsRun(states, acts) && j <= n <= |acts|
    requires k in states[j].hist.outstanding && Known(states[j], k, row)
    ensures Known(states[n], k, row)
    ensures k in states[n].hist.outstanding || DeliveredSince(states, acts, j, n, row)
    decreases n
  {
    if j < n {
      var s := states[n - 1];
      OutstandingInRun(states, acts, j, n - 1, k, row);
      Reachable(states, acts, n - 1);
      assert StepAt(states, acts, n - 1);
      RowStep(s, acts[n - 1], k);
      if k in s.hist.outstanding {
        OutstandingStep(s, acts[n - 1], k);
      }
    }
  }

  /** The j-th action queues a row. */
  ghost predicate Queues(states: seq<State>, acts: seq<Action>, j: nat) {
    j < |acts| && j < |states| && acts[j].Queue? && CountAfter(states[j], acts[j].event) < U64
  }

  ghost function QueuedKey(states: seq<State>, acts: seq<Action>, j: nat): (key: Bytes)
    requires Queues(states, acts, j)
  {
    NewKey(states[j], acts[j].kind, acts[j].event)
  }

  /** At the end of the run the row queued by the j-th action is still in the queue or active, or
      a transaction to its destination that carried its event has succeeded since, or an
      appservice cleanup has removed it since. */
  ghost predicate Accounted(states: seq<State>, acts: seq<Action>, j: nat)
    requires IsRun(states, acts) && Queues(states, acts, j)
  {
    var key, row, s := QueuedKey(states, acts, j), Row(acts[j].kind, acts[j].event), states[|acts|];
    || (key in s.queued && s.queued[key] == row)
    || (key in s.active && s.active[key] == row)
    || DeliveredSince(states, acts, j + 1, |acts|, row)
    || CleanedSince(acts, j + 1, key, row)
  }

  /** No loss: every row queued in any run is accounted for. The one exception is a row queued
      again while the handler is half-way through marking it active and a cleanup has already
      removed the first half. */
  lemma NoLoss(states: seq<State>, acts: seq<Action>, j: nat)
    requires IsRun(states, acts) && Queues(states, acts, j)
    ensures Accounted(states, acts, j) || Orphans(states[j], QueuedKey(states, acts, j))
  {
    var key := QueuedKey(states, acts, j);
    var row := Row(acts[j].kind, acts[j].event);
    var n := |acts|;
    var s := states[n];
    assert StepAt(states, acts, j);
    Reachable(states, acts, n);
    OutstandingInRun(states, acts, j + 1, n, key, row);
    if !Orphans(states[j], key) {
      if key in s.hist.cleaned {
        forall i | j + 1 <= i < n
          ensures StepOk(states[i], acts[i], states[i + 1])
        {
          Reachable(states, acts, i);
          assert StepAt(states, acts, i);
        }
        CleanedInRun(states, acts, j + 1, n, key);
      } else if key in s.hist.outstanding {
        assert Owed(s, key);
      }
    }
  }

  /** A row that was never cleaned up is not excepted: half-way through marking it is active. */
  lemma OrphansWereCleaned(states: seq<State>, acts: seq<Action>, j: nat, key: Bytes)
    requires IsRun(states, acts) && j <= |acts| && Orphans(states[j], key)
    ensures exists l :: 0 <= l < j && Cleans(acts[l], key)
  {
    Reachable(states, acts, j);
    assert key in states[j].hist.cleaned;
    CleanedBefore(states, acts, j, key);
  }

  lemma {:induction false} CleanedBefore(states: seq<State>, acts: seq<Action>, n: nat, k: Bytes)
    requires IsRun(states, acts) && n <= |acts| && k in states[n].hist.cleaned
    ensures exists l :: 0 <= l < n && Cleans(acts[l], k)
  {
    Reachable(states, acts, n - 1);
    assert StepAt(states, acts, n - 1);
    CleanedRunStep(states[n - 1], acts[n - 1], states[n], k);
    if k in states[n - 1].hist.cleaned {
      CleanedBefore(states, acts, n - 1, k);
    }
  }

  // ------------------------------------------------------------------
  // Single flight, bounded batches
  // ------------------------------------------------------------------

  /** Single flight, in every reachable state: a destination never has two transactions under
      way, nor one while the handler is at work on it; from the end of the start on it has one
      of the two exactly when its status is Running or Retrying; and then every active row
      belongs to a destination with a status and is carried by the transaction under way. */
  lemma SingleFlight(states: seq<State>, acts: seq<Action>, n: nat)
    requires IsRun(states, acts) && n <= |acts|
    ensures var s := states[n];
            && OneEach(s.futures)
            && (forall i :: 0 <= i < |s.futures| ==> Busy(s.pc) != Some(s.futures[i].kind))
            && (Starting(s.pc) ==> s.futures == [] && s.status == map[])
            && (!Starting(s.pc) ==>
                  && (forall kind :: Sending(s, kind) <==> Flying(s.futures, kind) || Busy(s.pc) == Some(kind))
                  && (forall k :: k in s.active ==> s.active[k].kind in s.status)
                  && (forall k, i :: k in s.active && 0 <= i < |s.futures| && s.futures[i].kind == s.active[k].kind ==>
                        s.active[k].event in s.futures[i].events))
  {
    Reachable(states, acts, n);
    var s := states[n];
    forall k | k in s.active
      ensures RowCovered(s, k, s.active[k])
    {
    }
  }

  /** A transaction that fails was running or retrying: the arm that logs the contrary is dead. */
  lemma FailureWasSending(states: seq<State>, acts: seq<Action>, n: nat)
    requires IsRun(states, acts) && n < |acts| && acts[n].TxnErr? && acts[n].i < |states[n].futures|
    ensures Sending(states[n], states[n].futures[acts[n].i].kind)
  {
    Reachable(states, acts, n);
    assert StepAt(states, acts, n);
    FailureWasRunning(states[n], acts[n].i);
  }

  /** Bounded batches: never more than thirty active rows for a destination, never more than
      thirty PDUs in a transaction, and the startup loop never drops a row. */
  lemma BoundedBatches(states: seq<State>, acts: seq<Action>, n: nat)
    requires IsRun(states, acts) && n <= |acts|
    ensures var s := states[n];
            && (forall kind :: |KeysOf(s.active, kind)| <= 30)
            && (forall i :: 0 <= i < |s.futures| ==> |PduPlaces(s.futures[i].events)| <= 30)
            && (s.pc.Booting? && s.pc.next < |s.pc.rows| ==> DoBootRow(s).active == s.active)
  {
    Reachable(states, acts, n);
    var s := states[n];
    forall i | 0 <= i < |s.futures|
      ensures |PduPlaces(s.futures[i].events)| <= 30
    {
      PduCountIs(s.futures[i].events);
    }
    if s.pc.Booting? && s.pc.next < |s.pc.rows| {
      NothingDropped(s);
    }
  }

  // ------------------------------------------------------------------
  // Backoff
  // ------------------------------------------------------------------

  lemma {:induction false} WaitsInRun(states: seq<State>, acts: seq<Action>, j: nat, m: nat,
                                      kind: OutgoingKind, n: nat, at: nat)
    requires IsRun(states, acts) && j <= m <= |acts|
    requires forall i :: j <= i < m ==> !acts[i].Crash?
    requires kind in states[j].status && states[j].status[kind] == Failed(n, at)
    ensures Waited(states[m], kind, n, at) && !Starting(states[m].pc)
    decreases m
  {
    if j == m {
      Reachable(states, acts, m);
    } else {
      WaitsInRun(states, acts, j, m - 1, kind, n, at);
      Reachable(states, acts, m - 1);
      assert StepAt(states, acts, m - 1);
      StepWaits(states[m - 1], acts[m - 1], kind, n, at);
    }
  }

  lemma NotFlyingUnlessSending(s: State, kind: OutgoingKind)
    requires FlightOk(s) && !Starting(s.pc) && !Sending(s, kind)
    ensures !Flying(s.futures, kind) && Busy(s.pc) != Some(kind)
  {
  }

  /** Backoff: after the failure that made the status Failed(n, at), no later state of the
      process has a transaction to that destination under way or in preparation before the
      waiting time of min(30 n^2, 86400) seconds is over. */
  lemma RetryWaits(states: seq<State>, acts: seq<Action>, j: nat, m: nat, kind: OutgoingKind, n: nat, at: nat)
    requires IsRun(states, acts) && j <= m <= |acts|
    requires forall i :: j <= i < m ==> !acts[i].Crash?
    requires kind in states[j].status && states[j].status[kind] == Failed(n, at)
    requires states[m].now < at + 1_000_000_000 * (if 30 * n * n > 86400 then 86400 else 30 * n * n)
    ensures kind in states[m].status && states[m].status[kind] == Failed(n, at)
    ensures !Flying(states[m].futures, kind) && Busy(states[m].pc) != Some(kind)
  {
    BackoffIs(n);
    WaitsInRun(states, acts, j, m, kind, n, at);
    Reachable(states, acts, m);
    NotFlyingUnlessSending(states[m], kind);
  }
}
