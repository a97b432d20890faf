/** Backoff over runs: the recorded number of tries counts the failures since the status
    entry was created, and the waiting times add up.
 */
module SendingBackoff {
  import opened ByteStrings
  import opened SendingKeys
  import opened SendingMachine
  import opened SendingFlight

  /** The waiting times after failures one to n. */
  function BackoffSum(n: nat): (nanos: nat) {
    if n == 0 then 0 else BackoffSum(n - 1) + Backoff(n)
  }

  ghost predicate EntryOk(s: State, kind: OutgoingKind, e: Status) {
    && kind in s.hist.born && kind in s.hist.fails
    && s.hist.born[kind] <= s.now
    && match e
       case Running => s.hist.fails[kind] == 0
       case Retrying(n) =>
         n >= 1 && s.hist.fails[kind] == n && s.hist.born[kind] + BackoffSum(n) <= s.now
       case Failed(n, at) =>
         n >= 1 && s.hist.fails[kind] == n && at <= s.now && s.hist.born[kind] + BackoffSum(n - 1) <= at
  }

  ghost predicate BackoffOk(s: State) {
    forall kind :: kind in s.status ==> EntryOk(s, kind, s.status[kind])
  }

  lemma ReceiveKeepsBackoff(s: State, edus: seq<Event>)
    requires BackoffOk(s) && s.channel != []
    ensures BackoffOk(DoReceive(s, edus))
  {
    var s' := DoReceive(s, edus);
    forall kind | kind in s'.status
      ensures EntryOk(s', kind, s'.status[kind])
    {
      if kind in s.status {
        assert EntryOk(s, kind, s.status[kind]);
      }
    }
  }

  lemma ErrKeepsBackoff(s: State, i: nat)
    requires BackoffOk(s) && FlightOk(s) && s.pc.Idle? && i < |s.futures|
    ensures BackoffOk(DoErr(s, i))
  {
  }

  lemma ClearKeepsBackoff(s: State)
    requires BackoffOk(s) && s.pc.Clearing?
    ensures BackoffOk(DoClear(s))
  {
  }

  /** Time may pass and anything else may happen while statuses stay as they are. */
  lemma SameBackoff(s: State, s': State)
    requires BackoffOk(s)
    requires s'.status == s.status && s'.hist.born == s.hist.born && s'.hist.fails == s.hist.fails
    requires s'.now >= s.now
    ensures BackoffOk(s')
  {
  }

  ghost predicate SameStatus(s: State, s': State) {
    && s'.status == s.status && s'.hist.born == s.hist.born && s'.hist.fails == s.hist.fails
    && s'.now >= s.now && Starting(s'.pc) == Starting(s.pc)
  }

  lemma CallersSameStatus(s: State, a: Action)
    requires Enabled(s, a)
    requires a.Queue? || a.Send? || a.CleanupActive? || a.CleanupQueued? || a.Tick?
    ensures SameStatus(s, Next(s, a))
  {
  }

  lemma OkSameStatus(s: State, i: nat)
    requires s.pc.Idle? && i < |s.futures|
    ensures SameStatus(s, DoOk(s, i))
  {
  }

  lemma DeleteSameStatus(s: State)
    requires s.pc.Deleting?
    ensures SameStatus(s, DoDelete(s))
  {
  }

  lemma ReadSameStatus(s: State)
    requires s.pc.Reading?
    ensures SameStatus(s, DoRead(s))
  {
  }

  lemma MarkSameStatus(s: State)
    requires s.pc.Marking?
    ensures SameStatus(s, DoMark(s))
  {
  }

  lemma BootSameStatus(s: State)
    ensures s.pc.BootStart? ==> SameStatus(s, DoBootStart(s))
    ensures s.pc.Booting? && s.pc.next < |s.pc.rows| ==> SameStatus(s, DoBootRow(s))
  {
  }

  lemma HandlerSameStatus(s: State, a: Action)
    requires Enabled(s, a)
    requires a.TxnOk? || a.Delete? || a.Read? || a.Mark? || a.Boot? || a.BootRow?
    ensures SameStatus(s, Next(s, a))
  {
    match a {
      case TxnOk(i) => OkSameStatus(s, i);
      case Delete => DeleteSameStatus(s);
      case Read => ReadSameStatus(s);
      case Mark => MarkSameStatus(s);
      case Boot => BootSameStatus(s);
      case BootRow => BootSameStatus(s);
    }
  }

  lemma StepKeepsBackoff(s: State, a: Action)
    requires BackoffOk(s) && FlightOk(s) && Enabled(s, a)
    ensures BackoffOk(Next(s, a))
  {
    match a {
      case Receive(edus) => ReceiveKeepsBackoff(s, edus);
      case TxnErr(i) => ErrKeepsBackoff(s, i);
      case Clear => ClearKeepsBackoff(s);
      case Crash => assert BackoffOk(DoCrash(s));
      case BootDone(order) => assert BackoffOk(DoBootDone(s, order));
      case _ =>
        if a.TxnOk? || a.Delete? || a.Read? || a.Mark? || a.Boot? || a.BootRow? {
          HandlerSameStatus(s, a);
        } else {
          CallersSameStatus(s, a);
        }
        SameBackoff(s, Next(s, a));
    }
  }

  // ------------------------------------------------------------------
  // Waiting
  // ------------------------------------------------------------------

  /** After failure n at time `at`, either nothing was sent or the waiting time has passed. */
  ghost predicate Waited(s: State, kind: OutgoingKind, n: nat, at: nat) {
    (kind in s.status && s.status[kind] == Failed(n, at)) || s.now >= at + Backoff(n)
  }

  lemma ReceiveWaits(s: State, edus: seq<Event>, kind: OutgoingKind, n: nat, at: nat)
    requires s.pc.Idle? && s.channel != [] && Waited(s, kind, n, at)
    ensures Waited(DoReceive(s, edus), kind, n, at)
  {
  }

  lemma ErrWaits(s: State, i: nat, kind: OutgoingKind, n: nat, at: nat)
    requires FlightOk(s) && s.pc.Idle? && i < |s.futures| && Waited(s, kind, n, at)
    ensures Waited(DoErr(s, i), kind, n, at)
  {
  }

  /** A status is only dropped for a destination that was sending. */
  lemma ClearWaits(s: State, kind: OutgoingKind, n: nat, at: nat)
    requires FlightOk(s) && s.pc.Clearing? && Waited(s, kind, n, at)
    ensures Waited(DoClear(s), kind, n, at)
  {
    assert Sending(s, s.pc.kind);
  }

  lemma StepWaits(s: State, a: Action, kind: OutgoingKind, n: nat, at: nat)
    requires FlightOk(s) && Enabled(s, a) && !a.Crash? && !Starting(s.pc)
    requires Waited(s, kind, n, at)
    ensures Waited(Next(s, a), kind, n, at) && !Starting(Next(s, a).pc)
  {
    match a {
      case Receive(edus) => ReceiveWaits(s, edus, kind, n, at);
      case TxnErr(i) => ErrWaits(s, i, kind, n, at);
      case Clear => ClearWaits(s, kind, n, at);
      case _ =>
        if a.TxnOk? || a.Delete? || a.Read? || a.Mark? {
          HandlerSameStatus(s, a);
        } else {
          CallersSameStatus(s, a);
        }
    }
  }

  // ------------------------------------------------------------------
  // The product of the two u32 multiplications
  // ------------------------------------------------------------------

  /** The largest number of tries for which `Duration::from_secs(30) * tries * tries` fits. */
  const MAX_TRIES: nat := 784_150_157

  /** The seconds fit in a u64 exactly up to that many tries. */
  lemma ProductFits(n: nat)
    ensures 30 * n * n < U64 <==> n <= MAX_TRIES
  {
  }

  lemma DayAfter54(n: nat)
    requires n >= 54
    ensures BackoffSecs(n) == DAY
  {
  }

  /** From the 54th failure on, every further one takes a day. */
  lemma {:induction false} SumGrows(n: nat)
    requires n >= 53
    ensures BackoffSum(n) >= (n - 53) * (DAY * NANOS)
  {
    if n > 53 {
      SumGrows(n - 1);
      DayAfter54(n);
      assert BackoffSum(n) == BackoffSum(n - 1) + DAY * NANOS;
    }
  }

  /** A destination whose entry is younger than about two million years cannot overflow. */
  lemma NoOverflow(s: State, kind: OutgoingKind)
    requires BackoffOk(s) && kind in s.status && s.status[kind].Failed?
    requires s.now - s.hist.born[kind] < (MAX_TRIES - 53) * (DAY * NANOS)
    ensures s.status[kind].tries <= MAX_TRIES
    ensures 30 * s.status[kind].tries * s.status[kind].tries < U64
  {
    var n := s.status[kind].tries;
    assert EntryOk(s, kind, s.status[kind]);
    ProductFits(n);
    if n >= 54 {
      SumGrows(n - 1);
      assert (n - 54) * (DAY * NANOS) < (MAX_TRIES - 53) * (DAY * NANOS);
    }
  }
}
