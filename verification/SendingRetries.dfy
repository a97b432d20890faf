/** Backoff over runs, in terms of the run itself: when a status entry was made, how often its
    destination failed since, and how long that took.
 */
module SendingRetries {
  import opened ByteStrings
  import opened SendingKeys
  import opened SendingMachine
  import opened SendingFlight
  import opened SendingBackoff
  import opened SendingTheorems

  /** The step is the failure of a transaction to the destination. */
  ghost predicate FailsFor(s: State, a: Action, kind: OutgoingKind) {
    a.TxnErr? && a.i < |s.futures| && s.futures[a.i].kind == kind
  }

  /** The failures of a destination among the steps from j to n. */
  ghost function Failures(states: seq<State>, acts: seq<Action>, j: nat, n: nat, kind: OutgoingKind): (r: nat)
    requires j <= n <= |acts| && n <= |states|
    decreases n
  {
    if n == j then 0
    else Failures(states, acts, j, n - 1, kind) + if FailsFor(states[n - 1], acts[n - 1], kind) then 1 else 0
  }

  /** The status entry was made by step j and has been there ever since. */
  ghost predicate MadeAt(states: seq<State>, j: nat, n: nat, kind: OutgoingKind) {
    j < n < |states| && kind !in states[j].status && forall i :: j < i <= n ==> kind in states[i].status
  }

  /** The waiting times after failures one to n, in nanoseconds. */
  ghost function WaitingTimes(n: nat): (nanos: nat) {
    if n == 0 then 0
    else WaitingTimes(n - 1) + 1_000_000_000 * (if 30 * n * n > 86400 then 86400 else 30 * n * n)
  }

  lemma {:induction false} WaitingTimesAre(n: nat)
    ensures WaitingTimes(n) == BackoffSum(n)
  {
    if n != 0 {
      WaitingTimesAre(n - 1);
      BackoffIs(n);
    }
  }

  // ------------------------------------------------------------------
  // One step
  // ------------------------------------------------------------------

  /** What a step does to the record of an entry that stays. */
  ghost predicate RecordStays(s: State, a: Action, s': State, kind: OutgoingKind) {
    kind in s.status && kind in s.hist.born && kind in s.hist.fails && kind in s'.status ==>
      && kind in s'.hist.born && s'.hist.born[kind] == s.hist.born[kind]
      && kind in s'.hist.fails
      && s'.hist.fails[kind] == s.hist.fails[kind] + if FailsFor(s, a, kind) then 1 else 0
  }

  /** And to the record of one that is made. */
  ghost predicate RecordStarts(s: State, a: Action, s': State, kind: OutgoingKind) {
    kind !in s.status && kind in s'.status ==>
      && kind in s'.hist.born && s'.hist.born[kind] == s.now
      && kind in s'.hist.fails && s'.hist.fails[kind] == 0
      && !FailsFor(s, a, kind)
  }

  ghost predicate RecordOk(s: State, a: Action, s': State, kind: OutgoingKind) {
    RecordStays(s, a, s', kind) && RecordStarts(s, a, s', kind)
  }

  lemma ReceiveRecords(s: State, edus: seq<Event>, kind: OutgoingKind)
    requires s.channel != []
    ensures RecordOk(s, Receive(edus), DoReceive(s, edus), kind)
  {
  }

  lemma ErrRecords(s: State, i: nat, kind: OutgoingKind)
    requires i < |s.futures|
    ensures RecordOk(s, TxnErr(i), DoErr(s, i), kind)
  {
  }

  lemma ClearRecords(s: State, kind: OutgoingKind)
    requires s.pc.Clearing?
    ensures RecordOk(s, Clear, DoClear(s), kind)
  {
  }

  lemma BootDoneRecords(s: State, order: seq<OutgoingKind>, kind: OutgoingKind)
    requires s.status == map[] && s.pc.Booting? && forall k | k in order :: k in s.pc.acc
    ensures RecordOk(s, BootDone(order), DoBootDone(s, order), kind)
  {
  }

  lemma SameRecords(s: State, a: Action, s': State, kind: OutgoingKind)
    requires SameStatus(s, s') && !a.TxnErr?
    ensures RecordOk(s, a, s', kind)
  {
  }

  lemma StepRecords(s: State, a: Action, kind: OutgoingKind)
    requires FlightOk(s) && Enabled(s, a)
    ensures RecordOk(s, a, Next(s, a), kind)
  {
    match a {
      case Receive(edus) => ReceiveRecords(s, edus, kind);
      case TxnErr(i) => ErrRecords(s, i, kind);
      case Clear => ClearRecords(s, kind);
      case BootDone(order) => BootDoneRecords(s, order, kind);
      case Crash =>
      case _ =>
        if a.TxnOk? || a.Delete? || a.Read? || a.Mark? || a.Boot? || a.BootRow? {
          HandlerSameStatus(s, a);
        } else {
          CallersSameStatus(s, a);
        }
        SameRecords(s, a, Next(s, a), kind);
    }
  }

  // ------------------------------------------------------------------
  // Runs
  // ------------------------------------------------------------------

  lemma RunStepRecords(states: seq<State>, acts: seq<Action>, i: nat, kind: OutgoingKind)
    requires IsRun(states, acts) && i < |acts|
    ensures RecordOk(states[i], acts[i], states[i + 1], kind)
    ensures kind in states[i].status ==> kind in states[i].hist.born && kind in states[i].hist.fails
  {
    Reachable(states, acts, i);
    assert StepAt(states, acts, i);
    StepRecords(states[i], acts[i], kind);
    assert kind in states[i].status ==> EntryOk(states[i], kind, states[i].status[kind]);
  }

  /** The record of an entry says what happened in the run since it was made. */
  lemma {:induction false} EntryInRun(states: seq<State>, acts: seq<Action>, n: nat, kind: OutgoingKind)
    returns (j: nat)
    requires IsRun(states, acts) && n <= |acts| && kind in states[n].status
    ensures MadeAt(states, j, n, kind)
    ensures kind in states[n].hist.born && states[n].hist.born[kind] == states[j].now
    ensures kind in states[n].hist.fails && states[n].hist.fails[kind] == Failures(states, acts, j, n, kind)
  {
    RunStepRecords(states, acts, n - 1, kind);
    if kind in states[n - 1].status {
      j := EntryInRun(states, acts, n - 1, kind);
    } else {
      j := n - 1;
      assert Failures(states, acts, j, n - 1, kind) == 0;
    }
  }

  lemma {:induction false} MadeOnce(states: seq<State>, j: nat, j': nat, n: nat, kind: OutgoingKind)
    requires MadeAt(states, j, n, kind) && MadeAt(states, j', n, kind)
    ensures j == j'
  {
  }

  lemma EntryRecord(states: seq<State>, acts: seq<Action>, j: nat, n: nat, kind: OutgoingKind)
    requires IsRun(states, acts) && n <= |acts| && MadeAt(states, j, n, kind)
    ensures EntryOk(states[n], kind, states[n].status[kind])
    ensures states[n].hist.born[kind] == states[j].now
    ensures states[n].hist.fails[kind] == Failures(states, acts, j, n, kind)
  {
    var j' := EntryInRun(states, acts, n, kind);
    MadeOnce(states, j, j', n, kind);
    Reachable(states, acts, n);
    assert EntryOk(states[n], kind, states[n].status[kind]);
  }

  /** For an entry made by step j: the recorded tries are the failures of its destination since
      then, and all waiting times so far fit into the time since then. */
  lemma BackoffAddsUp(states: seq<State>, acts: seq<Action>, j: nat, n: nat, kind: OutgoingKind)
    requires IsRun(states, acts) && n <= |acts| && MadeAt(states, j, n, kind)
    ensures
      var failures, age := Failures(states, acts, j, n, kind), states[n].now - states[j].now;
      match states[n].status[kind]
      case Running => failures == 0
      case Retrying(tries) => failures == tries >= 1 && age >= WaitingTimes(tries)
      case Failed(tries, at) => failures == tries >= 1 && at <= states[n].now && age >= WaitingTimes(tries - 1)
  {
    EntryRecord(states, acts, j, n, kind);
    match states[n].status[kind] {
      case Running =>
      case Retrying(tries) => WaitingTimesAre(tries);
      case Failed(tries, _) => WaitingTimesAre(tries - 1);
    }
  }

  /** The product of the backoff does not overflow for an entry younger than about two million
      years. */
  lemma NoOverflowInRun(states: seq<State>, acts: seq<Action>, j: nat, n: nat, kind: OutgoingKind)
    requires IsRun(states, acts) && n <= |acts| && MadeAt(states, j, n, kind) && states[n].status[kind].Failed?
    requires states[n].now - states[j].now < 784_150_104 * (86_400 * 1_000_000_000)
    ensures 30 * states[n].status[kind].tries * states[n].status[kind].tries < U64
  {
    EntryRecord(states, acts, j, n, kind);
    Reachable(states, acts, n);
    NoOverflow(states[n], kind);
  }
}
