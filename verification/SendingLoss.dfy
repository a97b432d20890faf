/** Exactly when a queued row can be lost, and what a caller has to avoid. A row is lost only if
    its key was queued before and cleaned up, and is queued again while the handler is half-way
    through marking it active.
 */
module SendingLoss {
  import opened ByteStrings
  import opened SendingKeys
  import opened SendingMachine
  import opened SendingRows
  import opened SendingTheorems
  import opened SendingWitnesses

  // ------------------------------------------------------------------
  // In every reachable state
  // ------------------------------------------------------------------

  /** The run goes on. */
  ghost predicate Continues(states: seq<State>, acts: seq<Action>, states': seq<State>, acts': seq<Action>) {
    IsRun(states', acts') && states <= states' && acts <= acts'
  }

  /** Some continuation of the run does not account for the row its last action queued. */
  ghost predicate CanBeLost(states: seq<State>, acts: seq<Action>)
    requires IsRun(states, acts) && acts != [] && Queues(states, acts, |acts| - 1)
  {
    exists states', acts' :: Continues(states, acts, states', acts') && !Accounted(states', acts', |acts| - 1)
  }

  /** The second half of the marking removes the row from the queue. */
  lemma OrphanRemoved(s: State, kind: OutgoingKind, event: Event)
    requires CountAfter(s, event) < U64 && Orphans(s, NewKey(s, kind, event))
    ensures
      var key, s' := NewKey(s, kind, event), DoQueue(s, kind, event);
      s'.pc.Marking? && key !in DoMark(s').queued && key !in DoMark(s').active
  {
  }

  lemma GoneIsUnaccounted(states: seq<State>, acts: seq<Action>, j: nat)
    requires IsRun(states, acts) && Queues(states, acts, j) && |acts| == j + 2 && acts[j + 1] == Mark
    requires QueuedKey(states, acts, j) !in states[j + 2].queued && QueuedKey(states, acts, j) !in states[j + 2].active
    ensures !Accounted(states, acts, j)
  {
    assert !Delivers(states[j + 1], Mark, Row(acts[j].kind, acts[j].event));
  }

  lemma OrphanCanBeLost(states: seq<State>, acts: seq<Action>) returns (states': seq<State>, acts': seq<Action>)
    requires IsRun(states, acts) && acts != [] && Queues(states, acts, |acts| - 1)
    requires Orphans(states[|acts| - 1], QueuedKey(states, acts, |acts| - 1))
    ensures Continues(states, acts, states', acts') && acts' == acts + [Mark]
    ensures !Accounted(states', acts', |acts| - 1)
  {
    var j := |acts| - 1;
    assert StepAt(states, acts, j);
    OrphanRemoved(states[j], acts[j].kind, acts[j].event);
    states', acts' := Extend(states, acts, Mark);
    GoneIsUnaccounted(states', acts', j);
  }

  /** In every reachable state: the row queued by the last step can be lost if and only if the
      handler is half-way through marking its key active and the first half is gone. */
  lemma CanBeLostIff(states: seq<State>, acts: seq<Action>)
    requires IsRun(states, acts) && acts != [] && Queues(states, acts, |acts| - 1)
    ensures CanBeLost(states, acts) <==> Orphans(states[|acts| - 1], QueuedKey(states, acts, |acts| - 1))
  {
    var j := |acts| - 1;
    if CanBeLost(states, acts) {
      var states', acts' :| Continues(states, acts, states', acts') && !Accounted(states', acts', j);
      assert states'[j] == states[j] && acts'[j] == acts[j];
      NoLoss(states', acts', j);
    }
    if Orphans(states[j], QueuedKey(states, acts, j)) {
      var states', acts' := OrphanCanBeLost(states, acts);
      assert Continues(states, acts, states', acts');
    }
  }

  // ------------------------------------------------------------------
  // What a caller can see
  // ------------------------------------------------------------------

  /** Some action before n queues a row under this key. */
  ghost predicate QueuedBefore(states: seq<State>, acts: seq<Action>, n: nat, key: Bytes) {
    exists i: nat :: i < n && Queues(states, acts, i) && QueuedKey(states, acts, i) == key
  }

  lemma IssuedStep(s: State, a: Action, k: Bytes)
    requires RowsOk(s) && Enabled(s, a) && k in Next(s, a).hist.issued && k !in s.hist.issued
    ensures a.Queue? && k == NewKey(s, a.kind, a.event)
  {
    if !a.Queue? {
      StepKeepsPlaces(s, a);
    }
  }

  lemma {:induction false} IssuedWasQueued(states: seq<State>, acts: seq<Action>, n: nat, k: Bytes)
    requires IsRun(states, acts) && n <= |acts| && k in states[n].hist.issued
    ensures QueuedBefore(states, acts, n, k)
  {
    Reachable(states, acts, n - 1);
    assert StepAt(states, acts, n - 1);
    if k in states[n - 1].hist.issued {
      IssuedWasQueued(states, acts, n - 1, k);
    } else {
      IssuedStep(states[n - 1], acts[n - 1], k);
      assert Queues(states, acts, n - 1);
    }
  }

  lemma OrphansAreIssued(s: State, key: Bytes)
    requires RowsOk(s) && Orphans(s, key)
    ensures key in s.hist.issued && s.hist.issued[key].kind == s.pc.kind
  {
    assert Known(s, s.pc.items[s.pc.next].key, Row(s.pc.kind, s.pc.items[s.pc.next].event));
  }

  lemma CleanedRow(s: State, a: Action, k: Bytes)
    requires RowsOk(s) && Enabled(s, a) && Cleans(a, k)
    ensures k in s.hist.issued && s.hist.issued[k].kind.Appservice?
  {
    if a.CleanupActive? {
      assert Known(s, k, s.active[k]);
    } else {
      assert Known(s, k, s.queued[k]);
    }
  }

  /** What was cleaned up is an appservice's, and stays known as such. */
  lemma {:induction false} CleanedIsAppservice(states: seq<State>, acts: seq<Action>, l: nat, n: nat, k: Bytes)
    requires IsRun(states, acts) && l <= n <= |acts| && l < |acts| && Cleans(acts[l], k)
    ensures k in states[n].hist.issued && states[n].hist.issued[k].kind.Appservice?
    decreases n
  {
    if l == n {
      Reachable(states, acts, l);
      assert StepAt(states, acts, l);
      CleanedRow(states[l], acts[l], k);
    } else {
      CleanedIsAppservice(states, acts, l, n - 1, k);
      Reachable(states, acts, n - 1);
      assert StepAt(states, acts, n - 1);
      RowStep(states[n - 1], acts[n - 1], k);
    }
  }

  /** The exception needs a row queued before under the same key, and a cleanup of it: it
      concerns only a PDU that is queued to an appservice twice. */
  lemma OrphansNeed(states: seq<State>, acts: seq<Action>, j: nat)
    requires IsRun(states, acts) && Queues(states, acts, j) && Orphans(states[j], QueuedKey(states, acts, j))
    ensures QueuedBefore(states, acts, j, QueuedKey(states, acts, j))
    ensures exists l :: 0 <= l < j && Cleans(acts[l], QueuedKey(states, acts, j))
    ensures acts[j].kind.Appservice?
  {
    var key := QueuedKey(states, acts, j);
    Reachable(states, acts, j);
    assert StepAt(states, acts, j);
    OrphansAreIssued(states[j], key);
    IssuedWasQueued(states, acts, j, key);
    OrphansWereCleaned(states, acts, j, key);
    QueueKeepsKnown(states[j], acts[j].kind, acts[j].event);
    var l :| 0 <= l < j && Cleans(acts[l], key);
    CleanedIsAppservice(states, acts, l, j, key);
  }

  /** No loss for what callers do: a row to a server or push gateway, and any row whose key was
      not queued before or not cleaned up before, is accounted for in every run. */
  lemma NoLossForCallers(states: seq<State>, acts: seq<Action>, j: nat)
    requires IsRun(states, acts) && Queues(states, acts, j)
    requires
      var key := QueuedKey(states, acts, j);
      || !acts[j].kind.Appservice?
      || !QueuedBefore(states, acts, j, key)
      || !(exists l :: 0 <= l < j && Cleans(acts[l], key))
    ensures Accounted(states, acts, j)
  {
    NoLoss(states, acts, j);
    if Orphans(states[j], QueuedKey(states, acts, j)) {
      OrphansNeed(states, acts, j);
      assert false;
    }
  }
}
