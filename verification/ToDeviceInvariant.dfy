/** What every step of to-device delivery keeps.
 */
module ToDeviceInvariant {
  import opened ToDevice
  import opened ToDeviceSync

  /** The event reached its device. */
  ghost predicate Got(s: State, e: Slot) {
    exists i :: i in s.received && i < |s.responses| && GotFrom(s, e, i)
  }

  ghost predicate GotFrom(s: State, e: Slot, i: nat)
    requires i < |s.responses|
  {
    e in s.sent && e in s.responses[i].events && s.responses[i].events[e] == s.sent[e] &&
    s.responses[i].device == e.device
  }

  ghost predicate Settled(s: State, e: Slot) {
    Got(s, e) || e in s.erased
  }

  /** Every event is written at most once, under a count drawn for it. */
  ghost predicate DrawnAt(s: State, e: Slot) {
    && (e in s.drawn || e in s.sent ==> 0 < e.count <= s.count)
    && (e in s.drawn ==> e !in s.sent)
    && (e in s.events ==> e in s.sent && s.sent[e] == s.events[e])
    && (e in s.erased || e in s.late ==> e in s.sent)
    && (e in s.erased ==> e !in s.events)
  }

  /** An event written in time. */
  ghost predicate Timely(s: State, e: Slot) {
    e in s.sent && e !in s.late
  }

  /** It is still queued, or reached its device, or went with it. */
  ghost predicate SafeAt(s: State, e: Slot) {
    Timely(s, e) ==> e in s.events || Settled(s, e)
  }

  /** What a request is about to delete has been settled. */
  ghost predicate RequestAt(s: State, id: nat, e: Slot) {
    id in s.requests && Timely(s, e) && e.device == s.requests[id].device && e.count <= s.requests[id].since ==>
      Settled(s, e)
  }

  /** A response vouches for everything up to its token. */
  ghost predicate ResponseAt(s: State, i: nat, e: Slot) {
    i < |s.responses| && Timely(s, e) && Covers(s, i, e) ==> GotFrom(s, e, i) || Settled(s, e)
  }

  /** A late event is missing from a response that covers it. */
  ghost predicate LateAt(s: State, e: Slot) {
    e in s.late ==> exists i: nat :: i < |s.responses| && Covers(s, i, e) && e !in s.responses[i].events
  }

  ghost predicate TokenAt(s: State, i: nat) {
    i < |s.responses| ==>
      && s.responses[i].nextBatch <= s.count
      && forall e :: e in s.responses[i].events ==> e in s.sent
  }

  /** A request acknowledges a token of its own device. */
  ghost predicate BatchAt(s: State, id: nat) {
    id in s.requests ==>
      && s.requests[id].nextBatch <= s.count
      && (s.requests[id].since == 0
          || exists i: nat :: i < |s.responses| && TokenOf(s, i) == (s.requests[id].device, s.requests[id].since))
  }

  ghost predicate Inv(s: State) {
    && (forall e {:trigger DrawnAt(s, e)} :: DrawnAt(s, e))
    && (forall e {:trigger SafeAt(s, e)} :: SafeAt(s, e))
    && (forall e {:trigger LateAt(s, e)} :: LateAt(s, e))
    && (forall id: nat, e {:trigger RequestAt(s, id, e)} :: RequestAt(s, id, e))
    && (forall i: nat, e {:trigger ResponseAt(s, i, e)} :: ResponseAt(s, i, e))
    && (forall i: nat {:trigger TokenAt(s, i)} :: TokenAt(s, i))
    && (forall id: nat {:trigger BatchAt(s, id)} :: BatchAt(s, id))
  }

  /** Sent events, responses and receipts only grow; events already sent keep their content. */
  ghost predicate Grows(s: State, s': State) {
    && s.received <= s'.received
    && s.erased <= s'.erased
    && s.responses <= s'.responses
    && (forall e :: e in s.sent ==> e in s'.sent && s'.sent[e] == s.sent[e])
  }

  lemma SettledStays(s: State, s': State, e: Slot)
    requires Grows(s, s') && Settled(s, e)
    ensures Settled(s', e)
  {
    if Got(s, e) {
      var i :| i in s.received && i < |s.responses| && GotFrom(s, e, i);
      assert s'.responses[i] == s.responses[i];
      assert GotFrom(s', e, i);
    }
  }

  lemma GotFromStays(s: State, s': State, e: Slot, i: nat)
    requires Grows(s, s') && i < |s.responses| && GotFrom(s, e, i)
    ensures i < |s'.responses| && GotFrom(s', e, i)
  {
    assert s'.responses[i] == s.responses[i];
  }

  lemma NextGrows(s: State, a: Action)
    requires Enabled(s, a) && Inv(s)
    ensures Grows(s, Next(s, a))
  {
    if a.Insert? {
      assert DrawnAt(s, a.slot);
    }
  }

  /** Holding a token settles everything up to it. */
  lemma HeldTokenSettles(s: State, d: Device, since: nat, e: Slot)
    requires Inv(s) && Holding(s, d, since) && Timely(s, e) && e.device == d && e.count <= since
    ensures Settled(s, e)
  {
    assert DrawnAt(s, e);
    var i :| i in s.received && i < |s.responses| && TokenOf(s, i) == (d, since);
    assert ResponseAt(s, i, e);
  }

  lemma StepDrawn(s: State, a: Action, e: Slot)
    requires Inv(s) && Enabled(s, a)
    ensures DrawnAt(Next(s, a), e)
  {
    assert DrawnAt(s, e);
  }

  lemma StepSafe(s: State, a: Action, e: Slot)
    requires Inv(s) && Enabled(s, a)
    ensures SafeAt(Next(s, a), e)
  {
    var s' := Next(s, a);
    NextGrows(s, a);
    assert SafeAt(s, e) && DrawnAt(s, e);
    if a.RemoveOne? {
      assert RequestAt(s, a.id, e);
    }
    if Settled(s, e) {
      SettledStays(s, s', e);
    }
  }

  lemma StepRequest(s: State, a: Action, id: nat, e: Slot)
    requires Inv(s) && Enabled(s, a)
    ensures RequestAt(Next(s, a), id, e)
  {
    var s' := Next(s, a);
    NextGrows(s, a);
    assert RequestAt(s, id, e) && BatchAt(s, id) && DrawnAt(s, e);
    if id in s'.requests && Timely(s, e) && e.device == s'.requests[id].device && e.count <= s'.requests[id].since {
      if a.Start? && a.id == id {
        HeldTokenSettles(s, a.device, a.since, e);
      }
      SettledStays(s, s', e);
    } else if a.Insert? && a.slot == e && id in s.requests && s.requests[id].since != 0 {
      var i: nat :| i < |s.responses| && TokenOf(s, i) == (s.requests[id].device, s.requests[id].since);
      assert Covers(s, i, e) <==> e.device == s.requests[id].device && e.count <= s.requests[id].since;
    }
  }

  lemma StepResponse(s: State, a: Action, i: nat, e: Slot)
    requires Inv(s) && Enabled(s, a)
    ensures ResponseAt(Next(s, a), i, e)
  {
    var s' := Next(s, a);
    NextGrows(s, a);
    assert ResponseAt(s, i, e) && SafeAt(s, e) && DrawnAt(s, e);
    if Settled(s, e) {
      SettledStays(s, s', e);
    } else if i < |s.responses| && GotFrom(s, e, i) {
      GotFromStays(s, s', e, i);
    } else if a.Insert? && i < |s.responses| {
      assert Covers(s, i, e) == Covers(s', i, e);
    }
  }

  lemma StepLate(s: State, a: Action, e: Slot)
    requires Inv(s) && Enabled(s, a)
    ensures LateAt(Next(s, a), e)
  {
    var s' := Next(s, a);
    assert LateAt(s, e) && DrawnAt(s, e);
    if e in s.late {
      var i: nat :| i < |s.responses| && Covers(s, i, e) && e !in s.responses[i].events;
      assert Covers(s', i, e) && e !in s'.responses[i].events;
    } else if e in s'.late {
      var i: nat :| i < |s.responses| && Covers(s, i, e);
      assert TokenAt(s, i);
      assert Covers(s', i, e) && e !in s'.responses[i].events;
    }
  }

  lemma StepToken(s: State, a: Action, i: nat)
    requires Inv(s) && Enabled(s, a)
    ensures TokenAt(Next(s, a), i)
  {
    assert TokenAt(s, i);
    if a.Respond? {
      assert BatchAt(s, a.id);
      forall e | e in s.events
        ensures e in s.sent
      {
        assert DrawnAt(s, e);
      }
    }
  }

  lemma StepBatch(s: State, a: Action, id: nat)
    requires Inv(s) && Enabled(s, a)
    ensures BatchAt(Next(s, a), id)
  {
    var s' := Next(s, a);
    assert BatchAt(s, id);
    if id in s'.requests && s'.requests[id].since != 0 {
      var q := s'.requests[id];
      assert exists i: nat :: i < |s.responses| && TokenOf(s, i) == (q.device, q.since);
      var i: nat :| i < |s.responses| && TokenOf(s, i) == (q.device, q.since);
      assert TokenOf(s', i) == (q.device, q.since);
    }
  }

  lemma StepKeepsInv(s: State, a: Action)
    requires Inv(s) && Enabled(s, a)
    ensures Inv(Next(s, a))
  {
    var s' := Next(s, a);
    forall e
      ensures DrawnAt(s', e) && SafeAt(s', e) && LateAt(s', e)
    {
      StepDrawn(s, a, e);
      StepSafe(s, a, e);
      StepLate(s, a, e);
    }
    forall id: nat, e: Slot
      ensures RequestAt(s', id, e)
    {
      StepRequest(s, a, id, e);
    }
    forall i: nat, e: Slot
      ensures ResponseAt(s', i, e)
    {
      StepResponse(s, a, i, e);
    }
    forall i: nat
      ensures TokenAt(s', i)
    {
      StepToken(s, a, i);
    }
    forall id: nat
      ensures BatchAt(s', id)
    {
      StepBatch(s, a, id);
    }
  }

  lemma {:induction false} RunKeepsInv(states: seq<State>, acts: seq<Action>, i: nat)
    requires IsRun(states, acts) && i < |states|
    ensures Inv(states[i])
  {
    if i == 0 {
      assert forall e {:trigger DrawnAt(INIT, e)} :: DrawnAt(INIT, e);
      assert forall e {:trigger SafeAt(INIT, e)} :: SafeAt(INIT, e);
    } else {
      RunKeepsInv(states, acts, i - 1);
      assert StepAt(states, acts, i - 1);
      StepKeepsInv(states[i - 1], acts[i - 1]);
    }
  }
}
