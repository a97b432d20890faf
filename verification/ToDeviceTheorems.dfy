/** To-device delivery over every run: which events reach their device, and exactly which can fail to.
 */
module ToDeviceTheorems {
  import opened ByteStrings
  import opened ToDevice
  import opened ToDeviceSync
  import opened ToDeviceInvariant

  // ------------------------------------------------------------------
  // What a run says about an event
  // ------------------------------------------------------------------

  /** Step k writes the event's row, before any response of its device covers its count. */
  ghost predicate InTime(states: seq<State>, acts: seq<Action>, k: nat, e: Slot, content: Bytes) {
    k < |acts| && k < |states| && acts[k] == Insert(e, content) && !Covered(states[k], e)
  }

  /** The device received a response that holds the event. */
  ghost predicate Reached(s: State, e: Slot, content: Bytes) {
    exists i :: i in s.received && i < |s.responses| && Holds(s.responses[i], e, content)
  }

  ghost predicate Holds(r: Response, e: Slot, content: Bytes) {
    r.device == e.device && e in r.events && r.events[e] == content
  }

  ghost predicate RemovedSince(acts: seq<Action>, j: nat, n: nat, d: Device) {
    exists l :: j <= l < n && l < |acts| && acts[l] == RemoveDevice(d)
  }

  /** The event is written once, with its content, and was late exactly if it was covered then. */
  ghost predicate Written(s: State, e: Slot, content: Bytes, covered: bool) {
    e in s.sent && s.sent[e] == content && (e in s.late <==> covered)
  }

  lemma InsertWrites(s: State, e: Slot, content: Bytes)
    requires Inv(s) && Enabled(s, Insert(e, content))
    ensures Written(Next(s, Insert(e, content)), e, content, Covered(s, e))
    ensures e !in Next(s, Insert(e, content)).erased
  {
    assert DrawnAt(s, e);
  }

  lemma WrittenStep(s: State, a: Action, e: Slot, content: Bytes, covered: bool)
    requires Inv(s) && Enabled(s, a) && Written(s, e, content, covered)
    ensures Written(Next(s, a), e, content, covered)
    ensures e in Next(s, a).erased ==> e in s.erased || a == RemoveDevice(e.device)
  {
    assert DrawnAt(s, e);
  }

  lemma {:induction false} WrittenInRun(states: seq<State>, acts: seq<Action>, k: nat, n: nat, e: Slot, content: Bytes)
    requires IsRun(states, acts) && k < n <= |acts| && acts[k] == Insert(e, content)
    ensures Written(states[n], e, content, Covered(states[k], e))
    ensures e in states[n].erased ==> RemovedSince(acts, k + 1, n, e.device)
    decreases n
  {
    RunKeepsInv(states, acts, n - 1);
    assert StepAt(states, acts, n - 1);
    if n == k + 1 {
      InsertWrites(states[k], e, content);
    } else {
      WrittenInRun(states, acts, k, n - 1, e, content);
      WrittenStep(states[n - 1], acts[n - 1], e, content, Covered(states[k], e));
    }
  }

  lemma GotIsReached(s: State, e: Slot, content: Bytes)
    requires e in s.sent && s.sent[e] == content
    ensures Got(s, e) <==> Reached(s, e, content)
  {
    if Got(s, e) {
      var i :| i in s.received && i < |s.responses| && GotFrom(s, e, i);
      assert Holds(s.responses[i], e, content);
    }
    if Reached(s, e, content) {
      var i :| i in s.received && i < |s.responses| && Holds(s.responses[i], e, content);
      assert GotFrom(s, e, i);
    }
  }

  // ------------------------------------------------------------------
  // Delivery
  // ------------------------------------------------------------------

  /** At least once: an event that was written in time is still queued, unless its device
      received a response that holds it or was removed since. */
  lemma AtLeastOnce(states: seq<State>, acts: seq<Action>, k: nat, n: nat, e: Slot, content: Bytes)
    requires IsRun(states, acts) && InTime(states, acts, k, e, content) && k < n <= |acts|
    ensures
      || (e in states[n].events && states[n].events[e] == content)
      || Reached(states[n], e, content)
      || RemovedSince(acts, k + 1, n, e.device)
  {
    WrittenInRun(states, acts, k, n, e, content);
    RunKeepsInv(states, acts, n);
    assert SafeAt(states[n], e) && DrawnAt(states[n], e);
    GotIsReached(states[n], e, content);
  }

  /** No request deletes an event written in time before a response with it was received. */
  lemma RemovedOnlyAfterReceipt(states: seq<State>, acts: seq<Action>, k: nat, n: nat, e: Slot, content: Bytes)
    requires IsRun(states, acts) && InTime(states, acts, k, e, content) && k < n < |acts|
    requires e in states[n].events && e !in states[n + 1].events && acts[n] != RemoveDevice(e.device)
    ensures Reached(states[n], e, content)
  {
    var s, a := states[n], acts[n];
    WrittenInRun(states, acts, k, n, e, content);
    RunKeepsInv(states, acts, n);
    assert StepAt(states, acts, n);
    assert DrawnAt(s, e) && RequestAt(s, a.id, e);
    GotIsReached(s, e, content);
  }

  /** A device that holds a token has received every event up to it that was written in time,
      unless it was removed since. */
  lemma TokenMeansReceived(states: seq<State>, acts: seq<Action>, k: nat, n: nat, since: nat, e: Slot, content: Bytes)
    requires IsRun(states, acts) && InTime(states, acts, k, e, content) && k < n <= |acts|
    requires Holding(states[n], e.device, since) && e.count <= since
    ensures Reached(states[n], e, content) || RemovedSince(acts, k + 1, n, e.device)
  {
    WrittenInRun(states, acts, k, n, e, content);
    RunKeepsInv(states, acts, n);
    HeldTokenSettles(states[n], e.device, since, e);
    GotIsReached(states[n], e, content);
  }

  /** Being written in time is also necessary: from every reachable state, an event written late
      that is still waiting can be deleted by three more steps, none of which removes its device,
      without ever reaching it. */
  lemma LateEventCanBeLost(states: seq<State>, acts: seq<Action>, k: nat, n: nat, e: Slot, content: Bytes, id: nat)
    returns (a: Action, b: Action, c: Action)
    requires IsRun(states, acts) && k < n <= |acts| && acts[k] == Insert(e, content) && Covered(states[k], e)
    requires e in states[n].events && !Reached(states[n], e, content) && id !in states[n].requests
    ensures a.Receive? && b.Start? && c.RemoveOne?
    ensures Enabled(states[n], a) && Enabled(Next(states[n], a), b) && Enabled(Next(Next(states[n], a), b), c)
    ensures
      var end := Next(Next(Next(states[n], a), b), c);
      e !in end.events && !Reached(end, e, content)
  {
    var s := states[n];
    WrittenInRun(states, acts, k, n, e, content);
    RunKeepsInv(states, acts, n);
    assert LateAt(s, e);
    var j: nat :| j < |s.responses| && Covers(s, j, e) && e !in s.responses[j].events;
    a, b, c := Receive(j), Start(id, e.device, s.responses[j].nextBatch), RemoveOne(id, e.count);
    var s1 := Next(s, a);
    assert TokenOf(s1, j) == (e.device, s.responses[j].nextBatch);
    var s2 := Next(s1, b);
    var s3 := Next(s2, c);
    forall i | i in s3.received && i < |s3.responses|
      ensures !Holds(s3.responses[i], e, content)
    {
      assert i == j || i in s.received;
    }
  }

  /** A late event does occur: a response built between drawing the count and writing the row. */
  lemma LateHappens(d: Device, content: Bytes) returns (states: seq<State>, acts: seq<Action>)
    ensures IsRun(states, acts) && |states| == 5
    ensures
      var e := Slot(d, 1);
      && acts[3] == Insert(e, content) && Covered(states[3], e)
      && e in states[4].events && !Reached(states[4], e, content) && 0 !in states[4].requests
  {
    var e := Slot(d, 1);
    var a, b, c, f := Allocate(d), Start(0, d, 0), Respond(0), Insert(e, content);
    var s1 := Next(INIT, a);
    var s2 := Next(s1, b);
    var s3 := Next(s2, c);
    assert Covers(s3, 0, e);
    var s4 := Next(s3, f);
    states, acts := [INIT, s1, s2, s3, s4], [a, b, c, f];
    forall i: nat
      ensures StepAt(states, acts, i)
    {
      assert i < 4 ==> i == 0 || i == 1 || i == 2 || i == 3;
    }
  }

  // ------------------------------------------------------------------
  // Nothing foreign
  // ------------------------------------------------------------------

  ghost predicate WrittenBefore(acts: seq<Action>, n: nat, e: Slot, content: Bytes) {
    exists k :: 0 <= k < n && k < |acts| && acts[k] == Insert(e, content)
  }

  ghost predicate OwnEvent(acts: seq<Action>, n: nat, r: Response, e: Slot) {
    e in r.events ==> e.device == r.device && WrittenBefore(acts, n, e, r.events[e])
  }

  /** A waiting event was written, with its content. */
  lemma {:induction false} WaitingWasWritten(states: seq<State>, acts: seq<Action>, n: nat, e: Slot)
    requires IsRun(states, acts) && n <= |acts| && e in states[n].events
    ensures WrittenBefore(acts, n, e, states[n].events[e])
    decreases n
  {
    if n > 0 {
      assert StepAt(states, acts, n - 1);
      if !(acts[n - 1].Insert? && acts[n - 1].slot == e) {
        WaitingWasWritten(states, acts, n - 1, e);
      }
    }
  }

  /** A response holds only events of its own device, each written before with that content. */
  lemma {:induction false} OnlyOwnEvents(states: seq<State>, acts: seq<Action>, n: nat, i: nat, e: Slot)
    requires IsRun(states, acts) && n <= |acts| && i < |states[n].responses|
    ensures OwnEvent(acts, n, states[n].responses[i], e)
    decreases n
  {
    if n > 0 {
      var s, a := states[n - 1], acts[n - 1];
      assert StepAt(states, acts, n - 1);
      if i < |s.responses| {
        OnlyOwnEvents(states, acts, n - 1, i, e);
        assert states[n].responses[i] == s.responses[i];
      } else if e in states[n].responses[i].events {
        WaitingWasWritten(states, acts, n - 1, e);
      }
    }
  }

  // ------------------------------------------------------------------
  // Sends in one go
  // ------------------------------------------------------------------

  /** No response covers a count that has just been drawn, so an event whose row is written in the
      next step is written in time. */
  lemma InOneGoIsTimely(states: seq<State>, acts: seq<Action>, i: nat, e: Slot, content: Bytes)
    requires IsRun(states, acts) && i + 1 < |acts| && acts[i] == Allocate(e.device) && e.count == states[i].count + 1
    requires acts[i + 1] == Insert(e, content)
    ensures InTime(states, acts, i + 1, e, content)
  {
    var s, s1 := states[i], states[i + 1];
    RunKeepsInv(states, acts, i);
    assert StepAt(states, acts, i);
    forall k: nat | k < |s1.responses|
      ensures !Covers(s1, k, e)
    {
      assert TokenAt(s, k);
    }
  }

  /** At least once for such an event, from the step that writes it on. */
  lemma InOneGoAtLeastOnce(states: seq<State>, acts: seq<Action>, i: nat, n: nat, e: Slot, content: Bytes)
    requires IsRun(states, acts) && i + 1 < n <= |acts|
    requires acts[i] == Allocate(e.device) && e.count == states[i].count + 1 && acts[i + 1] == Insert(e, content)
    ensures
      || (e in states[n].events && states[n].events[e] == content)
      || Reached(states[n], e, content)
      || RemovedSince(acts, i + 2, n, e.device)
  {
    InOneGoIsTimely(states, acts, i, e, content);
    AtLeastOnce(states, acts, i + 1, n, e, content);
  }
}
