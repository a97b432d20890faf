/** No row is lost.
 */
module SendingDelivery {
  import opened ByteStrings
  import opened SendingKeys
  import opened SendingMachine
  import opened SendingRows
  import opened SendingFlight
  import opened SendingBounds

  ghost predicate Owed(s: State, k: Bytes) {
    k in s.hist.outstanding && k !in s.hist.cleaned
  }

  /** An undelivered row is in one of the two tables; once its destination's transaction has
      succeeded it must be in the queue, because the active rows are being deleted. */
  ghost predicate Kept(s: State, k: Bytes) {
    && (k in s.queued || k in s.active)
    && (s.pc.Deleting? && k in s.hist.issued && s.hist.issued[k].kind == s.pc.kind ==> k in s.queued)
  }

  /** Between the two writes that mark a row active it is in the active table. */
  ghost predicate HalfMarked(s: State) {
    s.pc.Marking? && s.pc.inserted && s.pc.next < |s.pc.items| && s.pc.items[s.pc.next].key !in s.hist.cleaned ==>
      s.pc.items[s.pc.next].key in s.active
  }

  ghost predicate NoLossOk(s: State) {
    (forall k :: Owed(s, k) ==> Kept(s, k)) && HalfMarked(s)
  }

  /** A successful transaction delivers every active row of its destination. */
  lemma AllActiveDelivered(s: State, i: nat)
    requires CoverOk(s) && s.pc.Idle? && i < |s.futures|
    ensures KeysOf(s.active, s.futures[i].kind) == DeliveredBy(s, s.futures[i])
  {
  }

  lemma OkKeepsNoLoss(s: State, i: nat)
    requires NoLossOk(s) && KnownRows(s, s.active) && CoverOk(s) && s.pc.Idle? && i < |s.futures|
    ensures NoLossOk(DoOk(s, i))
  {
    var t, s' := s.futures[i], DoOk(s, i);
    AllActiveDelivered(s, i);
    forall k | Owed(s', k)
      ensures Kept(s', k)
    {
      assert Owed(s, k);
      assert k !in KeysOf(s.active, t.kind);
    }
  }

  lemma DeleteKeepsNoLoss(s: State)
    requires NoLossOk(s) && KnownPc(s) && s.pc.Deleting?
    ensures NoLossOk(DoDelete(s))
  {
    var s' := DoDelete(s);
    forall k | Owed(s', k)
      ensures Kept(s', k)
    {
      assert Owed(s, k);
    }
  }

  lemma MarkKeepsNoLoss(s: State)
    requires NoLossOk(s) && s.pc.Marking?
    ensures NoLossOk(DoMark(s))
  {
    var s' := DoMark(s);
    forall k | Owed(s', k)
      ensures Kept(s', k)
    {
      assert Owed(s, k);
    }
  }

  lemma QueueKeepsNoLoss(s: State, kind: OutgoingKind, event: Event)
    requires NoLossOk(s) && CountAfter(s, event) < U64
    requires var key := NewKey(s, kind, event); key in s.hist.issued ==> s.hist.issued[key] == Row(kind, event)
    requires s.hist.outstanding <= s.hist.issued.Keys
    ensures NoLossOk(DoQueue(s, kind, event))
  {
    var s' := DoQueue(s, kind, event);
    forall k | Owed(s', k)
      ensures Kept(s', k)
    {
      if k != NewKey(s, kind, event) {
        assert Owed(s, k);
      }
    }
  }

  lemma CleanupKeepsNoLoss(s: State, a: Action)
    requires NoLossOk(s) && Enabled(s, a) && (a.CleanupActive? || a.CleanupQueued?)
    ensures NoLossOk(Next(s, a))
  {
    forall k | Owed(Next(s, a), k)
      ensures Kept(Next(s, a), k)
    {
      assert Owed(s, k);
    }
  }

  /** Steps that leave both tables and the bookkeeping alone. */
  lemma SameNoLoss(s: State, s': State)
    requires NoLossOk(s)
    requires s'.queued == s.queued && s'.active == s.active
    requires s'.hist.outstanding == s.hist.outstanding && s'.hist.cleaned == s.hist.cleaned
    requires !s'.pc.Deleting? || (s'.pc == s.pc && s'.hist.issued == s.hist.issued)
    requires !s'.pc.Marking? || !s'.pc.inserted || s'.pc == s.pc
    ensures NoLossOk(s')
  {
    forall k | Owed(s', k)
      ensures Kept(s', k)
    {
      assert Owed(s, k);
    }
  }

  lemma QuietKeepsNoLoss(s: State, a: Action)
    requires NoLossOk(s) && Enabled(s, a)
    requires a.Send? || a.Tick? || a.Clear? || a.TxnErr?
    ensures NoLossOk(Next(s, a))
  {
    SameNoLoss(s, Next(s, a));
  }

  lemma StartKeepsNoLoss(s: State, a: Action)
    requires NoLossOk(s) && Enabled(s, a)
    requires a.Crash? || a.Boot? || a.BootDone?
    ensures NoLossOk(Next(s, a))
  {
    SameNoLoss(s, Next(s, a));
  }

  lemma ReceiveKeepsNoLoss(s: State, edus: seq<Event>)
    requires NoLossOk(s) && s.pc.Idle? && s.channel != []
    ensures NoLossOk(DoReceive(s, edus))
  {
    SameNoLoss(s, DoReceive(s, edus));
  }

  lemma ReadKeepsNoLoss(s: State)
    requires NoLossOk(s) && s.pc.Reading?
    ensures NoLossOk(DoRead(s))
  {
    SameNoLoss(s, DoRead(s));
  }

  lemma StepKeepsNoLoss(s: State, a: Action)
    requires NoLossOk(s) && PlacesOk(s) && CoverOk(s) && BoundOk(s) && Enabled(s, a) && !a.Queue?
    ensures NoLossOk(Next(s, a))
  {
    match a {
      case CleanupActive(key) => CleanupKeepsNoLoss(s, a);
      case CleanupQueued(key) => CleanupKeepsNoLoss(s, a);
      case Receive(edus) => ReceiveKeepsNoLoss(s, edus);
      case Read => ReadKeepsNoLoss(s);
      case TxnOk(i) => OkKeepsNoLoss(s, i);
      case Delete => DeleteKeepsNoLoss(s);
      case Mark => MarkKeepsNoLoss(s);
      case BootRow =>
        NothingDropped(s);
        SameNoLoss(s, DoBootRow(s));
      case Crash => StartKeepsNoLoss(s, a);
      case Boot => StartKeepsNoLoss(s, a);
      case BootDone(_) => StartKeepsNoLoss(s, a);
      case _ => QuietKeepsNoLoss(s, a);
    }
  }
}
