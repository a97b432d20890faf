/** Prefix watchers: a sync waits until a key under one of its prefixes is written. `wake` finds
    the watched prefixes of its key under the read lock and removes them under the write lock;
    between the two, other calls may run.
 */
module Watchers {
  import opened ByteStrings

  /** The registry: the channel of each watched prefix, the prefix each channel was made for, the
      channel each `watch` call returned, and the key that each notified channel was woken for. */
  datatype Registry = Registry(
    watched: map<Bytes, nat>,
    channels: seq<Bytes>,
    watchers: seq<nat>,
    notified: map<nat, Bytes>)

  /** `watch`: join the prefix's channel, or make one. */
  function AfterWatch(r: Registry, prefix: Bytes): (r': Registry) {
    if prefix in r.watched then
      r.(watchers := r.watchers + [r.watched[prefix]])
    else
      r.(watched := r.watched[prefix := |r.channels|],
         channels := r.channels + [prefix],
         watchers := r.watchers + [|r.channels|])
  }

  /** The watched prefixes of a key that are shorter than `n`, shortest first. */
  function Triggered(watched: map<Bytes, nat>, key: Bytes, n: nat): (ps: seq<Bytes>)
    requires n <= |key| + 1
    ensures forall p :: p in ps <==> p in watched && p <= key && |p| < n
  {
    if n == 0 then [] else
      var p, ps := key[..n - 1], Triggered(watched, key, n - 1);
      assert forall q :: q <= key && |q| == n - 1 ==> q == p;
      if p in watched then ps + [p] else ps
  }

  /** Removing one triggered prefix, if it is still there, notifies its channel. */
  function AfterNotify(r: Registry, key: Bytes, p: Bytes): (r': Registry) {
    if p in r.watched then
      r.(watched := r.watched - {p}, notified := r.notified[r.watched[p] := key])
    else r
  }

  /** The first `n` removals of the write phase. */
  function AfterNotifies(r: Registry, key: Bytes, ps: seq<Bytes>, n: nat): (r': Registry)
    requires n <= |ps|
  {
    if n == 0 then r else AfterNotify(AfterNotifies(r, key, ps, n - 1), key, ps[n - 1])
  }

  class Store {
    var watched: map<Bytes, nat>
    ghost var channels: seq<Bytes>
    ghost var watchers: seq<nat>
    ghost var notified: map<nat, Bytes>
    var nextChannel: nat

    ghost function Contents(): (r: Registry)
      reads this
    {
      Registry(watched, channels, watchers, notified)
    }

    ghost predicate Valid()
      reads this
    {
      nextChannel == |channels|
    }

    constructor ()
      ensures Valid() && Contents() == Registry(map[], [], [], map[])
    {
      watched, channels, watchers, notified, nextChannel := map[], [], [], map[], 0;
    }

    /** Under the write lock. */
    method Watch(prefix: Bytes) returns (channel: nat)
      requires Valid()
      modifies this
      ensures Valid() && Contents() == AfterWatch(old(Contents()), prefix)
      ensures prefix in watched && watched[prefix] == channel && watchers == old(watchers) + [channel]
    {
      if prefix in watched {
        channel := watched[prefix];
      } else {
        channel := nextChannel;
        nextChannel := nextChannel + 1;
        watched := watched[prefix := channel];
        channels := channels + [prefix];
      }
      watchers := watchers + [channel];
    }

    /** Under the read lock. */
    method WakeRead(key: Bytes) returns (triggered: seq<Bytes>)
      ensures triggered == Triggered(watched, key, |key| + 1)
    {
      triggered := [];
      for length := 0 to |key| + 1
        invariant triggered == Triggered(watched, key, length)
      {
        if key[..length] in watched {
          triggered := triggered + [key[..length]];
        }
      }
    }

    /** Under the write lock again. */
    method WakeWrite(key: Bytes, triggered: seq<Bytes>)
      requires Valid()
      modifies `watched, `notified
      ensures Valid() && Contents() == AfterNotifies(old(Contents()), key, triggered, |triggered|)
    {
      for i := 0 to |triggered|
        invariant Contents() == AfterNotifies(old(Contents()), key, triggered, i)
      {
        var p := triggered[i];
        if p in watched {
          notified := notified[watched[p] := key];
          watched := watched - {p};
        }
      }
    }
  }

  // ------------------------------------------------------------------
  // Interleaved calls
  // ------------------------------------------------------------------

  datatype Phase = Called | Collected(triggered: seq<Bytes>)

  /** A running `wake`, with the number of `watch` calls that returned before it was called. */
  datatype Call = Call(key: Bytes, before: nat, phase: Phase)

  datatype State = State(reg: Registry, calls: map<nat, Call>)

  datatype Action =
    | DoWatch(prefix: Bytes)
    | CallWake(id: nat, key: Bytes)
    | ReadPhase(id: nat)
    | WritePhase(id: nat)

  const INIT: State := State(Registry(map[], [], [], map[]), map[])

  predicate Enabled(s: State, a: Action) {
    match a
    case DoWatch(_) => true
    case CallWake(id, _) => id !in s.calls
    case ReadPhase(id) => id in s.calls && s.calls[id].phase.Called?
    case WritePhase(id) => id in s.calls && s.calls[id].phase.Collected?
  }

  /** A call without triggered prefixes returns after its read phase. */
  function Next(s: State, a: Action): (s': State)
    requires Enabled(s, a)
  {
    match a
    case DoWatch(prefix) => s.(reg := AfterWatch(s.reg, prefix))
    case CallWake(id, key) => s.(calls := s.calls[id := Call(key, |s.reg.watchers|, Called)])
    case ReadPhase(id) =>
      var c := s.calls[id];
      var ps := Triggered(s.reg.watched, c.key, |c.key| + 1);
      if ps == [] then s.(calls := s.calls - {id}) else s.(calls := s.calls[id := c.(phase := Collected(ps))])
    case WritePhase(id) =>
      var c := s.calls[id];
      State(AfterNotifies(s.reg, c.key, c.phase.triggered, |c.phase.triggered|), s.calls - {id})
  }

  ghost predicate StepAt(states: seq<State>, acts: seq<Action>, i: nat) {
    i < |acts| < |states| ==> Enabled(states[i], acts[i]) && states[i + 1] == Next(states[i], acts[i])
  }

  ghost predicate IsRun(states: seq<State>, acts: seq<Action>) {
    && |states| == |acts| + 1 && states[0] == INIT
    && forall i: nat {:trigger StepAt(states, acts, i)} :: StepAt(states, acts, i)
  }

  // ------------------------------------------------------------------
  // Invariant
  // ------------------------------------------------------------------

  ghost predicate Live(r: Registry, c: nat) {
    c < |r.channels| && r.channels[c] in r.watched && r.watched[r.channels[c]] == c
  }

  /** A channel is in the table or has been notified, for a key with its prefix. */
  ghost predicate ChannelAt(r: Registry, c: nat) {
    && (c < |r.channels| ==> Live(r, c) || c in r.notified)
    && (c in r.notified ==> c < |r.channels| && r.channels[c] <= r.notified[c])
  }

  ghost predicate WatchedAt(r: Registry, p: Bytes) {
    p in r.watched ==> r.watched[p] < |r.channels| && r.channels[r.watched[p]] == p && r.watched[p] !in r.notified
  }

  ghost predicate WatcherAt(r: Registry, w: nat) {
    w < |r.watchers| ==> r.watchers[w] < |r.channels|
  }

  ghost predicate RegistryOk(r: Registry) {
    && (forall c: nat {:trigger ChannelAt(r, c)} :: ChannelAt(r, c))
    && (forall p {:trigger WatchedAt(r, p)} :: WatchedAt(r, p))
    && (forall w: nat {:trigger WatcherAt(r, w)} :: WatcherAt(r, w))
  }

  /** The prefix a watcher waits on. */
  ghost function PrefixOf(r: Registry, w: nat): (p: Bytes)
    requires RegistryOk(r) && w < |r.watchers|
  {
    assert WatcherAt(r, w);
    r.channels[r.watchers[w]]
  }

  ghost predicate Told(r: Registry, w: nat)
    requires w < |r.watchers|
  {
    r.watchers[w] in r.notified
  }

  /** A collected call will tell every earlier watcher of its key that has not been told. */
  ghost predicate CallAt(s: State, id: nat, w: nat) {
    RegistryOk(s.reg) && id in s.calls ==>
      var c := s.calls[id];
      && c.before <= |s.reg.watchers|
      && (c.phase.Collected? ==> forall p :: p in c.phase.triggered ==> p <= c.key)
      && (c.phase.Collected? && w < c.before && PrefixOf(s.reg, w) <= c.key ==>
            PrefixOf(s.reg, w) in c.phase.triggered || Told(s.reg, w))
  }

  ghost predicate Inv(s: State) {
    && RegistryOk(s.reg)
    && forall id: nat, w: nat {:trigger CallAt(s, id, w)} :: CallAt(s, id, w)
  }

  lemma WatchKeepsRegistry(r: Registry, prefix: Bytes)
    requires RegistryOk(r)
    ensures RegistryOk(AfterWatch(r, prefix))
  {
    var r' := AfterWatch(r, prefix);
    assert WatchedAt(r, prefix) && ChannelAt(r, |r.channels|);
    forall c: nat
      ensures ChannelAt(r', c)
    {
      assert ChannelAt(r, c);
    }
    forall p
      ensures WatchedAt(r', p)
    {
      assert WatchedAt(r, p);
    }
    forall w: nat
      ensures WatcherAt(r', w)
    {
      assert WatcherAt(r, w);
    }
  }

  lemma NotifyKeepsRegistry(r: Registry, key: Bytes, p: Bytes)
    requires RegistryOk(r) && p <= key
    ensures RegistryOk(AfterNotify(r, key, p))
  {
    var r' := AfterNotify(r, key, p);
    assert WatchedAt(r, p);
    forall c: nat
      ensures ChannelAt(r', c)
    {
      assert ChannelAt(r, c);
    }
    forall q
      ensures WatchedAt(r', q)
    {
      assert WatchedAt(r, q);
    }
    forall w: nat
      ensures WatcherAt(r', w)
    {
      assert WatcherAt(r, w);
    }
  }

  /** The write phase only removes and notifies, and leaves none of its prefixes watched. */
  lemma {:induction false} NotifiesKeepRegistry(r: Registry, key: Bytes, ps: seq<Bytes>, n: nat)
    requires RegistryOk(r) && n <= |ps| && forall p :: p in ps ==> p <= key
    ensures
      var r' := AfterNotifies(r, key, ps, n);
      && RegistryOk(r') && r'.channels == r.channels && r'.watchers == r.watchers
      && (forall c :: c in r.notified ==> c in r'.notified)
      && (forall p :: p in r'.watched ==> p in r.watched && p !in ps[..n])
  {
    if n > 0 {
      NotifiesKeepRegistry(r, key, ps, n - 1);
      assert ps[n - 1] in ps;
      NotifyKeepsRegistry(AfterNotifies(r, key, ps, n - 1), key, ps[n - 1]);
      assert ps[..n] == ps[..n - 1] + [ps[n - 1]];
    }
  }

  lemma UnwatchedIsTold(r: Registry, w: nat)
    requires RegistryOk(r) && w < |r.watchers| && PrefixOf(r, w) !in r.watched
    ensures Told(r, w)
  {
    assert WatcherAt(r, w) && ChannelAt(r, r.watchers[w]);
  }

  /** What a step does to watchers that were there before it: they stay on their channel and
      stay told. */
  lemma StepKeepsWatchers(s: State, a: Action)
    requires Inv(s) && Enabled(s, a)
    ensures
      var r, r' := s.reg, Next(s, a).reg;
      && RegistryOk(r') && |r.watchers| <= |r'.watchers|
      && (forall w: nat :: w < |r.watchers| ==> PrefixOf(r', w) == PrefixOf(r, w) && (Told(r, w) ==> Told(r', w)))
  {
    var r, r' := s.reg, Next(s, a).reg;
    if a.DoWatch? {
      WatchKeepsRegistry(r, a.prefix);
    } else if a.WritePhase? {
      var c := s.calls[a.id];
      assert CallAt(s, a.id, 0);
      NotifiesKeepRegistry(r, c.key, c.phase.triggered, |c.phase.triggered|);
    }
    forall w: nat | w < |r.watchers|
      ensures PrefixOf(r', w) == PrefixOf(r, w) && (Told(r, w) ==> Told(r', w))
    {
      assert WatcherAt(r, w);
    }
  }

  lemma StepCall(s: State, a: Action, id: nat, w: nat)
    requires Inv(s) && Enabled(s, a)
    ensures CallAt(Next(s, a), id, w)
  {
    var s' := Next(s, a);
    StepKeepsWatchers(s, a);
    assert CallAt(s, id, w);
    if a.ReadPhase? && a.id == id && id in s'.calls && w < s.calls[id].before {
      if PrefixOf(s.reg, w) !in s.reg.watched {
        UnwatchedIsTold(s.reg, w);
      }
    }
  }

  lemma {:induction false} RunKeepsInv(states: seq<State>, acts: seq<Action>, i: nat)
    requires IsRun(states, acts) && i < |states|
    ensures Inv(states[i])
  {
    if i == 0 {
      assert forall c: nat {:trigger ChannelAt(INIT.reg, c)} :: ChannelAt(INIT.reg, c);
      assert forall p {:trigger WatchedAt(INIT.reg, p)} :: WatchedAt(INIT.reg, p);
      assert forall w: nat {:trigger WatcherAt(INIT.reg, w)} :: WatcherAt(INIT.reg, w);
    } else {
      var s, a := states[i - 1], acts[i - 1];
      RunKeepsInv(states, acts, i - 1);
      assert StepAt(states, acts, i - 1);
      StepKeepsWatchers(s, a);
      var s' := Next(s, a);
      forall id: nat, w: nat
        ensures CallAt(s', id, w)
      {
        StepCall(s, a, id, w);
      }
    }
  }

  // ------------------------------------------------------------------
  // Theorems over every run
  // ------------------------------------------------------------------

  /** The call returns with this step. */
  predicate Returns(s: State, a: Action, id: nat) {
    id in s.calls && Enabled(s, a) && id !in Next(s, a).calls
  }

  /** The call made at step c is running before step i. */
  ghost predicate RunningSince(states: seq<State>, acts: seq<Action>, c: nat, i: nat, id: nat, key: Bytes) {
    && c < i < |states| && c < |acts| && acts[c] == CallWake(id, key)
    && forall m :: c < m <= i ==> id in states[m].calls
  }

  /** A running call keeps its key and the number of watchers there were when it was made. */
  lemma {:induction false} CallKept(states: seq<State>, acts: seq<Action>, c: nat, i: nat, id: nat, key: Bytes)
    requires IsRun(states, acts) && RunningSince(states, acts, c, i, id, key)
    ensures states[i].calls[id].key == key && states[i].calls[id].before == |states[c].reg.watchers|
    decreases i
  {
    assert StepAt(states, acts, i - 1);
    if i > c + 1 {
      CallKept(states, acts, c, i - 1, id, key);
    }
  }

  /** No missed wakeup: when a `wake` returns, every watcher that was registered on a prefix of
      its key before it was called has been notified, whatever ran in between. */
  lemma NoMissedWakeup(states: seq<State>, acts: seq<Action>, c: nat, i: nat, id: nat, key: Bytes, w: nat)
    requires IsRun(states, acts) && i < |acts| && RunningSince(states, acts, c, i, id, key)
    requires Returns(states[i], acts[i], id) && w < |states[c].reg.watchers|
    ensures
      && RegistryOk(states[i + 1].reg) && w < |states[i + 1].reg.watchers|
      && (PrefixOf(states[i + 1].reg, w) <= key ==> Told(states[i + 1].reg, w))
  {
    CallKept(states, acts, c, i, id, key);
    ReturnTells(states, acts, i, id, w);
  }

  lemma ReturnTells(states: seq<State>, acts: seq<Action>, i: nat, id: nat, w: nat)
    requires IsRun(states, acts) && i < |acts| && Returns(states[i], acts[i], id)
    requires w < states[i].calls[id].before
    ensures
      && RegistryOk(states[i + 1].reg) && w < |states[i + 1].reg.watchers|
      && (PrefixOf(states[i + 1].reg, w) <= states[i].calls[id].key ==> Told(states[i + 1].reg, w))
  {
    var s, a := states[i], acts[i];
    RunKeepsInv(states, acts, i);
    RunKeepsInv(states, acts, i + 1);
    assert StepAt(states, acts, i);
    StepKeepsWatchers(s, a);
    assert CallAt(s, id, w);
    var r, r', c := s.reg, states[i + 1].reg, s.calls[id];
    if PrefixOf(r', w) <= c.key {
      if a.ReadPhase? {
        assert PrefixOf(r, w) !in Triggered(r.watched, c.key, |c.key| + 1);
        UnwatchedIsTold(r, w);
      } else if PrefixOf(r, w) in c.phase.triggered {
        var ps := c.phase.triggered;
        NotifiesKeepRegistry(r, c.key, ps, |ps|);
        assert ps[..|ps|] == ps;
        UnwatchedIsTold(r', w);
      }
    }
  }

  /** Whatever else is running, two steps of its own let a call return: it never waits. */
  lemma WakeReturns(s: State, id: nat) returns (a: Action)
    requires id in s.calls
    ensures Enabled(s, a) && (a == ReadPhase(id) || a == WritePhase(id))
    ensures
      var s', b := Next(s, a), WritePhase(id);
      Returns(s, a, id) || (Enabled(s', b) && Returns(s', b, id))
  {
    a := if s.calls[id].phase.Called? then ReadPhase(id) else WritePhase(id);
  }

  /** No false wakeup: a watcher that was told was told for a key with its prefix. */
  lemma ToldForOwnPrefix(states: seq<State>, acts: seq<Action>, i: nat, w: nat)
    requires IsRun(states, acts) && i < |states| && w < |states[i].reg.watchers| && Told(states[i].reg, w)
    ensures
      && RegistryOk(states[i].reg)
      && PrefixOf(states[i].reg, w) <= states[i].reg.notified[states[i].reg.watchers[w]]
  {
    RunKeepsInv(states, acts, i);
    assert ChannelAt(states[i].reg, states[i].reg.watchers[w]);
  }

  /** A new watcher has not been told: it waits for a wake that removes its prefix later. */
  lemma NewWatcherWaits(states: seq<State>, acts: seq<Action>, i: nat)
    requires IsRun(states, acts) && i < |acts| && acts[i].DoWatch?
    ensures
      var r := states[i + 1].reg;
      var w := |states[i].reg.watchers|;
      RegistryOk(r) && |r.watchers| == w + 1 && !Told(r, w) && PrefixOf(r, w) == acts[i].prefix
  {
    RunKeepsInv(states, acts, i);
    RunKeepsInv(states, acts, i + 1);
    assert StepAt(states, acts, i);
    assert WatchedAt(states[i + 1].reg, acts[i].prefix);
  }
}
