/** The membership index as the database keeps it: `mark_as_joined`, `mark_as_invited`,
    `mark_as_left`, `forget` and `update_joined_count` over the byte tables, and the lookups and
    enumerations that read them.
 */
module MembershipIndex {
  import opened ByteStrings
  import opened KvTable
  import opened PairTable
  import opened Text
  import opened Membership

  /** The six tables, user-major and room-major by turns. */
  datatype Tables = Tables(
    userRoomJoined: Table, roomUserJoined: Table,
    userRoomInviteState: Table, roomUserInviteCount: Table,
    userRoomLeftState: Table, roomUserLeftCount: Table)

  datatype Slot = Slot(part: Part, roomMajor: bool)

  /** The table that keeps one kind of row in one order of its keys, where there is one. */
  function At(ts: Tables, slot: Slot): (t: Option<Table>) {
    match slot
    case Slot(JoinedPart, false) => Some(ts.userRoomJoined)
    case Slot(JoinedPart, true) => Some(ts.roomUserJoined)
    case Slot(InviteState, false) => Some(ts.userRoomInviteState)
    case Slot(InviteCount, true) => Some(ts.roomUserInviteCount)
    case Slot(LeftState, false) => Some(ts.userRoomLeftState)
    case Slot(LeftCount, true) => Some(ts.roomUserLeftCount)
    case _ => None
  }

  ghost predicate SlotOk(m: Members, ts: Tables, slot: Slot) {
    At(ts, slot).Some? ==> Holds(At(ts, slot).value, Rows(m, slot.part), slot.roomMajor)
  }

  /** Every table holds exactly its rows: the tables mirror one another, and a user-room pair is
      in at most one of joined, invited and left. */
  ghost predicate TablesOk(m: Members, ts: Tables) {
    forall slot {:trigger SlotOk(m, ts, slot)} :: SlotOk(m, ts, slot)
  }

  /** The tables after a new standing: one row written or removed in each. */
  function WithStanding(ts: Tables, p: Pair, s: Standing): (ts': Tables) {
    Tables(
      Write(ts.userRoomJoined, PairKey(p, false), Cell(JoinedPart, s)),
      Write(ts.roomUserJoined, PairKey(p, true), Cell(JoinedPart, s)),
      Write(ts.userRoomInviteState, PairKey(p, false), Cell(InviteState, s)),
      Write(ts.roomUserInviteCount, PairKey(p, true), Cell(InviteCount, s)),
      Write(ts.userRoomLeftState, PairKey(p, false), Cell(LeftState, s)),
      Write(ts.roomUserLeftCount, PairKey(p, true), Cell(LeftCount, s)))
  }

  lemma WithStandingAt(ts: Tables, p: Pair, s: Standing, slot: Slot)
    ensures At(WithStanding(ts, p, s), slot).Some? <==> At(ts, slot).Some?
    ensures At(ts, slot).Some? ==>
      At(WithStanding(ts, p, s), slot).value ==
      Write(At(ts, slot).value, PairKey(p, slot.roomMajor), Cell(slot.part, s))
  {
  }

  lemma TablesAfterStanding(m: Members, p: Pair, s: Standing, ts: Tables, ts': Tables)
    requires TablesOk(m, ts) && ValidPair(p)
    requires ts' == WithStanding(ts, p, s)
    ensures TablesOk(m[p := s], ts')
  {
    var m' := m[p := s];
    forall slot: Slot
      ensures SlotOk(m', ts', slot)
    {
      assert SlotOk(m, ts, slot);
      WithStandingAt(ts, p, s, slot);
      if At(ts, slot).Some? {
        RowsAfterStanding(At(ts, slot).value, m, slot.part, slot.roomMajor, p, s);
      }
    }
  }

  lemma TablesAfterForget(m: Members, p: Pair, ts: Tables, ts': Tables)
    requires TablesOk(m, ts) && ValidPair(p)
    requires ts' == ts.(userRoomLeftState := ts.userRoomLeftState - {PairKey(p, false)},
                        roomUserLeftCount := ts.roomUserLeftCount - {PairKey(p, true)})
    ensures TablesOk(Forgotten(m, p), ts')
  {
    var m' := Forgotten(m, p);
    forall slot: Slot
      ensures SlotOk(m', ts', slot)
    {
      assert SlotOk(m, ts, slot);
      if At(ts, slot).Some? {
        RowsAfterForget(At(ts, slot).value, m, slot.part, slot.roomMajor, p);
      }
    }
  }

  // ------------------------------------------------------------------
  // Lookups and enumerations
  // ------------------------------------------------------------------

  predicate IsJoined(ts: Tables, user: Bytes, room: Bytes) {
    Join(user, room) in ts.userRoomJoined
  }

  predicate IsInvited(ts: Tables, user: Bytes, room: Bytes) {
    Join(user, room) in ts.userRoomInviteState
  }

  predicate IsLeft(ts: Tables, user: Bytes, room: Bytes) {
    Join(user, room) in ts.userRoomLeftState
  }

  function Get(t: Table, k: Bytes): (v: Option<Bytes>) {
    if k in t then Some(t[k]) else None
  }

  /** `get_invite_count` and `get_left_count`. */
  function CountAt(t: Table, user: Bytes, room: Bytes): (n: Option<nat>) {
    if Join(room, user) in t then U64FromBytes(t[Join(room, user)]) else None
  }

  lemma SlotGet(m: Members, ts: Tables, slot: Slot, p: Pair)
    requires TablesOk(m, ts) && ValidPair(p) && At(ts, slot).Some?
    ensures Get(At(ts, slot).value, PairKey(p, slot.roomMajor)) == if p in m then Cell(slot.part, m[p]) else None
  {
    assert SlotOk(m, ts, slot);
    HoldsGet(At(ts, slot).value, Rows(m, slot.part), slot.roomMajor, p);
  }

  /** Point lookups read the standing: a user is at most one of joined, invited and left. */
  lemma LookupsReadStanding(m: Members, ts: Tables, user: Bytes, room: Bytes)
    requires TablesOk(m, ts) && IsText(user) && IsText(room)
    ensures
      var p := (user, room);
      && (IsJoined(ts, user, room) <==> p in m && m[p].Joined?)
      && (IsInvited(ts, user, room) <==> p in m && m[p].Invited?)
      && (IsLeft(ts, user, room) <==> p in m && m[p].Left?)
  {
    SlotGet(m, ts, Slot(JoinedPart, false), (user, room));
    SlotGet(m, ts, Slot(InviteState, false), (user, room));
    SlotGet(m, ts, Slot(LeftState, false), (user, room));
  }

  /** The stored invite and departure come back: state and count. */
  lemma StoredStandingReturns(m: Members, ts: Tables, user: Bytes, room: Bytes)
    requires TablesOk(m, ts) && IsText(user) && IsText(room)
    ensures
      var p := (user, room);
      var invited, left := p in m && m[p].Invited?, p in m && m[p].Left?;
      && CountAt(ts.roomUserInviteCount, user, room) == (if invited then Some(m[p].at) else None)
      && Get(ts.userRoomInviteState, Join(user, room)) == (if invited then Some(m[p].state) else None)
      && CountAt(ts.roomUserLeftCount, user, room) == (if left then Some(m[p].at) else None)
      && Get(ts.userRoomLeftState, Join(user, room)) == (if left then Some(m[p].state) else None)
  {
    var p := (user, room);
    SlotGet(m, ts, Slot(InviteCount, true), p);
    SlotGet(m, ts, Slot(InviteState, false), p);
    SlotGet(m, ts, Slot(LeftCount, true), p);
    SlotGet(m, ts, Slot(LeftState, false), p);
    if p in m && !m[p].Joined? {
      Be64RoundTrip(m[p].at);
    }
  }

  /** Mirroring: the room-major lookups agree with the user-major ones. */
  lemma MirrorsAgree(m: Members, ts: Tables, user: Bytes, room: Bytes)
    requires TablesOk(m, ts) && IsText(user) && IsText(room)
    ensures Join(room, user) in ts.roomUserJoined <==> Join(user, room) in ts.userRoomJoined
    ensures Join(room, user) in ts.roomUserInviteCount <==> Join(user, room) in ts.userRoomInviteState
    ensures Join(room, user) in ts.roomUserLeftCount <==> Join(user, room) in ts.userRoomLeftState
  {
    var p := (user, room);
    SlotGet(m, ts, Slot(JoinedPart, false), p);
    SlotGet(m, ts, Slot(JoinedPart, true), p);
    SlotGet(m, ts, Slot(InviteCount, true), p);
    SlotGet(m, ts, Slot(InviteState, false), p);
    SlotGet(m, ts, Slot(LeftCount, true), p);
    SlotGet(m, ts, Slot(LeftState, false), p);
  }

  function RoomMembers(ts: Tables, room: Bytes): (r: seq<Bytes>) {
    Enumerate(ts.roomUserJoined, room)
  }

  function RoomMembersInvited(ts: Tables, room: Bytes): (r: seq<Bytes>) {
    Enumerate(ts.roomUserInviteCount, room)
  }

  function RoomsInvited(ts: Tables, user: Bytes): (r: seq<(Bytes, Bytes)>) {
    EnumerateRows(ts.userRoomInviteState, user)
  }

  function RoomsLeft(ts: Tables, user: Bytes): (r: seq<(Bytes, Bytes)>) {
    EnumerateRows(ts.userRoomLeftState, user)
  }

  /** The members of a room are listed in order, each once, exactly those that are joined. */
  lemma RoomMembersExact(m: Members, ts: Tables, room: Bytes)
    requires TablesOk(m, ts) && IsText(room)
    ensures RoomMembers(ts, room) == Sorted(JoinedTo(m, room))
    ensures forall user | IsText(user) :: user in RoomMembers(ts, room) <==> IsJoined(ts, user, room)
  {
    assert SlotOk(m, ts, Slot(JoinedPart, true));
    EnumerateIs(ts.roomUserJoined, Rows(m, JoinedPart), true, room);
    SortedElems(JoinedTo(m, room));
    forall user | IsText(user)
      ensures user in RoomMembers(ts, room) <==> IsJoined(ts, user, room)
    {
      PartnersMember(Rows(m, JoinedPart), room, true, user);
      LookupsReadStanding(m, ts, user, room);
    }
  }

  lemma RoomMembersInvitedExact(m: Members, ts: Tables, room: Bytes)
    requires TablesOk(m, ts) && IsText(room)
    ensures RoomMembersInvited(ts, room) == Sorted(InvitedTo(m, room))
    ensures forall user | IsText(user) :: user in RoomMembersInvited(ts, room) <==> IsInvited(ts, user, room)
  {
    assert SlotOk(m, ts, Slot(InviteCount, true));
    EnumerateIs(ts.roomUserInviteCount, Rows(m, InviteCount), true, room);
    SortedElems(InvitedTo(m, room));
    forall user | IsText(user)
      ensures user in RoomMembersInvited(ts, room) <==> IsInvited(ts, user, room)
    {
      PartnersMember(Rows(m, InviteCount), room, true, user);
      LookupsReadStanding(m, ts, user, room);
    }
  }

  /** A user's invites are listed with their states: one entry per invited room, and no other. */
  lemma RoomsInvitedExact(m: Members, ts: Tables, user: Bytes)
    requires TablesOk(m, ts) && IsText(user)
    ensures forall e | e in RoomsInvited(ts, user) ::
      (user, e.0) in m && m[(user, e.0)].Invited? && m[(user, e.0)].state == e.1
    ensures forall room | (user, room) in m && m[(user, room)].Invited? ::
      (room, m[(user, room)].state) in RoomsInvited(ts, user)
    ensures |RoomsInvited(ts, user)| == |Partners(Rows(m, InviteState), user, false)|
  {
    var rows := Rows(m, InviteState);
    assert SlotOk(m, ts, Slot(InviteState, false));
    EntriesExact(ts.userRoomInviteState, rows, user);
    forall room | (user, room) in m && m[(user, room)].Invited?
      ensures (room, m[(user, room)].state) in RoomsInvited(ts, user)
    {
      assert (user, room) in rows;
    }
  }

  lemma RoomsLeftExact(m: Members, ts: Tables, user: Bytes)
    requires TablesOk(m, ts) && IsText(user)
    ensures forall e | e in RoomsLeft(ts, user) ::
      (user, e.0) in m && m[(user, e.0)].Left? && m[(user, e.0)].state == e.1
    ensures forall room | (user, room) in m && m[(user, room)].Left? ::
      (room, m[(user, room)].state) in RoomsLeft(ts, user)
    ensures |RoomsLeft(ts, user)| == |Partners(Rows(m, LeftState), user, false)|
  {
    var rows := Rows(m, LeftState);
    assert SlotOk(m, ts, Slot(LeftState, false));
    EntriesExact(ts.userRoomLeftState, rows, user);
    forall room | (user, room) in m && m[(user, room)].Left?
      ensures (room, m[(user, room)].state) in RoomsLeft(ts, user)
    {
      assert (user, room) in rows;
    }
  }

  lemma EntriesExact(t: Table, rows: map<Pair, Bytes>, user: Bytes)
    requires Holds(t, rows, false) && IsText(user)
    ensures forall e | e in EnumerateRows(t, user) :: (user, e.0) in rows && rows[(user, e.0)] == e.1
    ensures forall room | (user, room) in rows :: (room, rows[(user, room)]) in EnumerateRows(t, user)
    ensures |EnumerateRows(t, user)| == |Partners(rows, user, false)|
  {
    EnumerateRowsIs(t, rows, false, user);
    EnumerateIs(t, rows, false, user);
    var es, ids := EnumerateRows(t, user), Enumerate(t, user);
    forall room | (user, room) in rows
      ensures (room, rows[(user, room)]) in es
    {
      PartnerIsListed(t, rows, false, user, room);
      var i :| 0 <= i < |ids| && ids[i] == room;
      assert es[i] in es;
    }
  }

  /** The rooms listed as joined are the rooms the user is joined to exactly when no joined user
      id strictly extends theirs. */
  lemma RoomsJoinedIff(m: Members, ts: Tables, user: Bytes)
    requires TablesOk(m, ts) && IsText(user)
    ensures RoomsJoined(ts.userRoomJoined, user) == Sorted(Partners(Rows(m, JoinedPart), user, false))
      <==> forall p | p in m && m[p].Joined? :: !(user < p.0)
  {
    var rows := Rows(m, JoinedPart);
    assert SlotOk(m, ts, Slot(JoinedPart, false));
    RoomsJoinedExact(ts.userRoomJoined, rows, user);
    assert forall p :: p in rows <==> p in m && m[p].Joined?;
  }

  // ------------------------------------------------------------------
  // Counts
  // ------------------------------------------------------------------

  /** Counts were issued in rising order, none above the counter. */
  ghost predicate IssuedAt(issued: seq<nat>, count: nat, i: nat) {
    i < |issued| ==> issued[i] <= count && forall j :: 0 <= j < i ==> issued[j] < issued[i]
  }

  ghost predicate DatedAt(m: Members, issued: seq<nat>, p: Pair) {
    p in m && !m[p].Joined? ==> m[p].at in issued
  }

  ghost predicate CountsOk(m: Members, issued: seq<nat>, count: nat) {
    && (forall i: nat {:trigger IssuedAt(issued, count, i)} :: IssuedAt(issued, count, i))
    && (forall p {:trigger DatedAt(m, issued, p)} :: DatedAt(m, issued, p))
  }

  lemma CountsAfterStanding(m: Members, issued: seq<nat>, count: nat, p: Pair, s: Standing)
    requires CountsOk(m, issued, count) && (s.Joined? || s.at == count + 1)
    ensures s.Joined? ==> CountsOk(m[p := s], issued, count)
    ensures !s.Joined? ==> CountsOk(m[p := s], issued + [count + 1], count + 1)
  {
    var m', issued', count' :=
      m[p := s], if s.Joined? then issued else issued + [count + 1], if s.Joined? then count else count + 1;
    forall i: nat
      ensures IssuedAt(issued', count', i)
    {
      assert IssuedAt(issued, count, i);
      if i == |issued| {
        forall j: nat | j < i
          ensures issued[j] <= count
        {
          assert IssuedAt(issued, count, j);
        }
      }
    }
    forall q
      ensures DatedAt(m', issued', q)
    {
      assert DatedAt(m, issued, q);
      assert !s.Joined? ==> issued'[|issued|] == count + 1;
    }
  }

  lemma CountsAfterForget(m: Members, issued: seq<nat>, count: nat, p: Pair)
    requires CountsOk(m, issued, count)
    ensures CountsOk(Forgotten(m, p), issued, count)
  {
    var m' := Forgotten(m, p);
    forall q
      ensures DatedAt(m', issued, q)
    {
      assert DatedAt(m, issued, q);
    }
  }

  // ------------------------------------------------------------------
  // The server index
  // ------------------------------------------------------------------

  ghost predicate DirectionOk(servers: map<Pair, Bytes>, byRoom: Table, byServer: Table, swap: bool) {
    Holds(if swap then byServer else byRoom, servers, swap)
  }

  /** Both tables hold the same (room, server) pairs, in the two orders. */
  ghost predicate ServersOk(servers: map<Pair, Bytes>, byRoom: Table, byServer: Table) {
    forall swap {:trigger DirectionOk(servers, byRoom, byServer, swap)} :: DirectionOk(servers, byRoom, byServer, swap)
  }

  lemma ServersAfterPut(servers: map<Pair, Bytes>, byRoom: Table, byServer: Table, p: Pair)
    requires ServersOk(servers, byRoom, byServer) && ValidPair(p)
    ensures ServersOk(servers[p := []], byRoom[Join(p.0, p.1) := []], byServer[Join(p.1, p.0) := []])
  {
    var servers', byRoom', byServer' := servers[p := []], byRoom[Join(p.0, p.1) := []], byServer[Join(p.1, p.0) := []];
    forall swap
      ensures DirectionOk(servers', byRoom', byServer', swap)
    {
      assert DirectionOk(servers, byRoom, byServer, swap);
      HoldsPut(if swap then byServer else byRoom, servers, swap, p, []);
    }
  }

  lemma ServersAfterRemove(servers: map<Pair, Bytes>, byRoom: Table, byServer: Table, p: Pair)
    requires ServersOk(servers, byRoom, byServer) && ValidPair(p)
    ensures ServersOk(servers - {p}, byRoom - {Join(p.0, p.1)}, byServer - {Join(p.1, p.0)})
  {
    var servers', byRoom', byServer' := servers - {p}, byRoom - {Join(p.0, p.1)}, byServer - {Join(p.1, p.0)};
    forall swap
      ensures DirectionOk(servers', byRoom', byServer', swap)
    {
      assert DirectionOk(servers, byRoom, byServer, swap);
      HoldsRemove(if swap then byServer else byRoom, servers, swap, p);
    }
  }

  /** `room_servers`, `server_rooms` and `server_in_room` read the same pairs. */
  lemma ServerLookupsAgree(servers: map<Pair, Bytes>, byRoom: Table, byServer: Table, room: Bytes, server: Bytes)
    requires ServersOk(servers, byRoom, byServer) && IsText(room) && IsText(server)
    ensures server in Enumerate(byRoom, room) <==> (room, server) in servers
    ensures room in Enumerate(byServer, server) <==> (room, server) in servers
    ensures Join(server, room) in byServer <==> (room, server) in servers
  {
    assert DirectionOk(servers, byRoom, byServer, false);
    assert DirectionOk(servers, byRoom, byServer, true);
    TextHasNoSep(room);
    TextHasNoSep(server);
    EnumerateMembers(byRoom, servers, false, room);
    EnumerateMembers(byServer, servers, true, server);
    PartnersMember(servers, room, false, server);
    PartnersMember(servers, server, true, room);
    HoldsGet(byServer, servers, true, (room, server));
  }

  lemma RoomServersAre(servers: map<Pair, Bytes>, byRoom: Table, byServer: Table, room: Bytes)
    requires ServersOk(servers, byRoom, byServer) && IsText(room)
    ensures forall s :: s in Enumerate(byRoom, room) <==> (room, s) in servers
    ensures Ascending(Enumerate(byRoom, room))
  {
    assert DirectionOk(servers, byRoom, byServer, false);
    TextHasNoSep(room);
    EnumerateIs(byRoom, servers, false, room);
    EnumerateMembers(byRoom, servers, false, room);
    EnumerateAscending(byRoom, servers, false, room);
    forall s
      ensures s in Partners(servers, room, false) <==> (room, s) in servers
    {
      PartnersMember(servers, room, false, s);
    }
  }

  lemma StoredServerIsText(servers: map<Pair, Bytes>, byRoom: Table, byServer: Table, p: Pair)
    requires ServersOk(servers, byRoom, byServer) && p in servers
    ensures IsText(p.1)
  {
    assert DirectionOk(servers, byRoom, byServer, false);
  }

  lemma JoinedServersAreText(m: Members, ts: Tables, room: Bytes)
    requires TablesOk(m, ts)
    ensures forall s :: s in ServersOf(JoinedTo(m, room)) ==> IsText(s)
  {
    assert SlotOk(m, ts, Slot(JoinedPart, true));
    forall u | u in JoinedTo(m, room)
      ensures IsText(ServerOf(u))
    {
      PartnersMember(Rows(m, JoinedPart), room, true, u);
      assert ValidPair((u, room));
      ServerIsText(u);
    }
  }

  /** A pair of the old index survives unless its server was seen and is no longer joined. */
  ghost predicate DroppedAt(before: map<Pair, Bytes>, now: map<Pair, Bytes>, room: Bytes, joined: set<Bytes>,
                            seen: set<Bytes>, p: Pair) {
    p in now <==> p in before && (p.0 == room && p.1 in seen ==> p.1 in joined)
  }

  ghost predicate Dropped(before: map<Pair, Bytes>, now: map<Pair, Bytes>, room: Bytes, joined: set<Bytes>,
                          seen: set<Bytes>) {
    forall p {:trigger DroppedAt(before, now, room, joined, seen, p)} :: DroppedAt(before, now, room, joined, seen, p)
  }

  lemma DropOne(before: map<Pair, Bytes>, now: map<Pair, Bytes>, now': map<Pair, Bytes>, room: Bytes,
                joined: set<Bytes>, seen: set<Bytes>, server: Bytes)
    requires Dropped(before, now, room, joined, seen)
    requires now' == if server in joined then now else now - {(room, server)}
    ensures Dropped(before, now', room, joined, seen + {server})
  {
    var seen' := seen + {server};
    forall p
      ensures DroppedAt(before, now', room, joined, seen', p)
    {
      assert DroppedAt(before, now, room, joined, seen, p);
    }
  }

  lemma DropAll(before: map<Pair, Bytes>, now: map<Pair, Bytes>, room: Bytes, joined: set<Bytes>, seen: set<Bytes>)
    requires Dropped(before, now, room, joined, seen)
    requires forall s :: s in seen <==> (room, s) in before
    ensures forall p :: p in now <==> p in before && (p.0 == room ==> p.1 in joined)
  {
    forall p
      ensures p in now <==> p in before && (p.0 == room ==> p.1 in joined)
    {
      assert DroppedAt(before, now, room, joined, seen, p);
      assert p.0 == room ==> p == (room, p.1);
    }
  }

  /** The local members that are known not to be deactivated; a failed lookup counts as deactivated. */
  ghost function RealUsers(users: set<Bytes>, ourServer: Bytes, deactivated: Bytes -> Option<bool>): (r: set<Bytes>)
  {
    set u | u in users && OnServer(u, ourServer) && deactivated(u) == Some(false)
  }

  /** Some user of the set is on the server. */
  ghost predicate Present(users: set<Bytes>, server: Bytes) {
    exists u :: u in users && OnServer(u, server)
  }

  lemma PresentServers(users: set<Bytes>, server: Bytes)
    ensures server in ServersOf(users) <==> Present(users, server)
  {
    if server in ServersOf(users) {
      var u :| u in users && ServerOf(u) == server;
      ServerOfExact(u, server);
    }
    if Present(users, server) {
      var u :| u in users && OnServer(u, server);
      ServerOfExact(u, server);
    }
  }

  lemma MembersCounted(m: Members, ts: Tables, room: Bytes)
    requires TablesOk(m, ts) && IsText(room)
    ensures |RoomMembers(ts, room)| == |JoinedTo(m, room)|
    ensures |RoomMembersInvited(ts, room)| == |InvitedTo(m, room)|
    ensures Elems(RoomMembers(ts, room)) == JoinedTo(m, room)
  {
    RoomMembersExact(m, ts, room);
    RoomMembersInvitedExact(m, ts, room);
    SortedElems(JoinedTo(m, room));
  }

  /** The first loop of `update_joined_count`. */
  method Tally(users: seq<Bytes>, ourServer: Bytes, deactivated: Bytes -> Option<bool>)
    returns (joinedCount: nat, joinedServers: set<Bytes>, realUsers: set<Bytes>)
    ensures joinedCount == |users|
    ensures joinedServers == ServersOf(Elems(users)) && forall s :: s in joinedServers <==> Present(Elems(users), s)
    ensures realUsers == RealUsers(Elems(users), ourServer, deactivated)
  {
    joinedCount, joinedServers, realUsers := 0, {}, {};
    for i := 0 to |users|
      invariant joinedCount == i
      invariant joinedServers == ServersOf(Elems(users[..i]))
      invariant realUsers == RealUsers(Elems(users[..i]), ourServer, deactivated)
    {
      var joined := users[i];
      assert Elems(users[..i + 1]) == Elems(users[..i]) + {joined};
      joinedServers := joinedServers + {ServerOf(joined)};
      ServerOfExact(joined, ourServer);
      if ServerOf(joined) == ourServer && deactivated(joined) == Some(false) {
        realUsers := realUsers + {joined};
      }
      joinedCount := joinedCount + 1;
    }
    assert users[..|users|] == users;
    forall s
      ensures s in joinedServers <==> Present(Elems(users), s)
    {
      PresentServers(Elems(users), s);
    }
  }

  class Index {
    var tables: Tables
    var roomJoinedCount: Table
    var roomInvitedCount: Table
    var roomServerIds: Table
    var serverRoomIds: Table
    var realUsers: map<Bytes, set<Bytes>>
    var appserviceInRoom: map<Bytes, map<Bytes, bool>>
    var count: Count

    /** Who stands where, from (user, room). */
    ghost var members: Members
    /** The server index, from (room, server). */
    ghost var servers: map<Pair, Bytes>
    /** Every count an invite or a departure was given, in order. */
    ghost var issued: seq<nat>

    ghost predicate Valid()
      reads this
    {
      && TablesOk(members, tables)
      && ServersOk(servers, roomServerIds, serverRoomIds)
      && CountsOk(members, issued, count)
    }

    constructor ()
      ensures Valid() && members == map[] && servers == map[] && issued == [] && count == 0
    {
      tables := Tables(map[], map[], map[], map[], map[], map[]);
      roomJoinedCount, roomInvitedCount, roomServerIds, serverRoomIds := map[], map[], map[], map[];
      realUsers, appserviceInRoom, count := map[], map[], 0;
      members, servers, issued := map[], map[], [];
      HoldsEmpty(false);
      HoldsEmpty(true);
      new;
      assert forall swap {:trigger DirectionOk(servers, roomServerIds, serverRoomIds, swap)} ::
        DirectionOk(servers, roomServerIds, serverRoomIds, swap);
      assert forall part :: Rows(members, part) == map[];
      assert forall slot {:trigger SlotOk(members, tables, slot)} :: SlotOk(members, tables, slot);
    }

    method MarkAsJoined(user: Bytes, room: Bytes)
      requires Valid() && IsText(user) && IsText(room)
      modifies `tables, `members
      ensures Valid()
      ensures members == old(members)[(user, room) := Joined]
    {
      var userRoom, roomUser := Join(user, room), Join(room, user);
      tables := tables.(userRoomJoined := tables.userRoomJoined[userRoom := []]);
      tables := tables.(roomUserJoined := tables.roomUserJoined[roomUser := []]);
      tables := tables.(userRoomInviteState := tables.userRoomInviteState - {userRoom});
      tables := tables.(roomUserInviteCount := tables.roomUserInviteCount - {roomUser});
      tables := tables.(userRoomLeftState := tables.userRoomLeftState - {userRoom});
      tables := tables.(roomUserLeftCount := tables.roomUserLeftCount - {roomUser});
      ghost var p, s := (user, room), Joined;
      members := members[p := s];
      TablesAfterStanding(old(members), p, s, old(tables), tables);
      CountsAfterStanding(old(members), old(issued), old(count), p, s);
    }

    /** An invite is recorded with the given stripped state at a count above every earlier one. */
    method MarkAsInvited(user: Bytes, room: Bytes, lastState: Option<Bytes>)
      requires Valid() && IsText(user) && IsText(room) && count + 1 < U64
      modifies `tables, `members, `count, `issued
      ensures Valid()
      ensures issued == old(issued) + [count] && old(count) < count
      ensures
        var state := if lastState.Some? then lastState.value else [0x5b, 0x5d];
        members == old(members)[(user, room) := Invited(state, count)]
    {
      var state := if lastState.Some? then lastState.value else EMPTY_LIST;
      WriteInvited(user, room, state);
      ghost var p, s := (user, room), Invited(state, count);
      members, issued := members[p := s], issued + [count];
      TablesAfterStanding(old(members), p, s, old(tables), tables);
      CountsAfterStanding(old(members), old(issued), old(count), p, s);
    }

    method WriteInvited(user: Bytes, room: Bytes, state: Bytes)
      requires count + 1 < U64
      modifies `tables, `count
      ensures count == old(count) + 1
      ensures tables == WithStanding(old(tables), (user, room), Invited(state, count))
    {
      var userRoom, roomUser := Join(user, room), Join(room, user);
      tables := tables.(userRoomInviteState := tables.userRoomInviteState[userRoom := state]);
      count := count + 1;
      tables := tables.(roomUserInviteCount := tables.roomUserInviteCount[roomUser := Be64(count)]);
      tables := tables.(userRoomJoined := tables.userRoomJoined - {userRoom});
      tables := tables.(roomUserJoined := tables.roomUserJoined - {roomUser});
      tables := tables.(userRoomLeftState := tables.userRoomLeftState - {userRoom});
      tables := tables.(roomUserLeftCount := tables.roomUserLeftCount - {roomUser});
    }

    /** A departure is recorded with an empty state at a count above every earlier one. */
    method MarkAsLeft(user: Bytes, room: Bytes)
      requires Valid() && IsText(user) && IsText(room) && count + 1 < U64
      modifies `tables, `members, `count, `issued
      ensures Valid()
      ensures issued == old(issued) + [count] && old(count) < count
      ensures members == old(members)[(user, room) := Left([0x5b, 0x5d], count)]
    {
      WriteLeft(user, room, EMPTY_LIST);
      ghost var p, s := (user, room), Left(EMPTY_LIST, count);
      members, issued := members[p := s], issued + [count];
      TablesAfterStanding(old(members), p, s, old(tables), tables);
      CountsAfterStanding(old(members), old(issued), old(count), p, s);
    }

    method WriteLeft(user: Bytes, room: Bytes, state: Bytes)
      requires count + 1 < U64
      modifies `tables, `count
      ensures count == old(count) + 1
      ensures tables == WithStanding(old(tables), (user, room), Left(state, count))
    {
      var userRoom, roomUser := Join(user, room), Join(room, user);
      tables := tables.(userRoomLeftState := tables.userRoomLeftState[userRoom := state]);
      count := count + 1;
      tables := tables.(roomUserLeftCount := tables.roomUserLeftCount[roomUser := Be64(count)]);
      tables := tables.(userRoomJoined := tables.userRoomJoined - {userRoom});
      tables := tables.(roomUserJoined := tables.roomUserJoined - {roomUser});
      tables := tables.(userRoomInviteState := tables.userRoomInviteState - {userRoom});
      tables := tables.(roomUserInviteCount := tables.roomUserInviteCount - {roomUser});
    }

    method Forget(room: Bytes, user: Bytes)
      requires Valid() && IsText(user) && IsText(room)
      modifies `tables, `members
      ensures Valid()
      ensures members == Forgotten(old(members), (user, room))
    {
      ghost var p := (user, room);
      tables := tables.(userRoomLeftState := tables.userRoomLeftState - {Join(user, room)});
      tables := tables.(roomUserLeftCount := tables.roomUserLeftCount - {Join(room, user)});
      members := Forgotten(members, p);
      TablesAfterForget(old(members), p, old(tables), tables);
      CountsAfterForget(old(members), issued, count, p);
    }

    ghost predicate ServersValid()
      reads this
    {
      ServersOk(servers, roomServerIds, serverRoomIds)
    }

    method RemoveServer(room: Bytes, server: Bytes)
      requires ServersValid() && IsText(room) && IsText(server)
      modifies `roomServerIds, `serverRoomIds, `servers
      ensures ServersValid() && servers == old(servers) - {(room, server)}
    {
      roomServerIds := roomServerIds - {Join(room, server)};
      serverRoomIds := serverRoomIds - {Join(server, room)};
      servers := servers - {(room, server)};
      ServersAfterRemove(old(servers), old(roomServerIds), old(serverRoomIds), (room, server));
    }

    method AddServer(room: Bytes, server: Bytes)
      requires ServersValid() && IsText(room) && IsText(server)
      modifies `roomServerIds, `serverRoomIds, `servers
      ensures ServersValid() && servers == old(servers)[(room, server) := []]
    {
      roomServerIds := roomServerIds[Join(room, server) := []];
      serverRoomIds := serverRoomIds[Join(server, room) := []];
      servers := servers[(room, server) := []];
      ServersAfterPut(old(servers), old(roomServerIds), old(serverRoomIds), (room, server));
    }

    method RoomServers(room: Bytes) returns (r: seq<Bytes>)
      requires ServersValid() && IsText(room)
      ensures forall s :: s in r <==> (room, s) in servers
      ensures forall i, j :: 0 <= i < j < |r| ==> r[i] != r[j]
    {
      r := Enumerate(roomServerIds, room);
      RoomServersAre(servers, roomServerIds, serverRoomIds, room);
    }

    /** Second loop: servers no longer in the room are dropped; what is left over is new. */
    method DropGoneServers(room: Bytes, joinedServers: set<Bytes>) returns (added: set<Bytes>)
      requires ServersValid() && IsText(room)
      modifies `roomServerIds, `serverRoomIds, `servers
      ensures ServersValid()
      ensures forall p :: p in servers <==> p in old(servers) && (p.0 == room ==> p.1 in joinedServers)
      ensures forall s :: s in added <==> s in joinedServers && (room, s) !in old(servers)
    {
      added := joinedServers;
      var oldServers := RoomServers(room);
      ghost var seen: set<Bytes> := {};
      for i := 0 to |oldServers|
        invariant ServersValid()
        invariant forall j :: 0 <= j < |oldServers| ==> (oldServers[j] in seen <==> j < i)
        invariant seen <= Elems(oldServers) && added == joinedServers - seen
        invariant Dropped(old(servers), servers, room, joinedServers, seen)
      {
        var server := oldServers[i];
        assert server in oldServers;
        StoredServerIsText(old(servers), old(roomServerIds), old(serverRoomIds), (room, server));
        ghost var before := servers;
        if server in added {
          added := added - {server};
        } else {
          RemoveServer(room, server);
        }
        DropOne(old(servers), before, servers, room, joinedServers, seen, server);
        seen := seen + {server};
      }
      assert seen == Elems(oldServers);
      DropAll(old(servers), servers, room, joinedServers, seen);
    }

    /** Third loop, over a hash set in any order. */
    method AddNewServers(room: Bytes, added: set<Bytes>)
      requires ServersValid() && IsText(room) && forall s :: s in added ==> IsText(s)
      modifies `roomServerIds, `serverRoomIds, `servers
      ensures ServersValid()
      ensures forall p :: p in servers <==> p in old(servers) || (p.0 == room && p.1 in added)
    {
      var rest := added;
      while rest != {}
        invariant rest <= added && ServersValid()
        invariant forall p :: p in servers <==> p in old(servers) || (p.0 == room && p.1 in added - rest)
        decreases |rest|
      {
        var server :| server in rest;
        AddServer(room, server);
        rest := rest - {server};
      }
    }

    /** The server rows of one room become exactly the given servers. */
    method UpdateServers(room: Bytes, joinedServers: set<Bytes>)
      requires ServersValid() && IsText(room) && forall s :: s in joinedServers ==> IsText(s)
      modifies `roomServerIds, `serverRoomIds, `servers
      ensures ServersValid()
      ensures forall p :: p in servers <==> if p.0 == room then p.1 in joinedServers else p in old(servers)
    {
      var added := DropGoneServers(room, joinedServers);
      AddNewServers(room, added);
    }

    method ListMembers(room: Bytes) returns (joined: seq<Bytes>, invited: seq<Bytes>)
      requires TablesOk(members, tables) && IsText(room)
      ensures |joined| == |JoinedTo(members, room)| && Elems(joined) == JoinedTo(members, room)
      ensures |invited| == |InvitedTo(members, room)|
    {
      joined, invited := RoomMembers(tables, room), RoomMembersInvited(tables, room);
      MembersCounted(members, tables, room);
    }

    method UpdateCounts(room: Bytes, ourServer: Bytes, deactivated: Bytes -> Option<bool>)
      returns (joinedServers: set<Bytes>)
      requires TablesOk(members, tables) && IsText(room)
      requires |JoinedTo(members, room)| < U64 && |InvitedTo(members, room)| < U64
      modifies `roomJoinedCount, `roomInvitedCount, `realUsers
      ensures roomJoinedCount == old(roomJoinedCount)[room := Be64(|JoinedTo(members, room)|)]
      ensures roomInvitedCount == old(roomInvitedCount)[room := Be64(|InvitedTo(members, room)|)]
      ensures realUsers == old(realUsers)[room := RealUsers(JoinedTo(members, room), ourServer, deactivated)]
      ensures joinedServers == ServersOf(JoinedTo(members, room))
    {
      var users, invited := ListMembers(room);
      var joinedCount, servers, active := Tally(users, ourServer, deactivated);
      var invitedCount := 0;
      for i := 0 to |invited|
        invariant invitedCount == i
      {
        invitedCount := invitedCount + 1;
      }
      roomJoinedCount := roomJoinedCount[room := Be64(joinedCount)];
      roomInvitedCount := roomInvitedCount[room := Be64(invitedCount)];
      realUsers := realUsers[room := active];
      joinedServers := servers;
    }

    /** Counts and server index equal a recomputation from the members, whatever they were
        before; rows of other rooms are untouched. */
    method UpdateJoinedCount(room: Bytes, ourServer: Bytes, deactivated: Bytes -> Option<bool>)
      requires Valid() && IsText(room)
      requires |JoinedTo(members, room)| < U64 && |InvitedTo(members, room)| < U64
      modifies `roomJoinedCount, `roomInvitedCount, `realUsers, `roomServerIds, `serverRoomIds, `servers
      modifies `appserviceInRoom
      ensures Valid()
      ensures appserviceInRoom == old(appserviceInRoom) - {room}
      ensures roomJoinedCount == old(roomJoinedCount)[room := Be64(|JoinedTo(members, room)|)]
      ensures roomInvitedCount == old(roomInvitedCount)[room := Be64(|InvitedTo(members, room)|)]
      ensures realUsers == old(realUsers)[room := RealUsers(JoinedTo(members, room), ourServer, deactivated)]
      ensures forall p :: p in servers <==>
        if p.0 == room then Present(JoinedTo(members, room), p.1) else p in old(servers)
    {
      var joinedServers := UpdateCounts(room, ourServer, deactivated);
      JoinedServersAreText(members, tables, room);
      UpdateServers(room, joinedServers);
      forall s
        ensures s in joinedServers <==> Present(JoinedTo(members, room), s)
      {
        PresentServers(JoinedTo(members, room), s);
      }
      appserviceInRoom := appserviceInRoom - {room};
    }
  }
}
