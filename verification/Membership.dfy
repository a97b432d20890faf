/** The membership index: who is joined to, invited to or has left which room, kept in six
    tables that mirror one another, and the member counts and server index derived from them.
 */
module Membership {
  import opened ByteStrings
  import opened KvTable
  import opened PairTable
  import opened Text

  type Count = n: nat | n < U64

  /** A user's standing in a room. Invites and departures carry the stripped state and the
      global count at which they were recorded. */
  datatype Standing =
    | Joined
    | Invited(state: Bytes, at: Count)
    | Left(state: Bytes, at: Count)

  /** From (user, room). */
  type Members = map<Pair, Standing>

  /** The empty JSON array, `[]`. */
  const EMPTY_LIST: Bytes := [0x5b, 0x5d]

  // ------------------------------------------------------------------
  // What the tables hold
  // ------------------------------------------------------------------

  /** The five kinds of row a standing can leave. */
  datatype Part = JoinedPart | InviteState | InviteCount | LeftState | LeftCount

  /** The row of one kind that a standing has, if it has one. */
  function Cell(part: Part, s: Standing): (c: Option<Bytes>) {
    match part
    case JoinedPart => if s.Joined? then Some([]) else None
    case InviteState => if s.Invited? then Some(s.state) else None
    case InviteCount => if s.Invited? then Some(Be64(s.at)) else None
    case LeftState => if s.Left? then Some(s.state) else None
    case LeftCount => if s.Left? then Some(Be64(s.at)) else None
  }

  /** All rows of one kind. */
  ghost function Rows(m: Members, part: Part): (r: map<Pair, Bytes>) {
    map p | p in m && Cell(part, m[p]).Some? :: Cell(part, m[p]).value
  }

  /** Writing or removing one row. */
  function Write(t: Table, k: Bytes, cell: Option<Bytes>): (r: Table) {
    if cell.Some? then t[k := cell.value] else t - {k}
  }

  lemma RowsAt(m: Members, part: Part, q: Pair)
    ensures q in Rows(m, part) <==> q in m && Cell(part, m[q]).Some?
    ensures q in Rows(m, part) ==> Rows(m, part)[q] == Cell(part, m[q]).value
  {
  }

  lemma RowsPut(m: Members, part: Part, p: Pair, s: Standing)
    requires Cell(part, s).Some?
    ensures Rows(m[p := s], part) == Rows(m, part)[p := Cell(part, s).value]
  {
    var rows, rows' := Rows(m, part)[p := Cell(part, s).value], Rows(m[p := s], part);
    forall q
      ensures q in rows' <==> q in rows
      ensures q in rows' ==> rows'[q] == rows[q]
    {
      RowsAt(m, part, q);
      RowsAt(m[p := s], part, q);
    }
  }

  lemma RowsDrop(m: Members, part: Part, p: Pair, s: Standing)
    requires Cell(part, s).None?
    ensures Rows(m[p := s], part) == Rows(m, part) - {p}
  {
    var rows, rows' := Rows(m, part) - {p}, Rows(m[p := s], part);
    forall q
      ensures q in rows' <==> q in rows
      ensures q in rows' ==> rows'[q] == rows[q]
    {
      RowsAt(m, part, q);
      RowsAt(m[p := s], part, q);
    }
  }

  /** A table written to match a new standing holds the rows of the new members. */
  lemma RowsAfterStanding(t: Table, m: Members, part: Part, swap: bool, p: Pair, s: Standing)
    requires Holds(t, Rows(m, part), swap) && ValidPair(p)
    ensures Holds(Write(t, PairKey(p, swap), Cell(part, s)), Rows(m[p := s], part), swap)
  {
    var cell, rows := Cell(part, s), Rows(m, part);
    if cell.Some? {
      RowsPut(m, part, p, s);
      HoldsPut(t, rows, swap, p, cell.value);
    } else {
      RowsDrop(m, part, p, s);
      HoldsRemove(t, rows, swap, p);
    }
  }

  /** What forgetting leaves: only a departure is dropped. */
  ghost function Forgotten(m: Members, p: Pair): (m': Members) {
    if p in m && m[p].Left? then m - {p} else m
  }

  lemma RowsAfterForget(t: Table, m: Members, part: Part, swap: bool, p: Pair)
    requires Holds(t, Rows(m, part), swap) && ValidPair(p)
    ensures part.LeftState? || part.LeftCount? ==> Holds(t - {PairKey(p, swap)}, Rows(Forgotten(m, p), part), swap)
    ensures !(part.LeftState? || part.LeftCount?) ==> Rows(Forgotten(m, p), part) == Rows(m, part)
  {
    if part.LeftState? || part.LeftCount? {
      HoldsRemove(t, Rows(m, part), swap, p);
      assert Rows(Forgotten(m, p), part) == Rows(m, part) - {p};
    }
  }

  /** The joined members of a room, and those invited to it. */
  ghost function JoinedTo(m: Members, room: Bytes): (r: set<Bytes>) {
    Partners(Rows(m, JoinedPart), room, true)
  }

  ghost function InvitedTo(m: Members, room: Bytes): (r: set<Bytes>) {
    Partners(Rows(m, InviteCount), room, true)
  }

  // ------------------------------------------------------------------
  // Servers
  // ------------------------------------------------------------------

  const COLON: byte := 0x3a

  function FindColon(user: Bytes): (i: nat)
    ensures i <= |user|
    ensures i < |user| ==> user[i] == COLON
  {
    if user == [] || user[0] == COLON then 0 else 1 + FindColon(user[1..])
  }

  /** `UserId::server_name`: what follows the first colon. */
  function ServerOf(user: Bytes): (server: Bytes) {
    var i := FindColon(user);
    if i < |user| then user[i + 1..] else []
  }

  /** The user is on the server: a local part without a colon, a colon, the server. A user without
      a colon counts as on the empty server. */
  ghost predicate OnServer(user: Bytes, server: Bytes) {
    || (exists local :: 0x3a !in local && user == local + [0x3a] + server)
    || (0x3a !in user && server == [])
  }

  lemma {:induction false} FirstColon(local: Bytes, rest: Bytes)
    requires 0x3a !in local && (rest == [] || rest[0] == 0x3a)
    ensures FindColon(local + rest) == |local|
  {
    if local == [] {
      assert local + rest == rest;
    } else {
      assert (local + rest)[1..] == local[1..] + rest;
      FirstColon(local[1..], rest);
    }
  }

  /** Whatever the server is called, even with a port after another colon. */
  lemma ServerAfterColon(local: Bytes, server: Bytes)
    requires 0x3a !in local
    ensures ServerOf(local + [0x3a] + server) == server
  {
    FirstColon(local, [0x3a] + server);
    assert local + [0x3a] + server == local + ([0x3a] + server);
  }

  lemma {:induction false} BeforeColon(user: Bytes)
    ensures 0x3a !in user[..FindColon(user)]
  {
    if user != [] && user[0] != COLON {
      BeforeColon(user[1..]);
      assert user[..FindColon(user)] == [user[0]] + user[1..][..FindColon(user[1..])];
    }
  }

  lemma ServerOfExact(user: Bytes, server: Bytes)
    ensures ServerOf(user) == server <==> OnServer(user, server)
  {
    var i := FindColon(user);
    BeforeColon(user);
    if i < |user| {
      assert user == user[..i] + [0x3a] + user[i + 1..];
      assert user[i] in user;
    } else {
      assert user[..i] == user;
    }
    if local :| 0x3a !in local && user == local + [0x3a] + server {
      ServerAfterColon(local, server);
    }
  }

  lemma ServerIsText(user: Bytes)
    requires IsText(user)
    ensures IsText(ServerOf(user))
  {
    var i := FindColon(user);
    if i < |user| {
      TextAfterAscii(user, i, 0, 0x80, 0xbf);
    }
  }

  /** The servers of a set of users. */
  function ServersOf(users: set<Bytes>): (r: set<Bytes>) {
    set u | u in users :: ServerOf(u)
  }

  // ------------------------------------------------------------------
  // `rooms_joined` scans the user id without a separator
  // ------------------------------------------------------------------

  function RoomsJoined(t: Table, user: Bytes): (r: seq<Bytes>) {
    LastParts(ScanPrefix(t, user))
  }

  /** Some joined user id strictly extends this one. */
  ghost predicate Extended(joined: map<Pair, Bytes>, user: Bytes) {
    exists p :: p in joined && user < p.0
  }

  lemma KeyStartsWithUser(p: Pair, user: Bytes)
    requires ValidPair(p) && IsText(user)
    ensures user <= PairKey(p, false) <==> user <= p.0
    ensures user + [SEP] <= PairKey(p, false) <==> user == p.0
  {
    var k := PairKey(p, false);
    assert user <= k && |user| > |p.0| ==> user[|p.0|] == k[|p.0|] == SEP;
    TextHasNoSep(user);
    TextHasNoSep(p.0);
    JoinPrefix(user, p.0, p.1);
    if user <= k {
      assert forall i :: 0 <= i < |user| ==> user[i] == k[i] == p.0[i];
    }
  }

  lemma KeysWithSeparator(t: Table, joined: map<Pair, Bytes>, user: Bytes)
    requires Holds(t, joined, false) && IsText(user) && !Extended(joined, user)
    ensures KeysWith(t, user) == KeysWith(t, user + [SEP])
  {
    forall k | k in t
      ensures user <= k <==> user + [SEP] <= k
    {
      assert KeyAt(t, joined, false, k);
      var p :| p in joined && k == PairKey(p, false);
      KeyStartsWithUser(p, user);
    }
  }

  lemma StrictlyMoreKeys(t: Table, joined: map<Pair, Bytes>, user: Bytes)
    requires Holds(t, joined, false) && IsText(user) && Extended(joined, user)
    ensures |KeysWith(t, user + [SEP])| < |KeysWith(t, user)|
  {
    var p :| p in joined && user < p.0;
    HoldsGet(t, joined, false, p);
    KeyStartsWithUser(p, user);
    var all, own := KeysWith(t, user), KeysWith(t, user + [SEP]);
    assert own <= all by {
      forall k | k in own
        ensures k in all
      {
        assert user <= user + [SEP] <= k;
      }
    }
    assert PairKey(p, false) in all - own;
    ProperSubset(own, all);
  }

  lemma ProperSubset(a: set<Bytes>, b: set<Bytes>)
    requires a < b
    ensures |a| < |b|
  {
    var rest := b - a;
    assert b == a + rest && rest != {};
    var x :| x in rest;
    assert |rest| > 0;
  }

  /** `rooms_joined` lists exactly the rooms the user is joined to, each once, if and only if
      no joined user id strictly extends theirs. */
  lemma RoomsJoinedExact(t: Table, joined: map<Pair, Bytes>, user: Bytes)
    requires Holds(t, joined, false) && IsText(user)
    ensures RoomsJoined(t, user) == Sorted(Partners(joined, user, false)) <==> !Extended(joined, user)
  {
    EnumerateIs(t, joined, false, user);
    ScanPrefixIsFilter(t, user);
    ScanPrefixIsFilter(t, user + [SEP]);
    if Extended(joined, user) {
      StrictlyMoreKeys(t, joined, user);
      assert |RoomsJoined(t, user)| > |Enumerate(t, user)|;
    } else {
      KeysWithSeparator(t, joined, user);
    }
  }

  lemma AsciiIsText(b: Bytes)
    requires forall i :: 0 <= i < |b| ==> b[i] < 0x80
    ensures IsText(b)
  {
    if b != [] {
      AsciiIsText(b[1..]);
    }
  }

  lemma OneRow(p: Pair)
    requires ValidPair(p)
    ensures Holds(map[PairKey(p, false) := []], map[p := []], false)
  {
    HoldsEmpty(false);
    HoldsPut(map[], map[], false, p, []);
  }

  lemma ScanOneRow(t: Table, user: Bytes, k: Bytes)
    requires t.Keys == {k} && user <= k
    ensures ScanPrefix(t, user) == [k]
  {
    ScanPrefixMembers(t, user);
    assert KeysWith(t, user) == {k};
    var keys := ScanPrefix(t, user);
    assert keys[0] in keys;
  }

  /** One row of a longer user id is enough to list its room for the shorter one. */
  lemma LongerUserLeaks(user: Bytes, longer: Bytes, room: Bytes)
    requires IsText(user) && IsText(longer) && IsText(room) && user < longer
    ensures
      var t: Table := map[Join(longer, room) := []];
      && Holds(t, map[(longer, room) := []], false)
      && Join(user, room) !in t
      && RoomsJoined(t, user) == [room]
  {
    var p, k := (longer, room), Join(longer, room);
    var t: Table := map[k := []];
    OneRow(p);
    HoldsGet(t, map[p := []], false, (user, room));
    KeyStartsWithUser(p, user);
    ScanOneRow(t, user, k);
    TextHasNoSep(room);
    LastPartJoin(longer, room);
  }

  /** With only `@a:bc` joined to `!r:b`, `rooms_joined` of `@a:b` lists `!r:b`. */
  lemma RoomsJoinedLeaks()
    ensures
      var user: Bytes, longer: Bytes, room: Bytes :=
        [0x40, 0x61, 0x3a, 0x62], [0x40, 0x61, 0x3a, 0x62, 0x63], [0x21, 0x72, 0x3a, 0x62];
      var t: Table := map[Join(longer, room) := []];
      && Holds(t, map[(longer, room) := []], false)
      && Join(user, room) !in t
      && RoomsJoined(t, user) == [room]
  {
    var user: Bytes, longer: Bytes, room: Bytes :=
      [0x40, 0x61, 0x3a, 0x62], [0x40, 0x61, 0x3a, 0x62, 0x63], [0x21, 0x72, 0x3a, 0x62];
    AsciiIsText(user);
    AsciiIsText(longer);
    AsciiIsText(room);
    assert longer == user + [0x63];
    LongerUserLeaks(user, longer, room);
  }
}
