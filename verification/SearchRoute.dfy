/** The search route as a whole: from the indexed messages to the pages a client puts together.
 */
module SearchRoute {
  import opened ByteStrings
  import opened KvTable
  import opened Search
  import opened SearchWords
  import opened SearchPaging

  /** The id of a pdu of the room whose stored words contain every query word. */
  ghost predicate Hit(u: Unicode, history: seq<Entry>, room: nat, words: seq<Bytes>, id: Bytes)
    requires room < U64
  {
    exists count: nat :: count < U64 && id == PduId(room, count) && Matches(u, history, room, count, words)
  }

  /** What one room yields: its hits in descending order, except for the room with the largest
      short id, which yields nothing. */
  ghost predicate Yields(u: Unicode, history: seq<Entry>, room: nat, words: seq<Bytes>, list: seq<Bytes>)
    requires room < U64
  {
    && Descending(list)
    && (forall id :: id in list <==> room != U64_MAX && Hit(u, history, room, words, id))
  }

  ghost predicate RoomAt(u: Unicode, history: seq<Entry>, rooms: seq<nat>, words: seq<Bytes>,
                         lists: seq<seq<Bytes>>, i: nat) {
    i < |rooms| && i < |lists| ==> rooms[i] < U64 && Yields(u, history, rooms[i], words, lists[i])
  }

  ghost predicate RoomsYield(u: Unicode, history: seq<Entry>, rooms: seq<nat>, words: seq<Bytes>,
                             lists: seq<seq<Bytes>>) {
    |lists| == |rooms| && forall i: nat {:trigger RoomAt(u, history, rooms, words, lists, i)} ::
      RoomAt(u, history, rooms, words, lists, i)
  }

  /** Some room that is searched has this hit. */
  ghost predicate HitIn(u: Unicode, history: seq<Entry>, rooms: seq<nat>, words: seq<Bytes>, id: Bytes) {
    words != [] && exists i :: 0 <= i < |rooms| && rooms[i] < U64_MAX && Hit(u, history, rooms[i], words, id)
  }

  /** Searching one room. */
  method SearchRoom(index: Index, room: nat, query: string) returns (r: Option<seq<Bytes>>)
    requires index.Valid() && room < U64
    ensures r.None? <==> QueryWords(index.u, query) == []
    ensures r.Some? ==> Yields(index.u, index.history, room, QueryWords(index.u, query), r.value)
  {
    var words;
    r, words := index.SearchPdus(room, query);
  }

  /** The loop over the rooms: it ends with an error at the first room the user is not joined to,
      and a query without words has no iterators. */
  method SearchRooms(index: Index, rooms: seq<nat>, joined: nat -> bool, query: string)
    returns (r: Option<seq<seq<Bytes>>>)
    requires index.Valid() && forall i :: 0 <= i < |rooms| ==> rooms[i] < U64
    ensures r.None? <==> exists i :: 0 <= i < |rooms| && !joined(rooms[i])
    ensures r.Some? && QueryWords(index.u, query) == [] ==> r.value == []
    ensures r.Some? && QueryWords(index.u, query) != [] ==>
      RoomsYield(index.u, index.history, rooms, QueryWords(index.u, query), r.value)
  {
    ghost var words := QueryWords(index.u, query);
    var lists: seq<seq<Bytes>> := [];
    for i := 0 to |rooms|
      invariant forall j :: 0 <= j < i ==> joined(rooms[j])
      invariant |lists| == if words == [] then 0 else i
      invariant forall j: nat {:trigger RoomAt(index.u, index.history, rooms, words, lists, j)} ::
        words != [] ==> RoomAt(index.u, index.history, rooms, words, lists, j)
    {
      if !joined(rooms[i]) {
        return None;
      }
      var list := SearchRoom(index, rooms[i], query);
      if list.Some? {
        ghost var before := lists;
        lists := lists + [list.value];
        forall j: nat
          ensures RoomAt(index.u, index.history, rooms, words, lists, j)
        {
          assert RoomAt(index.u, index.history, rooms, words, before, j);
        }
      }
    }
    r := Some(lists);
  }

  // ------------------------------------------------------------------
  // The merge of the rooms
  // ------------------------------------------------------------------

  lemma {:induction false} InContents(lists: seq<seq<Bytes>>, id: Bytes)
    ensures id in Contents(lists) <==> exists i :: 0 <= i < |lists| && id in lists[i]
  {
    if lists != [] {
      InContents(lists[1..], id);
      if id in Contents(lists[1..]) {
        var i :| 0 <= i < |lists[1..]| && id in lists[1..][i];
        assert id in lists[i + 1];
      }
      if i :| 0 <= i < |lists| && id in lists[i] {
        assert i > 0 ==> id in lists[1..][i - 1];
      }
    }
  }

  /** The merge has exactly the hits of all rooms. */
  lemma MergedHits(u: Unicode, history: seq<Entry>, rooms: seq<nat>, words: seq<Bytes>,
                   lists: seq<seq<Bytes>>, id: Bytes)
    requires RoomsYield(u, history, rooms, words, lists) && words != []
    ensures id in Merge(lists) <==> HitIn(u, history, rooms, words, id)
  {
    MergeContents(lists);
    InContents(lists, id);
    assert id in Merge(lists) <==> id in multiset(Merge(lists));
    if i :| 0 <= i < |lists| && id in lists[i] {
      assert RoomAt(u, history, rooms, words, lists, i);
    }
    if HitIn(u, history, rooms, words, id) {
      var i :| 0 <= i < |rooms| && rooms[i] < U64_MAX && Hit(u, history, rooms[i], words, id);
      assert RoomAt(u, history, rooms, words, lists, i);
    }
  }

  lemma RoomsFall(u: Unicode, history: seq<Entry>, rooms: seq<nat>, words: seq<Bytes>, lists: seq<seq<Bytes>>)
    requires RoomsYield(u, history, rooms, words, lists)
    ensures AllFalling(lists)
  {
    forall i | 0 <= i < |lists|
      ensures Falling(lists[i])
    {
      assert RoomAt(u, history, rooms, words, lists, i);
    }
  }

  /** Hits of different rooms are different. */
  lemma RoomsApart(u: Unicode, history: seq<Entry>, words: seq<Bytes>, room: nat, room': nat, id: Bytes)
    requires room < U64 && room' < U64 && Hit(u, history, room, words, id) && Hit(u, history, room', words, id)
    ensures room == room'
  {
    var count: nat :| count < U64 && id == PduId(room, count) && Matches(u, history, room, count, words);
    var count': nat :| count' < U64 && id == PduId(room', count') && Matches(u, history, room', count', words);
    assert PduId(room, count)[..8] == Be64(room) && PduId(room', count')[..8] == Be64(room');
    Be64Injective(room, room');
  }

  lemma {:induction false} OnceInDescending(s: seq<Bytes>, x: Bytes)
    requires Descending(s)
    ensures multiset(s)[x] <= 1
  {
    if s != [] {
      assert s == [s[0]] + s[1..];
      OnceInDescending(s[1..], x);
      assert x in s[1..] ==> x != s[0];
    }
  }

  ghost predicate InOne(lists: seq<seq<Bytes>>, id: Bytes) {
    forall i, j :: 0 <= i < j < |lists| ==> id !in lists[i] || id !in lists[j]
  }

  lemma {:induction false} OnceInContents(lists: seq<seq<Bytes>>, id: Bytes)
    requires InOne(lists, id) && forall i :: 0 <= i < |lists| ==> Descending(lists[i])
    ensures Contents(lists)[id] <= 1
  {
    if lists != [] {
      OnceInDescending(lists[0], id);
      OnceInContents(lists[1..], id);
      InContents(lists[1..], id);
      if id in lists[0] {
        assert forall j :: 0 <= j < |lists[1..]| ==> id !in lists[1..][j];
      }
    }
  }

  lemma {:induction false} TwiceCounted(s: seq<Bytes>, i: nat, j: nat)
    requires i < j < |s| && s[i] == s[j]
    ensures multiset(s)[s[i]] >= 2
  {
    assert s == s[..j] + [s[j]] + s[j + 1..];
    assert s[i] in s[..j];
  }

  /** No duplicates when no room is searched twice. */
  lemma MergeDistinct(u: Unicode, history: seq<Entry>, rooms: seq<nat>, words: seq<Bytes>, lists: seq<seq<Bytes>>)
    requires RoomsYield(u, history, rooms, words, lists)
    requires forall i, j :: 0 <= i < j < |rooms| ==> rooms[i] != rooms[j]
    ensures Descending(Merge(lists))
  {
    RoomsFall(u, history, rooms, words, lists);
    MergeDescends(lists);
    var all := Merge(lists);
    forall i, j | 0 <= i < j < |all|
      ensures LexLe(all[j], all[i]) && all[i] != all[j]
    {
      if all[i] == all[j] {
        TwiceCounted(all, i, j);
        OnceMerged(u, history, rooms, words, lists, all[i]);
        assert false;
      }
    }
  }

  lemma SameRoom(u: Unicode, history: seq<Entry>, rooms: seq<nat>, words: seq<Bytes>, lists: seq<seq<Bytes>>,
                 i: nat, j: nat, id: Bytes)
    requires RoomsYield(u, history, rooms, words, lists) && i < |lists| && j < |lists|
    requires id in lists[i] && id in lists[j]
    ensures rooms[i] == rooms[j]
  {
    assert RoomAt(u, history, rooms, words, lists, i) && RoomAt(u, history, rooms, words, lists, j);
    RoomsApart(u, history, words, rooms[i], rooms[j], id);
  }

  lemma OnceMerged(u: Unicode, history: seq<Entry>, rooms: seq<nat>, words: seq<Bytes>,
                   lists: seq<seq<Bytes>>, id: Bytes)
    requires RoomsYield(u, history, rooms, words, lists)
    requires forall i, j :: 0 <= i < j < |rooms| ==> rooms[i] != rooms[j]
    ensures multiset(Merge(lists))[id] <= 1
  {
    forall i | 0 <= i < |lists|
      ensures Descending(lists[i])
    {
      assert RoomAt(u, history, rooms, words, lists, i);
    }
    forall i, j | 0 <= i < j < |lists|
      ensures id !in lists[i] || id !in lists[j]
    {
      if id in lists[i] && id in lists[j] {
        SameRoom(u, history, rooms, words, lists, i, j, id);
        assert false;
      }
    }
    OnceInContents(lists, id);
    MergeContents(lists);
  }

  /** The whole route: the pages that a client gets over rooms it is joined to, put together, are
      newest first and hold exactly the hits of these rooms, each once if no room is named
      twice, provided that every hit can be looked up. */
  lemma PagesAreHits(u: Unicode, history: seq<Entry>, rooms: seq<nat>, words: seq<Bytes>, lists: seq<seq<Bytes>>,
                     ok: Bytes -> bool, limit: nat)
    requires RoomsYield(u, history, rooms, words, lists) && words != [] && limit > 0
    requires forall id :: HitIn(u, history, rooms, words, id) ==> ok(id)
    ensures
      var pages := AllPages(ok, Merge(lists), limit);
      && Falling(pages)
      && (forall id :: id in pages <==> HitIn(u, history, rooms, words, id))
      && ((forall i, j :: 0 <= i < j < |rooms| ==> rooms[i] != rooms[j]) ==> Descending(pages))
  {
    var all := Merge(lists);
    forall id
      ensures id in all <==> HitIn(u, history, rooms, words, id)
    {
      MergedHits(u, history, rooms, words, lists, id);
    }
    RoomsFall(u, history, rooms, words, lists);
    MergeDescends(lists);
    assert forall i :: 0 <= i < |all| ==> all[i] in all;
    PagesComplete(ok, all, limit);
    if forall i, j :: 0 <= i < j < |rooms| ==> rooms[i] != rooms[j] {
      MergeDistinct(u, history, rooms, words, lists);
    }
  }
}
