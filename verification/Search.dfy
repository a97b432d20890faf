/** Full-text search: the `tokenids` index and the cursor-based intersection of the words'
    posting lists.
 */
module Search {
  import opened ByteStrings
  import opened KvTable
  import opened Text
  import opened SearchWords

  // ------------------------------------------------------------------
  // `utils::common_elements`
  // ------------------------------------------------------------------

  ghost predicate InAll(x: Bytes, lists: seq<seq<Bytes>>) {
    forall i :: 0 <= i < |lists| ==> x in lists[i]
  }

  predicate LexLt(a: Bytes, b: Bytes) {
    LexLe(a, b) && a != b
  }

  lemma LexLtTrans(a: Bytes, b: Bytes, c: Bytes)
    requires LexLe(a, b) && LexLt(b, c)
    ensures LexLt(a, c)
  {
    LexTrans(a, b, c);
    if a == c {
      LexAntisym(a, b);
    }
  }

  /** Everything before the cursor is greater than the target, so a descending target list has
      left it behind for good. */
  ghost predicate Passed(list: seq<Bytes>, cursor: nat, target: Bytes)
    requires cursor <= |list|
  {
    forall j :: 0 <= j < cursor ==> LexLt(target, list[j])
  }

  lemma PassedOn(list: seq<Bytes>, cursor: nat, target: Bytes, next: Bytes)
    requires cursor <= |list| && Passed(list, cursor, target) && LexLe(next, target)
    ensures Passed(list, cursor, next)
  {
    forall j | 0 <= j < cursor
      ensures LexLt(next, list[j])
    {
      LexLtTrans(next, target, list[j]);
    }
  }

  /** One `peek` cursor moves towards the target: the inner `while let` of the filter. */
  method Seek(list: seq<Bytes>, cursor: nat, target: Bytes) returns (cursor': nat, found: bool)
    requires Descending(list) && cursor <= |list| && Passed(list, cursor, target)
    ensures cursor <= cursor' <= |list| && Passed(list, cursor', target)
    ensures found <==> target in list
  {
    cursor' := cursor;
    while cursor' < |list|
      invariant cursor <= cursor' <= |list| && Passed(list, cursor', target)
    {
      if list[cursor'] == target {
        return cursor', true;
      } else if LexLe(list[cursor'], target) {
        // We went too far
        Gone(list, cursor', target);
        return cursor', false;
      }
      LexTotal(list[cursor'], target);
      cursor' := cursor' + 1;
    }
    found := false;
  }

  lemma Gone(list: seq<Bytes>, cursor: nat, target: Bytes)
    requires Descending(list) && cursor < |list| && Passed(list, cursor, target) && LexLt(list[cursor], target)
    ensures target !in list
  {
    if target in list {
      var j :| 0 <= j < |list| && list[j] == target;
      if j > cursor {
        LexAntisym(list[cursor], target);
      }
    }
  }

  ghost predicate CursorsOk(others: seq<seq<Bytes>>, cursors: seq<nat>, target: Bytes) {
    && |cursors| == |others|
    && forall i :: 0 <= i < |others| ==> cursors[i] <= |others[i]| && Passed(others[i], cursors[i], target)
  }

  /** `other_iterators.iter_mut().all(...)`: it stops at the first list without the target, and
      the cursors after it stay where they are. */
  method SeekAll(others: seq<seq<Bytes>>, cursors: seq<nat>, target: Bytes) returns (cursors': seq<nat>, found: bool)
    requires forall i :: 0 <= i < |others| ==> Descending(others[i])
    requires CursorsOk(others, cursors, target)
    ensures CursorsOk(others, cursors', target)
    ensures found <==> InAll(target, others)
  {
    cursors' := cursors;
    var i := 0;
    while i < |others|
      invariant i <= |others| && CursorsOk(others, cursors', target)
      invariant forall j :: 0 <= j < i ==> target in others[j]
    {
      var c, hit := Seek(others[i], cursors'[i], target);
      cursors' := cursors'[i := c];
      if !hit {
        return cursors', false;
      }
      i := i + 1;
    }
    found := true;
  }

  /** On descending lists the peek cursors compute the intersection, in descending order;
      without any list there is no iterator. */
  method CommonElements(lists: seq<seq<Bytes>>) returns (r: Option<seq<Bytes>>)
    requires forall i :: 0 <= i < |lists| ==> Descending(lists[i])
    ensures r.None? <==> lists == []
    ensures r.Some? ==> Descending(r.value) && forall x :: x in r.value <==> InAll(x, lists)
  {
    if lists == [] {
      return None;
    }
    var first, others := lists[0], lists[1..];
    var cursors: seq<nat> := seq(|others|, _ => 0);
    var out := [];
    var t := 0;
    while t < |first|
      invariant t <= |first| && |cursors| == |others|
      invariant t < |first| ==> CursorsOk(others, cursors, first[t])
      invariant Descending(out)
      invariant forall x :: x in out <==> x in first[..t] && InAll(x, others)
    {
      var hit;
      cursors, hit := SeekAll(others, cursors, first[t]);
      assert first[..t + 1] == first[..t] + [first[t]];
      if hit {
        AppendDescending(out, first, t);
        out := out + [first[t]];
      }
      if t + 1 < |first| {
        forall i | 0 <= i < |others|
          ensures Passed(others[i], cursors[i], first[t + 1])
        {
          PassedOn(others[i], cursors[i], first[t], first[t + 1]);
        }
      }
      t := t + 1;
    }
    assert first[..t] == first;
    forall x
      ensures x in out <==> InAll(x, lists)
    {
      assert lists == [first] + others;
    }
    r := Some(out);
  }

  lemma AppendDescending(out: seq<Bytes>, first: seq<Bytes>, t: nat)
    requires t < |first| && Descending(first) && Descending(out)
    requires forall x :: x in out ==> x in first[..t]
    ensures Descending(out + [first[t]])
  {
    forall i | 0 <= i < |out|
      ensures LexLe(first[t], out[i]) && out[i] != first[t]
    {
      assert out[i] in out;
      var j :| 0 <= j < t && first[j] == out[i];
    }
  }

  // ------------------------------------------------------------------
  // Keys
  // ------------------------------------------------------------------

  /** Pdu ids: the short room id and the count. */
  function PduId(room: nat, count: nat): (id: Bytes)
    requires room < U64 && count < U64
  {
    Be64(room) + Be64(count)
  }

  function WordPrefix(room: nat, word: Bytes): (p: Bytes)
    requires room < U64
  {
    Be64(room) + word + [SEP]
  }

  function TokenKey(room: nat, word: Bytes, pduId: Bytes): (key: Bytes)
    requires room < U64
  {
    WordPrefix(room, word) + pduId
  }

  lemma FixedPrefix(a: Bytes, b: Bytes, x: Bytes, y: Bytes)
    requires |a| == |b|
    ensures a + x == b + y <==> a == b && x == y
    ensures a + x <= b + y <==> a == b && x <= y
  {
    if a + x <= b + y {
      forall i | 0 <= i < |a|
        ensures a[i] == b[i]
      {
        assert (a + x)[i] == (b + y)[i];
      }
      forall i | 0 <= i < |x|
        ensures i < |y| && x[i] == y[i]
      {
        assert (a + x)[|a| + i] == (b + y)[|a| + i];
      }
    }
  }

  /** A word's prefix holds exactly the entries of that room and word. */
  lemma WordPrefixExact(room: nat, word: Bytes, room': nat, word': Bytes, id: Bytes)
    requires room < U64 && room' < U64 && IsText(word) && IsText(word')
    ensures WordPrefix(room, word) <= TokenKey(room', word', id) <==> room == room' && word == word'
  {
    TextHasNoSep(word);
    TextHasNoSep(word');
    Be64Injective(room, room');
    assert WordPrefix(room, word) == Be64(room) + (word + [SEP]);
    assert TokenKey(room', word', id) == Be64(room') + (word' + [SEP] + id);
    FixedPrefix(Be64(room), Be64(room'), word + [SEP], word' + [SEP] + id);
    JoinPrefix(word, word', id);
  }

  /** Where the backward scan starts, it sees every pdu of the room, unless the room has the
      largest possible short id: then it sees none. */
  lemma ScanStart(room: nat, word: Bytes, count: nat)
    requires room < U64 && count < U64
    ensures LexLe(TokenKey(room, word, PduId(room, count)), WordPrefix(room, word) + Be64(U64_MAX)) <==> room != U64_MAX
  {
    LexCancel(WordPrefix(room, word), PduId(room, count), Be64(U64_MAX));
    assert Be64(U64_MAX) + [] == Be64(U64_MAX);
    if room != U64_MAX {
      Be64Order(room, U64_MAX, Be64(count), []);
    } else {
      LexCancel(Be64(U64_MAX), Be64(count), []);
    }
  }

  function LastEight(key: Bytes): (b: Bytes) {
    if |key| >= 8 then key[|key| - 8..] else key
  }

  lemma LastEightOfToken(room: nat, word: Bytes, count: nat)
    requires room < U64 && count < U64
    ensures LastEight(TokenKey(room, word, PduId(room, count))) == Be64(count)
  {
  }

  // ------------------------------------------------------------------
  // Posting lists
  // ------------------------------------------------------------------

  /** One call of `index_pdu`. */
  datatype Entry = Entry(room: nat, count: nat, body: string)

  ghost predicate ValidEntry(e: Entry) {
    e.room < U64 && e.count < U64
  }

  /** Some call has stored this word for this pdu. */
  ghost predicate HasToken(u: Unicode, history: seq<Entry>, room: nat, word: Bytes, count: nat) {
    exists e :: e in history && e.room == room && e.count == count && word in IndexWords(u, e.body)
  }

  ghost predicate IsToken(u: Unicode, history: seq<Entry>, key: Bytes) {
    exists room: nat, word, count: nat {:trigger HasToken(u, history, room, word, count)} ::
      && room < U64 && count < U64 && HasToken(u, history, room, word, count)
      && key == TokenKey(room, word, PduId(room, count))
  }

  ghost predicate Indexed(u: Unicode, history: seq<Entry>, t: Table) {
    && ValidUnicode(u)
    && (forall e :: e in history ==> ValidEntry(e))
    && (forall k :: k in t ==> IsToken(u, history, k))
    && (forall room: nat, word, count: nat :: room < U64 && count < U64 && HasToken(u, history, room, word, count) ==>
          TokenKey(room, word, PduId(room, count)) in t)
  }

  function Posting(t: Table, room: nat, word: Bytes): (r: seq<Bytes>)
    requires room < U64
  {
    var keys := ScanBack(t, WordPrefix(room, word), Be64(U64_MAX));
    seq(|keys|, i requires 0 <= i < |keys| => LastEight(keys[i]))
  }

  lemma TokenIsText(u: Unicode, history: seq<Entry>, room: nat, word: Bytes, count: nat)
    requires ValidUnicode(u) && HasToken(u, history, room, word, count)
    ensures IsText(word)
  {
  }

  /** A key that the scan for a word visits is an entry of that word. */
  lemma ScannedKey(u: Unicode, history: seq<Entry>, t: Table, room: nat, word: Bytes, key: Bytes) returns (count: nat)
    requires Indexed(u, history, t) && room < U64 && IsText(word)
    requires key in ScanBack(t, WordPrefix(room, word), Be64(U64_MAX))
    ensures count < U64 && key == TokenKey(room, word, PduId(room, count)) && HasToken(u, history, room, word, count)
    ensures room != U64_MAX
  {
    ScanBackMembers(t, WordPrefix(room, word), Be64(U64_MAX));
    assert IsToken(u, history, key);
    var room': nat, word', count': nat :|
      && room' < U64 && count' < U64 && HasToken(u, history, room', word', count')
      && key == TokenKey(room', word', PduId(room', count'));
    TokenIsText(u, history, room', word', count');
    WordPrefixExact(room, word, room', word', PduId(room', count'));
    ScanStart(room, word, count');
    count := count';
  }

  /** Every element of a posting list is the count of a pdu that has the word. */
  lemma PostingSound(u: Unicode, history: seq<Entry>, t: Table, room: nat, word: Bytes, i: nat) returns (count: nat)
    requires Indexed(u, history, t) && room < U64 && IsText(word) && i < |Posting(t, room, word)|
    ensures count < U64 && Posting(t, room, word)[i] == Be64(count) && HasToken(u, history, room, word, count)
    ensures room != U64_MAX
  {
    var keys := ScanBack(t, WordPrefix(room, word), Be64(U64_MAX));
    assert keys[i] in keys;
    count := ScannedKey(u, history, t, room, word, keys[i]);
    LastEightOfToken(room, word, count);
  }

  /** Every pdu that has the word is in its posting list. */
  lemma PostingComplete(u: Unicode, history: seq<Entry>, t: Table, room: nat, word: Bytes, count: nat)
    requires Indexed(u, history, t) && room < U64_MAX && count < U64 && HasToken(u, history, room, word, count)
    ensures Be64(count) in Posting(t, room, word)
  {
    var keys, key := ScanBack(t, WordPrefix(room, word), Be64(U64_MAX)), TokenKey(room, word, PduId(room, count));
    ScanStart(room, word, count);
    ScanBackMembers(t, WordPrefix(room, word), Be64(U64_MAX));
    assert key in keys;
    var i :| 0 <= i < |keys| && keys[i] == key;
    LastEightOfToken(room, word, count);
    assert Posting(t, room, word)[i] == Be64(count);
  }

  lemma PostingOfLastRoom(u: Unicode, history: seq<Entry>, t: Table, word: Bytes)
    requires Indexed(u, history, t) && IsText(word)
    ensures Posting(t, U64_MAX, word) == []
  {
    if |Posting(t, U64_MAX, word)| > 0 {
      var count := PostingSound(u, history, t, U64_MAX, word, 0);
    }
  }

  lemma PostingDescending(u: Unicode, history: seq<Entry>, t: Table, room: nat, word: Bytes)
    requires Indexed(u, history, t) && room < U64 && IsText(word)
    ensures Descending(Posting(t, room, word))
  {
    var p := WordPrefix(room, word);
    var keys, r := ScanBack(t, p, Be64(U64_MAX)), Posting(t, room, word);
    ScanBackMembers(t, p, Be64(U64_MAX));
    forall i, j | 0 <= i < j < |r|
      ensures LexLe(r[j], r[i]) && r[i] != r[j]
    {
      assert keys[i] in keys && keys[j] in keys;
      var c := ScannedKey(u, history, t, room, word, keys[i]);
      var d := ScannedKey(u, history, t, room, word, keys[j]);
      LastEightOfToken(room, word, c);
      LastEightOfToken(room, word, d);
      LexCancel(p, PduId(room, d), PduId(room, c));
      LexCancel(Be64(room), Be64(d), Be64(c));
    }
  }

  // ------------------------------------------------------------------
  // The index
  // ------------------------------------------------------------------

  ghost predicate IsPosting(t: Table, room: nat, word: Bytes, list: seq<Bytes>)
    requires room < U64
  {
    list == Posting(t, room, word) && Descending(list)
  }

  /** The pdu's stored words contain every query word. */
  ghost predicate Matches(u: Unicode, history: seq<Entry>, room: nat, count: nat, words: seq<Bytes>) {
    forall i :: 0 <= i < |words| ==> HasToken(u, history, room, words[i], count)
  }

  class Index {
    const u: Unicode
    var tokenids: Table
    ghost var history: seq<Entry>

    ghost predicate Valid()
      reads this
    {
      Indexed(u, history, tokenids)
    }

    constructor (u: Unicode)
      requires ValidUnicode(u)
      ensures Valid() && this.u == u && history == [] && tokenids == map[]
    {
      this.u := u;
      tokenids, history := map[], [];
    }

    /** `index_pdu`: the pdu has its words, and no other entry changes. */
    method IndexPdu(room: nat, count: nat, body: string)
      requires Valid() && room < U64 && count < U64
      modifies this
      ensures Valid() && history == old(history) + [Entry(room, count, body)]
    {
      var pduId := PduId(room, count);
      var words := IndexWords(u, body);
      var i := 0;
      while i < |words|
        invariant i <= |words| && history == old(history)
        invariant forall k :: k in tokenids <==>
          k in old(tokenids) || exists j :: 0 <= j < i && k == TokenKey(room, words[j], pduId)
      {
        tokenids := tokenids[TokenKey(room, words[i], pduId) := []];
        i := i + 1;
      }
      IndexedGrows(u, history, old(tokenids), tokenids, Entry(room, count, body));
      history := history + [Entry(room, count, body)];
    }

    /** The iterators over the words' entries, newest pdus first. */
    method Postings(room: nat, words: seq<Bytes>) returns (lists: seq<seq<Bytes>>)
      requires Valid() && room < U64 && forall i :: 0 <= i < |words| ==> IsText(words[i])
      ensures |lists| == |words|
      ensures forall i :: 0 <= i < |words| ==> IsPosting(tokenids, room, words[i], lists[i])
    {
      lists := [];
      var i := 0;
      while i < |words|
        invariant i <= |words| && |lists| == i
        invariant forall j :: 0 <= j < i ==> IsPosting(tokenids, room, words[j], lists[j])
      {
        var list := Posting(tokenids, room, words[i]);
        PostingDescending(u, history, tokenids, room, words[i]);
        assert IsPosting(tokenids, room, words[i], list);
        lists := lists + [list];
        i := i + 1;
      }
    }

    /** `search_pdus`: newest first and without duplicates, exactly the pdus of the room whose
        words contain every query word; no iterator at all for a query without words. The one
        exception is the room with the largest short id, where nothing is found. */
    method SearchPdus(room: nat, query: string) returns (r: Option<seq<Bytes>>, words: seq<Bytes>)
      requires Valid() && room < U64
      ensures words == QueryWords(u, query)
      ensures r.None? <==> words == []
      ensures r.Some? ==> Descending(r.value)
      ensures r.Some? ==> forall id :: id in r.value ==>
                exists count: nat :: count < U64 && id == PduId(room, count) && Matches(u, history, room, count, words)
      ensures r.Some? && room != U64_MAX ==>
                forall count: nat :: count < U64 && Matches(u, history, room, count, words) ==>
                  PduId(room, count) in r.value
      ensures r.Some? && room == U64_MAX ==> r.value == []
    {
      words := QueryWords(u, query);
      var lists := Postings(room, words);
      var common := CommonElements(lists);
      match common {
        case None => r := None;
        case Some(ids) =>
          r := Some(Prepend(Be64(room), ids));
          PrependDescending(Be64(room), ids);
          SearchExact(u, history, tokenids, room, words, lists, ids);
      }
    }
  }

  /** `pduid.extend_from_slice(&id)` for every element. */
  function Prepend(p: Bytes, ids: seq<Bytes>): (r: seq<Bytes>)
    ensures |r| == |ids|
    ensures forall i :: 0 <= i < |r| ==> r[i] == p + ids[i]
  {
    seq(|ids|, i requires 0 <= i < |ids| => p + ids[i])
  }

  lemma PrependDescending(p: Bytes, ids: seq<Bytes>)
    requires Descending(ids)
    ensures Descending(Prepend(p, ids))
  {
    forall i, j | 0 <= i < j < |ids|
      ensures LexLe(p + ids[j], p + ids[i]) && p + ids[i] != p + ids[j]
    {
      LexCancel(p, ids[j], ids[i]);
      LexCancel(p, ids[i], ids[j]);
      if p + ids[i] == p + ids[j] {
        LexAntisym(ids[i], ids[j]);
      }
    }
  }

  lemma TokenStays(u: Unicode, history: seq<Entry>, e: Entry, room: nat, word: Bytes, count: nat)
    requires HasToken(u, history, room, word, count)
    ensures HasToken(u, history + [e], room, word, count)
  {
    var w :| w in history && w.room == room && w.count == count && word in IndexWords(u, w.body);
    assert w in history + [e];
  }

  lemma TokenOfNew(u: Unicode, history: seq<Entry>, e: Entry, j: nat)
    requires j < |IndexWords(u, e.body)|
    ensures HasToken(u, history + [e], e.room, IndexWords(u, e.body)[j], e.count)
  {
    assert e in history + [e];
  }

  lemma TokenIsOldOrNew(u: Unicode, history: seq<Entry>, e: Entry, room: nat, word: Bytes, count: nat)
    requires HasToken(u, history + [e], room, word, count)
    ensures HasToken(u, history, room, word, count)
      || (room == e.room && count == e.count && word in IndexWords(u, e.body))
  {
    var w :| w in history + [e] && w.room == room && w.count == count && word in IndexWords(u, w.body);
    assert w in history || w == e;
  }

  /** The keys of one more call. */
  ghost predicate NewKeyOf(u: Unicode, e: Entry, k: Bytes)
    requires ValidEntry(e)
  {
    var words := IndexWords(u, e.body);
    exists j :: 0 <= j < |words| && k == TokenKey(e.room, words[j], PduId(e.room, e.count))
  }

  lemma GrownKey(u: Unicode, history: seq<Entry>, t: Table, e: Entry, k: Bytes)
    requires Indexed(u, history, t) && ValidEntry(e) && (k in t || NewKeyOf(u, e, k))
    ensures IsToken(u, history + [e], k)
  {
    if k in t {
      var room: nat, word, count: nat :| room < U64 && count < U64 &&
        HasToken(u, history, room, word, count) && k == TokenKey(room, word, PduId(room, count));
      TokenStays(u, history, e, room, word, count);
    } else {
      var words := IndexWords(u, e.body);
      var j :| 0 <= j < |words| && k == TokenKey(e.room, words[j], PduId(e.room, e.count));
      TokenOfNew(u, history, e, j);
    }
  }

  lemma GrownToken(u: Unicode, history: seq<Entry>, t: Table, e: Entry, room: nat, word: Bytes, count: nat)
    requires Indexed(u, history, t) && ValidEntry(e) && room < U64 && count < U64
    requires HasToken(u, history + [e], room, word, count)
    ensures var k := TokenKey(room, word, PduId(room, count)); k in t || NewKeyOf(u, e, k)
  {
    TokenIsOldOrNew(u, history, e, room, word, count);
    if !HasToken(u, history, room, word, count) {
      var words := IndexWords(u, e.body);
      var j :| 0 <= j < |words| && words[j] == word;
    }
  }

  lemma IndexedGrows(u: Unicode, history: seq<Entry>, t: Table, t': Table, e: Entry)
    requires Indexed(u, history, t) && ValidEntry(e)
    requires forall k :: k in t' <==> k in t || NewKeyOf(u, e, k)
    ensures Indexed(u, history + [e], t')
  {
    var history' := history + [e];
    forall k | k in t'
      ensures IsToken(u, history', k)
    {
      GrownKey(u, history, t, e, k);
    }
    forall room: nat, word, count: nat | room < U64 && count < U64 && HasToken(u, history', room, word, count)
      ensures TokenKey(room, word, PduId(room, count)) in t'
    {
      GrownToken(u, history, t, e, room, word, count);
    }
  }

  lemma SearchExact(u: Unicode, history: seq<Entry>, t: Table, room: nat, words: seq<Bytes>,
                    lists: seq<seq<Bytes>>, ids: seq<Bytes>)
    requires Indexed(u, history, t) && room < U64 && words != [] && |lists| == |words|
    requires forall i :: 0 <= i < |words| ==> IsText(words[i]) && IsPosting(t, room, words[i], lists[i])
    requires forall x :: x in ids <==> InAll(x, lists)
    ensures forall id :: id in Prepend(Be64(room), ids) ==>
              exists count: nat :: count < U64 && id == PduId(room, count) && Matches(u, history, room, count, words)
    ensures room != U64_MAX ==> forall count: nat :: count < U64 && Matches(u, history, room, count, words) ==>
              PduId(room, count) in Prepend(Be64(room), ids)
    ensures room == U64_MAX ==> ids == []
  {
    forall i | 0 <= i < |ids|
      ensures exists count: nat ::
        && count < U64 && Prepend(Be64(room), ids)[i] == PduId(room, count)
        && Matches(u, history, room, count, words)
    {
      assert ids[i] in ids;
      FoundMatches(u, history, t, room, words, lists, ids[i]);
    }
    if room != U64_MAX {
      forall count: nat | count < U64 && Matches(u, history, room, count, words)
        ensures PduId(room, count) in Prepend(Be64(room), ids)
      {
        forall i | 0 <= i < |words|
          ensures Be64(count) in lists[i]
        {
          assert HasToken(u, history, room, words[i], count);
          PostingComplete(u, history, t, room, words[i], count);
        }
        assert Be64(count) in ids;
        var j :| 0 <= j < |ids| && ids[j] == Be64(count);
        assert Prepend(Be64(room), ids)[j] == PduId(room, count);
      }
    } else {
      PostingOfLastRoom(u, history, t, words[0]);
      NoneInEmpty(ids, lists);
    }
  }

  lemma NoneInEmpty(ids: seq<Bytes>, lists: seq<seq<Bytes>>)
    requires lists != [] && lists[0] == [] && forall x :: x in ids ==> InAll(x, lists)
    ensures ids == []
  {
    if ids != [] {
      HeadIsMember(ids);
      assert false;
    }
  }

  lemma HeadIsMember(ids: seq<Bytes>)
    requires ids != []
    ensures exists x :: x in ids
  {
    assert ids[0] in ids;
  }

  lemma FoundMatches(u: Unicode, history: seq<Entry>, t: Table, room: nat, words: seq<Bytes>,
                     lists: seq<seq<Bytes>>, id: Bytes)
    requires Indexed(u, history, t) && room < U64 && words != [] && |lists| == |words|
    requires forall i :: 0 <= i < |words| ==> IsText(words[i]) && IsPosting(t, room, words[i], lists[i])
    requires InAll(id, lists)
    ensures exists count: nat :: count < U64 && id == Be64(count) && Matches(u, history, room, count, words)
  {
    assert id in lists[0];
    var j :| 0 <= j < |lists[0]| && lists[0][j] == id;
    var count := PostingSound(u, history, t, room, words[0], j);
    forall i | 0 <= i < |words|
      ensures HasToken(u, history, room, words[i], count)
    {
      assert id in lists[i];
      var j :| 0 <= j < |lists[i]| && lists[i][j] == id;
      var c := PostingSound(u, history, t, room, words[i], j);
      Be64Injective(c, count);
    }
  }
}
