/** The search route: merging the rooms' results and paging through the merge.
 */
module SearchPaging {
  import opened ByteStrings
  import opened KvTable

  // ------------------------------------------------------------------
  // The merge
  // ------------------------------------------------------------------

  /** The last list with a largest head among the first n, as `max_by_key` picks it. */
  function Best(rest: seq<seq<Bytes>>, n: nat): (r: Option<nat>)
    requires n <= |rest|
    ensures r.Some? ==> r.value < n && rest[r.value] != []
  {
    if n == 0 then None
    else
      var b := Best(rest, n - 1);
      if rest[n - 1] == [] then b
      else if b.Some? && !LexLe(rest[b.value][0], rest[n - 1][0]) then b
      else Some(n - 1)
  }

  /** Its head is at least as large as every other head, and without it all lists are empty. */
  lemma {:induction false} BestIsLargest(rest: seq<seq<Bytes>>, n: nat)
    requires n <= |rest|
    ensures Best(rest, n).None? ==> forall i :: 0 <= i < n ==> rest[i] == []
    ensures Best(rest, n).Some? ==>
      forall i :: 0 <= i < n && rest[i] != [] ==> LexLe(rest[i][0], rest[Best(rest, n).value][0])
  {
    if n != 0 {
      BestIsLargest(rest, n - 1);
      var b := Best(rest, n - 1);
      if rest[n - 1] != [] {
        LexRefl(rest[n - 1][0]);
        if b.Some? {
          LexTotal(rest[b.value][0], rest[n - 1][0]);
          if LexLe(rest[b.value][0], rest[n - 1][0]) {
            forall i | 0 <= i < n - 1 && rest[i] != []
              ensures LexLe(rest[i][0], rest[n - 1][0])
            {
              LexTrans(rest[i][0], rest[b.value][0], rest[n - 1][0]);
            }
          }
        }
      }
    }
  }

  function Size(rest: seq<seq<Bytes>>): (n: nat) {
    if rest == [] then 0 else |rest[0]| + Size(rest[1..])
  }

  lemma {:induction false} SizeStep(rest: seq<seq<Bytes>>, i: nat)
    requires i < |rest| && rest[i] != []
    ensures Size(rest[i := rest[i][1..]]) == Size(rest) - 1
  {
    var rest' := rest[i := rest[i][1..]];
    if i == 0 {
      assert rest'[1..] == rest[1..];
    } else {
      assert rest'[1..] == rest[1..][i - 1 := rest[i][1..]];
      SizeStep(rest[1..], i - 1);
    }
  }

  /** Everything the iterators yield when the largest head is taken again and again. */
  function Merge(rest: seq<seq<Bytes>>): (r: seq<Bytes>)
    decreases Size(rest)
  {
    match Best(rest, |rest|)
    case None => []
    case Some(i) =>
      SizeStep(rest, i);
      [rest[i][0]] + Merge(rest[i := rest[i][1..]])
  }

  ghost function Contents(rest: seq<seq<Bytes>>): (m: multiset<Bytes>) {
    if rest == [] then multiset{} else multiset(rest[0]) + Contents(rest[1..])
  }

  lemma {:induction false} ContentsStep(rest: seq<seq<Bytes>>, i: nat)
    requires i < |rest| && rest[i] != []
    ensures Contents(rest) == multiset{rest[i][0]} + Contents(rest[i := rest[i][1..]])
  {
    var rest' := rest[i := rest[i][1..]];
    assert rest[i] == [rest[i][0]] + rest[i][1..];
    if i == 0 {
      assert rest'[1..] == rest[1..];
    } else {
      assert rest'[1..] == rest[1..][i - 1 := rest[i][1..]];
      ContentsStep(rest[1..], i - 1);
    }
  }

  lemma {:induction false} ContentsEmpty(rest: seq<seq<Bytes>>)
    requires forall i :: 0 <= i < |rest| ==> rest[i] == []
    ensures Contents(rest) == multiset{}
  {
    if rest != [] {
      ContentsEmpty(rest[1..]);
    }
  }

  /** The merge has exactly the elements of all lists. */
  lemma {:induction false} MergeContents(rest: seq<seq<Bytes>>)
    ensures multiset(Merge(rest)) == Contents(rest)
    decreases Size(rest)
  {
    BestIsLargest(rest, |rest|);
    match Best(rest, |rest|) {
      case None => ContentsEmpty(rest);
      case Some(i) =>
        SizeStep(rest, i);
        ContentsStep(rest, i);
        MergeContents(rest[i := rest[i][1..]]);
    }
  }

  ghost predicate Falling(s: seq<Bytes>) {
    forall i, j :: 0 <= i < j < |s| ==> LexLe(s[j], s[i])
  }

  ghost predicate AllFalling(rest: seq<seq<Bytes>>) {
    forall i :: 0 <= i < |rest| ==> Falling(rest[i])
  }

  ghost predicate Below(rest: seq<seq<Bytes>>, x: Bytes) {
    forall i :: 0 <= i < |rest| && rest[i] != [] ==> LexLe(rest[i][0], x)
  }

  lemma BelowStep(rest: seq<seq<Bytes>>, i: nat)
    requires AllFalling(rest) && i < |rest| && rest[i] != [] && Below(rest, rest[i][0])
    ensures AllFalling(rest[i := rest[i][1..]]) && Below(rest[i := rest[i][1..]], rest[i][0])
  {
  }

  /** On descending lists the merge descends. */
  lemma {:induction false} MergeFalls(rest: seq<seq<Bytes>>, x: Bytes)
    requires AllFalling(rest) && Below(rest, x)
    ensures Falling(Merge(rest))
    ensures forall j :: 0 <= j < |Merge(rest)| ==> LexLe(Merge(rest)[j], x)
    decreases Size(rest)
  {
    BestIsLargest(rest, |rest|);
    match Best(rest, |rest|) {
      case None =>
      case Some(i) =>
        var head, rest' := rest[i][0], rest[i := rest[i][1..]];
        SizeStep(rest, i);
        BelowStep(rest, i);
        MergeFalls(rest', head);
        forall j | 0 <= j < |Merge(rest')|
          ensures LexLe(Merge(rest')[j], x)
        {
          LexTrans(Merge(rest')[j], head, x);
        }
    }
  }

  /** The merge of the rooms' results is their descending enumeration. */
  lemma MergeDescends(rest: seq<seq<Bytes>>)
    requires AllFalling(rest)
    ensures Falling(Merge(rest)) && multiset(Merge(rest)) == Contents(rest)
  {
    MergeContents(rest);
    BestIsLargest(rest, |rest|);
    match Best(rest, |rest|) {
      case None =>
      case Some(i) => MergeFalls(rest, rest[i][0]);
    }
  }

  // ------------------------------------------------------------------
  // One page
  // ------------------------------------------------------------------

  function Drop(s: seq<Bytes>, n: nat): (r: seq<Bytes>) {
    if |s| <= n then [] else s[n..]
  }

  /** The elements between two positions whose lookup in the timeline does not fail. */
  function Found(ok: Bytes -> bool, s: seq<Bytes>, lo: nat, hi: nat): (r: seq<Bytes>)
    requires lo <= hi <= |s|
    ensures |r| <= hi - lo
    decreases hi - lo
  {
    if lo == hi then [] else Found(ok, s, lo, hi - 1) + (if ok(s[hi - 1]) then [s[hi - 1]] else [])
  }

  /** `.filter_map(|r| r.ok()).skip(skip).take(limit)` of the results. */
  function PageOf(ok: Bytes -> bool, results: seq<Bytes>, skip: nat, limit: nat): (r: seq<Bytes>) {
    Take(Drop(Found(ok, results, 0, |results|), skip), limit)
  }

  /** The page of the first `skip + limit` results. */
  function Page(ok: Bytes -> bool, all: seq<Bytes>, skip: nat, limit: nat): (r: seq<Bytes>) {
    PageOf(ok, Take(all, skip + limit), skip, limit)
  }

  function NextBatch(page: seq<Bytes>, skip: nat, limit: nat): (r: Option<nat>) {
    if |page| < limit then None else Some(skip + limit)
  }

  method LargestHead(rest: seq<seq<Bytes>>) returns (best: Option<nat>)
    ensures best == Best(rest, |rest|)
  {
    best := None;
    var n := 0;
    while n < |rest|
      invariant n <= |rest| && best == Best(rest, n)
    {
      if rest[n] != [] && (best.None? || LexLe(rest[best.value][0], rest[n][0])) {
        best := Some(n);
      }
      n := n + 1;
    }
  }

  method Results(lists: seq<seq<Bytes>>, n: nat) returns (results: seq<Bytes>)
    ensures results == Take(Merge(lists), n)
  {
    results := [];
    var rest := lists;
    var k := 0;
    while k < n
      invariant k <= n && |results| <= k
      invariant results + Merge(rest) == Merge(lists)
      invariant |results| < k ==> Merge(rest) == []
    {
      var best := LargestHead(rest);
      match best {
        case None =>
        case Some(i) =>
          SizeStep(rest, i);
          assert Merge(rest) == [rest[i][0]] + Merge(rest[i := rest[i][1..]]);
          results := results + [rest[i][0]];
          rest := rest[i := rest[i][1..]];
      }
      k := k + 1;
    }
  }

  method Lookups(ok: Bytes -> bool, results: seq<Bytes>) returns (found: seq<Bytes>)
    ensures found == Found(ok, results, 0, |results|)
  {
    found := [];
    var i := 0;
    while i < |results|
      invariant i <= |results| && found == Found(ok, results, 0, i)
    {
      if ok(results[i]) {
        found := found + [results[i]];
      }
      i := i + 1;
    }
  }

  /** One request to the search route. When `skip + limit` wraps around, as it does in an
      optimised build, the page is empty and the last one. */
  method SearchEvents(lists: seq<seq<Bytes>>, ok: Bytes -> bool, skip: nat, limit: nat)
    returns (page: seq<Bytes>, nextBatch: Option<nat>)
    requires skip < U64 && limit < U64
    ensures skip + limit < U64 ==>
      page == Page(ok, Merge(lists), skip, limit) && nextBatch == NextBatch(page, skip, limit)
    ensures skip + limit >= U64 ==> page == [] && nextBatch == None
  {
    var end := WrappingAdd(skip, limit);
    var results := Results(lists, end);
    var found := Lookups(ok, results);
    page := Take(Drop(found, skip), limit);
    nextBatch := if |page| < limit then None else Some(end);
  }

  // ------------------------------------------------------------------
  // Following `next_batch`
  // ------------------------------------------------------------------

  lemma {:induction false} FoundSplit(ok: Bytes -> bool, s: seq<Bytes>, lo: nat, mid: nat, hi: nat)
    requires lo <= mid <= hi <= |s|
    ensures Found(ok, s, lo, hi) == Found(ok, s, lo, mid) + Found(ok, s, mid, hi)
    decreases hi - mid
  {
    if mid < hi {
      FoundSplit(ok, s, lo, mid, hi - 1);
    }
  }

  lemma {:induction false} FoundPrefix(ok: Bytes -> bool, a: seq<Bytes>, b: seq<Bytes>, lo: nat, hi: nat)
    requires lo <= hi <= |a| && a <= b
    ensures Found(ok, a, lo, hi) == Found(ok, b, lo, hi)
    decreases hi - lo
  {
    if lo < hi {
      FoundPrefix(ok, a, b, lo, hi - 1);
    }
  }

  ghost predicate AllOk(ok: Bytes -> bool, s: seq<Bytes>, lo: nat, hi: nat)
    requires lo <= hi <= |s|
  {
    forall i :: lo <= i < hi ==> ok(s[i])
  }

  lemma {:induction false} FoundAll(ok: Bytes -> bool, s: seq<Bytes>, lo: nat, hi: nat)
    requires lo <= hi <= |s|
    ensures AllOk(ok, s, lo, hi) <==> |Found(ok, s, lo, hi)| == hi - lo
    ensures AllOk(ok, s, lo, hi) ==> Found(ok, s, lo, hi) == s[lo..hi]
    ensures Found(ok, s, lo, hi) == [] <==> forall i :: lo <= i < hi ==> !ok(s[i])
    decreases hi - lo
  {
    if lo < hi {
      FoundAll(ok, s, lo, hi - 1);
    }
  }

  function Until(all: seq<Bytes>, n: nat): (end: nat)
    ensures end <= |all|
  {
    if n <= |all| then n else |all|
  }

  lemma FoundAfter(ok: Bytes -> bool, all: seq<Bytes>, skip: nat, end: nat)
    requires skip <= end <= |all| && AllOk(ok, all, 0, skip)
    ensures Found(ok, all, 0, end) == all[..skip] + Found(ok, all, skip, end)
  {
    FoundSplit(ok, all, 0, skip, end);
    FoundAll(ok, all, 0, skip);
  }

  lemma DropFirst(a: seq<Bytes>, b: seq<Bytes>)
    ensures Drop(a + b, |a|) == b
  {
  }

  /** A page after pages without failed lookups. */
  lemma PageAt(ok: Bytes -> bool, all: seq<Bytes>, skip: nat, limit: nat)
    requires skip <= |all| && AllOk(ok, all, 0, skip)
    ensures Page(ok, all, skip, limit) == Found(ok, all, skip, Until(all, skip + limit))
  {
    var end := Until(all, skip + limit);
    var results := Take(all, skip + limit);
    FoundPrefix(ok, results, all, 0, end);
    FoundAfter(ok, all, skip, end);
    DropFirst(all[..skip], Found(ok, all, skip, end));
  }

  lemma FullPage(ok: Bytes -> bool, all: seq<Bytes>, skip: nat, limit: nat)
    requires skip <= |all| && AllOk(ok, all, 0, skip)
    ensures |Page(ok, all, skip, limit)| < limit <==>
      !(skip + limit <= |all| && AllOk(ok, all, skip, Until(all, skip + limit)))
  {
    PageAt(ok, all, skip, limit);
    FoundAll(ok, all, skip, Until(all, skip + limit));
  }

  /** What the route answers to each token: a page, and the next token. */
  type Server = nat -> (seq<Bytes>, Option<nat>)

  function Answer(ok: Bytes -> bool, all: seq<Bytes>, limit: nat): (server: Server) {
    skip => (Page(ok, all, skip, limit), NextBatch(Page(ok, all, skip, limit), skip, limit))
  }

  /** Tokens only grow, and never beyond the number of results. */
  ghost predicate Ends(server: Server, bound: nat) {
    forall skip: nat :: server(skip).1.Some? ==> skip < server(skip).1.value <= bound
  }

  /** The pages a client gets by following `next_batch`, put together. */
  ghost function Followed(server: Server, bound: nat, skip: nat): (r: seq<Bytes>)
    requires Ends(server, bound)
    decreases bound - skip
  {
    match server(skip).1
    case None => server(skip).0
    case Some(next) => server(skip).0 + Followed(server, bound, next)
  }

  /** Following the route's tokens terminates. */
  lemma AnswersEnd(ok: Bytes -> bool, all: seq<Bytes>, limit: nat)
    requires limit > 0
    ensures Ends(Answer(ok, all, limit), |all|)
  {
  }

  /** The first result whose lookup fails, if any. */
  function FirstBad(ok: Bytes -> bool, all: seq<Bytes>, from: nat): (i: nat)
    requires from <= |all|
    ensures from <= i <= |all| && AllOk(ok, all, from, i) && (i < |all| ==> !ok(all[i]))
    decreases |all| - from
  {
    if from == |all| || !ok(all[from]) then from else FirstBad(ok, all, from + 1)
  }

  /** The end of the page that position `bad` is on, counting pages from `skip`. */
  function PageEnd(bad: nat, skip: nat, limit: nat): (n: nat)
    requires limit > 0 && skip <= bad
    ensures bad < n <= bad + limit
    decreases bad - skip
  {
    if bad < skip + limit then skip + limit else PageEnd(bad, skip + limit, limit)
  }

  /** Where the last page ends: with the page of the first failed lookup. */
  function LastEnd(all: seq<Bytes>, bad: nat, skip: nat, limit: nat): (n: nat)
    requires limit > 0 && skip <= bad <= |all|
    ensures bad <= n <= |all|
  {
    if bad == |all| then |all| else Until(all, PageEnd(bad, skip, limit))
  }

  /** The pages by positions alone: the next one is requested exactly when this one is full. */
  ghost function Slices(ok: Bytes -> bool, all: seq<Bytes>, skip: nat, limit: nat): (r: seq<Bytes>)
    requires limit > 0 && skip <= |all|
    decreases |all| - skip
  {
    var end := Until(all, skip + limit);
    if skip + limit <= |all| && AllOk(ok, all, skip, end) then Found(ok, all, skip, end) + Slices(ok, all, end, limit)
    else Found(ok, all, skip, end)
  }

  /** The server answers with the slice of `all`, and goes on exactly if it is full. */
  ghost predicate ServesAt(server: Server, ok: Bytes -> bool, all: seq<Bytes>, limit: nat, skip: nat) {
    skip <= |all| && AllOk(ok, all, 0, skip) ==>
      var end := Until(all, skip + limit);
      && server(skip).0 == Found(ok, all, skip, end)
      && server(skip).1 == if skip + limit <= |all| && AllOk(ok, all, skip, end) then Some(skip + limit) else None
  }

  ghost predicate Serves(server: Server, ok: Bytes -> bool, all: seq<Bytes>, limit: nat) {
    forall skip: nat {:trigger ServesAt(server, ok, all, limit, skip)} :: ServesAt(server, ok, all, limit, skip)
  }

  lemma {:induction false} FollowedIsSlices(server: Server, ok: Bytes -> bool, all: seq<Bytes>, skip: nat, limit: nat)
    requires limit > 0 && Serves(server, ok, all, limit) && Ends(server, |all|)
    requires skip <= |all| && AllOk(ok, all, 0, skip)
    ensures Followed(server, |all|, skip) == Slices(ok, all, skip, limit)
    decreases |all| - skip
  {
    assert ServesAt(server, ok, all, limit, skip);
    if server(skip).1.Some? {
      assert AllOk(ok, all, 0, skip + limit);
      FollowedIsSlices(server, ok, all, skip + limit, limit);
    }
  }

  lemma AnswersServe(ok: Bytes -> bool, all: seq<Bytes>, limit: nat)
    ensures Serves(Answer(ok, all, limit), ok, all, limit)
  {
    var server := Answer(ok, all, limit);
    forall skip: nat
      ensures ServesAt(server, ok, all, limit, skip)
    {
      if skip <= |all| && AllOk(ok, all, 0, skip) {
        PageAt(ok, all, skip, limit);
        FullPage(ok, all, skip, limit);
      }
    }
  }

  /** Slices from a page boundary, up to the first failed lookup. */
  lemma {:induction false} SlicesFrom(ok: Bytes -> bool, all: seq<Bytes>, skip: nat, limit: nat, bad: nat)
    requires limit > 0 && skip <= bad <= |all| && AllOk(ok, all, 0, bad) && (bad < |all| ==> !ok(all[bad]))
    ensures Slices(ok, all, skip, limit) == Found(ok, all, skip, LastEnd(all, bad, skip, limit))
    decreases |all| - skip
  {
    if skip + limit <= bad {
      SlicesFrom(ok, all, skip + limit, limit, bad);
      FoundSplit(ok, all, skip, skip + limit, LastEnd(all, bad, skip, limit));
    }
  }

  /** Everything a client sees who starts without a token. */
  ghost function AllPages(ok: Bytes -> bool, all: seq<Bytes>, limit: nat): (r: seq<Bytes>)
    requires limit > 0
  {
    AnswersEnd(ok, all, limit);
    Followed(Answer(ok, all, limit), |all|, 0)
  }

  /** Following `next_batch` ends, and the pages are consecutive slices of the merge up to the
      end of the page with the first failed lookup. */
  lemma PagesUpToFailure(ok: Bytes -> bool, all: seq<Bytes>, limit: nat)
    requires limit > 0
    ensures AllPages(ok, all, limit) == Found(ok, all, 0, LastEnd(all, FirstBad(ok, all, 0), 0, limit))
  {
    AnswersEnd(ok, all, limit);
    AnswersServe(ok, all, limit);
    FollowedIsSlices(Answer(ok, all, limit), ok, all, 0, limit);
    SlicesFrom(ok, all, 0, limit, FirstBad(ok, all, 0));
  }

  lemma NothingAfter(ok: Bytes -> bool, all: seq<Bytes>, end: nat)
    requires end <= |all|
    ensures Found(ok, all, 0, end) == Found(ok, all, 0, |all|) <==> forall i :: end <= i < |all| ==> !ok(all[i])
  {
    FoundSplit(ok, all, 0, end, |all|);
    FoundAll(ok, all, end, |all|);
  }

  /** The pages give every result that can be looked up exactly when nothing after the page of
      the first failed lookup can be looked up; without failures they give the whole merge. */
  lemma PagesComplete(ok: Bytes -> bool, all: seq<Bytes>, limit: nat)
    requires limit > 0
    ensures AllPages(ok, all, limit) == Found(ok, all, 0, |all|) <==>
              forall i :: LastEnd(all, FirstBad(ok, all, 0), 0, limit) <= i < |all| ==> !ok(all[i])
    ensures AllOk(ok, all, 0, |all|) ==> AllPages(ok, all, limit) == all
  {
    var end := LastEnd(all, FirstBad(ok, all, 0), 0, limit);
    PagesUpToFailure(ok, all, limit);
    NothingAfter(ok, all, end);
    if AllOk(ok, all, 0, |all|) {
      FoundAll(ok, all, 0, |all|);
      assert all[0..|all|] == all;
      assert FirstBad(ok, all, 0) == |all|;
    }
  }

  /** Two results, one per page: when the newer one cannot be looked up, the client never sees
      the older one. */
  lemma FailureHidesRest(newer: Bytes, older: Bytes)
    requires newer != older
    ensures
      var ok := (x: Bytes) => x != newer;
      ok(older) && AllPages(ok, [newer, older], 1) == []
  {
  }

  /** With limit zero the token never changes, so following it never ends. */
  lemma LimitZeroNeverEnds(ok: Bytes -> bool, all: seq<Bytes>, skip: nat)
    ensures Page(ok, all, skip, 0) == [] && NextBatch(Page(ok, all, skip, 0), skip, 0) == Some(skip)
  {
  }
}
