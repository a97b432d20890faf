/** The words of a message body or a query: the longest runs of alphanumeric characters. */
module SearchWords {
  import opened ByteStrings
  import opened Text

  /** What the index needs to know about Unicode: which characters are alphanumeric, how many
      bytes a word has, and its lower-case form as bytes. */
  datatype Unicode = Unicode(alphanumeric: char -> bool, len: string -> nat, lower: string -> Bytes)

  ghost predicate ValidUnicode(u: Unicode) {
    forall w :: IsText(u.lower(w))
  }

  /** `split_terminator(!alphanumeric)` without the empty pieces. */
  function Pieces(u: Unicode, body: string, word: string): (r: seq<string>)
    decreases |body|
  {
    if body == "" then (if word == "" then [] else [word])
    else if u.alphanumeric(body[0]) then Pieces(u, body[1..], word + [body[0]])
    else (if word == "" then [] else [word]) + Pieces(u, body[1..], "")
  }

  function Lowered(u: Unicode, words: seq<string>): (r: seq<Bytes>)
    ensures |r| == |words|
    ensures forall i :: 0 <= i < |r| ==> r[i] == u.lower(words[i])
  {
    seq(|words|, i requires 0 <= i < |words| => u.lower(words[i]))
  }

  function Short(u: Unicode, words: seq<string>): (r: seq<string>) {
    if words == [] then []
    else (if u.len(words[0]) <= 50 then [words[0]] else []) + Short(u, words[1..])
  }

  /** The words `index_pdu` stores for a message. */
  function IndexWords(u: Unicode, body: string): (r: seq<Bytes>) {
    Lowered(u, Short(u, Pieces(u, body, "")))
  }

  /** The words `search_pdus` looks for. */
  function QueryWords(u: Unicode, query: string): (r: seq<Bytes>) {
    Lowered(u, Pieces(u, query, ""))
  }

  // ------------------------------------------------------------------
  // What the words are
  // ------------------------------------------------------------------

  /** Alphanumeric throughout, and neither end can be moved outwards. */
  ghost predicate IsWord(u: Unicode, body: string, i: nat, j: nat) {
    && i < j <= |body|
    && (forall k :: i <= k < j ==> u.alphanumeric(body[k]))
    && (i == 0 || !u.alphanumeric(body[i - 1]))
    && (j == |body| || !u.alphanumeric(body[j]))
  }

  /** The spans are all words of the body from a position on, from left to right. */
  ghost predicate AllWords(u: Unicode, body: string, from: nat, spans: seq<(nat, nat)>) {
    && (forall k :: 0 <= k < |spans| ==> from <= spans[k].0 && IsWord(u, body, spans[k].0, spans[k].1))
    && (forall k, l :: 0 <= k < l < |spans| ==> spans[k].1 < spans[l].0)
    && (forall i: nat, j: nat :: from <= i && IsWord(u, body, i, j) ==> (i, j) in spans)
  }

  ghost predicate Spelled(body: string, spans: seq<(nat, nat)>, words: seq<string>) {
    && |words| == |spans|
    && forall k :: 0 <= k < |spans| ==>
         spans[k].0 <= spans[k].1 <= |body| && words[k] == body[spans[k].0..spans[k].1]
  }

  /** No other word touches the run of alphanumeric characters that ends before `n`. */
  lemma OneRun(u: Unicode, body: string, start: nat, n: nat, i: nat, j: nat)
    requires start <= n <= |body| && (forall k :: start <= k < n ==> u.alphanumeric(body[k]))
    requires n == |body| || !u.alphanumeric(body[n])
    requires start <= i <= n && IsWord(u, body, i, j)
    ensures (i, j) == (start, n)
  {
    if i > start || j < n {
      assert false;
    }
  }

  ghost function Run(start: nat, n: nat): (spans: seq<(nat, nat)>) {
    if start == n then [] else [(start, n)]
  }

  /** The run that ends at `n` comes before the words after it. */
  lemma RunThenRest(u: Unicode, body: string, start: nat, n: nat, rest: seq<(nat, nat)>)
    requires start <= n <= |body| && (forall k :: start <= k < n ==> u.alphanumeric(body[k]))
    requires start == 0 || !u.alphanumeric(body[start - 1])
    requires n == |body| || !u.alphanumeric(body[n])
    requires AllWords(u, body, n + 1, rest)
    ensures AllWords(u, body, start, Run(start, n) + rest)
  {
    var spans := Run(start, n) + rest;
    assert start < n ==> IsWord(u, body, start, n);
    forall i: nat, j: nat | start <= i && IsWord(u, body, i, j)
      ensures (i, j) in spans
    {
      if i <= n {
        OneRun(u, body, start, n, i, j);
      } else {
        assert (i, j) in rest;
      }
    }
  }

  /** Where the scan finds words when it has read `n` characters, of which those from `start` on
      are the current word. */
  ghost function Spans(u: Unicode, body: string, start: nat, n: nat): (spans: seq<(nat, nat)>)
    requires start <= n <= |body|
    decreases |body| - n
  {
    if n == |body| then Run(start, n)
    else if u.alphanumeric(body[n]) then Spans(u, body, start, n + 1)
    else Run(start, n) + Spans(u, body, n + 1, n + 1)
  }

  lemma {:induction false} SpansAreAllWords(u: Unicode, body: string, start: nat, n: nat)
    requires start <= n <= |body| && (forall k :: start <= k < n ==> u.alphanumeric(body[k]))
    requires start == 0 || !u.alphanumeric(body[start - 1])
    ensures AllWords(u, body, start, Spans(u, body, start, n))
    decreases |body| - n
  {
    if n == |body| {
      RunThenRest(u, body, start, n, []);
      assert Run(start, n) + [] == Run(start, n);
    } else if u.alphanumeric(body[n]) {
      SpansAreAllWords(u, body, start, n + 1);
    } else {
      SpansAreAllWords(u, body, n + 1, n + 1);
      RunThenRest(u, body, start, n, Spans(u, body, n + 1, n + 1));
    }
  }

  lemma {:induction false} SpansSpell(u: Unicode, body: string, start: nat, n: nat)
    requires start <= n <= |body|
    ensures Spelled(body, Spans(u, body, start, n), Pieces(u, body[n..], body[start..n]))
    decreases |body| - n
  {
    if n < |body| {
      assert body[n..][1..] == body[n + 1..] && body[n..][0] == body[n];
      if u.alphanumeric(body[n]) {
        assert body[start..n] + [body[n]] == body[start..n + 1];
        SpansSpell(u, body, start, n + 1);
      } else {
        assert body[n + 1..n + 1] == "";
        SpansSpell(u, body, n + 1, n + 1);
      }
    }
  }

  lemma PiecesAreWords(u: Unicode, body: string)
    ensures AllWords(u, body, 0, Spans(u, body, 0, 0)) && Spelled(body, Spans(u, body, 0, 0), Pieces(u, body, ""))
  {
    SpansAreAllWords(u, body, 0, 0);
    SpansSpell(u, body, 0, 0);
    assert body[0..] == body && body[0..0] == "";
  }

  lemma {:induction false} ShortExact(u: Unicode, words: seq<string>, x: string)
    ensures x in Short(u, words) <==> x in words && u.len(x) <= 50
  {
    if words != [] {
      ShortExact(u, words[1..], x);
    }
  }

  lemma LoweredExact(u: Unicode, words: seq<string>, w: Bytes)
    ensures w in Lowered(u, words) <==> exists x :: x in words && w == u.lower(x)
  {
    if x :| x in words && w == u.lower(x) {
      var k :| 0 <= k < |words| && words[k] == x;
      assert Lowered(u, words)[k] == w;
    }
  }

  /** A message is indexed under the lower-case form of each of its words of at most 50 bytes. */
  lemma IndexWordsAre(u: Unicode, body: string, w: Bytes)
    ensures w in IndexWords(u, body) <==>
      exists i: nat, j: nat :: IsWord(u, body, i, j) && u.len(body[i..j]) <= 50 && w == u.lower(body[i..j])
  {
    var words := Pieces(u, body, "");
    var spans := Spans(u, body, 0, 0);
    PiecesAreWords(u, body);
    LoweredExact(u, Short(u, words), w);
    if x :| x in Short(u, words) && w == u.lower(x) {
      ShortExact(u, words, x);
      var k :| 0 <= k < |words| && words[k] == x;
      assert IsWord(u, body, spans[k].0, spans[k].1);
    }
    if i: nat, j: nat :| IsWord(u, body, i, j) && u.len(body[i..j]) <= 50 && w == u.lower(body[i..j]) {
      var k :| 0 <= k < |spans| && spans[k] == (i, j);
      assert words[k] == body[i..j];
      ShortExact(u, words, body[i..j]);
    }
  }

  ghost predicate LowerCased(u: Unicode, body: string, spans: seq<(nat, nat)>, words: seq<Bytes>) {
    && |words| == |spans|
    && forall k :: 0 <= k < |spans| ==>
         spans[k].0 <= spans[k].1 <= |body| && words[k] == u.lower(body[spans[k].0..spans[k].1])
  }

  /** A query asks for the lower-case forms of all its words, from left to right. */
  lemma QueryWordsAre(u: Unicode, query: string)
    ensures exists spans :: AllWords(u, query, 0, spans) && LowerCased(u, query, spans, QueryWords(u, query))
  {
    var spans := Spans(u, query, 0, 0);
    PiecesAreWords(u, query);
    assert LowerCased(u, query, spans, QueryWords(u, query));
  }
}
