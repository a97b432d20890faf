/** Which outgoing requests go through a proxy: rules that include or exclude domains, the more
    specific rule winning.
 */
module Proxy {
  import opened ByteStrings

  datatype Rule = WildCard | WildCarded(suffix: string) | Exact(name: string)

  predicate EndsWith(s: string, t: string) {
    |t| <= |s| && s[|s| - |t|..] == t
  }

  predicate Matches(r: Rule, domain: string) {
    match r
    case WildCard => true
    case WildCarded(d) => EndsWith(domain, d)
    case Exact(d) => domain == d
  }

  predicate MoreSpecificThan(r: Rule, other: Rule) {
    match (r, other)
    case (WildCard, WildCard) => false
    case (_, WildCard) => true
    case (Exact(a), WildCarded(_)) => Matches(other, a)
    case (WildCarded(a), WildCarded(b)) => a != b && EndsWith(a, b)
    case _ => false
  }

  /** Parsing a rule never fails. */
  function FromStr(s: string): (r: Rule) {
    if |s| >= 2 && s[..2] == "*." then WildCarded(s[1..])
    else if s == "*" then WildCarded("")
    else Exact(s)
  }

  /** A rule with a leading `*.` matches the names below the domain, not the domain itself. */
  lemma SuffixRule(d: string, domain: string)
    ensures Matches(FromStr("*." + d), domain) <==> exists name :: domain == name + "." + d
  {
    var dotted := "." + d;
    assert ("*." + d)[..2] == "*." && ("*." + d)[1..] == dotted;
    if EndsWith(domain, dotted) {
      var name := domain[..|domain| - |dotted|];
      assert domain == name + "." + d;
    }
    if name :| domain == name + "." + d {
      assert domain[|name|..] == dotted;
    }
  }

  /** `*` matches everything. */
  lemma StarRule(domain: string)
    ensures Matches(FromStr("*"), domain)
  {
    assert domain[|domain|..] == "";
  }

  /** Any other rule matches one domain. */
  lemma ExactRule(s: string, domain: string)
    requires s != "*" && !("*." <= s)
    ensures Matches(FromStr(s), domain) <==> domain == s
  {
    assert "*." <= s <==> |s| >= 2 && s[..2] == "*.";
  }

  /** The rule matches fewer domains than the other. */
  ghost predicate MatchesLess(r: Rule, other: Rule) {
    (forall d :: Matches(r, d) ==> Matches(other, d)) && (exists d :: Matches(other, d) && !Matches(r, d))
  }

  lemma SuffixOfSuffix(s: string, t: string, u: string)
    requires EndsWith(s, t) && EndsWith(t, u)
    ensures EndsWith(s, u)
  {
    assert t[|t| - |u|..] == s[|s| - |t|..][|t| - |u|..] == s[|s| - |u|..];
  }

  /** Being more specific is matching fewer domains, except that the built-in wildcard gives way to
      every other rule, even to one that matches as much. */
  lemma MoreSpecificMatchesLess(r: Rule, other: Rule)
    ensures MoreSpecificThan(r, other) <==> MatchesLess(r, other) || (r != WildCard && other == WildCard)
  {
    match (r, other)
    case (Exact(a), WildCarded(b)) =>
      assert Matches(r, a);
      if EndsWith(a, b) {
        assert EndsWith(['.'] + a, a) && ['.'] + a != a;
        SuffixOfSuffix(['.'] + a, a, b);
        assert Matches(other, ['.'] + a) && !Matches(r, ['.'] + a);
      }
    case (WildCarded(a), WildCarded(b)) =>
      assert Matches(r, a) && Matches(other, b);
      if EndsWith(a, b) {
        forall d | Matches(r, d)
          ensures Matches(other, d)
        {
          SuffixOfSuffix(d, a, b);
        }
        assert a != b ==> !Matches(r, b);
      }
    case (Exact(a), Exact(b)) =>
      assert Matches(r, a) && Matches(other, b);
    case (WildCarded(a), Exact(b)) =>
      assert Matches(r, a) && Matches(r, ['.'] + a) && ['.'] + a != a;
    case (WildCard, WildCarded(b)) =>
      if b == "" {
        forall d
          ensures Matches(other, d)
        {
          assert d[|d|..] == "";
        }
      } else {
        assert Matches(r, "") && !Matches(other, "");
      }
    case (WildCard, Exact(b)) =>
      assert Matches(r, b + ['.']) && b + ['.'] != b;
    case _ =>
  }

  /** How closely a rule that matches the domain describes it. */
  function Rank(r: Rule, domain: string): (n: nat) {
    match r
    case WildCard => 0
    case WildCarded(d) => 1 + |d|
    case Exact(_) => 2 + |domain|
  }

  /** Among the rules that match a domain, being more specific is having the higher rank, so it
      is a strict weak order. */
  lemma RankDecides(r: Rule, other: Rule, domain: string)
    requires Matches(r, domain) && Matches(other, domain)
    ensures MoreSpecificThan(r, other) <==> Rank(r, domain) > Rank(other, domain)
  {
  }

  /** Outside the rules that match one domain it is not one: being incomparable does not carry
      over, for any suffixes that end in different letters. */
  lemma NotWeakInGeneral(a: string, b: string, x: char)
    requires a != "" && b != "" && a[|a| - 1] != b[|b| - 1]
    ensures
      var r, other, longer := WildCarded(a), WildCarded(b), WildCarded([x] + a);
      && !MoreSpecificThan(r, other) && !MoreSpecificThan(other, r)
      && !MoreSpecificThan(other, longer) && !MoreSpecificThan(longer, other)
      && MoreSpecificThan(longer, r)
  {
  }

  // ------------------------------------------------------------------
  // One proxy
  // ------------------------------------------------------------------

  datatype Config = Config(url: string, includes: seq<Rule>, excludes: seq<Rule>)

  /** A reason to include: a rule of the list that matches, or the wildcard for an empty list. */
  predicate Includes(c: Config, r: Rule, domain: string) {
    Matches(r, domain) && (r in c.includes || (c.includes == [] && r == WildCard))
  }

  predicate Excludes(c: Config, r: Rule, domain: string) {
    Matches(r, domain) && r in c.excludes
  }

  /** The proxy is used when some reason to include it is more specific than every reason to
      exclude it. Only which rules are listed matters, not their order. */
  ghost predicate Used(c: Config, domain: string) {
    exists a :: Includes(c, a, domain) && Beats(c, a, domain)
  }

  ghost predicate Beats(c: Config, a: Rule, domain: string) {
    forall b :: Excludes(c, b, domain) ==> Rank(a, domain) > Rank(b, domain)
  }

  /** The most specific matching rule of a list, starting from a given one. */
  ghost predicate BestOf(rules: seq<Rule>, n: nat, domain: string, start: Option<Rule>, best: Option<Rule>)
    requires n <= |rules|
  {
    && (best.None? ==> start.None? && forall i :: 0 <= i < n ==> !Matches(rules[i], domain))
    && (best.Some? ==> Matches(best.value, domain) && (best == start || best.value in rules[..n]))
    && (best.Some? && start.Some? ==> Rank(best.value, domain) >= Rank(start.value, domain))
    && (best.Some? ==> forall i :: 0 <= i < n && Matches(rules[i], domain) ==>
          Rank(best.value, domain) >= Rank(rules[i], domain))
  }

  /** Both loops of `for_url`. */
  method MostSpecific(rules: seq<Rule>, domain: string, start: Option<Rule>) returns (best: Option<Rule>)
    requires start.Some? ==> Matches(start.value, domain)
    ensures BestOf(rules, |rules|, domain, start, best)
  {
    best := start;
    for i := 0 to |rules|
      invariant BestOf(rules, i, domain, start, best)
    {
      assert rules[..i + 1] == rules[..i] + [rules[i]];
      if Matches(rules[i], domain) {
        if best.Some? {
          RankDecides(rules[i], best.value, domain);
        }
        if best.None? || MoreSpecificThan(rules[i], best.value) {
          best := Some(rules[i]);
        }
      }
    }
  }

  /** The url of the proxy exactly when the url has a domain and the proxy is used for it. */
  method ForUrl(c: Config, domain: Option<string>) returns (r: Option<string>)
    ensures r == if domain.Some? && Used(c, domain.value) then Some(c.url) else None
  {
    if domain.None? {
      return None;
    }
    var d := domain.value;
    var start := if c.includes == [] then Some(WildCard) else None;
    var included := MostSpecific(c.includes, d, start);
    var excluded := MostSpecific(c.excludes, d, None);
    UsedByBest(c, d, start, included, excluded);
    if included.Some? && excluded.Some? && MoreSpecificThan(included.value, excluded.value) {
      r := Some(c.url);
    } else if included.Some? && excluded.None? {
      r := Some(c.url);
    } else {
      r := None;
    }
  }

  /** Comparing the best reasons decides. */
  lemma UsedByBest(c: Config, d: string, start: Option<Rule>, included: Option<Rule>, excluded: Option<Rule>)
    requires start == if c.includes == [] then Some(WildCard) else None
    requires BestOf(c.includes, |c.includes|, d, start, included) && BestOf(c.excludes, |c.excludes|, d, None, excluded)
    ensures Used(c, d) <==>
      included.Some? && (excluded.None? || MoreSpecificThan(included.value, excluded.value))
  {
    assert c.includes[..|c.includes|] == c.includes && c.excludes[..|c.excludes|] == c.excludes;
    if included.Some? {
      assert Includes(c, included.value, d);
      forall a | Includes(c, a, d)
        ensures Rank(a, d) <= Rank(included.value, d)
      {
      }
    }
    if excluded.Some? {
      assert Excludes(c, excluded.value, d);
    }
    if included.Some? && excluded.Some? {
      RankDecides(included.value, excluded.value, d);
    }
    if included.Some? && (excluded.None? || MoreSpecificThan(included.value, excluded.value)) {
      assert Beats(c, included.value, d);
    }
  }

  /** The order of the lists does not matter. */
  lemma OrderIrrelevant(c: Config, c': Config, domain: string)
    requires multiset(c.includes) == multiset(c'.includes) && multiset(c.excludes) == multiset(c'.excludes)
    ensures Used(c, domain) <==> Used(c', domain)
  {
    SameRules(c.includes, c'.includes);
    SameRules(c.excludes, c'.excludes);
    assert |c.includes| == |multiset(c.includes)| == |multiset(c'.includes)| == |c'.includes|;
    forall a
      ensures Includes(c, a, domain) <==> Includes(c', a, domain)
      ensures Beats(c, a, domain) <==> Beats(c', a, domain)
    {
      assert forall b :: Excludes(c, b, domain) <==> Excludes(c', b, domain);
    }
  }

  lemma SameRules(s: seq<Rule>, t: seq<Rule>)
    requires multiset(s) == multiset(t)
    ensures forall r :: r in s <==> r in t
  {
    assert forall r :: r in s <==> r in multiset(s);
    assert forall r :: r in t <==> r in multiset(t);
  }

  /** The documentation says that an empty include list stands for `*`. It does for every exclude
      list that can be written down, although the two are different rules. */
  lemma EmptyIncludeIsStar(url: string, exclude: seq<string>, rules: seq<Rule>, domain: string)
    requires |rules| == |exclude| && forall i :: 0 <= i < |rules| ==> rules[i] == FromStr(exclude[i])
    ensures Used(Config(url, [], rules), domain) <==> Used(Config(url, [FromStr("*")], rules), domain)
  {
    var c, c' := Config(url, [], rules), Config(url, [FromStr("*")], rules);
    assert FromStr("*") == WildCarded("") && EndsWith(domain, "");
    forall b | Excludes(c, b, domain)
      ensures Rank(b, domain) >= 1
    {
    }
    if Used(c, domain) {
      var a :| Includes(c, a, domain) && Beats(c, a, domain);
      assert a == WildCard;
      assert Includes(c', WildCarded(""), domain) && Beats(c', WildCarded(""), domain);
    }
    if Used(c', domain) {
      var a :| Includes(c', a, domain) && Beats(c', a, domain);
      assert a == WildCarded("");
      assert Includes(c, WildCard, domain) && Beats(c, WildCard, domain);
    }
  }

  // ------------------------------------------------------------------
  // Several proxies
  // ------------------------------------------------------------------

  ghost predicate IsFirst(proxies: seq<Config>, i: nat, domain: string) {
    i < |proxies| && Used(proxies[i], domain) && forall j :: 0 <= j < i ==> !Used(proxies[j], domain)
  }

  /** The first proxy that is used for the domain. */
  method FirstProxy(proxies: seq<Config>, domain: Option<string>) returns (r: Option<string>)
    ensures r.None? ==> domain.None? || forall i :: 0 <= i < |proxies| ==> !Used(proxies[i], domain.value)
    ensures r.Some? ==> domain.Some? && exists i: nat :: IsFirst(proxies, i, domain.value) && proxies[i].url == r.value
  {
    for i := 0 to |proxies|
      invariant domain.None? || forall j :: 0 <= j < i ==> !Used(proxies[j], domain.value)
    {
      r := ForUrl(proxies[i], domain);
      if r.Some? {
        return;
      }
    }
    r := None;
  }
}
