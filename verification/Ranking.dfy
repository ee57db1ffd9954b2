/** normalizeMpp and summarizeSource of agent-discoverability-audit.mjs: scoring, ranking, and a target's place. */
module Ranking {
  import opened Common

  /** collate stands for the locale's order of URL texts. */
  datatype Entry = Entry(score: nat, price: Option<real>, url: string, origins: set<string>, payTo: Option<string>)

  // ---- scoring ----------------------------------------------------------------------------

  type Words = set<string>

  /** The loop over the query tokens. */
  method Overlap(query: Words, available: Words, weight: nat) returns (result: nat)
    ensures result == weight * |query * available|
  {
    result := 0;
    var left := query;
    while left != {}
      invariant left <= query
      invariant result == weight * |(query - left) * available|
      decreases left
    {
      var token :| token in left;
      assert left == (left - {token}) + {token};
      left := left - {token};
      NextToken(query, left + {token}, token, available, weight);
      if token in available { result := result + weight; }
    }
    assert query - left == query;
  }

  lemma NextToken(query: Words, left: Words, token: string, available: Words, weight: nat)
    requires token in left && left <= query
    ensures var seen := (query - left) * available;
            weight * |(query - (left - {token})) * available| == weight * |seen| + (if token in available then weight else 0)
  {
    var seen, next := (query - left) * available, (query - (left - {token})) * available;
    if token in available {
      assert next == seen + {token};
      assert |next| == |seen| + 1;
    } else {
      assert next == seen;
    }
  }

  datatype Endpoint = Endpoint(paid: bool, description: Words, path: Words, price: Option<real>, url: string, payTo: Option<string>)
  datatype Service = Service(https: bool, origin: string, name: Words, tags: Words, categories: Words, description: Words, endpoints: seq<Endpoint>)

  function Score(query: Words, s: Service, e: Endpoint): nat {
    10 * |query * e.description| + 8 * |query * s.name| + 6 * |query * s.tags|
    + 5 * |query * s.categories| + 3 * |query * s.description| + 2 * |query * e.path|
  }

  function EntryOf(query: Words, s: Service, e: Endpoint): Entry {
    Entry(Score(query, s, e), e.price, e.url, {s.origin}, e.payTo)
  }

  function EndpointEntries(query: Words, s: Service, endpoints: seq<Endpoint>): seq<Entry> {
    if endpoints == [] then []
    else
      var n := |endpoints| - 1;
      EndpointEntries(query, s, endpoints[..n])
      + (if endpoints[n].paid && Score(query, s, endpoints[n]) != 0 then [EntryOf(query, s, endpoints[n])] else [])
  }

  function AllEntries(query: Words, services: seq<Service>): seq<Entry> {
    if services == [] then []
    else
      var s := services[|services| - 1];
      AllEntries(query, services[..|services| - 1]) + (if s.https then EndpointEntries(query, s, s.endpoints) else [])
  }

  /** x is the entry of a paid endpoint, of a service over https, that shares a word with the query. */
  predicate Scored(query: Words, s: Service, e: Endpoint, x: Entry) {
    s.https && e.paid && 0 < Score(query, s, e) && x == EntryOf(query, s, e)
  }

  predicate FromService(query: Words, s: Service, endpoints: seq<Endpoint>, x: Entry) {
    exists j :: 0 <= j < |endpoints| && Scored(query, s, endpoints[j], x)
  }

  lemma {:induction false} EndpointEntriesMean(query: Words, s: Service, endpoints: seq<Endpoint>, x: Entry)
    requires s.https
    ensures x in EndpointEntries(query, s, endpoints) <==> FromService(query, s, endpoints, x)
  {
    hide Score, EntryOf;
    if endpoints != [] {
      var n := |endpoints| - 1;
      EndpointEntriesMean(query, s, endpoints[..n], x);
      assert x in EndpointEntries(query, s, endpoints) <==>
             x in EndpointEntries(query, s, endpoints[..n]) || Scored(query, s, endpoints[n], x);
      hide EndpointEntries, Scored;
      assert forall j | 0 <= j < n :: endpoints[..n][j] == endpoints[j];
    }
  }

  /** An entry is ranked exactly when it is that of a paid endpoint, of a service over https, with a positive score. */
  lemma {:induction false} AllEntriesMean(query: Words, services: seq<Service>, x: Entry)
    ensures x in AllEntries(query, services) <==>
            exists i :: 0 <= i < |services| && FromService(query, services[i], services[i].endpoints, x)
  {
    if services != [] {
      var n := |services| - 1;
      AllEntriesMean(query, services[..n], x);
      LastService(query, services, x);
      hide AllEntries, FromService;
      assert forall i | 0 <= i < n :: services[..n][i] == services[i];
    }
  }

  lemma LastService(query: Words, services: seq<Service>, x: Entry)
    requires services != []
    ensures var n := |services| - 1;
            x in AllEntries(query, services) <==>
            x in AllEntries(query, services[..n]) || FromService(query, services[n], services[n].endpoints, x)
  {
    hide Score, EntryOf, EndpointEntries;
    var s := services[|services| - 1];
    if s.https { EndpointEntriesMean(query, s, s.endpoints, x); }
  }

  method ScoreEndpoint(query: Words, s: Service, e: Endpoint) returns (score: nat)
    ensures score == Score(query, s, e)
  {
    var a := Overlap(query, e.description, 10);
    var b := Overlap(query, s.name, 8);
    var c := Overlap(query, s.tags, 6);
    var d := Overlap(query, s.categories, 5);
    var f := Overlap(query, s.description, 3);
    var g := Overlap(query, e.path, 2);
    return a + b + c + d + f + g;
  }

  method NormalizeMpp(query: Words, services: seq<Service>, limit: nat, collate: string -> real) returns (kept: seq<Entry>)
    ensures kept == Top(AllEntries(query, services), limit, collate)
  {
    var ranked: seq<Entry> := [];
    for i := 0 to |services|
      invariant ranked == AllEntries(query, services[..i])
    {
      var service := services[i];
      assert services[..i + 1][..i] == services[..i];
      if !service.https { continue; }
      ghost var before := ranked;
      for j := 0 to |service.endpoints|
        invariant ranked == before + EndpointEntries(query, service, service.endpoints[..j])
      {
        var endpoint := service.endpoints[j];
        assert service.endpoints[..j + 1][..j] == service.endpoints[..j];
        if !endpoint.paid { continue; }
        var score := ScoreEndpoint(query, service, endpoint);
        if score == 0 { continue; }
        ranked := ranked + [Entry(score, endpoint.price, endpoint.url, {service.origin}, endpoint.payTo)];
      }
      assert service.endpoints[..|service.endpoints|] == service.endpoints;
    }
    assert services[..|services|] == services;
    kept := Top(ranked, limit, collate);
  }

  // ---- the order --------------------------------------------------------------------------

  /** a is placed strictly before b: higher score, then lower price with unknown last, then URL. */
  predicate Beats(a: Entry, b: Entry, collate: string -> real) {
    if a.score != b.score then a.score > b.score
    else if a.price != b.price then b.price.None? || (a.price.Some? && a.price.value < b.price.value)
    else collate(a.url) < collate(b.url)
  }

  lemma BeatsIsAWeakOrder(a: Entry, b: Entry, c: Entry, collate: string -> real)
    ensures !(Beats(a, b, collate) && Beats(b, a, collate))
    ensures !Beats(b, a, collate) && !Beats(c, b, collate) ==> !Beats(c, a, collate)
  {}

  /** Array.prototype.sort is stable: an element goes behind everything it does not beat. */
  function Insert(x: Entry, s: seq<Entry>, collate: string -> real): seq<Entry> {
    if s == [] || !Beats(x, s[|s| - 1], collate) then s + [x]
    else Insert(x, s[..|s| - 1], collate) + [s[|s| - 1]]
  }

  function Ranked(s: seq<Entry>, collate: string -> real): seq<Entry> {
    if s == [] then [] else Insert(s[|s| - 1], Ranked(s[..|s| - 1], collate), collate)
  }

  function Top(s: seq<Entry>, limit: nat, collate: string -> real): seq<Entry> {
    var r := Ranked(s, collate);
    if limit <= |r| then r[..limit] else r
  }

  predicate InOrder(s: seq<Entry>, collate: string -> real) {
    forall i, j | 0 <= i < j < |s| :: !Beats(s[j], s[i], collate)
  }

  lemma {:induction false} InsertKeeps(x: Entry, s: seq<Entry>, collate: string -> real)
    requires InOrder(s, collate)
    ensures InOrder(Insert(x, s, collate), collate) && multiset(Insert(x, s, collate)) == multiset(s) + multiset{x}
  {
    hide Beats;
    if s != [] && Beats(x, s[|s| - 1], collate) {
      var t, last := s[..|s| - 1], s[|s| - 1];
      InsertKeeps(x, t, collate);
      assert s == t + [last];
      BeatsIsAWeakOrder(x, last, x, collate);
      BehindLast(Insert(x, t, collate), x, s, collate);
    } else if s != [] {
      forall i | 0 <= i < |s|
        ensures !Beats(x, s[i], collate)
      {
        if i < |s| - 1 { BeatsIsAWeakOrder(s[i], s[|s| - 1], x, collate); }
      }
    }
  }

  /** The last entry of a sorted list stays behind x and behind the rest. */
  lemma BehindLast(r: seq<Entry>, x: Entry, s: seq<Entry>, collate: string -> real)
    requires s != [] && InOrder(s, collate) && !Beats(s[|s| - 1], x, collate)
    requires InOrder(r, collate) && multiset(r) == multiset(s[..|s| - 1]) + multiset{x}
    ensures InOrder(r + [s[|s| - 1]], collate)
  {
    hide Beats;
    forall j | 0 <= j < |r|
      ensures !Beats(s[|s| - 1], r[j], collate)
    {
      assert r[j] in multiset(r);
      if r[j] != x {
        assert r[j] in s[..|s| - 1];
        var i :| 0 <= i < |s| - 1 && s[i] == r[j];
      }
    }
  }

  lemma NothingInOrder(collate: string -> real)
    ensures InOrder([], collate)
  {}

  /** Sorting loses and invents nothing, and nothing stands behind an entry that it beats. */
  lemma {:induction false} RankedIsSorted(s: seq<Entry>, collate: string -> real)
    ensures InOrder(Ranked(s, collate), collate) && multiset(Ranked(s, collate)) == multiset(s)
  {
    hide Beats, InOrder, Insert;
    if s == [] {
      NothingInOrder(collate);
    } else {
      var t := s[..|s| - 1];
      RankedIsSorted(t, collate);
      InsertKeeps(s[|s| - 1], Ranked(t, collate), collate);
      assert s == t + [s[|s| - 1]];
    }
  }

  /** The kept list is sorted, has min(limit, all) entries, and together with the dropped ones is everything;
      no dropped endpoint beats a kept one. */
  lemma TopIsTop(s: seq<Entry>, limit: nat, collate: string -> real)
    ensures var kept, r := Top(s, limit, collate), Ranked(s, collate);
            && kept <= r && InOrder(kept, collate) && |kept| == (if limit <= |s| then limit else |s|)
            && multiset(kept) + multiset(r[|kept|..]) == multiset(s)
            && forall i, j | 0 <= i < |kept| && |kept| <= j < |r| :: !Beats(r[j], kept[i], collate)
  {
    RankedIsSorted(s, collate);
    var kept, r := Top(s, limit, collate), Ranked(s, collate);
    SameSize(r, s);
    assert r == kept + r[|kept|..];
  }

  lemma SameSize(a: seq<Entry>, b: seq<Entry>)
    requires multiset(a) == multiset(b)
    ensures |a| == |b|
  {
    assert |multiset(a)| == |a| && |multiset(b)| == |b|;
  }

  // ---- where a target stands --------------------------------------------------------------

  datatype Target = Target(origin: string, payTo: Option<string>)

  predicate TargetMatch(e: Entry, t: Target) {
    t.origin in e.origins || (t.payTo.Some? && e.payTo == t.payTo)
  }

  datatype Place = Place(targetRanks: seq<nat>, best: Option<nat>, competitors: seq<Entry>)

  function Take(s: seq<Entry>, n: nat): seq<Entry> {
    if n <= |s| then s[..n] else s
  }

  /** The ranks of the matching entries, in order. */
  function RanksOf(items: seq<Entry>, t: Target): seq<nat> {
    if items == [] then []
    else RanksOf(items[..|items| - 1], t) + (if TargetMatch(items[|items| - 1], t) then [|items|] else [])
  }

  method SummarizeSource(items: seq<Entry>, t: Target) returns (place: Place)
    ensures place.targetRanks == RanksOf(items, t)
    ensures place.best == if place.targetRanks == [] then None else Some(place.targetRanks[0])
    ensures place.best.None? ==> place.competitors == Take(items, 5) && forall e | e in items :: !TargetMatch(e, t)
    ensures place.best.Some? ==> 1 <= place.best.value <= |items| && TargetMatch(items[place.best.value - 1], t)
    ensures place.best.Some? ==> place.competitors == Take(items[..place.best.value - 1], 5)
    ensures place.best.Some? ==> forall e | e in items[..place.best.value - 1] :: !TargetMatch(e, t)
  {
    hide TargetMatch;
    var ranks: seq<nat> := [];
    for i := 0 to |items|
      invariant ranks == RanksOf(items[..i], t)
    {
      assert items[..i + 1][..i] == items[..i];
      if TargetMatch(items[i], t) { ranks := ranks + [i + 1]; }
    }
    assert items[..|items|] == items;
    FirstRank(items, t);
    var best := if ranks == [] then None else Some(ranks[0]);
    place := Place(ranks, best, Take(if ranks == [] then items else items[..ranks[0] - 1], 5));
  }

  /** The first rank is that of the first match; there is none when nothing matches. */
  lemma {:induction false} FirstRank(items: seq<Entry>, t: Target)
    ensures var ranks := RanksOf(items, t);
            && (ranks == [] ==> forall e | e in items :: !TargetMatch(e, t))
            && (ranks != [] ==> 1 <= ranks[0] <= |items| && TargetMatch(items[ranks[0] - 1], t)
                                && forall e | e in items[..ranks[0] - 1] :: !TargetMatch(e, t))
  {
    hide TargetMatch;
    if items != [] {
      var front, last := items[..|items| - 1], items[|items| - 1];
      FirstRank(front, t);
      assert items == front + [last];
      if RanksOf(front, t) != [] {
        var r := RanksOf(front, t)[0];
        assert items[..r - 1] == front[..r - 1];
      } else {
        assert items[..|items| - 1] == front;
      }
    }
  }

  /** i + 1 is among the ranks exactly when entry i matches. */
  lemma {:induction false} RanksAreMatches(items: seq<Entry>, t: Target, i: nat)
    requires i < |items|
    ensures i + 1 in RanksOf(items, t) <==> t.origin in items[i].origins || (t.payTo.Some? && items[i].payTo == t.payTo)
  {
    var n := |items| - 1;
    RanksBounded(items[..n], t);
    if i < n { RanksAreMatches(items[..n], t, i); }
  }

  lemma {:induction false} RanksBounded(items: seq<Entry>, t: Target)
    ensures forall r | r in RanksOf(items, t) :: 1 <= r <= |items|
    ensures forall k, l | 0 <= k < l < |RanksOf(items, t)| :: RanksOf(items, t)[k] < RanksOf(items, t)[l]
  {
    if items != [] {
      RanksBounded(items[..|items| - 1], t);
      var front := RanksOf(items[..|items| - 1], t);
      assert forall k | 0 <= k < |front| :: front[k] in front;
    }
  }

  /** How many entries are placed strictly before t, and how many are not placed behind it. */
  function Beating(s: seq<Entry>, t: Entry, collate: string -> real): nat {
    if s == [] then 0 else Beating(s[..|s| - 1], t, collate) + (if Beats(s[|s| - 1], t, collate) then 1 else 0)
  }

  function NotBehind(s: seq<Entry>, t: Entry, collate: string -> real): nat {
    if s == [] then 0 else NotBehind(s[..|s| - 1], t, collate) + (if Beats(t, s[|s| - 1], collate) then 0 else 1)
  }

  lemma {:induction false} InsertCounts(x: Entry, s: seq<Entry>, t: Entry, collate: string -> real)
    ensures Beating(Insert(x, s, collate), t, collate) == Beating(s, t, collate) + (if Beats(x, t, collate) then 1 else 0)
    ensures NotBehind(Insert(x, s, collate), t, collate) == NotBehind(s, t, collate) + (if Beats(t, x, collate) then 0 else 1)
  {
    var r := Insert(x, s, collate);
    if s != [] && Beats(x, s[|s| - 1], collate) {
      InsertCounts(x, s[..|s| - 1], t, collate);
      assert r[..|r| - 1] == Insert(x, s[..|s| - 1], collate);
    } else {
      assert r[..|r| - 1] == s;
    }
  }

  lemma {:induction false} RankedCounts(s: seq<Entry>, t: Entry, collate: string -> real)
    ensures Beating(Ranked(s, collate), t, collate) == Beating(s, t, collate)
    ensures NotBehind(Ranked(s, collate), t, collate) == NotBehind(s, t, collate)
  {
    if s != [] {
      RankedCounts(s[..|s| - 1], t, collate);
      InsertCounts(s[|s| - 1], Ranked(s[..|s| - 1], collate), t, collate);
    }
  }

  /** In a sorted prefix of length n, entries before position i are not behind it, entries from i on do not beat it. */
  lemma {:induction false} CountsBySplit(s: seq<Entry>, n: nat, i: nat, collate: string -> real)
    requires InOrder(s, collate) && i < |s| && n <= |s|
    ensures Beating(s[..n], s[i], collate) <= (if n <= i then n else i)
    ensures NotBehind(s[..n], s[i], collate) >= (if n <= i + 1 then n else i + 1)
    decreases n
  {
    if n > 0 {
      CountsBySplit(s, n - 1, i, collate);
      assert s[..n][..n - 1] == s[..n - 1];
      BeatsIsAWeakOrder(s[i], s[i], s[i], collate);
    }
  }

  /** A kept target's rank is one plus the number of endpoints that beat it, up to ties. */
  lemma RankCountsBetter(s: seq<Entry>, limit: nat, i: nat, collate: string -> real)
    requires i < |Top(s, limit, collate)|
    ensures var t := Top(s, limit, collate)[i];
            Beating(s, t, collate) + 1 <= i + 1 <= NotBehind(s, t, collate)
  {
    hide Beats, InOrder, Ranked;
    RankedIsSorted(s, collate);
    var r := Ranked(s, collate);
    RankedCounts(s, r[i], collate);
    CountsBySplit(r, |r|, i, collate);
    assert r[..|r|] == r;
  }
}
