/** The price reference, the per-source summaries, the source lists and the findings loop of
    agentDiscoverabilityAudit. Amounts are atomic digit strings, compared as strings. */
module Audit {
  import opened Common
  import Ranking

  // ---- price reference --------------------------------------------------------------------

  /** canonical: valid, on Base, in USDC and with a decimal amount. */
  datatype Offer = Offer(canonical: bool, amount: string)

  datatype RuntimeAudit =
    | NotRequested
    | Unavailable(code: string)
    | Inspected(parseable: bool, compared: bool, consistent: bool, offers: seq<Offer>)

  function CanonicalAmounts(offers: seq<Offer>): set<string> {
    set o | o in offers && o.canonical :: o.amount
  }

  method RuntimePriceReference(a: RuntimeAudit) returns (amount: Option<string>)
    ensures amount.Some? <==> HasLive(a)
    ensures amount.Some? ==> CanonicalAmounts(a.offers) == {amount.value}
  {
    if !a.Inspected? || !a.parseable { return None; }
    if a.compared && !a.consistent { return None; }
    var amounts: seq<string> := [];
    for i := 0 to |a.offers|
      invariant forall x :: x in amounts <==> x in CanonicalAmounts(a.offers[..i])
      invariant forall j, k | 0 <= j < k < |amounts| :: amounts[j] != amounts[k]
    {
      assert a.offers[..i + 1] == a.offers[..i] + [a.offers[i]];
      if a.offers[i].canonical && a.offers[i].amount !in amounts { amounts := amounts + [a.offers[i].amount]; }
    }
    assert a.offers[..|a.offers|] == a.offers;
    var all := CanonicalAmounts(a.offers);
    if |amounts| != 1 {
      if |all| == 1 { SingletonMember(all); }
      if |amounts| >= 2 { assert amounts[0] in all && amounts[1] in all; }
      return None;
    }
    assert all == {amounts[0]};
    return Some(amounts[0]);
  }

  lemma SingletonMember(s: set<string>)
    requires |s| == 1
    ensures exists x :: s == {x}
  {
    var x :| x in s;
    assert |s - {x}| == 0;
    assert s == {x};
  }

  /** priceReference: the live amount, or else what the caller expected. */
  function PriceReference(live: Option<string>, expected: Option<string>): Option<string> {
    if live.Some? then live else expected
  }

  /** The expected amount of comparisonInput: replaced by the reference when there is one. */
  function ComparisonAmount(reference: Option<string>, expected: Option<string>): Option<string> {
    if reference.Some? then reference else expected
  }

  // ---- summarizePrice ---------------------------------------------------------------------

  datatype PriceStatus = RouteAbsent | PriceUnknown | Matched | Drift | Mixed

  /** prices: the observed atomic price, if any, of each record of the expected route. */
  function SummarizePrice(expected: Option<string>, prices: seq<Option<string>>): Option<PriceStatus> {
    if expected.None? then None
    else if prices == [] then Some(RouteAbsent)
    else
      var observed := set p | p in prices && p.Some? :: p.value;
      if observed == {} then Some(PriceUnknown)
      else if expected.value !in observed then Some(Drift)
      else if observed == {expected.value} then Some(Matched)
      else Some(Mixed)
  }

  /** Each status by what the records show; the five exclude each other and leave nothing out. */
  lemma PriceStatusMeans(expected: string, prices: seq<Option<string>>)
    ensures var status := SummarizePrice(Some(expected), prices);
            && status.Some?
            && (status.value == RouteAbsent <==> prices == [])
            && (status.value == PriceUnknown <==> prices != [] && forall p | p in prices :: p.None?)
            && (status.value == Matched <==> Some(expected) in prices && forall p | p in prices :: p.None? || p.value == expected)
            && (status.value == Drift <==> Some(expected) !in prices && exists p :: p in prices && p.Some?)
            && (status.value == Mixed <==> Some(expected) in prices && exists p :: p in prices && p.Some? && p.value != expected)
  {
    var observed := set p | p in prices && p.Some? :: p.value;
    assert forall v :: v in observed <==> Some(v) in prices;
  }

  // ---- sources ----------------------------------------------------------------------------

  const SOURCE_COUNT: nat := 10

  /** One listed item: whether it matches the target and the route, and its observed atomic price. */
  datatype Item = Item(target: bool, onRoute: bool, price: Option<string>)

  /** What one catalog answered, as far as its summary needs it. */
  datatype Record = Record(items: seq<Item>, countProblem: bool, constructible: bool, identityConflict: bool)

  predicate TargetFound(items: seq<Item>) {
    exists i :: 0 <= i < |items| && items[i].target
  }

  predicate RouteFound(items: seq<Item>) {
    exists i :: 0 <= i < |items| && items[i].target && items[i].onRoute
  }

  /** The rank of the first target, 0 without one. */
  function BestRank(items: seq<Item>): nat {
    if !TargetFound(items) then 0
    else if items[0].target then 1
    else
      assert forall i | 1 <= i < |items| :: items[i] == items[1..][i - 1];
      1 + BestRank(items[1..])
  }

  /** Item k is a target, and no item before it is. */
  predicate FirstTarget(items: seq<Item>, k: nat) {
    k < |items| && items[k].target && forall i | 0 <= i < k :: !items[i].target
  }

  /** The best rank is 0 exactly without a target, and otherwise counts from one to the first. */
  lemma {:induction false} BestRankIsFirst(items: seq<Item>)
    ensures BestRank(items) == 0 <==> forall i | 0 <= i < |items| :: !items[i].target
    ensures BestRank(items) != 0 ==> BestRank(items) <= |items| && FirstTarget(items, BestRank(items) - 1)
    ensures forall k: nat | FirstTarget(items, k) :: BestRank(items) == k + 1
  {
    if TargetFound(items) && !items[0].target {
      BestRankIsFirst(items[1..]);
      assert forall i | 1 <= i < |items| :: items[i] == items[1..][i - 1];
    }
  }

  /** The rank in the findings is the bestTargetRank of the source's summary. */
  lemma BestRankIsSummarized(items: seq<Item>, entries: seq<Ranking.Entry>, t: Ranking.Target)
    requires |items| == |entries| && forall i | 0 <= i < |items| :: items[i].target == Ranking.TargetMatch(entries[i], t)
    ensures BestRank(items) == if Ranking.RanksOf(entries, t) == [] then 0 else Ranking.RanksOf(entries, t)[0]
  {
    hide Ranking.TargetMatch;
    BestRankIsFirst(items);
    Ranking.FirstRank(entries, t);
    var ranks := Ranking.RanksOf(entries, t);
    if ranks != [] {
      forall i | 0 <= i < ranks[0] - 1
        ensures !items[i].target
      {
        assert entries[..ranks[0] - 1][i] == entries[i];
      }
      assert FirstTarget(items, ranks[0] - 1);
    }
  }

  /** The prices of the target's items on the route. */
  function RoutePrices(items: seq<Item>): seq<Option<string>> {
    if items == [] then []
    else (if items[0].target && items[0].onRoute then [items[0].price] else []) + RoutePrices(items[1..])
  }

  /** The route is found exactly when there is a price, known or not, to compare. */
  lemma {:induction false} RouteFoundHasPrice(items: seq<Item>)
    ensures RoutePrices(items) != [] <==> RouteFound(items)
  {
    if items != [] {
      RouteFoundHasPrice(items[1..]);
      assert forall i | 1 <= i < |items| :: items[i] == items[1..][i - 1];
      assert forall i | 0 <= i < |items[1..]| :: items[1..][i] == items[i + 1];
    }
  }

  /** They are the prices of these items, and of no others. */
  lemma {:induction false} RoutePricesMean(items: seq<Item>, p: Option<string>)
    ensures p in RoutePrices(items) <==> exists i :: 0 <= i < |items| && items[i].target && items[i].onRoute && items[i].price == p
  {
    if items != [] {
      RoutePricesMean(items[1..], p);
      assert forall i | 1 <= i < |items| :: items[i] == items[1..][i - 1];
      assert forall i | 0 <= i < |items[1..]| :: items[1..][i] == items[i + 1];
    }
  }

  /** A source's entry in the result; price is its priceObservation, None for null. */
  datatype Observation = Failed | Observed(record: Record, price: Option<PriceStatus>)

  function Summary(answer: Option<Record>, comparison: Option<string>): Observation {
    if answer.None? then Failed else Observed(answer.value, SummarizePrice(comparison, RoutePrices(answer.value.items)))
  }

  method Summaries(answers: seq<Option<Record>>, comparison: Option<string>) returns (sources: seq<Observation>)
    ensures |sources| == |answers| && forall i | 0 <= i < |answers| :: sources[i] == Summary(answers[i], comparison)
  {
    sources := [];
    for i := 0 to |answers|
      invariant |sources| == i && forall j | 0 <= j < i :: sources[j] == Summary(answers[j], comparison)
    {
      sources := sources + [Summary(answers[i], comparison)];
    }
  }

  /** Where the loop tests priceReference, the source's summary tested comparisonInput: a price observation of an
      available source is null exactly when there is no price reference. */
  predicate Priced(sources: seq<Observation>, reference: Option<string>) {
    forall i | 0 <= i < |sources| :: sources[i].Observed? ==> (sources[i].price.Some? <==> reference.Some?)
  }

  lemma SummariesArePriced(answers: seq<Option<Record>>, live: Option<string>, expected: Option<string>, sources: seq<Observation>)
    requires |sources| == |answers|
    requires forall i | 0 <= i < |answers| :: sources[i] == Summary(answers[i], ComparisonAmount(PriceReference(live, expected), expected))
    ensures Priced(sources, PriceReference(live, expected))
    ensures forall i | 0 <= i < |sources| && answers[i].Some? ::
              sources[i] == Observed(answers[i].value, SummarizePrice(PriceReference(live, expected), RoutePrices(answers[i].value.items)))
  {
    var reference := PriceReference(live, expected);
    assert ComparisonAmount(reference, expected) == reference;
    if reference.Some? {
      forall i | 0 <= i < |answers| && answers[i].Some? {
        PriceStatusMeans(reference.value, RoutePrices(answers[i].value.items));
      }
    }
  }

  /** Positions of SOURCE_ORDER whose observation satisfies a test. */
  function Select(sources: seq<Observation>, test: Observation -> bool): seq<nat> {
    if sources == [] then []
    else
      var n := |sources| - 1;
      Select(sources[..n], test) + (if test(sources[n]) then [n] else [])
  }

  predicate Increasing(positions: seq<nat>) {
    forall j, k | 0 <= j < k < |positions| :: positions[j] < positions[k]
  }

  /** A list of sources holds the ones that satisfy its test, each once and in order. */
  lemma {:induction false} SelectMember(sources: seq<Observation>, test: Observation -> bool, i: nat)
    ensures i in Select(sources, test) <==> i < |sources| && test(sources[i])
  {
    if sources != [] { SelectMember(sources[..|sources| - 1], test, i); }
  }

  lemma {:induction false} SelectIncreasing(sources: seq<Observation>, test: Observation -> bool)
    ensures Increasing(Select(sources, test))
    ensures forall k | 0 <= k < |Select(sources, test)| :: Select(sources, test)[k] < |sources|
  {
    if sources != [] { SelectIncreasing(sources[..|sources| - 1], test); }
  }

  predicate Unreachable(o: Observation) { o.Failed? }
  predicate Found(o: Observation) { o.Observed? && TargetFound(o.record.items) }
  predicate Missing(o: Observation) { o.Observed? && !TargetFound(o.record.items) }

  predicate IsMatched(o: Observation) { o.Observed? && o.price == Some(Matched) }
  predicate IsDrifted(o: Observation) { o.Observed? && (o.price == Some(Drift) || o.price == Some(Mixed)) }
  predicate IsUnknown(o: Observation) { o.Observed? && (o.price == Some(PriceUnknown) || o.price == Some(RouteAbsent)) }

  /** The lists about prices are empty without a price reference. */
  function PriceList(sources: seq<Observation>, reference: Option<string>, test: Observation -> bool): seq<nat> {
    if reference.None? then [] else Select(sources, test)
  }

  predicate OnlyOne(a: bool, b: bool, c: bool) {
    (a || b || c) && !(a && b) && !(b && c) && !(a && c)
  }

  /** Found, missing and unavailable sources are the ten sources: each is in exactly one list, once. */
  lemma SourcesPartition(sources: seq<Observation>, i: nat)
    requires |sources| == SOURCE_COUNT
    ensures var found, missing, lost := Select(sources, Found), Select(sources, Missing), Select(sources, Unreachable);
            && Increasing(found) && Increasing(missing) && Increasing(lost)
            && (i < SOURCE_COUNT ==> OnlyOne(i in found, i in missing, i in lost))
            && (SOURCE_COUNT <= i ==> i !in found && i !in missing && i !in lost)
            && (i in lost <==> i < SOURCE_COUNT && sources[i].Failed?)
            && (i in found ==> exists k :: 0 <= k < |sources[i].record.items| && sources[i].record.items[k].target)
            && (i in missing ==> forall k | 0 <= k < |sources[i].record.items| :: !sources[i].record.items[k].target)
  {
    SelectIncreasing(sources, Found);
    SelectIncreasing(sources, Missing);
    SelectIncreasing(sources, Unreachable);
    SelectMember(sources, Found, i);
    SelectMember(sources, Missing, i);
    SelectMember(sources, Unreachable, i);
  }

  /** With a price reference, each available source is in exactly one of the matched, drifted and unknown lists, once, and
      no other source is; without one the lists are empty. */
  lemma PricesPartition(sources: seq<Observation>, reference: Option<string>, i: nat)
    requires Priced(sources, reference)
    ensures var matched, drifted, unknown := PriceList(sources, reference, IsMatched), PriceList(sources, reference, IsDrifted),
                                             PriceList(sources, reference, IsUnknown);
            && Increasing(matched) && Increasing(drifted) && Increasing(unknown)
            && (reference.Some? && i < |sources| && sources[i].Observed? ==> OnlyOne(i in matched, i in drifted, i in unknown))
            && (reference.None? || |sources| <= i || sources[i].Failed? ==> i !in matched && i !in drifted && i !in unknown)
            && (i in matched ==> sources[i].price == Some(Matched))
            && (i in drifted ==> sources[i].price in {Some(Drift), Some(Mixed)})
            && (i in unknown ==> sources[i].price in {Some(PriceUnknown), Some(RouteAbsent)})
  {
    SelectIncreasing(sources, IsMatched);
    SelectIncreasing(sources, IsDrifted);
    SelectIncreasing(sources, IsUnknown);
    SelectMember(sources, IsMatched, i);
    SelectMember(sources, IsDrifted, i);
    SelectMember(sources, IsUnknown, i);
    if reference.Some? && i < |sources| && sources[i].Observed? {
      FiveStatuses(sources[i].price.value);
    }
  }

  lemma FiveStatuses(status: PriceStatus)
    ensures status in {RouteAbsent, PriceUnknown, Matched, Drift, Mixed}
  {}

  // ---- findings ---------------------------------------------------------------------------

  datatype Kind =
    | ProviderNotEligible | MaterializationUnresolved
    | SourceUnavailable | TargetNotInWindow | RouteAbsentFound | TargetRanked(rank: nat, band: string)
    | CountNotUsable | RequestConstructible | IdentityConflict
    | PriceDrift | PriceMixed | PriceUnavailable

  datatype Finding = Finding(source: nat, kind: Kind)

  predicate Terminal(k: Kind) {
    k.SourceUnavailable? || k.TargetNotInWindow? || k.RouteAbsentFound? || k.TargetRanked?
  }

  function Band(rank: nat): string {
    if rank <= 3 then "top_3" else if rank <= 10 then "top_10" else "below_top_10"
  }

  /** The conclusion that a source's observation calls for. */
  function Conclusion(o: Observation, hasRoute: bool): Kind {
    if o.Failed? then SourceUnavailable
    else if !TargetFound(o.record.items) then TargetNotInWindow
    else if hasRoute && !RouteFound(o.record.items) then RouteAbsentFound
    else TargetRanked(BestRank(o.record.items), Band(BestRank(o.record.items)))
  }

  function Noted(when: bool, source: nat, kind: Kind): seq<Finding> {
    if when then [Finding(source, kind)] else []
  }

  /** The finding of the price chain, read under a price reference only. */
  function PriceKind(reference: Option<string>, price: Option<PriceStatus>): Option<Kind> {
    if reference.None? then None
    else
      match price
      case Some(Drift) => Some(PriceDrift)
      case Some(Mixed) => Some(PriceMixed)
      case Some(PriceUnknown) => Some(PriceUnavailable)
      case _ => None
  }

  function PriceNoted(source: nat, price: Option<Kind>): seq<Finding> {
    if price.Some? then [Finding(source, price.value)] else []
  }

  /** What is said about a found target before its conclusion. */
  function TargetRemarks(source: nat, o: Observation, hasRoute: bool, reference: Option<string>): seq<Finding>
    requires o.Observed?
  {
    Noted(o.record.constructible, source, RequestConstructible)
    + (if hasRoute && !RouteFound(o.record.items) then []
       else
         var price := PriceKind(reference, o.price);
         Noted(o.record.identityConflict, source, IdentityConflict) + PriceNoted(source, price))
  }

  /** What is said about a source before its conclusion. */
  function Remarks(source: nat, o: Observation, hasRoute: bool, reference: Option<string>, notEligible: bool, unresolved: bool): seq<Finding> {
    Noted(notEligible, source, ProviderNotEligible) + Noted(unresolved, source, MaterializationUnresolved)
    + (if o.Failed? then []
       else Noted(o.record.countProblem, source, CountNotUsable)
            + (if TargetFound(o.record.items) then TargetRemarks(source, o, hasRoute, reference) else []))
  }

  function FindingsOf(source: nat, o: Observation, hasRoute: bool, reference: Option<string>, notEligible: bool, unresolved: bool): seq<Finding> {
    Remarks(source, o, hasRoute, reference, notEligible, unresolved) + [Finding(source, Conclusion(o, hasRoute))]
  }

  /** The findings about the first n sources; the first source is the one that can be materialized. */
  function AllFindings(sources: seq<Observation>, hasRoute: bool, reference: Option<string>, notEligible: bool, unresolved: bool): seq<Finding> {
    if sources == [] then []
    else
      var n := |sources| - 1;
      AllFindings(sources[..n], hasRoute, reference, notEligible, unresolved)
      + FindingsOf(n, sources[n], hasRoute, reference, n == 0 && notEligible, n == 0 && unresolved)
  }

  /** The price chain; the observation must not be null under a reference. */
  method PriceFinding(reference: Option<string>, price: Option<PriceStatus>) returns (kind: Option<Kind>)
    requires reference.Some? ==> price.Some?
    ensures kind == PriceKind(reference, price)
  {
    if reference.Some? && price.value == Drift {
      return Some(PriceDrift);
    } else if reference.Some? && price.value == Mixed {
      return Some(PriceMixed);
    } else if reference.Some? && price.value == PriceUnknown {
      return Some(PriceUnavailable);
    }
    return None;
  }

  /** findings.push under a condition. */
  method Push(findings: seq<Finding>, when: bool, source: nat, kind: Kind) returns (longer: seq<Finding>)
    ensures longer == findings + Noted(when, source, kind)
  {
    longer := findings;
    if when { longer := longer + [Finding(source, kind)]; }
  }

  /** The body of the loop for one source. */
  method SourceFindings(before: seq<Finding>, source: nat, o: Observation, hasRoute: bool, reference: Option<string>,
                        notEligible: bool, unresolved: bool) returns (findings: seq<Finding>)
    requires o.Observed? && reference.Some? ==> o.price.Some?
    ensures findings == before + FindingsOf(source, o, hasRoute, reference, notEligible, unresolved)
  {
    hide TargetRemarks, Noted, Band;
    findings := Push(before, notEligible, source, ProviderNotEligible);
    findings := Push(findings, unresolved, source, MaterializationUnresolved);
    ghost var first := Noted(notEligible, source, ProviderNotEligible) + Noted(unresolved, source, MaterializationUnresolved);
    assert findings == before + first;
    if o.Failed? {
      findings := findings + [Finding(source, SourceUnavailable)];
      return findings;
    }
    findings := Push(findings, o.record.countProblem, source, CountNotUsable);
    ghost var second := Noted(o.record.countProblem, source, CountNotUsable);
    if !TargetFound(o.record.items) {
      findings := findings + [Finding(source, TargetNotInWindow)];
      return findings;
    }
    findings := TargetFindings(findings, source, o, hasRoute, reference);
    Regroup(before, first, second, TargetRemarks(source, o, hasRoute, reference), [Finding(source, Conclusion(o, hasRoute))]);
  }

  lemma Regroup(a: seq<Finding>, b: seq<Finding>, c: seq<Finding>, d: seq<Finding>, e: seq<Finding>)
    ensures (a + b + c) + (d + e) == a + ((b + (c + d)) + e)
  {}

  /** The rest of the body for a target that was found. */
  method TargetFindings(before: seq<Finding>, source: nat, o: Observation, hasRoute: bool, reference: Option<string>)
    returns (findings: seq<Finding>)
    requires o.Observed? && TargetFound(o.record.items) && (reference.Some? ==> o.price.Some?)
    ensures findings == before + (TargetRemarks(source, o, hasRoute, reference) + [Finding(source, Conclusion(o, hasRoute))])
  {
    hide PriceKind, Band, Noted;
    findings := Push(before, o.record.constructible, source, RequestConstructible);
    if hasRoute && !RouteFound(o.record.items) {
      findings := findings + [Finding(source, RouteAbsentFound)];
      return findings;
    }
    findings := Push(findings, o.record.identityConflict, source, IdentityConflict);
    var price := PriceFinding(reference, o.price);
    if price.Some? { findings := findings + [Finding(source, price.value)]; }
    findings := findings + [Finding(source, TargetRanked(BestRank(o.record.items), Band(BestRank(o.record.items))))];
  }

  method FindingsLoop(sources: seq<Observation>, hasRoute: bool, reference: Option<string>, notEligible: bool, unresolved: bool)
    returns (findings: seq<Finding>)
    requires Priced(sources, reference)
    ensures findings == AllFindings(sources, hasRoute, reference, notEligible, unresolved)
  {
    hide FindingsOf;
    findings := [];
    for i := 0 to |sources|
      invariant findings == AllFindings(sources[..i], hasRoute, reference, notEligible, unresolved)
    {
      assert sources[..i + 1][..i] == sources[..i];
      findings := SourceFindings(findings, i, sources[i], hasRoute, reference, i == 0 && notEligible, i == 0 && unresolved);
    }
    assert sources[..|sources|] == sources;
  }

  /** From the answers to the findings: the one place where reference, comparison input, summaries and loop meet. */
  method AuditSources(runtime: RuntimeAudit, expected: Option<string>, answers: seq<Option<Record>>, hasRoute: bool,
                      notEligible: bool, unresolved: bool)
    returns (reference: Option<string>, sources: seq<Observation>, findings: seq<Finding>)
    ensures CanonicalReference(runtime, expected, reference)
    ensures |sources| == |answers| && Priced(sources, reference)
    ensures forall i | 0 <= i < |answers| :: sources[i].Failed? <==> answers[i].None?
    ensures forall i | 0 <= i < |answers| && answers[i].Some? ::
              sources[i] == Observed(answers[i].value, SummarizePrice(reference, RoutePrices(answers[i].value.items)))
    ensures findings == AllFindings(sources, hasRoute, reference, notEligible, unresolved)
  {
    var live := RuntimePriceReference(runtime);
    reference := if live.Some? then live else expected;
    var comparison := if reference.Some? then reference else expected;
    sources := Summaries(answers, comparison);
    SummariesArePriced(answers, live, expected, sources);
    findings := FindingsLoop(sources, hasRoute, reference, notEligible, unresolved);
  }

  /** A live amount exists exactly for a parseable, consistent inspection with a single canonical amount. */
  predicate HasLive(a: RuntimeAudit) {
    a.Inspected? && a.parseable && (a.compared ==> a.consistent) && |CanonicalAmounts(a.offers)| == 1
  }

  predicate CanonicalReference(a: RuntimeAudit, expected: Option<string>, reference: Option<string>) {
    if HasLive(a) then reference.Some? && CanonicalAmounts(a.offers) == {reference.value} else reference == expected
  }

  /** Under a price reference, an available source has the route-absent status exactly when the route is not found, and a
      found route gets a price finding exactly when its status is not matched. */
  lemma RoutePriceFinding(record: Record, reference: string)
    ensures var o := Summary(Some(record), Some(reference));
            && (o.price == Some(RouteAbsent) <==> !RouteFound(record.items))
            && (RouteFound(record.items) ==> (PriceKind(Some(reference), o.price).Some? <==> o.price != Some(Matched)))
  {
    RouteFoundHasPrice(record.items);
    PriceStatusMeans(reference, RoutePrices(record.items));
    FiveStatuses(Summary(Some(record), Some(reference)).price.value);
  }

  // ---- one conclusion for every source ----------------------------------------------------

  /** The terminal findings about a source. */
  function Conclusions(findings: seq<Finding>, source: nat): seq<Kind> {
    if findings == [] then []
    else
      var f := findings[|findings| - 1];
      Conclusions(findings[..|findings| - 1], source) + (if f.source == source && Terminal(f.kind) then [f.kind] else [])
  }

  lemma {:induction false} ConclusionsConcat(a: seq<Finding>, b: seq<Finding>, source: nat)
    ensures Conclusions(a + b, source) == Conclusions(a, source) + Conclusions(b, source)
  {
    if b == [] {
      assert a + b == a;
    } else {
      var b' := b[..|b| - 1];
      assert (a + b)[..|a + b| - 1] == a + b';
      ConclusionsConcat(a, b', source);
    }
  }

  lemma {:induction false} NoConclusion(findings: seq<Finding>, source: nat)
    requires forall f | f in findings :: !Terminal(f.kind) || f.source != source
    ensures Conclusions(findings, source) == []
  {
    if findings != [] { NoConclusion(findings[..|findings| - 1], source); }
  }

  /** Remarks are about their source and conclude nothing. */
  lemma RemarksConcludeNothing(source: nat, o: Observation, hasRoute: bool, reference: Option<string>, notEligible: bool, unresolved: bool)
    ensures forall f | f in Remarks(source, o, hasRoute, reference, notEligible, unresolved) :: f.source == source && !Terminal(f.kind)
  {
    hide TargetRemarks, Noted;
    forall when: bool, kind: Kind, f: Finding | f in Noted(when, source, kind)
      ensures f == Finding(source, kind)
    {
      NotedOne(when, source, kind, f);
    }
    if o.Observed? { TargetRemarksConcludeNothing(source, o, hasRoute, reference); }
  }

  lemma NotedOne(when: bool, source: nat, kind: Kind, f: Finding)
    requires f in Noted(when, source, kind)
    ensures f == Finding(source, kind)
  {}

  lemma TargetRemarksConcludeNothing(source: nat, o: Observation, hasRoute: bool, reference: Option<string>)
    requires o.Observed?
    ensures forall f | f in TargetRemarks(source, o, hasRoute, reference) :: f.source == source && !Terminal(f.kind)
  {
    hide SummarizePrice;
  }

  /** For all outcomes of the sources, each source gets exactly one terminal finding, the one that its observation
      calls for. */
  lemma {:induction false} OneConclusionEach(sources: seq<Observation>, hasRoute: bool, reference: Option<string>,
    notEligible: bool, unresolved: bool, s: nat)
    ensures Conclusions(AllFindings(sources, hasRoute, reference, notEligible, unresolved), s) ==
            if s < |sources| then [Conclusion(sources[s], hasRoute)] else []
  {
    if sources != [] {
      var n := |sources| - 1;
      OneConclusionEach(sources[..n], hasRoute, reference, notEligible, unresolved, s);
      var before := AllFindings(sources[..n], hasRoute, reference, notEligible, unresolved);
      var remarks := Remarks(n, sources[n], hasRoute, reference, n == 0 && notEligible, n == 0 && unresolved);
      var last := Finding(n, Conclusion(sources[n], hasRoute));
      hide AllFindings, Remarks, Conclusion;
      RemarksConcludeNothing(n, sources[n], hasRoute, reference, n == 0 && notEligible, n == 0 && unresolved);
      NoConclusion(remarks, s);
      LastConcludes(remarks, last, s);
      ConclusionsConcat(before, remarks + [last], s);
      ConclusionIsTerminal(sources[n], hasRoute);
      AllFindingsUnfold(sources, hasRoute, reference, notEligible, unresolved);
    }
  }

  /** Item i is a target on the expected route. */
  predicate OnRoute(items: seq<Item>, i: nat) {
    i < |items| && items[i].target && items[i].onRoute
  }

  lemma RouteFoundAt(items: seq<Item>)
    ensures RouteFound(items) <==> exists i: nat :: OnRoute(items, i)
  {
    if RouteFound(items) {
      var i :| 0 <= i < |items| && items[i].target && items[i].onRoute;
      assert OnRoute(items, i);
    }
  }

  /** The one conclusion about each source, by what it answered: k is the position of its first target. */
  lemma ConclusionMeans(sources: seq<Observation>, hasRoute: bool, reference: Option<string>, notEligible: bool, unresolved: bool,
                        s: nat, k: nat)
    requires s < |sources|
    ensures var said := Conclusions(AllFindings(sources, hasRoute, reference, notEligible, unresolved), s);
            && (sources[s].Failed? ==> said == [SourceUnavailable])
            && (sources[s].Observed? ==>
                  var items := sources[s].record.items;
                  && ((forall i | 0 <= i < |items| :: !items[i].target) ==> said == [TargetNotInWindow])
                  && (FirstTarget(items, k) && hasRoute && (forall i: nat :: !OnRoute(items, i)) ==> said == [RouteAbsentFound])
                  && (FirstTarget(items, k) && (hasRoute ==> exists i: nat :: OnRoute(items, i)) ==>
                        && (k + 1 <= 3 ==> said == [TargetRanked(k + 1, "top_3")])
                        && (4 <= k + 1 <= 10 ==> said == [TargetRanked(k + 1, "top_10")])
                        && (11 <= k + 1 ==> said == [TargetRanked(k + 1, "below_top_10")])))
  {
    OneConclusionEach(sources, hasRoute, reference, notEligible, unresolved, s);
    hide AllFindings, Conclusions, BestRank, RouteFound, OnRoute;
    if sources[s].Observed? {
      var items := sources[s].record.items;
      BestRankIsFirst(items);
      RouteFoundAt(items);
    }
  }

  lemma LastConcludes(remarks: seq<Finding>, last: Finding, s: nat)
    requires Conclusions(remarks, s) == []
    ensures Conclusions(remarks + [last], s) == if last.source == s && Terminal(last.kind) then [last.kind] else []
  {
    assert (remarks + [last])[..|remarks + [last]| - 1] == remarks;
  }

  lemma ConclusionIsTerminal(o: Observation, hasRoute: bool)
    ensures Terminal(Conclusion(o, hasRoute))
  {}

  lemma AllFindingsUnfold(sources: seq<Observation>, hasRoute: bool, reference: Option<string>, notEligible: bool, unresolved: bool)
    requires sources != []
    ensures var n := |sources| - 1;
            AllFindings(sources, hasRoute, reference, notEligible, unresolved) ==
            AllFindings(sources[..n], hasRoute, reference, notEligible, unresolved)
            + (Remarks(n, sources[n], hasRoute, reference, n == 0 && notEligible, n == 0 && unresolved)
               + [Finding(n, Conclusion(sources[n], hasRoute))])
  {
    hide Remarks, Conclusion;
  }

  // ---- every finding ----------------------------------------------------------------------

  /** An available source that lists the target. */
  predicate Listed(o: Observation) { o.Observed? && exists k: nat :: k < |o.record.items| && FirstTarget(o.record.items, k) }

  /** An available source that lists the target where it is expected. */
  predicate Placed(o: Observation, hasRoute: bool) { Listed(o) && (hasRoute ==> RouteFound(o.record.items)) }

  /** When a finding is made about source s. */
  predicate Due(o: Observation, s: nat, hasRoute: bool, reference: Option<string>, notEligible: bool, unresolved: bool, kind: Kind) {
    match kind
    case ProviderNotEligible => s == 0 && notEligible
    case MaterializationUnresolved => s == 0 && unresolved
    case SourceUnavailable => o.Failed?
    case CountNotUsable => o.Observed? && o.record.countProblem
    case TargetNotInWindow => o.Observed? && !Listed(o)
    case RequestConstructible => Listed(o) && o.record.constructible
    case RouteAbsentFound => Listed(o) && !Placed(o, hasRoute)
    case IdentityConflict => Placed(o, hasRoute) && o.record.identityConflict
    case PriceDrift => Placed(o, hasRoute) && reference.Some? && o.price == Some(Drift)
    case PriceMixed => Placed(o, hasRoute) && reference.Some? && o.price == Some(Mixed)
    case PriceUnavailable => Placed(o, hasRoute) && reference.Some? && o.price == Some(PriceUnknown)
    case TargetRanked(rank, band) =>
      Placed(o, hasRoute) && 1 <= rank && FirstTarget(o.record.items, rank - 1) && InBand(rank, band)
  }

  predicate InBand(rank: nat, band: string) {
    || (band == "top_3" && rank <= 3)
    || (band == "top_10" && 4 <= rank <= 10)
    || (band == "below_top_10" && 11 <= rank)
  }

  function Times(findings: seq<Finding>, f: Finding): nat {
    multiset(findings)[f]
  }

  lemma TimesConcat(a: seq<Finding>, b: seq<Finding>, f: Finding)
    ensures Times(a + b, f) == Times(a, f) + Times(b, f)
  {}

  lemma TimesNoted(when: bool, source: nat, kind: Kind, f: Finding)
    ensures Times(Noted(when, source, kind), f) == if when && f == Finding(source, kind) then 1 else 0
  {}

  lemma ListedIsFound(o: Observation)
    requires o.Observed?
    ensures Listed(o) <==> TargetFound(o.record.items)
  {
    BestRankIsFirst(o.record.items);
  }

  lemma ConclusionIsDue(o: Observation, s: nat, hasRoute: bool, reference: Option<string>, notEligible: bool, unresolved: bool, kind: Kind)
    requires Terminal(kind)
    ensures Conclusion(o, hasRoute) == kind <==> Due(o, s, hasRoute, reference, notEligible, unresolved, kind)
  {
    if o.Observed? {
      ListedIsFound(o);
      BestRankIsFirst(o.record.items);
    }
  }

  lemma TimesTargetRemarks(source: nat, o: Observation, hasRoute: bool, reference: Option<string>, f: Finding)
    requires o.Observed?
    ensures Times(TargetRemarks(source, o, hasRoute, reference), f) ==
            (if o.record.constructible && f == Finding(source, RequestConstructible) then 1 else 0)
            + (if hasRoute && !RouteFound(o.record.items) then 0
               else (if o.record.identityConflict && f == Finding(source, IdentityConflict) then 1 else 0)
                    + (if Some(f.kind) == PriceKind(reference, o.price) && f.source == source then 1 else 0))
  {
    hide PriceKind, RouteFound, Noted, Times;
    TimesNoted(o.record.constructible, source, RequestConstructible, f);
    TimesNoted(o.record.identityConflict, source, IdentityConflict, f);
    var price := PriceKind(reference, o.price);
    var identity := Noted(o.record.identityConflict, source, IdentityConflict);
    TimesPrice(source, price, f);
    TimesConcat(identity, PriceNoted(source, price), f);
    TimesConcat(Noted(o.record.constructible, source, RequestConstructible), identity + PriceNoted(source, price), f);
    TimesConcat(Noted(o.record.constructible, source, RequestConstructible), [], f);
    TimesNone(f);
  }

  lemma TimesNone(f: Finding)
    ensures Times([], f) == 0
  {}

  lemma TimesPrice(source: nat, price: Option<Kind>, f: Finding)
    ensures Times(PriceNoted(source, price), f) == if Some(f.kind) == price && f.source == source then 1 else 0
  {}

  lemma TimesRemarks(source: nat, o: Observation, hasRoute: bool, reference: Option<string>, notEligible: bool, unresolved: bool, f: Finding)
    requires !Terminal(f.kind)
    ensures Times(Remarks(source, o, hasRoute, reference, source == 0 && notEligible, source == 0 && unresolved), f) ==
            if f.source == source && Due(o, source, hasRoute, reference, notEligible, unresolved, f.kind) then 1 else 0
  {
    hide TargetRemarks, Noted, Times, RouteFound, TargetFound, FirstTarget;
    var eligible, resolved := Noted(source == 0 && notEligible, source, ProviderNotEligible),
                              Noted(source == 0 && unresolved, source, MaterializationUnresolved);
    TimesNoted(source == 0 && notEligible, source, ProviderNotEligible, f);
    TimesNoted(source == 0 && unresolved, source, MaterializationUnresolved, f);
    TimesConcat(eligible, resolved, f);
    TimesNone(f);
    if o.Failed? {
      TimesConcat(eligible + resolved, [], f);
    } else {
      var counted := Noted(o.record.countProblem, source, CountNotUsable);
      var target := if TargetFound(o.record.items) then TargetRemarks(source, o, hasRoute, reference) else [];
      TimesNoted(o.record.countProblem, source, CountNotUsable, f);
      TimesTargetRemarks(source, o, hasRoute, reference, f);
      TimesConcat(counted, target, f);
      TimesConcat(eligible + resolved, counted + target, f);
      ListedIsFound(o);
    }
  }

  lemma TimesOutside(findings: seq<Finding>, f: Finding)
    requires f !in findings
    ensures Times(findings, f) == 0
  {}

  lemma TimesOne(g: Finding, f: Finding)
    ensures Times([g], f) == if f == g then 1 else 0
  {}

  lemma TimesOf(source: nat, o: Observation, hasRoute: bool, reference: Option<string>, notEligible: bool, unresolved: bool, f: Finding)
    ensures Times(FindingsOf(source, o, hasRoute, reference, source == 0 && notEligible, source == 0 && unresolved), f) ==
            if f.source == source && Due(o, source, hasRoute, reference, notEligible, unresolved, f.kind) then 1 else 0
  {
    hide Remarks, Times, Due, Conclusion;
    var remarks := Remarks(source, o, hasRoute, reference, source == 0 && notEligible, source == 0 && unresolved);
    TimesConcat(remarks, [Finding(source, Conclusion(o, hasRoute))], f);
    TimesOne(Finding(source, Conclusion(o, hasRoute)), f);
    ConclusionIsTerminal(o, hasRoute);
    if Terminal(f.kind) {
      RemarksConcludeNothing(source, o, hasRoute, reference, source == 0 && notEligible, source == 0 && unresolved);
      TimesOutside(remarks, f);
      ConclusionIsDue(o, source, hasRoute, reference, notEligible, unresolved, f.kind);
    } else {
      TimesRemarks(source, o, hasRoute, reference, notEligible, unresolved, f);
    }
  }

  /** For all outcomes of the sources, each finding is made exactly once when it is due, and not at all otherwise. */
  lemma {:induction false} FindingsMean(sources: seq<Observation>, hasRoute: bool, reference: Option<string>,
    notEligible: bool, unresolved: bool, f: Finding)
    ensures multiset(AllFindings(sources, hasRoute, reference, notEligible, unresolved))[f] ==
            if f.source < |sources| && Due(sources[f.source], f.source, hasRoute, reference, notEligible, unresolved, f.kind) then 1 else 0
  {
    hide FindingsOf, Due;
    if sources != [] {
      var n := |sources| - 1;
      FindingsMean(sources[..n], hasRoute, reference, notEligible, unresolved, f);
      TimesConcat(AllFindings(sources[..n], hasRoute, reference, notEligible, unresolved),
                  FindingsOf(n, sources[n], hasRoute, reference, n == 0 && notEligible, n == 0 && unresolved), f);
      TimesOf(n, sources[n], hasRoute, reference, notEligible, unresolved, f);
    }
  }

  /** Findings come in the order of the sources, and the conclusion about a source is the last one about it. */
  lemma {:induction false} FindingsInOrder(sources: seq<Observation>, hasRoute: bool, reference: Option<string>,
    notEligible: bool, unresolved: bool)
    ensures var findings := AllFindings(sources, hasRoute, reference, notEligible, unresolved);
            && (forall i | 0 <= i < |findings| :: findings[i].source < |sources|)
            && forall i, j | 0 <= i < j < |findings| ::
                 findings[i].source <= findings[j].source
                 && (Terminal(findings[i].kind) ==> findings[i].source < findings[j].source)
  {
    hide FindingsOf, Remarks;
    if sources != [] {
      var n := |sources| - 1;
      FindingsInOrder(sources[..n], hasRoute, reference, notEligible, unresolved);
      RemarksConcludeNothing(n, sources[n], hasRoute, reference, n == 0 && notEligible, n == 0 && unresolved);
      AllFindingsUnfold(sources, hasRoute, reference, notEligible, unresolved);
      hide AllFindings;
      var before := AllFindings(sources[..n], hasRoute, reference, notEligible, unresolved);
      var remarks := Remarks(n, sources[n], hasRoute, reference, n == 0 && notEligible, n == 0 && unresolved);
      var findings := before + (remarks + [Finding(n, Conclusion(sources[n], hasRoute))]);
      forall i | |before| <= i < |findings|
        ensures findings[i].source == n && (i < |findings| - 1 ==> !Terminal(findings[i].kind))
      {
        if i < |findings| - 1 { assert findings[i] == remarks[i - |before|]; }
      }
    }
  }
}
