/** The replies of catalog_proxy.py and the fallbacks that always fit the reply budget. */
module ProxyReply {
  import opened Encoder
  import opened CatalogProxy

  function Prefix(s: string, n: nat): string {
    if n <= |s| then s[..n] else s
  }

  function Optional(key: string, text: string): seq<Entry> {
    if text == "" then [] else [Entry(key, Str(text))]
  }

  // ---- refusals ---------------------------------------------------------------------------

  function RefusalEntries(reason: string, detail: string, tool: string): seq<Entry> {
    [Entry("cash", Num("0"))] + Optional("detail", Prefix(detail, 256))
    + [Entry("kind", Str("refusal")), Entry("paymentInferred", Bool(false)), Entry("reason", Str(reason))]
    + Optional("tool", tool) + [Entry("useful", Bool(false))]
  }

  predicate ReasonCode(reason: string) {
    |reason| <= 32
  }

  lemma BareRefusalIsLight(reason: string)
    requires ReasonCode(reason)
    ensures Dumps(RefusalEntries(reason, "", "")).Some?
  {
    var bare := [Entry("cash", Num("0")), Entry("kind", Str("refusal")), Entry("paymentInferred", Bool(false)),
                 Entry("reason", Str(reason)), Entry("useful", Bool(false))];
    assert RefusalEntries(reason, "", "") == bare;
    UniformWeight(bare, 1000);
    LightDumps(bare);
  }

  /** A refusal without its detail and its tool always fits, so every refusal fits. */
  function Refusal(reason: string, detail: string, tool: string): (entries: seq<Entry>)
    requires ReasonCode(reason)
    ensures Dumps(entries).Some?
    ensures entries == RefusalEntries(reason, detail, tool) || entries == RefusalEntries(reason, "", "")
  {
    if Dumps(RefusalEntries(reason, detail, tool)).Some? then RefusalEntries(reason, detail, tool)
    else
      BareRefusalIsLight(reason);
      RefusalEntries(reason, "", "")
  }

  // ---- availability -----------------------------------------------------------------------

  function AvailabilityValue(a: Availability): Value {
    Dict([Entry("callable", Bool(a.Callable())),
          Entry("observedAt", if a.observedAt.Some? then Str(a.observedAt.value) else Null),
          Entry("origin", Str(GATEWAY_ORIGIN)), Entry("source", Str(AVAILABILITY_URL)), Entry("state", Str(StateText(a.state)))])
  }

  function FreeToolValue(tool: string, key: string, example: string): Value {
    Dict([Entry("arguments", Dict([Entry(key, Str(example))])), Entry("kind", Str("free-tool")), Entry("tool", Str(tool))])
  }

  function FreeToolsEntry(): Entry {
    Entry("freeTools", Arr([FreeToolValue("check_ai_readiness", "url", "https://example.com"),
                            FreeToolValue("check_agent_readiness", "host", "example.com")]))
  }

  function Strings(texts: seq<string>): Value {
    Arr(seq(|texts|, i requires 0 <= i < |texts| => Str(texts[i])))
  }

  const PAUSED_NOW := "Paid gateway temporarily paused. "
  const UNCONFIRMED := "Paid gateway availability unconfirmed. "
  const USE_FREE := "Use a free readiness tool or an offline package."

  function Guidance(paused: bool): string {
    (if paused then PAUSED_NOW else UNCONFIRMED) + USE_FREE
  }

  function WhereToGo(a: Availability): seq<Entry> {
    [Entry("availability", AvailabilityValue(a)), Entry("cash", Num("0")), Entry("documentation", Str("https://samedaydesk.com/skill.md")),
     Entry("freeApexMcp", Str(READINESS_URL)), FreeToolsEntry()]
  }

  function WhatItIs(paused: bool, paid: bool): seq<Entry> {
    [Entry("instruction", Str(Guidance(paused))), Entry("kind", Str(if paid then "refusal" else "discovery")),
     Entry("nextAction", Str(OFFLINE_JOBS_URL)), Entry("offlinePackages", Str(OFFLINE_JOBS_URL))]
  }

  function WhatWasPaid(ignored: seq<string>): seq<Entry> {
    [Entry("paymentForwarded", Bool(false)), Entry("paymentIgnored", Strings(ignored)), Entry("paymentInferred", Bool(false))]
  }

  function WhyNot(paused: bool, paid: bool): seq<Entry> {
    (if paid then [Entry("reason", Str(if paused then "paid_gateway_paused" else "paid_gateway_unconfirmed"))] else [])
    + [Entry("useful", Bool(!paid))]
  }

  /** The reply while the gateway is not callable, with the payment fields that were ignored. */
  function AvailabilityReply(a: Availability, paid: bool, ignored: seq<string>): seq<Entry> {
    WhereToGo(a) + WhatItIs(a.state.Paused?, paid) + WhatWasPaid(ignored) + WhyNot(a.state.Paused?, paid)
  }

  /** Failures that turn a discovery reply into a refusal. */
  predicate Fatal(reason: string) {
    reason in {"stream_refused", "redirect_refused", "body_budget"}
  }

  function Addresses(): seq<Entry> {
    [Entry("documentation", Str("https://samedaydesk.com/skill.md")), Entry("error", Str("catalog_temporarily_unavailable")),
     Entry("freeApexMcp", Str(READINESS_URL))]
  }

  const UNREAD := "Current paid catalog could not be read. "

  function Closing(reason: string): seq<Entry> {
    [Entry("instruction", Str(UNREAD + USE_FREE)),
     Entry("kind", Str(if Fatal(reason) then "refusal" else "discovery")),
     Entry("nextAction", Str(OFFLINE_JOBS_URL)), Entry("offlinePackages", Str(OFFLINE_JOBS_URL)),
     Entry("paymentForwarded", Bool(false)), Entry("paymentInferred", Bool(false))]
    + (if Fatal(reason) then [Entry("reason", Str(reason))] else []) + [Entry("useful", Bool(!Fatal(reason)))]
  }

  /** The reply of a discovery that failed. */
  function FailedDiscovery(a: Availability, reason: string): seq<Entry> {
    [Entry("availability", AvailabilityValue(a))]
    + [Entry("canonicalCatalog", Str("https://agents.samedaydesk.com/api/actions")), Entry("cash", Num("0"))]
    + [Entry("detail", Str(Prefix(reason, 256)))] + Addresses() + [FreeToolsEntry()] + Closing(reason)
  }

  lemma AvailabilityLight(a: Availability)
    requires a.observedAt.Some? ==> |a.observedAt.value| == 24
    ensures EntryWeight(Entry("availability", AvailabilityValue(a))) <= 4000
    ensures AsciiNumbers(AvailabilityValue(a))
  {
    UniformWeight(AvailabilityValue(a).entries, 700);
  }

  lemma FreeToolLight(tool: string, key: string, example: string)
    requires |tool| <= 21 && |key| <= 4 && |example| <= 19
    ensures Weight(FreeToolValue(tool, key, example)) <= 1202 && AsciiNumbers(FreeToolValue(tool, key, example))
  {
    var argument := Entry(key, Str(example));
    OneEntry(argument);
    assert Weight(Dict([argument])) == 2 + EntryWeight(argument);
    UniformWeight(FreeToolValue(tool, key, example).entries, 400);
  }

  lemma FreeToolsLight()
    ensures EntryWeight(FreeToolsEntry()) <= 3000 && AsciiNumbers(FreeToolsEntry().value)
  {
    hide FreeToolValue;
    FreeToolLight("check_ai_readiness", "url", "https://example.com");
    FreeToolLight("check_agent_readiness", "host", "example.com");
  }

  lemma AddressesLight()
    ensures |Addresses()| == 3 && forall i | 0 <= i < 3 :: EntryWeight(Addresses()[i]) <= 1300 && AsciiNumbers(Addresses()[i].value)
  {}

  lemma ClosingLight(reason: string)
    ensures |Closing(reason)| <= 8
    ensures forall i | 0 <= i < |Closing(reason)| :: EntryWeight(Closing(reason)[i]) <= 1300 && AsciiNumbers(Closing(reason)[i].value)
  {}

  lemma MiddleLight(reason: string)
    ensures EntryWeight(Entry("detail", Str(Prefix(reason, 256)))) <= 3300
    ensures EntriesWeight([Entry("canonicalCatalog", Str("https://agents.samedaydesk.com/api/actions")), Entry("cash", Num("0"))]) <= 2600
    ensures AsciiNumbers(Num("0"))
  {}

  predicate Plain(entries: seq<Entry>) {
    forall i | 0 <= i < |entries| :: AsciiNumbers(entries[i].value)
  }

  lemma SixParts(a: seq<Entry>, b: seq<Entry>, c: seq<Entry>, d: seq<Entry>, e: seq<Entry>, f: seq<Entry>)
    ensures EntriesWeight(a + b + c + d + e + f) ==
            EntriesWeight(a) + EntriesWeight(b) + EntriesWeight(c) + EntriesWeight(d) + EntriesWeight(e) + EntriesWeight(f)
    ensures Plain(a) && Plain(b) && Plain(c) && Plain(d) && Plain(e) && Plain(f) ==> AsciiNumbers(Dict(a + b + c + d + e + f))
  {
    hide EntriesWeight;
    WeightConcat(a, b);
    WeightConcat(a + b, c);
    WeightConcat(a + b + c, d);
    WeightConcat(a + b + c + d, e);
    WeightConcat(a + b + c + d + e, f);
  }

  lemma OneEntry(e: Entry)
    ensures EntriesWeight([e]) == EntryWeight(e)
  {}

  /** Twelve bytes for each of 256 code points leave room for everything else: this reply always fits. */
  lemma FailedDiscoveryFits(a: Availability, reason: string)
    requires a.observedAt.Some? ==> |a.observedAt.value| == 24
    ensures Dumps(FailedDiscovery(a, reason)).Some?
  {
    hide EntryWeight, AvailabilityValue, FreeToolsEntry, Addresses, Closing, Prefix, Dumps, EntriesWeight;
    var availability, detail := Entry("availability", AvailabilityValue(a)), Entry("detail", Str(Prefix(reason, 256)));
    var catalog := [Entry("canonicalCatalog", Str("https://agents.samedaydesk.com/api/actions")), Entry("cash", Num("0"))];
    AvailabilityLight(a);
    FreeToolsLight();
    AddressesLight();
    ClosingLight(reason);
    MiddleLight(reason);
    UniformWeight(Addresses(), 1300);
    UniformWeight(Closing(reason), 1300);
    OneEntry(availability);
    OneEntry(detail);
    OneEntry(FreeToolsEntry());
    SixParts([availability], catalog, [detail], Addresses(), [FreeToolsEntry()], Closing(reason));
    LightDumps(FailedDiscovery(a, reason));
  }
}
