/** What each kind of reply of catalog_proxy.py says, by key, and that it says nothing else. */
module ProxyContent {
  import opened Common
  import opened Encoder
  import opened CatalogProxy
  import opened ProxyReply
  import opened ProxyOutcome

  predicate Says(entries: seq<Entry>, key: string, v: Value) {
    exists i :: 0 <= i < |entries| && entries[i] == Entry(key, v)
  }

  lemma SaysAt(entries: seq<Entry>, i: nat)
    requires i < |entries|
    ensures Says(entries, entries[i].key, entries[i].value)
  {}

  lemma SaysLeft(a: seq<Entry>, b: seq<Entry>, key: string, v: Value)
    ensures Says(a, key, v) || Says(b, key, v) ==> Says(a + b, key, v)
  {
    if Says(a, key, v) {
      var i :| 0 <= i < |a| && a[i] == Entry(key, v);
      assert (a + b)[i] == Entry(key, v);
    } else if Says(b, key, v) {
      var i :| 0 <= i < |b| && b[i] == Entry(key, v);
      assert (a + b)[|a| + i] == Entry(key, v);
    }
  }

  lemma FourParts(a: seq<Entry>, b: seq<Entry>, c: seq<Entry>, d: seq<Entry>)
    ensures forall k, v :: Says(a, k, v) || Says(b, k, v) || Says(c, k, v) || Says(d, k, v) ==> Says(a + b + c + d, k, v)
  {
    hide Says;
    forall k, v | Says(a, k, v) || Says(b, k, v) || Says(c, k, v) || Says(d, k, v)
      ensures Says(a + b + c + d, k, v)
    {
      SaysLeft(a, b, k, v);
      SaysLeft(a + b, c, k, v);
      SaysLeft(a + b + c, d, k, v);
    }
  }

  /** A refusal: useless, free, with its reason, the first 256 characters of its detail, and the rejected tool. */
  lemma RefusalSays(reason: string, detail: string, tool: string)
    ensures var e := RefusalEntries(reason, detail, tool);
            && |e| == 5 + (if detail == "" then 0 else 1) + (if tool == "" then 0 else 1)
            && Says(e, "kind", Str("refusal")) && Says(e, "reason", Str(reason)) && Says(e, "useful", Bool(false))
            && Says(e, "cash", Num("0")) && Says(e, "paymentInferred", Bool(false))
            && (detail != "" ==> Says(e, "detail", Str(if |detail| <= 256 then detail else detail[..256])))
            && (tool != "" ==> Says(e, "tool", Str(tool)))
  {
    var first, middle, last := RefusalHead(detail), RefusalMiddle(reason), Optional("tool", tool);
    var useful := [Entry("useful", Bool(false))];
    RefusalSplit(reason, detail, tool);
    HeadSays(detail);
    MiddleSays(reason);
    OptionalSays("tool", tool);
    hide Says, RefusalEntries, RefusalHead, RefusalMiddle, Optional;
    SaysAt(useful, 0);
    FourParts(first, middle, last, useful);
  }

  function RefusalHead(detail: string): seq<Entry> {
    [Entry("cash", Num("0"))] + Optional("detail", Prefix(detail, 256))
  }

  function RefusalMiddle(reason: string): seq<Entry> {
    [Entry("kind", Str("refusal")), Entry("paymentInferred", Bool(false)), Entry("reason", Str(reason))]
  }

  lemma RefusalSplit(reason: string, detail: string, tool: string)
    ensures RefusalEntries(reason, detail, tool) ==
            RefusalHead(detail) + RefusalMiddle(reason) + Optional("tool", tool) + [Entry("useful", Bool(false))]
  {
    hide Optional, Prefix;
  }

  lemma OptionalSays(key: string, text: string)
    ensures |Optional(key, text)| == (if text == "" then 0 else 1) && (text != "" ==> Says(Optional(key, text), key, Str(text)))
  {
    if text != "" { assert Optional(key, text)[0] == Entry(key, Str(text)); }
  }

  lemma HeadSays(detail: string)
    ensures var e := RefusalHead(detail);
            && |e| == 1 + (if detail == "" then 0 else 1) && Says(e, "cash", Num("0"))
            && (detail != "" ==> Says(e, "detail", Str(if |detail| <= 256 then detail else detail[..256])))
  {
    var shown := Prefix(detail, 256);
    assert shown == if |detail| <= 256 then detail else detail[..256];
    assert shown == "" <==> detail == "";
    var cash := [Entry("cash", Num("0"))];
    OptionalSays("detail", shown);
    SaysAt(cash, 0);
    hide Says, Optional;
    SaysLeft(cash, Optional("detail", shown), "cash", Num("0"));
    SaysLeft(cash, Optional("detail", shown), "detail", Str(shown));
  }

  lemma MiddleSays(reason: string)
    ensures var e := RefusalMiddle(reason);
            |e| == 3 && Says(e, "kind", Str("refusal")) && Says(e, "paymentInferred", Bool(false)) && Says(e, "reason", Str(reason))
  {
    var e := RefusalMiddle(reason);
    hide Says;
    SaysAt(e, 0);
    SaysAt(e, 1);
    SaysAt(e, 2);
  }

  /** A status shows its state, whether it is callable, and its timestamp or null. */
  lemma AvailabilitySays(a: Availability)
    ensures var e := AvailabilityValue(a).entries;
            && |e| == 5
            && Says(e, "callable", Bool(a.state == Available))
            && Says(e, "observedAt", if a.observedAt.Some? then Str(a.observedAt.value) else Null)
            && Says(e, "state", Str(if a.state == Available then "available" else if a.state == Paused then "paused" else "unknown"))
            && Says(e, "origin", Str(GATEWAY_ORIGIN)) && Says(e, "source", Str(AVAILABILITY_URL))
  {
    var e := AvailabilityValue(a).entries;
    hide Says;
    SaysAt(e, 0);
    SaysAt(e, 1);
    SaysAt(e, 2);
    SaysAt(e, 3);
    SaysAt(e, 4);
  }

  lemma GuidanceMeans(paused: bool)
    ensures Guidance(paused) == if paused then PAUSED_NOW + USE_FREE else UNCONFIRMED + USE_FREE
  {}

  /** The reply under a closed gateway: the status, the ignored fields, and, for a paid challenge, the reason. */
  lemma ClosedSays(a: Availability, paid: bool, ignored: seq<string>)
    ensures var e := AvailabilityReply(a, paid, ignored);
            && |e| == (if paid then 14 else 13)
            && Says(e, "availability", AvailabilityValue(a)) && Says(e, "paymentIgnored", Strings(ignored))
            && Says(e, "kind", Str(if paid then "refusal" else "discovery")) && Says(e, "useful", Bool(!paid))
            && Says(e, "instruction", Str(if a.state == Paused then PAUSED_NOW + USE_FREE else UNCONFIRMED + USE_FREE))
            && (paid ==> Says(e, "reason", Str(if a.state == Paused then "paid_gateway_paused" else "paid_gateway_unconfirmed")))
            && Says(e, "paymentForwarded", Bool(false)) && Says(e, "paymentInferred", Bool(false)) && Says(e, "cash", Num("0"))
  {
    var paused := a.state.Paused?;
    var where, what, cost, why := WhereToGo(a), WhatItIs(paused, paid), WhatWasPaid(ignored), WhyNot(paused, paid);
    hide Says, AvailabilityValue, FreeToolsEntry, Guidance, Strings;
    SaysAt(where, 0);
    SaysAt(where, 1);
    SaysAt(what, 0);
    SaysAt(what, 1);
    GuidanceMeans(paused);
    SaysAt(cost, 0);
    SaysAt(cost, 1);
    SaysAt(cost, 2);
    SaysAt(why, 0);
    SaysAt(why, |why| - 1);
    FourParts(where, what, cost, why);
  }

  lemma FatalMeans(reason: string)
    ensures Fatal(reason) <==> reason == "stream_refused" || reason == "redirect_refused" || reason == "body_budget"
  {}

  /** The reply of a failed discovery: the status, the first 256 characters of the failure, and, for three fatal failures, a
      refusal with that reason. */
  lemma FailureSays(a: Availability, reason: string)
    ensures var e := FailedDiscovery(a, reason);
            var fatal := Fatal(reason);
            && |e| == (if fatal then 16 else 15)
            && Says(e, "availability", AvailabilityValue(a)) && Says(e, "error", Str("catalog_temporarily_unavailable"))
            && Says(e, "detail", Str(if |reason| <= 256 then reason else reason[..256]))
            && Says(e, "kind", Str(if fatal then "refusal" else "discovery")) && Says(e, "useful", Bool(!fatal))
            && (fatal ==> Says(e, "reason", Str(reason)))
            && Says(e, "paymentForwarded", Bool(false)) && Says(e, "paymentInferred", Bool(false)) && Says(e, "cash", Num("0"))
  {
    hide Says, AvailabilityValue, FailedDiscovery, Closing, FailureError, FailureHead, FailureDetail, Fatal;
    FailureSplit(a, reason);
    ClosingSays(reason);
    FailureHeadSays(a);
    ErrorSays();
    DetailSays(reason);
    FourParts(FailureHead(a), FailureDetail(reason), FailureError(), Closing(reason));
  }

  function FailureDetail(reason: string): seq<Entry> {
    [Entry("detail", Str(Prefix(reason, 256)))]
  }

  function FailureError(): seq<Entry> {
    Addresses() + [FreeToolsEntry()]
  }

  lemma DetailSays(reason: string)
    ensures |FailureDetail(reason)| == 1
    ensures Says(FailureDetail(reason), "detail", Str(if |reason| <= 256 then reason else reason[..256]))
  {
    assert Prefix(reason, 256) == if |reason| <= 256 then reason else reason[..256];
    SaysAt(FailureDetail(reason), 0);
  }

  lemma ErrorSays()
    ensures |FailureError()| == 4 && Says(FailureError(), "error", Str("catalog_temporarily_unavailable"))
  {
    hide FreeToolsEntry;
    SaysAt(FailureError(), 1);
  }

  lemma FailureHeadSays(a: Availability)
    ensures |FailureHead(a)| == 3 && Says(FailureHead(a), "availability", AvailabilityValue(a)) && Says(FailureHead(a), "cash", Num("0"))
  {
    hide AvailabilityValue;
    SaysAt(FailureHead(a), 0);
    SaysAt(FailureHead(a), 2);
  }

  function FailureHead(a: Availability): seq<Entry> {
    [Entry("availability", AvailabilityValue(a)), Entry("canonicalCatalog", Str("https://agents.samedaydesk.com/api/actions")),
     Entry("cash", Num("0"))]
  }

  lemma FailureSplit(a: Availability, reason: string)
    ensures FailedDiscovery(a, reason) ==
            FailureHead(a) + FailureDetail(reason) + FailureError() + Closing(reason)
  {
    hide AvailabilityValue, Addresses, FreeToolsEntry, Closing, Prefix;
  }

  lemma ClosingSays(reason: string)
    ensures var e := Closing(reason);
            var fatal := Fatal(reason);
            && |e| == (if fatal then 8 else 7)
            && Says(e, "kind", Str(if fatal then "refusal" else "discovery")) && Says(e, "useful", Bool(!fatal))
            && (fatal ==> Says(e, "reason", Str(reason)))
            && Says(e, "paymentForwarded", Bool(false)) && Says(e, "paymentInferred", Bool(false))
  {
    var e := Closing(reason);
    hide Says, Fatal;
    SaysAt(e, 1);
    SaysAt(e, 4);
    SaysAt(e, 5);
    SaysAt(e, 6);
    SaysAt(e, |e| - 1);
  }

  /** The reply of a free tool: what was asked, what the server returned, and whether the text was cut. */
  lemma FreeToolSays(tool: string, arguments: seq<Entry>, ignored: seq<string>, structured: Option<Value>, text: string, cut: bool)
    ensures var e := FreeToolEntries(tool, arguments, ignored, structured, text, cut);
            && |e| == (if cut then 12 else 11)
            && Says(e, "kind", Str("free-tool")) && Says(e, "tool", Str(tool)) && Says(e, "arguments", Dict(arguments))
            && Says(e, "structuredContent", if structured.Some? then structured.value else Null)
            && Says(e, "text", Str(if cut then "" else text)) && (cut ==> Says(e, "truncated", Bool(true)))
            && Says(e, "paymentIgnored", Strings(ignored)) && Says(e, "useful", Bool(true)) && Says(e, "owner", Str(READINESS_URL))
            && Says(e, "paymentForwarded", Bool(false)) && Says(e, "paymentInferred", Bool(false)) && Says(e, "cash", Num("0"))
  {
    var e := FreeToolEntries(tool, arguments, ignored, structured, text, cut);
    hide Says, Strings;
    SaysAt(e, 0);
    SaysAt(e, 1);
    SaysAt(e, 2);
    SaysAt(e, 3);
    SaysAt(e, 4);
    SaysAt(e, 5);
    SaysAt(e, 6);
    SaysAt(e, 7);
    SaysAt(e, 8);
    SaysAt(e, 9);
    SaysAt(e, 10);
    SaysAt(e, |e| - 1);
  }

  /** A paid challenge: the status, the merchant's 402 body, the selected action, and that nothing was paid. */
  lemma PaidSays(a: Availability, body: seq<Entry>, contentType: string, ignored: seq<string>, action: seq<Entry>)
    ensures var e := PaidEntries(a, body, contentType, ignored, action);
            && |e| == 10
            && Says(e, "kind", Str("paid-challenge")) && Says(e, "availability", AvailabilityValue(a))
            && Says(e, "challenge", Dict([Entry("body", Dict(body)), Entry("contentType", Str(contentType)), Entry("httpStatus", Num("402"))]))
            && Says(e, "selectedAction", Dict(action)) && Says(e, "paymentIgnored", Strings(ignored)) && Says(e, "paid", Bool(false))
            && Says(e, "paymentForwarded", Bool(false)) && Says(e, "paymentInferred", Bool(false)) && Says(e, "cash", Num("0"))
  {
    var e := PaidEntries(a, body, contentType, ignored, action);
    hide Says, AvailabilityValue, Strings, Boundary;
    SaysAt(e, 0);
    SaysAt(e, 1);
    SaysAt(e, 2);
    SaysAt(e, 4);
    SaysAt(e, 5);
    SaysAt(e, 6);
    SaysAt(e, 7);
    SaysAt(e, 8);
    SaysAt(e, 9);
  }

  /** The merchant's body: what it accepts, its error, resource and version, and a copy if it is small enough. */
  lemma BodySays(v: Value, unparsed: string, cut: bool)
    requires v.Dict?
    ensures var e := ChallengeBody(v, unparsed, cut);
            var copied := !cut && ByteLength(Encode(v)) <= 12_000;
            && |e| == (if copied then 6 else 5)
            && (copied ==> Says(e, "body", v)) && Says(e, "truncated", Bool(!copied))
            && Says(e, "error", OrNull(Get(v.entries, "error"))) && Says(e, "x402Version", OrNull(Get(v.entries, "x402Version")))
            && Says(e, "resource", ResourceValue(Get(v.entries, "resource")))
            && (Get(v.entries, "accepts").Some? && Get(v.entries, "accepts").value.Arr? ==>
                  Says(e, "accepts", Arr(Accepts(Get(v.entries, "accepts").value.items))))
  {
    var e := ChallengeBody(v, unparsed, cut);
    hide Says, Encode, ByteLength, Accepts, ResourceValue, Get;
    SaysAt(e, 0);
    SaysAt(e, 1);
    SaysAt(e, |e| - 4);
    SaysAt(e, |e| - 3);
    SaysAt(e, |e| - 2);
    SaysAt(e, |e| - 1);
  }

  /** A discovery: the status and the selected action. */
  lemma DiscoverySays(a: Availability, action: seq<Entry>)
    ensures var e := DiscoveryEntries(a, action);
            && |e| == 6 && Says(e, "availability", AvailabilityValue(a)) && Says(e, "selectedAction", Dict(action))
  {
    var e := DiscoveryEntries(a, action);
    hide Says, AvailabilityValue, Instruction;
    SaysAt(e, 1);
    SaysAt(e, 5);
  }
}
