/** What no reply of catalog_proxy.py claims: that money was spent, or that a payment was inferred or forwarded. And
    when a reply is a paid challenge. */
module ProxyHonesty {
  import opened Common
  import opened Encoder
  import opened CatalogProxy
  import opened ProxyReply
  import opened ProxyOutcome

  predicate PaymentFlag(key: string) {
    key == "paid" || key == "paymentForwarded" || key == "paymentInferred"
  }

  /** An entry claims no payment; without a challenge it does not pose as one. */
  predicate HonestEntry(e: Entry, challenge: bool) {
    && (e.key == "cash" ==> e.value == Num("0"))
    && (PaymentFlag(e.key) ==> e.value == Bool(false))
    && (e.key == "kind" && !challenge ==> e.value != Str("paid-challenge"))
  }

  predicate Honest(entries: seq<Entry>, challenge: bool) {
    forall i | 0 <= i < |entries| :: HonestEntry(entries[i], challenge)
  }

  // ---- keys -------------------------------------------------------------------------------

  /** A key that says nothing about money or kind. */
  ghost predicate Free(key: string) {
    forall v, challenge :: HonestEntry(Entry(key, v), challenge)
  }

  /** The special keys begin with c, p or k; length tells them from the other keys that do. */
  lemma FreeKey(key: string)
    requires key != "" && ((key[0] != 'c' && key[0] != 'p' && key[0] != 'k') || |key| == 9 || |key| == 14 || (|key| == 16 && key[0] == 'c'))
    ensures Free(key)
  {
    SpecialKeys();
  }

  lemma SpecialKeys()
    ensures |"cash"| == |"paid"| == |"kind"| == 4 && |"paymentInferred"| == 15 && |"paymentForwarded"| == 16
    ensures "cash"[0] == 'c' && "kind"[0] == 'k' && "paid"[0] == "paymentInferred"[0] == "paymentForwarded"[0] == 'p'
  {}

  lemma FreeKeys()
    ensures Free("arguments") && Free("owner") && Free("text") && Free("tool") && Free("structuredContent")
    ensures Free("truncated") && Free("useful") && Free("detail") && Free("reason") && Free("paymentIgnored")
    ensures Free("availability") && Free("documentation") && Free("freeApexMcp") && Free("freeTools") && Free("instruction")
    ensures Free("nextAction") && Free("offlinePackages") && Free("error") && Free("authority") && Free("openApi")
    ensures Free("selectedAction") && Free("declaredSource") && Free("challenge") && Free("canonicalCatalog")
  {
    hide Free;
    FreeKey("arguments"); FreeKey("owner"); FreeKey("text"); FreeKey("tool"); FreeKey("structuredContent");
    FreeKey("truncated"); FreeKey("useful"); FreeKey("detail"); FreeKey("reason"); FreeKey("paymentIgnored");
    FreeKey("availability"); FreeKey("documentation"); FreeKey("freeApexMcp"); FreeKey("freeTools"); FreeKey("instruction");
    FreeKey("nextAction"); FreeKey("offlinePackages"); FreeKey("error"); FreeKey("authority"); FreeKey("openApi");
    FreeKey("selectedAction"); FreeKey("declaredSource"); FreeKey("challenge"); FreeKey("canonicalCatalog");
  }

  lemma Flags(challenge: bool)
    ensures HonestEntry(Entry("cash", Num("0")), challenge) && HonestEntry(Entry("paymentInferred", Bool(false)), challenge)
    ensures HonestEntry(Entry("paymentForwarded", Bool(false)), challenge) && HonestEntry(Entry("paid", Bool(false)), challenge)
    ensures HonestEntry(Entry("kind", Str("refusal")), challenge) && HonestEntry(Entry("kind", Str("discovery")), challenge)
    ensures HonestEntry(Entry("kind", Str("free-tool")), challenge) && HonestEntry(Entry("kind", Str("paid-challenge")), true)
  {
    SpecialKeys();
    assert |"paid-challenge"| == 14 && |"refusal"| == 7 && |"discovery"| == |"free-tool"| == 9;
  }

  // ---- every kind of reply ----------------------------------------------------------------

  lemma RefusalIsHonest(reason: string, detail: string, tool: string)
    ensures Honest(RefusalEntries(reason, detail, tool), false)
  {
    hide HonestEntry, Prefix;
    FreeKeys();
    Flags(false);
  }

  lemma HonestConcat(a: seq<Entry>, b: seq<Entry>)
    requires Honest(a, false) && Honest(b, false)
    ensures Honest(a + b, false)
  {
    hide HonestEntry;
  }

  lemma PartsAreHonest(a: Availability, paused: bool, paid: bool, ignored: seq<string>)
    ensures Honest(WhereToGo(a), false) && Honest(WhatWasPaid(ignored), false) && Honest(WhyNot(paused, paid), false)
  {
    hide HonestEntry, AvailabilityValue, Strings, FreeToolValue;
    FreeKeys();
    Flags(false);
  }

  lemma GuidanceIsHonest(paused: bool, paid: bool)
    ensures Honest(WhatItIs(paused, paid), false)
  {
    hide HonestEntry, Guidance;
    FreeKeys();
    Flags(false);
  }

  lemma AvailabilityIsHonest(a: Availability, paid: bool, ignored: seq<string>)
    ensures Honest(AvailabilityReply(a, paid, ignored), false)
  {
    hide Honest, WhereToGo, WhatItIs, WhatWasPaid, WhyNot;
    var paused := a.state.Paused?;
    PartsAreHonest(a, paused, paid, ignored);
    GuidanceIsHonest(paused, paid);
    HonestConcat(WhereToGo(a), WhatItIs(paused, paid));
    HonestConcat(WhereToGo(a) + WhatItIs(paused, paid), WhatWasPaid(ignored));
    HonestConcat(WhereToGo(a) + WhatItIs(paused, paid) + WhatWasPaid(ignored), WhyNot(paused, paid));
  }

  lemma ClosingIsHonest(reason: string)
    ensures Honest(Closing(reason), false)
  {
    hide HonestEntry, Fatal;
    FreeKeys();
    Flags(false);
  }

  lemma OpeningIsHonest(a: Availability, detail: Value)
    ensures Honest([Entry("availability", AvailabilityValue(a))], false) && Honest([Entry("detail", detail)], false) && Honest([FreeToolsEntry()], false)
    ensures Honest(Addresses(), false)
  {
    hide HonestEntry, AvailabilityValue, FreeToolValue;
    FreeKeys();
    Flags(false);
  }

  lemma CatalogIsHonest(url: Value)
    ensures Honest([Entry("canonicalCatalog", url), Entry("cash", Num("0"))], false)
  {
    hide HonestEntry;
    FreeKeys();
    Flags(false);
    assert HonestEntry(Entry("canonicalCatalog", url), false);
  }

  lemma FailureIsHonest(a: Availability, reason: string)
    ensures Honest(FailedDiscovery(a, reason), false)
  {
    hide Honest, AvailabilityValue, Addresses, FreeToolsEntry, Closing, Prefix;
    var detail := Str(Prefix(reason, 256));
    OpeningIsHonest(a, detail);
    CatalogIsHonest(Str("https://agents.samedaydesk.com/api/actions"));
    ClosingIsHonest(reason);
    var p0 := [Entry("availability", AvailabilityValue(a))];
    var p1 := p0 + [Entry("canonicalCatalog", Str("https://agents.samedaydesk.com/api/actions")), Entry("cash", Num("0"))];
    var p2 := p1 + [Entry("detail", detail)];
    HonestConcat(p0, [Entry("canonicalCatalog", Str("https://agents.samedaydesk.com/api/actions")), Entry("cash", Num("0"))]);
    HonestConcat(p1, [Entry("detail", detail)]);
    HonestConcat(p2, Addresses());
    HonestConcat(p2 + Addresses(), [FreeToolsEntry()]);
    HonestConcat(p2 + Addresses() + [FreeToolsEntry()], Closing(reason));
  }

  lemma FreeToolIsHonest(tool: string, arguments: seq<Entry>, ignored: seq<string>, structured: Option<Value>, text: string, cut: bool)
    ensures Honest(FreeToolEntries(tool, arguments, ignored, structured, text, cut), false)
  {
    hide HonestEntry, Strings, OrNull;
    FreeKeys();
    Flags(false);
  }

  lemma PaidIsHonest(a: Availability, body: seq<Entry>, contentType: string, ignored: seq<string>, action: seq<Entry>)
    ensures Honest(PaidEntries(a, body, contentType, ignored, action), true)
  {
    hide HonestEntry, AvailabilityValue, Strings, Boundary;
    FreeKeys();
    Flags(true);
  }

  lemma DiscoveryIsHonest(a: Availability, action: seq<Entry>)
    ensures Honest(DiscoveryEntries(a, action), false)
  {
    hide HonestEntry, AvailabilityValue, Instruction;
    FreeKeys();
    assert Honest(DiscoveryHead(a), false) && Honest([Entry("selectedAction", Dict(action))], false);
    hide Honest, DiscoveryHead;
    HonestConcat(DiscoveryHead(a), [Entry("selectedAction", Dict(action))]);
  }

  // ---- every reply ------------------------------------------------------------------------

  lemma RefusalsAreHonest()
    ensures forall reason, detail, tool | ReasonCode(reason) :: Honest(Refusal(reason, detail, tool), false)
  {
    forall reason, detail, tool | ReasonCode(reason)
      ensures Honest(Refusal(reason, detail, tool), false)
    {
      RefusalIsHonest(reason, detail, tool);
      RefusalIsHonest(reason, "", "");
    }
  }

  predicate HonestIfAny(r: Result<seq<Entry>>, challenge: bool) {
    r.Ok? ==> Honest(r.value, challenge)
  }

  lemma FreeToolReply(tool: string, arguments: seq<Entry>, ignored: seq<string>, answer: Result<Response>, o: Oracles)
    ensures HonestIfAny(FreeToolOutcome(tool, arguments, ignored, answer, o), false)
  {
    hide Honest, Refusal, FreeToolEntries, Dumps, Received, Structured, FirstText, ReadinessText, RefusedText;
    RefusalsAreHonest();
    forall structured, text, cut {
      FreeToolIsHonest(tool, arguments, ignored, structured, text, cut);
    }
  }

  lemma DiscoveryReply(a: Availability, answer: Result<Response>)
    ensures HonestIfAny(DiscoveryOutcome(a, answer), false)
  {
    hide Honest, DiscoveryEntries, Dumps, Received, ActionOf;
    forall action {
      DiscoveryIsHonest(a, action);
    }
  }

  lemma ClosedReply(a: Availability, paid: bool, ignored: seq<string>)
    ensures HonestIfAny(ClosedOutcome(a, paid, ignored), false)
  {
    hide Honest, AvailabilityReply, Dumps;
    AvailabilityIsHonest(a, paid, ignored);
  }

  lemma NextReply(action: Result<Action>, o: Oracles)
    ensures ChallengeNext(action, o).Answer? ==> HonestIfAny(ChallengeNext(action, o).outcome, false)
  {
    hide Honest, Refusal, ChallengeNext;
    NextIsRefusal(action, o);
    var next := ChallengeNext(action, o);
    if next.Answer? && next.outcome.Ok? {
      var detail :| next.outcome.value == Refusal("invalid_request", detail, "");
      RefusalsAreHonest();
      assert Honest(Refusal("invalid_request", detail, ""), false);
    }
  }

  /** Only an answer 402 becomes a paid challenge. */
  lemma ChallengeReply(a: Availability, ignored: seq<string>, action: seq<Entry>, answer: Result<Response>)
    ensures HonestIfAny(ChallengeOutcome(a, ignored, action, answer), answer.Ok? && answer.value.status == 402)
  {
    hide Honest, Refusal, PaidEntries, ChallengeBody, Dumps, BodyFault, MerchantText;
    RefusalsAreHonest();
    forall body, contentType {
      PaidIsHonest(a, body, contentType, ignored, action);
    }
  }

  lemma MoreIsHonest(entries: seq<Entry>)
    ensures Honest(entries, false) ==> Honest(entries, true)
  {}

  /** The merchant answered this run's own unpaid request with 402. */
  predicate WasChallenged(s: Selection, t: seq<Event>) {
    && s.PaidChallenge? && t != [] && t[|t| - 1].ChallengeGet?
    && t[|t| - 1].answer.Ok? && t[|t| - 1].answer.value.status == 402
  }

  lemma OutcomeIsHonest(s: Selection, a: Availability, t: seq<Event>, o: Oracles)
    requires s.Invalid? ==> ReasonCode(s.reason)
    ensures HonestIfAny(Outcome(s, a, t, o), WasChallenged(s, t))
  {
    hide Honest, Refusal, FreeToolOutcome, DiscoveryOutcome, ClosedOutcome, ChallengeOutcome, ChallengeNext, CatalogOutcome;
    RefusalsAreHonest();
    if !s.Invalid? && t != [] {
      var last := t[|t| - 1];
      match s
      case FreeTool(tool, arguments, ignored) => FreeToolReply(tool, arguments, ignored, last.answer, o);
      case Discovery(_, ignored) =>
        DiscoveryReply(a, last.answer);
        ClosedReply(a, false, ignored);
      case PaidChallenge(ignored) =>
        ClosedReply(a, true, ignored);
        NextReply(CatalogOutcome(last.answer), o);
        if 2 <= |t| && CatalogOutcome(t[|t| - 2].answer).Ok? {
          ChallengeReply(a, ignored, CatalogOutcome(t[|t| - 2].answer).value.entries, last.answer);
        }
        if Outcome(s, a, t, o).Ok? { MoreIsHonest(Outcome(s, a, t, o).value); }
    }
  }

  /** No reply claims a payment, and none is a paid challenge unless this run's own unpaid request was answered 402. */
  lemma ReplyIsHonest(s: Selection, a: Availability, t: seq<Event>, o: Oracles)
    requires s.Invalid? ==> ReasonCode(s.reason)
    ensures Honest(Payload(s, a, Outcome(s, a, t, o)), WasChallenged(s, t))
  {
    hide Honest, Refusal, Outcome, FailedDiscovery;
    var r := Outcome(s, a, t, o);
    OutcomeIsHonest(s, a, t, o);
    RefusalsAreHonest();
    if r.Err? {
      FailureIsHonest(a, r.reason);
      MoreIsHonest(Payload(s, a, r));
    }
  }
}
