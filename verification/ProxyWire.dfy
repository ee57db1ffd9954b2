/** What goes out on the wire: every reply text of catalog_proxy.py reads back as its payload, as long as the upstream
    answers contain no number that is not JSON (the decoder and the encoder let NaN and the infinities through). */
module ProxyWire {
  import opened Common
  import opened Encoder
  import opened JsonReader
  import opened CatalogProxy
  import opened ProxyReply
  import opened ProxyOutcome

  predicate AllJson(entries: seq<Entry>) {
    forall i | 0 <= i < |entries| :: JsonNumbers(entries[i].value)
  }

  predicate JsonIfAny(v: Option<Value>) {
    v.Some? ==> JsonNumbers(v.value)
  }

  predicate JsonAnswer(answer: Result<Response>) {
    answer.Ok? && answer.value.decoding.Parsed? ==> JsonNumbers(answer.value.decoding.value)
  }

  predicate JsonAnswers(t: seq<Event>) {
    forall i | 0 <= i < |t| :: JsonAnswer(t[i].answer)
  }

  predicate JsonReply(r: Result<seq<Entry>>) {
    r.Ok? ==> AllJson(r.value)
  }

  // ---- what is taken from an answer -------------------------------------------------------

  lemma {:induction false} GetIsJson(entries: seq<Entry>, key: string)
    requires AllJson(entries)
    ensures JsonIfAny(Get(entries, key))
  {
    hide JsonNumbers;
    if entries != [] { GetIsJson(entries[1..], key); }
  }

  lemma FieldIsJson(v: Value, key: string)
    requires JsonNumbers(v)
    ensures JsonIfAny(Field(v, key))
  {
    if v.Dict? { GetIsJson(v.entries, key); }
  }

  lemma {:induction false} ProjectIsJson(entries: seq<Entry>, keys: seq<string>)
    requires AllJson(entries)
    ensures AllJson(Project(entries, keys))
  {
    hide JsonNumbers;
    if keys != [] {
      GetIsJson(entries, keys[0]);
      ProjectIsJson(entries, keys[1..]);
    }
  }

  lemma {:induction false} AcceptsAreJson(items: seq<Value>)
    requires forall i | 0 <= i < |items| :: JsonNumbers(items[i])
    ensures forall i | 0 <= i < |Accepts(items)| :: JsonNumbers(Accepts(items)[i])
  {
    if items != [] {
      if items[0].Dict? { ProjectIsJson(items[0].entries, ACCEPT_KEYS); }
      AcceptsAreJson(items[1..]);
    }
  }

  lemma ScalarsAreJson()
    ensures JsonNumbers(Num("0")) && JsonNumbers(Num("402")) && JsonNumbers(Null)
    ensures forall b :: JsonNumbers(Bool(b))
    ensures forall s :: JsonNumbers(Str(s))
  {
    assert DigitsFrom("0", 0) == 1 && DigitsFrom("402", 0) == 3;
  }

  lemma StringsAreJson(texts: seq<string>)
    ensures JsonNumbers(Strings(texts))
  {}

  // ---- every kind of reply ----------------------------------------------------------------

  lemma RefusalIsJson(reason: string, detail: string, tool: string)
    ensures AllJson(RefusalEntries(reason, detail, tool))
  {
    hide Prefix, JsonNumbers;
    ScalarsAreJson();
  }

  lemma RefusalsAreJson()
    ensures forall reason, detail, tool | ReasonCode(reason) :: AllJson(Refusal(reason, detail, tool))
  {
    forall reason, detail, tool | ReasonCode(reason)
      ensures AllJson(Refusal(reason, detail, tool))
    {
      RefusalIsJson(reason, detail, tool);
      RefusalIsJson(reason, "", "");
    }
  }

  lemma StatusIsJson(a: Availability)
    ensures JsonNumbers(AvailabilityValue(a)) && JsonNumbers(FreeToolsEntry().value) && JsonNumbers(DeclaredSource().value)
  {
    hide Boundary, StateText;
  }

  lemma ConcatIsJson(a: seq<Entry>, b: seq<Entry>)
    requires AllJson(a) && AllJson(b)
    ensures AllJson(a + b)
  {
    hide JsonNumbers;
  }

  lemma WhereIsJson(a: Availability)
    ensures AllJson(WhereToGo(a))
  {
    hide AvailabilityValue, FreeToolsEntry, JsonNumber;
    StatusIsJson(a);
    ScalarsAreJson();
  }

  lemma PartsAreJson(paused: bool, paid: bool, ignored: seq<string>)
    ensures AllJson(WhatItIs(paused, paid)) && AllJson(WhatWasPaid(ignored)) && AllJson(WhyNot(paused, paid))
  {
    hide Guidance, Strings, JsonNumber;
    StringsAreJson(ignored);
  }

  lemma ClosedIsJson(a: Availability, paid: bool, ignored: seq<string>)
    ensures AllJson(AvailabilityReply(a, paid, ignored))
  {
    var paused := a.state.Paused?;
    WhereIsJson(a);
    PartsAreJson(paused, paid, ignored);
    hide AllJson, WhereToGo, WhatItIs, WhatWasPaid, WhyNot;
    ConcatIsJson(WhereToGo(a), WhatItIs(paused, paid));
    ConcatIsJson(WhereToGo(a) + WhatItIs(paused, paid), WhatWasPaid(ignored));
    ConcatIsJson(WhereToGo(a) + WhatItIs(paused, paid) + WhatWasPaid(ignored), WhyNot(paused, paid));
  }

  lemma FailurePartsAreJson(a: Availability, url: string, detail: string)
    ensures AllJson([Entry("availability", AvailabilityValue(a))]) && AllJson([FreeToolsEntry()]) && AllJson([Entry("detail", Str(detail))])
    ensures AllJson([Entry("canonicalCatalog", Str(url)), Entry("cash", Num("0"))])
  {
    hide AvailabilityValue, FreeToolsEntry, JsonNumber;
    StatusIsJson(a);
    ScalarsAreJson();
  }

  lemma AddressesAreJson(reason: string)
    ensures AllJson(Addresses()) && AllJson(Closing(reason))
  {
    hide Fatal;
  }

  lemma FailureIsJson(a: Availability, reason: string)
    ensures AllJson(FailedDiscovery(a, reason))
  {
    hide AvailabilityValue, FreeToolsEntry, Addresses, Closing, Prefix, AllJson;
    var url, detail := "https://agents.samedaydesk.com/api/actions", Prefix(reason, 256);
    FailurePartsAreJson(a, url, detail);
    AddressesAreJson(reason);
    var p0 := [Entry("availability", AvailabilityValue(a))];
    var p1 := p0 + [Entry("canonicalCatalog", Str(url)), Entry("cash", Num("0"))];
    var p2 := p1 + [Entry("detail", Str(detail))];
    ConcatIsJson(p0, [Entry("canonicalCatalog", Str(url)), Entry("cash", Num("0"))]);
    ConcatIsJson(p1, [Entry("detail", Str(detail))]);
    ConcatIsJson(p2, Addresses());
    ConcatIsJson(p2 + Addresses(), [FreeToolsEntry()]);
    ConcatIsJson(p2 + Addresses() + [FreeToolsEntry()], Closing(reason));
  }

  lemma FreeToolIsJson(tool: string, arguments: seq<Entry>, ignored: seq<string>, structured: Option<Value>, text: string, cut: bool)
    requires AllJson(arguments) && JsonIfAny(structured)
    ensures AllJson(FreeToolEntries(tool, arguments, ignored, structured, text, cut))
  {
    hide Strings, JsonNumbers;
    ScalarsAreJson();
    StringsAreJson(ignored);
    EntriesAreJson(arguments);
  }

  lemma FreeToolReply(tool: string, arguments: seq<Entry>, ignored: seq<string>, answer: Result<Response>, o: Oracles)
    requires AllJson(arguments) && JsonAnswer(answer)
    ensures JsonReply(FreeToolOutcome(tool, arguments, ignored, answer, o))
  {
    hide AllJson, JsonNumbers, Refusal, FreeToolEntries, Dumps, BodyFault, FirstText, ReadinessText, RefusedText;
    RefusalsAreJson();
    if answer.Ok? && answer.value.decoding.Parsed? {
      var v := answer.value.decoding.value;
      FieldIsJson(v, "result");
      if Field(v, "result").Some? {
        var result := Field(v, "result").value;
        FieldIsJson(result, "structuredContent");
        forall text, cut {
          FreeToolIsJson(tool, arguments, ignored, Structured(result), text, cut);
        }
      }
    }
  }

  lemma DictIsJson(v: Value)
    requires JsonNumbers(v)
    ensures v.Dict? ==> AllJson(v.entries)
    ensures v.Arr? ==> forall i | 0 <= i < |v.items| :: JsonNumbers(v.items[i])
  {}

  lemma EntriesAreJson(entries: seq<Entry>)
    requires AllJson(entries)
    ensures JsonNumbers(Dict(entries))
  {}

  lemma {:induction false} SelectionIsJson(actions: seq<Value>)
    requires forall i | 0 <= i < |actions| :: JsonNumbers(actions[i])
    ensures SelectAction(actions).Ok? ==> AllJson(SelectAction(actions).value.entries)
  {
    hide JsonNumbers, Encode, ByteLength, ExampleUrl, DeclaredSource;
    if actions != [] {
      SelectionIsJson(actions[1..]);
      if actions[0].Dict? && ExampleUrl(actions[0]).Ok? {
        DictIsJson(actions[0]);
        ActionEntriesAreJson(actions[0].entries, ExampleUrl(actions[0]).value);
      }
    }
  }

  lemma ActionEntriesAreJson(entries: seq<Entry>, url: string)
    requires AllJson(entries)
    ensures AllJson(ActionEntries(entries, url))
  {
    hide DeclaredSource;
    ProjectIsJson(entries, ACTION_KEYS);
    StatusIsJson(UNKNOWN);
    assert AllJson([Entry("exampleUrl", Str(url)), DeclaredSource()]);
    ConcatIsJson(Project(entries, ACTION_KEYS), [Entry("exampleUrl", Str(url)), DeclaredSource()]);
  }

  lemma CatalogIsJson(payload: Value)
    requires JsonNumbers(payload)
    ensures ExtractCatalog(payload).Ok? ==> AllJson(ExtractCatalog(payload).value)
  {
    hide JsonNumbers, Encode, ByteLength, AllJson;
    FieldIsJson(payload, "message");
    var message := Field(payload, "message");
    if message.Some? {
      FieldIsJson(message.value, "parts");
      var parts := Field(message.value, "parts");
      if parts.Some? && parts.value.Arr? && |parts.value.items| == 1 {
        DictIsJson(parts.value);
        FieldIsJson(parts.value.items[0], "data");
        if Field(parts.value.items[0], "data").Some? { DictIsJson(Field(parts.value.items[0], "data").value); }
      }
    }
  }

  lemma ActionIsJson(payload: Value)
    requires JsonNumbers(payload)
    ensures ActionOf(payload).Ok? ==> AllJson(ActionOf(payload).value.entries)
  {
    hide JsonNumbers, ExtractCatalog, SelectAction, AllJson;
    CatalogIsJson(payload);
    if ExtractCatalog(payload).Ok? {
      var catalog := ExtractCatalog(payload).value;
      GetIsJson(catalog, "actions");
      var actions := Get(catalog, "actions");
      if actions.Some? && actions.value.Arr? {
        DictIsJson(actions.value);
        SelectionIsJson(actions.value.items);
      }
    }
  }

  lemma DiscoveryReply(a: Availability, answer: Result<Response>)
    requires JsonAnswer(answer)
    ensures JsonReply(DiscoveryOutcome(a, answer))
  {
    hide AllJson, JsonNumbers, DiscoveryEntries, Dumps, BodyFault, ActionOf;
    if answer.Ok? && answer.value.decoding.Parsed? {
      ActionIsJson(answer.value.decoding.value);
      var action := ActionOf(answer.value.decoding.value);
      if action.Ok? { DiscoveryIsJson(a, action.value.entries); }
    }
  }

  lemma DiscoveryHeadIsJson(a: Availability)
    ensures AllJson(DiscoveryHead(a))
  {
    hide AvailabilityValue, Instruction, JsonNumber;
    StatusIsJson(a);
  }

  lemma DiscoveryIsJson(a: Availability, action: seq<Entry>)
    requires AllJson(action)
    ensures AllJson(DiscoveryEntries(a, action))
  {
    hide DiscoveryHead, JsonNumbers;
    DiscoveryHeadIsJson(a);
    EntriesAreJson(action);
    OneIsJson("selectedAction", Dict(action));
    hide AllJson;
    ConcatIsJson(DiscoveryHead(a), [Entry("selectedAction", Dict(action))]);
  }

  lemma AcceptListIsJson(accepts: Option<Value>)
    requires JsonIfAny(accepts)
    ensures JsonNumbers(Arr(if accepts.Some? && accepts.value.Arr? then Accepts(accepts.value.items) else []))
  {
    if accepts.Some? && accepts.value.Arr? { AcceptsAreJson(accepts.value.items); }
  }

  lemma TailIsJson(error: Option<Value>, resource: Option<Value>, copied: bool, version: Option<Value>)
    requires JsonIfAny(error) && JsonIfAny(resource) && JsonIfAny(version)
    ensures AllJson(BodyTail(error, resource, copied, version))
  {
    hide JsonNumbers;
    ScalarsAreJson();
    if resource.Some? {
      FieldIsJson(resource.value, "mimeType");
      FieldIsJson(resource.value, "url");
    }
    EntriesAreJson(ResourceValue(resource).entries);
  }

  lemma OneIsJson(key: string, v: Value)
    requires JsonNumbers(v)
    ensures AllJson([Entry(key, v)])
  {}

  lemma BodyIsJson(v: Value, unparsed: string, cut: bool)
    requires JsonNumbers(v)
    ensures AllJson(ChallengeBody(v, unparsed, cut))
  {
    hide JsonNumber, Encode, ByteLength, Prefix, Accepts, BodyTail;
    if v.Dict? {
      GetIsJson(v.entries, "accepts");
      GetIsJson(v.entries, "resource");
      GetIsJson(v.entries, "error");
      GetIsJson(v.entries, "x402Version");
      var accepts := Get(v.entries, "accepts");
      var list := Arr(if accepts.Some? && accepts.value.Arr? then Accepts(accepts.value.items) else []);
      var copied := !cut && ByteLength(Encode(v)) <= 12_000;
      var tail := BodyTail(Get(v.entries, "error"), Get(v.entries, "resource"), copied, Get(v.entries, "x402Version"));
      AcceptListIsJson(accepts);
      TailIsJson(Get(v.entries, "error"), Get(v.entries, "resource"), copied, Get(v.entries, "x402Version"));
      OneIsJson("accepts", list);
      OneIsJson("body", v);
      hide AllJson, JsonNumbers;
      NothingIsJson();
      ConcatIsJson([Entry("accepts", list)], if copied then [Entry("body", v)] else []);
      ConcatIsJson([Entry("accepts", list)] + (if copied then [Entry("body", v)] else []), tail);
    }
  }

  lemma NothingIsJson()
    ensures AllJson([])
  {}

  lemma PaidIsJson(a: Availability, body: seq<Entry>, contentType: string, ignored: seq<string>, action: seq<Entry>)
    requires AllJson(body) && AllJson(action)
    ensures AllJson(PaidEntries(a, body, contentType, ignored, action))
  {
    hide AvailabilityValue, DeclaredSource, Strings, JsonNumbers;
    StatusIsJson(a);
    ScalarsAreJson();
    StringsAreJson(ignored);
    EntriesAreJson(body);
    EntriesAreJson(action);
    EntriesAreJson([Entry("body", Dict(body)), Entry("contentType", Str(contentType)), Entry("httpStatus", Num("402"))]);
  }

  lemma ChallengeReply(a: Availability, ignored: seq<string>, action: seq<Entry>, answer: Result<Response>)
    requires AllJson(action) && JsonAnswer(answer)
    ensures JsonReply(ChallengeOutcome(a, ignored, action, answer))
  {
    hide AllJson, JsonNumbers, Refusal, PaidEntries, ChallengeBody, Dumps, BodyFault, MerchantText;
    RefusalsAreJson();
    if answer.Ok? {
      var r := answer.value;
      var v := if r.decoding.Parsed? then r.decoding.value else Null;
      NullIsJson();
      forall cut
        ensures AllJson(PaidEntries(a, ChallengeBody(v, r.text, cut), r.contentType, ignored, action))
      {
        BodyIsJson(v, r.text, cut);
        PaidIsJson(a, ChallengeBody(v, r.text, cut), r.contentType, ignored, action);
      }
    }
  }

  lemma NullIsJson()
    ensures JsonNumbers(Null)
  {}

  lemma NextReply(action: Result<Action>, o: Oracles)
    ensures JsonReply(AnswerOf(ChallengeNext(action, o)))
  {
    hide AllJson, Refusal, ChallengeNext;
    NextIsRefusal(action, o);
    var next := ChallengeNext(action, o);
    if next.Answer? && next.outcome.Ok? {
      var detail :| next.outcome.value == Refusal("invalid_request", detail, "");
      RefusalsAreJson();
      assert AllJson(Refusal("invalid_request", detail, ""));
    }
  }

  lemma PaidReply(ignored: seq<string>, a: Availability, t: seq<Event>, o: Oracles)
    requires t != [] && JsonAnswers(t)
    ensures JsonReply(PaidOutcome(ignored, a, t, o))
  {
    hide AllJson, JsonAnswer, ChallengeOutcome, ChallengeNext, CatalogOutcome, AvailabilityReply, Dumps;
    var last := t[|t| - 1];
    ClosedIsJson(a, true, ignored);
    if last.CatalogPost? { NextReply(CatalogOutcome(last.answer), o); }
    if 2 <= |t| {
      SelectedIsJson(t[|t| - 2].answer);
      var action := CatalogOutcome(t[|t| - 2].answer);
      if action.Ok? { ChallengeReply(a, ignored, action.value.entries, last.answer); }
    }
  }

  lemma SelectedIsJson(answer: Result<Response>)
    requires JsonAnswer(answer)
    ensures CatalogOutcome(answer).Ok? ==> AllJson(CatalogOutcome(answer).value.entries)
  {
    hide AllJson, JsonNumbers, BodyFault, ActionOf;
    if answer.Ok? && answer.value.decoding.Parsed? { ActionIsJson(answer.value.decoding.value); }
  }

  // ---- every reply ------------------------------------------------------------------------

  lemma OutcomeIsJson(s: Selection, a: Availability, t: seq<Event>, o: Oracles)
    requires s.Invalid? ==> ReasonCode(s.reason)
    requires JsonAnswers(t) && (s.FreeTool? ==> AllJson(s.arguments))
    ensures JsonReply(Outcome(s, a, t, o))
  {
    hide AllJson, Refusal, FreeToolOutcome, DiscoveryOutcome, PaidOutcome, AvailabilityReply, JsonAnswer, Dumps;
    RefusalsAreJson();
    if !s.Invalid? && t != [] {
      var last := t[|t| - 1];
      match s
      case FreeTool(tool, arguments, ignored) => FreeToolReply(tool, arguments, ignored, last.answer, o);
      case Discovery(_, ignored) =>
        DiscoveryReply(a, last.answer);
        ClosedIsJson(a, false, ignored);
      case PaidChallenge(ignored) => PaidReply(ignored, a, t, o);
    }
  }

  /** The text of a reply reads back as its payload. */
  lemma ReplyReadsBack(s: Selection, a: Availability, t: seq<Event>, o: Oracles)
    requires s.Invalid? ==> ReasonCode(s.reason)
    requires JsonAnswers(t) && (s.FreeTool? ==> AllJson(s.arguments))
    ensures var payload := Dict(Payload(s, a, Outcome(s, a, t, o)));
            ReadText(Encode(payload)) == Some(payload)
  {
    hide AllJson, Refusal, Outcome, FailedDiscovery, Encode, ReadText, JsonNumbers, JsonAnswers;
    var r := Outcome(s, a, t, o);
    OutcomeIsJson(s, a, t, o);
    RefusalsAreJson();
    if r.Err? { FailureIsJson(a, r.reason); }
    EntriesAreJson(Payload(s, a, r));
    TextBack(Dict(Payload(s, a, r)));
  }
}
