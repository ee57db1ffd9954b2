/** What a request of catalog_proxy.py is answered, as a function of its selection and of what the upstream servers
    said, and which sequences of upstream calls a request may make. */
module ProxyOutcome {
  import opened Common
  import opened Encoder
  import opened CatalogProxy
  import opened ProxyReply
  import Price

  // ---- the catalog ------------------------------------------------------------------------

  function ExtractCatalog(payload: Value): Result<seq<Entry>> {
    var message := Field(payload, "message");
    if !payload.Dict? then Err("upstream response is not an object")
    else if message.None? || Field(message.value, "role") != Some(Str("ROLE_AGENT")) then Err("upstream response has no agent message")
    else
      var parts := Field(message.value, "parts");
      if parts.None? || !parts.value.Arr? || |parts.value.items| != 1 || !parts.value.items[0].Dict? then
        Err("upstream response has no single catalog part")
      else
        var catalog := Field(parts.value.items[0], "data");
        if catalog.None? || !catalog.value.Dict? then Err("upstream response has no catalog object")
        else
          var actions := Field(catalog.value, "actions");
          if actions.None? || !actions.value.Arr? || MAX_ACTIONS < |actions.value.items| then
            Err("upstream catalog actions are invalid or too wide")
          else if MAX_UPSTREAM_BYTES < ByteLength(Encode(catalog.value)) then Err("upstream catalog exceeds the byte ceiling")
          else Ok(catalog.value.entries)
  }

  const ACTION_KEYS: seq<string> := ["serviceName", "name", "route", "url", "method", "description", "priceAtomicUsdc",
                                     "priceUsdc", "paymentProtocols"]

  function Project(entries: seq<Entry>, keys: seq<string>): seq<Entry> {
    if keys == [] then []
    else
      var value := Get(entries, keys[0]);
      (if value.Some? then [Entry(keys[0], value.value)] else []) + Project(entries, keys[1..])
  }

  // A long fixed text, in parts.
  const METADATA_ONLY := "Optional caller-declared metadata only. It is not "
  const UNAUTHENTICATED := "attribution, not authenticated, and cannot change "
  const NO_ACCESS := "price, payment, or access."

  function Boundary(): string { METADATA_ONLY + UNAUTHENTICATED + NO_ACCESS }

  function DeclaredSource(): Entry {
    Entry("declaredSource", Dict([
      Entry("boundary", Str(Boundary())),
      Entry("header", Str("X-SameDayDesk-Agent-Source")), Entry("value", Str("agentverse-a2a-v1"))]))
  }

  /** The first action on the audited route, with the example URL that a challenge would read. */
  datatype Action = Action(exampleUrl: string, actionUrl: Option<Value>, entries: seq<Entry>)

  function ExampleUrl(action: Value): (r: Result<string>)
    ensures r.Ok? ==> "https://" <= r.value
  {
    var request := Field(action, "request");
    var example := if request.None? then None else Field(request.value, "exampleUrl");
    if example.Some? && example.value.Str? && "https://" <= example.value.s then Ok(example.value.s)
    else Err("seller-integrity audit has no exact example URL")
  }

  function ActionEntries(entries: seq<Entry>, exampleUrl: string): seq<Entry> {
    Project(entries, ACTION_KEYS) + [Entry("exampleUrl", Str(exampleUrl)), DeclaredSource()]
  }

  predicate Audited(action: Value) {
    action.Dict? && Get(action.entries, "route") == Some(Str(PAYMENT_INTEGRITY_ROUTE))
  }

  function SelectAction(actions: seq<Value>): Result<Action> {
    if actions == [] then Err("canonical catalog has no seller-integrity audit")
    else if !Audited(actions[0]) then SelectAction(actions[1..])
    else
      var example := ExampleUrl(actions[0]);
      if example.Err? then Err(example.reason)
      else
        var entries := ActionEntries(actions[0].entries, example.value);
        if MAX_AGENT_TEXT_BYTES < ByteLength(Encode(Dict(entries))) then Err("selected action exceeds the response ceiling")
        else Ok(Action(example.value, Get(actions[0].entries, "url"), entries))
  }

  /** Whatever the catalog says, a selected challenge URL is an https URL. */
  lemma {:induction false} SelectedIsHttps(actions: seq<Value>)
    ensures SelectAction(actions).Ok? ==> "https://" <= SelectAction(actions).value.exampleUrl
  {
    hide Audited, ExampleUrl, ActionEntries, Encode, ByteLength;
    if actions != [] { SelectedIsHttps(actions[1..]); }
  }

  predicate FirstAudited(actions: seq<Value>, i: nat) {
    && i < |actions| && actions[i].Dict? && Get(actions[i].entries, "route") == Some(Str(PAYMENT_INTEGRITY_ROUTE))
    && forall j | 0 <= j < i :: !(actions[j].Dict? && Get(actions[j].entries, "route") == Some(Str(PAYMENT_INTEGRITY_ROUTE)))
  }

  /** The first action on the audited route decides: without an exact https example URL, or too large, it is refused even if
      another one follows. */
  lemma {:induction false} ActionSelectionMeans(actions: seq<Value>, i: nat)
    requires FirstAudited(actions, i)
    ensures var request, selected := Field(actions[i], "request"), SelectAction(actions);
            && (selected.Ok? <==>
                  && request.Some? && HttpsField(request.value, "exampleUrl")
                  && ByteLength(Encode(Dict(ActionEntries(actions[i].entries, Field(request.value, "exampleUrl").value.s)))) <= MAX_AGENT_TEXT_BYTES)
            && (selected.Ok? ==> selected.value == Action(Field(request.value, "exampleUrl").value.s, Get(actions[i].entries, "url"),
                                                          ActionEntries(actions[i].entries, Field(request.value, "exampleUrl").value.s)))
  {
    hide Encode, ByteLength, ActionEntries;
    if i > 0 {
      assert !Audited(actions[0]);
      assert forall j | 0 <= j < |actions[1..]| :: actions[1..][j] == actions[j + 1];
      ActionSelectionMeans(actions[1..], i - 1);
    }
  }

  lemma {:induction false} NoneAudited(actions: seq<Value>)
    requires forall i: nat :: !FirstAudited(actions, i)
    ensures SelectAction(actions) == Err("canonical catalog has no seller-integrity audit")
  {
    hide Encode, ByteLength, ActionEntries, ExampleUrl, Get;
    if actions != [] {
      assert !FirstAudited(actions, 0);
      forall i: nat
        ensures !FirstAudited(actions[1..], i)
      {
        assert forall j | 0 <= j < |actions[1..]| :: actions[1..][j] == actions[j + 1];
        assert forall j | 1 <= j < |actions| :: actions[j] == actions[1..][j - 1];
        assert !FirstAudited(actions, i + 1);
      }
      NoneAudited(actions[1..]);
    }
  }

  predicate HttpsField(v: Value, key: string) {
    var field := Field(v, key);
    field.Some? && field.value.Str? && "https://" <= field.value.s
  }

  /** The catalog is the one data part of an agent message, with at most 64 actions and within the byte ceiling. */
  lemma ExtractionMeans(payload: Value, catalog: seq<Entry>)
    ensures ExtractCatalog(payload) == Ok(catalog) <==>
            var message := Field(payload, "message");
            && message.Some? && Field(message.value, "role") == Some(Str("ROLE_AGENT"))
            && (exists part :: Field(message.value, "parts") == Some(Arr([part])) && Field(part, "data") == Some(Dict(catalog)))
            && (var actions := Get(catalog, "actions"); actions.Some? && actions.value.Arr? && |actions.value.items| <= MAX_ACTIONS)
            && ByteLength(Encode(Dict(catalog))) <= MAX_UPSTREAM_BYTES
  {
    hide Encode, ByteLength;
    var message := Field(payload, "message");
    if message.Some? {
      var parts := Field(message.value, "parts");
      if parts.Some? && parts.value.Arr? && |parts.value.items| == 1 {
        assert parts.value.items == [parts.value.items[0]];
      }
    }
  }

  /** A selected action keeps the listed fields that the catalog's action has, and no other, besides the two added ones. */
  lemma {:induction false} ProjectMeans(entries: seq<Entry>, keys: seq<string>, e: Entry)
    ensures e in Project(entries, keys) <==> e.key in keys && Get(entries, e.key) == Some(e.value)
  {
    if keys != [] { ProjectMeans(entries, keys[1..], e); }
  }

  function ActionOf(payload: Value): Result<Action> {
    var catalog := ExtractCatalog(payload);
    if catalog.Err? then Err(catalog.reason)
    else
      var actions := Get(catalog.value, "actions");
      if actions.None? || !actions.value.Arr? then Err("upstream catalog actions are invalid or too wide")
      else SelectAction(actions.value.items)
  }

  // ---- reply payloads ---------------------------------------------------------------------

  function OrNull(v: Option<Value>): Value {
    if v.Some? then v.value else Null
  }

  function FreeToolEntries(tool: string, arguments: seq<Entry>, ignored: seq<string>, structured: Option<Value>, text: string, cut: bool): seq<Entry> {
    [Entry("arguments", Dict(arguments)), Entry("cash", Num("0")), Entry("kind", Str("free-tool")), Entry("owner", Str(READINESS_URL)),
     Entry("paymentForwarded", Bool(false)), Entry("paymentIgnored", Strings(ignored)), Entry("paymentInferred", Bool(false)),
     Entry("structuredContent", OrNull(structured)), Entry("text", Str(if cut then "" else text)), Entry("tool", Str(tool))]
    + (if cut then [Entry("truncated", Bool(true))] else []) + [Entry("useful", Bool(true))]
  }

  const ACCEPT_KEYS: seq<string> := ["scheme", "network", "amount", "asset", "payTo", "maxTimeoutSeconds"]

  function Accepts(items: seq<Value>): seq<Value> {
    if items == [] then []
    else (if items[0].Dict? then [Dict(Project(items[0].entries, ACCEPT_KEYS))] else []) + Accepts(items[1..])
  }

  /** project_challenge_body; cut drops the copy of the body after an overflow. */
  function ChallengeBody(v: Value, unparsed: string, cut: bool): seq<Entry> {
    if !v.Dict? then (if cut then [Entry("truncated", Bool(true))] else []) + [Entry("unparsed", Str(Prefix(unparsed, 1500)))]
    else
      var accepts := Get(v.entries, "accepts");
      var resource := Get(v.entries, "resource");
      var copied := !cut && ByteLength(Encode(v)) <= 12_000;
      [Entry("accepts", Arr(if accepts.Some? && accepts.value.Arr? then Accepts(accepts.value.items) else []))]
      + (if copied then [Entry("body", v)] else [])
      + BodyTail(Get(v.entries, "error"), resource, copied, Get(v.entries, "x402Version"))
  }

  function BodyTail(error: Option<Value>, resource: Option<Value>, copied: bool, version: Option<Value>): seq<Entry> {
    [Entry("error", OrNull(error)), Entry("resource", ResourceValue(resource)),
     Entry("truncated", Bool(!copied)), Entry("x402Version", OrNull(version))]
  }

  function ResourceValue(resource: Option<Value>): Value {
    Dict([Entry("mimeType", OrNull(if resource.None? then None else Field(resource.value, "mimeType"))),
          Entry("url", OrNull(if resource.None? then None else Field(resource.value, "url")))])
  }

  function PaidEntries(a: Availability, body: seq<Entry>, contentType: string, ignored: seq<string>, action: seq<Entry>): seq<Entry> {
    [Entry("availability", AvailabilityValue(a)), Entry("cash", Num("0")),
     Entry("challenge", Dict([Entry("body", Dict(body)), Entry("contentType", Str(contentType)), Entry("httpStatus", Num("402"))])),
     DeclaredSource(), Entry("kind", Str("paid-challenge")), Entry("paid", Bool(false)), Entry("paymentForwarded", Bool(false)),
     Entry("paymentIgnored", Strings(ignored)), Entry("paymentInferred", Bool(false)), Entry("selectedAction", Dict(action))]
  }

  function Instruction(part: nat): string {
    if part == 0 then "Plain text discovers the current paid action only. "
    else if part == 1 then "Send kind free-tool to call the apex readiness tool, "
    else if part == 2 then "or kind paid-challenge to read the live unpaid challenge. "
    else if part == 3 then "Use selectedAction.exampleUrl and authorize "
    else "payment only within your own policy."
  }

  function DiscoveryHead(a: Availability): seq<Entry> {
    [Entry("authority", Str("agents.samedaydesk.com")), Entry("availability", AvailabilityValue(a)),
     Entry("canonicalCatalog", Str("https://agents.samedaydesk.com/api/actions")),
     Entry("instruction", Str(Instruction(0) + Instruction(1) + Instruction(2) + Instruction(3) + Instruction(4))),
     Entry("openApi", Str("https://agents.samedaydesk.com/openapi.json"))]
  }

  function DiscoveryEntries(a: Availability, action: seq<Entry>): seq<Entry> {
    DiscoveryHead(a) + [Entry("selectedAction", Dict(action))]
  }

  /** dumps(first), or dumps(second) when the first is over budget. */
  function Fit(first: seq<Entry>, second: seq<Entry>): (r: Result<seq<Entry>>)
    ensures r.Ok? ==> Dumps(r.value).Some?
  {
    if Dumps(first).Some? then Ok(first) else if Dumps(second).Some? then Ok(second) else Err("body_budget")
  }

  // ---- what an answer leads to ------------------------------------------------------------

  /** A response with a readable body, or the text of the exception. */
  function Received(answer: Result<Response>): Result<Response> {
    if answer.Err? then answer
    else
      var fault := BodyFault(answer.value, MAX_UPSTREAM_BYTES);
      if fault.Some? then Err(fault.value) else answer
  }

  function ReadinessText(status: nat): string { "readiness HTTP " + Price.Decimal(status) }
  function RefusedText(): string { "readiness tool refused the request" }
  function MerchantText(status: nat): string { "merchant HTTP " + Price.Decimal(status) + " is not an unpaid challenge" }

  function FreeToolOutcome(tool: string, arguments: seq<Entry>, ignored: seq<string>, answer: Result<Response>, o: Oracles): Result<seq<Entry>> {
    var got := Received(answer);
    if got.Err? then Err(got.reason)
    else if 400 <= got.value.status then Ok(Refusal("upstream_error", ReadinessText(got.value.status), ""))
    else
      match got.value.decoding
      case NotJson(_) => Err("upstream_error")
      case Unreadable(message) => Err(message)
      case Parsed(v) => ToolOutcome(tool, arguments, ignored, v, o)
  }

  function ToolOutcome(tool: string, arguments: seq<Entry>, ignored: seq<string>, payload: Value, o: Oracles): Result<seq<Entry>> {
    var error, result := Field(payload, "error"), Field(payload, "result");
    if !payload.Dict? then Err("upstream_error")
    else if error.Some? && error.value.Dict? then
      var message := o.shown(Field(error.value, "message"));
      Ok(Refusal("upstream_error", if message == "" then "upstream error" else message, ""))
    else if result.None? || !result.value.Dict? || Field(result.value, "isError") == Some(Bool(true)) then
      Ok(Refusal("tool_refused", RefusedText(), ""))
    else
      var structured := Structured(result.value);
      var text := FirstText(result.value, o);
      if structured.None? && text == "" then Err("upstream_error")
      else Fit(FreeToolEntries(tool, arguments, ignored, structured, text, false),
               FreeToolEntries(tool, arguments, ignored, structured, text, true))
  }

  function Structured(result: Value): Option<Value> {
    var structured := Field(result, "structuredContent");
    if structured.Some? && structured.value.Dict? then structured else None
  }

  function FirstText(result: Value, o: Oracles): string {
    var content := Field(result, "content");
    if content.Some? && content.value.Arr? && content.value.items != [] && content.value.items[0].Dict? then
      Prefix(o.shown(Get(content.value.items[0].entries, "text")), 1500)
    else ""
  }

  /** _load_selected_action. */
  function CatalogOutcome(answer: Result<Response>): Result<Action> {
    var got := Received(answer);
    if got.Err? then Err(got.reason)
    else if 400 <= got.value.status then Err("upstream_error")
    else if !got.value.decoding.Parsed? then Err(got.value.decoding.message)
    else ActionOf(got.value.decoding.value)
  }

  /** _discovery_text, which raises for every status outside 200 to 299. */
  function DiscoveryOutcome(a: Availability, answer: Result<Response>): Result<seq<Entry>> {
    var got := Received(answer);
    if got.Err? then Err(got.reason)
    else if !(200 <= got.value.status < 300) then Err(got.value.failure)
    else if !got.value.decoding.Parsed? then Err(got.value.decoding.message)
    else
      var action := ActionOf(got.value.decoding.value);
      if action.Err? then Err(action.reason)
      else Fit(DiscoveryEntries(a, action.value.entries), DiscoveryEntries(a, action.value.entries))
  }

  /** After the catalog, a paid challenge is answered at once, reads one URL, or raises because the client refuses to
      build a request for that URL; execute does not catch this InvalidURL. */
  datatype Next = Answer(outcome: Result<seq<Entry>>) | Read(url: string) | Unrequestable

  function UnboundText(): string { "catalog action has no bound example URL" }
  function OtherHostText(): string { "example URL host does not match the catalog action" }

  function ChallengeNext(action: Result<Action>, o: Oracles): Next {
    if action.Err? then Answer(Err(action.reason))
    else if action.value.actionUrl.None? || !action.value.actionUrl.value.Str? then
      Answer(Ok(Refusal("invalid_request", UnboundText(), "")))
    else
      var example, bound := o.host(action.value.exampleUrl), o.host(action.value.actionUrl.value.s);
      if example.Err? then Answer(Err(example.reason))
      else if bound.Err? then Answer(Err(bound.reason))
      else if example != bound then
        Answer(Ok(Refusal("invalid_request", OtherHostText(), "")))
      else if !o.requestable(action.value.exampleUrl) then Unrequestable
      else Read(action.value.exampleUrl)
  }

  lemma NextIsRefusal(action: Result<Action>, o: Oracles)
    ensures var next := ChallengeNext(action, o);
            next.Answer? && next.outcome.Ok? ==>
              exists detail :: next.outcome.value == Refusal("invalid_request", detail, "")
  {
    hide Refusal, UnboundText, OtherHostText;
  }

  function ChallengeOutcome(a: Availability, ignored: seq<string>, action: seq<Entry>, answer: Result<Response>): Result<seq<Entry>> {
    var got := Received(answer);
    if got.Err? then Err(got.reason)
    else if got.value.status != 402 then
      Ok(Refusal(if got.value.status < 400 then "unchallenged" else "upstream_error",
                 MerchantText(got.value.status), ""))
    else if got.value.decoding.Unreadable? then Err(got.value.decoding.message)
    else
      var v := if got.value.decoding.Parsed? then got.value.decoding.value else Null;
      Fit(PaidEntries(a, ChallengeBody(v, got.value.text, false), got.value.contentType, ignored, action),
          PaidEntries(a, ChallengeBody(v, got.value.text, true), got.value.contentType, ignored, action))
  }

  function InvalidOutcome(s: Selection): Result<seq<Entry>>
    requires s.Invalid? && ReasonCode(s.reason)
  {
    Ok(Refusal(s.reason, s.detail, if s.rejected.Some? then s.rejected.value else ""))
  }

  /** The answer while the gateway is not available, if it fits. */
  function ClosedOutcome(a: Availability, paid: bool, ignored: seq<string>): Result<seq<Entry>> {
    Fit(AvailabilityReply(a, paid, ignored), AvailabilityReply(a, paid, ignored))
  }

  // ---- the automaton ----------------------------------------------------------------------

  /** An upstream call and its answer. */
  datatype Event =
    | ReadinessPost(answer: Result<Response>)
    | StatusGet(url: string, answer: Result<Response>)
    | CatalogPost(answer: Result<Response>)
    | ChallengeGet(url: string, answer: Result<Response>)

  /** One status read, and a second one of the other address if the first answer redirects there. */
  predicate StatusReads(t: seq<Event>) {
    && 1 <= |t| <= 2
    && t[0].StatusGet? && t[0].url == AVAILABILITY_URL
    && (|t| == 2 ==> t[1].StatusGet? && t[1].url == WWW_AVAILABILITY_URL && RedirectsTo(t[0].answer, WWW_AVAILABILITY_URL))
  }

  /** What may follow the last status answer: nothing, or, if it is believed, a catalog read and then, for a paid
      challenge, one GET of the URL that the catalog's action names. */
  predicate Onward(last: Result<Response>, rest: seq<Event>, paid: bool, o: Oracles) {
    rest == []
    || (Believed(last) && rest[0].CatalogPost?
        && (|rest| == 1
            || (paid && |rest| == 2 && rest[1].ChallengeGet?
                && ChallengeNext(CatalogOutcome(rest[0].answer), o) == Read(rest[1].url))))
  }

  predicate StatusSplit(answered: seq<Event>, rest: seq<Event>, paid: bool, o: Oracles) {
    StatusReads(answered) && Onward(answered[|answered| - 1].answer, rest, paid, o)
  }

  predicate StatusFirst(t: seq<Event>, paid: bool, o: Oracles) {
    exists n :: 1 <= n <= |t| && StatusSplit(t[..n], t[n..], paid, o)
  }

  predicate Conforms(t: seq<Event>, s: Selection, o: Oracles) {
    match s
    case Invalid(_, _, _) => t == []
    case FreeTool(_, _, _) => |t| == 1 && t[0].ReadinessPost?
    case Discovery(_, _) => StatusFirst(t, false, o)
    case PaidChallenge(_) => StatusFirst(t, true, o)
  }

  /** This run's own status, read before the call at index i, was believed. */
  predicate Cleared(t: seq<Event>, i: nat) {
    exists j :: 0 <= j < i && j < |t| && t[j].StatusGet? && Believed(t[j].answer)
  }

  /** The catalog's own action gives this example URL, and its URL has the same host. */
  predicate OnActionHost(catalog: Event, url: string, o: Oracles) {
    && catalog.CatalogPost?
    && var action := CatalogOutcome(catalog.answer);
    && action.Ok? && action.value.exampleUrl == url
    && action.value.actionUrl.Some? && action.value.actionUrl.value.Str?
    && o.host(url).Ok? && o.host(url) == o.host(action.value.actionUrl.value.s)
  }

  /** At most four calls; at most two of them status reads, of different addresses, one right after the other; catalog and
      merchant only after a status that the run read itself was believed; the merchant only for a paid challenge, last, over
      https, at the URL and on the host of the action that the catalog just gave; the readiness server only for a free tool. */
  predicate SafeCalls(t: seq<Event>, s: Selection, o: Oracles) {
    && |t| <= 4
    && (forall i | 0 <= i < |t| && (t[i].CatalogPost? || t[i].ChallengeGet?) :: Cleared(t, i))
    && (forall i, j | 0 <= i < j < |t| && t[i].StatusGet? && t[j].StatusGet? :: t[i].url != t[j].url && j == i + 1)
    && (forall i | 0 <= i < |t| && t[i].ChallengeGet? :: s.PaidChallenge? && i == |t| - 1 && "https://" <= t[i].url)
    && (forall i | 0 <= i < |t| && t[i].ChallengeGet? :: 0 < i && OnActionHost(t[i - 1], t[i].url, o))
    && (forall i | 0 <= i < |t| && t[i].ReadinessPost? :: s.FreeTool?)
  }

  /** The automaton keeps every run safe. */
  lemma ConformingIsBounded(t: seq<Event>, s: Selection, o: Oracles)
    requires Conforms(t, s, o)
    ensures SafeCalls(t, s, o)
  {
    hide Believed, RedirectsTo, ChallengeNext, CatalogOutcome, OnActionHost;
    if s.Discovery? || s.PaidChallenge? {
      var n :| 1 <= n <= |t| && StatusSplit(t[..n], t[n..], s.PaidChallenge?, o);
      UrlsDiffer();
      assert t[0] == t[..n][0] && (n == 2 ==> t[1] == t[..n][1]);
      assert n < |t| ==> t[n] == t[n..][0] && Believed(t[n - 1].answer);
      if n + 1 < |t| {
        assert t[n + 1] == t[n..][1];
        ReadIsBound(t[n], o);
      }
    }
  }

  lemma UrlsDiffer()
    ensures AVAILABILITY_URL != WWW_AVAILABILITY_URL
  {
    assert |AVAILABILITY_URL| != |WWW_AVAILABILITY_URL|;
  }

  lemma ReadIsBound(catalog: Event, o: Oracles)
    requires catalog.CatalogPost?
    ensures var next := ChallengeNext(CatalogOutcome(catalog.answer), o);
            next.Read? ==> "https://" <= next.url && OnActionHost(catalog, next.url, o)
  {
    hide ActionOf;
    if CatalogOutcome(catalog.answer).Ok? { ActionIsHttps(catalog.answer.value.decoding.value); }
  }

  lemma ActionIsHttps(payload: Value)
    ensures ActionOf(payload).Ok? ==> "https://" <= ActionOf(payload).value.exampleUrl
  {
    hide ExtractCatalog, SelectAction;
    var catalog := ExtractCatalog(payload);
    if catalog.Ok? {
      var actions := Get(catalog.value, "actions");
      if actions.Some? && actions.value.Arr? { SelectedIsHttps(actions.value.items); }
    }
  }

  // ---- the exception that is not caught ---------------------------------------------------

  /** execute raises after these upstream calls, and enqueues no reply. */
  predicate Escapes(s: Selection, t: seq<Event>, o: Oracles) {
    && s.PaidChallenge? && t != [] && t[|t| - 1].CatalogPost?
    && ChallengeNext(CatalogOutcome(t[|t| - 1].answer), o).Unrequestable?
  }

  /** It happens exactly when the action that the catalog gave last has an example URL on its own host for which no request
      can be built. */
  lemma EscapesExactly(s: Selection, t: seq<Event>, o: Oracles)
    ensures Escapes(s, t, o) <==>
            && s.PaidChallenge? && t != [] && t[|t| - 1].CatalogPost?
            && var action := CatalogOutcome(t[|t| - 1].answer);
            && action.Ok? && OnActionHost(t[|t| - 1], action.value.exampleUrl, o) && !o.requestable(action.value.exampleUrl)
  {
    hide CatalogOutcome, Refusal;
  }

  // ---- the reply --------------------------------------------------------------------------

  function Challenged(a: Availability, ignored: seq<string>, action: Result<Action>, answer: Result<Response>): Result<seq<Entry>> {
    match action
    case Ok(selected) => ChallengeOutcome(a, ignored, selected.entries, answer)
    case Err(reason) => Err(reason)
  }

  function AnswerOf(next: Next): Result<seq<Entry>> {
    match next
    case Answer(outcome) => outcome
    case _ => Err("")
  }

  /** A paid challenge, by its last upstream call. */
  function PaidOutcome(ignored: seq<string>, a: Availability, t: seq<Event>, o: Oracles): Result<seq<Entry>>
    requires t != []
  {
    match t[|t| - 1]
    case ChallengeGet(_, answer) => Challenged(a, ignored, if 2 <= |t| then CatalogOutcome(t[|t| - 2].answer) else Err(""), answer)
    case CatalogPost(answer) => AnswerOf(ChallengeNext(CatalogOutcome(answer), o))
    case _ => ClosedOutcome(a, true, ignored)
  }

  /** The try block of execute, given the status that it read and its upstream calls. */
  function Outcome(s: Selection, a: Availability, t: seq<Event>, o: Oracles): Result<seq<Entry>>
    requires s.Invalid? ==> ReasonCode(s.reason)
  {
    if s.Invalid? then InvalidOutcome(s)
    else if t == [] then Err("")
    else
      var last := t[|t| - 1];
      match s
      case FreeTool(tool, arguments, ignored) => FreeToolOutcome(tool, arguments, ignored, last.answer, o)
      case Discovery(_, ignored) =>
        if last.CatalogPost? then DiscoveryOutcome(a, last.answer) else ClosedOutcome(a, false, ignored)
      case PaidChallenge(ignored) => PaidOutcome(ignored, a, t, o)
  }

  /** Only these exception texts are shown as reason codes of a refusal. */
  function FailureCode(reason: string): (code: string)
    ensures ReasonCode(code)
  {
    if reason in {"stream_refused", "redirect_refused", "body_budget", "upstream_error", "tool_refused"} then reason
    else "upstream_error"
  }

  /** What execute says in the end: the outcome, or its fallback for a caught exception. */
  function Payload(s: Selection, a: Availability, r: Result<seq<Entry>>): seq<Entry> {
    if r.Ok? then r.value
    else if s.Discovery? then FailedDiscovery(a, r.reason)
    else
      var code := FailureCode(r.reason);
      Refusal(code, if code == r.reason then "" else Prefix(r.reason, 256), "")
  }

  lemma OutcomeFits(s: Selection, a: Availability, t: seq<Event>, o: Oracles)
    requires s.Invalid? ==> ReasonCode(s.reason)
    ensures var r := Outcome(s, a, t, o); r.Ok? ==> Dumps(r.value).Some?
  {
    hide Dumps, RefusalEntries, ByteLength, ActionOf, FreeToolEntries, PaidEntries, DiscoveryEntries, ChallengeBody, Received,
         AvailabilityReply, Structured, FirstText, CatalogOutcome, ReadinessText, RefusedText, MerchantText, UnboundText, OtherHostText,
         Fit, Refusal;
  }

  /** Every reply is within the byte budget, whatever the caller, the payment fields and the servers say. */
  lemma ReplyFits(s: Selection, a: Availability, t: seq<Event>, o: Oracles)
    requires s.Invalid? ==> ReasonCode(s.reason)
    requires a.observedAt.Some? ==> |a.observedAt.value| == 24
    ensures Dumps(Payload(s, a, Outcome(s, a, t, o))).Some?
    ensures ByteLength(Encode(Dict(Payload(s, a, Outcome(s, a, t, o))))) <= MAX_AGENT_TEXT_BYTES
  {
    hide Outcome, FailedDiscovery, Refusal, ByteLength, Encode;
    var r := Outcome(s, a, t, o);
    OutcomeFits(s, a, t, o);
    if r.Err? { FailedDiscoveryFits(a, r.reason); }
  }
}
