/** catalog_proxy.py: what a request may contact, what is accepted as a live status, and what is replied. Upstream
    servers, JSON decoding, URL and host parsing are nondeterministic or oracles; every answer is covered. */
module CatalogProxy {
  import opened Common
  import opened Encoder

  const MAX_UPSTREAM_BYTES: nat := 128 * 1024
  const MAX_STATUS_BYTES: nat := 16 * 1024
  const MAX_ACTIONS: nat := 64
  const AVAILABILITY_URL := "https://samedaydesk.com/discovery/paid-gateway.json"
  const WWW_AVAILABILITY_URL := "https://www.samedaydesk.com/discovery/paid-gateway.json"
  const GATEWAY_ORIGIN := "https://agents.samedaydesk.com"
  const OFFLINE_JOBS_URL := "https://samedaydesk.com/discovery/useful-jobs.json"
  const READINESS_URL := "https://samedaydesk.com/mcp"
  const PAYMENT_INTEGRITY_ROUTE := "/commerce/seller-integrity-audit"
  const REDIRECT_STATUSES: set<nat> := {301, 302, 303, 307, 308}

  /** Err carries str(exc) of an exception that execute catches. */
  datatype Result<+T> = Ok(value: T) | Err(reason: string)

  type Bytes = seq<int>

  /** json.loads of a body: NotJson is JSONDecodeError, Unreadable any other ValueError. */
  datatype Decoding = Parsed(value: Value) | NotJson(message: string) | Unreadable(message: string)

  datatype Response = Response(
    status: nat,
    eventStream: bool,
    declared: Option<nat>,           // a numeric content-length
    chunks: seq<Bytes>,
    broken: Option<string>,          // a transport error after the chunks
    json: bool,                      // content-type is application/json
    identity: bool,                  // content-encoding is absent, empty or identity
    destination: string,             // location resolved against the request URL
    contentType: string,             // content-type up to its first semicolon
    failure: string,                 // the text of the exception of raise_for_status
    text: string,                    // the body as text, with replacement characters
    decoding: Decoding,
    dateOk: bool)                    // the digits of a decoded observedAt are a real date

  function Get(entries: seq<Entry>, key: string): Option<Value> {
    if entries == [] then None
    else if entries[0].key == key then Some(entries[0].value)
    else Get(entries[1..], key)
  }

  function Field(v: Value, key: string): Option<Value> {
    if v.Dict? then Get(v.entries, key) else None
  }

  lemma {:induction false} GetAt(entries: seq<Entry>, key: string, i: nat)
    requires i < |entries| && entries[i].key == key && forall j | 0 <= j < i :: entries[j].key != key
    ensures Get(entries, key) == Some(entries[i].value)
  {
    if i > 0 { GetAt(entries[1..], key, i - 1); }
  }

  // ---- bounded reading --------------------------------------------------------------------

  function Join(chunks: seq<Bytes>): Bytes {
    if chunks == [] then [] else Join(chunks[..|chunks| - 1]) + chunks[|chunks| - 1]
  }

  lemma {:induction false} JoinGrows(chunks: seq<Bytes>, n: nat)
    requires n <= |chunks|
    ensures |Join(chunks[..n])| <= |Join(chunks)|
  {
    if n < |chunks| {
      assert chunks[..|chunks| - 1][..n] == chunks[..n];
      JoinGrows(chunks[..|chunks| - 1], n);
    } else {
      assert chunks[..n] == chunks;
    }
  }

  /** Why a body is refused. */
  function BodyFault(r: Response, max: nat): Option<string> {
    if r.eventStream then Some("stream_refused")
    else if r.status in REDIRECT_STATUSES then Some("redirect_refused")
    else if (r.declared.Some? && max < r.declared.value) || max < |Join(r.chunks)| then Some("body_budget")
    else r.broken
  }

  predicate Readable(r: Response, max: nat) {
    BodyFault(r, max).None?
  }

  /** A body is delivered whole and within the bound, or not at all. */
  method ReadBounded(r: Response, max: nat) returns (out: Result<Bytes>)
    ensures out == (if Readable(r, max) then Ok(Join(r.chunks)) else Err(BodyFault(r, max).value))
    ensures out.Ok? ==> |out.value| <= max
  {
    if r.eventStream { return Err("stream_refused"); }
    if r.status in REDIRECT_STATUSES { return Err("redirect_refused"); }
    if r.declared.Some? && max < r.declared.value { return Err("body_budget"); }
    var chunks: seq<Bytes>, total := [], 0;
    for i := 0 to |r.chunks|
      invariant chunks == r.chunks[..i] && total == |Join(chunks)| <= max
    {
      total := total + |r.chunks[i]|;
      assert r.chunks[..i + 1][..i] == r.chunks[..i];
      if max < total {
        JoinGrows(r.chunks, i + 1);
        return Err("body_budget");
      }
      chunks := chunks + [r.chunks[i]];
    }
    assert r.chunks[..|r.chunks|] == r.chunks;
    if r.broken.Some? { return Err(r.broken.value); }
    return Ok(Join(chunks));
  }

  // ---- the caller's selection -------------------------------------------------------------

  /** str.strip, key.lower() in PAYMENT_FIELDS, the public URL and host tests, str of a value (empty for an absent or
      falsy one), urlparse(...).hostname, and whether the HTTP client can build a request for a URL. */
  datatype Oracles = Oracles(strip: string -> string, paymentField: string -> bool, publicUrl: string -> bool,
                             publicHost: string -> bool, shown: Option<Value> -> string, host: string -> Result<Option<string>>,
                             requestable: string -> bool)

  datatype Selection =
    | Discovery(structured: bool, ignored: seq<string>)
    | PaidChallenge(ignored: seq<string>)
    | FreeTool(tool: string, arguments: seq<Entry>, ignored: seq<string>)
    | Invalid(reason: string, detail: string, rejected: Option<string>)

  function PaymentKeys(entries: seq<Entry>, o: Oracles): seq<string> {
    if entries == [] then []
    else (if o.paymentField(entries[0].key) then [entries[0].key] else []) + PaymentKeys(entries[1..], o)
  }

  function PaymentFields(entries: seq<Entry>, o: Oracles): seq<string> {
    var arguments := Get(entries, "arguments");
    PaymentKeys(entries, o) + (if arguments.Some? && arguments.value.Dict? then PaymentKeys(arguments.value.entries, o) else [])
  }

  /** The one argument of a free readiness tool. */
  function ToolArgument(tool: string): Option<string> {
    if tool == "check_ai_readiness" then Some("url")
    else if tool == "check_agent_readiness" then Some("host")
    else None
  }

  function FreeSelection(entries: seq<Entry>, o: Oracles): Selection {
    var tool := Get(entries, "tool");
    if tool.None? || !tool.value.Str? || ToolArgument(tool.value.s).None? then
      Invalid("unknown_tool", "free readiness tool is absent or changed",
              if tool.Some? && tool.value.Str? then Some(tool.value.s) else None)
    else
      var arguments := Get(entries, "arguments");
      if arguments.None? || !arguments.value.Dict? then Invalid("invalid_request", "arguments must be an object", None)
      else
        var key := ToolArgument(tool.value.s).value;
        var value := Get(arguments.value.entries, key);
        if value.None? || !value.value.Str? || o.strip(value.value.s) == "" then
          Invalid("invalid_request", key + " is required", None)
        else if key == "url" && !o.publicUrl(value.value.s) then
          Invalid("invalid_request", "url must be a public https URL", None)
        else if key == "host" && !o.publicHost(value.value.s) then
          Invalid("invalid_request", "host must be a public hostname", None)
        else FreeTool(tool.value.s, [Entry(key, Str(o.strip(value.value.s)))], PaymentFields(entries, o))
  }

  /** braced: the stripped text starts and ends with braces. None is an exception that execute does not catch. */
  function ParseCallerSelection(braced: bool, decoding: Decoding, o: Oracles): Option<Selection> {
    if !braced then Some(Discovery(false, []))
    else
      match decoding
      case Unreadable(_) => None
      case NotJson(_) => Some(Invalid("invalid_request", "selection JSON is not an object", None))
      case Parsed(v) =>
        var kind := Field(v, "kind");
        if kind.None? then Some(Discovery(false, []))
        else if kind == Some(Str("discovery")) then Some(Discovery(true, PaymentFields(v.entries, o)))
        else if kind == Some(Str("paid-challenge")) then Some(PaidChallenge(PaymentFields(v.entries, o)))
        else if kind != Some(Str("free-tool")) then
          Some(Invalid("invalid_request", "kind must be free-tool, paid-challenge, or discovery", None))
        else Some(FreeSelection(v.entries, o))
  }

  // ---- what a selection means -------------------------------------------------------------

  predicate HasKey(entries: seq<Entry>, key: string) {
    exists i :: 0 <= i < |entries| && entries[i].key == key
  }

  lemma {:induction false} PaymentKeysMean(entries: seq<Entry>, o: Oracles, key: string)
    ensures key in PaymentKeys(entries, o) <==> HasKey(entries, key) && o.paymentField(key)
  {
    if entries != [] {
      PaymentKeysMean(entries[1..], o, key);
      assert forall i | 1 <= i < |entries| :: entries[i] == entries[1..][i - 1];
      assert forall i | 0 <= i < |entries[1..]| :: entries[1..][i] == entries[i + 1];
    }
  }

  /** The ignored fields of a request are its payment fields, at the top or among its arguments. */
  lemma PaymentFieldsMean(entries: seq<Entry>, o: Oracles, key: string)
    ensures var arguments := Get(entries, "arguments");
            key in PaymentFields(entries, o) <==>
            o.paymentField(key) && (HasKey(entries, key) || (arguments.Some? && arguments.value.Dict? && HasKey(arguments.value.entries, key)))
  {
    PaymentKeysMean(entries, o, key);
    var arguments := Get(entries, "arguments");
    if arguments.Some? && arguments.value.Dict? { PaymentKeysMean(arguments.value.entries, o, key); }
  }

  /** A free tool, its argument and that argument's value are all there and public. */
  predicate Runnable(entries: seq<Entry>, tool: string, key: string, value: string, o: Oracles) {
    && Get(entries, "tool") == Some(Str(tool))
    && ((tool == "check_ai_readiness" && key == "url" && o.publicUrl(value))
        || (tool == "check_agent_readiness" && key == "host" && o.publicHost(value)))
    && (var arguments := Get(entries, "arguments"); arguments.Some? && Field(arguments.value, key) == Some(Str(value)))
    && o.strip(value) != ""
  }

  lemma FreeSelectionMeans(entries: seq<Entry>, o: Oracles)
    ensures var s := FreeSelection(entries, o);
            && (s.FreeTool? || s.Invalid?)
            && (s.FreeTool? ==> exists key, value ::
                  Runnable(entries, s.tool, key, value, o)
                  && s == FreeTool(s.tool, [Entry(key, Str(o.strip(value)))], PaymentFields(entries, o)))
    ensures forall tool, key, value | Runnable(entries, tool, key, value, o) ::
              FreeSelection(entries, o) == FreeTool(tool, [Entry(key, Str(o.strip(value)))], PaymentFields(entries, o))
  {
    hide PaymentFields;
    assert |"url"| == 3 && |"host"| == 4 && |"check_ai_readiness"| == 18 && |"check_agent_readiness"| == 21;
    var s := FreeSelection(entries, o);
    if s.FreeTool? {
      var key := ToolArgument(s.tool).value;
      var value := Get(Get(entries, "arguments").value.entries, key).value.s;
      assert Runnable(entries, s.tool, key, value, o);
    }
  }

  /** What each kind of selection is parsed from; everything else is invalid. */
  lemma SelectionKinds(braced: bool, decoding: Decoding, o: Oracles)
    requires !(braced && decoding.Unreadable?)
    ensures var parsed := ParseCallerSelection(braced, decoding, o);
            var kind := if braced && decoding.Parsed? then Field(decoding.value, "kind") else None;
            && parsed.Some?
            && (parsed.value == Discovery(false, []) <==> !braced || (decoding.Parsed? && kind.None?))
            && (kind == Some(Str("discovery")) <==> parsed.value.Discovery? && parsed.value.structured)
            && (kind == Some(Str("paid-challenge")) <==> parsed.value.PaidChallenge?)
            && (kind == Some(Str("free-tool")) ==> parsed.value == FreeSelection(decoding.value.entries, o))
            && (parsed.value.FreeTool? ==> kind == Some(Str("free-tool")))
            && (kind.Some? && (parsed.value.Discovery? || parsed.value.PaidChallenge?) ==>
                  parsed.value.ignored == PaymentFields(decoding.value.entries, o))
  {
    hide PaymentFields, FreeSelection;
    assert |"discovery"| == |"free-tool"| == 9 && |"paid-challenge"| == 14 && "discovery"[0] == 'd' && "free-tool"[0] == 'f';
    if braced && decoding.Parsed? && Field(decoding.value, "kind").Some? {
      FreeSelectionMeans(decoding.value.entries, o);
    }
  }

  // ---- availability -----------------------------------------------------------------------

  datatype State = Available | Paused | Unknown

  function StateText(s: State): string {
    match s
    case Available => "available"
    case Paused => "paused"
    case Unknown => "unknown"
  }

  datatype Availability = Availability(state: State, observedAt: Option<string>) {
    predicate Callable() { state.Available? }
  }

  const UNKNOWN := Availability(Unknown, None)

  /** The punctuation of YYYY-MM-DDTHH:MM:SS.mmmZ; `dateOk` says whether the rest are digits of a real date. */
  predicate Timestamp(s: string, dateOk: bool) {
    && |s| == 24 && dateOk
    && s[4] == s[7] == '-' && s[10] == 'T' && s[13] == s[16] == ':' && s[19] == '.' && s[23] == 'Z'
  }

  /** Built from digits of the right number, it is a timestamp; and every timestamp is built like that. */
  lemma TimestampMeans(s: string, dateOk: bool)
    ensures Timestamp(s, dateOk) <==>
            dateOk && exists year, month, day, hour, minute, second, milli ::
              && |year| == 4 && |month| == |day| == |hour| == |minute| == |second| == 2 && |milli| == 3
              && s == Stamp(year, month, day, hour, minute, second, milli)
  {
    if Timestamp(s, dateOk) {
      assert s == Stamp(s[0..4], s[5..7], s[8..10], s[11..13], s[14..16], s[17..19], s[20..23]);
    }
  }

  function Stamp(year: string, month: string, day: string, hour: string, minute: string, second: string, milli: string): string {
    year + "-" + month + "-" + day + "T" + hour + ":" + minute + ":" + second + "." + milli + "Z"
  }

  function ParseState(v: Option<Value>): Option<State> {
    if v == Some(Str("available")) then Some(Available)
    else if v == Some(Str("paused")) then Some(Paused)
    else if v == Some(Str("unknown")) then Some(Unknown)
    else None
  }

  function ParseAvailability(payload: Value, dateOk: bool): Result<Availability> {
    if Field(payload, "origin") != Some(Str(GATEWAY_ORIGIN)) then Err("invalid_status_origin")
    else
      var state := ParseState(Field(payload, "state"));
      if state.None? then Err("invalid_status_state")
      else if Field(payload, "callable") != Some(Bool(state.value.Available?)) then Err("invalid_status_callable")
      else
        var observed := Field(payload, "observedAt");
        if (observed.Some? && observed.value != Null) || !state.value.Unknown? then
          if observed.Some? && observed.value.Str? && Timestamp(observed.value.s, dateOk) then
            Ok(Availability(state.value, Some(observed.value.s)))
          else Err("invalid_status_observation")
        else if observed.None? then Err("missing_status_observation")
        else Ok(Availability(state.value, None))
  }

  /** A usable status carries a timestamp unless it is unknown. */
  predicate Sound(a: Availability) {
    (a.observedAt.Some? ==> |a.observedAt.value| == 24) && (!a.state.Unknown? ==> a.observedAt.Some?)
  }

  /** The gateway's own word, complete and consistent with itself. */
  predicate SaysAvailable(payload: Value, dateOk: bool) {
    && Field(payload, "origin") == Some(Str(GATEWAY_ORIGIN))
    && Field(payload, "state") == Some(Str("available"))
    && Field(payload, "callable") == Some(Bool(true))
    && var observed := Field(payload, "observedAt");
    && observed.Some? && observed.value.Str? && Timestamp(observed.value.s, dateOk)
  }

  /** A status is believed to be available exactly when it says so completely and consistently. */
  lemma AvailableMeans(payload: Value, dateOk: bool)
    ensures var r := ParseAvailability(payload, dateOk);
            (r.Ok? ==> Sound(r.value)) && (r.Ok? && r.value.Callable() <==> SaysAvailable(payload, dateOk))
  {}

  /** A status is accepted exactly when its three fields agree on one state, and its timestamp is one, or is null for an
      unknown state. */
  lemma StatusMeans(payload: Value, dateOk: bool, a: Availability)
    ensures ParseAvailability(payload, dateOk) == Ok(a) <==>
            && Field(payload, "origin") == Some(Str(GATEWAY_ORIGIN))
            && Field(payload, "state") == Some(Str(StateText(a.state)))
            && Field(payload, "callable") == Some(Bool(a.state == Available))
            && (if a.observedAt.Some?
                then Field(payload, "observedAt") == Some(Str(a.observedAt.value)) && Timestamp(a.observedAt.value, dateOk)
                else a.state == Unknown && Field(payload, "observedAt") == Some(Null))
  {
    hide Timestamp, Field;
    assert |"available"| == 9 && |"paused"| == 6 && |"unknown"| == 7;
  }

  /** An answer whose body is a JSON status within the bound. */
  predicate StatusBody(answer: Result<Response>) {
    && answer.Ok? && answer.value.status == 200 && answer.value.json && answer.value.identity
    && Readable(answer.value, MAX_STATUS_BYTES) && answer.value.decoding.Parsed?
  }

  /** What an answer says about the gateway: unknown unless it has a body that parses. */
  function AvailabilityOf(answer: Result<Response>): Availability {
    if !StatusBody(answer) then UNKNOWN
    else
      var parsed := ParseAvailability(answer.value.decoding.value, answer.value.dateOk);
      if parsed.Ok? then parsed.value else UNKNOWN
  }

  predicate Believed(answer: Result<Response>) {
    StatusBody(answer) && SaysAvailable(answer.value.decoding.value, answer.value.dateOk)
  }

  predicate RedirectsTo(answer: Result<Response>, url: string) {
    answer.Ok? && answer.value.status in REDIRECT_STATUSES && answer.value.destination == url
  }
}
