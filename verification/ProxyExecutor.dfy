/** CatalogProxyExecutor of catalog_proxy.py: one request, its upstream calls, one reply. */
module ProxyExecutor {
  import opened Common
  import opened Encoder
  import opened CatalogProxy
  import opened ProxyReply
  import opened ProxyOutcome
  import opened ProxyWire
  import opened JsonReader

  class Executor {
    var trace: seq<Event>            // upstream calls of the current request, with their answers
    var observed: Availability       // the status of the current request
    var timedOut: bool               // whether the timeout of its status read fired
    var replies: seq<string>         // enqueued events

    constructor ()
      ensures trace == [] && observed == UNKNOWN && !timedOut && replies == []
    { trace, observed, timedOut, replies := [], UNKNOWN, false, []; }

    /** Any response, or any transport error. */
    method PostReadiness() returns (r: Result<Response>)
      modifies this`trace
      ensures trace == old(trace) + [ReadinessPost(r)]
    {
      r := *;
      trace := trace + [ReadinessPost(r)];
    }

    method GetStatus(url: string) returns (r: Result<Response>)
      modifies this`trace
      ensures trace == old(trace) + [StatusGet(url, r)]
    {
      r := *;
      trace := trace + [StatusGet(url, r)];
    }

    method PostCatalog() returns (r: Result<Response>)
      modifies this`trace
      ensures trace == old(trace) + [CatalogPost(r)]
    {
      r := *;
      trace := trace + [CatalogPost(r)];
    }

    method GetChallenge(url: string) returns (r: Result<Response>)
      modifies this`trace
      ensures trace == old(trace) + [ChallengeGet(url, r)]
    {
      r := *;
      trace := trace + [ChallengeGet(url, r)];
    }

    /** _read_availability under its timeout: the unknown status if the timeout fires, and otherwise what the last answer
        says, a redirect to the other address having been followed. */
    method ReadAvailability() returns (a: Availability, late: bool)
      requires trace == []
      modifies this`trace
      ensures StatusReads(trace) && Sound(a) && Observes(a, trace, late)
      ensures a.Callable() ==> Believed(trace[|trace| - 1].answer)
    {
      hide ParseAvailability, Sound, SaysAvailable, Readable;
      UnknownIsSound();
      var url := AVAILABILITY_URL;
      var visited: set<string> := {};
      for i := 0 to 2
        invariant i == 0 ==> trace == [] && visited == {} && url == AVAILABILITY_URL
        invariant i == 1 ==> visited == {AVAILABILITY_URL} && url == WWW_AVAILABILITY_URL
        invariant i == 1 ==> StatusReads(trace) && |trace| == 1 && RedirectsTo(trace[0].answer, url)
        invariant i < 2
      {
        visited := visited + {url};
        var r := GetStatus(url);
        assert StatusReads(trace) && trace[|trace| - 1].answer == r;
        late := *;
        if late || r.Err? { return UNKNOWN, late; }
        var response := r.value;
        if response.status in REDIRECT_STATUSES {
          var destination := response.destination;
          if destination !in {AVAILABILITY_URL, WWW_AVAILABILITY_URL} || destination in visited { return UNKNOWN, false; }
          url := destination;
          continue;
        }
        if response.status != 200 || !response.json || !response.identity { return UNKNOWN, false; }
        var body := ReadBounded(response, MAX_STATUS_BYTES);
        if body.Err? || !response.decoding.Parsed? { return UNKNOWN, false; }
        AvailableMeans(response.decoding.value, response.dateOk);
        var parsed := ParseAvailability(response.decoding.value, response.dateOk);
        if parsed.Err? { return UNKNOWN, false; }
        return parsed.value, false;
      }
      // Both status URLs were visited: the loop cannot run out.
      assert false;
    }

    method FreeToolText(tool: string, arguments: seq<Entry>, ignored: seq<string>, o: Oracles) returns (r: Result<seq<Entry>>)
      modifies this`trace
      ensures |trace| == |old(trace)| + 1 && old(trace) == trace[..|old(trace)|] && trace[|old(trace)|].ReadinessPost?
      ensures r == FreeToolOutcome(tool, arguments, ignored, trace[|old(trace)|].answer, o)
    {
      hide Dumps, RefusalEntries, FreeToolEntries, ReadinessText, RefusedText;
      var sent := PostReadiness();
      if sent.Err? { return Err(sent.reason); }
      var response := sent.value;
      var body := ReadBounded(response, MAX_UPSTREAM_BYTES);
      if body.Err? { return Err(body.reason); }
      if 400 <= response.status { return Ok(Refusal("upstream_error", ReadinessText(response.status), "")); }
      if response.decoding.NotJson? { return Err("upstream_error"); }
      if response.decoding.Unreadable? { return Err(response.decoding.message); }
      var payload := response.decoding.value;
      if !payload.Dict? { return Err("upstream_error"); }
      var error := Field(payload, "error");
      if error.Some? && error.value.Dict? {
        var message := o.shown(Field(error.value, "message"));
        return Ok(Refusal("upstream_error", if message == "" then "upstream error" else message, ""));
      }
      var result := Field(payload, "result");
      if result.None? || !result.value.Dict? || Field(result.value, "isError") == Some(Bool(true)) {
        return Ok(Refusal("tool_refused", RefusedText(), ""));
      }
      var structured := Field(result.value, "structuredContent");
      if structured.Some? && !structured.value.Dict? { structured := None; }
      var text := "";
      var content := Field(result.value, "content");
      if content.Some? && content.value.Arr? && content.value.items != [] && content.value.items[0].Dict? {
        text := Prefix(o.shown(Get(content.value.items[0].entries, "text")), 1500);
      }
      if structured.None? && text == "" { return Err("upstream_error"); }
      var whole := FreeToolEntries(tool, arguments, ignored, structured, text, false);
      if Dumps(whole).Some? { return Ok(whole); }
      var cut := FreeToolEntries(tool, arguments, ignored, structured, text, true);
      if Dumps(cut).Some? { return Ok(cut); }
      return Err("body_budget");
    }

    method LoadAction() returns (r: Result<Action>)
      modifies this`trace
      ensures |trace| == |old(trace)| + 1 && old(trace) == trace[..|old(trace)|] && trace[|old(trace)|].CatalogPost?
      ensures r == CatalogOutcome(trace[|old(trace)|].answer)
    {
      hide ActionOf;
      var sent := PostCatalog();
      if sent.Err? { return Err(sent.reason); }
      var response := sent.value;
      var body := ReadBounded(response, MAX_UPSTREAM_BYTES);
      if body.Err? { return Err(body.reason); }
      if 400 <= response.status { return Err("upstream_error"); }
      if !response.decoding.Parsed? { return Err(response.decoding.message); }
      return ActionOf(response.decoding.value);
    }

    method DiscoveryText(a: Availability) returns (r: Result<seq<Entry>>)
      modifies this`trace
      ensures |trace| == |old(trace)| + 1 && old(trace) == trace[..|old(trace)|] && trace[|old(trace)|].CatalogPost?
      ensures r == DiscoveryOutcome(a, trace[|old(trace)|].answer)
    {
      hide Dumps, DiscoveryEntries, ActionOf;
      var sent := PostCatalog();
      if sent.Err? { return Err(sent.reason); }
      var response := sent.value;
      var body := ReadBounded(response, MAX_UPSTREAM_BYTES);
      if body.Err? { return Err(body.reason); }
      if response.status < 200 || 300 <= response.status { return Err(response.failure); }
      if !response.decoding.Parsed? { return Err(response.decoding.message); }
      var action := ActionOf(response.decoding.value);
      if action.Err? { return Err(action.reason); }
      var entries := DiscoveryEntries(a, action.value.entries);
      if Dumps(entries).Some? { return Ok(entries); }
      return Err("body_budget");
    }

    method PaidChallengeText(ignored: seq<string>, a: Availability, o: Oracles) returns (r: Result<seq<Entry>>, raised: bool)
      modifies this`trace
      ensures |old(trace)| < |trace| && old(trace) == trace[..|old(trace)|] && trace[|old(trace)|].CatalogPost?
      ensures var next := ChallengeNext(CatalogOutcome(trace[|old(trace)|].answer), o);
              if next.Answer? then |trace| == |old(trace)| + 1 && r == next.outcome
              else if next.Unrequestable? then |trace| == |old(trace)| + 1
              else |trace| == |old(trace)| + 2 && trace[|trace| - 1].ChallengeGet? && trace[|trace| - 1].url == next.url
      ensures |trace| == |old(trace)| + 2 ==>
                var action := CatalogOutcome(trace[|old(trace)|].answer);
                action.Ok? && r == ChallengeOutcome(a, ignored, action.value.entries, trace[|trace| - 1].answer)
      ensures raised <==> ChallengeNext(CatalogOutcome(trace[|old(trace)|].answer), o).Unrequestable?
    {
      hide Dumps, PaidEntries, ChallengeBody, RefusalEntries, CatalogOutcome, UnboundText, OtherHostText, MerchantText;
      var action := LoadAction();
      if action.Err? { return Err(action.reason), false; }
      var example, actionUrl := action.value.exampleUrl, action.value.actionUrl;
      if actionUrl.None? || !actionUrl.value.Str? {
        return Ok(Refusal("invalid_request", UnboundText(), "")), false;
      }
      var host := o.host(example);
      if host.Err? { return Err(host.reason), false; }
      var bound := o.host(actionUrl.value.s);
      if bound.Err? { return Err(bound.reason), false; }
      if host != bound { return Ok(Refusal("invalid_request", OtherHostText(), "")), false; }
      if !o.requestable(example) { return Err(""), true; }
      var sent := GetChallenge(example);
      if sent.Err? { return Err(sent.reason), false; }
      var response := sent.value;
      var body := ReadBounded(response, MAX_UPSTREAM_BYTES);
      if body.Err? { return Err(body.reason), false; }
      // A redirect was refused while reading: the refusal that the source repeats here cannot be reached.
      assert response.status !in REDIRECT_STATUSES;
      if response.status != 402 {
        return Ok(Refusal(if response.status < 400 then "unchallenged" else "upstream_error",
                          MerchantText(response.status), "")), false;
      }
      if response.decoding.Unreadable? { return Err(response.decoding.message), false; }
      var v := if response.decoding.Parsed? then response.decoding.value else Null;
      var whole := PaidEntries(a, ChallengeBody(v, response.text, false), response.contentType, ignored, action.value.entries);
      if Dumps(whole).Some? { return Ok(whole), false; }
      var cut := PaidEntries(a, ChallengeBody(v, response.text, true), response.contentType, ignored, action.value.entries);
      if Dumps(cut).Some? { return Ok(cut), false; }
      return Err("body_budget"), false;
    }

    /** execute. Without a selection the exception escapes before anything is contacted or replied; the other exception that
        is not caught escapes after the catalog. In all other cases there is exactly one reply. */
    method Execute(braced: bool, decoding: Decoding, o: Oracles)
      modifies this
      ensures ParseCallerSelection(braced, decoding, o).None? <==> braced && decoding.Unreadable?
      ensures ParseCallerSelection(braced, decoding, o).None? ==> trace == [] && replies == old(replies)
      ensures var s := ParseCallerSelection(braced, decoding, o);
              s.Some? ==>
                && (s.value.Invalid? ==> ReasonCode(s.value.reason))
                && Conforms(trace, s.value, o) && Observes(observed, trace, timedOut) && Follows(s.value, observed, trace)
                && (Escapes(s.value, trace, o) ==> replies == old(replies))
                && (!Escapes(s.value, trace, o) ==>
                      && replies == old(replies) + [Encode(Dict(Payload(s.value, observed, Outcome(s.value, observed, trace, o))))]
                      && ByteLength(replies[|replies| - 1]) <= MAX_AGENT_TEXT_BYTES)
                && (!Escapes(s.value, trace, o) && JsonAnswers(trace) ==>
                      ReadText(replies[|replies| - 1]) == Some(Dict(Payload(s.value, observed, Outcome(s.value, observed, trace, o)))))
    {
      hide ByteLength, Encode, Onward, RefusalEntries, FailedDiscovery, Sound, FreeSelection, PaymentFields, Outcome, Conforms, Observes,
           Escapes, Follows, ReadText, JsonAnswers, AllJson;
      trace, observed, timedOut := [], UNKNOWN, false;
      SelectionMeans(braced, decoding, o);
      var selection := ParseCallerSelection(braced, decoding, o);
      if selection.None? { return; }
      var outcome, raised := Attempt(selection.value, o);
      if raised { return; }
      ReplyFits(selection.value, observed, trace, o);
      if JsonAnswers(trace) { ReplyReadsBack(selection.value, observed, trace, o); }
      var payload: seq<Entry>;
      if outcome.Ok? {
        payload := outcome.value;
      } else if selection.value.Discovery? {
        payload := FailedDiscovery(observed, outcome.reason);
      } else {
        var code := FailureCode(outcome.reason);
        payload := Refusal(code, if code == outcome.reason then "" else Prefix(outcome.reason, 256), "");
      }
      replies := replies + [Encode(Dict(payload))];
    }

    /** The try block of execute; raised tells of the exception that it does not catch. */
    method Attempt(selection: Selection, o: Oracles) returns (r: Result<seq<Entry>>, raised: bool)
      requires trace == [] && observed == UNKNOWN
      requires selection.Invalid? ==> ReasonCode(selection.reason)
      modifies this`trace, this`observed, this`timedOut
      ensures Conforms(trace, selection, o) && Observes(observed, trace, timedOut) && Follows(selection, observed, trace)
      ensures observed.observedAt.Some? ==> |observed.observedAt.value| == 24
      ensures raised <==> Escapes(selection, trace, o)
      ensures !raised ==> r == Outcome(selection, observed, trace, o)
    {
      hide FreeToolOutcome, InvalidOutcome, ClosedOutcome, DiscoveryOutcome, ChallengeOutcome, CatalogOutcome, ChallengeNext,
           Believed, AvailabilityOf, StatusReads, Sound;
      raised := false;
      if selection.Invalid? { return InvalidOutcome(selection), false; }
      if selection.FreeTool? {
        r := FreeToolText(selection.tool, selection.arguments, selection.ignored, o);
        return;
      }
      var paid := selection.PaidChallenge?;
      observed, timedOut := ReadAvailability();
      SoundTimestamp(observed);
      ghost var answered := trace;
      LastRead(answered);
      if !observed.Callable() {
        StatusConforms(answered, [], paid, o);
        assert answered + [] == answered;
        return ClosedOutcome(observed, paid, selection.ignored), false;
      }
      if paid {
        r, raised := PaidChallengeText(selection.ignored, observed, o);
      } else {
        r := DiscoveryText(observed);
      }
      assert trace == answered + trace[|answered|..];
      StatusConforms(answered, trace[|answered|..], paid, o);
      assert trace[|answered| - 1] == answered[|answered| - 1];
      StillObserves(observed, answered, trace, timedOut);
    }
  }

  /** The answer of the last status read. */
  function LastStatus(t: seq<Event>): Result<Response>
    requires t != [] && t[0].StatusGet?
  {
    if 1 < |t| && t[1].StatusGet? then t[1].answer else t[0].answer
  }

  /** Without a status read, or when its timeout fires, the status of a request is unknown; otherwise it is what the last
      answer says, and a redirect of the first to the other address was followed. */
  predicate Observes(a: Availability, t: seq<Event>, late: bool) {
    if t == [] || !t[0].StatusGet? || late then a == UNKNOWN
    else
      && a == AvailabilityOf(LastStatus(t))
      && (RedirectsTo(t[0].answer, WWW_AVAILABILITY_URL) ==> 1 < |t| && t[1].StatusGet?)
  }

  /** The catalog is contacted exactly when the status is callable. */
  predicate Follows(s: Selection, a: Availability, t: seq<Event>) {
    (s.Discovery? || s.PaidChallenge?) ==> (a.Callable() <==> exists i :: 0 <= i < |t| && t[i].CatalogPost?)
  }

  lemma StillObserves(a: Availability, answered: seq<Event>, t: seq<Event>, late: bool)
    requires StatusReads(answered) && answered < t && t[|answered|].CatalogPost?
    ensures Observes(a, answered, late) ==> Observes(a, t, late)
  {
    hide AvailabilityOf, RedirectsTo;
    assert t[0] == answered[0] && (1 < |answered| ==> t[1] == answered[1]);
  }

  lemma LastRead(answered: seq<Event>)
    requires StatusReads(answered)
    ensures 1 <= |answered| && forall i | 0 <= i < |answered| :: answered[i].StatusGet?
  {}

  lemma UnknownIsSound()
    ensures Sound(UNKNOWN) && !UNKNOWN.Callable()
  {}

  lemma SoundTimestamp(a: Availability)
    requires Sound(a)
    ensures a.observedAt.Some? ==> |a.observedAt.value| == 24
  {}

  lemma StatusConforms(answered: seq<Event>, rest: seq<Event>, paid: bool, o: Oracles)
    requires StatusSplit(answered, rest, paid, o)
    ensures StatusFirst(answered + rest, paid, o)
  {
    hide StatusReads, Onward;
    var t := answered + rest;
    assert t[..|answered|] == answered && t[|answered|..] == rest;
    assert 1 <= |answered| by { LastRead(answered); }
  }

  /** When parsing raises, and that an invalid selection always carries a short reason. */
  lemma SelectionMeans(braced: bool, decoding: Decoding, o: Oracles)
    ensures ParseCallerSelection(braced, decoding, o).None? <==> braced && decoding.Unreadable?
    ensures var s := ParseCallerSelection(braced, decoding, o);
            && (s.Some? && s.value.Invalid? ==> ReasonCode(s.value.reason))
            && (s.Some? && s.value.FreeTool? ==> AllJson(s.value.arguments))
  {}
}
