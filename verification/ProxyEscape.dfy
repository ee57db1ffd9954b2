/** A catalog answer that makes execute of catalog_proxy.py raise: its one action names an https URL for which the HTTP
    client can build no request. */
module ProxyEscape {
  import opened Common
  import opened Encoder
  import opened CatalogProxy
  import opened ProxyReply
  import opened ProxyOutcome

  /** A catalog with one action, which names one URL twice. */
  function OneAction(url: string): seq<Entry> {
    [Entry("route", Str(PAYMENT_INTEGRITY_ROUTE)), Entry("url", Str(url)), Entry("request", Dict([Entry("exampleUrl", Str(url))]))]
  }

  function OneActionCatalog(url: string): seq<Entry> {
    [Entry("actions", Arr([Dict(OneAction(url))]))]
  }

  function CatalogMessage(catalog: seq<Entry>): Value {
    Dict([Entry("message", Dict([Entry("role", Str("ROLE_AGENT")), Entry("parts", Arr([Dict([Entry("data", Dict(catalog))])]))]))])
  }

  lemma {:induction false} ProjectLight(entries: seq<Entry>, keys: seq<string>, bound: nat)
    requires forall i | 0 <= i < |entries| :: Weight(entries[i].value) <= bound && AsciiNumbers(entries[i].value)
    requires forall k | 0 <= k < |keys| :: |keys[k]| <= 16
    ensures |Project(entries, keys)| <= |keys|
    ensures forall i | 0 <= i < |Project(entries, keys)| ::
              EntryWeight(Project(entries, keys)[i]) <= 196 + bound && AsciiNumbers(Project(entries, keys)[i].value)
  {
    hide Weight, AsciiNumbers;
    if keys != [] {
      ProjectLight(entries, keys[1..], bound);
      GetIsMember(entries, keys[0]);
    }
  }

  lemma {:induction false} GetIsMember(entries: seq<Entry>, key: string)
    ensures Get(entries, key).Some? ==> exists i :: 0 <= i < |entries| && entries[i].value == Get(entries, key).value
  {
    if entries != [] {
      GetIsMember(entries[1..], key);
      assert forall i | 0 <= i < |entries[1..]| :: entries[1..][i] == entries[i + 1];
    }
  }

  lemma OneActionLight(url: string)
    requires |url| <= 100
    ensures |OneAction(url)| == 3
    ensures forall i | 0 <= i < 3 :: Weight(OneAction(url)[i].value) <= 1500 && AsciiNumbers(OneAction(url)[i].value)
    ensures EntriesWeight(OneActionCatalog(url)) <= 6000 && AsciiNumbers(Dict(OneActionCatalog(url)))
  {
    var request := [Entry("exampleUrl", Str(url))];
    OneEntry(request[0]);
    assert Weight(Dict(request)) == 2 + EntryWeight(request[0]);
    UniformWeight(OneAction(url), 1700);
    var actions := [Dict(OneAction(url))];
    assert ItemsWeight(actions) == Weight(actions[0]) + 1;
    OneEntry(OneActionCatalog(url)[0]);
  }

  lemma BoundaryShort()
    ensures |Boundary()| <= 160
  {}

  lemma DeclaredSourceLight()
    ensures EntryWeight(DeclaredSource()) <= 8000 && AsciiNumbers(DeclaredSource().value)
  {
    hide Boundary;
    BoundaryShort();
    UniformWeight(DeclaredSource().value.entries, 2100);
  }

  lemma ActionKeysShort()
    ensures |ACTION_KEYS| == 9 && forall k | 0 <= k < 9 :: |ACTION_KEYS[k]| <= 16
  {}

  lemma SmallEnough(entries: seq<Entry>, max: nat)
    requires EntriesWeight(entries) + 2 <= max && AsciiNumbers(Dict(entries))
    ensures ByteLength(Encode(Dict(entries))) <= max
  {
    EncodeIsAscii(Dict(entries));
    EncodeWithinWeight(Dict(entries));
    AsciiBytes(Encode(Dict(entries)));
  }

  lemma OneActionFits(url: string)
    requires |url| <= 100
    ensures ByteLength(Encode(Dict(ActionEntries(OneAction(url), url)))) <= MAX_AGENT_TEXT_BYTES
  {
    hide Weight, AsciiNumbers, DeclaredSource, OneAction, EntriesWeight, Encode, ByteLength;
    OneActionLight(url);
    DeclaredSourceLight();
    ActionKeysShort();
    var projected := Project(OneAction(url), ACTION_KEYS);
    ProjectLight(OneAction(url), ACTION_KEYS, 1500);
    ExampleEntryLight(url);
    var rest := [Entry("exampleUrl", Str(url)), DeclaredSource()];
    UniformWeight(projected, 1696);
    UniformWeight(rest, 8000);
    WeightConcat(projected, rest);
    PlainDict(projected + rest);
    SmallEnough(projected + rest, MAX_AGENT_TEXT_BYTES);
  }

  lemma ExampleEntryLight(url: string)
    requires |url| <= 100
    ensures EntryWeight(Entry("exampleUrl", Str(url))) <= 8000 && AsciiNumbers(Entry("exampleUrl", Str(url)).value)
  {}

  lemma PlainDict(entries: seq<Entry>)
    requires Plain(entries)
    ensures AsciiNumbers(Dict(entries))
  {}

  lemma OneActionFields(url: string)
    ensures Get(OneAction(url), "route") == Some(Str(PAYMENT_INTEGRITY_ROUTE))
    ensures Get(OneAction(url), "url") == Some(Str(url))
    ensures Get(OneAction(url), "request") == Some(Dict([Entry("exampleUrl", Str(url))]))
  {
    assert |"route"| == 5 && |"url"| == 3 && |"request"| == 7;
    var action := OneAction(url);
    GetAt(action, "route", 0);
    GetAt(action, "url", 1);
    GetAt(action, "request", 2);
  }

  lemma OneActionSelected(url: string)
    requires "https://" <= url && |url| <= 100
    ensures SelectAction([Dict(OneAction(url))]) == Ok(Action(url, Some(Str(url)), ActionEntries(OneAction(url), url)))
  {
    hide ActionEntries, Encode, ByteLength, OneAction;
    OneActionFields(url);
    OneActionFits(url);
    var request := Dict([Entry("exampleUrl", Str(url))]);
    assert Field(request, "exampleUrl") == Some(Str(url));
  }

  lemma OneActionExtracted(url: string)
    requires |url| <= 100
    ensures ExtractCatalog(CatalogMessage(OneActionCatalog(url))) == Ok(OneActionCatalog(url))
  {
    hide Encode, ByteLength, OneActionCatalog;
    OneActionLight(url);
    SmallEnough(OneActionCatalog(url), MAX_UPSTREAM_BYTES);
    OneActionListed(url);
    MessageFields(OneActionCatalog(url));
  }

  lemma OneActionListed(url: string)
    ensures Get(OneActionCatalog(url), "actions") == Some(Arr([Dict(OneAction(url))]))
  {}

  lemma MessageFields(catalog: seq<Entry>)
    ensures var message := Field(CatalogMessage(catalog), "message");
            && message.Some? && Field(message.value, "role") == Some(Str("ROLE_AGENT"))
            && Field(message.value, "parts") == Some(Arr([Dict([Entry("data", Dict(catalog))])]))
    ensures Field(Dict([Entry("data", Dict(catalog))]), "data") == Some(Dict(catalog))
  {
    assert |"role"| == 4 && |"parts"| == 5;
    var message := [Entry("role", Str("ROLE_AGENT")), Entry("parts", Arr([Dict([Entry("data", Dict(catalog))])]))];
    GetAt(message, "role", 0);
    GetAt(message, "parts", 1);
    assert Field(CatalogMessage(catalog), "message") == Some(Dict(message));
  }

  lemma OneActionOf(url: string)
    requires "https://" <= url && |url| <= 100
    ensures ActionOf(CatalogMessage(OneActionCatalog(url))) == Ok(Action(url, Some(Str(url)), ActionEntries(OneAction(url), url)))
  {
    hide ExtractCatalog, SelectAction, ActionEntries, OneActionCatalog, CatalogMessage, OneAction;
    OneActionExtracted(url);
    OneActionListed(url);
    OneActionSelected(url);
  }

  /** The input: one short https URL, with a host, for which no request can be built (a control character in its path). */
  lemma OneActionEscapes(url: string, o: Oracles, r: Response, before: seq<Event>, ignored: seq<string>)
    requires "https://" <= url && |url| <= 100 && o.host(url).Ok? && !o.requestable(url)
    requires Readable(r, MAX_UPSTREAM_BYTES) && r.status == 200 && r.decoding == Parsed(CatalogMessage(OneActionCatalog(url)))
    ensures Escapes(PaidChallenge(ignored), before + [CatalogPost(Ok(r))], o)
  {
    hide ActionOf, ActionEntries, OneActionCatalog, CatalogMessage, OneAction, BodyFault;
    OneActionOf(url);
    var t := before + [CatalogPost(Ok(r))];
    assert t[|t| - 1] == CatalogPost(Ok(r));
    assert CatalogOutcome(Ok(r)) == ActionOf(CatalogMessage(OneActionCatalog(url)));
  }
}
