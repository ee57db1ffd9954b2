/** validateReport of report.js: the hand-written checks in their own order, with early returns. */
module Validator {
  import opened Common
  import opened Json
  import opened RuleCatalog
  import opened Report
  import JsonSchema

  /** Threw is the TypeError that escapes validateReport. */
  datatype Outcome = Accepted | Rejected(reason: string) | Threw

  method SameKeys(fields: map<string, Value>, allowed: seq<string>) returns (fault: Option<string>)
    ensures fault.None? <==> ExactKeys(fields, allowed)
  {
    var keys := fields.Keys;
    while keys != {}
      invariant keys <= fields.Keys
      invariant forall k | k in fields && k !in keys :: k in allowed
      decreases keys
    {
      var key :| key in keys;
      if key !in allowed { return Some("unknown field " + key); }
      keys := keys - {key};
    }
    for i := 0 to |allowed|
      invariant forall j | 0 <= j < i :: allowed[j] in fields
    {
      if allowed[i] !in fields { return Some("missing " + allowed[i]); }
    }
    return None;
  }

  predicate PlainText(v: Value) {
    v.Str? && v.s != "" && ControlFree(v.s)
  }

  method Plain(v: Value, what: string) returns (fault: Option<string>)
    ensures fault.None? <==> PlainText(v)
  {
    if !v.Str? || |v.s| == 0 { return Some(what + " must be a non-empty string"); }
    if exists i :: 0 <= i < |v.s| && IsControl(v.s[i]) { return Some(what + " contains a terminal control"); }
    return None;
  }

  method SafeScope(v: Value, what: string) returns (fault: Option<string>)
    ensures fault.None? <==> SafeText(v)
  {
    var text := Plain(v, what);
    if text.Some? { return text; }
    if v.s[0] == '/' { return Some(what + " must not be an absolute path"); }
    return None;
  }

  method CheckScanner(v: Value, version: string) returns (fault: Option<string>)
    requires PlainText(Str(version))
    ensures fault.None? <==> ScannerOk(v, version)
  {
    if !v.Obj? { return Some("scanner must be an object"); }
    var keys := SameKeys(v.fields, SCANNER_KEYS);
    if keys.Some? { return Some("scanner " + keys.value); }
    assert forall i | 0 <= i < |SCANNER_KEYS| :: SCANNER_KEYS[i] in v.fields;
    assert "name" == SCANNER_KEYS[0] && "version" == SCANNER_KEYS[1] && "staticOnly" == SCANNER_KEYS[2] && "executedTarget" == SCANNER_KEYS[3];
    if v.fields["name"] != Str("skillguard") { return Some("scanner.name must be skillguard"); }
    var text := Plain(v.fields["version"], "scanner.version");
    if text.Some? { return text; }
    if v.fields["version"] != Str(version) { return Some("scanner.version does not match this skillguard build"); }
    if v.fields["staticOnly"] != Bool(true) { return Some("scanner.staticOnly must be true"); }
    if v.fields["executedTarget"] != Bool(false) { return Some("scanner.executedTarget must be false"); }
    return None;
  }

  method CheckHead(report: Value, version: string) returns (fault: Option<string>)
    requires PlainText(Str(version))
    ensures fault.None? <==> HeadOk(report, version)
    ensures fault.None? ==> report.Obj? && HasBody(report.fields)
  {
    hide UtcTime, ScannerOk, SafeText, ExactKeys;
    if !report.Obj? { return Some("report must be an object"); }
    var f := report.fields;
    var root := SameKeys(f, REPORT_KEYS);
    if root.Some? { return root; }
    HasReportKeys(f);
    if f["schema"] != Str(SCHEMA_ID) { return Some("schema must be " + SCHEMA_ID); }
    if !UtcTime(f["generatedAt"]) { return Some("generatedAt must be UTC ISO time"); }
    var scanner := CheckScanner(f["scanner"], version);
    if scanner.Some? { return scanner; }
    var target := SafeScope(f["target"], "target");
    if target.Some? { return target; }
    if !f["scanned"].Num? || !IsInteger(f["scanned"].n) || f["scanned"].n < 0.0 {
      return Some("scanned must be a non-negative integer");
    }
    if !f["fileCount"].Num? || !IsInteger(f["fileCount"].n) || f["fileCount"].n < 0.0 {
      return Some("fileCount must be a non-negative integer");
    }
    return None;
  }

  predicate HasBody(f: map<string, Value>) {
    "verdict" in f && "exitCode" in f && "blanketSafetyScore" in f && "findings" in f && "correction" in f
  }

  lemma HasReportKeys(f: map<string, Value>)
    requires ExactKeys(f, REPORT_KEYS)
    ensures "schema" in f && "generatedAt" in f && "scanner" in f && "target" in f && "scanned" in f && "fileCount" in f
    ensures HasBody(f)
  {
    var k := REPORT_KEYS;
    assert k[0] in f && k[1] in f && k[2] in f && k[3] in f && k[4] in f && k[5] in f;
    assert k[6] in f && k[7] in f && k[8] in f && k[9] in f && k[10] in f;
  }

  method CheckFinding(finding: Value, catalog: seq<Rule>) returns (fault: Option<string>)
    requires WellFormed(catalog)
    ensures fault.None? <==> FindingOk(finding, catalog)
  {
    if !finding.Obj? { return Some("finding must be an object"); }
    var f := finding.fields;
    var keys := SameKeys(f, FINDING_KEYS);
    if keys.Some? { return Some("finding " + keys.value); }
    assert FINDING_KEYS[0] in f && FINDING_KEYS[1] in f && FINDING_KEYS[2] in f;
    var ruleText := Plain(f["rule"], "finding.rule");
    if ruleText.Some? { return ruleText; }
    var file := SafeScope(f["file"], "finding.file");
    if file.Some? { return file; }
    var rule := RuleById(catalog, f["rule"].s);
    LookupDecides(catalog, f["rule"].s, f["severity"]);
    if rule.None? { return Some("finding.rule is not a known rule"); }
    if f["severity"] != Str(DANGER) && f["severity"] != Str(WARN) { return Some("finding.severity must be danger or warn"); }
    if f["severity"].s !in rule.value.severities { return Some("finding.severity does not match rule"); }
    return None;
  }

  /** One lookup by id decides what the schema says by twelve branches; catalog ids are printable. */
  lemma LookupDecides(catalog: seq<Rule>, id: string, severity: Value)
    requires WellFormed(catalog)
    ensures var rule := RuleById(catalog, id);
            && (RuleAllows(catalog, Str(id), severity) <==>
                  rule.Some? && (severity == Str(DANGER) || severity == Str(WARN)) && severity.s in rule.value.severities)
            && (rule.Some? ==> PlainText(Str(id)))
  {
    RuleByIdFinds(catalog, id);
    var rule := RuleById(catalog, id);
    if rule.Some? {
      var i :| 0 <= i < |catalog| && catalog[i] == rule.value;
      if severity.Str? && severity.s in rule.value.severities {
        var k :| 0 <= k < |catalog[i].severities| && catalog[i].severities[k] == severity.s;
        assert SeverityName(catalog[i].severities[k]);
      }
    }
  }

  method CheckCorrection(v: Value, verdict: string) returns (fault: Option<string>)
    requires VerdictState(verdict).Some?
    ensures fault.None? <==> CorrectionOk(v, VerdictState(verdict).value)
  {
    hide Summary, Mentions, VerdictState;
    var state := VerdictState(verdict).value;
    if !v.Obj? { return Some("correction must be an object"); }
    var f := v.fields;
    var keys := SameKeys(f, CORRECTION_KEYS);
    if keys.Some? {
      if Mentions(keys.value, "steps") { return Some("correction.steps must match findings"); }
      return Some("correction " + keys.value);
    }
    HasCorrectionKeys(f);
    hide ExactKeys;
    if f["state"] != Str(state) { return Some("correction.state does not match verdict"); }
    var summary := Plain(f["summary"], "correction.summary");
    if summary.Some? { return summary; }
    if f["summary"] != Str(Summary(state)) { return Some("correction.summary is not the canonical summary"); }
    var rescan := CheckRescan(f["rescan"]);
    return rescan;
  }

  method CheckRescan(v: Value) returns (fault: Option<string>)
    ensures fault.None? <==> v == Obj(map["derived" := Bool(true)])
  {
    if !v.Obj? { return Some("correction.rescan must be an object"); }
    if "command" in v.fields || !Is(v.fields, "derived", Bool(true)) {
      return Some("correction.rescan.command is not the canonical rescan");
    }
    var keys := SameKeys(v.fields, ["derived"]);
    if keys.Some? { return Some("correction.rescan.command is not the canonical rescan"); }
    OnlyDerived(v.fields);
    return None;
  }

  lemma HasCorrectionKeys(f: map<string, Value>)
    requires ExactKeys(f, CORRECTION_KEYS)
    ensures "state" in f && "summary" in f && "rescan" in f
  {
    assert CORRECTION_KEYS[0] in f && CORRECTION_KEYS[1] in f && CORRECTION_KEYS[2] in f;
  }

  lemma OnlyDerived(rescan: map<string, Value>)
    requires ExactKeys(rescan, ["derived"]) && Is(rescan, "derived", Bool(true))
    ensures rescan == map["derived" := Bool(true)]
  {}

  predicate Mentions(text: string, part: string) {
    exists i :: 0 <= i <= |text| && StartsAt(text, part, i)
  }

  predicate StartsAt(text: string, part: string, i: nat)
    requires i <= |text|
  {
    part <= text[i..]
  }

  /** action: the rule whose correction column correctionFor reads. */
  datatype Step = Step(file: Value, rule: Value, action: Option<Rule>)

  function DerivedSteps(findings: seq<Value>, catalog: seq<Rule>): seq<Step>
    requires forall i | 0 <= i < |findings| :: FindingOk(findings[i], catalog)
  {
    seq(|findings|, i requires 0 <= i < |findings| =>
      assert FindingOk(findings[i], catalog);
      var f := findings[i].fields;
      Step(f["file"], f["rule"], RuleById(catalog, f["rule"].s)))
  }

  /** The closing comparison of the derived steps with the findings they were derived from. */
  method CheckSteps(findings: seq<Value>, catalog: seq<Rule>) returns (ok: bool, fault: string)
    requires forall i | 0 <= i < |findings| :: FindingOk(findings[i], catalog)
    ensures ok
  {
    var steps := DerivedSteps(findings, catalog);
    if |steps| != |findings| { return false, "correction.steps must match findings"; }
    for i := 0 to |steps| {
      assert FindingOk(findings[i], catalog);
      var f := findings[i].fields;
      if steps[i].file != f["file"] || steps[i].rule != f["rule"] { return false, "correction step does not match finding"; }
      if steps[i].action != RuleById(catalog, f["rule"].s) { return false, "correction step action must match finding correction"; }
    }
    return true, "";
  }

  /** The key under which the verdict tables are consulted. */
  function VerdictKey(report: Value, numText: real -> string): Option<string> {
    if report.Obj? && "verdict" in report.fields then PropertyKey(report.fields["verdict"], numText) else Some("")
  }

  /** Acceptance by the hand-written checks is acceptance by the generated schema. A verdict whose
      property key cannot be computed is the one way out by exception. */
  method ValidateReport(report: Value, version: string, catalog: seq<Rule>, numText: real -> string) returns (r: Outcome)
    requires WellFormed(catalog) && PlainText(Str(version))
    ensures r.Accepted? <==> JsonSchema.Valid(BuildReportSchema(version, catalog), report)
    ensures r.Accepted? <==> ReportOk(report, version, catalog)
    ensures r.Threw? <==> HeadOk(report, version) && VerdictKey(report, numText).None?
  {
    hide JsonSchema.Valid, BuildReportSchema, HeadOk, CorrectionOk, FindingOk;
    SchemaMeans(version, catalog, report);
    var head := CheckHead(report, version);
    if head.Some? { return Rejected(head.value); }
    var f := report.fields;
    var key := VerdictKey(report, numText);
    if key.None? { return Threw; }
    if VerdictExit(key.value).None? { return Rejected("verdict must be clean, suspicious, or dangerous"); }
    if f["exitCode"] != Num(VerdictExit(key.value).value) { return Rejected("exitCode does not match verdict"); }
    if f["blanketSafetyScore"] != Null { return Rejected("blanketSafetyScore must be null"); }
    if !f["findings"].Arr? { return Rejected("findings must be an array"); }
    var items := f["findings"].items;
    for i := 0 to |items|
      invariant forall j | 0 <= j < i :: FindingOk(items[j], catalog)
    {
      var finding := CheckFinding(items[i], catalog);
      if finding.Some? { return Rejected(finding.value); }
    }
    var expected := ExpectedVerdict(items);
    if f["verdict"] != Str(expected) { return Rejected("verdict does not match findings"); }
    var correction := CheckCorrection(f["correction"], expected);
    if correction.Some? { return Rejected(correction.value); }
    var ok, fault := CheckSteps(items, catalog);
    if !ok { return Rejected(fault); }
    return Accepted;
  }

  /** Some object with its own "toString" is the value itself or an element, at any depth, of the array. */
  predicate Uncoercible(v: Value) {
    match v
    case Obj(fields) => "toString" in fields
    case Arr(items) => exists i :: 0 <= i < |items| && Uncoercible(items[i])
    case _ => false
  }

  /** Exactly when the verdict lookup raises. */
  lemma {:induction false} KeyFailsExactly(v: Value, numText: real -> string)
    ensures PropertyKey(v, numText).None? <==> Uncoercible(v)
  {
    if v.Arr? { JoinFailsExactly(v.items, numText); }
  }

  lemma {:induction false} JoinFailsExactly(items: seq<Value>, numText: real -> string)
    ensures Join(items, numText).None? <==> exists i :: 0 <= i < |items| && Uncoercible(items[i])
  {
    if items != [] {
      KeyFailsExactly(items[0], numText);
      JoinFailsExactly(items[1..], numText);
      assert forall i | 1 <= i < |items| :: items[i] == items[1..][i - 1];
      assert forall i | 0 <= i < |items[1..]| :: items[1..][i] == items[i + 1];
    }
  }

  /** The lookup alone does not require a string: ["clean"] finds the entry of "clean", and an object
      with its own "toString" makes the lookup raise. */
  lemma LookupIsNotATypeCheck(numText: real -> string)
    ensures PropertyKey(Arr([Str(CLEAN)]), numText) == Some(CLEAN)
    ensures PropertyKey(Obj(map["toString" := Null]), numText).None?
  {
    assert Join([Str(CLEAN)], numText) == PropertyKey(Str(CLEAN), numText);
  }
}
