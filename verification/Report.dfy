/** The report contract of report.js: the generated schema, and the predicate on JSON values that it means. */
module Report {
  import opened Common
  import opened Json
  import opened JsonSchema
  import opened RuleCatalog
  import Regex

  const SCHEMA_ID := "skillguard.report.v1"
  const REPORT_KEYS: seq<string> := ["schema", "generatedAt", "scanner", "target", "scanned", "fileCount", "verdict",
                                     "exitCode", "blanketSafetyScore", "findings", "correction"]
  const SCANNER_KEYS: seq<string> := ["name", "version", "staticOnly", "executedTarget"]
  const FINDING_KEYS: seq<string> := ["file", "rule", "severity"]
  const CORRECTION_KEYS: seq<string> := ["state", "summary", "rescan"]

  const CLEAN := "clean"
  const SUSPICIOUS := "suspicious"
  const DANGEROUS := "dangerous"

  function VerdictExit(verdict: string): Option<real> {
    if verdict == CLEAN then Some(0.0)
    else if verdict == SUSPICIOUS then Some(2.0)
    else if verdict == DANGEROUS then Some(3.0)
    else None
  }

  function VerdictState(verdict: string): Option<string> {
    if verdict == CLEAN then Some("none")
    else if verdict == SUSPICIOUS then Some("review")
    else if verdict == DANGEROUS then Some("required")
    else None
  }

  /** Printable text, written in pieces so that each is easy to inspect. */
  type Printable = s: string | s != "" && ControlFree(s) witness "-"

  const THIS_REPORT: Printable := " This report is not"
  const A_SAFETY_SCORE: Printable := " a safety score."
  const NO_SCORE: Printable := THIS_REPORT + A_SAFETY_SCORE
  const RESCAN_TARGET: Printable := " then re-scan this target."
  const NO_FLAGGED_FILES: Printable := "No flagged files."
  const RESCAN_LATER: Printable := " Re-scan after the tree changes."
  const REVIEW_EACH: Printable := "Review each warning and"
  const EDIT_THE_FILE: Printable := " edit the file"
  const IF_UNINTENDED: Printable := " if the pattern is unintended,"
  const EDIT_FILES: Printable := "Edit each flagged file,"
  const DO_NOT_INSTALL: Printable := " Do not install while the"
  const WHILE_DANGEROUS: Printable := " verdict is dangerous."

  function Summary(state: string): (text: string)
    ensures text != "" && ControlFree(text)
  {
    if state == "none" then NO_FLAGGED_FILES + RESCAN_LATER + NO_SCORE
    else if state == "review" then REVIEW_EACH + EDIT_THE_FILE + IF_UNINTENDED + RESCAN_TARGET + NO_SCORE
    else EDIT_FILES + RESCAN_TARGET + DO_NOT_INSTALL + WHILE_DANGEROUS + NO_SCORE
  }

  // ---- the two patterns -------------------------------------------------------------------

  const FRACTION: Regex.Re := Regex.Opt(Regex.Cat(Regex.Cls(Regex.Exactly('.')), Regex.Plus(Regex.Cls(Regex.Digit))))

  function GeneratedAtPattern(): Regex.Re {
    Regex.Chain(Regex.Template("dddd-dd-ddTdd:dd:dd"), Regex.Cat(FRACTION, Regex.Cls(Regex.Exactly('Z'))))
  }

  const SAFE_TEXT: Regex.Re :=
    Regex.Cat(Regex.NotAhead(Regex.Cls(Regex.Exactly('/'))), Regex.Plus(Regex.Cls(Regex.NotControl)))

  // ---- the generated schema ---------------------------------------------------------------

  function OneOf(names: seq<string>): seq<Value> {
    seq(|names|, i requires 0 <= i < |names| => Str(names[i]))
  }

  function SafeTextSchema(): Schema {
    Schema(typ := Some(TString), minLength := 1, pattern := Some(SAFE_TEXT))
  }

  function ConstSchema(v: Value): Schema {
    Schema(constant := Some(v))
  }

  function CountSchema(): Schema {
    Schema(typ := Some(TInteger), minimum := Some(0.0))
  }

  function SeveritySchema(rule: Rule): Schema {
    if |rule.severities| == 1 then ConstSchema(Str(rule.severities[0]))
    else Schema(enum := Some(OneOf(rule.severities)))
  }

  function RuleBranch(rule: Rule): Schema {
    Schema(branch := Some(Branch(
      Schema(properties := [Property("rule", ConstSchema(Str(rule.id)))], required := ["rule"]),
      Schema(properties := [Property("severity", SeveritySchema(rule))]))))
  }

  function Ids(catalog: seq<Rule>): seq<string> {
    seq(|catalog|, i requires 0 <= i < |catalog| => catalog[i].id)
  }

  function FindingSchema(catalog: seq<Rule>): Schema {
    Schema(
      typ := Some(TObject), additional := false, required := FINDING_KEYS,
      properties := [
        Property("file", SafeTextSchema()),
        Property("rule", Schema(enum := Some(OneOf(Ids(catalog))))),
        Property("severity", Schema(enum := Some(OneOf([DANGER, WARN]))))],
      allOf := seq(|catalog|, i requires 0 <= i < |catalog| => RuleBranch(catalog[i])))
  }

  function SeverityFinding(severity: string): Schema {
    Schema(typ := Some(TObject), properties := [Property("severity", ConstSchema(Str(severity)))], required := ["severity"])
  }

  function ContainsSeverity(severity: string): Schema {
    Schema(contains := Some(SeverityFinding(severity)))
  }

  function VerdictBranch(verdict: string, findings: Schema): Schema
    requires VerdictExit(verdict).Some?
  {
    BranchFor(verdict, VerdictExit(verdict).value, VerdictState(verdict).value, findings)
  }

  function BranchFor(verdict: string, exit: real, state: string, findings: Schema): Schema {
    Schema(branch := Some(Branch(VerdictIs(verdict), Consequence(exit, state, findings))))
  }

  function VerdictIs(verdict: string): Schema {
    Schema(properties := [Property("verdict", ConstSchema(Str(verdict)))], required := ["verdict"])
  }

  function Consequence(exit: real, state: string, findings: Schema): Schema {
    Schema(properties := [
      Property("exitCode", ConstSchema(Num(exit))),
      Property("findings", findings),
      Property("correction", TextsSchema(state))])
  }

  function TextsSchema(state: string): Schema {
    Schema(properties := [Property("state", ConstSchema(Str(state))), Property("summary", ConstSchema(Str(Summary(state))))],
           required := ["state", "summary"])
  }

  /** if the findings match, the verdict is this one */
  function FindingsBranch(findings: Schema, verdict: string): Schema {
    Schema(branch := Some(Branch(
      Schema(properties := [Property("findings", findings)], required := ["findings"]),
      Schema(properties := [Property("verdict", ConstSchema(Str(verdict)))]))))
  }

  function VerdictFindings(verdict: string): Schema {
    if verdict == CLEAN then Schema(maxItems := Some(0))
    else if verdict == SUSPICIOUS then
      Schema(minItems := 1, contains := Some(SeverityFinding(WARN)), negated := Some(ContainsSeverity(DANGER)))
    else Schema(minItems := 1, contains := Some(SeverityFinding(DANGER)))
  }

  function VerdictBranches(): seq<Schema> {
    [ VerdictBranch(CLEAN, VerdictFindings(CLEAN)),
      VerdictBranch(SUSPICIOUS, VerdictFindings(SUSPICIOUS)),
      VerdictBranch(DANGEROUS, VerdictFindings(DANGEROUS)) ]
  }

  function FindingsBranches(): seq<Schema> {
    [ FindingsBranch(ContainsSeverity(DANGER), DANGEROUS),
      FindingsBranch(Schema(contains := Some(SeverityFinding(WARN)), negated := Some(ContainsSeverity(DANGER))), SUSPICIOUS),
      FindingsBranch(Schema(maxItems := Some(0)), CLEAN) ]
  }

  function ScannerSchema(version: string): Schema {
    Schema(
      typ := Some(TObject), additional := false, required := SCANNER_KEYS,
      properties := [
        Property("name", ConstSchema(Str("skillguard"))),
        Property("version", ConstSchema(Str(version))),
        Property("staticOnly", ConstSchema(Bool(true))),
        Property("executedTarget", ConstSchema(Bool(false)))])
  }

  function RescanSchema(): Schema {
    Schema(typ := Some(TObject), additional := false, required := ["derived"],
           properties := [Property("derived", ConstSchema(Bool(true)))])
  }

  function CorrectionSchema(): Schema {
    Schema(
      typ := Some(TObject), additional := false, required := CORRECTION_KEYS,
      properties := [
        Property("state", Schema(enum := Some(OneOf(["none", "review", "required"])))),
        Property("summary", Schema(typ := Some(TString), minLength := 1)),
        Property("rescan", RescanSchema())])
  }

  function IdProperty(): Property { Property("schema", ConstSchema(Str(SCHEMA_ID))) }
  function TimeProperty(): Property {
    Property("generatedAt", Schema(typ := Some(TString), minLength := 20, pattern := Some(GeneratedAtPattern())))
  }
  function ScannerProperty(version: string): Property { Property("scanner", ScannerSchema(version)) }
  function TargetProperty(): Property { Property("target", SafeTextSchema()) }
  function ScannedProperty(): Property { Property("scanned", CountSchema()) }
  function FileCountProperty(): Property { Property("fileCount", CountSchema()) }
  function VerdictProperty(): Property {
    Property("verdict", Schema(enum := Some(OneOf([CLEAN, SUSPICIOUS, DANGEROUS]))))
  }
  function ExitProperty(): Property { Property("exitCode", Schema(enum := Some([Num(0.0), Num(2.0), Num(3.0)]))) }
  function ScoreProperty(): Property { Property("blanketSafetyScore", Schema(typ := Some(TNull))) }
  function FindingsProperty(catalog: seq<Rule>): Property {
    Property("findings", Schema(typ := Some(TArray), items := Some(FindingSchema(catalog))))
  }
  function CorrectionProperty(): Property { Property("correction", CorrectionSchema()) }

  function RootProperties(version: string, catalog: seq<Rule>): seq<Property> {
    [ IdProperty(), TimeProperty(), ScannerProperty(version), TargetProperty(), ScannedProperty(), FileCountProperty(),
      VerdictProperty(), ExitProperty(), ScoreProperty(), FindingsProperty(catalog), CorrectionProperty() ]
  }

  function RootSchema(version: string, catalog: seq<Rule>, allOf: seq<Schema>): Schema {
    Schema(typ := Some(TObject), additional := false, required := REPORT_KEYS,
           properties := RootProperties(version, catalog), allOf := allOf)
  }

  function BuildReportSchema(version: string, catalog: seq<Rule>): Schema {
    RootSchema(version, catalog, VerdictBranches() + FindingsBranches())
  }

  // ---- what a report is -------------------------------------------------------------------

  predicate ExactKeys(fields: map<string, Value>, allowed: seq<string>) {
    && (forall k | k in fields :: k in allowed)
    && (forall i | 0 <= i < |allowed| :: allowed[i] in fields)
  }

  predicate SafeText(v: Value) {
    v.Str? && v.s != "" && ControlFree(v.s) && v.s[0] != '/'
  }

  predicate Count(v: Value) {
    v.Num? && IsInteger(v.n) && 0.0 <= v.n
  }

  predicate UtcTime(v: Value) {
    v.Str? && Regex.Accepts(GeneratedAtPattern(), v.s)
  }

  predicate Is(fields: map<string, Value>, key: string, v: Value) {
    key in fields && fields[key] == v
  }

  predicate ScannerOk(v: Value, version: string) {
    && v.Obj? && ExactKeys(v.fields, SCANNER_KEYS)
    && Is(v.fields, "name", Str("skillguard")) && Is(v.fields, "version", Str(version))
    && Is(v.fields, "staticOnly", Bool(true)) && Is(v.fields, "executedTarget", Bool(false))
  }

  /** Some rule of the catalog has this id and may report this severity. */
  predicate RuleAllows(catalog: seq<Rule>, rule: Value, severity: Value) {
    && rule.Str? && severity.Str?
    && exists i :: 0 <= i < |catalog| && catalog[i].id == rule.s && severity.s in catalog[i].severities
  }

  predicate FindingOk(v: Value, catalog: seq<Rule>) {
    && v.Obj? && ExactKeys(v.fields, FINDING_KEYS)
    && "file" in v.fields && "rule" in v.fields && "severity" in v.fields
    && SafeText(v.fields["file"])
    && RuleAllows(catalog, v.fields["rule"], v.fields["severity"])
  }

  predicate FindingsOk(v: Value, catalog: seq<Rule>) {
    v.Arr? && forall i | 0 <= i < |v.items| :: FindingOk(v.items[i], catalog)
  }

  predicate HasSeverity(v: Value, severity: string) {
    v.Obj? && Is(v.fields, "severity", Str(severity))
  }

  predicate SomeSeverity(items: seq<Value>, severity: string) {
    exists i :: 0 <= i < |items| && HasSeverity(items[i], severity)
  }

  function ExpectedVerdict(items: seq<Value>): (verdict: string)
    ensures VerdictExit(verdict).Some? && VerdictState(verdict).Some?
  {
    if SomeSeverity(items, DANGER) then DANGEROUS else if SomeSeverity(items, WARN) then SUSPICIOUS else CLEAN
  }

  predicate CorrectionOk(v: Value, state: string) {
    && v.Obj? && ExactKeys(v.fields, CORRECTION_KEYS)
    && Is(v.fields, "state", Str(state)) && Is(v.fields, "summary", Str(Summary(state)))
    && Is(v.fields, "rescan", Obj(map["derived" := Bool(true)]))
  }

  /** The part of a report that is decided before its verdict is looked at. */
  predicate HeadOk(v: Value, version: string) {
    && v.Obj? && ExactKeys(v.fields, REPORT_KEYS)
    && Is(v.fields, "schema", Str(SCHEMA_ID))
    && "generatedAt" in v.fields && UtcTime(v.fields["generatedAt"])
    && "scanner" in v.fields && ScannerOk(v.fields["scanner"], version)
    && "target" in v.fields && SafeText(v.fields["target"])
    && "scanned" in v.fields && Count(v.fields["scanned"])
    && "fileCount" in v.fields && Count(v.fields["fileCount"])
  }

  predicate BodyOk(fields: map<string, Value>, catalog: seq<Rule>) {
    && Is(fields, "blanketSafetyScore", Null)
    && "findings" in fields && FindingsOk(fields["findings"], catalog)
    && var verdict := ExpectedVerdict(fields["findings"].items);
    && Is(fields, "verdict", Str(verdict))
    && Is(fields, "exitCode", Num(VerdictExit(verdict).value))
    && "correction" in fields && CorrectionOk(fields["correction"], VerdictState(verdict).value)
  }

  predicate ReportOk(v: Value, version: string, catalog: seq<Rule>) {
    HeadOk(v, version) && BodyOk(v.fields, catalog)
  }

  // ---- the schema means ReportOk ----------------------------------------------------------

  lemma SafeTextPattern(s: string)
    ensures Regex.Accepts(SAFE_TEXT, s) <==> SafeText(Str(s))
  {
    var slash, text := Regex.NotAhead(Regex.Cls(Regex.Exactly('/'))), Regex.Plus(Regex.Cls(Regex.NotControl));
    Regex.PlusOfClass(Regex.NotControl, s, 0, |s|);
    if SafeText(Str(s)) {
      assert Regex.Matches(slash, s, 0, 0);
    }
    if Regex.Accepts(SAFE_TEXT, s) {
      var k := Regex.SplitCat(slash, text, s, 0, |s|);
      assert !Regex.Matches(Regex.Cls(Regex.Exactly('/')), s, 0, 1);
    }
  }

  /** The schema also asks generatedAt for 20 characters; the pattern already implies them. */
  lemma UtcTimeIsLong(s: string)
    requires Regex.Accepts(GeneratedAtPattern(), s)
    ensures 20 <= |s|
  {
    var classes := Regex.Template("dddd-dd-ddTdd:dd:dd");
    Regex.ChainMatches(classes, Regex.Cat(FRACTION, Regex.Cls(Regex.Exactly('Z'))), s, 0, |s|);
  }

  predicate DigitAt(s: string, i: nat) {
    i < |s| && '0' <= s[i] <= '9'
  }

  /** Character by character: YYYY-MM-DDThh:mm:ss, a fraction or none, Z. */
  predicate UtcText(s: string) {
    && 20 <= |s|
    && DigitAt(s, 0) && DigitAt(s, 1) && DigitAt(s, 2) && DigitAt(s, 3) && s[4] == '-' && DigitAt(s, 5) && DigitAt(s, 6)
    && s[7] == '-' && DigitAt(s, 8) && DigitAt(s, 9) && s[10] == 'T' && DigitAt(s, 11) && DigitAt(s, 12) && s[13] == ':'
    && DigitAt(s, 14) && DigitAt(s, 15) && s[16] == ':' && DigitAt(s, 17) && DigitAt(s, 18)
    && s[|s| - 1] == 'Z'
    && (|s| == 20 || (22 <= |s| && s[19] == '.' && forall i | 20 <= i < |s| - 1 :: DigitAt(s, i)))
  }

  lemma FractionMeans(s: string, i: nat)
    requires i <= |s|
    ensures Regex.Matches(Regex.Cat(FRACTION, Regex.Cls(Regex.Exactly('Z'))), s, i, |s|) <==>
            i < |s| && s[|s| - 1] == 'Z'
            && (i + 1 == |s| || (i + 3 <= |s| && s[i] == '.' && forall k: nat | i + 1 <= k < |s| - 1 :: DigitAt(s, k)))
  {
    var dot, z, digits := Regex.Cls(Regex.Exactly('.')), Regex.Cls(Regex.Exactly('Z')), Regex.Plus(Regex.Cls(Regex.Digit));
    if Regex.Matches(Regex.Cat(FRACTION, z), s, i, |s|) {
      var k := Regex.SplitCat(FRACTION, z, s, i, |s|);
      if i != k {
        assert Regex.Matches(Regex.Cat(dot, digits), s, i, k);
        var d := Regex.SplitCat(dot, digits, s, i, k);
        Regex.PlusOfClass(Regex.Digit, s, d, k);
      }
    }
    if i < |s| && s[|s| - 1] == 'Z' {
      var k := |s| - 1;
      assert Regex.Matches(z, s, k, |s|);
      if i == k {
        assert Regex.Matches(FRACTION, s, i, i);
      } else if i + 3 <= |s| && s[i] == '.' && forall t: nat | i + 1 <= t < k :: DigitAt(s, t) {
        Regex.PlusOfClass(Regex.Digit, s, i + 1, k);
        forall t | i + 1 <= t < k
          ensures Regex.CharClass.Digit.Has(s[t])
        {
          assert DigitAt(s, t);
        }
        assert Regex.Matches(dot, s, i, i + 1);
        assert Regex.Matches(Regex.Cat(dot, digits), s, i, k);
        assert Regex.Matches(FRACTION, s, i, k);
      }
    }
  }

  /** The time pattern accepts exactly these texts. */
  lemma UtcTimePattern(s: string)
    ensures UtcTime(Str(s)) <==> UtcText(s)
  {
    hide Regex.Matches, Regex.Template;
    var classes := Regex.Template("dddd-dd-ddTdd:dd:dd");
    assert |classes| == 19 by { TemplateLength(); }
    Regex.ChainMatches(classes, Regex.Cat(FRACTION, Regex.Cls(Regex.Exactly('Z'))), s, 0, |s|);
    if 19 <= |s| {
      FractionMeans(s, 19);
      TemplateMeans(s);
    }
  }

  lemma TemplateLength()
    ensures |Regex.Template("dddd-dd-ddTdd:dd:dd")| == 19
  {}

  lemma TemplateMeans(s: string)
    requires 19 <= |s|
    ensures var classes := Regex.Template("dddd-dd-ddTdd:dd:dd");
            (forall t | 0 <= t < |classes| :: classes[t].Has(s[0 + t])) <==>
            && DigitAt(s, 0) && DigitAt(s, 1) && DigitAt(s, 2) && DigitAt(s, 3) && s[4] == '-' && DigitAt(s, 5) && DigitAt(s, 6)
            && s[7] == '-' && DigitAt(s, 8) && DigitAt(s, 9) && s[10] == 'T' && DigitAt(s, 11) && DigitAt(s, 12) && s[13] == ':'
            && DigitAt(s, 14) && DigitAt(s, 15) && s[16] == ':' && DigitAt(s, 17) && DigitAt(s, 18)
  {
    var c := Regex.Template("dddd-dd-ddTdd:dd:dd");
    assert |c| == 19;
    if forall t | 0 <= t < |c| :: c[t].Has(s[0 + t]) {
      assert c[0].Has(s[0 + 0]) && c[1].Has(s[0 + 1]) && c[2].Has(s[0 + 2]) && c[3].Has(s[0 + 3]) && c[4].Has(s[0 + 4]);
      assert c[5].Has(s[0 + 5]) && c[6].Has(s[0 + 6]) && c[7].Has(s[0 + 7]) && c[8].Has(s[0 + 8]) && c[9].Has(s[0 + 9]);
      assert c[10].Has(s[0 + 10]) && c[11].Has(s[0 + 11]) && c[12].Has(s[0 + 12]) && c[13].Has(s[0 + 13]) && c[14].Has(s[0 + 14]);
      assert c[15].Has(s[0 + 15]) && c[16].Has(s[0 + 16]) && c[17].Has(s[0 + 17]) && c[18].Has(s[0 + 18]);
    }
  }

  lemma SafeTextMeans(v: Value)
    ensures Valid(SafeTextSchema(), v) <==> SafeText(v)
  {
    if v.Str? { SafeTextPattern(v.s); }
  }

  lemma UtcTimeMeans(v: Value)
    ensures Valid(Schema(typ := Some(TString), minLength := 20, pattern := Some(GeneratedAtPattern())), v) <==> UtcTime(v)
  {
    if UtcTime(v) { UtcTimeIsLong(v.s); }
  }

  lemma OneOfMeans(names: seq<string>, v: Value)
    ensures Valid(Schema(enum := Some(OneOf(names))), v) <==> v.Str? && v.s in names
  {
    if v.Str? && v.s in names {
      var i :| 0 <= i < |names| && names[i] == v.s;
      assert OneOf(names)[i] == v;
    }
  }

  lemma CountMeans(v: Value)
    ensures Valid(CountSchema(), v) <==> Count(v)
  {}

  /** An object schema that lists every property as required and allows no other. */
  predicate ExactObjectSchema(s: Schema) {
    && s.typ == Some(TObject) && !s.additional && Names(s.properties) == s.required
    && s.constant.None? && s.enum.None? && s.negated.None? && s.branch.None?
  }

  /** A property that is present and valid. */
  ghost predicate Holds(p: Property, fields: map<string, Value>) {
    p.name in fields && Valid(p.schema, fields[p.name])
  }

  lemma ExactObjectMeans(s: Schema, v: Value)
    requires ExactObjectSchema(s)
    ensures Valid(s, v) <==>
            && v.Obj? && ExactKeys(v.fields, s.required)
            && (forall i | 0 <= i < |s.properties| :: Holds(s.properties[i], v.fields))
            && forall i | 0 <= i < |s.allOf| :: Valid(s.allOf[i], v)
  {
    assert forall i | 0 <= i < |s.properties| :: s.properties[i].name == s.required[i];
  }

  lemma BranchMeans(condition: Schema, consequence: Schema, v: Value)
    ensures Valid(Schema(branch := Some(Branch(condition, consequence))), v) <==>
            (Valid(condition, v) ==> Valid(consequence, v))
  {}

  /** "properties" alone constrains a field only when the object has it. */
  lemma OnePropertyMeans(key: string, s: Schema, v: Value)
    requires v.Obj? && key in v.fields
    ensures Valid(Schema(properties := [Property(key, s)]), v) <==> Valid(s, v.fields[key])
    ensures Valid(Schema(properties := [Property(key, s)], required := [key]), v) <==> Valid(s, v.fields[key])
  {
    var loose := Schema(properties := [Property(key, s)]);
    var strict := Schema(properties := [Property(key, s)], required := [key]);
    assert loose.properties[0] == strict.properties[0] == Property(key, s);
    assert ObjectValid(loose, v.fields) <==> Valid(s, v.fields[key]);
    assert ObjectValid(strict, v.fields) <==> Valid(s, v.fields[key]);
  }

  lemma FourProperties(s: Schema, v: Value, k: seq<string>)
    requires |k| == 4 && s.required == k && |s.properties| == 4
    requires forall i | 0 <= i < 4 :: s.properties[i].name == k[i]
    requires s.typ == Some(TObject) && !s.additional && s.allOf == []
    requires s.constant.None? && s.enum.None? && s.negated.None? && s.branch.None?
    ensures Valid(s, v) <==>
            && v.Obj? && ExactKeys(v.fields, k)
            && Holds(s.properties[0], v.fields)
            && Holds(s.properties[1], v.fields)
            && Holds(s.properties[2], v.fields)
            && Holds(s.properties[3], v.fields)
  {
    hide Valid, Holds, ExactKeys;
    assert Names(s.properties) == s.required;
    ExactObjectMeans(s, v);
  }

  lemma ScannerMeans(v: Value, version: string)
    ensures Valid(ScannerSchema(version), v) <==> ScannerOk(v, version)
  {
    hide Names, ExactKeys;
    FourProperties(ScannerSchema(version), v, SCANNER_KEYS);
  }

  lemma RescanMeans(v: Value)
    ensures Valid(RescanSchema(), v) <==> v == Obj(map["derived" := Bool(true)])
  {
    var s := RescanSchema();
    assert Names(s.properties) == ["derived"];
    ExactObjectMeans(s, v);
    assert s.properties[0].name == "derived";
    if Valid(s, v) {
      assert v.fields == map["derived" := Bool(true)];
    }
  }

  lemma ThreeProperties(s: Schema, v: Value, k: seq<string>)
    requires |k| == 3 && s.required == k && |s.properties| == 3
    requires forall i | 0 <= i < 3 :: s.properties[i].name == k[i]
    requires s.typ == Some(TObject) && !s.additional
    requires s.constant.None? && s.enum.None? && s.negated.None? && s.branch.None?
    ensures Valid(s, v) <==>
            && v.Obj? && ExactKeys(v.fields, k)
            && Holds(s.properties[0], v.fields)
            && Holds(s.properties[1], v.fields)
            && Holds(s.properties[2], v.fields)
            && forall i | 0 <= i < |s.allOf| :: Valid(s.allOf[i], v)
  {
    hide Valid, Holds, ExactKeys;
    assert Names(s.properties) == s.required;
    ExactObjectMeans(s, v);
  }

  /** What the "correction" property says on its own, before a verdict branch fixes its texts. */
  lemma CorrectionMeans(v: Value)
    ensures Valid(CorrectionSchema(), v) <==>
            && v.Obj? && ExactKeys(v.fields, CORRECTION_KEYS)
            && "state" in v.fields && v.fields["state"].Str? && v.fields["state"].s in ["none", "review", "required"]
            && "summary" in v.fields && v.fields["summary"].Str? && 1 <= |v.fields["summary"].s|
            && "rescan" in v.fields && v.fields["rescan"] == Obj(map["derived" := Bool(true)])
  {
    ThreeProperties(CorrectionSchema(), v, CORRECTION_KEYS);
    if v.Obj? && "state" in v.fields && "rescan" in v.fields {
      OneOfMeans(["none", "review", "required"], v.fields["state"]);
      RescanMeans(v.fields["rescan"]);
    }
  }

  lemma SeverityMeans(rule: Rule, v: Value)
    requires rule.severities != []
    ensures Valid(SeveritySchema(rule), v) <==> v.Str? && v.s in rule.severities
  {
    if |rule.severities| != 1 { OneOfMeans(rule.severities, v); }
  }

  lemma RuleBranchMeans(rule: Rule, v: Value)
    requires v.Obj? && "rule" in v.fields && "severity" in v.fields
    requires rule.severities != []
    ensures Valid(RuleBranch(rule), v) <==>
            (v.fields["rule"] == Str(rule.id) ==> v.fields["severity"].Str? && v.fields["severity"].s in rule.severities)
  {
    var branch := RuleBranch(rule).branch.value;
    BranchMeans(branch.condition, branch.consequence, v);
    OnePropertyMeans("rule", ConstSchema(Str(rule.id)), v);
    OnePropertyMeans("severity", SeveritySchema(rule), v);
    SeverityMeans(rule, v.fields["severity"]);
  }

  lemma FindingMeans(catalog: seq<Rule>, v: Value)
    requires WellFormed(catalog)
    ensures Valid(FindingSchema(catalog), v) <==> FindingOk(v, catalog)
  {
    var s := FindingSchema(catalog);
    ThreeProperties(s, v, FINDING_KEYS);
    if v.Obj? && "file" in v.fields && "rule" in v.fields && "severity" in v.fields {
      var rule, severity := v.fields["rule"], v.fields["severity"];
      SafeTextMeans(v.fields["file"]);
      OneOfMeans(Ids(catalog), rule);
      OneOfMeans([DANGER, WARN], severity);
      forall i | 0 <= i < |catalog|
        ensures Valid(s.allOf[i], v) <==>
                (rule == Str(catalog[i].id) ==> severity.Str? && severity.s in catalog[i].severities)
      {
        RuleBranchMeans(catalog[i], v);
      }
      CatalogDecides(catalog, rule, severity);
    }
  }

  /** Twelve implications and two enumerations say what one lookup in the catalog says. */
  lemma CatalogDecides(catalog: seq<Rule>, rule: Value, severity: Value)
    requires WellFormed(catalog)
    ensures RuleAllows(catalog, rule, severity) <==>
            && rule.Str? && rule.s in Ids(catalog)
            && severity.Str? && severity.s in [DANGER, WARN]
            && forall i | 0 <= i < |catalog| :: rule == Str(catalog[i].id) ==> severity.Str? && severity.s in catalog[i].severities
  {
    assert forall i | 0 <= i < |catalog| :: Ids(catalog)[i] == catalog[i].id;
  }

  lemma SeverityFindingMeans(severity: string, v: Value)
    ensures Valid(SeverityFinding(severity), v) <==> HasSeverity(v, severity)
  {
    var s := SeverityFinding(severity);
    assert s.properties[0] == Property("severity", ConstSchema(Str(severity))) && s.required[0] == "severity";
    if v.Obj? {
      assert HasSeverity(v, severity) ==> ObjectValid(s, v.fields);
      assert ObjectValid(s, v.fields) <==> HasSeverity(v, severity);
    }
  }

  lemma ContainsMeans(severity: string, v: Value)
    requires v.Arr?
    ensures Valid(ContainsSeverity(severity), v) <==> SomeSeverity(v.items, severity)
  {
    forall i | 0 <= i < |v.items| {
      SeverityFindingMeans(severity, v.items[i]);
    }
    assert ItemsValid(ContainsSeverity(severity), v.items) <==> SomeSeverity(v.items, severity);
  }

  lemma CleanFindings(v: Value)
    requires v.Arr?
    ensures Valid(VerdictFindings(CLEAN), v) <==> v.items == []
  {}

  lemma SuspiciousFindings(v: Value)
    requires v.Arr?
    ensures Valid(VerdictFindings(SUSPICIOUS), v) <==> SomeSeverity(v.items, WARN) && !SomeSeverity(v.items, DANGER)
  {
    ContainsMeans(WARN, v);
    ContainsMeans(DANGER, v);
    assert Valid(VerdictFindings(SUSPICIOUS), v) <==>
           1 <= |v.items| && Valid(ContainsSeverity(WARN), v) && !Valid(ContainsSeverity(DANGER), v);
  }

  lemma DangerousFindings(v: Value)
    requires v.Arr?
    ensures Valid(VerdictFindings(DANGEROUS), v) <==> SomeSeverity(v.items, DANGER)
  {
    ContainsMeans(DANGER, v);
    assert Valid(VerdictFindings(DANGEROUS), v) <==> 1 <= |v.items| && Valid(ContainsSeverity(DANGER), v);
  }

  /** The correction texts that go with a state; a verdict branch says nothing of a non-object. */
  predicate TextsOk(correction: Value, state: string) {
    correction.Obj? ==> Is(correction.fields, "state", Str(state)) && Is(correction.fields, "summary", Str(Summary(state)))
  }

  lemma TwoProperties(k0: string, k1: string, s0: Schema, s1: Schema, v: Value)
    requires v.Obj?
    ensures Valid(Schema(properties := [Property(k0, s0), Property(k1, s1)], required := [k0, k1]), v) <==>
            Holds(Property(k0, s0), v.fields) && Holds(Property(k1, s1), v.fields)
  {
    var s := Schema(properties := [Property(k0, s0), Property(k1, s1)], required := [k0, k1]);
    assert s.properties[0] == Property(k0, s0) && s.properties[1] == Property(k1, s1);
    assert s.required[0] == k0 && s.required[1] == k1;
    assert ObjectValid(s, v.fields) <==> Holds(Property(k0, s0), v.fields) && Holds(Property(k1, s1), v.fields);
  }

  lemma TextsMeans(correction: Value, state: string)
    ensures Valid(TextsSchema(state), correction) <==> TextsOk(correction, state)
  {
    if correction.Obj? {
      TwoProperties("state", "summary", ConstSchema(Str(state)), ConstSchema(Str(Summary(state))), correction);
    }
  }

  lemma BranchForMeans(verdict: string, exit: real, state: string, findings: Schema, v: Value)
    requires v.Obj?
    requires "verdict" in v.fields && "exitCode" in v.fields && "findings" in v.fields && "correction" in v.fields
    ensures Valid(BranchFor(verdict, exit, state, findings), v) <==>
            (v.fields["verdict"] == Str(verdict) ==>
               && v.fields["exitCode"] == Num(exit)
               && Valid(findings, v.fields["findings"])
               && TextsOk(v.fields["correction"], state))
  {
    BranchMeans(VerdictIs(verdict), Consequence(exit, state, findings), v);
    OnePropertyMeans("verdict", ConstSchema(Str(verdict)), v);
    ThreeLooseProperties("exitCode", "findings", "correction", ConstSchema(Num(exit)), findings, TextsSchema(state), v);
    TextsMeans(v.fields["correction"], state);
  }

  /** Three optional properties, all present. */
  lemma ThreeLooseProperties(k0: string, k1: string, k2: string, s0: Schema, s1: Schema, s2: Schema, v: Value)
    requires v.Obj? && k0 in v.fields && k1 in v.fields && k2 in v.fields
    ensures Valid(Schema(properties := [Property(k0, s0), Property(k1, s1), Property(k2, s2)]), v) <==>
            Valid(s0, v.fields[k0]) && Valid(s1, v.fields[k1]) && Valid(s2, v.fields[k2])
  {
    var s := Schema(properties := [Property(k0, s0), Property(k1, s1), Property(k2, s2)]);
    assert s.properties[0] == Property(k0, s0) && s.properties[1] == Property(k1, s1) && s.properties[2] == Property(k2, s2);
    assert ObjectValid(s, v.fields) <==> Valid(s0, v.fields[k0]) && Valid(s1, v.fields[k1]) && Valid(s2, v.fields[k2]);
  }

  lemma FindingsBranchMeans(findings: Schema, verdict: string, v: Value)
    requires v.Obj? && "verdict" in v.fields && "findings" in v.fields
    ensures Valid(FindingsBranch(findings, verdict), v) <==>
            (Valid(findings, v.fields["findings"]) ==> v.fields["verdict"] == Str(verdict))
  {
    var branch := FindingsBranch(findings, verdict).branch.value;
    BranchMeans(branch.condition, branch.consequence, v);
    OnePropertyMeans("findings", findings, v);
    OnePropertyMeans("verdict", ConstSchema(Str(verdict)), v);
  }

  lemma RootMeans(version: string, catalog: seq<Rule>, allOf: seq<Schema>, v: Value)
    ensures Valid(RootSchema(version, catalog, allOf), v) <==>
            && v.Obj? && ExactKeys(v.fields, REPORT_KEYS)
            && (forall i | 0 <= i < |RootProperties(version, catalog)| :: Holds(RootProperties(version, catalog)[i], v.fields))
            && forall i | 0 <= i < |allOf| :: Valid(allOf[i], v)
  {
    hide Valid, Holds, ExactKeys;
    assert Names(RootProperties(version, catalog)) == REPORT_KEYS;
    ExactObjectMeans(RootSchema(version, catalog, allOf), v);
  }

  lemma ElevenHold(p: seq<Property>, f: map<string, Value>)
    requires |p| == 11
    ensures (forall i | 0 <= i < |p| :: Holds(p[i], f)) <==>
            && Holds(p[0], f) && Holds(p[1], f) && Holds(p[2], f) && Holds(p[3], f) && Holds(p[4], f) && Holds(p[5], f)
            && Holds(p[6], f) && Holds(p[7], f) && Holds(p[8], f) && Holds(p[9], f) && Holds(p[10], f)
  {}

  lemma IdMeans(f: map<string, Value>)
    ensures Holds(IdProperty(), f) <==> Is(f, "schema", Str(SCHEMA_ID))
  {}

  lemma TimeMeans(f: map<string, Value>)
    ensures Holds(TimeProperty(), f) <==> "generatedAt" in f && UtcTime(f["generatedAt"])
  {
    if "generatedAt" in f { UtcTimeMeans(f["generatedAt"]); }
  }

  lemma IdentityMeans(version: string, f: map<string, Value>)
    ensures Holds(ScannerProperty(version), f) <==> "scanner" in f && ScannerOk(f["scanner"], version)
  {
    if "scanner" in f { ScannerMeans(f["scanner"], version); }
  }

  lemma ScopeMeans(f: map<string, Value>)
    ensures Holds(TargetProperty(), f) <==> "target" in f && SafeText(f["target"])
    ensures Holds(ScannedProperty(), f) <==> "scanned" in f && Count(f["scanned"])
    ensures Holds(FileCountProperty(), f) <==> "fileCount" in f && Count(f["fileCount"])
  {
    if "target" in f { SafeTextMeans(f["target"]); }
    if "scanned" in f { CountMeans(f["scanned"]); }
    if "fileCount" in f { CountMeans(f["fileCount"]); }
  }

  ghost predicate HeadHolds(version: string, f: map<string, Value>) {
    && Holds(IdProperty(), f) && Holds(TimeProperty(), f) && Holds(ScannerProperty(version), f)
    && Holds(TargetProperty(), f) && Holds(ScannedProperty(), f) && Holds(FileCountProperty(), f)
  }

  lemma HeadMeans(version: string, f: map<string, Value>)
    ensures HeadHolds(version, f) && ExactKeys(f, REPORT_KEYS) <==> HeadOk(Obj(f), version)
  {
    hide Holds, UtcTime, SafeText, Count, ScannerOk, ExactKeys;
    IdMeans(f);
    TimeMeans(f);
    IdentityMeans(version, f);
    ScopeMeans(f);
  }

  lemma FindingsMeans(catalog: seq<Rule>, v: Value)
    requires WellFormed(catalog)
    ensures Valid(Schema(typ := Some(TArray), items := Some(FindingSchema(catalog))), v) <==> FindingsOk(v, catalog)
  {
    if v.Arr? {
      forall i | 0 <= i < |v.items| {
        FindingMeans(catalog, v.items[i]);
      }
    }
  }

  lemma VerdictMeans(f: map<string, Value>)
    ensures Holds(VerdictProperty(), f) <==>
            "verdict" in f && (f["verdict"] == Str(CLEAN) || f["verdict"] == Str(SUSPICIOUS) || f["verdict"] == Str(DANGEROUS))
    ensures Holds(ExitProperty(), f) <==> "exitCode" in f && f["exitCode"] in [Num(0.0), Num(2.0), Num(3.0)]
    ensures Holds(ScoreProperty(), f) <==> Is(f, "blanketSafetyScore", Null)
  {
    if "verdict" in f {
      OneOfMeans([CLEAN, SUSPICIOUS, DANGEROUS], f["verdict"]);
      assert f["verdict"].Str? ==> (f["verdict"].s in [CLEAN, SUSPICIOUS, DANGEROUS] <==>
             f["verdict"].s == CLEAN || f["verdict"].s == SUSPICIOUS || f["verdict"].s == DANGEROUS);
    }
  }

  lemma DetailMeans(catalog: seq<Rule>, f: map<string, Value>)
    requires WellFormed(catalog)
    ensures Holds(FindingsProperty(catalog), f) <==> "findings" in f && FindingsOk(f["findings"], catalog)
    ensures Holds(CorrectionProperty(), f) <==> "correction" in f && Valid(CorrectionSchema(), f["correction"])
  {
    if "findings" in f { FindingsMeans(catalog, f["findings"]); }
  }

  /** Schema texts and shape together are CorrectionOk. */
  lemma CorrectionTexts(v: Value, state: string)
    requires state == "none" || state == "review" || state == "required"
    ensures Valid(CorrectionSchema(), v) && TextsOk(v, state) <==> CorrectionOk(v, state)
  {
    hide Valid, CorrectionSchema, Summary, ExactKeys;
    CorrectionMeans(v);
  }

  ghost predicate BodyHolds(catalog: seq<Rule>, f: map<string, Value>) {
    && Holds(VerdictProperty(), f) && Holds(ExitProperty(), f) && Holds(ScoreProperty(), f)
    && Holds(FindingsProperty(catalog), f) && Holds(CorrectionProperty(), f)
  }

  /** What one verdict branch asks of the findings, in words. */
  predicate FindingsFit(verdict: string, items: seq<Value>) {
    if verdict == CLEAN then items == []
    else if verdict == SUSPICIOUS then SomeSeverity(items, WARN) && !SomeSeverity(items, DANGER)
    else SomeSeverity(items, DANGER)
  }

  predicate BranchFits(verdict: string, f: map<string, Value>)
    requires VerdictExit(verdict).Some?
    requires "verdict" in f && "exitCode" in f && "findings" in f && "correction" in f && f["findings"].Arr?
  {
    f["verdict"] == Str(verdict) ==>
      && f["exitCode"] == Num(VerdictExit(verdict).value)
      && FindingsFit(verdict, f["findings"].items)
      && TextsOk(f["correction"], VerdictState(verdict).value)
  }

  lemma VerdictBranchMeans(verdict: string, f: map<string, Value>)
    requires VerdictExit(verdict).Some?
    requires "verdict" in f && "exitCode" in f && "findings" in f && "correction" in f && f["findings"].Arr?
    ensures Valid(VerdictBranch(verdict, VerdictFindings(verdict)), Obj(f)) <==> BranchFits(verdict, f)
  {
    hide Valid, TextsOk;
    BranchForMeans(verdict, VerdictExit(verdict).value, VerdictState(verdict).value, VerdictFindings(verdict), Obj(f));
    CleanFindings(f["findings"]);
    SuspiciousFindings(f["findings"]);
    DangerousFindings(f["findings"]);
  }

  /** A finding that the catalog admits carries one of the two severities. */
  lemma AdmittedSeverities(catalog: seq<Rule>, items: seq<Value>)
    requires WellFormed(catalog) && forall i | 0 <= i < |items| :: FindingOk(items[i], catalog)
    ensures items == [] <==> !SomeSeverity(items, DANGER) && !SomeSeverity(items, WARN)
  {
    if items != [] {
      assert FindingOk(items[0], catalog);
      assert HasSeverity(items[0], DANGER) || HasSeverity(items[0], WARN);
    }
  }

  lemma FitsExactlyExpected(catalog: seq<Rule>, items: seq<Value>, verdict: string)
    requires WellFormed(catalog) && forall i | 0 <= i < |items| :: FindingOk(items[i], catalog)
    requires VerdictExit(verdict).Some?
    ensures FindingsFit(verdict, items) <==> verdict == ExpectedVerdict(items)
  {
    AdmittedSeverities(catalog, items);
  }

  ghost predicate BranchesHold(f: map<string, Value>) {
    && Valid(VerdictBranch(CLEAN, VerdictFindings(CLEAN)), Obj(f))
    && Valid(VerdictBranch(SUSPICIOUS, VerdictFindings(SUSPICIOUS)), Obj(f))
    && Valid(VerdictBranch(DANGEROUS, VerdictFindings(DANGEROUS)), Obj(f))
  }

  lemma BodyMeans(catalog: seq<Rule>, f: map<string, Value>)
    requires WellFormed(catalog)
    ensures BodyHolds(catalog, f) && BranchesHold(f) <==> BodyOk(f, catalog)
  {
    hide Valid, Holds, TextsOk, CorrectionOk, FindingOk, VerdictBranch, VerdictFindings, CorrectionSchema, Summary, WellFormed;
    VerdictMeans(f);
    DetailMeans(catalog, f);
    if "findings" in f && "correction" in f && "exitCode" in f && "verdict" in f && FindingsOk(f["findings"], catalog) {
      var items := f["findings"].items;
      VerdictBranchMeans(CLEAN, f);
      VerdictBranchMeans(SUSPICIOUS, f);
      VerdictBranchMeans(DANGEROUS, f);
      FitsExactlyExpected(catalog, items, CLEAN);
      FitsExactlyExpected(catalog, items, SUSPICIOUS);
      FitsExactlyExpected(catalog, items, DANGEROUS);
      CorrectionTexts(f["correction"], VerdictState(ExpectedVerdict(items)).value);
    }
  }

  /** The schema without its last three allOf entries already decides ReportOk. */
  lemma VerdictBranchesDecide(version: string, catalog: seq<Rule>, v: Value)
    requires WellFormed(catalog)
    ensures Valid(RootSchema(version, catalog, VerdictBranches()), v) <==> ReportOk(v, version, catalog)
  {
    hide Valid, Holds, BodyOk, VerdictBranch, VerdictFindings, RootSchema, RootProperties, WellFormed, ExactKeys;
    RootMeans(version, catalog, VerdictBranches(), v);
    if v.Obj? {
      AllProperties(version, catalog, v.fields);
      HeadMeans(version, v.fields);
      BodyMeans(catalog, v.fields);
      BranchesMean(v.fields);
    }
  }

  lemma BranchesMean(f: map<string, Value>)
    ensures (forall i | 0 <= i < |VerdictBranches()| :: Valid(VerdictBranches()[i], Obj(f))) <==> BranchesHold(f)
  {
    hide Valid, VerdictBranch, VerdictFindings;
    var b := VerdictBranches();
    assert |b| == 3 && Valid(b[0], Obj(f)) && Valid(b[1], Obj(f)) && Valid(b[2], Obj(f)) <==> BranchesHold(f);
  }

  lemma AllProperties(version: string, catalog: seq<Rule>, f: map<string, Value>)
    ensures (forall i | 0 <= i < |RootProperties(version, catalog)| :: Holds(RootProperties(version, catalog)[i], f)) <==>
            HeadHolds(version, f) && BodyHolds(catalog, f)
  {
    hide Holds, IdProperty, TimeProperty, ScannerProperty, TargetProperty, ScannedProperty, FileCountProperty,
         VerdictProperty, ExitProperty, ScoreProperty, FindingsProperty, CorrectionProperty;
    ElevenHold(RootProperties(version, catalog), f);
  }

  /** The converse branches, from findings to verdict, hold of every report. */
  lemma FindingsBranchesHold(catalog: seq<Rule>, f: map<string, Value>)
    requires WellFormed(catalog) && BodyOk(f, catalog)
    ensures forall i | 0 <= i < |FindingsBranches()| :: Valid(FindingsBranches()[i], Obj(f))
  {
    hide Valid, FindingsBranch, ContainsSeverity, CorrectionOk, FindingOk, WellFormed, SeverityFinding;
    var v, found := Obj(f), f["findings"];
    var suspicious := Schema(contains := Some(SeverityFinding(WARN)), negated := Some(ContainsSeverity(DANGER)));
    AdmittedSeverities(catalog, found.items);
    FindingsBranchMeans(ContainsSeverity(DANGER), DANGEROUS, v);
    FindingsBranchMeans(suspicious, SUSPICIOUS, v);
    FindingsBranchMeans(Schema(maxItems := Some(0)), CLEAN, v);
    ContainsMeans(DANGER, found);
    WarnOnlyMeans(found);
    CleanFindings(found);
  }

  lemma WarnOnlyMeans(v: Value)
    requires v.Arr?
    ensures Valid(Schema(contains := Some(SeverityFinding(WARN)), negated := Some(ContainsSeverity(DANGER))), v) <==>
            SomeSeverity(v.items, WARN) && !SomeSeverity(v.items, DANGER)
  {
    hide SomeSeverity, SeverityFinding;
    ContainsMeans(WARN, v);
    ContainsMeans(DANGER, v);
    assert Valid(Schema(contains := Some(SeverityFinding(WARN)), negated := Some(ContainsSeverity(DANGER))), v) <==>
           Valid(ContainsSeverity(WARN), v) && !Valid(ContainsSeverity(DANGER), v);
  }

  /** The generated schema accepts exactly the values that ReportOk describes. */
  lemma SchemaMeans(version: string, catalog: seq<Rule>, v: Value)
    requires WellFormed(catalog)
    ensures Valid(BuildReportSchema(version, catalog), v) <==> ReportOk(v, version, catalog)
  {
    hide Valid, Holds, BodyOk, VerdictBranches, FindingsBranches, FindingsBranch, RootProperties, RootSchema, WellFormed, ExactKeys,
         HeadOk, VerdictBranch;
    var most, last := VerdictBranches(), FindingsBranches();
    VerdictBranchesDecide(version, catalog, v);
    RootMeans(version, catalog, most, v);
    RootMeans(version, catalog, most + last, v);
    AllAppended(most, last, v);
    if ReportOk(v, version, catalog) {
      HeadIsObject(v, version);
      FindingsBranchesHold(catalog, v.fields);
    }
  }

  lemma HeadIsObject(v: Value, version: string)
    requires HeadOk(v, version)
    ensures v.Obj?
  {}

  lemma AllAppended(a: seq<Schema>, b: seq<Schema>, v: Value)
    ensures (forall i | 0 <= i < |a + b| :: Valid((a + b)[i], v)) <==>
            (forall i | 0 <= i < |a| :: Valid(a[i], v)) && (forall i | 0 <= i < |b| :: Valid(b[i], v))
  {
    hide Valid;
    assert forall i | 0 <= i < |a| :: (a + b)[i] == a[i];
    assert forall i | 0 <= i < |b| :: (a + b)[|a| + i] == b[i];
  }

  /** The last three allOf entries never change what the schema accepts. */
  lemma FindingsBranchesRedundant(version: string, catalog: seq<Rule>, v: Value)
    requires WellFormed(catalog)
    ensures Valid(BuildReportSchema(version, catalog), v) <==> Valid(RootSchema(version, catalog, VerdictBranches()), v)
  {
    hide *;
    SchemaMeans(version, catalog, v);
    VerdictBranchesDecide(version, catalog, v);
  }
}
