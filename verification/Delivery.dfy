/** From a scan result to an accepted report: publicTarget and analyze of index.js, buildReport of report.js. */
module Delivery {
  import opened Common
  import opened Json
  import opened RuleCatalog
  import opened Scan
  import opened Analyze
  import opened Paths
  import opened Terminal
  import opened Report
  import opened Validator
  import Regex

  // ---- names and targets ------------------------------------------------------------------

  predicate FileName(name: string) {
    name != "" && '/' !in name
  }

  predicate WellNamed(entries: seq<Entry>) {
    forall i | 0 <= i < |entries| ::
      FileName(entries[i].name) && (entries[i].node.Dir? ==> WellNamed(entries[i].node.entries))
  }

  /** What the command line names, after the outside world has parsed or resolved it. */
  datatype Argument =
    | GitAt(rest: string)                                    // git@...
    | Web(url: Option<Url>)                                  // http:// or https://
    | Local(cwd: seq<string>, absolute: seq<string>)         // resolved directories, below the file system root

  function CommonPrefix(a: seq<string>, b: seq<string>): nat {
    if a == [] || b == [] || a[0] != b[0] then 0 else 1 + CommonPrefix(a[1..], b[1..])
  }

  /** path.relative on resolved paths. */
  function Relative(from: seq<string>, to: seq<string>): seq<string>
  {
    var n := CommonPrefix(from, to);
    PrefixFits(from, to);
    seq(|from| - n, _ => "..") + to[n..]
  }

  lemma PrefixFits(a: seq<string>, b: seq<string>)
    ensures CommonPrefix(a, b) <= |a| && CommonPrefix(a, b) <= |b|
  {}

  function PublicTarget(arg: Argument): string {
    match arg
    case GitAt(rest) => "git@" + rest
    case Web(None) => "redacted-url"
    case Web(Some(url)) => Render(Redact(url))
    case Local(cwd, absolute) =>
      var relative := JoinPath(Relative(cwd, absolute));
      if relative != "" && !(".." <= relative) && relative[0] != '/' then relative
      else if absolute == [] then "target"
      else absolute[|absolute| - 1]
  }

  predicate WellFormedArgument(arg: Argument) {
    arg.Local? ==> forall i | 0 <= i < |arg.absolute| :: FileName(arg.absolute[i])
  }

  lemma TargetIsRelative(arg: Argument)
    requires WellFormedArgument(arg)
    ensures PublicTarget(arg) != "" && PublicTarget(arg)[0] != '/'
  {
    if arg.Web? && arg.url.Some? {
      var url := arg.url.value;
      assert Render(Redact(url))[0] == (if url.secure then "https://" else "http://")[0];
    }
  }

  // ---- analyze ----------------------------------------------------------------------------

  datatype Row = Row(file: string, rule: string, severity: string)
  datatype Analysis = Analysis(target: string, scanned: nat, fileCount: nat, verdict: string, findings: seq<Row>)

  function RowOf(x: Finding): Row {
    Row(EscapeTerminal(JoinPath(x.path)), x.rule, x.severity)
  }

  function Rows(findings: seq<Finding>): seq<Row> {
    seq(|findings|, i requires 0 <= i < |findings| => RowOf(findings[i]))
  }

  function AnalysisOf(arg: Argument, root: Node): Analysis {
    var files := WalkOf(root);
    var findings := AllFindings(files);
    Analysis(EscapeTerminal(PublicTarget(arg)), ScannedCount(files), |files|, VerdictOf(findings), Rows(findings))
  }

  /** tree is None when a clone fails or the path does not exist. */
  method AnalyzeTarget(arg: Argument, tree: Option<Node>) returns (r: Option<Analysis>)
    ensures r == if tree.None? then None else Some(AnalysisOf(arg, tree.value))
  {
    if tree.None? { return None; }
    var findings, scanned, fileCount := ScanDir(tree.value);
    var norm := Rows(findings);
    var dangers := exists i :: 0 <= i < |norm| && norm[i].severity == DANGER;
    var warns := exists i :: 0 <= i < |norm| && norm[i].severity == WARN;
    assert forall i | 0 <= i < |norm| :: norm[i].severity == findings[i].severity;
    var verdict := if dangers then "dangerous" else if warns then "suspicious" else "clean";
    r := Some(Analysis(EscapeTerminal(PublicTarget(arg)), scanned, fileCount, verdict, norm));
  }

  lemma TargetEscaped(arg: Argument, root: Node)
    ensures AnalysisOf(arg, root).target == EscapeTerminal(PublicTarget(arg))
  {
    hide PublicTarget, EscapeTerminal;
  }

  /** Nothing of a web address is shown but scheme, host and path; an unreadable one is not shown at all. */
  lemma WebTarget(url: Url, rest: string, root: Node)
    ensures var shown := (if url.secure then "https://" else "http://") + url.host + url.path;
            && PublicTarget(Web(Some(url))) == shown
            && AnalysisOf(Web(Some(url)), root).target == EscapeTerminal(shown)
    ensures PublicTarget(Web(None)) == AnalysisOf(Web(None), root).target == "redacted-url"
    ensures PublicTarget(GitAt(rest)) == "git@" + rest && AnalysisOf(GitAt(rest), root).target == "git@" + EscapeTerminal(rest)
  {
    hide AnalysisOf, EscapeTerminal, Render, Redact;
    RedactForgets(url, url);
    TargetEscaped(Web(Some(url)), root);
    TargetEscaped(Web(None), root);
    TargetEscaped(GitAt(rest), root);
    EscapeKeepsPrintable("redacted-url");
    EscapeKeepsPrintable("git@");
    EscapeConcat("git@", rest);
  }

  /** Two web addresses that agree in scheme, host and path have the same target, whatever else they hold. */
  lemma WebTargetForgets(u: Url, v: Url, root: Node)
    requires u.secure == v.secure && u.host == v.host && u.path == v.path
    ensures PublicTarget(Web(Some(u))) == PublicTarget(Web(Some(v)))
    ensures AnalysisOf(Web(Some(u)), root).target == AnalysisOf(Web(Some(v)), root).target
  {
    hide AnalysisOf, EscapeTerminal, Render, Redact;
    RedactForgets(u, v);
    TargetEscaped(Web(Some(u)), root);
    TargetEscaped(Web(Some(v)), root);
  }

  lemma {:induction false} CommonPrefixMeans(a: seq<string>, b: seq<string>)
    ensures CommonPrefix(a, b) == |a| <==> a <= b
  {
    if a != [] && b != [] {
      CommonPrefixMeans(a[1..], b[1..]);
      assert a == [a[0]] + a[1..] && b == [b[0]] + b[1..];
      assert a <= b <==> a[0] == b[0] && a[1..] <= b[1..];
    }
  }

  lemma RelativeBelow(cwd: seq<string>, absolute: seq<string>)
    ensures cwd <= absolute ==> Relative(cwd, absolute) == absolute[|cwd|..]
    ensures !(cwd <= absolute) ==> ".." <= JoinPath(Relative(cwd, absolute))
  {
    CommonPrefixMeans(cwd, absolute);
    PrefixFits(cwd, absolute);
  }

  /** A path whose joined components below the working directory do not begin with two dots. */
  predicate ShownBelow(cwd: seq<string>, absolute: seq<string>) {
    cwd < absolute && !(".." <= JoinPath(absolute[|cwd|..]))
  }

  function Shown(cwd: seq<string>, absolute: seq<string>): seq<string> {
    if ShownBelow(cwd, absolute) then absolute[|cwd|..]
    else if absolute == [] then ["target"] else [absolute[|absolute| - 1]]
  }

  lemma LocalShown(cwd: seq<string>, absolute: seq<string>)
    requires WellFormedArgument(Local(cwd, absolute))
    ensures SlashFree(Shown(cwd, absolute)) && PublicTarget(Local(cwd, absolute)) == JoinPath(Shown(cwd, absolute))
  {
    RelativeBelow(cwd, absolute);
    hide Relative;
    if cwd < absolute {
      var below := absolute[|cwd|..];
      assert below[0] == absolute[|cwd|];
      JoinIsRelative(below);
    }
  }

  /** A local path below the working directory is shown by its components from there on; any other one by its last
      component, which the root does not have. */
  lemma LocalTarget(cwd: seq<string>, absolute: seq<string>, root: Node)
    requires WellFormedArgument(Local(cwd, absolute))
    ensures var arg := Local(cwd, absolute);
            var shown := if cwd < absolute && !(".." <= JoinPath(absolute[|cwd|..])) then absolute[|cwd|..]
                         else if absolute == [] then ["target"] else [absolute[|absolute| - 1]];
            && Split(PublicTarget(arg)) == shown
            && Split(AnalysisOf(arg, root).target) == EscapeEach(shown)
  {
    var arg := Local(cwd, absolute);
    LocalShown(cwd, absolute);
    hide PublicTarget, AnalysisOf, EscapeTerminal, Split, JoinPath, EscapeEach, WellFormedArgument, SlashFree;
    TargetEscaped(arg, root);
    JoinThenSplit(Shown(cwd, absolute));
    EscapeKeepsComponents(Shown(cwd, absolute));
  }

  // ---- buildReport ------------------------------------------------------------------------

  /** The parts of Date.prototype.toISOString for the years 0 to 9999. */
  datatype Clock = Clock(year: nat, month: nat, day: nat, hour: nat, minute: nat, second: nat, milli: nat)

  function Pad(n: nat, width: nat): (text: string)
    ensures |text| == width && forall i | 0 <= i < width :: '0' <= text[i] <= '9'
  {
    if width == 0 then "" else Pad(n / 10, width - 1) + ["0123456789"[n % 10]]
  }

  function IsoTime(c: Clock): string {
    Pad(c.year, 4) + "-" + Pad(c.month, 2) + "-" + Pad(c.day, 2)
    + "T" + Pad(c.hour, 2) + ":" + Pad(c.minute, 2) + ":" + Pad(c.second, 2) + "." + Pad(c.milli, 3) + "Z"
  }

  /** The number that decimal digits stand for. */
  function Number(text: string): nat {
    if text == "" then 0
    else
      var last := text[|text| - 1];
      10 * Number(text[..|text| - 1]) + (if '0' <= last <= '9' then last as int - '0' as int else 0)
  }

  function Tens(width: nat): nat {
    if width == 0 then 1 else 10 * Tens(width - 1)
  }

  lemma {:induction false} PadReadsBack(n: nat, width: nat)
    requires n < Tens(width)
    ensures Number(Pad(n, width)) == n
  {
    if width > 0 {
      PadReadsBack(n / 10, width - 1);
      assert Pad(n, width)[..width - 1] == Pad(n / 10, width - 1);
    }
  }

  predicate OnClock(c: Clock) {
    c.year < 10000 && c.month < 100 && c.day < 100 && c.hour < 100 && c.minute < 100 && c.second < 100 && c.milli < 1000
  }

  /** Each field of the clock is read back from its place in the text. */
  lemma IsoTimeReadsBack(c: Clock)
    requires OnClock(c)
    ensures var t := IsoTime(c);
            && |t| == 24
            && Number(t[0..4]) == c.year && Number(t[5..7]) == c.month && Number(t[8..10]) == c.day
            && Number(t[11..13]) == c.hour && Number(t[14..16]) == c.minute && Number(t[17..19]) == c.second
            && Number(t[20..23]) == c.milli
  {
    assert Tens(1) == 10 && Tens(2) == 100 && Tens(3) == 1000 && Tens(4) == 10000;
    PadReadsBack(c.year, 4);
    PadReadsBack(c.month, 2);
    PadReadsBack(c.day, 2);
    PadReadsBack(c.hour, 2);
    PadReadsBack(c.minute, 2);
    PadReadsBack(c.second, 2);
    PadReadsBack(c.milli, 3);
    hide Number, Tens, Pad;
    IsoParts(Pad(c.year, 4), Pad(c.month, 2), Pad(c.day, 2), Pad(c.hour, 2), Pad(c.minute, 2), Pad(c.second, 2), Pad(c.milli, 3));
  }

  lemma Early(t: string, n: nat, i: nat, j: nat)
    requires i <= j <= n <= |t|
    ensures t[..n][i..j] == t[i..j]
  {}

  lemma DateParts(y: string, m: string, d: string)
    requires |y| == 4 && |m| == |d| == 2
    ensures var p := y + "-" + m + "-" + d;
            |p| == 10 && p[0..4] == y && p[5..7] == m && p[8..10] == d
  {}

  lemma TimeParts(p: string, h: string, m: string, s: string)
    requires |p| == 10 && |h| == |m| == |s| == 2
    ensures var q := p + "T" + h + ":" + m + ":" + s;
            |q| == 19 && q[..10] == p && q[11..13] == h && q[14..16] == m && q[17..19] == s
  {}

  lemma FractionPart(q: string, milli: string)
    requires |q| == 19 && |milli| == 3
    ensures var t := q + "." + milli + "Z";
            |t| == 24 && t[..19] == q && t[20..23] == milli
  {}

  lemma IsoParts(year: string, month: string, day: string, hour: string, minute: string, second: string, milli: string)
    requires |year| == 4 && |month| == |day| == |hour| == |minute| == |second| == 2 && |milli| == 3
    ensures var t := year + "-" + month + "-" + day + "T" + hour + ":" + minute + ":" + second + "." + milli + "Z";
            && |t| == 24
            && t[0..4] == year && t[5..7] == month && t[8..10] == day
            && t[11..13] == hour && t[14..16] == minute && t[17..19] == second && t[20..23] == milli
  {
    var p := year + "-" + month + "-" + day;
    var q := p + "T" + hour + ":" + minute + ":" + second;
    var t := q + "." + milli + "Z";
    DateParts(year, month, day);
    TimeParts(p, hour, minute, second);
    FractionPart(q, milli);
    Early(q, 10, 0, 4);
    Early(q, 10, 5, 7);
    Early(q, 10, 8, 10);
    Early(t, 19, 0, 4);
    Early(t, 19, 5, 7);
    Early(t, 19, 8, 10);
    Early(t, 19, 11, 13);
    Early(t, 19, 14, 16);
    Early(t, 19, 17, 19);
  }

  function FindingValue(row: Row): Value {
    Obj(map["file" := Str(EscapeTerminal(row.file)), "rule" := Str(row.rule), "severity" := Str(row.severity)])
  }

  function FindingValues(rows: seq<Row>): seq<Value> {
    seq(|rows|, i requires 0 <= i < |rows| => FindingValue(rows[i]))
  }

  function ScannerValue(version: string): Value {
    Obj(map["name" := Str("skillguard"), "version" := Str(version), "staticOnly" := Bool(true), "executedTarget" := Bool(false)])
  }

  function CorrectionValue(state: string): Value {
    Obj(map["state" := Str(state), "summary" := Str(Summary(state)), "rescan" := Obj(map["derived" := Bool(true)])])
  }

  /** The object literal with these keys and values. */
  function Fields(keys: seq<string>, values: seq<Value>): map<string, Value>
    requires |keys| == |values|
  {
    if keys == [] then map[] else Fields(keys[1..], values[1..])[keys[0] := values[0]]
  }

  function ReportFields(a: Analysis, now: Clock, version: string, exit: real, state: string): map<string, Value> {
    Fields(REPORT_KEYS, ReportValues(a, now, version, exit, state))
  }

  function ReportValues(a: Analysis, now: Clock, version: string, exit: real, state: string): (values: seq<Value>)
    ensures |values| == |REPORT_KEYS|
  {
    [ Str(SCHEMA_ID), Str(IsoTime(now)), ScannerValue(version), Str(EscapeTerminal(a.target)),
      Num(a.scanned as real), Num(a.fileCount as real), Str(a.verdict), Num(exit), Null,
      Arr(FindingValues(a.findings)), CorrectionValue(state) ]
  }

  function ReportOf(a: Analysis, now: Clock, version: string): Value
    requires VerdictExit(a.verdict).Some?
  {
    Obj(ReportFields(a, now, version, VerdictExit(a.verdict).value, VerdictState(a.verdict).value))
  }

  datatype Built = Built(report: Value) | Refused(reason: string)

  method BuildReport(a: Analysis, now: Clock, version: string, numText: real -> string) returns (r: Built)
    requires PlainText(Str(version))
    ensures r.Built? <==> VerdictExit(a.verdict).Some? && ReportOk(ReportOf(a, now, version), version, CATALOG)
    ensures r.Built? ==> r.report == ReportOf(a, now, version)
  {
    hide ReportOk, ReportFields, VerdictState, Summary, PropertyKey, HeadOk;
    if VerdictExit(a.verdict).None? { return Refused("unknown verdict " + a.verdict); }
    var report := ReportOf(a, now, version);
    CatalogWellFormed();
    var check := ValidateReport(report, version, CATALOG, numText);
    match check
    case Accepted => return Built(report);
    case Rejected(reason) => return Refused(reason);
    case Threw => return Refused("TypeError");
  }

  // ---- every analysis is reportable -------------------------------------------------------

  lemma {:induction false} FieldsAt(keys: seq<string>, values: seq<Value>, i: nat)
    requires |keys| == |values| && i < |keys|
    requires forall j, k | 0 <= j < k < |keys| :: keys[j] != keys[k]
    ensures keys[i] in Fields(keys, values) && Fields(keys, values)[keys[i]] == values[i]
  {
    if i > 0 { FieldsAt(keys[1..], values[1..], i - 1); }
  }

  lemma {:induction false} FieldsKeys(keys: seq<string>, values: seq<Value>, k: string)
    requires |keys| == |values|
    ensures k in Fields(keys, values) <==> k in keys
  {
    if keys != [] { FieldsKeys(keys[1..], values[1..], k); }
  }

  /** Length and last letter tell the eleven report keys apart. */
  predicate Marked(key: string, mark: (nat, char)) {
    key != "" && |key| == mark.0 && key[|key| - 1] == mark.1
  }

  lemma ReportKeysDistinct()
    ensures forall j, k | 0 <= j < k < |REPORT_KEYS| :: REPORT_KEYS[j] != REPORT_KEYS[k]
  {
    var keys := REPORT_KEYS;
    var marks := [(6, 'a'), (11, 't'), (7, 'r'), (6, 't'), (7, 'd'), (9, 't'), (7, 't'), (8, 'e'), (18, 'e'), (8, 's'), (10, 'n')];
    assert Marked(keys[0], marks[0]) && Marked(keys[1], marks[1]) && Marked(keys[2], marks[2]) && Marked(keys[3], marks[3]);
    assert Marked(keys[4], marks[4]) && Marked(keys[5], marks[5]) && Marked(keys[6], marks[6]) && Marked(keys[7], marks[7]);
    assert Marked(keys[8], marks[8]) && Marked(keys[9], marks[9]) && Marked(keys[10], marks[10]);
    forall j: nat, k: nat | j < k < |keys|
      ensures keys[j] != keys[k]
    {
      assert marks[j] != marks[k];
    }
  }

  lemma ReportFieldsAt(a: Analysis, now: Clock, version: string, exit: real, state: string)
    ensures var f := ReportFields(a, now, version, exit, state);
            var v := ReportValues(a, now, version, exit, state);
            && ExactKeys(f, REPORT_KEYS)
            && forall i | 0 <= i < |REPORT_KEYS| :: Is(f, REPORT_KEYS[i], v[i])
  {
    hide ReportValues;
    ReportKeysDistinct();
    var v := ReportValues(a, now, version, exit, state);
    forall i: nat | i < |REPORT_KEYS| {
      FieldsAt(REPORT_KEYS, v, i);
    }
    forall k: string {
      FieldsKeys(REPORT_KEYS, v, k);
    }
  }

  lemma ReportFieldsBy(a: Analysis, now: Clock, version: string, exit: real, state: string)
    ensures var f := ReportFields(a, now, version, exit, state);
            && ExactKeys(f, REPORT_KEYS)
            && Is(f, "schema", Str(SCHEMA_ID)) && Is(f, "generatedAt", Str(IsoTime(now))) && Is(f, "scanner", ScannerValue(version))
            && Is(f, "target", Str(EscapeTerminal(a.target)))
            && Is(f, "scanned", Num(a.scanned as real)) && Is(f, "fileCount", Num(a.fileCount as real))
            && Is(f, "verdict", Str(a.verdict)) && Is(f, "exitCode", Num(exit)) && Is(f, "blanketSafetyScore", Null)
            && Is(f, "findings", Arr(FindingValues(a.findings))) && Is(f, "correction", CorrectionValue(state))
  {
    hide ReportFields, Is, IsoTime, ScannerValue, EscapeTerminal, CorrectionValue, FindingValues, ExactKeys;
    ReportFieldsAt(a, now, version, exit, state);
    var f := ReportFields(a, now, version, exit, state);
    var k, v := REPORT_KEYS, ReportValues(a, now, version, exit, state);
    assert Is(f, k[0], v[0]) && Is(f, k[1], v[1]) && Is(f, k[2], v[2]) && Is(f, k[3], v[3]) && Is(f, k[4], v[4]) && Is(f, k[5], v[5]);
    assert Is(f, k[6], v[6]) && Is(f, k[7], v[7]) && Is(f, k[8], v[8]) && Is(f, k[9], v[9]) && Is(f, k[10], v[10]);
  }

  /** Text that begins as the template says. */
  predicate Begins(text: string, template: string) {
    |template| <= |text| && forall i | 0 <= i < |template| :: Regex.Template(template)[i].Has(text[i])
  }

  lemma BeginsConcat(a: string, x: string, b: string, y: string)
    requires |a| == |x| && Begins(a, x) && Begins(b, y)
    ensures Begins(a + b, x + y)
  {
    forall i | 0 <= i < |x + y|
      ensures Regex.Template(x + y)[i].Has((a + b)[i])
    {
      assert i < |x| ==> Regex.Template(x)[i].Has(a[i]);
      assert i >= |x| ==> Regex.Template(y)[i - |x|].Has(b[i - |x|]);
    }
  }

  lemma TwoDigits(n: nat, separator: char)
    requires separator != 'd'
    ensures Begins(Pad(n, 2) + [separator], ['d', 'd', separator])
  {}

  lemma FractionMatches(t: string)
    requires |t| == 24 && t[19] == '.' && t[23] == 'Z' && forall i | 20 <= i < 23 :: '0' <= t[i] <= '9'
    ensures Regex.Matches(Regex.Cat(FRACTION, Regex.Cls(Regex.Exactly('Z'))), t, 19, 24)
  {
    var dot, z := Regex.Cls(Regex.Exactly('.')), Regex.Cls(Regex.Exactly('Z'));
    var digits := Regex.Plus(Regex.Cls(Regex.Digit));
    Regex.PlusOfClass(Regex.Digit, t, 20, 23);
    assert Regex.Matches(dot, t, 19, 20) && Regex.Matches(digits, t, 20, 23);
    assert Regex.Matches(Regex.Cat(dot, digits), t, 19, 23);
    assert Regex.Matches(FRACTION, t, 19, 23) && Regex.Matches(z, t, 23, 24);
  }

  lemma IsoTimeIsUtc(now: Clock)
    ensures UtcTime(Str(IsoTime(now)))
  {
    hide Begins, Regex.Matches, Pad, GeneratedAtPattern;
    var date := Pad(now.year, 4) + "-" + (Pad(now.month, 2) + "-") + (Pad(now.day, 2) + "T");
    var time := (Pad(now.hour, 2) + ":") + (Pad(now.minute, 2) + ":") + Pad(now.second, 2);
    DateBegins(now);
    TimeBegins(now);
    BeginsConcat(date, "dddd-dd-ddT", time, "dd:dd:dd");
    assert "dddd-dd-ddT" + "dd:dd:dd" == "dddd-dd-ddTdd:dd:dd";
    var t := (date + time) + ("." + Pad(now.milli, 3) + "Z");
    SameDate(Pad(now.year, 4), Pad(now.month, 2), Pad(now.day, 2));
    SameTime(date, Pad(now.hour, 2), Pad(now.minute, 2), Pad(now.second, 2), Pad(now.milli, 3));
    assert t == IsoTime(now);
    WholeTime(date + time, Pad(now.milli, 3));
  }

  lemma SameDate(y: string, m: string, d: string)
    ensures y + "-" + (m + "-") + (d + "T") == y + "-" + m + "-" + d + "T"
  {}

  lemma SameTime(date: string, h: string, m: string, s: string, milli: string)
    ensures (date + ((h + ":") + (m + ":") + s)) + ("." + milli + "Z") == date + h + ":" + m + ":" + s + "." + milli + "Z"
  {
    assert date + ((h + ":") + (m + ":") + s) == date + h + ":" + m + ":" + s;
  }

  lemma WholeTime(start: string, milli: string)
    requires |start| == 19 && Begins(start, "dddd-dd-ddTdd:dd:dd")
    requires |milli| == 3 && forall i | 0 <= i < 3 :: '0' <= milli[i] <= '9'
    ensures Regex.Accepts(GeneratedAtPattern(), start + ("." + milli + "Z"))
  {
    hide Regex.Matches;
    var t := start + ("." + milli + "Z");
    FractionMatches(t);
    Regex.ChainMatches(Regex.Template("dddd-dd-ddTdd:dd:dd"), Regex.Cat(FRACTION, Regex.Cls(Regex.Exactly('Z'))), t, 0, |t|);
  }

  lemma DateBegins(now: Clock)
    ensures Begins(Pad(now.year, 4) + "-" + (Pad(now.month, 2) + "-") + (Pad(now.day, 2) + "T"), "dddd-dd-ddT")
  {
    var year := Pad(now.year, 4) + "-";
    assert Begins(year, "dddd-");
    TwoDigits(now.month, '-');
    TwoDigits(now.day, 'T');
    BeginsConcat(year, "dddd-", Pad(now.month, 2) + "-", "dd-");
    BeginsConcat(year + (Pad(now.month, 2) + "-"), "dddd-" + "dd-", Pad(now.day, 2) + "T", "ddT");
    assert "dddd-" + "dd-" + "ddT" == "dddd-dd-ddT";
  }

  lemma TimeBegins(now: Clock)
    ensures Begins((Pad(now.hour, 2) + ":") + (Pad(now.minute, 2) + ":") + Pad(now.second, 2), "dd:dd:dd")
  {
    TwoDigits(now.hour, ':');
    TwoDigits(now.minute, ':');
    assert Begins(Pad(now.second, 2), "dd");
    BeginsConcat(Pad(now.hour, 2) + ":", "dd:", Pad(now.minute, 2) + ":", "dd:");
    BeginsConcat((Pad(now.hour, 2) + ":") + (Pad(now.minute, 2) + ":"), "dd:" + "dd:", Pad(now.second, 2), "dd");
    assert "dd:" + "dd:" + "dd" == "dd:dd:dd";
  }

  lemma ScannerValueOk(version: string)
    ensures ScannerOk(ScannerValue(version), version)
  {}

  lemma CorrectionValueOk(state: string)
    ensures CorrectionOk(CorrectionValue(state), state)
  {}

  lemma HeadOfReport(a: Analysis, now: Clock, version: string, exit: real, state: string)
    requires a.target != "" && a.target[0] != '/'
    ensures HeadOk(Obj(ReportFields(a, now, version, exit, state)), version)
  {
    hide ReportFields, ScannerValue, ScannerOk, IsoTime, UtcTime, ExactKeys, CorrectionValue, FindingValues, EscapeTerminal;
    ReportFieldsBy(a, now, version, exit, state);
    IsoTimeIsUtc(now);
    ScannerValueOk(version);
    EscapeIsPrintable(a.target);
  }

  /** RULES lists the first ten catalog entries in order, and can only report severities they allow. */
  lemma DetectorsFollowCatalog(k: nat, p: Probe)
    requires k < |RULES|
    ensures k < |CATALOG| && CATALOG[k].id == RULES[k].id && Grade(RULES[k], p) in CATALOG[k].severities
  {}

  predicate Allowed(x: Finding) {
    x.path != [] && RuleAllows(CATALOG, Str(x.rule), Str(x.severity))
  }

  lemma {:induction false} TextFindingsAllowed(path: seq<string>, matches: map<string, Probe>, k: nat, x: Finding)
    requires k <= |RULES| && path != [] && x in TextFindings(path, matches, RULES[k..])
    ensures Allowed(x) && x.path == path
    decreases |RULES| - k
  {
    hide Allowed;
    var d := RULES[k];
    assert RULES[k..][1..] == RULES[k + 1..];
    if d.id in matches && x == Finding(path, d.id, Grade(d, matches[d.id])) {
      DetectorsFollowCatalog(k, matches[d.id]);
      CatalogAllows(x, k);
    } else {
      TextFindingsAllowed(path, matches, k + 1, x);
    }
  }

  lemma CatalogAllows(x: Finding, k: nat)
    requires k < |CATALOG| && CATALOG[k].id == x.rule && x.severity in CATALOG[k].severities && x.path != []
    ensures Allowed(x)
  {}

  lemma LeafFindingsAllowed(l: Listed, x: Finding)
    requires l.path != [] && x in LeafFindings(l)
    ensures Allowed(x) && x.path == l.path
  {
    hide Allowed;
    match l.node
    case Link(_) =>
      assert CATALOG[11] == Rule("symlink-escape", [WARN]);
      CatalogAllows(x, 11);
    case File(Binary) =>
      assert CATALOG[10] == Rule("committed-binary", [DANGER]);
      CatalogAllows(x, 10);
    case File(Text(matches)) =>
      assert RULES[0..] == RULES;
      TextFindingsAllowed(l.path, matches, 0, x);
    case _ =>
  }

  lemma ListedPathNamed(entries: seq<Entry>, l: Listed)
    requires WellNamed(entries) && l in ListEntries(entries)
    ensures l.path != [] && FileName(l.path[0])
  {
    var i := ListingHasPart(entries, l);
    var e := entries[i];
    if e.node.Dir? { UnderMember([e.name], ListEntries(e.node.entries), l); }
  }

  lemma JoinIsRelative(path: seq<string>)
    requires path != [] && FileName(path[0])
    ensures JoinPath(path) != "" && JoinPath(path)[0] != '/'
  {
    assert path[0][0] in path[0];
  }

  lemma RowReportable(root: Node, x: Finding)
    requires root.Dir? ==> WellNamed(root.entries)
    requires x in AllFindings(WalkOf(root))
    ensures FindingOk(FindingValue(RowOf(x)), CATALOG)
    ensures HasSeverity(FindingValue(RowOf(x)), x.severity)
  {
    hide Allowed, LeafFindings, RuleAllows, WellNamed;
    FindingsAreOfLeaves(WalkOf(root), x);
    var i :| 0 <= i < |WalkOf(root)| && x in LeafFindings(WalkOf(root)[i]);
    ListedPathNamed(root.entries, WalkOf(root)[i]);
    LeafFindingsAllowed(WalkOf(root)[i], x);
    JoinIsRelative(x.path);
    EscapeIsPrintable(JoinPath(x.path));
    EscapeTwice(JoinPath(x.path));
    FindingValueOk(RowOf(x), x);
  }

  lemma FindingValueOk(row: Row, x: Finding)
    requires SafeText(Str(EscapeTerminal(row.file))) && row.rule == x.rule && row.severity == x.severity && Allowed(x)
    ensures FindingOk(FindingValue(row), CATALOG) && HasSeverity(FindingValue(row), row.severity)
  {
    hide RuleAllows, SafeText;
  }

  /** The findings of a report carry the severities of the findings they show. */
  lemma SameVerdict(findings: seq<Finding>, items: seq<Value>)
    requires |items| == |findings|
    requires forall i | 0 <= i < |findings| :: HasSeverity(items[i], findings[i].severity)
    ensures ExpectedVerdict(items) == VerdictOf(findings)
    ensures VerdictExit(VerdictOf(findings)) == Some(ExitCode(VerdictOf(findings)) as real)
  {
    forall s
      ensures SomeFinding(findings, s) <==> SomeSeverity(items, s)
    {
      if SomeFinding(findings, s) {
        var i :| 0 <= i < |findings| && findings[i].severity == s;
        assert HasSeverity(items[i], s);
      }
    }
  }

  lemma BodyOfReport(f: map<string, Value>, findings: seq<Finding>, items: seq<Value>)
    requires |items| == |findings| && Is(f, "findings", Arr(items)) && Is(f, "blanketSafetyScore", Null)
    requires forall i | 0 <= i < |findings| :: HasSeverity(items[i], findings[i].severity) && FindingOk(items[i], CATALOG)
    requires Is(f, "verdict", Str(VerdictOf(findings)))
    requires VerdictExit(VerdictOf(findings)).Some? ==>
               && Is(f, "exitCode", Num(VerdictExit(VerdictOf(findings)).value))
               && Is(f, "correction", CorrectionValue(VerdictState(VerdictOf(findings)).value))
    ensures BodyOk(f, CATALOG)
  {
    hide HasSeverity, FindingOk, CorrectionOk, CorrectionValue, SomeSeverity, SomeFinding;
    SameVerdict(findings, items);
    CorrectionValueOk(VerdictState(VerdictOf(findings)).value);
  }

  /** For every tree and every rule oracle, the analysis becomes an accepted report, and the report's
      exit code is the process exit code of its verdict. */
  lemma AnalysisIsReportable(arg: Argument, root: Node, now: Clock, version: string)
    requires WellFormedArgument(arg) && (root.Dir? ==> WellNamed(root.entries))
    ensures var a := AnalysisOf(arg, root);
            && VerdictExit(a.verdict) == Some(ExitCode(a.verdict) as real)
            && ReportOk(ReportOf(a, now, version), version, CATALOG)
  {
    hide HeadOk, BodyOk, ReportFields, FindingOk, HasSeverity, VerdictState, PublicTarget, RowOf, FindingValue, EscapeTerminal,
         WellFormedArgument, WellNamed, CorrectionValue, ScannerValue, IsoTime;
    var a := AnalysisOf(arg, root);
    var findings := AllFindings(WalkOf(root));
    var items := FindingValues(a.findings);
    forall i | 0 <= i < |findings|
      ensures HasSeverity(items[i], findings[i].severity) && FindingOk(items[i], CATALOG)
    {
      RowReportable(root, findings[i]);
    }
    SameVerdict(findings, items);
    TargetIsRelative(arg);
    EscapeIsPrintable(PublicTarget(arg));
    var exit, state := VerdictExit(a.verdict).value, VerdictState(a.verdict).value;
    HeadOfReport(a, now, version, exit, state);
    ReportFieldsBy(a, now, version, exit, state);
    BodyOfReport(ReportFields(a, now, version, exit, state), findings, items);
  }

  /** What the report shows of an argument and a tree: the public target, the counts, the process exit code, and one entry
      for each finding, in order. */
  lemma ReportShowsAnalysis(arg: Argument, root: Node, now: Clock, version: string)
    ensures var a, found := AnalysisOf(arg, root), AllFindings(WalkOf(root));
            && VerdictExit(a.verdict).Some? && ReportOf(a, now, version).Obj?
            && var f := ReportOf(a, now, version).fields;
            && Is(f, "generatedAt", Str(IsoTime(now)))
            && Is(f, "target", Str(EscapeTerminal(PublicTarget(arg))))
            && Is(f, "scanned", Num(ScannedCount(WalkOf(root)) as real)) && Is(f, "fileCount", Num(|WalkOf(root)| as real))
            && Is(f, "exitCode", Num(ExitCode(VerdictOf(found)) as real))
            && "findings" in f && f["findings"].Arr? && |f["findings"].items| == |found|
            && forall i | 0 <= i < |found| ::
                 f["findings"].items[i] == Obj(map["file" := Str(EscapeTerminal(JoinPath(found[i].path))),
                                                   "rule" := Str(found[i].rule), "severity" := Str(found[i].severity)])
  {
    hide ReportFields, AllFindings, WalkOf, ScannedCount, PublicTarget, EscapeTerminal, IsoTime, CorrectionValue, ScannerValue, JoinPath;
    var a, found := AnalysisOf(arg, root), AllFindings(WalkOf(root));
    TargetEscaped(arg, root);
    EscapeTwice(PublicTarget(arg));
    ReportFieldsBy(a, now, version, VerdictExit(a.verdict).value, VerdictState(a.verdict).value);
    forall i | 0 <= i < |found| {
      EscapeTwice(JoinPath(found[i].path));
    }
  }
}
