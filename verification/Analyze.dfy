/** The rules and scanDir of index.js, and the verdict of analyze. */
module Analyze {
  import opened RuleCatalog
  import opened Scan

  datatype Severity = Fixed(severity: string) | WarnOrDanger
  datatype Detector = Detector(id: string, severity: Severity)

  /** RULES: a fixed severity, or one that depends on the file. */
  const RULES: seq<Detector> := [
    Detector("env-dump", WarnOrDanger), Detector("env-exfil", Fixed(DANGER)), Detector("exfil-host", Fixed(DANGER)),
    Detector("obfuscation", Fixed(DANGER)), Detector("shell-pipe", Fixed(WARN)), Detector("forced-artifact", Fixed(DANGER)),
    Detector("secret-literal", Fixed(DANGER)), Detector("prompt-injection", WarnOrDanger),
    Detector("dangerous-perms", Fixed(WARN)), Detector("install-hook", Fixed(WARN))
  ]

  datatype Finding = Finding(path: seq<string>, rule: string, severity: string)

  function Grade(d: Detector, p: Probe): string {
    match d.severity
    case Fixed(s) => s
    case WarnOrDanger => if p.risky then DANGER else WARN
  }

  function TextFindings(path: seq<string>, matches: map<string, Probe>, rules: seq<Detector>): seq<Finding> {
    if rules == [] then []
    else
      var d := rules[0];
      (if d.id in matches then [Finding(path, d.id, Grade(d, matches[d.id]))] else [])
      + TextFindings(path, matches, rules[1..])
  }

  /** The finding of rule k, which matched. */
  predicate Fires(path: seq<string>, matches: map<string, Probe>, d: Detector, x: Finding) {
    d.id in matches && x == Finding(path, d.id, Grade(d, matches[d.id]))
  }

  lemma {:induction false} TextFindingsMean(path: seq<string>, matches: map<string, Probe>, rules: seq<Detector>, x: Finding)
    ensures x in TextFindings(path, matches, rules) <==> exists k :: 0 <= k < |rules| && Fires(path, matches, rules[k], x)
  {
    hide Grade;
    if rules != [] {
      var rest := rules[1..];
      TextFindingsMean(path, matches, rest, x);
      assert x in TextFindings(path, matches, rules) <==> Fires(path, matches, rules[0], x) || x in TextFindings(path, matches, rest);
      hide TextFindings, Fires;
      assert forall k | 0 <= k < |rest| :: rest[k] == rules[k + 1];
      assert forall k | 1 <= k < |rules| :: rules[k] == rest[k - 1];
    }
  }

  function LeafFindings(l: Listed): seq<Finding> {
    match l.node
    case Link(escapes) => if escapes then [Finding(l.path, "symlink-escape", WARN)] else []
    case File(Binary) => [Finding(l.path, "committed-binary", DANGER)]
    case File(Text(matches)) => TextFindings(l.path, matches, RULES)
    case _ => []
  }

  function AllFindings(files: seq<Listed>): seq<Finding> {
    if files == [] then [] else AllFindings(files[..|files| - 1]) + LeafFindings(files[|files| - 1])
  }

  function ScannedCount(files: seq<Listed>): nat {
    if files == [] then 0
    else ScannedCount(files[..|files| - 1]) + (var n := files[|files| - 1].node; if n.File? && n.content.Text? then 1 else 0)
  }

  /** The loop over RULES for one text file. */
  method ApplyRules(path: seq<string>, matches: map<string, Probe>, rules: seq<Detector>) returns (found: seq<Finding>)
    ensures found == TextFindings(path, matches, rules)
  {
    found := [];
    for k := 0 to |rules|
      invariant found + TextFindings(path, matches, rules[k..]) == TextFindings(path, matches, rules)
    {
      var r := rules[k];
      assert rules[k..][1..] == rules[k + 1..];
      if r.id in matches { found := found + [Finding(path, r.id, Grade(r, matches[r.id]))]; }
    }
  }

  method ScanDir(root: Node) returns (findings: seq<Finding>, scanned: nat, fileCount: nat)
    ensures findings == AllFindings(WalkOf(root))
    ensures scanned == ScannedCount(WalkOf(root)) && fileCount == |WalkOf(root)|
  {
    hide Under, ListEntries;
    var out := new PathList();
    Walk(root, [], out);
    UnderRoot(WalkOf(root));
    var files := out.items;
    findings, scanned := [], 0;
    for i := 0 to |files|
      invariant findings == AllFindings(files[..i]) && scanned == ScannedCount(files[..i])
    {
      var f := files[i];
      assert files[..i + 1][..i] == files[..i];
      if f.node.Link? {
        if f.node.escapes { findings := findings + [Finding(f.path, "symlink-escape", WARN)]; }
        continue;
      }
      if !f.node.File? || f.node.content.Vanished? { continue; }
      if f.node.content.Binary? {
        findings := findings + [Finding(f.path, "committed-binary", DANGER)];
        continue;
      }
      if f.node.content.Oversized? { continue; }
      scanned := scanned + 1;
      var found := ApplyRules(f.path, f.node.content.matches, RULES);
      findings := findings + found;
    }
    assert files[..|files|] == files;
    fileCount := |files|;
  }

  predicate SomeFinding(findings: seq<Finding>, severity: string) {
    exists i :: 0 <= i < |findings| && findings[i].severity == severity
  }

  function VerdictOf(findings: seq<Finding>): string {
    if SomeFinding(findings, DANGER) then "dangerous" else if SomeFinding(findings, WARN) then "suspicious" else "clean"
  }

  /** verdictExit: the process exit code, and the order clean, suspicious, dangerous. */
  function ExitCode(verdict: string): nat {
    if verdict == "dangerous" then 3 else if verdict == "suspicious" then 2 else 0
  }

  /** The process exit code by the severities found. */
  lemma VerdictByFindings(findings: seq<Finding>)
    ensures ExitCode(VerdictOf(findings)) == 3 <==> exists x :: x in findings && x.severity == "danger"
    ensures ExitCode(VerdictOf(findings)) == 0 <==> forall x | x in findings :: x.severity != "danger" && x.severity != "warn"
    ensures ExitCode(VerdictOf(findings)) in {0, 2, 3}
  {
    forall s
      ensures SomeFinding(findings, s) <==> exists x :: x in findings && x.severity == s
    {
      if x :| x in findings && x.severity == s {
        var i :| 0 <= i < |findings| && findings[i] == x;
      }
    }
  }

  lemma {:induction false} FindingsAreOfLeaves(files: seq<Listed>, x: Finding)
    ensures x in AllFindings(files) <==> exists i :: 0 <= i < |files| && x in LeafFindings(files[i])
  {
    hide LeafFindings;
    if files != [] {
      var n := |files| - 1;
      FindingsAreOfLeaves(files[..n], x);
      assert forall i | 0 <= i < n :: files[..n][i] == files[i];
      assert x in AllFindings(files) <==> x in AllFindings(files[..n]) || x in LeafFindings(files[n]);
    }
  }

  predicate Read(l: Listed) {
    l.node.File? && l.node.content.Text?
  }

  /** The number of text files that were read. */
  lemma {:induction false} ScannedAreTexts(files: seq<Listed>)
    ensures ScannedCount(files) == |set i | 0 <= i < |files| && Read(files[i])|
  {
    if files != [] {
      var n := |files| - 1;
      ScannedAreTexts(files[..n]);
      var before := set i | 0 <= i < |files[..n]| && Read(files[..n][i]);
      var all := set i | 0 <= i < |files| && Read(files[i]);
      assert Read(files[n]) ==> all == before + {n};
      assert !Read(files[n]) ==> all == before;
    }
  }

  // ---- what is reported, in the terms of the tree -----------------------------------------

  /** The severity with which a rule that matched is reported, if it reads file texts. */
  predicate Judged(rule: string, p: Probe, severity: string) {
    if rule in ["env-dump", "prompt-injection"] then severity == (if p.risky then "danger" else "warn")
    else if rule in ["shell-pipe", "dangerous-perms", "install-hook"] then severity == "warn"
    else rule in ["env-exfil", "exfil-host", "obfuscation", "forced-artifact", "secret-literal"] && severity == "danger"
  }

  /** Why a leaf is reported under a rule. */
  predicate Explains(node: Node, rule: string, severity: string) {
    match node
    case Link(escapes) => escapes && rule == "symlink-escape" && severity == "warn"
    case File(Binary) => rule == "committed-binary" && severity == "danger"
    case File(Text(matches)) => rule in matches && Judged(rule, matches[rule], severity)
    case _ => false
  }

  lemma DetectorJudges(k: nat, p: Probe, severity: string)
    requires k < |RULES|
    ensures Grade(RULES[k], p) == severity <==> Judged(RULES[k].id, p, severity)
  {}

  lemma JudgedByDetector(rule: string, p: Probe, severity: string) returns (k: nat)
    requires Judged(rule, p, severity)
    ensures k < |RULES| && RULES[k].id == rule
  {
    k := if rule == "env-dump" then 0
         else if rule == "env-exfil" then 1
         else if rule == "exfil-host" then 2
         else if rule == "obfuscation" then 3
         else if rule == "shell-pipe" then 4
         else if rule == "forced-artifact" then 5
         else if rule == "secret-literal" then 6
         else if rule == "prompt-injection" then 7
         else if rule == "dangerous-perms" then 8
         else 9;
  }

  lemma LeafFindingsMean(l: Listed, x: Finding)
    ensures x in LeafFindings(l) <==> x.path == l.path && Explains(l.node, x.rule, x.severity)
  {
    hide Judged, TextFindings, Grade;
    if l.node.File? && l.node.content.Text? {
      var matches := l.node.content.matches;
      TextFindingsMean(l.path, matches, RULES, x);
      if x in LeafFindings(l) {
        var k :| 0 <= k < |RULES| && Fires(l.path, matches, RULES[k], x);
        DetectorJudges(k, matches[x.rule], x.severity);
      }
      if x.path == l.path && Explains(l.node, x.rule, x.severity) {
        var k := JudgedByDetector(x.rule, matches[x.rule], x.severity);
        DetectorJudges(k, matches[x.rule], x.severity);
        assert Fires(l.path, matches, RULES[k], x);
      }
    }
  }

  /** For every tree and every rule oracle, something is reported exactly when a leaf that can be reached without passing a
      skipped name explains it. */
  lemma ReportedExactly(entries: seq<Entry>, x: Finding)
    requires Distinct(entries)
    ensures x in AllFindings(WalkOf(Dir(entries))) <==>
            Visible(x.path) && LeafIn(entries, x.path).Some? && Explains(LeafIn(entries, x.path).value, x.rule, x.severity)
  {
    hide LeafFindings, Explains, Visible, LeafIn, AllFindings;
    var files := WalkOf(Dir(entries));
    FindingsAreOfLeaves(files, x);
    if x in AllFindings(files) {
      var i :| 0 <= i < |files| && x in LeafFindings(files[i]);
      LeafFindingsMean(files[i], x);
      EntriesReached(entries, files[i]);
    }
    if Visible(x.path) && LeafIn(entries, x.path).Some? && Explains(LeafIn(entries, x.path).value, x.rule, x.severity) {
      var l := Listed(x.path, LeafIn(entries, x.path).value);
      EntriesReached(entries, l);
      LeafFindingsMean(l, x);
      var i :| 0 <= i < |files| && files[i] == l;
    }
  }

  /** Growing a tree never lowers the verdict. */
  lemma VerdictMonotone(a: Node, b: Node)
    requires Grown(a, b)
    ensures ExitCode(VerdictOf(AllFindings(WalkOf(a)))) <= ExitCode(VerdictOf(AllFindings(WalkOf(b))))
  {
    hide *;
    var before, after := AllFindings(WalkOf(a)), AllFindings(WalkOf(b));
    forall x | x in before
      ensures x in after
    {
      FindingsAreOfLeaves(WalkOf(a), x);
      var i :| 0 <= i < |WalkOf(a)| && x in LeafFindings(WalkOf(a)[i]);
      GrownListsMore(a, b, WalkOf(a)[i]);
      FindingsAreOfLeaves(WalkOf(b), x);
    }
    VerdictByFindings(before);
    VerdictByFindings(after);
  }
}
