/** The rule catalog of rules.js, without its columns of display texts. */
module RuleCatalog {
  import opened Common

  datatype Rule = Rule(id: string, severities: seq<string>)

  const WARN := "warn"
  const DANGER := "danger"

  const CATALOG: seq<Rule> := [
    Rule("env-dump", [WARN, DANGER]),
    Rule("env-exfil", [DANGER]),
    Rule("exfil-host", [DANGER]),
    Rule("obfuscation", [DANGER]),
    Rule("shell-pipe", [WARN]),
    Rule("forced-artifact", [DANGER]),
    Rule("secret-literal", [DANGER]),
    Rule("prompt-injection", [WARN, DANGER]),
    Rule("dangerous-perms", [WARN]),
    Rule("install-hook", [WARN]),
    Rule("committed-binary", [DANGER]),
    Rule("symlink-escape", [WARN])
  ]

  /** Array.prototype.find by id: the first rule that carries it. */
  function RuleById(catalog: seq<Rule>, id: string): Option<Rule> {
    if catalog == [] then None
    else if catalog[0].id == id then Some(catalog[0])
    else RuleById(catalog[1..], id)
  }

  predicate SeverityName(s: string) {
    s == WARN || s == DANGER
  }

  /** What the schema and the validator both rely on: distinct printable ids, known severities. */
  ghost predicate WellFormed(catalog: seq<Rule>) {
    && (forall i, j | 0 <= i < j < |catalog| :: catalog[i].id != catalog[j].id)
    && (forall i | 0 <= i < |catalog| :: catalog[i].id != "" && ControlFree(catalog[i].id))
    && (forall i | 0 <= i < |catalog| :: catalog[i].severities != [])
    && (forall i, k | 0 <= i < |catalog| && 0 <= k < |catalog[i].severities| :: SeverityName(catalog[i].severities[k]))
  }

  lemma {:induction false} RuleByIdFinds(catalog: seq<Rule>, id: string)
    ensures RuleById(catalog, id).None? <==> forall i | 0 <= i < |catalog| :: catalog[i].id != id
    ensures RuleById(catalog, id).Some? ==> RuleById(catalog, id).value in catalog && RuleById(catalog, id).value.id == id
  {
    if catalog != [] {
      RuleByIdFinds(catalog[1..], id);
      assert forall i | 0 <= i < |catalog[1..]| :: catalog[1..][i] == catalog[i + 1];
      assert forall i | 1 <= i < |catalog| :: catalog[i] == catalog[1..][i - 1];
    }
  }

  /** Length and second letter already tell the twelve ids apart. */
  predicate EntryOk(rule: Rule, mark: (nat, char)) {
    && |rule.id| == mark.0 && 1 < |rule.id| && rule.id[1] == mark.1
    && ControlFree(rule.id)
    && rule.severities != []
    && forall k | 0 <= k < |rule.severities| :: SeverityName(rule.severities[k])
  }

  const MARKS: seq<(nat, char)> := [
    (8, 'n'), (9, 'n'), (10, 'x'), (11, 'b'), (10, 'h'), (15, 'o'),
    (14, 'e'), (16, 'r'), (15, 'a'), (12, 'n'), (16, 'o'), (14, 'y')
  ]

  lemma MarkedEntriesWellFormed(catalog: seq<Rule>, marks: seq<(nat, char)>)
    requires |catalog| == |marks|
    requires forall i, j | 0 <= i < j < |marks| :: marks[i] != marks[j]
    requires forall i | 0 <= i < |catalog| :: EntryOk(catalog[i], marks[i])
    ensures WellFormed(catalog)
  {
    forall i, j | 0 <= i < j < |catalog|
      ensures catalog[i].id != catalog[j].id
    {
      assert EntryOk(catalog[i], marks[i]) && EntryOk(catalog[j], marks[j]);
    }
    forall i | 0 <= i < |catalog|
      ensures catalog[i].id != "" && ControlFree(catalog[i].id) && catalog[i].severities != []
      ensures forall k | 0 <= k < |catalog[i].severities| :: SeverityName(catalog[i].severities[k])
    {
      assert EntryOk(catalog[i], marks[i]);
    }
  }

  lemma ExfiltrationEntries()
    ensures EntryOk(Rule("env-dump", [WARN, DANGER]), (8, 'n'))
    ensures EntryOk(Rule("env-exfil", [DANGER]), (9, 'n'))
    ensures EntryOk(Rule("exfil-host", [DANGER]), (10, 'x'))
    ensures EntryOk(Rule("obfuscation", [DANGER]), (11, 'b'))
  {}

  lemma InstructionEntries()
    ensures EntryOk(Rule("shell-pipe", [WARN]), (10, 'h'))
    ensures EntryOk(Rule("forced-artifact", [DANGER]), (15, 'o'))
  {}

  lemma TextEntries()
    ensures EntryOk(Rule("secret-literal", [DANGER]), (14, 'e'))
    ensures EntryOk(Rule("prompt-injection", [WARN, DANGER]), (16, 'r'))
  {}

  lemma ConfigurationEntries()
    ensures EntryOk(Rule("dangerous-perms", [WARN]), (15, 'a'))
    ensures EntryOk(Rule("install-hook", [WARN]), (12, 'n'))
  {}

  lemma TreeEntries()
    ensures EntryOk(Rule("committed-binary", [DANGER]), (16, 'o'))
    ensures EntryOk(Rule("symlink-escape", [WARN]), (14, 'y'))
  {}

  lemma CatalogWellFormed()
    ensures WellFormed(CATALOG)
  {
    ExfiltrationEntries();
    InstructionEntries();
    TextEntries();
    ConfigurationEntries();
    TreeEntries();
    assert |CATALOG| == |MARKS| == 12;
    MarkedEntriesWellFormed(CATALOG, MARKS);
  }
}
