# Verified models of the gateway's protocols and reports

This project models the parts of the repository that carry promises across several functions or runs, and proves those
promises in Dafny. `dafny verify dfyconfig.toml` checks everything.

| modules | what they model |
|---|---|
| `Regex`, `Json`, `JsonSchema`, `RuleCatalog`, `Report`, `Validator` | the SkillGuard report contract, defined once as a generated JSON Schema 2020-12 document and once as a hand-written validator, and the proof that the two agree on every JSON value |
| `Scan`, `Terminal`, `Paths`, `Analyze`, `Delivery`, `Shell` | the tree walk, the rules, what is shown of a target, the scan result that becomes a report, and the shell line of a rescan |
| `Installation`, `Bootstrap`, `Archive` | the resumable Olas installer: a persistent store, runs that may crash before any write, repair, final re-verification, archive checks |
| `Encoder`, `JsonReader`, `CatalogProxy`, `ProxyReply`, `ProxyOutcome`, `ProxyExecutor`, `ProxyContent`, `ProxyWire`, `ProxyEscape`, `ProxyHonesty` | the Agentverse catalog proxy: which upstreams a request may contact, what it is answered, what a client reads in that answer, and the reply budget |
| `StreamReader`, `Ranking`, `Audit` | the discoverability audit: capped body reading, ranking, price reference, findings |
| `Price` | the atomic USDC printer of the server and the price parser of the audit |
| `Conversation` | the agent's tool-call loop |
| `RateLimiter` | the fixed-window limiter of the server |

Code that changes state is modelled as methods and classes, proved against functions of the old state; the promises are
lemmas about those functions and invariants of the methods. Servers, models, tools, commands, clocks and file contents are
parameters or nondeterministic, so every behaviour of theirs is covered, except where "Left out" says otherwise. Crashes are modelled in `Bootstrap.Installer.Write`:
any write may be the last one of its process.

What the code does where its promise is narrower or different:

- `validateReport` raises instead of rejecting when the verdict is an object with its own `toString`, or an array that
  contains one at any depth; in all other cases it agrees with the schema. The last three `allOf` entries of the schema and the final
  comparison of derived steps never reject anything that the rest accepts.
- The limiter allows 12k + 11 acceptances in k minutes, one fewer than 12(k + 1), and they do occur for every k of at least 1.
- A printed atomic amount of more than seven digits with a leading zero is not a price that the audit parses.
- `readStream` reports an abort as a timeout except when the signal fires while the catch block awaits its own cancel for an
  unclassified error; the exit is then stream-failed (`StreamReader.AbortExits`, `StreamReader.LateAbortIsNoTimeout`). It lets the
  rejection of `reader.cancel` escape when the signal was aborted before the call. A stream error that is itself named TimeoutError
  or AbortError ends in timeout without any abort, and one that carries the code body-cap is passed on (`StreamReader.ForeignCapExits`).
- A crash inside the first command of a stage, replay included, leaves an output file at which every later launch that gets to
  that stage refuses; a crash inside any other command does not (`Bootstrap.CrashWedgesExactly`). After an accepted source repair
  between materialize and install that changes or adds a file, an installation can never finish once its install stage has completed;
  removing files does no harm (`Bootstrap.RepairSticksExactly`, `Bootstrap.AddedOrChangedFileSticks`).
- Re-verification of probe files and wheels does not notice additional files (`Installation.AddedProbeFileUnnoticed`);
  re-verification of the runtime, the environment and the node modules does (`Installation.TreeDriftRefused`).
- In `_paid_challenge_text` the refusal of a redirect cannot be reached, because the bounded read refuses redirects first. The
  exception at the end of the status loop cannot be reached either.
- Braced text whose decoding fails with a ValueError that is not a JSON syntax error (an oversized integer) makes
  `parse_caller_selection` raise outside the try block of `execute`: nothing is contacted and nothing is replied.
- An example URL with, say, a control character in its path passes the tests for https and for the host, but the HTTP client refuses
  to build a request for it with an InvalidURL that `execute` does not catch: no reply is enqueued (`ProxyOutcome.EscapesExactly`).
- The system prompt counts as present when any message, of any role, has it as its content, so a user message with that text
  leaves the model without it (`Conversation.PromptPresentExactly`).

## Model

| member | source | states |
|---|---|---|
| `Report.SafeTextPattern` | experiments/scoped-surface-delivery-100312/deploy/runtime-artifact/files/report.js:24-25 | the schema's pattern for printable relative text, given its regular-expression meaning, accepts a string exactly when it is non-empty, has no C0/C1 control character and does not begin with a slash |
| `Report.UtcTimeIsLong` | experiments/scoped-surface-delivery-100312/deploy/runtime-artifact/files/report.js:22-23 | every string that the time pattern accepts has at least the 20 characters that the schema asks for separately |
| `Report.UtcTimePattern` | experiments/scoped-surface-delivery-100312/deploy/runtime-artifact/files/report.js:22-23 | the time pattern accepts exactly the texts YYYY-MM-DDThh:mm:ss with digits in these places, a fraction of at least one digit or none, and a Z |
| `Report.RuleBranchMeans` | experiments/scoped-surface-delivery-100312/deploy/runtime-artifact/files/report.js:63-66 | one if/then branch of the finding schema means: if the rule is this id, the severity is one that the rule allows |
| `Report.FindingMeans` | experiments/scoped-surface-delivery-100312/deploy/runtime-artifact/files/report.js:68-83 | the finding schema, with its two enumerations and one branch per rule, accepts exactly the findings whose rule is in the catalog with that severity and whose file is safe text; no extra and no missing key |
| `Report.VerdictBranchMeans` | experiments/scoped-surface-delivery-100312/deploy/runtime-artifact/files/report.js:85-114 | a verdict branch means: under this verdict the exit code, the correction texts and the presence of dangerous or warning findings are the ones that belong to it |
| `Report.VerdictBranchesDecide` | experiments/scoped-surface-delivery-100312/deploy/runtime-artifact/files/report.js:116-171 | for every JSON value, the schema without its last three allOf entries already accepts exactly the reports described by ReportOk |
| `Report.FindingsBranchesHold` | experiments/scoped-surface-delivery-100312/deploy/runtime-artifact/files/report.js:172-186 | each of the three converse branches, from findings to verdict, holds of every report |
| `Report.FindingsBranchesRedundant` | experiments/scoped-surface-delivery-100312/deploy/runtime-artifact/files/report.js:172-186 | for every JSON value, dropping the last three allOf entries never changes what the schema accepts |
| `Report.SchemaMeans` | experiments/scoped-surface-delivery-100312/deploy/runtime-artifact/files/report.js:116-189 | for every JSON value, the generated schema (JSON Schema 2020-12) accepts it exactly when it is a report: exact keys, head, findings admitted by the catalog, and the verdict, exit code and correction that the findings call for |
| `Validator.ValidateReport` | experiments/scoped-surface-delivery-100312/deploy/runtime-artifact/files/report.js:227-304 | for every JSON value, the hand-written validator returns ok exactly when the generated schema accepts the value; it raises exactly when the head is right and the verdict has no property key, and rejects in all other cases |
| `Validator.CheckSteps` | experiments/scoped-surface-delivery-100312/deploy/runtime-artifact/files/report.js:293-303 | the closing comparison of derived steps with the findings never rejects |
| `Validator.SameKeys` | experiments/scoped-surface-delivery-100312/deploy/runtime-artifact/files/report.js:199-204 | no complaint exactly when the object has every allowed key and no other |
| `Validator.SafeScope` | experiments/scoped-surface-delivery-100312/deploy/runtime-artifact/files/report.js:206-217 | no complaint exactly when the value is safe text in the sense of the schema pattern |
| `Validator.CheckHead` | experiments/scoped-surface-delivery-100312/deploy/runtime-artifact/files/report.js:229-250 | no complaint exactly when the part of a report that precedes its verdict is right |
| `Validator.CheckFinding` | experiments/scoped-surface-delivery-100312/deploy/runtime-artifact/files/report.js:256-268 | no complaint exactly when the finding is one that the schema's finding branches admit |
| `Validator.CheckCorrection` | experiments/scoped-surface-delivery-100312/deploy/runtime-artifact/files/report.js:275-292 | no complaint exactly when the correction has the state and canonical summary of the verdict and the derived rescan marker alone |
| `Validator.KeyFailsExactly` | experiments/scoped-surface-delivery-100312/deploy/runtime-artifact/files/report.js:251 | the verdict lookup raises exactly when the verdict is, or contains at any array depth, an object with its own toString field |
| `Validator.LookupIsNotATypeCheck` | experiments/scoped-surface-delivery-100312/deploy/runtime-artifact/files/report.js:251 | the array ["clean"] passes the verdict lookup, and an object with its own toString field makes it raise |
| `Json.KeyNames` | experiments/scoped-surface-delivery-100312/deploy/runtime-artifact/files/report.js:251 | a value is converted to a given name, such as a verdict, exactly when it is that text within any number of one-element arrays |
| `RuleCatalog.CatalogWellFormed` | experiments/scoped-surface-delivery-100312/deploy/runtime-artifact/files/rules.js:4-77 | the table has distinct, printable, non-empty ids and only known severities, which is what schema and validator rely on |
| `RuleCatalog.RuleByIdFinds` | experiments/scoped-surface-delivery-100312/deploy/runtime-artifact/files/rules.js:79-81 | lookup by id fails exactly when no rule has the id, and otherwise returns a rule of the table with that id |
| `Terminal.EscapeIsPrintable` | experiments/scoped-surface-delivery-100312/deploy/runtime-artifact/files/version.js:14-19 | escaped text has no control character, is empty only for empty text, and begins with a slash only if the text did |
| `Terminal.EscapeReadsBack` | experiments/scoped-surface-delivery-100312/deploy/runtime-artifact/files/version.js:14-19 | a control character is written as a backslash, u and four hexadecimal digits that read back as its code |
| `Terminal.EscapeTwice` | experiments/scoped-surface-delivery-100312/deploy/runtime-artifact/files/version.js:14-19 | escaping is idempotent, so escaping in analyze and again in buildReport is the same as once |
| `Terminal.RedactForgets` | experiments/scoped-surface-delivery-100312/deploy/runtime-artifact/files/version.js:21-34 | two URLs that differ only in credentials, query or fragment are shown alike |
| `Terminal.RenderShows` | experiments/scoped-surface-delivery-100312/deploy/runtime-artifact/files/version.js:21-34 | without redaction a URL is written with the user name and password it has, its query and its fragment |
| `Scan.Walk` | experiments/scoped-surface-delivery-100312/deploy/runtime-artifact/files/index.js:97-111 | the recursive walk, which terminates on every finite tree, appends exactly the leaves that the tree lists, in order, under the given path |
| `Scan.EntriesReached` | experiments/scoped-surface-delivery-100312/deploy/runtime-artifact/files/index.js:97-111 | a leaf is listed exactly when its path leads to it and no component of that path is a skipped name; links are leaves |
| `Scan.ListedOnce` | experiments/scoped-surface-delivery-100312/deploy/runtime-artifact/files/index.js:97-111 | no path is listed twice |
| `Scan.GrownListsMore` | experiments/scoped-surface-delivery-100312/deploy/runtime-artifact/files/index.js:97-111 | everything listed of a tree is listed of every tree that has grown from it |
| `Analyze.ApplyRules` | experiments/scoped-surface-delivery-100312/deploy/runtime-artifact/files/index.js:156-163 | the loop over the rules finds, in table order, each matching rule with the severity that the file calls for |
| `Analyze.TextFindingsMean` | experiments/scoped-surface-delivery-100312/deploy/runtime-artifact/files/index.js:156-163 | a finding is reported for a text file exactly when some rule of the table matched and it is that rule's finding |
| `Analyze.ScanDir` | experiments/scoped-surface-delivery-100312/deploy/runtime-artifact/files/index.js:138-168 | one scan yields the findings of all listed leaves in order, the number of scanned text files and the number of listed files; vanished, oversized and binary files and links are counted as the source counts them |
| `Analyze.ReportedExactly` | experiments/scoped-surface-delivery-100312/deploy/runtime-artifact/files/index.js:57-168 | for every tree and every rule oracle, a path, rule and severity are reported exactly when a leaf that is reached without passing a skipped name explains them: an escaping link, a binary file, or a text that the rule matched, with the severity of that rule |
| `Analyze.VerdictByFindings` | experiments/scoped-surface-delivery-100312/deploy/runtime-artifact/files/index.js:190-204 | the process exit code is 3 exactly with a danger, 0 exactly with neither danger nor warning, and 2 otherwise |
| `Analyze.ScannedAreTexts` | experiments/scoped-surface-delivery-100312/deploy/runtime-artifact/files/index.js:138-168 | the scanned count is the number of listed text files that were read |
| `Analyze.VerdictMonotone` | experiments/scoped-surface-delivery-100312/deploy/runtime-artifact/files/index.js:174-204 | for a fixed oracle per file, adding entries to a tree never lowers the verdict in the order clean, suspicious, dangerous |
| `Delivery.TargetIsRelative` | experiments/scoped-surface-delivery-100312/deploy/runtime-artifact/files/index.js:128-136 | the public target is never empty and never begins with a slash, for git and web addresses and for every pair of working directory and path |
| `Delivery.WebTarget` | experiments/scoped-surface-delivery-100312/deploy/runtime-artifact/files/index.js:128-129 | of a web address, the public target and the target of the analysis are scheme, host and path alone; an unreadable address is shown as redacted-url, a git@ address as it is |
| `Delivery.WebTargetForgets` | experiments/scoped-surface-delivery-100312/deploy/runtime-artifact/files/version.js:21-34 | two web addresses that agree in scheme, host and path have the same public target and the same target in the analysis |
| `Delivery.LocalTarget` | experiments/scoped-surface-delivery-100312/deploy/runtime-artifact/files/index.js:130-136 | a path strictly below the working directory is shown by its components from there on, which splitting at the slash gives back, unless the text would begin with two dots; every other local path is shown by its last component, the root as target; escaping in the analysis keeps the components apart |
| `Paths.SplitThenJoin` | experiments/scoped-surface-delivery-100312/deploy/runtime-artifact/files/index.js:133-134 | splitting a text at its slashes gives slash-free components that join to the text |
| `Paths.JoinThenSplit` | experiments/scoped-surface-delivery-100312/deploy/runtime-artifact/files/index.js:133-134 | joined slash-free components are split back into the same components |
| `Paths.EscapeKeepsComponents` | experiments/scoped-surface-delivery-100312/deploy/runtime-artifact/files/version.js:14-19 | escaping a path escapes its components and neither adds nor removes one |
| `Delivery.DetectorsFollowCatalog` | experiments/scoped-surface-delivery-100312/deploy/runtime-artifact/files/index.js:57-81 | every detector is the catalog entry of the same position and can only report severities that the entry allows |
| `Delivery.AnalyzeTarget` | experiments/scoped-surface-delivery-100312/deploy/runtime-artifact/files/index.js:174-200 | an analysis is the scan's findings with escaped relative paths, the verdict that their severities call for, and nothing at all for a target that cannot be read |
| `Delivery.IsoTimeIsUtc` | experiments/scoped-surface-delivery-100312/deploy/runtime-artifact/files/report.js:319 | the ISO text of every clock value matches the time pattern |
| `Delivery.IsoTimeReadsBack` | experiments/scoped-surface-delivery-100312/deploy/runtime-artifact/files/report.js:319 | every field of a clock that fits its digits is read back from its digits in the ISO text |
| `Delivery.RowReportable` | experiments/scoped-surface-delivery-100312/deploy/runtime-artifact/files/report.js:306-342 | every row that a scan can produce is a finding that the report contract admits, with its severity unchanged |
| `Delivery.AnalysisIsReportable` | experiments/scoped-surface-delivery-100312/deploy/runtime-artifact/files/report.js:306-342 | for every tree, every rule oracle, every target and every clock, the analysis is accepted by the report contract and the report's exit code equals the process exit code |
| `Delivery.ReportShowsAnalysis` | experiments/scoped-surface-delivery-100312/deploy/runtime-artifact/files/report.js:306-342 | the report of an analysis shows the public target, the two counts, the process exit code, and one entry per finding, in order, with its path, rule and severity |
| `Delivery.BuildReport` | experiments/scoped-surface-delivery-100312/deploy/runtime-artifact/files/report.js:306-342 | a report is built exactly when the verdict is known and the assembled value passes validation, and it is the assembled value |
| `Shell.ArgumentReadBack` | experiments/scoped-surface-delivery-100312/deploy/runtime-artifact/files/report.js:38-42 | a POSIX lexer reads a quoted argument, followed by anything, back as one word |
| `Shell.QuotedUnlessPlain` | experiments/scoped-surface-delivery-100312/deploy/runtime-artifact/files/report.js:38-42 | an argument stays as it is exactly when it is not empty and consists of letters, digits and _ . / : = @ + - alone |
| `Shell.CommandLineReadBack` | experiments/scoped-surface-delivery-100312/deploy/runtime-artifact/files/report.js:38-42 | lexing space-joined quoted arguments recovers every argument list, including empty strings, blanks, newlines and embedded quotes |
| `Shell.RescanReadBack` | experiments/scoped-surface-delivery-100312/deploy/runtime-artifact/files/report.js:51-53 | the rescan line lexes to exactly the five words node, index.js, target, --report and the displayed path |
| `RateLimiter.Limiter.Allow` | server.js:757-769 | one call opens a window, counts in the open window, or is refused without any change; other keys are untouched |
| `RateLimiter.WindowBound` | server.js:757-769 | for every trace with a clock that never runs backwards, no window hands out more than 12 |
| `RateLimiter.IntervalBound` | server.js:757-769 | in any half-open interval of k minutes a key gets at most 12k + 11 acceptances, which is sharper than 12(k + 1) |
| `RateLimiter.BoundIsReached` | server.js:757-769 | for every k of at least 1 there is an ordered trace with 12k + 11 acceptances in k minutes, 23 in one, so the bound is exact |
| `RateLimiter.KeysIndependent` | server.js:757-769 | the decisions for a key are those of the trace with all other keys removed |
| `RateLimiter.CountedAlways` | server.js:757-769 | every stored count stays between 1 and 12 over any trace |
| `Price.PrintThenParse` | server.js:459-466 | an amount is printed exactly when it is a non-empty run of digits; parsing it gives the amount back exactly when it is within the bound and has at most seven digits or no leading zero; a longer text with a leading zero is printed as a text that the parser rejects |
| `Price.NaturalRoundTrip` | agent-discoverability-audit.mjs:139-148 | printing and parsing is the identity on every natural up to 10^12 |
| `Price.ParsesExactly` | agent-discoverability-audit.mjs:139-148 | the parser accepts exactly whole digits without a superfluous zero, followed by a point and one to six digits or by nothing, up to the bound, with that many atomic units |
| `Price.ParseThenPrint` | agent-discoverability-audit.mjs:139-148 | printing a parsed price gives a canonical text of equal value, without trailing fractional zeros, and the text itself if it was canonical |
| `Conversation.FindIsMembership` | integrations/openserv-reader/upstream/src/agent.ts:887 | with unique names, looking a tool up by name finds every registered tool |
| `Conversation.Agent.AddCapability` | integrations/openserv-reader/upstream/src/agent.ts:408-433 | a capability is appended exactly when it parses and its name is new; names stay unique |
| `Conversation.Agent.RunToolCalls` | integrations/openserv-reader/upstream/src/agent.ts:877-939 | for every completion order, the results keep the order and ids of the calls; each result is the text of what its tool returned or of the error that its call caught, an unknown tool's error text included; a call that cannot be started rejects the batch with the first such failure |
| `Conversation.PromptPresentExactly` | integrations/openserv-reader/upstream/src/agent.ts:847-852 | the system prompt is in the initial conversation as a system message exactly when it was there already or no message has its text |
| `Conversation.UserCanHideThePrompt` | integrations/openserv-reader/upstream/src/agent.ts:847 | the input for which it is not: one user message with the prompt's text |
| `Conversation.InitialKeepsMessages` | integrations/openserv-reader/upstream/src/agent.ts:845-852 | the initial conversation ends with all of the given messages, and has one more message in front, the prompt, exactly when none of them has its text |
| `Conversation.PromptInAllSent` | integrations/openserv-reader/upstream/src/agent.ts:845-945 | every message list that a run sends has the system prompt under the same condition |
| `Conversation.Agent.Process` | integrations/openserv-reader/upstream/src/agent.ts:835-953 | for every behaviour of model and tools, the requests follow the protocol, there are at most ten, and the result is determined by what was received: a completion exactly when every request was answered and the last answer is a choice without tool calls, and then it is that message; a failure for a missing key, a request without an answer, an answer without a choice, the first fault of a batch that cannot start, or ten answers that all asked for tools, each exactly then |
| `Conversation.SentIsWellFormed` | integrations/openserv-reader/upstream/src/agent.ts:870-945 | every message list that a run sends is the initial conversation followed by whole blocks of one assistant message and one tool message per call, same ids, same order |
| `Conversation.EveryCallAnswered` | integrations/openserv-reader/upstream/src/agent.ts:870-945 | in whole blocks there are as many tool results as tool calls |
| `StreamReader.ReadStream` | agent-discoverability-audit.mjs:930-1009 | for every interleaving of chunks, end, errors, cancels and abort, the exit and the state of the signal are the ones of EndOf, the first turn that is no quiet chunk within the cap decides, nothing past the cap is buffered, a signal that was aborted beforehand ends in timeout or in the rejection of its cancel, and listeners are balanced on every exit |
| `StreamReader.TextAndCap` | agent-discoverability-audit.mjs:955-989 | text is returned exactly when the stream ends within the cap before any abort, and is the concatenation of all delivered chunks; the cap error is exactly an overflow whose cancel goes through without an abort |
| `StreamReader.AbortExits` | agent-discoverability-audit.mjs:990-1003 | an abort ends in a timeout except exactly when it comes during the closing cancel of an unclassified error (a read error, or a rejected cancel at the cap): then the read ends as stream-failed |
| `StreamReader.LateAbortIsNoTimeout` | agent-discoverability-audit.mjs:998 | the input: one ordinary read error, and a signal that fires during the closing cancel |
| `StreamReader.TimeoutWithoutAbort` | agent-discoverability-audit.mjs:990-995 | a timeout is reported without any abort exactly for a stream error that is itself named like one |
| `StreamReader.ForeignCapExits` | agent-discoverability-audit.mjs:997 | a body-cap error that is not the reader's own is passed on exactly when the stream, or a rejected cancel at the cap, brought it along |
| `StreamReader.StopIsLongest` | agent-discoverability-audit.mjs:946-990 | the turn at which the reader stops is the first that is no quiet chunk within the cap |
| `Ranking.Overlap` | agent-discoverability-audit.mjs:845-850 | the weighted overlap counts each query word that is available once |
| `Ranking.NormalizeMpp` | agent-discoverability-audit.mjs:852-893 | the kept list is the top of all scored entries |
| `Ranking.AllEntriesMean` | agent-discoverability-audit.mjs:855-885 | an entry is scored exactly when it is that of a paid endpoint, of a service over https, with a positive score |
| `Ranking.RankedIsSorted` | agent-discoverability-audit.mjs:852-893 | ranking loses and invents nothing and leaves no entry behind one that it beats, by score, then price with unknown last, then URL |
| `Ranking.TopIsTop` | agent-discoverability-audit.mjs:852-893 | the kept list is sorted, has the smaller of limit and all, and no dropped endpoint beats a kept one |
| `Ranking.SummarizeSource` | agent-discoverability-audit.mjs:1218-1246 | the best rank is that of the first match, no entry ahead of it matches, and the competitors are exactly the entries ahead of it (or all entries without a match), capped at five |
| `Ranking.RanksAreMatches` | agent-discoverability-audit.mjs:1218-1246 | a rank is listed exactly when the entry at that rank has the origin of the target or its settlement identity |
| `Ranking.RankCountsBetter` | agent-discoverability-audit.mjs:852-893 | a kept entry's rank is one plus the number of endpoints that beat it, up to ties |
| `Audit.RuntimePriceReference` | agent-discoverability-audit.mjs:486-503 | there is a live price reference exactly when the inspection is parseable and consistent and its canonical offers agree on a single amount |
| `Audit.PriceStatusMeans` | agent-discoverability-audit.mjs:1126-1162 | each of the five price statuses is characterized by what the records show; they exclude each other and leave nothing out |
| `Audit.SourcesPartition` | agent-discoverability-audit.mjs:1358-1359 | each of the ten sources is in exactly one of the found, missing and unavailable lists, once, by whether it failed and whether it lists the target |
| `Audit.SummariesArePriced` | agent-discoverability-audit.mjs:1260-1268 | the amount that summaries are compared with is the price reference, so a price observation of an available source is null exactly when there is no price reference |
| `Audit.PricesPartition` | agent-discoverability-audit.mjs:1372-1378 | with a price reference, each available source is in exactly one of the matched, drifted and unknown lists, once, by its status, and no other source is; without one the lists are empty |
| `Audit.AuditSources` | agent-discoverability-audit.mjs:1258-1514 | from runtime inspection, expected price and answers to the findings: the reference is the single canonical live amount or else the expected one, a source failed exactly when there is no answer, each other one keeps its answer and has the price status under the reference, and the loop reads no null price observation |
| `Audit.PriceFinding` | agent-discoverability-audit.mjs:1477-1508 | the price chain needs a non-null observation only under a price reference, and yields the finding of drift, mixed or unknown prices |
| `Audit.RouteFoundHasPrice` | agent-discoverability-audit.mjs:1128-1129 | the route is found exactly when there is a record, priced or not, to compare |
| `Audit.RoutePricesMean` | agent-discoverability-audit.mjs:1126-1135 | the prices that are compared are those of the items that match target and route |
| `Audit.BestRankIsFirst` | agent-discoverability-audit.mjs:1218-1232 | the best rank is 0 exactly without a target among the items; otherwise it is the position, counted from one, of the first target |
| `Audit.BestRankIsSummarized` | agent-discoverability-audit.mjs:1218-1232 | the rank that the findings report is the bestTargetRank of the source's summary |
| `Audit.RoutePriceFinding` | agent-discoverability-audit.mjs:1477-1508 | under a reference the status is route-absent exactly when the route is not found, and a found route gets a price finding exactly when its status is not matched |
| `Audit.FindingsLoop` | agent-discoverability-audit.mjs:1402-1514 | the loop yields the findings of each source in source order, each with its remarks before its conclusion |
| `Audit.OneConclusionEach` | agent-discoverability-audit.mjs:1402-1514 | for all source outcomes, each source gets exactly one terminal finding (unavailable, not in window, route absent, ranked), the one that its observation calls for |
| `Audit.ConclusionMeans` | agent-discoverability-audit.mjs:1418-1510 | the one conclusion about a source by what it answered: unavailable, no target, route absent, or ranked at the position of the first target, with top_3 up to rank 3, top_10 from 4 to 10 and below_top_10 from 11 |
| `Audit.FindingsMean` | agent-discoverability-audit.mjs:1402-1514 | for all source outcomes, each of the twelve kinds of findings is made about a source exactly once when the source's answer calls for it, and not at all otherwise |
| `Audit.FindingsInOrder` | agent-discoverability-audit.mjs:1402-1514 | findings come in source order, and the conclusion about a source is the last finding about it |
| `Archive.VerifyArchive` | integrations/olas-reader/bootstrap_runtime.py:50-61 | an archive is accepted exactly when all members are safe and the regular ones correspond one to one to the expected names, sizes and digests |
| `Archive.SafeMeans` | integrations/olas-reader/bootstrap_runtime.py:84-89 | a member is safe exactly when its name does not begin with a slash and has no component ".." between slashes, and it is no link or device |
| `Archive.KeptAt` | integrations/olas-reader/bootstrap_runtime.py:84-89 | of the components of a name the empty ones and "." fall away, every other one stays, in order |
| `Archive.Extract` | integrations/olas-reader/bootstrap_runtime.py:211-217 | extraction writes exactly the selected members, each strictly below its component directory even after following ".." components |
| `Archive.TargetBelow` | integrations/olas-reader/bootstrap_runtime.py:84-89 | a safe member's target has no ".." component and lies strictly below the component directory |
| `Archive.DotDotEscapes` | integrations/olas-reader/bootstrap_runtime.py:84-89 | the check on ".." is needed: without it a member can be written outside its component directory |
| `Bootstrap.Installer.Run` | integrations/olas-reader/bootstrap_runtime.py:155-172 | one command: stdout, stderr and receipt are each unchanged or one new file with the next number, and come into being in this order, with a possible crash before each; it refuses at a log file exactly when that number and label are there already, and then changes nothing |
| `Bootstrap.Installer.RunStage` | integrations/olas-reader/bootstrap_runtime.py:174-180 | a marked stage is skipped without any change; an unmarked one is started with the markers that exist, and is marked exactly when the stage returns; after materialize every source file outside upstream is in the probe; without a crash or a failure it returns or refuses at a log file |
| `Bootstrap.Installer.InstallStages` | integrations/olas-reader/bootstrap_runtime.py:300-302 | the first unmarked stage is the first to start; it refuses at a log file exactly when the first log file of that stage is there, and then changes nothing |
| `Bootstrap.Installer.Build` | integrations/olas-reader/bootstrap_runtime.py:300-316 | a build that returns has every recorded file and tree intact and all stages marked; one that neither crashes nor sees a command or a check fail ends otherwise only at a drifted record or an existing log file; it refuses at a log file exactly when it gets to a stage, replay included, whose first log file is there; a complete installation that is not intact is refused unchanged, and without replay it succeeds exactly when intact |
| `Bootstrap.Installer.Open` | integrations/olas-reader/bootstrap_runtime.py:118-153 | without a crash it raises exactly when preflight fails, when a non-empty target is not resumed with the recorded identity nor repaired before installation under the same profile and dependency inputs, or when the recorded tools differ; otherwise it succeeds and records the given identity and tools. A repair adds exactly one archive, numbered one more, with the previous identity; any other opening adds none; a refusal changes nothing |
| `Bootstrap.Installer.Launch` | integrations/olas-reader/bootstrap_runtime.py:319-330 | one process: if it returns, INPUT.json is this source's identity and every probe file matches it, so a repair after materialize cannot finish on stale probe files; drift of a complete installation is refused; without a crash, a failing command or a failing check it does not return only because it was not admitted or because what was recorded has drifted; once opened it refuses at a log file exactly when the store was blocked there, and such a store stays so |
| `Bootstrap.Installer.Runs` | integrations/olas-reader/bootstrap_runtime.py:118-316 | over any number of launches with any arguments, crashes and tampering with the trees: markers form a prefix of the stage order, archives and receipts stay numbered without gap or duplicate and are never overwritten, profile and dependency inputs never change, INPUT.json is frozen after installation, and the started stages form a chain from the first markers to the last |
| `Bootstrap.SameStageAgain` | integrations/olas-reader/bootstrap_runtime.py:174-180 | in such a chain, over any sequence of runs, a stage that left no marker is exactly the next to start |
| `Bootstrap.NeverStartedAgain` | integrations/olas-reader/bootstrap_runtime.py:174-180 | over any sequence of runs, markers only grow from start to start, and a stage whose marker exists is never started again |
| `Bootstrap.CrashWedgesExactly` | integrations/olas-reader/bootstrap_runtime.py:155-172 | a crash between opening a command's stdout and writing its receipt blocks the installation exactly when the command is the first of its stage |
| `Bootstrap.FreshTargetWedges` | integrations/olas-reader/bootstrap_runtime.py:155-172 | the input: a fresh target whose download command crashed |
| `Bootstrap.RepairSticksExactly` | integrations/olas-reader/bootstrap_runtime.py:127-135 | a repair that is accepted between materialize and install leaves an installation that can never finish, once its install stage has completed, exactly when the probe copied before does not hold every file of the repaired source |
| `Bootstrap.AddedOrChangedFileSticks` | integrations/olas-reader/bootstrap_runtime.py:127-135 | the inputs: a repair that adds or changes one file sticks, one that only removes files does not |
| `Bootstrap.Installer.Reverify` | integrations/olas-reader/bootstrap_runtime.py:304-314 | the loops of the re-verification pass exactly when every recorded file and tree is intact |
| `Installation.ReceiptNumbered` | integrations/olas-reader/bootstrap_runtime.py:156-169 | a receipt numbered one more than the count is new and keeps the numbers 1 to n, each once |
| `Installation.ArchiveNumbered` | integrations/olas-reader/bootstrap_runtime.py:133-134 | an archive numbered one more than the count is new and keeps the numbers 1 to k |
| `Installation.RecordDriftRefused` | integrations/olas-reader/bootstrap_runtime.py:304-309 | changing probe files or wheels passes re-verification exactly when every recorded file is still there unchanged |
| `Encoder.EncodeWithinWeight` | integrations/agentverse-a2a/catalog_proxy.py:125-126 | the encoding of every value is no longer than its weight, twelve bytes per code point plus punctuation |
| `Encoder.EncodeIsAscii` | integrations/agentverse-a2a/catalog_proxy.py:125-127 | every encoding is ASCII, so its UTF-8 length is its length |
| `Encoder.LightDumps` | integrations/agentverse-a2a/catalog_proxy.py:125-129 | a payload whose weight is within the budget is always encoded |
| `JsonReader.ReadBack` | integrations/agentverse-a2a/catalog_proxy.py:125-126 | for every value whose numbers are JSON numbers, and every following text that cannot extend a number, a JSON reader (RFC 8259, section 2) reads the encoding back as the value and leaves the following text |
| `JsonReader.TextBack` | integrations/agentverse-a2a/catalog_proxy.py:125-126 | the encoding as a whole text reads back as the value |
| `ProxyWire.ReplyReadsBack` | integrations/agentverse-a2a/catalog_proxy.py:125-149 | every reply, of whatever kind, reads back as its payload |
| `ProxyContent.RefusalSays` | integrations/agentverse-a2a/catalog_proxy.py:132-149 | a refusal says that it is one, its reason, no cash, no use, no inferred payment, the first 256 characters of its detail if any, the tool if any, and nothing else |
| `ProxyContent.AvailabilitySays` | integrations/agentverse-a2a/catalog_proxy.py:298-305 | a status shows state, callable, timestamp or null, origin and source, and nothing else |
| `ProxyContent.ClosedSays` | integrations/agentverse-a2a/catalog_proxy.py:387-410 | the reply while the gateway is not callable: the status, the ignored payment fields, the instruction for its state, and for a paid challenge the reason |
| `ProxyContent.FailureSays` | integrations/agentverse-a2a/catalog_proxy.py:612-624 | the reply of a failed discovery: the status, the first 256 characters of the failure, and a refusal with that reason exactly for three failures |
| `ProxyContent.FreeToolSays` | integrations/agentverse-a2a/catalog_proxy.py:474-535 | the reply of a free tool: tool, arguments, structured content or null, and its text, or no text and a mark when it was cut |
| `ProxyContent.PaidSays` | integrations/agentverse-a2a/catalog_proxy.py:537-585 | a paid challenge: the status, the merchant's body under httpStatus 402, the selected action, the ignored fields, and that nothing was paid or forwarded |
| `ProxyContent.BodySays` | integrations/agentverse-a2a/catalog_proxy.py:240-272 | the projected body: accepts, error, resource, version, and a copy of the whole exactly when it was not cut and has at most 12000 bytes |
| `CatalogProxy.SelectionKinds` | integrations/agentverse-a2a/catalog_proxy.py:194-237 | which kind of selection is parsed from which text, by the kind field alone |
| `CatalogProxy.FreeSelectionMeans` | integrations/agentverse-a2a/catalog_proxy.py:194-237 | a free tool is selected exactly for one of the two tools with its one argument, a non-blank public URL or host, which is passed on stripped |
| `CatalogProxy.PaymentFieldsMean` | integrations/agentverse-a2a/catalog_proxy.py:152-162 | a field is listed as ignored exactly when it is a payment field and is present at the top or among the arguments |
| `CatalogProxy.StatusMeans` | integrations/agentverse-a2a/catalog_proxy.py:308-328 | a status is accepted exactly when origin, state and callable agree and the timestamp is one, or is null for an unknown state |
| `CatalogProxy.TimestampMeans` | integrations/agentverse-a2a/catalog_proxy.py:308-328 | the accepted timestamps are exactly those built from year, month, day, time and milliseconds with these separators |
| `CatalogProxy.ReadBounded` | integrations/agentverse-a2a/catalog_proxy.py:275-295 | a body is delivered whole and within the bound, or refused for the first applicable reason |
| `ProxyExecutor.SelectionMeans` | integrations/agentverse-a2a/catalog_proxy.py:194-237 | parsing raises exactly for braced text whose decoding fails other than as malformed JSON, an invalid selection always carries a short reason, and what it passes on to a free tool is JSON text |
| `ProxyExecutor.Executor.ReadAvailability` | integrations/agentverse-a2a/catalog_proxy.py:344-384 | unless its timeout fires, the status is exactly what the last of this run's own status answers says, unknown if that does not parse, and a redirect of the first to the other address was followed; the loop never runs out |
| `ProxyExecutor.Executor.PaidChallengeText` | integrations/agentverse-a2a/catalog_proxy.py:537-585 | one catalog POST and, exactly when the catalog's action names a requestable URL on its own host, one GET of that URL; it raises exactly when that URL is not requestable; the redirect branch after the bounded read cannot be reached |
| `ProxyExecutor.Executor.Attempt` | integrations/agentverse-a2a/catalog_proxy.py:595-609 | the calls of a request conform to the automaton, the catalog is contacted exactly when the status is callable, and the outcome is the one that the answers call for |
| `ProxyExecutor.Executor.Execute` | integrations/agentverse-a2a/catalog_proxy.py:587-638 | every request whose text can be parsed makes only conforming upstream calls and enqueues exactly one reply, within the byte budget, unless the example URL of the catalog cannot be requested, when it enqueues none; without a selection nothing is contacted or replied; if the numbers in the upstream answers are JSON numbers, reading the reply as JSON gives exactly the payload |
| `ProxyOutcome.EscapesExactly` | integrations/agentverse-a2a/catalog_proxy.py:544-549 | no reply is enqueued exactly when the catalog's action, read last, names an example URL on its own host for which the HTTP client builds no request |
| `ProxyEscape.OneActionEscapes` | integrations/agentverse-a2a/catalog_proxy.py:544-549 | the input: a catalog with one action that names such a URL |
| `ProxyOutcome.ConformingIsBounded` | integrations/agentverse-a2a/catalog_proxy.py:587-638 | a conforming run makes at most four calls, at most two of them status reads of different addresses; it reaches catalog or merchant only after a status that it read itself was believed, and the merchant only last, over https, for a paid challenge, at the example URL and on the host of the action that the catalog just gave |
| `ProxyOutcome.SelectedIsHttps` | integrations/agentverse-a2a/catalog_proxy.py:86-122 | whatever the catalog says, a selected example URL is an https URL |
| `ProxyOutcome.ExtractionMeans` | integrations/agentverse-a2a/catalog_proxy.py:65-83 | a catalog is extracted exactly when it is the one data part of an agent message, with at most 64 actions and within the byte ceiling |
| `ProxyOutcome.ActionSelectionMeans` | integrations/agentverse-a2a/catalog_proxy.py:86-122 | the first action on the audited route decides: it is selected exactly when it has an https example URL and its projection fits, even if a later action would do |
| `ProxyOutcome.NoneAudited` | integrations/agentverse-a2a/catalog_proxy.py:86-122 | without an action on the audited route the catalog is refused |
| `ProxyOutcome.ProjectMeans` | integrations/agentverse-a2a/catalog_proxy.py:86-122 | a projection keeps exactly the listed fields that the action has |
| `ProxyOutcome.ReplyFits` | integrations/agentverse-a2a/catalog_proxy.py:587-638 | every reply is at most 32768 bytes, whatever the caller, the payment fields and the servers say |
| `ProxyReply.Refusal` | integrations/agentverse-a2a/catalog_proxy.py:132-149 | a refusal always fits: its fallback without detail and tool does |
| `ProxyReply.FailedDiscoveryFits` | integrations/agentverse-a2a/catalog_proxy.py:612-624 | the reply of a failed discovery, with 256 code points of detail, always fits |
| `ProxyHonesty.ReplyIsHonest` | integrations/agentverse-a2a/catalog_proxy.py:387-585 | no top-level entry of a reply claims cash, a payment, or an inferred or forwarded payment, and a reply is a paid challenge only if this run's own unpaid request was answered 402 |

## Left out

- Validator.SameKeys: the order in which unknown keys are reported, because keys are a finite map here; only whether there is a complaint is stated. The same holds for the texts of all rejections.
- Validator.ValidateReport: `ensureSchemaParity` (lines 220-225), which compares a file with the schema's text, is assumed to have passed.
- Scan.Walk: entries are visited in the order of the tree value; what readdir returns for names that are not valid text is not part of this model.
- Analyze.ScanDir: file contents, regular expressions of the rules, magic numbers, sizes and symlink resolution are an oracle per file.
- Delivery.TargetIsRelative: path resolution and URL parsing are done before the model; what is modelled is `path.relative` on resolved paths and what is shown of a parsed URL.
- Delivery.IsoTimeIsUtc: years outside 0 to 9999, which `toISOString` prints with a sign and six digits.
- Terminal.EscapeIsPrintable: lone surrogates, because a Dafny character is a Unicode scalar value.
- Shell.CommandLineReadBack: the lexer stops at words. Whether a word alone at the start of a line is an assignment or a reserved word is grammar, not lexing; double quotes, expansions and operators make a line more than words.
- RateLimiter.IntervalBound: a clock that runs backwards; the bound is stated for traces with a nondecreasing clock.
- Price.ParseThenPrint: trimming of the price text and the conversion of a number to text before parsing.
- Conversation.Agent.RunToolCalls: JSON text of a string is an oracle; tools are assumed not to change the message list or the tool list they are given.
- Conversation.Agent.Process: `handleError` is assumed not to raise.
- StreamReader.ReadStream: decoding of the returned bytes to text, a response without a body, and the variant without a signal.
- Ranking.NormalizeMpp: cleaning of candidates before they are scored, the tokenizer, and normalizers of the other catalogs; `localeCompare` is an arbitrary real-valued order of URL texts.
- Audit.FindingsLoop: the additional fields of a finding, `nextActions`, identity evaluation and the target surface audit.
- Archive.VerifyArchive: tar decoding; a digest is an abstract value.
- Bootstrap.Installer.Run: a command is assumed to write into no recorded tree but its own (wheels for pip download and wheel, the environment for venv and pip install, the node modules for npm ci); in particular npm and pip leave the probe's source files alone, on which the clauses about stale probe files rest. Also the contents of receipts and logs, time limits, and a write that is torn in the middle; one write is atomic.
- Bootstrap.Installer.Open: preflight checks of platform and path are one nondeterministic refusal, and the comparison of tools is an equality of texts.
- Bootstrap.Installer.Runs: between launches the five trees may be tampered with; INPUT.json, its archives, markers, receipts and log files are only written by the installer.
- Bootstrap.Installer.Build: the replay command is assumed to touch no recorded tree and no record. It runs after re-verification, so what it might change in them is not seen by the build that runs it.
- Bootstrap.Installer.InstallStages: pip, npm, downloads and the rows of the source lists are nondeterministic, so which files they leave is not stated, only that recorded ones are re-verified.
- Encoder.Encode: `sort_keys` for objects that an upstream sent; the order of keys does not change a length. Numbers are given by their text.
- ProxyExecutor.SelectionMeans: `strip`, `lower`, the public host and URL tests and JSON decoding are oracles.
- ProxyExecutor.Executor.Execute: which URLs the HTTP client refuses is an oracle; other exceptions outside the three kinds that `execute` catches (RecursionError in particular), and cancellation.
- ProxyWire.ReplyReadsBack: an upstream answer with NaN or an infinity, which Python's decoder accepts and its encoder writes back; the text is then no JSON, so reading back is stated for answers whose numbers are JSON numbers. The reader knows compact texts only, without blanks between tokens.
- Validator.CheckSteps: the correction texts themselves; a step refers to the rule whose text it shows.
- ProxyHonesty.ReplyIsHonest: nested entries; structuredContent, the challenge body and selectedAction pass upstream text through.
- Writing and reading report files, the human-readable printouts, `formatRetrieval`.
- Payment rails, route tables, discovery documents and the middleware chain: data, or code whose promises rest on libraries that are not part of this model.
- Floating-point price paths (`priceToAtomic`, `decimalPrice`, `observedPriceAtomic`).
