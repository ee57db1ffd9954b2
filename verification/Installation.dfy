/** The installation target of bootstrap_runtime.py as a persistent store: what its files record, which states are
    consistent, and how one state may follow another over any number of runs. */
module Installation {
  import opened Common

  datatype FileId = FileId(bytes: nat, sha256: string)
  type Tree = map<string, FileId>

  datatype Profile = StrictKv | ServerLock
  datatype Identity = Identity(profile: Profile, sourceFiles: Tree)

  datatype Stage = Dependencies | Materialize | Install | ReaderInstall | Replay

  const STAGES: seq<Stage> := [Dependencies, Materialize, Install, ReaderInstall, Replay]
  const DEPENDENCY_INPUTS: seq<string> := ["runtime-wheels.json", "runtime-requirements.lock", "peewee-source.json"]

  /** A log file of the run with this index and label. */
  datatype Log = Log(index: nat, name: string)

  datatype Store = Store(
    foreign: bool,                       // entries that no bootstrap wrote
    input: Option<Identity>,             // INPUT.json
    archives: map<nat, Identity>,        // INPUT-before-repair-<n>.json
    tools: Option<string>,               // TOOLS.json
    markers: set<Stage>,                 // <stage>.complete.json
    receipts: set<Log>,                  // logs/<index>-<label>.json
    stdouts: set<Log>,                   // logs/<index>-<label>.stdout
    stderrs: set<Log>,                   // logs/<index>-<label>.stderr
    probe: Tree, runtime: Tree, modules: Tree, venv: Tree, wheels: Tree,
    runtimeRecord: Option<Tree>,         // results/source-identity.json
    venvRecord: Option<Tree>,            // results/installed-files.json
    modulesRecord: Option<Tree>,         // results/npm-files.json
    wheelsRecord: Option<Tree>)          // results/wheels.json

  // ---- consistency ------------------------------------------------------------------------

  /** Completion markers form a prefix of the stage order. */
  predicate MarkerPrefix(markers: set<Stage>) {
    forall i, j | 0 <= i < j < |STAGES| :: STAGES[j] in markers ==> STAGES[i] in markers
  }

  /** Repair archives are numbered 1..k. */
  ghost predicate Archived(archives: map<nat, Identity>) {
    forall n :: n in archives <==> 1 <= n <= |archives|
  }

  /** Receipts are numbered 1..n, one for each number. */
  predicate Numbered(receipts: set<Log>) {
    && (forall x | x in receipts :: 1 <= x.index <= |receipts|)
    && (forall x, y | x in receipts && y in receipts && x.index == y.index :: x == y)
    && (forall i | 1 <= i <= |receipts| :: HasIndex(receipts, i))
  }

  predicate HasIndex(receipts: set<Log>, i: nat) {
    exists x :: x in receipts && x.index == i
  }

  predicate SameInput(a: Tree, b: Tree, name: string) {
    name in a && name in b && a[name] == b[name]
  }

  /** Same profile, same three dependency inputs. */
  predicate Lineage(a: Identity, b: Identity) {
    a == b || (a.profile == b.profile && forall i | 0 <= i < |DEPENDENCY_INPUTS| :: SameInput(a.sourceFiles, b.sourceFiles, DEPENDENCY_INPUTS[i]))
  }

  /** The labels of a stage's commands. */
  function Commands(stage: Stage): set<string> {
    match stage
    case Dependencies => {"download-runtime", "build-venv", "build-tools", "peewee-wheel"}
    case Materialize => {}
    case Install => {"runtime-venv", "runtime-install", "installed-identity"}
    case ReaderInstall => {"reader-install"}
    case Replay => {"18-case-replay"}
  }

  /** A log file without its receipt carries the next number if it can still be in the way, and is then one of the first
      unmarked stage. */
  predicate Pending(stdouts: set<Log>, receipts: set<Log>, markers: set<Stage>) {
    && (forall x | x in stdouts :: x.index <= |receipts| + 1)
    && forall x | x in stdouts && x.index == |receipts| + 1 ::
         NextStage(markers).Some? && x.name in Commands(NextStage(markers).value)
  }

  ghost predicate Consistent(s: Store) {
    && MarkerPrefix(s.markers) && Archived(s.archives) && Numbered(s.receipts)
    && s.receipts <= s.stderrs <= s.stdouts && Pending(s.stdouts, s.receipts, s.markers)
    && (s.input.None? ==> s.markers == {} && s.archives == map[])
    && (s.input.Some? ==> forall n | n in s.archives :: Lineage(s.archives[n], s.input.value))
  }

  // ---- succession -------------------------------------------------------------------------

  /** What every write, run, crash, resume and repair keeps. */
  predicate Later(s: Store, t: Store) {
    && s.markers <= t.markers
    && s.receipts <= t.receipts && s.stdouts <= t.stdouts && s.stderrs <= t.stderrs
    && (forall n | n in s.archives :: n in t.archives && t.archives[n] == s.archives[n])
    && (s.input.Some? ==> t.input.Some? && Lineage(s.input.value, t.input.value))
    && (s.input.Some? && Install in s.markers ==> t.input == s.input)
    && (s.input.Some? && t.input != s.input ==> s.input.value in t.archives.Values)
  }

  lemma LineageTransitive(a: Identity, b: Identity, c: Identity)
    requires Lineage(a, b) && Lineage(b, c)
    ensures Lineage(a, c)
  {}

  lemma LaterTransitive(s: Store, t: Store, u: Store)
    requires Later(s, t) && Later(t, u)
    ensures Later(s, u)
  {
    if s.input.Some? {
      LineageTransitive(s.input.value, t.input.value, u.input.value);
      if t.input != s.input {
        var n :| n in t.archives && t.archives[n] == s.input.value;
        assert n in u.archives && u.archives[n] == s.input.value;
      }
    }
  }

  lemma LaterReflexive(s: Store)
    ensures Later(s, s)
  {}

  lemma ReceiptNumbered(receipts: set<Log>, name: string)
    requires Numbered(receipts)
    ensures Log(|receipts| + 1, name) !in receipts
    ensures Numbered(receipts + {Log(|receipts| + 1, name)})
  {
    var x := Log(|receipts| + 1, name);
    var more := receipts + {x};
    assert |more| == |receipts| + 1;
    forall i | 1 <= i <= |more|
      ensures HasIndex(more, i)
    {
      if i == |more| {
        assert x in more;
      } else {
        assert HasIndex(receipts, i);
        var y :| y in receipts && y.index == i;
        assert y in more;
      }
    }
  }

  lemma ArchiveNumbered(archives: map<nat, Identity>, id: Identity)
    requires Archived(archives)
    ensures |archives| + 1 !in archives
    ensures Archived(archives[|archives| + 1 := id])
  {
    OneMoreKey(archives, |archives| + 1, id);
  }

  lemma OneMoreKey(archives: map<nat, Identity>, n: nat, id: Identity)
    requires n !in archives
    ensures |archives[n := id]| == |archives| + 1
  {
    var more := archives[n := id];
    assert more.Keys == archives.Keys + {n};
    assert |more| == |more.Keys| && |archives| == |archives.Keys|;
  }

  /** The first stage without a marker. */
  function NextStage(markers: set<Stage>): Option<Stage> {
    if Dependencies !in markers then Some(Dependencies)
    else if Materialize !in markers then Some(Materialize)
    else if Install !in markers then Some(Install)
    else if ReaderInstall !in markers then Some(ReaderInstall)
    else if Replay !in markers then Some(Replay)
    else None
  }

  lemma MarkNext(markers: set<Stage>)
    requires MarkerPrefix(markers) && NextStage(markers).Some?
    ensures MarkerPrefix(markers + {NextStage(markers).value})
  {
    assert forall i | 0 <= i < 5 :: STAGES[i] == [Dependencies, Materialize, Install, ReaderInstall, Replay][i];
  }

  // ---- final verification -----------------------------------------------------------------

  /** Every recorded file is there, unchanged. */
  predicate Holds(record: Tree, tree: Tree) {
    forall f | f in record :: f in tree && tree[f] == record[f]
  }

  /** What build re-verifies before it returns; `upstream` is the content of probe/upstream/SOURCES.json. */
  predicate Intact(s: Store, upstream: Tree) {
    && s.input.Some? && s.runtimeRecord.Some? && s.venvRecord.Some? && s.modulesRecord.Some? && s.wheelsRecord.Some?
    && Holds(s.input.value.sourceFiles, s.probe)
    && Holds(upstream, s.probe)
    && s.modules == s.modulesRecord.value
    && Holds(s.wheelsRecord.value, s.wheels)
    && s.runtime == s.runtimeRecord.value
    && s.venv == s.venvRecord.value
  }

  /** The three materialized trees are compared exactly: any added, removed or changed file is refused. */
  lemma TreeDriftRefused(s: Store, upstream: Tree, t: Tree)
    requires Intact(s, upstream)
    ensures Intact(s.(runtime := t), upstream) <==> t == s.runtime
    ensures Intact(s.(venv := t), upstream) <==> t == s.venv
    ensures Intact(s.(modules := t), upstream) <==> t == s.modules
  {}

  /** Probe files and wheels are compared by record: a change passes exactly when no recorded file is touched. */
  lemma RecordDriftRefused(s: Store, upstream: Tree, t: Tree)
    requires Intact(s, upstream)
    ensures Intact(s.(probe := t), upstream) <==> Holds(s.input.value.sourceFiles, t) && Holds(upstream, t)
    ensures Intact(s.(wheels := t), upstream) <==> Holds(s.wheelsRecord.value, t)
  {}

  /** So an additional file in the probe, or among the wheels, goes unnoticed. */
  lemma AddedProbeFileUnnoticed(s: Store, upstream: Tree, f: string, id: FileId)
    requires Intact(s, upstream) && f !in s.input.value.sourceFiles && f !in upstream && f !in s.wheelsRecord.value
    ensures Intact(s.(probe := s.probe[f := id]), upstream) && Intact(s.(wheels := s.wheels[f := id]), upstream)
  {}
}
