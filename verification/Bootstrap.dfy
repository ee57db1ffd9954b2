/** The Bootstrap class of bootstrap_runtime.py. Every write may be the last one of its process: Write either puts
    the next store in place or reports a crash. Commands, digests and checks of file contents are nondeterministic. */
module Bootstrap {
  import opened Common
  import opened Installation

  /** LogExists is the error of opening a log file that is already there. */
  datatype Status = Done | Crashed | Raised | LogExists

  /** The tree that a command writes into. */
  datatype Work = NoTree | OnWheels | OnVenv | OnModules

  /** A stage function that was called, and the markers that existed then. */
  datatype Start = Start(stage: Stage, markers: set<Stage>)

  /** The label of the first command of a stage. */
  function FirstLabel(stage: Stage): Option<string> {
    match stage
    case Dependencies => Some("download-runtime")
    case Materialize => None
    case Install => Some("runtime-venv")
    case ReaderInstall => Some("reader-install")
    case Replay => Some("18-case-replay")
  }

  predicate Orphaned(s: Store, name: string) {
    Log(|s.receipts| + 1, name) in s.stdouts
  }

  /** No log file carries the number of the next command. */
  predicate Settled(s: Store) {
    forall x | x in s.stdouts :: x.index <= |s.receipts|
  }

  lemma SettledFacts(s: Store, name: string)
    ensures Settled(s) ==> !Orphaned(s, name)
    ensures Consistent(s) && NextStage(s.markers) == Some(Materialize) ==> Settled(s)
  {}

  lemma SettledSame(s: Store, t: Store)
    requires SameLogs(s, t)
    ensures Settled(s) <==> Settled(t)
    ensures forall name :: Orphaned(s, name) <==> Orphaned(t, name)
  {}

  function InUpstream(t: Tree): Tree {
    map f | f in t && "upstream/" <= f :: t[f]
  }

  lemma CopiedStays(source: Tree, probe: Tree, diagnostics: Tree)
    ensures Holds(source, probe) ==> Copied(source, probe + InUpstream(diagnostics))
  {}

  lemma LogsTransitive(s: Store, t: Store, u: Store)
    requires SameLogs(s, t) && SameLogs(t, u)
    ensures SameLogs(s, u)
  {}

  /** Every source file outside upstream was copied into the probe. */
  predicate Copied(source: Tree, probe: Tree) {
    forall f | f in source && !("upstream/" <= f) :: f in probe && probe[f] == source[f]
  }

  /** A stage body leaves input, archives, tools and markers alone. */
  predicate SameControl(s: Store, t: Store) {
    s.foreign == t.foreign && s.input == t.input && s.archives == t.archives && s.tools == t.tools && s.markers == t.markers
  }

  predicate SameRecords(s: Store, t: Store) {
    && s.runtimeRecord == t.runtimeRecord && s.venvRecord == t.venvRecord
    && s.modulesRecord == t.modulesRecord && s.wheelsRecord == t.wheelsRecord
  }

  predicate SameTrees(s: Store, t: Store, work: Work) {
    && s.probe == t.probe && s.runtime == t.runtime
    && (work.OnModules? || s.modules == t.modules)
    && (work.OnVenv? || s.venv == t.venv)
    && (work.OnWheels? || s.wheels == t.wheels)
  }

  predicate SameLogs(s: Store, t: Store) {
    s.receipts == t.receipts && s.stdouts == t.stdouts && s.stderrs == t.stderrs
  }

  /** What a stage body may have done. */
  ghost predicate Worked(s: Store, t: Store) {
    Consistent(t) && Later(s, t) && SameControl(s, t)
  }

  lemma WorkedTransitive(s: Store, t: Store, u: Store)
    requires Worked(s, t) && Worked(t, u)
    ensures Worked(s, u)
  {
    hide Consistent, Later;
    LaterTransitive(s, t, u);
  }

  lemma LogsOnly(s: Store, t: Store)
    requires Consistent(s) && SameControl(s, t) && Numbered(t.receipts)
    requires s.receipts <= t.receipts && s.stdouts <= t.stdouts && s.stderrs <= t.stderrs
    requires t.receipts <= t.stderrs <= t.stdouts && Pending(t.stdouts, t.receipts, t.markers)
    ensures Worked(s, t)
  {
    hide Numbered, MarkerPrefix, Archived, Lineage, Pending;
    LineageReflexive(s);
  }

  lemma LineageReflexive(s: Store)
    ensures s.input.Some? ==> Lineage(s.input.value, s.input.value)
  {}

  class Installer {
    var store: Store
    var starts: seq<Start>
    var smooth: bool                 // no crash, no failed command and no failed check of what a command left
    const origin: set<Stage>         // the markers at the beginning

    constructor (s: Store)
      ensures store == s && starts == [] && smooth && origin == s.markers
    { store, starts, smooth, origin := s, [], true, s.markers; }

    /** One file write, or the crash that prevents it and everything after it. */
    method Write(next: Store) returns (alive: bool)
      modifies this`store, this`smooth
      ensures store == if alive then next else old(store)
      ensures smooth == (old(smooth) && alive)
    {
      alive := *;
      if alive { store := next; } else { smooth := false; }
    }

    /** Creates the two output files of a command. */
    method OpenLogs(name: string) returns (status: Status)
      requires Consistent(store)
      requires NextStage(store.markers).Some? && name in Commands(NextStage(store.markers).value)
      modifies this`store, this`smooth
      ensures !status.Raised?
      ensures smooth == (old(smooth) && !status.Crashed?)
      ensures status.LogExists? <==> Orphaned(old(store), name)
      ensures status.LogExists? ==> store == old(store)
      ensures store == old(store) || store == WithLog(old(store), name, 1) || store == WithLog(old(store), name, 2)
      ensures status.Done? ==> store == WithLog(old(store), name, 2)
    {
      hide Consistent;
      LogsOnlyParts(store);
      var log := Log(|store.receipts| + 1, name);
      if log in store.stdouts { return LogExists; }
      var alive := Write(store.(stdouts := store.stdouts + {log}));
      if !alive { return Crashed; }
      if log in store.stderrs { return LogExists; }
      alive := Write(store.(stderrs := store.stderrs + {log}));
      return if alive then Done else Crashed;
    }

    /** A command of the first unmarked stage. */
    method Run(name: string, work: Work) returns (status: Status)
      requires Consistent(store)
      requires NextStage(store.markers).Some? && name in Commands(NextStage(store.markers).value)
      modifies this`store, this`smooth
      ensures Worked(old(store), store) && SameRecords(old(store), store) && SameTrees(old(store), store, work)
      ensures store.markers == old(store).markers
      ensures status.LogExists? <==> Orphaned(old(store), name)
      ensures status.LogExists? ==> store == old(store)
      ensures Written(old(store), store, Log(|old(store).receipts| + 1, name))
      ensures smooth == (old(smooth) && (status.Done? || status.LogExists?))
      ensures status.Done? ==> store.receipts == old(store).receipts + {Log(|old(store).receipts| + 1, name)} && Settled(store)
    {
      hide Consistent, Worked, Written, Settled, Orphaned, Touched, WithLog;
      ghost var s := store;
      CommandKeeps(s, name, s, 0, work);
      CommandKeeps(s, name, WithLog(s, name, 1), 1, work);
      CommandKeeps(s, name, WithLog(s, name, 2), 2, work);
      NextLog(s, name);
      status := OpenLogs(name);
      if !status.Done? { return status; }
      ghost var t := store;
      Spawn(work);
      CommandKeeps(s, name, store, 2, work);
      ReceiptLast(s, name, store, work);
      var alive := Write(store.(receipts := store.receipts + {Log(|store.receipts| + 1, name)}));
      CommandKeeps(s, name, store, 3, work);
      if !alive { return Crashed; }
      var exit: int := *;
      if exit != 0 {
        smooth := false;
        return Raised;
      }
      return Done;
    }

    /** The command itself leaves anything in the tree that it writes into. */
    method Spawn(work: Work)
      modifies this`store
      ensures Touched(old(store), store, work)
    {
      var left: Tree := *;
      match work {
        case NoTree =>
        case OnWheels => store := store.(wheels := left);
        case OnVenv => store := store.(venv := left);
        case OnModules => store := store.(modules := left);
      }
    }

    /** Writes a record or a tree: nothing that Worked constrains. */
    method WriteResult(next: Store) returns (alive: bool)
      requires Consistent(store) && SameControl(store, next) && SameLogs(store, next)
      modifies this`store, this`smooth
      ensures store == if alive then next else old(store)
      ensures smooth == (old(smooth) && alive)
      ensures Worked(old(store), store) && SameLogs(old(store), store)
      ensures store.markers == old(store).markers
    {
      ghost var s := store;
      LogsOnlyParts(s);
      LogsOnly(s, s);
      LogsOnly(s, next);
      alive := Write(next);
    }

    /** The strict profile builds one wheel itself. */
    method BuildPeewee() returns (status: Status)
      requires Consistent(store) && NextStage(store.markers) == Some(Dependencies) && Settled(store)
      modifies this`store, this`smooth
      ensures smooth == (old(smooth) && status.Done?)
      ensures Worked(old(store), store) && store.probe == old(store).probe && store.markers == old(store).markers
      ensures !status.LogExists? && (status.Done? ==> Settled(store))
    {
      hide Consistent, Later, SameControl, Orphaned, Settled, Written;
      ghost var s := store;
      SettledFacts(store, "build-venv");
      status := Run("build-venv", NoTree);
      if !status.Done? { return status; }
      ghost var t := store;
      SettledFacts(store, "build-tools");
      status := Run("build-tools", NoTree);
      WorkedTransitive(s, t, store);
      if !status.Done? { return status; }
      t := store;
      SettledFacts(store, "peewee-wheel");
      status := Run("peewee-wheel", OnWheels);
      WorkedTransitive(s, t, store);
      if !status.Done? { return status; }
      var pure: bool := *;
      if !pure {
        smooth := false;
        return Raised;
      }
    }

    method DependenciesBody(profile: Profile) returns (status: Status)
      requires Consistent(store) && NextStage(store.markers) == Some(Dependencies)
      modifies this`store, this`smooth
      ensures smooth == (old(smooth) && (status.Done? || status.LogExists?))
      ensures Worked(old(store), store) && store.probe == old(store).probe
      ensures status.LogExists? <==> Orphaned(old(store), "download-runtime")
      ensures status.LogExists? ==> store == old(store)
      ensures status.Done? ==> Settled(store)
      ensures status.Done? ==> store.wheelsRecord.Some?
    {
      hide Consistent, Later, SameControl, Orphaned, Settled, Written;
      ghost var s := store;
      status := Run("download-runtime", OnWheels);
      if !status.Done? { return status; }
      var downloaded: bool := *;
      if !downloaded {
        smooth := false;
        return Raised;
      }
      if profile.StrictKv? {
        ghost var t := store;
        status := BuildPeewee();
        WorkedTransitive(s, t, store);
        if !status.Done? { return status; }
      }
      var selected: Tree := *;
      ghost var t := store;
      SameButResults(store, store.(wheelsRecord := Some(selected)));
      var alive := WriteResult(store.(wheelsRecord := Some(selected)));
      WorkedTransitive(s, t, store);
      SettledSame(t, store);
      return if alive then Done else Crashed;
    }

    /** shutil.copytree of the source, file by file. */
    method CopySource(source: Tree) returns (alive: bool)
      requires Consistent(store)
      modifies this`store, this`smooth
      ensures smooth == (old(smooth) && alive)
      ensures Worked(old(store), store) && SameLogs(old(store), store) && store.markers == old(store).markers
      ensures alive ==> Holds(source, store.probe)
    {
      hide Consistent, Later, SameControl, SameLogs;
      ghost var s := store;
      SameButResults(s, s);
      WorkedReflexive(s);
      var left := source.Keys;
      while left != {}
        invariant smooth == old(smooth) && Worked(s, store) && SameLogs(s, store) && store.markers == s.markers
        invariant left <= source.Keys && forall f | f in source && f !in left :: f in store.probe && store.probe[f] == source[f]
        decreases left
      {
        var f :| f in left;
        ghost var t := store;
        SameButResults(t, t.(probe := t.probe[f := source[f]]));
        alive := WriteResult(store.(probe := store.probe[f := source[f]]));
        WorkedTransitive(s, t, store);
        LogsTransitive(s, t, store);
        if !alive { return false; }
        left := left - {f};
      }
      return true;
    }

    method MaterializeBody(source: Tree) returns (status: Status)
      requires Consistent(store)
      modifies this`store, this`smooth
      ensures smooth == (old(smooth) && (status.Done? || status.LogExists?))
      ensures Worked(old(store), store) && SameLogs(old(store), store) && !status.LogExists?
      ensures status.Done? ==> store.runtimeRecord == Some(store.runtime) && Copied(source, store.probe)
    {
      hide Consistent, Later, SameControl, SameLogs, Copied;
      ghost var s := store;
      var alive := CopySource(source);
      if !alive { return Crashed; }
      var verified: bool := *;
      if !verified {
        smooth := false;
        return Raised;
      }
      // Extraction and downloads leave arbitrary runtime files; diagnostic copies overwrite files in upstream.
      var runtime: Tree, diagnostics: Tree := *, *;
      var probe := store.probe + InUpstream(diagnostics);
      CopiedStays(source, store.probe, diagnostics);
      ghost var t := store;
      SameButResults(t, t.(runtime := runtime, probe := probe));
      alive := WriteResult(store.(runtime := runtime, probe := probe));
      WorkedTransitive(s, t, store);
      LogsTransitive(s, t, store);
      if !alive { return Crashed; }
      t := store;
      SameButResults(t, t.(runtimeRecord := Some(t.runtime)));
      alive := WriteResult(store.(runtimeRecord := Some(store.runtime)));
      WorkedTransitive(s, t, store);
      LogsTransitive(s, t, store);
      return if alive then Done else Crashed;
    }

    method InstallBody() returns (status: Status)
      requires Consistent(store) && NextStage(store.markers) == Some(Install)
      modifies this`store, this`smooth
      ensures smooth == (old(smooth) && (status.Done? || status.LogExists?))
      ensures Worked(old(store), store) && store.probe == old(store).probe
      ensures status.LogExists? <==> Orphaned(old(store), "runtime-venv")
      ensures status.LogExists? ==> store == old(store)
      ensures status.Done? ==> Settled(store)
      ensures status.Done? ==> store.venvRecord == Some(store.venv)
    {
      hide Consistent, Later, SameControl, Orphaned, Settled, Written;
      ghost var s := store;
      status := Run("runtime-venv", OnVenv);
      if !status.Done? { return status; }
      ghost var t := store;
      SettledFacts(store, "runtime-install");
      status := Run("runtime-install", OnVenv);
      WorkedTransitive(s, t, store);
      if !status.Done? { return status; }
      t := store;
      SettledFacts(store, "installed-identity");
      status := Run("installed-identity", NoTree);
      WorkedTransitive(s, t, store);
      if !status.Done? { return status; }
      var closed: bool := *;
      if !closed {
        smooth := false;
        return Raised;
      }
      t := store;
      SameButResults(t, t.(venvRecord := Some(t.venv)));
      var alive := WriteResult(store.(venvRecord := Some(store.venv)));
      WorkedTransitive(s, t, store);
      SettledSame(t, store);
      return if alive then Done else Crashed;
    }

    method ReaderInstallBody() returns (status: Status)
      requires Consistent(store) && NextStage(store.markers) == Some(ReaderInstall)
      modifies this`store, this`smooth
      ensures smooth == (old(smooth) && (status.Done? || status.LogExists?))
      ensures Worked(old(store), store) && store.probe == old(store).probe
      ensures status.LogExists? <==> Orphaned(old(store), "reader-install")
      ensures status.LogExists? ==> store == old(store)
      ensures status.Done? ==> Settled(store)
      ensures status.Done? ==> store.modulesRecord == Some(store.modules)
    {
      hide Consistent, Later, SameControl, Orphaned, Settled, Written;
      ghost var s := store;
      status := Run("reader-install", OnModules);
      if !status.Done? { return status; }
      ghost var t := store;
      SameButResults(t, t.(modulesRecord := Some(t.modules)));
      var alive := WriteResult(store.(modulesRecord := Some(store.modules)));
      WorkedTransitive(s, t, store);
      SettledSame(t, store);
      return if alive then Done else Crashed;
    }

    method ReplayBody() returns (status: Status)
      requires Consistent(store) && NextStage(store.markers) == Some(Replay)
      modifies this`store, this`smooth
      ensures smooth == (old(smooth) && (status.Done? || status.LogExists?))
      ensures Worked(old(store), store) && SameRecords(old(store), store) && SameTrees(old(store), store, NoTree)
      ensures status.LogExists? <==> Orphaned(old(store), "18-case-replay")
      ensures status.LogExists? ==> store == old(store)
      ensures status.Done? ==> Settled(store)
    {
      status := Run("18-case-replay", NoTree);
    }

    method Body(stage: Stage, profile: Profile, source: Tree) returns (status: Status)
      requires Consistent(store) && NextStage(store.markers) == Some(stage)
      modifies this`store, this`smooth
      ensures smooth == (old(smooth) && (status.Done? || status.LogExists?))
      ensures Worked(old(store), store)
      ensures stage != Materialize ==> store.probe == old(store).probe
      ensures stage == Materialize && status.Done? ==> Copied(source, store.probe)
      ensures stage == Replay ==> SameRecords(old(store), store) && SameTrees(old(store), store, NoTree)
      ensures status.LogExists? <==> Wedged(old(store))
      ensures status.LogExists? ==> store == old(store)
      ensures status.Done? ==> Settled(store)
    {
      hide Consistent, Settled;
      match stage
      case Dependencies => status := DependenciesBody(profile);
      case Materialize =>
        SettledFacts(store, "");
        status := MaterializeBody(source);
        SettledSame(old(store), store);
      case Install => status := InstallBody();
      case ReaderInstall => status := ReaderInstallBody();
      case Replay => status := ReplayBody();
    }

    /** stage(name, function): skip a marked stage; run the others and mark them at the very end. */
    method RunStage(stage: Stage, profile: Profile, source: Tree) returns (status: Status)
      requires Consistent(store) && store.input.Some?
      requires stage in store.markers || NextStage(store.markers) == Some(stage)
      modifies this`store, this`smooth, this`starts
      ensures smooth == (old(smooth) && (status.Done? || status.LogExists?))
      ensures Consistent(store) && Later(old(store), store) && store.input == old(store).input
      ensures stage in old(store).markers ==> status.Done? && store == old(store) && starts == old(starts)
      ensures stage !in old(store).markers ==> starts == old(starts) + [Start(stage, old(store).markers)]
      ensures store.markers == if status.Done? then old(store).markers + {stage} else old(store).markers
      ensures stage != Materialize || stage in old(store).markers ==> store.probe == old(store).probe
      ensures stage == Materialize && stage !in old(store).markers && status.Done? ==> Copied(source, store.probe)
      ensures stage == Replay ==> SameRecords(old(store), store) && SameTrees(old(store), store, NoTree)
      ensures status.LogExists? <==> stage !in old(store).markers && Wedged(old(store))
      ensures status.LogExists? ==> store == old(store)
      ensures status.Done? && stage !in old(store).markers ==> Settled(store)
    {
      hide Consistent, Later, Wedged, SameRecords, SameTrees, Settled;
      ghost var s := store;
      LaterReflexive(s);
      MarkFrame(s, s, stage);
      if stage in store.markers {
        assert store.markers + {stage} == store.markers;
        return Done;
      }
      starts := starts + [Start(stage, store.markers)];
      status := Body(stage, profile, source);
      if !status.Done? { return status; }
      Marked(store, stage);
      MarkFrame(s, store, stage);
      ghost var t := store;
      var alive := Write(store.(markers := store.markers + {stage}));
      SettledSame(t, store);
      LaterReflexive(t);
      LaterTransitive(s, t, store);
      return if alive then Done else Crashed;
    }

    /** A loop of verify over recorded files: each must be there with its recorded identity. */
    method VerifyFiles(record: Tree, tree: Tree) returns (ok: bool)
      ensures ok <==> Holds(record, tree)
    {
      var left := record.Keys;
      while left != {}
        invariant left <= record.Keys
        invariant forall f | f in record && f !in left :: f in tree && tree[f] == record[f]
        decreases left
      {
        var f :| f in left;
        if f !in tree || tree[f] != record[f] { return false; }
        left := left - {f};
      }
      return true;
    }

    /** The read-only part of build, in its order; a missing record file raises. */
    method Reverify(upstream: Tree) returns (ok: bool)
      ensures ok <==> Intact(store, upstream)
    {
      if store.input.None? { return false; }
      ok := VerifyFiles(store.input.value.sourceFiles, store.probe);
      if !ok { return false; }
      ok := VerifyFiles(upstream, store.probe);
      if !ok { return false; }
      if store.modulesRecord.None? || store.modules != store.modulesRecord.value { return false; }
      if store.wheelsRecord.None? { return false; }
      ok := VerifyFiles(store.wheelsRecord.value, store.wheels);
      if !ok { return false; }
      if store.runtimeRecord.None? || store.runtime != store.runtimeRecord.value { return false; }
      if store.venvRecord.None? || store.venv != store.venvRecord.value { return false; }
      return true;
    }

    /** The four installing stages in order. */
    method InstallStages(profile: Profile, source: Tree) returns (status: Status)
      requires Consistent(store) && store.input.Some?
      modifies this`store, this`smooth, this`starts
      ensures smooth == (old(smooth) && (status.Done? || status.LogExists?))
      ensures Progress(origin, old(store), old(starts), store, starts)
      ensures status.Done? ==> INSTALLED <= store.markers && LastMarked(old(starts), store.markers, starts)
      ensures status.LogExists? <==> Wedged(old(store)) && NextStage(old(store).markers) != Some(Replay)
      ensures status.LogExists? ==> store == old(store)
      ensures status.Done? ==> store == old(store) || Settled(store)
      ensures INSTALLED <= old(store).markers ==> status.Done? && store == old(store) && starts == old(starts)
    {
      hide Consistent, Later, Wedged, Settled, Progress, LastMarked, NextStage, SameRecords, SameTrees;
      ghost var s := store;
      NoProgress(origin, s, starts);
      InstalledNext(s);
      var stages := [Dependencies, Materialize, Install, ReaderInstall];
      for i := 0 to |stages|
        invariant Progress(origin, s, old(starts), store, starts) && LastMarked(old(starts), store.markers, starts)
        invariant smooth == old(smooth) && forall j | 0 <= j < i :: stages[j] in store.markers
        invariant (store == s && starts == old(starts)) || (Settled(store) && !Wedged(s))
        invariant INSTALLED <= s.markers ==> store == s && starts == old(starts)
      {
        ghost var t, begun := store, starts;
        ProgressParts(origin, s, old(starts), t, begun);
        ThisStageNext(t, i);
        SettledNotWedged(t);
        NextIsInstall(s, stages[i]);
        status := RunStage(stages[i], profile, source);
        StageProgress(origin, s, old(starts), t, begun, store, starts, stages[i]);
        if !status.Done? { return status; }
      }
      assert stages[0] in store.markers && stages[1] in store.markers && stages[2] in store.markers && stages[3] in store.markers;
      InstalledNext(store);
      return Done;
    }

    /** The replay stage, after everything was verified. */
    method ReplayStage(profile: Profile, source: Tree, upstream: Tree) returns (status: Status)
      requires Consistent(store) && store.input.Some? && INSTALLED <= store.markers && Intact(store, upstream)
      modifies this`store, this`smooth, this`starts
      ensures smooth == (old(smooth) && (status.Done? || status.LogExists?))
      ensures Intact(store, upstream) && INSTALLED <= store.markers
      ensures forall s, a | Progress(origin, s, a, old(store), old(starts)) && LastMarked(a, old(store).markers, old(starts)) ::
                Progress(origin, s, a, store, starts)
      ensures status.Done? ==> Replay in store.markers
      ensures status.LogExists? <==> NextStage(old(store).markers) == Some(Replay) && Wedged(old(store))
      ensures status.LogExists? ==> store == old(store)
      ensures NextStage(old(store).markers) != Some(Replay) ==> store == old(store)
    {
      hide Consistent, Later, Intact, Wedged, Progress, LastMarked, SameRecords, SameTrees;
      ghost var t, begun := store, starts;
      AllButReplay(t);
      InstalledNext(t);
      status := RunStage(Replay, profile, source);
      SameIntact(t, store, upstream);
      forall s, a | Progress(origin, s, a, t, begun) && LastMarked(a, t.markers, begun) {
        StageProgress(origin, s, a, t, begun, store, starts, Replay);
      }
    }

    method Build(profile: Profile, source: Tree, upstream: Tree, replay: bool) returns (status: Status)
      requires Consistent(store) && store.input.Some?
      modifies this`store, this`smooth, this`starts
      ensures smooth ==> old(smooth) && (status.Done? || status.LogExists? || Drifted(status, store, upstream))
      ensures Progress(origin, old(store), old(starts), store, starts)
      ensures status.Done? ==> Intact(store, upstream) && INSTALLED <= store.markers && (replay ==> Replay in store.markers)
      ensures status.LogExists? <==> Blocked(old(store), upstream, replay)
      ensures Wedged(old(store)) ==> store == old(store)
      ensures Wedged(old(store)) && status.Done? ==> NextStage(old(store).markers) == Some(Replay) && !replay
      ensures INSTALLED <= old(store).markers && !Intact(old(store), upstream) ==> status.Raised? && store == old(store)
      ensures INSTALLED <= old(store).markers && !replay ==>
                (status.Done? <==> Intact(old(store), upstream)) && store == old(store) && starts == old(starts)
    {
      hide Consistent, Later, Intact, Wedged, Settled, Progress, LastMarked, NextStage;
      ghost var s := store;
      InstalledNext(s);
      status := InstallStages(profile, source);
      if !status.Done? { return status; }
      ProgressParts(origin, s, old(starts), store, starts);
      InstalledNext(store);
      SettledNotWedged(store);
      var ok := Reverify(upstream);
      if !ok { return Raised; }
      if replay { status := ReplayStage(profile, source, upstream); }
    }

    /** Bootstrap.__init__ after its arguments are known; `tools` is what tool_identity reports. */
    method Open(profile: Profile, source: Tree, resume: bool, repair: bool, tools: string) returns (status: Status, preflight: bool)
      requires Consistent(store)
      modifies this`store, this`smooth
      ensures Consistent(store) && Later(old(store), store) && SameBelow(old(store), store)
      ensures Refuses(old(store), Identity(profile, source), resume, repair) ==> !status.Done? && store == old(store)
      ensures status.Done? ==> store.input == Some(Identity(profile, source)) && store.tools == Some(tools)
      ensures old(store).tools.Some? ==> store.tools == old(store).tools
      ensures !status.LogExists?
      ensures smooth == (old(smooth) && !status.Crashed?)
      ensures !status.Crashed? ==> (status.Raised? <==> Inadmissible(old(store), Identity(profile, source), resume, repair, tools, preflight))
      ensures status.Crashed? ==> preflight && !Refuses(old(store), Identity(profile, source), resume, repair)
      ensures status.Done? ==> store.archives == ArchivesAfter(old(store), Identity(profile, source))
    {
      hide Consistent, Later;
      ghost var s := store;
      LaterReflexive(s);
      preflight := *;               // platform, tools and target path
      if !preflight { return Raised, false; }
      var identity := Identity(profile, source);
      if store.foreign || store.input.Some? {
        if !resume || store.input.None? { return Raised, preflight; }
        var previous := store.input.value;
        if previous != identity {
          if !repair || previous.profile != profile || Install in store.markers { return Raised, preflight; }
          for i := 0 to |DEPENDENCY_INPUTS|
            invariant forall j | 0 <= j < i :: SameInput(previous.sourceFiles, source, DEPENDENCY_INPUTS[j])
          {
            if !SameInput(previous.sourceFiles, source, DEPENDENCY_INPUTS[i]) { return Raised, preflight; }
          }
          var revision := |store.archives| + 1;
          ArchiveKeeps(s, previous);
          var alive := Write(store.(archives := store.archives[revision := previous]));
          if !alive { return Crashed, preflight; }
          ghost var t := store;
          RepairKeeps(t, revision, identity);
          alive := Write(store.(input := Some(identity)));
          LaterReflexive(t);
          LaterTransitive(s, t, store);
          if !alive { return Crashed, preflight; }
        }
      } else {
        FirstInputKeeps(s, identity);
        var alive := Write(store.(input := Some(identity)));
        if !alive { return Crashed, preflight; }
      }
      if store.tools.Some? && store.tools.value != tools { return Raised, preflight; }
      if store.tools.None? {
        ghost var t := store;
        ToolsKeep(t, tools);
        var alive := Write(store.(tools := Some(tools)));
        LaterReflexive(t);
        LaterTransitive(s, t, store);
        if !alive { return Crashed, preflight; }
      }
      return Done, preflight;
    }

    /** One process: Bootstrap(...).build(...). ready tells whether the first half succeeded. */
    method Launch(profile: Profile, source: Tree, resume: bool, repair: bool, tools: string, upstream: Tree, replay: bool)
      returns (status: Status, ready: bool)
      requires Consistent(store)
      modifies this`store, this`smooth, this`starts
      ensures smooth && !status.Done? && !status.LogExists? ==> status.Raised? && (ready ==> Drifted(status, store, upstream))
      ensures Consistent(store) && Later(old(store), store)
      ensures status.Done? ==> Intact(store, upstream) && store.input == Some(Identity(profile, source)) && INSTALLED <= store.markers
      ensures Chained(origin, old(starts), old(store).markers) ==> Chained(origin, starts, store.markers)
      ensures Resumed(old(starts), starts, old(store).markers, store.markers)
      ensures Refuses(old(store), Identity(profile, source), resume, repair) ==> !status.Done? && store == old(store)
      ensures Materialize in old(store).markers && !Holds(source, old(store).probe) ==> !status.Done?
      ensures INSTALLED <= old(store).markers && !Intact(old(store), upstream) ==> !status.Done?
      ensures Stuck(old(store)) ==> !status.Done? && Stuck(store)
      ensures status.LogExists? <==> ready && Blocked(old(store), upstream, replay)
      ensures Wedged(old(store)) ==> Wedged(store) && store.markers == old(store).markers
      ensures Wedged(old(store)) && status.Done? ==> NextStage(old(store).markers) == Some(Replay) && !replay
    {
      hide Consistent, Later, Intact, Wedged, Refuses, Resumed, Chained, Stuck;
      ghost var s := store;
      InstalledNext(s);
      var preflight;
      status, preflight := Open(profile, source, resume, repair, tools);
      ready := status.Done?;
      ghost var t := store;
      WedgeStays(s, t);
      FrozenIntact(s, t, upstream);
      ResumedNothing(starts, s.markers);
      if !ready {
        StuckStays(s, t);
        return status, ready;
      }
      status := Build(profile, source, upstream, replay);
      ProgressParts(origin, t, old(starts), store, starts);
      LaterTransitive(s, t, store);
      StuckStays(s, store);
      IntactProbe(store, upstream);
    }

    /** Any number of launches, with any arguments, any crashes, and any tampering with the trees in between. */
    method Runs(launches: nat)
      requires Consistent(store) && starts == [] && origin == store.markers
      modifies this`store, this`smooth, this`starts
      ensures Consistent(store) && Later(old(store), store)
      ensures Chained(origin, starts, store.markers)
    {
      hide Consistent, Later;
      ghost var s := store;
      LaterReflexive(s);
      for i := 0 to launches
        invariant Consistent(store) && Later(s, store) && Chained(origin, starts, store.markers)
      {
        ghost var t := store;
        var probe: Tree, runtime: Tree, modules: Tree, venv: Tree, wheels: Tree := *, *, *, *, *;
        TamperKeeps(t, probe, runtime, modules, venv, wheels);
        store := store.(probe := probe, runtime := runtime, modules := modules, venv := venv, wheels := wheels);
        LaterTransitive(s, t, store);
        t := store;
        var profile: Profile, source: Tree, tools: string, upstream: Tree := *, *, *, *;
        var resume: bool, repair: bool, replay: bool := *, *, *;
        var _, _ := Launch(profile, source, resume, repair, tools, upstream, replay);
        LaterTransitive(s, t, store);
      }
    }
  }

  lemma MarkFrame(s: Store, t: Store, stage: Stage)
    ensures SameRecords(s, t) ==> SameRecords(s, t.(markers := t.markers + {stage}))
    ensures SameTrees(s, t, NoTree) ==> SameTrees(s, t.(markers := t.markers + {stage}), NoTree)
    ensures SameRecords(s, s) && SameTrees(s, s, NoTree)
  {}

  const INSTALLED: set<Stage> := {Dependencies, Materialize, Install, ReaderInstall}

  lemma AllButReplay(s: Store)
    requires INSTALLED <= s.markers
    ensures Replay in s.markers || NextStage(s.markers) == Some(Replay)
  {
    assert Dependencies in INSTALLED && Materialize in INSTALLED && Install in INSTALLED && ReaderInstall in INSTALLED;
  }

  lemma SameIntact(s: Store, t: Store, upstream: Tree)
    requires s.input == t.input && SameRecords(s, t) && SameTrees(s, t, NoTree) && Intact(s, upstream)
    ensures Intact(t, upstream)
  {}

  lemma LogsOnlyParts(s: Store)
    requires Consistent(s)
    ensures Numbered(s.receipts) && s.receipts <= s.stderrs <= s.stdouts && Pending(s.stdouts, s.receipts, s.markers)
  {}

  /** The three log files of a command are new or absent, and come into being in this order. */
  predicate Written(s: Store, t: Store, log: Log) {
    && (t.stdouts == s.stdouts || t.stdouts == s.stdouts + {log})
    && (t.stderrs == s.stderrs || t.stderrs == s.stderrs + {log})
    && (t.receipts == s.receipts || t.receipts == s.receipts + {log})
    && (log in t.receipts ==> log in t.stderrs) && (log in t.stderrs ==> log in t.stdouts)
  }

  /** The first n of the log files of a command: stdout, stderr, receipt. */
  function WithLog(s: Store, name: string, n: nat): Store {
    var log := Log(|s.receipts| + 1, name);
    s.(stdouts := if 1 <= n then s.stdouts + {log} else s.stdouts,
       stderrs := if 2 <= n then s.stderrs + {log} else s.stderrs,
       receipts := if 3 <= n then s.receipts + {log} else s.receipts)
  }

  lemma OneMoreLog(receipts: set<Log>, log: Log)
    requires log !in receipts
    ensures |receipts + {log}| == |receipts| + 1
  {}

  /** The log files of the next command keep the numbering, before and after its receipt. */
  lemma NextPending(s: Store, name: string, n: nat)
    requires Consistent(s) && NextStage(s.markers).Some? && name in Commands(NextStage(s.markers).value)
    ensures var t := WithLog(s, name, n);
            && Numbered(t.receipts) && t.receipts <= t.stderrs <= t.stdouts && Pending(t.stdouts, t.receipts, t.markers)
            && (3 <= n ==> Settled(t))
  {
    hide MarkerPrefix, Archived, Commands, Lineage;
    ReceiptNumbered(s.receipts, name);
    OneMoreLog(s.receipts, Log(|s.receipts| + 1, name));
    hide Numbered, NextStage;
  }

  predicate Touched(s: Store, t: Store, work: Work) {
    SameControl(s, t) && SameLogs(s, t) && SameRecords(s, t) && SameTrees(s, t, work)
  }

  lemma NextLog(s: Store, name: string)
    ensures WithLog(s, name, 0) == s
    ensures forall work :: Touched(s, s, work) && Touched(WithLog(s, name, 1), WithLog(s, name, 1), work)
    ensures forall work :: Touched(WithLog(s, name, 2), WithLog(s, name, 2), work)
  {}

  lemma ReceiptLast(s: Store, name: string, t: Store, work: Work)
    ensures Touched(WithLog(s, name, 2), t, work) ==>
              Touched(WithLog(s, name, 3), t.(receipts := t.receipts + {Log(|t.receipts| + 1, name)}), work)
    ensures WithLog(s, name, 3).receipts == s.receipts + {Log(|s.receipts| + 1, name)}
  {}

  lemma TouchedFrom(s: Store, name: string, n: nat, t: Store, work: Work)
    requires Touched(WithLog(s, name, n), t, work)
    ensures SameControl(s, t) && SameRecords(s, t) && SameTrees(s, t, work) && t.markers == s.markers
    ensures SameLogs(WithLog(s, name, n), t) && t.receipts == WithLog(s, name, n).receipts
  {}

  /** A store with these log files, and anything in the command's tree, is one that a command may leave. */
  lemma CommandKeeps(s: Store, name: string, t: Store, n: nat, work: Work)
    requires Consistent(s) && NextStage(s.markers).Some? && name in Commands(NextStage(s.markers).value)
    ensures Touched(WithLog(s, name, n), t, work) ==>
              && Worked(s, t) && t.markers == s.markers && Written(s, t, Log(|s.receipts| + 1, name))
              && SameRecords(s, t) && SameTrees(s, t, work) && t.receipts == WithLog(s, name, n).receipts
              && (3 <= n ==> Settled(t))
  {
    hide Consistent, Numbered, Pending, Later, Settled, Worked, Touched, SameRecords, SameTrees;
    var u := WithLog(s, name, n);
    LogsOnlyParts(s);
    NextPending(s, name, n);
    if Touched(u, t, work) {
      TouchedFrom(s, name, n, t, work);
      SettledSame(u, t);
      LogsOnly(s, t);
      ReceiptNumbered(s.receipts, name);
    }
  }

  lemma WorkedReflexive(s: Store)
    requires Consistent(s)
    ensures Worked(s, s)
  {
    LogsOnly(s, s);
  }

  /** Trees and records are neither control files nor logs. */
  lemma SameButResults(s: Store, t: Store)
    requires t == s.(probe := t.probe, runtime := t.runtime, modules := t.modules, venv := t.venv, wheels := t.wheels,
                     runtimeRecord := t.runtimeRecord, venvRecord := t.venvRecord, modulesRecord := t.modulesRecord,
                     wheelsRecord := t.wheelsRecord)
    ensures SameControl(s, t) && SameLogs(s, t)
  {}

  /** Over any number of runs: each stage function that was started was the first one without a marker, and from one
      start to the next, and to the markers now, either that stage was marked or nothing was. */
  predicate Chained(origin: set<Stage>, starts: seq<Start>, now: set<Stage>) {
    if starts == [] then now == origin
    else
      var last := starts[|starts| - 1];
      && NextStage(last.markers) == Some(last.stage)
      && (now == last.markers || now == last.markers + {last.stage})
      && Chained(origin, starts[..|starts| - 1], last.markers)
  }

  lemma ChainGrows(origin: set<Stage>, before: seq<Start>, s: set<Stage>, stage: Stage, after: seq<Start>, t: set<Stage>)
    requires stage in s || NextStage(s) == Some(stage)
    requires stage in s ==> after == before && t == s
    requires stage !in s ==> after == before + [Start(stage, s)] && (t == s || t == s + {stage})
    ensures Chained(origin, before, s) ==> Chained(origin, after, t)
  {
    if stage !in s { assert after[..|after| - 1] == before; }
  }

  /** A crash before the marker makes exactly that stage the next to run: in a chain, a start after one that left no
      marker is a start of the same stage. */
  lemma {:induction false} SameStageAgain(origin: set<Stage>, starts: seq<Start>, now: set<Stage>, k: nat)
    requires Chained(origin, starts, now) && k + 1 < |starts|
    ensures var a, b := starts[k], starts[k + 1];
            && NextStage(b.markers) == Some(b.stage)
            && (b.markers == a.markers || b.markers == a.markers + {a.stage})
            && (a.stage !in b.markers <==> b.stage == a.stage)
    decreases |starts|
  {
    var n := |starts| - 1;
    if k + 1 < n {
      SameStageAgain(origin, starts[..n], starts[n].markers, k);
    } else {
      assert starts[..n][n - 1] == starts[k];
      assert Chained(origin, starts[..n], starts[n].markers);
    }
  }

  /** Over any sequence of runs: markers only grow from start to start, and a stage whose marker exists is never started
      again. */
  lemma {:induction false} NeverStartedAgain(origin: set<Stage>, starts: seq<Start>, now: set<Stage>, i: nat, j: nat)
    requires Chained(origin, starts, now) && i < j < |starts|
    ensures starts[i].markers <= starts[j].markers <= now && starts[j].stage !in starts[j].markers
    ensures starts[i].stage in starts[j].markers ==> starts[i].stage != starts[j].stage
    decreases |starts|
  {
    var n := |starts| - 1;
    assert Chained(origin, starts[..n], starts[n].markers);
    StartsUnmarked(starts[n]);
    if j < n {
      NeverStartedAgain(origin, starts[..n], starts[n].markers, i, j);
    } else {
      MarkersGrow(origin, starts[..n], starts[n].markers, i);
    }
  }

  lemma {:induction false} MarkersGrow(origin: set<Stage>, starts: seq<Start>, now: set<Stage>, i: nat)
    requires Chained(origin, starts, now) && i < |starts|
    ensures starts[i].markers <= now
    decreases |starts|
  {
    var n := |starts| - 1;
    if i < n { MarkersGrow(origin, starts[..n], starts[n].markers, i); }
  }

  lemma StartsUnmarked(start: Start)
    requires NextStage(start.markers) == Some(start.stage)
    ensures start.stage !in start.markers
  {}

  /** A run that starts anything starts with the first unmarked stage, and if its last stage left no marker
      that stage is still the first unmarked one. */
  predicate Resumed(before: seq<Start>, after: seq<Start>, marked: set<Stage>, now: set<Stage>) {
    && before <= after
    && (before < after ==> after[|before|] == Start(after[|before|].stage, marked) && NextStage(marked) == Some(after[|before|].stage))
    && (before < after ==> after[|after| - 1].stage in now || NextStage(now) == Some(after[|after| - 1].stage))
    && (before == after ==> now == marked)
  }

  /** What the stages of one run do to the store and to the list of starts. */
  ghost predicate Progress(origin: set<Stage>, s: Store, a: seq<Start>, t: Store, b: seq<Start>) {
    && Consistent(t) && Later(s, t) && t.input == s.input && t.input.Some?
    && (Chained(origin, a, s.markers) ==> Chained(origin, b, t.markers))
    && (Materialize in s.markers ==> t.probe == s.probe)
    && Resumed(a, b, s.markers, t.markers)
  }

  /** The last stage that the run has started is marked. */
  predicate LastMarked(a: seq<Start>, markers: set<Stage>, b: seq<Start>) {
    b == a || (b != [] && b[|b| - 1].stage in markers)
  }

  lemma NoProgress(origin: set<Stage>, s: Store, a: seq<Start>)
    requires Consistent(s) && s.input.Some?
    ensures Progress(origin, s, a, s, a) && LastMarked(a, s.markers, a)
  {
    LaterReflexive(s);
  }

  lemma ProgressParts(origin: set<Stage>, s: Store, a: seq<Start>, t: Store, b: seq<Start>)
    requires Progress(origin, s, a, t, b)
    ensures Consistent(t) && Later(s, t) && t.input == s.input && t.input.Some? && s.markers <= t.markers
    ensures Chained(origin, a, s.markers) ==> Chained(origin, b, t.markers)
    ensures Materialize in s.markers ==> t.probe == s.probe
    ensures Resumed(a, b, s.markers, t.markers)
  {}

  lemma StageProgress(origin: set<Stage>, s: Store, a: seq<Start>, t: Store, b: seq<Start>, u: Store, c: seq<Start>, stage: Stage)
    requires Progress(origin, s, a, t, b) && LastMarked(a, t.markers, b)
    requires Consistent(u) && Later(t, u) && u.input == t.input
    requires stage in t.markers || NextStage(t.markers) == Some(stage)
    requires stage in t.markers ==> u == t && c == b
    requires stage !in t.markers ==> c == b + [Start(stage, t.markers)] && (u.markers == t.markers || u.markers == t.markers + {stage})
    requires stage != Materialize || stage in t.markers ==> u.probe == t.probe
    ensures Progress(origin, s, a, u, c)
    ensures stage in u.markers ==> LastMarked(a, u.markers, c)
  {
    hide Consistent, Later, Chained, NextStage;
    LaterTransitive(s, t, u);
    ChainGrows(origin, b, t.markers, stage, c, u.markers);
    ProgressParts(origin, s, a, t, b);
  }

  /** Refused by the final re-verification. */
  predicate Drifted(status: Status, s: Store, upstream: Tree) {
    status.Raised? && INSTALLED <= s.markers && !Intact(s, upstream)
  }

  /** The log file that the first command of the next stage would create is already there. */
  predicate Wedged(s: Store) {
    && NextStage(s.markers).Some? && FirstLabel(NextStage(s.markers).value).Some?
    && Orphaned(s, FirstLabel(NextStage(s.markers).value).value)
  }

  /** A build refuses at a log file: it gets to the next stage, and that stage's first log file is there. */
  predicate Blocked(s: Store, upstream: Tree, replay: bool) {
    Wedged(s) && (NextStage(s.markers) == Some(Replay) ==> replay && Intact(s, upstream))
  }

  lemma SettledNotWedged(s: Store)
    ensures Settled(s) ==> !Wedged(s)
  {}

  lemma NextIsInstall(s: Store, stage: Stage)
    ensures NextStage(s.markers) == Some(stage) ==> stage !in s.markers
    ensures NextStage(s.markers) == Some(Replay) <==> INSTALLED <= s.markers && Replay !in s.markers
  {
    InstalledNext(s);
  }

  lemma InstalledNext(s: Store)
    ensures INSTALLED <= s.markers <==> NextStage(s.markers).None? || NextStage(s.markers) == Some(Replay)
    ensures NextStage(s.markers).None? ==> !Wedged(s)
    ensures NextStage(s.markers) == Some(Replay) ==> Replay !in s.markers
    ensures INSTALLED <= s.markers && NextStage(s.markers).None? ==> Replay in s.markers
    ensures Install in INSTALLED
  {
    assert INSTALLED <= s.markers <==> Dependencies in s.markers && Materialize in s.markers && Install in s.markers && ReaderInstall in s.markers;
  }

  /** After installation opening changes nothing that is re-verified. */
  lemma FrozenIntact(s: Store, t: Store, upstream: Tree)
    requires Consistent(s) && SameBelow(s, t) && Later(s, t)
    ensures Install in s.markers ==> (Intact(s, upstream) <==> Intact(t, upstream))
  {}

  lemma Marked(s: Store, stage: Stage)
    requires Consistent(s) && s.input.Some? && NextStage(s.markers) == Some(stage) && Settled(s)
    ensures Consistent(s.(markers := s.markers + {stage})) && Later(s, s.(markers := s.markers + {stage}))
  {
    MarkNext(s.markers);
  }

  lemma ThisStageNext(s: Store, i: nat)
    requires Consistent(s) && i < 4 && forall j | 0 <= j < i :: [Dependencies, Materialize, Install, ReaderInstall][j] in s.markers
    ensures var stage := [Dependencies, Materialize, Install, ReaderInstall][i];
            stage in s.markers || NextStage(s.markers) == Some(stage)
  {
    var stages := [Dependencies, Materialize, Install, ReaderInstall];
    assert i > 0 ==> stages[0] in s.markers;
    assert i > 1 ==> stages[1] in s.markers;
    assert i > 2 ==> stages[2] in s.markers;
  }

  // ---- opening ----------------------------------------------------------------------------

  /** Only INPUT.json, its archives and TOOLS.json may differ. */
  predicate SameBelow(s: Store, t: Store) {
    t == s.(input := t.input, archives := t.archives, tools := t.tools)
  }

  /** A non-empty target is refused unless it is resumed with the recorded identity, or repaired before
      installation under the same profile and the same dependency inputs. */
  predicate Refuses(s: Store, id: Identity, resume: bool, repair: bool) {
    (s.foreign || s.input.Some?) &&
    (!resume || s.input.None? ||
     (s.input.value != id &&
      (!repair || Install in s.markers || s.input.value.profile != id.profile
       || exists i :: 0 <= i < |DEPENDENCY_INPUTS| && !SameInput(s.input.value.sourceFiles, id.sourceFiles, DEPENDENCY_INPUTS[i]))))
  }

  /** An undisturbed opening raises exactly for these. */
  predicate Inadmissible(s: Store, id: Identity, resume: bool, repair: bool, tools: string, preflight: bool) {
    !preflight || Refuses(s, id, resume, repair) || (s.tools.Some? && s.tools.value != tools)
  }

  /** A repair archives the previous identity under the next number; nothing else touches the archives. */
  function ArchivesAfter(s: Store, id: Identity): map<nat, Identity> {
    if s.input.Some? && s.input.value != id then s.archives[|s.archives| + 1 := s.input.value] else s.archives
  }

  lemma ArchiveKeeps(s: Store, previous: Identity)
    requires Consistent(s) && s.input == Some(previous)
    ensures var t := s.(archives := s.archives[|s.archives| + 1 := previous]);
            Consistent(t) && Later(s, t) && |s.archives| + 1 !in s.archives
  {
    hide Numbered, MarkerPrefix;
    ArchiveNumbered(s.archives, previous);
  }

  lemma RepairKeeps(s: Store, revision: nat, id: Identity)
    requires Consistent(s) && s.input.Some? && Install !in s.markers && Lineage(s.input.value, id)
    requires revision in s.archives && s.archives[revision] == s.input.value
    ensures Consistent(s.(input := Some(id))) && Later(s, s.(input := Some(id)))
  {
    forall n | n in s.archives
      ensures Lineage(s.archives[n], id)
    {
      LineageTransitive(s.archives[n], s.input.value, id);
    }
  }

  lemma FirstInputKeeps(s: Store, id: Identity)
    requires Consistent(s) && s.input.None?
    ensures Consistent(s.(input := Some(id))) && Later(s, s.(input := Some(id)))
  {}

  lemma ToolsKeep(s: Store, tools: string)
    requires Consistent(s)
    ensures Consistent(s.(tools := Some(tools))) && Later(s, s.(tools := Some(tools)))
  {}

  lemma TamperKeeps(s: Store, probe: Tree, runtime: Tree, modules: Tree, venv: Tree, wheels: Tree)
    requires Consistent(s)
    ensures var t := s.(probe := probe, runtime := runtime, modules := modules, venv := venv, wheels := wheels);
            Consistent(t) && Later(s, t)
  {}

  // ---- installations that can no longer finish --------------------------------------------

  /** Installed from a probe that does not match INPUT.json, which is frozen by now. */
  predicate Stuck(s: Store) {
    Materialize in s.markers && Install in s.markers && s.input.Some? && !Holds(s.input.value.sourceFiles, s.probe)
  }

  lemma StuckStays(s: Store, t: Store)
    requires Later(s, t) && (Materialize in s.markers ==> t.probe == s.probe)
    ensures Stuck(s) ==> Stuck(t) && t.input == s.input
  {}

  /** What a repair between materialize and install leaves, once its install stage has completed. */
  function Repaired(s: Store, id: Identity): Store
    requires s.input.Some?
  {
    s.(archives := s.archives[|s.archives| + 1 := s.input.value], input := Some(id), markers := s.markers + {Install})
  }

  /** A repair that is accepted between materialize and install leaves an installation that can never finish exactly when
      the probe, copied before the repair, lacks one of the repaired source's files or has it otherwise. */
  lemma RepairSticksExactly(s: Store, id: Identity)
    requires Consistent(s) && Settled(s) && s.markers == {Dependencies, Materialize} && s.input.Some?
    requires s.input.value != id && Lineage(s.input.value, id)
    ensures !Refuses(s, id, true, true)
    ensures Consistent(Repaired(s, id)) && Later(s, Repaired(s, id))
    ensures Stuck(Repaired(s, id)) <==> !Holds(id.sourceFiles, s.probe)
  {
    var t := s.(archives := s.archives[|s.archives| + 1 := s.input.value]);
    var u := t.(input := Some(id));
    RepairAccepted(s, id);
    RepairedFacts(s, id);
    hide Consistent, Later, Lineage, Stuck, Refuses, Settled, Repaired, NextStage;
    ArchiveKeeps(s, s.input.value);
    RepairKeeps(t, |s.archives| + 1, id);
    SettledSame(s, u);
    Marked(u, Install);
    LaterTransitive(s, t, u);
    LaterTransitive(s, u, Repaired(s, id));
  }

  lemma RepairedFacts(s: Store, id: Identity)
    requires s.markers == {Dependencies, Materialize} && s.input.Some?
    ensures Stuck(Repaired(s, id)) <==> !Holds(id.sourceFiles, s.probe)
    ensures NextStage(s.markers) == Some(Install)
    ensures var u := s.(archives := s.archives[|s.archives| + 1 := s.input.value]).(input := Some(id));
            u.(markers := u.markers + {Install}) == Repaired(s, id)
  {}

  lemma RepairAccepted(s: Store, id: Identity)
    requires Install !in s.markers && s.input.Some? && s.input.value != id && Lineage(s.input.value, id)
    ensures !Refuses(s, id, true, true)
  {}

  /** An installation that was materialized from a source, with nothing else yet. */
  function Materialized(id: Identity): Store {
    Store(false, Some(id), map[], None, {Dependencies, Materialize}, {}, {}, {}, id.sourceFiles, map[], map[], map[], map[],
          None, None, None, None)
  }

  /** A repair that adds or changes one file sticks; one that removes files does not. */
  lemma AddedOrChangedFileSticks(id: Identity, f: string, file: FileId, less: Tree)
    requires forall i | 0 <= i < |DEPENDENCY_INPUTS| :: DEPENDENCY_INPUTS[i] in id.sourceFiles && DEPENDENCY_INPUTS[i] in less
    requires f !in DEPENDENCY_INPUTS && (f in id.sourceFiles ==> id.sourceFiles[f] != file)
    requires Holds(less, id.sourceFiles) && less != id.sourceFiles
    ensures var s := Materialized(id);
            var more := id.(sourceFiles := id.sourceFiles[f := file]);
            && Consistent(s)
            && !Refuses(s, more, true, true) && Stuck(Repaired(s, more))
            && !Refuses(s, id.(sourceFiles := less), true, true) && !Stuck(Repaired(s, id.(sourceFiles := less)))
  {
    var s, more, fewer := Materialized(id), id.(sourceFiles := id.sourceFiles[f := file]), id.(sourceFiles := less);
    MaterializedIsConsistent(id);
    assert more.sourceFiles[f] == file;
    assert forall i | 0 <= i < |DEPENDENCY_INPUTS| :: SameInput(id.sourceFiles, more.sourceFiles, DEPENDENCY_INPUTS[i]);
    assert forall i | 0 <= i < |DEPENDENCY_INPUTS| :: SameInput(id.sourceFiles, less, DEPENDENCY_INPUTS[i]);
    hide Consistent, Lineage;
    SameInputsLineage(id, more);
    SameInputsLineage(id, fewer);
    RepairSticksExactly(s, more);
    RepairSticksExactly(s, fewer);
  }

  lemma SameInputsLineage(a: Identity, b: Identity)
    requires a.profile == b.profile
    requires forall i | 0 <= i < |DEPENDENCY_INPUTS| :: SameInput(a.sourceFiles, b.sourceFiles, DEPENDENCY_INPUTS[i])
    ensures Lineage(a, b)
  {}

  lemma MaterializedIsConsistent(id: Identity)
    ensures Consistent(Materialized(id)) && Settled(Materialized(id))
  {}

  lemma IntactProbe(s: Store, upstream: Tree)
    ensures Intact(s, upstream) ==> s.input.Some? && Holds(s.input.value.sourceFiles, s.probe)
  {}

  lemma WedgeStays(s: Store, t: Store)
    requires SameBelow(s, t)
    ensures Wedged(s) <==> Wedged(t)
  {}

  lemma ResumedNothing(starts: seq<Start>, markers: set<Stage>)
    ensures Resumed(starts, starts, markers, markers)
  {}

  /** A crash between opening the stdout of a command and writing its receipt wedges the installation exactly when the
      command is the first one of its stage; otherwise the stage can be resumed. */
  lemma CrashWedgesExactly(s: Store, name: string)
    requires Consistent(s) && NextStage(s.markers).Some? && name in Commands(NextStage(s.markers).value) && !Wedged(s)
    ensures var t := s.(stdouts := s.stdouts + {Log(|s.receipts| + 1, name)});
            Consistent(t) && (Wedged(t) <==> FirstLabel(NextStage(s.markers).value) == Some(name))
  {
    hide Consistent, Orphaned;
    var t := WithLog(s, name, 1);
    NextLog(s, name);
    CommandKeeps(s, name, t, 1, NoTree);
    OrphanedNow(s, name, FirstLabel(NextStage(s.markers).value));
  }

  lemma OrphanedNow(s: Store, name: string, first: Option<string>)
    ensures first.Some? && !Orphaned(s, first.value) ==> (Orphaned(WithLog(s, name, 1), first.value) <==> first.value == name)
  {}

  /** For each profile and source, a fresh target whose first command crashed. */
  lemma FreshTargetWedges(id: Identity, s: Store)
    requires s.input == Some(id) && s.archives == map[] && s.markers == {} && s.receipts == {} && s.stderrs == {}
    requires s.stdouts == {Log(1, "download-runtime")}
    ensures Consistent(s) && Wedged(s)
  {}
}
