/**
 * What both front ends (`PreloaderService` and the older `PreloaderCommand`)
 * hand to `Preloader::loadPath`: a list of scan specs, each a root and the
 * file filter its closure applies, and the loops that feed them in order.
 */
module ScanPlan {
  import opened Wrappers
  import opened Exceptions
  import opened Text
  import opened Disk
  import opened Filesystem
  import opened PreloadResource
  import opened Preloader
  import opened Php

  /**
   * The two kinds of closure passed to `loadPath`.
   * `IgnoreSubstrings`: the `preg_match` over an alternation of literal
   * paths, so a file is kept iff its pathname contains none of them.
   * `TestsFilter`: the package closure, which keeps everything under
   * `phpunit` and otherwise drops files whose directory contains `/tests/`.
   */
  datatype Rule = IgnoreSubstrings(subs: seq<string>) | TestsFilter(phpunit: bool)

  datatype ScanSpec = ScanSpec(root: string, rule: Rule)

  predicate Accepts(rule: Rule, f: FileInfo) {
    match rule
    case IgnoreSubstrings(subs) => forall i :: 0 <= i < |subs| ==> !Contains(f.GetPathname(), subs[i])
    case TestsFilter(phpunit) => phpunit || !Contains(f.GetPath(), "/tests/")
  }

  function Callback(rule: Rule): FileInfo -> bool {
    (f: FileInfo) => Accepts(rule, f)
  }

  /** The ignore list of the application and plugin roots. */
  function AppIgnores(phpunit: bool): (subs: seq<string>)
    ensures "src/Console" in subs && "src/Command" in subs
    ensures "tests/" in subs <==> !phpunit
  {
    ["src/Console", "src/Command"] + (if phpunit then [] else ["tests/"])
  }

  // ---------------------------------------------------------------------
  // Pieces both front ends build their roots from

  /** The framework paths `cakephp` never preloads. */
  const CAKE_IGNORES: seq<string> := ["src/Console", "src/Command", "src/Shell", "src/TestSuite"]

  /** `array_filter($roots, 'file_exists')`, keeping the order. */
  function Existing(roots: seq<string>, fs: Snapshot): seq<string> {
    if roots == [] then []
    else Existing(roots[..|roots| - 1], fs) + (if fs.Exists(roots[|roots| - 1]) then [roots[|roots| - 1]] else [])
  }

  function PackageSpecs(roots: seq<string>, phpunit: bool): (specs: seq<ScanSpec>)
    ensures |specs| == |roots| && forall i :: 0 <= i < |roots| ==> specs[i] == ScanSpec(roots[i], TestsFilter(phpunit))
  {
    if roots == [] then [] else PackageSpecs(roots[..|roots| - 1], phpunit) + [ScanSpec(roots[|roots| - 1], TestsFilter(phpunit))]
  }

  /** `<base>/plugins/<name>/src`. */
  function PluginRoot(base: string, name: string): string {
    base + DS + "plugins" + DS + name + DS + "src"
  }

  function PluginRoots(base: string, names: seq<string>): (roots: seq<string>)
    ensures |roots| == |names| && forall i :: 0 <= i < |names| ==> roots[i] == PluginRoot(base, names[i])
  {
    if names == [] then [] else PluginRoots(base, names[..|names| - 1]) + [PluginRoot(base, names[|names| - 1])]
  }

  function IgnoreSpecs(roots: seq<string>, subs: seq<string>): (specs: seq<ScanSpec>)
    ensures |specs| == |roots| && forall i :: 0 <= i < |roots| ==> specs[i] == ScanSpec(roots[i], IgnoreSubstrings(subs))
  {
    if roots == [] then [] else IgnoreSpecs(roots[..|roots| - 1], subs) + [ScanSpec(roots[|roots| - 1], IgnoreSubstrings(subs))]
  }

  lemma {:induction false} ExistingMembers(roots: seq<string>, fs: Snapshot)
    ensures forall r :: r in Existing(roots, fs) <==> r in roots && fs.Exists(r)
    ensures |Existing(roots, fs)| <= |roots|
    ensures |Existing(roots, fs)| == |roots| <==> forall i :: 0 <= i < |roots| ==> fs.Exists(roots[i])
  {
    if roots != [] {
      var init := roots[..|roots| - 1];
      ExistingMembers(init, fs);
      SplitLast(roots);
      if |Existing(roots, fs)| == |roots| {
        forall i | 0 <= i < |roots| ensures fs.Exists(roots[i]) {
          if i < |init| {
            assert roots[i] == init[i];
          }
        }
      }
    }
  }

  /** The package specs of the existing roots: exactly the existing roots, each with the tests rule. */
  lemma ExistingPackageSpecs(roots: seq<string>, fs: Snapshot, phpunit: bool)
    ensures forall spec :: spec in PackageSpecs(Existing(roots, fs), phpunit) <==>
      spec.root in roots && fs.Exists(spec.root) && spec.rule == TestsFilter(phpunit)
  {
    ExistingMembers(roots, fs);
    var valid := Existing(roots, fs);
    var specs := PackageSpecs(valid, phpunit);
    forall spec ensures spec in specs <==> spec.root in roots && fs.Exists(spec.root) && spec.rule == TestsFilter(phpunit) {
      if spec in specs {
        var k :| 0 <= k < |specs| && specs[k] == spec;
        assert valid[k] in valid;
      }
      if spec.root in roots && fs.Exists(spec.root) && spec.rule == TestsFilter(phpunit) {
        var k :| 0 <= k < |valid| && valid[k] == spec.root;
        assert specs[k] == spec;
      }
    }
  }

  /**
   * `Existing` keeps the existing roots in their order: the survivors of
   * two lists back to back are the survivors of each, one after the other.
   */
  lemma {:induction false} ExistingAppend(a: seq<string>, b: seq<string>, fs: Snapshot)
    ensures Existing(a + b, fs) == Existing(a, fs) + Existing(b, fs)
    decreases |b|
  {
    if b == [] {
      assert a + b == a;
    } else {
      var init := b[..|b| - 1];
      assert (a + b)[..|a + b| - 1] == a + init;
      assert (a + b)[|a + b| - 1] == b[|b| - 1];
      ExistingAppend(a, init, fs);
    }
  }

  /** The state of a run: what has been appended, the exception that stopped it, the warnings raised. */
  datatype Progress = Progress(added: seq<PreloadResource>, error: Option<Error>, warnings: seq<string>)

  /**
   * `foreach ($roots as $root) { $this->preloader->loadPath($root, ...); }`:
   * scans the specs in order and stops at the first root that is not a
   * directory, whose exception propagates.
   */
  function Run(specs: seq<ScanSpec>, fs: Snapshot): Progress {
    if specs == [] then Progress([], None, [])
    else
      var p := Run(specs[..|specs| - 1], fs);
      var s := specs[|specs| - 1];
      if p.error.Some? then p
      else
        match Scan(s.root, Some(Callback(s.rule)), fs)
        case Failure(e) => Progress(p.added, Some(e), [])
        case Success(rs) => Progress(p.added + rs, None, [])
  }

  /** One resolution step (`cakephp`, `packages`, …): the specs it resolves, or the error it throws, and its warnings. */
  datatype Stage = Stage(specs: Result<seq<ScanSpec>, Error>, warnings: seq<string>)

  function RunStage(stage: Stage, fs: Snapshot): Progress {
    match stage.specs
    case Failure(e) => Progress([], Some(e), [])
    case Success(specs) => Progress(Run(specs, fs).added, Run(specs, fs).error, stage.warnings)
  }

  /** Runs `stage` after `p`, unless `p` already stopped. */
  function Then(p: Progress, stage: Stage, fs: Snapshot): Progress {
    if p.error.Some? then p
    else
      var q := RunStage(stage, fs);
      Progress(p.added + q.added, q.error, p.warnings + q.warnings)
  }

  /** The stages in order, each after the previous one. */
  function RunStages(stages: seq<Stage>, fs: Snapshot): Progress {
    if stages == [] then Progress([], None, [])
    else Then(RunStages(stages[..|stages| - 1], fs), stages[|stages| - 1], fs)
  }

  /** Once a root fails, later specs are not scanned. */
  lemma {:induction false} RunStops(a: seq<ScanSpec>, b: seq<ScanSpec>, fs: Snapshot)
    requires Run(a, fs).error.Some?
    ensures Run(a + b, fs) == Run(a, fs)
    decreases |b|
  {
    if b == [] {
      assert a + b == a;
    } else {
      assert (a + b)[..|a + b| - 1] == a + b[..|b| - 1];
      RunStops(a, b[..|b| - 1], fs);
    }
  }

  /** When every root is a directory, the run appends the scans of the roots in order. */
  lemma {:induction false} RunAllDirs(specs: seq<ScanSpec>, fs: Snapshot)
    requires forall i :: 0 <= i < |specs| ==> fs.IsDir(specs[i].root)
    ensures Run(specs, fs).error == None
    ensures Run(specs, fs).added == ScanAll(specs, fs)
  {
    if specs != [] {
      var init := specs[..|specs| - 1];
      RunAllDirs(init, fs);
      ScanResources(specs[|specs| - 1].root, Some(Callback(specs[|specs| - 1].rule)), fs);
    }
  }

  /** The concatenated scans of the specs, the reference for `Run` when nothing fails. */
  function ScanAll(specs: seq<ScanSpec>, fs: Snapshot): seq<PreloadResource> {
    if specs == [] then []
    else
      var s := specs[|specs| - 1];
      ScanAll(specs[..|specs| - 1], fs)
        + (match Scan(s.root, Some(Callback(s.rule)), fs) case Success(rs) => rs case Failure(_) => [])
  }

  /** One more spec after a run that went through so far. */
  lemma RunNext(specs: seq<ScanSpec>, i: nat, fs: Snapshot)
    requires i < |specs| && Run(specs[..i], fs).error == None
    ensures var scan := Scan(specs[i].root, Some(Callback(specs[i].rule)), fs);
      Run(specs[..i + 1], fs) ==
        if scan.Success? then Progress(Run(specs[..i], fs).added + scan.value, None, [])
        else Progress(Run(specs[..i], fs).added, Some(scan.error), [])
  {
    assert specs[..i + 1][..i] == specs[..i];
  }

  /** A prefix that stopped decides the whole run. */
  lemma RunPrefixStops(specs: seq<ScanSpec>, k: nat, fs: Snapshot)
    requires k <= |specs| && Run(specs[..k], fs).error.Some?
    ensures Run(specs, fs) == Run(specs[..k], fs)
  {
    RunStops(specs[..k], specs[k..], fs);
    assert specs[..k] + specs[k..] == specs;
  }

  /** Nothing is deduplicated: a root loaded twice contributes its files twice. */
  lemma RunTwiceKeepsDuplicates(s: ScanSpec, fs: Snapshot)
    requires fs.IsDir(s.root)
    ensures var once := Scan(s.root, Some(Callback(s.rule)), fs).value;
      Run([s, s], fs) == Progress(once + once, None, [])
  {
    var specs, once := [s, s], Scan(s.root, Some(Callback(s.rule)), fs).value;
    ScanResources(s.root, Some(Callback(s.rule)), fs);
    assert specs[..0] == [];
    RunNext(specs, 0, fs);
    assert [] + once == once;
    RunNext(specs, 1, fs);
    assert specs[..2] == specs;
  }

  /** The run stops with the error of the first root that is not a directory. */
  lemma {:induction false} RunFirstMissing(specs: seq<ScanSpec>, k: nat, fs: Snapshot)
    requires k < |specs| && !fs.IsDir(specs[k].root)
    requires forall i :: 0 <= i < k ==> fs.IsDir(specs[i].root)
    ensures Run(specs, fs).error == Some(UnexpectedValue(specs[k].root))
    ensures Run(specs, fs).added == ScanAll(specs[..k], fs)
  {
    var pre := specs[..k + 1];
    assert pre == specs[..k] + [specs[k]];
    RunAllDirs(specs[..k], fs);
    RunFailsAt(specs[..k], specs[k], fs);
    RunPrefixStops(specs, k + 1, fs);
  }

  /** A root that is not a directory, after a run that went through, stops the run with its error. */
  lemma RunFailsAt(a: seq<ScanSpec>, s: ScanSpec, fs: Snapshot)
    requires Run(a, fs).error.None? && !fs.IsDir(s.root)
    ensures Run(a + [s], fs) == Progress(Run(a, fs).added, Some(UnexpectedValue(s.root)), [])
  {
    assert (a + [s])[..|a|] == a;
    ScanFails(s.root, Some(Callback(s.rule)), fs);
  }

  /** A stage list stops at the first stage that throws. */
  lemma {:induction false} RunStagesStops(a: seq<Stage>, b: seq<Stage>, fs: Snapshot)
    requires RunStages(a, fs).error.Some?
    ensures RunStages(a + b, fs) == RunStages(a, fs)
    decreases |b|
  {
    if b == [] {
      assert a + b == a;
    } else {
      assert (a + b)[..|a + b| - 1] == a + b[..|b| - 1];
      RunStagesStops(a, b[..|b| - 1], fs);
    }
  }

  lemma RunStagesStep(stages: seq<Stage>, k: nat, fs: Snapshot)
    requires k < |stages|
    ensures RunStages(stages[..k + 1], fs) == Then(RunStages(stages[..k], fs), stages[k], fs)
  {
    assert stages[..k + 1][..k] == stages[..k];
  }

  lemma RunStagesStopAt(stages: seq<Stage>, k: nat, fs: Snapshot)
    requires k <= |stages| && RunStages(stages[..k], fs).error.Some?
    ensures RunStages(stages, fs) == RunStages(stages[..k], fs)
  {
    RunStagesStops(stages[..k], stages[k..], fs);
    assert stages[..k] + stages[k..] == stages;
  }

  /** Accounting for one more step once `p` has not stopped. */
  lemma ThenTracks(start: seq<PreloadResource>, before: seq<PreloadResource>, after: seq<PreloadResource>,
                   w0: seq<string>, w: seq<string>, p: Progress, stage: Stage, fs: Snapshot)
    requires p.error.None? && before == start + p.added && w0 == p.warnings
    requires after == before + RunStage(stage, fs).added && w == RunStage(stage, fs).warnings
    ensures after == start + Then(p, stage, fs).added
    ensures w0 + w == Then(p, stage, fs).warnings
  {
  }

  /** The loop over the roots of one resolution step. */
  method LoadRoots(preloader: Preloader, specs: seq<ScanSpec>, fs: Snapshot) returns (error: Option<Error>)
    modifies preloader
    ensures preloader.preloadResources == old(preloader.preloadResources) + Run(specs, fs).added
    ensures error == Run(specs, fs).error
  {
    for i := 0 to |specs|
      invariant preloader.preloadResources == old(preloader.preloadResources) + Run(specs[..i], fs).added
      invariant Run(specs[..i], fs).error == None
    {
      var spec := specs[i];
      ghost var before := preloader.preloadResources;
      RunNext(specs, i, fs);
      error := preloader.LoadPath(spec.root, Some(Callback(spec.rule)), fs);
      if error.Some? {
        ScanFails(spec.root, Some(Callback(spec.rule)), fs);
        RunPrefixStops(specs, i + 1, fs);
        return;
      }
      ScanResources(spec.root, Some(Callback(spec.rule)), fs);
      AppendAssociative(old(preloader.preloadResources), Run(specs[..i], fs).added, Scan(spec.root, Some(Callback(spec.rule)), fs).value);
    }
    assert specs[..|specs|] == specs;
    error := None;
  }

  /** Loads one resolved step: its error if it threw, else the loop over its roots. */
  method LoadStage(preloader: Preloader, stage: Stage, fs: Snapshot) returns (error: Option<Error>, warnings: seq<string>)
    modifies preloader
    ensures preloader.preloadResources == old(preloader.preloadResources) + RunStage(stage, fs).added
    ensures error == RunStage(stage, fs).error
    ensures warnings == RunStage(stage, fs).warnings
  {
    if stage.specs.Failure? {
      return Some(stage.specs.error), [];
    }
    error := LoadRoots(preloader, stage.specs.value, fs);
    warnings := stage.warnings;
  }
}
