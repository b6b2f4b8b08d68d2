/**
 * `PreloaderCommand`, the older console front end: options only (no
 * configuration), the framework root, vendor packages, and the
 * application with its plugins, then one write mapped to an exit code.
 */
module PreloaderCommand {
  import opened Wrappers
  import opened Exceptions
  import opened Text
  import opened Disk
  import opened Php
  import opened PreloadResource
  import opened Preloader
  import opened ScanPlan

  const CODE_SUCCESS := 0
  const CODE_ERROR := 1

  /** `cakephp()`: `CAKE` with the four framework ignores. */
  function Cakephp(env: Env): Stage {
    Stage(Success([ScanSpec(env.cake, IgnoreSubstrings(CAKE_IGNORES))]), [])
  }

  /** `ROOT/vendor/<name>`. */
  function VendorRoot(env: Env, name: string): string {
    env.root + DS + "vendor" + DS + name
  }

  function VendorRoots(env: Env, names: seq<string>): (roots: seq<string>)
    ensures |roots| == |names| && forall i :: 0 <= i < |names| ==> roots[i] == VendorRoot(env, names[i])
  {
    if names == [] then [] else VendorRoots(env, names[..|names| - 1]) + [VendorRoot(env, names[|names| - 1])]
  }

  function NotLocated(root: string): string {
    "Package " + root + " could not be located"
  }

  /** The warning the filter raises for each root that does not exist, in order. */
  function MissingWarnings(roots: seq<string>, fs: Snapshot): seq<string> {
    if roots == [] then []
    else MissingWarnings(roots[..|roots| - 1], fs) + (if fs.Exists(roots[|roots| - 1]) then [] else [NotLocated(roots[|roots| - 1])])
  }

  /**
   * `packages()`: nothing for an empty option; otherwise the split names
   * under `ROOT/vendor`, existing ones kept in order, one warning per
   * missing one. The "Package list is empty" branch cannot be reached,
   * since splitting always gives at least one part.
   */
  function Packages(args: Arguments, env: Env, fs: Snapshot): Stage {
    if IsEmpty(args.GetOption("packages")) then Stage(Success([]), [])
    else
      var roots := VendorRoots(env, Split(ToStr(args.GetOption("packages")), ','));
      Stage(Success(PackageSpecs(Existing(roots, fs), Truthy(args.GetOption("phpunit")))), MissingWarnings(roots, fs))
  }

  /** The application roots: `APP` when `app` is truthy, then the plugins. */
  function AppRoots(args: Arguments, env: Env): seq<string> {
    var plugins := args.GetOption("plugins");
    (if Truthy(args.GetOption("app")) then [env.app] else [])
      + (if plugins == Str("*") then [env.root + DS + "plugins"]
         else if !IsEmpty(plugins) && plugins.Str? then PluginRoots(env.root, Split(plugins.s, ','))
         else [])
  }

  /** `applications()`. */
  function Applications(args: Arguments, env: Env): Stage {
    Stage(Success(IgnoreSpecs(AppRoots(args, env), AppIgnores(Truthy(args.GetOption("phpunit"))))), [])
  }

  /** The three steps of `execute`, in the order it runs them. */
  function Stages(args: Arguments, env: Env, fs: Snapshot): seq<Stage> {
    [Cakephp(env), Packages(args, env, fs), Applications(args, env)]
  }

  class PreloaderCommand {
    const preloader: Preloader

    constructor ()
      ensures fresh(preloader) && preloader.preloadResources == []
    {
      preloader := new Preloader();
    }

    /** The three loading calls at the start of `execute`, given the steps `Stages` resolves. */
    method LoadSources(stages: seq<Stage>, fs: Snapshot) returns (error: Option<Error>, warnings: seq<string>)
      requires |stages| == 3
      modifies preloader
      ensures preloader.preloadResources == old(preloader.preloadResources) + RunStages(stages, fs).added
      ensures error == RunStages(stages, fs).error
      ensures warnings == RunStages(stages, fs).warnings
    {
      ghost var start := preloader.preloadResources;
      ghost var before;
      assert stages[..0] == [];
      warnings := [];
      var w;
      before := preloader.preloadResources;
      error, w := LoadStage(preloader, stages[0], fs);
      RunStagesStep(stages, 0, fs);
      ThenTracks(start, before, preloader.preloadResources, warnings, w, RunStages(stages[..0], fs), stages[0], fs);
      warnings := warnings + w;
      if error.Some? {
        RunStagesStopAt(stages, 1, fs);
        return;
      }
      before := preloader.preloadResources;
      error, w := LoadStage(preloader, stages[1], fs);
      RunStagesStep(stages, 1, fs);
      ThenTracks(start, before, preloader.preloadResources, warnings, w, RunStages(stages[..1], fs), stages[1], fs);
      warnings := warnings + w;
      if error.Some? {
        RunStagesStopAt(stages, 2, fs);
        return;
      }
      before := preloader.preloadResources;
      error, w := LoadStage(preloader, stages[2], fs);
      RunStagesStep(stages, 2, fs);
      ThenTracks(start, before, preloader.preloadResources, warnings, w, RunStages(stages[..2], fs), stages[2], fs);
      warnings := warnings + w;
      assert stages[..3] == stages;
    }

    /**
     * `execute($args, $io)`: loads the three steps, writes to the `(string)`
     * of the `name` option and maps the write result to the exit code. An
     * exception from loading or from `write` propagates. `timestamp`,
     * `beforeWrite` and `putSucceeds` are as for `Preloader.Write`, and
     * `written` is the script the run leaves on disk, if any.
     */
    method Execute(args: Arguments, env: Env, fs: Snapshot, timestamp: string,
                   beforeWrite: Option<seq<PreloadResource>>, putSucceeds: bool)
      returns (code: Result<int, Error>, written: Option<string>, warnings: seq<string>)
      modifies preloader
      ensures var p := RunStages(Stages(args, env, fs), fs);
        p.error.Some? ==>
          && code == Failure(p.error.value)
          && written == None
          && warnings == p.warnings
          && preloader.preloadResources == old(preloader.preloadResources) + p.added
      ensures var p, name := RunStages(Stages(args, env, fs), fs), ToStr(args.GetOption("name"));
        p.error.None? && fs.Exists(name) && !fs.IsWritable(name) ==>
          && code == Failure(Runtime("File path is not writable: " + name))
          && written == None
          && warnings == p.warnings
          && preloader.preloadResources == old(preloader.preloadResources) + p.added
      ensures var p, name := RunStages(Stages(args, env, fs), fs), ToStr(args.GetOption("name"));
        p.error.None? && !(fs.Exists(name) && !fs.IsWritable(name)) ==>
          && code == Success(if putSucceeds then CODE_SUCCESS else CODE_ERROR)
          && preloader.preloadResources == SortByFile(beforeWrite.GetOr(old(preloader.preloadResources) + p.added))
          && written == (if putSucceeds then Some(Render(DocumentLines(timestamp, env.root, preloader.preloadResources, fs))) else None)
          && warnings == p.warnings + SkipWarnings(preloader.preloadResources, fs)
    {
      var error;
      error, warnings := LoadSources(Stages(args, env, fs), fs);
      if error.Some? {
        return Failure(error.value), None, warnings;
      }
      var name := ToStr(args.GetOption("name"));
      var result, skipped;
      result, written, skipped := preloader.Write(name, fs, env.root, timestamp, beforeWrite, putSucceeds);
      if result.Failure? {
        return Failure(result.error), written, warnings;
      }
      warnings := warnings + skipped;
      if result.value {
        return Success(CODE_SUCCESS), written, warnings;
      }
      return Success(CODE_ERROR), written, warnings;
    }
  }

  // ---------------------------------------------------------------------
  // Properties of the resolution

  /** `execute` starts with `CAKE` and the four framework ignores. */
  lemma CakeFirst(args: Arguments, env: Env, fs: Snapshot)
    ensures Stages(args, env, fs)[0].specs == Success([ScanSpec(env.cake, IgnoreSubstrings(["src/Console", "src/Command", "src/Shell", "src/TestSuite"]))])
  {
  }

  lemma {:induction false} MissingWarningsCount(roots: seq<string>, fs: Snapshot)
    ensures |MissingWarnings(roots, fs)| + |Existing(roots, fs)| == |roots|
    ensures forall w :: w in MissingWarnings(roots, fs) <==> exists r :: r in roots && !fs.Exists(r) && w == NotLocated(r)
  {
    if roots != [] {
      var init := roots[..|roots| - 1];
      MissingWarningsCount(init, fs);
      SplitLast(roots);
    }
  }

  /**
   * Packages: an empty option adds nothing; otherwise the specs are the
   * existing roots among `ROOT/vendor/<name>` for the split option, with
   * one warning naming each missing root and as many warnings as roots
   * dropped.
   */
  lemma PackagesResolved(args: Arguments, env: Env, fs: Snapshot)
    ensures IsEmpty(args.GetOption("packages")) ==> Packages(args, env, fs) == Stage(Success([]), [])
    ensures !IsEmpty(args.GetOption("packages")) ==>
      var names := Split(ToStr(args.GetOption("packages")), ',');
      var roots := VendorRoots(env, names);
      var s := Packages(args, env, fs);
      && s.specs.Success?
      && (forall spec :: spec in s.specs.value <==>
            spec.root in roots && fs.Exists(spec.root) && spec.rule == TestsFilter(Truthy(args.GetOption("phpunit"))))
      && |s.specs.value| + |s.warnings| == |names|
      && (forall w :: w in s.warnings <==> exists r :: r in roots && !fs.Exists(r) && w == NotLocated(r))
  {
    if !IsEmpty(args.GetOption("packages")) {
      var roots := VendorRoots(env, Split(ToStr(args.GetOption("packages")), ','));
      MissingWarningsCount(roots, fs);
      ExistingPackageSpecs(roots, fs, Truthy(args.GetOption("phpunit")));
    }
  }

  /** `APP` is the first application root iff `app` is truthy; the plugin roots follow it. */
  lemma AppFirstIff(args: Arguments, env: Env)
    ensures Truthy(args.GetOption("app")) ==> |AppRoots(args, env)| >= 1 && AppRoots(args, env)[0] == env.app
    ensures Truthy(args.GetOption("app")) ==> AppRoots(args, env)[1..] == AppRoots(Arguments(args.options["app" := Null]), env)
    ensures !Truthy(args.GetOption("app")) ==> AppRoots(args, env) == AppRoots(Arguments(args.options["app" := Null]), env)
  {
    var args' := Arguments(args.options["app" := Null]);
    assert args'.GetOption("plugins") == args.GetOption("plugins");
    assert !Truthy(args'.GetOption("app"));
  }

  /** `*` gives `ROOT/plugins`; a comma list gives `ROOT/plugins/<p>/src` per entry, after `APP`. */
  lemma PluginRootsResolved(args: Arguments, env: Env)
    ensures var app := if Truthy(args.GetOption("app")) then [env.app] else [];
      args.GetOption("plugins") == Str("*") ==> AppRoots(args, env) == app + [env.root + "/" + "plugins"]
    ensures var app := if Truthy(args.GetOption("app")) then [env.app] else [];
      var plugins := args.GetOption("plugins");
      plugins.Str? && plugins != Str("*") && !IsEmpty(plugins) ==>
        && |AppRoots(args, env)| == |app| + |Split(plugins.s, ',')|
        && forall i :: 0 <= i < |Split(plugins.s, ',')| ==>
          AppRoots(args, env)[|app| + i] == PluginRoot(env.root, Split(plugins.s, ',')[i])
    ensures var app := if Truthy(args.GetOption("app")) then [env.app] else [];
      !args.GetOption("plugins").Str? || IsEmpty(args.GetOption("plugins")) ==> AppRoots(args, env) == app
  {
    var app := if Truthy(args.GetOption("app")) then [env.app] else [];
    var plugins := args.GetOption("plugins");
    if !plugins.Str? || IsEmpty(plugins) {
      assert app + [] == app;
    }
  }

  /** Every application root ignores `tests/` exactly when `phpunit` is not set. */
  lemma ApplicationsIgnoreTests(args: Arguments, env: Env)
    ensures forall spec :: spec in Applications(args, env).specs.value ==>
      spec.rule.IgnoreSubstrings? && ("tests/" in spec.rule.subs <==> !Truthy(args.GetOption("phpunit")))
    ensures |Applications(args, env).specs.value| == |AppRoots(args, env)|
  {
  }

  /**
   * Two comma-separated plugins, as in `--plugins=MyPluginOneZz,MyPluginTwoZz`:
   * each plugin's sources, in order, after `APP` when `app` is set. Without
   * `app`, as in the command's test, the two plugin roots are all there is.
   */
  lemma TwoPluginsExample(args: Arguments, env: Env, one: string, two: string)
    requires ',' !in one && ',' !in two
    requires args.GetOption("plugins") == Str(one + [','] + two)
    ensures !Truthy(args.GetOption("app")) ==>
      AppRoots(args, env) == [PluginRoot(env.root, one), PluginRoot(env.root, two)]
    ensures Truthy(args.GetOption("app")) ==>
      AppRoots(args, env) == [env.app, PluginRoot(env.root, one), PluginRoot(env.root, two)]
  {
    SplitPrefix(one, two, ',');
    SplitNoSep(two, ',');
    assert Split(one + [','] + two, ',') == [one, two];
    assert one + [','] + two != "*";
  }
}
