/**
 * `PreloaderService`: turns console options and `PreloaderConfig`
 * entries into the roots to scan (framework, vendor packages, the
 * application, plugins) and the output path, loads them into a
 * `Preloader` in that order, and writes the script.
 */
module PreloaderService {
  import opened Wrappers
  import opened Exceptions
  import opened Text
  import opened Disk
  import opened Php
  import opened PreloadResource
  import opened Preloader
  import opened ScanPlan

  const PACKAGES_MISSING := "One or more packages not found"

  /** The message PHP gives for the `allowCli` call. */
  const ALLOW_CLI_UNDEFINED := "Call to undefined method CakePreloader\\Preloader::allowCli()"

  /**
   * `if ($basePath = $args->getOption('basePath')) { … str_replace(ROOT, $basePath, $subject) }`:
   * a truthy base path replaces `ROOT` in `subject`; a truthy base path that
   * is not a string is a `TypeError` from `str_replace` under strict types.
   */
  function Rebase(args: Arguments, subject: string, root: string): (r: Result<string, Error>)
    ensures !Truthy(args.GetOption("basePath")) ==> r == Success(subject)
    ensures Truthy(args.GetOption("basePath")) ==> (r.Success? <==> args.GetOption("basePath").Str?)
  {
    var basePath := args.GetOption("basePath");
    if !Truthy(basePath) then Success(subject)
    else if basePath.Str? then Success(Replace(subject, root, basePath.s))
    else Failure(Type("str_replace(): Argument #2 ($replace) must be of type string"))
  }

  /** `cakephp()`: the framework root, with `ROOT` rebased when a base path is given. */
  function Cakephp(args: Arguments, env: Env): Stage {
    match Rebase(args, env.cake, env.root)
    case Failure(e) => Stage(Failure(e), [])
    case Success(path) => Stage(Success([ScanSpec(path, IgnoreSubstrings(CAKE_IGNORES))]), [])
  }

  /**
   * The package names: a string value is split on `,`, but the split
   * re-reads the option, not the value that won the `??`.
   */
  function PackageNames(args: Arguments, packages: Value): Result<seq<string>, Error> {
    match packages
    case Str(_) => Success(Split(ToStr(args.GetOption("packages")), ','))
    case List(items) => Success(items)
    case _ => Failure(Type("array_map(): Argument #2 ($array) must be of type array"))
  }

  /**
   * A package's root: the closure reads a `$preloadPath` it does not
   * capture, which is null, so only `/vendor/<name>` remains.
   */
  function PackageRoot(name: string): string {
    "" + DS + "vendor" + DS + name
  }

  function PackageRoots(names: seq<string>): (roots: seq<string>)
    ensures |roots| == |names| && forall i :: 0 <= i < |names| ==> roots[i] == PackageRoot(names[i])
  {
    if names == [] then [] else PackageRoots(names[..|names| - 1]) + [PackageRoot(names[|names| - 1])]
  }

  /** `packages()`. */
  function Packages(args: Arguments, config: Config, env: Env, fs: Snapshot): Stage {
    var packages := Coalesce(args.GetOption("packages"), config.Read("packages"));
    if IsEmpty(packages) then Stage(Success([]), [])
    else if Rebase(args, env.root, env.root).Failure? then Stage(Failure(Rebase(args, env.root, env.root).error), [])
    else
      match PackageNames(args, packages)
      case Failure(e) => Stage(Failure(e), [])
      case Success(names) =>
        var roots := PackageRoots(names);
        var valid := Existing(roots, fs);
        Stage(Success(PackageSpecs(valid, Truthy(args.GetOption("phpunit")))),
              if |roots| != |valid| then [PACKAGES_MISSING] else [])
  }

  /** Whether `app()` returns before loading anything. */
  predicate AppSkipped(args: Arguments, config: Config) {
    args.HasOption("app") && !Truthy(args.GetOption("app")) && !Truthy(config.Read("app"))
  }

  /**
   * `app()`: the root handed to `loadPath` is the raw base-path option, so
   * anything but a string there is a `TypeError` under strict types.
   */
  function App(args: Arguments, config: Config, env: Env): Stage {
    if AppSkipped(args, config) then Stage(Success([]), [])
    else
      match Rebase(args, env.app, env.root)
      case Failure(e) => Stage(Failure(e), [])
      case Success(_) =>
        var basePath := args.GetOption("basePath");
        if basePath.Str? then
          Stage(Success([ScanSpec(basePath.s, IgnoreSubstrings(AppIgnores(Truthy(args.GetOption("phpunit")))))]), [])
        else
          Stage(Failure(Type("loadPath(): Argument #1 ($path) must be of type string")), [])
  }

  /** The plugin wildcard: `'*'` or `true`. */
  predicate IsWildcard(plugins: Value) {
    plugins == Str("*") || plugins == Bool(true)
  }

  /** The plugin names iterated when the value is (or is split into) an array. */
  function PluginNames(args: Arguments, plugins: Value): seq<string> {
    if IsWildcard(plugins) then []
    else
      match plugins
      case Str(_) => Split(ToStr(args.GetOption("plugins")), ',')
      case List(items) => items
      case _ => []
  }

  /** `plugins()`: the roots are built from the `(string)` of the raw base-path option. */
  function Plugins(args: Arguments, config: Config, env: Env): Stage {
    var plugins := Coalesce(args.GetOption("plugins"), config.Read("plugins"));
    if IsEmpty(plugins) then Stage(Success([]), [])
    else
      match Rebase(args, env.root, env.root)
      case Failure(e) => Stage(Failure(e), [])
      case Success(_) =>
        var base := ToStr(args.GetOption("basePath"));
        var paths := (if IsWildcard(plugins) then [base + DS + "plugins"] else []) + PluginRoots(base, PluginNames(args, plugins));
        Stage(Success(IgnoreSpecs(paths, AppIgnores(Truthy(args.GetOption("phpunit"))))), [])
  }

  /** The four steps of `generate`, in the order it runs them. */
  function Stages(args: Arguments, config: Config, env: Env, fs: Snapshot): seq<Stage> {
    [Cakephp(args, env), Packages(args, config, env, fs), App(args, config, env), Plugins(args, config, env)]
  }

  /**
   * The output path: `name` option, else `name` config; an empty value
   * means `ROOT/preload.php`. A non-empty value that is not a string is a
   * `TypeError` at `write`.
   */
  function OutputPath(args: Arguments, config: Config, env: Env): (r: Result<string, Error>)
    ensures var name := Coalesce(args.GetOption("name"), config.Read("name"));
      && (IsEmpty(name) ==> r == Success(env.root + DS + "preload.php"))
      && (!IsEmpty(name) && name.Str? ==> r == Success(name.s))
      && (!IsEmpty(name) && !name.Str? ==> r.Failure?)
  {
    var path := Coalesce(args.GetOption("name"), config.Read("name"));
    if IsEmpty(path) then Success(env.root + DS + "preload.php")
    else if path.Str? then Success(path.s)
    else Failure(Type("write(): Argument #1 ($path) must be of type string"))
  }

  class PreloaderService {
    const preloader: Preloader

    /** `__construct(?Preloader $preloader = null)`. */
    constructor (p: Option<Preloader>)
      ensures p.Some? ==> preloader == p.value
      ensures p.None? ==> fresh(preloader) && preloader.preloadResources == []
    {
      if p.Some? {
        preloader := p.value;
      } else {
        preloader := new Preloader();
      }
    }

    /**
     * The four loading calls at the start of `generate`, given the steps
     * `Stages` resolves: `cakephp`, `packages`, `app`, `plugins`.
     */
    method LoadSources(stages: seq<Stage>, fs: Snapshot) returns (error: Option<Error>, warnings: seq<string>)
      requires |stages| == 4
      modifies preloader
      ensures preloader.preloadResources == old(preloader.preloadResources) + RunStages(stages, fs).added
      ensures error == RunStages(stages, fs).error
      ensures warnings == RunStages(stages, fs).warnings
    {
      ghost var start := preloader.preloadResources;
      ghost var before;
      assert stages[..0] == [];
      warnings := [];
      var w;
      before := preloader.preloadResources;
      error, w := LoadStage(preloader, stages[0], fs);
      RunStagesStep(stages, 0, fs);
      ThenTracks(start, before, preloader.preloadResources, warnings, w, RunStages(stages[..0], fs), stages[0], fs);
      warnings := warnings + w;
      if error.Some? {
        RunStagesStopAt(stages, 1, fs);
        return;
      }
      before := preloader.preloadResources;
      error, w := LoadStage(preloader, stages[1], fs);
      RunStagesStep(stages, 1, fs);
      ThenTracks(start, before, preloader.preloadResources, warnings, w, RunStages(stages[..1], fs), stages[1], fs);
      warnings := warnings + w;
      if error.Some? {
        RunStagesStopAt(stages, 2, fs);
        return;
      }
      before := preloader.preloadResources;
      error, w := LoadStage(preloader, stages[2], fs);
      RunStagesStep(stages, 2, fs);
      ThenTracks(start, before, preloader.preloadResources, warnings, w, RunStages(stages[..2], fs), stages[2], fs);
      warnings := warnings + w;
      if error.Some? {
        RunStagesStopAt(stages, 3, fs);
        return;
      }
      before := preloader.preloadResources;
      error, w := LoadStage(preloader, stages[3], fs);
      RunStagesStep(stages, 3, fs);
      ThenTracks(start, before, preloader.preloadResources, warnings, w, RunStages(stages[..3], fs), stages[3], fs);
      warnings := warnings + w;
      assert stages[..4] == stages;
    }

    /**
     * `generate($args, $io)`: loads the four steps in order, stopping at the
     * first exception, then writes to the output path. `timestamp`,
     * `beforeWrite` and `putSucceeds` are as for `Preloader.Write`, and
     * `written` is the script the run leaves on disk, if any.
     */
    method Generate(args: Arguments, config: Config, env: Env, fs: Snapshot, timestamp: string,
                    beforeWrite: Option<seq<PreloadResource>>, putSucceeds: bool)
      returns (result: Result<string, Error>, written: Option<string>, warnings: seq<string>)
      modifies preloader
      ensures var p := RunStages(Stages(args, config, env, fs), fs);
        p.error.Some? ==>
          && result == Failure(p.error.value)
          && written == None
          && warnings == p.warnings
          && preloader.preloadResources == old(preloader.preloadResources) + p.added
      ensures var p := RunStages(Stages(args, config, env, fs), fs);
        p.error.None? && OutputPath(args, config, env).Failure? ==>
          && result == Failure(OutputPath(args, config, env).error)
          && written == None
          && warnings == p.warnings
          && preloader.preloadResources == old(preloader.preloadResources) + p.added
      ensures var p, o := RunStages(Stages(args, config, env, fs), fs), OutputPath(args, config, env);
        p.error.None? && o.Success? && fs.Exists(o.value) && !fs.IsWritable(o.value) ==>
          var path := o.value;
          && result == Failure(Runtime("File path is not writable: " + path))
          && written == None
          && warnings == p.warnings
          && preloader.preloadResources == old(preloader.preloadResources) + p.added
      ensures var p, o := RunStages(Stages(args, config, env, fs), fs), OutputPath(args, config, env);
        p.error.None? && o.Success? && !(fs.Exists(o.value) && !fs.IsWritable(o.value)) ==>
          var path := o.value;
          && result == (if putSucceeds then Success(path) else Failure(PreloadWrite("Writing to " + path + " failed")))
          && preloader.preloadResources == SortByFile(beforeWrite.GetOr(old(preloader.preloadResources) + p.added))
          && written == (if putSucceeds then Some(Render(DocumentLines(timestamp, env.root, preloader.preloadResources, fs))) else None)
          && warnings == p.warnings + SkipWarnings(preloader.preloadResources, fs)
    {
      var error;
      error, warnings := LoadSources(Stages(args, config, env, fs), fs);
      if error.Some? {
        return Failure(error.value), None, warnings;
      }

      var path := OutputPath(args, config, env);
      if path.Failure? {
        return Failure(path.error), None, warnings;
      }
      var ok, skipped;
      ok, written, skipped := preloader.Write(path.value, fs, env.root, timestamp, beforeWrite, putSucceeds);
      if ok.Failure? {
        return Failure(ok.error), written, warnings;
      }
      warnings := warnings + skipped;
      if ok.value {
        return Success(path.value), written, warnings;
      }
      return Failure(PreloadWrite("Writing to " + path.value + " failed")), written, warnings;
    }

    /**
     * `generate` as written: `allowCli` is not a method of `Preloader`, so
     * once the four steps have loaded, the call at line 42 throws `Error`
     * and nothing is written. Lines 39-40 cannot throw (`??` and `empty`
     * accept any value); a non-string name would only be refused by
     * `write` at line 44, which is never reached. `Generate` models the
     * evident intent, where the call has no effect.
     */
    method GenerateAsWritten(args: Arguments, config: Config, env: Env, fs: Snapshot)
      returns (result: Result<string, Error>, written: Option<string>, warnings: seq<string>)
      modifies preloader
      ensures result.Failure? && written == None
      ensures var p := RunStages(Stages(args, config, env, fs), fs);
        && result == Failure(if p.error.Some? then p.error.value else Call(ALLOW_CLI_UNDEFINED))
        && warnings == p.warnings
        && preloader.preloadResources == old(preloader.preloadResources) + p.added
    {
      var error;
      error, warnings := LoadSources(Stages(args, config, env, fs), fs);
      if error.Some? {
        return Failure(error.value), None, warnings;
      }
      return Failure(Call(ALLOW_CLI_UNDEFINED)), None, warnings;
    }
  }

  // ---------------------------------------------------------------------
  // Properties of the resolution

  /** `generate` always starts with the framework root and its four ignores, rebased when asked. */
  lemma CakeFirst(args: Arguments, config: Config, env: Env, fs: Snapshot)
    requires !Truthy(args.GetOption("basePath")) || args.GetOption("basePath").Str?
    ensures var s := Stages(args, config, env, fs)[0];
      && s.specs.Success? && |s.specs.value| == 1
      && s.specs.value[0].rule == IgnoreSubstrings(["src/Console", "src/Command", "src/Shell", "src/TestSuite"])
      && s.specs.value[0].root == (if Truthy(args.GetOption("basePath")) then Replace(env.cake, env.root, args.GetOption("basePath").s) else env.cake)
  {
  }

  /** With a base path that is a string and `CAKE` under `ROOT`, the framework root moves under the base path. */
  lemma CakeRebased(args: Arguments, env: Env, base: string, rest: string)
    requires args.GetOption("basePath") == Str(base) && Truthy(Str(base))
    requires env.root != [] && env.cake == env.root + rest && !Contains(rest, env.root)
    ensures Cakephp(args, env).specs == Success([ScanSpec(base + rest, IgnoreSubstrings(CAKE_IGNORES))])
  {
    ReplaceRoot(env.root, rest, base);
  }

  /** The option wins over the configuration whenever it is given. */
  lemma OptionPrecedence(args: Arguments, config: Config, key: string)
    ensures args.HasOption(key) ==> Coalesce(args.GetOption(key), config.Read(key)) == args.GetOption(key)
    ensures !args.HasOption(key) ==> Coalesce(args.GetOption(key), config.Read(key)) == config.Read(key)
  {
  }

  /** An empty `packages` value (after `??`) adds no roots and no warning. */
  lemma PackagesEmpty(args: Arguments, config: Config, env: Env, fs: Snapshot)
    requires IsEmpty(Coalesce(args.GetOption("packages"), config.Read("packages")))
    ensures Packages(args, config, env, fs) == Stage(Success([]), [])
  {
  }

  /**
   * Packages: the specs are the existing `/vendor/<name>` roots, in order,
   * each with the `/tests/` filter unless `phpunit`, and exactly one warning
   * iff some root is missing.
   */
  lemma PackagesResolved(args: Arguments, config: Config, env: Env, fs: Snapshot)
    requires !IsEmpty(Coalesce(args.GetOption("packages"), config.Read("packages")))
    requires Rebase(args, env.root, env.root).Success?
    requires PackageNames(args, Coalesce(args.GetOption("packages"), config.Read("packages"))).Success?
    ensures var names := PackageNames(args, Coalesce(args.GetOption("packages"), config.Read("packages"))).value;
      var roots := PackageRoots(names);
      var s := Packages(args, config, env, fs);
      && s.specs.Success?
      && (forall spec :: spec in s.specs.value <==>
            spec.root in roots && fs.Exists(spec.root) && spec.rule == TestsFilter(Truthy(args.GetOption("phpunit"))))
      && (s.warnings == [PACKAGES_MISSING] <==> exists i :: 0 <= i < |names| && !fs.Exists(PackageRoot(names[i])))
      && (s.warnings == [] <==> forall i :: 0 <= i < |names| ==> fs.Exists(PackageRoot(names[i])))
  {
    var names := PackageNames(args, Coalesce(args.GetOption("packages"), config.Read("packages"))).value;
    var roots := PackageRoots(names);
    ExistingMembers(roots, fs);
    ExistingPackageSpecs(roots, fs, Truthy(args.GetOption("phpunit")));
  }

  /** A string `packages` option is split on commas; the configuration is then not consulted. */
  lemma PackagesFromOption(args: Arguments, config: Config, s: string)
    requires args.GetOption("packages") == Str(s)
    ensures PackageNames(args, Coalesce(args.GetOption("packages"), config.Read("packages"))) == Success(Split(s, ','))
  {
  }

  /**
   * A string `packages` configuration with no option splits the option's
   * empty text instead: one empty name.
   */
  lemma PackagesFromConfigString(args: Arguments, config: Config, s: string)
    requires !args.HasOption("packages") && config.Read("packages") == Str(s)
    ensures PackageNames(args, Coalesce(args.GetOption("packages"), config.Read("packages"))) == Success([""])
  {
  }

  /** The application is skipped exactly under the stated condition; otherwise it is one root or an error. */
  lemma AppSkipIff(args: Arguments, config: Config, env: Env)
    ensures App(args, config, env) == Stage(Success([]), []) <==> AppSkipped(args, config)
    ensures !AppSkipped(args, config) && args.GetOption("basePath").Str? && Truthy(args.GetOption("basePath")) ==>
      App(args, config, env).specs ==
        Success([ScanSpec(args.GetOption("basePath").s, IgnoreSubstrings(AppIgnores(Truthy(args.GetOption("phpunit")))))])
    ensures !AppSkipped(args, config) && !args.GetOption("basePath").Str? ==> App(args, config, env).specs.Failure?
  {
  }

  /** `tests/` is ignored for the application and plugins exactly when `phpunit` is not set. */
  lemma TestsIgnoredUnlessPhpunit(args: Arguments, config: Config, env: Env)
    ensures App(args, config, env).specs.Success? ==>
      forall spec :: spec in App(args, config, env).specs.value ==>
        spec.rule.IgnoreSubstrings? && ("tests/" in spec.rule.subs <==> !Truthy(args.GetOption("phpunit")))
    ensures Plugins(args, config, env).specs.Success? ==>
      forall spec :: spec in Plugins(args, config, env).specs.value ==>
        spec.rule.IgnoreSubstrings? && ("tests/" in spec.rule.subs <==> !Truthy(args.GetOption("phpunit")))
  {
  }

  /** The wildcard gives exactly one root, `<base>/plugins`. */
  lemma PluginsWildcard(args: Arguments, config: Config, env: Env)
    requires IsWildcard(Coalesce(args.GetOption("plugins"), config.Read("plugins")))
    requires !Truthy(args.GetOption("basePath")) || args.GetOption("basePath").Str?
    ensures var base := ToStr(args.GetOption("basePath"));
      Plugins(args, config, env).specs == Success([ScanSpec(base + "/" + "plugins", IgnoreSubstrings(AppIgnores(Truthy(args.GetOption("phpunit")))))])
  {
    var base := ToStr(args.GetOption("basePath"));
    var plugins := Coalesce(args.GetOption("plugins"), config.Read("plugins"));
    assert PluginNames(args, plugins) == [];
    assert PluginRoots(base, []) == [];
    var paths := [base + DS + "plugins"] + [];
    assert paths == [base + "/" + "plugins"];
    var specs := IgnoreSpecs(paths, AppIgnores(Truthy(args.GetOption("phpunit"))));
    assert specs == [ScanSpec(base + "/" + "plugins", IgnoreSubstrings(AppIgnores(Truthy(args.GetOption("phpunit")))))];
  }

  /** A list gives one root `<base>/plugins/<name>/src` per name, in order. */
  lemma PluginsList(args: Arguments, config: Config, env: Env, names: seq<string>)
    requires Coalesce(args.GetOption("plugins"), config.Read("plugins")) == List(names) && names != []
    requires !Truthy(args.GetOption("basePath")) || args.GetOption("basePath").Str?
    ensures var base := ToStr(args.GetOption("basePath"));
      var specs := Plugins(args, config, env).specs;
      && specs.Success? && |specs.value| == |names|
      && forall i :: 0 <= i < |names| ==> specs.value[i].root == PluginRoot(base, names[i])
  {
    var base := ToStr(args.GetOption("basePath"));
    assert [] + PluginRoots(base, names) == PluginRoots(base, names);
  }

  /** An empty plugins value adds nothing. */
  lemma PluginsEmpty(args: Arguments, config: Config, env: Env)
    requires IsEmpty(Coalesce(args.GetOption("plugins"), config.Read("plugins")))
    ensures Plugins(args, config, env) == Stage(Success([]), [])
  {
  }

  /** The cakephp ignore list keeps framework files out of the console, command, shell and test-suite trees. */
  lemma CakeIgnoreExample(f: Filesystem.FileInfo)
    requires Contains(f.GetPathname(), "src/Shell")
    ensures !Accepts(IgnoreSubstrings(CAKE_IGNORES), f)
  {
    assert CAKE_IGNORES[2] == "src/Shell";
  }

  /**
   * `CAKE` ends in `/`; the iterator drops that slash, so a console file's
   * pathname still holds `src/Console` and the file is ignored.
   */
  lemma CakeIgnoresConsoleUnderSlashedRoot(base: string, name: string)
    ensures !Accepts(IgnoreSubstrings(CAKE_IGNORES), Filesystem.FileInfo(base + "/src/", ["Console"], name, false))
  {
    var f := Filesystem.FileInfo(base + "/src/", ["Console"], name, false);
    assert Filesystem.DirPath(base + "/src/") == base + "/src";
    assert Filesystem.TrailText(["Console"]) == "/Console" + Filesystem.TrailText([]);
    assert f.GetPathname() == (base + "/") + "src/Console" + ("/" + name);
    ContainsInfix(base + "/", "src/Console", "/" + name);
    assert CAKE_IGNORES[0] == "src/Console";
  }

  /** Examples of the output path choice. */
  lemma OutputPathExamples(args: Arguments, config: Config, env: Env)
    requires args.GetOption("name") == Null && config.Read("name") == Str("")
    ensures OutputPath(args, config, env) == Success(env.root + "/" + "preload.php")
    ensures OutputPath(Arguments(args.options["name" := Str("/tmp/p.php")]), config, env) == Success("/tmp/p.php")
  {
    assert Arguments(args.options["name" := Str("/tmp/p.php")]).GetOption("name") == Str("/tmp/p.php");
  }
}
