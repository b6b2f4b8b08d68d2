# cakephp-preloader, modelled in Dafny

This project models the core of `cakephp-preloader`. That library scans a
CakePHP application, its framework, vendor packages and plugins for PHP files
and writes an opcache preload script listing them.

- A `PreloadResource` is a validated pair of a directive (`require_once` or
  `opcache_compile_file`) and a file path. It renders as one directive line.
- A `Preloader` keeps the list of resources.
  - `loadPath` walks a directory and appends one classified resource per walked entry whose extension is `php` (a directory named `x.php` included).
  - `getPreloadResources` sorts the list in place by `strcasecmp` on the path.
  - `setPreloadResources` replaces the list.
  - `contents` renders the script: the header, the SAPI guard, the autoload
    line, the inline `require_once` lines, then a `# Scripts` section.
  - `write` refuses a path that exists and is not writable.
- `Filesystem::findRecursive` is a child-first walk. It prunes directories
  whose name starts with a dot, then applies a filter. `find` lists direct
  children only. As with SPL's directory iterators, an entry's directory is
  the opened path without one trailing `/` (`DirPath`), so
  `<root>/` and `<root>` give the same pathnames.
- `PreloaderService::generate` and the older `PreloaderCommand::execute`
  turn console options and `PreloaderConfig` entries into an ordered list of
  scan roots, each with an ignore rule. They load those roots and write the
  script; the command also maps the result to an exit code.

Modules, one per concern:

- `Wrappers`: `Option` and `Result`.
- `Text`: `strcasecmp`, `explode`, `implode`, `str_replace` and substring search on `seq<char>`.
- `Php`: option and configuration values with PHP's `empty`, truthiness, `??` and `(string)`.
- `Disk`: a snapshot of the file system, meaning the directory trees, the existing files and the writable paths. The empty path is neither a directory nor a file, so opening it fails.
- `Inflector`: the `camelize` rule the classifier relies on.
- `Exceptions`: the exceptions thrown, as error values.
- `PreloadResource`, `Filesystem` and `Preloader`: one module per source file.
- `ScanPlan`: scan specs and the loading of a sequence of them into a `Preloader`, shared by the service and the command.
- `PreloaderService` and `PreloaderCommand`: root resolution, output path and exit codes.

`Preloader.Preloader`, `PreloaderService.PreloaderService` and
`PreloaderCommand.PreloaderCommand` are classes, because the source updates
their state in place. `LoadPath` and `Contents` keep the source's `foreach`
loops. Each method is proved against a specification function:

- `Scan` specifies the walk that `loadPath` appends;
- `SortByFile`, a stable insertion sort, specifies the sort;
- `DocumentLines` with `Render` specifies the script;
- `Run` and `RunStages` specify the loading sequences.

Exceptions are `Failure` values. Warnings raised through `triggerWarning` or
console output are returned as a list of strings.

## Model

| member | source | states |
|---|---|---|
| PreloadResource.New | src/PreloadResource.php:46-56 | construction succeeds iff the type is `require_once` or `opcache_compile_file`; otherwise it fails with `InvalidArgumentException` and its message; `getType`/`getFile` return the arguments |
| PreloadResource.GetResource | src/PreloadResource.php:80-89 | fails with `ResourceNotFoundException` ("File `<file>` does not exist") iff the file does not exist; otherwise returns the directive line |
| PreloadResource.DirectiveRoundTrip | src/PreloadResource.php:88 | parsing the directive line gives the resource back, so the line determines type and file |
| PreloadResource.DirectiveInjective | src/PreloadResource.php:88 | distinct resources render as distinct lines |
| PreloadResource.DirectiveShape | src/PreloadResource.php:88 | the line starts with the type and contains the path verbatim |
| PreloadResource.ConstructorExamples | tests/TestCase/PreloadResourceTest.php:11-15 | type `nope` is rejected with the exception's message; `require_once` is accepted |
| Text.StrCaseCmpZeroIff | src/Preloader.php:37 | `strcasecmp` is 0 iff the ASCII-lower-cased strings are equal |
| Text.StrCaseCmpAntisymmetric | src/Preloader.php:37 | swapping the arguments negates the comparison |
| Text.StrCaseCmpTransitive | src/Preloader.php:37 | the comparison is transitive, so it is a total preorder the sort can use |
| Text.SplitJoin | src/PreloaderService.php:93-95 | `implode(',', explode(',', s)) == s`, and no part contains the separator |
| Text.JoinSplit | src/Command/PreloaderCommand.php:92 | splitting the join of separator-free parts gives the parts back |
| Text.ReplaceRoot | src/PreloaderService.php:61-64 | `str_replace(ROOT, base, ROOT . rest)` is `base . rest` when `rest` does not contain `ROOT` |
| Inflector.CamelizeFixedPointIff | src/Preloader.php:78 | `camelize(s) == s` iff `s` has no `_` or space and does not start with a lower-case letter |
| Filesystem.FindRecursiveFilters | src/Filesystem.php:76-120 | a path that is not a directory (the empty path included) fails; otherwise the result is exactly the walked entries that pass the filter, or all of them with a null filter; each pathname is the opened path without its trailing `/`, then the subdirectory names and the file name joined by `/` |
| Filesystem.FindRecursiveComplete | src/Filesystem.php:83-103 | every entry at any depth that lies under no dot-directory, is not a dot-directory itself and is not `.` or `..` is yielded, when it passes the filter |
| Filesystem.FindRecursiveSound | src/Filesystem.php:83-103 | everything yielded is an entry of the tree at its trail, not a dot entry, not a dot-directory nor below one, and accepted by the filter |
| Filesystem.FindRecursiveNoDuplicates | src/Filesystem.php:94-103 | in a tree with distinct sibling names, no entry is yielded twice, with or without the filter |
| Filesystem.PathUnderSlashedRoot | src/Filesystem.php:81 | opening `<root>/` gives the same directory and pathname as opening `<root>` |
| Filesystem.KeepAppend | src/Filesystem.php:113-120 | the callback filter keeps a sub-sequence in order: filtering a concatenation concatenates the filtered parts |
| Filesystem.FindRecursiveSkipsHiddenDirs | src/Filesystem.php:83-92 | nothing yielded is a dot-directory or lies beneath one at any depth, and nothing is `.` or `..` |
| Filesystem.DotFileFound | src/Filesystem.php:86 | a plain file whose name starts with a dot is still yielded, at any depth below non-hidden directories |
| Filesystem.FindRecursiveChildFirst | src/Filesystem.php:94-97 | every entry beneath a directory is yielded before the directory itself |
| Filesystem.FindRecursiveFilteredChildFirst | src/Filesystem.php:99-103 | the child-first order survives the filter |
| Filesystem.FindDirectChildren | src/Filesystem.php:52-64 | `find` yields only direct children of the path and never `.` or `..`, with the opened path minus its trailing `/` as their directory; with no filter it yields every other child |
| Filesystem.ExtensionOfPhpFile | src/Preloader.php:68 | a name ending in `.php` has extension `php` |
| Preloader.SortByFilePermutation | src/Preloader.php:34-41 | the sort is a permutation of the list |
| Preloader.SortByFileSorted | src/Preloader.php:36-38 | the sorted list is non-decreasing by `strcasecmp` of the paths |
| Preloader.SortByFileStable | src/Preloader.php:36-38 | for each case-folded path, the resources with that path keep their relative order (PHP 8 sorts are stable) |
| Preloader.SortByFileIdempotent | src/Preloader.php:34-41 | sorting a sorted list changes nothing |
| Preloader.Classify | src/Preloader.php:78-83 | every scanned file gets one of the two valid types |
| Preloader.ClassifyByName | src/Preloader.php:78-83 | a file is `require_once` iff its name is already camelized, otherwise `opcache_compile_file` |
| Preloader.ClassifyCacheExample | tests/TestCase/Command/PreloaderCommandTest.php:41-51 | `Cache.php` is loaded with `require_once` |
| Preloader.ClassifyBasicsExample | tests/TestCase/Command/PreloaderCommandTest.php:41-51 | `basics.php` is loaded with `opcache_compile_file` |
| Preloader.ClassifyUnderscoreExample | src/Preloader.php:78-83 | `My_helper.php`, holding an underscore, is loaded with `opcache_compile_file` |
| Preloader.ScanResources | src/Preloader.php:63-87 | one resource per walked file, in walk order, with the file's pathname (the root without its trailing `/`, then the relative path) and classified type; each file is `.php`, passes the callback and is outside dot-directories |
| Preloader.ScanFails | src/Preloader.php:65 | a path that is not a directory makes `loadPath` fail with the iterator's error |
| Preloader.MissingFilesContributeNothing | src/Preloader.php:135-137 | the script is the same as if the resources with missing files were not in the list |
| Preloader.DocumentStartsWithHeader | src/Preloader.php:117-124 | the script starts with `<?php`, the title, the guard for `cli` and `phpdbg`, and the autoload line |
| Preloader.DocumentDirectives | src/Preloader.php:128-143 | a resource's line appears iff its file exists; `# Scripts` appears iff some compile-only resource has an existing file |
| Preloader.DocumentShape | src/Preloader.php:119-143 | the script is the six header lines, then the `require_once` section, then `# Scripts` and the compile-only section if that is non-empty |
| Preloader.DocumentSectionOrder | src/Preloader.php:128-143 | every `require_once` line precedes `# Scripts`, which precedes every compile-only line, and appears at most once |
| Preloader.DocumentSectionsSorted | src/Preloader.php:128 | for a sorted list, each section follows the sorted order |
| Preloader.SingleResourceWritten | src/Preloader.php:128-143 | the script of a one-resource list whose file exists holds that resource's directive |
| Preloader.ListenerResourceWritten | tests/TestCase/Command/PreloaderCommandTest.php:119-137 | after a listener sets a single resource whose file exists, its directive is in the written script |
| Preloader.Preloader.constructor | src/Preloader.php:27 | a new preloader holds no resources |
| Preloader.Preloader.GetPreloadResources | src/Preloader.php:34-41 | the field becomes its sorted version and is returned |
| Preloader.Preloader.SetPreloadResources | src/Preloader.php:49-54 | the list is replaced wholesale |
| Preloader.Preloader.LoadPath | src/Preloader.php:63-87 | a non-directory path fails and leaves the list alone; otherwise the old list is a prefix and the scanned resources follow |
| Preloader.Preloader.EchoHeader | src/Preloader.php:117-124 | the echoed header is the rendering of the six header lines |
| Preloader.Preloader.Contents | src/Preloader.php:113-152 | the list is sorted in place, the text is the rendered document of the sorted list, and one warning is raised per missing file |
| Preloader.Preloader.EchoResources | src/Preloader.php:126-143 | after the header, the loop and the scripts section render the whole document and collect the skip warnings |
| Preloader.Preloader.EchoLoop | src/Preloader.php:128-138 | the loop echoes the `require_once` section after the header, buffers the compile-only lines, and warns once per missing file, in list order |
| Preloader.Preloader.EchoResource | src/Preloader.php:129-137 | one iteration adds the resource to the inline text or the scripts buffer, or adds a warning if its file is missing |
| Preloader.Preloader.Write | src/Preloader.php:96-105 | a path that exists and is not writable throws `RuntimeException` before the hook and leaves the list unchanged; otherwise the hook's list (or the current one) is sorted, rendered and written, and the result is whether the write succeeded |
| ScanPlan.AppIgnores | src/PreloaderService.php:144-147 | the application ignores contain `src/Console` and `src/Command`, and `tests/` iff `phpunit` is not set |
| ScanPlan.ExistingPackageSpecs | src/PreloaderService.php:104-122 | the package specs are exactly the existing roots, each with the `/tests/` filter for the given `phpunit` flag |
| ScanPlan.ExistingAppend | src/PreloaderService.php:104-108 | the existence filter keeps the list order |
| ScanPlan.PluginRoots | src/PreloaderService.php:183-187 | one root `<base>/plugins/<name>/src` per name, in order |
| ScanPlan.RunAllDirs | src/PreloaderService.php:114-122 | when every root is a directory, loading succeeds and appends the scans in root order |
| ScanPlan.RunFirstMissing | src/PreloaderService.php:196-200 | the first root that is not a directory stops the loading with its error, after the earlier roots were appended |
| ScanPlan.RunTwiceKeepsDuplicates | src/Preloader.php:77-84 | loading the same root twice appends its resources twice: there is no deduplication |
| ScanPlan.RunStagesStops | src/PreloaderService.php:34-37 | once a step throws, the later steps do not run |
| ScanPlan.LoadRoots | src/PreloaderService.php:196-200 | the `foreach ... loadPath` loop appends exactly what `Run` describes and stops at the same error |
| ScanPlan.LoadStage | src/PreloaderService.php:114-122 | one step loads its resolved roots, or throws its error, and reports its warnings |
| PreloaderService.Rebase | src/PreloaderService.php:61-64 | no base path leaves the path alone; a truthy base path works iff it is a string |
| PreloaderService.OutputPath | src/PreloaderService.php:39-40 | `name` option, else `name` config; an empty value means `ROOT/preload.php`; a non-string value is a type error |
| PreloaderService.OptionPrecedence | src/PreloaderService.php:82 | `option ?? config` takes the option whenever it is given |
| PreloaderService.CakeFirst | src/PreloaderService.php:58-71 | the first step is the framework root, rebased when asked, with the four framework ignores |
| PreloaderService.CakeRebased | src/PreloaderService.php:61-64 | with a string base path, `CAKE` under `ROOT` moves under the base path |
| PreloaderService.CakeIgnoreExample | src/PreloaderService.php:66-69 | a path containing `src/Shell` is ignored for the framework |
| PreloaderService.CakeIgnoresConsoleUnderSlashedRoot | src/PreloaderService.php:60-69 | with `CAKE` ending in `/`, a file in `src/Console` has pathname `<base>/src/Console/<name>` and is ignored |
| PreloaderService.PackagesEmpty | src/PreloaderService.php:82-85 | an empty `packages` value adds no roots and no warning |
| PreloaderService.PackagesResolved | src/PreloaderService.php:97-122 | the specs are the existing package roots with the `/tests/` filter; one aggregate warning iff some root is missing, none otherwise |
| PreloaderService.PackageRoots | src/PreloaderService.php:97-102 | one root per name: the closure's uncaptured `$preloadPath` gives `/vendor/<name>` |
| PreloaderService.PackagesFromOption | src/PreloaderService.php:93-95 | a string option is split on commas |
| PreloaderService.PackagesFromConfigString | src/PreloaderService.php:93-95 | a string from the configuration alone splits the option's empty text instead, giving one empty name |
| PreloaderService.AppSkipIff | src/PreloaderService.php:132-154 | the application is skipped iff `app` is given and falsy and the `app` config is falsy; otherwise its root is the base-path option, or a type error if that is not a string |
| PreloaderService.TestsIgnoredUnlessPhpunit | src/PreloaderService.php:144-147 | for the application and plugin roots, `tests/` is ignored iff `phpunit` is not set |
| PreloaderService.PluginsWildcard | src/PreloaderService.php:177-178 | `*` or `true` gives exactly one root, `<base>/plugins` |
| PreloaderService.PluginsList | src/PreloaderService.php:183-187 | a list gives one root `<base>/plugins/<name>/src` per name, in order |
| PreloaderService.PluginsEmpty | src/PreloaderService.php:165-168 | an empty plugins value adds nothing |
| PreloaderService.OutputPathExamples | src/PreloaderService.php:39-40 | an empty config name gives `ROOT/preload.php`; a given name is used as is |
| PreloaderService.PreloaderService.constructor | src/PreloaderService.php:19-22 | uses the given preloader, or a new empty one |
| PreloaderService.PreloaderService.LoadSources | src/PreloaderService.php:34-37 | the four steps load in order and stop at the first error |
| PreloaderService.PreloaderService.Generate | src/PreloaderService.php:32-49 | a loading error is thrown with the roots loaded so far; a bad output path or a non-writable file is an error; otherwise the path is returned iff the write succeeds, else `PreloadWriteException`; the file written is the rendered script of the sorted list (the listener's list if it gave one), and nothing is written on any error |
| PreloaderService.PreloaderService.GenerateAsWritten | src/PreloaderService.php:32-42 | as written, every run fails: with the loading error, or else the `Error` from calling the undefined `allowCli`, even for a name `write` would refuse; no file is written |
| PreloaderCommand.VendorRoots | src/Command/PreloaderCommand.php:99-104 | one root `ROOT/vendor/<name>` per package name, in order |
| PreloaderCommand.CakeFirst | src/Command/PreloaderCommand.php:71-78 | the first step is `CAKE` with the four framework ignores |
| PreloaderCommand.MissingWarningsCount | src/Command/PreloaderCommand.php:106-111 | one warning "Package <root> could not be located" per missing root; warnings plus kept roots count all roots |
| PreloaderCommand.PackagesResolved | src/Command/PreloaderCommand.php:88-121 | an empty option adds nothing; otherwise the specs are the existing `ROOT/vendor/<name>` roots with the `/tests/` filter, with one warning per missing root |
| PreloaderCommand.AppFirstIff | src/Command/PreloaderCommand.php:132 | `APP` comes first iff `app` is truthy, and the rest does not depend on `app` |
| PreloaderCommand.PluginRootsResolved | src/Command/PreloaderCommand.php:134-140 | `*` gives `ROOT/plugins`; a non-empty string gives `ROOT/plugins/<p>/src` per entry after `APP`; anything else adds nothing |
| PreloaderCommand.ApplicationsIgnoreTests | src/Command/PreloaderCommand.php:142-153 | every application root ignores `tests/` iff `phpunit` is not set, one spec per root |
| PreloaderCommand.TwoPluginsExample | tests/TestCase/Command/PreloaderCommandTest.php:78-84 | `--plugins=<one>,<two>` without `--app` gives exactly the two plugin `src` roots, as in the test; with `--app`, `APP` comes first |
| PreloaderCommand.PreloaderCommand.constructor | src/Command/PreloaderCommand.php:30-34 | a new command owns a new empty preloader |
| PreloaderCommand.PreloaderCommand.LoadSources | src/Command/PreloaderCommand.php:45-47 | the three steps load in order and stop at the first error |
| PreloaderCommand.PreloaderCommand.Execute | src/Command/PreloaderCommand.php:43-64 | a loading error or a non-writable name is thrown; otherwise the exit code is `CODE_SUCCESS` iff the write succeeds, else `CODE_ERROR`; the file written is the rendered script of the sorted list, and nothing is written on an error |

## Left out

- File system I/O: `file_exists`, `is_writable`, the directory iterators and the directory contents come from a `Disk.Snapshot` parameter. `file_put_contents` is a `putSucceeds` flag, and the written text is returned instead of stored: `Preloader.Write`, `Generate` and `Execute` return it as `written`.
- `EventManager`: the `CakePreloader.beforeWrite` dispatch is an optional replacement list (`beforeWrite`), which the listener would pass to `setPreloadResources`. Other listener effects are not modelled.
- `FrozenTime::now()` is a `timestamp` parameter. `ob_start` buffering is string concatenation.
- Console output (`ConsoleIo`) and `triggerWarning` are returned as warning lists. `triggerWarning` also appends ` - <file>, line: <n>` naming its caller; the model's warnings hold the message only. The "Using custom base path" messages and the success and error banners are not modelled.
- Preloader.Preloader.Contents: the `is_string($content)` check cannot fail once buffering is concatenation, so the "Unable to generate contents for preload" exception is not modelled.
- `Inflector::camelize` belongs to CakePHP and is not part of this model. It is assumed to capitalise the letter after each `_` or space and drop the delimiters.
- Inflector.CamelizeFixedPointIff: only ASCII letters are upper-cased. CakePHP uses `mb_strtoupper`, which also upper-cases non-ASCII initials, so a file such as `élan.php` gets `opcache_compile_file` in PHP but `require_once` in the model.
- Ignore patterns are alternations of literal paths, so they are modelled as substring tests. `preg_match` and `strstr` are not modelled in general.
- Filesystem.FilterIterator: only the callable filter is modelled. The regex-string filter (`RegexIterator`) is never used by the core. The `$flags` parameter is modelled only at its default.
- Filesystem.FindRecursiveChildFirst, Filesystem.FindRecursiveFilteredChildFirst and Filesystem.FindRecursiveNoDuplicates: they need distinct names within each directory (`WellFormed`), as a real directory has.
- A subdirectory that exists but cannot be opened is not expressible in a `Disk.Snapshot`. In PHP, `RecursiveDirectoryIterator::getChildren` would then throw `UnexpectedValueException` partway through the walk, after `loadPath` had appended the resources before it; the model only fails when the root itself is not a directory.
- `allowCli` is called at src/PreloaderService.php:42 but not defined in src/Preloader.php, so the source as written throws `Error` there on every run that gets that far (`GenerateAsWritten`, see Findings). `Generate` models the evident intent with the call having no effect, so the guard always lists both `cli` and `phpdbg`; how the flag would change the guard is not modelled.
- The ValueError from opening an empty path is modelled as the same `UnexpectedValue` failure: `Disk.IsDir` is false for the empty path, so `FindRecursive("")` fails.
- `uasort` preserves array keys; the model keeps only the order of values, which is all that `contents` uses.
- The command's `name` default (`ROOT/preload.php`) is supplied by `buildOptionParser` (src/Command/PreloaderCommand.php:162-188), which is not modelled; `Execute` takes the option as given.
- The command's "Package list is empty" warning (src/Command/PreloaderCommand.php:93-97) cannot be reached, since `explode` always returns at least one part; the model has no such branch.
- The test `test_setPath` (tests/TestCase/PreloadResourceTest.php:23-28) calls a method that src/PreloadResource.php does not define; resources are immutable in the model.
- src/Plugin.php (bootstrap, console and container wiring) and the configuration files are not part of this model.
- The source's quirks are kept as written: the package closure's uncaptured `$preloadPath` makes the package roots `/vendor/<name>`; the application root is the raw `basePath` option; plugin roots are built from `(string)basePath`. The package filter tests a file's directory (`getPath()`) for `/tests/`, so a file directly in `<package>/tests` (directory `<package>/tests`, no trailing `/`) is kept even without `phpunit`; only files in its subdirectories are dropped.

## Findings

| source | as written | input that shows it | evidently intended | confidence | as-written member | corrected member |
|---|---|---|---|---|---|---|
| src/PreloaderService.php:42 | calls `$this->preloader->allowCli(...)`, which `Preloader` does not define, so PHP throws `Error` before `write` | any `generate` run whose four loading steps succeed | set whether the script may run under the CLI, then write | not executed | PreloaderService.PreloaderService.GenerateAsWritten | PreloaderService.PreloaderService.Generate |
