/**
 * `Preloader`: the registry of preload resources, its case-insensitive
 * ordering, the scan that fills it, and the text of the preload script.
 */
module Preloader {
  import opened Wrappers
  import opened Disk
  import opened Exceptions
  import opened Text
  import opened Filesystem
  import opened PreloadResource
  import opened Inflector
  import Php

  // ---------------------------------------------------------------------
  // Ordering: `uasort` with `strcasecmp` on the file paths

  /** The order `uasort` establishes: non-decreasing by `strcasecmp` of the paths. */
  predicate SortedByFile(s: seq<PreloadResource>) {
    forall i, j :: 0 <= i < j < |s| ==> StrCaseCmp(s[i].file, s[j].file) <= 0
  }

  /** Inserts `x` after every element that does not sort after it. */
  function Insert(s: seq<PreloadResource>, x: PreloadResource): seq<PreloadResource> {
    if s == [] then [x]
    else if StrCaseCmp(x.file, s[0].file) < 0 then [x] + s
    else [s[0]] + Insert(s[1..], x)
  }

  /**
   * The stable sort by `strcasecmp` of the paths (PHP 8 sorts are stable),
   * written as an insertion sort.
   */
  function SortByFile(s: seq<PreloadResource>): seq<PreloadResource> {
    if s == [] then [] else Insert(SortByFile(s[..|s| - 1]), s[|s| - 1])
  }

  /** The resources whose lower-cased path is `key`, in their order. */
  function WithKey(s: seq<PreloadResource>, key: string): seq<PreloadResource> {
    if s == [] then []
    else (if Lower(s[0].file) == key then [s[0]] else []) + WithKey(s[1..], key)
  }

  lemma {:induction false} InsertPermutation(s: seq<PreloadResource>, x: PreloadResource)
    ensures multiset(Insert(s, x)) == multiset(s) + multiset{x}
  {
    if s != [] && StrCaseCmp(x.file, s[0].file) >= 0 {
      InsertPermutation(s[1..], x);
      assert s == [s[0]] + s[1..];
    }
  }

  lemma SortedCons(y: PreloadResource, t: seq<PreloadResource>)
    requires SortedByFile(t)
    requires forall z :: z in t ==> StrCaseCmp(y.file, z.file) <= 0
    ensures SortedByFile([y] + t)
  {
    var r := [y] + t;
    forall i, j | 0 <= i < j < |r| ensures StrCaseCmp(r[i].file, r[j].file) <= 0 {
      assert r[j] == t[j - 1];
      if i > 0 {
        assert r[i] == t[i - 1];
      } else {
        assert t[j - 1] in t;
      }
    }
  }

  lemma SortedTail(s: seq<PreloadResource>)
    requires SortedByFile(s) && s != []
    ensures SortedByFile(s[1..])
    ensures forall z :: z in s[1..] ==> StrCaseCmp(s[0].file, z.file) <= 0
  {
    forall i, j | 0 <= i < j < |s[1..]| ensures StrCaseCmp(s[1..][i].file, s[1..][j].file) <= 0 {
      assert s[1..][i] == s[i + 1] && s[1..][j] == s[j + 1];
    }
    forall z | z in s[1..] ensures StrCaseCmp(s[0].file, z.file) <= 0 {
      var k :| 0 <= k < |s[1..]| && s[1..][k] == z;
      assert s[k + 1] == z;
    }
  }

  lemma {:induction false} InsertSorted(s: seq<PreloadResource>, x: PreloadResource)
    requires SortedByFile(s)
    ensures SortedByFile(Insert(s, x))
  {
    if s == [] {
    } else if StrCaseCmp(x.file, s[0].file) < 0 {
      SortedTail(s);
      forall z | z in s ensures StrCaseCmp(x.file, z.file) <= 0 {
        if z != s[0] {
          assert z in s[1..];
          StrCaseCmpTransitive(x.file, s[0].file, z.file);
        }
      }
      SortedCons(x, s);
    } else {
      StrCaseCmpAntisymmetric(x.file, s[0].file);
      SortedTail(s);
      var t := Insert(s[1..], x);
      InsertSorted(s[1..], x);
      InsertPermutation(s[1..], x);
      forall y | y in t ensures StrCaseCmp(s[0].file, y.file) <= 0 {
        assert y in multiset(t);
        if y != x {
          assert y in multiset(s[1..]);
        }
      }
      SortedCons(s[0], t);
    }
  }

  /** The sorted list holds the same resources, each as often as before. */
  lemma {:induction false} SortByFilePermutation(s: seq<PreloadResource>)
    ensures multiset(SortByFile(s)) == multiset(s)
    ensures |SortByFile(s)| == |s|
  {
    if s != [] {
      var init := s[..|s| - 1];
      SortByFilePermutation(init);
      InsertPermutation(SortByFile(init), s[|s| - 1]);
      SplitLast(s);
    }
  }

  /** The sorted list is ordered by `strcasecmp` of the paths. */
  lemma {:induction false} SortByFileSorted(s: seq<PreloadResource>)
    ensures SortedByFile(SortByFile(s))
  {
    if s != [] {
      SortByFileSorted(s[..|s| - 1]);
      InsertSorted(SortByFile(s[..|s| - 1]), s[|s| - 1]);
    }
  }

  lemma {:induction false} WithKeyAppend(a: seq<PreloadResource>, b: seq<PreloadResource>, key: string)
    ensures WithKey(a + b, key) == WithKey(a, key) + WithKey(b, key)
  {
    if a == [] {
      assert a + b == b;
    } else {
      var c := a + b;
      assert c[0] == a[0] && c[1..] == a[1..] + b;
      WithKeyAppend(a[1..], b, key);
      var head := if Lower(a[0].file) == key then [a[0]] else [];
      assert WithKey(c, key) == head + WithKey(c[1..], key);
      assert WithKey(a, key) == head + WithKey(a[1..], key);
    }
  }

  lemma {:induction false} WithKeyNone(s: seq<PreloadResource>, key: string)
    requires forall i :: 0 <= i < |s| ==> Lower(s[i].file) != key
    ensures WithKey(s, key) == []
  {
    if s != [] {
      WithKeyNone(s[1..], key);
    }
  }

  lemma {:induction false} InsertStable(s: seq<PreloadResource>, x: PreloadResource, key: string)
    requires SortedByFile(s)
    ensures WithKey(Insert(s, x), key) == WithKey(s, key) + (if Lower(x.file) == key then [x] else [])
  {
    if s == [] {
      WithKeyCons(x, [], key);
      assert Insert(s, x) == [x] + [];
    } else if StrCaseCmp(x.file, s[0].file) < 0 {
      if Lower(x.file) == key {
        KeyBeforeSorted(s, x, key);
      }
      InsertStableFront(s, x, key);
    } else {
      SortedTail(s);
      InsertStable(s[1..], x, key);
      InsertStableSkip(s, x, key);
    }
  }

  lemma InsertStableFront(s: seq<PreloadResource>, x: PreloadResource, key: string)
    requires s != [] && StrCaseCmp(x.file, s[0].file) < 0
    requires Lower(x.file) == key ==> WithKey(s, key) == []
    ensures WithKey(Insert(s, x), key) == WithKey(s, key) + (if Lower(x.file) == key then [x] else [])
  {
    assert Insert(s, x) == [x] + s;
    WithKeyCons(x, s, key);
  }

  lemma InsertStableSkip(s: seq<PreloadResource>, x: PreloadResource, key: string)
    requires s != [] && StrCaseCmp(x.file, s[0].file) >= 0
    requires WithKey(Insert(s[1..], x), key) == WithKey(s[1..], key) + (if Lower(x.file) == key then [x] else [])
    ensures WithKey(Insert(s, x), key) == WithKey(s, key) + (if Lower(x.file) == key then [x] else [])
  {
    var h0, hx := if Lower(s[0].file) == key then [s[0]] else [], if Lower(x.file) == key then [x] else [];
    assert Insert(s, x) == [s[0]] + Insert(s[1..], x);
    WithKeyCons(s[0], Insert(s[1..], x), key);
    AppendAssociative(h0, WithKey(s[1..], key), hx);
  }

  lemma WithKeyCons(y: PreloadResource, t: seq<PreloadResource>, key: string)
    ensures WithKey([y] + t, key) == (if Lower(y.file) == key then [y] else []) + WithKey(t, key)
  {
    assert ([y] + t)[0] == y && ([y] + t)[1..] == t;
  }

  /** A key that sorts strictly before a sorted list occurs nowhere in it. */
  lemma KeyBeforeSorted(s: seq<PreloadResource>, x: PreloadResource, key: string)
    requires SortedByFile(s) && s != [] && StrCaseCmp(x.file, s[0].file) < 0 && Lower(x.file) == key
    ensures WithKey(s, key) == []
  {
    forall i | 0 <= i < |s| ensures Lower(s[i].file) != key {
      if i > 0 {
        StrCaseCmpStrictTransitive(x.file, s[0].file, s[i].file);
      }
      StrCaseCmpZeroIff(x.file, s[i].file);
    }
    WithKeyNone(s, key);
  }

  /**
   * The sort is stable: for every key, the resources whose paths are equal
   * up to case keep their insertion order.
   */
  lemma {:induction false} SortByFileStable(s: seq<PreloadResource>, key: string)
    ensures WithKey(SortByFile(s), key) == WithKey(s, key)
  {
    if s != [] {
      var init, last := s[..|s| - 1], s[|s| - 1];
      SplitLast(s);
      SortByFileStable(init, key);
      SortByFileSorted(init);
      InsertStable(SortByFile(init), last, key);
      WithKeyAppend(init, [last], key);
      assert WithKey([last], key) == (if Lower(last.file) == key then [last] else []);
    }
  }

  lemma {:induction false} InsertLast(s: seq<PreloadResource>, x: PreloadResource)
    requires forall i :: 0 <= i < |s| ==> StrCaseCmp(s[i].file, x.file) <= 0
    ensures Insert(s, x) == s + [x]
  {
    if s != [] {
      StrCaseCmpAntisymmetric(x.file, s[0].file);
      InsertLast(s[1..], x);
      assert s == [s[0]] + s[1..];
    }
  }

  /** A list already in order is left as it is. */
  lemma {:induction false} SortByFileOfSorted(s: seq<PreloadResource>)
    requires SortedByFile(s)
    ensures SortByFile(s) == s
  {
    if s != [] {
      var init, last := s[..|s| - 1], s[|s| - 1];
      assert SortedByFile(init) by {
        forall i, j | 0 <= i < j < |init| ensures StrCaseCmp(init[i].file, init[j].file) <= 0 {
          assert init[i] == s[i] && init[j] == s[j];
        }
      }
      SortByFileOfSorted(init);
      InsertLast(init, last);
      SplitLast(s);
    }
  }

  /** Sorting twice is sorting once. */
  lemma SortByFileIdempotent(s: seq<PreloadResource>)
    ensures SortByFile(SortByFile(s)) == SortByFile(s)
  {
    SortByFileSorted(s);
    SortByFileOfSorted(SortByFile(s));
  }

  // ---------------------------------------------------------------------
  // Scanning: `loadPath`

  /** The filter `loadPath` hands to `findRecursive`: `.php` entries the callback accepts. */
  function PhpFilter(callback: Option<FileInfo -> bool>): FileInfo -> bool {
    (f: FileInfo) => f.GetExtension() == "php" && (callback.None? || callback.value(f))
  }

  /** The directive a scanned file gets, decided by its file name. */
  function Classify(filename: string): (kind: string)
    ensures kind in TYPES
  {
    if Camelize(filename) == filename then REQUIRE_ONCE else OPCACHE_COMPILE_FILE
  }

  function ToResource(f: FileInfo): PreloadResource {
    Resource(Classify(f.GetFilename()), f.GetPathname())
  }

  /** The resources `loadPath` appends for the files of a walk. */
  function Classified(files: seq<FileInfo>): seq<PreloadResource> {
    if files == [] then [] else Classified(files[..|files| - 1]) + [ToResource(files[|files| - 1])]
  }

  lemma ClassifiedStep(files: seq<FileInfo>, i: nat)
    requires i < |files|
    ensures Classified(files[..i + 1]) == Classified(files[..i]) + [ToResource(files[i])]
  {
    assert files[..i + 1][..i] == files[..i];
  }

  /** What `loadPath(path, callback)` appends, or why it fails. */
  function Scan(path: string, callback: Option<FileInfo -> bool>, fs: Snapshot): Result<seq<PreloadResource>, Error> {
    match FindRecursive(path, Some(PhpFilter(callback)), fs)
    case Failure(e) => Failure(e)
    case Success(files) => Success(Classified(files))
  }

  /**
   * A file is loaded with `require_once` iff its name is already camelized:
   * no underscore or space, and no lower-case first letter.
   */
  lemma ClassifyByName(filename: string)
    ensures Classify(filename) == REQUIRE_ONCE <==>
      (forall i :: 0 <= i < |filename| ==> !IsDelimiter(filename[i])) && (filename == [] || !IsLowerAscii(filename[0]))
    ensures Classify(filename) != REQUIRE_ONCE <==> Classify(filename) == OPCACHE_COMPILE_FILE
  {
    CamelizeFixedPointIff(filename);
  }

  /** `Cache.php` is already camelized, so it is loaded with `require_once`. */
  lemma ClassifyCacheExample()
    ensures Classify("Cache.php") == REQUIRE_ONCE
  {
    var name := "Cache.php";
    assert forall i :: 0 <= i < |name| ==> !IsDelimiter(name[i]);
    ClassifyByName(name);
  }

  /** `basics.php` starts with a lower-case letter, so it is only compiled. */
  lemma ClassifyBasicsExample()
    ensures Classify("basics.php") == OPCACHE_COMPILE_FILE
  {
    var name := "basics.php";
    assert IsLowerAscii(name[0]);
    ClassifyByName(name);
  }

  /** An underscore in the name makes the file compile-only. */
  lemma ClassifyUnderscoreExample()
    ensures Classify("My_helper.php") == OPCACHE_COMPILE_FILE
  {
    var name := "My_helper.php";
    assert IsDelimiter(name[2]);
    ClassifyByName(name);
  }

  lemma {:induction false} ClassifiedAt(files: seq<FileInfo>)
    ensures |Classified(files)| == |files|
    ensures forall i :: 0 <= i < |files| ==> Classified(files)[i] == ToResource(files[i])
  {
    if files != [] {
      var init := files[..|files| - 1];
      ClassifiedAt(init);
      assert Classified(files) == Classified(init) + [ToResource(files[|files| - 1])];
      forall i | 0 <= i < |files|
        ensures Classified(files)[i] == ToResource(files[i])
      {
        if i < |init| {
          assert Classified(files)[i] == Classified(init)[i];
          assert files[i] == init[i];
        } else {
          assert Classified(files)[i] == ToResource(files[|files| - 1]);
        }
      }
    }
  }

  /**
   * `loadPath` appends exactly one resource per walked `.php` file that the
   * callback accepts, in walk order, carrying that file's path; there is no
   * de-duplication.
   */
  lemma ScanResources(path: string, callback: Option<FileInfo -> bool>, fs: Snapshot)
    requires fs.IsDir(path)
    ensures Scan(path, callback, fs).Success?
    ensures var files := FindRecursive(path, Some(PhpFilter(callback)), fs).value;
      && |Scan(path, callback, fs).value| == |files|
      && forall i :: 0 <= i < |files| ==>
        && Scan(path, callback, fs).value[i].file == files[i].GetPathname()
        && Scan(path, callback, fs).value[i].kind == Classify(files[i].filename)
        && files[i].GetExtension() == "php"
        && (callback.None? || callback.value(files[i]))
        && OutsideHiddenDirs(files[i])
  {
    var files := FindRecursive(path, Some(PhpFilter(callback)), fs).value;
    ClassifiedAt(files);
    FindRecursiveFilters(path, Some(PhpFilter(callback)), fs);
    FindRecursiveSkipsHiddenDirs(path, Some(PhpFilter(callback)), fs);
    forall i | 0 <= i < |files|
      ensures files[i].GetExtension() == "php" && (callback.None? || callback.value(files[i]))
    {
      assert files[i] in files;
      assert PhpFilter(callback)(files[i]);
    }
  }

  lemma ScanFails(path: string, callback: Option<FileInfo -> bool>, fs: Snapshot)
    requires !fs.IsDir(path)
    ensures Scan(path, callback, fs) == Failure(UnexpectedValue(path))
  {
  }

  // ---------------------------------------------------------------------
  // The preload script

  /** The lines of the generated script, as `contents` echoes them. */
  datatype Line =
    | Opening
    | Title(timestamp: string)
    | GuardIf
    | GuardReturn
    | GuardEnd
    | Autoload(root: string)
    | Load(resource: PreloadResource)
    | ScriptsMarker

  function LineText(line: Line): string {
    match line
    case Opening => "<?php\n\n"
    case Title(ts) => "# Preload Generated at " + ts + " \n" + " \n"
    case GuardIf => "if (in_array(PHP_SAPI, ['cli', 'phpdbg'], true)) {\n"
    case GuardReturn => "\treturn;\n"
    case GuardEnd => "}\n\n"
    case Autoload(root) => "require_once('" + root + Php.DS + "vendor" + Php.DS + "autoload.php" + "'); \n"
    case Load(r) => Directive(r)
    case ScriptsMarker => "# Scripts \n"
  }

  /** The text of each line. */
  function Texts(lines: seq<Line>): (t: seq<string>)
    ensures |t| == |lines| && forall i :: 0 <= i < |lines| ==> t[i] == LineText(lines[i])
  {
    seq(|lines|, i requires 0 <= i < |lines| => LineText(lines[i]))
  }

  /** The script text of the lines, as the output buffer collects it. */
  function Render(lines: seq<Line>): string {
    Concat(Texts(lines))
  }

  function HeaderLines(timestamp: string, root: string): seq<Line> {
    [Opening, Title(timestamp), GuardIf, GuardReturn, GuardEnd, Autoload(root)]
  }

  /**
   * The directive lines of one section: `eager` for the inline
   * `require_once` lines, otherwise the buffered compile-only lines.
   * A resource whose file is missing has none.
   */
  function Section(rs: seq<PreloadResource>, fs: Snapshot, eager: bool): seq<Line> {
    if rs == [] then []
    else
      var r := rs[|rs| - 1];
      Section(rs[..|rs| - 1], fs, eager)
        + (if (r.kind == REQUIRE_ONCE) == eager && fs.Exists(r.file) then [Load(r)] else [])
  }

  /** The document `contents` produces for the resources `rs`, taken in the order given. */
  function DocumentLines(timestamp: string, root: string, rs: seq<PreloadResource>, fs: Snapshot): seq<Line> {
    var scripts := Section(rs, fs, false);
    HeaderLines(timestamp, root) + Section(rs, fs, true) + (if scripts == [] then [] else [ScriptsMarker] + scripts)
  }

  /** The warnings raised for the resources whose file is missing. */
  function SkipWarnings(rs: seq<PreloadResource>, fs: Snapshot): seq<string> {
    if rs == [] then []
    else
      var r := rs[|rs| - 1];
      SkipWarnings(rs[..|rs| - 1], fs)
        + (if fs.Exists(r.file) then [] else ["Preloader skipped the following: " + ("File `" + r.file + "` does not exist")])
  }

  /** The resources whose file exists. */
  function Present(rs: seq<PreloadResource>, fs: Snapshot): (p: seq<PreloadResource>)
    ensures forall r :: r in p <==> r in rs && fs.Exists(r.file)
  {
    if rs == [] then []
    else Present(rs[..|rs| - 1], fs) + (if fs.Exists(rs[|rs| - 1].file) then [rs[|rs| - 1]] else [])
  }

  lemma RenderAppend(a: seq<Line>, b: seq<Line>)
    ensures Render(a + b) == Render(a) + Render(b)
  {
    assert Texts(a + b) == Texts(a) + Texts(b);
    ConcatAppend(Texts(a), Texts(b));
  }

  lemma TextsSingle(line: Line)
    ensures Texts([line]) == [LineText(line)]
  {
  }

  lemma RenderSnoc(lines: seq<Line>, line: Line)
    ensures Render(lines + [line]) == Render(lines) + LineText(line)
  {
    RenderAppend(lines, [line]);
    TextsSingle(line);
    ConcatSingle(LineText(line));
  }

  lemma RenderNonEmpty(lines: seq<Line>)
    requires lines != []
    ensures |Render(lines)| >= |LineText(lines[|lines| - 1])| > 0
  {
    var init := lines[..|lines| - 1];
    SplitLast(lines);
    RenderSnoc(init, lines[|lines| - 1]);
    match lines[|lines| - 1]
    case Load(r) => assert |Directive(r)| >= |r.kind + "('"|;
    case _ =>
  }

  lemma SectionSnoc(rs: seq<PreloadResource>, r: PreloadResource, fs: Snapshot, eager: bool)
    ensures Section(rs + [r], fs, eager) ==
      Section(rs, fs, eager) + (if (r.kind == REQUIRE_ONCE) == eager && fs.Exists(r.file) then [Load(r)] else [])
  {
    assert (rs + [r])[..|rs|] == rs;
  }

  /** What one more resource adds to the rendered text of a section, after `prefix`. */
  lemma SectionStep(prefix: seq<Line>, rs: seq<PreloadResource>, r: PreloadResource, fs: Snapshot, eager: bool)
    ensures var taken := (r.kind == REQUIRE_ONCE) == eager && fs.Exists(r.file);
      && Render(prefix + Section(rs + [r], fs, eager)) == Render(prefix + Section(rs, fs, eager)) + (if taken then Directive(r) else "")
      && (Section(rs + [r], fs, eager) == []) == (Section(rs, fs, eager) == [] && !taken)
      && [] + Section(rs + [r], fs, eager) == Section(rs + [r], fs, eager)
      && [] + Section(rs, fs, eager) == Section(rs, fs, eager)
  {
    SectionSnoc(rs, r, fs, eager);
    var taken := (r.kind == REQUIRE_ONCE) == eager && fs.Exists(r.file);
    SectionRenderStep(prefix, Section(rs, fs, eager), r, taken);
  }

  lemma SectionRenderStep(prefix: seq<Line>, lines: seq<Line>, r: PreloadResource, taken: bool)
    ensures Render(prefix + (lines + if taken then [Load(r)] else [])) == Render(prefix + lines) + (if taken then Directive(r) else "")
  {
    RenderExtend(prefix, lines, if taken then [Load(r)] else []);
    if taken {
      RenderOne(Load(r));
    } else {
      assert Render([]) == "";
    }
  }

  lemma RenderExtend(prefix: seq<Line>, lines: seq<Line>, extra: seq<Line>)
    ensures Render(prefix + (lines + extra)) == Render(prefix + lines) + Render(extra)
  {
    assert prefix + (lines + extra) == (prefix + lines) + extra;
    RenderAppend(prefix + lines, extra);
  }

  lemma RenderOne(line: Line)
    ensures Render([line]) == LineText(line)
  {
    TextsSingle(line);
    ConcatSingle(LineText(line));
  }

  lemma SkipWarningsSnoc(rs: seq<PreloadResource>, r: PreloadResource, fs: Snapshot)
    ensures SkipWarnings(rs + [r], fs) ==
      SkipWarnings(rs, fs) + (if fs.Exists(r.file) then [] else ["Preloader skipped the following: " + ("File `" + r.file + "` does not exist")])
  {
    assert (rs + [r])[..|rs|] == rs;
  }

  lemma {:induction false} SectionMembers(rs: seq<PreloadResource>, fs: Snapshot, eager: bool)
    ensures forall l :: l in Section(rs, fs, eager) ==>
      l.Load? && (l.resource.kind == REQUIRE_ONCE) == eager && l.resource in rs && fs.Exists(l.resource.file)
    ensures forall r :: r in rs && (r.kind == REQUIRE_ONCE) == eager && fs.Exists(r.file) ==> Load(r) in Section(rs, fs, eager)
  {
    if rs != [] {
      var init := rs[..|rs| - 1];
      SectionMembers(init, fs, eager);
      SplitLast(rs);
    }
  }

  /** Each section follows the order of the resources. */
  lemma {:induction false} SectionSorted(rs: seq<PreloadResource>, fs: Snapshot, eager: bool)
    requires SortedByFile(rs)
    ensures var sec := Section(rs, fs, eager);
      forall i, j :: 0 <= i < j < |sec| && sec[i].Load? && sec[j].Load? ==>
        StrCaseCmp(sec[i].resource.file, sec[j].resource.file) <= 0
  {
    if rs != [] {
      var init, last := rs[..|rs| - 1], rs[|rs| - 1];
      SplitLast(rs);
      assert SortedByFile(init) by {
        forall i, j | 0 <= i < j < |init| ensures StrCaseCmp(init[i].file, init[j].file) <= 0 {
          assert init[i] == rs[i] && init[j] == rs[j];
        }
      }
      SectionSorted(init, fs, eager);
      SectionMembers(init, fs, eager);
      SectionSnoc(init, last, fs, eager);
      var pre := Section(init, fs, eager);
      var sec := Section(rs, fs, eager);
      forall i, j | 0 <= i < j < |sec| && sec[i].Load? && sec[j].Load?
        ensures StrCaseCmp(sec[i].resource.file, sec[j].resource.file) <= 0
      {
        if j < |pre| {
          assert sec[i] == pre[i] && sec[j] == pre[j];
        } else {
          assert sec[i] == pre[i] && pre[i] in pre;
          assert sec[j] == Load(last);
          var k :| 0 <= k < |init| && init[k] == pre[i].resource;
          assert rs[k] == init[k] && rs[|rs| - 1] == last;
        }
      }
    }
  }

  lemma {:induction false} SectionOfPresent(rs: seq<PreloadResource>, fs: Snapshot, eager: bool)
    ensures Section(Present(rs, fs), fs, eager) == Section(rs, fs, eager)
  {
    if rs != [] {
      var init, last := rs[..|rs| - 1], rs[|rs| - 1];
      SectionOfPresent(init, fs, eager);
      var tail := if (last.kind == REQUIRE_ONCE) == eager && fs.Exists(last.file) then [Load(last)] else [];
      assert Section(rs, fs, eager) == Section(init, fs, eager) + tail;
      if fs.Exists(last.file) {
        var p := Present(init, fs) + [last];
        assert Present(rs, fs) == p;
        assert p[..|p| - 1] == Present(init, fs);
        assert Section(p, fs, eager) == Section(Present(init, fs), fs, eager) + tail;
      } else {
        assert Present(rs, fs) == Present(init, fs);
        assert tail == [];
      }
    }
  }

  /**
   * Resources whose file is missing contribute nothing: the document is the
   * one of the present resources alone.
   */
  lemma MissingFilesContributeNothing(timestamp: string, root: string, rs: seq<PreloadResource>, fs: Snapshot)
    ensures DocumentLines(timestamp, root, rs, fs) == DocumentLines(timestamp, root, Present(rs, fs), fs)
  {
    SectionOfPresent(rs, fs, true);
    SectionOfPresent(rs, fs, false);
  }

  /**
   * The document opens with the header: the opening tag, the title, the
   * guard that returns under the command line, and the autoloader.
   */
  lemma DocumentStartsWithHeader(timestamp: string, root: string, rs: seq<PreloadResource>, fs: Snapshot)
    ensures var doc := DocumentLines(timestamp, root, rs, fs);
      |doc| >= 6 && doc[..6] == [Opening, Title(timestamp), GuardIf, GuardReturn, GuardEnd, Autoload(root)]
    ensures var text := Render(DocumentLines(timestamp, root, rs, fs));
      var header := Render(HeaderLines(timestamp, root));
      |header| <= |text| && text[..|header|] == header && |text| > 0
  {
    var doc := DocumentLines(timestamp, root, rs, fs);
    var h := HeaderLines(timestamp, root);
    assert doc == h + doc[6..];
    RenderAppend(h, doc[6..]);
    RenderNonEmpty(h);
  }

  /**
   * Directive lines: a resource gets one iff it is listed and its file
   * exists, and the marker `# Scripts` is there iff some compile-only
   * resource has an existing file.
   */
  lemma DocumentDirectives(timestamp: string, root: string, rs: seq<PreloadResource>, fs: Snapshot)
    ensures forall r :: Load(r) in DocumentLines(timestamp, root, rs, fs) <==> r in rs && fs.Exists(r.file)
    ensures ScriptsMarker in DocumentLines(timestamp, root, rs, fs) <==>
      exists r :: r in rs && r.kind != REQUIRE_ONCE && fs.Exists(r.file)
  {
    SectionMembers(rs, fs, true);
    SectionMembers(rs, fs, false);
    var scripts := Section(rs, fs, false);
    if r :| r in rs && r.kind != REQUIRE_ONCE && fs.Exists(r.file) {
      assert Load(r) in scripts;
    }
    if scripts != [] {
      assert scripts[0] in scripts;
    }
  }

  /** Where each kind of line sits in the document. */
  lemma DocumentShape(timestamp: string, root: string, rs: seq<PreloadResource>, fs: Snapshot)
    ensures var doc, eager, scripts := DocumentLines(timestamp, root, rs, fs), Section(rs, fs, true), Section(rs, fs, false);
      && |doc| == 6 + |eager| + (if scripts == [] then 0 else 1 + |scripts|)
      && (forall k :: 0 <= k < 6 ==> !doc[k].Load? && doc[k] != ScriptsMarker)
      && (forall k :: 6 <= k < 6 + |eager| ==> doc[k] == eager[k - 6])
      && (scripts != [] ==> doc[6 + |eager|] == ScriptsMarker)
      && (forall k :: 6 + |eager| < k < |doc| ==> doc[k] == scripts[k - 7 - |eager|])
  {
  }

  /**
   * The sections: every `require_once` directive comes before `# Scripts`,
   * which comes before every compile-only directive.
   */
  lemma DocumentSectionOrder(timestamp: string, root: string, rs: seq<PreloadResource>, fs: Snapshot)
    ensures var doc := DocumentLines(timestamp, root, rs, fs);
      forall i, j :: 0 <= i < |doc| && 0 <= j < |doc| && doc[i].Load? && doc[j].Load? &&
        doc[i].resource.kind == REQUIRE_ONCE && doc[j].resource.kind != REQUIRE_ONCE
        ==> i < j
    ensures var doc := DocumentLines(timestamp, root, rs, fs);
      forall i, j :: 0 <= i < |doc| && 0 <= j < |doc| && doc[i] == ScriptsMarker && doc[j].Load? ==>
        (doc[j].resource.kind == REQUIRE_ONCE <==> j < i)
    ensures var doc := DocumentLines(timestamp, root, rs, fs);
      forall i, j :: 0 <= i < |doc| && 0 <= j < |doc| && doc[i] == ScriptsMarker && doc[j] == ScriptsMarker ==> i == j
  {
    var doc := DocumentLines(timestamp, root, rs, fs);
    var eager, scripts := Section(rs, fs, true), Section(rs, fs, false);
    SectionMembers(rs, fs, true);
    SectionMembers(rs, fs, false);
    DocumentShape(timestamp, root, rs, fs);
    var n := 6 + |eager|;
    forall k | 0 <= k < |doc|
      ensures k < 6 ==> !doc[k].Load? && doc[k] != ScriptsMarker
      ensures 6 <= k < n ==> doc[k] in eager
      ensures n == k ==> doc[k] == ScriptsMarker
      ensures n < k ==> doc[k] in scripts
    {
      if 6 <= k < n {
        assert doc[k] == eager[k - 6];
      } else if n < k {
        assert doc[k] == scripts[k - n - 1];
      }
    }
  }

  /** Given sorted resources, each section is in `strcasecmp` order of the paths. */
  lemma DocumentSectionsSorted(timestamp: string, root: string, rs: seq<PreloadResource>, fs: Snapshot)
    requires SortedByFile(rs)
    ensures var doc := DocumentLines(timestamp, root, rs, fs);
      forall i, j :: 0 <= i < j < |doc| && doc[i].Load? && doc[j].Load? &&
        doc[i].resource.kind == doc[j].resource.kind
        ==> StrCaseCmp(doc[i].resource.file, doc[j].resource.file) <= 0
  {
    var doc := DocumentLines(timestamp, root, rs, fs);
    var eager, scripts := Section(rs, fs, true), Section(rs, fs, false);
    SectionMembers(rs, fs, true);
    SectionMembers(rs, fs, false);
    SectionSorted(rs, fs, true);
    SectionSorted(rs, fs, false);
    DocumentShape(timestamp, root, rs, fs);
    var n := 6 + |eager|;
    forall i, j | 0 <= i < j < |doc| && doc[i].Load? && doc[j].Load?
      ensures doc[i].resource.kind == doc[j].resource.kind ==> StrCaseCmp(doc[i].resource.file, doc[j].resource.file) <= 0
    {
      assert 6 <= i;
      if j < n {
        assert doc[i] == eager[i - 6] && doc[j] == eager[j - 6];
      } else if i < n {
        assert doc[i] == eager[i - 6];
        assert doc[i] in eager;
        assert doc[j] == scripts[j - n - 1];
        assert doc[j] in scripts;
        assert doc[i].resource.kind != doc[j].resource.kind;
      } else {
        assert doc[i] == scripts[i - n - 1] && doc[j] == scripts[j - n - 1];
      }
    }
  }

  /** The script text once both sections have been collected. */
  lemma DocumentFromSections(timestamp: string, root: string, rs: seq<PreloadResource>, fs: Snapshot,
                             eagerText: string, scripts: seq<string>)
    requires eagerText == Render(HeaderLines(timestamp, root) + Section(rs, fs, true))
    requires Concat(scripts) == Render(Section(rs, fs, false))
    requires (scripts == []) == (Section(rs, fs, false) == [])
    ensures (if scripts == [] then eagerText else eagerText + "# Scripts \n" + Concat(scripts))
      == Render(DocumentLines(timestamp, root, rs, fs))
  {
    var body := HeaderLines(timestamp, root) + Section(rs, fs, true);
    var sec := Section(rs, fs, false);
    var doc := DocumentLines(timestamp, root, rs, fs);
    if scripts != [] {
      assert doc == (body + [ScriptsMarker]) + sec;
      RenderAppend(body + [ScriptsMarker], sec);
      RenderSnoc(body, ScriptsMarker);
    } else {
      assert doc == body;
    }
  }

  /** The text of every line occurs verbatim in the rendered script. */
  lemma RenderContainsLine(lines: seq<Line>, k: nat)
    requires k < |lines|
    ensures Contains(Render(lines), LineText(lines[k]))
  {
    var before, after := lines[..k], lines[k + 1..];
    SplitAround(lines, k);
    RenderAppend(before + [lines[k]], after);
    RenderSnoc(before, lines[k]);
    ContainsInfix(Render(before), LineText(lines[k]), Render(after));
  }

  /**
   * A listener that replaces the list by a single resource whose file
   * exists gets that resource's directive into the script.
   */
  lemma ListenerResourceWritten(timestamp: string, root: string, r: PreloadResource, fs: Snapshot)
    requires fs.Exists(r.file)
    ensures Contains(Render(DocumentLines(timestamp, root, SortByFile([r]), fs)), Directive(r))
  {
    assert [r][..0] == [];
    assert SortByFile([r]) == Insert([], r) == [r];
    SingleResourceWritten(timestamp, root, r, fs);
  }

  /** The script of a one-resource list whose file exists holds its directive. */
  lemma SingleResourceWritten(timestamp: string, root: string, r: PreloadResource, fs: Snapshot)
    requires fs.Exists(r.file)
    ensures Contains(Render(DocumentLines(timestamp, root, [r], fs)), Directive(r))
  {
    assert [r][..0] == [];
    var doc := DocumentLines(timestamp, root, [r], fs);
    if r.kind == REQUIRE_ONCE {
      assert Section([r], fs, true) == [Load(r)];
      assert doc[6] == Load(r);
      RenderContainsLine(doc, 6);
    } else {
      assert Section([r], fs, true) == [];
      assert Section([r], fs, false) == [Load(r)];
      assert doc[7] == Load(r);
      RenderContainsLine(doc, 7);
    }
  }

  // ---------------------------------------------------------------------
  // The registry

  class Preloader {
    var preloadResources: seq<PreloadResource>

    constructor ()
      ensures preloadResources == []
    {
      preloadResources := [];
    }

    /** `getPreloadResources()`: sorts the list in place and returns it. */
    method GetPreloadResources() returns (rs: seq<PreloadResource>)
      modifies this
      ensures preloadResources == SortByFile(old(preloadResources))
      ensures rs == preloadResources
    {
      preloadResources := SortByFile(preloadResources);
      rs := preloadResources;
    }

    /** `setPreloadResources($rs)`: replaces the whole list. */
    method SetPreloadResources(rs: seq<PreloadResource>)
      modifies this
      ensures preloadResources == rs
    {
      preloadResources := rs;
    }

    /**
     * `loadPath($path, $callback)`: appends a classified resource for each
     * `.php` file of the walk that the callback accepts. A path that is not a
     * directory fails before anything is appended.
     */
    method LoadPath(path: string, callback: Option<FileInfo -> bool>, fs: Snapshot) returns (error: Option<Error>)
      modifies this
      ensures error == (if fs.IsDir(path) then None else Some(UnexpectedValue(path)))
      ensures error.None? ==> preloadResources == old(preloadResources) + Scan(path, callback, fs).value
      ensures error.Some? ==> preloadResources == old(preloadResources)
    {
      var found := FindRecursive(path, Some(PhpFilter(callback)), fs);
      if found.Failure? {
        return Some(found.error);
      }
      var files := found.value;
      for i := 0 to |files|
        invariant preloadResources == old(preloadResources) + Classified(files[..i])
      {
        var file := files[i];
        ClassifiedStep(files, i);
        AppendAssociative(old(preloadResources), Classified(files[..i]), [ToResource(file)]);
        if Camelize(file.GetFilename()) == file.GetFilename() {
          assert ToResource(file) == Resource(REQUIRE_ONCE, file.GetPathname());
          preloadResources := preloadResources + [Resource(REQUIRE_ONCE, file.GetPathname())];
          continue;
        }
        assert ToResource(file) == Resource(OPCACHE_COMPILE_FILE, file.GetPathname());
        preloadResources := preloadResources + [Resource(OPCACHE_COMPILE_FILE, file.GetPathname())];
      }
      assert files[..|files|] == files;
      return None;
    }

    /** The six header lines `contents()` echoes before the directives. */
    method EchoHeader(timestamp: string, root: string) returns (content: string)
      ensures content == Render(HeaderLines(timestamp, root))
    {
      var title := "# Preload Generated at " + timestamp + " \n";
      content := "<?php\n\n";
      ghost var lines: seq<Line> := [Opening];
      RenderSnoc([], Opening);
      assert [] + [Opening] == lines;
      assert Render([]) == "";
      assert content == Render(lines);
      content := content + (title + " \n");
      RenderSnoc(lines, Title(timestamp));
      lines := lines + [Title(timestamp)];
      content := content + "if (in_array(PHP_SAPI, ['cli', 'phpdbg'], true)) {\n";
      RenderSnoc(lines, GuardIf);
      lines := lines + [GuardIf];
      content := content + "\treturn;\n";
      RenderSnoc(lines, GuardReturn);
      lines := lines + [GuardReturn];
      content := content + "}\n\n";
      RenderSnoc(lines, GuardEnd);
      lines := lines + [GuardEnd];
      content := content + ("require_once('" + root + Php.DS + "vendor" + Php.DS + "autoload.php" + "'); \n");
      RenderSnoc(lines, Autoload(root));
      lines := lines + [Autoload(root)];
      assert lines == HeaderLines(timestamp, root);
    }

    /**
     * `contents()`: the text of the preload script for the sorted list,
     * with `timestamp` for `FrozenTime::now()` and `root` for `ROOT`.
     * Missing files are skipped with a warning.
     */
    method Contents(timestamp: string, root: string, fs: Snapshot) returns (content: string, warnings: seq<string>)
      modifies this
      ensures preloadResources == SortByFile(old(preloadResources))
      ensures content == Render(DocumentLines(timestamp, root, preloadResources, fs))
      ensures warnings == SkipWarnings(preloadResources, fs)
    {
      content := EchoHeader(timestamp, root);
      var resources := GetPreloadResources();
      content, warnings := EchoResources(resources, content, timestamp, root, fs);
    }

    /**
     * `contents()` after the header: the loop over the sorted resources,
     * then the `# Scripts` marker and the buffered lines when there are any.
     */
    method EchoResources(resources: seq<PreloadResource>, content0: string, timestamp: string, root: string, fs: Snapshot)
      returns (content: string, warnings: seq<string>)
      requires content0 == Render(HeaderLines(timestamp, root))
      ensures content == Render(DocumentLines(timestamp, root, resources, fs))
      ensures warnings == SkipWarnings(resources, fs)
    {
      var scripts;
      content, scripts, warnings := EchoLoop(resources, content0, HeaderLines(timestamp, root), fs);
      DocumentFromSections(timestamp, root, resources, fs, content, scripts);
      if scripts != [] {
        content := content + "# Scripts \n";
        content := content + Concat(scripts);
      }
    }

    /**
     * The loop of `contents()`: `require_once` directives are echoed at
     * once, compile-only ones are buffered, and missing files raise a
     * warning.
     */
    method EchoLoop(resources: seq<PreloadResource>, content0: string, ghost header: seq<Line>, fs: Snapshot)
      returns (content: string, scripts: seq<string>, warnings: seq<string>)
      requires content0 == Render(header)
      ensures content == Render(header + Section(resources, fs, true))
      ensures Concat(scripts) == Render(Section(resources, fs, false))
      ensures (scripts == []) == (Section(resources, fs, false) == [])
      ensures warnings == SkipWarnings(resources, fs)
    {
      content := content0;
      scripts := [];
      warnings := [];
      assert header + Section(resources[..0], fs, true) == header;
      for i := 0 to |resources|
        invariant content == Render(header + Section(resources[..i], fs, true))
        invariant Concat(scripts) == Render(Section(resources[..i], fs, false))
        invariant (scripts == []) == (Section(resources[..i], fs, false) == [])
        invariant warnings == SkipWarnings(resources[..i], fs)
      {
        TakeNext(resources, i);
        content, scripts, warnings := EchoResource(resources[..i], resources[i], content, scripts, warnings, header, fs);
      }
      assert resources[..|resources|] == resources;
    }

    /** One turn of the loop of `contents()`: echo, buffer or skip `resource`. */
    method EchoResource(done: seq<PreloadResource>, resource: PreloadResource, content0: string, scripts0: seq<string>,
                        warnings0: seq<string>, ghost header: seq<Line>, fs: Snapshot)
      returns (content: string, scripts: seq<string>, warnings: seq<string>)
      requires content0 == Render(header + Section(done, fs, true))
      requires Concat(scripts0) == Render(Section(done, fs, false))
      requires (scripts0 == []) == (Section(done, fs, false) == [])
      requires warnings0 == SkipWarnings(done, fs)
      ensures content == Render(header + Section(done + [resource], fs, true))
      ensures Concat(scripts) == Render(Section(done + [resource], fs, false))
      ensures (scripts == []) == (Section(done + [resource], fs, false) == [])
      ensures warnings == SkipWarnings(done + [resource], fs)
    {
      content, scripts, warnings := content0, scripts0, warnings0;
      SectionStep(header, done, resource, fs, true);
      SectionStep([], done, resource, fs, false);
      SkipWarningsSnoc(done, resource, fs);
      match GetResource(resource, fs)
      case Failure(e) =>
        warnings := warnings + ["Preloader skipped the following: " + e.message];
      case Success(line) =>
        assert SkipWarnings(done, fs) + [] == SkipWarnings(done, fs);
        if resource.GetType() == REQUIRE_ONCE {
          content := content + line;
        } else {
          ConcatAppend(scripts, [line]);
          ConcatSingle(line);
          scripts := scripts + [line];
        }
    }

    /**
     * `write($path)`: refuses a path that exists and is not writable, before
     * the `beforeWrite` listener runs. `beforeWrite` is what the listener
     * puts in place of the list, if anything; `putSucceeds` is whether the
     * operating system accepts the file. `written` is the text persisted.
     */
    method Write(path: string, fs: Snapshot, root: string, timestamp: string,
                 beforeWrite: Option<seq<PreloadResource>>, putSucceeds: bool)
      returns (result: Result<bool, Error>, written: Option<string>, warnings: seq<string>)
      modifies this
      ensures fs.Exists(path) && !fs.IsWritable(path) ==>
        && result == Failure(Runtime("File path is not writable: " + path))
        && written == None && warnings == []
        && preloadResources == old(preloadResources)
      ensures !(fs.Exists(path) && !fs.IsWritable(path)) ==>
        && preloadResources == SortByFile(beforeWrite.GetOr(old(preloadResources)))
        && result == Success(putSucceeds)
        && written == (if putSucceeds then Some(Render(DocumentLines(timestamp, root, preloadResources, fs))) else None)
        && warnings == SkipWarnings(preloadResources, fs)
    {
      if fs.Exists(path) && !fs.IsWritable(path) {
        return Failure(Runtime("File path is not writable: " + path)), None, [];
      }
      if beforeWrite.Some? {
        SetPreloadResources(beforeWrite.value);
      }
      var content;
      content, warnings := Contents(timestamp, root, fs);
      DocumentStartsWithHeader(timestamp, root, preloadResources, fs);
      if putSucceeds {
        written := Some(content);
        result := Success(|content| > 0);
      } else {
        written := None;
        result := Success(false);
      }
    }
  }
}
