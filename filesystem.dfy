/**
 * `Filesystem`: the directory walks the preloader scans with. The lazy
 * iterator chains of the source become sequences: `Walk` is the child-first
 * flattening of the pruned directory tree, `Keep` is a callback filter.
 */
module Filesystem {
  import opened Wrappers
  import opened Disk
  import opened Exceptions

  /**
   * The directory an iterator reports for the opened `path`: one trailing
   * `/` is dropped unless the path is `/` itself.
   */
  function DirPath(path: string): (d: string)
    ensures |path| > 1 && path[|path| - 1] == '/' ==> path == d + "/"
    ensures !(|path| > 1 && path[|path| - 1] == '/') ==> d == path
  {
    if |path| > 1 && path[|path| - 1] == '/' then path[..|path| - 1] else path
  }

  /**
   * An `SplFileInfo` of an entry found under the opened directory `root`:
   * `trail` names the directories between `root` and the entry.
   */
  datatype FileInfo = FileInfo(root: string, trail: seq<string>, filename: string, isDir: bool) {
    /** `getPath()`: the directory holding the entry. */
    function GetPath(): string {
      DirPath(root) + TrailText(trail)
    }

    /** `getPathname()`. */
    function GetPathname(): string {
      GetPath() + "/" + filename
    }

    /** `getFilename()`. */
    function GetFilename(): string {
      filename
    }

    /** `getExtension()`. */
    function GetExtension(): string {
      Extension(filename)
    }
  }

  function TrailText(trail: seq<string>): string {
    if trail == [] then "" else "/" + trail[0] + TrailText(trail[1..])
  }

  /** The text after the last dot of a file name, or "" when it has none. */
  function Extension(name: string): (ext: string)
    ensures '.' !in ext
    ensures |ext| <= |name|
  {
    if name == [] || name[|name| - 1] == '.' then ""
    else if '.' !in name then ""
    else Extension(name[..|name| - 1]) + [name[|name| - 1]]
  }

  lemma {:induction false} ExtensionAfterDot(stem: string, ext: string)
    requires '.' !in ext
    ensures Extension(stem + "." + ext) == ext
    decreases |ext|
  {
    var name := stem + "." + ext;
    assert name[|stem|] == '.';
    if ext != [] {
      var ext' := ext[..|ext| - 1];
      assert name[..|name| - 1] == stem + "." + ext';
      assert ext == ext' + [ext[|ext| - 1]];
      ExtensionAfterDot(stem, ext');
    }
  }

  /** Every `.php` file name has the extension "php". */
  lemma ExtensionOfPhpFile(stem: string)
    ensures Extension(stem + ".php") == "php"
  {
    assert stem + ".php" == stem + "." + "php";
    ExtensionAfterDot(stem, "php");
  }

  /** The entries `FilesystemIterator::SKIP_DOTS` leaves out. */
  predicate IsDotsName(name: string) {
    name == "." || name == ".."
  }

  predicate IsHiddenName(name: string) {
    |name| > 0 && name[0] == '.'
  }

  /** The directory filter of `findRecursive`: a directory whose name starts with a dot is refused. */
  predicate PassesDirFilter(e: Entry) {
    !(IsHiddenName(e.name) && e.Dir?)
  }

  /**
   * The child-first flattening of the entries `es` of the directory `trail`
   * below `root`: each entry in listing order, a directory after everything
   * under it, with the dot entries and the refused directories left out.
   */
  function Walk(root: string, trail: seq<string>, es: seq<Entry>): seq<FileInfo>
    decreases es
  {
    if es == [] then [] else WalkEntry(root, trail, es[0]) + Walk(root, trail, es[1..])
  }

  function WalkEntry(root: string, trail: seq<string>, e: Entry): seq<FileInfo>
    decreases e
  {
    if IsDotsName(e.name) || !PassesDirFilter(e) then []
    else match e
      case File(n) => [FileInfo(root, trail, n, false)]
      case Dir(n, cs) => Walk(root, trail + [n], cs) + [FileInfo(root, trail, n, true)]
  }

  /** `CallbackFilterIterator`: the entries `f` accepts, in their order. */
  function Keep(xs: seq<FileInfo>, f: FileInfo -> bool): seq<FileInfo> {
    if xs == [] then []
    else (if f(xs[0]) then [xs[0]] else []) + Keep(xs[1..], f)
  }

  /** `filterIterator` with a callable filter. */
  function FilterIterator(xs: seq<FileInfo>, f: FileInfo -> bool): seq<FileInfo> {
    Keep(xs, f)
  }

  /**
   * `findRecursive($path, $filter)` with the default flags; opening a path
   * that is not a directory fails.
   */
  function FindRecursive(path: string, filter: Option<FileInfo -> bool>, fs: Snapshot): Result<seq<FileInfo>, Error> {
    if !fs.IsDir(path) then Failure(UnexpectedValue(path))
    else
      var flatten := Walk(path, [], fs.dirs[path]);
      if filter.None? then Success(flatten) else Success(FilterIterator(flatten, filter.value))
  }

  /** The direct entries of a listing, without the dot entries. */
  function Listing(path: string, es: seq<Entry>): seq<FileInfo> {
    if es == [] then []
    else (if IsDotsName(es[0].name) then [] else [FileInfo(path, [], es[0].name, es[0].Dir?)]) + Listing(path, es[1..])
  }

  /** `find($path, $filter)` with the default flags. */
  function Find(path: string, filter: Option<FileInfo -> bool>, fs: Snapshot): Result<seq<FileInfo>, Error> {
    if !fs.IsDir(path) then Failure(UnexpectedValue(path))
    else
      var directory := Listing(path, fs.dirs[path]);
      if filter.None? then Success(directory) else Success(FilterIterator(directory, filter.value))
  }

  // ---------------------------------------------------------------------
  // The callback filter

  lemma {:induction false} KeepMembers(xs: seq<FileInfo>, f: FileInfo -> bool)
    ensures forall x :: x in Keep(xs, f) <==> x in xs && f(x)
  {
    if xs != [] {
      KeepMembers(xs[1..], f);
      assert xs == [xs[0]] + xs[1..];
    }
  }

  /** Filtering a concatenation filters each part: the relative order is kept. */
  lemma {:induction false} KeepAppend(a: seq<FileInfo>, b: seq<FileInfo>, f: FileInfo -> bool)
    ensures Keep(a + b, f) == Keep(a, f) + Keep(b, f)
  {
    if a != [] {
      assert (a + b)[1..] == a[1..] + b;
      KeepAppend(a[1..], b, f);
    } else {
      assert a + b == b;
    }
  }

  lemma {:induction false} KeepAll(xs: seq<FileInfo>, f: FileInfo -> bool)
    requires forall x :: x in xs ==> f(x)
    ensures Keep(xs, f) == xs
  {
    if xs != [] {
      KeepAll(xs[1..], f);
      assert xs == [xs[0]] + xs[1..];
    }
  }

  lemma {:induction false} KeepLength(xs: seq<FileInfo>, f: FileInfo -> bool)
    ensures |Keep(xs, f)| <= |xs|
  {
    if xs != [] {
      KeepLength(xs[1..], f);
    }
  }

  /**
   * With a filter, `findRecursive` yields the walked entries the filter
   * accepts and no others; without one, all of them.
   */
  lemma FindRecursiveFilters(path: string, filter: Option<FileInfo -> bool>, fs: Snapshot)
    ensures FindRecursive(path, filter, fs).Success? <==> fs.IsDir(path)
    ensures fs.IsDir(path) ==>
      forall x :: x in FindRecursive(path, filter, fs).value <==>
        x in Walk(path, [], fs.dirs[path]) && (filter.None? || filter.value(x))
  {
    if fs.IsDir(path) && filter.Some? {
      KeepMembers(Walk(path, [], fs.dirs[path]), filter.value);
    }
  }

  // ---------------------------------------------------------------------
  // Pruning

  /** Nothing on the walk lies in or is a directory whose name starts with a dot. */
  predicate OutsideHiddenDirs(x: FileInfo) {
    && (forall t :: t in x.trail ==> !IsHiddenName(t))
    && !(x.isDir && IsHiddenName(x.filename))
    && !IsDotsName(x.filename)
  }

  lemma {:induction false} WalkOutsideHiddenDirs(root: string, trail: seq<string>, es: seq<Entry>)
    requires forall t :: t in trail ==> !IsHiddenName(t)
    ensures forall x :: x in Walk(root, trail, es) ==> OutsideHiddenDirs(x)
    decreases es
  {
    if es != [] {
      WalkEntryOutsideHiddenDirs(root, trail, es[0]);
      WalkOutsideHiddenDirs(root, trail, es[1..]);
    }
  }

  lemma {:induction false} WalkEntryOutsideHiddenDirs(root: string, trail: seq<string>, e: Entry)
    requires forall t :: t in trail ==> !IsHiddenName(t)
    ensures forall x :: x in WalkEntry(root, trail, e) ==> OutsideHiddenDirs(x)
    decreases e
  {
    if !IsDotsName(e.name) && PassesDirFilter(e) && e.Dir? {
      WalkOutsideHiddenDirs(root, trail + [e.name], e.children);
    }
  }

  /**
   * No directory whose name starts with a dot is yielded, and nothing below
   * one, at any depth; "." and ".." never are.
   */
  lemma FindRecursiveSkipsHiddenDirs(path: string, filter: Option<FileInfo -> bool>, fs: Snapshot)
    requires fs.IsDir(path)
    ensures forall x :: x in FindRecursive(path, filter, fs).value ==> OutsideHiddenDirs(x) && x.root == path
  {
    WalkOutsideHiddenDirs(path, [], fs.dirs[path]);
    WalkRoot(path, [], fs.dirs[path]);
    FindRecursiveFilters(path, filter, fs);
  }

  lemma {:induction false} WalkRoot(root: string, trail: seq<string>, es: seq<Entry>)
    ensures forall x :: x in Walk(root, trail, es) ==> x.root == root
    decreases es
  {
    if es != [] {
      WalkEntryRoot(root, trail, es[0]);
      WalkRoot(root, trail, es[1..]);
    }
  }

  lemma {:induction false} WalkEntryRoot(root: string, trail: seq<string>, e: Entry)
    ensures forall x :: x in WalkEntry(root, trail, e) ==> x.root == root
    decreases e
  {
    if !IsDotsName(e.name) && PassesDirFilter(e) && e.Dir? {
      WalkRoot(root, trail + [e.name], e.children);
    }
  }

  // ---------------------------------------------------------------------
  // Completeness: every entry the pruning lets through is yielded

  /** `e` is reached from the listing `es` through the directories named by `t`. */
  predicate Located(es: seq<Entry>, t: seq<string>, e: Entry)
    decreases |t|
  {
    if t == [] then e in es
    else exists d :: d in es && d.Dir? && d.name == t[0] && Located(d.children, t[1..], e)
  }

  /** No directory on the way to `e`, nor `e` itself, is pruned, and `e` is no dot entry. */
  predicate Visible(t: seq<string>, e: Entry) {
    (forall n :: n in t ==> !IsHiddenName(n)) && PassesDirFilter(e) && !IsDotsName(e.name)
  }

  lemma {:induction false} WalkHas(root: string, trail: seq<string>, es: seq<Entry>, x: Entry, y: FileInfo)
    requires x in es && y in WalkEntry(root, trail, x)
    ensures y in Walk(root, trail, es)
    decreases es
  {
    if es[0] != x {
      WalkHas(root, trail, es[1..], x, y);
    }
  }

  lemma {:induction false} WalkComplete(root: string, trail: seq<string>, es: seq<Entry>, t: seq<string>, e: Entry)
    requires Located(es, t, e) && Visible(t, e)
    ensures FileInfo(root, trail + t, e.name, e.Dir?) in Walk(root, trail, es)
    decreases |t|
  {
    var y := FileInfo(root, trail + t, e.name, e.Dir?);
    if t == [] {
      assert trail + t == trail;
      assert y in WalkEntry(root, trail, e);
      WalkHas(root, trail, es, e, y);
    } else {
      var d :| d in es && d.Dir? && d.name == t[0] && Located(d.children, t[1..], e);
      assert t[0] in t;
      assert Visible(t[1..], e) by {
        forall n | n in t[1..] ensures !IsHiddenName(n) {
          assert n in t;
        }
      }
      WalkComplete(root, trail + [d.name], d.children, t[1..], e);
      assert (trail + [d.name]) + t[1..] == trail + t;
      assert y in WalkEntry(root, trail, d);
      WalkHas(root, trail, es, d, y);
    }
  }

  /**
   * Every entry that is not a dot entry and neither is nor lies beneath a
   * dot-directory is yielded, unless the filter refuses it.
   */
  lemma FindRecursiveComplete(path: string, filter: Option<FileInfo -> bool>, fs: Snapshot, t: seq<string>, e: Entry)
    requires fs.IsDir(path) && Located(fs.dirs[path], t, e) && Visible(t, e)
    ensures var x := FileInfo(path, t, e.name, e.Dir?);
      (filter.None? || filter.value(x)) ==> x in FindRecursive(path, filter, fs).value
  {
    WalkComplete(path, [], fs.dirs[path], t, e);
    assert [] + t == t;
    FindRecursiveFilters(path, filter, fs);
  }

  /**
   * A file whose name starts with a dot is not pruned, at any depth below
   * visible directories: the directory filter only refuses directories.
   */
  lemma DotFileFound(path: string, fs: Snapshot, t: seq<string>, name: string)
    requires fs.IsDir(path) && Located(fs.dirs[path], t, File(name))
    requires forall n :: n in t ==> !IsHiddenName(n)
    requires IsHiddenName(name) && !IsDotsName(name)
    ensures FileInfo(path, t, name, false) in FindRecursive(path, None, fs).value
  {
    FindRecursiveComplete(path, None, fs, t, File(name));
  }

  /** Opening `root/` yields the same paths as opening `root`. */
  lemma PathUnderSlashedRoot(root: string, trail: seq<string>, name: string, isDir: bool)
    requires root != [] && root[|root| - 1] != '/'
    ensures FileInfo(root + "/", trail, name, isDir).GetPath() == FileInfo(root, trail, name, isDir).GetPath()
    ensures FileInfo(root + "/", trail, name, isDir).GetPathname() == FileInfo(root, trail, name, isDir).GetPathname()
  {
    assert (root + "/")[..|root|] == root;
  }

  // ---------------------------------------------------------------------
  // Soundness: everything yielded is a visible entry of the tree

  /** Listing more entries keeps every located entry located. */
  lemma LocatedWider(a: seq<Entry>, b: seq<Entry>, t: seq<string>, e: Entry)
    requires Located(a, t, e) && forall y :: y in a ==> y in b
    ensures Located(b, t, e)
  {
    if t != [] {
      var d :| d in a && d.Dir? && d.name == t[0] && Located(d.children, t[1..], e);
      assert d in b;
    }
  }

  lemma {:induction false} WalkSound(root: string, trail: seq<string>, es: seq<Entry>, x: FileInfo)
    requires x in Walk(root, trail, es)
    ensures x.root == root && |trail| <= |x.trail| && x.trail[..|trail|] == trail
    ensures exists e ::
      Located(es, x.trail[|trail|..], e) && Visible(x.trail[|trail|..], e) && e.name == x.filename && e.Dir? == x.isDir
    decreases es
  {
    var e0 := es[0];
    if x in Walk(root, trail, es[1..]) {
      WalkSound(root, trail, es[1..], x);
      var t := x.trail[|trail|..];
      var e :| Located(es[1..], t, e) && Visible(t, e) && e.name == x.filename && e.Dir? == x.isDir;
      LocatedWider(es[1..], es, t, e);
    } else if x == FileInfo(root, trail, e0.name, e0.Dir?) {
      assert x.trail[|trail|..] == [];
      assert Located(es, [], e0);
    } else {
      var sub := trail + [e0.name];
      assert x in Walk(root, sub, e0.children);
      WalkSound(root, sub, e0.children, x);
      var t := x.trail[|trail|..];
      var t' := x.trail[|sub|..];
      var e :| Located(e0.children, t', e) && Visible(t', e) && e.name == x.filename && e.Dir? == x.isDir;
      assert x.trail[..|trail|] == x.trail[..|sub|][..|trail|];
      assert t[0] == e0.name && t[1..] == t';
      assert Located(es, t, e);
      forall n | n in t ensures !IsHiddenName(n) {
        if n != t[0] {
          assert n in t[1..];
        }
      }
    }
  }

  /**
   * Everything `findRecursive` yields is an entry of the tree under `path`,
   * located at its trail, neither a dot entry nor a dot-directory nor below
   * one, and accepted by the filter.
   */
  lemma FindRecursiveSound(path: string, filter: Option<FileInfo -> bool>, fs: Snapshot, x: FileInfo)
    requires fs.IsDir(path) && x in FindRecursive(path, filter, fs).value
    ensures x.root == path && (filter.None? || filter.value(x))
    ensures exists e ::
      Located(fs.dirs[path], x.trail, e) && Visible(x.trail, e) && e.name == x.filename && e.Dir? == x.isDir
  {
    FindRecursiveFilters(path, filter, fs);
    WalkSound(path, [], fs.dirs[path], x);
    assert x.trail[0..] == x.trail;
  }

  // ---------------------------------------------------------------------
  // Child-first order

  function Names(es: seq<Entry>): set<string> {
    set e | e in es :: e.name
  }

  /** A real directory tree: the names within each directory are distinct. */
  predicate WellFormed(es: seq<Entry>)
    decreases es
  {
    && (forall i, j :: 0 <= i < j < |es| ==> es[i].name != es[j].name)
    && (forall i :: 0 <= i < |es| ==> WellFormedEntry(es[i]))
  }

  predicate WellFormedEntry(e: Entry)
    decreases e
  {
    e.Dir? ==> WellFormed(e.children)
  }

  /** `x` lies somewhere below the directory `d`. */
  predicate Beneath(x: FileInfo, d: FileInfo) {
    d.isDir && |d.trail| < |x.trail| && x.trail[..|d.trail| + 1] == d.trail + [d.filename]
  }

  /** Every entry below a directory comes before the directory itself. */
  predicate ChildFirst(w: seq<FileInfo>) {
    forall i, j :: 0 <= i < |w| && 0 <= j < |w| && Beneath(w[i], w[j]) ==> i < j
  }

  /** Where the walk of `es` under `trail` puts its entries: below `trail`, under one of the names of `es`. */
  predicate UnderOneOf(x: FileInfo, trail: seq<string>, names: set<string>) {
    && |trail| <= |x.trail| && x.trail[..|trail|] == trail
    && (if |x.trail| == |trail| then x.filename in names else x.trail[|trail|] in names)
  }

  lemma {:induction false} WalkPlacement(root: string, trail: seq<string>, es: seq<Entry>)
    ensures forall x :: x in Walk(root, trail, es) ==> UnderOneOf(x, trail, Names(es))
    decreases es
  {
    if es != [] {
      WalkEntryPlacement(root, trail, es[0]);
      WalkPlacement(root, trail, es[1..]);
      assert Names(es[1..]) <= Names(es);
    }
  }

  lemma {:induction false} WalkEntryPlacement(root: string, trail: seq<string>, e: Entry)
    ensures forall x :: x in WalkEntry(root, trail, e) ==> UnderOneOf(x, trail, {e.name})
    decreases e
  {
    if !IsDotsName(e.name) && PassesDirFilter(e) && e.Dir? {
      var sub := trail + [e.name];
      WalkPlacement(root, sub, e.children);
      forall x | x in Walk(root, sub, e.children) ensures UnderOneOf(x, trail, {e.name}) {
        assert x.trail[..|sub|] == sub;
        assert x.trail[..|trail|] == sub[..|trail|];
      }
    }
  }

  lemma {:induction false} WalkChildFirst(root: string, trail: seq<string>, es: seq<Entry>)
    requires WellFormed(es)
    ensures ChildFirst(Walk(root, trail, es))
    decreases es
  {
    if es != [] {
      var a := WalkEntry(root, trail, es[0]);
      var b := Walk(root, trail, es[1..]);
      assert WellFormedEntry(es[0]);
      WalkEntryChildFirst(root, trail, es[0]);
      assert WellFormed(es[1..]) by {
        forall i | 0 <= i < |es[1..]| ensures WellFormedEntry(es[1..][i]) {
          assert es[1..][i] == es[i + 1];
        }
      }
      WalkChildFirst(root, trail, es[1..]);
      WalkEntryPlacement(root, trail, es[0]);
      WalkPlacement(root, trail, es[1..]);
      assert es[0].name !in Names(es[1..]) by {
        forall e | e in es[1..] ensures e.name != es[0].name {
          var k :| 0 <= k < |es[1..]| && es[1..][k] == e;
          assert es[k + 1] == e;
        }
      }
      var w := a + b;
      forall i, j | 0 <= i < |w| && 0 <= j < |w| ensures Beneath(w[i], w[j]) ==> i < j {
        if i < |a| && j < |a| {
          assert w[i] == a[i] && w[j] == a[j];
        } else if i >= |a| && j >= |a| {
          assert w[i] == b[i - |a|] && w[j] == b[j - |a|];
        } else if i >= |a| {
          var x, d := b[i - |a|], a[j];
          assert w[i] == x && w[j] == d;
          assert UnderOneOf(d, trail, {es[0].name});
          assert UnderOneOf(x, trail, Names(es[1..]));
          assert (d.trail + [d.filename])[|trail|] == es[0].name;
          assert |x.trail| > |trail| ==> x.trail[|trail|] != es[0].name;
        }
      }
    }
  }

  lemma {:induction false} WalkEntryChildFirst(root: string, trail: seq<string>, e: Entry)
    requires WellFormedEntry(e)
    ensures ChildFirst(WalkEntry(root, trail, e))
    decreases e
  {
    if !IsDotsName(e.name) && PassesDirFilter(e) && e.Dir? {
      var sub := trail + [e.name];
      var s := Walk(root, sub, e.children);
      var self := FileInfo(root, trail, e.name, true);
      WalkChildFirst(root, sub, e.children);
      WalkPlacement(root, sub, e.children);
      var w := s + [self];
      forall i, j | 0 <= i < |w| && 0 <= j < |w| ensures Beneath(w[i], w[j]) ==> i < j {
        if j < |s| {
          assert w[j] == s[j];
          assert UnderOneOf(s[j], sub, Names(e.children));
          if i < |s| {
            assert w[i] == s[i];
          } else {
            assert |w[j].trail| > |w[i].trail|;
          }
        }
      }
    }
  }

  /**
   * The walk is child-first: on a real directory tree every entry below a
   * directory is yielded before that directory, and filtering keeps this.
   */
  lemma FindRecursiveChildFirst(path: string, fs: Snapshot)
    requires fs.IsDir(path) && WellFormed(fs.dirs[path])
    ensures ChildFirst(FindRecursive(path, None, fs).value)
  {
    WalkChildFirst(path, [], fs.dirs[path]);
  }

  /** The filter of `findRecursive` only removes entries, so child-first order survives it. */
  lemma {:induction false} KeepChildFirst(xs: seq<FileInfo>, f: FileInfo -> bool)
    requires ChildFirst(xs)
    ensures ChildFirst(Keep(xs, f))
  {
    if xs != [] {
      var rest := Keep(xs[1..], f);
      assert ChildFirst(xs[1..]) by {
        forall i, j | 0 <= i < |xs[1..]| && 0 <= j < |xs[1..]| && Beneath(xs[1..][i], xs[1..][j]) ensures i < j {
          assert Beneath(xs[i + 1], xs[j + 1]);
        }
      }
      KeepChildFirst(xs[1..], f);
      KeepMembers(xs[1..], f);
      if f(xs[0]) {
        var w := [xs[0]] + rest;
        forall i, j | 0 <= i < |w| && 0 <= j < |w| ensures Beneath(w[i], w[j]) ==> i < j {
          if i > 0 && j > 0 {
            assert w[i] == rest[i - 1] && w[j] == rest[j - 1];
          } else if i > 0 {
            assert rest[i - 1] in xs[1..];
            var k :| 0 <= k < |xs[1..]| && xs[1..][k] == rest[i - 1];
            assert w[i] == xs[k + 1] && w[j] == xs[0];
          }
        }
      }
    }
  }

  lemma FindRecursiveFilteredChildFirst(path: string, f: FileInfo -> bool, fs: Snapshot)
    requires fs.IsDir(path) && WellFormed(fs.dirs[path])
    ensures ChildFirst(FindRecursive(path, Some(f), fs).value)
  {
    WalkChildFirst(path, [], fs.dirs[path]);
    KeepChildFirst(Walk(path, [], fs.dirs[path]), f);
  }

  // ---------------------------------------------------------------------
  // No entry is yielded twice

  predicate NoDuplicates(w: seq<FileInfo>) {
    forall i, j :: 0 <= i < j < |w| ==> w[i] != w[j]
  }

  lemma NoDuplicatesAppend(a: seq<FileInfo>, b: seq<FileInfo>)
    requires NoDuplicates(a) && NoDuplicates(b)
    requires forall x :: x in a ==> x !in b
    ensures NoDuplicates(a + b)
  {
    var w := a + b;
    forall i, j | 0 <= i < j < |w| ensures w[i] != w[j] {
      if j < |a| {
        assert w[i] == a[i] && w[j] == a[j];
      } else if i >= |a| {
        assert w[i] == b[i - |a|] && w[j] == b[j - |a|];
      } else {
        assert w[i] in a && w[j] in b;
      }
    }
  }

  lemma {:induction false} WalkNoDuplicates(root: string, trail: seq<string>, es: seq<Entry>)
    requires WellFormed(es)
    ensures NoDuplicates(Walk(root, trail, es))
    decreases es
  {
    if es != [] {
      var a := WalkEntry(root, trail, es[0]);
      var b := Walk(root, trail, es[1..]);
      assert WellFormedEntry(es[0]);
      WalkEntryNoDuplicates(root, trail, es[0]);
      assert WellFormed(es[1..]) by {
        forall i | 0 <= i < |es[1..]| ensures WellFormedEntry(es[1..][i]) {
          assert es[1..][i] == es[i + 1];
        }
      }
      WalkNoDuplicates(root, trail, es[1..]);
      WalkEntryPlacement(root, trail, es[0]);
      WalkPlacement(root, trail, es[1..]);
      assert es[0].name !in Names(es[1..]) by {
        forall e | e in es[1..] ensures e.name != es[0].name {
          var k :| 0 <= k < |es[1..]| && es[1..][k] == e;
          assert es[k + 1] == e;
        }
      }
      forall x | x in a ensures x !in b {
        assert UnderOneOf(x, trail, {es[0].name});
      }
      NoDuplicatesAppend(a, b);
    }
  }

  lemma {:induction false} WalkEntryNoDuplicates(root: string, trail: seq<string>, e: Entry)
    requires WellFormedEntry(e)
    ensures NoDuplicates(WalkEntry(root, trail, e))
    decreases e
  {
    if !IsDotsName(e.name) && PassesDirFilter(e) && e.Dir? {
      var sub := trail + [e.name];
      var self := FileInfo(root, trail, e.name, true);
      WalkNoDuplicates(root, sub, e.children);
      WalkPlacement(root, sub, e.children);
      forall x | x in Walk(root, sub, e.children) ensures x !in [self] {
        assert |x.trail| >= |sub| > |trail|;
      }
      NoDuplicatesAppend(Walk(root, sub, e.children), [self]);
    }
  }

  lemma {:induction false} KeepNoDuplicates(xs: seq<FileInfo>, f: FileInfo -> bool)
    requires NoDuplicates(xs)
    ensures NoDuplicates(Keep(xs, f))
  {
    if xs != [] {
      var head := if f(xs[0]) then [xs[0]] else [];
      assert NoDuplicates(xs[1..]) by {
        forall i, j | 0 <= i < j < |xs[1..]| ensures xs[1..][i] != xs[1..][j] {
          assert xs[1..][i] == xs[i + 1] && xs[1..][j] == xs[j + 1];
        }
      }
      KeepNoDuplicates(xs[1..], f);
      KeepMembers(xs[1..], f);
      assert xs[0] !in xs[1..] by {
        forall k | 0 <= k < |xs[1..]| ensures xs[1..][k] != xs[0] {
          assert xs[1..][k] == xs[k + 1];
        }
      }
      NoDuplicatesAppend(head, Keep(xs[1..], f));
    }
  }

  /** In a real directory tree, `findRecursive` yields each entry at most once. */
  lemma FindRecursiveNoDuplicates(path: string, filter: Option<FileInfo -> bool>, fs: Snapshot)
    requires fs.IsDir(path) && WellFormed(fs.dirs[path])
    ensures NoDuplicates(FindRecursive(path, filter, fs).value)
  {
    WalkNoDuplicates(path, [], fs.dirs[path]);
    if filter.Some? {
      KeepNoDuplicates(Walk(path, [], fs.dirs[path]), filter.value);
    }
  }

  // ---------------------------------------------------------------------
  // The flat listing

  lemma {:induction false} ListingMembers(path: string, es: seq<Entry>)
    ensures forall x :: x in Listing(path, es) ==> x.root == path && x.trail == [] && !IsDotsName(x.filename)
    ensures forall e :: e in es && !IsDotsName(e.name) ==> FileInfo(path, [], e.name, e.Dir?) in Listing(path, es)
  {
    if es != [] {
      ListingMembers(path, es[1..]);
      assert es == [es[0]] + es[1..];
    }
  }

  /**
   * `find` yields the direct entries of the directory, never "." or "..",
   * and every other direct entry when there is no filter; their directory
   * is the opened path without its trailing `/`.
   */
  lemma FindDirectChildren(path: string, filter: Option<FileInfo -> bool>, fs: Snapshot)
    requires fs.IsDir(path)
    ensures forall x :: x in Find(path, filter, fs).value ==>
      && x.root == path && x.trail == [] && !IsDotsName(x.filename)
      && x.GetPath() == DirPath(path) && x.GetPathname() == DirPath(path) + "/" + x.filename
    ensures filter.None? ==>
      forall e :: e in fs.dirs[path] && !IsDotsName(e.name) ==> FileInfo(path, [], e.name, e.Dir?) in Find(path, filter, fs).value
  {
    ListingMembers(path, fs.dirs[path]);
    if filter.Some? {
      KeepMembers(Listing(path, fs.dirs[path]), filter.value);
    }
  }
}
