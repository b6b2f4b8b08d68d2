/**
 * `PreloadResource`: an immutable pair of a preload directive and an
 * absolute file path, rendered as one line of the preload script.
 */
module PreloadResource {
  import opened Wrappers
  import opened Disk
  import opened Exceptions
  import Text

  const REQUIRE_ONCE := "require_once"
  const OPCACHE_COMPILE_FILE := "opcache_compile_file"

  /** `PreloadResource::TYPES`. */
  const TYPES: seq<string> := [REQUIRE_ONCE, OPCACHE_COMPILE_FILE]

  const INVALID_TYPE_MESSAGE := "Argument must be on of require_once, opcache_compile_file"

  datatype Resource = Resource(kind: string, file: string) {
    predicate Valid() {
      kind in TYPES
    }

    function GetType(): string {
      kind
    }

    function GetFile(): string {
      file
    }
  }

  /** The resources the constructor can produce: those with one of the two types. */
  type PreloadResource = r: Resource | r.Valid() witness Resource(REQUIRE_ONCE, "")

  /** `new PreloadResource($type, $file)`. */
  function New(kind: string, file: string): (r: Result<PreloadResource, Error>)
    ensures r.Success? <==> (kind == REQUIRE_ONCE || kind == OPCACHE_COMPILE_FILE)
    ensures r.Success? ==> r.value.GetType() == kind && r.value.GetFile() == file
    ensures r.Failure? ==> r.error == InvalidArgument(INVALID_TYPE_MESSAGE)
  {
    if kind !in TYPES then Failure(InvalidArgument(INVALID_TYPE_MESSAGE))
    else Success(Resource(kind, file))
  }

  const DIRECTIVE_END := "'); \n"

  /** The directive line of a resource. */
  function Directive(r: Resource): string {
    r.kind + "('" + r.file + DIRECTIVE_END
  }

  /** `getResource()`, where `fs` decides `file_exists`. */
  function GetResource(r: PreloadResource, fs: Snapshot): (res: Result<string, Error>)
    ensures res.Success? <==> fs.Exists(r.file)
    ensures res.Success? ==> res.value == Directive(r)
    ensures res.Failure? ==> res.error == ResourceNotFound("File `" + r.file + "` does not exist")
  {
    if !fs.Exists(r.file) then Failure(ResourceNotFound("File `" + r.file + "` does not exist"))
    else Success(r.kind + "('" + r.file + "'); \n")
  }

  predicate HasPrefix(s: string, p: string) {
    |p| <= |s| && s[..|p|] == p
  }

  /** Reads a directive line back into the resource it names. */
  function ParseDirective(line: string): Option<Resource> {
    if |line| < |DIRECTIVE_END| || line[|line| - |DIRECTIVE_END|..] != DIRECTIVE_END then None
    else
      var body := line[..|line| - |DIRECTIVE_END|];
      if HasPrefix(body, REQUIRE_ONCE + "('") then Some(Resource(REQUIRE_ONCE, body[|REQUIRE_ONCE| + 2..]))
      else if HasPrefix(body, OPCACHE_COMPILE_FILE + "('") then Some(Resource(OPCACHE_COMPILE_FILE, body[|OPCACHE_COMPILE_FILE| + 2..]))
      else None
  }

  /** The directive line determines the resource: parsing it gives the resource back. */
  lemma DirectiveRoundTrip(r: PreloadResource)
    ensures ParseDirective(Directive(r)) == Some(r)
  {
    var line := Directive(r);
    assert line[|line| - |DIRECTIVE_END|..] == DIRECTIVE_END;
    var body := line[..|line| - |DIRECTIVE_END|];
    assert body == r.kind + "('" + r.file;
    if r.kind == REQUIRE_ONCE {
      assert body[..|REQUIRE_ONCE| + 2] == REQUIRE_ONCE + "('";
      assert body[|REQUIRE_ONCE| + 2..] == r.file;
    } else {
      assert body[0] == 'o';
      assert !HasPrefix(body, REQUIRE_ONCE + "('");
      assert body[..|OPCACHE_COMPILE_FILE| + 2] == OPCACHE_COMPILE_FILE + "('";
      assert body[|OPCACHE_COMPILE_FILE| + 2..] == r.file;
    }
  }

  /** Distinct resources render as distinct lines. */
  lemma DirectiveInjective(a: PreloadResource, b: PreloadResource)
    requires Directive(a) == Directive(b)
    ensures a == b
  {
    DirectiveRoundTrip(a);
    DirectiveRoundTrip(b);
  }

  /** A directive starts with its type and holds its path verbatim. */
  lemma DirectiveShape(r: PreloadResource)
    ensures HasPrefix(Directive(r), r.GetType())
    ensures Text.Contains(Directive(r), r.GetFile())
  {
    var line := Directive(r);
    assert line == r.kind + ("('" + r.file + DIRECTIVE_END);
    assert line[..|r.kind|] == r.kind;
    assert line == (r.kind + "('") + r.file + DIRECTIVE_END;
    Text.ContainsInfix(r.kind + "('", r.file, DIRECTIVE_END);
  }

  /** The constructor's guard, as its tests exercise it. */
  lemma ConstructorExamples()
    ensures New("nope", "/tmp/test.txt") == Failure(InvalidArgument(INVALID_TYPE_MESSAGE))
    ensures New(REQUIRE_ONCE, "/tmp/test.txt").Success?
  {
  }
}
