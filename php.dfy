/**
 * The PHP values that console options and `Configure` entries can hold,
 * and the three PHP operations the resolution code applies to them:
 * `empty()`, the null-coalescing `??` and the `(string)` cast.
 */
module Php {

  datatype Value = Null | Bool(b: bool) | Str(s: string) | List(items: seq<string>)

  /** `empty($v)`. */
  predicate IsEmpty(v: Value) {
    match v
    case Null => true
    case Bool(b) => !b
    case Str(s) => s == "" || s == "0"
    case List(items) => items == []
  }

  /** `(bool)$v`, the truth test of `if ($v)`. */
  predicate Truthy(v: Value) {
    !IsEmpty(v)
  }

  /** `$a ?? $b`. */
  function Coalesce(a: Value, b: Value): (r: Value)
    ensures a != Null ==> r == a
    ensures a == Null ==> r == b
  {
    if a.Null? then b else a
  }

  /** `(string)$v`; an array converts to the text "Array". */
  function ToStr(v: Value): string {
    match v
    case Null => ""
    case Bool(b) => if b then "1" else ""
    case Str(s) => s
    case List(_) => "Array"
  }

  /** The parsed console options (`Arguments`). */
  datatype Arguments = Arguments(options: map<string, Value>) {
    /** `getOption($name)`: null when the option was not given. */
    function GetOption(name: string): Value {
      if name in options then options[name] else Null
    }

    /** `hasOption($name)`, which is `isset` on the option: false for null. */
    predicate HasOption(name: string) {
      GetOption(name) != Null
    }
  }

  /** The `PreloaderConfig` entries of `Configure`. */
  datatype Config = Config(entries: map<string, Value>) {
    /** `Configure::read('PreloaderConfig.' . $key)`: null when absent. */
    function Read(key: string): Value {
      if key in entries then entries[key] else Null
    }
  }

  /** The framework's path constants; the directory separator is "/". */
  datatype Env = Env(root: string, cake: string, app: string)

  const DS := "/"
}
