/**
 * `Inflector::camelize` of the CakePHP framework, which is not part of this
 * model. It is assumed to split its argument on underscores and spaces, to
 * upper-case the first ASCII letter of every piece and to concatenate the
 * pieces.
 */
module Inflector {

  predicate IsDelimiter(c: char) {
    c == '_' || c == ' '
  }

  predicate IsLowerAscii(c: char) {
    'a' <= c <= 'z'
  }

  function UpperChar(c: char): (r: char)
    ensures IsLowerAscii(c) ==> 'A' <= r <= 'Z'
    ensures !IsLowerAscii(c) ==> r == c
  {
    if IsLowerAscii(c) then (c as int - 32) as char else c
  }

  /** Camelizes `s`, where `wordStart` says that `s` begins a new word. */
  function CamelizeFrom(s: string, wordStart: bool): string {
    if s == [] then []
    else if IsDelimiter(s[0]) then CamelizeFrom(s[1..], true)
    else [if wordStart then UpperChar(s[0]) else s[0]] + CamelizeFrom(s[1..], false)
  }

  function Camelize(s: string): string {
    CamelizeFrom(s, true)
  }

  function DelimiterCount(s: string): (n: nat)
    ensures n <= |s|
  {
    if s == [] then 0 else (if IsDelimiter(s[0]) then 1 else 0) + DelimiterCount(s[1..])
  }

  /** Camelizing drops exactly the delimiters. */
  lemma {:induction false} CamelizeLength(s: string, wordStart: bool)
    ensures |CamelizeFrom(s, wordStart)| == |s| - DelimiterCount(s)
  {
    if s != [] {
      CamelizeLength(s[1..], true);
      CamelizeLength(s[1..], false);
    }
  }

  lemma {:induction false} CamelizeInsideWord(s: string)
    requires DelimiterCount(s) == 0
    ensures CamelizeFrom(s, false) == s
  {
    if s != [] {
      CamelizeInsideWord(s[1..]);
      assert s == [s[0]] + s[1..];
    }
  }

  lemma {:induction false} NoDelimiterCount(s: string)
    ensures DelimiterCount(s) == 0 <==> forall i :: 0 <= i < |s| ==> !IsDelimiter(s[i])
  {
    if s != [] {
      NoDelimiterCount(s[1..]);
      assert forall i :: 1 <= i < |s| ==> s[i] == s[1..][i - 1];
    }
  }

  /**
   * A file name is its own camelized form iff it holds no underscore or
   * space and does not start with a lower-case ASCII letter.
   */
  lemma CamelizeFixedPointIff(s: string)
    ensures Camelize(s) == s <==>
      (forall i :: 0 <= i < |s| ==> !IsDelimiter(s[i])) && (s == [] || !IsLowerAscii(s[0]))
  {
    NoDelimiterCount(s);
    CamelizeLength(s, true);
    if DelimiterCount(s) == 0 && s != [] {
      NoDelimiterCount(s[1..]);
      CamelizeInsideWord(s[1..]);
      assert Camelize(s) == [UpperChar(s[0])] + s[1..];
      assert s == [s[0]] + s[1..];
      if IsLowerAscii(s[0]) {
        assert Camelize(s)[0] != s[0];
      }
    }
  }
}
