/**
 * The PHP string functions the core relies on: `strcasecmp`, `explode`,
 * `implode`, `str_replace` and substring search (`strstr`, and `preg_match`
 * on an alternation of literal paths). Strings are sequences of characters,
 * one character per byte of the PHP string.
 */
module Text {

  /** ASCII lower-casing of one byte, as PHP 8 does in `strcasecmp`. */
  function LowerChar(c: char): (r: char)
    ensures 'A' <= c <= 'Z' ==> 'a' <= r <= 'z'
    ensures !('A' <= c <= 'Z') ==> r == c
  {
    if 'A' <= c <= 'Z' then (c as int + 32) as char else c
  }

  function Lower(s: string): (r: string)
    ensures |r| == |s|
    ensures forall i :: 0 <= i < |s| ==> r[i] == LowerChar(s[i])
  {
    if s == [] then [] else [LowerChar(s[0])] + Lower(s[1..])
  }

  /** Ordinal three-way comparison: the first differing byte decides, then the length. */
  function Compare(a: string, b: string): (r: int)
    ensures -1 <= r <= 1
  {
    if a == [] && b == [] then 0
    else if a == [] then -1
    else if b == [] then 1
    else if a[0] < b[0] then -1
    else if a[0] > b[0] then 1
    else Compare(a[1..], b[1..])
  }

  lemma {:induction false} CompareZeroIff(a: string, b: string)
    ensures Compare(a, b) == 0 <==> a == b
  {
    if a != [] && b != [] && a[0] == b[0] {
      CompareZeroIff(a[1..], b[1..]);
      assert a == [a[0]] + a[1..] && b == [b[0]] + b[1..];
    }
  }

  lemma {:induction false} CompareAntisymmetric(a: string, b: string)
    ensures Compare(a, b) == -Compare(b, a)
  {
    if a != [] && b != [] && a[0] == b[0] {
      CompareAntisymmetric(a[1..], b[1..]);
    }
  }

  lemma {:induction false} CompareTransitive(a: string, b: string, c: string)
    requires Compare(a, b) <= 0 && Compare(b, c) <= 0
    ensures Compare(a, c) <= 0
  {
    if a != [] && b != [] && c != [] && a[0] == b[0] && b[0] == c[0] {
      CompareTransitive(a[1..], b[1..], c[1..]);
    }
  }

  /**
   * `strcasecmp` of PHP 8.2 and later: ordinal comparison of the ASCII
   * lower-cased strings, returning -1, 0 or 1.
   */
  function StrCaseCmp(a: string, b: string): (r: int)
    ensures -1 <= r <= 1
  {
    Compare(Lower(a), Lower(b))
  }

  lemma StrCaseCmpZeroIff(a: string, b: string)
    ensures StrCaseCmp(a, b) == 0 <==> Lower(a) == Lower(b)
  {
    CompareZeroIff(Lower(a), Lower(b));
  }

  lemma StrCaseCmpAntisymmetric(a: string, b: string)
    ensures StrCaseCmp(a, b) == -StrCaseCmp(b, a)
  {
    CompareAntisymmetric(Lower(a), Lower(b));
  }

  lemma StrCaseCmpTransitive(a: string, b: string, c: string)
    requires StrCaseCmp(a, b) <= 0 && StrCaseCmp(b, c) <= 0
    ensures StrCaseCmp(a, c) <= 0
  {
    CompareTransitive(Lower(a), Lower(b), Lower(c));
  }

  lemma StrCaseCmpStrictTransitive(a: string, b: string, c: string)
    requires StrCaseCmp(a, b) < 0 && StrCaseCmp(b, c) <= 0
    ensures StrCaseCmp(a, c) < 0
  {
    StrCaseCmpTransitive(a, b, c);
    StrCaseCmpZeroIff(a, c);
    StrCaseCmpAntisymmetric(b, c);
  }

  /** Two paths that differ only in letter case compare equal. */
  lemma {:induction false} StrCaseCmpIgnoresCase(a: string, b: string)
    requires |a| == |b|
    requires forall i :: 0 <= i < |a| ==> LowerChar(a[i]) == LowerChar(b[i])
    ensures StrCaseCmp(a, b) == 0
  {
    assert Lower(a) == Lower(b);
    StrCaseCmpZeroIff(a, b);
  }

  /** `sub` occurs in `s` at some position (`strstr`, or `preg_match` of a literal). */
  function Contains(s: string, sub: string): bool
    decreases |s|
  {
    if |s| < |sub| then false
    else s[..|sub|] == sub || Contains(s[1..], sub)
  }

  /** `sub` starts at position `i` of `s`. */
  predicate OccursAt(s: string, sub: string, i: int) {
    0 <= i && i + |sub| <= |s| && s[i..i + |sub|] == sub
  }

  lemma {:induction false} ContainsIff(s: string, sub: string)
    ensures Contains(s, sub) <==> exists i :: OccursAt(s, sub, i)
    decreases |s|
  {
    if |s| >= |sub| && s[..|sub|] != sub {
      ContainsIff(s[1..], sub);
      if Contains(s[1..], sub) {
        var i :| OccursAt(s[1..], sub, i);
        assert OccursAt(s, sub, i + 1);
      }
      if i :| OccursAt(s, sub, i) {
        assert i != 0;
        assert OccursAt(s[1..], sub, i - 1);
      }
    } else if |s| >= |sub| {
      assert OccursAt(s, sub, 0);
    }
  }

  lemma ContainsInfix(a: string, sub: string, b: string)
    ensures Contains(a + sub + b, sub)
  {
    var s := a + sub + b;
    assert OccursAt(s, sub, |a|);
    ContainsIff(s, sub);
  }

  /** `explode(sep, s)`: the pieces between the separators, at least one. */
  function Split(s: string, sep: char): (parts: seq<string>)
    ensures |parts| >= 1
  {
    if s == [] then [""]
    else
      var rest := Split(s[1..], sep);
      if s[0] == sep then [""] + rest else [[s[0]] + rest[0]] + rest[1..]
  }

  /** `implode(sep, parts)`. */
  function Join(parts: seq<string>, sep: char): string {
    if |parts| == 0 then ""
    else if |parts| == 1 then parts[0]
    else parts[0] + [sep] + Join(parts[1..], sep)
  }

  /** `implode('', parts)`. */
  function Concat(parts: seq<string>): string {
    if parts == [] then "" else Concat(parts[..|parts| - 1]) + parts[|parts| - 1]
  }

  /** Concatenation is associative (stated once, for any element type). */
  lemma AppendAssociative<T>(a: seq<T>, b: seq<T>, c: seq<T>)
    ensures a + (b + c) == (a + b) + c
  {
  }

  /** A non-empty sequence is its front followed by its last element. */
  lemma SplitLast<T>(s: seq<T>)
    requires s != []
    ensures s == s[..|s| - 1] + [s[|s| - 1]]
  {
  }

  /** The prefix of length `i + 1` is the prefix of length `i` and element `i`. */
  lemma TakeNext<T>(s: seq<T>, i: nat)
    requires i < |s|
    ensures s[..i + 1] == s[..i] + [s[i]]
  {
  }

  /** A sequence is what comes before position `k`, the element there, and what follows. */
  lemma SplitAround<T>(s: seq<T>, k: nat)
    requires k < |s|
    ensures s == s[..k] + [s[k]] + s[k + 1..]
  {
  }

  lemma ConcatSingle(x: string)
    ensures Concat([x]) == x
  {
    assert [x][..0] == [];
  }

  lemma {:induction false} ConcatAppend(a: seq<string>, b: seq<string>)
    ensures Concat(a + b) == Concat(a) + Concat(b)
    decreases |b|
  {
    if b != [] {
      var b' := b[..|b| - 1];
      assert a + b == (a + b') + [b[|b| - 1]];
      ConcatAppend(a, b');
    } else {
      assert a + b == a;
    }
  }

  /** Splitting and joining back on the same separator gives the input. */
  lemma {:induction false} SplitJoin(s: string, sep: char)
    ensures Join(Split(s, sep), sep) == s
    ensures forall p :: p in Split(s, sep) ==> sep !in p
  {
    if s != [] {
      SplitJoin(s[1..], sep);
      var rest := Split(s[1..], sep);
      if s[0] == sep {
        assert Split(s, sep) == [""] + rest;
        assert s == [sep] + s[1..];
      } else {
        var parts := Split(s, sep);
        assert parts == [[s[0]] + rest[0]] + rest[1..];
        assert rest == [rest[0]] + rest[1..];
        if |rest| == 1 {
          assert s == [s[0]] + rest[0];
        } else {
          assert Join(rest, sep) == rest[0] + [sep] + Join(rest[1..], sep);
          assert Join(parts, sep) == [s[0]] + rest[0] + [sep] + Join(rest[1..], sep);
        }
        forall p | p in parts ensures sep !in p {
          if p == [s[0]] + rest[0] {
            assert rest[0] in rest;
          } else {
            assert p in rest;
          }
        }
      }
    }
  }

  /** Joining separator-free pieces and splitting again gives the pieces back. */
  lemma {:induction false} JoinSplit(parts: seq<string>, sep: char)
    requires |parts| >= 1
    requires forall p :: p in parts ==> sep !in p
    ensures Split(Join(parts, sep), sep) == parts
  {
    if |parts| == 1 {
      SplitNoSep(parts[0], sep);
    } else {
      JoinSplit(parts[1..], sep);
      SplitPrefix(parts[0], Join(parts[1..], sep), sep);
      assert parts == [parts[0]] + parts[1..];
    }
  }

  lemma {:induction false} SplitNoSep(s: string, sep: char)
    requires sep !in s
    ensures Split(s, sep) == [s]
  {
    if s != [] {
      SplitNoSep(s[1..], sep);
      assert s == [s[0]] + s[1..];
    }
  }

  lemma {:induction false} SplitPrefix(p: string, t: string, sep: char)
    requires sep !in p
    ensures Split(p + [sep] + t, sep) == [p] + Split(t, sep)
  {
    if p == [] {
      assert p + [sep] + t == [sep] + t;
      assert ([sep] + t)[1..] == t;
    } else {
      var s := p + [sep] + t;
      assert s[1..] == p[1..] + [sep] + t;
      SplitPrefix(p[1..], t, sep);
      assert p == [p[0]] + p[1..];
    }
  }

  /**
   * `str_replace(search, rep, s)`: every non-overlapping occurrence of
   * `search`, scanning left to right, is replaced; an empty `search`
   * leaves `s` unchanged.
   */
  function Replace(s: string, search: string, rep: string): string
    decreases |s|
  {
    if search == [] || |s| < |search| then s
    else if s[..|search|] == search then rep + Replace(s[|search|..], search, rep)
    else [s[0]] + Replace(s[1..], search, rep)
  }

  lemma {:induction false} ReplaceAbsent(s: string, search: string, rep: string)
    requires !Contains(s, search)
    ensures Replace(s, search, rep) == s
    decreases |s|
  {
    if search != [] && |s| >= |search| {
      ReplaceAbsent(s[1..], search, rep);
      assert s == [s[0]] + s[1..];
    }
  }

  /**
   * Re-rooting a path: when the path starts with the old root and the rest
   * does not mention it, the result is the new root followed by the rest.
   */
  lemma ReplaceRoot(root: string, rest: string, base: string)
    requires root != []
    requires !Contains(rest, root)
    ensures Replace(root + rest, root, base) == base + rest
  {
    var s := root + rest;
    assert s[..|root|] == root;
    assert s[|root|..] == rest;
    ReplaceAbsent(rest, root, base);
  }
}
