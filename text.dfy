/** The usual optional value: JavaScript's `undefined`/`null` and Python's `None`. */
module Optional {
  datatype Option<+T> = None | Some(value: T)
}

/**
 * The string primitives the parsers and the browser components rely on:
 * Python's `str.strip`/`str.split`/`str.upper`/`str.startswith`/`' '.join`
 * and JavaScript's `String.prototype.trim`/`toLowerCase`/`includes`.
 * Whitespace follows each language's own definition; letter case is ASCII.
 */
module Text {

  /** Python's `str.isspace`, which is also what `\s` matches in a `str` pattern. */
  predicate IsPySpace(c: char) {
    var n := c as int;
    n == 32 || 9 <= n <= 13 || 28 <= n <= 31 || n == 0x85 || n == 0xA0 || n == 0x1680
    || 0x2000 <= n <= 0x200A || n == 0x2028 || n == 0x2029 || n == 0x202F || n == 0x205F || n == 0x3000
  }

  /** ECMAScript WhiteSpace and LineTerminator: what `String.prototype.trim` removes. */
  predicate IsJsSpace(c: char) {
    var n := c as int;
    n == 32 || 9 <= n <= 13 || n == 0xA0 || n == 0x1680
    || 0x2000 <= n <= 0x200A || n == 0x2028 || n == 0x2029 || n == 0x202F || n == 0x205F || n == 0x3000 || n == 0xFEFF
  }

  /** `!s.trim()` in JavaScript: the string is empty once trimmed. */
  predicate IsBlank(s: string) {
    forall k :: 0 <= k < |s| ==> IsJsSpace(s[k])
  }

  predicate IsDigit(c: char) { '0' <= c <= '9' }

  predicate NoNewline(s: string) {
    forall k :: 0 <= k < |s| ==> s[k] != '\n'
  }

  /** Python's `str.lstrip()`: drops the leading whitespace and nothing else. */
  function StripStart(s: string): (r: string)
    ensures |r| <= |s|
  {
    if |s| > 0 && IsPySpace(s[0]) then StripStart(s[1..]) else s
  }

  /** Python's `str.rstrip()`: drops the trailing whitespace and nothing else. */
  function StripEnd(s: string): (r: string)
    ensures |r| <= |s|
  {
    if |s| > 0 && IsPySpace(s[|s| - 1]) then StripEnd(s[..|s| - 1]) else s
  }

  /** Python's `str.strip()`. */
  function Strip(s: string): string {
    StripEnd(StripStart(s))
  }

  /** `lstrip` keeps a suffix, removes only whitespace, and stops at the first non-whitespace character. */
  lemma {:induction false} StripStartShape(s: string)
    ensures StripStart(s) == s[|s| - |StripStart(s)|..]
    ensures forall k :: 0 <= k < |s| - |StripStart(s)| ==> IsPySpace(s[k])
    ensures StripStart(s) == [] || !IsPySpace(StripStart(s)[0])
    decreases |s|
  {
    if |s| > 0 && IsPySpace(s[0]) {
      StripStartShape(s[1..]);
      assert s[1..][|s| - 1 - |StripStart(s)|..] == s[|s| - |StripStart(s)|..];
      forall k | 0 < k < |s| - |StripStart(s)| ensures IsPySpace(s[k]) {
        assert s[k] == s[1..][k - 1];
      }
    }
  }

  /** `rstrip` keeps a prefix, removes only whitespace, and stops at the last non-whitespace character. */
  lemma {:induction false} StripEndShape(s: string)
    ensures StripEnd(s) == s[..|StripEnd(s)|]
    ensures forall k :: |StripEnd(s)| <= k < |s| ==> IsPySpace(s[k])
    ensures StripEnd(s) == [] || !IsPySpace(StripEnd(s)[|StripEnd(s)| - 1])
    decreases |s|
  {
    if |s| > 0 && IsPySpace(s[|s| - 1]) {
      StripEndShape(s[..|s| - 1]);
      assert s[..|s| - 1][..|StripEnd(s)|] == s[..|StripEnd(s)|];
    }
  }

  /** A stripped string is empty exactly when the input is all whitespace, and otherwise has no whitespace at either end. */
  lemma StripShape(s: string)
    ensures Strip(s) == [] <==> forall k :: 0 <= k < |s| ==> IsPySpace(s[k])
    ensures Strip(s) != [] ==> !IsPySpace(Strip(s)[0]) && !IsPySpace(Strip(s)[|Strip(s)| - 1])
  {
    var t := StripStart(s);
    StripStartShape(s);
    StripEndShape(t);
    var r := StripEnd(t);
    assert r != [] ==> r[0] == t[0];
    assert t != [] ==> !IsPySpace(t[0]);
    assert r == [] ==> t == [];
  }

  predicate StartsWith(s: string, prefix: string) {
    |prefix| <= |s| && s[..|prefix|] == prefix
  }

  /** JavaScript's `s.includes(p)` and Python's `p in s`: `p` occurs in `s` as a substring. */
  predicate Contains(s: string, p: string)
    decreases |s|
  {
    StartsWith(s, p) || (|s| > 0 && Contains(s[1..], p))
  }

  /** Whatever surrounds an occurrence, it is still found. */
  lemma {:induction false} ContainsInside(a: string, p: string, b: string)
    ensures Contains(a + p + b, p)
  {
    if a == [] {
      assert (a + p + b)[..|p|] == p;
    } else {
      assert (a + p + b)[1..] == a[1..] + p + b;
      ContainsInside(a[1..], p, b);
    }
  }

  /** An occurrence in a suffix is an occurrence in the whole string. */
  lemma {:induction false} ContainsSuffix(s: string, k: nat, p: string)
    requires k <= |s|
    requires Contains(s[k..], p)
    ensures Contains(s, p)
    decreases k
  {
    if k > 0 {
      assert s[1..][k - 1..] == s[k..];
      ContainsSuffix(s[1..], k - 1, p);
    }
  }

  function LowerChar(c: char): char {
    if 'A' <= c <= 'Z' then (c as int + 32) as char else c
  }

  function UpperChar(c: char): char {
    if 'a' <= c <= 'z' then (c as int - 32) as char else c
  }

  /** `toLowerCase()` / `lower()`, restricted to ASCII letters. */
  function Lower(s: string): string {
    seq(|s|, k requires 0 <= k < |s| => LowerChar(s[k]))
  }

  /** Python's `str.upper()`, restricted to ASCII letters. */
  function Upper(s: string): string {
    seq(|s|, k requires 0 <= k < |s| => UpperChar(s[k]))
  }

  /** A string is its own upper case exactly when it holds no lower-case letter. */
  lemma UpperFixedIff(s: string)
    ensures Upper(s) == s <==> forall k :: 0 <= k < |s| ==> !('a' <= s[k] <= 'z')
  {
    if Upper(s) == s {
      forall k | 0 <= k < |s| ensures !('a' <= s[k] <= 'z') {
        assert Upper(s)[k] == UpperChar(s[k]);
      }
    }
  }

  lemma LowerSlice(s: string, i: nat, j: nat)
    requires i <= j <= |s|
    ensures Lower(s)[i..j] == Lower(s[i..j])
  {
  }

  /** Number of maximal whitespace-free runs that follow whitespace (or the start, when `afterSpace`). */
  function WordsFrom(s: string, afterSpace: bool): nat
    decreases |s|
  {
    if s == [] then 0
    else (if afterSpace && !IsPySpace(s[0]) then 1 else 0) + WordsFrom(s[1..], IsPySpace(s[0]))
  }

  /** `len(s.split())` in Python: the number of whitespace-separated words. */
  function WordCount(s: string): nat {
    WordsFrom(s, true)
  }

  lemma {:induction false} NoSpaceNoNewWord(s: string)
    requires forall k :: 0 <= k < |s| ==> !IsPySpace(s[k])
    ensures WordsFrom(s, false) == 0
    decreases |s|
  {
    if s != [] { NoSpaceNoNewWord(s[1..]); }
  }

  lemma {:induction false} SomeWordAfter(s: string, k: nat, afterSpace: bool)
    requires k < |s| && !IsPySpace(s[k])
    requires afterSpace || exists j :: 0 <= j < k && IsPySpace(s[j])
    ensures WordsFrom(s, afterSpace) >= 1
    decreases |s|
  {
    if !(afterSpace && !IsPySpace(s[0])) {
      if IsPySpace(s[0]) {
        SomeWordAfter(s[1..], k - 1, true);
      } else {
        var j :| 0 <= j < k && IsPySpace(s[j]);
        assert j > 0;
        assert IsPySpace(s[1..][j - 1]);
        SomeWordAfter(s[1..], k - 1, false);
      }
    }
  }

  /**
   * For a stripped, non-empty line, `len(line.split()) == 1` says exactly that
   * the line holds no whitespace at all.
   */
  lemma OneWordIff(s: string)
    requires s != [] && !IsPySpace(s[0]) && !IsPySpace(s[|s| - 1])
    ensures WordCount(s) == 1 <==> forall k :: 0 <= k < |s| ==> !IsPySpace(s[k])
  {
    if forall k :: 0 <= k < |s| ==> !IsPySpace(s[k]) {
      NoSpaceNoNewWord(s[1..]);
    } else {
      var j :| 0 <= j < |s| && IsPySpace(s[j]);
      assert IsPySpace(s[1..][j - 1]);
      SomeWordAfter(s[1..], |s| - 2, false);
    }
  }

  /** Python's `' '.join(parts)`. */
  function JoinSpaces(parts: seq<string>): string {
    if parts == [] then []
    else if |parts| == 1 then parts[0]
    else JoinSpaces(parts[..|parts| - 1]) + " " + parts[|parts| - 1]
  }

  /** Joining non-empty parts yields the empty string only when there are no parts. */
  lemma {:induction false} JoinSpacesEmptyIff(parts: seq<string>)
    requires forall k :: 0 <= k < |parts| ==> parts[k] != []
    ensures JoinSpaces(parts) == [] <==> parts == []
  {
  }
}
