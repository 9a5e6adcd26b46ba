/**
 * The Comprehensive Rules text parser: a line-driven state machine that skips
 * the preamble up to `1. Game Concepts`, then sorts every line into a section
 * header, a rule header, a subrule, an `Example:` continuation or the start of
 * the glossary, and builds the sections -> rules -> subrules -> examples tree.
 *
 * The parser's `current_rule` is an alias of a rule dict that sits inside some
 * section's list (not necessarily the last section); here it is the index of
 * the section whose LAST rule is the current rule, which is always the case
 * because a rule becomes current exactly when it is appended.
 */
module RulesParser {
  import opened Optional
  import opened Text
  import opened RulesData

  /** The line where the rules proper begin. */
  const StartLine: string := "1. Game Concepts"
  const ExamplePrefix: string := "Example:"
  const NotePrefix: string := "Note:"

  predicate AllDigits(s: string) {
    forall k :: 0 <= k < |s| ==> IsDigit(s[k])
  }

  /*
   * The three header patterns, written as character predicates. Each one is
   * applied to a stripped line.
   */

  /**
   * What `\s+(.+)$` captures at the start of `s`: a non-empty whitespace run,
   * then a non-empty, newline-free rest, which is the group. On a stripped
   * line the rest never ends in whitespace, so the regex gives the whole
   * whitespace run to `\s+` and this is its only answer.
   */
  function HeaderTail(s: string): (r: Option<string>)
    ensures r.Some? ==> r.value != [] && !IsPySpace(r.value[0]) && NoNewline(r.value)
    ensures r.Some? ==> |r.value| < |s| && s[|s| - |r.value|..] == r.value
    ensures r.Some? ==> forall k :: 0 <= k < |s| - |r.value| ==> IsPySpace(s[k])
  {
    if |s| == 0 || !IsPySpace(s[0]) then None
    else
      var t := StripStart(s);
      StripStartShape(s);
      if t != [] && NoNewline(t) then Some(t) else None
  }

  /** `^(\d)\.\s+(.+)$`: a section header such as `1. Game Concepts`. */
  function MatchSectionHeader(line: string): (r: Option<(string, string)>)
    ensures r.Some? ==> |r.value.0| == 1 && IsDigit(r.value.0[0]) && r.value.1 != []
    ensures r.Some? ==> |line| >= 2 && line[..1] == r.value.0 && line[1] == '.'
    ensures r.Some? ==> HeaderLine(line, r.value.0, r.value.1)
  {
    if |line| >= 2 && IsDigit(line[0]) && line[1] == '.' then
      match HeaderTail(line[2..])
      case None => None
      case Some(t) => HeaderTailIff(line[2..], t); Some((line[..1], t))
    else None
  }

  /** `^(\d{3})\.\s+(.+)$`: a rule header such as `100. General`. */
  function MatchRuleHeader(line: string): (r: Option<(string, string)>)
    ensures r.Some? ==> |r.value.0| == 3 && AllDigits(r.value.0) && r.value.1 != []
    ensures r.Some? ==> |line| >= 4 && line[..3] == r.value.0 && line[3] == '.'
    ensures r.Some? ==> HeaderLine(line, r.value.0, r.value.1)
  {
    if |line| >= 4 && AllDigits(line[..3]) && line[3] == '.' then
      match HeaderTail(line[4..])
      case None => None
      case Some(t) => HeaderTailIff(line[4..], t); Some((line[..3], t))
    else None
  }

  /** End of the run of digits that starts at `i`. */
  function DigitRunEnd(s: string, i: nat): (j: nat)
    requires i <= |s|
    ensures i <= j <= |s|
    ensures forall k :: i <= k < j ==> IsDigit(s[k])
    ensures j < |s| ==> !IsDigit(s[j])
    decreases |s| - i
  {
    if i < |s| && IsDigit(s[i]) then DigitRunEnd(s, i + 1) else i
  }

  /** End of the run of letters `a`..`z` that starts at `i`. */
  function LetterRunEnd(s: string, i: nat): (j: nat)
    requires i <= |s|
    ensures i <= j <= |s|
    ensures forall k :: i <= k < j ==> 'a' <= s[k] <= 'z'
    ensures j < |s| ==> !('a' <= s[j] <= 'z')
    decreases |s| - i
  {
    if i < |s| && 'a' <= s[i] <= 'z' then LetterRunEnd(s, i + 1) else i
  }

  /**
   * `^(\d+\.\d+[a-z]*)\.\s+(.+)$`: a subrule such as `100.1a. Text`. Every
   * run is followed by a character the next element of the pattern cannot
   * start with, so the regex cannot succeed with a shorter run and taking
   * each run whole is exact.
   */
  function MatchSubruleHeader(line: string): (r: Option<(string, string)>)
    ensures r.Some? ==> r.value.1 != [] && 3 <= |r.value.0| && IsDigit(r.value.0[0])
    ensures r.Some? ==> '.' in r.value.0
    ensures r.Some? ==> var last := r.value.0[|r.value.0| - 1]; IsDigit(last) || 'a' <= last <= 'z'
  {
    match SubruleSplit(line)
    case None => None
    case Some(c) => SubruleDotInside(line, c); SubruleAt(line, c)
  }

  /** The number ends at the dot at `c`; the rest must be `\s+(.+)$`. */
  function SubruleAt(line: string, c: nat): Option<(string, string)>
    requires c < |line|
  {
    match HeaderTail(line[c + 1..])
    case None => None
    case Some(t) => Some((line[..c], t))
  }

  lemma SubruleDotInside(line: string, c: nat)
    requires SubruleSplit(line) == Some(c)
    ensures 3 <= c && '.' in line[..c] && IsDigit(line[..c][0])
    ensures var last := line[..c][c - 1]; IsDigit(last) || 'a' <= last <= 'z'
  {
    assert line[..c][DigitRunEnd(line, 0)] == '.';
  }

  /**
   * Where the subrule number of `line` ends: the number is taken as the
   * longest digit run, a dot, the longest digit run after it and the longest
   * letter run after that, and it must be followed by a dot.
   */
  function SubruleSplit(line: string): (r: Option<nat>)
    ensures r.Some? ==> 0 < DigitRunEnd(line, 0) < |line| && line[DigitRunEnd(line, 0)] == '.'
    ensures r.Some? ==> var b := DigitRunEnd(line, DigitRunEnd(line, 0) + 1);
      && DigitRunEnd(line, 0) + 1 < b <= r.value < |line|
      && line[r.value] == '.' && r.value == LetterRunEnd(line, b)
  {
    var a := DigitRunEnd(line, 0);
    if a == 0 || a >= |line| || line[a] != '.' then None
    else
      var b := DigitRunEnd(line, a + 1);
      if b == a + 1 then None
      else
        var c := LetterRunEnd(line, b);
        if c >= |line| || line[c] != '.' then None
        else Some(c)
  }


  /**
   * The first glossary entry: a single word that starts with no digit, is not
   * an `Example:` or `Note:` line and has no lower-case letter.
   */
  predicate IsGlossaryMarker(line: string) {
    && line != []
    && !IsDigit(line[0])
    && !StartsWith(line, ExamplePrefix)
    && !StartsWith(line, NotePrefix)
    && Upper(line) == line
    && WordCount(line) == 1
  }

  /**
   * On a stripped line the test comes down to: no leading digit, no lower-case
   * letter and no whitespace. The two prefix tests never decide anything,
   * since both prefixes contain lower-case letters.
   */
  lemma GlossaryMarkerIff(raw: string)
    requires Strip(raw) != []
    ensures var line := Strip(raw);
      IsGlossaryMarker(line) <==>
        !IsDigit(line[0]) && forall k :: 0 <= k < |line| ==> !('a' <= line[k] <= 'z') && !IsPySpace(line[k])
  {
    var line := Strip(raw);
    StripShape(raw);
    UpperFixedIff(line);
    OneWordIff(line);
    if |line| >= 2 && (StartsWith(line, ExamplePrefix) || StartsWith(line, NotePrefix)) {
      assert 'a' <= line[1] <= 'z';
    }
  }

  datatype LineKind =
    | Blank
    | GlossaryStart
    | SectionHeader(number: string, title: string)
    | RuleHeader(number: string, title: string)
    | SubruleHeader(number: string, text: string)
    | Other

  /** Which branch of the main loop a stripped line takes, tested in the loop's order. */
  function Classify(line: string, inSection: bool): (k: LineKind)
    ensures k.Blank? <==> line == []
    ensures k.GlossaryStart? ==> inSection && IsGlossaryMarker(line)
    ensures k.SectionHeader? ==> |k.number| == 1 && IsDigit(k.number[0]) && k.title != []
    ensures k.RuleHeader? ==> |k.number| == 3 && AllDigits(k.number) && k.title != []
    ensures k.SubruleHeader? ==> k.text != []
  {
    if line == [] then Blank
    else if IsGlossaryMarker(line) && inSection then GlossaryStart
    else match MatchSectionHeader(line)
      case Some((n, t)) => SectionHeader(n, t)
      case None => match MatchRuleHeader(line)
        case Some((n, t)) => RuleHeader(n, t)
        case None => match MatchSubruleHeader(line)
          case Some((n, t)) => SubruleHeader(n, t)
          case None => Other
  }

  /*
   * When a header is recognised: each matcher answers exactly the lines of
   * its pattern's shape, and `Classify` gives each shape its own branch.
   */

  /**
   * `rest` is what `\s+(.+)$` accepts with `t` as the group: a non-empty run
   * of whitespace, then `t`, which is non-empty, starts with no whitespace and
   * holds no line break.
   */
  predicate SpacedTail(rest: string, t: string) {
    && |t| < |rest| && rest[|rest| - |t|..] == t
    && (forall k :: 0 <= k < |rest| - |t| ==> IsPySpace(rest[k]))
    && t != [] && !IsPySpace(t[0]) && NoNewline(t)
  }

  /** A header line: the number `n`, a dot, whitespace, then the title or text `t`. */
  predicate HeaderLine(line: string, n: string, t: string) {
    |n| < |line| && line[..|n|] == n && line[|n|] == '.' && SpacedTail(line[|n| + 1..], t)
  }

  predicate AllLower(s: string) {
    forall k :: 0 <= k < |s| ==> 'a' <= s[k] <= 'z'
  }

  /** `\d+\.\d+[a-z]*`, with its dot at `a` and its letters starting at `b`. */
  predicate SubruleNumberAt(n: string, a: nat, b: nat) {
    && 0 < a && a + 1 < b <= |n|
    && AllDigits(n[..a]) && n[a] == '.' && AllDigits(n[a + 1..b]) && AllLower(n[b..])
  }

  lemma HeaderTailIff(rest: string, t: string)
    ensures HeaderTail(rest) == Some(t) <==> SpacedTail(rest, t)
  {
    if SpacedTail(rest, t) {
      StripStartShape(rest);
      assert StripStart(rest) == t;
    }
  }

  /** Writing a header out: number, dot, a whitespace run and a title always gives a header line. */
  lemma HeaderLineOf(n: string, w: string, t: string)
    requires w != [] && forall k :: 0 <= k < |w| ==> IsPySpace(w[k])
    requires t != [] && !IsPySpace(t[0]) && NoNewline(t)
    ensures HeaderLine(n + "." + w + t, n, t)
  {
    var line := n + "." + w + t;
    assert line[..|n|] == n;
    assert line[|n| + 1..] == w + t;
    assert (w + t)[|w|..] == t;
  }

  lemma MatchSectionHeaderIff(line: string, n: string, t: string)
    ensures MatchSectionHeader(line) == Some((n, t)) <==> |n| == 1 && IsDigit(n[0]) && HeaderLine(line, n, t)
  {
    if |line| >= 2 {
      HeaderTailIff(line[2..], t);
    }
  }

  lemma MatchRuleHeaderIff(line: string, n: string, t: string)
    ensures MatchRuleHeader(line) == Some((n, t)) <==> |n| == 3 && AllDigits(n) && HeaderLine(line, n, t)
  {
    if |line| >= 4 {
      HeaderTailIff(line[4..], t);
    }
  }

  lemma MatchSubruleHeaderIff(line: string, n: string, t: string)
    ensures MatchSubruleHeader(line) == Some((n, t)) <==> (exists a, b :: SubruleNumberAt(n, a, b)) && HeaderLine(line, n, t)
  {
    if MatchSubruleHeader(line) == Some((n, t)) {
      SubruleHeaderShape(line, n, t);
    }
    if (exists a, b :: SubruleNumberAt(n, a, b)) && HeaderLine(line, n, t) {
      var a, b :| SubruleNumberAt(n, a, b);
      SubruleHeaderOf(line, n, t, a, b);
    }
  }

  /** What a subrule match returns: a number of the pattern's shape, and the rest of a header line. */
  lemma SubruleHeaderShape(line: string, n: string, t: string)
    requires MatchSubruleHeader(line) == Some((n, t))
    ensures SubruleNumberAt(n, DigitRunEnd(line, 0), DigitRunEnd(line, DigitRunEnd(line, 0) + 1))
    ensures HeaderLine(line, n, t)
  {
    var c := MatchedSplit(line, n, t);
    SplitShape(line, c, t);
  }

  lemma MatchedSplit(line: string, n: string, t: string) returns (c: nat)
    requires MatchSubruleHeader(line) == Some((n, t))
    ensures SubruleSplit(line) == Some(c) && c < |line|
    ensures n == line[..c] && HeaderTail(line[c + 1..]) == Some(t)
  {
    MatchedHasSplit(line);
    c := SubruleSplit(line).value;
    MatchIsSubruleAt(line, c);
    assert SubruleAt(line, c) == Some((n, t));
  }

  lemma MatchedHasSplit(line: string)
    requires MatchSubruleHeader(line).Some?
    ensures SubruleSplit(line).Some?
  {
  }

  lemma SplitShape(line: string, c: nat, t: string)
    requires SubruleSplit(line) == Some(c) && HeaderTail(line[c + 1..]) == Some(t)
    ensures SubruleNumberAt(line[..c], DigitRunEnd(line, 0), DigitRunEnd(line, DigitRunEnd(line, 0) + 1))
    ensures HeaderLine(line, line[..c], t)
  {
    SubruleShapeAt(line, DigitRunEnd(line, 0), DigitRunEnd(line, DigitRunEnd(line, 0) + 1), c, t);
  }


  /** The pieces a subrule match has found, read back as the shape of its number and line. */
  lemma SubruleShapeAt(line: string, a: nat, b: nat, c: nat, t: string)
    requires 0 < a && a + 1 < b <= c < |line|
    requires forall k :: 0 <= k < a ==> IsDigit(line[k])
    requires line[a] == '.' && line[c] == '.'
    requires forall k :: a + 1 <= k < b ==> IsDigit(line[k])
    requires forall k :: b <= k < c ==> 'a' <= line[k] <= 'z'
    requires HeaderTail(line[c + 1..]) == Some(t)
    ensures SubruleNumberAt(line[..c], a, b)
    ensures HeaderLine(line, line[..c], t)
  {
    NumberShapeAt(line, a, b, c);
    HeaderTailIff(line[c + 1..], t);
  }

  lemma NumberShapeAt(line: string, a: nat, b: nat, c: nat)
    requires 0 < a && a + 1 < b <= c < |line|
    requires forall k :: 0 <= k < a ==> IsDigit(line[k])
    requires line[a] == '.'
    requires forall k :: a + 1 <= k < b ==> IsDigit(line[k])
    requires forall k :: b <= k < c ==> 'a' <= line[k] <= 'z'
    ensures SubruleNumberAt(line[..c], a, b)
  {
    var n := line[..c];
    assert AllDigits(n[..a]) by {
      forall k | 0 <= k < a ensures IsDigit(n[..a][k]) { assert n[..a][k] == line[k]; }
    }
    assert AllDigits(n[a + 1..b]) by {
      var m := n[a + 1..b];
      forall k | 0 <= k < |m| ensures IsDigit(m[k]) { assert m[k] == line[a + 1 + k]; }
    }
    assert AllLower(n[b..]) by {
      forall k | 0 <= k < c - b ensures 'a' <= n[b..][k] <= 'z' { assert n[b..][k] == line[b + k]; }
    }
  }


  lemma SubruleHeaderOf(line: string, n: string, t: string, a: nat, b: nat)
    requires SubruleNumberAt(n, a, b) && HeaderLine(line, n, t)
    ensures MatchSubruleHeader(line) == Some((n, t))
  {
    SplitOf(line, n, a, b);
    assert SpacedTail(line[|n| + 1..], t);
    HeaderTailIff(line[|n| + 1..], t);
    MatchSubruleHeaderAt(line, |n|, t);
  }

  lemma SplitOf(line: string, n: string, a: nat, b: nat)
    requires SubruleNumberAt(n, a, b) && |n| < |line| && line[..|n|] == n && line[|n|] == '.'
    ensures SubruleSplit(line) == Some(|n|)
  {
    assert forall k :: 0 <= k < |n| ==> line[k] == n[k] by {
      forall k | 0 <= k < |n| ensures line[k] == n[k] {
        assert line[..|n|][k] == line[k];
      }
    }
    RunsOf(line, n, a, b);
  }

  lemma MatchSubruleHeaderAt(line: string, c: nat, t: string)
    requires SubruleSplit(line) == Some(c) && HeaderTail(line[c + 1..]) == Some(t)
    ensures MatchSubruleHeader(line) == Some((line[..c], t))
  {
    MatchIsSubruleAt(line, c);
    assert SubruleAt(line, c) == Some((line[..c], t));
  }

  lemma MatchIsSubruleAt(line: string, c: nat)
    requires SubruleSplit(line) == Some(c)
    ensures c < |line| && MatchSubruleHeader(line) == SubruleAt(line, c)
  {
  }

  lemma RunsOf(line: string, n: string, a: nat, b: nat)
    requires SubruleNumberAt(n, a, b) && |n| < |line| && line[|n|] == '.'
    requires forall k :: 0 <= k < |n| ==> line[k] == n[k]
    ensures DigitRunEnd(line, 0) == a
    ensures DigitRunEnd(line, a + 1) == b
    ensures LetterRunEnd(line, b) == |n|
  {
    forall k | 0 <= k < a ensures IsDigit(line[k]) {
      assert n[..a][k] == n[k];
    }
    forall k | a + 1 <= k < b ensures IsDigit(line[k]) {
      assert n[a + 1..b][k - a - 1] == n[k];
    }
    forall k | b <= k < |n| ensures 'a' <= line[k] <= 'z' {
      assert n[b..][k - b] == n[k];
    }
    assert !IsDigit(line[a]);
    assert b < |n| ==> 'a' <= line[b] <= 'z';
    assert !IsDigit(line[b]);
  }

  /** A section header is classified as one, whatever the state, and only such a line is. */
  lemma ClassifySectionHeader(line: string, inSection: bool, n: string, t: string)
    ensures Classify(line, inSection) == SectionHeader(n, t) <==> |n| == 1 && IsDigit(n[0]) && HeaderLine(line, n, t)
  {
    MatchSectionHeaderIff(line, n, t);
  }

  /** A rule header is classified as one, whatever the state, and only such a line is. */
  lemma ClassifyRuleHeader(line: string, inSection: bool, n: string, t: string)
    ensures Classify(line, inSection) == RuleHeader(n, t) <==> |n| == 3 && AllDigits(n) && HeaderLine(line, n, t)
  {
    MatchRuleHeaderIff(line, n, t);
    if MatchRuleHeader(line) == Some((n, t)) {
      assert IsDigit(line[0]) && IsDigit(line[1]);
    }
  }

  /** A subrule header is classified as one, whatever the state, and only such a line is. */
  lemma ClassifySubruleHeader(line: string, inSection: bool, n: string, t: string)
    ensures Classify(line, inSection) == SubruleHeader(n, t) <==> (exists a, b :: SubruleNumberAt(n, a, b)) && HeaderLine(line, n, t)
  {
    MatchSubruleHeaderIff(line, n, t);
    if MatchSubruleHeader(line).Some? {
      assert SubruleSplit(line).Some?;
      SubruleLineIsNoOtherHeader(line);
    }
  }

  /** A header written out as number, dot, whitespace and title is classified as its kind, in any state. */
  lemma WrittenHeaderClassified(n: string, w: string, t: string, inSection: bool)
    requires w != [] && forall k :: 0 <= k < |w| ==> IsPySpace(w[k])
    requires t != [] && !IsPySpace(t[0]) && NoNewline(t)
    ensures |n| == 1 && IsDigit(n[0]) ==> Classify(n + "." + w + t, inSection) == SectionHeader(n, t)
    ensures |n| == 3 && AllDigits(n) ==> Classify(n + "." + w + t, inSection) == RuleHeader(n, t)
    ensures (exists a, b :: SubruleNumberAt(n, a, b)) ==> Classify(n + "." + w + t, inSection) == SubruleHeader(n, t)
  {
    HeaderLineOf(n, w, t);
    ClassifySectionHeader(n + "." + w + t, inSection, n, t);
    ClassifyRuleHeader(n + "." + w + t, inSection, n, t);
    ClassifySubruleHeader(n + "." + w + t, inSection, n, t);
  }

  /**
   * A subrule line has a digit where a section header (at 2) or a rule
   * header (at 4) would need whitespace, so neither of those matches it.
   */
  lemma SubruleLineIsNoOtherHeader(line: string)
    requires SubruleSplit(line).Some?
    ensures MatchSectionHeader(line).None? && MatchRuleHeader(line).None?
  {
    SubruleLineIsNoSection(line);
    SubruleLineIsNoRule(line);
  }

  lemma SubruleLineIsNoSection(line: string)
    requires SubruleSplit(line).Some?
    ensures MatchSectionHeader(line).None?
  {
    var a := DigitRunEnd(line, 0);
    if |line| >= 2 && line[1] == '.' {
      assert a == 1 && IsDigit(line[2]);
      assert line[2..][0] == line[2];
    }
  }

  lemma SubruleLineIsNoRule(line: string)
    requires SubruleSplit(line).Some?
    ensures MatchRuleHeader(line).None?
  {
    var a := DigitRunEnd(line, 0);
    if |line| >= 4 && AllDigits(line[..3]) && line[3] == '.' {
      assert IsDigit(line[0]) && IsDigit(line[1]) && IsDigit(line[2]) by {
        assert line[..3][0] == line[0] && line[..3][1] == line[1] && line[..3][2] == line[2];
      }
      assert a == 3 && IsDigit(line[4]);
      assert line[4..][0] == line[4];
    }
  }

  predicate IsExampleLine(line: string) {
    StartsWith(Strip(line), ExamplePrefix)
  }

  /** `next_line[8:].strip()`: the example with its `Example:` prefix removed. */
  function ExampleText(line: string): string
    requires IsExampleLine(line)
  {
    Strip(Strip(line)[8..])
  }

  /** First line at or after `i` that is not an `Example:` line (or the end). */
  function ExamplesEnd(lines: seq<string>, i: nat): (e: nat)
    requires i <= |lines|
    ensures i <= e <= |lines|
    decreases |lines| - i
  {
    if i < |lines| && IsExampleLine(lines[i]) then ExamplesEnd(lines, i + 1) else i
  }

  /** The examples that the lines from `i` on attach to the header just before them. */
  function Examples(lines: seq<string>, i: nat): seq<string>
    requires i <= |lines|
    decreases |lines| - i
  {
    if i < |lines| && IsExampleLine(lines[i]) then [ExampleText(lines[i])] + Examples(lines, i + 1) else []
  }

  /** `section_titles.get(n, f"Section {n}")`. */
  function DefaultTitle(n: string): (t: string)
    ensures t != []
    ensures n == "1" ==> t == "Game Concepts"
  {
    if n == "1" then "Game Concepts"
    else if n == "2" then "Parts of a Card"
    else if n == "3" then "Card Types"
    else if n == "4" then "Zones"
    else if n == "5" then "Turn Structure"
    else if n == "6" then "Spells, Abilities, and Effects"
    else if n == "7" then "Additional Rules"
    else if n == "8" then "Multiplayer Rules"
    else if n == "9" then "Casual Variants"
    else "Section " + n
  }

  /*
   * In-place appends through the parser's aliases, stated on the section list.
   */

  /** `target_section["rules"].append(rule)` for the section at index `k`. */
  function AppendRule(sections: seq<Section>, k: nat, r: Rule): seq<Section>
    requires k < |sections|
  {
    sections[k := sections[k].(rules := sections[k].rules + [r])]
  }

  /** Replaces the last rule of section `k`. */
  function UpdateLastRule(sections: seq<Section>, k: nat, r: Rule): seq<Section>
    requires k < |sections| && sections[k].rules != []
  {
    var rules := sections[k].rules;
    sections[k := sections[k].(rules := rules[|rules| - 1 := r])]
  }

  function LastRule(sections: seq<Section>, k: nat): Rule
    requires k < |sections| && sections[k].rules != []
  {
    sections[k].rules[|sections[k].rules| - 1]
  }

  /** `current_rule["examples"].append(x)`. */
  function AppendRuleExample(sections: seq<Section>, k: nat, x: string): seq<Section>
    requires k < |sections| && sections[k].rules != []
  {
    var r := LastRule(sections, k);
    UpdateLastRule(sections, k, r.(examples := r.examples + [x]))
  }

  /** `current_rule["subrules"].append(s)`. */
  function AppendSubrule(sections: seq<Section>, k: nat, s: Subrule): seq<Section>
    requires k < |sections| && sections[k].rules != []
  {
    var r := LastRule(sections, k);
    UpdateLastRule(sections, k, r.(subrules := r.subrules + [s]))
  }

  /** `subrule_data["examples"].append(x)`: the last subrule of the current rule. */
  function AppendSubruleExample(sections: seq<Section>, k: nat, x: string): seq<Section>
    requires k < |sections| && sections[k].rules != [] && LastRule(sections, k).subrules != []
  {
    var r := LastRule(sections, k);
    var last := |r.subrules| - 1;
    var s := r.subrules[last];
    UpdateLastRule(sections, k, r.(subrules := r.subrules[last := s.(examples := s.examples + [x])]))
  }

  /** The section list with a section for digit `d` ensured, and that section's index. */
  function Target(sections: seq<Section>, d: string): (r: (seq<Section>, nat))
    ensures r.1 < |r.0| && r.0[r.1].section == d
  {
    match FindSection(sections, d)
    case Some(k) => (sections, k)
    case None => (sections + [Section(d, DefaultTitle(d), [])], |sections|)
  }

  /*
   * The main loop as a state machine over the parser's local variables.
   */

  datatype Cursor = Cursor(sections: seq<Section>, currentSection: Option<nat>, currentRule: Option<nat>)

  predicate CursorOk(c: Cursor) {
    && (c.currentSection.Some? ==> c.currentSection.value < |c.sections|)
    && (c.currentRule.Some? ==> c.currentRule.value < |c.sections| && c.sections[c.currentRule.value].rules != [])
  }

  /** One pass of the loop body: the next index, the new variables, and whether it broke. */
  datatype Move = Move(next: nat, cursor: Cursor, stop: bool)

  /** Sections are never removed or renamed: `b` extends `a`. */
  predicate Extends(a: seq<Section>, b: seq<Section>) {
    |a| <= |b| && forall j :: 0 <= j < |a| ==> b[j].section == a[j].section && b[j].title == a[j].title
  }

  /** The loop body for line `i`, once the line has been classified as `kind`. */
  function Transition(lines: seq<string>, i: nat, c: Cursor, kind: LineKind): (m: Move)
    requires i < |lines| && CursorOk(c)
    requires kind.RuleHeader? ==> |kind.number| == 3
    ensures i < m.next <= |lines|
    ensures CursorOk(m.cursor)
    ensures c.currentSection.Some? ==> m.cursor.currentSection.Some?
    ensures Extends(c.sections, m.cursor.sections)
  {
    match kind
    case Blank => Move(i + 1, c, false)
    case GlossaryStart => Move(i + 1, c, true)
    case SectionHeader(n, t) =>
      Move(i + 1, Cursor(c.sections + [Section(n, t, [])], Some(|c.sections|), None), false)
    case RuleHeader(n, t) =>
      var (placed, k) := Target(c.sections, n[..1]);
      var rule := Rule(n, t, [], Examples(lines, i + 1));
      Move(ExamplesEnd(lines, i + 1), Cursor(AppendRule(placed, k, rule), Some(k), Some(k)), false)
    case SubruleHeader(n, t) =>
      if c.currentRule.None? then Move(i + 1, c, false)
      else
        var k := c.currentRule.value;
        var sub := Subrule(n, t, Examples(lines, i + 1));
        Move(ExamplesEnd(lines, i + 1), c.(sections := AppendSubrule(c.sections, k, sub)), false)
    case Other => Move(i + 1, c, false)
  }

  /** One pass of the main loop over line `i`. */
  function Step(lines: seq<string>, i: nat, c: Cursor): Move
    requires i < |lines| && CursorOk(c)
  {
    Transition(lines, i, c, Classify(Strip(lines[i]), c.currentSection.Some?))
  }

  /** The sections the loop returns when it starts at line `i` with cursor `c`. */
  function Run(lines: seq<string>, i: nat, c: Cursor): seq<Section>
    requires i <= |lines| && CursorOk(c)
    decreases |lines| - i
  {
    if i == |lines| then c.sections
    else
      var m := Step(lines, i, c);
      if m.stop then c.sections else Run(lines, m.next, m.cursor)
  }

  predicate IsStartLine(line: string) {
    Strip(line) == StartLine
  }

  /** Index of the first line at or after `i` that strips to `1. Game Concepts`. */
  function FindStart(lines: seq<string>, i: nat): (r: Option<nat>)
    requires i <= |lines|
    ensures r.Some? ==> i <= r.value < |lines| && IsStartLine(lines[r.value])
    ensures r.Some? ==> forall j :: i <= j < r.value ==> !IsStartLine(lines[j])
    ensures r.None? ==> forall j :: i <= j < |lines| ==> !IsStartLine(lines[j])
    decreases |lines| - i
  {
    if i == |lines| then None
    else if IsStartLine(lines[i]) then Some(i)
    else FindStart(lines, i + 1)
  }

  const Initial: Cursor := Cursor([], None, None)

  /** `parse_mtg_rules(...)["mtgrules"]`. */
  function ParseRules(lines: seq<string>): seq<Section> {
    match FindStart(lines, 0)
    case None => []
    case Some(s) => Run(lines, s, Initial)
  }

  /*
   * Small facts the parser's loops rely on.
   */

  lemma RuleExampleAppended(placed: seq<Section>, k: nat, number: string, title: string, xs: seq<string>, x: string)
    requires k < |placed|
    ensures AppendRule(placed, k, Rule(number, title, [], xs)) [k].rules != []
    ensures AppendRuleExample(AppendRule(placed, k, Rule(number, title, [], xs)), k, x)
         == AppendRule(placed, k, Rule(number, title, [], xs + [x]))
  {
    var rules := placed[k].rules;
    assert (rules + [Rule(number, title, [], xs)])[|rules| := Rule(number, title, [], xs + [x])]
        == rules + [Rule(number, title, [], xs + [x])];
  }

  lemma SubruleExampleAppended(sections: seq<Section>, k: nat, number: string, text: string, xs: seq<string>, x: string)
    requires k < |sections| && sections[k].rules != []
    ensures var s := AppendSubrule(sections, k, Subrule(number, text, xs));
      k < |s| && s[k].rules != [] && LastRule(s, k).subrules != []
    ensures AppendSubruleExample(AppendSubrule(sections, k, Subrule(number, text, xs)), k, x)
         == AppendSubrule(sections, k, Subrule(number, text, xs + [x]))
  {
    var r := LastRule(sections, k);
    var subs := r.subrules;
    assert (subs + [Subrule(number, text, xs)])[|subs| := Subrule(number, text, xs + [x])]
        == subs + [Subrule(number, text, xs + [x])];
    var rules := sections[k].rules;
    var last := |rules| - 1;
    assert rules[last := r.(subrules := subs + [Subrule(number, text, xs)])][last := r.(subrules := subs + [Subrule(number, text, xs + [x])])]
        == rules[last := r.(subrules := subs + [Subrule(number, text, xs + [x])])];
  }

  /*
   * The parser itself.
   */

  lemma RunUnfold(lines: seq<string>, i: nat, c: Cursor)
    requires i < |lines| && CursorOk(c)
    ensures Step(lines, i, c).stop ==> Run(lines, i, c) == c.sections
    ensures !Step(lines, i, c).stop ==> Run(lines, i, c) == Run(lines, Step(lines, i, c).next, Step(lines, i, c).cursor)
  {
  }

  method ParseMtgRules(lines: seq<string>) returns (sections: seq<Section>)
    ensures sections == ParseRules(lines)
  {
    var rulesStart: Option<nat> := None;
    var i := 0;
    while i < |lines|
      invariant i <= |lines|
      invariant rulesStart.None?
      invariant forall j :: 0 <= j < i ==> !IsStartLine(lines[j])
    {
      if IsStartLine(lines[i]) {
        rulesStart := Some(i);
        break;
      }
      i := i + 1;
    }
    assert rulesStart == FindStart(lines, 0);
    if rulesStart.None? {
      return [];
    }

    sections := [];
    var currentSection: Option<nat> := None;
    var currentRule: Option<nat> := None;
    i := rulesStart.value;
    while i < |lines|
      invariant i <= |lines|
      invariant CursorOk(Cursor(sections, currentSection, currentRule))
      invariant Run(lines, i, Cursor(sections, currentSection, currentRule)) == ParseRules(lines)
      decreases |lines| - i
    {
      ghost var c := Cursor(sections, currentSection, currentRule);
      var kind := Classify(Strip(lines[i]), currentSection.Some?);
      ghost var m := Transition(lines, i, c, kind);
      assert m == Step(lines, i, c);
      RunUnfold(lines, i, c);
      if kind.Blank? {
        i := i + 1;
      } else if kind.GlossaryStart? {
        break;
      } else if kind.SectionHeader? {
        sections := sections + [Section(kind.number, kind.title, [])];
        currentSection := Some(|sections| - 1);
        currentRule := None;
        i := i + 1;
      } else if kind.RuleHeader? {
        var k;
        sections, k, i := AddRule(lines, i, sections, kind.number, kind.title);
        currentRule := Some(k);
        currentSection := Some(k);
      } else if kind.SubruleHeader? && currentRule.Some? {
        sections, i := AddSubrule(lines, i, sections, currentRule.value, kind.number, kind.text);
      } else {
        i := i + 1;
      }
      assert i == m.next && Cursor(sections, currentSection, currentRule) == m.cursor;
    }
  }

  /** The search for the first section numbered `d`. */
  method LocateSection(sections: seq<Section>, d: string) returns (target: Option<nat>)
    ensures target == FindSection(sections, d)
  {
    target := None;
    var j := 0;
    while j < |sections|
      invariant j <= |sections|
      invariant target.None?
      invariant forall q :: 0 <= q < j ==> sections[q].section != d
    {
      if sections[j].section == d {
        target := Some(j);
        break;
      }
      j := j + 1;
    }
  }

  /** A rule header: find or create its section, append the rule, then read its examples. */
  method AddRule(lines: seq<string>, i: nat, sections: seq<Section>, number: string, title: string)
    returns (updated: seq<Section>, k: nat, next: nat)
    requires i < |lines| && |number| == 3
    ensures k == Target(sections, number[..1]).1
    ensures updated == AppendRule(Target(sections, number[..1]).0, k, Rule(number, title, [], Examples(lines, i + 1)))
    ensures next == ExamplesEnd(lines, i + 1)
  {
    var d := number[..1];
    var target := LocateSection(sections, d);
    updated := sections;
    if target.None? {
      updated := updated + [Section(d, DefaultTitle(d), [])];
      k := |updated| - 1;
    } else {
      k := target.value;
    }
    assert (updated, k) == Target(sections, d);
    updated, next := AppendRuleWithExamples(lines, i, updated, k, number, title);
  }

  /** `target_section["rules"].append(rule)`, then the loop that reads the rule's examples into it. */
  method AppendRuleWithExamples(lines: seq<string>, i: nat, placed: seq<Section>, k: nat, number: string, title: string)
    returns (updated: seq<Section>, next: nat)
    requires i < |lines| && k < |placed|
    ensures updated == AppendRule(placed, k, Rule(number, title, [], Examples(lines, i + 1)))
    ensures next == ExamplesEnd(lines, i + 1)
  {
    updated := AppendRule(placed, k, Rule(number, title, [], []));
    next := i + 1;
    ghost var xs: seq<string> := [];
    while next < |lines| && IsExampleLine(lines[next])
      invariant i + 1 <= next <= |lines|
      invariant xs + Examples(lines, next) == Examples(lines, i + 1)
      invariant ExamplesEnd(lines, next) == ExamplesEnd(lines, i + 1)
      invariant updated == AppendRule(placed, k, Rule(number, title, [], xs))
      decreases |lines| - next
    {
      var x := ExampleText(lines[next]);
      RuleExampleAppended(placed, k, number, title, xs, x);
      updated := AppendRuleExample(updated, k, x);
      assert xs + Examples(lines, next) == (xs + [x]) + Examples(lines, next + 1);
      xs := xs + [x];
      next := next + 1;
    }
    assert Examples(lines, next) == [] && ExamplesEnd(lines, next) == next;
    assert xs == Examples(lines, i + 1);
  }

  /** A subrule line while a rule is current: append it, then read its examples. */
  method AddSubrule(lines: seq<string>, i: nat, sections: seq<Section>, k: nat, number: string, text: string)
    returns (updated: seq<Section>, next: nat)
    requires i < |lines| && k < |sections| && sections[k].rules != []
    ensures updated == AppendSubrule(sections, k, Subrule(number, text, Examples(lines, i + 1)))
    ensures next == ExamplesEnd(lines, i + 1)
  {
    updated := AppendSubrule(sections, k, Subrule(number, text, []));
    next := i + 1;
    ghost var xs: seq<string> := [];
    while next < |lines| && IsExampleLine(lines[next])
      invariant i + 1 <= next <= |lines|
      invariant xs + Examples(lines, next) == Examples(lines, i + 1)
      invariant ExamplesEnd(lines, next) == ExamplesEnd(lines, i + 1)
      invariant updated == AppendSubrule(sections, k, Subrule(number, text, xs))
      decreases |lines| - next
    {
      var x := ExampleText(lines[next]);
      SubruleExampleAppended(sections, k, number, text, xs, x);
      updated := AppendSubruleExample(updated, k, x);
      assert xs + Examples(lines, next) == (xs + [x]) + Examples(lines, next + 1);
      xs := xs + [x];
      next := next + 1;
    }
    assert Examples(lines, next) == [] && ExamplesEnd(lines, next) == next;
    assert xs == Examples(lines, i + 1);
  }

  /*
   * What the parser promises about its output.
   */

  /** The examples after a header are exactly the maximal run of `Example:` lines, in order, each with its prefix removed. */
  lemma {:induction false} ExamplesShape(lines: seq<string>, i: nat)
    requires i <= |lines|
    ensures |Examples(lines, i)| == ExamplesEnd(lines, i) - i
    ensures forall k :: i <= k < ExamplesEnd(lines, i) ==> IsExampleLine(lines[k])
    ensures forall k :: 0 <= k < ExamplesEnd(lines, i) - i ==> Examples(lines, i)[k] == ExampleText(lines[i + k])
    ensures ExamplesEnd(lines, i) < |lines| ==> !IsExampleLine(lines[ExamplesEnd(lines, i)])
    decreases |lines| - i
  {
    if i < |lines| && IsExampleLine(lines[i]) {
      ExamplesShape(lines, i + 1);
      var xs := Examples(lines, i);
      assert xs == [ExampleText(lines[i])] + Examples(lines, i + 1);
      forall k | 0 <= k < ExamplesEnd(lines, i) - i ensures xs[k] == ExampleText(lines[i + k]) {
        if k > 0 {
          assert xs[k] == Examples(lines, i + 1)[k - 1];
        }
      }
    }
  }

  /** A rule as the parser files it under the section numbered `d`. */
  predicate RuleFiled(r: Rule, d: string) {
    && |r.rule| == 3 && AllDigits(r.rule) && r.rule[..1] == d && r.title != []
    && forall q :: 0 <= q < |r.subrules| ==> r.subrules[q].text != []
  }

  /**
   * Section `j` has a one-digit number and a title, every rule in it starts
   * with that digit, and if it holds any rule it is the first section with
   * that number (later sections with the same number stay empty).
   */
  predicate SectionFiled(sections: seq<Section>, j: nat)
    requires j < |sections|
  {
    var s := sections[j];
    && |s.section| == 1 && IsDigit(s.section[0]) && s.title != []
    && (s.rules != [] ==> FindSection(sections, s.section) == Some(j))
    && forall q :: 0 <= q < |s.rules| ==> RuleFiled(s.rules[q], s.section)
  }

  predicate WellFormed(sections: seq<Section>) {
    forall j :: 0 <= j < |sections| ==> SectionFiled(sections, j)
  }

  predicate SameNames(a: seq<Section>, b: seq<Section>) {
    |a| == |b| && forall j :: 0 <= j < |a| ==> a[j].section == b[j].section
  }

  /** The section lookup depends on the section numbers only. */
  lemma {:induction false} FindSectionByNames(a: seq<Section>, b: seq<Section>, num: string)
    requires SameNames(a, b)
    ensures FindSection(a, num) == FindSection(b, num)
  {
    if a != [] && a[0].section != num {
      assert SameNames(a[1..], b[1..]) by {
        forall j | 0 <= j < |a| - 1 ensures a[1..][j].section == b[1..][j].section {
          assert a[1..][j] == a[j + 1] && b[1..][j] == b[j + 1];
        }
      }
      FindSectionByNames(a[1..], b[1..], num);
    }
  }

  /** `r` is the index of the first section numbered `num`, or None when there is none. */
  predicate FirstWith(a: seq<Section>, num: string, r: Option<nat>) {
    match r
    case Some(x) => x < |a| && a[x].section == num && forall j :: 0 <= j < x ==> a[j].section != num
    case None => forall j :: 0 <= j < |a| ==> a[j].section != num
  }

  /** The lookup's answer is the only one that fits its description. */
  lemma FindSectionUnique(a: seq<Section>, num: string, r: Option<nat>)
    requires FirstWith(a, num, r)
    ensures FindSection(a, num) == r
  {
  }

  /** Appending a section does not change which earlier section a lookup finds. */
  lemma FindSectionAppend(a: seq<Section>, s: Section, num: string)
    ensures FindSection(a, num).Some? ==> FindSection(a + [s], num) == FindSection(a, num)
    ensures FindSection(a, num).None? && s.section == num ==> FindSection(a + [s], num) == Some(|a|)
  {
    var b := a + [s];
    var f := FindSection(a, num);
    if f.Some? {
      assert forall j :: 0 <= j <= f.value ==> b[j] == a[j];
      FindSectionUnique(b, num, f);
    } else if s.section == num {
      assert forall j :: 0 <= j < |a| ==> b[j] == a[j];
      FindSectionUnique(b, num, Some(|a|));
    }
  }

  /** A section stays filed when the list changes in a way that keeps every number. */
  lemma KeepFiled(a: seq<Section>, b: seq<Section>, j: nat)
    requires SameNames(a, b) && j < |a| && SectionFiled(a, j)
    requires b[j].title == a[j].title
    requires b[j].rules != [] ==> a[j].rules != []
    requires forall q :: 0 <= q < |b[j].rules| ==> RuleFiled(b[j].rules[q], b[j].section)
    ensures SectionFiled(b, j)
  {
    FindSectionByNames(a, b, a[j].section);
  }

  lemma SectionHeaderKeepsWellFormed(sections: seq<Section>, n: string, t: string)
    requires WellFormed(sections)
    requires |n| == 1 && IsDigit(n[0]) && t != []
    ensures WellFormed(sections + [Section(n, t, [])])
  {
    var b := sections + [Section(n, t, [])];
    forall j | 0 <= j < |b| ensures SectionFiled(b, j) {
      if j < |sections| {
        assert b[j] == sections[j];
        assert SectionFiled(sections, j);
        FindSectionAppend(sections, Section(n, t, []), sections[j].section);
      }
    }
  }

  /** Placing a rule: the target section exists, is the first with the digit, and the list stays well-formed. */
  lemma TargetWellFormed(sections: seq<Section>, d: string)
    requires WellFormed(sections) && |d| == 1 && IsDigit(d[0])
    ensures WellFormed(Target(sections, d).0)
    ensures FindSection(Target(sections, d).0, d) == Some(Target(sections, d).1)
  {
    if FindSection(sections, d).None? {
      SectionHeaderKeepsWellFormed(sections, d, DefaultTitle(d));
      FindSectionAppend(sections, Section(d, DefaultTitle(d), []), d);
    }
  }

  lemma RuleHeaderKeepsWellFormed(sections: seq<Section>, r: Rule)
    requires WellFormed(sections)
    requires |r.rule| == 3 && RuleFiled(r, r.rule[..1])
    ensures WellFormed(AppendRule(Target(sections, r.rule[..1]).0, Target(sections, r.rule[..1]).1, r))
  {
    var d := r.rule[..1];
    assert IsDigit(d[0]) by { assert d[0] == r.rule[0]; }
    TargetWellFormed(sections, d);
    var placed := Target(sections, d).0;
    var k := Target(sections, d).1;
    var b := AppendRule(placed, k, r);
    assert SameNames(placed, b);
    forall j | 0 <= j < |b| ensures SectionFiled(b, j) {
      assert SectionFiled(placed, j);
      if j == k {
        forall q | 0 <= q < |b[k].rules| ensures RuleFiled(b[k].rules[q], b[k].section) {
          if q < |placed[k].rules| {
            assert b[k].rules[q] == placed[k].rules[q];
          }
        }
        FindSectionByNames(placed, b, d);
      } else {
        assert b[j] == placed[j];
        KeepFiled(placed, b, j);
      }
    }
  }

  /** Appending a subrule with non-empty text to a filed rule keeps it filed. */
  lemma SubruleKeepsRuleFiled(r: Rule, d: string, sub: Subrule)
    requires RuleFiled(r, d) && sub.text != []
    ensures RuleFiled(r.(subrules := r.subrules + [sub]), d)
  {
    var subs := r.subrules + [sub];
    forall p | 0 <= p < |subs| ensures subs[p].text != [] {
      if p < |r.subrules| {
        assert subs[p] == r.subrules[p];
      }
    }
  }

  lemma SubruleKeepsWellFormed(sections: seq<Section>, k: nat, sub: Subrule)
    requires WellFormed(sections) && k < |sections| && sections[k].rules != []
    requires sub.text != []
    ensures WellFormed(AppendSubrule(sections, k, sub))
  {
    var b := AppendSubrule(sections, k, sub);
    var rules := sections[k].rules;
    var last := |rules| - 1;
    assert SameNames(sections, b);
    assert SectionFiled(sections, k);
    forall j | 0 <= j < |b| ensures SectionFiled(b, j) {
      assert SectionFiled(sections, j);
      if j == k {
        forall q | 0 <= q < |b[k].rules| ensures RuleFiled(b[k].rules[q], b[k].section) {
          assert RuleFiled(rules[q], sections[k].section);
          if q == last {
            SubruleKeepsRuleFiled(rules[last], sections[k].section, sub);
          } else {
            assert b[k].rules[q] == rules[q];
          }
        }
      } else {
        assert b[j] == sections[j];
      }
      KeepFiled(sections, b, j);
    }
  }

  /** One pass of the loop keeps the section list well-formed. */
  lemma StepKeepsWellFormed(lines: seq<string>, i: nat, c: Cursor)
    requires i < |lines| && CursorOk(c) && WellFormed(c.sections)
    ensures WellFormed(Step(lines, i, c).cursor.sections)
  {
    var kind := Classify(Strip(lines[i]), c.currentSection.Some?);
    match kind
    case SectionHeader(n, t) =>
      SectionHeaderKeepsWellFormed(c.sections, n, t);
    case RuleHeader(n, t) =>
      var r := Rule(n, t, [], Examples(lines, i + 1));
      assert r.rule[..1] == n[..1];
      RuleHeaderKeepsWellFormed(c.sections, r);
    case SubruleHeader(n, t) =>
      if c.currentRule.Some? {
        SubruleKeepsWellFormed(c.sections, c.currentRule.value, Subrule(n, t, Examples(lines, i + 1)));
      }
    case _ =>
  }

  lemma {:induction false} RunKeepsWellFormed(lines: seq<string>, i: nat, c: Cursor)
    requires i <= |lines| && CursorOk(c) && WellFormed(c.sections)
    ensures WellFormed(Run(lines, i, c))
    decreases |lines| - i
  {
    if i < |lines| {
      var m := Step(lines, i, c);
      StepKeepsWellFormed(lines, i, c);
      if !m.stop {
        RunKeepsWellFormed(lines, m.next, m.cursor);
      }
    }
  }

  /**
   * Every section of the parsed rules has a one-digit number and a title;
   * every rule has a three-digit number whose first digit is its section's
   * number and sits in the first section with that number; every rule title
   * and subrule text is non-empty.
   */
  lemma ParsedRulesWellFormed(lines: seq<string>)
    ensures WellFormed(ParseRules(lines))
  {
    if FindStart(lines, 0).Some? {
      RunKeepsWellFormed(lines, FindStart(lines, 0).value, Initial);
    }
  }

  /** `1. Game Concepts` opens section 1 with its own title. */
  lemma StartLineOpensSectionOne(inSection: bool)
    ensures Classify(StartLine, inSection) == SectionHeader("1", "Game Concepts")
  {
    var tail := StartLine[2..];
    assert tail == " Game Concepts";
    assert tail[1..] == "Game Concepts";
    assert StripStart(tail) == "Game Concepts";
    assert HeaderTail(tail) == Some("Game Concepts");
    assert StartLine[..1] == "1";
    assert !IsGlossaryMarker(StartLine) by {
      assert IsDigit(StartLine[0]);
    }
  }

  /** Sections are only ever added after the ones already there, which keep their numbers and titles. */
  lemma {:induction false} RunExtends(lines: seq<string>, i: nat, c: Cursor)
    requires i <= |lines| && CursorOk(c)
    ensures Extends(c.sections, Run(lines, i, c))
    decreases |lines| - i
  {
    if i < |lines| {
      var m := Step(lines, i, c);
      if !m.stop {
        RunExtends(lines, m.next, m.cursor);
      }
    }
  }

  /** From the start line on, the first section is section 1, "Game Concepts". */
  lemma RunFromStart(lines: seq<string>, s: nat)
    requires s < |lines| && IsStartLine(lines[s])
    ensures Step(lines, s, Initial) == Move(s + 1, Cursor([Section("1", "Game Concepts", [])], Some(0), None), false)
    ensures Run(lines, s, Initial) == Run(lines, s + 1, Step(lines, s, Initial).cursor)
  {
    StartLineOpensSectionOne(false);
    RunUnfold(lines, s, Initial);
  }

  /**
   * Without a line that strips to `1. Game Concepts` there are no rules;
   * with one, the first section is section 1, "Game Concepts".
   */
  lemma NoStartNoRules(lines: seq<string>)
    ensures ParseRules(lines) == [] <==> forall j :: 0 <= j < |lines| ==> !IsStartLine(lines[j])
    ensures ParseRules(lines) != [] ==> ParseRules(lines)[0].section == "1" && ParseRules(lines)[0].title == "Game Concepts"
  {
    match FindStart(lines, 0)
    case None =>
    case Some(s) =>
      RunFromStart(lines, s);
      var c := Step(lines, s, Initial).cursor;
      RunExtends(lines, s + 1, c);
  }

  /** An `Example:` run that ends inside `pre` ends at the same place, with the same examples, once more lines follow a non-example line. */
  lemma {:induction false} ExamplesLocal(pre: seq<string>, rest: seq<string>, i: nat)
    requires i <= |pre| && rest != [] && !IsExampleLine(rest[0])
    ensures ExamplesEnd(pre + rest, i) == ExamplesEnd(pre, i)
    ensures Examples(pre + rest, i) == Examples(pre, i)
    decreases |pre| - i
  {
    var lines := pre + rest;
    assert lines[i] == if i < |pre| then pre[i] else rest[0];
    if i < |pre| {
      ExamplesLocal(pre, rest, i + 1);
    }
  }

  /** A line of `pre` is handled the same way whatever follows `pre`, provided a non-example line comes next. */
  lemma StepLocal(pre: seq<string>, rest: seq<string>, i: nat, c: Cursor)
    requires i < |pre| && CursorOk(c) && rest != [] && !IsExampleLine(rest[0])
    ensures Step(pre + rest, i, c) == Step(pre, i, c)
  {
    assert (pre + rest)[i] == pre[i];
    ExamplesLocal(pre, rest, i + 1);
  }

  /** Once a section exists, the loop stops at a glossary marker and nothing after it matters. */
  lemma {:induction false} RunStopsAtMarker(pre: seq<string>, m: string, post: seq<string>, i: nat, c: Cursor)
    requires i <= |pre| && CursorOk(c) && c.currentSection.Some?
    requires IsGlossaryMarker(Strip(m))
    ensures Run(pre + [m] + post, i, c) == Run(pre, i, c)
    decreases |pre| - i
  {
    var lines := pre + [m] + post;
    assert lines == pre + ([m] + post);
    if i == |pre| {
      assert lines[i] == m;
      RunUnfold(lines, i, c);
    } else {
      StepLocal(pre, [m] + post, i, c);
      RunUnfold(lines, i, c);
      RunUnfold(pre, i, c);
      var mv := Step(pre, i, c);
      if !mv.stop {
        RunStopsAtMarker(pre, m, post, mv.next, mv.cursor);
      }
    }
  }

  /** The first start line of `pre` is the first start line of any extension of `pre`. */
  lemma {:induction false} FindStartPrefix(pre: seq<string>, rest: seq<string>, i: nat)
    requires i <= |pre| && FindStart(pre, i).Some?
    ensures FindStart(pre + rest, i) == FindStart(pre, i)
    decreases |pre| - i
  {
    assert (pre + rest)[i] == pre[i];
    if !IsStartLine(pre[i]) {
      FindStartPrefix(pre, rest, i + 1);
    }
  }

  /**
   * After the rules have started, a single upper-case word (the first
   * glossary entry) ends them: the lines from it on change nothing.
   */
  lemma GlossaryMarkerEndsRules(pre: seq<string>, m: string, post: seq<string>)
    requires FindStart(pre, 0).Some?
    requires IsGlossaryMarker(Strip(m))
    ensures ParseRules(pre + [m] + post) == ParseRules(pre)
  {
    var lines := pre + [m] + post;
    assert lines == pre + ([m] + post);
    FindStartPrefix(pre, [m] + post, 0);
    var s := FindStart(pre, 0).value;
    assert lines[s] == pre[s];
    RunFromStart(lines, s);
    RunFromStart(pre, s);
    RunStopsAtMarker(pre, m, post, s + 1, Step(pre, s, Initial).cursor);
  }

  /**
   * A rule header goes to the first section numbered with the rule's first
   * digit; when there is none, a section with the title from the fixed table
   * is appended for it. Either way the rule carries the examples that follow
   * it and no subrules, and becomes the current rule.
   */
  lemma RuleHeaderFiling(lines: seq<string>, i: nat, c: Cursor, n: string, t: string)
    requires i < |lines| && CursorOk(c)
    requires Classify(Strip(lines[i]), c.currentSection.Some?) == RuleHeader(n, t)
    ensures var m := Step(lines, i, c); var d := n[..1]; var rule := Rule(n, t, [], Examples(lines, i + 1));
      && !m.stop && m.next == ExamplesEnd(lines, i + 1)
      && m.cursor.currentRule == m.cursor.currentSection
      && match FindSection(c.sections, d)
         case Some(k) =>
           && m.cursor.currentRule == Some(k)
           && |m.cursor.sections| == |c.sections|
           && m.cursor.sections[k].rules == c.sections[k].rules + [rule]
           && (forall j :: 0 <= j < |c.sections| && j != k ==> m.cursor.sections[j] == c.sections[j])
         case None =>
           && m.cursor.currentRule == Some(|c.sections|)
           && m.cursor.sections == c.sections + [Section(d, DefaultTitle(d), [rule])]
  {
    var d := n[..1];
    var rule := Rule(n, t, [], Examples(lines, i + 1));
    assert Step(lines, i, c) == Transition(lines, i, c, RuleHeader(n, t));
    match FindSection(c.sections, d)
    case Some(k) =>
      assert Step(lines, i, c).cursor.sections == AppendRule(c.sections, k, rule);
    case None =>
      var placed := c.sections + [Section(d, DefaultTitle(d), [])];
      assert placed[|c.sections|].rules + [rule] == [rule];
      assert AppendRule(placed, |c.sections|, rule) == c.sections + [Section(d, DefaultTitle(d), [rule])];
  }

  /**
   * A subrule line goes to the end of the current rule's subrules, with the
   * examples that follow it; with no current rule it is skipped like a blank
   * or unrecognised line, and nothing changes.
   */
  lemma SubruleFiling(lines: seq<string>, i: nat, c: Cursor, n: string, t: string)
    requires i < |lines| && CursorOk(c)
    requires Classify(Strip(lines[i]), c.currentSection.Some?) == SubruleHeader(n, t)
    ensures var m := Step(lines, i, c);
      && !m.stop
      && (c.currentRule.None? ==> m == Move(i + 1, c, false))
      && (c.currentRule.Some? ==>
            var k := c.currentRule.value;
            var r := LastRule(c.sections, k);
            var rules := c.sections[k].rules;
            && m.next == ExamplesEnd(lines, i + 1)
            && m.cursor.currentRule == c.currentRule
            && m.cursor.currentSection == c.currentSection
            && |m.cursor.sections| == |c.sections|
            && (forall j :: 0 <= j < |c.sections| && j != k ==> m.cursor.sections[j] == c.sections[j])
            && m.cursor.sections[k].section == c.sections[k].section
            && m.cursor.sections[k].title == c.sections[k].title
            && |m.cursor.sections[k].rules| == |rules|
            && m.cursor.sections[k].rules[..|rules| - 1] == rules[..|rules| - 1]
            && LastRule(m.cursor.sections, k).subrules == r.subrules + [Subrule(n, t, Examples(lines, i + 1))]
            && LastRule(m.cursor.sections, k) == Rule(r.rule, r.title, r.subrules + [Subrule(n, t, Examples(lines, i + 1))], r.examples))
  {
  }

  /** Blank and unrecognised lines advance by one line and change nothing. */
  lemma OtherLinesSkipped(lines: seq<string>, i: nat, c: Cursor)
    requires i < |lines| && CursorOk(c)
    requires Strip(lines[i]) == [] || Classify(Strip(lines[i]), c.currentSection.Some?).Other?
    ensures Step(lines, i, c) == Move(i + 1, c, false)
  {
  }

  /**
   * A section header always appends a new, empty section, even when one with
   * the same number exists, and no rule is current afterwards.
   */
  lemma SectionHeaderAppends(lines: seq<string>, i: nat, c: Cursor, n: string, t: string)
    requires i < |lines| && CursorOk(c)
    requires Classify(Strip(lines[i]), c.currentSection.Some?) == SectionHeader(n, t)
    ensures var m := Step(lines, i, c);
      && !m.stop && m.next == i + 1
      && |m.cursor.sections| == |c.sections| + 1
      && m.cursor.sections[|c.sections|] == Section(n, t, [])
      && m.cursor.sections[..|c.sections|] == c.sections
      && m.cursor.currentSection == Some(|c.sections|)
      && m.cursor.currentRule.None?
  {
  }
}
