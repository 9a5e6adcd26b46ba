/**
 * The rules search box: with a blank query it previews the first ten rules
 * of the document; otherwise it keeps, in document order, every rule whose
 * number contains the query, whose title contains it ignoring case, or that
 * has a subrule matching the same way, narrowing the shown subrules to the
 * matching ones. `highlightText` marks every occurrence of the query.
 */
module RulesSearch {
  import opened Optional
  import opened Text
  import opened RulesData

  /** How many rules the blank-query preview shows. */
  const PreviewSize: nat := 10

  /** A rule together with the number and title of the section it sits in. */
  datatype Entry = Entry(section: string, sectionTitle: string, rule: Rule)

  /** One row of the results list. */
  datatype SearchResult = SearchResult(
    section: string, sectionTitle: string, rule: string, title: string,
    subrules: seq<Subrule>, isPartialMatch: bool)

  /** The rules of one section, in order. */
  function SectionEntries(s: Section): (es: seq<Entry>)
    ensures |es| == |s.rules|
  {
    seq(|s.rules|, k requires 0 <= k < |s.rules| => Entry(s.section, s.title, s.rules[k]))
  }

  /** Every rule of the document, section by section: the order of the two nested loops. */
  function Entries(data: seq<Section>): seq<Entry> {
    if data == [] then [] else Entries(data[..|data| - 1]) + SectionEntries(data[|data| - 1])
  }

  lemma EntriesPrefix(data: seq<Section>, i: nat)
    requires i < |data|
    ensures Entries(data[..i + 1]) == Entries(data[..i]) + SectionEntries(data[i])
  {
    assert data[..i + 1][..i] == data[..i];
  }

  /*
   * The preview.
   */

  /** A rule shown as it is: all its subrules and no partial-match flag. */
  function Full(e: Entry): SearchResult {
    SearchResult(e.section, e.sectionTitle, e.rule.rule, e.rule.title, e.rule.subrules, false)
  }

  function Listing(es: seq<Entry>): (rs: seq<SearchResult>)
    ensures |rs| == |es|
    ensures forall k :: 0 <= k < |es| ==> rs[k] == Full(es[k])
  {
    seq(|es|, k requires 0 <= k < |es| => Full(es[k]))
  }

  function Min(a: nat, b: nat): nat {
    if a <= b then a else b
  }

  /** The blank-query effect: the first ten rules in document order, each shown in full. */
  method Preview(rulesData: seq<Section>) returns (results: seq<SearchResult>)
    ensures |results| == Min(PreviewSize, |Entries(rulesData)|)
    ensures results == Listing(Entries(rulesData)[..|results|])
  {
    results := [];
    var count := 0;
    var si := 0;
    while si < |rulesData|
      invariant si <= |rulesData|
      invariant count == |Entries(rulesData[..si])| <= PreviewSize
      invariant results == Listing(Entries(rulesData[..si]))
      decreases |rulesData| - si
    {
      var section := rulesData[si];
      var ri := 0;
      while ri < |section.rules|
        invariant ri <= |section.rules|
        invariant count == |Entries(rulesData[..si])| + ri <= PreviewSize
        invariant results == Listing(Entries(rulesData[..si]) + SectionEntries(section)[..ri])
        decreases |section.rules| - ri
      {
        if count >= PreviewSize {
          break;
        }
        var rule := section.rules[ri];
        assert (Entries(rulesData[..si]) + SectionEntries(section)[..ri + 1])[..count] == Entries(rulesData[..si]) + SectionEntries(section)[..ri];
        results := results + [SearchResult(section.section, section.title, rule.rule, rule.title, rule.subrules, false)];
        count := count + 1;
        ri := ri + 1;
      }
      EntriesPrefix(rulesData, si);
      if count >= PreviewSize {
        PreviewStops(rulesData, si + 1, Entries(rulesData[..si]) + SectionEntries(section)[..ri]);
        return;
      }
      assert SectionEntries(section)[..ri] == SectionEntries(section);
      si := si + 1;
    }
    assert rulesData[..si] == rulesData;
  }

  /** The entries seen so far are a prefix of all the entries. */
  lemma {:induction false} EntriesGrow(data: seq<Section>, i: nat)
    requires i <= |data|
    ensures Entries(data[..i]) <= Entries(data)
    decreases |data| - i
  {
    if i < |data| {
      EntriesPrefix(data, i);
      EntriesGrow(data, i + 1);
    } else {
      assert data[..i] == data;
    }
  }

  lemma PreviewStops(data: seq<Section>, i: nat, seen: seq<Entry>)
    requires 0 < i <= |data|
    requires seen <= Entries(data[..i])
    ensures seen <= Entries(data)
  {
    EntriesGrow(data, i);
  }

  /*
   * The search.
   */

  /** A subrule matches when its number contains the raw query or its text contains it ignoring case. */
  predicate SubruleMatches(s: Subrule, query: string) {
    Contains(s.subrule, query) || Contains(Lower(s.text), Lower(query))
  }

  /** `rule.subrules.filter(...)`: the matching subrules, in order. */
  function MatchingSubrules(subs: seq<Subrule>, query: string): seq<Subrule> {
    if subs == [] then []
    else (if SubruleMatches(subs[0], query) then [subs[0]] else []) + MatchingSubrules(subs[1..], query)
  }

  predicate RuleMatches(r: Rule, query: string) {
    || Contains(r.rule, query)
    || Contains(Lower(r.title), Lower(query))
    || MatchingSubrules(r.subrules, query) != []
  }

  /** The row for a matching rule: only the matching subrules, if any, and whether that is fewer than all. */
  function Project(e: Entry, query: string): SearchResult {
    var matching := MatchingSubrules(e.rule.subrules, query);
    SearchResult(e.section, e.sectionTitle, e.rule.rule, e.rule.title,
      if |matching| > 0 then matching else e.rule.subrules,
      |matching| > 0 && |matching| < |e.rule.subrules|)
  }

  /** The results of a non-blank query over the entries, in their order. */
  function Search(es: seq<Entry>, query: string): seq<SearchResult> {
    if es == [] then []
    else
      var last := es[|es| - 1];
      Search(es[..|es| - 1], query) + (if RuleMatches(last.rule, query) then [Project(last, query)] else [])
  }

  /** The whole search effect: the preview for a blank query, the filter otherwise. */
  method SearchEffect(rulesData: seq<Section>, searchTerm: string) returns (results: seq<SearchResult>)
    ensures IsBlank(searchTerm) ==> |results| == Min(PreviewSize, |Entries(rulesData)|)
    ensures IsBlank(searchTerm) ==> results == Listing(Entries(rulesData)[..|results|])
    ensures !IsBlank(searchTerm) ==> results == Search(Entries(rulesData), searchTerm)
  {
    if IsBlank(searchTerm) {
      results := Preview(rulesData);
      return;
    }
    results := [];
    var si := 0;
    while si < |rulesData|
      invariant si <= |rulesData|
      invariant results == Search(Entries(rulesData[..si]), searchTerm)
      decreases |rulesData| - si
    {
      var rows := SearchSection(rulesData[si], searchTerm);
      EntriesPrefix(rulesData, si);
      SearchAppend(Entries(rulesData[..si]), SectionEntries(rulesData[si]), searchTerm);
      results := results + rows;
      si := si + 1;
    }
    assert rulesData[..si] == rulesData;
  }

  /** `section.rules.forEach(...)`: the rows one section contributes. */
  method SearchSection(section: Section, searchTerm: string) returns (rows: seq<SearchResult>)
    ensures rows == Search(SectionEntries(section), searchTerm)
  {
    rows := [];
    var ri := 0;
    while ri < |section.rules|
      invariant ri <= |section.rules|
      invariant rows == Search(SectionEntries(section)[..ri], searchTerm)
      decreases |section.rules| - ri
    {
      var rule := section.rules[ri];
      var ruleNumberMatch := Contains(rule.rule, searchTerm);
      var titleMatch := Contains(Lower(rule.title), Lower(searchTerm));
      var matchingSubrules := MatchingSubrules(rule.subrules, searchTerm);
      assert SectionEntries(section)[..ri + 1][..ri] == SectionEntries(section)[..ri];
      if ruleNumberMatch || titleMatch || |matchingSubrules| > 0 {
        rows := rows + [SearchResult(section.section, section.title, rule.rule, rule.title,
          if |matchingSubrules| > 0 then matchingSubrules else rule.subrules,
          |matchingSubrules| > 0 && |matchingSubrules| < |rule.subrules|)];
      }
      ri := ri + 1;
    }
    assert SectionEntries(section)[..ri] == SectionEntries(section);
  }

  /*
   * What the search promises.
   */

  /** The matching subrules are the subrules that match, in their original order. */
  lemma {:induction false} MatchingSubrulesFilter(subs: seq<Subrule>, query: string)
    ensures |MatchingSubrules(subs, query)| <= |subs|
    ensures forall s :: s in MatchingSubrules(subs, query) <==> s in subs && SubruleMatches(s, query)
    ensures (forall k :: 0 <= k < |subs| ==> SubruleMatches(subs[k], query)) ==> MatchingSubrules(subs, query) == subs
  {
    if subs != [] {
      MatchingSubrulesFilter(subs[1..], query);
      assert subs == [subs[0]] + subs[1..];
      if forall k :: 0 <= k < |subs| ==> SubruleMatches(subs[k], query) {
        assert forall k :: 0 <= k < |subs| - 1 ==> subs[1..][k] == subs[k + 1];
      }
    }
  }

  /** Filtering keeps the subrules' order: filtering a concatenation is concatenating the filtered parts. */
  lemma {:induction false} MatchingSubrulesAppend(a: seq<Subrule>, b: seq<Subrule>, query: string)
    ensures MatchingSubrules(a + b, query) == MatchingSubrules(a, query) + MatchingSubrules(b, query)
  {
    if a == [] {
      assert a + b == b;
    } else {
      var x, rest := a[0], a[1..];
      assert a == [x] + rest;
      assert a + b == [x] + (rest + b);
      MatchingSubrulesCons(x, rest, query);
      MatchingSubrulesCons(x, rest + b, query);
      MatchingSubrulesAppend(rest, b, query);
    }
  }

  /** Filtering a list that starts with `x` keeps `x` exactly when it matches, then filters the rest. */
  lemma MatchingSubrulesCons(x: Subrule, rest: seq<Subrule>, query: string)
    ensures MatchingSubrules([x] + rest, query)
      == (if SubruleMatches(x, query) then [x] else []) + MatchingSubrules(rest, query)
  {
    assert ([x] + rest)[0] == x;
    assert ([x] + rest)[1..] == rest;
  }

  /**
   * A row is flagged partial exactly when some but not all subrules match;
   * then it carries strictly fewer subrules than the rule has. Otherwise it
   * carries every subrule.
   */
  lemma PartialMatch(e: Entry, query: string)
    ensures Project(e, query).isPartialMatch <==> 0 < |MatchingSubrules(e.rule.subrules, query)| < |e.rule.subrules|
    ensures Project(e, query).isPartialMatch ==> |Project(e, query).subrules| < |e.rule.subrules|
    ensures !Project(e, query).isPartialMatch ==> Project(e, query).subrules == e.rule.subrules
  {
    MatchingSubrulesFilter(e.rule.subrules, query);
    var matching := MatchingSubrules(e.rule.subrules, query);
    if |matching| > 0 && |matching| == |e.rule.subrules| {
      MatchingIsSubsequence(e.rule.subrules, query);
    }
  }

  /** When as many subrules match as there are, all of them match. */
  lemma {:induction false} MatchingIsSubsequence(subs: seq<Subrule>, query: string)
    ensures |MatchingSubrules(subs, query)| == |subs| ==> MatchingSubrules(subs, query) == subs
  {
    if subs != [] {
      MatchingSubrulesFilter(subs[1..], query);
      MatchingIsSubsequence(subs[1..], query);
      assert subs == [subs[0]] + subs[1..];
    }
  }

  /** Results keep document order: searching a concatenation is concatenating the searches. */
  lemma {:induction false} SearchAppend(a: seq<Entry>, b: seq<Entry>, query: string)
    ensures Search(a + b, query) == Search(a, query) + Search(b, query)
    decreases |b|
  {
    if b == [] {
      assert a + b == a;
    } else {
      var b' := b[..|b| - 1];
      assert (a + b)[..|a + b| - 1] == a + b';
      SearchAppend(a, b', query);
    }
  }

  /** Every rule gives at most one row, so there are never more rows than rules. */
  lemma {:induction false} SearchBounded(es: seq<Entry>, query: string)
    ensures |Search(es, query)| <= |es|
  {
    if es != [] {
      SearchBounded(es[..|es| - 1], query);
    }
  }

  /** No false positives and no omissions: a row is in the results exactly when it is the row of a matching rule. */
  lemma {:induction false} SearchMembership(es: seq<Entry>, query: string, x: SearchResult)
    ensures x in Search(es, query) <==> exists e :: e in es && RuleMatches(e.rule, query) && x == Project(e, query)
  {
    if es != [] {
      var init := es[..|es| - 1];
      var last := es[|es| - 1];
      SearchMembership(init, query, x);
      assert es == init + [last];
      if x in Search(es, query) && !(x in Search(init, query)) {
        assert last in es;
      }
      if exists e :: e in es && RuleMatches(e.rule, query) && x == Project(e, query) {
        var e :| e in es && RuleMatches(e.rule, query) && x == Project(e, query);
        if e != last {
          assert e in init;
        }
      }
    }
  }

  /**
   * Only the emptiness test trims the query: matching uses it as typed, so
   * `" 603"` does not find a rule numbered `603`.
   */
  lemma UntrimmedQuery()
    ensures !IsBlank(" 603")
    ensures !RuleMatches(Rule("603", "Stack", [], []), " 603")
    ensures RuleMatches(Rule("603", "Stack", [], []), "603")
  {
    assert !IsJsSpace(" 603"[1]);
    assert StartsWith("603", "603");
    assert !Contains("603", " 603") by {
      assert "603"[1..] == "03" && "03"[1..] == "3" && "3"[1..] == [];
    }
    assert |Lower("Stack")| == 5;
    assert !Contains(Lower("Stack"), Lower(" 603")) by {
      var t := Lower("Stack");
      var p := Lower(" 603");
      assert p[0] == ' ';
      assert t[0] != ' ' && t[1] != ' ';
      assert |t[2..]| < |p| && |t[2..][1..]| < |p| && |t[2..][1..][1..]| < |p| && t[2..][1..][1..][1..] == [];
    }
  }

  /*
   * The highlighter.
   */

  const MarkOpen: string := "<mark class=\"bg-yellow-200\">"
  const MarkClose: string := "</mark>"

  /** The characters `[.*+?^${}()|[\]\\]` that `highlightText` escapes. */
  predicate IsRegexSyntax(c: char) {
    c in {'.', '*', '+', '?', '^', '$', '{', '}', '(', ')', '|', '[', ']', '\\'}
  }

  /** `searchTerm.replace(/[.*+?^${}()|[\]\\]/g, '\\$&')`. */
  function EscapeRegex(q: string): string {
    if q == [] then []
    else (if IsRegexSyntax(q[0]) then ['\\', q[0]] else [q[0]]) + EscapeRegex(q[1..])
  }

  /** The literal text that an escaped pattern stands for, or None when it has an unescaped syntax character. */
  function PatternLiteral(p: string): Option<string>
    decreases |p|
  {
    if p == [] then Some([])
    else if p[0] == '\\' then
      if |p| >= 2 && IsRegexSyntax(p[1]) then
        match PatternLiteral(p[2..])
        case Some(rest) => Some([p[1]] + rest)
        case None => None
      else None
    else if IsRegexSyntax(p[0]) then None
    else
      match PatternLiteral(p[1..])
      case Some(rest) => Some([p[0]] + rest)
      case None => None
  }

  /** Escaping leaves no operator in the pattern: it matches the query literally. */
  lemma {:induction false} EscapeIsLiteral(q: string)
    ensures PatternLiteral(EscapeRegex(q)) == Some(q)
  {
    if q != [] {
      EscapeIsLiteral(q[1..]);
      var p := EscapeRegex(q);
      if IsRegexSyntax(q[0]) {
        assert p[2..] == EscapeRegex(q[1..]);
      } else {
        assert p[1..] == EscapeRegex(q[1..]);
      }
      assert q == [q[0]] + q[1..];
    }
  }

  /** A piece of the highlighted text: a character left as it is, or an occurrence wrapped in a mark. */
  datatype Piece = Plain(c: char) | Marked(s: string)

  /** Case-insensitive literal occurrence of `q` at the start of `t`. */
  predicate MatchesAt(t: string, q: string) {
    |q| <= |t| && Lower(t[..|q|]) == Lower(q)
  }

  /** The global, case-insensitive scan: left to right, each occurrence taken whole, never overlapping. */
  function Pieces(t: string, q: string): seq<Piece>
    requires q != []
    decreases |t|
  {
    if t == [] then []
    else if MatchesAt(t, q) then [Marked(t[..|q|])] + Pieces(t[|q|..], q)
    else [Plain(t[0])] + Pieces(t[1..], q)
  }

  function Render(ps: seq<Piece>): string {
    if ps == [] then []
    else
      (match ps[0]
       case Plain(c) => [c]
       case Marked(s) => MarkOpen + s + MarkClose) + Render(ps[1..])
  }

  /** The text with every mark taken away. */
  function Unmarked(ps: seq<Piece>): string {
    if ps == [] then []
    else
      (match ps[0]
       case Plain(c) => [c]
       case Marked(s) => s) + Unmarked(ps[1..])
  }

  /**
   * What the `g` flag promises, read piece by piece: a piece is marked exactly
   * when the query occurs, ignoring case, at the start of the text that
   * remains from that piece on, and a mark covers one whole occurrence. So the
   * scan is leftmost and non-overlapping and misses no occurrence.
   */
  predicate MarkedGlobally(ps: seq<Piece>, q: string) {
    forall k :: 0 <= k < |ps| ==>
      if ps[k].Marked? then |ps[k].s| == |q| && MatchesAt(Unmarked(ps[k..]), q)
      else !MatchesAt(Unmarked(ps[k..]), q)
  }

  /** `highlightText(text, searchTerm)`. */
  function HighlightText(text: string, searchTerm: string): (r: string)
    ensures IsBlank(searchTerm) ==> r == text
    ensures !IsBlank(searchTerm) ==>
      exists ps :: r == Render(ps) && Unmarked(ps) == text && MarkedGlobally(ps, searchTerm)
  {
    if IsBlank(searchTerm) then text
    else
      assert searchTerm != [];
      HighlightRoundTrip(text, searchTerm);
      ScanMarksEveryOccurrence(text, searchTerm);
      Render(Pieces(text, searchTerm))
  }

  /** The scan marks every occurrence it reaches and only those. */
  lemma {:induction false} ScanMarksEveryOccurrence(t: string, q: string)
    requires q != []
    ensures MarkedGlobally(Pieces(t, q), q)
    decreases |t|
  {
    if t != [] {
      var ps := Pieces(t, q);
      var rest := if MatchesAt(t, q) then t[|q|..] else t[1..];
      ScanMarksEveryOccurrence(rest, q);
      HighlightRoundTrip(t, q);
      assert ps[0..] == ps;
      forall k | 0 < k < |ps| ensures ps[k..] == Pieces(rest, q)[k - 1..] {
      }
    }
  }

  /** Taking the marks away gives back the text, with its original casing. */
  lemma {:induction false} HighlightRoundTrip(t: string, q: string)
    requires q != []
    ensures Unmarked(Pieces(t, q)) == t
    decreases |t|
  {
    if t != [] {
      if MatchesAt(t, q) {
        HighlightRoundTrip(t[|q|..], q);
        assert t == t[..|q|] + t[|q|..];
      } else {
        HighlightRoundTrip(t[1..], q);
        assert t == [t[0]] + t[1..];
      }
    }
  }

  /** Every marked piece is the query up to letter case. */
  lemma {:induction false} MarksAreQuery(t: string, q: string)
    requires q != []
    ensures forall k :: 0 <= k < |Pieces(t, q)| && Pieces(t, q)[k].Marked? ==> Lower(Pieces(t, q)[k].s) == Lower(q)
    decreases |t|
  {
    if t != [] {
      var ps := Pieces(t, q);
      var rest := if MatchesAt(t, q) then t[|q|..] else t[1..];
      MarksAreQuery(rest, q);
      forall k | 0 < k < |ps| ensures ps[k] == Pieces(rest, q)[k - 1] {
      }
    }
  }

  predicate HasMark(ps: seq<Piece>) {
    exists k :: 0 <= k < |ps| && ps[k].Marked?
  }

  lemma HasMarkCons(p: Piece, rest: seq<Piece>)
    ensures HasMark([p] + rest) <==> p.Marked? || HasMark(rest)
  {
    var ps := [p] + rest;
    assert ps[0] == p;
    if HasMark(rest) {
      var k :| 0 <= k < |rest| && rest[k].Marked?;
      assert ps[k + 1] == rest[k];
    }
    if HasMark(ps) && !p.Marked? {
      var k :| 0 <= k < |ps| && ps[k].Marked?;
      assert rest[k - 1] == ps[k];
    }
  }

  /** Some mark is inserted exactly when the text contains the query ignoring case. */
  lemma {:induction false} MarkedIff(t: string, q: string)
    requires q != []
    ensures HasMark(Pieces(t, q)) <==> Contains(Lower(t), Lower(q))
    decreases |t|
  {
    if t != [] {
      if MatchesAt(t, q) {
        HasMarkCons(Marked(t[..|q|]), Pieces(t[|q|..], q));
        LowerSlice(t, 0, |q|);
        assert StartsWith(Lower(t), Lower(q));
      } else {
        MarkedIff(t[1..], q);
        HasMarkCons(Plain(t[0]), Pieces(t[1..], q));
        LowerSlice(t, 1, |t|);
        assert t[1..|t|] == t[1..];
        assert Lower(t)[1..] == Lower(t[1..]);
        assert Pieces(t, q) == [Plain(t[0])] + Pieces(t[1..], q);
        if |q| <= |t| {
          LowerSlice(t, 0, |q|);
        }
        assert !StartsWith(Lower(t), Lower(q));
      }
    }
  }

  /** A text that does not contain the query, ignoring case, comes back unchanged. */
  lemma NoMatchUnchanged(t: string, q: string)
    requires !Contains(Lower(t), Lower(q))
    ensures HighlightText(t, q) == t
  {
    if !IsBlank(q) {
      assert q != [];
      MarkedIff(t, q);
      NoMarksRender(Pieces(t, q));
      HighlightRoundTrip(t, q);
    }
  }

  /** Without marks, rendering is taking the marks away. */
  lemma {:induction false} NoMarksRender(ps: seq<Piece>)
    requires !HasMark(ps)
    ensures Render(ps) == Unmarked(ps)
  {
    if ps != [] {
      HasMarkCons(ps[0], ps[1..]);
      assert ps == [ps[0]] + ps[1..];
      NoMarksRender(ps[1..]);
    }
  }
}
