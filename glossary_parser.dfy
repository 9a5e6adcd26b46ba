/**
 * The glossary text parser: the text is a run of blocks separated by blank
 * lines; the first line of a block is the term and the rest of the block,
 * each line stripped and joined with single spaces, is its definition.
 * Lines are taken as `readlines` returns them, so they may still carry their
 * line break; a line counts as blank when it strips to nothing.
 */
module GlossaryParser {
  import opened Text

  datatype GlossaryEntry = GlossaryEntry(term: string, text: string)

  predicate IsBlankLine(line: string) {
    Strip(line) == []
  }

  /** First blank line at or after `i` (or the end): where a definition stops. */
  function DefinitionEnd(lines: seq<string>, i: nat): (e: nat)
    requires i <= |lines|
    ensures i <= e <= |lines|
    ensures forall k :: i <= k < e ==> !IsBlankLine(lines[k])
    ensures e < |lines| ==> IsBlankLine(lines[e])
    decreases |lines| - i
  {
    if i < |lines| && !IsBlankLine(lines[i]) then DefinitionEnd(lines, i + 1) else i
  }

  /** The stripped definition lines from `i` up to the next blank line. */
  function DefinitionLines(lines: seq<string>, i: nat): seq<string>
    requires i <= |lines|
    decreases |lines| - i
  {
    if i < |lines| && !IsBlankLine(lines[i]) then [Strip(lines[i])] + DefinitionLines(lines, i + 1) else []
  }

  /** The entries that the loop produces from line `i` on. */
  function GlossaryFrom(lines: seq<string>, i: nat): seq<GlossaryEntry>
    requires i <= |lines|
    decreases |lines| - i
  {
    if i == |lines| then []
    else if IsBlankLine(lines[i]) then GlossaryFrom(lines, i + 1)
    else
      var entry := GlossaryEntry(Strip(lines[i]), JoinSpaces(DefinitionLines(lines, i + 1)));
      [entry] + GlossaryFrom(lines, DefinitionEnd(lines, i + 1))
  }

  /** `parse_glossary(...)["glossary"]`. */
  method ParseGlossary(lines: seq<string>) returns (entries: seq<GlossaryEntry>)
    ensures entries == GlossaryFrom(lines, 0)
  {
    entries := [];
    var i := 0;
    while i < |lines|
      invariant i <= |lines|
      invariant entries + GlossaryFrom(lines, i) == GlossaryFrom(lines, 0)
      decreases |lines| - i
    {
      var line := Strip(lines[i]);
      if line == [] {
        i := i + 1;
        continue;
      }
      var term := line;
      ghost var start := i;
      var definitionLines;
      definitionLines, i := CollectDefinition(lines, i + 1);
      var definitionText := JoinSpaces(definitionLines);
      assert GlossaryFrom(lines, start) == [GlossaryEntry(term, definitionText)] + GlossaryFrom(lines, i);
      assert entries + GlossaryFrom(lines, start) == (entries + [GlossaryEntry(term, definitionText)]) + GlossaryFrom(lines, i);
      entries := entries + [GlossaryEntry(term, definitionText)];
    }
  }

  /** The inner loop: the stripped lines from `i` up to the next blank line, and where it stopped. */
  method CollectDefinition(lines: seq<string>, i: nat) returns (definitionLines: seq<string>, next: nat)
    requires i <= |lines|
    ensures definitionLines == DefinitionLines(lines, i)
    ensures next == DefinitionEnd(lines, i)
  {
    definitionLines := [];
    next := i;
    while next < |lines| && Strip(lines[next]) != []
      invariant i <= next <= |lines|
      invariant definitionLines + DefinitionLines(lines, next) == DefinitionLines(lines, i)
      invariant DefinitionEnd(lines, next) == DefinitionEnd(lines, i)
      decreases |lines| - next
    {
      assert DefinitionLines(lines, next) == [Strip(lines[next])] + DefinitionLines(lines, next + 1);
      definitionLines := definitionLines + [Strip(lines[next])];
      next := next + 1;
    }
    assert DefinitionLines(lines, next) == [] && DefinitionEnd(lines, next) == next;
  }

  /*
   * The block structure, stated independently of the loop.
   */

  /**
   * The first line of every maximal run of non-blank lines from `i` on,
   * stripped; `afterBlank` says whether line `i` may start a run.
   */
  function BlockHeads(lines: seq<string>, i: nat, afterBlank: bool): seq<string>
    requires i <= |lines|
    decreases |lines| - i
  {
    if i == |lines| then []
    else if IsBlankLine(lines[i]) then BlockHeads(lines, i + 1, true)
    else (if afterBlank then [Strip(lines[i])] else []) + BlockHeads(lines, i + 1, false)
  }

  function Terms(entries: seq<GlossaryEntry>): seq<string> {
    if entries == [] then [] else [entries[0].term] + Terms(entries[1..])
  }

  lemma {:induction false} TermsAppend(e: GlossaryEntry, rest: seq<GlossaryEntry>)
    ensures Terms([e] + rest) == [e.term] + Terms(rest)
  {
    assert ([e] + rest)[1..] == rest;
  }

  /** Inside a block, nothing new starts until the block ends. */
  lemma {:induction false} InsideBlock(lines: seq<string>, i: nat)
    requires i <= |lines|
    ensures BlockHeads(lines, i, false) == BlockHeads(lines, DefinitionEnd(lines, i), true)
    decreases |lines| - i
  {
    if i < |lines| && !IsBlankLine(lines[i]) {
      InsideBlock(lines, i + 1);
    }
  }

  /**
   * There is exactly one entry per maximal block of non-blank lines, in
   * input order, and its term is the block's first line, stripped.
   */
  lemma {:induction false} OneEntryPerBlock(lines: seq<string>, i: nat)
    requires i <= |lines|
    ensures Terms(GlossaryFrom(lines, i)) == BlockHeads(lines, i, true)
    decreases |lines| - i
  {
    if i < |lines| {
      if IsBlankLine(lines[i]) {
        OneEntryPerBlock(lines, i + 1);
      } else {
        var e := DefinitionEnd(lines, i + 1);
        var entry := GlossaryEntry(Strip(lines[i]), JoinSpaces(DefinitionLines(lines, i + 1)));
        TermsAppend(entry, GlossaryFrom(lines, e));
        InsideBlock(lines, i + 1);
        OneEntryPerBlock(lines, e);
      }
    }
  }

  /**
   * A definition is the lines up to the next blank line, each one stripped,
   * in order; none of them is empty.
   */
  lemma {:induction false} DefinitionLinesShape(lines: seq<string>, i: nat)
    requires i <= |lines|
    ensures |DefinitionLines(lines, i)| == DefinitionEnd(lines, i) - i
    ensures forall k :: 0 <= k < |DefinitionLines(lines, i)| ==> DefinitionLines(lines, i)[k] == Strip(lines[i + k])
    ensures forall k :: 0 <= k < |DefinitionLines(lines, i)| ==> DefinitionLines(lines, i)[k] != []
    decreases |lines| - i
  {
    if i < |lines| && !IsBlankLine(lines[i]) {
      DefinitionLinesShape(lines, i + 1);
      var d := DefinitionLines(lines, i);
      forall k | 0 < k < |d| ensures d[k] == Strip(lines[i + k]) && d[k] != [] {
        assert d[k] == DefinitionLines(lines, i + 1)[k - 1];
      }
    }
  }

  /**
   * The entry a block gives: its term is the block's first line stripped,
   * its text the block's other lines stripped and joined with single spaces,
   * and the entries after it come from the lines after the blank line that
   * closes the block.
   */
  lemma EntryOfBlock(lines: seq<string>, i: nat)
    requires i < |lines| && !IsBlankLine(lines[i])
    ensures var e := DefinitionEnd(lines, i + 1);
      && GlossaryFrom(lines, i)[0].term == Strip(lines[i])
      && GlossaryFrom(lines, i)[0].text == JoinSpaces(seq(e - i - 1, k requires 0 <= k < e - i - 1 => Strip(lines[i + 1 + k])))
      && GlossaryFrom(lines, i)[1..] == GlossaryFrom(lines, e)
  {
    var e := DefinitionEnd(lines, i + 1);
    DefinitionLinesShape(lines, i + 1);
    assert DefinitionLines(lines, i + 1) == seq(e - i - 1, k requires 0 <= k < e - i - 1 => Strip(lines[i + 1 + k]));
  }

  /** Every entry's term is non-empty and has no surrounding whitespace. */
  lemma {:induction false} EntriesShape(lines: seq<string>, i: nat)
    requires i <= |lines|
    ensures forall k :: 0 <= k < |GlossaryFrom(lines, i)| ==>
      var t := GlossaryFrom(lines, i)[k].term; t != [] && !IsPySpace(t[0]) && !IsPySpace(t[|t| - 1])
    decreases |lines| - i
  {
    if i < |lines| {
      if IsBlankLine(lines[i]) {
        EntriesShape(lines, i + 1);
      } else {
        var e := DefinitionEnd(lines, i + 1);
        EntriesShape(lines, e);
        var es := GlossaryFrom(lines, i);
        var rest := GlossaryFrom(lines, e);
        assert es == [es[0]] + rest && es[0].term == Strip(lines[i]);
        forall k | 0 <= k < |es|
          ensures var t := es[k].term; t != [] && !IsPySpace(t[0]) && !IsPySpace(t[|t| - 1])
        {
          if k == 0 {
            TermShape(lines[i]);
          } else {
            assert es[k] == rest[k - 1];
          }
        }
      }
    }
  }

  lemma TermShape(line: string)
    requires !IsBlankLine(line)
    ensures var t := Strip(line); t != [] && !IsPySpace(t[0]) && !IsPySpace(t[|t| - 1])
  {
    StripShape(line);
  }

  /** A term's text is empty exactly when no definition line follows it. */
  lemma EmptyTextIff(lines: seq<string>, i: nat)
    requires i < |lines| && !IsBlankLine(lines[i])
    ensures GlossaryFrom(lines, i)[0].text == [] <==> (i + 1 == |lines| || IsBlankLine(lines[i + 1]))
  {
    DefinitionLinesShape(lines, i + 1);
    JoinSpacesEmptyIff(DefinitionLines(lines, i + 1));
  }
}
