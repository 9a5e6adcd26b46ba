# MTG Judge Companion — a Dafny model of its core

MTG Judge Companion turns the Magic: The Gathering Comprehensive Rules and its
glossary into JSON, and serves them in a small web app with rules search,
glossary search, browsing by category and offline support. This project
models the parts of it that decide what the data and the pages contain, and
proves properties of them:

- **The rules parser** (`rules_parser.dfy`). The Python `parse_mtg_rules` is a
  line-driven state machine. It skips the preamble up to the line
  `1. Game Concepts` and sorts every stripped line into one of: a section
  header (`1. …`), a rule header (`100. …`), a subrule (`100.1a. …`), an
  `Example:` continuation, or the first glossary word. From these it builds
  the sections → rules → subrules → examples tree.
  - `ParseRules` and its one-step function `Step` specify the loop.
  - The imperative `ParseMtgRules` (with `AddRule`/`AddSubrule` for the two
    inner example loops) is proved to compute `ParseRules`.
  - The regular expressions are written as character predicates over a
    stripped line.
- **The glossary parser** (`glossary_parser.dfy`). `parse_glossary` reads
  blocks separated by blank lines. The first line of a block is the term; the
  rest of the block, joined with single spaces, is the definition.
- **Rules search** (`rules_search.dfy`). This is the search effect of the rules
  page:
  - with a blank query it previews the first ten rules;
  - otherwise it keeps every rule whose number, title or subrules match, in
    document order, narrowing the subrules shown and flagging partial matches.
  - `highlightText` escapes the query and wraps every case-insensitive
    occurrence in a `<mark>`.
- **Glossary search** (`glossary_search.dfy`). The two-box filter and its reset.
- **The service worker** (`service_worker.dfy`).
  - The install, activate and fetch handlers of `public/sw.js` act on cache
    storage, which is modelled as a list of named caches in creation order.
  - Each handler is a method of a `Worker` class. Each method is proved against
    a pure function of the old storage and of what the network delivers.
- **View state** (`view_state.dfy`). The category page's select / expand /
  back transitions and the sections index's expand toggle, as classes whose
  methods update their fields.

`text.dfy` holds the string primitives:
- Python's `strip`, `split`, `upper` and `' '.join`;
- JavaScript's `trim`, `toLowerCase` and `includes`.

Each uses its own language's whitespace set. `rules_data.dfy` holds the
section/rule/subrule records the parser produces and the pages consume.

Behaviour of the code that the model keeps as written:
- A section header always appends a new section, even when one with that
  number exists. A rule goes to the FIRST section with its leading digit, so
  later sections with a repeated number stay empty (`WellFormed`).
- A subrule line with no current rule is skipped.
- A rule number matches the query as typed, untrimmed and case-sensitive.
  Titles and subrule texts match lower-cased. So `" 603"` is not blank, yet
  it does not find rule 603 by number (`UntrimmedQuery`).
- A glossary search box holding only spaces is a real filter, not "no filter"
  (`SpaceQuery`).
- A missing `Accept` header on a failed fetch makes the handler throw before
  the offline page is considered (`Fail(NoAcceptHeader)`).

## Model

| member | source | states |
|---|---|---|
| Text.StripShape | fn-mjc-parser/mtg_rules_parser.py:31 | `strip()` gives the empty string exactly when every character is whitespace; otherwise the result neither starts nor ends with whitespace |
| Text.UpperFixedIff | fn-mjc-parser/mtg_rules_parser.py:40 | `line == line.upper()` holds exactly when the line has no lower-case letter |
| Text.OneWordIff | fn-mjc-parser/mtg_rules_parser.py:41 | on a stripped line, `len(line.split()) == 1` holds exactly when the line contains no whitespace |
| RulesData.FindSection | fn-mjc-parser/mtg_rules_parser.py:70-74 | the lookup answers the index of the first section with that number, and None exactly when there is none |
| RulesParser.MatchSectionHeader | fn-mjc-parser/mtg_rules_parser.py:46-49 | a match yields a one-digit number that is the line's first character, followed by `.`, whitespace and a non-empty title |
| RulesParser.HeaderTailIff | fn-mjc-parser/mtg_rules_parser.py:46 | `\s+(.+)$` captures `t` exactly when the rest of the line is a non-empty whitespace run followed by `t`, which starts with no whitespace and has no line break |
| RulesParser.MatchSectionHeaderIff | fn-mjc-parser/mtg_rules_parser.py:46-49 | a line is recognised as section header `(n, t)` exactly when it is a single digit `n`, a dot, whitespace and `t` |
| RulesParser.MatchRuleHeader | fn-mjc-parser/mtg_rules_parser.py:61-64 | a match yields the line's first three characters, all digits, followed by `.`, whitespace and a non-empty title |
| RulesParser.MatchRuleHeaderIff | fn-mjc-parser/mtg_rules_parser.py:61-64 | a line is recognised as rule header `(n, t)` exactly when it is three digits `n`, a dot, whitespace and `t` |
| RulesParser.MatchSubruleHeader | fn-mjc-parser/mtg_rules_parser.py:118-121 | a match yields a number of the shape digits, dot, digits, lower-case letters that is the start of the line, followed by `.`, whitespace and a non-empty text |
| RulesParser.MatchSubruleHeaderIff | fn-mjc-parser/mtg_rules_parser.py:118-121 | a line is recognised as subrule header `(n, t)` exactly when `n` has the shape digits, dot, digits, lower-case letters and the line is `n`, a dot, whitespace and `t` |
| RulesParser.GlossaryMarkerIff | fn-mjc-parser/mtg_rules_parser.py:36-43 | on a stripped line the stop test holds exactly when the line has no leading digit, no lower-case letter and no whitespace; the `Example:`/`Note:` tests never decide it |
| RulesParser.Classify | fn-mjc-parser/mtg_rules_parser.py:31-47 | the branch a line takes, in the loop's order: blank exactly for the empty line, glossary stop only inside a section, headers only with well-shaped numbers and non-empty titles |
| RulesParser.ClassifySectionHeader | fn-mjc-parser/mtg_rules_parser.py:46-49 | a line takes the section-header branch with `(n, t)`, in any state, exactly when it is a section header line for `n` and `t` |
| RulesParser.ClassifyRuleHeader | fn-mjc-parser/mtg_rules_parser.py:61-64 | a line takes the rule-header branch with `(n, t)`, in any state, exactly when it is a rule header line for `n` and `t` |
| RulesParser.ClassifySubruleHeader | fn-mjc-parser/mtg_rules_parser.py:118-121 | a line takes the subrule branch with `(n, t)`, in any state, exactly when it is a subrule header line for `n` and `t`; such a line never matches the section or rule pattern |
| RulesParser.WrittenHeaderClassified | fn-mjc-parser/mtg_rules_parser.py:46-121 | a number, a dot, a whitespace run and a title, written out, are classified as the header kind the number's shape names |
| RulesParser.DefaultTitle | fn-mjc-parser/mtg_rules_parser.py:78-91 | a created section always gets a non-empty title, "Game Concepts" for section 1 |
| RulesParser.Target | fn-mjc-parser/mtg_rules_parser.py:69-94 | the find-or-create step yields a section list in which the returned index holds the section with the rule's digit |
| RulesParser.FindStart | fn-mjc-parser/mtg_rules_parser.py:14-18 | the start is the first line that strips to `1. Game Concepts`, and None when there is none |
| RulesParser.Transition | fn-mjc-parser/mtg_rules_parser.py:30-142 | every pass of the loop advances by at least one line, never removes or renames a section, and keeps a section current once there is one |
| RulesParser.ParseMtgRules | fn-mjc-parser/mtg_rules_parser.py:10-144 | the imperative loop returns exactly `ParseRules(lines)` |
| RulesParser.AddRule | fn-mjc-parser/mtg_rules_parser.py:61-115 | a rule header files the rule, with the `Example:` lines after it as its examples, into the found-or-created section and resumes after those lines |
| RulesParser.LocateSection | fn-mjc-parser/mtg_rules_parser.py:70-74 | the search loop finds the first section with the rule's leading digit, or none when no section has it |
| RulesParser.AppendRuleWithExamples | fn-mjc-parser/mtg_rules_parser.py:96-115 | the new rule is appended to the target section's rules with every `Example:` line after the header as its examples, and reading resumes after them |
| RulesParser.AddSubrule | fn-mjc-parser/mtg_rules_parser.py:118-139 | a subrule is appended to the current rule with the `Example:` lines after it, and reading resumes after them |
| RulesParser.ExamplesShape | fn-mjc-parser/mtg_rules_parser.py:105-115 | the examples are exactly the maximal run of `Example:` lines after the header, in order, each with its prefix removed, and the run stops at the first other line |
| RulesParser.RuleHeaderFiling | fn-mjc-parser/mtg_rules_parser.py:61-115 | a rule goes to the first section numbered with its leading digit, or to a new section with the table's title appended at the end; no other section changes and the rule becomes current |
| RulesParser.SubruleFiling | fn-mjc-parser/mtg_rules_parser.py:118-139 | with a current rule, the subrule and its examples go to the end of that rule's subrules and the loop resumes after the examples; every other section, every earlier rule and the rule's number, title and examples stay as they were; with no current rule, the line is skipped and nothing changes |
| RulesParser.SectionHeaderAppends | fn-mjc-parser/mtg_rules_parser.py:46-58 | a section header always appends a new empty section, even for a repeated number, leaves the earlier sections as they were, makes the new section current and clears the current rule |
| RulesParser.OtherLinesSkipped | fn-mjc-parser/mtg_rules_parser.py:141-142 | blank and unrecognised lines advance by one line and change nothing |
| RulesParser.StartLineOpensSectionOne | fn-mjc-parser/mtg_rules_parser.py:46-55 | the start line is itself read as the header of section "1", "Game Concepts" |
| RulesParser.NoStartNoRules | fn-mjc-parser/mtg_rules_parser.py:14-21 | the result is empty exactly when no line strips to `1. Game Concepts`; otherwise its first section is section 1, "Game Concepts" |
| RulesParser.RunExtends | fn-mjc-parser/mtg_rules_parser.py:50-55 | the loop only ever adds sections after the existing ones, whose numbers and titles stay as they were |
| RulesParser.ParsedRulesWellFormed | fn-mjc-parser/mtg_rules_parser.py:61-103 | every section has a one-digit number and a title; every rule has a three-digit number starting with its section's digit, a title, and subrules with text; only the first section with a number holds rules |
| RulesParser.GlossaryMarkerEndsRules | fn-mjc-parser/mtg_rules_parser.py:36-43 | once the rules have started, a glossary marker line ends parsing: nothing after it changes the result |
| GlossaryParser.ParseGlossary | fn-mjc-parser/glossary_parser.py:23-56 | the imperative loop returns exactly `GlossaryFrom(lines, 0)` |
| GlossaryParser.CollectDefinition | fn-mjc-parser/glossary_parser.py:42-45 | the inner loop collects the stripped lines up to the next blank line and stops there |
| GlossaryParser.OneEntryPerBlock | fn-mjc-parser/glossary_parser.py:28-54 | there is one entry per maximal block of non-blank lines, in input order, and its term is the block's first line, stripped |
| GlossaryParser.EntriesShape | fn-mjc-parser/glossary_parser.py:30-38 | every term is non-empty and has no surrounding whitespace |
| GlossaryParser.DefinitionEnd | fn-mjc-parser/glossary_parser.py:43-45 | a definition stops at the first blank line at or after its start, or at the end of the input |
| GlossaryParser.DefinitionLinesShape | fn-mjc-parser/glossary_parser.py:43-45 | element `k` of a definition is line `i + k` stripped, for every line up to the stopping point, and none is empty |
| GlossaryParser.EntryOfBlock | fn-mjc-parser/glossary_parser.py:35-54 | the entry a block gives has the block's first line, stripped, as its term and the block's other lines, stripped and joined by single spaces, as its text; later entries come from the lines after the block |
| GlossaryParser.EmptyTextIff | fn-mjc-parser/glossary_parser.py:42-48 | a definition text is empty exactly when the term line is last or is followed by a blank line |
| RulesSearch.Preview | ms-mjc-front/src/components/RulesSearch.jsx:26-48 | the blank-query preview lists the first min(10, number of rules) rules of the document, in order, unnarrowed and not partial |
| RulesSearch.SearchEffect | ms-mjc-front/src/components/RulesSearch.jsx:25-83 | a blank query gives the preview; any other query gives exactly `Search` over all rules in document order |
| RulesSearch.SearchSection | ms-mjc-front/src/components/RulesSearch.jsx:55-79 | the per-section inner loop gives the search results of that section's rules |
| RulesSearch.MatchingSubrulesFilter | ms-mjc-front/src/components/RulesSearch.jsx:63-67 | the matching subrules are exactly those whose number contains the query or whose lower-cased text contains the lower-cased query; when all match, the list is unchanged |
| RulesSearch.MatchingSubrulesAppend | ms-mjc-front/src/components/RulesSearch.jsx:63-67 | the filter keeps the subrules' order: filtering a concatenation is concatenating the filtered parts |
| RulesSearch.PartialMatch | ms-mjc-front/src/components/RulesSearch.jsx:75-76 | a result is partial exactly when some but not all subrules match; a partial result shows fewer subrules, a full one shows them all |
| RulesSearch.SearchMembership | ms-mjc-front/src/components/RulesSearch.jsx:54-80 | a row is in the results exactly when it is the projection of some rule that matches by number, title or subrule |
| RulesSearch.SearchAppend | ms-mjc-front/src/components/RulesSearch.jsx:54-80 | searching consecutive parts of the document and concatenating is searching the whole, so results keep document order |
| RulesSearch.SearchBounded | ms-mjc-front/src/components/RulesSearch.jsx:54-80 | there are never more results than rules |
| RulesSearch.UntrimmedQuery | ms-mjc-front/src/components/RulesSearch.jsx:57 | the rule-number test uses the untrimmed query: `" 603"` is not blank and does not find rule 603 titled "Stack", while `"603"` does |
| RulesSearch.HighlightText | ms-mjc-front/src/components/RulesSearch.jsx:89-94 | a blank query returns the text unchanged; otherwise the output renders pieces that spell out the text, where a piece is marked exactly when the query occurs, ignoring case, where that piece starts, and each mark covers one whole occurrence |
| RulesSearch.ScanMarksEveryOccurrence | ms-mjc-front/src/components/RulesSearch.jsx:92-93 | the `gi` scan marks every occurrence it reaches, leftmost first and without overlap, and only those |
| RulesSearch.EscapeIsLiteral | ms-mjc-front/src/components/RulesSearch.jsx:92 | the escaped query is a pattern with no operator left, standing for the query literally |
| RulesSearch.HighlightRoundTrip | ms-mjc-front/src/components/RulesSearch.jsx:92-93 | removing the marks gives back the original text, with its original casing |
| RulesSearch.MarksAreQuery | ms-mjc-front/src/components/RulesSearch.jsx:92-93 | every marked stretch equals the query ignoring case |
| RulesSearch.MarkedIff | ms-mjc-front/src/components/RulesSearch.jsx:92-93 | something is marked exactly when the text contains the query ignoring case |
| RulesSearch.NoMatchUnchanged | ms-mjc-front/src/components/RulesSearch.jsx:93 | when the query does not occur, the text comes back unchanged |
| GlossarySearch.FilterMembership | ms-mjc-front/src/components/GlossarySearch.jsx:28-36 | an entry is shown exactly when it is in the glossary and each box is empty or contained, ignoring case, in its field |
| GlossarySearch.FilterAppend | ms-mjc-front/src/components/GlossarySearch.jsx:28-36 | filtering keeps the glossary's order |
| GlossarySearch.FilterIntersection | ms-mjc-front/src/components/GlossarySearch.jsx:28-36 | the two boxes filter independently: the result is the term filter followed by the text filter, in either order |
| GlossarySearch.ClearedShowsAll | ms-mjc-front/src/components/GlossarySearch.jsx:41-44 | after clearing both boxes every entry is shown |
| GlossarySearch.NonLetterQuery | ms-mjc-front/src/components/GlossarySearch.jsx:29-30 | a box holding one non-letter character keeps exactly the fields in which that character occurs, case folding playing no part |
| GlossarySearch.SpaceQuery | ms-mjc-front/src/components/GlossarySearch.jsx:29-30 | a box holding one space is a real filter: it keeps exactly the fields that contain a space |
| GlossarySearch.SpaceIsNotEmpty | ms-mjc-front/src/components/GlossarySearch.jsx:29-30 | only the exact empty string disables a box: a single space rejects a one-word term |
| ServiceWorker.ManifestInScope | ms-mjc-front/public/sw.js:1-19 | the manifest has thirteen paths, all inside the worker's `/mtg-rules/` scope |
| ServiceWorker.CacheMatch | ms-mjc-front/public/sw.js:70 | a lookup finds something exactly when some cache holds the URL, and then it is that URL's response in the first cache that holds it |
| ServiceWorker.Worker.OnInstall | ms-mjc-front/public/sw.js:22-38 | install opens `mtg-rules-v1`, stores every manifest response only when all of them succeeded, and reaches `skipWaiting` exactly then |
| ServiceWorker.FailedInstallChangesNoLookup | ms-mjc-front/public/sw.js:24-36 | a failed install at most adds an empty cache: every existing cache and every lookup is unchanged |
| ServiceWorker.Worker.OnActivate | ms-mjc-front/public/sw.js:41-60 | activation deletes, one name at a time, every cache not named `mtg-rules-v1` |
| ServiceWorker.ActivationKeepsOnlyCurrent | ms-mjc-front/public/sw.js:44-53 | after activation a cache remains exactly when it existed and is named `mtg-rules-v1`, with its entries untouched |
| ServiceWorker.InstallThenActivate | ms-mjc-front/public/sw.js:22-76 | after a successful install and activation, every manifest URL is served from the cache with what install fetched, whatever its Accept header and whatever the network does |
| ServiceWorker.Worker.OnFetch | ms-mjc-front/public/sw.js:63-128 | the fetch handler answers `Decide` and leaves the storage as `AfterFetch` |
| ServiceWorker.OutOfScopeIgnored | ms-mjc-front/public/sw.js:65-67 | a URL without `/mtg-rules/` is not handled and changes nothing |
| ServiceWorker.CacheHitIgnoresNetwork | ms-mjc-front/public/sw.js:70-76 | a cache hit is served as stored, whatever the network would deliver, and stores nothing |
| ServiceWorker.StoresOnlyCacheable | ms-mjc-front/public/sw.js:80-95 | storage changes only for a present response with status 200 and type `basic`, and the page gets that same response |
| ServiceWorker.PutThenMatch | ms-mjc-front/public/sw.js:89-93 | after storing a missing URL, a lookup of it finds the stored response, and lookups of other URLs are unaffected |
| ServiceWorker.CachedMissBecomesHit | ms-mjc-front/public/sw.js:86-95 | a cacheable miss is returned to the page, and the next request for the same URL is served from the cache without the network |
| ServiceWorker.OfflineFallback | ms-mjc-front/public/sw.js:97-124 | on a miss with the network unreachable, a request accepting `text/html` gets the offline page (`text/html`, with a link to `/mtg-rules/`) and any other request fails; nothing is stored |
| ViewState.CategoriesShape | ms-mjc-front/src/components/CategoriesView.jsx:3-13 | there are nine categories, with ids "1" to "9" in order |
| ViewState.FindCategory | ms-mjc-front/src/components/CategoriesView.jsx:39 | the lookup returns a category with that id from the list, and none exactly when no category has it |
| ViewState.FindCategoryByDigit | ms-mjc-front/src/components/CategoriesView.jsx:3-13 | looking up the digit n finds the n-th category; any other id finds none |
| ViewState.CategoriesView.constructor | ms-mjc-front/src/components/CategoriesView.jsx:16-19 | the page starts with nothing selected, no rules shown and nothing expanded |
| ViewState.CategoriesView.HandleCategorySelect | ms-mjc-front/src/components/CategoriesView.jsx:38-47 | when a loaded section has the id, the category is selected, that first section's rules are shown and nothing is expanded; otherwise nothing changes; the shown rules stay those of the selected category |
| ViewState.CategoriesView.ToggleRuleExpansion | ms-mjc-front/src/components/CategoriesView.jsx:49-57 | the expanded set is toggled at the rule number and nothing else changes |
| ViewState.CategoriesView.GoBackToCategories | ms-mjc-front/src/components/CategoriesView.jsx:59-63 | the selection is cleared, no rules are shown and nothing is expanded |
| ViewState.Toggle | ms-mjc-front/src/components/RulesSections.jsx:26-32 | toggling adds the item when absent and removes it when present; every other item keeps its membership |
| ViewState.ToggleTwice | ms-mjc-front/src/components/RulesSections.jsx:25-33 | toggling the same item twice restores the expanded set |
| ViewState.RulesSections.ToggleSection | ms-mjc-front/src/components/RulesSections.jsx:25-33 | the expanded sections are toggled at the section id |

## Left out

- Reading and writing files, JSON encoding, `save_to_json`, the command-line `main` functions and every `fetch` of the JSON data are I/O. The parsers take the text as a list of lines: `split('\n')` for the rules, `readlines()` for the glossary. The pages take the loaded data as a value.
- The UTF-8 BOM handling of `open(..., encoding='utf-8-sig')` happens before any line is seen. It is not modelled.
- Python's `\d` and `str.upper`, and JavaScript's `toLowerCase` and the regex `i` flag, all know Unicode digits and letter case. The model uses ASCII digits and ASCII letter case. Whitespace, by contrast, follows each language's full definition.
- `RulesSearch.HighlightText`: only the text it produces is modelled. How React inserts that HTML into the page is not.
- Loading flags, spinners, console logging and all JSX rendering are left out, and so is `handleSubsectionClick`, which only logs. The sections index's list of sections is loaded data that `toggleSection` never reads; only the expanded set is modelled.
- The service worker is modelled without promises, with the following simplifications:
  - Each handler's effects happen in order before the next event.
  - The cache write after a network fetch is not awaited in the original. It is applied at once here.
  - The deletions on activate run concurrently in the original. They are applied one after another here.
- Service worker lifecycle effects are not modelled: `skipWaiting` is reported as a boolean, and `clients.claim` is left out.
- Cache keys are request URLs only. Request methods, `Vary`, query-matching options and `response.clone` (bodies are values here) are not modelled.
- `cache.addAll` is taken as all-or-nothing, which is what the Cache API promises.
- The offline page's body is built from the template's lines without their indentation.
- The background-sync and push handlers after the fetch handler, the chat component and the site configuration are not part of this model.
