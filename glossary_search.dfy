/**
 * The glossary search page: two independent boxes, one for the term and one
 * for the definition text. An entry is shown when each box is empty or its
 * field contains the box's text, ignoring case.
 */
module GlossarySearch {
  import opened Text
  import opened GlossaryParser

  /** The two search boxes. */
  datatype Queries = Queries(termSearch: string, textSearch: string)

  /** One side of the filter: only the exact empty string is "no filter"; spaces are searched for. */
  predicate FieldMatches(field: string, query: string) {
    query == "" || Contains(Lower(field), Lower(query))
  }

  predicate Keep(e: GlossaryEntry, q: Queries) {
    FieldMatches(e.term, q.termSearch) && FieldMatches(e.text, q.textSearch)
  }

  /** `glossaryData.filter(...)`. */
  function Filter(data: seq<GlossaryEntry>, q: Queries): seq<GlossaryEntry> {
    if data == [] then []
    else (if Keep(data[0], q) then [data[0]] else []) + Filter(data[1..], q)
  }

  /** `clearFilters()`: both boxes emptied. */
  const Cleared: Queries := Queries("", "")

  /** The results are the entries that pass both sides, and nothing else. */
  lemma {:induction false} FilterMembership(data: seq<GlossaryEntry>, q: Queries, e: GlossaryEntry)
    ensures e in Filter(data, q) <==> e in data && Keep(e, q)
  {
    if data != [] {
      FilterMembership(data[1..], q, e);
      assert data == [data[0]] + data[1..];
    }
  }

  /** The results keep the glossary's order: filtering a concatenation is concatenating the results. */
  lemma {:induction false} FilterAppend(a: seq<GlossaryEntry>, b: seq<GlossaryEntry>, q: Queries)
    ensures Filter(a + b, q) == Filter(a, q) + Filter(b, q)
  {
    if a != [] {
      assert (a + b)[1..] == a[1..] + b;
      FilterAppend(a[1..], b, q);
    } else {
      assert a + b == b;
    }
  }

  /**
   * The combined filter is the intersection of the two one-box filters,
   * applied in either order.
   */
  lemma {:induction false} FilterIntersection(data: seq<GlossaryEntry>, q: Queries)
    ensures Filter(data, q) == Filter(Filter(data, Queries(q.termSearch, "")), Queries("", q.textSearch))
    ensures Filter(data, q) == Filter(Filter(data, Queries("", q.textSearch)), Queries(q.termSearch, ""))
  {
    if data != [] {
      FilterIntersection(data[1..], q);
      var e := data[0];
      var byTerm := Queries(q.termSearch, "");
      var byText := Queries("", q.textSearch);
      FilterAppend(if Keep(e, byTerm) then [e] else [], Filter(data[1..], byTerm), byText);
      FilterAppend(if Keep(e, byText) then [e] else [], Filter(data[1..], byText), byTerm);
    }
  }

  /** After `clearFilters` every entry is shown. */
  lemma {:induction false} ClearedShowsAll(data: seq<GlossaryEntry>)
    ensures Filter(data, Cleared) == data
  {
    if data != [] {
      ClearedShowsAll(data[1..]);
      assert data == [data[0]] + data[1..];
    }
  }

  /** A query of one space is a real filter: it rejects a one-word term. */
  /** A one-character pattern occurs exactly when that character does. */
  lemma {:induction false} ContainsChar(s: string, c: char)
    ensures Contains(s, [c]) <==> c in s
    decreases |s|
  {
    if s != [] {
      ContainsChar(s[1..], c);
      assert s == [s[0]] + s[1..];
    }
  }

  /**
   * A box holding one character that is not a letter (a space, a digit, a
   * punctuation mark) keeps exactly the fields in which that character occurs.
   */
  lemma NonLetterQuery(field: string, c: char)
    requires !('A' <= c <= 'Z') && !('a' <= c <= 'z')
    ensures FieldMatches(field, [c]) <==> c in field
  {
    var t := Lower(field);
    assert Lower([c]) == [c];
    ContainsChar(t, c);
    if c in t {
      var k :| 0 <= k < |t| && t[k] == c;
      assert field[k] == c;
    }
    if c in field {
      var k :| 0 <= k < |field| && field[k] == c;
      assert t[k] == c;
    }
  }

  /**
   * A box holding a single space is a real filter, not "no filter": it keeps
   * exactly the fields with a space in them.
   */
  lemma SpaceQuery(field: string)
    ensures FieldMatches(field, " ") <==> ' ' in field
  {
    NonLetterQuery(field, ' ');
  }

  /** So a one-word field such as `Abandon` is filtered out by a space. */
  lemma SpaceIsNotEmpty()
    ensures !FieldMatches("Abandon", " ")
  {
    SpaceQuery("Abandon");
  }
}
