/**
 * The rules document as the parser produces it and the browser components
 * read it: `{"mtgrules": [section, ...]}`, each section holding its rules and
 * each rule its subrules and examples.
 */
module RulesData {
  import opened Optional

  datatype Subrule = Subrule(subrule: string, text: string, examples: seq<string>)

  datatype Rule = Rule(rule: string, title: string, subrules: seq<Subrule>, examples: seq<string>)

  datatype Section = Section(section: string, title: string, rules: seq<Rule>)

  /** Index of the first section numbered `num`, if any (Python's `for ... break`, JavaScript's `find`). */
  function FindSection(sections: seq<Section>, num: string): (r: Option<nat>)
    ensures r.Some? ==> r.value < |sections| && sections[r.value].section == num
    ensures r.Some? ==> forall j :: 0 <= j < r.value ==> sections[j].section != num
    ensures r.None? ==> forall j :: 0 <= j < |sections| ==> sections[j].section != num
  {
    if sections == [] then None
    else if sections[0].section == num then Some(0)
    else match FindSection(sections[1..], num)
      case None => None
      case Some(k) => Some(k + 1)
  }
}
