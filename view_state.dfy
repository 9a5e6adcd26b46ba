/**
 * The state of the two browsing pages: the categories page (pick a section,
 * expand its rules one by one, go back) and the sections index (expand and
 * collapse sections). Both keep the expanded items as a set that a click
 * toggles.
 */
module ViewState {
  import opened Optional
  import opened RulesData

  /** A click on an item: it becomes expanded if it was collapsed and collapsed if it was expanded. */
  function Toggle(expanded: set<string>, item: string): (r: set<string>)
    ensures item in r <==> item !in expanded
    ensures forall other :: other != item ==> (other in r <==> other in expanded)
  {
    if item in expanded then expanded - {item} else expanded + {item}
  }

  /** Clicking the same item twice leaves the expanded set as it was. */
  lemma ToggleTwice(expanded: set<string>, item: string)
    ensures Toggle(Toggle(expanded, item), item) == expanded
  {
  }

  datatype Category = Category(id: string, title: string, description: string)

  /** The nine sections of the Comprehensive Rules, as offered on the categories page. */
  const Categories: seq<Category> := [
    Category("1", "Game Concepts", "Basic game rules and fundamental concepts"),
    Category("2", "Parts of a Card", "Card anatomy and components"),
    Category("3", "Card Types", "Different types of cards (creatures, instants, etc.)"),
    Category("4", "Zones", "Game zones like battlefield, graveyard, library"),
    Category("5", "Turn Structure", "How turns work and game phases"),
    Category("6", "Spells, Abilities, and Effects", "How spells and abilities work"),
    Category("7", "Additional Rules", "Special rules and interactions"),
    Category("8", "Multiplayer Rules", "Rules for multiplayer games"),
    Category("9", "Casual Variants", "Alternative game formats")
  ]

  /** `CATEGORIES.find(cat => cat.id === id)`. */
  function FindCategory(cats: seq<Category>, id: string): (r: Option<Category>)
    ensures r.Some? ==> r.value in cats && r.value.id == id
    ensures r.None? <==> forall k :: 0 <= k < |cats| ==> cats[k].id != id
  {
    if cats == [] then None
    else if cats[0].id == id then Some(cats[0])
    else
      var r := FindCategory(cats[1..], id);
      assert forall k :: 1 <= k < |cats| ==> cats[k] == cats[1..][k - 1];
      r
  }

  /** The single digit naming section `n`. */
  function Digit(n: nat): string
    requires 1 <= n <= 9
  {
    [(48 + n) as char]
  }

  /** There are nine categories, with ids "1" to "9" in order. */
  lemma CategoriesShape()
    ensures |Categories| == 9
    ensures forall k :: 0 <= k < 9 ==> Categories[k].id == Digit(k + 1)
  {
  }

  /** Looking up a digit finds its own category; any other id finds none. */
  lemma FindCategoryByDigit(id: string)
    ensures (exists n :: 1 <= n <= 9 && id == Digit(n)) ==> FindCategory(Categories, id).Some?
    ensures forall n :: 1 <= n <= 9 && id == Digit(n) ==> FindCategory(Categories, id) == Some(Categories[n - 1])
    ensures (forall n :: 1 <= n <= 9 ==> id != Digit(n)) ==> FindCategory(Categories, id).None?
  {
    CategoriesShape();
    forall n | 1 <= n <= 9 && id == Digit(n) ensures FindCategory(Categories, id) == Some(Categories[n - 1]) {
      assert Categories[n - 1].id == id;
      assert forall k :: 0 <= k < 9 && k != n - 1 ==> Categories[k].id != id;
    }
    if forall n :: 1 <= n <= 9 ==> id != Digit(n) {
      forall k | 0 <= k < |Categories| ensures Categories[k].id != id {
        assert Categories[k].id == Digit(k + 1);
      }
    }
  }

  /** The categories page: the loaded rules, the chosen category, its rules, and which rules are expanded. */
  class CategoriesView {
    var rulesData: seq<Section>
    var selectedCategory: Option<Category>
    var categoryRules: seq<Rule>
    var expandedRules: set<string>

    /** The rules on show are the first loaded section whose number is the category's id. */
    predicate Valid()
      reads this
    {
      selectedCategory.Some? ==>
        var k := FindSection(rulesData, selectedCategory.value.id);
        k.Some? && categoryRules == rulesData[k.value].rules
    }

    /** The page once the rules have loaded: nothing selected, nothing expanded. */
    constructor (loaded: seq<Section>)
      ensures rulesData == loaded && selectedCategory == None && categoryRules == [] && expandedRules == {}
      ensures Valid()
    {
      rulesData := loaded;
      selectedCategory := None;
      categoryRules := [];
      expandedRules := {};
    }

    /**
     * Choosing a category: when a loaded section has that number, it is shown
     * with every rule collapsed; otherwise nothing changes.
     */
    method HandleCategorySelect(categoryId: string)
      modifies this
      ensures rulesData == old(rulesData)
      ensures FindSection(rulesData, categoryId).Some? ==>
        selectedCategory == FindCategory(Categories, categoryId)
        && categoryRules == rulesData[FindSection(rulesData, categoryId).value].rules
        && expandedRules == {}
      ensures FindSection(rulesData, categoryId).None? ==>
        selectedCategory == old(selectedCategory) && categoryRules == old(categoryRules) && expandedRules == old(expandedRules)
      ensures old(Valid()) ==> Valid()
    {
      var category := FindCategory(Categories, categoryId);
      var sectionData := FindSection(rulesData, categoryId);
      if sectionData.Some? {
        selectedCategory := category;
        categoryRules := rulesData[sectionData.value].rules;
        expandedRules := {};
      }
    }

    /** Expanding or collapsing one rule; nothing else changes. */
    method ToggleRuleExpansion(ruleNumber: string)
      modifies this
      ensures expandedRules == Toggle(old(expandedRules), ruleNumber)
      ensures rulesData == old(rulesData) && selectedCategory == old(selectedCategory) && categoryRules == old(categoryRules)
      ensures Valid() == old(Valid())
    {
      var newExpanded := expandedRules;
      if ruleNumber in newExpanded {
        newExpanded := newExpanded - {ruleNumber};
      } else {
        newExpanded := newExpanded + {ruleNumber};
      }
      expandedRules := newExpanded;
    }

    /** Back to the list of categories: nothing selected, no rules, nothing expanded. */
    method GoBackToCategories()
      modifies this
      ensures rulesData == old(rulesData)
      ensures selectedCategory == None && categoryRules == [] && expandedRules == {}
      ensures Valid()
    {
      selectedCategory := None;
      categoryRules := [];
      expandedRules := {};
    }
  }

  /** The sections index: which sections are expanded. */
  class RulesSections {
    var expandedSections: set<string>

    constructor ()
      ensures expandedSections == {}
    {
      expandedSections := {};
    }

    /** Expanding or collapsing one section. */
    method ToggleSection(sectionId: string)
      modifies this
      ensures expandedSections == Toggle(old(expandedSections), sectionId)
    {
      var newExpandedSections := expandedSections;
      if sectionId in newExpandedSections {
        newExpandedSections := newExpandedSections - {sectionId};
      } else {
        newExpandedSections := newExpandedSections + {sectionId};
      }
      expandedSections := newExpandedSections;
    }
  }
}
