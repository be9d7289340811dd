/** The state of the projects page: the search box, the category drop-down
    and the selected skill buttons, with the values derived from them. */
module Page {
  import opened PortfolioData
  import opened Seqs
  import opened Text
  import opened ProjectFilter
  import SkillUniverse
  import SkillToggle

  class ProjectsPage {
    /** The categories shown, supplied from outside and never changed. */
    const categories: seq<Category>
    var searchTerm: string
    var selectedCategory: string
    var selectedSkills: seq<string>

    /** Toggling from an empty list never lists a skill twice. */
    ghost predicate Valid()
      reads this
      ensures Valid() ==> forall s :: s in selectedSkills ==> multiset(selectedSkills)[s] == 1
    {
      if NoDuplicates(selectedSkills) then
        DistinctAllOccurOnce(selectedSkills);
        true
      else
        false
    }

    /** The page's initial state: no term, every category, no skill. */
    constructor (categories: seq<Category>)
      ensures this.categories == categories
      ensures searchTerm == "" && selectedCategory == ALL_CATEGORIES && selectedSkills == []
      ensures Valid()
    {
      this.categories := categories;
      searchTerm := "";
      selectedCategory := ALL_CATEGORIES;
      selectedSkills := [];
    }

    /** The skill buttons, recomputed from the categories. */
    function AllSkills(): (r: seq<string>)
      ensures forall s :: s in r <==> exists c, p :: c in categories && p in c.projects && s in p.skills
      ensures NoDuplicates(r)
      ensures forall i, j :: 0 <= i < j < |r| ==> LexLt(r[i], r[j])
    {
      SkillUniverse.AllSkills(categories)
    }

    /** The categories shown for the current filters. */
    function View(): (r: seq<Category>)
      reads this
      ensures forall c :: c in r ==> |c.projects| > 0
      ensures forall c, p :: c in r && p in c.projects ==> Matches(c.id, p, searchTerm, selectedCategory, selectedSkills)
    {
      FilteredCategories(categories, searchTerm, selectedCategory, selectedSkills)
    }

    /** Typing in the search box replaces the term. */
    method SetSearchTerm(term: string)
      requires Valid()
      modifies this
      ensures Valid()
      ensures searchTerm == term
      ensures selectedCategory == old(selectedCategory) && selectedSkills == old(selectedSkills)
    {
      searchTerm := term;
    }

    /** Choosing in the drop-down replaces the category selection. */
    method SetSelectedCategory(id: string)
      requires Valid()
      modifies this
      ensures Valid()
      ensures selectedCategory == id
      ensures searchTerm == old(searchTerm) && selectedSkills == old(selectedSkills)
      ensures id != ALL_CATEGORIES ==> forall c :: c in View() ==> c.id == id
    {
      selectedCategory := id;
      if id != ALL_CATEGORIES {
        SelectedCategoryOnly(categories, searchTerm, selectedCategory, selectedSkills);
      }
    }

    /** A skill button flips that skill's membership in the selection. */
    method ToggleSkill(skill: string)
      requires Valid()
      modifies this
      ensures Valid()
      ensures selectedSkills == SkillToggle.Toggle(old(selectedSkills), skill)
      ensures skill in selectedSkills <==> skill !in old(selectedSkills)
      ensures skill in old(selectedSkills) ==> |selectedSkills| == |old(selectedSkills)| - 1
      ensures skill !in old(selectedSkills) ==> |selectedSkills| == |old(selectedSkills)| + 1
      ensures searchTerm == old(searchTerm) && selectedCategory == old(selectedCategory)
    {
      SkillToggle.ToggleKeepsDistinct(selectedSkills, skill);
      selectedSkills := SkillToggle.Toggle(selectedSkills, skill);
    }

    /** The "Clear Filters" button and the "Clear all filters" button of the
        empty view: back to the initial filters, which show every category
        that has a project. */
    method ClearFilters()
      requires Valid()
      modifies this
      ensures Valid()
      ensures searchTerm == "" && selectedCategory == ALL_CATEGORIES && selectedSkills == []
      ensures View() == DropEmpty(categories)
    {
      searchTerm := "";
      selectedCategory := ALL_CATEGORIES;
      selectedSkills := [];
      NoFiltersShowsNonEmpty(categories);
    }
  }
}
