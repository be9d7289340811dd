/** The page's `filteredCategories`: each category keeps the projects that
    match the search term, the selected category and every selected skill;
    categories left without projects are dropped. */
module ProjectFilter {
  import opened PortfolioData
  import opened Text
  import opened Seqs
  import SkillUniverse

  /** The category selection that lets every category through. */
  const ALL_CATEGORIES: string := "all"

  /** `tags.some(tag => tag.toLowerCase().includes(t))`. */
  predicate SomeTagIncludes(tags: seq<string>, t: string)
    ensures SomeTagIncludes(tags, t) <==> exists tag :: tag in tags && Occurs(t, Lower(tag))
    decreases |tags|
  {
    if tags == [] then false
    else
      var head := Includes(Lower(tags[0]), t);
      var rest := SomeTagIncludes(tags[1..], t);
      assert forall tag :: tag in tags <==> tag == tags[0] || tag in tags[1..];
      assert head <==> Occurs(t, Lower(tags[0]));
      assert rest <==> exists tag :: tag in tags[1..] && Occurs(t, Lower(tag));
      head || rest
  }

  /** The lower-cased term occurs in the lower-cased title, description or some tag. */
  predicate MatchesSearch(p: Project, term: string)
    ensures MatchesSearch(p, term) <==>
      Occurs(Lower(term), Lower(p.title))
      || Occurs(Lower(term), Lower(p.description))
      || exists tag :: tag in p.tags && Occurs(Lower(term), Lower(tag))
  {
    var t := Lower(term);
    Includes(Lower(p.title), t) || Includes(Lower(p.description), t) || SomeTagIncludes(p.tags, t)
  }

  /** `'all'` lets every category through; any other selection only its own id. */
  predicate MatchesCategory(categoryId: string, selectedCategory: string) {
    selectedCategory == ALL_CATEGORIES || categoryId == selectedCategory
  }

  /** The empty-list short cut agrees with `every`: a project passes exactly
      when it has every selected skill. */
  predicate MatchesSkills(p: Project, selectedSkills: seq<string>)
    ensures MatchesSkills(p, selectedSkills) <==> forall s :: s in selectedSkills ==> s in p.skills
  {
    |selectedSkills| == 0 || forall s :: s in selectedSkills ==> s in p.skills
  }

  /** The project filter's callback, for a project of the category `categoryId`. */
  predicate Matches(categoryId: string, p: Project, term: string, selectedCategory: string, selectedSkills: seq<string>)
  {
    MatchesSearch(p, term) && MatchesCategory(categoryId, selectedCategory) && MatchesSkills(p, selectedSkills)
  }

  /** `category.projects.filter(...)`. */
  function FilterProjects(categoryId: string, ps: seq<Project>, term: string, selectedCategory: string, selectedSkills: seq<string>): (r: seq<Project>)
    ensures Subseq(r, ps)
    ensures forall p :: p in r <==> p in ps && Matches(categoryId, p, term, selectedCategory, selectedSkills)
    ensures forall p :: multiset(r)[p] == if Matches(categoryId, p, term, selectedCategory, selectedSkills) then multiset(ps)[p] else 0
    decreases |ps|
  {
    if ps == [] then []
    else
      var rest := FilterProjects(categoryId, ps[1..], term, selectedCategory, selectedSkills);
      assert forall p :: p in ps <==> p == ps[0] || p in ps[1..];
      assert ps == [ps[0]] + ps[1..];
      if Matches(categoryId, ps[0], term, selectedCategory, selectedSkills) then [ps[0]] + rest else rest
  }

  /** `{ ...category, projects: <filtered> }`: the header is kept, the projects narrowed. */
  function Narrow(c: Category, term: string, selectedCategory: string, selectedSkills: seq<string>): (r: Category)
    ensures r.id == c.id && r.name == c.name && r.description == c.description
    ensures Subseq(r.projects, c.projects)
    ensures forall p :: p in r.projects <==> p in c.projects && Matches(c.id, p, term, selectedCategory, selectedSkills)
    ensures forall p :: multiset(r.projects)[p] == if Matches(c.id, p, term, selectedCategory, selectedSkills) then multiset(c.projects)[p] else 0
  {
    c.(projects := FilterProjects(c.id, c.projects, term, selectedCategory, selectedSkills))
  }

  /** `categories.map(...)`: one narrowed category per input category, in the
      same position, with the same header. */
  function NarrowAll(cats: seq<Category>, term: string, selectedCategory: string, selectedSkills: seq<string>): (r: seq<Category>)
    ensures |r| == |cats|
    ensures forall i :: 0 <= i < |cats| ==>
      r[i].id == cats[i].id && r[i].name == cats[i].name && r[i].description == cats[i].description
      && Subseq(r[i].projects, cats[i].projects)
      && (forall p :: p in r[i].projects <==> p in cats[i].projects && Matches(cats[i].id, p, term, selectedCategory, selectedSkills))
      && forall p :: multiset(r[i].projects)[p] == if Matches(cats[i].id, p, term, selectedCategory, selectedSkills) then multiset(cats[i].projects)[p] else 0
  {
    seq(|cats|, i requires 0 <= i < |cats| => Narrow(cats[i], term, selectedCategory, selectedSkills))
  }

  /** `.filter(category => category.projects.length > 0)`. */
  function DropEmpty(cs: seq<Category>): (r: seq<Category>)
    ensures Subseq(r, cs)
    ensures forall c :: c in r <==> c in cs && |c.projects| > 0
    ensures forall c :: multiset(r)[c] == if |c.projects| > 0 then multiset(cs)[c] else 0
    decreases |cs|
  {
    if cs == [] then []
    else
      var rest := DropEmpty(cs[1..]);
      assert forall c :: c in cs <==> c == cs[0] || c in cs[1..];
      assert cs == [cs[0]] + cs[1..];
      if |cs[0].projects| > 0 then [cs[0]] + rest else rest
  }

  /** The filtered view: every category shown has a project, and every project
      shown passes all three conditions; the view keeps the input's order. */
  function FilteredCategories(cats: seq<Category>, term: string, selectedCategory: string, selectedSkills: seq<string>): (r: seq<Category>)
    ensures Subseq(r, NarrowAll(cats, term, selectedCategory, selectedSkills))
    ensures forall c :: c in r ==> |c.projects| > 0
    ensures forall c, p :: c in r && p in c.projects ==> Matches(c.id, p, term, selectedCategory, selectedSkills)
    ensures forall c :: multiset(r)[c] == if |c.projects| > 0 then multiset(NarrowAll(cats, term, selectedCategory, selectedSkills))[c] else 0
  {
    DropEmpty(NarrowAll(cats, term, selectedCategory, selectedSkills))
  }

  /** Each category of the view is the narrowing of some input category. */
  lemma FilteredFromInput(cats: seq<Category>, term: string, selectedCategory: string, selectedSkills: seq<string>, c: Category)
    requires c in FilteredCategories(cats, term, selectedCategory, selectedSkills)
    ensures exists i :: 0 <= i < |cats| && c == Narrow(cats[i], term, selectedCategory, selectedSkills)
  {
    var n := NarrowAll(cats, term, selectedCategory, selectedSkills);
    var i :| 0 <= i < |n| && n[i] == c;
    assert c == Narrow(cats[i], term, selectedCategory, selectedSkills);
  }

  /** Every input project that passes all three conditions is shown, inside
      its own category's narrowing. */
  lemma FilteredComplete(cats: seq<Category>, term: string, selectedCategory: string, selectedSkills: seq<string>, i: int, p: Project)
    requires 0 <= i < |cats| && p in cats[i].projects
    requires Matches(cats[i].id, p, term, selectedCategory, selectedSkills)
    ensures Narrow(cats[i], term, selectedCategory, selectedSkills) in FilteredCategories(cats, term, selectedCategory, selectedSkills)
    ensures p in Narrow(cats[i], term, selectedCategory, selectedSkills).projects
  {
    var n := NarrowAll(cats, term, selectedCategory, selectedSkills);
    assert n[i] in n;
  }

  /** Every project shown comes from an input category with the same id. */
  lemma {:induction false} FilteredProjectFromInput(cats: seq<Category>, term: string, selectedCategory: string, selectedSkills: seq<string>, c: Category, p: Project)
    requires c in FilteredCategories(cats, term, selectedCategory, selectedSkills)
    requires p in c.projects
    ensures exists d :: d in cats && d.id == c.id && p in d.projects
  {
    FilteredFromInput(cats, term, selectedCategory, selectedSkills, c);
    var i :| 0 <= i < |cats| && c == Narrow(cats[i], term, selectedCategory, selectedSkills);
    assert cats[i] in cats;
  }

  /** A term matches every project once it is empty. */
  lemma EmptyTermMatches(p: Project)
    ensures MatchesSearch(p, "")
  {
    IncludesEmpty(Lower(p.title));
  }

  /** A tag containing the term is enough, whatever the title and description. */
  lemma TagMatchSuffices(p: Project, term: string, tag: string, k: int)
    requires tag in p.tags
    requires OccursAt(Lower(term), Lower(tag), k)
    ensures MatchesSearch(p, term)
  {
    assert Includes(Lower(tag), Lower(term));
  }

  /** Searching ignores case: a term and its lower-case form match the same projects. */
  lemma SearchIgnoresCase(p: Project, term: string)
    ensures MatchesSearch(p, term) <==> MatchesSearch(p, Lower(term))
  {
    LowerIdempotent(term);
  }

  /** Filtering with nothing rejected returns the list itself. */
  lemma {:induction false} FilterKeepsMatching(categoryId: string, ps: seq<Project>, term: string, selectedCategory: string, selectedSkills: seq<string>)
    requires forall p :: p in ps ==> Matches(categoryId, p, term, selectedCategory, selectedSkills)
    ensures FilterProjects(categoryId, ps, term, selectedCategory, selectedSkills) == ps
    decreases |ps|
  {
    if ps != [] {
      assert ps[0] in ps;
      FilterKeepsMatching(categoryId, ps[1..], term, selectedCategory, selectedSkills);
      assert ps == [ps[0]] + ps[1..];
    }
  }

  /** With an empty term, every category and no skill selected, the view is the
      input categories that have at least one project, each unchanged. */
  lemma NoFiltersShowsNonEmpty(cats: seq<Category>)
    ensures FilteredCategories(cats, "", ALL_CATEGORIES, []) == DropEmpty(cats)
  {
    forall i | 0 <= i < |cats|
      ensures Narrow(cats[i], "", ALL_CATEGORIES, []) == cats[i]
    {
      forall p | p in cats[i].projects ensures Matches(cats[i].id, p, "", ALL_CATEGORIES, []) {
        EmptyTermMatches(p);
      }
      FilterKeepsMatching(cats[i].id, cats[i].projects, "", ALL_CATEGORIES, []);
    }
    assert NarrowAll(cats, "", ALL_CATEGORIES, []) == cats;
  }

  /** Skills combine with AND: a project that lacks one selected skill is not shown. */
  lemma MissingSkillExcluded(cats: seq<Category>, term: string, selectedCategory: string, selectedSkills: seq<string>, p: Project, s: string)
    requires s in selectedSkills && s !in p.skills
    ensures forall c :: c in FilteredCategories(cats, term, selectedCategory, selectedSkills) ==> p !in c.projects
  {
  }

  /** Selecting a skill that no project has leaves the view empty. */
  lemma UnknownSkillEmptiesView(cats: seq<Category>, term: string, selectedCategory: string, selectedSkills: seq<string>, s: string)
    requires s in selectedSkills
    requires s !in SkillUniverse.AllSkills(cats)
    ensures FilteredCategories(cats, term, selectedCategory, selectedSkills) == []
  {
    var r := FilteredCategories(cats, term, selectedCategory, selectedSkills);
    if r != [] {
      var c := r[0];
      assert c in r;
      var p := c.projects[0];
      assert p in c.projects;
      FilteredProjectFromInput(cats, term, selectedCategory, selectedSkills, c, p);
      assert false;
    }
  }

  /** Once a category is selected, only that category can be shown. */
  lemma SelectedCategoryOnly(cats: seq<Category>, term: string, selectedCategory: string, selectedSkills: seq<string>)
    requires selectedCategory != ALL_CATEGORIES
    ensures forall c :: c in FilteredCategories(cats, term, selectedCategory, selectedSkills) ==> c.id == selectedCategory
  {
    forall c | c in FilteredCategories(cats, term, selectedCategory, selectedSkills)
      ensures c.id == selectedCategory
    {
      assert c.projects[0] in c.projects;
    }
  }

  /** When the category test passes, it is the same as selecting `'all'`. */
  lemma {:induction false} FilterPassingCategory(categoryId: string, ps: seq<Project>, term: string, selectedCategory: string, selectedSkills: seq<string>)
    requires MatchesCategory(categoryId, selectedCategory)
    ensures FilterProjects(categoryId, ps, term, selectedCategory, selectedSkills)
         == FilterProjects(categoryId, ps, term, ALL_CATEGORIES, selectedSkills)
    decreases |ps|
  {
    if ps != [] {
      FilterPassingCategory(categoryId, ps[1..], term, selectedCategory, selectedSkills);
    }
  }

  /** The effect of selecting one category: its own category is narrowed as
      under `'all'`, and every other category loses all its projects. */
  lemma CategorySelectionEffect(c: Category, term: string, selectedCategory: string, selectedSkills: seq<string>)
    requires selectedCategory != ALL_CATEGORIES
    ensures c.id == selectedCategory ==>
      Narrow(c, term, selectedCategory, selectedSkills) == Narrow(c, term, ALL_CATEGORIES, selectedSkills)
    ensures c.id != selectedCategory ==> Narrow(c, term, selectedCategory, selectedSkills).projects == []
  {
    if c.id == selectedCategory {
      FilterPassingCategory(c.id, c.projects, term, selectedCategory, selectedSkills);
    }
  }
}
