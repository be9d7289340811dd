# Projects page filter engine, modelled in Dafny

The portfolio's projects page (`src/data/projects.ts`) lists project categories.
Each category has an id, a name, a description and a list of projects. Each project
has a title, a description, tags, skills, an award flag and optional links. The page
holds three filter fields: a search term, a selected category (`'all'` or a category
id) and a list of selected skills. From these it derives two values:

- **the skill universe** (`allSkills`): every skill of every project, once each,
  sorted;
- **the filtered view** (`filteredCategories`): each category keeps the projects
  that pass three tests. The case-insensitive search term must occur in the title,
  the description or a tag. The category must be the selected one, or the selection
  must be `'all'`. The project must have every selected skill. Categories left
  without projects are dropped.

A skill button toggles that skill in the selection. The "Clear Filters" button and the "Clear all filters" button of the empty view
reset the three fields.

Modules:

- `PortfolioData` (`portfolio_data.dfy`): the `Project` and `Category` records.
- `Seqs` (`seqs.dfy`): subsequence (order-preserving deletion) and duplicate-freedom.
- `Text` (`text.dfy`): ASCII lower-casing, `includes` as substring search, and the
  lexicographic order of the default sort.
- `SkillUniverse` (`skill_universe.dfy`): the flattening, the `Set` deduplication, the sort
  and `AllSkills`.
- `ProjectFilter` (`project_filter.dfy`): the three match predicates, the per-category
  narrowing, dropping empty categories, `FilteredCategories` and its lemmas.
- `SkillToggle` (`skill_toggle.dfy`): the list that `toggleSkill` computes.
- `Page` (`projects_page.dfy`): class `ProjectsPage`, which holds the three state fields.
  Its methods are the page's setters and handlers. Its invariant is that the
  selected skills never contain a duplicate.

Three points in the code shape the model:

- With no filter active, the view still drops categories that have no projects
  (`NoFiltersShowsNonEmpty`).
- Selected skills are a list, not a set, and a toggle removes every copy of the skill.
- There is no separate test for an empty term. An empty term matches every project
  because `''` occurs in every string (`EmptyTermMatches`).

The records `Project` and `Category` (`PortfolioData`) have the fields the page reads.
The filter reads title, description, tags and skills (lines 17, 25-32). The category
header reads id, name and description, and the card reads the project id (line 165), the
award flag and the two optional links (lines 141-241). Their declaring module `../types` is not part of this
model.

## Model

| member | source | states |
|---|---|---|
| `Text.LowerChar` | src/data/projects.ts:25-27 | the result is never an upper-case ASCII letter. 'A'-'Z' move to 'a'-'z', and every other character is unchanged. |
| `Text.Lower` | src/data/projects.ts:25-27 | lower-casing keeps the length and lower-cases each character. No upper-case letter is left (`LowerChar`). |
| `Text.Includes` | src/data/projects.ts:25-27 | `includes` is true exactly when the needle occurs in the haystack at some position. |
| `Text.LowerIdempotent` | src/data/projects.ts:25-27 | lower-casing an already lower-cased string changes nothing. |
| `Text.LexLe` | src/data/projects.ts:19 | the sort order: `a` comes first when it is a prefix of `b`, or when it has the smaller character at the first position where they differ. |
| `Text.LexLeTotal` | src/data/projects.ts:19 | any two strings are comparable in the sort order. |
| `Text.LexLeTrans` | src/data/projects.ts:19 | the sort order is transitive. |
| `Text.LexLeAntisymmetric` | src/data/projects.ts:19 | two strings that are each at most the other are equal. |
| `SkillUniverse.ProjectSkills` | src/data/projects.ts:17 | a skill is in the flattened list exactly when some project of the list has it. |
| `SkillUniverse.CategorySkills` | src/data/projects.ts:16-18 | a skill is in the flattened list exactly when some project of some category has it. |
| `SkillUniverse.Distinct` | src/data/projects.ts:15 | going through a `Set` leaves the same members with no duplicates. |
| `SkillUniverse.Insert` | src/data/projects.ts:19 | inserting into a sorted list keeps it sorted and adds exactly one copy of the element. A new element keeps the list duplicate-free. |
| `SkillUniverse.Sort` | src/data/projects.ts:19 | the result is sorted ascending and is a permutation (equal multiset) of the input. A duplicate-free input gives a duplicate-free output. |
| `SkillUniverse.AllSkills` | src/data/projects.ts:15-19 | a skill is listed exactly when some project in some category has it. No skill appears twice, and the list is strictly ascending. |
| `SkillUniverse.SortedDistinctUnique` | src/data/projects.ts:15-19 | two sorted, duplicate-free lists with the same members are equal. |
| `SkillUniverse.AllSkillsCanonical` | src/data/projects.ts:15-19 | any sorted, duplicate-free list of exactly the projects' skills is the skill universe. The universe therefore depends only on which skills exist. |
| `ProjectFilter.SomeTagIncludes` | src/data/projects.ts:27 | true exactly when some tag, lower-cased, contains the term. |
| `ProjectFilter.MatchesSearch` | src/data/projects.ts:25-27 | true exactly when the lower-cased term occurs in the lower-cased title, the lower-cased description or some lower-cased tag. |
| `ProjectFilter.MatchesSkills` | src/data/projects.ts:31-32 | the empty-list short cut agrees with `every`: a project passes exactly when it has every selected skill. |
| `ProjectFilter.FilterProjects` | src/data/projects.ts:24-35 | the kept projects are a subsequence of the category's projects. A project that passes all three tests (search, category, every skill; the conjunction at line 34) keeps every copy it had, and one that fails keeps none. |
| `ProjectFilter.Narrow` | src/data/projects.ts:22-35 | the category's id, name and description are unchanged. Its projects become the ordered subsequence of those that pass all three tests, with every copy kept. |
| `ProjectFilter.NarrowAll` | src/data/projects.ts:22-35 | one narrowed category per input category, at the same position. Each keeps its id, name and description. Its projects are the ordered subsequence of the original ones that pass all three tests, with every copy kept. |
| `ProjectFilter.DropEmpty` | src/data/projects.ts:36 | the result is a subsequence of the input. A category with at least one project keeps every copy it had, and an empty one keeps none. |
| `ProjectFilter.FilteredCategories` | src/data/projects.ts:22-36 | the view is an ordered subsequence of the narrowed input categories. No category in it is empty, every non-empty narrowed category keeps every copy, and every project shown passes all three tests for its category's id. |
| `ProjectFilter.FilteredFromInput` | src/data/projects.ts:22-36 | each category in the view is the narrowing of some input category. |
| `ProjectFilter.FilteredProjectFromInput` | src/data/projects.ts:22-36 | each project shown is a project of an input category with the same id. |
| `ProjectFilter.FilteredComplete` | src/data/projects.ts:24-36 | every input project that passes all three tests (line 34) is shown, within the narrowing of its own category. |
| `ProjectFilter.EmptyTermMatches` | src/data/projects.ts:25-27 | an empty search term matches every project. |
| `ProjectFilter.TagMatchSuffices` | src/data/projects.ts:27 | a tag that contains the term is enough for the search test. |
| `ProjectFilter.SearchIgnoresCase` | src/data/projects.ts:25-27 | a term and its lower-cased form match the same projects. |
| `ProjectFilter.FilterKeepsMatching` | src/data/projects.ts:24-35 | filtering a list in which every project passes returns that list. |
| `ProjectFilter.NoFiltersShowsNonEmpty` | src/data/projects.ts:22-36 | with an empty term, `'all'` and no skills, the view is exactly the input categories that have at least one project, each unchanged. |
| `ProjectFilter.MissingSkillExcluded` | src/data/projects.ts:31-32 | skills combine with AND: a project that lacks any one selected skill appears in no category of the view. |
| `ProjectFilter.UnknownSkillEmptiesView` | src/data/projects.ts:31-36 | selecting a skill outside the skill universe leaves the view empty. |
| `ProjectFilter.FilterPassingCategory` | src/data/projects.ts:29 | for a category that passes the category test, filtering under the selection gives the same projects as filtering under `'all'`. |
| `ProjectFilter.CategorySelectionEffect` | src/data/projects.ts:29 | under a selection other than `'all'`, the selected category is narrowed exactly as under `'all'`, and every other category loses all its projects. |
| `ProjectFilter.SelectedCategoryOnly` | src/data/projects.ts:29 | when the selection is not `'all'`, every category in the view has the selected id. |
| `SkillToggle.RemoveAll` | src/data/projects.ts:41 | the result is an ordered subsequence of the list. Every other skill keeps every copy, the skill keeps none, and the length drops by the skill's number of copies. |
| `SkillToggle.RemoveAbsent` | src/data/projects.ts:41 | removing a skill that is not in the list returns the list itself. |
| `SkillToggle.Toggle` | src/data/projects.ts:38-44 | the skill's membership flips, and every other skill keeps its membership. A present skill loses every copy, while the other skills keep their copies and their order. An absent skill is appended after the old list. |
| `SkillToggle.ToggleTwice` | src/data/projects.ts:38-44 | toggling twice restores every skill's membership. When the skill was absent, it restores the list exactly. |
| `SkillToggle.ToggleKeepsDistinct` | src/data/projects.ts:38-44 | a toggle keeps a duplicate-free selection duplicate-free. |
| `Page.ProjectsPage.Valid` | src/data/projects.ts:12 | the page's invariant: each selected skill occurs exactly once in the selection. |
| `Page.ProjectsPage.constructor` | src/data/projects.ts:10-12 | the initial state is an empty term, `'all'` and no skills. |
| `Page.ProjectsPage.AllSkills` | src/data/projects.ts:15-19 | the page's skill buttons list exactly the skills of its categories' projects, with no skill twice, in strictly ascending order. |
| `Page.ProjectsPage.View` | src/data/projects.ts:22-36 | the categories the page shows for its current fields are all non-empty. Every project shown passes the current search, category and skill tests. |
| `Page.ProjectsPage.SetSearchTerm` | src/data/projects.ts:80 | sets the term and leaves the other two fields alone. |
| `Page.ProjectsPage.SetSelectedCategory` | src/data/projects.ts:90 | sets the category and leaves the other two fields alone. When the new selection is not `'all'`, the view then shows only that category. |
| `Page.ProjectsPage.ToggleSkill` | src/data/projects.ts:38-44 | the selection becomes the toggled list, and the skill's membership flips. The selection stays duplicate-free, so it shrinks by exactly one when the skill was selected and grows by one otherwise. The other fields are unchanged. |
| `Page.ProjectsPage.ClearFilters` | src/data/projects.ts:104-108 | resets to an empty term, `'all'` and no skills. The view is then every category that has a project. The "Clear all filters" handler at lines 266-269 is the same code. |

## Left out

- Markup, styling, hover effects, icons and `getCategoryIcon` (lines 46-55) have no behaviour beyond drawing.
- The display counts are left out: the first three skill chips, the "+n more" label, the header count and the stats footer (lines 66, 157, 191-203, 282-300). So is the "No projects found" panel (256), which shows exactly when the view is empty.
- React's `useState` and re-rendering: the three fields are plain fields, and the derived values are functions of them (`ProjectsPage.AllSkills`, `ProjectsPage.View`).
- The `categories` data: it is empty in the file (lines 5-7) and comes from outside, so it is a constructor parameter. Its field types come from `../types`, which is not part of this model; the records' fields are inferred from how the page uses them.
- `Text.Lower`: lower-cases only ASCII 'A'-'Z'. JavaScript's `toLowerCase` follows the full Unicode case mapping, which is not modelled.
- `Text.LexLe`: compares characters by their code. The default sort compares UTF-16 code units, which differs only for characters outside the Basic Multilingual Plane.
- `SkillUniverse.Distinct`: states membership and duplicate-freedom but not the first-occurrence order of a `Set`. The sort that follows discards that order anyway (`AllSkillsCanonical`).
