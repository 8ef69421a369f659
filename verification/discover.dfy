/**
 The discover page and its filter sidebar: the filter record (profession,
 chosen categories, platform), the category check boxes that toggle one
 category in or out of the list, and the page's loading flag and project list,
 which a simulated fetch fills after every filter change.
 */
module Discover {
  import opened Core
  import opened Types
  import opened JsStrings

  // ---------------------------------------------------------------------------
  // Category toggle

  /** `cats.filter(c => c !== category)`. */
  function Without(cats: seq<string>, category: string): (r: seq<string>)
    ensures category !in r
    ensures forall x :: (x in r) == (x in cats && x != category)
    ensures |r| <= |cats|
    ensures category !in cats ==> r == cats
  {
    if |cats| == 0 then []
    else (if cats[0] == category then [] else [cats[0]]) + Without(cats[1..], category)
  }

  /** Dropping a category from a concatenation drops it from each part. */
  lemma {:induction false} WithoutAppend(a: seq<string>, b: seq<string>, category: string)
    ensures Without(a + b, category) == Without(a, category) + Without(b, category)
    decreases |a|
  {
    if |a| == 0 {
      assert a + b == b;
    } else {
      assert (a + b)[1..] == a[1..] + b;
      WithoutAppend(a[1..], b, category);
    }
  }

  /** Dropping the same category twice is dropping it once. */
  lemma {:induction false} WithoutIdempotent(cats: seq<string>, category: string)
    ensures Without(Without(cats, category), category) == Without(cats, category)
  {
  }

  /** `toggleCategory(category)`: the new category list, which the sidebar
      reports under the key "categories". A chosen category is removed
      everywhere it occurs; an unchosen one is appended at the end. */
  function ToggleCategory(cats: seq<string>, category: string): (r: seq<string>)
    ensures category in r <==> category !in cats
    ensures category !in cats ==> r == cats + [category]
    ensures category in cats ==> r == Without(cats, category)
    ensures Without(r, category) == Without(cats, category)
  {
    if category in cats then
      WithoutIdempotent(cats, category);
      Without(cats, category)
    else
      WithoutAppend(cats, [category], category);
      assert Without([category], category) == [];
      assert cats + [category] != [] && (cats + [category])[|cats|] == category;
      cats + [category]
  }

  /** Toggling an unchosen category twice gives back the original list; a
      chosen one comes back once, at the end, with the others in their order. */
  lemma ToggleTwice(cats: seq<string>, category: string)
    ensures category !in cats ==> ToggleCategory(ToggleCategory(cats, category), category) == cats
    ensures category in cats ==>
              ToggleCategory(ToggleCategory(cats, category), category) == Without(cats, category) + [category]
  {
    if category !in cats {
      WithoutAppend(cats, [category], category);
      assert Without([category], category) == [];
    }
  }

  // ---------------------------------------------------------------------------
  // Filters

  /** The choices offered by the sidebar. */
  const Professions: seq<string> := ["All", "Developer", "Designer", "Student", "Marketer", "Freelancer"]
  const Categories: seq<string> := ["AI Tools", "Productivity", "Social", "Entertainment", "Education"]
  const Platforms: seq<string> := ["All", "Web", "Mobile"]

  datatype Filters = Filters(profession: string, categories: seq<string>, platform: string)

  const InitialFilters: Filters := Filters("All", [], "All")

  /** A change the sidebar reports: one key of the filter record and its new value. */
  datatype FilterChange =
    | SetProfession(profession: string)
    | SetCategories(categories: seq<string>)
    | SetPlatform(platform: string)

  /** The filter record with the changed key replaced and the others kept. */
  function ChangeFilters(f: Filters, change: FilterChange): (r: Filters)
    ensures change.SetProfession? ==> r == Filters(change.profession, f.categories, f.platform)
    ensures change.SetCategories? ==> r == Filters(f.profession, change.categories, f.platform)
    ensures change.SetPlatform? ==> r == Filters(f.profession, f.categories, change.platform)
  {
    match change
    case SetProfession(p) => f.(profession := p)
    case SetCategories(c) => f.(categories := c)
    case SetPlatform(p) => f.(platform := p)
  }

  // ---------------------------------------------------------------------------
  // The page

  /** The `i`-th demonstration project the simulated fetch returns. */
  function MockProject(i: nat): Project {
    Project("p" + NatToString(i), "Project Nexus " + NatToString(i + 1),
            if i % 2 == 0 then "AI Tools" else "Productivity",
            if i % 3 == 0 then "Mobile" else "Web",
            "Approved")
  }

  /** The first `n` demonstration projects, in order. */
  function MockList(n: nat): (r: seq<Project>)
    ensures |r| == n && forall i :: 0 <= i < n ==> r[i] == MockProject(i)
  {
    if n == 0 then [] else MockList(n - 1) + [MockProject(n - 1)]
  }

  /** The nine demonstration projects the simulated fetch returns. */
  const MockProjects: seq<Project> := MockList(9)

  /** The demonstration projects: nine of them, all approved, categories
      alternating from "AI Tools", every third one on mobile. */
  lemma MockProjectsShape()
    ensures |MockProjects| == 9
    ensures forall i :: 0 <= i < 9 ==> MockProjects[i].status == "Approved"
    ensures forall i :: 0 <= i < 9 ==>
              MockProjects[i].category == (if i % 2 == 0 then "AI Tools" else "Productivity")
    ensures forall i :: 0 <= i < 9 ==> (MockProjects[i].platform == "Mobile" <==> i % 3 == 0)
  {
  }

  datatype Page = Page(loading: bool, projects: seq<Project>, filters: Filters)

  /** The page when it mounts: loading, no projects, every filter open. */
  const Mounted: Page := Page(true, [], InitialFilters)

  /** `handleFilterChange(key, value)`: the filter changes and the page goes
      back to loading; the list stays until the fetch completes. */
  function HandleFilterChange(p: Page, change: FilterChange): (r: Page)
    ensures r.loading
    ensures r.filters == ChangeFilters(p.filters, change)
    ensures r.projects == p.projects
  {
    Page(true, p.projects, ChangeFilters(p.filters, change))
  }

  /** A click on a category check box. */
  function ClickCategory(p: Page, category: string): (r: Page)
    ensures r.loading && r.projects == p.projects
    ensures r.filters.profession == p.filters.profession && r.filters.platform == p.filters.platform
    ensures category in r.filters.categories <==> category !in p.filters.categories
  {
    HandleFilterChange(p, SetCategories(ToggleCategory(p.filters.categories, category)))
  }

  /** The simulated fetch completes: the demonstration projects, loading over. */
  function FetchDone(p: Page): (r: Page)
    ensures !r.loading && r.projects == MockProjects && r.filters == p.filters
  {
    Page(false, MockProjects, p.filters)
  }

  /** Skeleton cards are drawn while loading. */
  predicate ShowsSkeleton(p: Page) {
    p.loading
  }

  /** The "No projects found" message: not loading and nothing to list. */
  predicate ShowsEmptyMessage(p: Page) {
    !p.loading && |p.projects| == 0
  }

  datatype Event = Changed(change: FilterChange) | Fetched

  function Apply(p: Page, e: Event): Page {
    match e
    case Changed(change) => HandleFilterChange(p, change)
    case Fetched => FetchDone(p)
  }

  function Run(p: Page, events: seq<Event>): Page
    decreases |events|
  {
    if |events| == 0 then p else Run(Apply(p, events[0]), events[1..])
  }

  /** The list is only empty while loading. */
  predicate EmptyOnlyWhileLoading(p: Page) {
    |p.projects| == 0 ==> p.loading
  }

  /** Because the fetch always yields the nine demonstration projects, the
      "No projects found" message can never appear after mounting, whatever
      filters are chosen and however the fetches interleave. */
  lemma {:induction false} NeverEmptyMessage(p: Page, events: seq<Event>)
    requires EmptyOnlyWhileLoading(p)
    ensures EmptyOnlyWhileLoading(Run(p, events))
    ensures !ShowsEmptyMessage(Run(p, events))
    decreases |events|
  {
    if |events| > 0 {
      MockProjectsShape();
      NeverEmptyMessage(Apply(p, events[0]), events[1..]);
    }
  }

  /** The mounted page satisfies the invariant, so no run from it shows the message. */
  lemma MountedNeverEmpty(events: seq<Event>)
    ensures !ShowsEmptyMessage(Run(Mounted, events))
  {
    NeverEmptyMessage(Mounted, events);
  }
}
