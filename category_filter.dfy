/**
 * `src/pages/Projects.tsx` and `src/pages/Portfolio.tsx`: the two pages hold
 * the same categories, the same six projects and the same filter, so one
 * model serves both.
 *
 * A project's image, description and tags only feed the rendering and are
 * left out.
 */
module CategoryFilter {
  import opened Lists

  datatype Category = Category(id: string, name: string)

  datatype Project = Project(id: nat, title: string, category: string)

  const AllId := "all"

  const Categories: seq<Category> := [
    Category("all", "All"),
    Category("social-media", "Social Media"),
    Category("seo", "SEO"),
    Category("paid-ads", "Paid Ads"),
    Category("content", "Content Marketing")
  ]

  const Projects: seq<Project> := [
    Project(1, "Education Platform Social Campaign", "social-media"),
    Project(2, "IAS Coaching Website SEO", "seo"),
    Project(3, "E-learning PPC Campaign", "paid-ads"),
    Project(4, "Blog Content Strategy", "content"),
    Project(5, "Instagram Growth Campaign", "social-media"),
    Project(6, "Local Business SEO Project", "seo")
  ]

  predicate InCategory(active: string, p: Project) {
    p.category == active
  }

  /** `filteredProjects`. */
  function FilteredProjects(projects: seq<Project>, active: string): seq<Project> {
    if active == AllId then projects else Filter(projects, p => InCategory(active, p))
  }

  /** "all" shows every project, in order. */
  lemma AllShowsEverything(projects: seq<Project>)
    ensures FilteredProjects(projects, AllId) == projects
  {
  }

  /** Any other category keeps exactly the projects filed under it. */
  lemma CategoryKeepsExactlyItsProjects(projects: seq<Project>, active: string)
    requires active != AllId
    ensures forall i :: 0 <= i < |FilteredProjects(projects, active)| ==>
      FilteredProjects(projects, active)[i] in projects && FilteredProjects(projects, active)[i].category == active
    ensures forall i :: 0 <= i < |projects| && projects[i].category == active ==>
      projects[i] in FilteredProjects(projects, active)
  {
  }

  /** The filter works piecewise, so the projects keep their order. */
  lemma FilterKeepsOrder(a: seq<Project>, b: seq<Project>, active: string)
    ensures FilteredProjects(a + b, active) == FilteredProjects(a, active) + FilteredProjects(b, active)
  {
    if active != AllId {
      FilterConcat(a, b, p => InCategory(active, p));
    }
  }

  /** A category no project is filed under shows nothing. */
  lemma UnusedCategoryShowsNothing(projects: seq<Project>, active: string)
    requires active != AllId
    requires forall i :: 0 <= i < |projects| ==> projects[i].category != active
    ensures FilteredProjects(projects, active) == []
  {
    FilterKeepsNone(projects, p => InCategory(active, p));
  }

  /** Every button but "all" is a category some project is filed under. */
  lemma EveryCategoryIsUsed()
    ensures forall k :: 1 <= k < |Categories| ==>
      exists i :: 0 <= i < |Projects| && Projects[i].category == Categories[k].id
  {
    assert Projects[0].category == Categories[1].id;
    assert Projects[1].category == Categories[2].id;
    assert Projects[2].category == Categories[3].id;
    assert Projects[3].category == Categories[4].id;
  }

  predicate Highlighted(active: string, k: nat)
    requires k < |Categories|
  {
    Categories[k].id == active
  }

  /** The category ids are distinct, so a category that has a button has
      exactly one highlighted button. */
  lemma ExactlyOneHighlighted(active: string, k: nat)
    requires k < |Categories| && Categories[k].id == active
    ensures Highlighted(active, k)
    ensures forall j :: 0 <= j < |Categories| && j != k ==> !Highlighted(active, j)
  {
  }

  class CategoryPage {
    var activeCategory: string

    constructor ()
      ensures activeCategory == AllId
    {
      activeCategory := AllId;
    }

    /** A category button. */
    method SelectCategory(k: nat)
      requires k < |Categories|
      modifies this
      ensures activeCategory == Categories[k].id
    {
      activeCategory := Categories[k].id;
    }

    /** The grid. */
    function Shown(): seq<Project>
      reads this
    {
      FilteredProjects(Projects, activeCategory)
    }
  }

  /** The page opens on every project; the SEO button then highlights only
      itself and shows the SEO projects. */
  method SeoScenario() {
    var page := new CategoryPage();
    AllShowsEverything(Projects);
    assert page.Shown() == Projects;
    page.SelectCategory(2);
    ExactlyOneHighlighted(page.activeCategory, 2);
    SeoProjectsShown(page.activeCategory);
  }

  lemma SeoProjectsShown(active: string)
    requires active == "seo"
    ensures Projects[1] in FilteredProjects(Projects, active) && Projects[5] in FilteredProjects(Projects, active)
  {
    CategoryKeepsExactlyItsProjects(Projects, active);
  }
}
