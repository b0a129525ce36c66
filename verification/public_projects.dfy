/** The public projects page: the category buttons and the list they filter. */
module PublicProjects {
  import opened Seqs
  import opened Schema

  /** The category buttons, "all" first. */
  const Categories: seq<string> := ["all", "web", "mobile", "desktop"]

  /** The buttons offer "all" and then every category a project may have. */
  lemma CategoriesAreAllAndSchemaCategories()
    ensures Categories == ["all"] + ProjectCategories
  {
  }

  /** The projects shown for the selected button. */
  function FilteredProjects(projects: seq<Project>, category: string): (r: seq<Project>)
    ensures category == "all" ==> r == projects
    ensures category != "all" ==> forall p :: p in r <==> p in projects && p.fields.category == category
    ensures IsSubsequence(r, projects)
  {
    if category == "all" then
      FilterAllPass(projects, (p: Project) => true);
      FilterIsSubsequence(projects, (p: Project) => true);
      projects
    else ProjectsInCategory(projects, category)
  }

  /** Every shown project is shown under its own category's button too, and
      the category buttons split the list: a project appears under exactly
      one of them. */
  lemma ShownUnderOwnCategory(projects: seq<Project>, p: Project)
    requires p in projects && p.fields.category in ProjectCategories
    ensures p in FilteredProjects(projects, p.fields.category)
    ensures forall c :: c in Categories && c != "all" && c != p.fields.category ==>
      p !in FilteredProjects(projects, c)
  {
  }
}
