/** The records of the site and the validation applied to request bodies
    before they are inserted: tables `projects`, `contact_messages`,
    `media_assets` and `project_reviews`, and the "insertable" projection of
    each (the row without its server-assigned `id` and `createdAt`). */
module Schema {
  import opened Wrappers
  import opened Seqs

  // ---------------------------------------------------------------------
  // Rows and their insertable projections
  // ---------------------------------------------------------------------

  /** The closed category enumeration of a project. */
  const ProjectCategories: seq<string> := ["web", "mobile", "desktop"]

  /** The enumerations of a media asset's type and category. */
  const MediaTypes: seq<string> := ["image", "video", "logo"]
  const MediaCategories: seq<string> := ["project", "home", "brand"]

  /** The fields of a project a client supplies. `longDescription`,
      `videoUrls` and `screenshots` are read by the client pages but are not
      declared by the table definition; they are added here. */
  datatype InsertProject = InsertProject(
    title: string,
    description: string,
    longDescription: Option<string>,
    category: string,
    techStack: seq<string>,
    imageUrls: seq<string>,
    videoUrls: seq<string>,
    screenshots: seq<string>,
    demoUrl: Option<string>,
    githubUrl: Option<string>)

  /** A stored project: the serial id and default-now timestamp the store
      assigns, and the insertable fields. */
  datatype Project = Project(id: nat, createdAt: int, fields: InsertProject)

  datatype InsertContactMessage = InsertContactMessage(name: string, email: string, message: string)

  datatype ContactMessage = ContactMessage(id: nat, createdAt: int, fields: InsertContactMessage)

  datatype InsertMediaAsset = InsertMediaAsset(
    name: string,
    kind: string,       // the `type` column
    url: string,
    category: string,
    projectId: Option<int>)

  datatype MediaAsset = MediaAsset(id: nat, createdAt: int, fields: InsertMediaAsset)

  datatype InsertProjectReview = InsertProjectReview(
    projectId: int,
    customerName: string,
    customerCompany: Option<string>,
    rating: int,
    review: string,
    customerAvatar: Option<string>)

  datatype ProjectReview = ProjectReview(id: nat, createdAt: int, fields: InsertProjectReview)

  // ---------------------------------------------------------------------
  // Request bodies and their validation
  // ---------------------------------------------------------------------

  /** A key of a JSON request body: absent, explicitly null, or given. */
  datatype Field<T> = Missing | Null | Given(value: T)

  /** A nullable column accepts an absent key or null as "no value". */
  function Nullable<T>(f: Field<T>): (r: Option<T>)
    ensures r.Some? <==> f.Given?
    ensures f.Given? ==> r.value == f.value
  {
    if f.Given? then Some(f.value) else None
  }

  datatype ProjectBody = ProjectBody(
    title: Field<string>,
    description: Field<string>,
    longDescription: Field<string>,
    category: Field<string>,
    techStack: Field<seq<string>>,
    imageUrls: Field<seq<string>>,
    videoUrls: Field<seq<string>>,
    screenshots: Field<seq<string>>,
    demoUrl: Field<string>,
    githubUrl: Field<string>)

  /** The acceptance rule of the project insert schema: every not-null column
      is given (an empty string or list is fine), the category is one of the
      enumeration, nullable columns may be absent or null. */
  predicate ValidProjectBody(b: ProjectBody) {
    && b.title.Given?
    && b.description.Given?
    && b.category.Given? && b.category.value in ProjectCategories
    && b.techStack.Given?
    && b.imageUrls.Given?
    && b.videoUrls.Given?
    && b.screenshots.Given?
  }

  /** `insertProjectSchema.parse`: the insertable record, or the name of the
      first offending field. */
  function ParseProject(b: ProjectBody): (r: Result<InsertProject>)
    ensures r.Ok? <==> ValidProjectBody(b)
    ensures r.Ok? ==>
      && r.value.title == b.title.value
      && r.value.description == b.description.value
      && r.value.longDescription == Nullable(b.longDescription)
      && r.value.category == b.category.value
      && r.value.techStack == b.techStack.value
      && r.value.imageUrls == b.imageUrls.value
      && r.value.videoUrls == b.videoUrls.value
      && r.value.screenshots == b.screenshots.value
      && r.value.demoUrl == Nullable(b.demoUrl)
      && r.value.githubUrl == Nullable(b.githubUrl)
  {
    if !b.title.Given? then Err("title: Required")
    else if !b.description.Given? then Err("description: Required")
    else if !b.category.Given? then Err("category: Required")
    else if b.category.value !in ProjectCategories then Err("category: Invalid enum value")
    else if !b.techStack.Given? then Err("techStack: Required")
    else if !b.imageUrls.Given? then Err("imageUrls: Required")
    else if !b.videoUrls.Given? then Err("videoUrls: Required")
    else if !b.screenshots.Given? then Err("screenshots: Required")
    else Ok(InsertProject(
      b.title.value, b.description.value, Nullable(b.longDescription), b.category.value,
      b.techStack.value, b.imageUrls.value, b.videoUrls.value, b.screenshots.value,
      Nullable(b.demoUrl), Nullable(b.githubUrl)))
  }

  /** How an insertable project is written as a JSON body (a missing value
      becomes null). */
  function OptionalField<T>(o: Option<T>): Field<T> {
    if o.Some? then Given(o.value) else Null
  }

  function ProjectToBody(p: InsertProject): ProjectBody {
    ProjectBody(
      Given(p.title), Given(p.description), OptionalField(p.longDescription), Given(p.category),
      Given(p.techStack), Given(p.imageUrls), Given(p.videoUrls), Given(p.screenshots),
      OptionalField(p.demoUrl), OptionalField(p.githubUrl))
  }

  /** Sending a record whose category is legal and parsing it gives the record
      back; any other category is refused. */
  lemma ProjectBodyRoundTrip(p: InsertProject)
    ensures ParseProject(ProjectToBody(p)) == (if p.category in ProjectCategories then Ok(p) else Err("category: Invalid enum value"))
  {
  }

  datatype ContactBody = ContactBody(name: Field<string>, email: Field<string>, message: Field<string>)

  /** `insertContactSchema.parse`: all three columns are not-null; no
      non-emptiness or e-mail format is imposed. */
  function ParseContact(b: ContactBody): (r: Result<InsertContactMessage>)
    ensures r.Ok? <==> b.name.Given? && b.email.Given? && b.message.Given?
    ensures r.Ok? ==> r.value == InsertContactMessage(b.name.value, b.email.value, b.message.value)
  {
    if !b.name.Given? then Err("name: Required")
    else if !b.email.Given? then Err("email: Required")
    else if !b.message.Given? then Err("message: Required")
    else Ok(InsertContactMessage(b.name.value, b.email.value, b.message.value))
  }

  datatype MediaBody = MediaBody(
    name: Field<string>,
    kind: Field<string>,
    url: Field<string>,
    category: Field<string>,
    projectId: Field<int>)

  predicate ValidMediaBody(b: MediaBody) {
    && b.name.Given?
    && b.kind.Given? && b.kind.value in MediaTypes
    && b.url.Given?
    && b.category.Given? && b.category.value in MediaCategories
  }

  /** `insertMediaAssetSchema.parse`. */
  function ParseMedia(b: MediaBody): (r: Result<InsertMediaAsset>)
    ensures r.Ok? <==> ValidMediaBody(b)
    ensures r.Ok? ==> r.value == InsertMediaAsset(
      b.name.value, b.kind.value, b.url.value, b.category.value, Nullable(b.projectId))
  {
    if !b.name.Given? then Err("name: Required")
    else if !b.kind.Given? then Err("type: Required")
    else if b.kind.value !in MediaTypes then Err("type: Invalid enum value")
    else if !b.url.Given? then Err("url: Required")
    else if !b.category.Given? then Err("category: Required")
    else if b.category.value !in MediaCategories then Err("category: Invalid enum value")
    else Ok(InsertMediaAsset(b.name.value, b.kind.value, b.url.value, b.category.value, Nullable(b.projectId)))
  }

  // ---------------------------------------------------------------------
  // Equality selections (`WHERE column = value`), defined once
  // ---------------------------------------------------------------------

  function ProjectsInCategory(ps: seq<Project>, c: string): (r: seq<Project>)
    ensures forall p :: p in r <==> p in ps && p.fields.category == c
    ensures IsSubsequence(r, ps)
  {
    var inCategory := (p: Project) => p.fields.category == c;
    FilterMembership(ps, inCategory);
    FilterIsSubsequence(ps, inCategory);
    Filter(ps, inCategory)
  }

  function AssetsInCategory(assets: seq<MediaAsset>, c: string): (r: seq<MediaAsset>)
    ensures forall a :: a in r <==> a in assets && a.fields.category == c
    ensures IsSubsequence(r, assets)
  {
    var inCategory := (a: MediaAsset) => a.fields.category == c;
    FilterMembership(assets, inCategory);
    FilterIsSubsequence(assets, inCategory);
    Filter(assets, inCategory)
  }

  function ReviewsOf(reviews: seq<ProjectReview>, projectId: int): (r: seq<ProjectReview>)
    ensures forall v :: v in r <==> v in reviews && v.fields.projectId == projectId
    ensures IsSubsequence(r, reviews)
  {
    var ofProject := (v: ProjectReview) => v.fields.projectId == projectId;
    FilterMembership(reviews, ofProject);
    FilterIsSubsequence(reviews, ofProject);
    Filter(reviews, ofProject)
  }

  /** A category outside the enumeration selects nothing from rows whose
      categories are legal: an unknown category is an empty result, not an
      error. */
  lemma UnknownCategorySelectsNothing(ps: seq<Project>, c: string)
    requires forall p :: p in ps ==> p.fields.category in ProjectCategories
    requires c !in ProjectCategories
    ensures ProjectsInCategory(ps, c) == []
  {
    FilterNonePass(ps, (p: Project) => p.fields.category == c);
  }
}
