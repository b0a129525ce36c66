/** The persistence gateway: four tables held in insertion order, each with
    its own serial id counter. Each SQL statement is modelled by its relational
    meaning (insert with a fresh id, select-where-equals, update-by-id,
    delete-by-id). The clock that fills `createdAt` is a parameter. */
module Storage {
  import opened Wrappers
  import opened Seqs
  import opened Schema

  /** Index of the row with id `id`, if any. */
  function IndexOfProject(t: seq<Project>, id: int): (k: Option<nat>)
    ensures k.Some? ==> k.value < |t| && t[k.value].id == id
    ensures k.None? ==> forall q :: q in t ==> q.id != id
  {
    if t == [] then None
    else if t[0].id == id then Some(0)
    else
      var k := IndexOfProject(t[1..], id);
      if k.Some? then Some(k.value + 1) else None
  }

  /** The argument of `updateProject`: the insertable fields, where each
      nullable column may also be left out (`undefined`), besides being null
      or given. */
  datatype ProjectUpdate = ProjectUpdate(
    title: string,
    description: string,
    longDescription: Field<string>,
    category: string,
    techStack: seq<string>,
    imageUrls: seq<string>,
    videoUrls: seq<string>,
    screenshots: seq<string>,
    demoUrl: Field<string>,
    githubUrl: Field<string>)

  /** What `.set(...)` writes to a nullable column: a key left out is not
      part of the UPDATE, so the stored value stays; null clears it; a value
      replaces it. */
  function SetColumn(stored: Option<string>, f: Field<string>): (r: Option<string>)
    ensures f.Missing? ==> r == stored
    ensures f.Null? ==> r == None
    ensures f.Given? ==> r == Some(f.value)
  {
    match f
    case Missing => stored
    case Null => None
    case Given(v) => Some(v)
  }

  /** The fields of a row after `.set(update)`: every not-null column is
      replaced, each nullable one is set as `SetColumn` says. */
  function Updated(stored: InsertProject, u: ProjectUpdate): (r: InsertProject)
    ensures r.title == u.title && r.description == u.description && r.category == u.category
    ensures r.techStack == u.techStack && r.imageUrls == u.imageUrls
    ensures r.videoUrls == u.videoUrls && r.screenshots == u.screenshots
    ensures r.longDescription == SetColumn(stored.longDescription, u.longDescription)
    ensures r.demoUrl == SetColumn(stored.demoUrl, u.demoUrl)
    ensures r.githubUrl == SetColumn(stored.githubUrl, u.githubUrl)
  {
    InsertProject(
      u.title, u.description, SetColumn(stored.longDescription, u.longDescription), u.category,
      u.techStack, u.imageUrls, u.videoUrls, u.screenshots,
      SetColumn(stored.demoUrl, u.demoUrl), SetColumn(stored.githubUrl, u.githubUrl))
  }

  /** A whole insertable record as an update: every key present, a missing
      value as null. */
  function AsUpdate(p: InsertProject): ProjectUpdate {
    ProjectUpdate(
      p.title, p.description, OptionalField(p.longDescription), p.category,
      p.techStack, p.imageUrls, p.videoUrls, p.screenshots,
      OptionalField(p.demoUrl), OptionalField(p.githubUrl))
  }

  /** An update that carries every key replaces the whole record, whatever
      was stored. */
  lemma FullUpdateReplaces(stored: InsertProject, p: InsertProject)
    ensures Updated(stored, AsUpdate(p)) == p
  {
  }

  /** An update that leaves out every nullable column keeps all three. */
  lemma LeftOutColumnsKept(stored: InsertProject, u: ProjectUpdate)
    requires u.longDescription.Missing? && u.demoUrl.Missing? && u.githubUrl.Missing?
    ensures var r := Updated(stored, u);
      r.longDescription == stored.longDescription && r.demoUrl == stored.demoUrl
      && r.githubUrl == stored.githubUrl
  {
  }

  class DatabaseStorage {
    var mediaAssets: seq<MediaAsset>
    var contactMessages: seq<ContactMessage>
    var projects: seq<Project>
    var projectReviews: seq<ProjectReview>

    // The next value of each table's serial id sequence.
    var nextMediaId: nat
    var nextContactId: nat
    var nextProjectId: nat
    var nextReviewId: nat

    /** Ids are positive, below their sequence's next value, and increase
        along each table, so no id is used twice. */
    ghost predicate Valid()
      reads this
    {
      && nextMediaId >= 1 && nextContactId >= 1 && nextProjectId >= 1 && nextReviewId >= 1
      && IncreasingBy(mediaAssets, (a: MediaAsset) => a.id)
      && IncreasingBy(contactMessages, (m: ContactMessage) => m.id)
      && IncreasingBy(projects, (p: Project) => p.id)
      && IncreasingBy(projectReviews, (v: ProjectReview) => v.id)
      && (forall a :: a in mediaAssets ==> 1 <= a.id < nextMediaId)
      && (forall m :: m in contactMessages ==> 1 <= m.id < nextContactId)
      && (forall p :: p in projects ==> 1 <= p.id < nextProjectId)
      && (forall v :: v in projectReviews ==> 1 <= v.id < nextReviewId)
    }

    /** The four id counters, in table order. */
    function Counters(): (nat, nat, nat, nat)
      reads this
    {
      (nextMediaId, nextContactId, nextProjectId, nextReviewId)
    }

    constructor ()
      ensures Valid()
      ensures mediaAssets == [] && contactMessages == [] && projects == [] && projectReviews == []
      ensures Counters() == (1, 1, 1, 1)
    {
      mediaAssets, contactMessages, projects, projectReviews := [], [], [], [];
      nextMediaId, nextContactId, nextProjectId, nextReviewId := 1, 1, 1, 1;
    }

    // -------------------------------------------------------------------
    // Media management
    // -------------------------------------------------------------------

    /** `getMediaAssets`: every row of the table. */
    method GetMediaAssets() returns (r: seq<MediaAsset>)
      ensures r == mediaAssets
    {
      r := mediaAssets;
    }

    /** `getMediaAssetsByCategory`: exactly the rows of that category, in
        table order; no match is an empty result. */
    method GetMediaAssetsByCategory(category: string) returns (r: seq<MediaAsset>)
      ensures forall a :: a in r <==> a in mediaAssets && a.fields.category == category
      ensures IsSubsequence(r, mediaAssets)
      ensures r == AssetsInCategory(mediaAssets, category)
    {
      r := AssetsInCategory(mediaAssets, category);
    }

    /** `createMediaAsset`: the table grows by exactly the returned row, which
        carries the input and a fresh id. */
    method CreateMediaAsset(asset: InsertMediaAsset, now: int) returns (row: MediaAsset)
      requires Valid()
      modifies this
      ensures Valid()
      ensures row.fields == asset && row.createdAt == now
      ensures forall a :: a in old(mediaAssets) ==> a.id != row.id
      ensures mediaAssets == old(mediaAssets) + [row]
      ensures contactMessages == old(contactMessages) && projects == old(projects)
      ensures projectReviews == old(projectReviews)
      ensures nextMediaId == old(nextMediaId) + 1 && nextContactId == old(nextContactId)
      ensures nextProjectId == old(nextProjectId) && nextReviewId == old(nextReviewId)
    {
      row := MediaAsset(nextMediaId, now, asset);
      mediaAssets := mediaAssets + [row];
      nextMediaId := nextMediaId + 1;
    }

    /** `deleteMediaAsset`: the row with that id is gone, every other row
        stays in its order; an unknown id changes nothing. */
    method DeleteMediaAsset(id: int)
      requires Valid()
      modifies this
      ensures Valid()
      ensures forall a :: a in mediaAssets <==> a in old(mediaAssets) && a.id != id
      ensures IsSubsequence(mediaAssets, old(mediaAssets))
      ensures (forall a :: a in old(mediaAssets) ==> a.id != id) ==> mediaAssets == old(mediaAssets)
      ensures contactMessages == old(contactMessages) && projects == old(projects)
      ensures projectReviews == old(projectReviews)
      ensures Counters() == old(Counters())
    {
      var keep := (a: MediaAsset) => a.id != id;
      FilterMembership(mediaAssets, keep);
      FilterIsSubsequence(mediaAssets, keep);
      FilterKeepsIncreasing(mediaAssets, keep, (a: MediaAsset) => a.id);
      if forall a :: a in mediaAssets ==> a.id != id {
        FilterAllPass(mediaAssets, keep);
      }
      mediaAssets := Filter(mediaAssets, keep);
    }

    // -------------------------------------------------------------------
    // Contact form
    // -------------------------------------------------------------------

    /** `createContactMessage`. */
    method CreateContactMessage(message: InsertContactMessage, now: int) returns (row: ContactMessage)
      requires Valid()
      modifies this
      ensures Valid()
      ensures row.fields == message && row.createdAt == now
      ensures forall m :: m in old(contactMessages) ==> m.id != row.id
      ensures contactMessages == old(contactMessages) + [row]
      ensures mediaAssets == old(mediaAssets) && projects == old(projects)
      ensures projectReviews == old(projectReviews)
      ensures nextContactId == old(nextContactId) + 1 && nextMediaId == old(nextMediaId)
      ensures nextProjectId == old(nextProjectId) && nextReviewId == old(nextReviewId)
    {
      row := ContactMessage(nextContactId, now, message);
      contactMessages := contactMessages + [row];
      nextContactId := nextContactId + 1;
    }

    // -------------------------------------------------------------------
    // Project management
    // -------------------------------------------------------------------

    /** `getProjects`: every row of the table. */
    method GetProjects() returns (r: seq<Project>)
      ensures r == projects
    {
      r := projects;
    }

    /** `getProjectsByCategory`: exactly the projects of that category, in
        table order. The category is not checked against the enumeration. */
    method GetProjectsByCategory(category: string) returns (r: seq<Project>)
      ensures forall p :: p in r <==> p in projects && p.fields.category == category
      ensures IsSubsequence(r, projects)
      ensures r == ProjectsInCategory(projects, category)
    {
      r := ProjectsInCategory(projects, category);
    }

    /** `getProjectReviews`: exactly the reviews whose `projectId` matches. */
    method GetProjectReviews(projectId: int) returns (r: seq<ProjectReview>)
      ensures forall v :: v in r <==> v in projectReviews && v.fields.projectId == projectId
      ensures IsSubsequence(r, projectReviews)
      ensures r == ReviewsOf(projectReviews, projectId)
    {
      r := ReviewsOf(projectReviews, projectId);
    }

    /** `createProject`. */
    method CreateProject(project: InsertProject, now: int) returns (row: Project)
      requires Valid()
      modifies this
      ensures Valid()
      ensures row.fields == project && row.createdAt == now
      ensures forall p :: p in old(projects) ==> p.id != row.id
      ensures projects == old(projects) + [row]
      ensures mediaAssets == old(mediaAssets) && contactMessages == old(contactMessages)
      ensures projectReviews == old(projectReviews)
      ensures nextProjectId == old(nextProjectId) + 1 && nextMediaId == old(nextMediaId)
      ensures nextContactId == old(nextContactId) && nextReviewId == old(nextReviewId)
    {
      row := Project(nextProjectId, now, project);
      projects := projects + [row];
      nextProjectId := nextProjectId + 1;
    }

    /** `createProjectReview`. The project id is stored as given: no foreign
        key is checked. */
    method CreateProjectReview(review: InsertProjectReview, now: int) returns (row: ProjectReview)
      requires Valid()
      modifies this
      ensures Valid()
      ensures row.fields == review && row.createdAt == now
      ensures forall v :: v in old(projectReviews) ==> v.id != row.id
      ensures projectReviews == old(projectReviews) + [row]
      ensures mediaAssets == old(mediaAssets) && contactMessages == old(contactMessages)
      ensures projects == old(projects)
      ensures nextReviewId == old(nextReviewId) + 1 && nextMediaId == old(nextMediaId)
      ensures nextContactId == old(nextContactId) && nextProjectId == old(nextProjectId)
    {
      row := ProjectReview(nextReviewId, now, review);
      projectReviews := projectReviews + [row];
      nextReviewId := nextReviewId + 1;
    }

    /** `updateProject`: the row with that id gets `Updated` of its fields
        (each nullable column left out of the update keeps its value), its id
        and creation time are kept, every other row is untouched. With no such
        row nothing changes and no row is returned (`undefined` in the
        source). */
    method UpdateProject(id: int, update: ProjectUpdate) returns (r: Option<Project>)
      requires Valid()
      modifies this
      ensures Valid()
      ensures |projects| == |old(projects)|
      ensures forall i :: 0 <= i < |projects| ==>
        projects[i] == if old(projects)[i].id == id
                       then Project(old(projects)[i].id, old(projects)[i].createdAt, Updated(old(projects)[i].fields, update))
                       else old(projects)[i]
      ensures r.Some? <==> exists p :: p in old(projects) && p.id == id
      ensures r.Some? ==> r.value in projects && r.value.id == id
      ensures r.Some? ==> exists p :: p in old(projects) && p.id == id && r.value.fields == Updated(p.fields, update)
      ensures r.None? ==> projects == old(projects)
      ensures mediaAssets == old(mediaAssets) && contactMessages == old(contactMessages)
      ensures projectReviews == old(projectReviews)
      ensures Counters() == old(Counters())
    {
      var k := IndexOfProject(projects, id);
      if k.None? {
        r := None;
      } else {
        var was := projects[k.value];
        var row := Project(was.id, was.createdAt, Updated(was.fields, update));
        projects := projects[k.value := row];
        r := Some(row);
      }
    }
  }
}
