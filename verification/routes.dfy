/** The request handlers of the HTTP API that read or write through the
    persistence gateway or over the in-file sample arrays: the project listings
    with their reviews inlined, the media listings and the contact form. The
    upload handler is in module Upload. */
module Routes {
  import opened Wrappers
  import opened Seqs
  import opened Text
  import opened Schema
  import opened Storage

  /** A project with its reviews inlined (`{...project, reviews}`). */
  datatype ProjectWithReviews = ProjectWithReviews(project: Project, reviews: seq<ProjectReview>)

  /** `projects.map(project => ({...project, reviews: reviews.filter(r =>
      r.projectId === project.id)}))`. */
  function WithReviews(projects: seq<Project>, reviews: seq<ProjectReview>): (r: seq<ProjectWithReviews>)
    ensures |r| == |projects|
    ensures forall i :: 0 <= i < |r| ==>
      && r[i].project == projects[i]
      && r[i].reviews == ReviewsOf(reviews, projects[i].id)
      && (forall v :: v in r[i].reviews <==> v in reviews && v.fields.projectId == projects[i].id)
      && IsSubsequence(r[i].reviews, reviews)
  {
    if projects == [] then []
    else [ProjectWithReviews(projects[0], ReviewsOf(reviews, projects[0].id))] + WithReviews(projects[1..], reviews)
  }

  /** GET /api/projects: every project, in order, each with exactly its own
      reviews. The handler reads the sample arrays declared in the same file,
      which are the parameters here. */
  function ListProjects(projects: seq<Project>, reviews: seq<ProjectReview>): (r: seq<ProjectWithReviews>)
    ensures |r| == |projects|
    ensures forall i :: 0 <= i < |r| ==>
      r[i].project == projects[i] && r[i].reviews == ReviewsOf(reviews, projects[i].id)
  {
    WithReviews(projects, reviews)
  }

  /** GET /api/projects/:category: the projects of that category, in order,
      each with exactly its own reviews. */
  function ListProjectsInCategory(projects: seq<Project>, reviews: seq<ProjectReview>, category: string): (r: seq<ProjectWithReviews>)
    ensures |r| == |ProjectsInCategory(projects, category)|
    ensures forall i :: 0 <= i < |r| ==>
      && r[i].project in projects && r[i].project.fields.category == category
      && r[i].reviews == ReviewsOf(reviews, r[i].project.id)
  {
    WithReviews(ProjectsInCategory(projects, category), reviews)
  }

  /** Filtering then joining is joining then filtering: the category listing
      is the full listing restricted to that category, order preserved. */
  lemma {:induction false} CategoryListingIsRestrictedListing(projects: seq<Project>, reviews: seq<ProjectReview>, category: string)
    ensures ListProjectsInCategory(projects, reviews, category)
         == Filter(ListProjects(projects, reviews), (pr: ProjectWithReviews) => pr.project.fields.category == category)
  {
    if projects != [] {
      CategoryListingIsRestrictedListing(projects[1..], reviews, category);
      var inCategory := (p: Project) => p.fields.category == category;
      assert ProjectsInCategory(projects, category) == Filter(projects, inCategory);
      if inCategory(projects[0]) {
        assert Filter(projects, inCategory) == [projects[0]] + Filter(projects[1..], inCategory);
        assert Filter(projects, inCategory)[1..] == Filter(projects[1..], inCategory);
      }
    }
  }

  /** A category no project has gives an empty listing, not an error. */
  lemma UnmatchedCategoryListsNothing(projects: seq<Project>, reviews: seq<ProjectReview>, category: string)
    requires forall p :: p in projects ==> p.fields.category != category
    ensures ListProjectsInCategory(projects, reviews, category) == []
  {
    FilterNonePass(projects, (p: Project) => p.fields.category == category);
  }

  /** The `"all"` dispatch of GET /api/media/:category. */
  function MediaListing(assets: seq<MediaAsset>, category: string): (r: seq<MediaAsset>)
    ensures category == "all" ==> r == assets
    ensures category != "all" ==> forall a :: a in r <==> a in assets && a.fields.category == category
    ensures IsSubsequence(r, assets)
  {
    if category == "all" then
      FilterAllPass(assets, (a: MediaAsset) => true);
      FilterIsSubsequence(assets, (a: MediaAsset) => true);
      assets
    else AssetsInCategory(assets, category)
  }

  /** The GET routes of the media API as the router resolves a path:
      `/api/media` lists everything, `/api/media/<segment>` dispatches on the
      segment; any other path is not one of these routes. */
  function ResolveMediaGet(path: string, assets: seq<MediaAsset>): (r: Option<seq<MediaAsset>>)
    ensures path == "/api/media" ==> r == Some(assets)
    ensures forall c :: c != [] && '/' !in c && path == "/api/media/" + c ==> r == Some(MediaListing(assets, c))
    ensures r.Some? <==> path == "/api/media" || exists c :: c != [] && '/' !in c && path == "/api/media/" + c
  {
    var prefix := "/api/media/";
    if path == "/api/media" then Some(assets)
    else if StartsWith(path, prefix) && |path| > |prefix| && '/' !in path[|prefix|..] then
      Some(MediaListing(assets, path[|prefix|..]))
    else None
  }

  /** Handler of GET /api/media. */
  method HandleGetMedia(db: DatabaseStorage) returns (r: seq<MediaAsset>)
    ensures r == db.mediaAssets
  {
    r := db.GetMediaAssets();
  }

  /** Handler of GET /api/media/:category. */
  method HandleGetMediaByCategory(db: DatabaseStorage, category: string) returns (r: seq<MediaAsset>)
    ensures r == MediaListing(db.mediaAssets, category)
  {
    if category == "all" {
      r := db.GetMediaAssets();
    } else {
      r := db.GetMediaAssetsByCategory(category);
    }
  }

  datatype ContactResponse = ContactSaved | ContactRejected(error: string)

  /** Handler of POST /api/contact: a valid body is stored and acknowledged;
      an invalid body, or a store that throws, gives 400 "Invalid form data"
      and stores nothing. `storeFails` stands for the store throwing. */
  method HandleContact(db: DatabaseStorage, body: ContactBody, now: int, storeFails: bool)
    returns (resp: ContactResponse)
    requires db.Valid()
    modifies db
    ensures db.Valid()
    ensures resp == ContactSaved <==> ParseContact(body).Ok? && !storeFails
    ensures resp.ContactRejected? ==> resp.error == "Invalid form data"
    ensures resp == ContactSaved ==>
      exists m :: db.contactMessages == old(db.contactMessages) + [m] && m.fields == ParseContact(body).value
    ensures resp.ContactRejected? ==> db.contactMessages == old(db.contactMessages)
    ensures db.mediaAssets == old(db.mediaAssets) && db.projects == old(db.projects)
    ensures db.projectReviews == old(db.projectReviews)
  {
    var data := ParseContact(body);
    if data.Err? || storeFails {
      resp := ContactRejected("Invalid form data");
    } else {
      var m := db.CreateContactMessage(data.value, now);
      resp := ContactSaved;
    }
  }
}
