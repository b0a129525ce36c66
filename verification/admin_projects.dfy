/** The admin project editor: the state its handlers update (the dialog, the
    selected category and the three lists of freshly uploaded URLs), the
    tech-stack field's parsing, and the request the form's submission sends. */
module AdminProjects {
  import opened Wrappers
  import opened Seqs
  import opened Text
  import opened Schema
  import opened Upload

  /** The category choices of the form. */
  const FormCategories: seq<string> := ["web", "mobile", "desktop"]

  /** The choices are exactly the categories the project schema accepts. */
  lemma FormCategoriesAreSchemaCategories()
    ensures forall c :: c in FormCategories <==> c in ProjectCategories
  {
  }

  // ---------------------------------------------------------------------
  // The tech-stack field
  // ---------------------------------------------------------------------

  /** A character absent from a string is absent from what it contains. */
  lemma ContainedAvoids(s: string, t: string, c: char)
    requires Contains(s, t) && c !in s
    ensures c !in t
  {
    var k :| 0 <= k <= |s| && OccursAt(s, t, k);
    assert t == s[k..k + |t|];
    forall i | 0 <= i < |t| ensures t[i] != c {
      assert t[i] == s[k + i];
    }
  }

  /** The comma-separated tech-stack text as a list: split on every comma and
      trim each piece. */
  function ParseTechStack(s: string): (r: seq<string>)
    ensures |r| == |Split(s, ',')| == Occurrences(s, ',') + 1
    ensures forall i :: 0 <= i < |r| ==> r[i] == Trim(Split(s, ',')[i])
    ensures forall i :: 0 <= i < |r| ==> IsTrimmed(r[i]) && ',' !in r[i]
  {
    var parts := Split(s, ',');
    TrimEachPiece(parts);
    seq(|parts|, i requires 0 <= i < |parts| => Trim(parts[i]))
  }

  lemma TrimEachPiece(parts: seq<string>)
    requires forall i :: 0 <= i < |parts| ==> ',' !in parts[i]
    ensures forall i :: 0 <= i < |parts| ==> IsTrimmed(Trim(parts[i])) && ',' !in Trim(parts[i])
  {
    forall i | 0 <= i < |parts|
      ensures IsTrimmed(Trim(parts[i])) && ',' !in Trim(parts[i])
    {
      TrimResult(parts[i]);
      ContainedAvoids(parts[i], Trim(parts[i]), ',');
    }
  }

  /** Splitting the edit default `join(", ")` on commas gives the first name
      and then every further name behind the blank that followed its comma. */
  lemma {:induction false} SplitJoined(names: seq<string>)
    requires |names| >= 1
    requires forall i :: 0 <= i < |names| ==> ',' !in names[i]
    ensures |Split(Join(names, ", "), ',')| == |names|
    ensures Split(Join(names, ", "), ',')[0] == names[0]
    ensures forall i :: 1 <= i < |names| ==> Split(Join(names, ", "), ',')[i] == " " + names[i]
  {
    if |names| == 1 {
      SplitPrefix(names[0], "", ',');
      assert names[0] + "" == names[0];
    } else {
      var rest := names[1..];
      var j := Join(rest, ", ");
      assert Join(names, ", ") == names[0] + [','] + (" " + j);
      SplitAtSeparator(names[0], " " + j, ',');
      SplitPrefix(" ", j, ',');
      SplitJoined(rest);
      var s := Split(j, ',');
      assert Split(Join(names, ", "), ',') == [names[0]] + ([" " + s[0]] + s[1..]);
      forall i | 1 <= i < |names|
        ensures Split(Join(names, ", "), ',')[i] == " " + names[i]
      {
        if i > 1 {
          assert s[i - 1] == " " + rest[i - 1];
        }
      }
    }
  }

  /** The tech stack shown when editing reads back as the project's own list,
      provided it is non-empty and its names are trimmed and comma-free. */
  lemma TechStackRoundTrip(names: seq<string>)
    requires |names| >= 1
    requires forall i :: 0 <= i < |names| ==> ',' !in names[i] && IsTrimmed(names[i])
    ensures ParseTechStack(Join(names, ", ")) == names
  {
    var s := Join(names, ", ");
    SplitJoined(names);
    var parts := Split(s, ',');
    var r := ParseTechStack(s);
    forall i | 0 <= i < |names| ensures r[i] == names[i] {
      PieceReadsBack(parts[i], names[i], i == 0);
    }
  }

  /** The first piece is the name itself, every later one the name behind a
      blank; trimming gives the name in both cases. */
  lemma PieceReadsBack(piece: string, name: string, first: bool)
    requires IsTrimmed(name)
    requires first ==> piece == name
    requires !first ==> piece == " " + name
    ensures Trim(piece) == name
  {
    if first {
      TrimPadded("", name);
      assert "" + name == name;
    } else {
      TrimPadded(" ", name);
    }
  }

  /** An empty tech stack does not read back: its edit default is the empty
      text, which parses to one empty name. */
  lemma EmptyTechStackReadsBackAsOneEmptyName()
    ensures ParseTechStack(Join([], ", ")) == [""]
  {
    assert Join([], ", ") == "";
    assert Split("", ',') == [""];
    PieceReadsBack("", "", true);
    var r := ParseTechStack("");
    assert r[0] == Trim("");
  }

  // ---------------------------------------------------------------------
  // The save request
  // ---------------------------------------------------------------------

  /** The text fields of the form's Details tab. */
  datatype ProjectForm = ProjectForm(
    title: string,
    description: string,
    longDescription: string,
    techStack: string,
    demoUrl: string,
    githubUrl: string)

  datatype Verb = Post | Patch

  /** The JSON body of the save request; `id` is present only when editing. */
  datatype ProjectPayload = ProjectPayload(
    id: Option<nat>,
    title: string,
    description: string,
    longDescription: string,
    category: string,
    techStack: seq<string>,
    imageUrls: seq<string>,
    videoUrls: seq<string>,
    screenshots: seq<string>,
    demoUrl: Option<string>,
    githubUrl: Option<string>)

  datatype SaveRequest = SaveRequest(verb: Verb, endpoint: string, payload: ProjectPayload)

  /** `value || null` on a form text: the empty text becomes null. */
  function OrNull(s: string): (r: Option<string>)
    ensures r.None? <==> s == []
    ensures r.Some? ==> r.value == s
  {
    if s == [] then None else Some(s)
  }

  /** `existingProject?.id` used as a condition: a project is being edited and
      its id is not 0. */
  function EditedId(existing: Option<Project>): (r: Option<nat>)
    ensures r.Some? <==> existing.Some? && existing.value.id != 0
    ensures r.Some? ==> r.value == existing.value.id
  {
    if existing.Some? && existing.value.id != 0 then Some(existing.value.id) else None
  }

  function ProjectEndpoint(id: nat): string {
    "/api/projects/" + NatToString(id)
  }

  /** Different projects are saved to different endpoints. */
  lemma ProjectEndpointInjective(m: nat, n: nat)
    requires ProjectEndpoint(m) == ProjectEndpoint(n)
    ensures m == n
  {
    var p := "/api/projects/";
    assert NatToString(m) == ProjectEndpoint(m)[|p|..];
    assert NatToString(n) == ProjectEndpoint(n)[|p|..];
    NatToStringInjective(m, n);
  }

  /** The request the submit handler means to send for the form, the selected
      category, the freshly uploaded URLs and the project being edited, if any:
      a PATCH of that project or a POST of a new one, whose URL lists put the
      new uploads before the project's existing URLs. */
  function SaveRequestFor(form: ProjectForm, category: string, images: seq<string>,
                          videos: seq<string>, screenshots: seq<string>,
                          existing: Option<Project>): (r: SaveRequest)
    ensures r.verb == Patch <==> EditedId(existing).Some?
    ensures r.payload.id == EditedId(existing)
    ensures r.payload.techStack == ParseTechStack(form.techStack)
    ensures r.payload.category == category
  {
    var id := EditedId(existing);
    var old_ := if existing.Some? then existing.value.fields else EmptyProject;
    var payload := ProjectPayload(
      id, form.title, form.description, form.longDescription, category,
      ParseTechStack(form.techStack),
      images + old_.imageUrls, videos + old_.videoUrls, screenshots + old_.screenshots,
      OrNull(form.demoUrl), OrNull(form.githubUrl));
    if id.Some? then SaveRequest(Patch, ProjectEndpoint(id.value), payload)
    else SaveRequest(Post, "/api/projects", payload)
  }

  /** What `existingProject?.imageUrls || []` reads when nothing is edited. */
  const EmptyProject := InsertProject("", "", None, "", [], [], [], [], None, None)

  /** Editing a stored project sends a PATCH to that project's endpoint whose
      URL lists are the new uploads followed by every URL the project still
      has, in order; optional links left empty are sent as null. */
  lemma EditSavesMergedMedia(form: ProjectForm, category: string, images: seq<string>,
                             videos: seq<string>, screenshots: seq<string>, p: Project)
    requires p.id >= 1
    ensures var r := SaveRequestFor(form, category, images, videos, screenshots, Some(p));
      && r.verb == Patch && r.endpoint == ProjectEndpoint(p.id)
      && r.payload.imageUrls[..|images|] == images
      && r.payload.imageUrls[|images|..] == p.fields.imageUrls
      && r.payload.videoUrls[..|videos|] == videos
      && r.payload.videoUrls[|videos|..] == p.fields.videoUrls
      && r.payload.screenshots[..|screenshots|] == screenshots
      && r.payload.screenshots[|screenshots|..] == p.fields.screenshots
      && (r.payload.demoUrl.None? <==> form.demoUrl == [])
      && (r.payload.githubUrl.None? <==> form.githubUrl == [])
  {
  }

  /** Creating sends a POST to the collection carrying only the new uploads. */
  lemma CreateSavesUploads(form: ProjectForm, category: string, images: seq<string>,
                           videos: seq<string>, screenshots: seq<string>)
    ensures var r := SaveRequestFor(form, category, images, videos, screenshots, None);
      && r.verb == Post && r.endpoint == "/api/projects"
      && r.payload.imageUrls == images && r.payload.videoUrls == videos
      && r.payload.screenshots == screenshots
  {
  }

  /** The dialog's tabs. The Details inputs are rendered only while their
      tab is selected; the Save button sits outside every tab. */
  datatype Tab = Details | MediaTab | ReviewsTab

  /** How a press of Save ends: the browser stops it because a `required`
      input is empty, the handler throws before sending anything, or the
      save request is sent. */
  datatype SubmitOutcome = Blocked | Threw(error: string) | Sent(request: SaveRequest)

  /** Title, description and tech stack are `required` inputs: while they
      are rendered, an empty one stops the submission before the handler
      runs. */
  predicate MissingRequired(form: ProjectForm) {
    form.title == [] || form.description == [] || form.techStack == []
  }

  /** The error of `null.split(",")`. */
  const NullSplitError: string := "TypeError: Cannot read properties of null (reading 'split')"

  /** The intended outcome of Save: the details are read whichever tab is
      shown, and the request is the intended one. */
  function SaveOutcome(form: ProjectForm, category: string, images: seq<string>,
                       videos: seq<string>, screenshots: seq<string>,
                       existing: Option<Project>): (r: SubmitOutcome)
    ensures r.Blocked? <==> MissingRequired(form)
    ensures !r.Blocked? ==> r.Sent? && r.request == SaveRequestFor(form, category, images, videos, screenshots, existing)
  {
    if MissingRequired(form) then Blocked
    else Sent(SaveRequestFor(form, category, images, videos, screenshots, existing))
  }

  /** The submit handler as written. Off the Details tab its inputs are not
      in the form, so `formData.get("techStack")` is null and its `split`
      throws. On the Details tab the local `FormData` named `formData` hides
      the component's state of the same name, so the edited project it reads
      is always undefined and the save is a POST of a new project. */
  function SubmitAsWritten(tab: Tab, form: ProjectForm, category: string, images: seq<string>,
                           videos: seq<string>, screenshots: seq<string>,
                           editing: Option<Project>): (r: SubmitOutcome)
    ensures tab != Details ==> r == Threw(NullSplitError)
    ensures tab == Details ==> (r.Blocked? <==> MissingRequired(form))
    ensures r.Sent? ==>
      && r.request.verb == Post && r.request.endpoint == "/api/projects" && r.request.payload.id.None?
      && r.request.payload.imageUrls == images && r.request.payload.videoUrls == videos
      && r.request.payload.screenshots == screenshots
  {
    if tab != Details then Threw(NullSplitError)
    else if MissingRequired(form) then Blocked
    else Sent(SaveRequestFor(form, category, images, videos, screenshots, None))
  }

  /** Creating a project from the Details tab is the one case where the
      handler as written does what is intended. */
  lemma AsWrittenCreatesFromDetails(form: ProjectForm, category: string, images: seq<string>,
                                    videos: seq<string>, screenshots: seq<string>)
    ensures SubmitAsWritten(Details, form, category, images, videos, screenshots, None)
         == SaveOutcome(form, category, images, videos, screenshots, None)
  {
  }

  /** Saving an edited project that already has an image and gained no new
      upload: as written the handler posts a new project without that image,
      where the intended request patches the project and keeps it. */
  lemma SubmitAsWrittenLosesEdit()
    ensures var p := Project(1, 0, EmptyProject.(imageUrls := ["/uploads/a.png"]));
      var form := ProjectForm("t", "d", "", "React", "", "");
      var asWritten := SubmitAsWritten(Details, form, "web", [], [], [], Some(p));
      var intended := SaveOutcome(form, "web", [], [], [], Some(p));
      && asWritten.Sent? && asWritten.request.verb == Post && asWritten.request.payload.imageUrls == []
      && intended.Sent? && intended.request.verb == Patch && intended.request.endpoint == "/api/projects/1"
      && intended.request.payload.imageUrls == ["/uploads/a.png"]
  {
    assert NatToString(1) == "1";
  }

  /** Pressing Save after switching to the Media tab, the usual order after
      uploading: as written nothing is saved, where the intended handler
      sends the complete request. */
  lemma SaveFromMediaTabThrows()
    ensures var form := ProjectForm("t", "d", "", "React", "", "");
      && SubmitAsWritten(MediaTab, form, "web", ["/uploads/a.png"], [], [], None) == Threw(NullSplitError)
      && SaveOutcome(form, "web", ["/uploads/a.png"], [], [], None).Sent?
  {
  }

  // ---------------------------------------------------------------------
  // Uploads started from the form
  // ---------------------------------------------------------------------

  /** The form a media input posts: only the first chosen file, with the
      input's type and the category "project"; nothing when no file is chosen. */
  function UploadFormFor(files: seq<ClientFile>, kind: string): (r: Option<UploadForm>)
    ensures r.None? <==> files == []
    ensures r.Some? ==> r.value.file == files[0] && r.value.kind == kind && r.value.category == "project"
  {
    if files == [] then None else Some(UploadForm(files[0], kind, "project"))
  }

  /** The screenshot input posts one form per chosen file, in order. */
  function ScreenshotForms(files: seq<ClientFile>): (r: seq<UploadForm>)
    ensures |r| == |files|
    ensures forall i :: 0 <= i < |r| ==> r[i] == UploadForm(files[i], "screenshot", "project")
  {
    if files == [] then [] else [UploadForm(files[0], "screenshot", "project")] + ScreenshotForms(files[1..])
  }

  /** Whatever file the server stores for a form posted here, and under
      whatever name, the asset is registered exactly when the form's type is
      one the media schema accepts. */
  lemma FormUploadsRegistered(form: UploadForm, stored: IncomingFile, name: string)
    requires form.category == "project"
    ensures ParseMedia(MediaData(stored, name, RequestOf(form))).Ok? <==> form.kind in MediaTypes
    ensures form.kind in MediaTypes ==>
      ParseMedia(MediaData(stored, name, RequestOf(form)))
        == Ok(InsertMediaAsset(stored.originalname, form.kind, FileUrl(name), "project", None))
  {
    if form.kind in MediaTypes {
      MediaDataAccepted(stored, name, RequestOf(form));
    }
  }

  /** So a screenshot never is registered: "screenshot" is not a media type. */
  lemma ScreenshotUploadsRejected(f: ClientFile, stored: IncomingFile, name: string)
    ensures ParseMedia(MediaData(stored, name, RequestOf(UploadForm(f, "screenshot", "project")))).Err?
  {
    assert "screenshot" !in MediaTypes;
    FormUploadsRegistered(UploadForm(f, "screenshot", "project"), stored, name);
  }

  // ---------------------------------------------------------------------
  // The editor's state
  // ---------------------------------------------------------------------

  /** `url` dropped from a list of URLs, everywhere it occurs. */
  function Without(s: seq<string>, url: string): (r: seq<string>)
    ensures multiset(r) == multiset(s)[url := 0]
    ensures forall x :: x in r <==> x in s && x != url
    ensures IsSubsequence(r, s)
  {
    var keep := (x: string) => x != url;
    FilterMembership(s, keep);
    FilterIsSubsequence(s, keep);
    forall x ensures multiset(Filter(s, keep))[x] == multiset(s)[url := 0][x] {
      FilterMultiplicity(s, keep, x);
    }
    Filter(s, keep)
  }

  /** Removing a just-uploaded URL that was not in the list before restores
      the list. */
  lemma RemoveUndoesUpload(s: seq<string>, url: string)
    requires url !in s
    ensures Without(s + [url], url) == s
  {
    var keep := (x: string) => x != url;
    FilterAppend(s, [url], keep);
    FilterAllPass(s, keep);
    assert Filter([url], keep) == [];
  }

  /** The dialog: closed, or open on a new project or on a stored one. */
  datatype FormState = FormState(project: Option<Project>, isOpen: bool)

  function WithImages(p: Project, urls: seq<string>): Project { p.(fields := p.fields.(imageUrls := urls)) }
  function WithVideos(p: Project, urls: seq<string>): Project { p.(fields := p.fields.(videoUrls := urls)) }
  function WithScreenshots(p: Project, urls: seq<string>): Project { p.(fields := p.fields.(screenshots := urls)) }

  class ProjectManager {
    var formData: FormState
    var activeTab: Tab
    var selectedCategory: string
    var uploadedImages: seq<string>
    var uploadedVideos: seq<string>
    var uploadedScreenshots: seq<string>

    ghost predicate Valid()
      reads this
    {
      selectedCategory in FormCategories
    }

    /** The closed, empty editor. */
    ghost predicate Reset()
      reads this
    {
      && formData == FormState(None, false)
      && selectedCategory == "web"
      && uploadedImages == [] && uploadedVideos == [] && uploadedScreenshots == []
    }

    constructor()
      ensures Valid() && Reset() && activeTab == Details
    {
      formData := FormState(None, false);
      activeTab := Details;
      selectedCategory := "web";
      uploadedImages, uploadedVideos, uploadedScreenshots := [], [], [];
    }

    /** `handleDialogChange`: closing resets the editor; opening changes nothing. */
    method HandleDialogChange(open: bool)
      requires Valid()
      modifies this
      ensures Valid()
      ensures !open ==> Reset()
      ensures activeTab == old(activeTab)
      ensures open ==>
        && formData == old(formData) && selectedCategory == old(selectedCategory)
        && uploadedImages == old(uploadedImages) && uploadedVideos == old(uploadedVideos)
        && uploadedScreenshots == old(uploadedScreenshots)
    {
      if !open {
        formData := FormState(None, false);
        uploadedImages, uploadedVideos, uploadedScreenshots := [], [], [];
        selectedCategory := "web";
      }
    }

    /** The "New Project" button. The dialog's tabs are created afresh on
        Details. */
    method OpenNew()
      modifies this
      ensures formData == FormState(None, true) && activeTab == Details
      ensures selectedCategory == old(selectedCategory)
      ensures uploadedImages == old(uploadedImages) && uploadedVideos == old(uploadedVideos)
      ensures uploadedScreenshots == old(uploadedScreenshots)
    {
      formData := FormState(None, true);
      activeTab := Details;
    }

    /** A project card's "Edit" button; the category choice is left as it is. */
    method OpenEdit(p: Project)
      modifies this
      ensures formData == FormState(Some(p), true) && activeTab == Details
      ensures selectedCategory == old(selectedCategory)
      ensures uploadedImages == old(uploadedImages) && uploadedVideos == old(uploadedVideos)
      ensures uploadedScreenshots == old(uploadedScreenshots)
    {
      formData := FormState(Some(p), true);
      activeTab := Details;
    }

    /** A tab trigger of the dialog. */
    method SelectTab(t: Tab)
      modifies this
      ensures activeTab == t && formData == old(formData) && selectedCategory == old(selectedCategory)
      ensures uploadedImages == old(uploadedImages) && uploadedVideos == old(uploadedVideos)
      ensures uploadedScreenshots == old(uploadedScreenshots)
    {
      activeTab := t;
    }

    /** The category select. */
    method SelectCategory(c: string)
      requires c in FormCategories
      modifies this
      ensures Valid() && selectedCategory == c
      ensures formData == old(formData) && activeTab == old(activeTab)
      ensures uploadedImages == old(uploadedImages) && uploadedVideos == old(uploadedVideos)
      ensures uploadedScreenshots == old(uploadedScreenshots)
    {
      selectedCategory := c;
    }

    /** A successful upload appends its URL to the one list its type names;
        any other type leaves every list as it was. */
    method OnUploadSuccess(url: string, fileType: string)
      requires Valid()
      modifies this
      ensures Valid()
      ensures formData == old(formData) && selectedCategory == old(selectedCategory)
      ensures activeTab == old(activeTab)
      ensures uploadedImages == (if fileType == "image" then old(uploadedImages) + [url] else old(uploadedImages))
      ensures uploadedVideos == (if fileType == "video" then old(uploadedVideos) + [url] else old(uploadedVideos))
      ensures uploadedScreenshots ==
        (if fileType == "screenshot" then old(uploadedScreenshots) + [url] else old(uploadedScreenshots))
    {
      if fileType == "image" {
        uploadedImages := uploadedImages + [url];
      } else if fileType == "video" {
        uploadedVideos := uploadedVideos + [url];
      } else if fileType == "screenshot" {
        uploadedScreenshots := uploadedScreenshots + [url];
      }
    }

    /** Removes `url` from the edited project's images when `isExisting` and a
        project is being edited, otherwise from the uploaded images. */
    method RemoveImage(url: string, isExisting: bool)
      requires Valid()
      modifies this
      ensures Valid()
      ensures selectedCategory == old(selectedCategory) && activeTab == old(activeTab)
      ensures uploadedVideos == old(uploadedVideos) && uploadedScreenshots == old(uploadedScreenshots)
      ensures if isExisting && old(formData.project).Some? then
          var p := old(formData.project).value;
          && formData == old(formData).(project := Some(WithImages(p, Without(p.fields.imageUrls, url))))
          && uploadedImages == old(uploadedImages)
        else
          formData == old(formData) && uploadedImages == Without(old(uploadedImages), url)
    {
      if isExisting && formData.project.Some? {
        var p := formData.project.value;
        formData := formData.(project := Some(WithImages(p, Without(p.fields.imageUrls, url))));
      } else {
        uploadedImages := Without(uploadedImages, url);
      }
    }

    method RemoveVideo(url: string, isExisting: bool)
      requires Valid()
      modifies this
      ensures Valid()
      ensures selectedCategory == old(selectedCategory) && activeTab == old(activeTab)
      ensures uploadedImages == old(uploadedImages) && uploadedScreenshots == old(uploadedScreenshots)
      ensures if isExisting && old(formData.project).Some? then
          var p := old(formData.project).value;
          && formData == old(formData).(project := Some(WithVideos(p, Without(p.fields.videoUrls, url))))
          && uploadedVideos == old(uploadedVideos)
        else
          formData == old(formData) && uploadedVideos == Without(old(uploadedVideos), url)
    {
      if isExisting && formData.project.Some? {
        var p := formData.project.value;
        formData := formData.(project := Some(WithVideos(p, Without(p.fields.videoUrls, url))));
      } else {
        uploadedVideos := Without(uploadedVideos, url);
      }
    }

    method RemoveScreenshot(url: string, isExisting: bool)
      requires Valid()
      modifies this
      ensures Valid()
      ensures selectedCategory == old(selectedCategory) && activeTab == old(activeTab)
      ensures uploadedImages == old(uploadedImages) && uploadedVideos == old(uploadedVideos)
      ensures if isExisting && old(formData.project).Some? then
          var p := old(formData.project).value;
          && formData == old(formData).(project := Some(WithScreenshots(p, Without(p.fields.screenshots, url))))
          && uploadedScreenshots == old(uploadedScreenshots)
        else
          formData == old(formData) && uploadedScreenshots == Without(old(uploadedScreenshots), url)
    {
      if isExisting && formData.project.Some? {
        var p := formData.project.value;
        formData := formData.(project := Some(WithScreenshots(p, Without(p.fields.screenshots, url))));
      } else {
        uploadedScreenshots := Without(uploadedScreenshots, url);
      }
    }

    /** A press of Save handled as written, on the tab now shown. */
    method HandleSubmit(form: ProjectForm) returns (r: SubmitOutcome)
      ensures r == SubmitAsWritten(activeTab, form, selectedCategory, uploadedImages, uploadedVideos,
                                   uploadedScreenshots, formData.project)
    {
      if activeTab != Details {
        r := Threw(NullSplitError);
      } else if MissingRequired(form) {
        r := Blocked;
      } else {
        r := Sent(SaveRequestFor(form, selectedCategory, uploadedImages, uploadedVideos,
                                 uploadedScreenshots, None));
      }
    }

    /** A press of Save handled as intended: whatever tab is shown, the
        request patches the project being edited or posts a new one, with a
        category the schema accepts. */
    method Submit(form: ProjectForm) returns (r: SubmitOutcome)
      requires Valid()
      ensures r == SaveOutcome(form, selectedCategory, uploadedImages, uploadedVideos,
                               uploadedScreenshots, formData.project)
      ensures r.Sent? ==> r.request.payload.category in ProjectCategories
    {
      FormCategoriesAreSchemaCategories();
      if MissingRequired(form) {
        r := Blocked;
      } else {
        r := Sent(SaveRequestFor(form, selectedCategory, uploadedImages, uploadedVideos,
                                 uploadedScreenshots, formData.project));
      }
    }
  }
}
