/** The admin media manager: the browse tabs, the query each tab issues, and
    the upload form built from the type and category selects. */
module MediaManager {
  import opened Wrappers
  import opened Text
  import opened Schema
  import opened Routes
  import opened Upload

  /** The browse tabs, "all" first. */
  const BrowseCategories: seq<string> := ["all", "project", "home", "brand"]

  /** The type choices of the upload form. */
  const TypeChoices: seq<string> := ["image", "video", "logo"]

  /** The upload form's category choices: the browse tabs without "all". */
  function UploadCategories(): (r: seq<string>)
    ensures "all" !in r
    ensures forall c :: c in r <==> c in BrowseCategories && c != "all"
  {
    BrowseCategories[1..]
  }

  /** The choices are exactly what the media schema accepts. */
  lemma ChoicesAreSchemaValues()
    ensures UploadCategories() == MediaCategories
    ensures TypeChoices == MediaTypes
  {
  }

  /** The path the asset list is fetched from for the selected tab. */
  function QueryKey(category: string): (r: string)
    ensures r == "/api/media" <==> category == "all"
    ensures category != "all" ==> r == "/api/media/" + category
  {
    if category == "all" then "/api/media" else "/api/media/" + category
  }

  /** Each tab's query reaches a media route, which answers with that tab's
      listing: everything under "all", else the tab's category. */
  lemma QueryKeyFetchesListing(category: string, assets: seq<MediaAsset>)
    requires category != [] && '/' !in category
    ensures ResolveMediaGet(QueryKey(category), assets) == Some(MediaListing(assets, category))
  {
    if category != "all" {
      var path := QueryKey(category);
      var prefix := "/api/media/";
      assert |path| > |"/api/media"|;
      assert path[..|prefix|] == prefix;
      assert path[|prefix|..] == category;
    }
  }

  /** An upload with a type and a category the selects offer is registered
      whatever file the server stores for it. */
  lemma SelectedUploadRegistered(f: ClientFile, kind: string, category: string,
                                 stored: IncomingFile, name: string)
    requires kind in TypeChoices && category in UploadCategories()
    ensures ParseMedia(MediaData(stored, name, RequestOf(UploadForm(f, kind, category))))
         == Ok(InsertMediaAsset(stored.originalname, kind, FileUrl(name), category, None))
  {
    ChoicesAreSchemaValues();
    MediaDataAccepted(stored, name, RequestOf(UploadForm(f, kind, category)));
  }

  class MediaManager {
    var category: string
    var selectedType: string
    var selectedCategory: string

    ghost predicate Valid()
      reads this
    {
      category in BrowseCategories && selectedType in TypeChoices && selectedCategory in UploadCategories()
    }

    constructor()
      ensures Valid()
      ensures category == "all" && selectedType == "image" && selectedCategory == "project"
    {
      category, selectedType, selectedCategory := "all", "image", "project";
    }

    /** A browse tab. */
    method SelectTab(c: string)
      requires Valid() && c in BrowseCategories
      modifies this
      ensures Valid() && category == c
      ensures selectedType == old(selectedType) && selectedCategory == old(selectedCategory)
    {
      category := c;
    }

    /** The type select of the upload form. */
    method SelectType(t: string)
      requires Valid() && t in TypeChoices
      modifies this
      ensures Valid() && selectedType == t
      ensures category == old(category) && selectedCategory == old(selectedCategory)
    {
      selectedType := t;
    }

    /** The category select of the upload form. */
    method SelectUploadCategory(c: string)
      requires Valid() && c in UploadCategories()
      modifies this
      ensures Valid() && selectedCategory == c
      ensures category == old(category) && selectedType == old(selectedType)
    {
      selectedCategory := c;
    }

    /** The form posted when files are chosen: the first file with the
        selected type and category; nothing when no file is chosen. */
    method HandleFileUpload(files: seq<ClientFile>) returns (form: Option<UploadForm>)
      ensures form.None? <==> files == []
      ensures form.Some? ==>
        form.value.file == files[0] && form.value.kind == selectedType
        && form.value.category == selectedCategory
    {
      if files == [] {
        form := None;
      } else {
        form := Some(UploadForm(files[0], selectedType, selectedCategory));
      }
    }
  }
}
