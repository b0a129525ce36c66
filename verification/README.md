# CodeChimp portfolio site — verified model of its data and request logic

CodeChimp's site is a React front end over a small Express API backed by a
relational store. Beneath the presentation there is a thin layer of
sequential logic. This project models that layer in Dafny and proves what it
promises:

- **Schema** (`schema.dfy`). The project, contact-message, media-asset and
  project-review records; their insertable projections without `id` and
  `createdAt`; and the acceptance rules of the insert schemas (required
  columns, the category and type enumerations, nullable optional columns).
  The equality selections the store and the pages share are defined once here.
- **Storage** (`storage.dfy`). `DatabaseStorage` as a class over four tables
  kept in insertion order, with one serial id counter per table. Each
  statement is modelled by its relational meaning: insert with a fresh id,
  select-where-equals, update-by-id and delete-by-id. Every method states
  its whole new state, the id counters included. An update writes every
  not-null column, and each nullable column only when its key is present.
- **Routes** (`routes.dfy`, `upload.dfy`). These cover:
  - the project listings, which join each project with its reviews;
  - the `"all"` dispatch of the media listing;
  - the contact form's parse-or-400;
  - the upload middleware: a file part without a filename counts as no file;
    then the field name, the MIME allow-list, the 10 MB ceiling and the
    stored file name, built with an exact model of POSIX `path.extname`;
  - the upload handler, a transition over the set of file names in the
    uploads directory and the asset table, which removes the written file on
    every failure.
- **Admin project editor** (`admin_projects.dfy`). This covers:
  - the tech-stack parsing (split on commas, trim) and its round trip with
    the edit default `join(", ")`;
  - the Save button: the browser's `required` check; the handler as written,
    which throws off the Details tab and never patches; and the intended save
    request (merged URL lists, empty links sent as null, PATCH or POST);
  - the `ProjectManager` state: the dialog, the shown tab, the selected
    category and the three upload lists, updated by the tab, upload, remove
    and close handlers.
- **Project dialog** (`project_dialog.dfy`). The gallery's media list, the
  video test and what the main area shows (as written it throws when there
  are no media), the wrap-around index arithmetic of the arrow buttons, the
  thumbnail select and the description fallback.
- **Public projects page** (`public_projects.dfy`). The category buttons and
  the filter with `"all"`.
- **Media manager** (`media_manager.dfy`). The query path per tab, the upload
  choices, and the form posted for a chosen file.
- **Typewriter** (`testimonials.tsx`, modelled in `typewriter.dfy`). The
  tick-driven prefix animation with its stop condition.

Supporting modules: `wrappers.dfy` (Option, Result), `seqs.dfy`
(order-preserving filter and subsequences) and `text.dfy` (decimal numerals,
one-character `split`, `join`, ECMAScript `trim`, substring search).

Clocks, randomness and failures of the store are parameters: `now`,
`timestamp`, `random`, `storeFails` and `storeError`. The project routes read
sample arrays declared in server/routes.ts, which become the `projects` and
`reviews` parameters.

Three parts of the schema are not in shared/schema.ts and are reconstructed:

- The Project fields `longDescription`, `videoUrls` and `screenshots` are
  read and written by the client pages but not declared by the table
  definition. They are added as a nullable string and two required string
  lists.
- The media-asset table is not defined there either. Its type enumeration
  {image, video, logo} and category enumeration {project, home, brand} are
  taken from the media manager's choices.
- The review table is likewise not defined there. It is taken from its use
  in the sample data.

## Model

| member | source | states |
|---|---|---|
| Schema.Nullable | shared/schema.ts:12-13 | a nullable column holds a value exactly when the key is given; absent and null both mean no value |
| Schema.ParseProject | shared/schema.ts:5-28 | the project insert is accepted iff title, description, a category in {web, mobile, desktop}, techStack, imageUrls, videoUrls and screenshots are all given (empty values allowed); the result carries exactly those values, and the optional links are null when absent or null |
| Schema.ProjectBodyRoundTrip | shared/schema.ts:25-28 | sending an insertable project and parsing it gives it back when its category is legal, and is refused otherwise; id and createdAt are not part of it |
| Schema.ParseContact | shared/schema.ts:17-33 | the contact insert is accepted iff name, email and message are all given; no non-emptiness is imposed; the record is exactly those three |
| Schema.ParseMedia | server/routes.ts:101-110 | the media insert is accepted iff name, url, a known type and a known category are given; the project id is kept only when supplied |
| Schema.ProjectsInCategory | server/storage.ts:63-68 | exactly the projects whose category equals the argument, as a subsequence of the table |
| Schema.AssetsInCategory | server/storage.ts:32-37 | exactly the assets whose category equals the argument, as a subsequence of the table |
| Schema.ReviewsOf | server/storage.ts:70-75 | exactly the reviews whose projectId equals the argument, as a subsequence of the table |
| Schema.UnknownCategorySelectsNothing | server/storage.ts:63-68 | a category outside the enumeration selects nothing from legal rows |
| Storage.DatabaseStorage.constructor | server/storage.ts:27-28 | the store starts with four empty tables, every id counter at 1 and a valid id state |
| Storage.DatabaseStorage.GetMediaAssets | server/storage.ts:28-30 | returns every asset row, in order |
| Storage.DatabaseStorage.GetMediaAssetsByCategory | server/storage.ts:32-37 | returns exactly the assets of that category, in order; nothing changes |
| Storage.DatabaseStorage.CreateMediaAsset | server/storage.ts:39-45 | the new row carries the input and an id no existing row has; the asset table grows by exactly that row; other tables are unchanged; only the asset counter moves, by one; ids stay increasing |
| Storage.DatabaseStorage.DeleteMediaAsset | server/storage.ts:47-49 | exactly the rows with that id disappear; the rest keep their order; a missing id is a no-op; other tables and every counter are unchanged |
| Storage.DatabaseStorage.CreateContactMessage | server/storage.ts:51-57 | appends one message with a fresh id and the given fields; only the message counter moves, by one; nothing else changes |
| Storage.DatabaseStorage.GetProjects | server/storage.ts:59-61 | returns every project row, in order |
| Storage.DatabaseStorage.GetProjectsByCategory | server/storage.ts:63-68 | returns exactly the projects of that category, in order |
| Storage.DatabaseStorage.GetProjectReviews | server/storage.ts:70-75 | returns exactly the reviews of that project, in order |
| Storage.DatabaseStorage.CreateProject | server/storage.ts:77-83 | appends one project with a fresh id and the given fields; only the project counter moves, by one; nothing else changes |
| Storage.DatabaseStorage.CreateProjectReview | server/storage.ts:85-91 | appends one review with a fresh id and the given fields; only the review counter moves, by one; nothing else changes |
| Storage.DatabaseStorage.UpdateProject | server/storage.ts:93-100 | the row with that id gets `Updated` of its old fields and keeps its id and createdAt; other rows, tables and counters are untouched; with no such row nothing changes and nothing is returned |
| Storage.Updated | server/storage.ts:93-100 | after an update every not-null column holds the update's value, and each nullable column keeps its stored value when its key is absent, is cleared by null and is replaced by a value |
| Storage.FullUpdateReplaces | server/storage.ts:93-100 | an update carrying every key replaces the whole record, whatever was stored |
| Storage.LeftOutColumnsKept | server/storage.ts:93-100 | an update that leaves out the three nullable columns keeps their stored values |
| Routes.WithReviews | server/routes.ts:40-46 | one entry per project, in order, each the unchanged project with exactly the reviews whose projectId is its id, in their original order |
| Routes.ListProjects | server/routes.ts:40-46 | one entry per project, in order, each with exactly the reviews of that project in table order |
| Routes.ListProjectsInCategory | server/routes.ts:48-56 | one entry per project of that category, each a stored project of that category with exactly its reviews |
| Routes.CategoryListingIsRestrictedListing | server/routes.ts:48-56 | the category listing is the full listing restricted to that category, order preserved |
| Routes.UnmatchedCategoryListsNothing | server/routes.ts:48-56 | a category no project has gives an empty listing |
| Routes.MediaListing | server/routes.ts:84-86 | `"all"` gives every asset; any other category gives exactly the assets of that category; either is a subsequence of the table |
| Routes.ResolveMediaGet | server/routes.ts:71-86 | the path `/api/media` lists every asset; `/api/media/<c>`, with `c` non-empty and without '/', gives the `"all"`-dispatched listing of `c`; no other path reaches these routes |
| Routes.HandleGetMedia | server/routes.ts:71-79 | answers with the whole asset table |
| Routes.HandleGetMediaByCategory | server/routes.ts:81-92 | answers with the `"all"`-dispatched listing of the current table |
| Routes.HandleContact | server/routes.ts:59-68 | a message is stored and acknowledged iff the body parses and the store does not fail; otherwise the answer is 400 "Invalid form data" and nothing is stored; other tables are unchanged |
| Upload.FileFilter | server/routes.ts:25-32 | a file is accepted iff its MIME type is image/jpeg, image/png, image/gif or video/mp4; the refusal message names the MIME type and every allowed type |
| Upload.AfterLast | server/routes.ts:22 | the part after the last occurrence of a character: a suffix without that character, preceded by it when it occurs |
| Upload.StripTrailingSlashes | server/routes.ts:22 | a prefix of the path that does not end in '/', followed in the path only by '/' characters |
| Upload.Extname | server/routes.ts:22 | the end of the last path segment from its last '.', or empty; it is non-empty exactly when that segment has a '.' after its first character and is not ".." |
| Upload.StoredFilename | server/routes.ts:20-23 | the stored name starts with the field name and a dash, ends with the original name's extension, and contains no '/' when the field name has none |
| Upload.FileUrl | server/routes.ts:100 | the URL is the uploads prefix followed by exactly the stored name |
| Upload.MediaData | server/routes.ts:101-107 | the record carries the original name, the request's type and category, the URL of the stored file, and the project id exactly when one was supplied |
| Upload.AssembleDetermines | server/routes.ts:20-23 | given the field name, a `<field>-<digits>-<digits><ext>` name determines both numerals and the extension |
| Upload.StoredFilenameDetermines | server/routes.ts:20-23 | two stored names coincide only for the same timestamp, the same random draw and the same extension |
| Upload.UploadUrlShape | server/routes.ts:100 | the asset URL is `/uploads/file-<timestamp>-<random><extname(original)>` |
| Upload.Receive | server/routes.ts:17-36 | no file part, or a file part with an empty filename, means no file; otherwise the middleware writes the file iff it arrives under the field "file", has an allowed type and is at most 10 MB; a written file keeps its metadata and gets the generated name |
| Upload.MediaDataAccepted | server/routes.ts:101-110 | with a known type and category, the record is the original name, the type, the generated URL, the category and the project id only if supplied |
| Upload.RequestOf | client/src/pages/admin/media.tsx:75-78 | a posted form arrives with its file under the field "file", keeping the chosen file's name, MIME type and size, with the type and category as posted and no project id |
| Upload.FormReceived | client/src/pages/admin/media.tsx:75-78 | a posted form's file is written exactly when it has a name, an allowed type and at most 10 MB, and is then written with the name, type and size the browser sent |
| Upload.HandleUpload | server/routes.ts:94-125 | no file (or one without a filename) gives 400 "No file uploaded"; a middleware refusal goes to the framework's error handler; otherwise exactly one asset is added, with the record and the generated URL, and the file stays on disk; if the record is refused or the insert fails, the answer is 400 with that error, no asset is added and the written file is removed; other tables are unchanged |
| Upload.RegisterStored | server/routes.ts:100-124 | after the file is written: register it and keep the file, or answer 400 and remove the file |
| AdminProjects.FormCategoriesAreSchemaCategories | client/src/pages/admin/projects.tsx:31-35 | the form's category choices are exactly the schema's categories |
| Text.Split | client/src/pages/admin/projects.tsx:162 | `split(",")` gives one more piece than there are commas, and no piece contains a comma |
| Text.Join | client/src/pages/admin/projects.tsx:376 | the joined text is empty for no parts, and otherwise starts with the first part and ends with the last |
| Text.JoinSplit | client/src/pages/admin/projects.tsx:162 | joining the pieces of a one-character split with that character gives the text back |
| Text.Trim | client/src/pages/admin/projects.tsx:162 | `trim()` leaves no whitespace at either end, and the input is some whitespace, then the result, then some whitespace |
| Text.TrimUnique | client/src/pages/admin/projects.tsx:162 | conversely, a text without whitespace at its ends that only whitespace surrounds in the input is what `trim()` returns |
| AdminProjects.ParseTechStack | client/src/pages/admin/projects.tsx:161-162 | the tech stack has (number of commas + 1) names, the i-th being the i-th piece between commas, trimmed; so each is trimmed and comma-free |
| AdminProjects.TechStackRoundTrip | client/src/pages/admin/projects.tsx:161-162 | parsing the edit default `join(", ")` of a non-empty list of trimmed, comma-free names gives the list back |
| AdminProjects.EmptyTechStackReadsBackAsOneEmptyName | client/src/pages/admin/projects.tsx:376 | an empty tech stack does not round-trip: it comes back as one empty name |
| AdminProjects.OrNull | client/src/pages/admin/projects.tsx:178-179 | an empty link becomes null; any other text is kept |
| AdminProjects.EditedId | client/src/pages/admin/projects.tsx:169 | an id is sent exactly when a project is edited and its id is non-zero |
| AdminProjects.ProjectEndpointInjective | client/src/pages/admin/projects.tsx:182-184 | different projects are saved to different endpoints |
| AdminProjects.SaveRequestFor | client/src/pages/admin/projects.tsx:168-186 | PATCH iff an existing id is present (and the id is sent exactly then), else POST; the tech stack is the parsed field; the category is the selected one |
| AdminProjects.EditSavesMergedMedia | client/src/pages/admin/projects.tsx:175-186 | editing sends PATCH `/api/projects/<id>`; each URL list is the new uploads followed by the project's existing URLs, in order; empty links become null |
| AdminProjects.CreateSavesUploads | client/src/pages/admin/projects.tsx:175-186 | creating sends POST `/api/projects` with exactly the uploaded URLs |
| AdminProjects.SubmitAsWritten | client/src/pages/admin/projects.tsx:155-180 | as written: off the Details tab the handler throws at `null.split`; on it, an empty required field blocks the submission, and otherwise a POST to `/api/projects` without an id is sent, carrying only the new uploads, whatever is being edited |
| AdminProjects.SaveOutcome | client/src/pages/admin/projects.tsx:155-186 | intended: a press of Save is blocked exactly when a required field is empty, and otherwise sends the intended save request, whatever tab is shown |
| AdminProjects.AsWrittenCreatesFromDetails | client/src/pages/admin/projects.tsx:155-186 | creating a project from the Details tab is where the handler as written does what is intended |
| AdminProjects.SaveFromMediaTabThrows | client/src/pages/admin/projects.tsx:161-162 | pressing Save on the Media tab after an upload: as written it throws and nothing is sent; as intended the request is sent |
| AdminProjects.SubmitAsWrittenLosesEdit | client/src/pages/admin/projects.tsx:155-186 | saving an edited project with one image and no uploads from the Details tab: as written it posts a new project without the image; the intended request patches `/api/projects/1` and keeps it |
| AdminProjects.UploadFormFor | client/src/pages/admin/projects.tsx:134-141 | no file means no upload; otherwise the first file is posted with the input's type and the category "project" |
| AdminProjects.ScreenshotForms | client/src/pages/admin/projects.tsx:497-504 | one form per chosen screenshot, in order, each typed "screenshot" in the category "project" |
| AdminProjects.FormUploadsRegistered | client/src/pages/admin/projects.tsx:138-141 | an upload from the editor is registered iff its type is one the media schema accepts, and then as the stored file's name, that type, the file's URL, the category "project" and no project |
| AdminProjects.ScreenshotUploadsRejected | client/src/pages/admin/projects.tsx:499-503 | a screenshot upload is never registered |
| AdminProjects.Without | client/src/pages/admin/projects.tsx:221-225 | removal drops every occurrence of the URL and keeps every other URL as often as it occurred, in order |
| AdminProjects.RemoveUndoesUpload | client/src/pages/admin/projects.tsx:82 | removing a URL just appended to a list that lacked it restores the list |
| AdminProjects.ProjectManager.constructor | client/src/pages/admin/projects.tsx:43-47 | the editor starts closed, empty, with category "web" |
| AdminProjects.ProjectManager.HandleDialogChange | client/src/pages/admin/projects.tsx:55-63 | closing empties the three upload lists, sets the category to "web" and closes the form; opening changes nothing |
| AdminProjects.ProjectManager.OpenNew | client/src/pages/admin/projects.tsx:257 | opens the form with no project, on the Details tab; the rest is unchanged |
| AdminProjects.ProjectManager.OpenEdit | client/src/pages/admin/projects.tsx:301 | opens the form on the project, on the Details tab; the category and upload lists are unchanged |
| AdminProjects.ProjectManager.SelectTab | client/src/pages/admin/projects.tsx:322-327 | a tab trigger changes the shown tab and nothing else |
| AdminProjects.ProjectManager.SelectCategory | client/src/pages/admin/projects.tsx:344-347 | sets the category to one of the choices; nothing else changes |
| AdminProjects.ProjectManager.OnUploadSuccess | client/src/pages/admin/projects.tsx:77-87 | the URL is appended to exactly the list its type names (image, video or screenshot); any other type changes no list |
| AdminProjects.ProjectManager.RemoveImage | client/src/pages/admin/projects.tsx:217-227 | removes the URL from the edited project's images when marked existing and a project is open, else from the uploaded images; no other list changes |
| AdminProjects.ProjectManager.RemoveVideo | client/src/pages/admin/projects.tsx:229-239 | the same for videos |
| AdminProjects.ProjectManager.RemoveScreenshot | client/src/pages/admin/projects.tsx:241-251 | the same for screenshots |
| AdminProjects.ProjectManager.Submit | client/src/pages/admin/projects.tsx:155-186 | the intended outcome of Save for the current state, whatever tab is shown; a request sent carries a category the schema accepts |
| AdminProjects.ProjectManager.HandleSubmit | client/src/pages/admin/projects.tsx:155-186 | the outcome of Save as written, for the tab now shown and the current state |
| ProjectDialog.AllMedia | client/src/components/project-dialog.tsx:23-27 | images, then screenshots, then videos; the length is the sum of the three |
| ProjectDialog.ShownAs | client/src/components/project-dialog.tsx:54-65 | a URL is shown in a video player exactly when it ends in ".mp4" or contains "youtube.com", and otherwise as an image |
| ProjectDialog.RenderAsWritten | client/src/components/project-dialog.tsx:54 | as written, the main area throws a TypeError exactly when the index is past the end of the media; otherwise it shows the medium at the index |
| ProjectDialog.NoMediaThrows | client/src/components/project-dialog.tsx:23-54 | a project without images, screenshots and videos makes the dialog throw when it opens |
| ProjectDialog.Mp4UploadIsVideo | client/src/components/project-dialog.tsx:29 | an upload whose original name ends in ".mp4" is shown as a video |
| ProjectDialog.NextIndex | client/src/components/project-dialog.tsx:31-33 | the next index stays in [0, n): one more, or 0 after the last |
| ProjectDialog.PrevIndex | client/src/components/project-dialog.tsx:35-37 | the previous index stays in [0, n): one less, or n−1 at 0 |
| ProjectDialog.PrevUndoesNext | client/src/components/project-dialog.tsx:31-37 | previous after next, and next after previous, restore the index |
| ProjectDialog.Advance | client/src/components/project-dialog.tsx:31-33 | any number of presses of "next" keeps the index in range |
| ProjectDialog.AdvanceWithinLap | client/src/components/project-dialog.tsx:31-33 | k ≤ n presses of "next" move k places, wrapping at most once |
| ProjectDialog.FullCycle | client/src/components/project-dialog.tsx:31-33 | n presses of "next" return to the start |
| ProjectDialog.DisplayedDescription | client/src/components/project-dialog.tsx:121 | the long description when it is non-empty, else the short one |
| ProjectDialog.Gallery.constructor | client/src/components/project-dialog.tsx:22-27 | the gallery shows all media from index 0 |
| ProjectDialog.Gallery.Current | client/src/components/project-dialog.tsx:54-66 | intended: an empty gallery shows nothing; otherwise the medium at the index, as a video or an image |
| ProjectDialog.CurrentMatchesAsWritten | client/src/components/project-dialog.tsx:54-66 | wherever the source renders, the gallery shows the same medium; they differ only for an empty gallery, where the source throws |
| ProjectDialog.Gallery.NextMedia | client/src/components/project-dialog.tsx:31-33 | the index becomes the next index |
| ProjectDialog.Gallery.PrevMedia | client/src/components/project-dialog.tsx:35-37 | the index becomes the previous index |
| ProjectDialog.Gallery.SelectThumbnail | client/src/components/project-dialog.tsx:92-95 | clicking thumbnail k shows medium k, as a video or an image |
| PublicProjects.CategoriesAreAllAndSchemaCategories | client/src/pages/projects.tsx:34-39 | the buttons are "all" followed by the schema's categories |
| PublicProjects.FilteredProjects | client/src/pages/projects.tsx:44-46 | "all" gives the list unchanged; any other category gives exactly its projects; the result is a subsequence |
| PublicProjects.ShownUnderOwnCategory | client/src/pages/projects.tsx:44-46 | a project is shown under its own category and under no other category button |
| MediaManager.UploadCategories | client/src/pages/admin/media.tsx:112 | the upload categories are the browse tabs without "all" |
| MediaManager.ChoicesAreSchemaValues | client/src/pages/admin/media.tsx:18-29 | the upload categories and types are exactly the schema's enumerations |
| MediaManager.QueryKey | client/src/pages/admin/media.tsx:39 | `/api/media` iff the tab is "all", else `/api/media/<tab>` |
| MediaManager.QueryKeyFetchesListing | client/src/pages/admin/media.tsx:38-40 | each tab's query reaches a media route, whose answer is that tab's listing |
| MediaManager.SelectedUploadRegistered | client/src/pages/admin/media.tsx:75-80 | an upload with the offered type and category is always registered once stored, as the stored file's name, the selected type, the file's URL, the selected category and no project |
| MediaManager.MediaManager.constructor | client/src/pages/admin/media.tsx:32-34 | starts on "all", type "image", category "project" |
| MediaManager.MediaManager.SelectTab | client/src/pages/admin/media.tsx:136 | sets the browse tab only |
| MediaManager.MediaManager.SelectType | client/src/pages/admin/media.tsx:94 | sets the upload type only |
| MediaManager.MediaManager.SelectUploadCategory | client/src/pages/admin/media.tsx:107 | sets the upload category only |
| MediaManager.MediaManager.HandleFileUpload | client/src/pages/admin/media.tsx:71-81 | no file means no upload; otherwise the first file with the selected type and category |
| Typewriter.Shown | client/src/components/testimonials.tsx:27 | after k ticks the text shown is the first min(k, length) characters, a prefix of the text |
| Typewriter.ShownGrows | client/src/components/testimonials.tsx:27 | what was shown stays a prefix of what is shown later |
| Typewriter.ShownComplete | client/src/components/testimonials.tsx:28-29 | once the counter reaches the length, the whole text is shown |
| Typewriter.TypewriterText.constructor | client/src/components/testimonials.tsx:18-20 | starts out of view, showing nothing, timer stopped |
| Typewriter.TypewriterText.RunEffect | client/src/components/testimonials.tsx:22-25 | nothing happens out of view; in view, the text shown and the counter reset to "" and 0 and the timer starts |
| Typewriter.TypewriterText.ComeIntoView | client/src/components/testimonials.tsx:19-23 | the first time in view starts the animation; later changes are ignored |
| Typewriter.TypewriterText.Tick | client/src/components/testimonials.tsx:26-30 | the counter goes up by one; the text shown is the counter's prefix; the timer stops once the counter reaches the length |
| Typewriter.TypewriterText.Animate | client/src/components/testimonials.tsx:26-31 | ticking until the timer stops shows the whole text after max(1, length) ticks |

## Left out

- Disk and network I/O are not modelled. This covers:
  - multer's disk storage, creating the uploads directory and static file
    serving;
  - the database connection, `createServer`, and `fetch` with react-query
    caching;
  - toasts and logging.
  The uploads directory is a set of file names. A failed `unlink` is only
  logged by the source, and the model treats removal as certain.
- `Date.now()` and `Math.random()` are the `timestamp` and `random`
  parameters. `random` is any natural number; the range 0 to 10^9 of
  `Math.round(Math.random() * 1E9)` is not kept.
- Ids are unbounded naturals. The 32-bit range of the serial column is not
  modelled.
- Routes.HandleGetMedia, Routes.HandleGetMediaByCategory: the 500 answers
  for a failing store read are not modelled, because reads never fail in the
  model.
- Upload.HandleUpload: `projectId` arrives already converted. The source's
  `parseInt` can yield NaN for a non-numeric field, which is not modelled.
- The routes' sample arrays are parameters; their contents are not modelled.
- Screenshot uploads: with the media type enumeration as reconstructed,
  the editor's "screenshot" uploads are refused by the schema
  (`AdminProjects.ScreenshotUploadsRejected`). shared/schema.ts does not
  define the media table, so the enumeration cannot be confirmed.
- The review form of the admin editor (client/src/pages/admin/projects.tsx,
  lines 546-600) is not modelled. Neither is its 5 MB avatar check. There
  is no review route in server/routes.ts, and the form's URL reads
  `formData.project?.id` from its own local `FormData`, which has no such
  property.
- The server has no route for POST or PATCH on `/api/projects`, so the
  editor's save request is modelled up to the request it sends.
- `createProjectMutation` is declared but never used by the editor, and is
  not modelled.
- Editing a project does not set the category select from the project. The
  model keeps the source's behaviour: `OpenEdit` leaves the category as it
  was.
- `AdminProjects.ProjectManager.Submit` models the corrected handler and
  `AdminProjects.ProjectManager.HandleSubmit` the handler as written (see
  Findings). The browser's `required` check on title, description and tech
  stack is modelled only as "blocked when empty". The form's fields exist
  only while the Details tab is mounted; the tabs return to Details whenever
  the dialog opens.
- Routes.ResolveMediaGet: only canonical paths are modelled. Express's
  case-insensitive matching, its optional trailing slash and the
  percent-decoding of `:category` are not.
- ProjectDialog.Gallery: the index is not reset when the dialog is reused
  for another project. Duplicate URLs sharing a thumbnail key are not
  modelled either.
- Typewriter.TypewriterText: lengths and prefixes count Unicode characters,
  while the browser's `length` and `slice` count UTF-16 code units. The two
  agree for text inside the Basic Multilingual Plane; a character outside it
  takes two ticks in the browser, with half a surrogate pair shown between.
- Typewriter.TypewriterText: the interval's period (`speed`) is not
  modelled, and neither is clearing the timer when the component unmounts
  or the text changes. Ticks are discrete steps.
- The public projects page's sample list and its review shape are not
  modelled. The filter is stated over the schema's project record.
- The zod and drizzle-zod internals are reduced to the acceptance
  predicates. Error messages are the offending field's name.

## Findings

| source | as written | input that shows it | evidently intended | confidence | as-written member | corrected member |
|---|---|---|---|---|---|---|
| client/src/pages/admin/projects.tsx:158-165 | the submit handler declares a local `formData` (the form's `FormData`) that hides the component state of the same name, so `existingProject` is always undefined: every save is a POST to `/api/projects` without an id, and the edited project's existing image, video and screenshot URLs are dropped | editing project 1 whose images are ["/uploads/a.png"], with no new uploads | PATCH `/api/projects/1` with images ["/uploads/a.png"] | high (not executed) | AdminProjects.SubmitAsWritten, AdminProjects.SubmitAsWrittenLosesEdit | AdminProjects.SaveRequestFor, AdminProjects.EditSavesMergedMedia |
| client/src/pages/admin/projects.tsx:161-162 | the form's inputs live in the Details tab's content (lines 322-330), which is unmounted while another tab is shown, so `formData.get("techStack")` is null there and `.split(",")` throws: Save does nothing from the Media or Reviews tab | Save pressed on the Media tab after uploading an image | the save request is sent, whatever tab is shown | high (not executed) | AdminProjects.SubmitAsWritten, AdminProjects.SaveFromMediaTabThrows | AdminProjects.SaveOutcome, AdminProjects.AsWrittenCreatesFromDetails |
| client/src/components/project-dialog.tsx:23-54 | with no media, `allMedia[0]` is undefined and `isVideo` calls `endsWith` on it, so the dialog throws instead of rendering | a project whose images, screenshots and videos are all empty, which the schema accepts | the dialog renders without a medium | high (not executed) | ProjectDialog.RenderAsWritten, ProjectDialog.NoMediaThrows | ProjectDialog.Gallery.Current, ProjectDialog.CurrentMatchesAsWritten |
