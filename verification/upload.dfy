/** The upload path of POST /api/media/upload: the multipart middleware (one
    file in field "file", a MIME allow-list, a 10 MB ceiling, a generated file
    name under the uploads directory) and the handler that registers a media
    asset for the stored file, deleting the file again when that fails. The
    uploads directory is a set of file names; the clock and the random
    generator that name the file are parameters. */
module Upload {
  import opened Wrappers
  import opened Text
  import opened Schema
  import opened Storage

  const AllowedTypes: seq<string> := ["image/jpeg", "image/png", "image/gif", "video/mp4"]

  /** The middleware's file size limit in bytes. */
  const MaxFileSize: nat := 10 * 1024 * 1024

  /** The form field the single file must arrive in. */
  const FileField: string := "file"

  /** The public prefix the uploads directory is served under. */
  const UploadsPrefix: string := "/uploads/"

  /** What the middleware knows of an incoming file part. */
  datatype IncomingFile = IncomingFile(fieldname: string, originalname: string, mimetype: string, size: nat)

  // ---------------------------------------------------------------------
  // File filter
  // ---------------------------------------------------------------------

  /** `fileFilter`: accept the allow-listed MIME types; otherwise fail with a
      message naming the type and the allow-list. */
  function FileFilter(mimetype: string): (r: Result<()>)
    ensures r.Ok? <==> mimetype in AllowedTypes
    ensures r.Err? ==> Contains(r.message, mimetype)
    ensures r.Err? ==> forall t :: t in AllowedTypes ==> Contains(r.message, t)
  {
    if mimetype in AllowedTypes then Ok(())
    else
      var allowed := Join(AllowedTypes, ", ");
      var msg := "Invalid file type: " + mimetype + ". Allowed types are: " + allowed;
      ContainsMiddle("Invalid file type: ", mimetype, ". Allowed types are: " + allowed);
      assert msg == "Invalid file type: " + mimetype + (". Allowed types are: " + allowed);
      forall t | t in AllowedTypes ensures Contains(msg, t) {
        JoinContainsPart(AllowedTypes, ", ", t);
        ContainsWithin("Invalid file type: " + mimetype + ". Allowed types are: ", allowed, "", t);
        assert "Invalid file type: " + mimetype + ". Allowed types are: " + allowed + "" == msg;
      }
      Err(msg)
  }

  // ---------------------------------------------------------------------
  // Generated file name
  // ---------------------------------------------------------------------

  /** The part of `s` after the last occurrence of `c` (all of `s` if none). */
  function AfterLast(s: string, c: char): (r: string)
    ensures c !in r && EndsWith(s, r)
    ensures c in s ==> |r| < |s| && s[|s| - |r| - 1] == c
    ensures c !in s ==> r == s
  {
    if s == [] then []
    else if s[|s| - 1] == c then []
    else
      var r := AfterLast(s[..|s| - 1], c);
      assert s[..|s| - 1] + [s[|s| - 1]] == s;
      r + [s[|s| - 1]]
  }

  /** The path without the run of '/' at its end. */
  function StripTrailingSlashes(s: string): (r: string)
    ensures StartsWith(s, r)
    ensures r == [] || r[|r| - 1] != '/'
    ensures forall k :: |r| <= k < |s| ==> s[k] == '/'
  {
    if s != [] && s[|s| - 1] == '/' then
      var r := StripTrailingSlashes(s[..|s| - 1]);
      assert s[..|r|] == s[..|s| - 1][..|r|];
      r
    else s
  }

  /** The last segment of a path, trailing slashes ignored. */
  function Basename(path: string): string {
    AfterLast(StripTrailingSlashes(path), '/')
  }

  /** `path.extname` (POSIX): from the last '.' of the last path segment to
      its end. It is empty when the segment has no '.' after its first
      character (no dot at all, or a dot-file such as ".env"), or when the
      segment is "..". */
  function Extname(path: string): (r: string)
    ensures r == [] || (r[0] == '.' && '.' !in r[1..] && '/' !in r)
    ensures EndsWith(Basename(path), r)
    ensures r != [] <==> Basename(path) != ".." && Basename(path) != [] && '.' in Basename(path)[1..]
  {
    var base := Basename(path);
    var ext := AfterLast(base, '.');
    var r := if '.' !in base || |ext| + 1 == |base| || base == ".." then "" else ['.'] + ext;
    ExtensionOfSegment(base, ext, r);
    r
  }

  lemma ExtensionOfSegment(base: string, ext: string, r: string)
    requires '/' !in base && ext == AfterLast(base, '.')
    requires r == if '.' !in base || |ext| + 1 == |base| || base == ".." then "" else ['.'] + ext
    ensures r == [] || (r[0] == '.' && '.' !in r[1..] && '/' !in r)
    ensures EndsWith(base, r)
    ensures r != [] <==> base != ".." && base != [] && '.' in base[1..]
  {
    if '.' !in base || |ext| + 1 == |base| {
      NoLaterDot(base, ext);
    } else if base != ".." {
      SuffixAvoids(base, ext, '/');
      LaterDot(base, ext);
      assert r[1..] == ext;
    }
  }

  /** When the last '.' of a segment is missing or is its first character, no
      '.' follows the first character. */
  lemma NoLaterDot(base: string, ext: string)
    requires ext == AfterLast(base, '.')
    requires '.' !in base || |ext| + 1 == |base|
    ensures base == [] || '.' !in base[1..]
  {
    if base != [] {
      if '.' in base {
        assert base[1..] == ext;
      } else {
        assert forall i :: 0 <= i < |base[1..]| ==> base[1..][i] == base[i + 1];
      }
    }
  }

  /** Otherwise that '.' starts the extension and follows the first
      character. */
  lemma LaterDot(base: string, ext: string)
    requires ext == AfterLast(base, '.')
    requires '.' in base && |ext| + 1 != |base|
    ensures EndsWith(base, ['.'] + ext)
    ensures base != [] && '.' in base[1..]
  {
    var k := |base| - |ext| - 1;
    assert 1 <= k && base[k] == '.';
    assert base[k + 1..] == ext;
    assert base[k..] == [base[k]] + base[k + 1..];
    assert base[1..][k - 1] == base[k];
  }

  lemma SuffixAvoids(s: string, t: string, c: char)
    requires EndsWith(s, t) && c !in s
    ensures c !in t
  {
    assert t == s[|s| - |t|..];
  }

  /** The multer `filename` callback: `<field>-<Date.now()>-<round(random *
      1e9)><extname(original)>`. */
  function StoredFilename(fieldname: string, timestamp: nat, random: nat, originalname: string): (r: string)
    ensures StartsWith(r, fieldname + "-")
    ensures EndsWith(r, Extname(originalname))
    ensures '/' !in fieldname ==> '/' !in r
  {
    var stamp, draw, ext := NatToString(timestamp), NatToString(random), Extname(originalname);
    AssembleParts(fieldname, stamp, draw, ext);
    Assemble(fieldname, stamp, draw, ext)
  }

  function Assemble(fieldname: string, stamp: string, draw: string, ext: string): string {
    fieldname + "-" + stamp + "-" + draw + ext
  }

  /** The name starts with the field name and a dash and ends with the
      extension; numerals and an extension add no '/'. */
  lemma AssembleParts(fieldname: string, stamp: string, draw: string, ext: string)
    requires AllDigits(stamp) && AllDigits(draw) && '/' !in ext
    ensures StartsWith(Assemble(fieldname, stamp, draw, ext), fieldname + "-")
    ensures EndsWith(Assemble(fieldname, stamp, draw, ext), ext)
    ensures '/' !in fieldname ==> '/' !in Assemble(fieldname, stamp, draw, ext)
  {
    var r := Assemble(fieldname, stamp, draw, ext);
    assert r == (fieldname + "-") + (stamp + "-" + draw + ext);
    assert r[|r| - |ext|..] == ext;
    assert '/' !in stamp by {
      assert forall i :: 0 <= i < |stamp| ==> IsDigit(stamp[i]);
    }
    assert '/' !in draw by {
      assert forall i :: 0 <= i < |draw| ==> IsDigit(draw[i]);
    }
  }

  /** The public URL of a stored file: the uploads prefix, then the name. */
  function FileUrl(filename: string): (r: string)
    ensures StartsWith(r, UploadsPrefix) && r[|UploadsPrefix|..] == filename
  {
    UploadsPrefix + filename
  }

  /** Given the field name, an assembled name determines its two numerals and
      its extension. */
  lemma AssembleDetermines(fieldname: string, d1: string, n1: string, e1: string, d2: string, n2: string, e2: string)
    requires AllDigits(d1) && AllDigits(n1) && AllDigits(d2) && AllDigits(n2)
    requires e1 == [] || e1[0] == '.'
    requires e2 == [] || e2[0] == '.'
    requires Assemble(fieldname, d1, n1, e1) == Assemble(fieldname, d2, n2, e2)
    ensures d1 == d2 && n1 == n2 && e1 == e2
  {
    var lead := fieldname + "-";
    var rest1, rest2 := "-" + n1 + e1, "-" + n2 + e2;
    assert Assemble(fieldname, d1, n1, e1) == lead + (d1 + rest1);
    assert Assemble(fieldname, d2, n2, e2) == lead + (d2 + rest2);
    assert d1 + rest1 == (lead + (d1 + rest1))[|lead|..];
    assert d2 + rest2 == (lead + (d2 + rest2))[|lead|..];
    DigitRunUnique(d1, rest1, d2, rest2);
    assert rest1[1..] == n1 + e1;
    assert rest2[1..] == n2 + e2;
    DigitRunUnique(n1, e1, n2, e2);
  }

  /** A stored name can be read back: the same field name gives the same file
      name only for the same clock reading, the same random draw and the same
      extension. Two uploads collide only when both numbers coincide. */
  lemma StoredFilenameDetermines(fieldname: string, t1: nat, r1: nat, o1: string, t2: nat, r2: nat, o2: string)
    requires StoredFilename(fieldname, t1, r1, o1) == StoredFilename(fieldname, t2, r2, o2)
    ensures t1 == t2 && r1 == r2 && Extname(o1) == Extname(o2)
  {
    AssembleDetermines(fieldname, NatToString(t1), NatToString(r1), Extname(o1),
                       NatToString(t2), NatToString(r2), Extname(o2));
    NatToStringInjective(t1, t2);
    NatToStringInjective(r1, r2);
  }

  /** The URL of an accepted upload has the shape
      `/uploads/file-<digits>-<digits><ext>`. */
  lemma UploadUrlShape(timestamp: nat, random: nat, originalname: string)
    ensures FileUrl(StoredFilename(FileField, timestamp, random, originalname))
         == "/uploads/file-" + NatToString(timestamp) + "-" + NatToString(random) + Extname(originalname)
  {
    AssembledUrl(NatToString(timestamp), NatToString(random), Extname(originalname));
  }

  lemma AssembledUrl(stamp: string, draw: string, ext: string)
    ensures FileUrl(Assemble(FileField, stamp, draw, ext)) == "/uploads/file-" + stamp + "-" + draw + ext
  {
    assert UploadsPrefix + FileField + "-" == "/uploads/file-";
    calc {
      FileUrl(Assemble(FileField, stamp, draw, ext));
      UploadsPrefix + (FileField + "-" + stamp + "-" + draw + ext);
      (UploadsPrefix + FileField + "-") + stamp + "-" + draw + ext;
    }
  }

  // ---------------------------------------------------------------------
  // The middleware and the handler
  // ---------------------------------------------------------------------

  /** What the middleware makes of the request: no file, a refusal it
      passes to the framework's error handler (the route handler never runs),
      or a file written to the uploads directory under `filename`. */
  datatype Received = NoFile | Refused(error: string) | Stored(file: IncomingFile, filename: string)

  /** A file part whose filename is empty is skipped before any other check,
      as if no file had been sent. */
  function Receive(file: Option<IncomingFile>, timestamp: nat, random: nat): (r: Received)
    ensures r.Stored? <==>
      file.Some? && file.value.originalname != [] && file.value.fieldname == FileField
      && file.value.mimetype in AllowedTypes && file.value.size <= MaxFileSize
    ensures r.Stored? ==>
      r.file == file.value && r.filename == StoredFilename(FileField, timestamp, random, file.value.originalname)
    ensures r == NoFile <==> file.None? || file.value.originalname == []
  {
    if file.None? || file.value.originalname == [] then NoFile
    else
      var f := file.value;
      if f.fieldname != FileField then Refused("Unexpected field")
      else
        var filter := FileFilter(f.mimetype);
        if filter.Err? then Refused(filter.message)
        else if f.size > MaxFileSize then Refused("File too large")
        else Stored(f, StoredFilename(f.fieldname, timestamp, random, f.originalname))
  }

  /** The multipart text fields and the file of an upload request.
      `projectId` is the already-parsed number, absent when the field is. */
  datatype UploadRequest = UploadRequest(
    file: Option<IncomingFile>,
    kind: Field<string>,
    category: Field<string>,
    projectId: Option<int>)

  /** The record the handler asks the schema to accept. */
  function MediaData(f: IncomingFile, filename: string, req: UploadRequest): (r: MediaBody)
    ensures r.name == Given(f.originalname) && r.url == Given(FileUrl(filename))
    ensures r.kind == req.kind && r.category == req.category
    ensures r.projectId.Given? <==> req.projectId.Some?
    ensures r.projectId.Given? ==> r.projectId.value == req.projectId.value
  {
    MediaBody(
      Given(f.originalname), req.kind, Given(FileUrl(filename)), req.category,
      if req.projectId.Some? then Given(req.projectId.value) else Missing)
  }

  /** A stored file is registered with its original name, the request's type
      and category, the generated URL and the project id only if supplied. */
  lemma MediaDataAccepted(f: IncomingFile, filename: string, req: UploadRequest)
    requires req.kind.Given? && req.kind.value in MediaTypes
    requires req.category.Given? && req.category.value in MediaCategories
    ensures ParseMedia(MediaData(f, filename, req))
         == Ok(InsertMediaAsset(f.originalname, req.kind.value, FileUrl(filename), req.category.value, req.projectId))
  {
  }

  /** A file picked in the browser. */
  datatype ClientFile = ClientFile(name: string, mimetype: string, size: nat)

  /** The multipart form a page posts to /api/media/upload: the file under
      the field "file" and the text fields "type" and "category". */
  datatype UploadForm = UploadForm(file: ClientFile, kind: string, category: string)

  /** What the server receives for a posted form. */
  function RequestOf(form: UploadForm): (r: UploadRequest)
    ensures r.file.Some? && r.file.value.fieldname == FileField
    ensures r.file.value.originalname == form.file.name
    ensures r.file.value.mimetype == form.file.mimetype && r.file.value.size == form.file.size
    ensures r.kind == Given(form.kind) && r.category == Given(form.category)
    ensures r.projectId.None?
  {
    UploadRequest(
      Some(IncomingFile(FileField, form.file.name, form.file.mimetype, form.file.size)),
      Given(form.kind), Given(form.category), None)
  }

  /** A posted form passes the middleware exactly when its file has a name,
      an allowed type and at most 10 MB; the written file keeps the name,
      type and size the browser sent. */
  lemma FormReceived(form: UploadForm, timestamp: nat, random: nat)
    ensures Receive(RequestOf(form).file, timestamp, random).Stored? <==>
      form.file.name != [] && form.file.mimetype in AllowedTypes && form.file.size <= MaxFileSize
    ensures Receive(RequestOf(form).file, timestamp, random).Stored? ==>
      Receive(RequestOf(form).file, timestamp, random)
        == Stored(IncomingFile(FileField, form.file.name, form.file.mimetype, form.file.size),
                  StoredFilename(FileField, timestamp, random, form.file.name))
  {
  }

  datatype UploadResponse =
    | Uploaded(file: MediaAsset)      // 200 {success: true, file}
    | BadRequest(error: string)       // 400 {error}
    | Unhandled(error: string)        // passed to the framework's error handler

  /** POST /api/media/upload, over the asset table and the set of file
      names in the uploads directory (`files` before the request, `disk`
      after it). `storeError` stands for the asset insert throwing with that
      message. A success adds exactly one asset, whose URL points at the newly
      written file; every failure adds no asset and leaves no file of this
      request behind. */
  method HandleUpload(db: DatabaseStorage, files: set<string>, req: UploadRequest,
                      now: int, timestamp: nat, random: nat, storeError: Option<string>)
    returns (resp: UploadResponse, disk: set<string>)
    requires db.Valid()
    modifies db
    ensures db.Valid()
    ensures db.contactMessages == old(db.contactMessages) && db.projects == old(db.projects)
    ensures db.projectReviews == old(db.projectReviews)
    ensures Receive(req.file, timestamp, random) == NoFile ==>
      && resp == BadRequest("No file uploaded")
      && disk == files && db.mediaAssets == old(db.mediaAssets)
    ensures Receive(req.file, timestamp, random).Refused? ==>
      && resp == Unhandled(Receive(req.file, timestamp, random).error)
      && disk == files && db.mediaAssets == old(db.mediaAssets)
    ensures Receive(req.file, timestamp, random).Stored? ==>
      var r := Receive(req.file, timestamp, random);
      var data := ParseMedia(MediaData(r.file, r.filename, req));
      if data.Ok? && storeError.None? then
        && resp.Uploaded?
        && resp.file.fields == data.value
        && db.mediaAssets == old(db.mediaAssets) + [resp.file]
        && disk == files + {r.filename}
      else
        && resp == BadRequest(if data.Err? then data.message else storeError.value)
        && db.mediaAssets == old(db.mediaAssets)
        && disk == files - {r.filename}
  {
    match Receive(req.file, timestamp, random) {
      case NoFile =>
        resp, disk := BadRequest("No file uploaded"), files;
      case Refused(e) =>
        resp, disk := Unhandled(e), files;
      case Stored(f, name) =>
        resp, disk := RegisterStored(db, files, f, name, req, now, storeError);
    }
  }

  /** The handler's work once the middleware has written `name`: register
      the asset, or remove the file again when the record is refused or the
      insert fails. */
  method RegisterStored(db: DatabaseStorage, files: set<string>, f: IncomingFile, name: string,
                        req: UploadRequest, now: int, storeError: Option<string>)
    returns (resp: UploadResponse, disk: set<string>)
    requires db.Valid()
    modifies db
    ensures db.Valid()
    ensures db.contactMessages == old(db.contactMessages) && db.projects == old(db.projects)
    ensures db.projectReviews == old(db.projectReviews)
    ensures var data := ParseMedia(MediaData(f, name, req));
      if data.Ok? && storeError.None? then
        && resp.Uploaded?
        && resp.file.fields == data.value
        && db.mediaAssets == old(db.mediaAssets) + [resp.file]
        && disk == files + {name}
      else
        && resp == BadRequest(if data.Err? then data.message else storeError.value)
        && db.mediaAssets == old(db.mediaAssets)
        && disk == files - {name}
  {
    disk := files + {name};
    var data := ParseMedia(MediaData(f, name, req));
    if data.Err? {
      disk := disk - {name};
      resp := BadRequest(data.message);
    } else if storeError.Some? {
      disk := disk - {name};
      resp := BadRequest(storeError.value);
    } else {
      var asset := db.CreateMediaAsset(data.value, now);
      resp := Uploaded(asset);
    }
  }
}
