/** `POST /api/posts/new-post`: multer's storage callbacks, which put every file of
    one request into one freshly named folder, the file filter and limits, and the
    handler that maps upload errors, validates the fields and inserts the post and
    its image rows. Multer's own multipart parsing is not modelled: what it hands
    the handler (an error, or the stored files grouped by field) is an input, and
    each `Date.now()`/`new Date()` reading is a parameter. */
module InsertPost {
  import opened Wrappers
  import opened Strings
  import opened DateStamp
  import Database

  // ---------------------------------------------------------------- limits and filter

  /** `limits.fileSize`: 5 MiB per file. */
  const MaxFileSize: nat := 5 * 1024 * 1024
  /** `limits.files`: at most six files per request. */
  const MaxFiles: nat := 6
  /** `maxCount` of the `titleImage` and `extraImages` fields. */
  const MaxTitleImages: nat := 1
  const MaxExtraImages: nat := 5

  const FilterMessage: string := "Only JPEG, PNG, and WebP images are allowed!"

  /** What multer reports when a request fails during upload: the error's `code`
      (absent for the filter's own `Error`) and its `message` (`""` when falsy). */
  datatype UploadError = UploadError(code: Option<string>, message: string)

  /** `fileFilter`: JPEG, PNG and WebP pass; anything else fails with the filter's error. */
  function FileFilter(mimeType: string): (r: Option<UploadError>)
    ensures r.None? <==> mimeType in ["image/jpeg", "image/png", "image/webp"]
    ensures r.Some? ==> r.value == UploadError(None, FilterMessage)
  {
    var allowedTypes := ["image/jpeg", "image/png", "image/webp"];
    if mimeType in allowedTypes then None else Some(UploadError(None, FilterMessage))
  }

  // ---------------------------------------------------------------- names

  /** `generatePostFolderName()`: `post_<date stamp>_<Date.now()>`. */
  function FolderName(t: LocalTime, ms: nat): string
    requires ValidTime(t)
  {
    "post_" + NormalDate(t) + "_" + NatStr(ms)
  }

  /** A folder name reads back: split on `_` it is `post`, the day, the month, the
      year and the timestamp. */
  lemma FolderNameReadsBack(t: LocalTime, ms: nat)
    requires ValidTime(t)
    ensures Split(FolderName(t, ms), '_') == ["post"] + DateFields(t) + [NatStr(ms)]
  {
    var f := DateFields(t);
    var parts := ["post", f[0], f[1], f[2], NatStr(ms)];
    JoinFive("post", f[0], f[1], f[2], NatStr(ms), "_");
    assert Join(parts, "_") == FolderName(t, ms);
    DateFieldsHaveNoUnderscore(t);
    DigitsHaveNo(NatStr(ms), '_');
    assert '_' !in "post";
    SplitJoin(parts, '_');
    assert parts == ["post"] + f + [NatStr(ms)];
  }

  /** Folder names for different timestamps, or different days, never coincide. */
  lemma FolderNameInjective(t1: LocalTime, ms1: nat, t2: LocalTime, ms2: nat)
    requires ValidTime(t1) && ValidTime(t2) && FolderName(t1, ms1) == FolderName(t2, ms2)
    ensures ms1 == ms2 && t1.day == t2.day && t1.month == t2.month && t1.year == t2.year
  {
    FolderNameReadsBack(t1, ms1);
    FolderNameReadsBack(t2, ms2);
    var a, b := Split(FolderName(t1, ms1), '_'), Split(FolderName(t2, ms2), '_');
    assert a[4] == NatStr(ms1) && b[4] == NatStr(ms2);
    NatStrInjective(ms1, ms2);
    assert DateFields(t1) == a[1..4] && DateFields(t2) == b[1..4];
    PadTwoInjective(t1.day, t2.day);
    PadTwoInjective(t1.month + 1, t2.month + 1);
    NatStrInjective(t1.year, t2.year);
  }

  /** The extension chosen from the mimetype, without its dot: `png`, `webp`, else `jpg`. */
  function ExtensionName(mimeType: string): (r: string)
    ensures r in {"png", "webp", "jpg"}
    ensures r == "png" <==> mimeType == "image/png"
    ensures r == "webp" <==> mimeType == "image/webp"
  {
    if mimeType == "image/webp" then "webp" else if mimeType == "image/png" then "png" else "jpg"
  }

  /** The `filename` callback's prefix: `title` for the `titleImage` field, `extra` for any other. */
  function Prefix(fieldName: string): (r: string)
    ensures r == "title" <==> fieldName == "titleImage"
    ensures r == "extra" <==> fieldName != "titleImage"
  {
    if fieldName == "titleImage" then "title" else "extra"
  }

  /** The `filename` callback: `<prefix>_<Date.now()><ext>`. */
  function FileName(fieldName: string, mimeType: string, ms: nat): string {
    Prefix(fieldName) + "_" + NatStr(ms) + "." + ExtensionName(mimeType)
  }

  /** A stored file name reads back: prefix, then timestamp and extension. */
  lemma FileNameReadsBack(fieldName: string, mimeType: string, ms: nat)
    ensures var halves := Split(FileName(fieldName, mimeType, ms), '_');
      && halves == [Prefix(fieldName), NatStr(ms) + "." + ExtensionName(mimeType)]
      && Split(halves[1], '.') == [NatStr(ms), ExtensionName(mimeType)]
  {
    var p, d, e := Prefix(fieldName), NatStr(ms), ExtensionName(mimeType);
    DigitsHaveNo(d, '_');
    DigitsHaveNo(d, '.');
    assert '_' !in p && '.' !in e && '_' !in e;
    JoinTwo(p, d + "." + e, "_");
    assert FileName(fieldName, mimeType, ms) == p + "_" + (d + "." + e);
    SplitJoin([p, d + "." + e], '_');
    JoinTwo(d, e, ".");
    SplitJoin([d, e], '.');
  }

  /** Two files get the same name exactly when they have the same prefix, the same
      timestamp and the same extension; files of one field and type written in the
      same millisecond therefore collide. */
  lemma FileNameCollision(f1: string, m1: string, ms1: nat, f2: string, m2: string, ms2: nat)
    ensures FileName(f1, m1, ms1) == FileName(f2, m2, ms2) <==>
              Prefix(f1) == Prefix(f2) && ms1 == ms2 && ExtensionName(m1) == ExtensionName(m2)
  {
    if FileName(f1, m1, ms1) == FileName(f2, m2, ms2) {
      FileNameReadsBack(f1, m1, ms1);
      FileNameReadsBack(f2, m2, ms2);
      NatStrInjective(ms1, ms2);
    }
  }

  /** The public path `/uploads/<folder>/<file>` of a stored file. */
  function UploadPath(folder: string, fileName: string): string {
    "/uploads/" + folder + "/" + fileName
  }

  // ---------------------------------------------------------------- storage callbacks

  /** What the callbacks read from the clock for one file: the name
      `generatePostFolderName()` returns in the `destination` callback (`FolderName`
      of that moment's date and `Date.now()`), and `Date.now()` in the `filename`
      callback. */
  datatype Clock = Clock(generated: string, fileMs: nat)

  /** A file multer accepted, as the storage callbacks see it. */
  datatype IncomingFile = IncomingFile(fieldName: string, mimeType: string)

  /** A file on disk, as the handler sees it in `req.files`. */
  datatype StoredFile = StoredFile(fieldName: string, mimeType: string, fileName: string)

  /** `./public/uploads`: each post folder and the names of the files in it. */
  class UploadDir {
    var folders: map<string, set<string>>

    constructor (folders: map<string, set<string>>)
      ensures this.folders == folders
    {
      this.folders := folders;
    }
  }

  /** The request object, insofar as the callbacks write to it: `req.postFolder`. */
  class UploadRequest {
    var postFolder: Option<string>

    constructor ()
      ensures postFolder == None
    {
      postFolder := None;
    }
  }

  /** The folder the first file of a request names, kept for every later file. */
  function FolderFor(current: Option<string>, c: Clock): string {
    if current.Some? then current.value else c.generated
  }

  /** The `destination` callback: name the request's folder on its first file and
      reuse it afterwards; create the folder if it does not exist. */
  method Destination(req: UploadRequest, dir: UploadDir, c: Clock) returns (folder: string)
    modifies req, dir
    ensures folder == FolderFor(old(req.postFolder), c)
    ensures req.postFolder == Some(folder)
    ensures folder in dir.folders
    ensures dir.folders == if folder in old(dir.folders) then old(dir.folders) else old(dir.folders)[folder := {}]
  {
    if req.postFolder.None? {
      req.postFolder := Some(c.generated);
    }
    folder := req.postFolder.value;
    if folder !in dir.folders {
      dir.folders := dir.folders[folder := {}];
    }
  }

  /** The names of the files in `files`. */
  function Names(files: seq<StoredFile>): (r: set<string>)
    ensures forall k :: 0 <= k < |files| ==> files[k].fileName in r
    ensures r == {} <==> files == []
  {
    if files == [] then {} else Names(files[..|files| - 1]) + {files[|files| - 1].fileName}
  }

  lemma NamesAppend(files: seq<StoredFile>, f: StoredFile)
    ensures Names(files + [f]) == Names(files) + {f.fileName}
  {
    assert (files + [f])[..|files|] == files;
  }

  /** The disk once `names` are written into `folder`, creating it if absent. */
  function WithFiles(folders: map<string, set<string>>, folder: string, names: set<string>)
    : (r: map<string, set<string>>)
    ensures r.Keys == folders.Keys + {folder}
    ensures r[folder] == (if folder in folders then folders[folder] else {}) + names
    ensures forall other :: other in folders && other != folder ==> r[other] == folders[other]
  {
    folders[folder := (if folder in folders then folders[folder] else {}) + names]
  }

  /** Creating a missing folder is writing no files into it. */
  lemma CreateIsEmptyWrite(folders: map<string, set<string>>, folder: string)
    ensures (if folder in folders then folders else folders[folder := {}]) == WithFiles(folders, folder, {})
  {
    if folder in folders {
      assert folders[folder] + {} == folders[folder];
      assert folders[folder := folders[folder]] == folders;
    } else {
      var none: set<string> := {};
      assert none + none == none;
    }
  }

  /** Writing more files into a folder is writing the union of their names. */
  lemma WriteTwice(folders: map<string, set<string>>, folder: string, names: set<string>, more: set<string>)
    ensures WithFiles(WithFiles(folders, folder, names), folder, more) == WithFiles(folders, folder, names + more)
  {
    var base := if folder in folders then folders[folder] else {};
    assert base + names + more == base + (names + more);
  }

  /** The file `f` stored under `c` as the `filename` callback names it. */
  function Stored(f: IncomingFile, c: Clock): StoredFile {
    StoredFile(f.fieldName, f.mimeType, FileName(f.fieldName, f.mimeType, c.fileMs))
  }

  /** Multer handling one accepted file: the `destination` callback, then the
      `filename` callback, then the write into the folder. */
  method StoreFile(req: UploadRequest, dir: UploadDir, f: IncomingFile, c: Clock) returns (stored: StoredFile)
    modifies req, dir
    ensures stored == Stored(f, c)
    ensures req.postFolder == Some(FolderFor(old(req.postFolder), c))
    ensures dir.folders == WithFiles(old(dir.folders), FolderFor(old(req.postFolder), c), {stored.fileName})
  {
    var folder := Destination(req, dir, c);
    var name := FileName(f.fieldName, f.mimeType, c.fileMs);
    CreateIsEmptyWrite(old(dir.folders), folder);
    WriteTwice(old(dir.folders), folder, {}, {name});
    assert {} + {name} == {name};
    dir.folders := dir.folders[folder := dir.folders[folder] + {name}];
    stored := StoredFile(f.fieldName, f.mimeType, name);
  }

  /** Multer storing the accepted files in arrival order. All land in one folder,
      named from the first file's clock unless the request already had one; a later
      file with the same name overwrites an earlier one. */
  method StoreFiles(req: UploadRequest, dir: UploadDir, files: seq<IncomingFile>, clocks: seq<Clock>)
    returns (stored: seq<StoredFile>)
    requires |clocks| == |files|
    modifies req, dir
    ensures |stored| == |files| && forall i :: 0 <= i < |files| ==> stored[i] == Stored(files[i], clocks[i])
    ensures files == [] ==> req.postFolder == old(req.postFolder) && dir.folders == old(dir.folders)
    ensures files != [] ==>
              && req.postFolder == Some(FolderFor(old(req.postFolder), clocks[0]))
              && dir.folders == WithFiles(old(dir.folders), FolderFor(old(req.postFolder), clocks[0]), Names(stored))
  {
    ghost var disk0 := dir.folders;
    ghost var target := if files == [] then "" else FolderFor(req.postFolder, clocks[0]);
    stored := [];
    var i := 0;
    while i < |files|
      invariant 0 <= i <= |files| && |stored| == i
      invariant forall k :: 0 <= k < i ==> stored[k] == Stored(files[k], clocks[k])
      invariant i == 0 ==> req.postFolder == old(req.postFolder) && dir.folders == disk0
      invariant i > 0 ==> req.postFolder == Some(target) && dir.folders == WithFiles(disk0, target, Names(stored))
    {
      ghost var before := dir.folders;
      var file := StoreFile(req, dir, files[i], clocks[i]);
      NamesAppend(stored, file);
      if i == 0 {
        assert Names(stored) == {};
        assert {} + {file.fileName} == {file.fileName};
      } else {
        WriteTwice(disk0, target, Names(stored), {file.fileName});
      }
      ghost var prev := stored;
      stored := stored + [file];
      forall k | 0 <= k < i + 1 ensures stored[k] == Stored(files[k], clocks[k]) {
        if k < i {
          assert stored[k] == prev[k];
        }
      }
      i := i + 1;
    }
  }

  // ---------------------------------------------------------------- the handler

  /** What reaches the handler's callback: an upload error; a request that was not
      multipart, so `req.files` is undefined; or the stored files by field (an empty
      sequence where the field is absent). */
  datatype Upload =
    | UploadFailed(err: UploadError)
    | NotMultipart
    | Received(titleImage: seq<StoredFile>, extraImages: seq<StoredFile>)

  /** `req.body`'s `title`, `bodyText`, `date` and `type`, each possibly absent. */
  datatype PostFields = PostFields(title: Option<string>, bodyText: Option<string>,
                                   date: Option<string>, postType: Option<string>)

  /** The `post` object a successful response carries. */
  datatype CreatedPost = CreatedPost(title: string, bodyText: Option<string>, titleImage: Option<string>,
                                     extraImages: seq<string>, date: Option<string>, postType: Option<string>,
                                     folder: string)

  datatype Response =
    | Created(post: CreatedPost)
    | Failed(status: nat, error: string)

  const RequiredMessage: string := "Title and at least one image are required."
  const CreateFailedMessage: string := "Failed to create post"

  const FileTooLargeMessage: string := "File too large. Maximum size is 5MB per image."
  const TooManyFilesMessage: string := "Too many files. Maximum is 1 title image and 5 extra images."
  const UnexpectedFieldMessage: string := "Unexpected file field."
  const UploadFailedMessage: string := "File upload failed."

  /** The multer codes the handler answers with a fixed message. */
  predicate LimitCode(code: Option<string>) {
    code in {Some("LIMIT_FILE_SIZE"), Some("LIMIT_FILE_COUNT"), Some("LIMIT_UNEXPECTED_FILE")}
  }

  /** The response to an upload error: always 400, with a fixed message for the
      three limit codes and otherwise the error's own message or a fallback. */
  function UploadErrorResponse(err: UploadError): (r: Response)
    ensures r.Failed? && r.status == 400 && r.error != ""
    ensures err.code == Some("LIMIT_FILE_SIZE") ==> r.error == FileTooLargeMessage
    ensures err.code == Some("LIMIT_FILE_COUNT") ==> r.error == TooManyFilesMessage
    ensures err.code == Some("LIMIT_UNEXPECTED_FILE") ==> r.error == UnexpectedFieldMessage
    ensures !LimitCode(err.code) && err.message != "" ==> r.error == err.message
    ensures !LimitCode(err.code) && err.message == "" ==> r.error == UploadFailedMessage
  {
    if err.code == Some("LIMIT_FILE_SIZE") then Failed(400, FileTooLargeMessage)
    else if err.code == Some("LIMIT_FILE_COUNT") then Failed(400, TooManyFilesMessage)
    else if err.code == Some("LIMIT_UNEXPECTED_FILE") then Failed(400, UnexpectedFieldMessage)
    else Failed(400, if err.message != "" then err.message else UploadFailedMessage)
  }

  /** A file the filter rejects yields 400 with the filter's message. */
  lemma RejectedTypeResponse(mimeType: string)
    requires FileFilter(mimeType).Some?
    ensures UploadErrorResponse(FileFilter(mimeType).value) == Failed(400, FilterMessage)
  {
  }

  /** The upload passed multer and the fields pass the handler's check: a truthy
      title and at least one title or extra image. */
  predicate Accepted(fields: PostFields, upload: Upload) {
    upload.Received? && Truthy(fields.title) && (upload.titleImage != [] || upload.extraImages != [])
  }

  /** The handler's first check fails: a falsy title, or no image in either field. */
  predicate Rejected(fields: PostFields, upload: Upload) {
    || ((upload.Received? || upload.NotMultipart?) && !Truthy(fields.title))
    || (upload.Received? && upload.titleImage == [] && upload.extraImages == [])
  }

  /** `/uploads/<folder>/<filename>` for each extra image, in upload order. */
  function ExtraPaths(folder: string, files: seq<StoredFile>): (r: seq<string>)
    ensures |r| == |files| && forall k :: 0 <= k < |files| ==> r[k] == UploadPath(folder, files[k].fileName)
  {
    seq(|files|, k requires 0 <= k < |files| => UploadPath(folder, files[k].fileName))
  }

  /** The `extra` rows inserted for `paths`, with consecutive ids from `firstId`. */
  function ExtraRows(firstId: nat, postId: nat, folder: string, paths: seq<string>): (r: seq<Database.ImageRow>)
    ensures |r| == |paths|
    ensures forall k :: 0 <= k < |paths| ==>
              r[k] == Database.ImageRow(firstId + k, postId, paths[k], "extra", Some(folder), 0)
  {
    seq(|paths|, k requires 0 <= k < |paths| => Database.ImageRow(firstId + k, postId, paths[k], "extra", Some(folder), 0))
  }

  /** The image rows of a successful request: the `title` row, then one `extra` row
      per extra image, all with the post's id and folder. */
  function NewImageRows(firstId: nat, postId: nat, folder: string, titlePath: string, extraPaths: seq<string>)
    : seq<Database.ImageRow>
  {
    [Database.ImageRow(firstId, postId, titlePath, "title", Some(folder), 0)]
    + ExtraRows(firstId + 1, postId, folder, extraPaths)
  }

  lemma ExtraRowsStep(firstId: nat, postId: nat, folder: string, paths: seq<string>, i: nat)
    requires i < |paths|
    ensures ExtraRows(firstId, postId, folder, paths[..i + 1])
         == ExtraRows(firstId, postId, folder, paths[..i])
            + [Database.ImageRow(firstId + i, postId, paths[i], "extra", Some(folder), 0)]
  {
  }

  /** The response the handler gives before touching the database, if any: the
      upload error; a falsy title or no image (checked first, so a request that was
      not multipart also gets it when the title is falsy); and a 500 when a truthy
      title comes with no `req.files`, whose property access throws. */
  function EarlyResponse(fields: PostFields, upload: Upload): (r: Option<Response>)
    ensures r.None? <==> Accepted(fields, upload)
    ensures upload.UploadFailed? ==> r == Some(UploadErrorResponse(upload.err))
    ensures Rejected(fields, upload) ==> r == Some(Failed(400, RequiredMessage))
    ensures upload.NotMultipart? && Truthy(fields.title) ==> r == Some(Failed(500, CreateFailedMessage))
  {
    if upload.UploadFailed? then Some(UploadErrorResponse(upload.err))
    else if !Truthy(fields.title) then Some(Failed(400, RequiredMessage))
    else if upload.NotMultipart? then Some(Failed(500, CreateFailedMessage))
    else if upload.titleImage == [] && upload.extraImages == [] then Some(Failed(400, RequiredMessage))
    else None
  }

  /** The `title` path of an accepted upload: NULL when no title image came. */
  function TitlePath(folder: string, upload: Upload): (r: Option<string>)
    requires upload.Received?
    ensures r.Some? <==> upload.titleImage != []
    ensures r.Some? ==> r.value == UploadPath(folder, upload.titleImage[0].fileName)
  {
    if upload.titleImage != [] then Some(UploadPath(folder, upload.titleImage[0].fileName)) else None
  }

  /** The `extra` inserts, one per path in order. They cannot fail: the post exists
      and every column is given. */
  method InsertExtras(db: Database.Db, postId: nat, folder: string, extraPaths: seq<string>)
    requires db.Valid() && db.Ready() && postId in Database.PostIds(db.posts)
    modifies db
    ensures db.Valid() && db.Ready()
    ensures db.images == old(db.images) + ExtraRows(old(db.imageSeq) + 1, postId, folder, extraPaths)
    ensures db.imageSeq == old(db.imageSeq) + |extraPaths|
    ensures db.posts == old(db.posts) && db.postSeq == old(db.postSeq)
  {
    var i := 0;
    while i < |extraPaths|
      invariant 0 <= i <= |extraPaths|
      invariant db.Valid() && db.Ready()
      invariant db.posts == old(db.posts) && db.postSeq == old(db.postSeq)
      invariant db.images == old(db.images) + ExtraRows(old(db.imageSeq) + 1, postId, folder, extraPaths[..i])
      invariant db.imageSeq == old(db.imageSeq) + i
    {
      var inserted := db.InsertImage(Some(postId), Some(extraPaths[i]), Some("extra"), Some(folder), None);
      ExtraRowsStep(old(db.imageSeq) + 1, postId, folder, extraPaths, i);
      i := i + 1;
    }
    assert extraPaths[..i] == extraPaths;
  }

  /** The handler's inserts as written: the post row, then the `title` row with
      `titlePath` even when that is NULL, then the `extra` rows. A NULL path fails
      the title insert, which throws and skips the extra rows; the post row stays,
      with no image row referring to it. */
  method SavePost(db: Database.Db, fields: PostFields, folder: string, titlePath: Option<string>, extraPaths: seq<string>)
    returns (postId: nat, ok: bool)
    requires db.Valid() && db.Ready()
    modifies db
    ensures db.Valid() && db.Ready()
    ensures postId == old(db.postSeq) + 1 && db.postSeq == postId
    ensures db.posts == old(db.posts) + [Database.PostRow(postId, fields.title, fields.bodyText, fields.date, fields.postType)]
    ensures ok <==> titlePath.Some?
    ensures ok ==> db.images == old(db.images) + NewImageRows(old(db.imageSeq) + 1, postId, folder, titlePath.value, extraPaths)
    ensures !ok ==> db.images == old(db.images) && db.imageSeq == old(db.imageSeq)
    ensures !ok ==> Database.ImagesOf(db.images, postId) == []
  {
    NoImagesForNewPost(db.posts, db.images, db.postSeq);
    postId := db.InsertPost(fields.title, fields.bodyText, fields.date, fields.postType);
    assert db.posts[|db.posts| - 1].id == postId;
    ghost var mid := db.images;
    ok := InsertTitle(db, postId, folder, titlePath);
    if ok {
      ghost var withTitle := db.images;
      InsertExtras(db, postId, folder, extraPaths);
      TitleThenExtras(mid, old(db.imageSeq) + 1, postId, folder, titlePath.value, extraPaths);
    }
  }

  lemma TitleThenExtras(images: seq<Database.ImageRow>, firstId: nat, postId: nat, folder: string,
                        titlePath: string, extraPaths: seq<string>)
    ensures images + [Database.ImageRow(firstId, postId, titlePath, "title", Some(folder), 0)]
                   + ExtraRows(firstId + 1, postId, folder, extraPaths)
         == images + NewImageRows(firstId, postId, folder, titlePath, extraPaths)
  {
    var titleRow := Database.ImageRow(firstId, postId, titlePath, "title", Some(folder), 0);
    var extras := ExtraRows(firstId + 1, postId, folder, extraPaths);
    assert NewImageRows(firstId, postId, folder, titlePath, extraPaths) == [titleRow] + extras;
    assert images + [titleRow] + extras == images + ([titleRow] + extras);
  }

  /** The `title` insert: refused by NOT NULL when the path is NULL. */
  method InsertTitle(db: Database.Db, postId: nat, folder: string, titlePath: Option<string>) returns (ok: bool)
    requires db.Valid() && db.Ready() && postId in Database.PostIds(db.posts)
    modifies db
    ensures db.Valid() && db.Ready()
    ensures db.posts == old(db.posts) && db.postSeq == old(db.postSeq)
    ensures ok <==> titlePath.Some?
    ensures ok ==> db.images == old(db.images) + [Database.ImageRow(old(db.imageSeq) + 1, postId, titlePath.value, "title", Some(folder), 0)]
                   && db.imageSeq == old(db.imageSeq) + 1
    ensures !ok ==> db.images == old(db.images) && db.imageSeq == old(db.imageSeq)
  {
    var inserted := db.InsertImage(Some(postId), titlePath, Some("title"), Some(folder), None);
    ok := inserted.Success?;
  }

  /** Right after a post row is inserted, no image row refers to it: every existing
      image refers to an older post, and older ids are below the new one. */
  lemma NoImagesForNewPost(posts: seq<Database.PostRow>, images: seq<Database.ImageRow>, postSeq: nat)
    requires Database.PostIdsBelow(posts, postSeq) && Database.Referenced(posts, images)
    ensures Database.ImagesOf(images, postSeq + 1) == []
  {
    forall k | 0 <= k < |images| ensures images[k].postId != postSeq + 1 {
      assert images[k].postId in Database.PostIds(posts);
    }
    Database.ImagesOfAbsent(images, postSeq + 1);
  }

  /** The `/new-post` handler as written. An upload error maps to 400. A falsy
      title or no image gives 400 with nothing inserted and the folder left on disk.
      Otherwise the post row is inserted, then a `title` row whose path is NULL when
      there is no title image, then the `extra` rows in upload order. There is no
      transaction: when an insert throws, the folder is removed and 500 is returned,
      but the post row stays, with no image. */
  method NewPost(db: Database.Db, dir: UploadDir, req: UploadRequest, fields: PostFields, upload: Upload)
    returns (resp: Response)
    requires db.Valid() && db.Ready()
    requires Accepted(fields, upload) ==> req.postFolder.Some?
    modifies db, dir
    ensures db.Valid() && db.Ready()
    ensures EarlyResponse(fields, upload).Some? ==>
              resp == EarlyResponse(fields, upload).value && unchanged(db) && dir.folders == old(dir.folders)
    ensures Accepted(fields, upload) ==>
              var folder := req.postFolder.value;
              var postId := old(db.postSeq) + 1;
              && db.posts == old(db.posts) + [Database.PostRow(postId, fields.title, fields.bodyText, fields.date, fields.postType)]
              && db.postSeq == postId
              && (upload.titleImage != [] ==>
                    var titlePath := UploadPath(folder, upload.titleImage[0].fileName);
                    var extraPaths := ExtraPaths(folder, upload.extraImages);
                    && db.images == old(db.images) + NewImageRows(old(db.imageSeq) + 1, postId, folder, titlePath, extraPaths)
                    && dir.folders == old(dir.folders)
                    && resp == Created(CreatedPost(fields.title.value, fields.bodyText, Some(titlePath), extraPaths,
                                                   fields.date, fields.postType, folder)))
              && (upload.titleImage == [] ==>
                    && db.images == old(db.images) && db.imageSeq == old(db.imageSeq)
                    && Database.ImagesOf(db.images, postId) == []
                    && dir.folders == old(dir.folders) - {folder}
                    && resp == Failed(500, CreateFailedMessage))
  {
    var early := EarlyResponse(fields, upload);
    if early.Some? {
      return early.value;
    }
    var folder := req.postFolder.value;
    var titlePath := TitlePath(folder, upload);
    var extraPaths := ExtraPaths(folder, upload.extraImages);
    var post := CreatedPost(fields.title.value, fields.bodyText, titlePath, extraPaths, fields.date, fields.postType, folder);
    var postId, ok := SavePost(db, fields, folder, titlePath, extraPaths);
    if !ok {
      // `fs.rmSync` of the folder when it exists; removing an absent key changes nothing.
      dir.folders := dir.folders - {folder};
      return Failed(500, CreateFailedMessage);
    }
    resp := Created(post);
  }

  /** The image rows the corrected handler inserts: the `title` row only when a
      title image came, then the `extra` rows, with consecutive ids from `firstId`. */
  function CreatedImageRows(firstId: nat, postId: nat, folder: string, titlePath: Option<string>, extraPaths: seq<string>)
    : (r: seq<Database.ImageRow>)
    ensures |r| == (if titlePath.Some? then 1 else 0) + |extraPaths|
    ensures titlePath.Some? ==> r == NewImageRows(firstId, postId, folder, titlePath.value, extraPaths)
  {
    if titlePath.Some? then NewImageRows(firstId, postId, folder, titlePath.value, extraPaths)
    else ExtraRows(firstId, postId, folder, extraPaths)
  }

  /** The corrected inserts: the `title` row only when there is a title image. */
  method SavePostFixed(db: Database.Db, fields: PostFields, folder: string, titlePath: Option<string>, extraPaths: seq<string>)
    returns (postId: nat)
    requires db.Valid() && db.Ready()
    modifies db
    ensures db.Valid() && db.Ready()
    ensures postId == old(db.postSeq) + 1 && db.postSeq == postId
    ensures db.posts == old(db.posts) + [Database.PostRow(postId, fields.title, fields.bodyText, fields.date, fields.postType)]
    ensures db.images == old(db.images) + CreatedImageRows(old(db.imageSeq) + 1, postId, folder, titlePath, extraPaths)
  {
    postId := db.InsertPost(fields.title, fields.bodyText, fields.date, fields.postType);
    assert db.posts[|db.posts| - 1].id == postId;
    if titlePath.Some? {
      var titleInsert := db.InsertImage(Some(postId), titlePath, Some("title"), Some(folder), None);
    }
    InsertExtras(db, postId, folder, extraPaths);
  }

  /** The handler as evidently intended: every accepted request, with or without
      a title image, creates the post with all its images and answers with it. */
  method NewPostFixed(db: Database.Db, dir: UploadDir, req: UploadRequest, fields: PostFields, upload: Upload)
    returns (resp: Response)
    requires db.Valid() && db.Ready()
    requires Accepted(fields, upload) ==> req.postFolder.Some?
    modifies db
    ensures db.Valid() && db.Ready()
    ensures EarlyResponse(fields, upload).Some? ==> resp == EarlyResponse(fields, upload).value && unchanged(db)
    ensures Accepted(fields, upload) ==>
              var folder := req.postFolder.value;
              var postId := old(db.postSeq) + 1;
              var titlePath := TitlePath(folder, upload);
              var extraPaths := ExtraPaths(folder, upload.extraImages);
              && db.posts == old(db.posts) + [Database.PostRow(postId, fields.title, fields.bodyText, fields.date, fields.postType)]
              && db.postSeq == postId
              && db.images == old(db.images) + CreatedImageRows(old(db.imageSeq) + 1, postId, folder, titlePath, extraPaths)
              && resp == Created(CreatedPost(fields.title.value, fields.bodyText, titlePath, extraPaths,
                                             fields.date, fields.postType, folder))
  {
    var early := EarlyResponse(fields, upload);
    if early.Some? {
      return early.value;
    }
    var folder := req.postFolder.value;
    var titlePath := TitlePath(folder, upload);
    var extraPaths := ExtraPaths(folder, upload.extraImages);
    var postId := SavePostFixed(db, fields, folder, titlePath, extraPaths);
    resp := Created(CreatedPost(fields.title.value, fields.bodyText, titlePath, extraPaths, fields.date, fields.postType, folder));
  }
}
