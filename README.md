# The watchmaker blog: a Dafny model

This project is a verified model of the core of the watchmaker site. The site is
an Express server and a Vue admin client for a watch-repair blog.

The server stores posts and their images in SQLite. It serves:
- `POST /api/posts/new-post`, which uploads images and creates a post;
- `/get-all`, `/get-all-simple` and `/search`, which read posts back, a page at
  a time.

Contact-form submissions are validated by a zod schema and formatted into an
e-mail. Rejected submissions are written to a security log. The client keeps the
admin's list of posts, the pagination and the edit state in a Pinia store.

The modules follow the source files:

| module | file | models |
|---|---|---|
| `Wrappers` | `wrappers.dfy` | `Option` and `Result` |
| `Strings` | `strings.dfy` | decimal digits and `padStart`, `join`/`split`, JavaScript `trim()` and its white-space set, UTF-16 lengths, ASCII case folding |
| `DateStamp` | `date_stamp.dfy` | `getNormalDate` (both copies) |
| `Database` | `database.dfy` | the schema of `database.js`; the tables as a class `Db` with AUTOINCREMENT counters, NOT NULL, the foreign key and its cascade |
| `InsertPost` | `insert_post.dfy` | `insertPostRouter.js`: multer's storage callbacks, filter and limits; the error mapping; the handler |
| `GetPost` | `get_post.dfy` | `getPostRouter.js`: the three read routes, SQLite `LIMIT`/`OFFSET` and `LIKE` |
| `FormSchema` | `form_schema.dfy` | `formZodSchema.js`: `validateSecurity` and the contact-form schema |
| `LoginSchema` | `login_schema.dfy` | `loginSchema.js` |
| `PostUtils` | `post_utils.dfy` | `usePostType` and `useErrorOutline` of `utils.js` |
| `EmailTemplate` | `email_template.dfy` | `generateEmailTemplate.js` |
| `SecurityLog` | `security_log.dfy` | `securityLogger` and `writeToLog` of `security.js` |
| `PostsStore` | `posts_store.dfy` | `usePostsStore.js` as a class `Store` whose methods update its fields |
| `RoundTrip` | `round_trip.dfy` | a post created by the handler and then read by `/get-all`; the store showing a page of the database |

Inputs the model does not compute:
- The clock. Each `new Date()` is a `LocalTime` and each `Date.now()` is a `nat`.
- What multer hands the handler: an error, or the stored files grouped by field.
- HTTP responses of the server, seen from the client store. They are an outcome
  parameter (`Loaded(data)` or `FetchFailed`).
- The result of zod's own e-mail format test. It is a boolean.

## Model

| member | source | states |
|---|---|---|
| `Strings.NatStr` | server/utils/security.js:6-8 | `String(n)` is a non-empty run of digits, one digit exactly when `n < 10` |
| `Strings.NatStrRoundTrip` | server/utils/security.js:6-8 | reading the digits of `String(n)` back gives `n` |
| `Strings.NatStrInjective` | server/utils/security.js:6-8 | different numbers give different strings |
| `Strings.PadStart2` | server/utils/security.js:6-7 | `padStart(2, '0')`: a string of two or more characters is kept; a shorter one is left-filled with `0` to length 2, ending with the original |
| `Strings.PadTwoField` | server/utils/security.js:6-7 | a number below 100 pads to two digits that read back as the number |
| `Strings.PadTwoInjective` | server/utils/security.js:6-7 | padding numbers below 100 is injective |
| `Strings.SplitJoin` | server/utils/security.js:52 | `join(sep)` followed by a split on `sep` gives the parts back when no part holds `sep` |
| `Strings.JoinSnoc` | server/utils/security.js:64 | joining one more part appends the separator and the part |
| `Strings.TrimIsCore` | watchmaker/src/composables/formZodSchema.js:61 | `trim()` keeps a contiguous slice of the input, drops only JavaScript white space on either side, and neither starts nor ends with white space |
| `Strings.TrimIdempotent` | watchmaker/src/composables/formZodSchema.js:61 | trimming twice is trimming once |
| `Strings.TrimEmpty` | watchmaker/src/composables/utils.js:5-10 | the trimmed text is empty exactly when every character is white space |
| `Strings.Utf16Len` | watchmaker/src/composables/formZodSchema.js:62-63 | a string's `length` in UTF-16 code units is at least its number of code points |
| `Strings.Utf16LenBmp` | watchmaker/src/composables/formZodSchema.js:62-63 | it equals the number of code points when none lies above U+FFFF |
| `Strings.LowerAll` | watchmaker/src/composables/formZodSchema.js:8 | ASCII lower-casing keeps the length and maps each character |
| `DateStamp.NormalDate` | server/routes/insertPostRouter.js:12-18 | `dd_mm_yyyy`; its properties are `NormalDateReadsBack` and `NormalDateInjective` |
| `DateStamp.NormalDateTime` | server/utils/security.js:4-17 | `Date: dd_mm_yyyy Time: hh_mm`; its property is `NormalDateTimeReadsBack` |
| `DateStamp.NormalDateReadsBack` | server/routes/insertPostRouter.js:12-18 | `dd_mm_yyyy` splits on `_` into three digit fields: two digits of day, two of month + 1, then the year |
| `DateStamp.NormalDateInjective` | server/routes/insertPostRouter.js:12-18 | two clocks give the same date stamp only on the same day, month and year |
| `DateStamp.NormalDateTimeReadsBack` | server/utils/security.js:10-13 | `Date: dd_mm_yyyy Time: hh_mm` splits on spaces into four words, the date word is the date stamp and the clock reads back as the hours and minutes |
| `DateStamp.ClockFieldReadsBack` | server/utils/security.js:11-13 | `hh_mm` reads back as the hours and minutes and holds no space |
| `DateStamp.DateHasNoSpace` | server/utils/security.js:16 | the date stamp holds no space |
| `Database.Initialized` | server/database.js:12-40 | initialisation enables foreign keys and creates both tables; a missing images table gets the full column list; an existing one keeps its columns as a prefix and gains `order_index` only when that column is missing |
| `Database.InitializeIdempotent` | server/database.js:15-40 | running the schema set-up twice is running it once |
| `Database.ImagesOfMembers` | server/database.js:23-31 | a post's images are exactly the table rows with its `post_id` |
| `Database.ImagesOfAppend` | server/database.js:23-31 | the images of a post in concatenated tables are those of each table in turn |
| `Database.ImagesNotOfMembers` | server/database.js:30 | after the cascade the images table holds exactly the rows of other posts |
| `Database.PostsNotMembers` | server/database.js:15-21 | deleting a post leaves exactly the rows with other ids |
| `Database.PostsNotKeepsOrder` | server/database.js:16 | deleting a post keeps the post ids increasing and below the AUTOINCREMENT counter |
| `Database.ImagesNotOfKeepsOrder` | server/database.js:24 | the cascade keeps the image ids increasing and below their counter |
| `Database.PostIdsAppend` | server/database.js:16 | inserting a row adds exactly its id to the table's ids |
| `Database.CascadeKeepsReferences` | server/database.js:30 | after `ON DELETE CASCADE` every image still belongs to an existing post |
| `Database.DeleteKeepsConsistent` | server/database.js:12-31 | deleting a post keeps the database consistent and leaves no row of, or image for, that post |
| `Database.Db.Open` | server/database.js:1-2 | opening a consistent database file gives a valid handle on exactly its contents |
| `Database.Db.Initialize` | server/database.js:12-40 | the schema becomes `Initialized` of the old one and the rows and counters are untouched |
| `Database.Db.InsertPost` | server/database.js:15-21 | a new row gets the next AUTOINCREMENT id, above every existing id, and is appended; the images are unchanged |
| `Database.Db.InsertImage` | server/database.js:23-31 | the NOT NULL checks in column order, then the foreign key; each failure is named and inserts nothing; success appends the row with the next id and `order_index` 0 by default |
| `Database.Db.DeletePost` | server/database.js:30 | the post's row and, by the cascade, all its images are removed; the result says whether the post existed |
| `InsertPost.FolderName` | server/routes/insertPostRouter.js:27-31 | `post_<date>_<ms>`; its properties are `FolderNameReadsBack` and `FolderNameInjective` |
| `InsertPost.FileFilter` | server/routes/insertPostRouter.js:65-74 | a file passes exactly when its type is JPEG, PNG or WebP; otherwise the filter's error |
| `InsertPost.FolderNameReadsBack` | server/routes/insertPostRouter.js:27-31 | `post_dd_mm_yyyy_<ms>` splits on `_` into `post`, the three date fields and the timestamp |
| `InsertPost.FolderNameInjective` | server/routes/insertPostRouter.js:27-31 | equal folder names mean the same millisecond and the same day |
| `InsertPost.ExtensionName` | server/routes/insertPostRouter.js:49-51 | `png` exactly for PNG, `webp` exactly for WebP, otherwise `jpg` |
| `InsertPost.Prefix` | server/routes/insertPostRouter.js:53 | `title` exactly for the `titleImage` field, `extra` for every other field |
| `InsertPost.FileName` | server/routes/insertPostRouter.js:47-56 | `<prefix>_<ms>.<ext>` from the field, the clock and the MIME type; its properties are `FileNameReadsBack` and `FileNameCollision` |
| `InsertPost.FileNameReadsBack` | server/routes/insertPostRouter.js:47-56 | `<prefix>_<ms>.<ext>` splits back into the prefix, the timestamp and the extension |
| `InsertPost.FileNameCollision` | server/routes/insertPostRouter.js:47-56 | two files get the same name exactly when prefix, millisecond and extension agree |
| `InsertPost.Destination` | server/routes/insertPostRouter.js:35-46 | the request's folder is generated on its first file and reused after; the folder exists afterwards, and only a missing one is created, empty |
| `InsertPost.WithFiles` | server/routes/insertPostRouter.js:41-45 | writing files adds their names to one folder and changes no other |
| `InsertPost.WriteTwice` | server/routes/insertPostRouter.js:41-45 | two writes into one folder are one write of both sets of names |
| `InsertPost.CreateIsEmptyWrite` | server/routes/insertPostRouter.js:41-43 | `mkdirSync` of a missing folder is a write of no files |
| `InsertPost.StoreFile` | server/routes/insertPostRouter.js:35-56 | one file is stored under its generated name in the request's folder |
| `InsertPost.StoreFiles` | server/routes/insertPostRouter.js:35-56 | every file of a request is stored, in order, in the folder chosen for the first one; no files change nothing |
| `InsertPost.UploadErrorResponse` | server/routes/insertPostRouter.js:85-113 | every upload error gives a 400 with a non-empty message: the size, count and unexpected-field messages for `LIMIT_FILE_SIZE`, `LIMIT_FILE_COUNT` and `LIMIT_UNEXPECTED_FILE`; any other error's own message, or `File upload failed.` when that is empty |
| `InsertPost.RejectedTypeResponse` | server/routes/insertPostRouter.js:72 | a refused file type reaches the client as a 400 with the filter's message |
| `InsertPost.EarlyResponse` | server/routes/insertPostRouter.js:85-130 | the handler stops early exactly when the upload is not accepted: an upload error maps to its 400; a multipart request with a falsy title or with no image gives the 400 "required" response; only a request that is not multipart and has a truthy title reaches `req.files.titleImage` on an undefined `req.files` and gives 500 |
| `InsertPost.TitlePath` | server/routes/insertPostRouter.js:136-139 | a title path exists exactly when a title image was stored, and is `/uploads/<folder>/<file>` |
| `InsertPost.ExtraPaths` | server/routes/insertPostRouter.js:141-145 | one `/uploads/<folder>/<file>` path per extra image, in order |
| `InsertPost.ExtraRows` | server/routes/insertPostRouter.js:169-174 | one `extra` row per path, with consecutive ids, the post's id and the folder |
| `InsertPost.InsertExtras` | server/routes/insertPostRouter.js:169-174 | the `forEach` appends exactly those rows and advances the image counter by their number |
| `InsertPost.InsertTitle` | server/routes/insertPostRouter.js:165-168 | the title row is inserted exactly when a title path exists; a NULL path inserts nothing |
| `InsertPost.SavePost` | server/routes/insertPostRouter.js:158-174 | as written: the post row is always inserted; without a title path the title insert fails and the post is left with no images |
| `InsertPost.TitleThenExtras` | server/routes/insertPostRouter.js:165-174 | the title row followed by the extra rows are the rows of the new post |
| `InsertPost.NoImagesForNewPost` | server/database.js:16 | the id the next insert will get has no images yet |
| `InsertPost.NewPost` | server/routes/insertPostRouter.js:78-196 | as written: early responses change nothing; with a title image, the post and all its image rows are saved and the created post returned; without one, the row is left behind with no images, the folder is deleted and the answer is 500 |
| `InsertPost.CreatedImageRows` | server/routes/insertPostRouter.js:165-174 | the rows of a new post: the title row when there is a title path, then the extra rows |
| `InsertPost.SavePostFixed` | server/routes/insertPostRouter.js:158-174 | corrected: the post row and exactly the created image rows are saved |
| `InsertPost.NewPostFixed` | server/routes/insertPostRouter.js:78-196 | corrected: every accepted upload saves the post and its images and returns the created post |
| `GetPost.OrDefault` | server/routes/getPostRouter.js:9-10 | `parseInt(x) \|\| d`: a missing, unparseable or zero value gives the default; any other integer is kept |
| `GetPost.PageParam` | server/routes/getPostRouter.js:9 | the page is never 0, a positive page is kept and a non-negative one gives at least 1 |
| `GetPost.LimitParam` | server/routes/getPostRouter.js:10 | the same for the limit, which defaults to 10 |
| `GetPost.CeilDiv` | server/routes/getPostRouter.js:85 | `Math.ceil(a / b)` is the least `q` with `q * b >= a` |
| `GetPost.JsCeilDiv` | server/routes/getPostRouter.js:85 | for a negative limit the page count is non-positive |
| `GetPost.MakePagination` | server/routes/getPostRouter.js:81-88 | the pagination object carries the page, limit and total, the page count, `hasNextPage` exactly when the page is below the page count, and `hasPrevPage` exactly when the page is above 1 |
| `GetPost.PaginationFlags` | server/routes/getPostRouter.js:86-87 | for positive parameters `hasNextPage` holds exactly when posts lie beyond the page and `hasPrevPage` exactly when the page skips some |
| `GetPost.NegativeLimitHasNoNext` | server/routes/getPostRouter.js:85-86 | a negative limit never reports a next page |
| `GetPost.Window` | server/routes/getPostRouter.js:17-25 | `LIMIT`/`OFFSET`: the rows from the offset on, at most `limit` of them; a negative offset starts at 0 and a negative limit is no bound |
| `GetPost.WindowsAdjoin` | server/routes/getPostRouter.js:17-25 | consecutive pages split the rows without gaps or overlap |
| `GetPost.PostsPage` | server/routes/getPostRouter.js:17-25 | `ORDER BY id DESC LIMIT ? OFFSET ?`; its property is `PostsPageShape` |
| `GetPost.PostsPageShape` | server/routes/getPostRouter.js:17-25 | a page holds at most `limit` posts, strictly newest first: those at the offset counted from the newest |
| `GetPost.AscendingIdsIncreasing` | server/routes/getPostRouter.js:28 | the page's ids are distinct, so they can be listed ascending |
| `GetPost.ImagesQuery` | server/routes/getPostRouter.js:31-43 | the images of the listed posts, by post and image id; its properties are `ImagesQueryMembers`, `ImagesQueryOrdered` and `ImagesQueryGroups` |
| `GetPost.ImagesQueryMembers` | server/routes/getPostRouter.js:31-43 | the images query returns exactly the images of the listed posts |
| `GetPost.ImagesQueryOrdered` | server/routes/getPostRouter.js:35-38 | its rows are ordered by post and then by image id |
| `GetPost.ImagesQueryGroups` | server/routes/getPostRouter.js:31-43 | each listed post's rows in the result are exactly its images in the table |
| `GetPost.PushKeepsGroups` | server/routes/getPostRouter.js:46-52 | pushing an image onto its post's list keeps the dictionary equal to the grouping of the rows seen so far |
| `GetPost.GroupByPost` | server/routes/getPostRouter.js:46-52 | the `forEach` leaves each post with exactly its rows in order, only posts with rows get an entry, and no rows give an empty dictionary |
| `GetPost.LoadImages` | server/routes/getPostRouter.js:31-52 | the grouped result gives each listed post exactly its images and every other post none; an empty page queries nothing |
| `GetPost.FolderOf` | server/routes/getPostRouter.js:62 | the folder is the first image's `folder_url` unless that is NULL or empty |
| `GetPost.TitleOf` | server/routes/getPostRouter.js:63-69 | a title image is shown exactly when the post has an image |
| `GetPost.ExtrasOf` | server/routes/getPostRouter.js:70-74 | every image after the first is an extra |
| `GetPost.ShapePost` | server/routes/getPostRouter.js:55-76 | one post's entry; its property is `ShapeShowsAll` |
| `GetPost.PageItems` | server/routes/getPostRouter.js:55-76 | one entry per post of the page; its property is `ShapePage` |
| `GetPost.ShapeShowsAll` | server/routes/getPostRouter.js:55-76 | shaping loses and reorders nothing: the title then the extras are the post's images in order; a post with no images has no title, folder or extras |
| `GetPost.ShapePage` | server/routes/getPostRouter.js:55-76 | the `map` builds one entry per post of the page, each with its own images |
| `GetPost.PageImages` | server/routes/getPostRouter.js:28-52 | every post of the page is looked up to its own images |
| `GetPost.GetAll` | server/routes/getPostRouter.js:6-94 | `/get-all` returns the pagination of the whole table and the page of posts newest first, each with all its images |
| `GetPost.AllImagesSortedIsTable` | server/routes/getPostRouter.js:99-100 | in a consistent database `ORDER BY post_id, id` is a reordering of the whole images table |
| `GetPost.GetAllSimple` | server/routes/getPostRouter.js:97-137 | `/get-all-simple` returns every post in table order with all its images |
| `GetPost.Like` | server/routes/getPostRouter.js:148-152 | `value LIKE '%term%'`, false for NULL; its properties are `LikeIsSubstring` and `EmptyTermLike` |
| `GetPost.LikeIsSubstring` | server/routes/getPostRouter.js:143-155 | for a term without wildcards `LIKE '%term%'` holds exactly when the term occurs, ASCII case folded, in the value |
| `GetPost.EmptyTermLike` | server/routes/getPostRouter.js:142-152 | the pattern of an empty term matches every non-NULL value |
| `GetPost.Matching` | server/routes/getPostRouter.js:148-167 | every post it keeps matches, and it keeps no more than the table holds; `MatchingMembers` and `MatchingKeepsOrder` state the rest |
| `GetPost.MatchingMembers` | server/routes/getPostRouter.js:148-167 | the search keeps exactly the posts whose title or body matches |
| `GetPost.MatchingKeepsOrder` | server/routes/getPostRouter.js:158-167 | the matching posts keep the table's increasing id order |
| `GetPost.EmptyTermMatches` | server/routes/getPostRouter.js:142 | an absent `q` matches every post with a title or a body |
| `GetPost.SearchItems` | server/routes/getPostRouter.js:194-214 | one search entry per post of the page; its properties are `SearchShape` and `SearchShowsAll` |
| `GetPost.SearchShape` | server/routes/getPostRouter.js:194-214 | as written, a search entry's `postTitle` carries the post's body |
| `GetPost.SearchShowsAll` | server/routes/getPostRouter.js:194-214 | a search entry shows the same id, date, folder and images as the `/get-all` entry of that post |
| `GetPost.SearchTermParam` | server/routes/getPostRouter.js:142 | `req.query.q \|\| ''` |
| `GetPost.Search` | server/routes/getPostRouter.js:140-232 | `/search` echoes the term and returns the pagination and the page, newest first, of the matching posts only |
| `GetPost.SearchPageShape` | server/routes/getPostRouter.js:158-167 | a search page holds at most `limit` matching posts of the table, strictly newest first |
| `FormSchema.ValidateSecurity` | watchmaker/src/composables/formZodSchema.js:4-42 | every refusal carries one of the five messages; which one is stated by `ValidateIsFirstFailure` and `ScriptComesFirst` |
| `FormSchema.ValidateIsFirstFailure` | watchmaker/src/composables/formZodSchema.js:4-42 | `validateSecurity` reports the first enabled check that fires, in the order script, tags, brackets, symbol runs, SQL |
| `FormSchema.EnabledFirstFailure` | watchmaker/src/composables/formZodSchema.js:7-41 | the verdict for each combination of signals and options, with its message |
| `FormSchema.Enabled` | watchmaker/src/composables/formZodSchema.js:5-33 | the script, tag and SQL checks always run; brackets exactly when not allowed; symbol runs exactly when symbols are not allowed |
| `FormSchema.FirstFailure` | watchmaker/src/composables/formZodSchema.js:7-41 | valid exactly when no check fires; otherwise the message of the first check that fires |
| `FormSchema.SqlAlwaysRefused` | watchmaker/src/composables/formZodSchema.js:36-39 | a value with a SQL command is refused under every option |
| `FormSchema.RunLengthIgnoredWhenSymbolsAllowed` | watchmaker/src/composables/formZodSchema.js:28-33 | with symbols allowed the run length makes no difference |
| `FormSchema.SymbolRunShorter` | watchmaker/src/composables/formZodSchema.js:29 | a run of `n` symbols is also a run of any shorter length |
| `FormSchema.ScriptComesFirst` | watchmaker/src/composables/formZodSchema.js:8-11 | a script tag is always reported as unsafe content, whatever else the value holds |
| `FormSchema.ScriptBoundaryExamples` | watchmaker/src/composables/formZodSchema.js:8 | examples of the word boundary: `/<script\b/i` matches `<SCRIPT>` but not `<scripts` |
| `FormSchema.Bounds` | watchmaker/src/composables/formZodSchema.js:62-63 | the length checks pass exactly within the bounds |
| `FormSchema.Piped` | watchmaker/src/composables/formZodSchema.js:64 | `.pipe` passes exactly when the earlier checks and the security check pass, and reports the earlier issues first |
| `FormSchema.PhoneIssues` | watchmaker/src/composables/formZodSchema.js:87-97 | a missing phone is never an issue |
| `FormSchema.CheckForm` | watchmaker/src/composables/formZodSchema.js:58-98 | the issues of each field; its property is `FormAcceptedIff` |
| `FormSchema.NameIssues` | watchmaker/src/composables/formZodSchema.js:59-71 | a name field's issues; its properties are `NameAcceptedIff` and `TrimmedFirst` |
| `FormSchema.EmailIssues` | watchmaker/src/composables/formZodSchema.js:73-78 | the e-mail field's issues; its property is `EmailAcceptedIff` |
| `FormSchema.MessageIssues` | watchmaker/src/composables/formZodSchema.js:80-85 | the message field's issues; its property is `MessageAcceptedIff` |
| `FormSchema.FormAcceptedIff` | watchmaker/src/composables/formZodSchema.js:58-98 | the form is accepted exactly when both names, the e-mail, the message and the phone meet their rules |
| `FormSchema.NameAcceptedIff` | watchmaker/src/composables/formZodSchema.js:59-71 | a name is accepted exactly when it has 1 to 50 UTF-16 units after trimming and passes the strict security check |
| `FormSchema.EmailAcceptedIff` | watchmaker/src/composables/formZodSchema.js:73-78 | an e-mail is accepted exactly when its format is valid, it has at most 254 units and it passes its security check |
| `FormSchema.MessageAcceptedIff` | watchmaker/src/composables/formZodSchema.js:80-85 | a message is accepted exactly when it has 10 to 6000 units and passes its security check |
| `FormSchema.PhoneAcceptedIff` | watchmaker/src/composables/formZodSchema.js:87-97 | the phone is accepted exactly when it is missing or empty, or has at most 25 units and passes the strict security check |
| `FormSchema.TrimmedFirst` | watchmaker/src/composables/formZodSchema.js:61-89 | white space around any field never changes the issues: every rule sees the trimmed value |
| `LoginSchema.EmailIssues` | watchmaker/src/views/Admin/loginSchema.js:5-10 | the login e-mail's issues in check order; its property is `EmailBounds` |
| `LoginSchema.PasswordIssues` | watchmaker/src/views/Admin/loginSchema.js:11-19 | the password's issues in check order; its properties are `PasswordAcceptedIff`, `MinOneSubsumed` and `PasswordTrimmedFirst` |
| `LoginSchema.PasswordAcceptedIff` | watchmaker/src/views/Admin/loginSchema.js:11-19 | a password is accepted exactly when it has 6 to 32 characters after trimming, all of them letters, digits or `!@#._-` |
| `LoginSchema.AllowedIsAscii` | watchmaker/src/views/Admin/loginSchema.js:3 | allowed characters are ASCII, so their UTF-16 length is their count |
| `LoginSchema.MinOneSubsumed` | watchmaker/src/views/Admin/loginSchema.js:15-16 | whenever `min(1)` fires, so does `min(6)` |
| `LoginSchema.EmailBounds` | watchmaker/src/views/Admin/loginSchema.js:5-10 | an e-mail is accepted exactly when its format is valid and it has 1 to 32 units after trimming |
| `LoginSchema.PasswordTrimmedFirst` | watchmaker/src/views/Admin/loginSchema.js:13 | only the trimmed password is checked |
| `PostUtils.ClassifyPost` | watchmaker/src/composables/utils.js:3-21 | `usePostType`; its properties are `ClassifyTable`, `MissingFieldsNeverMatch` and `ClassifyIgnoresPadding` |
| `PostUtils.ClassifyTable` | watchmaker/src/composables/utils.js:3-21 | the four post types are exactly the four combinations of "no text" and "no images" |
| `PostUtils.MissingFieldsNeverMatch` | watchmaker/src/composables/utils.js:5-18 | a missing title or image list counts as present, so such a draft is never `empty` |
| `PostUtils.ClassifyIgnoresPadding` | watchmaker/src/composables/utils.js:10-16 | padding the title with white space never changes the type |
| `PostUtils.ErrorOutline` | watchmaker/src/composables/utils.js:23-27 | the red outline classes exactly when the field has a non-empty error, otherwise `''` |
| `EmailTemplate.Render` | server/utils/generateEmailTemplate.js:20-267 | the HTML and the text e-mail of one inquiry |
| `EmailTemplate.Html` | server/utils/generateEmailTemplate.js:21-242 | `htmlTemplate`; its properties are `HtmlHidesSections`, `HtmlShowsContact` and `HtmlShowsMessage` |
| `EmailTemplate.HtmlPage` | server/utils/generateEmailTemplate.js:21-242 | the HTML template with its chrome as a parameter |
| `EmailTemplate.Text` | server/utils/generateEmailTemplate.js:244-264 | `textTemplate`; its properties are `TextHidesSections` and `TextLayout` |
| `EmailTemplate.Suffix` | server/utils/generateEmailTemplate.js:197 | the singular ending exactly for one image |
| `EmailTemplate.Extension` | server/utils/generateEmailTemplate.js:259 | `png` exactly for PNG, `webp` exactly for WebP, `jpg` otherwise |
| `EmailTemplate.AttachmentLines` | server/utils/generateEmailTemplate.js:259 | one line per image, in order |
| `EmailTemplate.AttachmentLineReadsBack` | server/utils/generateEmailTemplate.js:259 | each attachment line reads back as the 1-based index and the extension |
| `EmailTemplate.AttachmentListLines` | server/utils/generateEmailTemplate.js:259 | splitting the joined list on newlines gives the attachment lines back |
| `EmailTemplate.TextHidesSections` | server/utils/generateEmailTemplate.js:251-260 | a falsy phone or no images renders the text as if the field were absent |
| `EmailTemplate.HtmlHidesSections` | server/utils/generateEmailTemplate.js:196-227 | the same for the HTML page |
| `EmailTemplate.HtmlShowsContact` | server/utils/generateEmailTemplate.js:194-195 | the full name and the e-mail appear verbatim at their places in the page |
| `EmailTemplate.HtmlShowsMessage` | server/utils/generateEmailTemplate.js:210 | the message appears verbatim at its place in the page |
| `EmailTemplate.AttachmentSectionLines` | server/utils/generateEmailTemplate.js:257-260 | the attachments section is a blank line, its heading, one line per image and a blank line, or nothing |
| `EmailTemplate.TextLayout` | server/utils/generateEmailTemplate.js:244-264 | the text e-mail's lines are the headings, the contact lines, the message's own lines at their place, the attachments section and the signature, whatever the message holds |
| `SecurityLog.Simplify` | server/utils/security.js:51-56 | one issue's simple record; its property is `SimplifyKeeps` |
| `SecurityLog.FieldName` | server/utils/security.js:52 | `path.join('.')`; its property is `FieldNameReadsBack` |
| `SecurityLog.ErrorSummary` | server/utils/security.js:64 | `field: code` pairs joined by commas; its properties are `SummaryEmptyIff` and `SummarySnoc` |
| `SecurityLog.LogEntry` | server/utils/security.js:27-33 | the framed log entry; its property is `LogEntryLines` |
| `SecurityLog.SimplifyAll` | server/utils/security.js:50-56 | one simple record per issue, in order |
| `SecurityLog.SimpleErrors` | server/utils/security.js:50-56 | no issue list gives no records; a list gives its issues' simple records, one per issue in order |
| `SecurityLog.Record` | server/utils/security.js:58-65 | the record's stamp is the date-time; a truthy ip or user agent is copied and a falsy one is `unknown`; the validation errors are the issues' simple records, one per issue, and the summary is built from them |
| `SecurityLog.SimplifyKeeps` | server/utils/security.js:52-55 | each record's field is the issue's path joined by dots; it keeps the issue's code and message, copies a truthy received value and logs a falsy one as `N/A` |
| `SecurityLog.FieldNameReadsBack` | server/utils/security.js:52 | the field name splits back into the path when no key holds a dot |
| `SecurityLog.SummaryEmptyIff` | server/utils/security.js:64 | the summary is empty exactly when there are no issues |
| `SecurityLog.MissingErrorsLogNothing` | server/utils/security.js:50-64 | a missing issue list logs no records and an empty summary |
| `SecurityLog.SummarySnoc` | server/utils/security.js:64 | one more issue appends `, field: code` to the summary |
| `SecurityLog.StampHasNoNewline` | server/utils/security.js:13 | the date-time stamp is one line |
| `SecurityLog.LogEntryLines` | server/utils/security.js:27-33 | an entry's lines are a blank line, a rule of `=`, the heading, another rule, the content's own lines, a rule of `-` and the closing indentation |
| `PostsStore.FromServer` | watchmaker/src/stores/usePostsStore.js:53-56 | the store's pagination takes every field of the server's |
| `PostsStore.SaveInto` | watchmaker/src/stores/usePostsStore.js:221-224 | a saved edit takes the form's title and body and keeps the selected post's id, date, folder, title image and extras; with no post selected, only the two edited fields remain |
| `PostsStore.FirstMatch` | watchmaker/src/stores/usePostsStore.js:124 | `findIndex`: the first post with the id, or -1 when there is none |
| `PostsStore.RemoveFirstDropsOne` | watchmaker/src/stores/usePostsStore.js:124-127 | `splice(index, 1)` drops exactly the first matching post and keeps the others in order; no match changes nothing |
| `PostsStore.RemoveFirstKeepsOthers` | watchmaker/src/stores/usePostsStore.js:124-127 | every post with another id stays in the list |
| `PostsStore.FirstMatchIs` | watchmaker/src/stores/usePostsStore.js:124 | any index meeting the `findIndex` description is `FirstMatch` |
| `PostsStore.Store.constructor` | watchmaker/src/stores/usePostsStore.js:8-30 | the initial state: no posts, page 1 of 1, nothing loading, selected or edited |
| `PostsStore.Store.PageNumbers` | watchmaker/src/stores/usePostsStore.js:33-39 | the pages `1..totalPagesCount`, none when the count is below 1 |
| `PostsStore.Store.FetchPosts` | watchmaker/src/stores/usePostsStore.js:46-67 | a loaded response replaces the posts, pagination and counters; a failure changes nothing; `loading` ends false; current page and page count stay in step with the pagination |
| `PostsStore.Store.Initialize` | watchmaker/src/stores/usePostsStore.js:165-167 | fetches the first page: a loaded response gives the posts, the pagination taken from the server's and the current page and page count from it; a failed fetch keeps them; loading ends false; uploading, the modal, the selection and the edit state are unchanged; a synced store stays synced |
| `PostsStore.Store.HandlePageChange` | watchmaker/src/stores/usePostsStore.js:152-157 | the current page or one out of range does nothing; any other page is fetched |
| `PostsStore.Store.CreatePost` | watchmaker/src/stores/usePostsStore.js:70-103 | success exactly when the server created the post and the refresh loaded, and then the posts and pagination are the refresh's; on any failure the posts, pagination, current page and page count are unchanged; `isUploading` ends false; loading is reset only when the server created the post; the modal, the selection and the edit state are unchanged; a synced store stays synced |
| `PostsStore.Store.FindPost` | watchmaker/src/stores/usePostsStore.js:124 | the loop finds `FirstMatch` |
| `PostsStore.Store.DeletePost` | watchmaker/src/stores/usePostsStore.js:105-139 | true exactly when the server deleted the post and the refresh loaded; a loaded refresh gives the posts and pagination of the refresh; a failed refresh still removes the first matching post locally and keeps the pagination, current page and page count; a failed delete changes neither the posts, pagination, loading flag, current page nor page count; uploading, the modal, the selection and the edit state never change; a synced store stays synced |
| `PostsStore.Store.OpenPost` | watchmaker/src/stores/usePostsStore.js:141-144 | selects the post and shows the modal; nothing else changes, so a synced store stays synced |
| `PostsStore.Store.ClosePostModal` | watchmaker/src/stores/usePostsStore.js:146-150 | hides the modal, clears the selection and leaves edit mode; the posts, pagination, page fields, loading and uploading flags and the form are unchanged |
| `PostsStore.Store.InitEdit` | watchmaker/src/stores/usePostsStore.js:181-190 | enters edit mode on the post with its title and body in the form and shows the modal; the posts, pagination, page fields, loading and uploading flags are unchanged |
| `PostsStore.Store.CancelEdit` | watchmaker/src/stores/usePostsStore.js:231-234 | leaves edit mode and changes nothing else |
| `PostsStore.Store.SaveEdit` | watchmaker/src/stores/usePostsStore.js:192-229 | a saved edit writes the form into the selection and leaves edit mode; a failure changes nothing; the list, pagination, page fields, loading and uploading flags never change |
| `RoundTrip.CreatedRowsReadBack` | server/routes/insertPostRouter.js:158-174 | the images of the new post in the updated table are exactly the rows just inserted |
| `RoundTrip.NewestHeadsFirstPage` | server/routes/getPostRouter.js:17-25 | a newly inserted post heads the first page for every limit |
| `RoundTrip.TitledPostReadsBack` | server/routes/getPostRouter.js:55-76 | a created post with a title image reads back with its text, folder, title image and extras in upload order |
| `RoundTrip.FirstPageAfterCreate` | server/routes/getPostRouter.js:6-94 | after a create, the first page's first entry is the new post showing exactly its inserted images |
| `RoundTrip.ListingAfterCreate` | server/routes/getPostRouter.js:6-94 | the first page after a create heads with the new post, its title and its extras |
| `RoundTrip.ListNewest` | server/routes/getPostRouter.js:6-94 | `/get-all` right after a create counts every post and lists the new one first with its images |
| `RoundTrip.CreateThenListAsWritten` | server/routes/insertPostRouter.js:78-196 | with the handler as written: an accepted upload with a title image answers "created" and `/get-all` then shows the new post first with its title image and extras; one with only extras inserts the post, answers 500 and `/get-all` still lists the new post first, with no images |
| `RoundTrip.CreateThenList` | server/routes/insertPostRouter.js:78-196 | with the corrected handler (`NewPostFixed`): an accepted upload answers "created", and `/get-all` then shows the new post first with the title image and extras that were uploaded |
| `RoundTrip.BrowsePage` | watchmaker/src/stores/usePostsStore.js:152-157 | changing to a valid page shows that page of the database, newest first, with the page count of `/get-all` and `hasPrevPage` false exactly on page 1 |

## Left out

- I/O is not modelled: the HTTP framework, the file system and the log file append are out. The folders on disk are a map from folder name to file names.
- Multer's multipart parsing, and the order in which it applies its limits, are not modelled. Its outcome is an input; the limits are stated as constants.
- The clock is a parameter. Two calls of `Date.now()` in one millisecond give the same name, so a later file overwrites an earlier one; `FileNameCollision` states when this happens.
- The clock passed to the storage callbacks carries the folder name it would generate, rather than computing it from the clock.
- JSON serialization is not modelled: the serialized record is an input to `LogEntry`, and `originalBody` is not kept in the record.
- zod's own e-mail format test is not modelled; its result is a boolean input. Which messages zod reports together when several checks fail is not modelled either; the model keeps the issues in check order.
- A `received` value that is not a string is not modelled; it is either text or falsy.
- `LIKE` reads text as a sequence of characters, as SQLite's built-in `LIKE` does once it has decoded UTF-8, and it folds only ASCII letters, as SQLite does. Text that is not valid UTF-8 is not modelled.
- The PRAGMA settings other than `foreign_keys` are not modelled.
- The server routes `deletePostRouter.js`, `editPostRouter.js`, `formRouter.js`, `adminRouter.js` and the middleware are not part of this model. `Db.DeletePost` models only the cascade declared in the schema.
- `compressImage` and `formatFileSize` are not part of this model; both use floating point.
- The client store's fetches, auth token, toasts and `handlePostShare` are not part of this model. Server answers and refreshes arrive as an outcome parameter.
- Store actions and server requests are modelled one at a time, with no interleaving. Overlapping `fetchPosts` calls are out: one call's `finally` resetting `loading` while another is in flight, and an older response overwriting a newer one. So are two `/new-post` requests in one millisecond: they get the same folder name (`server/routes/insertPostRouter.js:27-31`), and one request's cleanup (`server/routes/insertPostRouter.js:185-190`) can delete the other's files.
- `GetAll`, `Search`: `page` and `limit` are JavaScript numbers, and SQLite accepts a `LIMIT` or `OFFSET` only when it converts losslessly to a 64-bit integer. A limit or an offset `(page - 1) * limit` outside [-2^63, 2^63) makes the query fail, and the route answers 500 `Database error` (`server/routes/getPostRouter.js:89-92`, `228-231`). The model's integers are unbounded, so it answers such a request with a page instead. It also leaves out `parseInt` losing precision above 2^53.
- `allPosts` is not modelled; it only pairs the `posts` and `pagination` fields.
- `fetchPosts` rethrows a failed fetch after its toast. `CreatePost` and `DeletePost` catch that and report failure, as the model does. `initialize` does not await its fetch, and `handlePageChange` passes the rejection on to its caller. The model's `FetchPosts` returns no value on failure instead, so neither of those two rejections is modelled.
- `FetchPosts`: the requested page is not tied to the response it receives; `RoundTrip.BrowsePage` ties them for responses computed by `GetAll`.
- `SaveEdit`: in the source, the selected post and the list entry it came from are the same object, so writing the form into one updates the other. The model keeps them as separate values and does not capture this aliasing.
- `EmailTemplate.HtmlPage`: the HTML chrome around the fields is a parameter (`PageText`), so its lemmas hold for any chrome. `Html` instantiates it with the template's text.
- `EmailTemplate.TextLayout` requires the name, e-mail and phone to be single lines. A line break in them would split the contact lines, which the lemma does not state.

Where the code and its documentation differ, the model follows the code:
- `/get-all` items carry no `postType`.
- The inserts of a new post run outside a transaction.
- The SQL pattern of `validateSecurity` lists four fixed command pairs, not any keyword followed by any other.
- `/search` entries put the body in `postTitle` and the extras under `extra_images`.

## Findings

| source | as written | input that shows it | evidently intended | confidence | as-written member | corrected member |
|---|---|---|---|---|---|---|
| server/routes/insertPostRouter.js:165-168 | the title row is inserted even when no title image was uploaded, so `image_path` is NULL and the NOT NULL constraint fails after the post row has been inserted; the handler answers 500 and deletes the folder, but the post row stays with no images | a request with a title, extra images and no `titleImage` | insert the title row only when there is a title image, so that the post and its extra images are all saved | not executed | `InsertPost.NewPost` | `InsertPost.NewPostFixed` |
