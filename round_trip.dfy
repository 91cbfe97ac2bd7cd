/** What `/new-post` stores is what `/get-all` gives back: the corrected handler's
    post is the newest, so it heads the first page, and its entry carries the
    uploaded title image and the extra images in upload order. */
module RoundTrip {
  import opened Wrappers
  import opened Database
  import opened InsertPost
  import opened GetPost
  import PostsStore

  /** Rows that all belong to `postId` are all of that post's rows. */
  lemma {:induction false} ImagesOfOwnRows(rows: seq<ImageRow>, postId: nat)
    requires forall k :: 0 <= k < |rows| ==> rows[k].postId == postId
    ensures ImagesOf(rows, postId) == rows
    decreases |rows|
  {
    if rows != [] {
      ImagesOfOwnRows(rows[1..], postId);
      assert rows == [rows[0]] + rows[1..];
    }
  }

  /** After the inserts of a new post, that post's images are exactly the rows just
      inserted, in insertion order. */
  lemma CreatedRowsReadBack(posts: seq<PostRow>, images: seq<ImageRow>, postSeq: nat, imageSeq: nat,
                            folder: string, titlePath: Option<string>, extraPaths: seq<string>)
    requires PostIdsBelow(posts, postSeq) && Referenced(posts, images)
    ensures var rows := CreatedImageRows(imageSeq + 1, postSeq + 1, folder, titlePath, extraPaths);
      ImagesOf(images + rows, postSeq + 1) == rows
  {
    var rows := CreatedImageRows(imageSeq + 1, postSeq + 1, folder, titlePath, extraPaths);
    NoImagesForNewPost(posts, images, postSeq);
    ImagesOfAppend(images, rows, postSeq + 1);
    if titlePath.Some? {
      forall k | 0 <= k < |rows| ensures rows[k].postId == postSeq + 1 {
        if k > 0 {
          assert rows[k] == ExtraRows(imageSeq + 2, postSeq + 1, folder, extraPaths)[k - 1];
        }
      }
    }
    ImagesOfOwnRows(rows, postSeq + 1);
  }

  /** The newest post heads the first page whenever the limit is not zero. */
  lemma NewestHeadsFirstPage(posts: seq<PostRow>, row: PostRow, limit: int)
    requires limit != 0
    ensures var page := PostsPage(posts + [row], Offset(1, limit), limit);
      |page| >= 1 && page[0] == row
  {
    var all := posts + [row];
    assert Reverse(all)[0] == all[|all| - 1] == row;
  }

  /** The extra images an entry lists for the given paths, with consecutive ids. */
  function ExpectedExtras(firstId: nat, extraPaths: seq<string>): (r: seq<ExtraImage>)
    ensures |r| == |extraPaths|
  {
    seq(|extraPaths|, k requires 0 <= k < |extraPaths| => ExtraImage(firstId + k, extraPaths[k], "extra"))
  }

  /** A post created with a title image reads back with that image as its title,
      folder `folder` (null if empty), and its extra images in upload order. */
  lemma TitledPostReadsBack(row: PostRow, firstId: nat, folder: string, titlePath: string, extraPaths: seq<string>)
    ensures var item := ShapePost(row, CreatedImageRows(firstId, row.id, folder, Some(titlePath), extraPaths));
      && item.postId == row.id && item.postTitle == row.postTitle && item.postBody == row.postBody
      && item.date == row.date
      && item.postFolder == (if folder == "" then None else Some(folder))
      && item.titleImage == Some(TitleImage(firstId, titlePath, "title"))
      && item.extraImages == ExpectedExtras(firstId + 1, extraPaths)
  {
    var rows := CreatedImageRows(firstId, row.id, folder, Some(titlePath), extraPaths);
    var extras := ExtrasOf(rows);
    forall k | 0 <= k < |extraPaths| ensures extras[k] == ExpectedExtras(firstId + 1, extraPaths)[k] {
      assert rows[k + 1] == ExtraRows(firstId + 1, row.id, folder, extraPaths)[k];
    }
  }

  /** The first `/get-all` page after a new post's inserts starts with that post,
      shaped from exactly the rows just inserted. */
  lemma FirstPageAfterCreate(posts: seq<PostRow>, images: seq<ImageRow>, postSeq: nat, imageSeq: nat,
                             row: PostRow, folder: string, titlePath: Option<string>, extraPaths: seq<string>,
                             limit: int)
    requires PostIdsBelow(posts, postSeq) && Referenced(posts, images) && row.id == postSeq + 1
    requires limit != 0
    ensures var rows := CreatedImageRows(imageSeq + 1, row.id, folder, titlePath, extraPaths);
      var items := PageItems(PostsPage(posts + [row], Offset(1, limit), limit), images + rows);
      && |items| >= 1
      && items[0] == ShapePost(row, rows)
      && Shown(items[0].titleImage, items[0].extraImages) == ViewsOf(rows)
  {
    var rows := CreatedImageRows(imageSeq + 1, row.id, folder, titlePath, extraPaths);
    CreatedRowsReadBack(posts, images, postSeq, imageSeq, folder, titlePath, extraPaths);
    NewestHeadsFirstPage(posts, row, limit);
    ShapeShowsAll(row, rows);
  }

  /** End to end: a post accepted by the corrected `/new-post` is the first entry of
      the first page of `/get-all`, showing every stored image of it, in order; with
      a title image, that image is the entry's title and the extras follow it. */
  method CreateThenList(db: Db, dir: UploadDir, req: UploadRequest, fields: PostFields, upload: Upload,
                        rawLimit: Option<int>)
    returns (resp: Response, listing: GetAllResponse)
    requires db.Valid() && db.Ready()
    requires Accepted(fields, upload) ==> req.postFolder.Some?
    modifies db
    ensures listing.pagination.totalPosts == |db.posts|
    ensures Accepted(fields, upload) ==>
      var folder := req.postFolder.value;
      var firstId := old(db.imageSeq) + 1;
      var titlePath, extraPaths := TitlePath(folder, upload), ExtraPaths(folder, upload.extraImages);
      var row := PostRow(db.postSeq, fields.title, fields.bodyText, fields.date, fields.postType);
      var rows := CreatedImageRows(firstId, db.postSeq, folder, titlePath, extraPaths);
      && resp.Created?
      && HeadsListing(listing.posts, row, rows, firstId, titlePath, extraPaths)
  {
    ghost var posts0, images0, postSeq0, imageSeq0 := db.posts, db.images, db.postSeq, db.imageSeq;
    resp := NewPostFixed(db, dir, req, fields, upload);
    if Accepted(fields, upload) {
      var folder := req.postFolder.value;
      var row := PostRow(db.postSeq, fields.title, fields.bodyText, fields.date, fields.postType);
      listing := ListNewest(db, rawLimit, posts0, images0, postSeq0, imageSeq0, row, folder,
                            TitlePath(folder, upload), ExtraPaths(folder, upload.extraImages));
    } else {
      listing := GetAll(db, None, rawLimit);
    }
  }

  /** End to end with the handler as written: an upload with a title image is
      answered "created" and heads the first page of `/get-all` with its title image
      and its extras, as with the corrected handler; an upload with extra images
      only is answered 500, yet its post row heads the first page with no images. */
  method CreateThenListAsWritten(db: Db, dir: UploadDir, req: UploadRequest, fields: PostFields, upload: Upload,
                                 rawLimit: Option<int>)
    returns (resp: Response, listing: GetAllResponse)
    requires db.Valid() && db.Ready()
    requires Accepted(fields, upload) ==> req.postFolder.Some?
    modifies db, dir
    ensures listing.pagination.totalPosts == |db.posts|
    ensures Accepted(fields, upload) && upload.titleImage != [] ==>
      var folder := req.postFolder.value;
      var firstId := old(db.imageSeq) + 1;
      var titlePath, extraPaths := TitlePath(folder, upload), ExtraPaths(folder, upload.extraImages);
      var row := PostRow(db.postSeq, fields.title, fields.bodyText, fields.date, fields.postType);
      var rows := CreatedImageRows(firstId, db.postSeq, folder, titlePath, extraPaths);
      && resp.Created?
      && HeadsListing(listing.posts, row, rows, firstId, titlePath, extraPaths)
    ensures Accepted(fields, upload) && upload.titleImage == [] ==>
      var row := PostRow(db.postSeq, fields.title, fields.bodyText, fields.date, fields.postType);
      && resp == Failed(500, CreateFailedMessage)
      && db.posts == old(db.posts) + [row]
      && HeadsListing(listing.posts, row, [], old(db.imageSeq) + 1, None, [])
  {
    ghost var posts0, images0, postSeq0, imageSeq0 := db.posts, db.images, db.postSeq, db.imageSeq;
    resp := NewPost(db, dir, req, fields, upload);
    if Accepted(fields, upload) {
      var folder := req.postFolder.value;
      var row := PostRow(db.postSeq, fields.title, fields.bodyText, fields.date, fields.postType);
      if upload.titleImage != [] {
        listing := ListNewest(db, rawLimit, posts0, images0, postSeq0, imageSeq0, row, folder,
                              TitlePath(folder, upload), ExtraPaths(folder, upload.extraImages));
      } else {
        assert CreatedImageRows(imageSeq0 + 1, row.id, folder, None, []) == [];
        listing := ListNewest(db, rawLimit, posts0, images0, postSeq0, imageSeq0, row, folder, None, []);
      }
    } else {
      listing := GetAll(db, None, rawLimit);
    }
  }

  /** `/get-all` right after the inserts of one new post. */
  method ListNewest(db: Db, rawLimit: Option<int>, ghost posts: seq<PostRow>, ghost images: seq<ImageRow>,
                    ghost postSeq: nat, ghost imageSeq: nat, ghost row: PostRow, ghost folder: string,
                    ghost titlePath: Option<string>, ghost extraPaths: seq<string>)
    returns (listing: GetAllResponse)
    requires db.Valid()
    requires PostIdsBelow(posts, postSeq) && Referenced(posts, images) && row.id == postSeq + 1
    requires db.posts == posts + [row]
    requires db.images == images + CreatedImageRows(imageSeq + 1, row.id, folder, titlePath, extraPaths)
    ensures listing.pagination.totalPosts == |db.posts|
    ensures HeadsListing(listing.posts, row, CreatedImageRows(imageSeq + 1, row.id, folder, titlePath, extraPaths),
                         imageSeq + 1, titlePath, extraPaths)
  {
    listing := GetAll(db, None, rawLimit);
    ListingAfterCreate(posts, images, postSeq, imageSeq, row, folder, titlePath, extraPaths, LimitParam(rawLimit),
                       listing.posts);
  }

  /** A listing headed by the entry of `row` shaped from `rows`, the images whose
      ids start at `firstId`: it shows every one of them in order and, with a title
      image, that image as its title and the extras after it. */
  ghost predicate HeadsListing(items: seq<PostItem>, row: PostRow, rows: seq<ImageRow>, firstId: nat,
                               titlePath: Option<string>, extraPaths: seq<string>)
  {
    && |items| >= 1
    && items[0] == ShapePost(row, rows)
    && Shown(items[0].titleImage, items[0].extraImages) == ViewsOf(rows)
    && (titlePath.Some? ==>
          items[0].titleImage == Some(TitleImage(firstId, titlePath.value, "title"))
          && items[0].extraImages == ExpectedExtras(firstId + 1, extraPaths))
  }

  /** The first `/get-all` page after a create, as `CreateThenList` promises it. */
  lemma ListingAfterCreate(posts: seq<PostRow>, images: seq<ImageRow>, postSeq: nat, imageSeq: nat,
                           row: PostRow, folder: string, titlePath: Option<string>, extraPaths: seq<string>,
                           limit: int, items: seq<PostItem>)
    requires PostIdsBelow(posts, postSeq) && Referenced(posts, images) && row.id == postSeq + 1
    requires limit != 0
    requires items == PageItems(PostsPage(posts + [row], Offset(1, limit), limit),
                                images + CreatedImageRows(imageSeq + 1, row.id, folder, titlePath, extraPaths))
    ensures HeadsListing(items, row, CreatedImageRows(imageSeq + 1, row.id, folder, titlePath, extraPaths),
                         imageSeq + 1, titlePath, extraPaths)
  {
    FirstPageAfterCreate(posts, images, postSeq, imageSeq, row, folder, titlePath, extraPaths, limit);
    if titlePath.Some? {
      TitledPostReadsBack(row, imageSeq + 1, folder, titlePath.value, extraPaths);
    }
  }

  /** The admin list paging through the server: a page the store accepts is asked
      of `/get-all` with the default limit, and the store then shows that page of
      the newest-first listing and counts its pages by ten. */
  method BrowsePage(store: PostsStore.Store, db: Db, page: int) returns (shown: bool)
    requires db.Valid()
    modifies store
    ensures shown <==> !(page == old(store.currentPage) || page < 1 || page > old(store.totalPagesCount))
    ensures shown ==>
      && store.currentPage == page
      && store.totalPagesCount == CeilDiv(|db.posts|, 10)
      && store.posts == PageItems(PostsPage(db.posts, Offset(page, 10), 10), db.images)
      && !store.pagination.hasPrevPage == (page == 1)
    ensures !shown ==> store.posts == old(store.posts) && store.currentPage == old(store.currentPage)
  {
    shown := !(page == store.currentPage || page < 1 || page > store.totalPagesCount);
    if shown {
      var listing := GetAll(db, Some(page), None);
      store.HandlePageChange(page, PostsStore.Loaded(listing));
    } else {
      store.HandlePageChange(page, PostsStore.FetchFailed);
    }
  }
}
