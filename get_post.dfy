/** The read routes of `getPostRouter.js`: `/get-all` (one page of posts, newest
    first, with their images), `/get-all-simple` and `/search`. Query parameters
    arrive already parsed: `None` stands for a missing or unparseable value
    (`parseInt` giving `NaN`). */
module GetPost {
  import opened Wrappers
  import opened Strings
  import opened Database

  // ---------------------------------------------------------------- pagination

  /** `parseInt(x) || fallback`: `NaN` and `0` are falsy and give the fallback; any
      other integer, negative ones included, is kept. */
  function OrDefault(raw: Option<int>, fallback: int): (r: int)
    ensures raw.None? || raw.value == 0 ==> r == fallback
    ensures raw.Some? && raw.value != 0 ==> r == raw.value
  {
    if raw.Some? && raw.value != 0 then raw.value else fallback
  }

  /** `page`: 1 unless a non-zero page is given. */
  function PageParam(raw: Option<int>): (page: int)
    ensures page != 0
    ensures raw.Some? && raw.value > 0 ==> page == raw.value
    ensures raw.Some? && raw.value >= 0 ==> page >= 1
  {
    OrDefault(raw, 1)
  }

  /** `limit`: 10 posts unless a non-zero limit is given. */
  function LimitParam(raw: Option<int>): (limit: int)
    ensures limit != 0
    ensures raw.Some? && raw.value > 0 ==> limit == raw.value
    ensures raw.Some? && raw.value >= 0 ==> limit >= 1
  {
    OrDefault(raw, 10)
  }

  /** `(page - 1) * limit`. */
  function Offset(page: int, limit: int): int {
    (page - 1) * limit
  }

  /** `Math.ceil(a / b)` for a positive `b`. */
  function CeilDiv(a: nat, b: nat): (q: nat)
    requires b >= 1
    ensures q * b >= a
    ensures q == 0 || (q - 1) * b < a
    decreases a
  {
    if a == 0 then 0 else 1 + CeilDiv(if a <= b then 0 else a - b, b)
  }

  /** `Math.ceil(a / b)` for a non-zero `b`: for a negative `b` the quotient is
      `-(a / |b|)` and rounding up truncates it towards zero. */
  function JsCeilDiv(a: nat, b: int): (q: int)
    requires b != 0
    ensures b > 0 ==> q == CeilDiv(a, b)
    ensures b < 0 ==> q <= 0 && q * b <= a && a < (q - 1) * b
  {
    if b > 0 then CeilDiv(a, b) else -(a / -b)
  }

  datatype Pagination = Pagination(page: int, limit: int, totalPosts: nat, totalPages: int,
                                   hasNextPage: bool, hasPrevPage: bool)

  /** The `pagination` object of a response. */
  function MakePagination(page: int, limit: int, totalPosts: nat): (p: Pagination)
    requires limit != 0
    ensures p.page == page && p.limit == limit && p.totalPosts == totalPosts
    ensures p.totalPages == JsCeilDiv(totalPosts, limit)
    ensures p.hasNextPage <==> page < p.totalPages
    ensures p.hasPrevPage <==> page > 1
  {
    var totalPages := JsCeilDiv(totalPosts, limit);
    Pagination(page, limit, totalPosts, totalPages, page < totalPages, page > 1)
  }

  lemma MulMonotone(x: nat, y: nat, b: nat)
    requires x <= y
    ensures x * b <= y * b
  {
  }

  /** For positive parameters, `hasNextPage` holds exactly when some post lies
      beyond this page, and `hasPrevPage` exactly when this page skips some posts. */
  lemma PaginationFlags(page: int, limit: int, totalPosts: nat)
    requires page >= 1 && limit >= 1
    ensures MakePagination(page, limit, totalPosts).hasNextPage <==> Offset(page + 1, limit) < totalPosts
    ensures MakePagination(page, limit, totalPosts).hasPrevPage <==> Offset(page, limit) > 0
  {
    var q := CeilDiv(totalPosts, limit);
    if page < q {
      MulMonotone(page, q - 1, limit);
    } else {
      MulMonotone(q, page, limit);
    }
    if page > 1 {
      MulMonotone(1, page - 1, limit);
    }
  }

  /** With a negative limit there is never a next page. */
  lemma NegativeLimitHasNoNext(page: int, limit: int, totalPosts: nat)
    requires limit < 0 && page >= 0
    ensures !MakePagination(page, limit, totalPosts).hasNextPage
  {
  }

  // ---------------------------------------------------------------- the queries

  function Reverse<T>(s: seq<T>): (r: seq<T>)
    ensures |r| == |s| && forall k :: 0 <= k < |s| ==> r[k] == s[|s| - 1 - k]
  {
    if s == [] then [] else Reverse(s[1..]) + [s[0]]
  }

  /** Where `OFFSET offset` starts: SQLite reads a negative offset as zero. */
  function Start(offset: int): nat {
    if offset < 0 then 0 else offset
  }

  /** `LIMIT limit OFFSET offset` applied to the rows `s`: the rows from the start
      on, at most `limit` of them unless the limit is negative, which SQLite reads
      as no bound. */
  function Window<T>(s: seq<T>, offset: int, limit: int): (r: seq<T>)
    ensures limit >= 0 ==> |r| <= limit
    ensures Start(offset) >= |s| ==> r == []
    ensures Start(offset) < |s| && (limit < 0 || Start(offset) + limit >= |s|) ==> |r| == |s| - Start(offset)
    ensures Start(offset) < |s| && 0 <= limit && Start(offset) + limit < |s| ==> |r| == limit
    ensures forall k :: 0 <= k < |r| ==> Start(offset) + k < |s| && r[k] == s[Start(offset) + k]
  {
    var start := Start(offset);
    if start >= |s| then []
    else if limit < 0 || start + limit > |s| then s[start..]
    else s[start..start + limit]
  }

  /** Two consecutive windows make one: pages split the rows without gaps or overlap. */
  lemma WindowsAdjoin<T>(s: seq<T>, offset: nat, a: nat, b: nat)
    ensures Window(s, offset, a) + Window(s, offset + a, b) == Window(s, offset, a + b)
  {
  }

  /** `SELECT * FROM posts ORDER BY id DESC LIMIT ? OFFSET ?`: rows are stored in
      increasing id order, so id order descending is storage order reversed. */
  function PostsPage(posts: seq<PostRow>, offset: int, limit: int): seq<PostRow> {
    Window(Reverse(posts), offset, limit)
  }

  /** Strictly descending by id. */
  predicate Descending(posts: seq<PostRow>) {
    forall i, j :: 0 <= i < j < |posts| ==> posts[i].id > posts[j].id
  }

  lemma ReverseDescending(posts: seq<PostRow>, counter: nat)
    requires PostIdsBelow(posts, counter)
    ensures Descending(Reverse(posts))
  {
    var r := Reverse(posts);
    forall i, j | 0 <= i < j < |r| ensures r[i].id > r[j].id {
      assert r[i] == posts[|posts| - 1 - i] && r[j] == posts[|posts| - 1 - j];
    }
  }

  lemma WindowDescending(s: seq<PostRow>, offset: int, limit: int)
    requires Descending(s)
    ensures Descending(Window(s, offset, limit))
  {
    var r := Window(s, offset, limit);
    forall i, j | 0 <= i < j < |r| ensures r[i].id > r[j].id {
      assert r[i] == s[Start(offset) + i] && r[j] == s[Start(offset) + j];
    }
  }

  /** A page holds at most `limit` posts, newest first: the posts in positions
      `offset` to `offset + limit - 1` counted from the newest. */
  lemma PostsPageShape(posts: seq<PostRow>, counter: nat, offset: int, limit: int)
    requires PostIdsBelow(posts, counter)
    ensures var r := PostsPage(posts, offset, limit);
      && (limit >= 0 ==> |r| <= limit)
      && Descending(r)
      && (forall k :: 0 <= k < |r| ==> Start(offset) + k < |posts| && r[k] == posts[|posts| - 1 - (Start(offset) + k)])
  {
    ReverseDescending(posts, counter);
    WindowDescending(Reverse(posts), offset, limit);
  }

  /** `posts.map((post) => post.id)`. */
  function IdsOf(posts: seq<PostRow>): (ids: seq<nat>)
    ensures |ids| == |posts| && forall k :: 0 <= k < |posts| ==> ids[k] == posts[k].id
  {
    seq(|posts|, k requires 0 <= k < |posts| => posts[k].id)
  }

  /** The ids of the page's posts in ascending order: the order of
      `WHERE post_id IN (...) ORDER BY post_id, id`. */
  function AscendingIds(page: seq<PostRow>): (ids: seq<nat>)
    ensures |ids| == |page|
    ensures forall k :: 0 <= k < |page| ==> ids[k] == page[|page| - 1 - k].id
  {
    Reverse(IdsOf(page))
  }

  predicate StrictlyIncreasing(ids: seq<nat>) {
    forall i, j :: 0 <= i < j < |ids| ==> ids[i] < ids[j]
  }

  lemma AscendingIdsIncreasing(page: seq<PostRow>)
    requires Descending(page)
    ensures StrictlyIncreasing(AscendingIds(page))
  {
    var ids := AscendingIds(page);
    forall i, j | 0 <= i < j < |ids| ensures ids[i] < ids[j] {
      assert ids[i] == page[|page| - 1 - i].id && ids[j] == page[|page| - 1 - j].id;
    }
  }

  /** `SELECT * FROM images WHERE post_id IN (ids) ORDER BY post_id, id`, for ids in
      ascending order: each post's images in rowid order, post after post. */
  function ImagesQuery(images: seq<ImageRow>, ascIds: seq<nat>): seq<ImageRow>
    decreases |ascIds|
  {
    if ascIds == [] then [] else ImagesOf(images, ascIds[0]) + ImagesQuery(images, ascIds[1..])
  }

  /** The query returns exactly the images of the listed posts. */
  lemma {:induction false} ImagesQueryMembers(images: seq<ImageRow>, ascIds: seq<nat>)
    ensures forall x :: x in ImagesQuery(images, ascIds) <==> x in images && x.postId in ascIds
    decreases |ascIds|
  {
    if ascIds != [] {
      ImagesOfMembers(images, ascIds[0]);
      ImagesQueryMembers(images, ascIds[1..]);
      assert ascIds == [ascIds[0]] + ascIds[1..];
    }
  }

  /** Ordered by `(post_id, id)` strictly: by post, then by image id. */
  predicate ByPostThenId(r: seq<ImageRow>) {
    forall i, j :: 0 <= i < j < |r| ==>
      r[i].postId < r[j].postId || (r[i].postId == r[j].postId && r[i].id < r[j].id)
  }

  lemma {:induction false} ImagesOfBounds(images: seq<ImageRow>, postId: nat, lo: int, hi: int)
    requires forall k :: 0 <= k < |images| ==> lo < images[k].id <= hi
    ensures forall k :: 0 <= k < |ImagesOf(images, postId)| ==> lo < ImagesOf(images, postId)[k].id <= hi
    decreases |images|
  {
    if images != [] {
      ImagesOfBounds(images[1..], postId, lo, hi);
      var rest := ImagesOf(images[1..], postId);
      var head: seq<ImageRow> := if images[0].postId == postId then [images[0]] else [];
      var r := head + rest;
      forall k | 0 <= k < |r| ensures lo < r[k].id <= hi {
        if k >= |head| {
          assert r[k] == rest[k - |head|];
        } else {
          assert r[k] == images[0];
        }
      }
    }
  }

  /** One post's images keep the table's increasing id order. */
  lemma {:induction false} ImagesOfIncreasing(images: seq<ImageRow>, postId: nat, counter: nat)
    requires ImageIdsBelow(images, counter)
    ensures ImageIdsBelow(ImagesOf(images, postId), counter)
    decreases |images|
  {
    if images != [] {
      var tail := images[1..];
      ImagesOfIncreasing(tail, postId, counter);
      forall k | 0 <= k < |tail| ensures images[0].id < tail[k].id <= counter {
        assert tail[k] == images[k + 1];
      }
      ImagesOfBounds(tail, postId, images[0].id, counter);
      if images[0].postId == postId {
        assert ImagesOf(images, postId) == [images[0]] + ImagesOf(tail, postId);
        ConsImage(images[0], ImagesOf(tail, postId), counter);
      } else {
        assert ImagesOf(images, postId) == ImagesOf(tail, postId);
      }
    }
  }

  lemma GroupThenRest(group: seq<ImageRow>, rest: seq<ImageRow>, postId: nat, counter: nat)
    requires ImageIdsBelow(group, counter) && ByPostThenId(rest)
    requires forall k :: 0 <= k < |group| ==> group[k].postId == postId
    requires forall k :: 0 <= k < |rest| ==> postId < rest[k].postId
    ensures ByPostThenId(group + rest)
  {
    var r := group + rest;
    forall i, j | 0 <= i < j < |r|
      ensures r[i].postId < r[j].postId || (r[i].postId == r[j].postId && r[i].id < r[j].id)
    {
      if j < |group| {
        assert r[i] == group[i] && r[j] == group[j];
      } else if i < |group| {
        assert r[i] == group[i] && r[j] == rest[j - |group|];
      } else {
        assert r[i] == rest[i - |group|] && r[j] == rest[j - |group|];
      }
    }
  }

  /** The query's result is in `ORDER BY post_id, id` order. */
  lemma {:induction false} ImagesQueryOrdered(images: seq<ImageRow>, ascIds: seq<nat>, counter: nat)
    requires ImageIdsBelow(images, counter) && StrictlyIncreasing(ascIds)
    ensures ByPostThenId(ImagesQuery(images, ascIds))
    decreases |ascIds|
  {
    if ascIds != [] {
      var tail := ascIds[1..];
      assert StrictlyIncreasing(tail) by {
        forall i, j | 0 <= i < j < |tail| ensures tail[i] < tail[j] {
          assert tail[i] == ascIds[i + 1] && tail[j] == ascIds[j + 1];
        }
      }
      ImagesQueryOrdered(images, tail, counter);
      ImagesOfIncreasing(images, ascIds[0], counter);
      var rest := ImagesQuery(images, tail);
      ImagesQueryMembers(images, tail);
      forall k | 0 <= k < |rest| ensures ascIds[0] < rest[k].postId {
        assert rest[k] in rest;
        var m :| 0 <= m < |tail| && tail[m] == rest[k].postId;
        assert tail[m] == ascIds[m + 1];
      }
      GroupThenRest(ImagesOf(images, ascIds[0]), rest, ascIds[0], counter);
    }
  }

  lemma {:induction false} ImagesOfImagesOf(images: seq<ImageRow>, postId: nat)
    ensures ImagesOf(ImagesOf(images, postId), postId) == ImagesOf(images, postId)
    decreases |images|
  {
    if images != [] {
      ImagesOfImagesOf(images[1..], postId);
      if images[0].postId == postId {
        var r := ImagesOf(images, postId);
        assert r == [images[0]] + ImagesOf(images[1..], postId);
        assert r[0] == images[0] && r[1..] == ImagesOf(images[1..], postId);
        assert ImagesOf(r, postId) == [r[0]] + ImagesOf(r[1..], postId);
      } else {
        assert ImagesOf(images, postId) == ImagesOf(images[1..], postId);
      }
    }
  }

  /** Grouping the query's rows by post gives each listed post exactly its images. */
  lemma {:induction false} ImagesQueryGroups(images: seq<ImageRow>, ascIds: seq<nat>, postId: nat)
    requires StrictlyIncreasing(ascIds)
    ensures ImagesOf(ImagesQuery(images, ascIds), postId) == if postId in ascIds then ImagesOf(images, postId) else []
    decreases |ascIds|
  {
    if ascIds == [] {
    } else {
      var tail := ascIds[1..];
      assert StrictlyIncreasing(tail) by {
        forall i, j | 0 <= i < j < |tail| ensures tail[i] < tail[j] {
          assert tail[i] == ascIds[i + 1] && tail[j] == ascIds[j + 1];
        }
      }
      ImagesQueryGroups(images, tail, postId);
      var group := ImagesOf(images, ascIds[0]);
      ImagesOfAppend(group, ImagesQuery(images, tail), postId);
      assert ascIds == [ascIds[0]] + tail;
      if postId == ascIds[0] {
        ImagesOfImagesOf(images, postId);
        forall m | 0 <= m < |tail| ensures tail[m] != postId {
          assert tail[m] == ascIds[m + 1];
        }
      } else {
        ImagesOfAbsent(group, postId);
      }
    }
  }

  // ---------------------------------------------------------------- grouping

  /** `imgsByPost[id] || []`. */
  function Lookup(byPost: map<nat, seq<ImageRow>>, postId: nat): seq<ImageRow> {
    if postId in byPost then byPost[postId] else []
  }

  /** Pushing one more image onto its post's list keeps the dictionary equal to the
      grouping of the rows seen so far. */
  lemma PushKeepsGroups(before: map<nat, seq<ImageRow>>, after: map<nat, seq<ImageRow>>,
                        done: seq<ImageRow>, image: ImageRow)
    requires forall postId :: Lookup(before, postId) == ImagesOf(done, postId)
    requires Lookup(after, image.postId) == Lookup(before, image.postId) + [image]
    requires forall postId :: postId != image.postId ==> Lookup(after, postId) == Lookup(before, postId)
    ensures forall postId :: Lookup(after, postId) == ImagesOf(done + [image], postId)
  {
    forall postId ensures Lookup(after, postId) == ImagesOf(done + [image], postId) {
      ImagesOfAppend(done, [image], postId);
    }
  }

  /** The `forEach` that fills `imgsByPost`: each image is pushed onto its post's
      list, which is created on the post's first image. */
  method GroupByPost(rows: seq<ImageRow>) returns (byPost: map<nat, seq<ImageRow>>)
    ensures forall postId :: Lookup(byPost, postId) == ImagesOf(rows, postId)
    ensures forall postId :: postId in byPost ==> byPost[postId] != []
    ensures rows == [] ==> byPost == map[]
  {
    byPost := map[];
    var i := 0;
    while i < |rows|
      invariant 0 <= i <= |rows|
      invariant |rows| == 0 ==> byPost == map[]
      invariant forall postId :: Lookup(byPost, postId) == ImagesOf(rows[..i], postId)
      invariant forall postId :: postId in byPost ==> byPost[postId] != []
    {
      var image := rows[i];
      ghost var before := byPost;
      if image.postId !in byPost {
        byPost := byPost[image.postId := []];
      }
      byPost := byPost[image.postId := byPost[image.postId] + [image]];
      assert rows[..i + 1] == rows[..i] + [image];
      PushKeepsGroups(before, byPost, rows[..i], image);
      i := i + 1;
    }
    assert rows[..i] == rows;
  }

  /** The images fetched for a page and grouped: none are queried for an empty page;
      otherwise each listed post gets exactly its own images, and no other post is
      in the dictionary. */
  method LoadImages(db: Db, ascIds: seq<nat>) returns (byPost: map<nat, seq<ImageRow>>)
    requires StrictlyIncreasing(ascIds)
    ensures forall postId :: Lookup(byPost, postId) == if postId in ascIds then ImagesOf(db.images, postId) else []
    ensures ascIds == [] ==> byPost == map[]
  {
    var rows: seq<ImageRow> := [];
    if |ascIds| > 0 {
      rows := ImagesQuery(db.images, ascIds);
    }
    byPost := GroupByPost(rows);
    forall postId ensures Lookup(byPost, postId) == if postId in ascIds then ImagesOf(db.images, postId) else [] {
      ImagesQueryGroups(db.images, ascIds, postId);
    }
  }

  // ---------------------------------------------------------------- result shaping

  datatype TitleImage = TitleImage(id: nat, titlePath: string, imageType: string)
  datatype ExtraImage = ExtraImage(id: nat, path: string, imageType: string)

  /** An element of `posts` in a `/get-all` response; values that are NULL in the
      table are `None`. */
  datatype PostItem = PostItem(postId: nat, postTitle: Option<string>, postBody: Option<string>,
                               date: Option<string>, postFolder: Option<string>,
                               titleImage: Option<TitleImage>, extraImages: seq<ExtraImage>)

  /** `postImages[0]?.folder_url || null`: NULL and `''` both give null. */
  function FolderOf(postImages: seq<ImageRow>): (r: Option<string>)
    ensures r.Some? <==> postImages != [] && postImages[0].folderUrl.Some? && postImages[0].folderUrl.value != ""
    ensures r.Some? ==> r == postImages[0].folderUrl
  {
    if postImages != [] && postImages[0].folderUrl.Some? && postImages[0].folderUrl.value != ""
    then postImages[0].folderUrl else None
  }

  function TitleOf(postImages: seq<ImageRow>): (r: Option<TitleImage>)
    ensures r.None? <==> postImages == []
  {
    if postImages == [] then None
    else Some(TitleImage(postImages[0].id, postImages[0].imagePath, postImages[0].imageType))
  }

  /** `postImages.slice(1).map(...)`. */
  function ExtrasOf(postImages: seq<ImageRow>): (r: seq<ExtraImage>)
    ensures |r| == if postImages == [] then 0 else |postImages| - 1
  {
    if |postImages| <= 1 then []
    else seq(|postImages| - 1, k requires 0 <= k < |postImages| - 1 =>
           ExtraImage(postImages[k + 1].id, postImages[k + 1].imagePath, postImages[k + 1].imageType))
  }

  /** A post and its images as the client receives them. */
  function ShapePost(post: PostRow, postImages: seq<ImageRow>): PostItem {
    PostItem(post.id, post.postTitle, post.postBody, post.date, FolderOf(postImages),
             TitleOf(postImages), ExtrasOf(postImages))
  }

  /** Every image as `(id, path, type)`: the common view of a table row and of the
      title and extra entries of a response. */
  datatype ImageView = ImageView(id: nat, path: string, imageType: string)

  function ViewsOf(postImages: seq<ImageRow>): (r: seq<ImageView>)
    ensures |r| == |postImages|
  {
    seq(|postImages|, k requires 0 <= k < |postImages| =>
      ImageView(postImages[k].id, postImages[k].imagePath, postImages[k].imageType))
  }

  /** The images a response entry shows, title first. */
  function Shown(title: Option<TitleImage>, extras: seq<ExtraImage>): (r: seq<ImageView>)
    ensures |r| == (if title.Some? then 1 else 0) + |extras|
  {
    (if title.Some? then [ImageView(title.value.id, title.value.titlePath, title.value.imageType)] else [])
    + seq(|extras|, k requires 0 <= k < |extras| => ImageView(extras[k].id, extras[k].path, extras[k].imageType))
  }

  /** Shaping loses and reorders nothing: the title then the extras are the post's
      images in order; no images means no title, no folder and no extras. */
  lemma ShapeShowsAll(post: PostRow, postImages: seq<ImageRow>)
    ensures var item := ShapePost(post, postImages);
      && Shown(item.titleImage, item.extraImages) == ViewsOf(postImages)
      && item.postId == post.id
      && (postImages == [] ==> item.titleImage.None? && item.postFolder.None? && item.extraImages == [])
  {
    var item := ShapePost(post, postImages);
    var l, r := Shown(item.titleImage, item.extraImages), ViewsOf(postImages);
    forall k | 0 <= k < |r| ensures l[k] == r[k] {
      if k > 0 {
        assert item.extraImages[k - 1] == ExtraImage(postImages[k].id, postImages[k].imagePath, postImages[k].imageType);
      }
    }
  }

  // ---------------------------------------------------------------- the handlers

  datatype GetAllResponse = GetAllResponse(posts: seq<PostItem>, pagination: Pagination)

  /** The entries of a page, each with all of its post's images. */
  function PageItems(page: seq<PostRow>, images: seq<ImageRow>): (r: seq<PostItem>)
    ensures |r| == |page|
  {
    seq(|page|, k requires 0 <= k < |page| => ShapePost(page[k], ImagesOf(images, page[k].id)))
  }

  /** Builds `result` from the page and the grouped images. */
  method ShapePage(page: seq<PostRow>, byPost: map<nat, seq<ImageRow>>, images: seq<ImageRow>)
    returns (items: seq<PostItem>)
    requires forall k :: 0 <= k < |page| ==> Lookup(byPost, page[k].id) == ImagesOf(images, page[k].id)
    ensures items == PageItems(page, images)
  {
    items := seq(|page|, k requires 0 <= k < |page| => ShapePost(page[k], Lookup(byPost, page[k].id)));
  }

  /** The images of a page's posts, fetched only for a non-empty page and grouped:
      each post of the page gets exactly its own images. */
  method PageImages(db: Db, posts: seq<PostRow>) returns (byPost: map<nat, seq<ImageRow>>)
    requires Descending(posts)
    ensures forall k :: 0 <= k < |posts| ==> Lookup(byPost, posts[k].id) == ImagesOf(db.images, posts[k].id)
    ensures posts == [] ==> byPost == map[]
  {
    AscendingIdsIncreasing(posts);
    var ascIds := AscendingIds(posts);
    byPost := LoadImages(db, ascIds);
    forall k | 0 <= k < |posts| ensures Lookup(byPost, posts[k].id) == ImagesOf(db.images, posts[k].id) {
      assert ascIds[|posts| - 1 - k] == posts[k].id;
    }
  }

  /** `GET /get-all`: the total count, one page of posts newest first, their images
      fetched and grouped, and the pagination flags. */
  method GetAll(db: Db, rawPage: Option<int>, rawLimit: Option<int>) returns (resp: GetAllResponse)
    requires db.Valid()
    ensures var page, limit := PageParam(rawPage), LimitParam(rawLimit);
      && resp.pagination == MakePagination(page, limit, |db.posts|)
      && resp.posts == PageItems(PostsPage(db.posts, Offset(page, limit), limit), db.images)
  {
    var page := PageParam(rawPage);
    var limit := LimitParam(rawLimit);
    var offset := Offset(page, limit);
    var totalCount := |db.posts|;
    var posts := PostsPage(db.posts, offset, limit);
    PostsPageShape(db.posts, db.postSeq, offset, limit);
    var byPost := PageImages(db, posts);
    var items := ShapePage(posts, byPost, db.images);
    resp := GetAllResponse(items, MakePagination(page, limit, totalCount));
  }

  lemma IdsOfIncreasing(posts: seq<PostRow>, counter: nat)
    requires PostIdsBelow(posts, counter)
    ensures StrictlyIncreasing(IdsOf(posts))
  {
  }

  /** `SELECT * FROM images ORDER BY post_id, id` in a consistent database: every
      image belongs to a post, so this is each post's images in turn. */
  function AllImagesSorted(posts: seq<PostRow>, images: seq<ImageRow>): seq<ImageRow> {
    ImagesQuery(images, IdsOf(posts))
  }

  /** The sorted image rows are the table's rows, each once, by post and then id. */
  lemma AllImagesSortedIsTable(posts: seq<PostRow>, images: seq<ImageRow>, postSeq: nat, imageSeq: nat)
    requires PostIdsBelow(posts, postSeq) && ImageIdsBelow(images, imageSeq) && Referenced(posts, images)
    ensures forall x :: x in AllImagesSorted(posts, images) <==> x in images
    ensures ByPostThenId(AllImagesSorted(posts, images))
  {
    var ids := IdsOf(posts);
    ImagesQueryMembers(images, ids);
    IdsOfIncreasing(posts, postSeq);
    ImagesQueryOrdered(images, ids, imageSeq);
    forall x | x in images ensures x.postId in ids {
      var j :| 0 <= j < |images| && images[j] == x;
      assert x.postId in PostIds(posts);
      var p :| 0 <= p < |posts| && posts[p].id == x.postId;
      assert ids[p] == x.postId;
    }
  }

  /** `GET /get-all-simple`: every post in table order, each with its images. */
  method GetAllSimple(db: Db) returns (items: seq<PostItem>)
    requires db.Valid()
    ensures items == PageItems(db.posts, db.images)
  {
    var posts := db.posts;
    var ids := IdsOf(posts);
    IdsOfIncreasing(posts, db.postSeq);
    var byPost := GroupByPost(AllImagesSorted(posts, db.images));
    forall k | 0 <= k < |posts| ensures Lookup(byPost, posts[k].id) == ImagesOf(db.images, posts[k].id) {
      ImagesQueryGroups(db.images, ids, posts[k].id);
      assert ids[k] == posts[k].id;
    }
    items := ShapePage(posts, byPost, db.images);
  }

  // ---------------------------------------------------------------- search

  /** SQLite's `LIKE` from position `i` of `s` and position `j` of the pattern `p`:
      `%` matches any run of characters, `_` any one character, and every other
      character itself without regard to ASCII case. */
  predicate LikeFrom(s: string, i: nat, p: string, j: nat)
    requires i <= |s| && j <= |p|
    decreases |s| - i + |p| - j
  {
    if j == |p| then i == |s|
    else if p[j] == '%' then LikeFrom(s, i, p, j + 1) || (i < |s| && LikeFrom(s, i + 1, p, j))
    else i < |s| && (p[j] == '_' || AsciiLower(s[i]) == AsciiLower(p[j])) && LikeFrom(s, i + 1, p, j + 1)
  }

  /** `value LIKE '%term%'`; a NULL value never matches. */
  predicate Like(value: Option<string>, term: string) {
    value.Some? && LikeFrom(value.value, 0, "%" + term + "%", 0)
  }

  predicate NoWildcards(t: string) {
    '%' !in t && '_' !in t
  }

  /** A trailing `%` matches whatever is left. */
  lemma {:induction false} TrailingPercent(s: string, i: nat, p: string)
    requires i <= |s| && |p| >= 1 && p[|p| - 1] == '%'
    ensures LikeFrom(s, i, p, |p| - 1)
    decreases |s| - i
  {
    if i < |s| {
      TrailingPercent(s, i + 1, p);
    }
  }

  /** The `n` characters of `s` from `i` equal those of `p` from `j`, ASCII case folded. */
  predicate FoldedPrefix(s: string, i: nat, p: string, j: nat, n: nat)
    decreases n
  {
    if n == 0 then i <= |s| && j <= |p|
    else i < |s| && j < |p| && AsciiLower(s[i]) == AsciiLower(p[j]) && FoldedPrefix(s, i + 1, p, j + 1, n - 1)
  }

  lemma MatchStep(s: string, i: nat, sub: string)
    requires |sub| >= 1
    ensures MatchesAtFolded(s, i, sub) <==>
      i < |s| && AsciiLower(s[i]) == AsciiLower(sub[0]) && MatchesAtFolded(s, i + 1, sub[1..])
  {
    var rest := sub[1..];
    if MatchesAtFolded(s, i, sub) {
      assert AsciiLower(s[i + 0]) == AsciiLower(sub[0]);
      forall k | 0 <= k < |rest| ensures AsciiLower(s[i + 1 + k]) == AsciiLower(rest[k]) {
        assert rest[k] == sub[k + 1];
      }
    }
    if i < |s| && AsciiLower(s[i]) == AsciiLower(sub[0]) && MatchesAtFolded(s, i + 1, rest) {
      forall k | 0 <= k < |sub| ensures AsciiLower(s[i + k]) == AsciiLower(sub[k]) {
        if k > 0 {
          assert sub[k] == rest[k - 1];
        }
      }
    }
  }

  /** `FoldedPrefix` is `MatchesAtFolded` with the stretch `p[j..j + n]` as the term. */
  lemma {:induction false} FoldedPrefixMatches(s: string, i: nat, p: string, j: nat, n: nat)
    requires i <= |s| && j + n <= |p|
    ensures FoldedPrefix(s, i, p, j, n) <==> MatchesAtFolded(s, i, p[j..j + n])
    decreases n
  {
    if n > 0 {
      MatchStep(s, i, p[j..j + n]);
      assert p[j..j + n][1..] == p[j + 1..j + n];
      if i < |s| {
        FoldedPrefixMatches(s, i + 1, p, j + 1, n - 1);
      }
    }
  }

  /** Before the trailing `%`, a wildcard-free stretch of the pattern matches exactly
      when it is a case-folded prefix of the rest of `s`. */
  lemma {:induction false} LiteralThenPercent(s: string, i: nat, p: string, j: nat)
    requires i <= |s| && 1 <= j <= |p| - 1 && p[|p| - 1] == '%'
    requires NoWildcards(p[j..|p| - 1])
    ensures LikeFrom(s, i, p, j) <==> FoldedPrefix(s, i, p, j, |p| - 1 - j)
    decreases |p| - j
  {
    if j == |p| - 1 {
      TrailingPercent(s, i, p);
    } else {
      assert p[j] == p[j..|p| - 1][0];
      assert p[j + 1..|p| - 1] == p[j..|p| - 1][1..];
      if i < |s| {
        LiteralThenPercent(s, i + 1, p, j + 1);
      }
    }
  }

  /** The pattern after its first character matches `s` from some position `m >= i`. */
  predicate RestMatchesFrom(s: string, i: nat, p: string)
    requires |p| >= 1
  {
    exists m: nat :: i <= m <= |s| && LikeFrom(s, m, p, 1)
  }

  lemma RestMatchesStep(s: string, i: nat, p: string)
    requires i < |s| && |p| >= 1
    ensures RestMatchesFrom(s, i, p) <==> LikeFrom(s, i, p, 1) || RestMatchesFrom(s, i + 1, p)
  {
    if RestMatchesFrom(s, i, p) {
      var m: nat :| i <= m <= |s| && LikeFrom(s, m, p, 1);
      if m > i {
        assert i + 1 <= m <= |s| && LikeFrom(s, m, p, 1);
      }
    }
    if LikeFrom(s, i, p, 1) {
      assert i <= i <= |s| && LikeFrom(s, i, p, 1);
    }
    if RestMatchesFrom(s, i + 1, p) {
      var m: nat :| i + 1 <= m <= |s| && LikeFrom(s, m, p, 1);
      assert i <= m <= |s| && LikeFrom(s, m, p, 1);
    }
  }

  /** A leading `%` lets the rest of the pattern start anywhere from `i` on. */
  lemma {:induction false} LeadingPercent(s: string, i: nat, p: string)
    requires i <= |s| && |p| >= 1 && p[0] == '%'
    ensures LikeFrom(s, i, p, 0) <==> RestMatchesFrom(s, i, p)
    decreases |s| - i
  {
    if i < |s| {
      LeadingPercent(s, i + 1, p);
      RestMatchesStep(s, i, p);
    } else {
      if LikeFrom(s, i, p, 0) {
        assert i <= i <= |s| && LikeFrom(s, i, p, 1);
      }
    }
  }

  /** After the leading `%`, the term matches at `m` exactly when it occurs there. */
  lemma LikeAt(s: string, term: string, m: nat)
    requires NoWildcards(term) && m <= |s|
    ensures LikeFrom(s, m, "%" + term + "%", 1) <==> MatchesAtFolded(s, m, term)
  {
    var p := "%" + term + "%";
    assert p[1..|p| - 1] == term;
    LiteralThenPercent(s, m, p, 1);
    FoldedPrefixMatches(s, m, p, 1, |term|);
  }

  /** For a term without wildcards, `LIKE '%term%'` is a case-insensitive substring
      test: the term occurs, ASCII case folded, somewhere in the value. */
  lemma LikeIsSubstring(s: string, term: string)
    requires NoWildcards(term)
    ensures LikeFrom(s, 0, "%" + term + "%", 0) <==> exists m: nat :: m + |term| <= |s| && MatchesAtFolded(s, m, term)
  {
    var p := "%" + term + "%";
    LeadingPercent(s, 0, p);
    if LikeFrom(s, 0, p, 0) {
      var m: nat :| m <= |s| && LikeFrom(s, m, p, 1);
      LikeAt(s, term, m);
    }
    if exists m: nat :: m + |term| <= |s| && MatchesAtFolded(s, m, term) {
      var m: nat :| m + |term| <= |s| && MatchesAtFolded(s, m, term);
      LikeAt(s, term, m);
    }
  }

  /** `LIKE '%%'`, the pattern of an absent term, matches every value that is not NULL. */
  lemma EmptyTermLike(value: Option<string>)
    ensures Like(value, "") <==> value.Some?
  {
    if value.Some? {
      LikeIsSubstring(value.value, "");
      assert MatchesAtFolded(value.value, 0, "");
    }
  }

  predicate Matches(post: PostRow, term: string) {
    Like(post.postTitle, term) || Like(post.postBody, term)
  }

  /** The posts `WHERE post_title LIKE ? OR post_body LIKE ?`, in table order. */
  function Matching(posts: seq<PostRow>, term: string): (r: seq<PostRow>)
    ensures |r| <= |posts|
    ensures forall k :: 0 <= k < |r| ==> Matches(r[k], term)
  {
    if posts == [] then []
    else (if Matches(posts[0], term) then [posts[0]] else []) + Matching(posts[1..], term)
  }

  lemma {:induction false} MatchingMembers(posts: seq<PostRow>, term: string)
    ensures forall x :: x in Matching(posts, term) <==> x in posts && Matches(x, term)
    decreases |posts|
  {
    if posts != [] {
      MatchingMembers(posts[1..], term);
      assert posts == [posts[0]] + posts[1..];
    }
  }

  lemma {:induction false} MatchingBounds(posts: seq<PostRow>, term: string, lo: int, hi: int)
    requires forall k :: 0 <= k < |posts| ==> lo < posts[k].id <= hi
    ensures forall k :: 0 <= k < |Matching(posts, term)| ==> lo < Matching(posts, term)[k].id <= hi
    decreases |posts|
  {
    if posts != [] {
      MatchingBounds(posts[1..], term, lo, hi);
      var rest := Matching(posts[1..], term);
      var head: seq<PostRow> := if Matches(posts[0], term) then [posts[0]] else [];
      var r := head + rest;
      forall k | 0 <= k < |r| ensures lo < r[k].id <= hi {
        if k >= |head| {
          assert r[k] == rest[k - |head|];
        } else {
          assert r[k] == posts[0];
        }
      }
    }
  }

  /** The matching posts keep the table's increasing id order. */
  lemma {:induction false} MatchingKeepsOrder(posts: seq<PostRow>, term: string, counter: nat)
    requires PostIdsBelow(posts, counter)
    ensures PostIdsBelow(Matching(posts, term), counter)
    decreases |posts|
  {
    if posts != [] {
      var tail := posts[1..];
      MatchingKeepsOrder(tail, term, counter);
      forall k | 0 <= k < |tail| ensures posts[0].id < tail[k].id <= counter {
        assert tail[k] == posts[k + 1];
      }
      MatchingBounds(tail, term, posts[0].id, counter);
      if Matches(posts[0], term) {
        ConsPost(posts[0], Matching(tail, term), counter);
      }
    }
  }

  /** The empty term matches every post with a title or a body. */
  lemma EmptyTermMatches(post: PostRow)
    ensures Matches(post, "") <==> post.postTitle.Some? || post.postBody.Some?
  {
    EmptyTermLike(post.postTitle);
    EmptyTermLike(post.postBody);
  }

  /** A search entry. As written, `postTitle` carries the post's body, the extras are
      under `extra_images`, and there is no `postBody`. */
  datatype SearchItem = SearchItem(postId: nat, postTitle: Option<string>, date: Option<string>,
                                   postFolder: Option<string>, titleImage: Option<TitleImage>,
                                   extra_images: seq<ExtraImage>)

  function SearchShape(post: PostRow, postImages: seq<ImageRow>): (r: SearchItem)
    ensures r.postTitle == post.postBody
  {
    SearchItem(post.id, post.postBody, post.date, FolderOf(postImages), TitleOf(postImages), ExtrasOf(postImages))
  }

  /** A search entry shows the same images as the `/get-all` entry of that post. */
  lemma SearchShowsAll(post: PostRow, postImages: seq<ImageRow>)
    ensures var item, full := SearchShape(post, postImages), ShapePost(post, postImages);
      && item.postId == full.postId && item.date == full.date && item.postFolder == full.postFolder
      && item.titleImage == full.titleImage && item.extra_images == full.extraImages
      && item.postTitle == full.postBody
  {
  }

  function SearchItems(page: seq<PostRow>, images: seq<ImageRow>): (r: seq<SearchItem>)
    ensures |r| == |page|
  {
    seq(|page|, k requires 0 <= k < |page| => SearchShape(page[k], ImagesOf(images, page[k].id)))
  }

  datatype SearchResponse = SearchResponse(posts: seq<SearchItem>, searchTerm: string, pagination: Pagination)

  /** `req.query.q || ''`. */
  function SearchTermParam(q: Option<string>): (term: string)
    ensures q.Some? ==> term == q.value
    ensures q.None? ==> term == ""
  {
    if q.Some? && q.value != "" then q.value else ""
  }

  /** `GET /search`: the same pagination as `/get-all`, over the matching posts only. */
  method Search(db: Db, q: Option<string>, rawPage: Option<int>, rawLimit: Option<int>) returns (resp: SearchResponse)
    requires db.Valid()
    ensures var term, page, limit := SearchTermParam(q), PageParam(rawPage), LimitParam(rawLimit);
      var found := Matching(db.posts, term);
      && resp.searchTerm == term
      && resp.pagination == MakePagination(page, limit, |found|)
      && resp.posts == SearchItems(PostsPage(found, Offset(page, limit), limit), db.images)
  {
    var term := SearchTermParam(q);
    var page := PageParam(rawPage);
    var limit := LimitParam(rawLimit);
    var offset := Offset(page, limit);
    var found := Matching(db.posts, term);
    var totalCount := |found|;
    MatchingKeepsOrder(db.posts, term, db.postSeq);
    var posts := PostsPage(found, offset, limit);
    PostsPageShape(found, db.postSeq, offset, limit);
    var byPost := PageImages(db, posts);
    var items := seq(|posts|, k requires 0 <= k < |posts| => SearchShape(posts[k], Lookup(byPost, posts[k].id)));
    resp := SearchResponse(items, term, MakePagination(page, limit, totalCount));
  }

  /** What a search page shows: at most `limit` matching posts, newest first. */
  lemma SearchPageShape(posts: seq<PostRow>, counter: nat, term: string, offset: int, limit: int)
    requires PostIdsBelow(posts, counter)
    ensures var r := PostsPage(Matching(posts, term), offset, limit);
      && (limit >= 0 ==> |r| <= limit) && Descending(r)
      && (forall k :: 0 <= k < |r| ==> r[k] in posts && Matches(r[k], term))
  {
    var found := Matching(posts, term);
    MatchingKeepsOrder(posts, term, counter);
    MatchingMembers(posts, term);
    PostsPageShape(found, counter, offset, limit);
    var r := PostsPage(found, offset, limit);
    forall k | 0 <= k < |r| ensures r[k] in posts && Matches(r[k], term) {
      assert r[k] == found[|found| - 1 - (Start(offset) + k)];
      assert r[k] in found;
    }
  }
}
