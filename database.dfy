/** The SQLite store behind the post routes: the `posts` and `images` tables of
    `initializeDatabase`, their constraints, and the statements the routes run
    against them. Each table keeps its rows in rowid order together with its
    AUTOINCREMENT counter (the table's entry in `sqlite_sequence`). */
module Database {
  import opened Wrappers

  /** A row of `posts`; every column but `id` may be NULL. */
  datatype PostRow = PostRow(id: nat, postTitle: Option<string>, postBody: Option<string>,
                             date: Option<string>, postType: Option<string>)

  /** A row of `images`; `post_id`, `image_path` and `image_type` are NOT NULL. */
  datatype ImageRow = ImageRow(id: nat, postId: nat, imagePath: string, imageType: string,
                               folderUrl: Option<string>, orderIndex: int)

  /** Why an INSERT into `images` is refused. */
  datatype DbError = NotNull(column: string) | ForeignKey

  /** The DDL state `initializeDatabase` inspects: whether foreign keys are
      enforced, whether `posts` exists, and the columns of `images` if it exists. */
  datatype Schema = Schema(foreignKeys: bool, hasPosts: bool, imageColumns: Option<seq<string>>)

  /** The columns `CREATE TABLE images` declares, in order. */
  const ImageColumns: seq<string> := ["id", "post_id", "image_path", "image_type", "folder_url", "order_index"]

  /** The schema after `initializeDatabase`: foreign keys on, both tables present
      (created only when absent), and `order_index` added to an older `images` table
      that lacks it. */
  function Initialized(s: Schema): (r: Schema)
    ensures r.foreignKeys && r.hasPosts && r.imageColumns.Some?
    ensures "order_index" in r.imageColumns.value
    ensures s.imageColumns.None? ==> r.imageColumns.value == ImageColumns
    ensures s.imageColumns.Some? ==>
              |s.imageColumns.value| <= |r.imageColumns.value|
              && r.imageColumns.value[..|s.imageColumns.value|] == s.imageColumns.value
    ensures s.imageColumns.Some? && "order_index" in s.imageColumns.value ==> r.imageColumns == s.imageColumns
  {
    var cols := if s.imageColumns.Some? then s.imageColumns.value else ImageColumns;
    Schema(true, true, Some(if "order_index" in cols then cols else cols + ["order_index"]))
  }

  /** Running the initialisation a second time changes nothing. */
  lemma InitializeIdempotent(s: Schema)
    ensures Initialized(Initialized(s)) == Initialized(s)
  {
  }

  function PostIds(posts: seq<PostRow>): (ids: set<nat>)
    ensures forall i :: 0 <= i < |posts| ==> posts[i].id in ids
  {
    set i | 0 <= i < |posts| :: posts[i].id
  }

  /** Rowids in storage order are strictly increasing and never above the counter. */
  predicate PostIdsBelow(posts: seq<PostRow>, counter: nat) {
    (forall i, j :: 0 <= i < j < |posts| ==> posts[i].id < posts[j].id)
    && (forall i :: 0 <= i < |posts| ==> posts[i].id <= counter)
  }

  predicate ImageIdsBelow(images: seq<ImageRow>, counter: nat) {
    (forall i, j :: 0 <= i < j < |images| ==> images[i].id < images[j].id)
    && (forall i :: 0 <= i < |images| ==> images[i].id <= counter)
  }

  /** Every image belongs to an existing post: what `FOREIGN KEY (post_id)
      REFERENCES posts(id) ON DELETE CASCADE` maintains while enforced. */
  predicate Referenced(posts: seq<PostRow>, images: seq<ImageRow>) {
    forall i :: 0 <= i < |images| ==> images[i].postId in PostIds(posts)
  }

  /** A consistent database: ids issued in increasing order below the counters,
      every image referencing a post, no rows in a table that does not exist, and
      `order_index` reading 0 in a table that has not got the column yet. */
  predicate Consistent(schema: Schema, posts: seq<PostRow>, images: seq<ImageRow>, postSeq: nat, imageSeq: nat) {
    && PostIdsBelow(posts, postSeq)
    && ImageIdsBelow(images, imageSeq)
    && Referenced(posts, images)
    && (!schema.hasPosts ==> posts == [])
    && (schema.imageColumns.None? ==> images == [])
    && (schema.imageColumns.Some? && "order_index" !in schema.imageColumns.value ==>
          forall i :: 0 <= i < |images| ==> images[i].orderIndex == 0)
  }

  /** The rows of `images` that belong to post `postId`, in rowid order. */
  function ImagesOf(images: seq<ImageRow>, postId: nat): (r: seq<ImageRow>)
    ensures |r| <= |images|
    ensures forall k :: 0 <= k < |r| ==> r[k].postId == postId
  {
    if images == [] then []
    else (if images[0].postId == postId then [images[0]] else []) + ImagesOf(images[1..], postId)
  }

  /** `ImagesOf` keeps exactly the rows of that post. */
  lemma {:induction false} ImagesOfMembers(images: seq<ImageRow>, postId: nat)
    ensures forall x :: x in ImagesOf(images, postId) <==> x in images && x.postId == postId
    decreases |images|
  {
    if images != [] {
      ImagesOfMembers(images[1..], postId);
      assert images == [images[0]] + images[1..];
    }
  }

  lemma {:induction false} ImagesOfAppend(a: seq<ImageRow>, b: seq<ImageRow>, postId: nat)
    ensures ImagesOf(a + b, postId) == ImagesOf(a, postId) + ImagesOf(b, postId)
    decreases |a|
  {
    if a == [] {
      assert a + b == b;
    } else {
      assert (a + b)[1..] == a[1..] + b;
      ImagesOfAppend(a[1..], b, postId);
    }
  }

  /** A post none of whose rows mention it has no images. */
  lemma {:induction false} ImagesOfAbsent(images: seq<ImageRow>, postId: nat)
    requires forall k :: 0 <= k < |images| ==> images[k].postId != postId
    ensures ImagesOf(images, postId) == []
    decreases |images|
  {
    if images != [] {
      ImagesOfAbsent(images[1..], postId);
    }
  }

  /** The rows that survive deleting post `postId` with `ON DELETE CASCADE`. */
  function ImagesNotOf(images: seq<ImageRow>, postId: nat): (r: seq<ImageRow>)
    ensures |r| <= |images|
    ensures forall k :: 0 <= k < |r| ==> r[k].postId != postId
  {
    if images == [] then []
    else (if images[0].postId != postId then [images[0]] else []) + ImagesNotOf(images[1..], postId)
  }

  function PostsNot(posts: seq<PostRow>, id: nat): (r: seq<PostRow>)
    ensures |r| <= |posts|
  {
    if posts == [] then []
    else (if posts[0].id != id then [posts[0]] else []) + PostsNot(posts[1..], id)
  }

  /** The cascade keeps exactly the rows of other posts. */
  lemma {:induction false} ImagesNotOfMembers(images: seq<ImageRow>, postId: nat)
    ensures forall x :: x in ImagesNotOf(images, postId) <==> x in images && x.postId != postId
    decreases |images|
  {
    if images != [] {
      ImagesNotOfMembers(images[1..], postId);
      assert images == [images[0]] + images[1..];
    }
  }

  /** The delete keeps exactly the other posts. */
  lemma {:induction false} PostsNotMembers(posts: seq<PostRow>, id: nat)
    ensures forall x :: x in PostsNot(posts, id) <==> x in posts && x.id != id
    decreases |posts|
  {
    if posts != [] {
      PostsNotMembers(posts[1..], id);
      assert posts == [posts[0]] + posts[1..];
    }
  }

  /** Dropping rows keeps every remaining id within the bounds all ids were in. */
  lemma {:induction false} PostsNotBounds(posts: seq<PostRow>, id: nat, lo: int, hi: int)
    requires forall k :: 0 <= k < |posts| ==> lo < posts[k].id <= hi
    ensures forall k :: 0 <= k < |PostsNot(posts, id)| ==> lo < PostsNot(posts, id)[k].id <= hi
    decreases |posts|
  {
    if posts != [] {
      PostsNotBounds(posts[1..], id, lo, hi);
      var rest := PostsNot(posts[1..], id);
      var head: seq<PostRow> := if posts[0].id != id then [posts[0]] else [];
      var r := head + rest;
      forall k | 0 <= k < |r| ensures lo < r[k].id <= hi {
        if k >= |head| {
          assert r[k] == rest[k - |head|];
        } else {
          assert r[k] == posts[0];
        }
      }
    }
  }

  /** A row below every row of an increasing table can go in front of it. */
  lemma ConsPost(x: PostRow, rest: seq<PostRow>, counter: nat)
    requires PostIdsBelow(rest, counter) && x.id <= counter
    requires forall k :: 0 <= k < |rest| ==> x.id < rest[k].id
    ensures PostIdsBelow([x] + rest, counter)
  {
    var r := [x] + rest;
    forall i, j | 0 <= i < j < |r| ensures r[i].id < r[j].id {
      assert r[j] == rest[j - 1];
      if i > 0 {
        assert r[i] == rest[i - 1];
      }
    }
  }

  lemma {:induction false} PostsNotKeepsOrder(posts: seq<PostRow>, id: nat, counter: nat)
    requires PostIdsBelow(posts, counter)
    ensures PostIdsBelow(PostsNot(posts, id), counter)
    decreases |posts|
  {
    if posts != [] {
      var tail := posts[1..];
      PostsNotKeepsOrder(tail, id, counter);
      forall k | 0 <= k < |tail| ensures posts[0].id < tail[k].id <= counter {
        assert tail[k] == posts[k + 1];
      }
      PostsNotBounds(tail, id, posts[0].id, counter);
      if posts[0].id != id {
        ConsPost(posts[0], PostsNot(tail, id), counter);
      }
    }
  }

  lemma {:induction false} ImagesNotOfBounds(images: seq<ImageRow>, postId: nat, lo: int, hi: int)
    requires forall k :: 0 <= k < |images| ==> lo < images[k].id <= hi
    ensures forall k :: 0 <= k < |ImagesNotOf(images, postId)| ==> lo < ImagesNotOf(images, postId)[k].id <= hi
    decreases |images|
  {
    if images != [] {
      ImagesNotOfBounds(images[1..], postId, lo, hi);
      var rest := ImagesNotOf(images[1..], postId);
      var head: seq<ImageRow> := if images[0].postId != postId then [images[0]] else [];
      var r := head + rest;
      forall k | 0 <= k < |r| ensures lo < r[k].id <= hi {
        if k >= |head| {
          assert r[k] == rest[k - |head|];
        } else {
          assert r[k] == images[0];
        }
      }
    }
  }

  lemma ConsImage(x: ImageRow, rest: seq<ImageRow>, counter: nat)
    requires ImageIdsBelow(rest, counter) && x.id <= counter
    requires forall k :: 0 <= k < |rest| ==> x.id < rest[k].id
    ensures ImageIdsBelow([x] + rest, counter)
  {
    var r := [x] + rest;
    forall i, j | 0 <= i < j < |r| ensures r[i].id < r[j].id {
      assert r[j] == rest[j - 1];
      if i > 0 {
        assert r[i] == rest[i - 1];
      }
    }
  }

  lemma {:induction false} ImagesNotOfKeepsOrder(images: seq<ImageRow>, postId: nat, counter: nat)
    requires ImageIdsBelow(images, counter)
    ensures ImageIdsBelow(ImagesNotOf(images, postId), counter)
    decreases |images|
  {
    if images != [] {
      var tail := images[1..];
      ImagesNotOfKeepsOrder(tail, postId, counter);
      forall k | 0 <= k < |tail| ensures images[0].id < tail[k].id <= counter {
        assert tail[k] == images[k + 1];
      }
      ImagesNotOfBounds(tail, postId, images[0].id, counter);
      if images[0].postId != postId {
        ConsImage(images[0], ImagesNotOf(tail, postId), counter);
      }
    }
  }

  lemma PostIdsAppend(posts: seq<PostRow>, row: PostRow)
    ensures PostIds(posts + [row]) == PostIds(posts) + {row.id}
  {
    var all := posts + [row];
    forall id | id in PostIds(posts) ensures id in PostIds(all) {
      var i :| 0 <= i < |posts| && posts[i].id == id;
      assert all[i] == posts[i];
    }
    assert all[|posts|] == row;
  }

  /** Deleting a post with `ON DELETE CASCADE` leaves no image without its post. */
  lemma CascadeKeepsReferences(posts: seq<PostRow>, images: seq<ImageRow>, id: nat)
    requires Referenced(posts, images)
    ensures Referenced(PostsNot(posts, id), ImagesNotOf(images, id))
  {
    var ps, kept := PostsNot(posts, id), ImagesNotOf(images, id);
    PostsNotMembers(posts, id);
    ImagesNotOfMembers(images, id);
    forall k | 0 <= k < |kept| ensures kept[k].postId in PostIds(ps) {
      var x := kept[k];
      assert x in images;
      var j :| 0 <= j < |images| && images[j] == x;
      assert x.postId in PostIds(posts);
      var p :| 0 <= p < |posts| && posts[p].id == x.postId;
      assert posts[p] in ps;
      var q :| 0 <= q < |ps| && ps[q] == posts[p];
    }
  }

  /** Deleting a post and cascading to its images keeps the tables consistent and
      leaves nothing of that post behind. */
  lemma DeleteKeepsConsistent(schema: Schema, posts: seq<PostRow>, images: seq<ImageRow>,
                              postSeq: nat, imageSeq: nat, id: nat)
    requires Consistent(schema, posts, images, postSeq, imageSeq)
    ensures Consistent(schema, PostsNot(posts, id), ImagesNotOf(images, id), postSeq, imageSeq)
    ensures id !in PostIds(PostsNot(posts, id)) && ImagesOf(ImagesNotOf(images, id), id) == []
  {
    var ps, kept := PostsNot(posts, id), ImagesNotOf(images, id);
    PostsNotKeepsOrder(posts, id, postSeq);
    ImagesNotOfKeepsOrder(images, id, imageSeq);
    CascadeKeepsReferences(posts, images, id);
    ImagesOfAbsent(kept, id);
    ImagesNotOfMembers(images, id);
    PostsNotMembers(posts, id);
    if schema.imageColumns.Some? && "order_index" !in schema.imageColumns.value {
      forall i | 0 <= i < |kept| ensures kept[i].orderIndex == 0 {
        assert kept[i] in images;
      }
    }
  }

  /** The shared connection `db` of `database.js`. */
  class Db {
    var schema: Schema
    var posts: seq<PostRow>
    var images: seq<ImageRow>
    var postSeq: nat
    var imageSeq: nat

    ghost predicate Valid()
      reads this
    {
      Consistent(schema, posts, images, postSeq, imageSeq)
    }

    /** Both tables exist and foreign keys are enforced: the state the routes run in,
        since the server initialises the database before it listens (which also
        adds `order_index`). */
    predicate Ready()
      reads this
    {
      schema.foreignKeys && schema.hasPosts && schema.imageColumns.Some?
      && "order_index" in schema.imageColumns.value
    }

    /** `new Database(file)` on a file that holds this schema and these rows. */
    constructor Open(schema: Schema, posts: seq<PostRow>, images: seq<ImageRow>, postSeq: nat, imageSeq: nat)
      requires Consistent(schema, posts, images, postSeq, imageSeq)
      ensures Valid()
      ensures this.schema == schema && this.posts == posts && this.images == images
      ensures this.postSeq == postSeq && this.imageSeq == imageSeq
    {
      this.schema, this.posts, this.images := schema, posts, images;
      this.postSeq, this.imageSeq := postSeq, imageSeq;
    }

    /** `initializeDatabase()`: foreign keys on, `CREATE TABLE IF NOT EXISTS` for
        both tables, then `ALTER TABLE images ADD COLUMN order_index` only if no column
        of that name exists. Existing rows are kept. */
    method Initialize()
      requires Valid()
      modifies this
      ensures Valid() && Ready()
      ensures schema == Initialized(old(schema))
      ensures posts == old(posts) && images == old(images)
      ensures postSeq == old(postSeq) && imageSeq == old(imageSeq)
    {
      schema := schema.(foreignKeys := true);
      if !schema.hasPosts {
        schema := schema.(hasPosts := true);
      }
      if schema.imageColumns.None? {
        schema := schema.(imageColumns := Some(ImageColumns));
      }
      var columns := schema.imageColumns.value;
      var hasOrderIndex := "order_index" in columns;
      if !hasOrderIndex {
        schema := schema.(imageColumns := Some(columns + ["order_index"]));
      }
    }

    /** `INSERT INTO posts (post_title, post_body, date, post_type)`: always succeeds
        (no column is NOT NULL) and returns `lastInsertRowid`, one above every id the
        table has ever issued. */
    method InsertPost(title: Option<string>, body: Option<string>, date: Option<string>, postType: Option<string>)
      returns (id: nat)
      requires Valid() && Ready()
      modifies this
      ensures Valid() && Ready()
      ensures id == old(postSeq) + 1 && postSeq == id
      ensures forall i :: 0 <= i < |old(posts)| ==> old(posts)[i].id < id
      ensures posts == old(posts) + [PostRow(id, title, body, date, postType)]
      ensures images == old(images) && imageSeq == old(imageSeq) && schema == old(schema)
    {
      id := postSeq + 1;
      PostIdsAppend(posts, PostRow(id, title, body, date, postType));
      posts := posts + [PostRow(id, title, body, date, postType)];
      postSeq := id;
    }

    /** `INSERT INTO images (post_id, image_path, image_type, folder_url[, order_index])`.
        A NULL in a NOT NULL column is refused (the first such column, in declaration
        order), then a `post_id` naming no post is refused by the foreign key;
        otherwise the row is stored with a fresh id and `order_index` defaulting to 0.
        A refused insert leaves the table and its counter as they were. */
    method InsertImage(postId: Option<nat>, imagePath: Option<string>, imageType: Option<string>,
                       folderUrl: Option<string>, orderIndex: Option<int>)
      returns (r: Result<nat, DbError>)
      requires Valid() && Ready()
      modifies this
      ensures Valid() && Ready()
      ensures postId.None? ==> r == Failure(NotNull("post_id"))
      ensures postId.Some? && imagePath.None? ==> r == Failure(NotNull("image_path"))
      ensures postId.Some? && imagePath.Some? && imageType.None? ==> r == Failure(NotNull("image_type"))
      ensures postId.Some? && imagePath.Some? && imageType.Some? && postId.value !in PostIds(old(posts)) ==>
                r == Failure(ForeignKey)
      ensures r.Failure? ==> images == old(images) && imageSeq == old(imageSeq)
      ensures r.Success? <==> postId.Some? && imagePath.Some? && imageType.Some? && postId.value in PostIds(old(posts))
      ensures r.Success? ==>
                && r.value == old(imageSeq) + 1 && imageSeq == r.value
                && images == old(images) + [ImageRow(r.value, postId.value, imagePath.value, imageType.value,
                                                     folderUrl, orderIndex.GetOr(0))]
      ensures posts == old(posts) && postSeq == old(postSeq) && schema == old(schema)
    {
      if postId.None? {
        return Failure(NotNull("post_id"));
      }
      if imagePath.None? {
        return Failure(NotNull("image_path"));
      }
      if imageType.None? {
        return Failure(NotNull("image_type"));
      }
      if postId.value !in PostIds(posts) {
        return Failure(ForeignKey);
      }
      var id := imageSeq + 1;
      images := images + [ImageRow(id, postId.value, imagePath.value, imageType.value, folderUrl, orderIndex.GetOr(0))];
      imageSeq := id;
      r := Success(id);
    }

    /** `DELETE FROM posts WHERE id = ?` with foreign keys on: the post row goes, and
        the cascade removes every image row of that post; all other rows stay, in order. */
    method DeletePost(id: nat) returns (deleted: bool)
      requires Valid() && Ready()
      modifies this
      ensures Valid() && Ready()
      ensures deleted <==> id in PostIds(old(posts))
      ensures posts == PostsNot(old(posts), id) && images == ImagesNotOf(old(images), id)
      ensures id !in PostIds(posts) && ImagesOf(images, id) == []
      ensures postSeq == old(postSeq) && imageSeq == old(imageSeq) && schema == old(schema)
    {
      deleted := id in PostIds(posts);
      DeleteKeepsConsistent(schema, posts, images, postSeq, imageSeq, id);
      posts := PostsNot(posts, id);
      images := ImagesNotOf(images, id);
    }
  }
}
