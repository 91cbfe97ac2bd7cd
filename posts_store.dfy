/** The admin client's posts store (`usePostsStore.js`): the page list, the
    page-change guard, the fetch/create/delete/edit actions and the modal state.
    Every request is an input: what `/get-all` returned (or that it failed),
    and whether a create, delete or edit request was answered with success. */
module PostsStore {
  import opened Wrappers
  import opened GetPost

  /** The client's copy of `pagination`; before the first fetch `limit` is null. */
  datatype PageInfo = PageInfo(hasNextPage: bool, hasPrevPage: bool, limit: Option<int>,
                               page: int, totalPages: int, totalPosts: int)

  const InitialPageInfo := PageInfo(false, false, None, 1, 1, 0)

  /** The server's `pagination` object as the client stores it. */
  function FromServer(p: Pagination): (r: PageInfo)
    ensures r.page == p.page && r.totalPages == p.totalPages && r.limit == Some(p.limit)
    ensures r.hasNextPage == p.hasNextPage && r.hasPrevPage == p.hasPrevPage && r.totalPosts == p.totalPosts
  {
    PageInfo(p.hasNextPage, p.hasPrevPage, Some(p.limit), p.page, p.totalPages, p.totalPosts)
  }

  /** What a `/get-all` request came back with: its parsed body, or a failure
      (a network error, a status that is not ok, or a body that is not JSON). */
  datatype FetchOutcome = Loaded(data: GetAllResponse) | FetchFailed

  /** `selectedPost`: the empty object `{}`, a post from the list, or — after an
      edit is saved while nothing is selected — an object holding only the two
      edited fields. */
  datatype Selected = NothingSelected | Chosen(post: PostItem) | EditedFields(postTitle: Option<string>, postBody: Option<string>)

  /** `editForm`. */
  datatype EditForm = EditForm(postTitle: Option<string>, postBody: Option<string>)

  /** The selection after a saved edit: the form's title and body written into it. */
  function SaveInto(s: Selected, form: EditForm): (r: Selected)
    ensures s.Chosen? ==> r.Chosen? && r.post.postId == s.post.postId
    ensures s.Chosen? ==> r.post.date == s.post.date && r.post.postFolder == s.post.postFolder
    ensures s.Chosen? ==> r.post.titleImage == s.post.titleImage && r.post.extraImages == s.post.extraImages
    ensures r.Chosen? ==> s.Chosen? && r.post.postTitle == form.postTitle && r.post.postBody == form.postBody
    ensures !s.Chosen? ==> r == EditedFields(form.postTitle, form.postBody)
  {
    match s
    case Chosen(p) => Chosen(p.(postTitle := form.postTitle, postBody := form.postBody))
    case _ => EditedFields(form.postTitle, form.postBody)
  }

  // ---------------------------------------------------------------- what delete removes

  /** `posts.findIndex(p => p.postId === postId)`. */
  function FirstMatch(posts: seq<PostItem>, postId: nat): (i: int)
    ensures -1 <= i < |posts|
    ensures i >= 0 ==> posts[i].postId == postId
    ensures i >= 0 ==> forall k :: 0 <= k < i ==> posts[k].postId != postId
    ensures i == -1 ==> forall k :: 0 <= k < |posts| ==> posts[k].postId != postId
  {
    if posts == [] then -1
    else if posts[0].postId == postId then 0
    else
      var j := FirstMatch(posts[1..], postId);
      if j == -1 then -1 else j + 1
  }

  /** The list after `splice(findIndex(…), 1)` when the index is found. */
  function RemoveFirst(posts: seq<PostItem>, postId: nat): seq<PostItem> {
    var i := FirstMatch(posts, postId);
    if i == -1 then posts else posts[..i] + posts[i + 1..]
  }

  /** Only the first post with that id is dropped, and the others keep their order;
      with no such post the list is unchanged. */
  lemma RemoveFirstDropsOne(posts: seq<PostItem>, postId: nat)
    ensures var r, i := RemoveFirst(posts, postId), FirstMatch(posts, postId);
      && (i == -1 ==> r == posts)
      && (i >= 0 ==>
            && |r| == |posts| - 1
            && (forall k :: 0 <= k < i ==> r[k] == posts[k])
            && (forall k :: i <= k < |r| ==> r[k] == posts[k + 1])
            && multiset(r) + multiset{posts[i]} == multiset(posts))
  {
    var i := FirstMatch(posts, postId);
    if i >= 0 {
      assert posts == posts[..i] + [posts[i]] + posts[i + 1..];
    }
  }

  /** Posts with another id are all still there after the removal. */
  lemma RemoveFirstKeepsOthers(posts: seq<PostItem>, postId: nat, p: PostItem)
    requires p in posts && p.postId != postId
    ensures p in RemoveFirst(posts, postId)
  {
    var i := FirstMatch(posts, postId);
    if i >= 0 {
      var k :| 0 <= k < |posts| && posts[k] == p;
      assert k != i;
      if k < i {
        assert RemoveFirst(posts, postId)[k] == p;
      } else {
        assert RemoveFirst(posts, postId)[k - 1] == p;
      }
    }
  }

  // ---------------------------------------------------------------- the store

  class Store {
    var posts: seq<PostItem>
    var pagination: PageInfo
    var loading: bool
    var isUploading: bool
    var currentPage: int
    var totalPagesCount: int
    var showPostModal: bool
    var selectedPost: Selected
    var editing: bool
    var editForm: EditForm

    /** The page counters mirror the stored pagination, as every fetch leaves them. */
    ghost predicate Synced()
      reads this
    {
      currentPage == pagination.page && totalPagesCount == pagination.totalPages
    }

    /** The store as `defineStore` creates it. */
    constructor ()
      ensures posts == [] && pagination == InitialPageInfo && Synced()
      ensures !loading && !isUploading && currentPage == 1 && totalPagesCount == 1
      ensures !showPostModal && selectedPost == NothingSelected
      ensures !editing && editForm == EditForm(Some(""), Some(""))
    {
      posts, pagination := [], InitialPageInfo;
      loading, isUploading := false, false;
      currentPage, totalPagesCount := 1, 1;
      showPostModal, selectedPost := false, NothingSelected;
      editing, editForm := false, EditForm(Some(""), Some(""));
    }

    /** `isEditing`: whether an edit is in progress. */
    predicate IsEditing()
      reads this
    {
      editing
    }

    /** `pageNumbers`: 1, 2, …, `totalPagesCount`. */
    method PageNumbers() returns (pages: seq<int>)
      ensures |pages| == (if totalPagesCount < 1 then 0 else totalPagesCount)
      ensures forall k :: 0 <= k < |pages| ==> pages[k] == k + 1
    {
      pages := [];
      var i := 1;
      while i <= totalPagesCount
        invariant 1 <= i && (totalPagesCount >= 1 ==> i <= totalPagesCount + 1)
        invariant totalPagesCount < 1 ==> i == 1
        invariant |pages| == i - 1
        invariant forall k :: 0 <= k < |pages| ==> pages[k] == k + 1
        decreases totalPagesCount - i
      {
        pages := pages + [i];
        i := i + 1;
      }
    }

    /** `fetchPosts(page)`, where `outcome` is the answer to `/get-all?page=<page>`.
        A loaded page replaces the posts and the pagination and moves the counters;
        a failure changes nothing. Either way `loading` ends false. */
    method FetchPosts(page: int, outcome: FetchOutcome) returns (r: Option<GetAllResponse>)
      modifies this
      ensures old(Synced()) ==> Synced()
      ensures !loading
      ensures outcome.Loaded? ==>
        && r == Some(outcome.data) && posts == outcome.data.posts
        && pagination == FromServer(outcome.data.pagination)
        && totalPagesCount == outcome.data.pagination.totalPages && currentPage == outcome.data.pagination.page
        && Synced()
      ensures outcome.FetchFailed? ==>
        && r.None? && posts == old(posts) && pagination == old(pagination)
        && currentPage == old(currentPage) && totalPagesCount == old(totalPagesCount)
      ensures isUploading == old(isUploading) && showPostModal == old(showPostModal)
      ensures selectedPost == old(selectedPost) && editing == old(editing) && editForm == old(editForm)
    {
      loading := true;
      if outcome.Loaded? {
        var data := outcome.data;
        posts := data.posts;
        pagination := FromServer(data.pagination);
        totalPagesCount := data.pagination.totalPages;
        currentPage := data.pagination.page;
        r := Some(data);
      } else {
        r := None;
      }
      loading := false;
    }

    /** `initialize()`: the first page. */
    method Initialize(outcome: FetchOutcome)
      modifies this
      ensures old(Synced()) ==> Synced()
      ensures !loading
      ensures outcome.Loaded? ==>
        && posts == outcome.data.posts && pagination == FromServer(outcome.data.pagination)
        && currentPage == outcome.data.pagination.page && totalPagesCount == outcome.data.pagination.totalPages
      ensures outcome.FetchFailed? ==>
        && posts == old(posts) && pagination == old(pagination)
        && currentPage == old(currentPage) && totalPagesCount == old(totalPagesCount)
      ensures isUploading == old(isUploading) && showPostModal == old(showPostModal)
      ensures selectedPost == old(selectedPost) && editing == old(editing) && editForm == old(editForm)
    {
      var _ := FetchPosts(1, outcome);
    }

    /** `handlePageChange(page)`: the current page, a page below 1 and a page past
        the last are ignored; any other page is fetched. */
    method HandlePageChange(page: int, outcome: FetchOutcome)
      modifies this
      ensures old(Synced()) ==> Synced()
      ensures page == old(currentPage) || page < 1 || page > old(totalPagesCount) ==>
        && posts == old(posts) && pagination == old(pagination) && loading == old(loading)
        && currentPage == old(currentPage) && totalPagesCount == old(totalPagesCount)
      ensures !(page == old(currentPage) || page < 1 || page > old(totalPagesCount)) ==>
        && !loading
        && (outcome.Loaded? ==> posts == outcome.data.posts && pagination == FromServer(outcome.data.pagination) && Synced())
        && (outcome.FetchFailed? ==> posts == old(posts) && pagination == old(pagination)
                                     && currentPage == old(currentPage) && totalPagesCount == old(totalPagesCount))
      ensures isUploading == old(isUploading) && showPostModal == old(showPostModal)
      ensures selectedPost == old(selectedPost) && editing == old(editing) && editForm == old(editForm)
    {
      if page == currentPage || page < 1 || page > totalPagesCount {
        return;
      }
      var _ := FetchPosts(page, outcome);
    }

    /** `createPost(formData)`: `created` says whether `/new-post` answered ok; only
        then is the current page fetched again (`refresh`). The result is success
        exactly when both succeeded, and `isUploading` ends false either way. */
    method CreatePost(created: bool, refresh: FetchOutcome) returns (success: bool)
      modifies this
      ensures old(Synced()) ==> Synced()
      ensures !isUploading
      ensures success <==> created && refresh.Loaded?
      ensures created && refresh.Loaded? ==>
        posts == refresh.data.posts && pagination == FromServer(refresh.data.pagination) && Synced()
      ensures !(created && refresh.Loaded?) ==>
        && posts == old(posts) && pagination == old(pagination)
        && currentPage == old(currentPage) && totalPagesCount == old(totalPagesCount)
      ensures created ==> !loading
      ensures !created ==> loading == old(loading)
      ensures showPostModal == old(showPostModal) && selectedPost == old(selectedPost)
      ensures editing == old(editing) && editForm == old(editForm)
    {
      isUploading := true;
      if !created {
        success := false;
      } else {
        assert isUploading;
        var r := FetchPosts(currentPage, refresh);
        success := r.Some?;
      }
      isUploading := false;
    }

    /** `posts.findIndex(p => p.postId === postId)`. */
    method FindPost(postId: nat) returns (index: int)
      ensures index == FirstMatch(posts, postId)
    {
      index := 0;
      while index < |posts| && posts[index].postId != postId
        invariant 0 <= index <= |posts|
        invariant forall k :: 0 <= k < index ==> posts[k].postId != postId
      {
        index := index + 1;
      }
      if index == |posts| {
        index := -1;
      }
      FirstMatchIs(posts, postId, index);
    }

    /** `deletePost(postId)`: `deleted` says whether `/delete/<postId>` answered ok.
        Then the first local post with that id is spliced out and the current page
        is fetched again; a failed refresh keeps the spliced list and makes the
        result false. */
    method DeletePost(postId: nat, deleted: bool, refresh: FetchOutcome) returns (ok: bool)
      modifies this
      ensures old(Synced()) ==> Synced()
      ensures ok <==> deleted && refresh.Loaded?
      ensures !deleted ==>
        && posts == old(posts) && pagination == old(pagination) && loading == old(loading)
        && currentPage == old(currentPage) && totalPagesCount == old(totalPagesCount)
      ensures deleted ==> !loading
      ensures deleted && refresh.Loaded? ==>
        posts == refresh.data.posts && pagination == FromServer(refresh.data.pagination) && Synced()
      ensures deleted && refresh.FetchFailed? ==>
        && posts == RemoveFirst(old(posts), postId) && pagination == old(pagination)
        && currentPage == old(currentPage) && totalPagesCount == old(totalPagesCount)
      ensures isUploading == old(isUploading) && showPostModal == old(showPostModal)
      ensures selectedPost == old(selectedPost) && editing == old(editing) && editForm == old(editForm)
    {
      if !deleted {
        return false;
      }
      var i := FindPost(postId);
      if i > -1 {
        posts := posts[..i] + posts[i + 1..];
      }
      var r := FetchPosts(currentPage, refresh);
      ok := r.Some?;
    }

    /** `openPost(post)`. */
    method OpenPost(post: PostItem)
      modifies this
      ensures selectedPost == Chosen(post) && showPostModal
      ensures posts == old(posts) && pagination == old(pagination) && editing == old(editing)
      ensures editForm == old(editForm) && currentPage == old(currentPage)
      ensures totalPagesCount == old(totalPagesCount) && loading == old(loading) && isUploading == old(isUploading)
    {
      selectedPost := Chosen(post);
      showPostModal := true;
    }

    /** `closePostModal()`: hidden, nothing selected, not editing. */
    method ClosePostModal()
      modifies this
      ensures !showPostModal && selectedPost == NothingSelected && !IsEditing()
      ensures posts == old(posts) && pagination == old(pagination) && editForm == old(editForm)
      ensures currentPage == old(currentPage)
      ensures totalPagesCount == old(totalPagesCount) && loading == old(loading) && isUploading == old(isUploading)
    {
      showPostModal := false;
      selectedPost := NothingSelected;
      CancelEdit();
    }

    /** `initEdit(post)`: editing that post, its title and body copied into the form. */
    method InitEdit(post: PostItem)
      modifies this
      ensures IsEditing() && selectedPost == Chosen(post) && showPostModal
      ensures editForm == EditForm(post.postTitle, post.postBody)
      ensures posts == old(posts) && pagination == old(pagination) && currentPage == old(currentPage)
      ensures totalPagesCount == old(totalPagesCount) && loading == old(loading) && isUploading == old(isUploading)
    {
      editing := true;
      selectedPost := Chosen(post);
      editForm := EditForm(post.postTitle, post.postBody);
      showPostModal := true;
    }

    /** `cancelEdit()`: only `editing` changes; the form keeps its values. */
    method CancelEdit()
      modifies this
      ensures !IsEditing()
      ensures selectedPost == old(selectedPost) && editForm == old(editForm) && showPostModal == old(showPostModal)
      ensures posts == old(posts) && pagination == old(pagination) && currentPage == old(currentPage)
      ensures totalPagesCount == old(totalPagesCount) && loading == old(loading) && isUploading == old(isUploading)
    {
      editing := false;
    }

    /** `saveEdit(postId)`: `saved` says whether `/edit/<postId>` answered ok. Only
        then are the form's values written into the selection and editing ends. */
    method SaveEdit(postId: nat, saved: bool)
      modifies this
      ensures saved ==> selectedPost == SaveInto(old(selectedPost), old(editForm)) && !IsEditing()
      ensures !saved ==> selectedPost == old(selectedPost) && editing == old(editing)
      ensures editForm == old(editForm) && showPostModal == old(showPostModal)
      ensures posts == old(posts) && pagination == old(pagination) && currentPage == old(currentPage)
      ensures totalPagesCount == old(totalPagesCount) && loading == old(loading) && isUploading == old(isUploading)
    {
      if saved {
        selectedPost := SaveInto(selectedPost, editForm);
        editing := false;
      }
    }
  }

  /** The index a search stopped at is the first match. */
  lemma FirstMatchIs(posts: seq<PostItem>, postId: nat, index: int)
    requires -1 <= index < |posts|
    requires index >= 0 ==> posts[index].postId == postId
    requires index >= 0 ==> forall k :: 0 <= k < index ==> posts[k].postId != postId
    requires index == -1 ==> forall k :: 0 <= k < |posts| ==> posts[k].postId != postId
    ensures index == FirstMatch(posts, postId)
  {
    var i := FirstMatch(posts, postId);
    if i >= 0 && index >= 0 {
      assert !(i < index) && !(index < i);
    }
  }
}
