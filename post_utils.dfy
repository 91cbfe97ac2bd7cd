/** The post-form helpers of `utils.js`: `usePostType`, which classifies a draft by
    whether it has text and whether it has images, and `useErrorOutline`. Fields
    read through `?.` may be `undefined`, which equals neither `''` nor `0`. */
module PostUtils {
  import opened Wrappers
  import opened Strings

  /** The draft a post form holds: title and body text, and the lengths of the two
      image lists, each possibly missing. */
  datatype PostDraft = PostDraft(title: Option<string>, bodyText: Option<string>,
                                 titleImages: Option<nat>, extraImages: Option<nat>)

  datatype PostType = Empty | Blog | Gallery | Mixed

  function TypeName(t: PostType): string {
    match t
    case Empty => "empty"
    case Blog => "blog"
    case Gallery => "gallery"
    case Mixed => "mixed"
  }

  /** `value?.trim() === ''`: false when the value is missing. */
  predicate BlankText(s: Option<string>) {
    s.Some? && Trim(s.value) == ""
  }

  /** `value?.length === 0`: false when the list is missing. */
  predicate NoneCounted(n: Option<nat>) {
    n == Some(0)
  }

  /** `usePostType`'s chain of conditions, as written. */
  function ClassifyPost(d: PostDraft): PostType {
    if BlankText(d.title) && BlankText(d.bodyText) && NoneCounted(d.titleImages) && NoneCounted(d.extraImages) then Empty
    else if NoneCounted(d.titleImages) && NoneCounted(d.extraImages) then Blog
    else if BlankText(d.title) && BlankText(d.bodyText) then Gallery
    else Mixed
  }

  /** The draft has no text: both texts are there and blank. */
  predicate NoText(d: PostDraft) {
    BlankText(d.title) && BlankText(d.bodyText)
  }

  /** The draft has no images: both lists are there and empty. */
  predicate NoImages(d: PostDraft) {
    NoneCounted(d.titleImages) && NoneCounted(d.extraImages)
  }

  /** The four types are the four combinations of "no text" and "no images". */
  lemma ClassifyTable(d: PostDraft)
    ensures ClassifyPost(d) == Empty <==> NoText(d) && NoImages(d)
    ensures ClassifyPost(d) == Blog <==> !NoText(d) && NoImages(d)
    ensures ClassifyPost(d) == Gallery <==> NoText(d) && !NoImages(d)
    ensures ClassifyPost(d) == Mixed <==> !NoText(d) && !NoImages(d)
  {
  }

  /** A missing title or body counts as text, and missing image lists count as
      images: such a draft is never `empty`, and never `gallery` without text. */
  lemma MissingFieldsNeverMatch(d: PostDraft)
    requires d.title.None? || d.titleImages.None?
    ensures ClassifyPost(d) != Empty
    ensures d.title.None? ==> ClassifyPost(d) in {Blog, Mixed}
    ensures d.titleImages.None? ==> ClassifyPost(d) in {Gallery, Mixed}
  {
  }

  /** Only the trimmed texts matter: padding a title with spaces changes nothing. */
  lemma ClassifyIgnoresPadding(d: PostDraft, pad: string)
    requires d.title.Some?
    requires forall i :: 0 <= i < |pad| ==> IsJsSpace(pad[i])
    ensures ClassifyPost(d.(title := Some(pad + d.title.value + pad))) == ClassifyPost(d)
  {
    var t := d.title.value;
    var padded := pad + t + pad;
    TrimEmpty(t);
    TrimEmpty(padded);
    if Trim(t) != "" {
      var i :| 0 <= i < |t| && !IsJsSpace(t[i]);
      assert padded[|pad| + i] == t[i];
    } else {
      forall i | 0 <= i < |padded| ensures IsJsSpace(padded[i]) {
        if i < |pad| {
        } else if i < |pad| + |t| {
          assert padded[i] == t[i - |pad|];
        } else {
          assert padded[i] == pad[i - |pad| - |t|];
        }
      }
    }
  }

  const ErrorOutlineClasses := "outline-2 outline-red-400 focus:outline-red-400"

  /** `useErrorOutline(displayErrors, fieldName)`: the red outline classes while the
      field's error is shown, otherwise `''`. The field's entry is its message, or
      missing. */
  function ErrorOutline(displayErrors: map<string, string>, fieldName: string): (r: string)
    ensures r == ErrorOutlineClasses <==> fieldName in displayErrors && displayErrors[fieldName] != ""
    ensures r == "" <==> !(fieldName in displayErrors && displayErrors[fieldName] != "")
  {
    if Truthy(if fieldName in displayErrors then Some(displayErrors[fieldName]) else None)
    then ErrorOutlineClasses else ""
  }
}
