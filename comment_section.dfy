/**
 * The comment thread of inspection_front
 * (inspection_front/src/components/CommentSection/CommentSection.jsx): fetch
 * only for a parent, append on post, filter on delete, leave edit mode on
 * update, and edit and delete controls for the author only.
 */
module CommentSection {
  import opened Wrappers
  import opened JsSemantics
  import opened Collections
  import opened KeyedLists

  /** `editingComment`: the id being edited (`null` when none) and its draft content. */
  datatype Editing = Editing(id: JsValue, content: string)

  const NotEditing: Editing := Editing(Null, "")

  const LoadError: string := "댓글을 불러오는데 실패했습니다."

  datatype Thread = Thread(comments: seq<Obj>, draft: string, editing: Editing, error: Option<string>)

  /**
   * `fetchComments`: nothing happens for a falsy `parentId`; a fetched list
   * replaces the comments; a failure only sets the error.
   */
  function FetchComments(t: Thread, parentId: JsValue, fetched: Result<seq<Obj>, string>): (r: Thread)
    ensures Falsy(parentId) ==> r == t
    ensures !Falsy(parentId) && fetched.Success? ==> r == t.(comments := fetched.value)
    ensures !Falsy(parentId) && fetched.Failure? ==> r == t.(error := Some(LoadError))
  {
    if Falsy(parentId) then t
    else match fetched
      case Success(data) => t.(comments := data)
      case Failure(_) => t.(error := Some(LoadError))
  }

  /** Without a parent the outcome of a fetch makes no difference: none is made. */
  lemma NoParentNoFetch(t: Thread, a: Result<seq<Obj>, string>, b: Result<seq<Obj>, string>)
    ensures FetchComments(t, Undefined, a) == FetchComments(t, Undefined, b)
    ensures FetchComments(t, Null, a) == t
  {
  }

  /**
   * `handlePostComment`: a blank draft changes nothing; a successful post puts
   * `result.comment` at the end and clears the draft; a failed one changes nothing.
   */
  function PostComment(t: Thread, result: Result<Obj, string>): (r: Thread)
    ensures Blank(t.draft) || result.Failure? ==> r == t
    ensures !Blank(t.draft) && result.Success? ==>
      r == t.(comments := t.comments + [result.value], draft := "")
  {
    TrimEmptyIffBlank(t.draft);
    if Trim(t.draft) == "" then t
    else match result
      case Success(comment) => t.(comments := t.comments + [comment], draft := "")
      case Failure(_) => t
  }

  /** A successful delete drops the comments with that id and keeps the others, in order. */
  function DeleteComment(t: Thread, commentId: JsValue, confirmed: bool, result: Result<bool, string>): (r: Thread)
    ensures !confirmed || result.Failure? ==> r == t
    ensures confirmed && result.Success? ==>
      r.draft == t.draft && r.editing == t.editing
      && IsSubsequence(r.comments, t.comments)
      && (forall c :: c in r.comments <==> c in t.comments && !StrictEq(Get(c, "id"), commentId))
      && forall c :: multiset(r.comments)[c] == if StrictEq(Get(c, "id"), commentId) then 0 else multiset(t.comments)[c]
  {
    KeepOthersRemoves(t.comments, commentId);
    if confirmed && result.Success? then t.(comments := KeepOthers(t.comments, commentId)) else t
  }

  /**
   * `handleUpdateComment`: a blank draft changes nothing; on success edit mode
   * ends and the list is fetched again for the same parent (`fetched` is the
   * outcome of that fetch, which is not awaited); a failure changes nothing.
   */
  function UpdateComment(t: Thread, parentId: JsValue, result: Result<bool, string>,
                         fetched: Result<seq<Obj>, string>): (r: Thread)
    ensures Blank(t.editing.content) || result.Failure? ==> r == t
    ensures !Blank(t.editing.content) && result.Success? ==>
      r == FetchComments(t, parentId, fetched).(editing := NotEditing)
    ensures !Blank(t.editing.content) && result.Success? ==>
      r.draft == t.draft && r.editing == NotEditing
      && (fetched.Success? && !Falsy(parentId) ==> r.comments == fetched.value && r.error == t.error)
      && (fetched.Failure? || Falsy(parentId) ==> r.comments == t.comments)
  {
    TrimEmptyIffBlank(t.editing.content);
    if Trim(t.editing.content) == "" then t
    else match result
      case Success(_) => FetchComments(t.(editing := NotEditing), parentId, fetched)
      case Failure(_) => t
  }

  /** `user && user.id === comment.user_id && editingComment.id !== comment.id`. */
  predicate ShowControls(userId: Option<JsValue>, comment: Obj, editing: Editing) {
    userId.Some? && StrictEq(userId.value, Get(comment, "user_id")) && !StrictEq(editing.id, Get(comment, "id"))
  }

  /**
   * Only the author sees the controls, never on the comment being edited, and
   * after a successful update they are back on each of the author's comments
   * that has a non-null id.
   */
  lemma ControlsForAuthorOnly(userId: Option<JsValue>, comment: Obj, t: Thread, parentId: JsValue,
                              result: Result<bool, string>, fetched: Result<seq<Obj>, string>)
    ensures ShowControls(userId, comment, t.editing) ==> userId.Some? && StrictEq(userId.value, Get(comment, "user_id"))
    ensures ShowControls(userId, comment, Editing(Get(comment, "id"), t.editing.content)) ==> Get(comment, "id").NaN?
    ensures (!Blank(t.editing.content) && result.Success? && userId.Some?
             && StrictEq(userId.value, Get(comment, "user_id")) && Get(comment, "id") != Null) ==>
      ShowControls(userId, comment, UpdateComment(t, parentId, result, fetched).editing)
  {
  }
}
