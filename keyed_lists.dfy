/**
 * The comment and history stores of the two in-memory front-end back ends
 * (inspection_front-main/src/api/inspectionAPI.js and
 * inspection_front-main/src/api/qualityApi.js): plain objects whose property
 * keys are the parent ids and whose values are lists of records.
 */
module KeyedLists {
  import opened JsSemantics
  import opened Collections

  /** A comment `{ user, text, date }` or a history entry `{ user, action, date }`. */
  function Note(user: string, field: string, text: string, date: string): Obj {
    Obj(["user", field, "date"], map["user" := Str(user), field := Str(text), "date" := Str(date)])
  }
  /** `lists[id] || []`: the list stored under the property key of `id`, or an empty list. */
  function ListOf(lists: map<string, seq<Obj>>, id: JsValue): seq<Obj> {
    if ToJsString(id) in lists then lists[ToJsString(id)] else []
  }

  /** A parent nothing was ever added for reads as an empty list, and never as an error. */
  lemma UnknownParentReadsEmpty(lists: map<string, seq<Obj>>, id: JsValue)
    requires ToJsString(id) !in lists
    ensures ListOf(lists, id) == []
  {
  }

  /** `if (!lists[id]) lists[id] = []; lists[id].push(x)`. */
  function AppendTo(lists: map<string, seq<Obj>>, id: JsValue, x: Obj): map<string, seq<Obj>> {
    lists[ToJsString(id) := ListOf(lists, id) + [x]]
  }

  /**
   * Appending puts `x` at the end of that parent's list, starting a list for a
   * parent that had none, and every other parent reads as before.
   */
  lemma AppendToFrame(lists: map<string, seq<Obj>>, id: JsValue, other: JsValue, x: Obj)
    ensures ToJsString(id) !in lists ==> ListOf(AppendTo(lists, id, x), id) == [x]
    ensures ListOf(AppendTo(lists, id, x), id) == ListOf(lists, id) + [x]
    ensures ToJsString(other) != ToJsString(id) ==> ListOf(AppendTo(lists, id, x), other) == ListOf(lists, other)
    ensures (AppendTo(lists, id, x)).Keys == lists.Keys + {ToJsString(id)}
  {
  }

  /** Creating the missing list and then pushing onto it is `AppendTo`. */
  lemma CreateThenPush(lists: map<string, seq<Obj>>, id: JsValue, x: Obj)
    ensures var created := if ToJsString(id) in lists then lists else lists[ToJsString(id) := []];
      created[ToJsString(id) := created[ToJsString(id)] + [x]] == AppendTo(lists, id, x)
    ensures ListOf(AppendTo(lists, id, x), id) == ListOf(lists, id) + [x]
  {
  }

  /** The records with an id other than `commentId`: `filter(c => c.id !== commentId)`. */
  function KeepOthers(comments: seq<Obj>, commentId: JsValue): seq<Obj> {
    Filter(comments, c => !StrictEq(Get(c, "id"), commentId))
  }

  /**
   * The filter shortens the list exactly when some record has that id; what
   * remains is every copy of each other record, in their order.
   */
  lemma KeepOthersRemoves(comments: seq<Obj>, commentId: JsValue)
    ensures |KeepOthers(comments, commentId)| < |comments| <==>
      exists i :: 0 <= i < |comments| && StrictEq(Get(comments[i], "id"), commentId)
    ensures forall c :: c in KeepOthers(comments, commentId) <==> c in comments && !StrictEq(Get(c, "id"), commentId)
    ensures IsSubsequence(KeepOthers(comments, commentId), comments)
    ensures forall c :: multiset(KeepOthers(comments, commentId))[c] ==
                        if StrictEq(Get(c, "id"), commentId) then 0 else multiset(comments)[c]
  {
    var p := c => !StrictEq(Get(c, "id"), commentId);
    FilterMultiset(comments, p);
    FilterLength(comments, p);
    FilterIsSubsequence(comments, p);
    forall c
      ensures c in KeepOthers(comments, commentId) <==> c in comments && !StrictEq(Get(c, "id"), commentId)
    {
      FilterMembership(comments, p, c);
    }
  }
}
