/**
 * The two detail modals of inspection_front-main
 * (inspection_front-main/src/components/InspectionDetailModal/InspectionDetailModal.jsx
 * and inspection_front-main/src/components/QualityDetailModal/QualityDetailModal.jsx):
 * the edit submit that writes one history line per labelled field that
 * changed, the edit permission, and the comment add and delete on the
 * modal's own list. The two differ only in their label maps and back end.
 */
module DetailModals {
  import opened Wrappers
  import Text
  import opened JsSemantics
  import opened Collections
  import opened KeyedLists

  /** `keyToLabelMap`: the property keys that are audited, each with its label. */
  type Labels = seq<(string, string)>

  const InspectionLabels: Labels :=
    [("company", "업체명"), ("partName", "부품명"), ("defectCount", "불량품 수량"), ("reason", "불량 사유"),
     ("solution", "조치 방법"), ("dueDate", "목표일"), ("progress", "진행률")]

  const QualityLabels: Labels :=
    [("company", "업체명"), ("improvementItem", "개선항목"), ("startDate", "시작일"), ("endDate", "마감일"),
     ("progress", "진행률")]

  /** `keyToLabelMap[key]`: the label of the first entry for the key, if there is one. */
  function LabelOf(labels: Labels, key: string): (r: Option<string>)
    ensures r.Some? <==> exists i :: 0 <= i < |labels| && labels[i].0 == key
    ensures r.Some? ==> exists i :: 0 <= i < |labels| && labels[i] == (key, r.value)
  {
    if labels == [] then None
    else if labels[0].0 == key then Some(labels[0].1)
    else LabelOf(labels[1..], key)
  }

  /** `formData[key] !== item[key] && keyToLabelMap[key]`. */
  predicate Audited(form: Obj, item: Obj, labels: Labels, key: string) {
    !StrictEq(Get(form, key), Get(item, key)) && LabelOf(labels, key).Some?
  }

  /** `` `[${label}] 항목 수정: '${item[key]}' -> '${formData[key]}'` ``. */
  function ChangeLine(caption: string, before: JsValue, after: JsValue): string {
    "[" + caption + "] 항목 수정: '" + ToJsString(before) + "' -> '" + ToJsString(after) + "'"
  }

  /** The line of an audited key. */
  function LineFor(form: Obj, item: Obj, labels: Labels, key: string): string
    requires LabelOf(labels, key).Some?
  {
    ChangeLine(LabelOf(labels, key).value, Get(item, key), Get(form, key))
  }

  /** The lines the loop has pushed after visiting `keys`, in the order visited. */
  function ChangeLines(form: Obj, item: Obj, labels: Labels, keys: seq<string>): seq<string>
    decreases |keys|
  {
    if keys == [] then []
    else
      var last := keys[|keys| - 1];
      ChangeLines(form, item, labels, keys[..|keys| - 1])
        + (if Audited(form, item, labels, last) then [LineFor(form, item, labels, last)] else [])
  }

  /** The keys that produce a line, in the order of the form's keys. */
  function AuditedKeys(form: Obj, item: Obj, labels: Labels): (ks: seq<string>)
    ensures forall k :: k in ks <==> k in form.keys && Audited(form, item, labels, k)
  {
    var p := k => Audited(form, item, labels, k);
    forall k {
      FilterMembership(form.keys, p, k);
    }
    Filter(form.keys, p)
  }

  /**
   * The lines are exactly one per audited key, each naming that key's label,
   * old value and new value, in key order.
   */
  lemma {:induction false} ChangeLinesPerKey(form: Obj, item: Obj, labels: Labels, keys: seq<string>)
    ensures var ks := Filter(keys, k => Audited(form, item, labels, k));
      |ChangeLines(form, item, labels, keys)| == |ks|
      && forall i :: 0 <= i < |ks| ==> ChangeLines(form, item, labels, keys)[i] == LineFor(form, item, labels, ks[i])
    decreases |keys|
  {
    var p := k => Audited(form, item, labels, k);
    if keys != [] {
      var init := keys[..|keys| - 1];
      var last := keys[|keys| - 1];
      ChangeLinesPerKey(form, item, labels, init);
      assert keys == init + [last];
      FilterAppend(init, [last], p);
      assert Filter([last], p) == if p(last) then [last] else [];
    }
  }

  /** No line at all exactly when no labelled key of the form differs from the item. */
  lemma NoLinesIffUnchanged(form: Obj, item: Obj, labels: Labels)
    ensures ChangeLines(form, item, labels, form.keys) == [] <==>
      forall k :: k in form.keys ==> !Audited(form, item, labels, k)
  {
    ChangeLinesPerKey(form, item, labels, form.keys);
    var ks := AuditedKeys(form, item, labels);
    if ks != [] {
      assert ks[0] in ks;
    }
  }

  /**
   * The loop `for (const key in formData) if (...) changes.push(...)`, over
   * the form's keys in their order.
   */
  method Diff(form: Obj, item: Obj, labels: Labels) returns (changes: seq<string>)
    ensures changes == ChangeLines(form, item, labels, form.keys)
  {
    changes := [];
    var i := 0;
    while i < |form.keys|
      invariant 0 <= i <= |form.keys|
      invariant changes == ChangeLines(form, item, labels, form.keys[..i])
    {
      var key := form.keys[i];
      assert form.keys[..i + 1][..i] == form.keys[..i];
      if !StrictEq(Get(form, key), Get(item, key)) {
        var caption := LabelOf(labels, key);
        if caption.Some? {
          changes := changes + [ChangeLine(caption.value, Get(item, key), Get(form, key))];
        }
      }
      i := i + 1;
    }
    assert form.keys[..i] == form.keys;
  }

  /** The history record and the value handed to `onSuccess` after an edit submit. */
  datatype SubmitEffects = SubmitEffects(historyEntry: Option<Obj>, succeeded: Obj)

  /**
   * `handleUpdateSubmit`: the history entry `{ user, action, date }` with the
   * lines joined by `', '` is written only when there are lines and a user;
   * `onSuccess(formData)` and `onClose()` follow in every case.
   */
  method HandleUpdateSubmit(form: Obj, item: Obj, labels: Labels, userName: Option<string>, today: string)
    returns (effects: SubmitEffects)
    ensures effects.succeeded == form
    ensures effects.historyEntry.Some? <==> ChangeLines(form, item, labels, form.keys) != [] && userName.Some?
    ensures effects.historyEntry.Some? ==>
      effects.historyEntry.value == Note(userName.value, "action", Text.JoinWith(ChangeLines(form, item, labels, form.keys), ", "), today)
  {
    var changes := Diff(form, item, labels);
    if |changes| > 0 && userName.Some? {
      effects := SubmitEffects(Some(Note(userName.value, "action", Text.JoinWith(changes, ", "), today)), form);
    } else {
      effects := SubmitEffects(None, form);
    }
  }

  /** `canEdit = user && user.name === item.manager`. */
  predicate CanEdit(userName: Option<string>, item: Obj) {
    userName.Some? && StrictEq(Str(userName.value), Get(item, "manager"))
  }

  /** `{ user: user.name, text: newComment, date }`. */
  function CommentData(userName: string, text: string, today: string): Obj {
    Note(userName, "text", text, today)
  }

  /**
   * `handleCommentSubmit`: a blank text or a missing user changes nothing;
   * otherwise the record the back end returned goes at the end.
   */
  function SubmitComment(comments: seq<Obj>, text: string, userName: Option<string>, added: Obj): (r: seq<Obj>)
    ensures Blank(text) || userName.None? ==> r == comments
    ensures !Blank(text) && userName.Some? ==> r == comments + [added]
  {
    TrimEmptyIffBlank(text);
    if Trim(text) == "" || userName.None? then comments else comments + [added]
  }

  /**
   * With the inspection back end, which stores the submitted record and
   * returns it, the modal's list stays the one the store holds for the item.
   */
  lemma SubmitKeepsListInStep(lists: map<string, seq<Obj>>, itemId: JsValue, text: string, userName: string, today: string)
    requires !Blank(text)
    ensures SubmitComment(ListOf(lists, itemId), text, Some(userName), CommentData(userName, text, today))
      == ListOf(AppendTo(lists, itemId, CommentData(userName, text, today)), itemId)
  {
    AppendToFrame(lists, itemId, itemId, CommentData(userName, text, today));
  }

  /** `setComments(prev => prev.filter(c => c.id !== commentId))` after a resolved delete. */
  function DeleteLocal(comments: seq<Obj>, commentId: JsValue): (r: seq<Obj>)
    ensures forall c :: c in r <==> c in comments && !StrictEq(Get(c, "id"), commentId)
    ensures IsSubsequence(r, comments)
    ensures forall c :: multiset(r)[c] == if StrictEq(Get(c, "id"), commentId) then 0 else multiset(comments)[c]
  {
    KeepOthersRemoves(comments, commentId);
    KeepOthers(comments, commentId)
  }

  /**
   * The comments the inspection back end stores carry no `id`, so the delete
   * button passes `undefined`, and every comment of the list goes.
   */
  lemma IdlessDeleteRemovesAll(comments: seq<Obj>)
    requires forall i :: 0 <= i < |comments| ==> Get(comments[i], "id") == Undefined
    ensures DeleteLocal(comments, Undefined) == []
  {
  }

  /** The one comment the button belongs to, identified by its place in the list. */
  function RemoveComment(comments: seq<Obj>, index: nat): (r: seq<Obj>)
    requires index < |comments|
    ensures |r| == |comments| - 1
    ensures multiset(r) == multiset(comments) - multiset{comments[index]}
    ensures r[..index] == comments[..index] && r[index..] == comments[index + 1..]
  {
    assert comments == comments[..index] + [comments[index]] + comments[index + 1..];
    comments[..index] + comments[index + 1..]
  }

  /** Removing by place deletes exactly one comment even when none has an id. */
  lemma RemoveOneOfIdless(comments: seq<Obj>, index: nat)
    requires index < |comments| && |comments| >= 2
    requires forall i :: 0 <= i < |comments| ==> Get(comments[i], "id") == Undefined
    ensures RemoveComment(comments, index) != [] && |RemoveComment(comments, index)| == |comments| - 1
  {
  }
}
