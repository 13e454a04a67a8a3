/**
 * The "my posts" page of inspection_front-main
 * (inspection_front-main/src/pages/MyPosts.jsx): the user's own inspections and
 * quality items, the replace-by-id `handleSuccess` on the list the open modal
 * belongs to, and `closeModal`.
 */
module MyPosts {
  import opened Wrappers
  import opened JsSemantics
  import opened Collections
  import opened ListState
  import DetailModals

  /** `items.filter(item => item.manager === user.name)`: exactly the items the user manages, in order. */
  function OwnItems(items: seq<Obj>, userName: JsValue): (r: seq<Obj>)
    ensures IsSubsequence(r, items)
    ensures forall x :: x in r <==> x in items && StrictEq(Get(x, "manager"), userName)
    ensures forall x :: multiset(r)[x] == if StrictEq(Get(x, "manager"), userName) then multiset(items)[x] else 0
  {
    var p := item => StrictEq(Get(item, "manager"), userName);
    FilterMultiset(items, p);
    FilterIsSubsequence(items, p);
    forall x {
      FilterMembership(items, p, x);
    }
    Filter(items, p)
  }

  /**
   * The page lists exactly the items whose detail modal offers the edit
   * button to the same user, and a signed-out visitor can edit nothing.
   */
  lemma OwnItemsAreEditable(items: seq<Obj>, name: string, item: Obj)
    ensures item in OwnItems(items, Str(name)) <==> item in items && DetailModals.CanEdit(Some(name), item)
    ensures !DetailModals.CanEdit(None, item)
  {
  }

  /** The page state: both lists, the selected item and the modal type (`null`, `'inspection'` or `'quality'`). */
  datatype Page = Page(myInspections: seq<Obj>, myQualityItems: seq<Obj>, selectedItem: Option<Obj>, modalType: JsValue)

  const Initial: Page := Page([], [], None, Null)

  /**
   * The effect on `user`: without a user nothing is fetched and the page is
   * unchanged; with one, both lists become the user's own items.
   */
  function Load(p: Page, user: Option<JsValue>, inspections: seq<Obj>, qualityItems: seq<Obj>): (r: Page)
    ensures user.None? ==> r == p
    ensures user.Some? ==> r == p.(myInspections := OwnItems(inspections, user.value),
                                   myQualityItems := OwnItems(qualityItems, user.value))
  {
    match user
    case None => p
    case Some(name) => p.(myInspections := OwnItems(inspections, name), myQualityItems := OwnItems(qualityItems, name))
  }

  /** `handleRowClick(item, type)`. */
  function RowClick(p: Page, item: Obj, modalType: JsValue): (r: Page)
    ensures r.selectedItem == Some(item) && r.modalType == modalType
    ensures r.myInspections == p.myInspections && r.myQualityItems == p.myQualityItems
  {
    p.(selectedItem := Some(item), modalType := modalType)
  }

  /**
   * `handleSuccess(updatedEntry)`: the list the modal type names has each item
   * with the entry's `id` replaced in place; the other list, and both lists
   * when the modal type is neither, are untouched.
   */
  function HandleSuccess(p: Page, updated: Obj): (r: Page)
    ensures r.selectedItem == p.selectedItem && r.modalType == p.modalType
    ensures StrictEq(p.modalType, Str("inspection")) ==>
      r.myInspections == ReplaceById(p.myInspections, updated) && r.myQualityItems == p.myQualityItems
    ensures StrictEq(p.modalType, Str("quality")) ==>
      r.myQualityItems == ReplaceById(p.myQualityItems, updated) && r.myInspections == p.myInspections
    ensures !StrictEq(p.modalType, Str("inspection")) && !StrictEq(p.modalType, Str("quality")) ==> r == p
  {
    if StrictEq(p.modalType, Str("inspection")) then p.(myInspections := ReplaceById(p.myInspections, updated))
    else if StrictEq(p.modalType, Str("quality")) then p.(myQualityItems := ReplaceById(p.myQualityItems, updated))
    else p
  }

  /** `handleSuccess` keeps both lengths, and with `modalType` null it changes nothing. */
  lemma HandleSuccessKeepsLengths(p: Page, updated: Obj)
    ensures |HandleSuccess(p, updated).myInspections| == |p.myInspections|
    ensures |HandleSuccess(p, updated).myQualityItems| == |p.myQualityItems|
    ensures p.modalType == Null ==> HandleSuccess(p, updated) == p
  {
  }

  /** `closeModal()`: no modal and no selection; the lists stay. */
  function CloseModal(p: Page): (r: Page)
    ensures r.modalType == Null && r.selectedItem.None?
    ensures r.myInspections == p.myInspections && r.myQualityItems == p.myQualityItems
  {
    p.(modalType := Null, selectedItem := None)
  }

  /** After `closeModal`, a later `handleSuccess` changes nothing. */
  lemma SuccessAfterCloseIsNoOp(p: Page, updated: Obj)
    ensures HandleSuccess(CloseModal(p), updated) == CloseModal(p)
  {
  }
}
