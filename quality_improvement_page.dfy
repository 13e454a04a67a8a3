/**
 * The list on the quality-improvement page of inspection_front
 * (inspection_front/src/pages/QualityImprovement.jsx): the fetch that sets the
 * list and the manager and company options, the three-filter chain, and the
 * `handleSuccess` that puts the new item, with its computed status, in front.
 */
module QualityImprovementPage {
  import opened JsSemantics
  import opened Collections
  import opened StatusRules
  import opened ListState
  import MainQualityListSection

  /** The state the fetch writes: the list and the options. */
  datatype PageList = PageList(all: seq<Obj>, options: MainQualityListSection.FilterOptions)

  /**
   * The fetch on mount: the list becomes the fetched items and the manager and
   * company options are derived from them, whether or not there are any; the
   * status options stay the fixed ones.
   */
  function Loaded(prev: PageList, data: seq<Obj>): (r: PageList)
    ensures r.all == data && r.options.statuses == prev.options.statuses
    ensures IsOptionList(r.options.managers, data, "manager") && IsOptionList(r.options.companies, data, "company")
  {
    PageList(data, prev.options.(managers := OptionList(data, "manager"), companies := OptionList(data, "company")))
  }

  /** Loading no items leaves only `'all'` in the manager and company options. */
  lemma EmptyLoadLeavesOnlyAll(prev: PageList)
    ensures Loaded(prev, []).options.managers == [All]
    ensures Loaded(prev, []).options.companies == [All]
  {
  }

  /**
   * `handleSuccess(newItem)`: `[{ ...newItem, status: getStatus(newItem) }, ...prev]`,
   * so the new item is first, with the status the deadline rule gives it.
   */
  function HandleSuccess(prev: seq<Obj>, newItem: Obj, clock: Clock): (next: seq<Obj>)
    ensures |next| == |prev| + 1 && next[1..] == prev
    ensures Get(next[0], "status") == KeyValue(ItemDeadlineStatus(newItem, clock))
    ensures forall k :: k != "status" ==> Get(next[0], k) == Get(newItem, k)
  {
    [WithStatus(newItem, ItemDeadlineStatus(newItem, clock))] + prev
  }

  /**
   * The page's filter chain over manager, company and status is the one of the
   * later list component, so a new item shows at the top exactly when it passes.
   */
  lemma NewItemShown(prev: seq<Obj>, newItem: Obj, filters: Obj, clock: Clock)
    ensures MainQualityListSection.FilteredItems(HandleSuccess(prev, newItem, clock), filters)
      == (if Matches(HandleSuccess(prev, newItem, clock)[0], filters, MainQualityListSection.Fields)
          then [HandleSuccess(prev, newItem, clock)[0]] else [])
         + MainQualityListSection.FilteredItems(prev, filters)
  {
    var next := HandleSuccess(prev, newItem, clock);
    assert next == [next[0]] + prev;
    PrependFiltered(prev, next[0], filters, MainQualityListSection.Fields);
  }
}
