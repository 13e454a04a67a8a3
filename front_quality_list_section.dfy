/**
 * The quality list component of inspection_front
 * (inspection_front/src/components/QualityListSection/QualityListSection.jsx):
 * the items from its props get their status from `calculateStatus`, then pass
 * through the username, company_name and status filters.
 */
module FrontQualityListSection {
  import opened JsSemantics
  import opened Collections
  import opened StatusRules
  import opened ListState

  /** The filtered properties, in the order the chain applies them. */
  const Fields: seq<string> := ["username", "company_name", "status"]

  datatype FilterOptions = FilterOptions(usernames: seq<JsValue>, companyNames: seq<JsValue>, statuses: seq<JsValue>)

  /**
   * `items.map(item => ({ ...item, status: calculateStatus(item) }))`: the
   * computed status overrides any status the item came with.
   */
  function Processed(items: seq<Obj>, clock: Clock): (r: seq<Obj>)
    ensures |r| == |items|
    ensures forall i :: 0 <= i < |items| ==> Get(r[i], "status") == KeyValue(CalculateStatus(items[i], clock))
    ensures forall i, k :: 0 <= i < |items| && k != "status" ==> Get(r[i], k) == Get(items[i], k)
  {
    seq(|items|, i requires 0 <= i < |items| => WithStatus(items[i], CalculateStatus(items[i], clock)))
  }

  /** `filteredItems`: the processed items, in their order, that pass every filter. */
  function FilteredItems(items: seq<Obj>, filters: Obj, clock: Clock): (r: seq<Obj>)
    ensures r == Filter(Processed(items, clock), item => Matches(item, filters, Fields))
    ensures IsSubsequence(r, Processed(items, clock))
  {
    FilterChainConjunctive(Processed(items, clock), filters, Fields);
    FilterIsSubsequence(Processed(items, clock), item => Matches(item, filters, Fields));
    FilterChain(Processed(items, clock), filters, Fields)
  }

  /** Under a status filter other than `'all'`, every item shown has that computed status. */
  lemma StatusFilterUsesComputedStatus(items: seq<Obj>, filters: Obj, clock: Clock, k: StatusKey)
    requires Get(filters, "status") == KeyValue(k)
    ensures forall item :: item in FilteredItems(items, filters, clock) ==>
      exists i :: 0 <= i < |items| && item == Processed(items, clock)[i] && CalculateStatus(items[i], clock) == k
  {
    var p := Processed(items, clock);
    var shown := FilteredItems(items, filters, clock);
    forall item | item in shown
      ensures exists i :: 0 <= i < |items| && item == p[i] && CalculateStatus(items[i], clock) == k
    {
      FilterMembership(p, x => Matches(x, filters, Fields), item);
      var i :| 0 <= i < |p| && p[i] == item;
      assert PassesField(item, filters, Fields[2]);
      assert KeyValue(CalculateStatus(items[i], clock)) == KeyValue(k);
      assert KeyOf(KeyValue(CalculateStatus(items[i], clock))) == KeyOf(KeyValue(k));
      KeyOfKeyValue(k);
      KeyOfKeyValue(CalculateStatus(items[i], clock));
    }
  }

  /** The usernames and company names are refreshed only from non-empty items; statuses never change. */
  function RefreshOptions(prev: FilterOptions, items: seq<Obj>): (r: FilterOptions)
    ensures r.statuses == prev.statuses
    ensures |items| == 0 ==> r == prev
    ensures |items| > 0 ==> IsOptionList(r.usernames, items, "username") && IsOptionList(r.companyNames, items, "company_name")
  {
    if |items| > 0 then prev.(usernames := OptionList(items, "username"), companyNames := OptionList(items, "company_name"))
    else prev
  }
}
