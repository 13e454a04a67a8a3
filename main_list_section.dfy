/**
 * The detailed inspection list of inspection_front-main
 * (inspection_front-main/src/components/ListSection/ListSection.jsx): the
 * four-filter chain over the joined rows, the option lists that are refreshed
 * only from a non-empty list, and `handleSuccess`, which upserts by `id`.
 */
module MainListSection {
  import opened JsSemantics
  import opened Collections
  import opened ListState

  /** The filtered properties, in the order the chain applies them. */
  const Fields: seq<string> := ["manager", "company", "partName", "status"]

  /** The fixed status options. */
  const StatusOptions: seq<JsValue> := [All, Str("delayed"), Str("inProgress"), Str("completed")]

  datatype FilterOptions = FilterOptions(managers: seq<JsValue>, companies: seq<JsValue>,
                                         partNames: seq<JsValue>, statuses: seq<JsValue>)

  /** The state before the first fetch: every filter `'all'`, no data options yet. */
  function InitialFilters(): (f: Obj)
    ensures forall i :: 0 <= i < |Fields| ==> Get(f, Fields[i]) == All
  {
    AllFilters(Fields)
  }

  const InitialOptions: FilterOptions := FilterOptions([], [], [], StatusOptions)

  /**
   * `filteredInspections`: the rows, in their order, that pass every filter
   * among manager, company, partName and status.
   */
  function FilteredInspections(all: seq<Obj>, filters: Obj): (r: seq<Obj>)
    ensures r == Filter(all, item => Matches(item, filters, Fields))
    ensures IsSubsequence(r, all)
  {
    FilterChainConjunctive(all, filters, Fields);
    FilterIsSubsequence(all, item => Matches(item, filters, Fields));
    FilterChain(all, filters, Fields)
  }

  /** With the initial filters the whole list is shown. */
  lemma InitialFiltersShowAll(all: seq<Obj>)
    ensures FilteredInspections(all, InitialFilters()) == all
  {
    FilterChainAllIsIdentity(all, InitialFilters(), Fields);
  }

  /**
   * The option refresh of the filter effect: only a non-empty list replaces
   * the manager, company and part-name options; the status options never change.
   */
  function RefreshOptions(prev: FilterOptions, all: seq<Obj>): (r: FilterOptions)
    ensures r.statuses == prev.statuses
    ensures |all| == 0 ==> r == prev
    ensures |all| > 0 ==>
      IsOptionList(r.managers, all, "manager") && IsOptionList(r.companies, all, "company")
      && IsOptionList(r.partNames, all, "partName")
  {
    if |all| > 0 then
      prev.(managers := OptionList(all, "manager"), companies := OptionList(all, "company"),
            partNames := OptionList(all, "partName"))
    else prev
  }

  // ---------------------------------------------------------------- handleSuccess

  /**
   * Two inspections added one after the other both come back from
   * `addInspection` without an `id`; since `undefined === undefined`, the
   * second add finds the first one and overwrites it, and the first entry
   * vanishes from the list.
   */
  lemma IdlessAddsOverwrite(prev: seq<Obj>, first: Obj, second: Obj)
    requires forall k :: 0 <= k < |prev| ==> Get(prev[k], "id") != Undefined
    requires Get(first, "id") == Undefined && Get(second, "id") == Undefined
    ensures Upserted(Upserted(prev, first), second) == [second] + prev
  {
    assert Upserted(prev, first) == [first] + prev;
  }

  /**
   * The upsert as the comment at the `else` branch describes it: an entry
   * without an `id`, like a new one, is added in front; an entry with an
   * `id` replaces the item with that id, or is added when there is none.
   */
  function UpsertKeepingNew(prev: seq<Obj>, entry: Obj): (next: seq<Obj>)
    ensures Get(entry, "id") == Undefined ==> next == [entry] + prev
    ensures Get(entry, "id") != Undefined ==> next == Upserted(prev, entry)
  {
    if Get(entry, "id") == Undefined then [entry] + prev else Upserted(prev, entry)
  }

  /** With the id-less case added, two new entries are both kept, newest first. */
  lemma IdlessAddsKept(prev: seq<Obj>, first: Obj, second: Obj)
    requires Get(first, "id") == Undefined && Get(second, "id") == Undefined
    ensures UpsertKeepingNew(UpsertKeepingNew(prev, first), second) == [second, first] + prev
    ensures |UpsertKeepingNew(UpsertKeepingNew(prev, first), second)| == |prev| + 2
  {
  }

  /**
   * `handleSuccess(updatedOrNewEntry)`: the copy-and-assign upsert, with an
   * entry that has no `id` added in front.
   */
  method HandleSuccess(prev: seq<Obj>, entry: Obj) returns (next: seq<Obj>)
    ensures next == UpsertKeepingNew(prev, entry)
  {
    if Get(entry, "id") == Undefined {
      next := [entry] + prev;
    } else {
      next := Upsert(prev, entry);
    }
  }

  /** An entry added in front shows at the top of the filtered list exactly when it passes the filters. */
  lemma NewEntryShown(prev: seq<Obj>, entry: Obj, filters: Obj)
    requires Get(entry, "id") == Undefined
    ensures FilteredInspections(UpsertKeepingNew(prev, entry), filters)
      == (if Matches(entry, filters, Fields) then [entry] else []) + FilteredInspections(prev, filters)
  {
    PrependFiltered(prev, entry, filters, Fields);
  }
}
