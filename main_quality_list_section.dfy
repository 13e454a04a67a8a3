/**
 * The quality-improvement list of inspection_front-main
 * (inspection_front-main/src/components/QualityListSection/QualityListSection.jsx):
 * the three-filter chain, the option lists refreshed only from a non-empty
 * list, and `handleSuccess`, which recomputes the status and upserts by `id`.
 */
module MainQualityListSection {
  import opened JsSemantics
  import opened Collections
  import opened StatusRules
  import opened ListState

  /** The filtered properties, in the order the chain applies them. */
  const Fields: seq<string> := ["manager", "company", "status"]

  datatype FilterOptions = FilterOptions(managers: seq<JsValue>, companies: seq<JsValue>, statuses: seq<JsValue>)

  /** `filteredItems`: the items, in their order, that pass the manager, company and status filters. */
  function FilteredItems(all: seq<Obj>, filters: Obj): (r: seq<Obj>)
    ensures r == Filter(all, item => Matches(item, filters, Fields))
    ensures IsSubsequence(r, all)
  {
    FilterChainConjunctive(all, filters, Fields);
    FilterIsSubsequence(all, item => Matches(item, filters, Fields));
    FilterChain(all, filters, Fields)
  }

  /** Only a non-empty list replaces the manager and company options; the status options never change. */
  function RefreshOptions(prev: FilterOptions, all: seq<Obj>): (r: FilterOptions)
    ensures r.statuses == prev.statuses
    ensures |all| == 0 ==> r == prev
    ensures |all| > 0 ==> IsOptionList(r.managers, all, "manager") && IsOptionList(r.companies, all, "company")
  {
    if |all| > 0 then prev.(managers := OptionList(all, "manager"), companies := OptionList(all, "company"))
    else prev
  }

  /** `{ ...updatedOrNewEntry, status: getStatus(updatedOrNewEntry) }`. */
  function EntryWithStatus(entry: Obj, clock: Clock): (r: Obj)
    ensures Get(r, "status") == KeyValue(ItemDeadlineStatus(entry, clock))
    ensures forall k :: k != "status" ==> Get(r, k) == Get(entry, k)
  {
    WithStatus(entry, ItemDeadlineStatus(entry, clock))
  }

  /**
   * `handleSuccess(updatedOrNewEntry)`: the entry, with its status recomputed,
   * replaces the first item with the same `id` in a copy of the list, or goes
   * in front when there is none.
   */
  method HandleSuccess(prev: seq<Obj>, entry: Obj, clock: Clock) returns (next: seq<Obj>)
    ensures next == Upserted(prev, EntryWithStatus(entry, clock))
  {
    var entryWithStatus := EntryWithStatus(entry, clock);
    next := Upsert(prev, entryWithStatus);
  }

  /**
   * After `handleSuccess` the list holds the entry with its recomputed
   * status, whatever status it came with, and has grown by at most one.
   */
  lemma StoredEntryHasFreshStatus(prev: seq<Obj>, entry: Obj, clock: Clock)
    ensures EntryWithStatus(entry, clock) in Upserted(prev, EntryWithStatus(entry, clock))
    ensures |Upserted(prev, EntryWithStatus(entry, clock))| <= |prev| + 1
  {
    var e := EntryWithStatus(entry, clock);
    var next := Upserted(prev, e);
    if forall k :: 0 <= k < |prev| ==> !SameId(prev[k], e) {
      assert next[0] == e;
    }
  }
}
