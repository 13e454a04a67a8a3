/**
 * The earlier quality-improvement mock of inspection_front
 * (inspection_front/src/api/qualityApi.js): the same items as the later
 * version, a status rule that compares `progress` strictly and the end date
 * against the current instant, the KPI summary and the front insertion.
 */
module FrontQualityApi {
  import opened JsSemantics
  import opened StatusRules
  import MockQualityApi

  /**
   * `getStatus(item)`: completed when `item.progress === 100`; otherwise
   * delayed when `new Date(item.endDate) < new Date()`; otherwise in progress.
   */
  function FrontQualityStatus(item: Obj, clock: Clock): (r: StatusKey)
    ensures r == Completed <==> StrictEq(Get(item, "progress"), Num(100))
    ensures r == Delayed <==> !StrictEq(Get(item, "progress"), Num(100)) && BeforeNow(Get(item, "endDate"), clock)
  {
    if StrictEq(Get(item, "progress"), Num(100)) then Completed
    else if BeforeNow(Get(item, "endDate"), clock) then Delayed
    else InProgress
  }

  /**
   * Unlike the deadline rule of the inspection mock, this rule does not ask
   * for progress below 100: the two disagree exactly on an overdue item whose
   * progress is neither 100 nor a number below it.
   */
  lemma FrontQualityVersusDeadline(item: Obj, clock: Clock)
    ensures FrontQualityStatus(item, clock) != DeadlineStatus(Get(item, "progress"), Get(item, "endDate"), clock) <==>
      !StrictEq(Get(item, "progress"), Num(100)) && BeforeNow(Get(item, "endDate"), clock)
      && !Below(Get(item, "progress"), 100)
  {
  }

  /** `getQualityItems()`: the same items in the same order, each with `status` added. */
  function FrontQualityItems(data: seq<Obj>, clock: Clock): (items: seq<Obj>)
    ensures |items| == |data|
    ensures forall i :: 0 <= i < |data| ==> Get(items[i], "status") == KeyValue(FrontQualityStatus(data[i], clock))
    ensures forall i, k :: 0 <= i < |data| && k != "status" ==> Get(items[i], k) == Get(data[i], k)
  {
    seq(|data|, i requires 0 <= i < |data| => Put(data[i], "status", KeyValue(FrontQualityStatus(data[i], clock))))
  }

  function Statuses(data: seq<Obj>, clock: Clock): (ks: seq<StatusKey>)
    ensures |ks| == |data|
    ensures forall i :: 0 <= i < |data| ==> ks[i] == FrontQualityStatus(data[i], clock)
  {
    seq(|data|, i requires 0 <= i < |data| => FrontQualityStatus(data[i], clock))
  }

  /** `getQualityKpiSummary()`. */
  function FrontQualityKpiSummary(data: seq<Obj>, clock: Clock): KpiSummary {
    KpiSummary(Tally(KeyValues(Statuses(data, clock))), |data|)
  }

  /** Each count is the number of items with that status, and the counts add up to the total. */
  lemma FrontQualityKpiCounts(data: seq<Obj>, clock: Clock)
    ensures FrontQualityKpiSummary(data, clock).counts.completed == multiset(Statuses(data, clock))[Completed]
    ensures FrontQualityKpiSummary(data, clock).counts.inProgress == multiset(Statuses(data, clock))[InProgress]
    ensures FrontQualityKpiSummary(data, clock).counts.delayed == multiset(Statuses(data, clock))[Delayed]
    ensures FrontQualityKpiSummary(data, clock).counts.Sum() == FrontQualityKpiSummary(data, clock).total == |data|
  {
    TallyOfKeys(Statuses(data, clock));
  }

  /** The module's mutable `mockQualityData`. */
  class FrontQualityStore {
    var data: seq<Obj>

    constructor()
      ensures data == MockQualityApi.MockQualityData()
    {
      data := MockQualityApi.MockQualityData();
    }

    /**
     * `addQualityItem(newItemData)`: `{ id: length + 1, ...newItemData }` goes
     * to the front and is returned (`MockQualityApi.NewQualityEntryFields`
     * states which id it carries).
     */
    method AddQualityItem(newItemData: Obj) returns (entry: Obj)
      modifies this
      ensures entry == MockQualityApi.NewQualityEntry(newItemData, |old(data)|)
      ensures data == [entry] + old(data)
    {
      entry := MockQualityApi.NewQualityEntry(newItemData, |data|);
      data := [entry] + data;
    }
  }
}
