/**
 * The in-memory quality-improvement back end of inspection_front-main
 * (inspection_front-main/src/api/qualityApi.js): the improvement items with
 * their day-granular status rule, the KPI summary, the front insertion of a
 * new item, and the comment and history stores keyed by item id.
 */
module MockQualityApi {
  import opened Wrappers
  import Text
  import opened JsSemantics
  import opened StatusRules
  import opened KeyedLists

  // ---------------------------------------------------------------- getStatus

  /**
   * `getStatus(item)`: completed when `parseInt(item.progress, 10) === 100`;
   * otherwise delayed when the end date, set to midnight, is before today's
   * midnight; otherwise in progress. An Invalid Date stays invalid through
   * `setHours` and compares false.
   */
  function QualityStatus(item: Obj, clock: Clock): (r: StatusKey)
    ensures r == Completed <==> StrictEq(ParseInt(Get(item, "progress")), Num(100))
    ensures r == Delayed <==>
      !StrictEq(ParseInt(Get(item, "progress")), Num(100))
      && DateValue(Get(item, "endDate"), clock).Some?
      && DateValue(Get(item, "endDate"), clock).value / DayMs < clock.nowMs / DayMs
  {
    var today := Midnight(clock.nowMs);
    var end := DateValue(Get(item, "endDate"), clock);
    if StrictEq(ParseInt(Get(item, "progress")), Num(100)) then Completed
    else if end.None? then InProgress
    else
      MidnightOrder(end.value, clock.nowMs);
      if Midnight(end.value) < today then Delayed else InProgress
  }

  /** Because of `parseInt`, a progress typed in as the text `"100"` also counts as completed. */
  lemma TextProgressCompletes(item: Obj, clock: Clock)
    requires Get(item, "progress") == Str("100")
    ensures QualityStatus(item, clock) == Completed
  {
    var hundred := "100";
    assert Text.AllDigits(hundred);
    assert Text.DigitsValue(hundred) == 100 by {
      assert hundred[..2] == "10" && "10"[..1] == "1";
    }
    ParseIntStringOfDigits(hundred, hundred, false);
  }

  /** An item due today is not delayed: only a strictly earlier day is. */
  lemma DueTodayNotDelayed(item: Obj, clock: Clock)
    requires DateValue(Get(item, "endDate"), clock) == Some(clock.nowMs)
    ensures QualityStatus(item, clock) != Delayed
  {
  }

  // ---------------------------------------------------------------- getQualityItems

  /** `{ ...item, status: getStatus(item) }`. */
  function WithStatus(item: Obj, clock: Clock): Obj {
    Put(item, "status", KeyValue(QualityStatus(item, clock)))
  }

  /** `getQualityItems()`: the same items in the same order, each with its status added. */
  function GetQualityItems(data: seq<Obj>, clock: Clock): (items: seq<Obj>)
    ensures |items| == |data|
    ensures forall i :: 0 <= i < |data| ==> Get(items[i], "status") == KeyValue(QualityStatus(data[i], clock))
    ensures forall i, k :: 0 <= i < |data| && k != "status" ==> Get(items[i], k) == Get(data[i], k)
  {
    seq(|data|, i requires 0 <= i < |data| => WithStatus(data[i], clock))
  }

  // ---------------------------------------------------------------- getQualityKpiSummary

  function Statuses(data: seq<Obj>, clock: Clock): (ks: seq<StatusKey>)
    ensures |ks| == |data|
    ensures forall i :: 0 <= i < |data| ==> ks[i] == QualityStatus(data[i], clock)
  {
    seq(|data|, i requires 0 <= i < |data| => QualityStatus(data[i], clock))
  }

  /** `getQualityKpiSummary()`: the status tally with `total = mockQualityData.length`. */
  function GetQualityKpiSummary(data: seq<Obj>, clock: Clock): KpiSummary {
    KpiSummary(Tally(KeyValues(Statuses(data, clock))), |data|)
  }

  /** Each count is the number of items with that status, and the counts add up to the total. */
  lemma QualityKpiCounts(data: seq<Obj>, clock: Clock)
    ensures GetQualityKpiSummary(data, clock).counts.completed == multiset(Statuses(data, clock))[Completed]
    ensures GetQualityKpiSummary(data, clock).counts.inProgress == multiset(Statuses(data, clock))[InProgress]
    ensures GetQualityKpiSummary(data, clock).counts.delayed == multiset(Statuses(data, clock))[Delayed]
    ensures GetQualityKpiSummary(data, clock).counts.Sum() == GetQualityKpiSummary(data, clock).total == |data|
  {
    TallyOfKeys(Statuses(data, clock));
  }

  // ---------------------------------------------------------------- addQualityItem

  /** `{ id: length + 1, ...newItemData }`. */
  function NewQualityEntry(newItemData: Obj, length: nat): Obj {
    Spread(Obj(["id"], map["id" := Num(length + 1)]), newItemData)
  }

  /**
   * The new entry's id is `length + 1` unless the submitted data has its own
   * `id`, which the spread lets win; every other property is the submitted one.
   */
  lemma NewQualityEntryFields(newItemData: Obj, length: nat)
    requires WellFormed(newItemData)
    ensures Get(NewQualityEntry(newItemData, length), "id") ==
      if "id" in newItemData.keys then Get(newItemData, "id") else Num(length + 1)
    ensures forall k :: k != "id" ==> Get(NewQualityEntry(newItemData, length), k) == Get(newItemData, k)
  {
  }

  /** `{ ...newComment, id: Date.now() }`, with the clock reading passed in. */
  function WithId(comment: Obj, nowMs: int): Obj {
    Put(Spread(EmptyObj, comment), "id", Num(nowMs))
  }

  /** The stored comment carries the clock reading as its id and otherwise the submitted properties. */
  lemma WithIdFields(comment: Obj, nowMs: int)
    requires WellFormed(comment)
    ensures Get(WithId(comment, nowMs), "id") == Num(nowMs)
    ensures forall k :: k != "id" ==> Get(WithId(comment, nowMs), k) == Get(comment, k)
    ensures WellFormed(WithId(comment, nowMs))
  {
  }

  // ---------------------------------------------------------------- the mutable store

  /** An improvement item literal. */
  function QualityRecord(id: int, manager: string, company: string, improvementItem: string,
                         startDate: string, endDate: string, progress: int): Obj {
    Obj(["id", "manager", "company", "improvementItem", "startDate", "endDate", "progress"],
      map["id" := Num(id), "manager" := Str(manager), "company" := Str(company),
        "improvementItem" := Str(improvementItem), "startDate" := Str(startDate),
        "endDate" := Str(endDate), "progress" := Num(progress)])
  }

  /** The initial improvement items. */
  function MockQualityData(): seq<Obj> {
    [ QualityRecord(1, "김수산", "삼성전자", "디스플레이 패널 색상 균일도 향상을 위한 공정 최적화", "2025-08-01", "2025-09-30", 75),
      QualityRecord(2, "인턴연구원", "현대모비스", "브레이크 패드 마모 소음 감소 신소재 적용 테스트", "2025-07-15", "2025-08-30", 100),
      QualityRecord(3, "김수산", "LG화학", "배터리 셀 에너지 밀도 5% 향상 목표 전해액 성분 변경", "2025-09-01", "2025-11-30", 20) ]
  }

  /** The initial comment lists, keyed by item id. */
  function MockQualityComments(): map<string, seq<Obj>> {
    map["1" := [Note("김수산", "text", "공정 최적화 1차 테스트 완료.", "2025-08-15")],
        "3" := [Note("인턴연구원", "text", "신규 전해액 샘플 도착, 테스트 예정.", "2025-09-05")]]
  }

  /** The initial change histories, keyed by item id. */
  function MockQualityHistory(): map<string, seq<Obj>> {
    map["1" := [Note("김수산", "action", "진행률 변경 (50% -> 75%)", "2025-08-14")]]
  }

  /** The message `deleteQualityComment` rejects with. */
  const ItemNotFound: string := "해당 항목을 찾지 못했습니다."

  /** The module's mutable state: `mockQualityData`, `mockQualityComments` and `mockQualityHistory`. */
  class QualityStore {
    var data: seq<Obj>
    var comments: map<string, seq<Obj>>
    var history: map<string, seq<Obj>>

    constructor()
      ensures data == MockQualityData()
      ensures comments == MockQualityComments() && history == MockQualityHistory()
    {
      data := MockQualityData();
      comments := MockQualityComments();
      history := MockQualityHistory();
    }

    /** `getQualityComments(itemId)`. */
    function GetQualityComments(itemId: JsValue): (r: seq<Obj>)
      reads this
      ensures ToJsString(itemId) in comments ==> r == comments[ToJsString(itemId)]
      ensures ToJsString(itemId) !in comments ==> r == []
    {
      ListOf(comments, itemId)
    }

    /** `getQualityHistory(itemId)`. */
    function GetQualityHistory(itemId: JsValue): (r: seq<Obj>)
      reads this
      ensures ToJsString(itemId) in history ==> r == history[ToJsString(itemId)]
      ensures ToJsString(itemId) !in history ==> r == []
    {
      ListOf(history, itemId)
    }

    /** `addQualityItem(newItemData)`: `unshift` the new entry and resolve with it. */
    method AddQualityItem(newItemData: Obj) returns (entry: Obj)
      modifies this
      ensures entry == NewQualityEntry(newItemData, |old(data)|)
      ensures data == [entry] + old(data)
      ensures comments == old(comments) && history == old(history)
    {
      entry := NewQualityEntry(newItemData, |data|);
      data := [entry] + data;
    }

    /** `addQualityComment(itemId, newComment)`: store the comment with an id taken from the clock, at the end. */
    method AddQualityComment(itemId: JsValue, newComment: Obj, nowMs: int) returns (stored: Obj)
      modifies this
      ensures stored == WithId(newComment, nowMs)
      ensures comments == AppendTo(old(comments), itemId, stored)
      ensures data == old(data) && history == old(history)
      ensures GetQualityComments(itemId) == old(GetQualityComments(itemId)) + [stored]
    {
      stored := WithId(newComment, nowMs);
      var key := ToJsString(itemId);
      var lists := comments;
      if key !in lists {
        lists := lists[key := []];
      }
      lists := lists[key := lists[key] + [stored]];
      CreateThenPush(comments, itemId, stored);
      comments := lists;
    }

    /** `addQualityHistory(itemId, newLog)`. */
    method AddQualityHistory(itemId: JsValue, newLog: Obj) returns (r: Obj)
      modifies this
      ensures history == AppendTo(old(history), itemId, newLog)
      ensures data == old(data) && comments == old(comments)
      ensures r == newLog
      ensures GetQualityHistory(itemId) == old(GetQualityHistory(itemId)) + [newLog]
    {
      var key := ToJsString(itemId);
      var lists := history;
      if key !in lists {
        lists := lists[key := []];
      }
      lists := lists[key := lists[key] + [newLog]];
      CreateThenPush(history, itemId, newLog);
      history := lists;
      r := newLog;
    }

    /**
     * `deleteQualityComment(itemId, commentId)`: rejects only when the item has
     * no list; otherwise drops every comment with that id and resolves, even
     * when none matched.
     */
    method DeleteQualityComment(itemId: JsValue, commentId: JsValue) returns (r: Result<bool, string>)
      modifies this
      ensures data == old(data) && history == old(history)
      ensures ToJsString(itemId) !in old(comments) ==> r == Failure(ItemNotFound) && comments == old(comments)
      ensures ToJsString(itemId) in old(comments) ==>
        r == Success(true)
        && comments == old(comments)[ToJsString(itemId) := KeepOthers(old(comments)[ToJsString(itemId)], commentId)]
      ensures GetQualityComments(itemId) == KeepOthers(old(GetQualityComments(itemId)), commentId)
    {
      var key := ToJsString(itemId);
      if key in comments {
        comments := comments[key := KeepOthers(comments[key], commentId)];
        r := Success(true);
      } else {
        r := Failure(ItemNotFound);
      }
    }
  }
}
