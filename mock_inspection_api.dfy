/**
 * The in-memory inspection back end of inspection_front-main
 * (inspection_front-main/src/api/inspectionAPI.js): fixed user, company and
 * product tables, the mutable inspection table and the comment and history
 * lists keyed by inspection id, the joined and sorted list, the KPI summary,
 * and the add and delete operations.
 */
module MockInspectionApi {
  import opened Wrappers
  import opened JsSemantics
  import opened Collections
  import opened StatusRules
  import opened KeyedLists

  // ---------------------------------------------------------------- fixed tables

  datatype User = User(id: int, username: string, name: string)
  datatype Company = Company(id: int, companyName: string)
  datatype Product = Product(id: int, productName: string)

  /**
   * A row of `mockInspections`, one field per column. The table only ever
   * holds rows built by its own literals and by `addInspection`, so its
   * columns are fixed; each holds whatever value was written there.
   */
  datatype InspectionRow = InspectionRow(
    id: JsValue, companyId: JsValue, productId: JsValue, userId: JsValue,
    inspectedQuantity: JsValue, defectiveQuantity: JsValue, defectReason: JsValue, solution: JsValue,
    receivedDate: JsValue, targetDate: JsValue, progressPercentage: JsValue)

  const MockUsers: seq<User> := [User(1, "intern", "인턴연구원"), User(2, "soosan", "김수산")]
  const MockCompanies: seq<Company> := [Company(101, "삼성전자"), Company(102, "LG화학"), Company(103, "현대모비스")]
  const MockProducts: seq<Product> := [Product(201, "디스플레이 패널"), Product(202, "배터리 셀"), Product(203, "브레이크 패드")]

  /** The name shown for a user, company or product that the join cannot resolve. */
  const Unknown: JsValue := Str("알 수 없음")

  /** `mockUsers.find(u => u.id === id)`. */
  function UserById(id: JsValue): Option<User> {
    Find(MockUsers, (u: User) => StrictEq(Num(u.id), id))
  }

  /** `mockUsers.find(u => u.name === name)`. */
  function UserByName(name: JsValue): Option<User> {
    Find(MockUsers, (u: User) => StrictEq(Str(u.name), name))
  }

  /** `mockCompanies.find(c => c.id === id)`. */
  function CompanyById(id: JsValue): Option<Company> {
    Find(MockCompanies, (c: Company) => StrictEq(Num(c.id), id))
  }

  /** `mockProducts.find(p => p.id === id)`. */
  function ProductById(id: JsValue): Option<Product> {
    Find(MockProducts, (p: Product) => StrictEq(Num(p.id), id))
  }

  /** A lookup by id finds a user exactly when some user has that id, and what it finds has it. */
  lemma UserByIdFinds(id: JsValue)
    ensures UserById(id).Some? <==> exists i :: 0 <= i < |MockUsers| && StrictEq(Num(MockUsers[i].id), id)
    ensures UserById(id).Some? ==> UserById(id).value in MockUsers && StrictEq(Num(UserById(id).value.id), id)
  {
  }

  /** A lookup by name finds a user exactly when some user has that name, and what it finds has it. */
  lemma UserByNameFinds(name: JsValue)
    ensures UserByName(name).Some? <==> exists i :: 0 <= i < |MockUsers| && StrictEq(Str(MockUsers[i].name), name)
    ensures UserByName(name).Some? ==> UserByName(name).value in MockUsers && StrictEq(Str(UserByName(name).value.name), name)
  {
  }

  /** The company lookup finds a row exactly when one has that id. */
  lemma CompanyByIdFinds(id: JsValue)
    ensures CompanyById(id).Some? <==> exists i :: 0 <= i < |MockCompanies| && StrictEq(Num(MockCompanies[i].id), id)
    ensures CompanyById(id).Some? ==> StrictEq(Num(CompanyById(id).value.id), id)
  {
  }

  /** The product lookup finds a row exactly when one has that id. */
  lemma ProductByIdFinds(id: JsValue)
    ensures ProductById(id).Some? <==> exists i :: 0 <= i < |MockProducts| && StrictEq(Num(MockProducts[i].id), id)
    ensures ProductById(id).Some? ==> StrictEq(Num(ProductById(id).value.id), id)
  {
  }

  // ---------------------------------------------------------------- getStatus

  /**
   * `getStatus(item)` on a stored inspection: the deadline rule on
   * `progress_percentage` and `target_date`, as its status name.
   */
  function GetStatus(item: InspectionRow, clock: Clock): (s: JsValue)
    ensures KeyOf(s).Some?
  {
    KeyValue(DeadlineStatus(item.progressPercentage, item.targetDate, clock))
  }

  /**
   * Completed exactly when `progress_percentage === 100`; delayed exactly when
   * it is not, the target date lies before now and the progress is below 100.
   */
  lemma GetStatusRule(item: InspectionRow, clock: Clock)
    ensures GetStatus(item, clock) == Str("completed") <==> StrictEq(item.progressPercentage, Num(100))
    ensures GetStatus(item, clock) == Str("delayed") <==>
      !StrictEq(item.progressPercentage, Num(100))
      && BeforeNow(item.targetDate, clock)
      && Below(item.progressPercentage, 100)
  {
  }

  // ---------------------------------------------------------------- getInspections

  /** `user ? user.name : '알 수 없음'` for the inspection's `user_id`. */
  function ManagerName(inspection: InspectionRow): JsValue {
    var user := UserById(inspection.userId);
    if user.Some? then Str(user.value.name) else Unknown
  }

  /** `company ? company.company_name : '알 수 없음'` for the inspection's `company_id`. */
  function CompanyName(inspection: InspectionRow): JsValue {
    var company := CompanyById(inspection.companyId);
    if company.Some? then Str(company.value.companyName) else Unknown
  }

  /** `product ? product.product_name : '알 수 없음'` for the inspection's `product_id`. */
  function PartName(inspection: InspectionRow): JsValue {
    var product := ProductById(inspection.productId);
    if product.Some? then Str(product.value.productName) else Unknown
  }

  /** An id that no user has shows as `'알 수 없음'`; a known id shows that user's name. */
  lemma ManagerNameResolves(inspection: InspectionRow)
    ensures (forall i :: 0 <= i < |MockUsers| ==> !StrictEq(Num(MockUsers[i].id), inspection.userId))
      ==> ManagerName(inspection) == Unknown
    ensures forall i :: 0 <= i < |MockUsers| && StrictEq(Num(MockUsers[i].id), inspection.userId) ==>
              ManagerName(inspection) == Str(MockUsers[i].name)
  {
    UserByIdFinds(inspection.userId);
  }

  /** The object literal of a joined row, field by field. */
  function JoinedRow(id: JsValue, manager: JsValue, company: JsValue, partName: JsValue,
                     defectCount: JsValue, totalCount: JsValue, reason: JsValue, solution: JsValue,
                     receivedDate: JsValue, dueDate: JsValue, progress: JsValue, status: JsValue): (row: Obj)
    ensures Get(row, "id") == id && Get(row, "status") == status
    ensures Get(row, "receivedDate") == receivedDate && Get(row, "progress") == progress
    ensures Get(row, "manager") == manager && Get(row, "company") == company && Get(row, "partName") == partName
    ensures Get(row, "dueDate") == dueDate && Get(row, "defectCount") == defectCount
    ensures Get(row, "totalCount") == totalCount && Get(row, "reason") == reason && Get(row, "solution") == solution
  {
    KeysDiffer("manager", "company", 0);
    KeysDiffer("partName", "solution", 0);
    KeysDiffer("partName", "progress", 1);
    Obj(["id", "manager", "company", "partName", "defectCount", "totalCount", "reason", "solution", "receivedDate", "dueDate", "progress", "status"],
      map["id" := id, "manager" := manager, "company" := company, "partName" := partName,
        "defectCount" := defectCount, "totalCount" := totalCount, "reason" := reason, "solution" := solution,
        "receivedDate" := receivedDate, "dueDate" := dueDate, "progress" := progress, "status" := status])
  }

  /** The row `getInspections` builds for one stored inspection. */
  function JoinRow(inspection: InspectionRow, clock: Clock): (row: Obj)
    ensures Get(row, "id") == inspection.id
    ensures Get(row, "status") == GetStatus(inspection, clock)
    ensures Get(row, "receivedDate") == inspection.receivedDate
    ensures Get(row, "progress") == inspection.progressPercentage
    ensures Get(row, "manager") == ManagerName(inspection)
    ensures Get(row, "company") == CompanyName(inspection)
    ensures Get(row, "partName") == PartName(inspection)
    ensures Get(row, "dueDate") == inspection.targetDate
    ensures Get(row, "defectCount") == inspection.defectiveQuantity
    ensures Get(row, "totalCount") == inspection.inspectedQuantity
    ensures Get(row, "reason") == inspection.defectReason
    ensures Get(row, "solution") == inspection.solution
  {
    JoinedRow(inspection.id, ManagerName(inspection), CompanyName(inspection), PartName(inspection),
      inspection.defectiveQuantity, inspection.inspectedQuantity, inspection.defectReason, inspection.solution,
      inspection.receivedDate, inspection.targetDate, inspection.progressPercentage, GetStatus(inspection, clock))
  }

  /** `mockInspections.map(...)`: one joined row per stored inspection, in table order. */
  function JoinAll(inspections: seq<InspectionRow>, clock: Clock): (rows: seq<Obj>)
    ensures |rows| == |inspections|
    ensures forall i :: 0 <= i < |inspections| ==> rows[i] == JoinRow(inspections[i], clock)
  {
    seq(|inspections|, i requires 0 <= i < |inspections| => JoinRow(inspections[i], clock))
  }

  /** The time value of `new Date(row.receivedDate)`, None for an Invalid Date. */
  function ReceivedTime(row: Obj, clock: Clock): Option<int> {
    DateValue(Get(row, "receivedDate"), clock)
  }

  /**
   * The sort key of the comparator `new Date(b.receivedDate) - new Date(a.receivedDate)`:
   * a negative difference puts the later row first, and a difference with an
   * Invalid Date is `NaN`, which the sort treats as a tie.
   */
  function ReceivedTimes(clock: Clock): Obj -> Option<int> {
    (row: Obj) => ReceivedTime(row, clock)
  }

  /**
   * `joinedData.sort(...)`: `Array.prototype.sort` is stable, modelled as an
   * insertion sort from the left, latest first.
   */
  function SortByReceivedDesc(rows: seq<Obj>, clock: Clock): (r: seq<Obj>)
    ensures multiset(r) == multiset(rows)
    ensures |r| == |rows|
  {
    SortLatestFirst(rows, ReceivedTimes(clock))
  }

  /** Every row has a valid `receivedDate`. */
  predicate AllDated(rows: seq<Obj>, clock: Clock) {
    forall i :: 0 <= i < |rows| ==> ReceivedTime(rows[i], clock).Some?
  }

  /** Latest first: no row is received later than a row before it. */
  predicate SortedDesc(rows: seq<Obj>, clock: Clock) {
    forall i, j :: 0 <= i < j < |rows| && ReceivedTime(rows[i], clock).Some? && ReceivedTime(rows[j], clock).Some? ==>
      ReceivedTime(rows[i], clock).value >= ReceivedTime(rows[j], clock).value
  }

  /**
   * When every `receivedDate` is a valid date, the sorted rows are a
   * rearrangement of the input with the latest received first.
   */
  lemma SortByReceivedDescSorted(rows: seq<Obj>, clock: Clock)
    requires AllDated(rows, clock)
    ensures SortedDesc(SortByReceivedDesc(rows, clock), clock)
    ensures AllDated(SortByReceivedDesc(rows, clock), clock)
  {
    var time := ReceivedTimes(clock);
    assert AllTimed(rows, time);
    SortLatestFirstSorted(rows, time);
    var r := SortByReceivedDesc(rows, clock);
    forall i, j | 0 <= i < j < |r| && ReceivedTime(r[i], clock).Some? && ReceivedTime(r[j], clock).Some?
      ensures ReceivedTime(r[i], clock).value >= ReceivedTime(r[j], clock).value
    {
      assert !Later(r[j], r[i], time);
    }
    assert forall i :: 0 <= i < |r| ==> time(r[i]) == ReceivedTime(r[i], clock);
  }

  /**
   * The sort is stable: when every `receivedDate` is a valid date, rows
   * received at the same time keep their table order.
   */
  lemma SortKeepsSameDateOrder(rows: seq<Obj>, d: int, clock: Clock)
    requires AllDated(rows, clock)
    ensures TimedAt(SortByReceivedDesc(rows, clock), d, ReceivedTimes(clock)) == TimedAt(rows, d, ReceivedTimes(clock))
  {
    assert AllTimed(rows, ReceivedTimes(clock));
    SortKeepsSameTimeOrder(rows, d, ReceivedTimes(clock));
  }

  /** `getInspections()`: the joined rows, latest received first. */
  function GetInspections(inspections: seq<InspectionRow>, clock: Clock): (rows: seq<Obj>)
    ensures multiset(rows) == multiset(JoinAll(inspections, clock))
    ensures |rows| == |inspections|
  {
    SortByReceivedDesc(JoinAll(inspections, clock), clock)
  }

  // ---------------------------------------------------------------- getKpiSummary

  /** The `status` of every row. */
  function StatusColumn(rows: seq<Obj>): (vs: seq<JsValue>)
    ensures |vs| == |rows|
    ensures forall i :: 0 <= i < |rows| ==> vs[i] == Get(rows[i], "status")
  {
    seq(|rows|, i requires 0 <= i < |rows| => Get(rows[i], "status"))
  }

  /** `getKpiSummary()`: the status tally of the joined rows, with `total = inspections.length`. */
  function GetKpiSummary(inspections: seq<InspectionRow>, clock: Clock): (k: KpiSummary)
    ensures k.total == |inspections|
  {
    var rows := GetInspections(inspections, clock);
    KpiSummary(Tally(StatusColumn(rows)), |rows|)
  }

  /** The `status` of every joined row is one of the three status names. */
  lemma JoinedStatusesKnown(inspections: seq<InspectionRow>, clock: Clock)
    ensures forall row :: row in JoinAll(inspections, clock) ==> KeyOf(Get(row, "status")).Some?
  {
    var joined := JoinAll(inspections, clock);
    forall row | row in joined
      ensures KeyOf(Get(row, "status")).Some?
    {
      var j :| 0 <= j < |joined| && joined[j] == row;
    }
  }

  /** Every joined row has one of the three status names, so the three counts add up to the total. */
  lemma KpiSummaryTotal(inspections: seq<InspectionRow>, clock: Clock)
    ensures GetKpiSummary(inspections, clock).counts.Sum() == GetKpiSummary(inspections, clock).total
    ensures GetKpiSummary(inspections, clock).total == |inspections|
  {
    var rows := GetInspections(inspections, clock);
    var joined := JoinAll(inspections, clock);
    JoinedStatusesKnown(inspections, clock);
    forall i | 0 <= i < |rows|
      ensures KeyOf(StatusColumn(rows)[i]).Some?
    {
      SameMembers(rows, joined, rows[i]);
    }
    TallyTotal(StatusColumn(rows));
  }

  // ---------------------------------------------------------------- addInspection

  /** The columns of the inspection table, in the order the literals write them. */
  const TableKeys: seq<string> :=
    ["id", "company_id", "product_id", "user_id", "inspected_quantity", "defective_quantity", "defect_reason", "solution", "received_date", "target_date", "progress_percentage"]

  lemma TableKeysDistinct()
    ensures DistinctKeys(TableKeys)
  {
    KeysDiffer("company_id", "product_id", 0);
    KeysDiffer("inspected_quantity", "defective_quantity", 0);
  }

  /** The table row `addInspection` pushes: a fixed company and product, the manager's user id or 0, parsed counts. */
  function NewDbEntry(data: Obj, tableLength: nat): InspectionRow {
    var user := UserByName(Get(data, "manager"));
    InspectionRow(Num(tableLength + 100), Num(101), Num(201), Num(if user.Some? then user.value.id else 0),
      ParseInt(Get(data, "totalCount")), ParseInt(Get(data, "defectCount")),
      Get(data, "reason"), Get(data, "solution"),
      Get(data, "receivedDate"), Get(data, "dueDate"), Get(data, "progress"))
  }

  /** The object literal of a submitted row: the joined fields without `id`. */
  function SubmittedRow(manager: JsValue, company: JsValue, partName: JsValue, defectCount: JsValue,
                        totalCount: JsValue, reason: JsValue, solution: JsValue, receivedDate: JsValue,
                        dueDate: JsValue, progress: JsValue, status: JsValue): (e: Obj)
    ensures Get(e, "id") == Undefined && Get(e, "status") == status
    ensures Get(e, "manager") == manager && Get(e, "progress") == progress
  {
    KeysDiffer("manager", "company", 0);
    KeysDiffer("partName", "solution", 0);
    KeysDiffer("partName", "progress", 1);
    Obj(["manager", "company", "partName", "defectCount", "totalCount", "reason", "solution", "receivedDate", "dueDate", "progress", "status"],
      map["manager" := manager, "company" := company, "partName" := partName,
        "defectCount" := defectCount, "totalCount" := totalCount, "reason" := reason, "solution" := solution,
        "receivedDate" := receivedDate, "dueDate" := dueDate, "progress" := progress, "status" := status])
  }

  /** The joined entry `addInspection` resolves with: the submitted fields and the stored row's status, but no `id`. */
  function NewJoinedEntry(data: Obj, dbEntry: InspectionRow, clock: Clock): (e: Obj)
    ensures Get(e, "id") == Undefined
    ensures Get(e, "status") == GetStatus(dbEntry, clock)
    ensures Get(e, "manager") == Get(data, "manager")
    ensures Get(e, "progress") == Get(data, "progress")
  {
    SubmittedRow(Get(data, "manager"), Get(data, "company"), Get(data, "partName"),
      Get(data, "defectCount"), Get(data, "totalCount"), Get(data, "reason"), Get(data, "solution"),
      Get(data, "receivedDate"), Get(data, "dueDate"), Get(data, "progress"), GetStatus(dbEntry, clock))
  }

  /**
   * What `addInspection` resolves with against what `getInspections` later
   * shows for the stored row: the same status; an id only on the stored row,
   * `length + 100`; and the stored row's manager is the submitted name when
   * that name belongs to a user, `'알 수 없음'` otherwise.
   */
  lemma AddedEntryAgainstStored(data: Obj, tableLength: nat, clock: Clock)
    ensures var stored := JoinRow(NewDbEntry(data, tableLength), clock);
      var returned := NewJoinedEntry(data, NewDbEntry(data, tableLength), clock);
      Get(returned, "status") == Get(stored, "status")
      && Get(returned, "id") == Undefined && Get(stored, "id") == Num(tableLength + 100)
      && (UserByName(Get(data, "manager")).Some? ==> Get(stored, "manager") == Get(data, "manager"))
      && (UserByName(Get(data, "manager")).None? ==> Get(stored, "manager") == Unknown)
  {
    var manager := Get(data, "manager");
    UserByNameFinds(manager);
    var entry := NewDbEntry(data, tableLength);
    UserByIdFinds(entry.userId);
    if UserByName(manager).None? {
      assert entry.userId == Num(0);
    }
  }

  // ---------------------------------------------------------------- comment and history lists

  /** The two rejections of `deleteComment`. */
  datatype DeleteError = NoCommentList | CommentNotFound

  /** The message each rejection carries. */
  function DeleteErrorMessage(e: DeleteError): string {
    match e
    case NoCommentList => "해당 검사 항목을 찾지 못했습니다."
    case CommentNotFound => "삭제할 코멘트를 찾지 못했습니다."
  }

  /** The initial stored inspections. */
  function MockInspections(): seq<InspectionRow> {
    [ InspectionRow(Num(1), Num(101), Num(201), Num(2), Num(100), Num(5),
        Str("색상 균일도 불량"), Str("공정 온도 조정 및 재검토"),
        Str("2025-08-20"), Str("2025-09-15"), Num(85)),
      InspectionRow(Num(2), Num(102), Num(202), Num(1), Num(200), Num(8),
        Str("용량 편차 발생"), Str("전해액 농도 조정"),
        Str("2025-08-15"), Str("2025-08-30"), Num(100)) ]
  }

  /** The initial comment lists, keyed by inspection id. */
  function MockComments(): map<string, seq<Obj>> {
    map["1" := [Note("김수산", "text", "공정 온도 재조정 후 샘플 테스트 진행 중입니다.", "2025-08-22")],
        "2" := [Note("이영희", "text", "전해액 농도 조정 완료. 최종 품질 테스트 통과했습니다.", "2025-08-18")]]
  }

  /** The initial change histories, keyed by inspection id. */
  function MockHistory(): map<string, seq<Obj>> {
    map["1" := [Note("김철수", "action", "진행률 변경 (70% -> 85%)", "2025-08-21")],
        "2" := [Note("이영희", "action", "상태 변경 (진행중 -> 완료)", "2025-08-17")]]
  }

  /**
   * The module's mutable state: `mockInspections`, `mockComments` and
   * `mockHistory`. The comment and history objects are keyed by the property
   * key of the inspection id.
   */
  class Store {
    var inspections: seq<InspectionRow>
    var comments: map<string, seq<Obj>>
    var history: map<string, seq<Obj>>

    constructor()
      ensures inspections == MockInspections()
      ensures comments == MockComments() && history == MockHistory()
    {
      inspections := MockInspections();
      comments := MockComments();
      history := MockHistory();
    }

    /** `getComments(id)`. */
    function GetComments(id: JsValue): (r: seq<Obj>)
      reads this
      ensures ToJsString(id) in comments ==> r == comments[ToJsString(id)]
      ensures ToJsString(id) !in comments ==> r == []
    {
      ListOf(comments, id)
    }

    /** `getHistory(id)`. */
    function GetHistory(id: JsValue): (r: seq<Obj>)
      reads this
      ensures ToJsString(id) in history ==> r == history[ToJsString(id)]
      ensures ToJsString(id) !in history ==> r == []
    {
      ListOf(history, id)
    }

    /**
     * `addInspection(data)`: push the new table row with id `length + 100`,
     * and resolve with the joined entry, which has no id.
     */
    method AddInspection(data: Obj, clock: Clock) returns (entry: Obj)
      modifies this
      ensures inspections == old(inspections) + [NewDbEntry(data, |old(inspections)|)]
      ensures comments == old(comments) && history == old(history)
      ensures entry == NewJoinedEntry(data, NewDbEntry(data, |old(inspections)|), clock)
    {
      var dbEntry := NewDbEntry(data, |inspections|);
      inspections := inspections + [dbEntry];
      entry := NewJoinedEntry(data, dbEntry, clock);
    }

    /** `addComment(id, comment)`: create the list if absent, then append. */
    method AddComment(id: JsValue, comment: Obj) returns (r: Obj)
      modifies this
      ensures comments == AppendTo(old(comments), id, comment)
      ensures inspections == old(inspections) && history == old(history)
      ensures r == comment
      ensures GetComments(id) == old(GetComments(id)) + [comment]
      ensures forall other :: ToJsString(other) != ToJsString(id) ==> GetComments(other) == old(GetComments(other))
    {
      var key := ToJsString(id);
      var lists := comments;
      if key !in lists {
        lists := lists[key := []];
      }
      lists := lists[key := lists[key] + [comment]];
      CreateThenPush(comments, id, comment);
      comments := lists;
      r := comment;
    }

    /** `addHistory(id, log)`: create the list if absent, then append. */
    method AddHistory(id: JsValue, log: Obj) returns (r: Obj)
      modifies this
      ensures history == AppendTo(old(history), id, log)
      ensures inspections == old(inspections) && comments == old(comments)
      ensures r == log
      ensures GetHistory(id) == old(GetHistory(id)) + [log]
      ensures forall other :: ToJsString(other) != ToJsString(id) ==> GetHistory(other) == old(GetHistory(other))
    {
      var key := ToJsString(id);
      var lists := history;
      if key !in lists {
        lists := lists[key := []];
      }
      lists := lists[key := lists[key] + [log]];
      CreateThenPush(history, id, log);
      history := lists;
      r := log;
    }

    /**
     * `deleteComment(id, commentId)`: with no list for the inspection, reject
     * and change nothing; otherwise store the list without the comments whose
     * id is `commentId`, and resolve if that removed any, reject otherwise.
     */
    method DeleteComment(id: JsValue, commentId: JsValue) returns (r: Result<bool, DeleteError>)
      modifies this
      ensures inspections == old(inspections) && history == old(history)
      ensures ToJsString(id) !in old(comments) ==> r == Failure(NoCommentList) && comments == old(comments)
      ensures ToJsString(id) in old(comments) ==>
        comments == old(comments)[ToJsString(id) := KeepOthers(old(comments)[ToJsString(id)], commentId)]
        && (r == Success(true) <==> |KeepOthers(old(comments)[ToJsString(id)], commentId)| < |old(comments)[ToJsString(id)]|)
        && (r.Failure? ==> r == Failure(CommentNotFound))
      ensures GetComments(id) == KeepOthers(old(GetComments(id)), commentId)
    {
      var key := ToJsString(id);
      if key in comments {
        var initialLength := |comments[key]|;
        comments := comments[key := KeepOthers(comments[key], commentId)];
        if |comments[key]| < initialLength {
          r := Success(true);
        } else {
          r := Failure(CommentNotFound);
        }
      } else {
        r := Failure(NoCommentList);
      }
    }
  }
}
