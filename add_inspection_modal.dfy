/**
 * The form for a new inspection in inspection_front-main
 * (inspection_front-main/src/components/AddInspectionModal/AddInspectionModal.jsx):
 * the defect-versus-total check, the progress slider, the initial form and
 * the submit guard.
 */
module AddInspectionModal {
  import opened Wrappers
  import opened JsSemantics
  import opened StatusRules

  /** The message of the defect-versus-total check. */
  const DefectExceedsTotal: string := "불량 수량은 총 검사 수량을 초과할 수 없습니다."

  /**
   * The effect on the two counts: an error exactly when both
   * `parseInt(..., 10)` results are numbers and the defect count is larger;
   * an equal count, or a count that does not parse, is no error.
   */
  function FormError(form: Obj): (r: string)
    ensures r == DefectExceedsTotal || r == ""
    ensures r == DefectExceedsTotal <==>
      ParseInt(Get(form, "totalCount")).Num? && ParseInt(Get(form, "defectCount")).Num?
      && ParseInt(Get(form, "defectCount")).n > ParseInt(Get(form, "totalCount")).n
  {
    var total := ParseInt(Get(form, "totalCount"));
    var defect := ParseInt(Get(form, "defectCount"));
    if total.Num? && defect.Num? && defect.n > total.n then DefectExceedsTotal else ""
  }

  /** The empty count fields of a fresh form raise no error. */
  lemma EmptyCountsNoError(form: Obj)
    requires Get(form, "totalCount") == Str("")
    ensures FormError(form) == ""
  {
    assert ParseIntString("") == NaN;
  }

  /**
   * `handleSliderChange`: `progress = parseInt(value, 10)` and the status
   * `'completed'` when it is `=== 100`, `'inProgress'` otherwise; nothing else
   * in the form changes.
   */
  function SliderChange(form: Obj, value: JsValue): (r: Obj)
    ensures Get(r, "progress") == ParseInt(value)
    ensures Get(r, "status") == Str("completed") <==> StrictEq(ParseInt(value), Num(100))
    ensures Get(r, "status") == Str("completed") || Get(r, "status") == Str("inProgress")
    ensures forall k :: k != "progress" && k != "status" ==> Get(r, k) == Get(form, k)
  {
    var progress := ParseInt(value);
    var status := if StrictEq(progress, Num(100)) then Str("completed") else Str("inProgress");
    Put(Put(form, "progress", progress), "status", status)
  }

  /**
   * The slider never marks a form delayed, and it marks it completed exactly
   * when the deadline rule of the lists would, for any target date.
   */
  lemma SliderAgreesOnCompletion(form: Obj, value: JsValue, due: JsValue, clock: Clock)
    ensures Get(SliderChange(form, value), "status") != KeyValue(Delayed)
    ensures Get(SliderChange(form, value), "status") == KeyValue(Completed) <==>
      DeadlineStatus(Get(SliderChange(form, value), "progress"), due, clock) == Completed
  {
  }

  /** The form the modal opens with. */
  function InitialForm(userName: string, today: string): (f: Obj)
    ensures Get(f, "manager") == Str(userName)
    ensures Get(f, "progress") == Num(0) && Get(f, "status") == Str("in-progress")
    ensures Get(f, "totalCount") == Str("") && Get(f, "defectCount") == Str("")
    ensures Get(f, "receivedDate") == Str(today)
  {
    Obj(["manager", "company", "partName", "totalCount", "defectCount", "reason", "solution",
         "receivedDate", "dueDate", "progress", "status"],
      map["manager" := Str(userName), "company" := Str(""), "partName" := Str(""),
          "totalCount" := Str(""), "defectCount" := Str(""), "reason" := Str(""), "solution" := Str(""),
          "receivedDate" := Str(today), "dueDate" := Str(""), "progress" := Num(0), "status" := Str("in-progress")])
  }

  /** A fresh form has no count error, and its status is none of the three the lists use. */
  lemma InitialFormState(userName: string, today: string)
    ensures FormError(InitialForm(userName, today)) == ""
    ensures KeyOf(Get(InitialForm(userName, today), "status")).None?
  {
    EmptyCountsNoError(InitialForm(userName, today));
  }

  /** What a submit leads to: an alert and no call, the added entry, or the failure alert. */
  datatype SubmitOutcome = Blocked(alert: string) | Added(entry: Obj) | Failed

  datatype Submission = Submission(outcome: SubmitOutcome, isSubmitting: bool)

  /**
   * `handleSubmit`: a non-empty error blocks the submit before `addInspection`
   * is called and leaves `isSubmitting` alone; otherwise the call is made and
   * `isSubmitting` is back to false afterwards, whether it succeeded or not.
   */
  function HandleSubmit(formError: string, wasSubmitting: bool, api: Result<Obj, string>): (s: Submission)
    ensures formError != "" ==> s == Submission(Blocked(formError), wasSubmitting)
    ensures formError == "" ==> !s.isSubmitting
    ensures formError == "" ==> (s.outcome.Added? <==> api.Success?)
    ensures formError == "" && api.Success? ==> s.outcome == Added(api.value)
  {
    if formError != "" then Submission(Blocked(formError), wasSubmitting)
    else match api
      case Success(entry) => Submission(Added(entry), false)
      case Failure(_) => Submission(Failed, false)
  }

  /** A blocked submit does not depend on what `addInspection` would do: it is not called. */
  lemma BlockedSubmitMakesNoCall(formError: string, wasSubmitting: bool, a: Result<Obj, string>, b: Result<Obj, string>)
    requires formError != ""
    ensures HandleSubmit(formError, wasSubmitting, a) == HandleSubmit(formError, wasSubmitting, b)
  {
  }
}
