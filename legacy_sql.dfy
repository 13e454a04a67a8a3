/**
 * The older `add_inspection` of the Flask back end (backend/app.py), which
 * does not touch the database: it checks that the five required keys are
 * present, converts the values with `str(...)` and `int(...)`, doubles every
 * single quote of the string values, and answers with the text of an SQL
 * Server script that would add the company, the product and the inspection.
 */
module LegacySql {
  import opened Wrappers
  import Text
  import opened JsSemantics
  import opened PyJson

  /** `required_fields`: only their presence is checked. */
  const Required: seq<string> := ["company_name", "product_name", "product_code", "inspected_quantity", "defective_quantity"]

  const MissingFields: string := "필수 항목이 누락되었습니다."
  const GenerationError: string := "An error occurred during SQL generation: "

  // ---------------------------------------------------------------- SQL string literals

  /** `.replace("'", "''")`. */
  function Escape(s: string): (r: string)
    ensures |r| >= |s|
  {
    if s == [] then []
    else (if s[0] == '\'' then "''" else [s[0]]) + Escape(s[1..])
  }

  /** The escaped text is longer by exactly one character per quote. */
  lemma {:induction false} EscapeLength(s: string)
    ensures |Escape(s)| == |s| + Text.Count(s, '\'')
  {
    if s != [] {
      EscapeLength(s[1..]);
    }
  }

  /**
   * The body of an SQL string literal read from just after its opening quote:
   * `''` stands for one quote and a lone `'` closes the literal. The result is
   * the literal's text and what follows the closing quote; none when the
   * literal is never closed.
   */
  function ReadLiteral(s: string): (r: Option<(string, string)>)
    ensures r.Some? ==> |r.value.1| < |s|
    decreases |s|
  {
    if s == [] then None
    else if s[0] == '\'' then
      if |s| >= 2 && s[1] == '\'' then
        match ReadLiteral(s[2..])
        case None => None
        case Some(p) => Some(("'" + p.0, p.1))
      else Some(("", s[1..]))
    else
      match ReadLiteral(s[1..])
      case None => None
      case Some(p) => Some(([s[0]] + p.0, p.1))
  }

  /** A doubled quote reads as one quote of the text. */
  lemma ReadDoubledQuote(t: string, text: string, rest: string)
    requires ReadLiteral(t) == Some((text, rest))
    ensures ReadLiteral("''" + t) == Some(("'" + text, rest))
  {
    var s := "''" + t;
    assert s[0] == '\'' && s[1] == '\'' && s[2..] == t;
  }

  /** Any other character is itself. */
  lemma ReadPlainChar(c: char, t: string, text: string, rest: string)
    requires c != '\'' && ReadLiteral(t) == Some((text, rest))
    ensures ReadLiteral([c] + t) == Some(([c] + text, rest))
  {
    var s := [c] + t;
    assert s[0] == c && s[1..] == t;
  }

  /** A lone quote closes the literal. */
  lemma ReadClosingQuote(rest: string)
    requires rest == [] || rest[0] != '\''
    ensures ReadLiteral("'" + rest) == Some(("", rest))
  {
    var s := "'" + rest;
    assert s[0] == '\'' && s[1..] == rest;
  }

  /** Escaping one character and then the rest. */
  lemma EscapeCons(c: char, t: string, rest: string)
    ensures c == '\'' ==> Escape([c] + t) + "'" + rest == "''" + (Escape(t) + "'" + rest)
    ensures c != '\'' ==> Escape([c] + t) + "'" + rest == [c] + (Escape(t) + "'" + rest)
  {
    assert ([c] + t)[1..] == t;
  }

  /**
   * Doubling the quotes makes a literal that reads back as the original
   * string, and the text after it is left intact when it does not itself
   * begin with a quote.
   */
  lemma {:induction false} EscapeRoundTrip(s: string, rest: string)
    requires rest == [] || rest[0] != '\''
    ensures ReadLiteral(Escape(s) + "'" + rest) == Some((s, rest))
  {
    if s == [] {
      assert Escape(s) + "'" + rest == "'" + rest;
      ReadClosingQuote(rest);
    } else {
      var c, t := s[0], s[1..];
      assert s == [c] + t;
      EscapeRoundTrip(t, rest);
      EscapeCons(c, t, rest);
      if c == '\'' {
        ReadDoubledQuote(Escape(t) + "'" + rest, t, rest);
      } else {
        ReadPlainChar(c, Escape(t) + "'" + rest, t, rest);
      }
    }
  }

  // ---------------------------------------------------------------- target_date

  /** `'NULL'` for a falsy `target_date`, otherwise `f"'{target_date}'"`: quoted but not escaped. */
  function TargetLiteralAsWritten(target: JsValue): (lit: string)
    ensures PyFalsy(target) ==> lit == "NULL"
    ensures !PyFalsy(target) ==> lit == "'" + PyStr(target) + "'"
  {
    if PyFalsy(target) then "NULL" else "'" + PyStr(target) + "'"
  }

  /** The target literal with its quotes doubled like every other string value. */
  function TargetLiteral(target: JsValue): (lit: string)
    ensures PyFalsy(target) ==> lit == "NULL"
    ensures !PyFalsy(target) ==> lit == "'" + Escape(PyStr(target)) + "'"
  {
    if PyFalsy(target) then "NULL" else "'" + Escape(PyStr(target)) + "'"
  }

  /** What follows the target literal in the script: `, {progress});` and the final line break. */
  function AfterTarget(progress: int): (s: string)
    ensures |s| > 0 && s[0] == ','
  {
    ", " + Text.IntToString(progress) + ");\n"
  }

  /**
   * As written, a target date holding a quote ends the literal early: for
   * `x'y` the literal reads `x`, and `y'` is left where the script expects
   * the comma before the progress.
   */
  lemma UnescapedTargetBreaksLiteral(rest: string)
    ensures TargetLiteralAsWritten(Str("x'y")) == "'x'y'"
    ensures ReadLiteral(("'x'y'" + rest)[1..]) == Some(("x", "y'" + rest))
  {
    var afterQuote := "y'" + rest;
    assert afterQuote[0] == 'y';
    ReadClosingQuote(afterQuote);
    ReadPlainChar('x', "'" + afterQuote, "", afterQuote);
    assert ['x'] + "" == "x";
    assert ("'x'y'" + rest)[1..] == ['x'] + ("'" + afterQuote);
  }

  /** A quoted, escaped text read from after its opening quote gives the text back. */
  lemma QuotedRoundTrip(s: string, rest: string)
    requires rest == [] || rest[0] != '\''
    ensures ReadLiteral(("'" + Escape(s) + "'" + rest)[1..]) == Some((s, rest))
  {
    var e := Escape(s);
    EscapeRoundTrip(s, rest);
    assert "'" + e + "'" + rest == ['\''] + (e + "'" + rest);
  }

  /** With the quotes doubled, every truthy target date reads back whole and the script goes on after it. */
  lemma TargetRoundTrip(target: JsValue, rest: string)
    requires !PyFalsy(target)
    requires rest == [] || rest[0] != '\''
    ensures ReadLiteral((TargetLiteral(target) + rest)[1..]) == Some((PyStr(target), rest))
  {
    QuotedRoundTrip(PyStr(target), rest);
  }

  /** The two renderings differ only for a target holding a quote. */
  lemma {:induction false} EscapeWithoutQuotes(s: string)
    requires '\'' !in s
    ensures Escape(s) == s
  {
    if s != [] {
      assert '\'' !in s[1..];
      EscapeWithoutQuotes(s[1..]);
      assert [s[0]] + s[1..] == s;
    }
  }

  // ---------------------------------------------------------------- the values

  /** The converted values the script is built from; the strings are already escaped. */
  datatype Values = Values(companyName: string, productName: string, productCode: string,
                           userId: int, inspected: int, defective: int, actioned: int,
                           defectReason: string, solution: string, targetDate: string, progress: int)

  /** `int(data.get(k) or 0)`. */
  function QuantityOf(data: Obj, k: string): (r: Result<int, string>)
    ensures PyFalsy(PyGet(data, k)) ==> r == Success(0)
  {
    PyInt(PyOr(PyGet(data, k), Num(0)))
  }

  /**
   * The conversions of the `try` block, in their order: the first `int(...)`
   * that raises decides the error. The string fields use `str(...)`, so a
   * JSON `null` becomes the text `None`. The target date is quoted with its
   * quotes doubled (`TargetLiteral`), not as the handler writes it
   * (`TargetLiteralAsWritten`).
   */
  function Convert(data: Obj): (r: Result<Values, string>)
    ensures r.Success? ==>
      r.value.companyName == Escape(PyStr(PyGetOr(data, "company_name", Str(""))))
      && r.value.productName == Escape(PyStr(PyGetOr(data, "product_name", Str(""))))
      && r.value.productCode == Escape(PyStr(PyGetOr(data, "product_code", Str(""))))
      && r.value.defectReason == Escape(PyStr(PyGetOr(data, "defect_reason", Str(""))))
      && r.value.solution == Escape(PyStr(PyGetOr(data, "solution", Str(""))))
      && r.value.targetDate == TargetLiteral(PyGet(data, "target_date"))
      && Success(r.value.userId) == PyInt(PyGetOr(data, "user_id", Num(1)))
      && Success(r.value.inspected) == QuantityOf(data, "inspected_quantity")
      && Success(r.value.defective) == QuantityOf(data, "defective_quantity")
      && Success(r.value.actioned) == QuantityOf(data, "actioned_quantity")
      && Success(r.value.progress) == PyInt(PyGetOr(data, "progress_percentage", Num(0)))
    ensures r.Failure? <==>
      PyInt(PyGetOr(data, "user_id", Num(1))).Failure? || QuantityOf(data, "inspected_quantity").Failure?
      || QuantityOf(data, "defective_quantity").Failure? || QuantityOf(data, "actioned_quantity").Failure?
      || PyInt(PyGetOr(data, "progress_percentage", Num(0))).Failure?
  {
    var userId := PyInt(PyGetOr(data, "user_id", Num(1)));
    var inspected := QuantityOf(data, "inspected_quantity");
    var defective := QuantityOf(data, "defective_quantity");
    var actioned := QuantityOf(data, "actioned_quantity");
    var progress := PyInt(PyGetOr(data, "progress_percentage", Num(0)));
    if userId.Failure? then Failure(userId.error)
    else if inspected.Failure? then Failure(inspected.error)
    else if defective.Failure? then Failure(defective.error)
    else if actioned.Failure? then Failure(actioned.error)
    else if progress.Failure? then Failure(progress.error)
    else
      Success(Values(
        Escape(PyStr(PyGetOr(data, "company_name", Str("")))),
        Escape(PyStr(PyGetOr(data, "product_name", Str("")))),
        Escape(PyStr(PyGetOr(data, "product_code", Str("")))),
        userId.value, inspected.value, defective.value, actioned.value,
        Escape(PyStr(PyGetOr(data, "defect_reason", Str("")))),
        Escape(PyStr(PyGetOr(data, "solution", Str("")))),
        TargetLiteral(PyGet(data, "target_date")),
        progress.value))
  }

  // ---------------------------------------------------------------- the script

  /** The company step: insert the company unless one with that name exists. */
  function CompanyStep(v: Values): string {
    "\n-- 1. 업체 확인 및 추가\nIF NOT EXISTS (SELECT 1 FROM Companies WHERE company_name = '" + v.companyName
    + "')\nBEGIN\n    INSERT INTO Companies (company_name) VALUES ('" + v.companyName + "');\nEND\n"
  }

  /** The product step: insert the product unless one with that code exists. */
  function ProductStep(v: Values): string {
    "\n-- 2. 제품 확인 및 추가\nIF NOT EXISTS (SELECT 1 FROM Products WHERE product_code = '" + v.productCode
    + "')\nBEGIN\n    INSERT INTO Products (product_name, product_code) VALUES ('" + v.productName
    + "', '" + v.productCode + "');\nEND\n"
  }

  /** The values row up to the reason literal's opening quote. */
  function RowHead(v: Values): string {
    "((SELECT id FROM Companies WHERE company_name = '" + v.companyName
    + "'),\n (SELECT id FROM Products WHERE product_code = '" + v.productCode + "'),\n "
    + Text.IntToString(v.userId) + ", " + Text.IntToString(v.inspected) + ", "
    + Text.IntToString(v.defective) + ", " + Text.IntToString(v.actioned) + ",\n '"
  }

  /** The row after the solution literal: `, {target_date}, {progress});`. */
  function AfterSolution(v: Values): (s: string)
    ensures |s| > 0 && s[0] == ','
  {
    ", " + v.targetDate + AfterTarget(v.progress)
  }

  /** The row from the solution literal's text on. */
  function SolutionOnward(v: Values): string {
    v.solution + "'" + AfterSolution(v)
  }

  /** The row after the reason literal. */
  function AfterReason(v: Values): (s: string)
    ensures |s| > 0 && s[0] == ','
  {
    ", '" + SolutionOnward(v)
  }

  /** The rest of the values row, from the reason literal's text on. */
  function RowTail(v: Values): string {
    v.defectReason + "'" + AfterReason(v)
  }

  /** The inspection step. */
  function InsertStep(v: Values): string {
    "\n-- 3. 최종 불량 내역 추가\nINSERT INTO Inspections\n(company_id, product_id, user_id, inspected_quantity, defective_quantity, actioned_quantity,\n"
    + "defect_reason, solution, target_date, progress_percentage)\nVALUES\n" + RowHead(v) + RowTail(v)
  }

  /** `sql_query_to_run`. */
  function Script(v: Values): string {
    CompanyStep(v) + ProductStep(v) + InsertStep(v)
  }

  /**
   * In the values row, the reason and the solution read back as the submitted
   * texts, and the reader stops at the comma after each.
   */
  lemma RowTailReadsBack(reason: string, solution: string, v: Values)
    requires v.defectReason == Escape(reason) && v.solution == Escape(solution)
    ensures ReadLiteral(RowTail(v)) == Some((reason, AfterReason(v)))
    ensures ReadLiteral(SolutionOnward(v)) == Some((solution, AfterSolution(v)))
  {
    EscapeRoundTrip(reason, AfterReason(v));
    EscapeRoundTrip(solution, AfterSolution(v));
  }

  // ---------------------------------------------------------------- add_inspection

  /**
   * The reply: `{"sql_query": Script(values)}` with 200, or an error message
   * with its status.
   */
  datatype Reply = Script200(values: Values) | ErrorReply(status: int, message: string)

  /** `all(field in data for field in required_fields)`. */
  predicate HasRequired(data: Obj) {
    forall i :: 0 <= i < |Required| ==> Required[i] in data.vals
  }

  /**
   * `add_inspection`: 400 when a required key is missing (a `null` value
   * passes); 500 with the generation-error prefix when a conversion raises,
   * followed by the name of the exception that stands for Python's message;
   * otherwise the script, returned and never executed.
   */
  function AddInspection(data: Obj): (r: Reply)
    ensures r == ErrorReply(400, MissingFields) <==> !HasRequired(data)
    ensures r.Script200? <==> HasRequired(data) && Convert(data).Success?
    ensures r.Script200? ==> r.values == Convert(data).value
    ensures r.ErrorReply? && r.status == 500 ==>
      Convert(data).Failure? && r.message == GenerationError + Convert(data).error
  {
    if !HasRequired(data) then ErrorReply(400, MissingFields)
    else
      match Convert(data)
      case Failure(e) => ErrorReply(500, GenerationError + e)
      case Success(v) => Script200(v)
  }

  /**
   * `add_inspection` as the handler writes it: the same reply, except that
   * the target date is quoted without doubling its quotes.
   */
  function AddInspectionAsWritten(data: Obj): (r: Reply)
    ensures r.Script200? <==> AddInspection(data).Script200?
    ensures r.ErrorReply? ==> r == AddInspection(data)
    ensures r.Script200? ==>
      r.values.targetDate == TargetLiteralAsWritten(PyGet(data, "target_date"))
      && r.values.(targetDate := AddInspection(data).values.targetDate) == AddInspection(data).values
  {
    match AddInspection(data)
    case Script200(v) => Script200(v.(targetDate := TargetLiteralAsWritten(PyGet(data, "target_date"))))
    case ErrorReply(status, message) => ErrorReply(status, message)
  }

  /** The two replies are the same whenever the target date holds no quote. */
  lemma AsWrittenAgreesWithoutQuote(data: Obj)
    requires '\'' !in PyStr(PyGet(data, "target_date"))
    ensures AddInspectionAsWritten(data) == AddInspection(data)
  {
    EscapeWithoutQuotes(PyStr(PyGet(data, "target_date")));
  }

  /**
   * Only presence is checked: a body whose required keys are all `null`
   * and which has no other key gets a script for company `None` with zero
   * quantities, user 1, no target date and progress 0.
   */
  lemma NullRequiredAccepted(data: Obj)
    requires forall i :: 0 <= i < |Required| ==> Required[i] in data.vals && data.vals[Required[i]] == Null
    requires "user_id" !in data.vals && "actioned_quantity" !in data.vals
    requires "target_date" !in data.vals && "progress_percentage" !in data.vals
    ensures AddInspection(data).Script200?
    ensures Convert(data).value.companyName == "None"
    ensures Convert(data).value.inspected == 0 && Convert(data).value.defective == 0
    ensures Convert(data).value.actioned == 0 && Convert(data).value.userId == 1
    ensures Convert(data).value.targetDate == "NULL" && Convert(data).value.progress == 0
  {
    assert Required[0] == "company_name" && Required[3] == "inspected_quantity" && Required[4] == "defective_quantity";
    assert Escape("None") == "None";
  }

  /** A `null` progress is not defaulted: `int(None)` raises and the reply is a 500. */
  lemma NullProgressFails(data: Obj)
    requires HasRequired(data)
    requires "progress_percentage" in data.vals && data.vals["progress_percentage"] == Null
    ensures AddInspection(data).ErrorReply? && AddInspection(data).status == 500
  {
  }
}
