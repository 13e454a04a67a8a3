/**
 * The tables of the Flask back end and the endpoints that change them: the
 * login's `last_login` stamp (backend/app/api/auth.py), the inspection
 * create, update and delete of backend/app/api/inspections.py with the
 * joined list they serve, and the update, delete and upload of the older
 * backend/app.py. A request's statements form one transaction: a statement
 * that raises rolls the tables back to where they were before the request.
 * Column values are the JSON values the requests carry, `Null` for SQL NULL.
 */
module Database {
  import opened Wrappers
  import Text
  import opened JsSemantics
  import opened Collections
  import opened PyJson
  import TokenAuth
  import Uploads
  import LegacySql

  datatype UserRow = UserRow(id: int, username: string, passwordHash: string, lastLogin: Option<int>)
  datatype CompanyRow = CompanyRow(id: int, companyName: JsValue)
  datatype ProductRow = ProductRow(id: int, productName: JsValue, productCode: JsValue)

  /** An inspection: its keys, and the other columns by name. */
  datatype InspectionRow = InspectionRow(id: int, companyId: int, productId: int, userId: JsValue,
                                         receivedDate: int, cols: map<string, JsValue>)

  /** All four tables, with the next value of each identity column. */
  datatype Tables = Tables(users: seq<UserRow>, companies: seq<CompanyRow>, products: seq<ProductRow>,
                           inspections: seq<InspectionRow>,
                           nextCompanyId: int, nextProductId: int, nextInspectionId: int)

  /** Identity columns: every id is below its counter, and no two rows share one. */
  predicate CompaniesConsistent(companies: seq<CompanyRow>, next: int) {
    (forall i :: 0 <= i < |companies| ==> companies[i].id < next)
    && (forall i, j :: 0 <= i < j < |companies| ==> companies[i].id != companies[j].id)
  }

  predicate ProductsConsistent(products: seq<ProductRow>, next: int) {
    (forall i :: 0 <= i < |products| ==> products[i].id < next)
    && (forall i, j :: 0 <= i < j < |products| ==> products[i].id != products[j].id)
  }

  predicate InspectionsConsistent(inspections: seq<InspectionRow>, next: int) {
    (forall i :: 0 <= i < |inspections| ==> inspections[i].id < next)
    && (forall i, j :: 0 <= i < j < |inspections| ==> inspections[i].id != inspections[j].id)
  }

  predicate Consistent(t: Tables) {
    CompaniesConsistent(t.companies, t.nextCompanyId)
    && ProductsConsistent(t.products, t.nextProductId)
    && InspectionsConsistent(t.inspections, t.nextInspectionId)
  }

  /** A handler's JSON reply: its status and `message`. */
  datatype Reply = Reply(status: int, message: string)

  const ErrorPrefix: string := "An error occurred: "

  // ---------------------------------------------------------------- login

  /** The login reply: status, message, and on success the token and the `user` object. */
  datatype LoginReply = LoginReply(status: int, message: string, token: Option<string>, user: Option<TokenAuth.CurrentUser>)

  /** `SELECT id, password_hash FROM Users WHERE username = ?`, first row. */
  function AccountOf(users: seq<UserRow>, username: JsValue): (a: Option<TokenAuth.Account>)
    ensures a.None? <==> forall i :: 0 <= i < |users| ==> Str(users[i].username) != username
    ensures a.Some? ==>
      (exists i :: 0 <= i < |users| && Str(users[i].username) == username
         && a.value == TokenAuth.Account(users[i].id, users[i].passwordHash))
  {
    var i := FindIndex(users, (u: UserRow) => Str(u.username) == username);
    if i < 0 then None else Some(TokenAuth.Account(users[i].id, users[i].passwordHash))
  }

  /** `UPDATE Users SET last_login = GETDATE() WHERE username = ?`. */
  function Stamped(users: seq<UserRow>, username: JsValue, dbNow: int): (r: seq<UserRow>)
    ensures |r| == |users|
    ensures forall i :: 0 <= i < |users| && Str(users[i].username) == username ==> r[i] == users[i].(lastLogin := Some(dbNow))
    ensures forall i :: 0 <= i < |users| && Str(users[i].username) != username ==> r[i] == users[i]
  {
    if users == [] then []
    else
      var head := if Str(users[0].username) == username then users[0].(lastLogin := Some(dbNow)) else users[0];
      [head] + Stamped(users[1..], username, dbNow)
  }

  // ---------------------------------------------------------------- add_inspection

  /** `SELECT id FROM Companies WHERE company_name = ?`: the position of the first match, or -1. */
  function CompanyIndex(companies: seq<CompanyRow>, name: JsValue): int {
    FindIndex(companies, (c: CompanyRow) => c.companyName == name)
  }

  /** `SELECT id FROM Products WHERE product_code = ?`. */
  function ProductIndex(products: seq<ProductRow>, code: JsValue): int {
    FindIndex(products, (p: ProductRow) => p.productCode == code)
  }

  /** A resolved id and the tables after resolving it. */
  datatype Resolved = Resolved(id: int, tables: Tables)

  /**
   * Step 1 of `add_inspection`: the id of the first company with that name,
   * or a new company row with the next identity value. Afterwards the lookup
   * finds the resolved id, the old rows are untouched, and a row was added
   * exactly when none matched.
   */
  function ResolveCompany(t: Tables, name: JsValue): (r: Resolved)
    ensures r.tables == t.(companies := r.tables.companies, nextCompanyId := r.tables.nextCompanyId)
    ensures t.companies <= r.tables.companies
    ensures CompanyIndex(r.tables.companies, name) >= 0
    ensures r.tables.companies[CompanyIndex(r.tables.companies, name)].id == r.id
    ensures |r.tables.companies| == |t.companies| + 1 <==> CompanyIndex(t.companies, name) < 0
    ensures CompanyIndex(t.companies, name) >= 0 ==> r.tables == t
    ensures CompanyIndex(t.companies, name) < 0 ==>
      r.id == t.nextCompanyId && r.tables.companies == t.companies + [CompanyRow(r.id, name)]
      && r.tables.nextCompanyId == t.nextCompanyId + 1
  {
    var i := CompanyIndex(t.companies, name);
    if i >= 0 then Resolved(t.companies[i].id, t)
    else
      var companies := t.companies + [CompanyRow(t.nextCompanyId, name)];
      assert CompanyIndex(companies, name) == |t.companies| by {
        assert companies[|t.companies|].companyName == name;
        assert forall j :: 0 <= j < |t.companies| ==> companies[j] == t.companies[j];
      }
      Resolved(t.nextCompanyId, t.(companies := companies, nextCompanyId := t.nextCompanyId + 1))
  }

  /** Resolving a name a second time gives the same id and changes nothing more. */
  lemma ResolveCompanyIdempotent(t: Tables, name: JsValue)
    ensures var r := ResolveCompany(t, name); ResolveCompany(r.tables, name) == r
  {
  }

  /**
   * Step 2: the id of the first product with that code, or a new product
   * row; the name is written only when the row is created.
   */
  function ResolveProduct(t: Tables, name: JsValue, code: JsValue): (r: Resolved)
    ensures r.tables == t.(products := r.tables.products, nextProductId := r.tables.nextProductId)
    ensures t.products <= r.tables.products
    ensures ProductIndex(r.tables.products, code) >= 0
    ensures r.tables.products[ProductIndex(r.tables.products, code)].id == r.id
    ensures |r.tables.products| == |t.products| + 1 <==> ProductIndex(t.products, code) < 0
    ensures ProductIndex(t.products, code) >= 0 ==> r.tables == t
    ensures ProductIndex(t.products, code) < 0 ==>
      r.id == t.nextProductId && r.tables.products == t.products + [ProductRow(r.id, name, code)]
      && r.tables.nextProductId == t.nextProductId + 1
  {
    var i := ProductIndex(t.products, code);
    if i >= 0 then Resolved(t.products[i].id, t)
    else
      var products := t.products + [ProductRow(t.nextProductId, name, code)];
      assert ProductIndex(products, code) == |t.products| by {
        assert products[|t.products|].productCode == code;
        assert forall j :: 0 <= j < |t.products| ==> products[j] == t.products[j];
      }
      Resolved(t.nextProductId, t.(products := products, nextProductId := t.nextProductId + 1))
  }

  /** Products are keyed by code alone: for a known code the submitted name makes no difference. */
  lemma ExistingProductNameKept(t: Tables, name1: JsValue, name2: JsValue, code: JsValue)
    requires ProductIndex(t.products, code) >= 0
    ensures ResolveProduct(t, name1, code) == ResolveProduct(t, name2, code)
    ensures ResolveProduct(t, name1, code).tables.products == t.products
  {
  }

  /** The columns `add_inspection` fills from the body besides the keys; the same seven that updates may write. */
  const UpdateFields: seq<string> := ["inspected_quantity", "defective_quantity", "actioned_quantity",
                                      "defect_reason", "solution", "target_date", "progress_percentage"]

  /** The inserted value of a column: `data.get(k)`, and `data.get('progress_percentage', 0)`. */
  function InsertValue(body: Obj, k: string): (v: JsValue)
    ensures k != "progress_percentage" ==> v == PyGet(body, k)
    ensures k == "progress_percentage" ==> v == PyGetOr(body, k, Num(0))
  {
    if k == "progress_percentage" then PyGetOr(body, k, Num(0)) else PyGet(body, k)
  }

  /** `data['user_id'] = g.current_user['user_id']`. */
  function WithTokenUser(data: Obj, user: TokenAuth.CurrentUser): (body: Obj)
    ensures PyGet(body, "user_id") == user.userId
    ensures forall k :: k != "user_id" ==> PyGet(body, k) == PyGet(data, k)
  {
    Put(data, "user_id", user.userId)
  }

  /** The required keys, the same five as the older handler's; here a `None` value counts as missing. */
  predicate HasRequired(body: Obj) {
    forall i :: 0 <= i < |LegacySql.Required| ==>
      LegacySql.Required[i] in body.vals && body.vals[LegacySql.Required[i]] != Null
  }

  const MissingFields: string := "필수 항목이 누락되었습니다."
  const InspectionAdded: string := "Inspection added successfully"

  /** The `INSERT INTO Inspections` row: the seven columns from the body, progress 0 when it has none. */
  function NewInspection(id: int, companyId: int, productId: int, body: Obj, receivedDate: int): (row: InspectionRow)
    ensures row.id == id && row.companyId == companyId && row.productId == productId
    ensures row.userId == PyGet(body, "user_id") && row.receivedDate == receivedDate
    ensures row.cols.Keys == set k | k in UpdateFields
    ensures row.cols["progress_percentage"] == PyGetOr(body, "progress_percentage", Num(0))
    ensures forall k :: k in UpdateFields && k != "progress_percentage" ==> row.cols[k] == PyGet(body, k)
  {
    InspectionRow(id, companyId, productId, PyGet(body, "user_id"), receivedDate,
                  map k | k in UpdateFields :: InsertValue(body, k))
  }

  /** The tables after a successful `add_inspection`: both resolutions, then the insert. */
  function AddedTables(t: Tables, body: Obj, receivedDate: int): Tables {
    var c := ResolveCompany(t, PyGet(body, "company_name"));
    var p := ResolveProduct(c.tables, PyGet(body, "product_name"), PyGet(body, "product_code"));
    var row := NewInspection(p.tables.nextInspectionId, c.id, p.id, body, receivedDate);
    p.tables.(inspections := p.tables.inspections + [row], nextInspectionId := p.tables.nextInspectionId + 1)
  }

  /**
   * A successful add appends exactly one inspection, made by the token's
   * user whatever the body said, with the body's values in the seven
   * columns and progress 0 when the body has none; the users are untouched.
   */
  lemma AddedInspection(t: Tables, data: Obj, user: TokenAuth.CurrentUser, receivedDate: int)
    ensures var n := AddedTables(t, WithTokenUser(data, user), receivedDate);
      |n.inspections| == |t.inspections| + 1 && t.inspections <= n.inspections && n.users == t.users
    ensures var n := AddedTables(t, WithTokenUser(data, user), receivedDate);
      var row := n.inspections[|t.inspections|];
      row.userId == user.userId
      && row.cols["progress_percentage"] == PyGetOr(data, "progress_percentage", Num(0))
      && (forall k :: k in UpdateFields && k != "progress_percentage" ==> row.cols[k] == PyGet(data, k))
  {
    var body := WithTokenUser(data, user);
    assert PyGetOr(body, "progress_percentage", Num(0)) == PyGetOr(data, "progress_percentage", Num(0));
  }

  /** The added inspection points at the company its name resolves to and the product its code resolves to. */
  lemma AddedInspectionKeys(t: Tables, body: Obj, receivedDate: int)
    ensures var n := AddedTables(t, body, receivedDate);
      |n.inspections| == |t.inspections| + 1
      && CompanyIndex(n.companies, PyGet(body, "company_name")) >= 0
      && ProductIndex(n.products, PyGet(body, "product_code")) >= 0
      && n.inspections[|t.inspections|].companyId == n.companies[CompanyIndex(n.companies, PyGet(body, "company_name"))].id
      && n.inspections[|t.inspections|].productId == n.products[ProductIndex(n.products, PyGet(body, "product_code"))].id
  {
    var c := ResolveCompany(t, PyGet(body, "company_name"));
    var p := ResolveProduct(c.tables, PyGet(body, "product_name"), PyGet(body, "product_code"));
    assert p.tables.companies == c.tables.companies;
  }

  /** Appending a row with the counter's value and advancing the counter keeps the ids distinct. */
  lemma CompanyAppendConsistent(companies: seq<CompanyRow>, next: int, name: JsValue)
    requires CompaniesConsistent(companies, next)
    ensures CompaniesConsistent(companies + [CompanyRow(next, name)], next + 1)
  {
  }

  lemma ProductAppendConsistent(products: seq<ProductRow>, next: int, name: JsValue, code: JsValue)
    requires ProductsConsistent(products, next)
    ensures ProductsConsistent(products + [ProductRow(next, name, code)], next + 1)
  {
  }

  lemma InspectionAppendConsistent(inspections: seq<InspectionRow>, row: InspectionRow, next: int)
    requires InspectionsConsistent(inspections, next) && row.id == next
    ensures InspectionsConsistent(inspections + [row], next + 1)
  {
  }

  /** A successful add keeps the identity columns consistent. */
  lemma AddedKeepsConsistent(t: Tables, body: Obj, receivedDate: int)
    requires Consistent(t)
    ensures Consistent(AddedTables(t, body, receivedDate))
  {
    var c := ResolveCompany(t, PyGet(body, "company_name"));
    if CompanyIndex(t.companies, PyGet(body, "company_name")) < 0 {
      CompanyAppendConsistent(t.companies, t.nextCompanyId, PyGet(body, "company_name"));
    }
    var p := ResolveProduct(c.tables, PyGet(body, "product_name"), PyGet(body, "product_code"));
    if ProductIndex(c.tables.products, PyGet(body, "product_code")) < 0 {
      ProductAppendConsistent(c.tables.products, c.tables.nextProductId, PyGet(body, "product_name"), PyGet(body, "product_code"));
    }
    var row := NewInspection(p.tables.nextInspectionId, c.id, p.id, body, receivedDate);
    InspectionAppendConsistent(p.tables.inspections, row, p.tables.nextInspectionId);
  }

  // ---------------------------------------------------------------- update_inspection

  /** `[field for field in data if field in update_fields]`: the body's allowed keys, in body order. */
  function SetColumns(data: Obj): (cols: seq<string>)
    ensures IsSubsequence(cols, data.keys)
    ensures forall k :: k in cols <==> k in data.keys && k in UpdateFields
  {
    FilterIsSubsequence(data.keys, k => k in UpdateFields);
    forall k ensures k in Filter(data.keys, k => k in UpdateFields) <==> k in data.keys && k in UpdateFields {
      FilterMembership(data.keys, k => k in UpdateFields, k);
    }
    Filter(data.keys, k => k in UpdateFields)
  }

  /** `", ".join([f"{field} = ?" for field in cols])`. */
  function SetClause(cols: seq<string>): string {
    Text.JoinWith(seq(|cols|, i requires 0 <= i < |cols| => cols[i] + " = ?"), ", ")
  }

  /** `f"UPDATE Inspections SET {set_clause} WHERE id = ?"`. */
  function UpdateQuery(cols: seq<string>): string {
    UpdateHead + SetClause(cols) + UpdateTail
  }

  /** The parameters: the body's value of each column, then the id. */
  function UpdateParams(data: Obj, cols: seq<string>, id: int): (params: seq<JsValue>)
    ensures |params| == |cols| + 1 && params[|cols|] == Num(id)
    ensures forall i :: 0 <= i < |cols| ==> params[i] == PyGet(data, cols[i])
  {
    seq(|cols|, i requires 0 <= i < |cols| => PyGet(data, cols[i])) + [Num(id)]
  }

  /** The set clause is empty exactly when there is no column to set. */
  lemma {:induction false} ClauseEmptyIff(cols: seq<string>)
    ensures SetClause(cols) == "" <==> cols == []
  {
    if cols != [] {
      var parts := seq(|cols|, i requires 0 <= i < |cols| => cols[i] + " = ?");
      assert |parts[0]| > 0;
      if |parts| > 1 {
        assert Text.JoinWith(parts, ", ") == parts[0] + ", " + Text.JoinWith(parts[1..], ", ");
      }
    }
  }

  /** A clause holds one placeholder per column when no column name holds a `?`. */
  lemma {:induction false} ClausePlaceholders(cols: seq<string>)
    requires forall i :: 0 <= i < |cols| ==> '?' !in cols[i]
    ensures Text.Count(SetClause(cols), '?') == |cols|
  {
    if cols != [] {
      var parts := seq(|cols|, i requires 0 <= i < |cols| => cols[i] + " = ?");
      Text.CountAppend(cols[0], " = ?", '?');
      if |cols| == 1 {
        assert SetClause(cols) == parts[0];
      } else {
        assert parts[1..] == seq(|cols[1..]|, i requires 0 <= i < |cols[1..]| => cols[1..][i] + " = ?");
        ClausePlaceholders(cols[1..]);
        assert SetClause(cols) == parts[0] + ", " + SetClause(cols[1..]);
        Text.CountAppend(parts[0], ", ", '?');
        Text.CountAppend(parts[0] + ", ", SetClause(cols[1..]), '?');
      }
    }
  }

  const UpdateHead: string := "UPDATE Inspections SET "
  const UpdateTail: string := " WHERE id = ?"

  /** Text around a middle part adds only the one `c` that ends it. */
  lemma {:induction false} CountAround(head: string, mid: string, tailPrefix: string, c: char)
    requires c !in head && c !in tailPrefix
    ensures Text.Count(head + mid + (tailPrefix + [c]), c) == Text.Count(mid, c) + 1
  {
    Text.CountAppend(head, mid, c);
    Text.CountAppend(tailPrefix, [c], c);
    Text.CountAppend(head + mid, tailPrefix + [c], c);
  }

  /** The statement holds one placeholder per column and one for the id. */
  lemma QueryPlaceholders(cols: seq<string>)
    requires forall i :: 0 <= i < |cols| ==> '?' !in cols[i]
    ensures Text.Count(UpdateQuery(cols), '?') == |cols| + 1
  {
    ClausePlaceholders(cols);
    assert UpdateTail == " WHERE id = " + ['?'];
    CountAround(UpdateHead, SetClause(cols), " WHERE id = ", '?');
  }

  lemma NoPlaceholderInFields(k: string)
    requires k in UpdateFields
    ensures '?' !in k
  {
  }

  /** The parameters line up with the statement: as many as it has placeholders, the id last. */
  lemma ParamsMatchPlaceholders(data: Obj, id: int)
    ensures Text.Count(UpdateQuery(SetColumns(data)), '?') == |UpdateParams(data, SetColumns(data), id)|
  {
    var cols := SetColumns(data);
    forall i | 0 <= i < |cols| ensures '?' !in cols[i] {
      NoPlaceholderInFields(cols[i]);
    }
    QueryPlaceholders(cols);
  }

  /** What executing `SET c1 = ?, c2 = ?, ...` with these parameters assigns: each column its parameter. */
  function Assignment(cols: seq<string>, params: seq<JsValue>): (m: map<string, JsValue>)
    requires |cols| <= |params|
    ensures m.Keys == set k | k in cols
  {
    if cols == [] then map[]
    else Assignment(cols[..|cols| - 1], params)[cols[|cols| - 1] := params[|cols| - 1]]
  }

  /** When every parameter is the value of its column, the assignment gives each column that value. */
  lemma {:induction false} AssignmentAligned(cols: seq<string>, params: seq<JsValue>, value: string -> JsValue)
    requires |cols| <= |params|
    requires forall i :: 0 <= i < |cols| ==> params[i] == value(cols[i])
    ensures Assignment(cols, params) == map k | k in cols :: value(k)
  {
    if cols != [] {
      AssignmentAligned(cols[..|cols| - 1], params, value);
      assert forall k :: k in cols <==> k in cols[..|cols| - 1] || k == cols[|cols| - 1];
    }
  }

  /**
   * `update_inspection` writes exactly the body's keys among the seven
   * allowed columns, each with the body's value.
   */
  lemma UpdateWritesAllowedKeys(data: Obj, id: int)
    requires WellFormed(data)
    ensures Assignment(SetColumns(data), UpdateParams(data, SetColumns(data), id))
      == map k | k in data.vals && k in UpdateFields :: data.vals[k]
  {
    AssignmentAligned(SetColumns(data), UpdateParams(data, SetColumns(data), id), k => PyGet(data, k));
  }

  /** `UPDATE Inspections SET ... WHERE id = ?`: every row with that id gets the assignment. */
  function UpdatedRows(rows: seq<InspectionRow>, id: int, assign: map<string, JsValue>): (r: seq<InspectionRow>)
    ensures |r| == |rows|
    ensures forall i :: 0 <= i < |rows| ==>
      r[i] == if rows[i].id == id then rows[i].(cols := rows[i].cols + assign) else rows[i]
  {
    if rows == [] then []
    else
      var head := if rows[0].id == id then rows[0].(cols := rows[0].cols + assign) else rows[0];
      [head] + UpdatedRows(rows[1..], id, assign)
  }

  /** An update of an id no row has changes nothing, yet the handler still reports success. */
  lemma UpdateOfMissingIdChangesNothing(rows: seq<InspectionRow>, id: int, assign: map<string, JsValue>)
    requires forall i :: 0 <= i < |rows| ==> rows[i].id != id
    ensures UpdatedRows(rows, id, assign) == rows
  {
  }

  /** The updated row keeps every column the assignment does not name. */
  lemma UpdateKeepsOtherColumns(rows: seq<InspectionRow>, id: int, assign: map<string, JsValue>, i: nat, k: string)
    requires i < |rows| && k in rows[i].cols && k !in assign
    ensures UpdatedRows(rows, id, assign)[i].cols[k] == rows[i].cols[k]
  {
  }

  const NoValidFields: string := "No valid fields to update"
  const InspectionUpdated: string := "Inspection updated successfully"
  const InspectionDeleted: string := "Inspection deleted successfully"

  /** The older `update_inspection`'s parameters: every one of the seven columns, `None` when absent, then the id. */
  function LegacyParams(data: Obj, id: int): (params: seq<JsValue>)
    ensures |params| == |UpdateFields| + 1 && params[|UpdateFields|] == Num(id)
    ensures forall i :: 0 <= i < |UpdateFields| ==> params[i] == PyGet(data, UpdateFields[i])
  {
    UpdateParams(data, UpdateFields, id)
  }

  /** The older update sets all seven columns, and a key the body lacks sets its column to NULL. */
  lemma LegacyUpdateSetsAll(data: Obj, id: int)
    ensures Assignment(UpdateFields, LegacyParams(data, id)) == map k | k in UpdateFields :: PyGet(data, k)
    ensures forall k :: k in UpdateFields && k !in data.vals ==> Assignment(UpdateFields, LegacyParams(data, id))[k] == Null
  {
    AssignmentAligned(UpdateFields, LegacyParams(data, id), k => PyGet(data, k));
  }

  // ---------------------------------------------------------------- delete_inspection

  /**
   * `DELETE FROM Inspections WHERE id = ?`: every row with that id goes, and
   * every other row stays, each copy of it, in its place.
   */
  function DeletedRows(rows: seq<InspectionRow>, id: int): (r: seq<InspectionRow>)
    ensures IsSubsequence(r, rows)
    ensures forall x :: multiset(r)[x] == if x.id == id then 0 else multiset(rows)[x]
    ensures forall x :: x in r <==> x in rows && x.id != id
  {
    FilterIsSubsequence(rows, (x: InspectionRow) => x.id != id);
    FilterMultiset(rows, (x: InspectionRow) => x.id != id);
    forall x ensures x in Filter(rows, (x: InspectionRow) => x.id != id) <==> x in rows && x.id != id {
      FilterMembership(rows, (x: InspectionRow) => x.id != id, x);
    }
    Filter(rows, (x: InspectionRow) => x.id != id)
  }

  /** An update writes columns only, so the identity columns stay consistent. */
  lemma UpdateKeepsConsistent(t: Tables, id: int, assign: map<string, JsValue>)
    requires Consistent(t)
    ensures Consistent(t.(inspections := UpdatedRows(t.inspections, id, assign)))
  {
    var r := UpdatedRows(t.inspections, id, assign);
    assert forall i :: 0 <= i < |r| ==> r[i].id == t.inspections[i].id;
  }

  /** A delete only removes rows, so the identity columns stay consistent. */
  lemma DeleteKeepsConsistent(t: Tables, id: int)
    requires Consistent(t)
    ensures Consistent(t.(inspections := DeletedRows(t.inspections, id)))
  {
    FilterKeepsKeys(t.inspections, (x: InspectionRow) => x.id != id, (x: InspectionRow) => x.id, t.nextInspectionId);
  }

  // ---------------------------------------------------------------- get_inspections

  /** A row of the joined list. */
  datatype ListedRow = ListedRow(id: int, username: string, companyName: JsValue, productName: JsValue,
                                 productCode: JsValue, receivedDate: int, cols: map<string, JsValue>)

  /**
   * The inspection columns the `SELECT` lists: the same seven the body fills.
   * A column the row does not hold reads as `NULL`; any other column, such as
   * `image_path` or `excel_path`, is not listed.
   */
  function Projected(cols: map<string, JsValue>): (r: map<string, JsValue>)
    ensures r.Keys == set k | k in UpdateFields
    ensures forall k :: k in UpdateFields ==> r[k] == if k in cols then cols[k] else Null
  {
    map k | k in UpdateFields :: if k in cols then cols[k] else Null
  }

  /** The inner join of one inspection with its user, company and product; none when one is missing. */
  function JoinRow(t: Tables, row: InspectionRow): Option<ListedRow> {
    var u := FindIndex(t.users, (x: UserRow) => Num(x.id) == row.userId);
    var c := FindIndex(t.companies, (x: CompanyRow) => x.id == row.companyId);
    var p := FindIndex(t.products, (x: ProductRow) => x.id == row.productId);
    if u < 0 || c < 0 || p < 0 then None
    else Some(ListedRow(row.id, t.users[u].username, t.companies[c].companyName, t.products[p].productName,
                        t.products[p].productCode, row.receivedDate, Projected(row.cols)))
  }

  /** The joined rows in table order; an inspection without a user, company or product drops out. */
  function Joined(t: Tables, rows: seq<InspectionRow>): (r: seq<ListedRow>)
    ensures |r| <= |rows|
    ensures forall x :: x in r <==> exists i :: 0 <= i < |rows| && JoinRow(t, rows[i]) == Some(x)
    ensures |r| == |rows| <==> forall i :: 0 <= i < |rows| ==> JoinRow(t, rows[i]).Some?
    ensures |r| == |rows| ==> forall i :: 0 <= i < |rows| ==> r[i] == JoinRow(t, rows[i]).value
  {
    var join := (row: InspectionRow) => JoinRow(t, row);
    forall x ensures x in FilterMap(rows, join) <==> exists i :: 0 <= i < |rows| && join(rows[i]) == Some(x) {
      FilterMapMembership(rows, join, x);
    }
    FilterMapTotal(rows, join);
    FilterMap(rows, join)
  }

  /** Joining keeps the table order: the rows of `a` come before those of `b`. */
  lemma JoinedAppend(t: Tables, a: seq<InspectionRow>, b: seq<InspectionRow>)
    ensures Joined(t, a + b) == Joined(t, a) + Joined(t, b)
  {
    FilterMapAppend(a, b, (row: InspectionRow) => JoinRow(t, row));
  }

  predicate NewestFirst(s: seq<ListedRow>) {
    forall i, j :: 0 <= i < j < |s| ==> s[i].receivedDate >= s[j].receivedDate
  }

  /** Newest first, stated on neighbours only. */
  predicate DescendingSteps(s: seq<ListedRow>) {
    forall i :: 0 <= i < |s| - 1 ==> s[i].receivedDate >= s[i + 1].receivedDate
  }

  lemma {:induction false} StepsGiveNewestFirst(s: seq<ListedRow>)
    requires DescendingSteps(s)
    ensures NewestFirst(s)
  {
    if |s| > 1 {
      assert DescendingSteps(s[1..]) by {
        forall i | 0 <= i < |s[1..]| - 1 ensures s[1..][i].receivedDate >= s[1..][i + 1].receivedDate {
          assert s[1..][i] == s[i + 1] && s[1..][i + 1] == s[i + 2];
        }
      }
      StepsGiveNewestFirst(s[1..]);
      forall i, j | 0 <= i < j < |s| ensures s[i].receivedDate >= s[j].receivedDate {
        if i == 0 && j > 1 {
          assert s[1..][0] == s[1] && s[1..][j - 1] == s[j];
        } else if i > 0 {
          assert s[1..][i - 1] == s[i] && s[1..][j - 1] == s[j];
        }
      }
    }
  }

  /** Insert a row before the first one that is not newer. */
  function InsertByDate(x: ListedRow, s: seq<ListedRow>): (r: seq<ListedRow>)
    requires DescendingSteps(s)
    ensures DescendingSteps(r)
    ensures |r| == |s| + 1 && (r[0] == x || (s != [] && r[0] == s[0]))
    ensures multiset(r) == multiset(s) + multiset{x}
  {
    if s == [] || s[0].receivedDate <= x.receivedDate then [x] + s
    else
      assert DescendingSteps(s[1..]) by {
        forall i | 0 <= i < |s[1..]| - 1 ensures s[1..][i].receivedDate >= s[1..][i + 1].receivedDate {
          assert s[1..][i] == s[i + 1];
        }
      }
      var rest := InsertByDate(x, s[1..]);
      assert s == [s[0]] + s[1..];
      [s[0]] + rest
  }

  /** `ORDER BY i.received_date DESC` (rows of the same date in an order the model fixes). */
  function NewestFirstOrder(s: seq<ListedRow>): (r: seq<ListedRow>)
    ensures DescendingSteps(r)
    ensures multiset(r) == multiset(s)
  {
    if s == [] then []
    else
      assert s == [s[0]] + s[1..];
      InsertByDate(s[0], NewestFirstOrder(s[1..]))
  }

  /** `GET /inspections`: the joined rows, newest received first, each with the selected columns only. */
  function GetInspections(t: Tables): (r: seq<ListedRow>)
    ensures NewestFirst(r)
    ensures multiset(r) == multiset(Joined(t, t.inspections))
    ensures forall i :: 0 <= i < |r| ==> r[i].cols.Keys == set k | k in UpdateFields
  {
    var r := NewestFirstOrder(Joined(t, t.inspections));
    StepsGiveNewestFirst(r);
    forall i | 0 <= i < |r| ensures r[i].cols.Keys == set k | k in UpdateFields {
      assert r[i] in multiset(Joined(t, t.inspections));
      assert r[i] in Joined(t, t.inspections);
    }
    r
  }

  // ---------------------------------------------------------------- the store

  /** The database as the handlers see it. */
  class Store {
    var users: seq<UserRow>
    var companies: seq<CompanyRow>
    var products: seq<ProductRow>
    var inspections: seq<InspectionRow>
    var nextCompanyId: int
    var nextProductId: int
    var nextInspectionId: int

    function Snapshot(): Tables
      reads this
    {
      Tables(users, companies, products, inspections, nextCompanyId, nextProductId, nextInspectionId)
    }

    constructor(init: Tables)
      ensures Snapshot() == init
    {
      users, companies, products, inspections := init.users, init.companies, init.products, init.inspections;
      nextCompanyId, nextProductId, nextInspectionId := init.nextCompanyId, init.nextProductId, init.nextInspectionId;
    }

    /**
     * Makes the tables those of `t`: the effect of one statement whose new
     * tables a function above computes, and `conn.rollback()` when `t` is the
     * state the transaction started from.
     */
    method Load(t: Tables)
      modifies this
      ensures Snapshot() == t
    {
      users, companies, products, inspections := t.users, t.companies, t.products, t.inspections;
      nextCompanyId, nextProductId, nextInspectionId := t.nextCompanyId, t.nextProductId, t.nextInspectionId;
    }

    /**
     * `login` (auth.py): 400 before any lookup, 401 for an unknown user or a
     * wrong password, and on success `last_login` stamped for that username
     * and the signed claims returned with the same `user`. A failing
     * statement answers 500 and commits nothing.
     */
    method Login(data: Obj, verify: (JsValue, string) -> bool, sign: TokenAuth.Payload -> string,
                 nowMs: int, dbNow: int, failure: Option<string>) returns (reply: LoginReply)
      modifies this
      ensures var d := TokenAuth.Decide(PyGet(data, "username"), PyGet(data, "password"),
                                        AccountOf(old(users), PyGet(data, "username")), verify, nowMs);
        && (d.MissingCredentials? ==>
              reply == LoginReply(400, TokenAuth.CredentialsRequired, None, None) && Snapshot() == old(Snapshot()))
        && (!d.MissingCredentials? && failure.Some? ==>
              reply == LoginReply(500, ErrorPrefix + failure.value, None, None) && Snapshot() == old(Snapshot()))
        && (d.BadCredentials? && failure.None? ==>
              reply == LoginReply(401, TokenAuth.InvalidCredentials, None, None) && Snapshot() == old(Snapshot()))
        && (d.Issue? && failure.None? ==>
              reply == LoginReply(200, TokenAuth.LoginSuccessful, Some(sign(d.payload)), Some(d.user))
              && Snapshot() == old(Snapshot()).(users := Stamped(old(users), PyGet(data, "username"), dbNow)))
      ensures Consistent(old(Snapshot())) ==> Consistent(Snapshot())
    {
      var username := PyGet(data, "username");
      var password := PyGet(data, "password");
      if PyFalsy(username) || PyFalsy(password) {
        reply := LoginReply(400, TokenAuth.CredentialsRequired, None, None);
        return;
      }
      if failure.Some? {
        reply := LoginReply(500, ErrorPrefix + failure.value, None, None);
        return;
      }
      var d := TokenAuth.Decide(username, password, AccountOf(users, username), verify, nowMs);
      if d.Issue? {
        users := Stamped(users, username, dbNow);
        reply := LoginReply(200, TokenAuth.LoginSuccessful, Some(sign(d.payload)), Some(d.user));
      } else {
        reply := LoginReply(401, TokenAuth.InvalidCredentials, None, None);
      }
    }

    /**
     * The statements of the `try` block before the commit: get or create the
     * company, then the product, then insert the inspection row.
     */
    method InsertSteps(body: Obj, receivedDate: int)
      modifies this
      ensures Snapshot() == AddedTables(old(Snapshot()), body, receivedDate)
    {
      var c := ResolveCompany(Snapshot(), PyGet(body, "company_name"));
      Load(c.tables);
      var p := ResolveProduct(Snapshot(), PyGet(body, "product_name"), PyGet(body, "product_code"));
      Load(p.tables);
      var row := NewInspection(nextInspectionId, c.id, p.id, body, receivedDate);
      inspections := inspections + [row];
      nextInspectionId := nextInspectionId + 1;
    }

    /**
     * `add_inspection` (inspections.py), for the user the token names: 400
     * with nothing touched when a required key is missing or `None`;
     * otherwise company, product and inspection in one transaction, 201 on
     * commit, and on a failing statement a rollback and 500. The database
     * fills `received_date`; its value is a parameter here.
     */
    method AddInspection(data: Obj, user: TokenAuth.CurrentUser, receivedDate: int, failure: Option<string>)
      returns (reply: Reply)
      modifies this
      ensures !HasRequired(WithTokenUser(data, user)) ==>
        reply == Reply(400, MissingFields) && Snapshot() == old(Snapshot())
      ensures HasRequired(WithTokenUser(data, user)) && failure.None? ==>
        reply == Reply(201, InspectionAdded)
        && Snapshot() == AddedTables(old(Snapshot()), WithTokenUser(data, user), receivedDate)
      ensures HasRequired(WithTokenUser(data, user)) && failure.Some? ==>
        reply == Reply(500, ErrorPrefix + failure.value) && Snapshot() == old(Snapshot())
      ensures Consistent(old(Snapshot())) ==> Consistent(Snapshot())
    {
      var body := WithTokenUser(data, user);
      if !HasRequired(body) {
        reply := Reply(400, MissingFields);
        return;
      }
      var before := Snapshot();
      InsertSteps(body, receivedDate);
      if failure.Some? {
        Load(before);
        reply := Reply(500, ErrorPrefix + failure.value);
      } else {
        reply := Reply(201, InspectionAdded);
        if Consistent(before) {
          AddedKeepsConsistent(before, body, receivedDate);
        }
      }
    }

    /**
     * `update_inspection` (inspections.py): 400 with nothing touched when
     * the body names none of the seven columns; otherwise the named columns
     * of every row with that id, and 200 even when there is none.
     */
    method UpdateInspection(id: int, data: Obj, failure: Option<string>) returns (reply: Reply)
      modifies this
      ensures SetColumns(data) == [] ==> reply == Reply(400, NoValidFields) && Snapshot() == old(Snapshot())
      ensures SetColumns(data) != [] && failure.Some? ==>
        reply == Reply(500, ErrorPrefix + failure.value) && Snapshot() == old(Snapshot())
      ensures SetColumns(data) != [] && failure.None? ==>
        reply == Reply(200, InspectionUpdated)
        && Snapshot() == old(Snapshot()).(inspections := UpdatedRows(old(inspections), id,
                           Assignment(SetColumns(data), UpdateParams(data, SetColumns(data), id))))
      ensures Consistent(old(Snapshot())) ==> Consistent(Snapshot())
    {
      var cols := SetColumns(data);
      var clause := SetClause(cols);
      ClauseEmptyIff(cols);
      if clause == "" {
        reply := Reply(400, NoValidFields);
        return;
      }
      var params := UpdateParams(data, cols, id);
      if failure.Some? {
        reply := Reply(500, ErrorPrefix + failure.value);
        return;
      }
      if Consistent(Snapshot()) {
        UpdateKeepsConsistent(Snapshot(), id, Assignment(cols, params));
      }
      inspections := UpdatedRows(inspections, id, Assignment(cols, params));
      reply := Reply(200, InspectionUpdated);
    }

    /** The older `update_inspection` (app.py): all seven columns, `None` for absent keys, 200. */
    method LegacyUpdateInspection(id: int, data: Obj, failure: Option<string>) returns (reply: Reply)
      modifies this
      ensures failure.Some? ==> reply == Reply(500, ErrorPrefix + failure.value) && Snapshot() == old(Snapshot())
      ensures failure.None? ==>
        reply == Reply(200, InspectionUpdated)
        && Snapshot() == old(Snapshot()).(inspections := UpdatedRows(old(inspections), id,
                           Assignment(UpdateFields, LegacyParams(data, id))))
      ensures Consistent(old(Snapshot())) ==> Consistent(Snapshot())
    {
      var params := LegacyParams(data, id);
      if failure.Some? {
        reply := Reply(500, ErrorPrefix + failure.value);
        return;
      }
      if Consistent(Snapshot()) {
        UpdateKeepsConsistent(Snapshot(), id, Assignment(UpdateFields, params));
      }
      inspections := UpdatedRows(inspections, id, Assignment(UpdateFields, params));
      reply := Reply(200, InspectionUpdated);
    }

    /** `delete_inspection` (both versions): every row with that id goes, and 200 even when there was none. */
    method DeleteInspection(id: int, failure: Option<string>) returns (reply: Reply)
      modifies this
      ensures failure.Some? ==> reply == Reply(500, ErrorPrefix + failure.value) && Snapshot() == old(Snapshot())
      ensures failure.None? ==>
        reply == Reply(200, InspectionDeleted)
        && Snapshot() == old(Snapshot()).(inspections := DeletedRows(old(inspections), id))
      ensures Consistent(old(Snapshot())) ==> Consistent(Snapshot())
    {
      if failure.Some? {
        reply := Reply(500, ErrorPrefix + failure.value);
        return;
      }
      if Consistent(Snapshot()) {
        DeleteKeepsConsistent(Snapshot(), id);
      }
      inspections := DeletedRows(inspections, id);
      reply := Reply(200, InspectionDeleted);
    }

    /**
     * `upload_file` with `secure_filename` available (`sanitize`): the checks
     * of the handler as written, then the sanitised name recorded in the
     * column its extension selects, for every row with that id, and 201.
     * `app.config['UPLOAD_FOLDER']` is read before anything is stored: when
     * it is not configured (`uploadFolder` is `None`) the lookup raises and
     * the answer is 500. A sanitised name without a dot makes the `rsplit`
     * raise (500); a failing update rolls back and answers 500.
     */
    method UploadFile(id: int, req: Uploads.UploadRequest, sanitize: string -> string,
                      uploadFolder: Option<string>, failure: Option<string>)
      returns (reply: Uploads.UploadReply)
      modifies this
      ensures reply.status != 201 ==> Snapshot() == old(Snapshot())
      ensures req.NoFilePart? || !Uploads.AllowedFile(req.filename) ==>
        reply == Uploads.UploadAsWritten(req)
      ensures req.FilePart? && Uploads.AllowedFile(req.filename) ==>
        var target := Uploads.UploadTarget(id, req.filename, sanitize);
        && (uploadFolder.None? || target.None? ==>
              reply == Uploads.UploadReply(500, Uploads.InternalServerError, None))
        && (uploadFolder.Some? && target.Some? && failure.Some? ==>
              reply == Uploads.UploadReply(500, "DB update failed: " + failure.value, None))
        && (uploadFolder.Some? && target.Some? && failure.None? ==>
              reply == Uploads.UploadReply(201, Uploads.Uploaded, Some(target.value.1))
              && Snapshot() == old(Snapshot()).(inspections := UpdatedRows(old(inspections), id,
                                 map[target.value.0 := Str(target.value.1)])))
      ensures Consistent(old(Snapshot())) ==> Consistent(Snapshot())
    {
      match req {
        case NoFilePart =>
          reply := Uploads.UploadReply(400, Uploads.NoFilePartMessage, None);
        case FilePart(name) =>
          if name == "" {
            reply := Uploads.UploadReply(400, Uploads.NoSelectedFile, None);
          } else if !Uploads.AllowedFile(name) {
            reply := Uploads.UploadReply(400, Uploads.TypeNotAllowed, None);
          } else {
            var target := Uploads.UploadTarget(id, name, sanitize);
            if uploadFolder.None? || target.None? {
              reply := Uploads.UploadReply(500, Uploads.InternalServerError, None);
            } else if failure.Some? {
              reply := Uploads.UploadReply(500, "DB update failed: " + failure.value, None);
            } else {
              var (column, stored) := target.value;
              if Consistent(Snapshot()) {
                UpdateKeepsConsistent(Snapshot(), id, map[column := Str(stored)]);
              }
              inspections := UpdatedRows(inspections, id, map[column := Str(stored)]);
              reply := Uploads.UploadReply(201, Uploads.Uploaded, Some(stored));
            }
          }
      }
    }
  }
}
