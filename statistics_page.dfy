/**
 * The statistics page (frontend/src/components/StatisticsPage.jsx): grouping
 * inspections by company or product with their defective quantities, the
 * defect-reason breakdown of one product, and the company/product filter
 * cascade.
 */
module StatisticsPage {
  import opened JsSemantics
  import opened Collections
  import opened StatsGrid

  /** The six defect reasons the reason chart counts. */
  const DefectReasons: seq<string> := ["절곡", "샤링", "제관", "용접", "가공", "작업자 실수"]

  // ---------------------------------------------------------------- aggregateData

  /** The property key an item is grouped under: `result[item[key]]` converts the value with `String`. */
  function GroupKey(item: Obj, key: string): string {
    ToJsString(Get(item, key))
  }

  /** The group key of every item, in order. */
  function Keys(data: seq<Obj>, key: string): (ks: seq<string>)
    ensures |ks| == |data|
    ensures forall i :: 0 <= i < |data| ==> ks[i] == GroupKey(data[i], key)
  {
    seq(|data|, i requires 0 <= i < |data| => GroupKey(data[i], key))
  }

  /** The keys of one more item are the old keys followed by its own. */
  lemma KeysSnoc(done: seq<Obj>, x: Obj, key: string)
    ensures Keys(done + [x], key) == Keys(done, key) + [GroupKey(x, key)]
  {
  }

  /** The defective quantity of the items in group `g` (`|| 0` for each). */
  function GroupSum(data: seq<Obj>, key: string, g: string): int {
    if data == [] then 0
    else
      var n := |data| - 1;
      GroupSum(data[..n], key, g) + (if GroupKey(data[n], key) == g then QuantityOr0(data[n], "defective_quantity") else 0)
  }

  /** One bar of the company or product chart: `{ name, 불량수량 }`. */
  datatype Group = Group(name: JsValue, defects: int)

  /** The group that `aggregateData` builds for key `g`, once `done` has been traversed. */
  function GroupOf(done: seq<Obj>, key: string, g: string): Group
    requires g in Keys(done, key)
  {
    Group(Get(done[FirstIndex(Keys(done, key), g)], key), GroupSum(done, key, g))
  }

  /**
   * After the items `done`: `order` lists the group keys in the order they
   * were created, and `result` holds, for each of them, the group named after
   * the first item with that key and carrying the running total.
   */
  ghost predicate Aggregated(done: seq<Obj>, key: string, order: seq<string>, result: map<string, Group>) {
    order == Distinct(Keys(done, key))
    && (forall g :: g in result <==> g in order)
    && (forall g :: g in result ==> g in Keys(done, key) && result[g] == GroupOf(done, key, g))
  }

  /** The creation order after one more item: a new key is appended. */
  function StepOrder(order: seq<string>, result: map<string, Group>, x: Obj, key: string): seq<string> {
    if GroupKey(x, key) in result then order else order + [GroupKey(x, key)]
  }

  /**
   * `next` holds the groups after one more item `x`: its group is created if
   * new, then its quantity is added; every other group is unchanged.
   */
  ghost predicate Stepped(result: map<string, Group>, x: Obj, key: string, next: map<string, Group>) {
    var group := GroupKey(x, key);
    (forall g :: g in next <==> g in result || g == group)
    && (forall g :: g in result && g != group ==> next[g] == result[g])
    && group in next
    && next[group] == (if group in result then result[group] else Group(Get(x, key), 0))
                        .(defects := (if group in result then result[group].defects else 0) + QuantityOr0(x, "defective_quantity"))
  }

  /** One `forEach` step keeps `Aggregated`. */
  lemma AggregateStep(done: seq<Obj>, x: Obj, key: string, order: seq<string>, result: map<string, Group>,
                      result': map<string, Group>)
    requires Aggregated(done, key, order, result)
    requires Stepped(result, x, key, result')
    ensures Aggregated(done + [x], key, StepOrder(order, result, x, key), result')
  {
    var group := GroupKey(x, key);
    var order' := StepOrder(order, result, x, key);
    var ks := Keys(done, key);
    var ks' := Keys(done + [x], key);
    KeysSnoc(done, x, key);
    DistinctSnoc(ks, group);
    assert (done + [x])[..|done|] == done;
    assert ks'[..|done|] == ks;
    assert order' == Distinct(ks');
    assert forall g :: g in ks ==> g in result;
    forall g | g in result'
      ensures g in ks' && result'[g] == GroupOf(done + [x], key, g)
    {
      AggregateStepGroup(done, x, key, result, result', g);
    }
    assert forall g :: g in result' <==> g in order';
    assert Aggregated(done + [x], key, order', result');
  }

  lemma AggregateStepGroup(done: seq<Obj>, x: Obj, key: string, result: map<string, Group>, result': map<string, Group>, g: string)
    requires forall g :: g in result ==> g in Keys(done, key) && result[g] == GroupOf(done, key, g)
    requires forall g :: g in Keys(done, key) ==> g in result
    requires Stepped(result, x, key, result')
    requires g in result'
    ensures g in Keys(done + [x], key) && result'[g] == GroupOf(done + [x], key, g)
  {
    var group := GroupKey(x, key);
    var ks := Keys(done, key);
    var ks' := Keys(done + [x], key);
    KeysSnoc(done, x, key);
    assert ks'[..|done|] == ks;
    assert (done + [x])[..|done|] == done;
    assert GroupSum(done + [x], key, g) == GroupSum(done, key, g) + (if group == g then QuantityOr0(x, "defective_quantity") else 0);
    if g in ks {
      FirstIndexOfPrefix(ks', |done|, g);
    } else {
      assert FirstIndex(ks', g) == |done|;
      GroupSumAbsent(done, key, g);
    }
  }

  /**
   * The `forEach` callback of `aggregateData`: create the item's group if it
   * is new, then add the item's defective quantity to it.
   */
  method AddToGroup(order: seq<string>, result: map<string, Group>, item: Obj, key: string)
    returns (order': seq<string>, result': map<string, Group>)
    ensures order' == StepOrder(order, result, item, key)
    ensures Stepped(result, item, key, result')
  {
    var group := GroupKey(item, key);
    order', result' := order, result;
    if group !in result' {
      result' := result'[group := Group(Get(item, key), 0)];
      order' := order' + [group];
    }
    var current := result'[group];
    result' := result'[group := current.(defects := current.defects + QuantityOr0(item, "defective_quantity"))];
  }

  /**
   * `aggregateData(data, key)`: one group per distinct key value; each group
   * is named after the raw value of the first item with that key and carries
   * the total defective quantity of its items.
   */
  method AggregateData(data: seq<Obj>, key: string) returns (groups: seq<Group>)
    ensures |groups| == |Distinct(Keys(data, key))|
    ensures forall i :: 0 <= i < |groups| ==>
      groups[i].defects == GroupSum(data, key, Distinct(Keys(data, key))[i])
      && groups[i].name == Get(data[FirstIndex(Keys(data, key), Distinct(Keys(data, key))[i])], key)
  {
    var order: seq<string> := [];
    var result: map<string, Group> := map[];
    var i := 0;
    while i < |data|
      invariant 0 <= i <= |data|
      invariant Aggregated(data[..i], key, order, result)
    {
      var order', result' := AddToGroup(order, result, data[i], key);
      AggregateStep(data[..i], data[i], key, order, result, result');
      assert data[..i + 1] == data[..i] + [data[i]];
      order, result := order', result';
      i := i + 1;
    }
    assert data[..|data|] == data;
    AggregatedGroups(data, key, order, result);
    groups := seq(|order|, j requires 0 <= j < |order| => result[order[j]]);
  }

  /** Once every item is traversed, the groups listed in creation order are those of the ensures of `AggregateData`. */
  lemma AggregatedGroups(data: seq<Obj>, key: string, order: seq<string>, result: map<string, Group>)
    requires Aggregated(data, key, order, result)
    ensures order == Distinct(Keys(data, key))
    ensures forall j :: 0 <= j < |order| ==>
      order[j] in result
      && result[order[j]].defects == GroupSum(data, key, order[j])
      && result[order[j]].name == Get(data[FirstIndex(Keys(data, key), order[j])], key)
  {
  }

  /** The total over a list of group keys. */
  function SumGroups(gs: seq<string>, data: seq<Obj>, key: string): int {
    if gs == [] then 0 else SumGroups(gs[..|gs| - 1], data, key) + GroupSum(data, key, gs[|gs| - 1])
  }

  /** A key that no item has collects nothing. */
  lemma {:induction false} GroupSumAbsent(data: seq<Obj>, key: string, g: string)
    requires g !in Keys(data, key)
    ensures GroupSum(data, key, g) == 0
  {
    if data != [] {
      var n := |data| - 1;
      assert Keys(data[..n], key) == Keys(data, key)[..n];
      GroupSumAbsent(data[..n], key, g);
    }
  }

  /** Adding one item adds its quantity to the total of exactly the group it belongs to. */
  lemma {:induction false} SumGroupsSnoc(gs: seq<string>, data: seq<Obj>, key: string)
    requires data != [] && NoDup(gs)
    ensures SumGroups(gs, data, key) == SumGroups(gs, data[..|data| - 1], key)
      + (if GroupKey(data[|data| - 1], key) in gs then QuantityOr0(data[|data| - 1], "defective_quantity") else 0)
  {
    if gs != [] {
      var m := |gs| - 1;
      assert NoDup(gs[..m]);
      SumGroupsSnoc(gs[..m], data, key);
      assert gs == gs[..m] + [gs[m]];
      assert gs[m] !in gs[..m];
    }
  }

  /** The groups of `aggregateData` together hold the whole defective quantity of the data. */
  lemma {:induction false} GroupTotals(data: seq<Obj>, key: string)
    ensures SumGroups(Distinct(Keys(data, key)), data, key) == SumField(data, "defective_quantity")
  {
    if data != [] {
      var n := |data| - 1;
      var p := data[..n];
      var k := GroupKey(data[n], key);
      GroupTotals(p, key);
      assert Keys(data, key) == Keys(p, key) + [k];
      DistinctSnoc(Keys(p, key), k);
      SumGroupsSnoc(Distinct(Keys(data, key)), data, key);
      if k !in Keys(p, key) {
        GroupSumAbsent(p, key, k);
        var d := Distinct(Keys(p, key));
        assert (d + [k])[..|d|] == d;
      }
    }
  }

  // ---------------------------------------------------------------- aggregateReasonsForProduct

  /** One bar of the reason chart: `{ name, count }`. */
  datatype ReasonCount = ReasonCount(name: string, count: int)

  /** `item.product_name === productName`. */
  predicate OfProduct(item: Obj, productName: JsValue) {
    StrictEq(Get(item, "product_name"), productName)
  }

  /** The test `item => item.product_name === productName`. */
  function ProductTest(productName: JsValue): Obj -> bool {
    item => OfProduct(item, productName)
  }

  /** The items of one product, in order. */
  function ProductItems(data: seq<Obj>, productName: JsValue): seq<Obj> {
    Filter(data, ProductTest(productName))
  }

  /** The defective quantity of the items whose reason is `reason`. */
  function ReasonTotal(items: seq<Obj>, reason: string): int {
    if items == [] then 0
    else
      var n := |items| - 1;
      ReasonTotal(items[..n], reason) + (if GroupKey(items[n], "defect_reason") == reason then QuantityOr0(items[n], "defective_quantity") else 0)
  }

  /** The six reasons in order, each with its total over `items`. */
  function ReasonRows(items: seq<Obj>): (rows: seq<ReasonCount>)
    ensures |rows| == |DefectReasons|
    ensures forall j :: 0 <= j < |rows| ==> rows[j] == ReasonCount(DefectReasons[j], ReasonTotal(items, DefectReasons[j]))
  {
    seq(|DefectReasons|, j requires 0 <= j < |DefectReasons| => ReasonCount(DefectReasons[j], ReasonTotal(items, DefectReasons[j])))
  }

  /** `r => r.count > 0`. */
  predicate Positive(rc: ReasonCount) { rc.count > 0 }

  /**
   * `aggregateReasonsForProduct(data, productName)`: for each of the six
   * reasons in their fixed order, the defective quantity of that product's
   * items with that reason, keeping only the reasons whose count is positive.
   */
  method AggregateReasonsForProduct(data: seq<Obj>, productName: JsValue) returns (r: seq<ReasonCount>)
    ensures r == Filter(ReasonRows(ProductItems(data, productName)), Positive)
  {
    var items := ProductItems(data, productName);
    var counts := CountReasons(items);
    var values := seq(|DefectReasons|, j requires 0 <= j < |DefectReasons| => ReasonCount(DefectReasons[j], counts[DefectReasons[j]]));
    assert values == ReasonRows(items);
    r := Filter(values, Positive);
  }

  /**
   * The two `forEach` loops of `aggregateReasonsForProduct`: a zero count for
   * each of the six reasons, then each item's defective quantity added to the
   * count of its reason when that reason is one of the six.
   */
  method CountReasons(items: seq<Obj>) returns (counts: map<string, int>)
    ensures forall reason :: reason in counts <==> reason in DefectReasons
    ensures forall reason :: reason in counts ==> counts[reason] == ReasonTotal(items, reason)
  {
    counts := map[];
    for j := 0 to |DefectReasons|
      invariant forall reason :: reason in counts <==> reason in DefectReasons[..j]
      invariant forall reason :: reason in counts ==> counts[reason] == 0
    {
      counts := counts[DefectReasons[j] := 0];
    }
    assert DefectReasons[..|DefectReasons|] == DefectReasons;
    var i := 0;
    while i < |items|
      invariant 0 <= i <= |items|
      invariant forall reason :: reason in counts <==> reason in DefectReasons
      invariant forall reason :: reason in counts ==> counts[reason] == ReasonTotal(items[..i], reason)
    {
      var reason := GroupKey(items[i], "defect_reason");
      assert items[..i + 1][..i] == items[..i];
      if reason in counts {
        counts := counts[reason := counts[reason] + QuantityOr0(items[i], "defective_quantity")];
      }
      i := i + 1;
    }
    assert items[..|items|] == items;
  }

  /**
   * The reason chart lists, in the fixed order, exactly the reasons with a
   * positive total, each with that total.
   */
  lemma ReasonChart(items: seq<Obj>)
    ensures forall rc :: rc in Filter(ReasonRows(items), Positive) <==>
      rc.name in DefectReasons && rc.count == ReasonTotal(items, rc.name) && rc.count > 0
    ensures IsSubsequence(Filter(ReasonRows(items), Positive), ReasonRows(items))
  {
    FilterIsSubsequence(ReasonRows(items), Positive);
    forall rc
      ensures rc in Filter(ReasonRows(items), Positive) <==>
        rc.name in DefectReasons && rc.count == ReasonTotal(items, rc.name) && rc.count > 0
    {
      FilterMembership(ReasonRows(items), Positive, rc);
      if rc.name in DefectReasons && rc.count == ReasonTotal(items, rc.name) {
        var j :| 0 <= j < |DefectReasons| && DefectReasons[j] == rc.name;
        assert ReasonRows(items)[j] == rc;
      }
    }
  }

  /** An item of another product leaves every reason total unchanged. */
  lemma OtherProductIgnored(data: seq<Obj>, item: Obj, productName: JsValue, reason: string)
    requires !OfProduct(item, productName)
    ensures ReasonTotal(ProductItems(data + [item], productName), reason) == ReasonTotal(ProductItems(data, productName), reason)
  {
    FilterAppend(data, [item], ProductTest(productName));
    assert Filter([item], ProductTest(productName)) == [];
    assert ProductItems(data + [item], productName) == ProductItems(data, productName) + [];
    assert ProductItems(data, productName) + [] == ProductItems(data, productName);
  }

  /** An item whose reason is not one of the six changes none of the six totals. */
  lemma UnlistedReasonIgnored(items: seq<Obj>, item: Obj, reason: string)
    requires GroupKey(item, "defect_reason") !in DefectReasons
    requires reason in DefectReasons
    ensures ReasonTotal(items + [item], reason) == ReasonTotal(items, reason)
  {
    assert (items + [item])[..|items|] == items;
  }

  // ---------------------------------------------------------------- filter cascade

  /** The company and product selections; `''` selects everything. */
  datatype Filters = Filters(company: JsValue, product: JsValue)

  /** What the cascade effect sets: the filtered data and the product options. */
  datatype View = View(filtered: seq<Obj>, productsInCompany: seq<JsValue>)

  /** The item passes the selections: each selection is empty or matched with `===`. */
  predicate Selected(item: Obj, f: Filters) {
    (!Falsy(f.company) ==> StrictEq(Get(item, "company_name"), f.company))
    && (!Falsy(f.product) ==> StrictEq(Get(item, "product_name"), f.product))
  }

  /** `items.map(item => item.product_name)`. */
  function ProductColumn(items: seq<Obj>): (vs: seq<JsValue>)
    ensures |vs| == |items|
    ensures forall i :: 0 <= i < |items| ==> vs[i] == Get(items[i], "product_name")
  {
    seq(|items|, i requires 0 <= i < |items| => Get(items[i], "product_name"))
  }

  /** `[...new Set(items.map(item => item.product_name))]`. */
  function ProductNames(items: seq<Obj>): seq<JsValue> {
    Distinct(ProductColumn(items))
  }

  /** `item.company_name === company`. */
  predicate OfCompany(item: Obj, company: JsValue) {
    StrictEq(Get(item, "company_name"), company)
  }

  /** The test `item => item.company_name === company`. */
  function CompanyTest(company: JsValue): Obj -> bool {
    item => OfCompany(item, company)
  }

  /** The items of one company, in order. */
  function CompanyItems(allData: seq<Obj>, company: JsValue): seq<Obj> {
    Filter(allData, CompanyTest(company))
  }

  /** A product listed for a company is carried by one of that company's items. */
  lemma CompanyProductListed(allData: seq<Obj>, company: JsValue, p: JsValue)
    requires p in ProductNames(CompanyItems(allData, company))
    ensures exists i :: 0 <= i < |allData| && OfCompany(allData[i], company) && Get(allData[i], "product_name") == p
  {
    var items := CompanyItems(allData, company);
    var k :| 0 <= k < |items| && ProductColumn(items)[k] == p;
    FilterMembership(allData, CompanyTest(company), items[k]);
    var i :| 0 <= i < |allData| && allData[i] == items[k];
  }

  /** Every product carried by one of a company's items is listed for it. */
  lemma CompanyProductCarried(allData: seq<Obj>, company: JsValue, i: nat)
    requires i < |allData| && OfCompany(allData[i], company)
    ensures Get(allData[i], "product_name") in ProductNames(CompanyItems(allData, company))
  {
    var items := CompanyItems(allData, company);
    FilterMembership(allData, CompanyTest(company), allData[i]);
    var k :| 0 <= k < |items| && items[k] == allData[i];
    assert ProductColumn(items)[k] == Get(allData[i], "product_name");
  }

  /** The products of one company's items are exactly the products that company's items carry. */
  lemma CompanyProducts(allData: seq<Obj>, company: JsValue)
    ensures forall p :: p in ProductNames(CompanyItems(allData, company)) <==>
      exists i :: 0 <= i < |allData| && OfCompany(allData[i], company) && Get(allData[i], "product_name") == p
  {
    forall p | p in ProductNames(CompanyItems(allData, company))
      ensures exists i :: 0 <= i < |allData| && OfCompany(allData[i], company) && Get(allData[i], "product_name") == p
    {
      CompanyProductListed(allData, company, p);
    }
    forall i | 0 <= i < |allData| && OfCompany(allData[i], company)
      ensures Get(allData[i], "product_name") in ProductNames(CompanyItems(allData, company))
    {
      CompanyProductCarried(allData, company, i);
    }
  }

  /**
   * The cascade effect: a chosen company narrows the data and the product
   * options to that company's products; otherwise the options are all
   * products. A chosen product then narrows the data further.
   */
  function Cascade(allData: seq<Obj>, f: Filters): (v: View)
    ensures !Falsy(f.company) ==> forall p :: p in v.productsInCompany <==>
      exists i :: 0 <= i < |allData| && OfCompany(allData[i], f.company) && Get(allData[i], "product_name") == p
    ensures Falsy(f.company) ==> v.productsInCompany == ProductNames(allData)
    ensures NoDup(v.productsInCompany)
  {
    var items := allData;
    var byCompany := if !Falsy(f.company) then CompanyItems(items, f.company) else items;
    var products := ProductNames(byCompany);
    var narrowed := if !Falsy(f.product) then Filter(byCompany, item => StrictEq(Get(item, "product_name"), f.product)) else byCompany;
    CompanyProducts(allData, f.company);
    View(narrowed, products)
  }

  /** The filtered data is the order-preserving selection of the items that pass both selections. */
  lemma CascadeSelects(allData: seq<Obj>, f: Filters)
    ensures Cascade(allData, f).filtered == Filter(allData, item => Selected(item, f))
  {
    var byCompany := if !Falsy(f.company) then CompanyItems(allData, f.company) else allData;
    var c := item => !Falsy(f.company) ==> StrictEq(Get(item, "company_name"), f.company);
    var p := item => !Falsy(f.product) ==> StrictEq(Get(item, "product_name"), f.product);
    if Falsy(f.company) {
      FilterAll(allData, c);
    } else {
      FilterCongruent(allData, CompanyTest(f.company), c);
    }
    assert byCompany == Filter(allData, c);
    if Falsy(f.product) {
      FilterAll(byCompany, p);
    } else {
      FilterCongruent(byCompany, item => StrictEq(Get(item, "product_name"), f.product), p);
    }
    FilterFilter(allData, c, p, item => Selected(item, f));
  }

  /**
   * `handleCompanyChange`: the new company is selected and the product
   * selection is cleared, so the view narrows to that company's items alone
   * (every item when the company is cleared too).
   */
  function HandleCompanyChange(f: Filters, value: JsValue): (g: Filters)
    ensures g.company == value && g.product == Str("")
    ensures forall allData :: Cascade(allData, g).filtered == if Falsy(value) then allData else CompanyItems(allData, value)
  {
    Filters(value, Str(""))
  }

  /** The reason chart: the breakdown of the selected product, or nothing when no product is selected. */
  method ProductReasonData(filtered: seq<Obj>, f: Filters) returns (r: seq<ReasonCount>)
    ensures Falsy(f.product) ==> r == []
    ensures !Falsy(f.product) ==> r == Filter(ReasonRows(ProductItems(filtered, f.product)), Positive)
  {
    if !Falsy(f.product) {
      r := AggregateReasonsForProduct(filtered, f.product);
    } else {
      r := [];
    }
  }
}
