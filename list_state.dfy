/**
 * The list state the front ends' list components keep: a filter object whose
 * fields are either `'all'` or a value to match, the filter chain
 * `if (filters.f !== 'all') result = result.filter(item => item.f === filters.f)`,
 * the option lists `['all', ...new Set(values)]`, and the `handleSuccess`
 * upsert by `id`.
 */
module ListState {
  import opened JsSemantics
  import opened Collections
  import opened StatusRules

  /** The filter value that places no restriction. */
  const All: JsValue := Str("all")

  /** The item passes the filter on `field`: the filter is `'all'`, or the item's value is `===` to it. */
  predicate PassesField(item: Obj, filters: Obj, field: string) {
    !StrictEq(Get(filters, field), All) ==> StrictEq(Get(item, field), Get(filters, field))
  }

  /** The item passes every filter in `fields`. */
  predicate Matches(item: Obj, filters: Obj, fields: seq<string>) {
    forall i :: 0 <= i < |fields| ==> PassesField(item, filters, fields[i])
  }

  /** One step of the chain: `if (filters[field] !== 'all') result = result.filter(...)`. */
  function FilterStep(items: seq<Obj>, filters: Obj, field: string): seq<Obj> {
    if !StrictEq(Get(filters, field), All) then
      Filter(items, item => StrictEq(Get(item, field), Get(filters, field)))
    else items
  }

  /** The steps applied one after another in the order of `fields`. */
  function FilterChain(items: seq<Obj>, filters: Obj, fields: seq<string>): seq<Obj>
    decreases |fields|
  {
    if fields == [] then items else FilterChain(FilterStep(items, filters, fields[0]), filters, fields[1..])
  }

  lemma FilterStepIsFilter(items: seq<Obj>, filters: Obj, field: string)
    ensures FilterStep(items, filters, field) == Filter(items, item => PassesField(item, filters, field))
  {
    if StrictEq(Get(filters, field), All) {
      FilterAll(items, item => PassesField(item, filters, field));
    } else {
      FilterCongruent(items, item => StrictEq(Get(item, field), Get(filters, field)),
                      item => PassesField(item, filters, field));
    }
  }

  /**
   * The chain is conjunctive: it keeps, in their original order, exactly the
   * items that pass every filter.
   */
  lemma {:induction false} FilterChainConjunctive(items: seq<Obj>, filters: Obj, fields: seq<string>)
    ensures FilterChain(items, filters, fields) == Filter(items, item => Matches(item, filters, fields))
    decreases |fields|
  {
    if fields == [] {
      FilterAll(items, item => Matches(item, filters, fields));
    } else {
      var step := FilterStep(items, filters, fields[0]);
      var first := item => PassesField(item, filters, fields[0]);
      var rest := item => Matches(item, filters, fields[1..]);
      var all := item => Matches(item, filters, fields);
      forall i | 0 <= i < |items|
        ensures all(items[i]) == (first(items[i]) && rest(items[i]))
      {
        MatchesCons(items[i], filters, fields);
      }
      calc {
        FilterChain(items, filters, fields);
        FilterChain(step, filters, fields[1..]);
        { FilterChainConjunctive(step, filters, fields[1..]); }
        Filter(step, rest);
        { FilterStepIsFilter(items, filters, fields[0]); }
        Filter(Filter(items, first), rest);
        { FilterFilter(items, first, rest, all); }
        Filter(items, all);
      }
    }
  }

  lemma MatchesCons(item: Obj, filters: Obj, fields: seq<string>)
    requires fields != []
    ensures Matches(item, filters, fields) == (PassesField(item, filters, fields[0]) && Matches(item, filters, fields[1..]))
  {
    if PassesField(item, filters, fields[0]) && Matches(item, filters, fields[1..]) {
      forall i | 0 <= i < |fields|
        ensures PassesField(item, filters, fields[i])
      {
        if i > 0 {
          assert fields[i] == fields[1..][i - 1];
        }
      }
    }
  }

  /** With every filter at `'all'` the chain returns the whole list. */
  lemma FilterChainAllIsIdentity(items: seq<Obj>, filters: Obj, fields: seq<string>)
    requires forall i :: 0 <= i < |fields| ==> Get(filters, fields[i]) == All
    ensures FilterChain(items, filters, fields) == items
  {
    FilterChainConjunctive(items, filters, fields);
    FilterAll(items, item => Matches(item, filters, fields));
  }

  /** A filter object with every field set to `'all'`, in the order given. */
  function AllFilters(fields: seq<string>): (f: Obj)
    ensures forall i :: 0 <= i < |fields| ==> Get(f, fields[i]) == All
    decreases |fields|
  {
    if fields == [] then EmptyObj
    else Put(AllFilters(fields[..|fields| - 1]), fields[|fields| - 1], All)
  }

  /**
   * `setFilters(prev => ({ ...prev, [name]: value }))`: the named filter takes
   * the new value and every other filter keeps its own.
   */
  function ChangeFilter(filters: Obj, name: string, value: JsValue): (r: Obj)
    ensures Get(r, name) == value
    ensures forall k :: k != name ==> Get(r, k) == Get(filters, k)
    ensures WellFormed(filters) ==> WellFormed(r)
  {
    Put(filters, name, value)
  }

  /**
   * Setting a filter that was `'all'` narrows the list shown before to the
   * items that pass the new filter; nothing reappears and the order is kept.
   */
  lemma NarrowOneFilter(items: seq<Obj>, filters: Obj, fields: seq<string>, name: string, value: JsValue)
    requires name in fields && Get(filters, name) == All
    ensures FilterChain(items, ChangeFilter(filters, name, value), fields)
      == Filter(FilterChain(items, filters, fields), item => PassesField(item, ChangeFilter(filters, name, value), name))
  {
    var changed := ChangeFilter(filters, name, value);
    var before := item => Matches(item, filters, fields);
    var step := item => PassesField(item, changed, name);
    var after := item => Matches(item, changed, fields);
    forall i | 0 <= i < |items|
      ensures after(items[i]) == (before(items[i]) && step(items[i]))
    {
      var item := items[i];
      if before(item) && step(item) {
        forall j | 0 <= j < |fields|
          ensures PassesField(item, changed, fields[j])
        {
          assert PassesField(item, filters, fields[j]);
        }
      }
      if after(item) {
        forall j | 0 <= j < |fields|
          ensures PassesField(item, filters, fields[j])
        {
          assert PassesField(item, changed, fields[j]);
        }
      }
    }
    FilterChainConjunctive(items, filters, fields);
    FilterChainConjunctive(items, changed, fields);
    FilterFilter(items, before, step, after);
  }

  /** A new item in front of the list shows at the top of the filtered list exactly when it passes every filter. */
  lemma PrependFiltered(items: seq<Obj>, entry: Obj, filters: Obj, fields: seq<string>)
    ensures FilterChain([entry] + items, filters, fields)
      == (if Matches(entry, filters, fields) then [entry] else []) + FilterChain(items, filters, fields)
  {
    var p := item => Matches(item, filters, fields);
    FilterChainConjunctive([entry] + items, filters, fields);
    FilterChainConjunctive(items, filters, fields);
    assert ([entry] + items)[1..] == items;
  }

  // ---------------------------------------------------------------- option lists

  /** `items.map(item => item[field])`. */
  function Column(items: seq<Obj>, field: string): (vs: seq<JsValue>)
    ensures |vs| == |items|
    ensures forall i :: 0 <= i < |items| ==> vs[i] == Get(items[i], field)
  {
    seq(|items|, i requires 0 <= i < |items| => Get(items[i], field))
  }

  /** `opts` is `'all'` followed by each value of the column once. */
  ghost predicate IsOptionList(opts: seq<JsValue>, items: seq<Obj>, field: string) {
    |opts| >= 1 && opts[0] == All
    && NoDup(opts[1..])
    && forall v :: v in opts[1..] <==> exists i :: 0 <= i < |items| && Get(items[i], field) == v
  }

  /** `['all', ...new Set(items.map(item => item[field]))]`. */
  function OptionList(items: seq<Obj>, field: string): (opts: seq<JsValue>)
    ensures IsOptionList(opts, items, field)
  {
    var d := Distinct(Column(items, field));
    assert ([All] + d)[1..] == d;
    [All] + d
  }

  /** The values after `'all'` follow the order in which they first occur in the list. */
  lemma OptionListOrder(items: seq<Obj>, field: string)
    ensures forall i, j :: 1 <= i < j < |OptionList(items, field)| ==>
      FirstIndex(Column(items, field), OptionList(items, field)[i])
        < FirstIndex(Column(items, field), OptionList(items, field)[j])
  {
    var c := Column(items, field);
    DistinctFirstOccurrenceOrder(c);
    assert forall i :: 1 <= i < |OptionList(items, field)| ==> OptionList(items, field)[i] == Distinct(c)[i - 1];
  }

  // ---------------------------------------------------------------- handleSuccess

  /** `a.id === b.id`. */
  predicate SameId(a: Obj, b: Obj) {
    StrictEq(Get(a, "id"), Get(b, "id"))
  }

  /**
   * The upsert of `handleSuccess`: when some item's `id` is `===` to the
   * entry's, the first such item is replaced and everything else stays where
   * it was; otherwise the entry goes in front.
   */
  function Upserted(prev: seq<Obj>, entry: Obj): (next: seq<Obj>)
    ensures (exists k :: 0 <= k < |prev| && SameId(prev[k], entry)) ==>
      |next| == |prev|
      && (exists k :: 0 <= k < |prev| && SameId(prev[k], entry)
            && (forall j :: 0 <= j < k ==> !SameId(prev[j], entry))
            && next[k] == entry
            && (forall j :: 0 <= j < |prev| && j != k ==> next[j] == prev[j]))
    ensures (forall k :: 0 <= k < |prev| ==> !SameId(prev[k], entry)) ==> next == [entry] + prev
  {
    var k := FindIndex(prev, item => SameId(item, entry));
    if k > -1 then prev[k := entry] else [entry] + prev
  }

  /**
   * `handleSuccess` as the component runs it: `findIndex`, then either a copy
   * of the list with the entry assigned at that index, or the entry in front.
   */
  method Upsert(prev: seq<Obj>, entry: Obj) returns (next: seq<Obj>)
    ensures next == Upserted(prev, entry)
  {
    var existingIndex := FindIndex(prev, item => SameId(item, entry));
    if existingIndex > -1 {
      var copy := new Obj[|prev|](k requires 0 <= k < |prev| => prev[k]);
      copy[existingIndex] := entry;
      next := copy[..];
    } else {
      next := [entry] + prev;
    }
  }

  /** `prev.map(item => item.id === updated.id ? updated : item)`. */
  function ReplaceById(prev: seq<Obj>, updated: Obj): (next: seq<Obj>)
    ensures |next| == |prev|
    ensures forall i :: 0 <= i < |prev| ==> next[i] == if SameId(prev[i], updated) then updated else prev[i]
  {
    ReplaceWhere(prev, item => SameId(item, updated), updated)
  }

  /**
   * `prev.map(...)` replaces the one item that carries the entry's id at its
   * own index: when ids are unique, this agrees with the upsert.
   */
  lemma ReplaceByIdAgreesWithUpsert(prev: seq<Obj>, updated: Obj, k: int)
    requires 0 <= k < |prev| && SameId(prev[k], updated)
    requires forall j :: 0 <= j < |prev| && j != k ==> !SameId(prev[j], updated)
    ensures ReplaceById(prev, updated) == Upserted(prev, updated) == prev[k := updated]
  {
  }

  // ---------------------------------------------------------------- quality items

  /**
   * The quality lists' `getStatus(item)`: completed when `item.progress === 100`,
   * delayed when `new Date(item.endDate) < new Date() && item.progress < 100`,
   * otherwise in progress.
   */
  function ItemDeadlineStatus(item: Obj, clock: Clock): (r: StatusKey)
    ensures r == Completed <==> StrictEq(Get(item, "progress"), Num(100))
    ensures r == Delayed <==>
      !StrictEq(Get(item, "progress"), Num(100)) && BeforeNow(Get(item, "endDate"), clock) && Below(Get(item, "progress"), 100)
  {
    DeadlineStatus(Get(item, "progress"), Get(item, "endDate"), clock)
  }

  /** `{ ...item, status }`: the status replaces any incoming one and the rest is kept. */
  function WithStatus(item: Obj, status: StatusKey): (r: Obj)
    ensures Get(r, "status") == KeyValue(status)
    ensures forall k :: k != "status" ==> Get(r, k) == Get(item, k)
    ensures SameId(r, item) <==> !Get(item, "id").NaN?
  {
    Put(item, "status", KeyValue(status))
  }
}
