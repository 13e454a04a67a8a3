/**
 * The summary cards of frontend/src/components/StatsGrid.jsx: the number of
 * inspections still in progress, the total defective and actioned quantities,
 * the untreated remainder, and the completion rate shown when nothing is
 * defective.
 */
module StatsGrid {
  import opened JsSemantics
  import opened Collections

  /**
   * `item[field] || 0` as an addend: a number counts as itself, a missing or
   * falsy value as 0.
   */
  function QuantityOr0(item: Obj, field: string): (q: int)
    ensures Get(item, field).Num? ==> q == Get(item, field).n
    ensures Falsy(Get(item, field)) ==> q == 0
  {
    match Or(Get(item, field), Num(0))
    case Num(n) => n
    case _ => 0
  }

  /** `data.reduce((sum, item) => sum + (item[field] || 0), 0)`. */
  function SumField(data: seq<Obj>, field: string): (total: int)
    ensures data == [] ==> total == 0
  {
    if data == [] then 0
    else SumField(data[..|data| - 1], field) + QuantityOr0(data[|data| - 1], field)
  }

  /** The sum of a concatenation is the sum of the parts. */
  lemma {:induction false} SumFieldAppend(a: seq<Obj>, b: seq<Obj>, field: string)
    ensures SumField(a + b, field) == SumField(a, field) + SumField(b, field)
    decreases |b|
  {
    if b != [] {
      var n := |b| - 1;
      SumFieldAppend(a, b[..n], field);
      assert (a + b)[..|a + b| - 1] == a + b[..n];
    } else {
      assert a + b == a;
    }
  }

  /** With every quantity a non-negative number or absent, the total is non-negative. */
  lemma {:induction false} SumFieldNonNegative(data: seq<Obj>, field: string)
    requires forall i :: 0 <= i < |data| ==> QuantityOr0(data[i], field) >= 0
    ensures SumField(data, field) >= 0
  {
    if data != [] {
      SumFieldNonNegative(data[..|data| - 1], field);
    }
  }

  /** `item.progress_percentage < 100`. */
  predicate Ongoing(item: Obj) {
    Below(Get(item, "progress_percentage"), 100)
  }

  /** The four values the cards display. */
  datatype Stats = Stats(ongoing: nat, totalDefects: int, totalActioned: int, untreated: int, rateText: string)

  /**
   * The cards' values. The completion rate is a one-decimal percentage of two
   * integers when anything is defective; that text is not modelled, and the
   * field is left empty in that case.
   */
  function ComputeStats(data: seq<Obj>): (s: Stats)
    ensures s.ongoing == |Filter(data, Ongoing)|
    ensures s.ongoing <= |data|
    ensures s.totalDefects == SumField(data, "defective_quantity")
    ensures s.totalActioned == SumField(data, "actioned_quantity")
    ensures s.untreated == s.totalDefects - s.totalActioned
    ensures s.totalDefects <= 0 ==> s.rateText == "100.0"
  {
    var ongoing := Filter(data, Ongoing);
    var totalDefects := SumField(data, "defective_quantity");
    var totalActioned := SumField(data, "actioned_quantity");
    Stats(|ongoing|, totalDefects, totalActioned, totalDefects - totalActioned,
          if totalDefects > 0 then "" else "100.0")
  }

  /** Every counted item is ongoing, and every ongoing item of the data is counted. */
  lemma OngoingCounted(data: seq<Obj>, i: nat)
    requires i < |data|
    ensures Ongoing(data[i]) <==> data[i] in Filter(data, Ongoing)
  {
    FilterMembership(data, Ongoing, data[i]);
  }
}
