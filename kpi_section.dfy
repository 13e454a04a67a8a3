/**
 * The KPI cards of inspection_front/src/components/KpiSection/KpiSection.jsx:
 * the status counts folded over `calculateStatus`, the total, whether the pie
 * chart is shown, and the filter key each card passes to `onKpiClick`.
 */
module KpiSection {
  import opened JsSemantics
  import opened StatusRules

  /** `calculateStatus(item)` for every item, in order. */
  function Statuses(inspections: seq<Obj>, clock: Clock): (ks: seq<StatusKey>)
    ensures |ks| == |inspections|
    ensures forall i :: 0 <= i < |inspections| ==> ks[i] == CalculateStatus(inspections[i], clock)
  {
    seq(|inspections|, i requires 0 <= i < |inspections| => CalculateStatus(inspections[i], clock))
  }

  /** The `reduce` of `kpiData`: the status names of the items folded by the if / else-if chain. */
  function KpiData(inspections: seq<Obj>, clock: Clock): KpiCounts {
    Tally(KeyValues(Statuses(inspections, clock)))
  }

  /**
   * Each count is the number of items whose status is that key, and the three
   * counts add up to `inspections.length`.
   */
  lemma KpiDataCounts(inspections: seq<Obj>, clock: Clock)
    ensures KpiData(inspections, clock).completed == multiset(Statuses(inspections, clock))[Completed]
    ensures KpiData(inspections, clock).inProgress == multiset(Statuses(inspections, clock))[InProgress]
    ensures KpiData(inspections, clock).delayed == multiset(Statuses(inspections, clock))[Delayed]
    ensures KpiData(inspections, clock).Sum() == |inspections|
  {
    TallyOfKeys(Statuses(inspections, clock));
  }

  /** `total > 0 && <KpiPieChart .../>`. */
  predicate ShowPie(inspections: seq<Obj>) {
    |inspections| > 0
  }

  /** An empty list shows no chart; any item makes the counts, and so the chart, non-empty. */
  lemma ShowPieIffCounted(inspections: seq<Obj>, clock: Clock)
    ensures ShowPie(inspections) <==> KpiData(inspections, clock).Sum() > 0
  {
    KpiDataCounts(inspections, clock);
  }

  /** The four cards, left to right. */
  datatype Card = TotalCard | InProgressCard | DelayedCard | CompletedCard

  /** The number a card shows. */
  function CardValue(card: Card, inspections: seq<Obj>, clock: Clock): nat {
    var kpi := KpiData(inspections, clock);
    match card
    case TotalCard => |inspections|
    case InProgressCard => kpi.inProgress
    case DelayedCard => kpi.delayed
    case CompletedCard => kpi.completed
  }

  /** The argument a card passes to `onKpiClick`. */
  function ClickKey(card: Card): JsValue {
    match card
    case TotalCard => Str("all")
    case InProgressCard => Str("inProgress")
    case DelayedCard => Str("delayed")
    case CompletedCard => Str("completed")
  }

  /**
   * The total card asks for no restriction; every other card asks for the
   * status whose count it shows, so clicking a card selects exactly the items
   * it counts.
   */
  lemma ClickKeySelectsCounted(card: Card, inspections: seq<Obj>, clock: Clock)
    ensures card == TotalCard <==> ClickKey(card) == Str("all")
    ensures card == TotalCard ==> CardValue(card, inspections, clock) == |inspections|
    ensures card != TotalCard ==>
      KeyOf(ClickKey(card)).Some?
      && CardValue(card, inspections, clock) == multiset(Statuses(inspections, clock))[KeyOf(ClickKey(card)).value]
  {
    KpiDataCounts(inspections, clock);
  }
}
