/**
 * The progress status shared by every list, KPI card and filter of the front
 * ends (inspection_front/src/utils.js): `calculateStatus`, the `statusMap`
 * display table, the deadline rule that several components repeat, and the
 * status tally behind the KPI summaries.
 */
module StatusRules {
  import opened Wrappers
  import opened JsSemantics

  /** The three keys of `statusMap`. */
  datatype StatusKey = InProgress | Completed | Delayed

  /** The key as the filters and KPI cards spell it. */
  function KeyName(k: StatusKey): string {
    match k
    case InProgress => "inProgress"
    case Completed => "completed"
    case Delayed => "delayed"
  }

  /** The status string a component stores in an item's `status` field. */
  function KeyValue(k: StatusKey): JsValue { Str(KeyName(k)) }

  /** The key a string names, if it names one. */
  function KeyOf(v: JsValue): (r: Option<StatusKey>)
    ensures r.Some? ==> v == KeyValue(r.value)
  {
    if v == Str("inProgress") then Some(InProgress)
    else if v == Str("completed") then Some(Completed)
    else if v == Str("delayed") then Some(Delayed)
    else None
  }

  /** Every key reads back from its own name, so the names are pairwise different. */
  lemma KeyOfKeyValue(k: StatusKey)
    ensures KeyOf(KeyValue(k)) == Some(k)
  {
  }

  /** `statusMap[k]`: the Korean label and the CSS class of a key. */
  datatype StatusDisplay = StatusDisplay(text: string, className: string)

  function StatusMap(k: StatusKey): (d: StatusDisplay)
    ensures d.className == KeyName(k)
  {
    match k
    case InProgress => StatusDisplay("진행중", "inProgress")
    case Completed => StatusDisplay("완료", "completed")
    case Delayed => StatusDisplay("지연", "delayed")
  }

  // ---------------------------------------------------------------- calculateStatus

  /** `item.progress !== undefined ? item.progress : item.progress_percentage`. */
  function ProgressOf(item: Obj): JsValue {
    if Get(item, "progress") != Undefined then Get(item, "progress") else Get(item, "progress_percentage")
  }

  /** `item.end_date || item.target_date`. */
  function TargetOf(item: Obj): JsValue {
    Or(Get(item, "end_date"), Get(item, "target_date"))
  }

  /** The day number of a date value (days since the epoch), None for a missing or invalid date. */
  function DayOf(v: JsValue, clock: Clock): (d: Option<int>)
    ensures Falsy(v) ==> d.None?
  {
    if Falsy(v) then None
    else
      var t := DateValue(v, clock);
      if t.Some? then Some(t.value / DayMs) else None
  }

  /**
   * `calculateStatus(item)`: completed exactly when the progress is the number
   * 100; otherwise delayed exactly when the target date is valid and today is a
   * later calendar day; otherwise in progress.
   */
  function CalculateStatus(item: Obj, clock: Clock): (r: StatusKey)
    ensures r == Completed <==> StrictEq(ProgressOf(item), Num(100))
    ensures r == Delayed <==>
      !StrictEq(ProgressOf(item), Num(100))
      && DayOf(TargetOf(item), clock).Some?
      && DayOf(TargetOf(item), clock).value < clock.nowMs / DayMs
  {
    var progress := ProgressOf(item);
    var target := TargetOf(item);
    if StrictEq(progress, Num(100)) then Completed
    else if Falsy(target) then InProgress
    else
      var today := Midnight(clock.nowMs);
      var t := DateValue(target, clock);
      if t.None? then InProgress
      else
        var targetDate := Midnight(t.value);
        MidnightOrder(t.value, clock.nowMs);
        if today > targetDate then Delayed else InProgress
  }

  /** A target on the current calendar day is not yet delayed. */
  lemma DueTodayIsNotDelayed(item: Obj, clock: Clock)
    requires DayOf(TargetOf(item), clock) == Some(clock.nowMs / DayMs)
    ensures CalculateStatus(item, clock) != Delayed
  {
  }

  /** A missing target date never makes an item delayed. */
  lemma NoTargetIsNotDelayed(item: Obj, clock: Clock)
    requires Falsy(TargetOf(item))
    ensures CalculateStatus(item, clock) != Delayed
  {
  }

  // ---------------------------------------------------------------- deadline rule

  /**
   * The rule the mock inspection API and two quality lists repeat:
   * `progress === 100` is completed; `new Date(due) < new Date() && progress < 100`
   * is delayed; anything else is in progress. Unlike `calculateStatus` it
   * compares instants, not calendar days.
   */
  function DeadlineStatus(progress: JsValue, due: JsValue, clock: Clock): (r: StatusKey)
    ensures r == Completed <==> StrictEq(progress, Num(100))
    ensures r == Delayed <==> !StrictEq(progress, Num(100)) && BeforeNow(due, clock) && Below(progress, 100)
  {
    if StrictEq(progress, Num(100)) then Completed
    else if BeforeNow(due, clock) && Below(progress, 100) then Delayed
    else InProgress
  }

  // ---------------------------------------------------------------- KPI tally

  /** The `{ completed, inProgress, delayed }` accumulator of the KPI reducers. */
  datatype KpiCounts = KpiCounts(completed: nat, inProgress: nat, delayed: nat) {
    function Sum(): nat { completed + inProgress + delayed }
  }

  /** `{ completed, inProgress, delayed, total }`. */
  datatype KpiSummary = KpiSummary(counts: KpiCounts, total: nat)

  /** One reducer step: the `if / else if` chain on `status === ...`; other values are ignored. */
  function TallyStep(acc: KpiCounts, status: JsValue): KpiCounts {
    if StrictEq(status, Str("completed")) then acc.(completed := acc.completed + 1)
    else if StrictEq(status, Str("inProgress")) then acc.(inProgress := acc.inProgress + 1)
    else if StrictEq(status, Str("delayed")) then acc.(delayed := acc.delayed + 1)
    else acc
  }

  /** `statuses.reduce(step, { completed: 0, inProgress: 0, delayed: 0 })`. */
  function Tally(statuses: seq<JsValue>): (c: KpiCounts)
    ensures c.Sum() <= |statuses|
  {
    if statuses == [] then KpiCounts(0, 0, 0)
    else TallyStep(Tally(statuses[..|statuses| - 1]), statuses[|statuses| - 1])
  }

  /** Each count is the number of occurrences of that status name. */
  lemma {:induction false} TallyCounts(statuses: seq<JsValue>)
    ensures Tally(statuses).completed == multiset(statuses)[Str("completed")]
    ensures Tally(statuses).inProgress == multiset(statuses)[Str("inProgress")]
    ensures Tally(statuses).delayed == multiset(statuses)[Str("delayed")]
  {
    if statuses != [] {
      var n := |statuses| - 1;
      TallyCounts(statuses[..n]);
      assert statuses == statuses[..n] + [statuses[n]];
      assert multiset(statuses) == multiset(statuses[..n]) + multiset{statuses[n]};
    }
  }

  /** When every status is one of the three names, the counts add up to the number of items. */
  lemma {:induction false} TallyTotal(statuses: seq<JsValue>)
    requires forall i :: 0 <= i < |statuses| ==> KeyOf(statuses[i]).Some?
    ensures Tally(statuses).Sum() == |statuses|
  {
    if statuses != [] {
      var n := |statuses| - 1;
      TallyTotal(statuses[..n]);
      assert KeyOf(statuses[n]).Some?;
    }
  }

  /** The status names of a sequence of keys. */
  function KeyValues(ks: seq<StatusKey>): (vs: seq<JsValue>)
    ensures |vs| == |ks|
    ensures forall i :: 0 <= i < |ks| ==> vs[i] == KeyValue(ks[i]) && KeyOf(vs[i]).Some?
  {
    seq(|ks|, i requires 0 <= i < |ks| => KeyValue(ks[i]))
  }

  /** Tallying computed statuses: each count is the number of items with that status, and the three sum to the number of items. */
  lemma TallyOfKeys(ks: seq<StatusKey>)
    ensures Tally(KeyValues(ks)).Sum() == |ks|
    ensures Tally(KeyValues(ks)).completed == multiset(ks)[Completed]
    ensures Tally(KeyValues(ks)).inProgress == multiset(ks)[InProgress]
    ensures Tally(KeyValues(ks)).delayed == multiset(ks)[Delayed]
  {
    TallyTotal(KeyValues(ks));
    TallyCounts(KeyValues(ks));
    KeyValuesCount(ks, Completed);
    KeyValuesCount(ks, InProgress);
    KeyValuesCount(ks, Delayed);
  }

  lemma {:induction false} KeyValuesCount(ks: seq<StatusKey>, k: StatusKey)
    ensures multiset(KeyValues(ks))[KeyValue(k)] == multiset(ks)[k]
  {
    if ks != [] {
      var n := |ks| - 1;
      KeyValuesCount(ks[..n], k);
      assert ks == ks[..n] + [ks[n]];
      assert KeyValues(ks) == KeyValues(ks[..n]) + [KeyValue(ks[n])];
      KeyOfKeyValue(ks[n]);
      KeyOfKeyValue(k);
    }
  }
}
