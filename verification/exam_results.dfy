/**
 * The attempt list of one assignment (components/user/ExamResults.tsx): the
 * summary statistics and the time-spent label of a finished attempt.
 */
module ExamResults {
  import opened Wrappers
  import opened JsText
  import opened Backend
  import opened Sorting
  import opened Collections

  /** `start_at || 0` */
  function StartOf(inst: ExamInstance): int
  {
    if inst.startAt.Some? then inst.startAt.value else 0
  }

  function LatestFirst(inst: ExamInstance): Key
  {
    Key(-StartOf(inst), None)
  }

  predicate IsCompleted(inst: ExamInstance) { inst.endAt.Some? }

  datatype Stats = Stats(totalAttempts: nat, completedAttempts: nat, lastAttempt: ExamInstance)

  /** `stats`: nothing without attempts; else the counts and the attempt that started last. */
  function ComputeStats(instances: seq<ExamInstance>): (r: Option<Stats>)
    ensures r.None? <==> |instances| == 0
    ensures r.Some? ==> r.value.totalAttempts == |instances|
    ensures r.Some? ==> r.value.completedAttempts == |set i | 0 <= i < |instances| && instances[i].endAt.Some?|
    ensures r.Some? ==> r.value.completedAttempts <= r.value.totalAttempts
    ensures r.Some? ==> (r.value.completedAttempts == r.value.totalAttempts <==> forall i :: 0 <= i < |instances| ==> IsCompleted(instances[i]))
    ensures r.Some? ==> r.value.lastAttempt in instances
    ensures r.Some? ==> forall i :: 0 <= i < |instances| ==> StartOf(instances[i]) <= StartOf(r.value.lastAttempt)
  {
    if |instances| == 0 then None
    else
      var sorted := SortBy(instances, LatestFirst);
      LatestLeads(instances);
      CompletedCount(instances);
      Some(Stats(|instances|, Count(instances, IsCompleted), sorted[0]))
  }

  /** The first attempt of the latest-first order is one of the attempts and started no earlier than any. */
  lemma LatestLeads(instances: seq<ExamInstance>)
    requires |instances| > 0
    ensures |SortBy(instances, LatestFirst)| == |instances|
    ensures SortBy(instances, LatestFirst)[0] in instances
    ensures forall i :: 0 <= i < |instances| ==> StartOf(instances[i]) <= StartOf(SortBy(instances, LatestFirst)[0])
  {
    var sorted := SortBy(instances, LatestFirst);
    SortByLength(instances, LatestFirst);
    assert sorted[0] in multiset(instances);
    forall i | 0 <= i < |instances| ensures StartOf(instances[i]) <= StartOf(sorted[0]) {
      assert instances[i] in multiset(sorted);
      var j :| 0 <= j < |sorted| && sorted[j] == instances[i];
      if j > 0 {
        assert KeyLe(LatestFirst(sorted[0]), LatestFirst(sorted[j]));
      }
    }
  }

  /** The completed count is the number of positions holding a finished attempt. */
  lemma CompletedCount(instances: seq<ExamInstance>)
    ensures Count(instances, IsCompleted) == |set i | 0 <= i < |instances| && instances[i].endAt.Some?|
  {
    CountIsMatchingPositions(instances, IsCompleted);
    assert Positions(instances, IsCompleted) == (set i | 0 <= i < |instances| && instances[i].endAt.Some?);
  }

  const MsPerMinute := 60000

  datatype Spent = InvalidInterval | Minutes(minutes: nat) | UnderAMinute

  /** The time-spent rule: an end before the start is invalid; else whole minutes, or under a minute. */
  function SpentTime(start: Timestamp, end: Timestamp): (r: Spent)
    ensures r == InvalidInterval <==> end < start
    ensures r.Minutes? ==> r.minutes >= 1 && r.minutes * MsPerMinute <= end - start < (r.minutes + 1) * MsPerMinute
    ensures r == UnderAMinute <==> start <= end < start + MsPerMinute
  {
    if end < start then InvalidInterval
    else
      var minutes := (end - start) / MsPerMinute;
      if minutes > 0 then Minutes(minutes) else UnderAMinute
  }

  function SpentLabel(s: Spent): string
  {
    match s
    case InvalidInterval => "Невірний часовий проміжок"
    case Minutes(m) => IntToString(m) + " хв"
    case UnderAMinute => "Менше хвилини"
  }

  /** The label is shown for attempts with both a start and an end. */
  function SpentLabelOf(inst: ExamInstance): (r: Option<string>)
    ensures r.Some? <==> inst.startAt.Some? && inst.endAt.Some?
  {
    if inst.startAt.Some? && inst.endAt.Some? then Some(SpentLabel(SpentTime(inst.startAt.value, inst.endAt.value)))
    else None
  }

  datatype Badge = Badge(completed: bool, text: string)

  /** Each attempt is shown as completed exactly when it has an end. */
  function StatusBadge(inst: ExamInstance): (r: Badge)
    ensures r.completed <==> IsCompleted(inst)
    ensures r.text == (if IsCompleted(inst) then "Завершено" else "В процесі")
  {
    if inst.endAt.Some? then Badge(true, "Завершено") else Badge(false, "В процесі")
  }
}
