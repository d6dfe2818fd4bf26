/**
 * The result page of one assignment (components/user/ExamResultDetail.tsx):
 * attempts ordered best first, the attempt navigator, the answer tallies and
 * the chart data.
 */
module ExamResultDetail {
  import opened Wrappers
  import opened JsText
  import opened Backend
  import opened Sorting
  import opened Collections

  /** `attempt?.score ?? 0` */
  function ScoreOf(inst: ExamInstance): int
  {
    if inst.attempt.Some? && inst.attempt.value.score.Some? then inst.attempt.value.score.value else 0
  }

  /** The comparator `scoreB - scoreA` as a key: a higher score sorts first. */
  function BestFirst(inst: ExamInstance): Key
  {
    Key(-ScoreOf(inst), None)
  }

  /** `sortedInstances`: the same attempts, best score first. */
  function SortedInstances(instances: seq<ExamInstance>): (r: seq<ExamInstance>)
    ensures multiset(r) == multiset(instances)
    ensures |r| == |instances|
    ensures forall i, j :: 0 <= i < j < |r| ==> ScoreOf(r[i]) >= ScoreOf(r[j])
  {
    var r := SortBy(instances, BestFirst);
    SortByLength(instances, BestFirst);
    assert forall i, j :: 0 <= i < j < |r| ==> KeyLe(BestFirst(r[i]), BestFirst(r[j]));
    r
  }

  /** `findIndex(i => i.id === id)`: the first position of the attempt, -1 as `None`. */
  function FindIndex(s: seq<ExamInstance>, id: int): (r: Option<nat>)
    ensures r.Some? ==> r.value < |s| && s[r.value].id == id && forall k :: 0 <= k < r.value ==> s[k].id != id
    ensures r.None? ==> forall k :: 0 <= k < |s| ==> s[k].id != id
  {
    if |s| == 0 then None
    else if s[0].id == id then Some(0)
    else
      match FindIndex(s[1..], id)
      case None => None
      case Some(k) => Some(k + 1)
  }

  /** The first selected index: where `instanceId` sits in the sorted list, else 0 (also for a falsy id). */
  function InitialIndex(sorted: seq<ExamInstance>, instanceId: Option<int>): (r: nat)
    ensures r == 0 || r < |sorted|
    ensures instanceId.None? || instanceId.value == 0 ==> r == 0
    ensures instanceId.Some? && instanceId.value != 0 && r < |sorted| && sorted[r].id != instanceId.value ==>
      r == 0 && forall k :: 0 <= k < |sorted| ==> sorted[k].id != instanceId.value
    ensures instanceId.Some? && instanceId.value != 0 && (exists k :: 0 <= k < |sorted| && sorted[k].id == instanceId.value) ==>
      r < |sorted| && sorted[r].id == instanceId.value && forall k :: 0 <= k < r ==> sorted[k].id != instanceId.value
  {
    if instanceId.None? || instanceId.value == 0 then 0
    else
      match FindIndex(sorted, instanceId.value)
      case None => 0
      case Some(k) => k
  }

  /** The attempt the page shows as written: the index is taken in the sorted list but read in the unsorted one. */
  function ShownAsWritten(instances: seq<ExamInstance>, selected: nat): Option<ExamInstance>
  {
    if selected < |instances| then Some(instances[selected]) else None
  }

  /** The attempt at the selected position of the list the index belongs to. */
  function Shown(sorted: seq<ExamInstance>, selected: nat): (r: Option<ExamInstance>)
    ensures r.Some? <==> selected < |sorted|
    ensures selected < |sorted| ==> r == Some(sorted[selected])
  {
    if selected < |sorted| then Some(sorted[selected]) else None
  }

  function Attempt(id: int, score: int): ExamInstance
  {
    ExamInstance(id, 1, None, None, Some(ExamAttempt(id, None, None, Some(score), None)))
  }

  /** The better attempt is sorted first. */
  lemma SortedExample()
    ensures SortedInstances([Attempt(1, 1), Attempt(2, 5)]) == [Attempt(2, 5), Attempt(1, 1)]
  {
    var a, b := Attempt(1, 1), Attempt(2, 5);
    assert [a, b][1..] == [b];
    assert [b][1..] == [];
    assert SortBy([b], BestFirst) == Insert(b, [], BestFirst) == [b];
    assert !KeyLe(BestFirst(a), BestFirst(b));
    assert Insert(a, [b], BestFirst) == [b] + Insert(a, [], BestFirst) == [b, a];
  }

  /**
   * What the screen's callers reach: the navigator starts at position 0 (no
   * id is passed, or the attempts were still loading on the first render),
   * and Previous/Next move through the unsorted list, while the comparison
   * chart lists the attempts best first.
   */
  lemma FirstShownAsWrittenIsNotFirstBar()
    ensures var instances := [Attempt(1, 1), Attempt(2, 5)];
      var sorted := SortedInstances(instances);
      && ShownAsWritten(instances, 0) == Some(Attempt(1, 1))
      && Shown(sorted, 0) == Some(Attempt(2, 5))
      && ComparisonData(sorted)[0].score == 5
  {
    SortedExample();
    assert ScoreOf(Attempt(2, 5)) == 5;
  }

  /** Opening attempt 1 of [score 1, score 5] shows the other attempt. */
  lemma ShownAsWrittenIsAnotherAttempt()
    ensures var instances := [Attempt(1, 1), Attempt(2, 5)];
      var sorted := SortedInstances(instances);
      ShownAsWritten(instances, InitialIndex(sorted, Some(1))) == Some(Attempt(2, 5))
  {
    var a, b := Attempt(1, 1), Attempt(2, 5);
    SortedExample();
    var sorted := [b, a];
    assert sorted[1..] == [a];
    assert FindIndex(sorted, 1) == Some(1);
    assert InitialIndex(sorted, Some(1)) == 1;
  }

  /** Reading the sorted list shows the requested attempt whenever it exists. */
  lemma ShownIsRequestedAttempt(instances: seq<ExamInstance>, instanceId: int)
    requires instanceId != 0
    requires exists k :: 0 <= k < |instances| && instances[k].id == instanceId
    ensures var sorted := SortedInstances(instances);
      var r := Shown(sorted, InitialIndex(sorted, Some(instanceId)));
      r.Some? && r.value.id == instanceId && r.value in instances
  {
    var sorted := SortedInstances(instances);
    var k :| 0 <= k < |instances| && instances[k].id == instanceId;
    assert instances[k] in multiset(sorted);
    var j :| 0 <= j < |sorted| && sorted[j] == instances[k];
    var r := Shown(sorted, InitialIndex(sorted, Some(instanceId)));
    assert r.value in multiset(instances);
  }

  /** The attempt navigator: a selected position in the sorted attempts. */
  class AttemptNavigator {
    const sorted: seq<ExamInstance>
    var selected: nat

    predicate Valid()
      reads this
    {
      selected == 0 || selected < |sorted|
    }

    constructor(instances: seq<ExamInstance>, instanceId: Option<int>)
      ensures sorted == SortedInstances(instances)
      ensures selected == InitialIndex(sorted, instanceId)
      ensures Valid()
    {
      sorted := SortedInstances(instances);
      selected := InitialIndex(SortedInstances(instances), instanceId);
    }

    /** The shown attempt, read from the sorted list. */
    function Current(): (r: Option<ExamInstance>)
      reads this
      requires Valid()
      ensures r.Some? <==> |sorted| > 0
      ensures |sorted| > 0 ==> r == Some(sorted[selected])
    {
      Shown(sorted, selected)
    }

    /** `goToPreviousAttempt` */
    method Previous()
      requires Valid()
      modifies this
      ensures Valid()
      ensures selected == if old(selected) > 0 then old(selected) - 1 else old(selected)
    {
      if selected > 0 {
        selected := selected - 1;
      }
    }

    /** `goToNextAttempt` */
    method Next()
      requires Valid()
      modifies this
      ensures Valid()
      ensures selected == if old(selected) + 1 < |sorted| then old(selected) + 1 else old(selected)
    {
      if selected + 1 < |sorted| {
        selected := selected + 1;
      }
    }
  }

  predicate IsCorrect(x: ExamAnswer) { x.isCorrect.Some? && x.isCorrect.value }
  predicate IsIncorrect(x: ExamAnswer) { x.isCorrect.Some? && !x.isCorrect.value }
  predicate IsPending(x: ExamAnswer) { x.isCorrect.None? }

  /** Answer tallies: `answers?.length ?? 0` and the three `is_correct` filters. */
  datatype Tally = Tally(total: nat, correct: nat, incorrect: nat, pending: nat)

  function TallyOf(answers: Option<seq<ExamAnswer>>): Tally
  {
    if answers.None? then Tally(0, 0, 0, 0)
    else
      var a := answers.value;
      Tally(|a|, Count(a, IsCorrect), Count(a, IsIncorrect), Count(a, IsPending))
  }

  /** The three tallies partition the answers. */
  lemma {:induction false} TallyPartition(answers: Option<seq<ExamAnswer>>)
    ensures var t := TallyOf(answers); t.correct + t.incorrect + t.pending == t.total
  {
    if answers.Some? {
      CountsPartition(answers.value);
    }
  }

  lemma {:induction false} CountsPartition(a: seq<ExamAnswer>)
    ensures Count(a, IsCorrect) + Count(a, IsIncorrect) + Count(a, IsPending) == |a|
    decreases |a|
  {
    if |a| > 0 {
      CountsPartition(a[1..]);
      assert Count(a, IsCorrect) == (if IsCorrect(a[0]) then 1 else 0) + Count(a[1..], IsCorrect);
      assert Count(a, IsIncorrect) == (if IsIncorrect(a[0]) then 1 else 0) + Count(a[1..], IsIncorrect);
      assert Count(a, IsPending) == (if IsPending(a[0]) then 1 else 0) + Count(a[1..], IsPending);
      assert IsCorrect(a[0]) || IsIncorrect(a[0]) || IsPending(a[0]);
    }
  }

  /** `Math.round(score / total * 100)`; a division by zero (NaN or Infinity) is `None`. */
  function ScorePercentage(score: int, total: nat): (r: Option<int>)
    ensures r.None? <==> total == 0
    ensures r.Some? && 0 <= score <= total ==> 0 <= r.value <= 100
  {
    if total == 0 then None else Some(RoundPercent(score, total))
  }

  /** Every answer correct reads as 100 percent. */
  lemma FullScoreIsHundred(total: nat)
    requires total > 0
    ensures ScorePercentage(total, total) == Some(100)
  {
    RoundPercentOfWhole(total);
  }

  datatype Slice = Slice(name: string, value: nat)

  /** `pieData`: correct and incorrect always, pending only when some answers await checking. */
  function PieData(t: Tally): (r: seq<Slice>)
    ensures |r| == 2 || |r| == 3
    ensures r[0] == Slice("Правильні", t.correct) && r[1] == Slice("Неправильні", t.incorrect)
    ensures |r| == 3 <==> t.pending > 0
    ensures |r| == 3 ==> r[2] == Slice("Очікує перевірки", t.pending)
  {
    [Slice("Правильні", t.correct), Slice("Неправильні", t.incorrect)]
    + (if t.pending > 0 then [Slice("Очікує перевірки", t.pending)] else [])
  }

  function SliceTotal(r: seq<Slice>): nat
  {
    if |r| == 0 then 0 else r[0].value + SliceTotal(r[1..])
  }

  /** The pie's slices add up to the number of answers. */
  lemma PieCoversAllAnswers(answers: Option<seq<ExamAnswer>>)
    ensures SliceTotal(PieData(TallyOf(answers))) == TallyOf(answers).total
  {
    TallyPartition(answers);
    var t := TallyOf(answers);
    var r := PieData(t);
    assert r[1..][1..] == r[2..];
    assert SliceTotal(r) == r[0].value + SliceTotal(r[1..]);
    assert SliceTotal(r[1..]) == r[1].value + SliceTotal(r[2..]);
    if t.pending > 0 {
      assert r[2..][1..] == [];
      assert SliceTotal(r[2..]) == t.pending;
    } else {
      assert r[2..] == [];
    }
  }

  datatype ComparisonRow = ComparisonRow(title: string, percentage: Option<int>, score: int, total: nat)

  /** One bar of `attemptsComparisonData`: a missing answer list divides by 1 but reports 0 answers. */
  function Comparison(inst: ExamInstance): (r: ComparisonRow)
    ensures r.score == ScoreOf(inst)
    ensures inst.attempt.None? || inst.attempt.value.answers.None? ==> r.total == 0 && r.percentage == Some(100 * r.score)
    ensures inst.attempt.Some? && inst.attempt.value.answers.Some? ==>
      r.total == |inst.attempt.value.answers.value| && r.percentage == ScorePercentage(r.score, r.total)
  {
    var answers := if inst.attempt.Some? then inst.attempt.value.answers else None;
    var denominator := if answers.Some? then |answers.value| else 1;
    ComparisonRow(
      "Спроба " + IntToString(inst.attemptNumber),
      if denominator == 0 then None else Some(RoundPercent(ScoreOf(inst), denominator)),
      ScoreOf(inst),
      if answers.Some? then |answers.value| else 0)
  }

  /** `attemptsComparisonData`: one row per sorted attempt, in the same order. */
  function ComparisonData(sorted: seq<ExamInstance>): (r: seq<ComparisonRow>)
    ensures |r| == |sorted|
    ensures forall i :: 0 <= i < |r| ==> r[i] == Comparison(sorted[i])
    ensures (forall i, j :: 0 <= i < j < |sorted| ==> ScoreOf(sorted[i]) >= ScoreOf(sorted[j])) ==>
      forall i, j :: 0 <= i < j < |r| ==> r[i].score >= r[j].score
  {
    seq(|sorted|, i requires 0 <= i < |sorted| => Comparison(sorted[i]))
  }

  /** The chart built from the sorted attempts lists them best first. */
  lemma ComparisonBestFirst(instances: seq<ExamInstance>)
    ensures var bars := ComparisonData(SortedInstances(instances));
      forall i, j :: 0 <= i < j < |bars| ==> bars[i].score >= bars[j].score
  {
  }
}
