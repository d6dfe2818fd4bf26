/**
 * The graded review of one attempt (components/user/ExamResultView.tsx):
 * each delivered question joined with the learner's graded answer, the
 * comma-joined id lists, the totals and the "under review" notice.
 */
module ExamResultView {
  import opened Wrappers
  import opened JsText
  import opened Collections
  import ExamAttempt

  /** A choice of a graded question: `{ id, text, correct }`. */
  datatype GradedChoice = GradedChoice(id: int, text: string, correct: bool)

  /** A graded answer: its question's choices, the learner's picks and the verdict (`null` while checking). */
  datatype GradedAnswer = GradedAnswer(
    questionId: int,
    choices: Option<seq<GradedChoice>>,
    userChoices: Option<seq<int>>,
    isCorrect: Option<bool>)

  datatype DeliveredQuestion = DeliveredQuestion(id: int, text: string)

  datatype ReviewOption = ReviewOption(id: string, text: string, isCorrect: bool)

  datatype ReviewQuestion = ReviewQuestion(
    id: string,
    number: nat,
    text: string,
    answers: seq<ReviewOption>,
    selectedIds: Option<string>,
    correctIds: Option<string>,
    isCorrect: Option<bool>)

  /** The ids of the choices flagged correct, in choice order. */
  function CorrectIdList(choices: seq<GradedChoice>): (r: seq<string>)
    ensures |r| <= |choices|
    ensures forall x :: x in r ==> exists c :: c in choices && c.correct && x == IntToString(c.id)
    ensures forall c :: c in choices && c.correct ==> IntToString(c.id) in r
  {
    if |choices| == 0 then []
    else
      var init, last := choices[..|choices| - 1], choices[|choices| - 1];
      assert forall c :: c in choices <==> c in init || c == last;
      CorrectIdList(init) + (if last.correct then [IntToString(last.id)] else [])
  }

  /** One choice contributes its id exactly when it is correct. */
  lemma CorrectIdListOfOne(c: GradedChoice)
    ensures CorrectIdList([c]) == if c.correct then [IntToString(c.id)] else []
  {
    assert [c][..0] == [];
  }

  /**
   * A concatenation contributes the ids of both parts in turn; with
   * `CorrectIdListOfOne`, the list is in choice order with one id per
   * correct choice.
   */
  lemma {:induction false} CorrectIdListAppend(a: seq<GradedChoice>, b: seq<GradedChoice>)
    ensures CorrectIdList(a + b) == CorrectIdList(a) + CorrectIdList(b)
    decreases |b|
  {
    if |b| == 0 {
      assert a + b == a;
    } else {
      var init, last := b[..|b| - 1], b[|b| - 1];
      var tail := if last.correct then [IntToString(last.id)] else [];
      assert (a + b)[..|a + b| - 1] == a + init;
      assert (a + b)[|a + b| - 1] == last;
      assert CorrectIdList(a + b) == CorrectIdList(a + init) + tail;
      assert CorrectIdList(b) == CorrectIdList(init) + tail;
      CorrectIdListAppend(a, init);
      AppendAssoc(CorrectIdList(a), CorrectIdList(init), tail);
    }
  }

  /** `correctAnswerIds`: the `forEach` pushing the id of each correct choice. */
  method CollectCorrectIds(choices: Option<seq<GradedChoice>>) returns (ids: seq<string>)
    ensures ids == if choices.Some? then CorrectIdList(choices.value) else []
  {
    ids := [];
    if choices.Some? {
      var cs := choices.value;
      var i := 0;
      while i < |cs|
        invariant 0 <= i <= |cs|
        invariant ids == CorrectIdList(cs[..i])
      {
        assert cs[..i + 1][..i] == cs[..i];
        assert CorrectIdList(cs[..i + 1]) ==
          CorrectIdList(cs[..i]) + (if cs[i].correct then [IntToString(cs[i].id)] else []);
        if cs[i].correct {
          ids := ids + [IntToString(cs[i].id)];
        }
        i := i + 1;
      }
      assert cs[..|cs|] == cs;
    }
  }

  /** The learner's picks as text, in order. */
  function SelectedIdList(picks: seq<int>): (r: seq<string>)
    ensures |r| == |picks|
    ensures forall k :: 0 <= k < |r| ==> r[k] == IntToString(picks[k])
  {
    seq(|picks|, k requires 0 <= k < |picks| => IntToString(picks[k]))
  }

  /** `selectedAnswerIds`: the `forEach` pushing each `question_choice_id`. */
  method CollectSelectedIds(picks: Option<seq<int>>) returns (ids: seq<string>)
    ensures ids == if picks.Some? then SelectedIdList(picks.value) else []
  {
    ids := [];
    if picks.Some? {
      var ps := picks.value;
      var i := 0;
      while i < |ps|
        invariant 0 <= i <= |ps|
        invariant ids == SelectedIdList(ps[..i])
      {
        ids := ids + [IntToString(ps[i])];
        i := i + 1;
      }
      assert ps[..|ps|] == ps;
    }
  }

  /** The stored form of an id list: comma-joined, `undefined` when empty. */
  function JoinIds(ids: seq<string>): (r: Option<string>)
    ensures r.None? <==> |ids| == 0
  {
    if |ids| > 0 then Some(Join(ids, ",")) else None
  }

  /** The rendered form: `stored?.split(',') || []`. */
  function ReadIds(stored: Option<string>): (r: seq<string>)
    ensures stored.None? ==> r == []
    ensures stored.Some? ==> |r| >= 1
  {
    if stored.Some? then Split(stored.value, ",") else []
  }

  /** Numeric id lists survive being stored and read back; an empty list reads back empty. */
  lemma IdListRoundTrip(ids: seq<int>)
    ensures ReadIds(JoinIds(SelectedIdList(ids))) == SelectedIdList(ids)
  {
    var parts := SelectedIdList(ids);
    if |parts| > 0 {
      forall k | 0 <= k < |parts| ensures ',' !in parts[k] {
        IntToStringHasNo(ids[k], ',');
      }
      SplitJoin(parts, ',');
    }
  }

  /** `answers.find(a => a.question_id === id)` */
  function FindAnswer(answers: seq<GradedAnswer>, id: int): (r: Option<GradedAnswer>)
    ensures r.Some? ==> r.value in answers && r.value.questionId == id
    ensures r.None? <==> forall k :: 0 <= k < |answers| ==> answers[k].questionId != id
  {
    if |answers| == 0 then None
    else if answers[0].questionId == id then Some(answers[0])
    else FindAnswer(answers[1..], id)
  }

  function ToReviewOption(c: GradedChoice): ReviewOption
  {
    ReviewOption(IntToString(c.id), c.text, c.correct)
  }

  /** One reviewed question, numbered from 1. */
  function Review(q: DeliveredQuestion, index: nat, answers: seq<GradedAnswer>): (r: ReviewQuestion)
    ensures r.number == index + 1 && ParseInt(r.id) == Some(q.id)
    ensures FindAnswer(answers, q.id).None? ==>
              r.answers == [] && r.isCorrect.None? && r.selectedIds.None? && r.correctIds.None?
    ensures FindAnswer(answers, q.id).Some? ==> r.isCorrect == FindAnswer(answers, q.id).value.isCorrect
  {
    ParseIntToString(q.id);
    var answer := FindAnswer(answers, q.id);
    var choices := if answer.Some? then answer.value.choices else None;
    var picks := if answer.Some? then answer.value.userChoices else None;
    ReviewQuestion(
      IntToString(q.id),
      index + 1,
      q.text,
      if choices.Some? then seq(|choices.value|, k requires 0 <= k < |choices.value| => ToReviewOption(choices.value[k])) else [],
      JoinIds(if picks.Some? then SelectedIdList(picks.value) else []),
      JoinIds(if choices.Some? then CorrectIdList(choices.value) else []),
      if answer.Some? then answer.value.isCorrect else None)
  }

  /** `questions`: empty until the instance has its questions. */
  function Questions(delivered: Option<seq<DeliveredQuestion>>, answers: seq<GradedAnswer>): (r: seq<ReviewQuestion>)
    ensures delivered.None? ==> r == []
    ensures delivered.Some? ==> |r| == |delivered.value|
    ensures delivered.Some? ==> forall k :: 0 <= k < |r| ==> r[k] == Review(delivered.value[k], k, answers)
  {
    if delivered.None? then []
    else seq(|delivered.value|, k requires 0 <= k < |delivered.value| => Review(delivered.value[k], k, answers))
  }

  predicate IsCorrectQuestion(q: ReviewQuestion) { q.isCorrect == Some(true) }

  /** `calculateResults`: questions marked exactly `true` over all questions. */
  function CalculateResults(questions: seq<ReviewQuestion>): (r: ExamAttempt.Results)
    ensures r.total == |questions|
    ensures r.correct == |set k | 0 <= k < |questions| && questions[k].isCorrect == Some(true)|
    ensures r.correct <= r.total
    ensures r.correct == r.total <==> forall k :: 0 <= k < |questions| ==> questions[k].isCorrect == Some(true)
    ensures r.percentage.None? <==> |questions| == 0
    ensures r.percentage == ExamAttempt.Percentage(r.correct, r.total)
  {
    CountIsMatchingPositions(questions, IsCorrectQuestion);
    assert Positions(questions, IsCorrectQuestion)
      == (set k | 0 <= k < |questions| && questions[k].isCorrect == Some(true));
    var correct := Count(questions, IsCorrectQuestion);
    ExamAttempt.Results(correct, |questions|, ExamAttempt.Percentage(correct, |questions|))
  }

  /** `hasCheckingAnswers`: some question still awaits a verdict. */
  predicate HasCheckingAnswers(questions: seq<ReviewQuestion>)
  {
    exists k :: 0 <= k < |questions| && questions[k].isCorrect.None?
  }

  /** A delivered question the learner left unanswered keeps the review notice on. */
  lemma UnansweredQuestionIsUnderReview(delivered: seq<DeliveredQuestion>, answers: seq<GradedAnswer>, k: nat)
    requires k < |delivered|
    requires forall j :: 0 <= j < |answers| ==> answers[j].questionId != delivered[k].id
    ensures HasCheckingAnswers(Questions(Some(delivered), answers))
  {
    var qs := Questions(Some(delivered), answers);
    assert qs[k].isCorrect.None?;
  }

  /** Under review, not every question can count as correct. */
  lemma CheckingMeansNotAllCorrect(questions: seq<ReviewQuestion>)
    requires HasCheckingAnswers(questions)
    ensures CalculateResults(questions).correct < |questions|
  {
  }
}
