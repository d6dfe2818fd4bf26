/**
 * Taking an exam attempt (components/user/ExamAttempt.tsx): one question at a
 * time, answers kept per question id, a question counts as answered by its
 * type's rule, and the answers are submitted as one payload.
 */
module ExamAttempt {
  import opened Wrappers
  import opened JsText
  import opened Collections
  import Backend

  const SingleType := "odinokij_vybir"
  const MultipleType := "mnozhinnyj_vybir"
  const SequenceType := "vybir_poslidovnosti"
  const TextType := "napisati_vidpovid"
  /** The pass mark the result screen compares the percentage with. */
  const PassMark := 75

  /** What the attempt stores for a question: typed text / one option id, or a list of option ids. */
  datatype Selection = Text(text: string) | Choices(ids: seq<string>)

  /** A question as the attempt instance delivers it. */
  datatype Choice = Choice(id: string, text: string, scoring: int)
  datatype InstanceQuestion = InstanceQuestion(id: int, text: string, typeSlug: Option<string>, choices: Option<seq<Choice>>)

  /** A question as the screen shows it. */
  datatype AnswerOption = AnswerOption(id: string, text: string, isCorrect: bool)
  datatype Question = Question(id: string, number: nat, text: string, kind: string, answers: seq<AnswerOption>)

  /** `question_type?.slug || 'odinokij_vybir'` */
  function QuestionKind(slug: Option<string>): (kind: string)
    ensures slug.Some? && slug.value != "" ==> kind == slug.value
    ensures slug.None? || slug.value == "" ==> kind == SingleType
  {
    if slug.Some? && slug.value != "" then slug.value else SingleType
  }

  function ToOption(c: Choice): AnswerOption
  {
    AnswerOption(c.id, c.text, c.scoring == 1)
  }

  /** The screen's view of the question at position `index` (choice order as delivered). */
  function ToQuestion(q: InstanceQuestion, index: nat): (r: Question)
    ensures ParseInt(r.id) == Some(q.id)
    ensures r.number == index + 1
    ensures |r.answers| == |q.choices.GetOr([])|
    ensures forall i :: 0 <= i < |r.answers| ==>
      r.answers[i].id == q.choices.value[i].id && (r.answers[i].isCorrect <==> q.choices.value[i].scoring == 1)
  {
    ParseIntToString(q.id);
    var choices := q.choices.GetOr([]);
    Question(IntToString(q.id), index + 1, q.text, QuestionKind(q.typeSlug),
             seq(|choices|, i requires 0 <= i < |choices| => ToOption(choices[i])))
  }

  function ToQuestions(qs: seq<InstanceQuestion>): (r: seq<Question>)
    ensures |r| == |qs|
    ensures forall i :: 0 <= i < |r| ==> r[i] == ToQuestion(qs[i], i)
  {
    seq(|qs|, i requires 0 <= i < |qs| => ToQuestion(qs[i], i))
  }

  function QuestionIds(qs: seq<Question>): seq<string>
  {
    seq(|qs|, i requires 0 <= i < |qs| => qs[i].id)
  }

  function OptionIds(q: Question): seq<string>
  {
    seq(|q.answers|, i requires 0 <= i < |q.answers| => q.answers[i].id)
  }

  /** `selectedAnswers[q.id]` */
  function Lookup(selected: map<string, Selection>, q: Question): (r: Option<Selection>)
    ensures r.Some? <==> q.id in selected
  {
    if q.id in selected then Some(selected[q.id]) else None
  }

  /**
   * A sequence question is answered once its list is as long as its options;
   * any other question once its value is truthy (non-empty text, or any list).
   */
  predicate IsAnswered(q: Question, sel: Option<Selection>)
  {
    match sel
    case None => false
    case Some(Choices(ids)) => q.kind != SequenceType || |ids| == |q.answers|
    case Some(Text(t)) => if q.kind == SequenceType then |t| == |q.answers| else t != ""
  }

  /** The "answered" counter. */
  function AnsweredCount(qs: seq<Question>, selected: map<string, Selection>): (n: nat)
    ensures n == |set i | 0 <= i < |qs| && IsAnswered(qs[i], Lookup(selected, qs[i]))|
    ensures n <= |qs|
    ensures n == |qs| <==> forall i :: 0 <= i < |qs| ==> IsAnswered(qs[i], Lookup(selected, qs[i]))
  {
    var answered := (q: Question) => IsAnswered(q, Lookup(selected, q));
    CountIsMatchingPositions(qs, answered);
    assert Positions(qs, answered) == (set i | 0 <= i < |qs| && IsAnswered(qs[i], Lookup(selected, qs[i])));
    Count(qs, answered)
  }

  /** `selectedValue as string[] || []` (a text value never reaches the list editors). */
  function AsList(sel: Option<Selection>): seq<string>
  {
    if sel.Some? && sel.value.Choices? then sel.value.ids else []
  }

  /** Clicking an option of a multiple-choice question: remove it if chosen, else append it. */
  function Toggle(current: seq<string>, id: string): (r: seq<string>)
    ensures id in r <==> id !in current
    ensures forall x :: x in current && x != id ==> x in r
    ensures forall x :: x in r && x != id ==> x in current
    ensures NoDups(current) ==> NoDups(r)
  {
    if id in current then Without(current, id) else current + [id]
  }

  /** `ids.filter(id => !current.includes(id))` */
  function Unchosen(ids: seq<string>, current: seq<string>): (r: seq<string>)
    ensures forall x :: x in r <==> x in ids && x !in current
  {
    if |ids| == 0 then []
    else
      var rest := Unchosen(ids[1..], current);
      assert forall x :: x in ids <==> x == ids[0] || x in ids[1..];
      if ids[0] in current then rest else [ids[0]] + rest
  }

  /** The options of a sequence question still offered for picking, in display order. */
  function Offered(q: Question, current: seq<string>): (r: seq<string>)
    ensures forall x :: x in r <==> x in OptionIds(q) && x !in current
  {
    Unchosen(OptionIds(q), current)
  }

  /** The picked order of a sequence question stays duplicate-free and drawn from its options. */
  predicate WellPicked(q: Question, ids: seq<string>)
  {
    NoDups(ids) && forall x :: x in ids ==> x in OptionIds(q)
  }

  lemma PickKeepsWellPicked(q: Question, current: seq<string>, k: nat)
    requires WellPicked(q, current)
    requires k < |Offered(q, current)|
    ensures WellPicked(q, current + [Offered(q, current)[k]])
  {
    var x := Offered(q, current)[k];
    assert x in Offered(q, current);
    assert x !in current && x in OptionIds(q);
    var next := current + [x];
    forall i, j | 0 <= i < j < |next| ensures next[i] != next[j] {
      if j == |current| {
        assert next[i] in current;
      }
    }
  }

  lemma UnpickKeepsWellPicked(q: Question, current: seq<string>, id: string)
    requires WellPicked(q, current)
    ensures WellPicked(q, Without(current, id))
  {
  }

  /**
   * With distinct option ids, a well-picked sequence question counts as answered
   * exactly when every option has been picked, and it can never hold more picks than options.
   */
  lemma SequenceAnsweredIffAllPicked(q: Question, ids: seq<string>)
    requires q.kind == SequenceType
    requires WellPicked(q, ids)
    ensures |ids| <= |q.answers|
    ensures NoDups(OptionIds(q)) ==>
      (IsAnswered(q, Some(Choices(ids))) <==> forall x :: x in OptionIds(q) ==> x in ids)
  {
    SubListBound(ids, OptionIds(q));
  }

  /** What is sent for one answer. */
  datatype AnswerPayload =
    | TextAnswer(questionId: Option<int>, value: Selection)
    | ChoiceAnswer(questionId: Option<int>, choiceIds: seq<Option<int>>)

  /** `questions.find(q => q.id === id)` */
  function FindQuestion(qs: seq<Question>, id: string): (r: Option<Question>)
    ensures r.Some? ==> r.value in qs && r.value.id == id
    ensures r.None? ==> forall q :: q in qs ==> q.id != id
  {
    if |qs| == 0 then None
    else if qs[0].id == id then Some(qs[0])
    else FindQuestion(qs[1..], id)
  }

  function ParseAll(ids: seq<string>): (r: seq<Option<int>>)
    ensures |r| == |ids| && forall i :: 0 <= i < |ids| ==> r[i] == ParseInt(ids[i])
  {
    seq(|ids|, i requires 0 <= i < |ids| => ParseInt(ids[i]))
  }

  /** One entry of the payload: text for a written-answer question, parsed option ids otherwise. */
  function PayloadEntry(qs: seq<Question>, key: string, value: Selection): (e: AnswerPayload)
    ensures e.questionId == ParseInt(key)
    ensures e.TextAnswer? <==> (FindQuestion(qs, key).Some? && FindQuestion(qs, key).value.kind == TextType)
    ensures e.ChoiceAnswer? && value.Choices? ==> e.choiceIds == ParseAll(value.ids)
    ensures e.ChoiceAnswer? && value.Text? ==> e.choiceIds == [ParseInt(value.text)]
  {
    var q := FindQuestion(qs, key);
    if q.Some? && q.value.kind == TextType then TextAnswer(ParseInt(key), value)
    else
      match value
      case Choices(ids) => ChoiceAnswer(ParseInt(key), ParseAll(ids))
      case Text(t) => ChoiceAnswer(ParseInt(key), [ParseInt(t)])
  }

  /** The submitted answers, one per stored selection (the request's entry order is not modelled). */
  function SubmitPayload(qs: seq<Question>, selected: map<string, Selection>): (p: map<string, AnswerPayload>)
    ensures p.Keys == selected.Keys
    ensures forall k :: k in p ==> p[k] == PayloadEntry(qs, k, selected[k])
  {
    map k | k in selected :: PayloadEntry(qs, k, selected[k])
  }

  /** Every question keeps its backend id in the payload. */
  lemma PayloadKeepsQuestionIds(backend: seq<InstanceQuestion>, selected: map<string, Selection>, i: nat)
    requires i < |backend|
    requires ToQuestions(backend)[i].id in selected
    ensures SubmitPayload(ToQuestions(backend), selected)[ToQuestions(backend)[i].id].questionId == Some(backend[i].id)
  {
  }

  /** Option ids written by `String(n)` reach the payload as the numbers themselves. */
  lemma {:induction false} PayloadKeepsChoiceIds(ns: seq<int>)
    ensures ParseAll(seq(|ns|, i requires 0 <= i < |ns| => IntToString(ns[i]))) == seq(|ns|, i requires 0 <= i < |ns| => Some(ns[i]))
  {
    forall i | 0 <= i < |ns| ensures ParseInt(IntToString(ns[i])) == Some(ns[i]) {
      ParseIntToString(ns[i]);
    }
  }

  datatype Results = Results(correct: nat, total: nat, percentage: Option<int>)

  /** `Math.round(correct / total * 100)`, NaN (`None`) for an empty total. */
  function Percentage(correct: nat, total: nat): (p: Option<int>)
    ensures p.None? <==> total == 0
    ensures p.Some? ==> 2 * total * p.value <= 200 * correct + total < 2 * total * (p.value + 1)
    ensures p.Some? && correct <= total ==> 0 <= p.value <= 100
  {
    if total == 0 then None else Some(RoundPercent(correct, total))
  }

  /**
   * The result screen's numbers: after submission with the server's graded
   * answers, the answers marked correct; otherwise the questions whose stored
   * value equals their (never set) correct option id, that is the questions
   * with no stored value.
   */
  function CalculateResults(submitted: bool, graded: Option<seq<Backend.ExamAnswer>>,
                            qs: seq<Question>, selected: map<string, Selection>): (r: Results)
    ensures submitted && graded.Some? ==> r.total == |graded.value|
    ensures !(submitted && graded.Some?) ==> r.total == |qs|
    ensures submitted && graded.Some? ==>
      r.correct == |set i | 0 <= i < |graded.value| && graded.value[i].isCorrect == Some(true)|
    ensures !(submitted && graded.Some?) ==> r.correct == |set i | 0 <= i < |qs| && qs[i].id !in selected|
    ensures r.correct <= r.total
    ensures r.percentage == Percentage(r.correct, r.total)
  {
    if submitted && graded.Some? then
      var markedCorrect := (a: Backend.ExamAnswer) => a.isCorrect == Some(true);
      CountIsMatchingPositions(graded.value, markedCorrect);
      assert Positions(graded.value, markedCorrect)
        == (set i | 0 <= i < |graded.value| && graded.value[i].isCorrect == Some(true));
      var correct := Count(graded.value, markedCorrect);
      Results(correct, |graded.value|, Percentage(correct, |graded.value|))
    else
      var unset := (q: Question) => Lookup(selected, q).None?;
      CountIsMatchingPositions(qs, unset);
      assert Positions(qs, unset) == (set i | 0 <= i < |qs| && qs[i].id !in selected);
      var correct := Count(qs, unset);
      Results(correct, |qs|, Percentage(correct, |qs|))
  }

  predicate IsPassed(r: Results)
  {
    r.percentage.Some? && r.percentage.value >= PassMark
  }

  /** Without graded answers, a fully answered attempt reports no correct answers and fails. */
  lemma LocalResultsOfCompleteAttempt(qs: seq<Question>, selected: map<string, Selection>, submitted: bool)
    requires AnsweredCount(qs, selected) == |qs|
    ensures CalculateResults(submitted, None, qs, selected).correct == 0
    ensures !IsPassed(CalculateResults(submitted, None, qs, selected))
  {
    assert forall i :: 0 <= i < |qs| ==> Lookup(selected, qs[i]).Some?;
    if |qs| > 0 {
      RoundPercentOfZero(|qs|);
    }
  }

  predicate HasAttempt(attemptId: Option<int>)
  {
    attemptId.Some? && attemptId.value != 0
  }

  /**
   * No other delivered question has the id of question `i`. Questions that
   * share an id share one entry of the selections.
   */
  predicate OwnsId(qs: seq<Question>, i: nat)
    requires i < |qs|
  {
    forall j :: 0 <= j < |qs| && qs[j].id == qs[i].id ==> j == i
  }

  /** The attempt screen's state. */
  class Session {
    const questions: seq<Question>
    /** `attempt?.id`, when the instance has one */
    const attemptId: Option<int>
    var index: nat
    var selected: map<string, Selection>
    var submitted: bool

    /**
     * The index is in range, only delivered ids are stored, and an
     * ordered-sequence question that owns its id stores a well-picked list.
     */
    ghost predicate Valid()
      reads this`index, this`selected
    {
      (index == 0 || index < |questions|)
      && (forall k :: k in selected ==> k in QuestionIds(questions))
      && (forall i :: 0 <= i < |questions| && questions[i].kind == SequenceType && OwnsId(questions, i) && questions[i].id in selected ==>
            selected[questions[i].id].Choices? && WellPicked(questions[i], selected[questions[i].id].ids))
    }

    function Current(): (q: Option<Question>)
      reads this
      ensures q.Some? <==> index < |questions|
    {
      if index < |questions| then Some(questions[index]) else None
    }

    /** A fresh attempt over the delivered questions. */
    constructor(delivered: Option<seq<InstanceQuestion>>, attemptId: Option<int>)
      ensures Valid()
      ensures questions == ToQuestions(delivered.GetOr([])) && this.attemptId == attemptId
      ensures index == 0 && selected == map[] && !submitted
    {
      questions := ToQuestions(delivered.GetOr([]));
      this.attemptId := attemptId;
      index := 0;
      selected := map[];
      submitted := false;
    }

    /** `handleAnswerSelect`: store `value` for the current question, if there is one. */
    method Select(value: Selection)
      requires Valid()
      requires index < |questions| && questions[index].kind == SequenceType && OwnsId(questions, index) ==>
        value.Choices? && WellPicked(questions[index], value.ids)
      modifies this`selected
      ensures Valid()
      ensures index < |questions| ==> selected == old(selected)[questions[index].id := value]
      ensures index >= |questions| ==> selected == old(selected)
    {
      if index < |questions| {
        var key := questions[index].id;
        selected := selected[key := value];
        forall i | 0 <= i < |questions| && questions[i].kind == SequenceType && OwnsId(questions, i) && questions[i].id in selected
          ensures selected[questions[i].id].Choices? && WellPicked(questions[i], selected[questions[i].id].ids)
        {
          if questions[i].id == key {
            assert i == index;
          }
        }
        assert forall k :: k in selected ==> k in QuestionIds(questions) by {
          assert key == QuestionIds(questions)[index];
        }
      }
    }

    /** Typing into a written-answer question, or choosing a single-choice option. */
    method SelectText(t: string)
      requires Valid()
      requires index < |questions| && questions[index].kind != SequenceType
      modifies this`selected
      ensures Valid()
      ensures selected == old(selected)[questions[index].id := Text(t)]
    {
      Select(Text(t));
    }

    /** Clicking an option of a multiple-choice question. */
    method ToggleChoice(id: string)
      requires Valid()
      requires index < |questions| && questions[index].kind == MultipleType
      modifies this`selected
      ensures Valid()
      ensures selected == old(selected)[questions[index].id := Choices(Toggle(AsList(Lookup(old(selected), questions[index])), id))]
    {
      var current := AsList(Lookup(selected, questions[index]));
      Select(Choices(Toggle(current, id)));
    }

    /** Picking the `k`-th still-offered option of a sequence question: it goes to the end. */
    method Pick(k: nat)
      requires Valid()
      requires index < |questions| && questions[index].kind == SequenceType
      requires k < |Offered(questions[index], AsList(Lookup(selected, questions[index])))|
      modifies this`selected
      ensures Valid()
      ensures var current := AsList(Lookup(old(selected), questions[index]));
        selected == old(selected)[questions[index].id := Choices(current + [Offered(questions[index], current)[k]])]
    {
      var current := AsList(Lookup(selected, questions[index]));
      if OwnsId(questions, index) {
        assert WellPicked(questions[index], current);
        PickKeepsWellPicked(questions[index], current, k);
      }
      Select(Choices(current + [Offered(questions[index], current)[k]]));
    }

    /** Removing a picked option of a sequence question. */
    method Unpick(id: string)
      requires Valid()
      requires index < |questions| && questions[index].kind == SequenceType
      modifies this`selected
      ensures Valid()
      ensures selected == old(selected)[questions[index].id := Choices(Without(AsList(Lookup(old(selected), questions[index])), id))]
    {
      var current := AsList(Lookup(selected, questions[index]));
      if OwnsId(questions, index) {
        assert WellPicked(questions[index], current);
        UnpickKeepsWellPicked(questions[index], current, id);
      }
      Select(Choices(Without(current, id)));
    }

    /** `handleNext`: advance only from an answered question that is not the last. */
    method Next()
      requires Valid()
      modifies this`index
      ensures Valid()
      ensures old(index) + 1 < |questions| && IsAnswered(questions[old(index)], Lookup(selected, questions[old(index)]))
        ==> index == old(index) + 1
      ensures !(old(index) + 1 < |questions| && IsAnswered(questions[old(index)], Lookup(selected, questions[old(index)])))
        ==> index == old(index)
    {
      if index + 1 < |questions| {
        if IsAnswered(questions[index], Lookup(selected, questions[index])) {
          index := index + 1;
        }
      }
    }

    /** `handlePrevious` */
    method Previous()
      requires Valid()
      modifies this`index
      ensures Valid()
      ensures index == if old(index) > 0 then old(index) - 1 else 0
    {
      if index > 0 {
        index := index - 1;
      }
    }

    /** A button of the question grid: any question, answered or not. */
    method GoTo(i: nat)
      requires Valid()
      requires i < |questions|
      modifies this`index
      ensures Valid() && index == i
    {
      index := i;
    }

    /** The finish button is enabled only when every question is answered. */
    predicate CanSubmit()
      reads this`selected
      ensures CanSubmit() <==> forall i :: 0 <= i < |questions| ==> IsAnswered(questions[i], Lookup(selected, questions[i]))
    {
      AnsweredCount(questions, selected) >= |questions|
    }

    /**
     * The finish button is on screen: the attempt is not submitted (the
     * results card replaces the form) and the current question is the last
     * one (with no current question an alert replaces the form, and before
     * the last one "next" is shown instead).
     */
    predicate FinishShown()
      reads this`submitted, this`index
    {
      !submitted && index + 1 == |questions|
    }

    /**
     * A click on the finish button, which runs `handleSubmit`. Where it is not
     * on screen (`FinishShown`) nothing happens; otherwise see `Send`.
     */
    method Submit(serverAccepts: bool) returns (payload: Option<map<string, AnswerPayload>>)
      requires Valid()
      modifies this`submitted
      ensures Valid()
      ensures payload.Some? <==> old(FinishShown()) && CanSubmit() && HasAttempt(attemptId)
      ensures payload.Some? ==> payload.value == SubmitPayload(questions, selected)
      ensures submitted == (old(submitted) || (old(FinishShown()) && CanSubmit() && HasAttempt(attemptId) && serverAccepts))
    {
      if !FinishShown() {
        return None;
      }
      payload := Send(serverAccepts);
    }

    /**
     * `handleSubmit` once the button is clicked: while some question is
     * unanswered the button is disabled and nothing happens; without an
     * attempt id nothing is sent; otherwise the payload is sent and the
     * attempt is marked submitted when the server accepts it.
     */
    method Send(serverAccepts: bool) returns (payload: Option<map<string, AnswerPayload>>)
      requires Valid()
      modifies this`submitted
      ensures Valid()
      ensures payload.Some? <==> CanSubmit() && HasAttempt(attemptId)
      ensures payload.Some? ==> payload.value == SubmitPayload(questions, selected)
      ensures submitted == (old(submitted) || (CanSubmit() && HasAttempt(attemptId) && serverAccepts))
    {
      if !CanSubmit() || !HasAttempt(attemptId) {
        return None;
      }
      payload := Some(SubmitPayload(questions, selected));
      if serverAccepts {
        submitted := true;
      }
    }
  }
}
