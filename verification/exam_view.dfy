/**
 * One assigned exam (components/user/ExamView.tsx): its passing score, whether
 * a new attempt may be started, and what each earlier attempt offers.
 */
module ExamView {
  import opened Wrappers
  import opened Json
  import opened JsText
  import opened Backend

  /**
   * The exam's passing score: `config.passing_score ?? config.passingScore`,
   * kept when it is a number or converts to a finite one; `null` without a config.
   */
  function PassingScore(exam: Option<Exam>): (r: Option<int>)
    ensures exam.None? || exam.value.config.None? ==> r.None?
    ensures exam.Some? && exam.value.config.Some? ==>
      var c := exam.value.config.value;
      (c.passingScoreSnake.Some? && c.passingScoreSnake.value.JNum? ==> r == Some(c.passingScoreSnake.value.n))
      && ((c.passingScoreSnake.None? && c.passingScoreCamel.Some? && c.passingScoreCamel.value.JNum?)
          ==> r == Some(c.passingScoreCamel.value.n))
      && (c.passingScoreSnake.None? && c.passingScoreCamel.None? ==> r.None?)
  {
    if exam.None? || exam.value.config.None? then None
    else
      var c := exam.value.config.value;
      ToNumber(Coalesce(c.passingScoreSnake, c.passingScoreCamel))
  }

  /** A score stored as decimal text is read as that number. */
  lemma PassingScoreFromText(exam: Exam, n: int)
    requires exam.config.Some? && exam.config.value.passingScoreSnake == Some(JStr(IntToString(n)))
    ensures PassingScore(Some(exam)) == Some(n)
  {
    StringToNumberOfInt(n);
  }

  function Instances(a: Option<Assignment>): seq<ExamInstance>
  {
    if a.Some? && a.value.instances.Some? then a.value.instances.value else []
  }

  /** `finalAssignment?.result?.slug` */
  function Slug(a: Option<Assignment>): Option<string>
  {
    if a.Some? && a.value.result.Some? then Some(a.value.result.value.slug) else None
  }

  /** A new attempt is offered for a fresh assignment, or while work is in progress and attempts remain. */
  function CanShowStartButton(a: Option<Assignment>): (r: bool)
    ensures r <==>
      (Slug(a) == Some("assigned") && |Instances(a)| == 0)
      || (Slug(a) == Some("in_work") && a.Some? && |Instances(a)| < a.value.attemptsAllowed)
    ensures Slug(a) == Some("checking") ==> !r
  {
    var slug := Slug(a);
    var attemptsAllowed := if a.Some? then a.value.attemptsAllowed else 0;
    if slug == Some("assigned") && |Instances(a)| == 0 then true
    else if slug == Some("in_work") && |Instances(a)| < attemptsAllowed then true
    else false
  }

  predicate AttemptsExhausted(a: Option<Assignment>)
  {
    a.Some? && |Instances(a)| >= a.value.attemptsAllowed
  }

  predicate BeforeWindow(a: Option<Assignment>, now: int)
  {
    a.Some? && a.value.startAt.Some? && now < a.value.startAt.value
  }

  predicate AfterWindow(a: Option<Assignment>, now: int)
  {
    a.Some? && a.value.endAt.Some? && now > a.value.endAt.value
  }

  /** The latest attempt exists and holds an answer list that is empty. */
  predicate LastAttemptHasNoAnswers(a: Option<Assignment>)
  {
    var inst := Instances(a);
    |inst| > 0 && inst[|inst| - 1].attempt.Some? && inst[|inst| - 1].attempt.value.answers == Some([])
  }

  /** Whether the start button is disabled. */
  function IsDisabled(pending: bool, a: Option<Assignment>, now: int): (r: bool)
    ensures pending || AttemptsExhausted(a) || BeforeWindow(a, now) || AfterWindow(a, now) ==> r
    ensures Slug(a) == Some("checking") ==> r
    ensures Slug(a) == Some("in_work") && LastAttemptHasNoAnswers(a) ==> r
    ensures r ==> pending || AttemptsExhausted(a) || BeforeWindow(a, now) || AfterWindow(a, now)
                  || Slug(a) == Some("checking") || (Slug(a) == Some("in_work") && LastAttemptHasNoAnswers(a))
  {
    if pending then true
    else if AttemptsExhausted(a) || BeforeWindow(a, now) || AfterWindow(a, now) then true
    else if Slug(a) == Some("checking") then true
    else if Slug(a) == Some("in_work") && |Instances(a)| > 0 then LastAttemptHasNoAnswers(a)
    else false
  }

  /** An enabled start button always means an attempt is left and `now` is inside the window. */
  lemma EnabledStartIsWithinLimits(a: Option<Assignment>, now: int)
    requires CanShowStartButton(a) && !IsDisabled(false, a, now)
    ensures a.Some? && |Instances(a)| < a.value.attemptsAllowed
    ensures a.value.startAt.Some? ==> a.value.startAt.value <= now
    ensures a.value.endAt.Some? ==> now <= a.value.endAt.value
  {
  }

  /** The attempt can be continued: it exists, is not submitted and has no elapsed time recorded. */
  predicate CanContinue(inst: ExamInstance)
  {
    inst.attempt.Some? && inst.attempt.value.submittedAt.None? && inst.attempt.value.elapsedSeconds.None?
  }

  datatype InstanceAction = Continue | ViewResults | View

  /** The button of an earlier attempt: 'Продовжити', 'Переглянути результати' or 'Переглянути'. */
  function InstanceButton(inst: ExamInstance): (r: InstanceAction)
    ensures r == Continue <==> CanContinue(inst)
    ensures r == ViewResults <==> !CanContinue(inst) && inst.attempt.Some? && inst.attempt.value.submittedAt.Some?
  {
    if CanContinue(inst) then Continue
    else if inst.attempt.Some? && inst.attempt.value.submittedAt.Some? then ViewResults
    else View
  }

  datatype StartArea = StartButton(disabled: bool) | CheckingNotice | UnfinishedNotice | AllDoneNotice

  /** What appears where the start button would be. */
  function StartAreaOf(pending: bool, a: Option<Assignment>, now: int): (r: StartArea)
    ensures r.StartButton? <==> CanShowStartButton(a)
    ensures r.StartButton? ==> r.disabled == IsDisabled(pending, a, now)
    ensures r == CheckingNotice <==> !CanShowStartButton(a) && Slug(a) == Some("checking")
    ensures !CanShowStartButton(a) && Slug(a) != Some("checking") ==>
      (r == UnfinishedNotice <==> exists i :: 0 <= i < |Instances(a)| && CanContinue(Instances(a)[i]))
  {
    if CanShowStartButton(a) then StartButton(IsDisabled(pending, a, now))
    else if Slug(a) == Some("checking") then CheckingNotice
    else if exists i :: 0 <= i < |Instances(a)| && CanContinue(Instances(a)[i]) then UnfinishedNotice
    else AllDoneNotice
  }
}
