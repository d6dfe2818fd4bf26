/**
 * The group page of a learner (components/user/GroupView.tsx): for each
 * assigned exam, whether it is open, its badge, the action offered and the
 * last-result row.
 */
module GroupView {
  import opened Wrappers
  import opened JsText
  import opened Backend
  import opened Ui

  /** `isActive`: both dates set and `now` between them, ends included. */
  predicate IsActive(a: Assignment, now: Timestamp)
  {
    a.startAt.Some? && a.endAt.Some? && a.startAt.value <= now <= a.endAt.value
  }

  /** Not open yet: a start date that lies ahead. */
  predicate NotStarted(a: Assignment, now: Timestamp)
  {
    a.startAt.Some? && now < a.startAt.value
  }

  function ResultSlug(a: Assignment): Option<string>
  {
    if a.result.Some? then Some(a.result.value.slug) else None
  }

  datatype ExamBadge = Passed | Failed | Available | Scheduled | Missed

  /** `getExamStatusBadge`: the result first, then the dates. */
  function BadgeOf(a: Assignment, now: Timestamp): (b: ExamBadge)
    ensures b == Passed <==> ResultSlug(a) == Some("passed")
    ensures b == Failed <==> ResultSlug(a) == Some("failed")
    ensures b == Available <==> ResultSlug(a) != Some("passed") && ResultSlug(a) != Some("failed") && IsActive(a, now)
    ensures b == Scheduled <==> ResultSlug(a) != Some("passed") && ResultSlug(a) != Some("failed") && !IsActive(a, now) && NotStarted(a, now)
  {
    if ResultSlug(a) == Some("passed") then Passed
    else if ResultSlug(a) == Some("failed") then Failed
    else if IsActive(a, now) then Available
    else if NotStarted(a, now) then Scheduled
    else Missed
  }

  /**
   * The badge's variant and text: destructive for a failed or missed exam,
   * secondary only for a scheduled one, and a text of its own for each badge.
   */
  function BadgeLook(b: ExamBadge): (r: (BadgeVariant, string))
    ensures r.0 == Destructive <==> b == Failed || b == Missed
    ensures r.0 == Secondary <==> b == Scheduled
  {
    match b
    case Passed => (Default, "Здано")
    case Failed => (Destructive, "Не здано")
    case Available => (Default, "Доступний")
    case Scheduled => (Secondary, "Заплановано")
    case Missed => (Destructive, "Пропущено")
  }

  /** No two badges share a text. */
  lemma BadgeTextsDistinct(b: ExamBadge, other: ExamBadge)
    requires BadgeLook(b).1 == BadgeLook(other).1
    ensures b == other
  {
  }

  /**
   * What the badge of an exam looks like: destructive exactly when the result
   * is a failure, or when there is no result, the exam is not open and its
   * start is not ahead.
   */
  lemma BadgeLookOfExam(a: Assignment, now: Timestamp)
    ensures BadgeLook(BadgeOf(a, now)).0 == Destructive <==>
      ResultSlug(a) == Some("failed")
      || (ResultSlug(a) != Some("passed") && !IsActive(a, now) && !NotStarted(a, now))
  {
  }

  datatype Action = StartButton | ResultsLink | OpensOn(date: Timestamp) | Expired

  /** The action area: the dates first, then the result. */
  function ActionOf(a: Assignment, now: Timestamp): (r: Action)
    ensures r == StartButton <==> IsActive(a, now)
    ensures r == ResultsLink <==> !IsActive(a, now) && ResultSlug(a) == Some("passed")
    ensures r.OpensOn? <==> !IsActive(a, now) && ResultSlug(a) != Some("passed") && NotStarted(a, now)
    ensures r.OpensOn? ==> r.date == a.startAt.value
  {
    if IsActive(a, now) then StartButton
    else if ResultSlug(a) == Some("passed") then ResultsLink
    else if NotStarted(a, now) then OpensOn(a.startAt.value)
    else Expired
  }

  /**
   * The badge and the action agree, except that a passed exam still open
   * offers the start button: an open exam always offers it, a scheduled one
   * shows its date and a missed one the expired notice.
   */
  lemma BadgeMatchesAction(a: Assignment, now: Timestamp)
    ensures BadgeOf(a, now) == Available ==> ActionOf(a, now) == StartButton
    ensures BadgeOf(a, now) == Scheduled ==> ActionOf(a, now).OpensOn?
    ensures BadgeOf(a, now) == Missed ==> ActionOf(a, now) == Expired
    ensures ActionOf(a, now) == ResultsLink ==> BadgeOf(a, now) == Passed
  {
  }

  /** The last-result row: an attempt whose score is not null. */
  function LastResult(a: Assignment): (r: Option<int>)
    ensures r.Some? <==> a.attempt.Some? && a.attempt.value.score.Some?
    ensures r.Some? ==> r.value == a.attempt.value.score.value
  {
    if a.attempt.Some? && a.attempt.value.score.Some? then a.attempt.value.score else None
  }

  /** `exam.exam?.time_limit ? '<n> хв' : 'Не обмежено'` */
  function TimeLimitText(a: Assignment): (r: string)
    ensures a.exam.Some? && a.exam.value.timeLimit.Some? && a.exam.value.timeLimit.value != 0 ==>
      r == IntToString(a.exam.value.timeLimit.value) + " хв"
    ensures !(a.exam.Some? && a.exam.value.timeLimit.Some? && a.exam.value.timeLimit.value != 0) ==> r == "Не обмежено"
  {
    if a.exam.Some? && a.exam.value.timeLimit.Some? && a.exam.value.timeLimit.value != 0
    then IntToString(a.exam.value.timeLimit.value) + " хв"
    else "Не обмежено"
  }
}
