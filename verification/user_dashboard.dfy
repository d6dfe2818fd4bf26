/**
 * The learner dashboard: how the route parameters and the path choose the
 * active section and the view, the section buttons, and the breadcrumb
 * trail shown above the view.
 */
module UserDashboard {
  import opened Wrappers
  import opened JsText

  /** The route parameters; an absent parameter is `None`. */
  datatype RouteParams = RouteParams(
    groupId: Option<string>,
    moduleId: Option<string>,
    lessonId: Option<string>,
    examId: Option<string>,
    attemptId: Option<string>,
    resultId: Option<string>)

  const NoParams := RouteParams(None, None, None, None, None, None)

  /** The result of `Number(...)` on a parameter: `None` is NaN. */
  type Num = Option<int>

  datatype Section = GroupsSection | ExamsSection | ResultsSection

  datatype View =
    | Groups
    | Group(groupId: Num)
    | Module(groupId: Num, moduleId: Num)
    | Lesson(groupId: Num, moduleId: Num, lessonId: Num)
    | Exams
    | Exam(groupId: Num, assignmentId: Num, groupName: Option<string>)
    | ExamAttempt(groupId: Num, assignmentId: Num, attemptId: Option<Num>, examInstanceId: Option<Num>, groupName: Option<string>)
    | ExamResult(groupId: Num, assignmentId: Num, attemptText: string, instanceId: Num, groupName: Option<string>)
    | ExamDetails(groupId: Num, assignmentId: Num, groupName: Option<string>)
    | Results
    | ResultDetail(resultId: Num)

  /** The section each view belongs to. */
  function SectionOf(v: View): Section
  {
    match v
    case Results | ResultDetail(_) => ResultsSection
    case Exams | Exam(_, _, _) | ExamAttempt(_, _, _, _, _) | ExamResult(_, _, _, _, _) | ExamDetails(_, _, _) => ExamsSection
    case _ => GroupsSection
  }

  /** True when some route parameter is present and non-empty. */
  predicate AnyParam(p: RouteParams)
  {
    Truthy(p.groupId) || Truthy(p.examId) || Truthy(p.resultId)
  }

  /**
   * The section and view the parameter effect settles on: the first matching
   * rule wins, and only a route without parameters looks at the path.
   */
  function Route(p: RouteParams, pathname: string): (r: (Section, View))
    ensures r.0 == SectionOf(r.1)
    ensures Truthy(p.resultId) ==> r.1.ResultDetail?
    ensures !Truthy(p.resultId) && Truthy(p.examId) && Truthy(p.attemptId) ==>
      r.1.ExamAttempt? && r.1.examInstanceId == r.1.attemptId == Some(StringToNumber(p.attemptId.value))
    ensures !AnyParam(p) ==> r.1 in {Groups, Exams, Results}
  {
    if Truthy(p.resultId) then
      (ResultsSection, ResultDetail(StringToNumber(p.resultId.value)))
    else if Truthy(p.examId) && Truthy(p.attemptId) then
      var attempt := StringToNumber(p.attemptId.value);
      (ExamsSection, ExamAttempt(Some(0), StringToNumber(p.examId.value), Some(attempt), Some(attempt), None))
    else if Truthy(p.examId) then
      (ExamsSection, Exam(Some(0), StringToNumber(p.examId.value), None))
    else if Truthy(p.groupId) && Truthy(p.moduleId) && Truthy(p.lessonId) then
      (GroupsSection, Lesson(StringToNumber(p.groupId.value), StringToNumber(p.moduleId.value), StringToNumber(p.lessonId.value)))
    else if Truthy(p.groupId) && Truthy(p.moduleId) then
      (GroupsSection, Module(StringToNumber(p.groupId.value), StringToNumber(p.moduleId.value)))
    else if Truthy(p.groupId) then
      (GroupsSection, Group(StringToNumber(p.groupId.value)))
    else if StartsWith(pathname, "/results") then
      (ResultsSection, Results)
    else if StartsWith(pathname, "/exams") then
      (ExamsSection, Exams)
    else
      (GroupsSection, Groups)
  }

  /** Once a parameter is present, the path plays no part. */
  lemma RouteIgnoresPath(p: RouteParams, pathname: string, other: string)
    requires AnyParam(p)
    ensures Route(p, pathname) == Route(p, other)
  {
  }

  /** The path each section button navigates to. */
  function SectionPath(s: Section): (path: string)
    ensures |path| > 1 && path[0] == '/'
  {
    match s
    case GroupsSection => "/groups"
    case ExamsSection => "/exams"
    case ResultsSection => "/results"
  }

  /** Following a section button lands, once the route settles, in that section. */
  lemma RouteOfSectionPath(s: Section)
    ensures Route(NoParams, SectionPath(s)).0 == s
  {
    assert !AnyParam(NoParams);
    match s
    case GroupsSection =>
      assert !StartsWith("/groups", "/results") && !StartsWith("/groups", "/exams") by {
        assert "/groups"[1] == 'g';
      }
    case ExamsSection =>
      assert StartsWith("/exams", "/exams");
    case ResultsSection =>
      assert StartsWith("/results", "/results");
  }

  /** `String(n)` of a parsed parameter: NaN prints as "NaN". */
  function NumText(n: Num): (t: string)
    ensures |t| > 0
  {
    match n
    case None => "NaN"
    case Some(k) => IntToString(k)
  }

  /** JavaScript truthiness of a number: neither NaN nor zero. */
  predicate NumTruthy(n: Num)
  {
    n.Some? && n.value != 0
  }

  /** The `examInstanceId` handed to the attempt screen: the stored one, or 0 when falsy. */
  function AttemptInstance(examInstanceId: Option<Num>): (k: int)
    ensures examInstanceId.Some? && NumTruthy(examInstanceId.value) ==> k == examInstanceId.value.value
    ensures !(examInstanceId.Some? && NumTruthy(examInstanceId.value)) ==> k == 0
  {
    if examInstanceId.Some? && NumTruthy(examInstanceId.value) then examInstanceId.value.value else 0
  }

  /** An attempt route whose attempt number is a non-zero integer opens that exam instance. */
  lemma AttemptRouteOpensAttempt(p: RouteParams, pathname: string, k: int)
    requires !Truthy(p.resultId) && Truthy(p.examId) && Truthy(p.attemptId)
    requires StringToNumber(p.attemptId.value) == Some(k) && k != 0
    ensures Route(p, pathname).1.ExamAttempt?
    ensures AttemptInstance(Route(p, pathname).1.examInstanceId) == k
  {
  }

  /** The attempt id handed to the result screen: the stored text, else the instance id as text. */
  function ResultAttemptText(attemptId: string, examInstanceId: Num): (t: string)
    ensures attemptId != "" ==> t == attemptId
    ensures attemptId == "" ==> t == NumText(examInstanceId)
  {
    if attemptId != "" then attemptId else NumText(examInstanceId)
  }

  /** The final `|| ''` fallback is never reached: the text is never empty. */
  lemma ResultAttemptTextNonEmpty(attemptId: string, examInstanceId: Num)
    ensures ResultAttemptText(attemptId, examInstanceId) != ""
  {
    assert |NumText(examInstanceId)| > 0;
  }

  datatype Crumb = Crumb(caption: string, path: string)

  /** The number of crumbs above each view. */
  function Depth(v: View): nat
  {
    match v
    case Group(_) | Exam(_, _, _) | ResultDetail(_) => 2
    case Module(_, _) | ExamAttempt(_, _, _, _, _) | ExamResult(_, _, _, _, _) => 3
    case Lesson(_, _, _) => 4
    case _ => 0
  }

  /** A trail links back with every crumb but the last, which names the current page. */
  predicate WellFormedTrail(crumbs: seq<Crumb>)
  {
    (|crumbs| > 0 ==> crumbs[0].path == "/" && crumbs[|crumbs| - 1].path == "")
    && (forall i :: 0 <= i < |crumbs| - 1 ==> crumbs[i].path != "")
  }

  function GroupPath(groupId: Num): string
  {
    "/groups/" + NumText(groupId)
  }

  /** The breadcrumb trail of a view. */
  function Trail(v: View): (crumbs: seq<Crumb>)
    ensures |crumbs| == Depth(v)
    ensures WellFormedTrail(crumbs)
  {
    match v
    case Group(_) =>
      [Crumb("Мої групи", "/"), Crumb("Перегляд групи", "")]
    case Module(g, _) =>
      [Crumb("Мої групи", "/"), Crumb("Група", GroupPath(g)), Crumb("Модуль", "")]
    case Lesson(g, m, _) =>
      [Crumb("Мої групи", "/"), Crumb("Група", GroupPath(g)),
       Crumb("Модуль", GroupPath(g) + "/modules/" + NumText(m)), Crumb("Урок", "")]
    case Exam(_, _, name) =>
      [Crumb("Екзамени", "/"), Crumb(name.GetOr("Перегляд екзамену"), "")]
    case ExamAttempt(_, a, _, _, name) =>
      [Crumb("Екзамени", "/"), Crumb(name.GetOr("Екзамен"), "/exams/" + NumText(a)), Crumb("Спроба", "")]
    case ExamResult(_, a, _, _, name) =>
      [Crumb("Екзамени", "/"), Crumb(name.GetOr("Екзамен"), "/exams/" + NumText(a)), Crumb("Результати спроби", "")]
    case ResultDetail(_) =>
      [Crumb("Результати", "/"), Crumb("Детальні результати", "")]
    case _ => []
  }

  /** Every view the route reaches without parameters has no trail; every parameter route has one. */
  lemma TrailOnlyForParamRoutes(p: RouteParams, pathname: string)
    ensures |Trail(Route(p, pathname).1)| > 0 <==> AnyParam(p)
  {
  }

  /** The state the dashboard keeps: the highlighted section and the view shown. */
  class Dashboard {
    var activeSection: Section
    var currentView: View

    /** The highlighted section is the one the view belongs to. */
    predicate Valid()
      reads this
    {
      activeSection == SectionOf(currentView)
    }

    constructor()
      ensures activeSection == GroupsSection && currentView == Groups
      ensures Valid()
    {
      activeSection := GroupsSection;
      currentView := Groups;
    }

    /** The parameter effect: walk the rules in order and settle on the first that matches. */
    method OnParams(p: RouteParams, pathname: string)
      modifies this
      ensures (activeSection, currentView) == Route(p, pathname)
      ensures Valid()
    {
      if Truthy(p.resultId) {
        activeSection := ResultsSection;
        currentView := ResultDetail(StringToNumber(p.resultId.value));
      } else if Truthy(p.examId) && Truthy(p.attemptId) {
        activeSection := ExamsSection;
        var attempt := StringToNumber(p.attemptId.value);
        currentView := ExamAttempt(Some(0), StringToNumber(p.examId.value), Some(attempt), Some(attempt), None);
      } else if Truthy(p.examId) {
        activeSection := ExamsSection;
        currentView := Exam(Some(0), StringToNumber(p.examId.value), None);
      } else if Truthy(p.groupId) && Truthy(p.moduleId) && Truthy(p.lessonId) {
        activeSection := GroupsSection;
        currentView := Lesson(StringToNumber(p.groupId.value), StringToNumber(p.moduleId.value), StringToNumber(p.lessonId.value));
      } else if Truthy(p.groupId) && Truthy(p.moduleId) {
        activeSection := GroupsSection;
        currentView := Module(StringToNumber(p.groupId.value), StringToNumber(p.moduleId.value));
      } else if Truthy(p.groupId) {
        activeSection := GroupsSection;
        currentView := Group(StringToNumber(p.groupId.value));
      } else if StartsWith(pathname, "/results") {
        activeSection := ResultsSection;
        currentView := Results;
      } else if StartsWith(pathname, "/exams") {
        activeSection := ExamsSection;
        currentView := Exams;
      } else {
        activeSection := GroupsSection;
        currentView := Groups;
      }
    }

    /**
     * A section button: highlight the section and return the path to navigate
     * to; the view follows once the route changes.
     */
    method OpenSection(s: Section) returns (target: string)
      modifies this
      ensures activeSection == s && currentView == old(currentView)
      ensures target == SectionPath(s)
    {
      activeSection := s;
      target := SectionPath(s);
    }

    /** Build the breadcrumb trail of the current view, crumb by crumb. */
    method Breadcrumbs() returns (crumbs: seq<Crumb>)
      ensures crumbs == Trail(currentView)
      ensures WellFormedTrail(crumbs)
    {
      crumbs := [];
      match currentView
      case Group(_) =>
        crumbs := crumbs + [Crumb("Мої групи", "/")];
        crumbs := crumbs + [Crumb("Перегляд групи", "")];
      case Module(g, _) =>
        crumbs := crumbs + [Crumb("Мої групи", "/")];
        crumbs := crumbs + [Crumb("Група", GroupPath(g))];
        crumbs := crumbs + [Crumb("Модуль", "")];
      case Lesson(g, m, _) =>
        crumbs := crumbs + [Crumb("Мої групи", "/")];
        crumbs := crumbs + [Crumb("Група", GroupPath(g))];
        crumbs := crumbs + [Crumb("Модуль", GroupPath(g) + "/modules/" + NumText(m))];
        crumbs := crumbs + [Crumb("Урок", "")];
      case Exam(_, _, name) =>
        crumbs := crumbs + [Crumb("Екзамени", "/")];
        crumbs := crumbs + [Crumb(name.GetOr("Перегляд екзамену"), "")];
      case ExamAttempt(_, a, _, _, name) =>
        crumbs := crumbs + [Crumb("Екзамени", "/")];
        crumbs := crumbs + [Crumb(name.GetOr("Екзамен"), "/exams/" + NumText(a))];
        crumbs := crumbs + [Crumb("Спроба", "")];
      case ExamResult(_, a, _, _, name) =>
        crumbs := crumbs + [Crumb("Екзамени", "/")];
        crumbs := crumbs + [Crumb(name.GetOr("Екзамен"), "/exams/" + NumText(a))];
        crumbs := crumbs + [Crumb("Результати спроби", "")];
      case ResultDetail(_) =>
        crumbs := crumbs + [Crumb("Результати", "/")];
        crumbs := crumbs + [Crumb("Детальні результати", "")];
      case _ =>
    }
  }
}
