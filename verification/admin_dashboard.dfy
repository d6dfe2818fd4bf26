/**
 * The administrator dashboard: how the route parameters and the path choose
 * the active section and the view (including the forum topic pattern), the
 * sidebar buttons and the collapsible "my trainings" menu.
 */
module AdminDashboard {
  import opened Wrappers
  import opened JsText

  /** The route parameters; an absent parameter is `None`. */
  datatype RouteParams = RouteParams(
    groupId: Option<string>,
    moduleId: Option<string>,
    lessonId: Option<string>,
    examId: Option<string>,
    attemptId: Option<string>,
    resultId: Option<string>)

  const NoParams := RouteParams(None, None, None, None, None, None)

  /** The result of `Number(...)` on a parameter: `None` is NaN. */
  type Num = Option<int>

  datatype Section = UsersSection | GroupsSection | ResultsSection | ForumSection | MyTrainingsSection

  datatype View =
    | Users
    | Groups
    | GroupDetail(groupKey: string)
    | Results
    | Forum
    | ForumTopic(topicId: string)
    | ForumNewTopic
    | MyGroups
    | MyGroup(groupId: Num)
    | MyModule(groupId: Num, moduleId: Num)
    | MyLesson(groupId: Num, moduleId: Num, lessonId: Num)
    | MyExams
    | MyExam(groupId: Num, assignmentId: Num, groupName: Option<string>)
    | MyExamAttempt(groupId: Num, assignmentId: Num, attemptId: Option<Num>, examInstanceId: Option<Num>, groupName: Option<string>)
    | MyResults
    | MyResultDetail(resultId: string)

  /** The section each view belongs to. */
  function SectionOf(v: View): Section
  {
    match v
    case Users => UsersSection
    case Groups | GroupDetail(_) => GroupsSection
    case Results => ResultsSection
    case Forum | ForumTopic(_) | ForumNewTopic => ForumSection
    case _ => MyTrainingsSection
  }

  const TopicPrefix := "/admins/forum/topics/"

  /**
   * The digits captured by `/\/admins\/forum\/topics\/(\d+)/`: the leftmost
   * place the prefix is followed by a digit, and the longest digit run there.
   */
  function MatchTopic(s: string): (r: Option<string>)
    ensures r.Some? ==> |r.value| > 0 && AllDigits(r.value)
    decreases |s|
  {
    if StartsWith(s, TopicPrefix) && |s| > |TopicPrefix| && IsDigit(s[|TopicPrefix|]) then
      Some(DigitPrefix(s[|TopicPrefix|..]))
    else if |s| == 0 then None
    else MatchTopic(s[1..])
  }

  /** The view the path alone selects when no parameter is present. */
  function PathRoute(pathname: string): View
  {
    if StartsWith(pathname, "/admins/my-") then
      if StartsWith(pathname, "/admins/my-results") then MyResults
      else if StartsWith(pathname, "/admins/my-exams") then MyExams
      else MyGroups
    else if StartsWith(pathname, "/admins/results") then Results
    else if StartsWith(pathname, "/admins/forum") then
      if StartsWith(pathname, "/admins/forum/new") then ForumNewTopic
      else match MatchTopic(pathname)
        case Some(id) => ForumTopic(id)
        case None => Forum
    else if StartsWith(pathname, "/admins/groups") then Groups
    else Users
  }

  /**
   * The view the parameter effect settles on (its section is `SectionOf` the
   * view): the first matching rule wins; a lone group id also looks at the
   * path, and a route without parameters is decided by the path alone.
   */
  function Route(p: RouteParams, pathname: string): (v: View)
    ensures Truthy(p.resultId) ==> v == MyResultDetail(p.resultId.value)
    ensures !Truthy(p.resultId) && Truthy(p.examId) && Truthy(p.attemptId) ==>
      v.MyExamAttempt? && v.examInstanceId == Some(Some(0))
      && v.attemptId == Some(StringToNumber(p.attemptId.value))
    ensures !Truthy(p.resultId) && !Truthy(p.examId) && !Truthy(p.groupId) ==> v == PathRoute(pathname)
  {
    RouteBy(p, pathname, StringToNumber)
  }

  /** The rules of `Route`, with the conversion of ids to numbers (`Number(...)`) as the parameter `num`. */
  function RouteBy(p: RouteParams, pathname: string, num: string -> Num): View
  {
    if Truthy(p.resultId) then
      MyResultDetail(p.resultId.value)
    else if Truthy(p.examId) && Truthy(p.attemptId) then
      MyExamAttempt(Some(0), num(p.examId.value), Some(num(p.attemptId.value)), Some(Some(0)), None)
    else if Truthy(p.examId) then
      MyExam(Some(0), num(p.examId.value), None)
    else if Truthy(p.groupId) && Truthy(p.moduleId) && Truthy(p.lessonId) then
      MyLesson(num(p.groupId.value), num(p.moduleId.value), num(p.lessonId.value))
    else if Truthy(p.groupId) && Truthy(p.moduleId) then
      MyModule(num(p.groupId.value), num(p.moduleId.value))
    else if Truthy(p.groupId) && StartsWith(pathname, "/admins/groups/") then
      GroupDetail(p.groupId.value)
    else if Truthy(p.groupId) then
      MyGroup(num(p.groupId.value))
    else
      PathRoute(pathname)
  }

  /** The section the parameter effect highlights, decided by the same rules. */
  function RouteSection(p: RouteParams, pathname: string): Section
  {
    if Truthy(p.resultId) || Truthy(p.examId) || (Truthy(p.groupId) && Truthy(p.moduleId)) then MyTrainingsSection
    else if Truthy(p.groupId) then
      if StartsWith(pathname, "/admins/groups/") then GroupsSection else MyTrainingsSection
    else PathSection(pathname)
  }

  /** The section the path alone selects. */
  function PathSection(pathname: string): Section
  {
    if StartsWith(pathname, "/admins/my-") then MyTrainingsSection
    else if StartsWith(pathname, "/admins/results") then ResultsSection
    else if StartsWith(pathname, "/admins/forum") then ForumSection
    else if StartsWith(pathname, "/admins/groups") then GroupsSection
    else UsersSection
  }

  lemma PathSectionAgrees(pathname: string)
    ensures SectionOf(PathRoute(pathname)) == PathSection(pathname)
  {
    if !StartsWith(pathname, "/admins/my-") && !StartsWith(pathname, "/admins/results")
       && StartsWith(pathname, "/admins/forum") {
      assert PathRoute(pathname).Forum? || PathRoute(pathname).ForumTopic? || PathRoute(pathname).ForumNewTopic?;
    }
  }

  /** With a result, exam or group id present, the view and the section agree. */
  lemma ParamSectionAgrees(p: RouteParams, pathname: string)
    requires Truthy(p.resultId) || Truthy(p.examId) || Truthy(p.groupId)
    ensures SectionOf(Route(p, pathname)) == RouteSection(p, pathname)
  {
    ParamSectionAgreesBy(p, pathname, StringToNumber);
  }

  /** The section does not depend on how ids are read as numbers. */
  lemma ParamSectionAgreesBy(p: RouteParams, pathname: string, num: string -> Num)
    requires Truthy(p.resultId) || Truthy(p.examId) || Truthy(p.groupId)
    ensures SectionOf(RouteBy(p, pathname, num)) == RouteSection(p, pathname)
  {
  }

  /** The highlighted section is always the one the chosen view belongs to. */
  lemma RouteSectionAgrees(p: RouteParams, pathname: string)
    ensures SectionOf(Route(p, pathname)) == RouteSection(p, pathname)
  {
    if Truthy(p.resultId) || Truthy(p.examId) || Truthy(p.groupId) {
      ParamSectionAgrees(p, pathname);
    } else {
      PathSectionAgrees(pathname);
    }
  }

  /** A lone group id opens the managed group iff the path is under '/admins/groups/', else the learner's own group. */
  lemma GroupRouteByPath(p: RouteParams, pathname: string)
    requires !Truthy(p.resultId) && !Truthy(p.examId) && Truthy(p.groupId) && !Truthy(p.moduleId)
    ensures Route(p, pathname).GroupDetail? <==> StartsWith(pathname, "/admins/groups/")
    ensures !StartsWith(pathname, "/admins/groups/") ==> Route(p, pathname) == MyGroup(StringToNumber(p.groupId.value))
  {
  }

  /** Every path under '/admins/my-' opens one of the three learner lists. */
  lemma MyPathsOpenLearnerLists(pathname: string)
    requires StartsWith(pathname, "/admins/my-")
    ensures SectionOf(PathRoute(pathname)) == MyTrainingsSection
    ensures PathRoute(pathname) in {MyResults, MyExams, MyGroups}
    ensures PathRoute(pathname) == MyGroups <==>
      !StartsWith(pathname, "/admins/my-results") && !StartsWith(pathname, "/admins/my-exams")
  {
  }

  /** A path that is none of the known prefixes falls back to user management. */
  lemma UnknownPathOpensUsers(pathname: string)
    requires !StartsWith(pathname, "/admins/my-") && !StartsWith(pathname, "/admins/results")
    requires !StartsWith(pathname, "/admins/forum") && !StartsWith(pathname, "/admins/groups")
    ensures Route(NoParams, pathname) == Users
  {
    assert !Truthy(NoParams.resultId) && !Truthy(NoParams.examId) && !Truthy(NoParams.groupId);
  }

  /** A topic link, whatever follows its digits, opens exactly that topic. */
  lemma {:induction false} TopicPathOpensTopic(digits: string, rest: string)
    requires |digits| > 0 && AllDigits(digits)
    requires |rest| > 0 ==> !IsDigit(rest[0])
    ensures Route(NoParams, TopicPrefix + digits + rest) == ForumTopic(digits)
  {
    var path := TopicPrefix + digits + rest;
    TopicPathMatches(path, digits, rest);
    TopicPathPrefixes(path, digits + rest);
    assert !Truthy(NoParams.resultId) && !Truthy(NoParams.examId) && !Truthy(NoParams.groupId);
  }

  /** The pattern captures exactly the digits that follow the topic prefix. */
  lemma TopicPathMatches(path: string, digits: string, rest: string)
    requires |digits| > 0 && AllDigits(digits)
    requires |rest| > 0 ==> !IsDigit(rest[0])
    requires path == TopicPrefix + digits + rest
    ensures MatchTopic(path) == Some(digits)
  {
    assert path == TopicPrefix + (digits + rest);
    assert path[..|TopicPrefix|] == TopicPrefix;
    assert path[|TopicPrefix|..] == digits + rest;
    assert path[|TopicPrefix|] == digits[0];
    DigitPrefixOfPrefix(digits, rest);
  }

  /** A path under the topic prefix is a forum path, and none of the routes tested before it. */
  lemma TopicPathPrefixes(path: string, tail: string)
    requires path == TopicPrefix + tail
    ensures StartsWith(path, "/admins/forum")
    ensures !StartsWith(path, "/admins/my-") && !StartsWith(path, "/admins/results")
    ensures !StartsWith(path, "/admins/forum/new")
  {
    assert path[8] == 'f' && path[14] == 't';
    assert path[..13] == TopicPrefix[..13];
  }

  lemma {:induction false} DigitPrefixOfPrefix(digits: string, rest: string)
    requires AllDigits(digits)
    requires |rest| > 0 ==> !IsDigit(rest[0])
    ensures DigitPrefix(digits + rest) == digits
    decreases |digits|
  {
    if |digits| == 0 {
      assert digits + rest == rest;
    } else {
      assert (digits + rest)[1..] == digits[1..] + rest;
      DigitPrefixOfPrefix(digits[1..], rest);
    }
  }

  /** JavaScript truthiness of a number: neither NaN nor zero. */
  predicate NumTruthy(n: Num)
  {
    n.Some? && n.value != 0
  }

  /** The `examInstanceId` handed to the attempt screen: the stored one, else the attempt id, else 0. */
  function AttemptInstance(examInstanceId: Option<Num>, attemptId: Option<Num>): (k: int)
    ensures examInstanceId.Some? && NumTruthy(examInstanceId.value) ==> k == examInstanceId.value.value
    ensures !(examInstanceId.Some? && NumTruthy(examInstanceId.value)) && attemptId.Some? && NumTruthy(attemptId.value) ==> k == attemptId.value.value
    ensures !(examInstanceId.Some? && NumTruthy(examInstanceId.value)) && !(attemptId.Some? && NumTruthy(attemptId.value)) ==> k == 0
  {
    if examInstanceId.Some? && NumTruthy(examInstanceId.value) then examInstanceId.value.value
    else if attemptId.Some? && NumTruthy(attemptId.value) then attemptId.value.value
    else 0
  }

  /** The route stores instance 0, and rendering falls back to the attempt number. */
  lemma AttemptRouteOpensAttempt(p: RouteParams, pathname: string, k: int)
    requires !Truthy(p.resultId) && Truthy(p.examId) && Truthy(p.attemptId)
    requires StringToNumber(p.attemptId.value) == Some(k) && k != 0
    ensures Route(p, pathname).MyExamAttempt?
    ensures AttemptInstance(Route(p, pathname).examInstanceId, Route(p, pathname).attemptId) == k
  {
  }

  /** The path each top-level sidebar button navigates to. */
  function SectionPath(s: Section): (path: string)
    ensures StartsWith(path, "/admins/")
  {
    match s
    case UsersSection => "/admins/users"
    case GroupsSection => "/admins/groups"
    case ResultsSection => "/admins/results"
    case ForumSection => "/admins/forum"
    case MyTrainingsSection => "/admins/my-groups"
  }

  /** Following a sidebar button lands, once the route settles, in that section. */
  lemma RouteOfSectionPath(s: Section)
    ensures SectionOf(Route(NoParams, SectionPath(s))) == s
  {
    RouteSectionAgrees(NoParams, SectionPath(s));
    SectionPathSection(s);
  }

  lemma SectionPathSection(s: Section)
    ensures RouteSection(NoParams, SectionPath(s)) == s
  {
    var path := SectionPath(s);
    assert !Truthy(NoParams.resultId) && !Truthy(NoParams.examId) && !Truthy(NoParams.groupId);
    match s
    case UsersSection =>
      assert path[8] == 'u';
    case GroupsSection =>
      assert path[8] == 'g';
      assert StartsWith(path, "/admins/groups");
    case ResultsSection =>
      assert path[8] == 'r';
      assert StartsWith(path, "/admins/results");
    case ForumSection =>
      assert path[8] == 'f';
      assert StartsWith(path, "/admins/forum");
    case MyTrainingsSection =>
      assert StartsWith(path, "/admins/my-");
  }

  /** The three entries of the "my trainings" menu. */
  datatype LearnerPage = GroupsPage | ExamsPage | ResultsPage

  function LearnerView(page: LearnerPage): View
  {
    match page
    case GroupsPage => MyGroups
    case ExamsPage => MyExams
    case ResultsPage => MyResults
  }

  function LearnerPath(page: LearnerPage): string
  {
    match page
    case GroupsPage => "/admins/my-groups"
    case ExamsPage => "/admins/my-exams"
    case ResultsPage => "/admins/my-results"
  }

  /** A menu entry shows at once the view the route will settle on after its navigation. */
  lemma LearnerPathAgreesWithView(page: LearnerPage)
    ensures Route(NoParams, LearnerPath(page)) == LearnerView(page)
  {
    assert !Truthy(NoParams.resultId) && !Truthy(NoParams.examId) && !Truthy(NoParams.groupId);
    var path := LearnerPath(page);
    assert StartsWith(path, "/admins/my-");
    match page
    case GroupsPage =>
      assert path[11] == 'g';
    case ExamsPage =>
      assert path[11] == 'e';
      assert StartsWith(path, "/admins/my-exams");
    case ResultsPage =>
      assert StartsWith(path, "/admins/my-results");
  }

  /** The state the dashboard keeps: highlighted section, view shown, and whether the learner menu is open. */
  class Dashboard {
    var activeSection: Section
    var currentView: View
    var myTrainingsExpanded: bool

    /** The highlighted section is the one the view belongs to. */
    predicate Valid()
      reads this
    {
      activeSection == SectionOf(currentView)
    }

    constructor()
      ensures activeSection == UsersSection && currentView == Users && !myTrainingsExpanded
      ensures Valid()
    {
      activeSection := UsersSection;
      currentView := Users;
      myTrainingsExpanded := false;
    }

    /** The parameter effect: walk the rules in order and settle on the first that matches. */
    method OnParams(p: RouteParams, pathname: string)
      modifies this
      ensures currentView == Route(p, pathname)
      ensures myTrainingsExpanded == old(myTrainingsExpanded)
      ensures activeSection == RouteSection(p, pathname)
      ensures Valid()
    {
      if Truthy(p.resultId) {
        activeSection := MyTrainingsSection;
        currentView := MyResultDetail(p.resultId.value);
      } else if Truthy(p.examId) && Truthy(p.attemptId) {
        activeSection := MyTrainingsSection;
        currentView := MyExamAttempt(Some(0), StringToNumber(p.examId.value),
          Some(StringToNumber(p.attemptId.value)), Some(Some(0)), None);
      } else if Truthy(p.examId) {
        activeSection := MyTrainingsSection;
        currentView := MyExam(Some(0), StringToNumber(p.examId.value), None);
      } else if Truthy(p.groupId) && Truthy(p.moduleId) && Truthy(p.lessonId) {
        activeSection := MyTrainingsSection;
        currentView := MyLesson(StringToNumber(p.groupId.value), StringToNumber(p.moduleId.value), StringToNumber(p.lessonId.value));
      } else if Truthy(p.groupId) && Truthy(p.moduleId) {
        activeSection := MyTrainingsSection;
        currentView := MyModule(StringToNumber(p.groupId.value), StringToNumber(p.moduleId.value));
      } else if Truthy(p.groupId) && StartsWith(pathname, "/admins/groups/") {
        activeSection := GroupsSection;
        currentView := GroupDetail(p.groupId.value);
      } else if Truthy(p.groupId) {
        activeSection := MyTrainingsSection;
        currentView := MyGroup(StringToNumber(p.groupId.value));
      } else if StartsWith(pathname, "/admins/my-") {
        activeSection := MyTrainingsSection;
        if StartsWith(pathname, "/admins/my-results") {
          currentView := MyResults;
        } else if StartsWith(pathname, "/admins/my-exams") {
          currentView := MyExams;
        } else {
          currentView := MyGroups;
        }
      } else if StartsWith(pathname, "/admins/results") {
        activeSection := ResultsSection;
        currentView := Results;
      } else if StartsWith(pathname, "/admins/forum") {
        activeSection := ForumSection;
        if StartsWith(pathname, "/admins/forum/new") {
          currentView := ForumNewTopic;
        } else {
          var topic := MatchTopic(pathname);
          if topic.Some? {
            currentView := ForumTopic(topic.value);
          } else {
            currentView := Forum;
          }
        }
      } else if StartsWith(pathname, "/admins/groups") {
        activeSection := GroupsSection;
        currentView := Groups;
      } else {
        activeSection := UsersSection;
        currentView := Users;
      }
      RouteSectionAgrees(p, pathname);
    }

    /**
     * The section change handler: highlight the section, go to the root for
     * every section but the forum (which has no branch), and open the learner
     * menu when that section is chosen.
     */
    method SectionChange(section: Section) returns (target: Option<string>)
      modifies this
      ensures activeSection == section && currentView == old(currentView)
      ensures myTrainingsExpanded == (old(myTrainingsExpanded) || section == MyTrainingsSection)
      ensures target.None? <==> section == ForumSection
      ensures target.Some? ==> target.value == "/"
    {
      activeSection := section;
      target := None;
      if section == UsersSection {
        target := Some("/");
      } else if section == GroupsSection {
        target := Some("/");
      } else if section == ResultsSection {
        target := Some("/");
      } else if section == MyTrainingsSection {
        target := Some("/");
        myTrainingsExpanded := true;
      }
    }

    /** A top-level sidebar button (users, groups, results, forum). */
    method OpenSection(section: Section) returns (target: string)
      requires section != MyTrainingsSection
      modifies this
      ensures activeSection == section && currentView == old(currentView)
      ensures myTrainingsExpanded == old(myTrainingsExpanded)
      ensures target == SectionPath(section)
    {
      activeSection := section;
      target := SectionPath(section);
    }

    /** The "my trainings" header: toggle the menu, and on opening it go to the learner's groups. */
    method ToggleMyTrainings() returns (target: Option<string>)
      modifies this
      ensures myTrainingsExpanded == !old(myTrainingsExpanded)
      ensures currentView == old(currentView)
      ensures old(myTrainingsExpanded) ==> target.None? && activeSection == old(activeSection)
      ensures !old(myTrainingsExpanded) ==> target == Some(SectionPath(MyTrainingsSection)) && activeSection == MyTrainingsSection
    {
      var wasExpanded := myTrainingsExpanded;
      myTrainingsExpanded := !wasExpanded;
      target := None;
      if !wasExpanded {
        activeSection := MyTrainingsSection;
        target := Some(SectionPath(MyTrainingsSection));
      }
    }

    /** An entry of the open learner menu: show its list at once and navigate to its path. */
    method OpenLearnerPage(page: LearnerPage) returns (target: string)
      modifies this
      ensures activeSection == MyTrainingsSection && currentView == LearnerView(page)
      ensures myTrainingsExpanded == old(myTrainingsExpanded)
      ensures target == LearnerPath(page)
      ensures Valid()
    {
      activeSection := MyTrainingsSection;
      currentView := LearnerView(page);
      target := LearnerPath(page);
    }
  }
}
