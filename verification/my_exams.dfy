/**
 * The learner's list of assigned exams (components/user/MyExams.tsx): the
 * status dictionary built from the backend's statuses, the local status of an
 * assignment, the view of each assignment and the order the list is shown in.
 */
module MyExams {
  import opened Wrappers
  import opened JsText
  import opened Backend
  import opened Sorting
  import opened Collections
  import opened Ui
  import ExamView

  datatype LocalStatus = Assigned | InWork | Passed | NotPassed | Checking

  /** Statuses by slug, and the five slugs the client knows when the backend has them. */
  datatype StatusDictionary = StatusDictionary(
    bySlug: map<string, ResultStatus>,
    passedSlug: Option<string>,
    inWorkSlug: Option<string>,
    assignedSlug: Option<string>,
    notPassedSlug: Option<string>,
    checkingSlug: Option<string>)

  const EmptyDictionary := StatusDictionary(map[], None, None, None, None, None)

  predicate HasSlug(statuses: seq<ResultStatus>, slug: string)
  {
    exists i :: 0 <= i < |statuses| && statuses[i].slug == slug
  }

  /** The last status carrying `slug`: a later status overwrites an earlier one. */
  function LastWithSlug(statuses: seq<ResultStatus>, slug: string): (r: Option<ResultStatus>)
    ensures r.Some? <==> HasSlug(statuses, slug)
    ensures r.Some? ==> r.value.slug == slug && r.value in statuses
  {
    if |statuses| == 0 then None
    else if statuses[|statuses| - 1].slug == slug then Some(statuses[|statuses| - 1])
    else
      var init := statuses[..|statuses| - 1];
      HasSlugSnoc(statuses, slug);
      LastWithSlug(init, slug)
  }

  lemma HasSlugSnoc(statuses: seq<ResultStatus>, slug: string)
    requires |statuses| > 0
    ensures HasSlug(statuses, slug) <==>
      HasSlug(statuses[..|statuses| - 1], slug) || statuses[|statuses| - 1].slug == slug
  {
    var init := statuses[..|statuses| - 1];
    if HasSlug(statuses, slug) && statuses[|statuses| - 1].slug != slug {
      var i :| 0 <= i < |statuses| && statuses[i].slug == slug;
      assert init[i].slug == slug;
    }
    if HasSlug(init, slug) {
      var i :| 0 <= i < |init| && init[i].slug == slug;
      assert statuses[i].slug == slug;
    }
  }

  /** A named slot holds its slug exactly when some status carries it. */
  function NamedSlug(statuses: seq<ResultStatus>, slug: string): Option<string>
  {
    if HasSlug(statuses, slug) then Some(slug) else None
  }

  /** One step of the `forEach`: store the status under its slug and fill the matching named slot. */
  function Record(d: StatusDictionary, status: ResultStatus): (r: StatusDictionary)
    ensures r.bySlug == d.bySlug[status.slug := status]
    ensures r.passedSlug == if status.slug == "passed" then Some("passed") else d.passedSlug
    ensures r.inWorkSlug == if status.slug == "in_work" then Some("in_work") else d.inWorkSlug
    ensures r.assignedSlug == if status.slug == "assigned" then Some("assigned") else d.assignedSlug
    ensures r.notPassedSlug == if status.slug == "not_passed" then Some("not_passed") else d.notPassedSlug
    ensures r.checkingSlug == if status.slug == "checking" then Some("checking") else d.checkingSlug
  {
    var d1 := d.(bySlug := d.bySlug[status.slug := status]);
    if status.slug == "passed" then d1.(passedSlug := Some(status.slug))
    else if status.slug == "in_work" then d1.(inWorkSlug := Some(status.slug))
    else if status.slug == "assigned" then d1.(assignedSlug := Some(status.slug))
    else if status.slug == "not_passed" then d1.(notPassedSlug := Some(status.slug))
    else if status.slug == "checking" then d1.(checkingSlug := Some(status.slug))
    else d1
  }

  /** The dictionary the `forEach` leaves behind. */
  function Flatten(statuses: seq<ResultStatus>): StatusDictionary
    decreases |statuses|
  {
    if |statuses| == 0 then EmptyDictionary
    else Record(Flatten(statuses[..|statuses| - 1]), statuses[|statuses| - 1])
  }

  /** Every slug the backend sent is a key, holding the last status with that slug. */
  lemma {:induction false} FlattenBySlug(statuses: seq<ResultStatus>)
    ensures forall slug :: slug in Flatten(statuses).bySlug <==> HasSlug(statuses, slug)
    ensures forall slug :: slug in Flatten(statuses).bySlug ==>
      LastWithSlug(statuses, slug) == Some(Flatten(statuses).bySlug[slug])
    decreases |statuses|
  {
    if |statuses| > 0 {
      FlattenBySlug(statuses[..|statuses| - 1]);
      forall slug {
        HasSlugSnoc(statuses, slug);
      }
    }
  }

  /** A named slot holds its slug exactly when some status carries it. */
  lemma {:induction false} FlattenSlots(statuses: seq<ResultStatus>)
    ensures Flatten(statuses).passedSlug == NamedSlug(statuses, "passed")
    ensures Flatten(statuses).inWorkSlug == NamedSlug(statuses, "in_work")
    ensures Flatten(statuses).assignedSlug == NamedSlug(statuses, "assigned")
    ensures Flatten(statuses).notPassedSlug == NamedSlug(statuses, "not_passed")
    ensures Flatten(statuses).checkingSlug == NamedSlug(statuses, "checking")
    decreases |statuses|
  {
    if |statuses| > 0 {
      FlattenSlots(statuses[..|statuses| - 1]);
      HasSlugSnoc(statuses, "passed");
      HasSlugSnoc(statuses, "in_work");
      HasSlugSnoc(statuses, "assigned");
      HasSlugSnoc(statuses, "not_passed");
      HasSlugSnoc(statuses, "checking");
    }
  }

  /** `flattenStatuses`: the `forEach` over the statuses. */
  method FlattenStatuses(statuses: seq<ResultStatus>) returns (d: StatusDictionary)
    ensures d == Flatten(statuses)
  {
    d := EmptyDictionary;
    var i := 0;
    while i < |statuses|
      invariant 0 <= i <= |statuses|
      invariant d == Flatten(statuses[..i])
    {
      assert statuses[..i + 1][..i] == statuses[..i];
      d := Record(d, statuses[i]);
      i := i + 1;
    }
    assert statuses[..|statuses|] == statuses;
  }

  /** `determineLocalStatus`: the result slug compared with the named slots in a fixed order. */
  function DetermineLocalStatus(resultSlug: Option<string>, d: StatusDictionary): (r: LocalStatus)
    ensures resultSlug.None? ==> r == Assigned
    ensures r == Passed <==> resultSlug.Some? && resultSlug == d.passedSlug
    ensures r == Checking ==> resultSlug.Some? && resultSlug == d.checkingSlug
  {
    if resultSlug.Some? then
      if resultSlug == d.passedSlug then Passed
      else if resultSlug == d.notPassedSlug then NotPassed
      else if resultSlug == d.inWorkSlug then InWork
      else if resultSlug == d.assignedSlug then Assigned
      else if resultSlug == d.checkingSlug then Checking
      else Assigned
    else Assigned
  }

  /** The status a known slug stands for; anything else counts as assigned. */
  function SlugStatus(slug: string): LocalStatus
  {
    if slug == "passed" then Passed
    else if slug == "not_passed" then NotPassed
    else if slug == "in_work" then InWork
    else if slug == "checking" then Checking
    else Assigned
  }

  /** On a dictionary built from the backend's statuses, a known slug the backend sent gives its own status. */
  lemma LocalStatusOfStatuses(resultSlug: Option<string>, statuses: seq<ResultStatus>)
    ensures DetermineLocalStatus(resultSlug, Flatten(statuses)) ==
      if resultSlug.Some? && HasSlug(statuses, resultSlug.value) then SlugStatus(resultSlug.value) else Assigned
  {
    FlattenSlots(statuses);
  }

  function FallbackLabel(s: LocalStatus): string
  {
    match s
    case Assigned => "Призначений"
    case InWork => "В роботі"
    case Passed => "Здано"
    case NotPassed => "Не зданий"
    case Checking => "Триває перевірка"
  }

  function BadgeOf(s: LocalStatus): BadgeVariant
  {
    match s
    case Assigned => Secondary
    case InWork => Default
    case Passed => Outline
    case NotPassed => Destructive
    case Checking => Secondary
  }

  function SlotOf(d: StatusDictionary, s: LocalStatus): Option<string>
  {
    match s
    case Assigned => d.assignedSlug
    case InWork => d.inWorkSlug
    case Passed => d.passedSlug
    case NotPassed => d.notPassedSlug
    case Checking => d.checkingSlug
  }

  datatype Resolved = Resolved(
    local: LocalStatus,
    statusSlug: Option<string>,
    text: string,
    badge: BadgeVariant,
    isAvailable: bool,
    isActionable: bool)

  /** `resolveExamStatus`: slug, label, badge and the two flags of one assignment. */
  function ResolveExamStatus(resultSlug: Option<string>, d: StatusDictionary): (r: Resolved)
    ensures r.local == DetermineLocalStatus(resultSlug, d)
    ensures Truthy(resultSlug) ==> r.statusSlug == resultSlug
    ensures r.isAvailable ==> r.isActionable
    ensures Truthy(r.statusSlug) && r.statusSlug.value in d.bySlug ==> r.text == d.bySlug[r.statusSlug.value].name
    ensures !(Truthy(r.statusSlug) && r.statusSlug.value in d.bySlug) ==> r.text == FallbackLabel(r.local)
    ensures r.badge == BadgeOf(r.local)
  {
    var local := DetermineLocalStatus(resultSlug, d);
    var statusSlug := if Truthy(resultSlug) then resultSlug else SlotOf(d, local);
    var text :=
      if Truthy(statusSlug) && statusSlug.value in d.bySlug then d.bySlug[statusSlug.value].name
      else FallbackLabel(local);
    var isAvailable := if Truthy(statusSlug) then statusSlug == d.inWorkSlug else local == InWork;
    var isActionable :=
      if Truthy(statusSlug) then statusSlug == d.assignedSlug || statusSlug == d.inWorkSlug
      else local == InWork || local == Assigned;
    Resolved(local, statusSlug, text, BadgeOf(local), isAvailable, isActionable)
  }

  /** With the backend's statuses: a known result slug is available only when in work, actionable only when assigned or in work. */
  lemma {:induction false} ResolvedKnownSlug(slug: string, statuses: seq<ResultStatus>)
    requires HasSlug(statuses, slug)
    requires slug in {"passed", "not_passed", "in_work", "assigned", "checking"}
    ensures var r := ResolveExamStatus(Some(slug), Flatten(statuses));
      && r.local == SlugStatus(slug)
      && r.statusSlug == Some(slug)
      && r.text == LastWithSlug(statuses, slug).value.name
      && (r.isAvailable <==> slug == "in_work")
      && (r.isActionable <==> slug == "in_work" || slug == "assigned")
  {
    LocalStatusOfStatuses(Some(slug), statuses);
    FlattenSlots(statuses);
    FlattenBySlug(statuses);
  }

  /** Without a result an assignment counts as assigned: actionable but not available. */
  lemma {:induction false} ResolvedWithoutResult(statuses: seq<ResultStatus>)
    ensures var r := ResolveExamStatus(None, Flatten(statuses));
      && r.local == Assigned
      && r.statusSlug == NamedSlug(statuses, "assigned")
      && r.isActionable && !r.isAvailable
  {
    FlattenSlots(statuses);
  }

  /** `assignment.group_id ?? 0` */
  function GroupKey(a: Assignment): int
  {
    a.groupId.GetOr(0)
  }

  /** `groupMap.get(id)` for the map filled by `forEach(set)`: the last group with that id. */
  function FindGroup(groups: seq<Group>, id: int): (r: Option<Group>)
    ensures r.Some? <==> exists i :: 0 <= i < |groups| && groups[i].id == id
    ensures r.Some? ==> r.value in groups && r.value.id == id
  {
    if |groups| == 0 then None
    else if groups[|groups| - 1].id == id then Some(groups[|groups| - 1])
    else
      var init := groups[..|groups| - 1];
      var r := FindGroup(init, id);
      assert forall i :: 0 <= i < |init| ==> init[i] == groups[i];
      r
  }

  function InstanceCount(a: Assignment): nat
  {
    if a.instances.Some? then |a.instances.value| else 0
  }

  /** `Math.max(attempts_allowed - attempts, 0)` */
  function AttemptsLeft(a: Assignment): (n: nat)
    ensures n >= a.attemptsAllowed - InstanceCount(a)
    ensures n == 0 || n == a.attemptsAllowed - InstanceCount(a)
    ensures n == 0 <==> InstanceCount(a) >= a.attemptsAllowed
  {
    if a.attemptsAllowed - InstanceCount(a) > 0 then a.attemptsAllowed - InstanceCount(a) else 0
  }

  /** The assignment opens later than `now`. */
  predicate IsFuture(a: Assignment, now: Timestamp)
  {
    a.startAt.Some? && a.startAt.value > now
  }

  datatype ViewExam = ViewExam(
    assignment: Assignment,
    group: Group,
    status: LocalStatus,
    statusSlug: Option<string>,
    statusLabel: string,
    badgeVariant: BadgeVariant,
    isActionable: bool,
    isAvailable: bool,
    isFuture: bool,
    attemptsLeft: nat,
    durationMinutes: Option<int>,
    passingScore: int)

  /** The view of one assignment whose group is known. */
  function BuildView(a: Assignment, g: Group, d: StatusDictionary, now: Timestamp): (v: ViewExam)
    ensures v.assignment == a && v.group == g
    ensures v.isFuture <==> IsFuture(a, now)
    ensures v.isFuture ==> !v.isActionable && !v.isAvailable
    ensures v.isAvailable ==> v.isActionable
    ensures v.isActionable <==> !IsFuture(a, now) && ResolveExamStatus(ResultSlugOf(a), d).isActionable
    ensures v.passingScore == ExamView.PassingScore(a.exam).GetOr(0)
  {
    var resolved := ResolveExamStatus(ResultSlugOf(a), d);
    var isFuture := IsFuture(a, now);
    ViewExam(
      a, g, resolved.local, resolved.statusSlug, resolved.text, resolved.badge,
      resolved.isActionable && !isFuture, resolved.isAvailable && !isFuture, isFuture,
      AttemptsLeft(a),
      if a.exam.Some? then a.exam.value.timeLimit else None,
      ExamView.PassingScore(a.exam).GetOr(0))
  }

  function ResultSlugOf(a: Assignment): Option<string>
  {
    if a.result.Some? then Some(a.result.value.slug) else None
  }

  /** The `map` followed by the `filter` that drops assignments whose group is unknown. */
  function Views(assignments: seq<Assignment>, groups: seq<Group>, d: StatusDictionary, now: Timestamp): (r: seq<ViewExam>)
    ensures |r| == Count(assignments, a => FindGroup(groups, GroupKey(a)).Some?)
    ensures forall v :: v in r ==> v.assignment in assignments && FindGroup(groups, GroupKey(v.assignment)) == Some(v.group)
    ensures forall v :: v in r ==> v == BuildView(v.assignment, v.group, d, now)
  {
    if |assignments| == 0 then []
    else
      var rest := Views(assignments[1..], groups, d, now);
      match FindGroup(groups, GroupKey(assignments[0]))
      case None => rest
      case Some(g) => [BuildView(assignments[0], g, d, now)] + rest
  }

  /** One assignment gives one view when its group is known and none otherwise. */
  lemma ViewsOfOne(x: Assignment, groups: seq<Group>, d: StatusDictionary, now: Timestamp)
    ensures FindGroup(groups, GroupKey(x)).None? ==> Views([x], groups, d, now) == []
    ensures FindGroup(groups, GroupKey(x)).Some? ==>
      Views([x], groups, d, now) == [BuildView(x, FindGroup(groups, GroupKey(x)).value, d, now)]
  {
    assert [x][1..] == [];
  }

  /** The views of a non-empty list are those of its first assignment, then those of the rest. */
  lemma ViewsCons(s: seq<Assignment>, groups: seq<Group>, d: StatusDictionary, now: Timestamp)
    requires |s| > 0
    ensures Views(s, groups, d, now) == Views([s[0]], groups, d, now) + Views(s[1..], groups, d, now)
  {
    assert [s[0]][1..] == [];
  }

  /**
   * The views of a concatenation are the views of both parts in turn; with
   * `ViewsOfOne`, the views follow the assignments' order, one per assignment
   * with a known group.
   */
  lemma {:induction false} ViewsAppend(a: seq<Assignment>, b: seq<Assignment>, groups: seq<Group>, d: StatusDictionary, now: Timestamp)
    ensures Views(a + b, groups, d, now) == Views(a, groups, d, now) + Views(b, groups, d, now)
    decreases |a|
  {
    if |a| == 0 {
      assert a + b == b;
    } else {
      var c := a + b;
      assert c[0] == a[0] && c[1..] == a[1..] + b;
      ViewsCons(c, groups, d, now);
      ViewsCons(a, groups, d, now);
      ViewsAppend(a[1..], b, groups, d, now);
      AppendAssoc(Views([a[0]], groups, d, now), Views(a[1..], groups, d, now), Views(b, groups, d, now));
    }
  }

  /** `viewExams`: nothing until assignments, groups and statuses have all arrived. */
  function ViewExams(assignments: seq<Assignment>, groups: seq<Group>, statuses: seq<ResultStatus>, now: Timestamp): (r: seq<ViewExam>)
    ensures |assignments| == 0 || |groups| == 0 || |statuses| == 0 ==> r == []
    ensures |r| <= |assignments|
    ensures forall v :: v in r ==> v.assignment in assignments && v.group in groups
    ensures forall v :: v in r ==> v.attemptsLeft + InstanceCount(v.assignment) >= v.assignment.attemptsAllowed
    ensures forall v :: v in r && v.isFuture ==> !v.isActionable && !v.isAvailable
  {
    if |assignments| == 0 || |groups| == 0 || |statuses| == 0 then []
    else Views(assignments, groups, Flatten(statuses), now)
  }

  /** Every assignment with a known group appears once, with its own group. */
  lemma {:induction false} ViewExamsKeepsAssignmentsWithGroup(
    assignments: seq<Assignment>, groups: seq<Group>, statuses: seq<ResultStatus>, now: Timestamp)
    requires |statuses| > 0
    ensures |ViewExams(assignments, groups, statuses, now)| == Count(assignments, a => FindGroup(groups, GroupKey(a)).Some?)
  {
    if |groups| == 0 {
      assert forall i :: 0 <= i < |assignments| ==> FindGroup(groups, GroupKey(assignments[i])).None?;
    }
  }

  /** `statusPriority` */
  function Priority(s: LocalStatus): (p: nat)
    ensures p <= 4
  {
    match s
    case InWork => 0
    case Assigned => 1
    case Checking => 2
    case Passed => 3
    case NotPassed => 4
  }

  lemma PriorityInjective(a: LocalStatus, b: LocalStatus)
    ensures Priority(a) == Priority(b) <==> a == b
  {
  }

  function ViewKey(v: ViewExam): Key
  {
    Key(Priority(v.status), v.assignment.startAt)
  }

  /** `orderedExams`: by status priority, then by start, undated last. */
  function OrderedExams(views: seq<ViewExam>): (r: seq<ViewExam>)
    ensures multiset(r) == multiset(views)
    ensures forall i, j :: 0 <= i < j < |r| ==> Priority(r[i].status) <= Priority(r[j].status)
    ensures forall i, j :: 0 <= i < j < |r| && r[i].status == r[j].status && r[j].assignment.startAt.Some? ==>
      r[i].assignment.startAt.Some? && r[i].assignment.startAt.value <= r[j].assignment.startAt.value
  {
    var r := SortBy(views, ViewKey);
    assert forall i, j :: 0 <= i < j < |r| ==> KeyLe(ViewKey(r[i]), ViewKey(r[j]));
    r
  }

  /** `hasAvailableExam` */
  predicate HasAvailableExam(views: seq<ViewExam>)
  {
    exists i :: 0 <= i < |views| && views[i].isAvailable
  }

  /** An available exam in the list has started and can be acted on. */
  lemma AvailableExamIsActionable(assignments: seq<Assignment>, groups: seq<Group>, statuses: seq<ResultStatus>, now: Timestamp)
    requires HasAvailableExam(ViewExams(assignments, groups, statuses, now))
    ensures exists v :: v in ViewExams(assignments, groups, statuses, now) && v.isActionable && !IsFuture(v.assignment, now)
  {
    var views := ViewExams(assignments, groups, statuses, now);
    var i :| 0 <= i < |views| && views[i].isAvailable;
    assert views[i] in views;
  }
}
