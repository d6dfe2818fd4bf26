/**
 * The learner's group list (components/user/MyTrainingGroups.tsx): each
 * group's status from its dates, its card values, badge and click target.
 */
module MyTrainingGroups {
  import opened Wrappers
  import opened Backend
  import opened Ui

  datatype GroupStatus = InProgress | Future | Past

  /** The status: future before the start, past after the end, in progress otherwise. */
  function StatusAt(now: Timestamp, startDate: Timestamp, endDate: Timestamp): (s: GroupStatus)
    ensures s == Future <==> now < startDate
    ensures s == Past <==> !(now < startDate) && now > endDate
    ensures s == InProgress <==> startDate <= now <= endDate
  {
    if now < startDate then Future else if now > endDate then Past else InProgress
  }

  /** A group's card values; there is no completion tracking, so progress is 0. */
  datatype GroupCard = GroupCard(group: Group, progress: int, totalModules: nat, completedModules: nat, status: GroupStatus)

  function CardOf(g: Group, now: Timestamp): (c: GroupCard)
    ensures c.group == g && c.progress == 0 && c.completedModules == 0
    ensures c.totalModules == (if g.course.Some? && g.course.value.moduleCount.Some? then g.course.value.moduleCount.value else 0)
    ensures c.status == StatusAt(now, g.startDate, g.endDate)
  {
    GroupCard(
      g, 0,
      if g.course.Some? && g.course.value.moduleCount.Some? then g.course.value.moduleCount.value else 0,
      0,
      StatusAt(now, g.startDate, g.endDate))
  }

  /** `groupsWithProgress`, one card per group in order. */
  function Cards(groups: seq<Group>, now: Timestamp): (r: seq<GroupCard>)
    ensures |r| == |groups|
    ensures forall i :: 0 <= i < |groups| ==> r[i] == CardOf(groups[i], now)
  {
    seq(|groups|, i requires 0 <= i < |groups| => CardOf(groups[i], now))
  }

  /** The card's badge. */
  function Badge(c: GroupCard): (r: (BadgeVariant, string))
    ensures c.status == Future ==> r == (Outline, "Майбутні")
    ensures c.status == Past ==> r == (Secondary, "Минулі")
    ensures c.status == InProgress && c.progress == 100 ==> r == (Default, "Завершено")
    ensures c.status == InProgress && c.progress != 100 ==> r == (Secondary, "В процесі")
  {
    match c.status
    case Future => (Outline, "Майбутні")
    case Past => (Secondary, "Минулі")
    case InProgress => if c.progress == 100 then (Default, "Завершено") else (Secondary, "В процесі")
  }

  /** With progress fixed at 0, a running group always reads 'В процесі'. */
  lemma RunningGroupIsInProcess(g: Group, now: Timestamp)
    requires g.startDate <= now <= g.endDate
    ensures Badge(CardOf(g, now)) == (Secondary, "В процесі")
  {
  }

  datatype Navigation = ToGroup(groupId: int) | ToGroupClick(id: int)

  /** A click navigates only for a running group, through `onNavigateToGroup` when it is given. */
  function OnClick(c: GroupCard, hasNavigateToGroup: bool): (r: Option<Navigation>)
    ensures r.Some? <==> c.status == InProgress
    ensures r.Some? && hasNavigateToGroup ==> r.value == ToGroup(c.group.id)
    ensures r.Some? && !hasNavigateToGroup ==> r.value == ToGroupClick(c.group.id)
  {
    if c.status != InProgress then None
    else if hasNavigateToGroup then Some(ToGroup(c.group.id))
    else Some(ToGroupClick(c.group.id))
  }
}
