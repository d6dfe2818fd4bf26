/**
 * The module page of a learner (components/user/ModuleView.tsx): the
 * description shortening, the lesson list fallback and the group crumb.
 */
module ModuleView {
  import opened Wrappers
  import opened JsText

  const DefaultLength: nat := 160
  const Ellipsis := '…'

  /** `truncate(value, length)` */
  function Truncate(value: Option<string>, length: nat): (r: string)
    ensures !Truthy(value) ==> r == ""
    ensures Truthy(value) && |value.value| <= length ==> r == value.value
    ensures Truthy(value) && |value.value| > length ==>
      |r| == length + 1 && r[..length] == value.value[..length] && r[length] == Ellipsis
  {
    if !Truthy(value) then ""
    else if |value.value| <= length then value.value
    else value.value[..length] + [Ellipsis]
  }

  /** Shortening never makes a text longer than the limit plus the ellipsis, and keeps a short one whole. */
  lemma TruncateBound(value: Option<string>, length: nat)
    ensures |Truncate(value, length)| <= length + 1
    ensures Truthy(value) ==> |Truncate(value, length)| <= |value.value| + 1
    ensures Truncate(Some(Truncate(value, length)), length + 1) == Truncate(value, length)
  {
  }

  /** `lessonList`: the fetched lessons when there are any, else the module's own, else none. */
  function LessonList<L>(fetched: Option<seq<L>>, embedded: Option<seq<L>>): (r: seq<L>)
    ensures fetched.Some? && |fetched.value| > 0 ==> r == fetched.value
    ensures !(fetched.Some? && |fetched.value| > 0) && embedded.Some? ==> r == embedded.value
    ensures !(fetched.Some? && |fetched.value| > 0) && embedded.None? ==> r == []
  {
    if fetched.Some? && |fetched.value| > 0 then fetched.value
    else embedded.GetOr([])
  }

  /** The group crumb: the group's name, or `Група #<id>` until it is loaded. */
  function GroupCrumb(groupName: Option<string>, groupId: int): (r: string)
    ensures groupName.Some? ==> r == groupName.value
    ensures groupName.None? ==> r == "Група #" + IntToString(groupId)
  {
    if groupName.Some? then groupName.value else "Група #" + IntToString(groupId)
  }
}
