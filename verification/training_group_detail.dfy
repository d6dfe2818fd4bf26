/**
 * Inviting users of the organisation into a training group
 * (components/TrainingGroupDetail.tsx): the selection of user ids, the header
 * checkbox, the submit loop and the 'request sent' notice.
 */
module TrainingGroupDetail {
  import opened Collections
  import opened Ui

  /** `handleToggleUser`'s update: drop a selected id, append an unselected one. */
  function Toggled(s: seq<int>, id: int): (r: seq<int>)
    ensures id in s ==> r == Without(s, id)
    ensures id !in s ==> r == s + [id]
    ensures id in r <==> id !in s
  {
    if id in s then Without(s, id) else s + [id]
  }

  /** Toggling keeps the selection duplicate-free, and toggling twice restores membership. */
  lemma ToggleTwice(s: seq<int>, id: int, x: int)
    ensures NoDups(s) ==> NoDups(Toggled(s, id))
    ensures x in Toggled(Toggled(s, id), id) <==> x in s
  {
    if id !in s {
      assert NoDups(s) ==> NoDups(s + [id]);
    }
  }

  /** The header checkbox is checked when as many users are selected as are available. */
  predicate HeaderChecked(selected: seq<int>, available: seq<int>)
  {
    |selected| == |available|
  }

  /** For a duplicate-free selection of available users, the header is checked exactly when every one is selected. */
  lemma HeaderCheckedIffAllSelected(selected: seq<int>, available: seq<int>)
    requires NoDups(selected) && NoDups(available)
    requires forall x :: x in selected ==> x in available
    ensures HeaderChecked(selected, available) <==> forall x :: x in available ==> x in selected
  {
    assert forall x :: x in selected ==> x in available;
    SubListBound<int>(selected, available);
    assert |selected| == |available| <==> forall x :: x in available ==> x in selected;
  }

  /** `getStatusBadge` of an invite: its variant and label. */
  function InviteBadge(status: string): (r: (BadgeVariant, string))
    ensures status == "approved" ==> r == (Default, "Затверджено")
    ensures status == "pending" ==> r == (Secondary, "На розгляді")
    ensures status != "approved" && status != "pending" ==> r == (Destructive, "Відхилено")
  {
    if status == "approved" then (Default, "Затверджено")
    else if status == "pending" then (Secondary, "На розгляді")
    else (Destructive, "Відхилено")
  }

  class InviteForm {
    var selected: seq<int>
    var requestSent: bool

    predicate Valid()
      reads this
    {
      NoDups(selected)
    }

    constructor()
      ensures Valid() && selected == [] && !requestSent
    {
      selected := [];
      requestSent := false;
    }

    /** `handleToggleUser` */
    method Toggle(id: int)
      modifies this
      ensures selected == Toggled(old(selected), id)
      ensures old(Valid()) ==> Valid()
      ensures requestSent == old(requestSent)
    {
      ToggleTwice(selected, id, id);
      selected := Toggled(selected, id);
    }

    /** The header checkbox: checking selects every available user, unchecking clears. */
    method SetAll(checked: bool, available: seq<int>)
      modifies this
      ensures checked ==> selected == available
      ensures !checked ==> selected == []
      ensures NoDups(available) ==> Valid()
      ensures requestSent == old(requestSent)
    {
      selected := if checked then available else [];
    }

    /**
     * `handleSubmitRequest`: one invite request per selected id, in order;
     * none when the button is disabled (empty selection or a request pending).
     */
    method Submit(pending: bool) returns (invites: seq<int>)
      ensures |selected| == 0 || pending ==> invites == []
      ensures |selected| > 0 && !pending ==> invites == selected
    {
      invites := [];
      if |selected| == 0 || pending {
        return;
      }
      for i := 0 to |selected|
        invariant invites == selected[..i]
      {
        invites := invites + [selected[i]];
      }
      assert selected[..|selected|] == selected;
    }

    /** An invite's `onSuccess`: the selection is cleared and the notice shown. */
    method OnInviteSuccess()
      modifies this
      ensures selected == [] && requestSent && Valid()
    {
      selected := [];
      requestSent := true;
    }
  }
}
