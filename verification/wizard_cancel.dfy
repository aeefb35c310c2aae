/** Leaving the role-permission wizard: cancelling with permissions already
    picked opens a confirmation dialog; cancelling with none, or confirming
    the dialog, goes to the role's detail page; declining closes the dialog
    and leaves the wizard where it was. Navigation is returned, not performed. */
module WizardCancel {
  import opened Options
  import RolePayload

  const DetailPrefix: string := "/roles/detail/"

  /** The role detail page the wizard returns to: the prefix followed by the
      role's uuid, so distinct roles have distinct pages. */
  function RoleDetailUrl(roleUuid: string): (url: string)
    ensures |url| == |DetailPrefix| + |roleUuid|
    ensures url[..|DetailPrefix|] == DetailPrefix
    ensures url[|DetailPrefix|..] == roleUuid
  {
    DetailPrefix + roleUuid
  }

  /** The form values the cancel handler receives; the permissions-table
      value may be missing. */
  datatype CancelValues = CancelValues(permissionsTable: Option<seq<RolePayload.SelectedPermission>>)

  /** `values && values['add-permissions-table']?.length > 0`. */
  predicate HasSelections(values: Option<CancelValues>) {
    values.Some? && values.value.permissionsTable.Some? && |values.value.permissionsTable.value| > 0
  }

  /** What the user can do to leave. */
  datatype Event =
    | Cancel(values: Option<CancelValues>)   // the form's cancel button
    | DeclineCancel                          // the dialog's "keep editing"
    | ConfirmCancel                          // the dialog's "discard"

  /** The dialog flag after an event, and where (if anywhere) to navigate. */
  datatype Step = Step(warningVisible: bool, navigate: Option<string>)

  function Handle(warningVisible: bool, e: Event, roleUuid: string): (r: Step)
    ensures e.Cancel? ==> (r.warningVisible && r.navigate.None? <==> HasSelections(e.values))
    ensures e.Cancel? && !HasSelections(e.values) ==>
      r == Step(warningVisible, Some(RoleDetailUrl(roleUuid)))
    ensures e.DeclineCancel? ==> r == Step(false, None)
    ensures e.ConfirmCancel? ==> r.navigate == Some(RoleDetailUrl(roleUuid)) && r.warningVisible == warningVisible
  {
    match e
    case Cancel(values) =>
      if HasSelections(values) then Step(true, None)
      else Step(warningVisible, Some(RoleDetailUrl(roleUuid)))
    case DeclineCancel => Step(false, None)
    case ConfirmCancel => Step(warningVisible, Some(RoleDetailUrl(roleUuid)))
  }

  /** Run a sequence of events from a dialog flag until one navigates;
      returns the final flag and the first navigation target. */
  function HandleAll(warningVisible: bool, events: seq<Event>, roleUuid: string): (r: Step)
    ensures r.navigate.Some? ==> r.navigate.value == RoleDetailUrl(roleUuid)
    decreases |events|
  {
    if |events| == 0 then Step(warningVisible, None)
    else
      var step := Handle(warningVisible, events[0], roleUuid);
      if step.navigate.Some? then step else HandleAll(step.warningVisible, events[1..], roleUuid)
  }

  /** Every way out of the wizard leads to the same page: a direct cancel
      and a confirmed cancel both target the role's detail URL. */
  lemma EveryExitSameTarget(warningVisible: bool, values: Option<CancelValues>, roleUuid: string)
    ensures HasSelections(values) ==>
      HandleAll(warningVisible, [Cancel(values), ConfirmCancel], roleUuid).navigate == Some(RoleDetailUrl(roleUuid))
    ensures !HasSelections(values) ==>
      HandleAll(warningVisible, [Cancel(values)], roleUuid).navigate == Some(RoleDetailUrl(roleUuid))
  {
    assert [Cancel(values), ConfirmCancel][1..] == [ConfirmCancel];
  }

  /** Declining the dialog goes back to the state before the cancel: no
      dialog, no navigation. The picked permissions live in the form, which
      no event here touches. */
  lemma DeclineReturnsToWizard(values: Option<CancelValues>, roleUuid: string)
    requires HasSelections(values)
    ensures HandleAll(false, [Cancel(values), DeclineCancel], roleUuid) == Step(false, None)
  {
    assert [Cancel(values), DeclineCancel][1..] == [DeclineCancel];
    assert [DeclineCancel][1..] == [];
    assert HandleAll(true, [DeclineCancel], roleUuid) == HandleAll(false, [], roleUuid);
  }

  /** Nothing navigates until the user cancels with no selections or
      confirms: a run of cancels-with-selections and declines never leaves. */
  lemma {:induction false} StaysWithoutConsent(warningVisible: bool, events: seq<Event>, roleUuid: string)
    requires forall i :: 0 <= i < |events| ==>
      events[i].DeclineCancel? || (events[i].Cancel? && HasSelections(events[i].values))
    ensures HandleAll(warningVisible, events, roleUuid).navigate.None?
    decreases |events|
  {
    if |events| > 0 {
      StaysWithoutConsent(Handle(warningVisible, events[0], roleUuid).warningVisible, events[1..], roleUuid);
    }
  }
}
