# Role-permission wizard and group-edit dialog: a Dafny model

This project models the decision and data-building logic of two screens of an
identity and access management console (insights-rbac-ui). The UI framework
around that logic is not modelled.

- **Add-permissions wizard** (`add-role-permission-wizard.js`):
  - The submit handler builds a role-update payload. It appends one access
    grant per selected permission to the role's access list.
  - A grant gets a `cost-management.<segment>` / `in` resource filter only
    when the cost-resources step has an entry for that permission.
  - The access count is advanced by the number of selections.
  - The wizard's shared context record has three setters and a
    submit/complete transition. The context decides between the live form
    and the success screen.
  - Cancel either opens a confirmation dialog or leaves for
    `/roles/detail/<uuid>`.
- **Edit-group dialog** (`edit-group-modal.js`):
  - The group being edited comes from a route fetch or from a property.
  - The two-field form schema is built from that group. Its component kinds,
    `validateOnMount`, and validator list are modelled. The uniqueness
    check's excluded id comes from the route or the property, and the
    description limit is 150 characters.
  - Cancel produces a warning notification, calls the close callback, and
    navigates to the close URL, which defaults to `/groups`.
  - Submit copies the form values into the update and navigates afterwards.

Modules:

| file | module | concern |
|---|---|---|
| options.dfy | `Options` | `Option` (for `undefined`) and `Result` (for a thrown error) |
| sequences.dfy | `Sequences` | first-occurrence search, shared by the resource lookup and the effect ordering |
| colon_split.dfy | `ColonSplit` | JavaScript `split` on one character, `join`, and out-of-range indexing |
| role_payload.dfy | `RolePayload` | the role-update payload |
| wizard_context.dfy | `WizardContext` | the context record, its writes, and the render choice |
| wizard_cancel.dfy | `WizardCancel` | cancel, confirm and decline |
| group_schema.dfy | `GroupSchema` | the selected group and the form schema |
| group_actions.dfy | `GroupActions` | cancel effects, close URL, and submit plans |

Side effects are returned as data, never performed:
- navigation, the notification, the close callback, the update, and the
  list refresh;
- in the group dialog, these are ordered effect lists;
- in the wizard, a `Step` (the dialog flag plus an optional navigation
  target) and a rendered `View`.

Network calls become events. `updateRole` resolving is the
`UpdateCompleted` action, and a group fetch is `FetchResolved` or
`FetchFailed`.

In the group dialog's submit, the two branches differ. Without a refresh
callback (line 47), navigation waits for the update to resolve. With one
(line 46), navigation happens at once (see Findings). The code as written is
`GroupActions.SubmitAsWritten`. The order that line 47 suggests is
`GroupActions.Submit`.

## Model

| member | source | states |
|---|---|---|
| ColonSplit.Split | src/smart-components/role/add-role-permissions/add-role-permission-wizard.js:81 | splitting on `:` gives separator-free pieces, one more than the number of separators |
| ColonSplit.SegmentText | src/smart-components/role/add-role-permissions/add-role-permission-wizard.js:81 | the interpolated segment is the i-th piece when it exists and the text `undefined` otherwise |
| ColonSplit.JoinSplit | src/smart-components/role/add-role-permissions/add-role-permission-wizard.js:81 | joining the pieces with `:` rebuilds the permission string, so no character is lost or moved |
| ColonSplit.SplitJoin | src/smart-components/role/add-role-permissions/add-role-permission-wizard.js:81 | splitting a join of `:`-free pieces gives the same pieces back |
| ColonSplit.SecondSegment | src/smart-components/role/add-role-permissions/add-role-permission-wizard.js:81 | for `a:b` and `a:b:rest`, with `a` and `b` colon-free, the second segment is exactly `b` |
| ColonSplit.NoSecondSegment | src/smart-components/role/add-role-permissions/add-role-permission-wizard.js:81 | a string with no colon has no second segment, and it interpolates as `undefined` |
| RolePayload.FindIndex | src/smart-components/role/add-role-permissions/add-role-permission-wizard.js:77-83 | the search result is the FIRST entry whose permission matches, and absent exactly when no entry matches |
| RolePayload.FindResources | src/smart-components/role/add-role-permissions/add-role-permission-wizard.js:77-83 | the optional-chained find is absent iff the resource list is absent or has no matching entry; otherwise it is the first match |
| RolePayload.NewGrant | src/smart-components/role/add-role-permissions/add-role-permission-wizard.js:75-88 | each new grant carries the selected uuid as its permission and at most one resource definition; it has one iff a matching entry exists, and none when the resource list is absent; that definition's key is the namespaced second segment, its operation is `in`, and its value is the first match's resources |
| RolePayload.NewGrants | src/smart-components/role/add-role-permissions/add-role-permission-wizard.js:75-88 | exactly one grant per selection, and the i-th grant is built from the i-th selection (selection order is kept) |
| RolePayload.SubmitPayload | src/smart-components/role/add-role-permissions/add-role-permission-wizard.js:68-91 | uuid, name, description and all other fields are carried over; the old access list is an unchanged prefix; the new grants follow in selection order; the count rises by exactly the number of appended grants, so any earlier gap between count and list length is kept, and a consistent role stays consistent |
| RolePayload.DistinctPermissionsPreserved | src/smart-components/role/add-role-permissions/add-role-permission-wizard.js:72-90 | if selections are pairwise distinct and not already granted, no permission appears twice in the payload |
| RolePayload.FilterKeyOfResourcePermission | src/smart-components/role/add-role-permissions/add-role-permission-wizard.js:81 | for `app:resource:verb`, the filter key is `cost-management.` followed by `resource` |
| RolePayload.FilterKeyWithoutColon | src/smart-components/role/add-role-permissions/add-role-permission-wizard.js:81 | a permission with no colon gets the key `cost-management.undefined` |
| RolePayload.FirstEntryWins | src/smart-components/role/add-role-permissions/add-role-permission-wizard.js:77-84 | when several resource entries name the same permission, only the first one's resources are used |
| RolePayload.SingleScopedGrant | src/smart-components/role/add-role-permissions/add-role-permission-wizard.js:68-91 | a role with no grants, given one selection `app:resource` with a resource entry, gets one scoped grant (key `cost-management.resource`, operation `in`) and a count of 1; `cost-management:aws` with `["acct-1"]` is an instance |
| WizardContext.Apply | src/smart-components/role/add-role-permissions/add-role-permission-wizard.js:37-95 | each setter (lines 44-46) replaces only its own field; submit (line 93) sets only `submitting`; completion (line 95) clears `submitting`, sets `success` and `hideForm`, and keeps `error` |
| WizardContext.MountShowsForm | src/smart-components/role/add-role-permissions/add-role-permission-wizard.js:37-42 | the wizard mounts with nothing submitted, succeeded or failed, and shows the live form |
| WizardContext.Render | src/smart-components/role/add-role-permissions/add-role-permission-wizard.js:109-121 | the success screen for the current role id is shown iff `hideForm` is set |
| WizardContext.HideFormIsLastWrite | src/smart-components/role/add-role-permissions/add-role-permission-wizard.js:93-109 | after any sequence of writes, `hideForm` (and so the success/form choice) equals the last value written to it by the setter or by completion |
| WizardContext.ErrorIsLastWrite | src/smart-components/role/add-role-permissions/add-role-permission-wizard.js:44-46 | after any sequence of writes, `error` equals the last value the error setter wrote; submit and completion never touch it |
| WizardContext.SettersIndependent | src/smart-components/role/add-role-permissions/add-role-permission-wizard.js:44-46 | setters of different fields commute |
| WizardContext.LastWriteWins | src/smart-components/role/add-role-permissions/add-role-permission-wizard.js:44-46 | two writes through the same setter leave the second value |
| WizardContext.SubmitThenCompleteShowsSuccess | src/smart-components/role/add-role-permissions/add-role-permission-wizard.js:93-96 | submit followed by completion, from any state, gives success=true, submitting=false, hideForm=true, keeps the error, and shows the success screen |
| WizardCancel.RoleDetailUrl | src/smart-components/role/add-role-permissions/add-role-permission-wizard.js:64-66 | the target is `/roles/detail/` followed by the role uuid, and the uuid can be read back from it |
| WizardCancel.Handle | src/smart-components/role/add-role-permissions/add-role-permission-wizard.js:134-140 | cancel opens the dialog without navigating iff the permissions table holds a non-empty list; otherwise it navigates to the detail URL; declining closes the dialog; confirming navigates to the detail URL |
| WizardCancel.HandleAll | src/smart-components/role/add-role-permissions/add-role-permission-wizard.js:60-66 | whatever the event sequence, any navigation goes to the role's detail URL |
| WizardCancel.EveryExitSameTarget | src/smart-components/role/add-role-permissions/add-role-permission-wizard.js:134-140 | a direct cancel (no selections) and a cancel-then-confirm (with selections) leave for the same URL |
| WizardCancel.DeclineReturnsToWizard | src/smart-components/role/add-role-permissions/add-role-permission-wizard.js:103-107 | cancel with selections then decline gives no dialog and no navigation, as before the cancel |
| WizardCancel.StaysWithoutConsent | src/smart-components/role/add-role-permissions/add-role-permission-wizard.js:134-140 | any sequence of cancels-with-selections and declines never navigates |
| GroupSchema.NextSelected | src/smart-components/group/edit-group-modal.js:26-39 | a fetch result or a new group property replaces the selected group; a failed fetch clears it |
| GroupSchema.NameCheckId | src/smart-components/group/edit-group-modal.js:70 | the excluded id is the route id when the route matched, else the group property's id; reading it fails iff there is neither |
| GroupSchema.EditGroupSchema | src/smart-components/group/edit-group-modal.js:62-88 | two fields, `name` then `description`; both are placeholders iff no group is resolved, else text field and textarea; `validateOnMount` on the name iff a group is resolved; name validators are the uniqueness check (`uuid` key) then required; description has one max-length 150 validator; construction fails iff there is neither a route match nor a group property |
| GroupSchema.SelectionOnlyChangesPresentation | src/smart-components/group/edit-group-modal.js:62-88 | resolving a group changes no field name, label or validator |
| GroupSchema.RouteIdExcludedFromNameCheck | src/smart-components/group/edit-group-modal.js:70 | on the edit route the uniqueness check excludes the route's id, and the group property is not read |
| GroupSchema.FetchFailureShowsPlaceholders | src/smart-components/group/edit-group-modal.js:26-31 | after a failed fetch, every field is a placeholder and none validates on mount, whatever was shown before |
| GroupActions.CloseUrl | src/smart-components/group/edit-group-modal.js:112-116 | the close URL is the caller's, or `/groups` when none is given |
| GroupActions.CancelNotification | src/smart-components/group/edit-group-modal.js:50-57 | always a non-dismissable `warning` with an 8000 ms delay; "Editing group" / "Edit group was canceled by the user." once a group is resolved, else "Adding group" / "Adding group was canceled by the user." |
| GroupActions.CancelNotificationsDifferInWordingOnly | src/smart-components/group/edit-group-modal.js:51-57 | the two warnings agree on everything except title and description, and their titles differ |
| GroupActions.CancelEffects | src/smart-components/group/edit-group-modal.js:50-60 | cancel does exactly three things: it notifies first, calls the close callback before navigating, and its only navigation is the last effect, to the close URL |
| GroupActions.SubmitAsWritten | src/smart-components/group/edit-group-modal.js:41-48 | the update carries the form values unchanged and is issued first; with a refresh callback, exactly the update and the navigation happen at once and only the refresh after the update; without one, only the update happens at once and only the navigation after it |
| GroupActions.EagerNavigationAsWritten | src/smart-components/group/edit-group-modal.js:43-46 | as written, with a refresh callback, navigation comes before the refresh and before the update resolves |
| GroupActions.Submit | src/smart-components/group/edit-group-modal.js:41-48 | the update carries the form values unchanged and nothing else happens at once; navigation to the close URL is the last effect after the update; after the update come exactly the refresh (iff a callback was given), then the navigation |
| GroupActions.SubmitAgreesWithoutRefresh | src/smart-components/group/edit-group-modal.js:47 | without a refresh callback the as-written and intended submits coincide |

## Findings

| source | as written | input that shows it | evidently intended | confidence | as-written member | corrected member |
|---|---|---|---|---|---|---|
| src/smart-components/group/edit-group-modal.js:46 | the navigation call is passed as the argument of the second `then`, so it runs as soon as the promise chain is built | any submit where the caller supplied `postMethod`: the page is left before the update resolves and before the list refresh | wrap it in a callback, as line 47 does, so navigation follows the refresh | high; not executed | GroupActions.EagerNavigationAsWritten | GroupActions.Submit |

## Left out

- Rendering is not modelled: React hooks, effects, `FormRenderer`, `Wizard`, `Skeleton`, the modal templates and the component mappers. Only the data they receive is modelled (schema, view choice, dialog flag).
- The wizard's multi-step schema comes from `schemaBuilder`, which is not part of this model. The same goes for its portal container and for hiding that container while the dialog is open (wizard line 57), which is a DOM effect.
- Redux `dispatch`, `updateRole`, `fetchGroup` and `updateGroup` are opaque network calls. They appear only as completion events or as effects. The source has no rejection handlers for the two updates, so no failure path is modelled for them.
- `debouncedAsyncValidator`, the validator mapper, and what the required and max-length rules accept are not modelled. These belong to the form library. Validators appear only as tagged data, so "a description over 150 characters is rejected" is not proved.
- Notification delivery is not modelled. The notification is only produced as an effect.
- The initial form values (wizard lines 127-131, group line 104) and the connected-props wiring (`mapStateToProps`) are not modelled. They are pass-through data.
- Async ordering is not modelled beyond the effect lists: a late fetch resolving after unmount, and races between overlapping fetches.
- The context value's `rolePermissions` (wizard line 101) is not part of `WizardState`. It is a read-only pass-through of `role.access` to the steps, and no write changes it.
- The `currentRoleID` state (wizard lines 33, 52-54) is not modelled as state. `WizardContext.Render` takes the current role id as a parameter.
- RolePayload.SubmitPayload: assumes the role always has an access list and a numeric access count, and the form always has the permissions-table list. In the source, a missing list throws and a missing count gives `NaN`. Role fields other than uuid, name and description are modelled as a string map.
- WizardCancel.Handle: it does not restrict confirm and decline to while the dialog is open. Both buttons exist only inside the open dialog.
- RolePayload.SingleScopedGrant: the concrete `cost-management:aws` example is covered as an instance of this general lemma. It is not stated separately as a literal.
