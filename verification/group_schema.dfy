/** The edit-group form description: which group the dialog shows, and the
    two-field schema (name, description) built from it on every render. */
module GroupSchema {
  import opened Options

  /** A group as the dialog holds it: its `id` (possibly absent) and the
      remaining properties used as initial form values. */
  datatype GroupData = GroupData(id: Option<string>, values: map<string, string>)

  /** Ways the selected group changes after mount. */
  datatype GroupEvent =
    | FetchResolved(data: Option<GroupData>)   // the route's group arrived
    | FetchFailed                              // the route's fetch was rejected
    | GroupPropChanged(group: Option<GroupData>)  // the caller passed another group

  /** The selected group after one event: a fetch result or a new group
      property replaces it, and a failed fetch clears it. */
  function NextSelected(current: Option<GroupData>, e: GroupEvent): (r: Option<GroupData>)
    ensures e.FetchFailed? ==> r.None?
    ensures e.FetchResolved? ==> r == e.data
    ensures e.GroupPropChanged? ==> r == e.group
  {
    match e
    case FetchResolved(data) => data
    case FetchFailed => None
    case GroupPropChanged(group) => group
  }

  /** Field component kinds: the two editable inputs and the loading placeholder. */
  datatype Component = TextField | Textarea | Skeleton

  /** Validation rules, as tagged data for the form renderer. */
  datatype Validator =
    | GroupNameUnique(id: Option<string>, idKey: string)  // asynchronous uniqueness check
    | Required
    | MaxLength(threshold: int)

  /** `validateOnMount` is true when the key is present (always with value true). */
  datatype Field = Field(name: string, labelText: string, component: Component, validateOnMount: bool, validate: seq<Validator>)

  datatype Schema = Schema(fields: seq<Field>)

  /** Reading `group.id` when there is neither a route match nor a group
      property throws. */
  datatype SchemaError = GroupPropertyUndefined

  const DescriptionMaxLength: int := 150
  const NameIdKey: string := "uuid"

  /** The id the uniqueness check excludes: the route's id when the edit route
      matched, otherwise the group property's id. */
  function NameCheckId(routeId: Option<string>, group: Option<GroupData>): (r: Result<Option<string>, SchemaError>)
    ensures r.Failure? <==> routeId.None? && group.None?
    ensures routeId.Some? ==> r == Success(routeId)
    ensures routeId.None? && group.Some? ==> r == Success(group.value.id)
  {
    if routeId.Some? then Success(routeId)
    else if group.Some? then Success(group.value.id)
    else Failure(GroupPropertyUndefined)
  }

  /** The schema for a render: `groupSelected` tells whether a group has been
      resolved yet, `routeId` is the id matched by `/groups/edit/:id`, and
      `group` is the group property. */
  function EditGroupSchema(groupSelected: bool, routeId: Option<string>, group: Option<GroupData>): (r: Result<Schema, SchemaError>)
    ensures r.Failure? <==> routeId.None? && group.None?
    ensures r.Success? ==>
      |r.value.fields| == 2 && r.value.fields[0].name == "name" && r.value.fields[1].name == "description"
    ensures r.Success? ==>
      && (r.value.fields[0].component == Skeleton <==> !groupSelected)
      && (r.value.fields[1].component == Skeleton <==> !groupSelected)
    ensures r.Success? && groupSelected ==>
      r.value.fields[0].component == TextField && r.value.fields[1].component == Textarea
    ensures r.Success? ==> (r.value.fields[0].validateOnMount <==> groupSelected) && !r.value.fields[1].validateOnMount
    ensures r.Success? ==>
      r.value.fields[0].validate == [GroupNameUnique(NameCheckId(routeId, group).value, NameIdKey), Required]
    ensures r.Success? ==> r.value.fields[1].validate == [MaxLength(DescriptionMaxLength)]
  {
    match NameCheckId(routeId, group)
    case Failure(e) => Failure(e)
    case Success(id) =>
      Success(Schema([
        Field("name", "Name", if groupSelected then TextField else Skeleton, groupSelected,
              [GroupNameUnique(id, NameIdKey), Required]),
        Field("description", "Description", if groupSelected then Textarea else Skeleton, false,
              [MaxLength(DescriptionMaxLength)])
      ]))
  }

  /** Whether a group is resolved changes only how the fields look (component
      and `validateOnMount`), never their names, labels or rules. */
  lemma SelectionOnlyChangesPresentation(routeId: Option<string>, group: Option<GroupData>, i: nat)
    requires routeId.Some? || group.Some?
    requires i < 2
    ensures var a := EditGroupSchema(true, routeId, group).value.fields[i];
            var b := EditGroupSchema(false, routeId, group).value.fields[i];
            a.name == b.name && a.labelText == b.labelText && a.validate == b.validate
  {
  }

  /** On the edit route the uniqueness check excludes the route's group, and
      the group property is then never read. */
  lemma RouteIdExcludedFromNameCheck(id: string, group: Option<GroupData>, groupSelected: bool)
    ensures EditGroupSchema(groupSelected, Some(id), group).Success?
    ensures EditGroupSchema(groupSelected, Some(id), group).value.fields[0].validate[0] == GroupNameUnique(Some(id), NameIdKey)
    ensures EditGroupSchema(groupSelected, Some(id), group) == EditGroupSchema(groupSelected, Some(id), None)
  {
  }

  /** A failed fetch leaves the dialog on placeholders: whatever group was
      shown before, the next schema has no editable field and validates
      nothing on mount. */
  lemma FetchFailureShowsPlaceholders(current: Option<GroupData>, routeId: string, group: Option<GroupData>)
    ensures var s := EditGroupSchema(NextSelected(current, FetchFailed).Some?, Some(routeId), group);
            s.Success? && forall f :: f in s.value.fields ==> f.component == Skeleton && !f.validateOnMount
  {
  }
}
