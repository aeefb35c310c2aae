/** The payload the add-permissions wizard submits: the role it was given,
    with one access grant appended per selected permission and the access
    count raised by the number of selections. */
module RolePayload {
  import opened Options
  import ColonSplit
  import Sequences

  /** Prefix of every resource-filter key. */
  const CostNamespace: string := "cost-management."
  /** The only filter operation the wizard emits. */
  const InOperation: string := "in"

  datatype AttributeFilter = AttributeFilter(key: string, operation: string, value: seq<string>)
  datatype ResourceDefinition = ResourceDefinition(attributeFilter: AttributeFilter)

  /** One element of a role's access list. */
  datatype Grant = Grant(permission: string, resourceDefinitions: seq<ResourceDefinition>)

  /** A role as handed to the wizard; `otherFields` stands for every property
      the payload copies without looking at it. */
  datatype Role = Role(
    uuid: string,
    displayName: string,
    description: string,
    access: seq<Grant>,
    accessCount: int,
    otherFields: map<string, string>)

  /** An entry of the permissions-table step; the payload reads only its uuid,
      which is the permission string. */
  datatype SelectedPermission = SelectedPermission(uuid: string)

  /** An entry of the cost-resources step: the resources chosen for one permission. */
  datatype ResourceSelection = ResourceSelection(permission: string, resources: seq<string>)

  /** The wizard's form values that the submit handler reads. The permission
      list is always dereferenced; the resource list may be absent. */
  datatype FormData = FormData(
    selectedPermissions: seq<SelectedPermission>,
    resourceDefinitions: Option<seq<ResourceSelection>>)

  /** `i` is the first position of `defs` whose permission is `permission`. */
  ghost predicate FirstMatch(defs: seq<ResourceSelection>, permission: string, i: int) {
    && 0 <= i < |defs|
    && defs[i].permission == permission
    && forall j :: 0 <= j < i ==> defs[j].permission != permission
  }

  /** The permissions the resource entries name, in order. */
  function Permissions(defs: seq<ResourceSelection>): (ps: seq<string>)
    ensures |ps| == |defs| && forall i :: 0 <= i < |defs| ==> ps[i] == defs[i].permission
  {
    seq(|defs|, i requires 0 <= i < |defs| => defs[i].permission)
  }

  /** `defs.findIndex(r => r.permission === permission)`, as an option. */
  function FindIndex(defs: seq<ResourceSelection>, permission: string): (r: Option<nat>)
    ensures r.Some? ==> FirstMatch(defs, permission, r.value)
    ensures r.None? <==> forall j :: 0 <= j < |defs| ==> defs[j].permission != permission
  {
    var r := Sequences.FirstIndexOf(Permissions(defs), permission);
    assert r.None? ==> forall j :: 0 <= j < |defs| ==> Permissions(defs)[j] != permission;
    r
  }

  /** `resourceDefinitions?.find(r => r.permission === permission)`. */
  function FindResources(defs: Option<seq<ResourceSelection>>, permission: string): (r: Option<ResourceSelection>)
    ensures r.None? <==> defs.None? || forall j :: 0 <= j < |defs.value| ==> defs.value[j].permission != permission
    ensures r.Some? ==> exists i :: FirstMatch(defs.value, permission, i) && defs.value[i] == r.value
  {
    if defs.None? then None
    else
      match FindIndex(defs.value, permission)
      case None => None
      case Some(i) => assert FirstMatch(defs.value, permission, i); Some(defs.value[i])
  }

  /** The filter key: the namespace followed by the permission's second
      `:`-separated segment, or by `undefined` when it has none. */
  function FilterKey(permission: string): string {
    CostNamespace + ColonSplit.SegmentText(permission, ':', 1)
  }

  /** The grant appended for one selected permission. */
  function NewGrant(permission: string, defs: Option<seq<ResourceSelection>>): (g: Grant)
    ensures g.permission == permission
    ensures |g.resourceDefinitions| <= 1
    ensures g.resourceDefinitions != [] <==>
      defs.Some? && exists j :: 0 <= j < |defs.value| && defs.value[j].permission == permission
    ensures defs.None? ==> g.resourceDefinitions == []
    ensures defs.Some? ==> forall i :: FirstMatch(defs.value, permission, i) ==>
      g.resourceDefinitions == [ResourceDefinition(AttributeFilter(FilterKey(permission), InOperation, defs.value[i].resources))]
  {
    match FindResources(defs, permission)
    case None => Grant(permission, [])
    case Some(found) =>
      Grant(permission, [ResourceDefinition(AttributeFilter(FilterKey(permission), InOperation, found.resources))])
  }

  /** `selectedPermissions.map(...)`: one grant per selection, in order. */
  function NewGrants(selected: seq<SelectedPermission>, defs: Option<seq<ResourceSelection>>): (gs: seq<Grant>)
    ensures |gs| == |selected|
    ensures forall i :: 0 <= i < |selected| ==> gs[i] == NewGrant(selected[i].uuid, defs)
  {
    if |selected| == 0 then []
    else [NewGrant(selected[0].uuid, defs)] + NewGrants(selected[1..], defs)
  }

  /** The role payload the submit handler builds from a role and the form values. */
  function SubmitPayload(role: Role, form: FormData): (r: Role)
    ensures r.uuid == role.uuid && r.displayName == role.displayName
    ensures r.description == role.description && r.otherFields == role.otherFields
    ensures |r.access| == |role.access| + |form.selectedPermissions|
    ensures r.access[..|role.access|] == role.access
    ensures forall i :: 0 <= i < |form.selectedPermissions| ==>
      r.access[|role.access| + i].permission == form.selectedPermissions[i].uuid
    ensures forall i :: 0 <= i < |form.selectedPermissions| ==>
      r.access[|role.access| + i] == NewGrant(form.selectedPermissions[i].uuid, form.resourceDefinitions)
    ensures r.accessCount - role.accessCount == |r.access| - |role.access|
    ensures role.accessCount == |role.access| ==> r.accessCount == |r.access|
  {
    var grants := NewGrants(form.selectedPermissions, form.resourceDefinitions);
    role.(access := role.access + grants,
          accessCount := role.accessCount + |form.selectedPermissions|)
  }

  /** No permission appears twice in an access list. */
  ghost predicate DistinctPermissions(access: seq<Grant>) {
    forall i, j :: 0 <= i < j < |access| ==> access[i].permission != access[j].permission
  }

  /** The selections are pairwise distinct and none is already granted. */
  ghost predicate NetNewSelection(role: Role, selected: seq<SelectedPermission>) {
    && (forall i, j :: 0 <= i < j < |selected| ==> selected[i].uuid != selected[j].uuid)
    && (forall i, k :: 0 <= i < |selected| && 0 <= k < |role.access| ==> selected[i].uuid != role.access[k].permission)
  }

  /** With net-new selections the payload grants no permission twice. */
  lemma DistinctPermissionsPreserved(role: Role, form: FormData)
    requires DistinctPermissions(role.access)
    requires NetNewSelection(role, form.selectedPermissions)
    ensures DistinctPermissions(SubmitPayload(role, form).access)
  {
    var r := SubmitPayload(role, form);
    var n := |role.access|;
    forall i, j | 0 <= i < j < |r.access|
      ensures r.access[i].permission != r.access[j].permission
    {
      if j < n {
        assert r.access[i] == role.access[i] && r.access[j] == role.access[j];
      } else if i < n {
        assert r.access[i] == role.access[i];
        assert r.access[j].permission == form.selectedPermissions[j - n].uuid;
      } else {
        assert r.access[i].permission == form.selectedPermissions[i - n].uuid;
        assert r.access[j].permission == form.selectedPermissions[j - n].uuid;
      }
    }
  }

  /** For a permission of the usual `application:resource:verb` shape, the
      filter key names the resource type. */
  lemma FilterKeyOfResourcePermission(app: string, resource: string, verb: string)
    requires ':' !in app && ':' !in resource && ':' !in verb
    ensures FilterKey(app + ":" + resource + ":" + verb) == CostNamespace + resource
  {
    ColonSplit.SecondSegment(app, resource, ':', ":" + verb);
    assert app + ":" + resource + ":" + verb == app + [':'] + resource + (":" + verb);
  }

  /** A permission without a colon yields the key `cost-management.undefined`. */
  lemma FilterKeyWithoutColon(permission: string)
    requires ':' !in permission
    ensures FilterKey(permission) == "cost-management.undefined"
  {
    ColonSplit.NoSecondSegment(permission, ':');
  }

  /** Only the first entry that names a permission supplies its resources;
      later entries for the same permission are ignored. */
  lemma FirstEntryWins(permission: string, first: seq<string>, later: seq<string>, defs: seq<ResourceSelection>)
    ensures NewGrant(permission, Some([ResourceSelection(permission, first)] + defs + [ResourceSelection(permission, later)]))
         == Grant(permission, [ResourceDefinition(AttributeFilter(FilterKey(permission), InOperation, first))])
  {
    var all := [ResourceSelection(permission, first)] + defs + [ResourceSelection(permission, later)];
    assert FirstMatch(all, permission, 0);
  }

  /** Submitting a single permission `app:resource` that has a resource
      entry, to a role with an empty access list, yields exactly one scoped
      grant and a count of one. */
  lemma SingleScopedGrant(role: Role, app: string, resource: string, accounts: seq<string>)
    requires ':' !in app && ':' !in resource
    requires role.access == [] && role.accessCount == 0
    ensures SubmitPayload(role, FormData([SelectedPermission(app + ":" + resource)],
                                         Some([ResourceSelection(app + ":" + resource, accounts)])))
         == role.(access := [Grant(app + ":" + resource,
                     [ResourceDefinition(AttributeFilter(CostNamespace + resource, InOperation, accounts))])],
                  accessCount := 1)
  {
    var perm := app + ":" + resource;
    var defs := [ResourceSelection(perm, accounts)];
    assert FirstMatch(defs, perm, 0);
    ColonSplit.SecondSegment(app, resource, ':', "");
    assert app + [':'] + resource + "" == perm;
  }
}
