/** Utils/CosmosDbGraphHelper.cs: every directory entity becomes a vertex and
    every relationship an edge of the attack-path graph. A builder collects
    its vertices and edges in two local lists and posts each list, as one
    batch, to the vertex or the edge import block of the database helper.

    The import blocks become an object holding the batches posted to each, in
    order; the bulk import that drains them is not modelled. Each builder
    returns the batches it posted, so that its contract can describe them.
    Partition keys are the run-time hash codes of ids: a value `HashCode(s)`
    stands for `s.GetHashCode()` and is never computed. */
module GraphImport {
  import opened Wrappers
  import opened Text
  import Graph
  import GroupMembers
  import Logons

  /** A property value of a vertex or an edge. */
  datatype PropValue = Text(text: string) | HashCode(of: string)

  /** The properties added to a vertex or an edge. No builder adds the same
      key twice, so they are kept as a map and their order is dropped. */
  type Properties = map<string, PropValue>

  /** A `GremlinVertex` with the properties added to it. */
  datatype Vertex = Vertex(id: string, vertexLabel: string, properties: Properties)

  /** A `GremlinEdge`: id, label, the ids and labels of its out and in
      vertices, their partition keys, and the properties added to it. */
  datatype Edge = Edge(
    id: string,
    edgeLabel: string,
    outId: string,
    inId: string,
    outLabel: Option<string>,
    inLabel: string,
    outPk: PropValue,
    inPk: PropValue,
    properties: Properties)

  /** What one builder call posted. */
  datatype Batches = Batches(vertices: seq<Vertex>, edges: seq<Edge>)

  /** `CosmosDbHelper.CollectionPartitionKey`. */
  const PartitionKey := "pk"

  /** The id the `Granted` edge starts from when a grant names no principal. */
  const AccessToAllPrincipals := "AccessToAllPrincipals"

  const MailBoxes := "MailBoxes"

  /** The directory permission that lets a role reset users' passwords. */
  const PasswordUpdatePermission := "microsoft.aad.directory/users/password/update"

  /** The permissions that let an application read or act on mailboxes (the
      list repeats some entries, as the source does). */
  const MailPermissions: seq<string> := [
    "Mail.Read", "Mail.ReadBasic", "Mail.ReadWrite", "Mail.Read.Shared", "Mail.ReadWrite.Shared",
    "Mail.Send", "Mail.Send.Shared", "MailboxSettings.Read", "Mail.Read", "Mail.ReadWrite",
    "Mail.Send", "MailboxSettings.Read", "MailboxSettings.ReadWrite"]

  /** `s?.ToUpper() ?? string.Empty`. */
  function UpperOrEmpty(s: Option<string>): (r: string)
    ensures s.None? ==> r == ""
    ensures s.Some? ==> r == Upper(s.value)
  {
    if s.None? then "" else Upper(s.value)
  }

  /** `ToDelimitedString(sep)`: the items with `sep` between them, or the
      empty string when there are none. */
  function Delimited(items: seq<string>, sep: string): string {
    if items == [] then "" else Join(items, sep)
  }

  /** The vertex of a group, a directory role or a device: the id, the
      label, the partition key of the id and the upper-cased display name
      (empty when there is none). */
  function EntityVertex(id: string, vertexLabel: string, displayName: Option<string>): (v: Vertex)
    ensures v.id == id && v.vertexLabel == vertexLabel
    ensures v.properties.Keys == {PartitionKey, "DisplayName"}
    ensures v.properties[PartitionKey] == HashCode(id)
    ensures v.properties["DisplayName"] == Text(UpperOrEmpty(displayName))
  {
    Vertex(id, vertexLabel, map[PartitionKey := HashCode(id), "DisplayName" := Text(UpperOrEmpty(displayName))])
  }

  /** The import blocks of the database helper. */
  class ImportBlocks {
    var vertexBatches: seq<seq<Vertex>>
    var edgeBatches: seq<seq<Edge>>

    constructor()
      ensures vertexBatches == [] && edgeBatches == []
    {
      vertexBatches := [];
      edgeBatches := [];
    }

    /** `RunImportVerticesBlock.Post`. */
    method PostVertices(batch: seq<Vertex>)
      modifies this
      ensures vertexBatches == old(vertexBatches) + [batch]
      ensures edgeBatches == old(edgeBatches)
    {
      vertexBatches := vertexBatches + [batch];
    }

    /** `RunImportEdgesBlock.Post`. */
    method PostEdges(batch: seq<Edge>)
      modifies this
      ensures edgeBatches == old(edgeBatches) + [batch]
      ensures vertexBatches == old(vertexBatches)
    {
      edgeBatches := edgeBatches + [batch];
    }
  }

  /** `TryGetPermissions`: no role, or a role without a display name, has no
      permissions; otherwise the permissions are looked up by display name in
      the role-to-permissions mapping, and a name it lacks has none. */
  function TryGetPermissions(role: Option<Graph.DirectoryRole>, mapping: map<string, seq<string>>)
    : (permissions: Option<seq<string>>)
    ensures permissions.Some? <==>
      role.Some? && role.value.displayName.Some? && role.value.displayName.value in mapping
    ensures permissions.Some? ==> permissions.value == mapping[role.value.displayName.value]
  {
    if role.None? || role.value.displayName.None? then None
    else if role.value.displayName.value in mapping then Some(mapping[role.value.displayName.value])
    else None
  }

  /** The `MemberOf` edge from a member to the group or role it belongs to. */
  function MemberOfEdge(groupId: string, memberId: string, outLabel: Option<string>, inLabel: string): (e: Edge)
    ensures e.id == groupId + memberId && e.edgeLabel == "MemberOf"
    ensures e.outId == memberId && e.inId == groupId
    ensures e.outLabel == outLabel && e.inLabel == inLabel
    ensures e.outPk == HashCode(memberId) && e.inPk == HashCode(groupId) && e.properties == map[]
  {
    Edge(groupId + memberId, "MemberOf", memberId, groupId, outLabel, inLabel, HashCode(memberId), HashCode(groupId), map[])
  }

  /** `GroupMembership`: the group's vertex and one `MemberOf` edge per
      member, in member order, whose out label is the member's type. A member
      without an id throws when its id's hash code is taken, before anything
      is posted. */
  method GroupMembership(blocks: ImportBlocks, group: Graph.Group, groupMembers: seq<GroupMembers.GroupMember>)
    returns (r: Result<Batches>)
    modifies blocks
    ensures r.Throws? <==> exists i :: 0 <= i < |groupMembers| && groupMembers[i].id.None?
    ensures r.Throws? ==>
      r.error == NullReference && blocks.vertexBatches == old(blocks.vertexBatches) && blocks.edgeBatches == old(blocks.edgeBatches)
    ensures r.Ok? ==>
      && blocks.vertexBatches == old(blocks.vertexBatches) + [r.value.vertices]
      && blocks.edgeBatches == old(blocks.edgeBatches) + [r.value.edges]
      && r.value.vertices == [EntityVertex(group.id, "Group", group.displayName)]
      && |r.value.edges| == |groupMembers|
      && forall i :: 0 <= i < |groupMembers| ==>
           groupMembers[i].id.Some? &&
           r.value.edges[i] == MemberOfEdge(group.id, groupMembers[i].id.value, groupMembers[i].memberType, "Group")
  {
    var gremlinVertices := [EntityVertex(group.id, "Group", group.displayName)];
    var gremlinEdges: seq<Edge> := [];
    var i := 0;
    while i < |groupMembers|
      invariant 0 <= i <= |groupMembers|
      invariant |gremlinEdges| == i
      invariant forall j :: 0 <= j < i ==>
        groupMembers[j].id.Some? && gremlinEdges[j] == MemberOfEdge(group.id, groupMembers[j].id.value, groupMembers[j].memberType, "Group")
    {
      var member := groupMembers[i];
      if member.id.None? {
        return Throws(NullReference);
      }
      gremlinEdges := gremlinEdges + [MemberOfEdge(group.id, member.id.value, member.memberType, "Group")];
      i := i + 1;
    }
    blocks.PostVertices(gremlinVertices);
    blocks.PostEdges(gremlinEdges);
    return Ok(Batches(gremlinVertices, gremlinEdges));
  }

  /** `DirectoryRoleMembership`: like a group, but the vertex is labelled
      "DirectoryRole" and every edge's out label is "User", whatever the
      member's type. */
  method DirectoryRoleMembership(blocks: ImportBlocks, role: Graph.DirectoryRole, members: seq<GroupMembers.GroupMember>)
    returns (r: Result<Batches>)
    modifies blocks
    ensures r.Throws? <==> exists i :: 0 <= i < |members| && members[i].id.None?
    ensures r.Throws? ==>
      r.error == NullReference && blocks.vertexBatches == old(blocks.vertexBatches) && blocks.edgeBatches == old(blocks.edgeBatches)
    ensures r.Ok? ==>
      && blocks.vertexBatches == old(blocks.vertexBatches) + [r.value.vertices]
      && blocks.edgeBatches == old(blocks.edgeBatches) + [r.value.edges]
      && r.value.vertices == [EntityVertex(role.id, "DirectoryRole", role.displayName)]
      && |r.value.edges| == |members|
      && forall i :: 0 <= i < |members| ==>
           members[i].id.Some? &&
           r.value.edges[i] == MemberOfEdge(role.id, members[i].id.value, Some("User"), "DirectoryRole")
  {
    var gremlinVertices := [EntityVertex(role.id, "DirectoryRole", role.displayName)];
    var gremlinEdges: seq<Edge> := [];
    var i := 0;
    while i < |members|
      invariant 0 <= i <= |members|
      invariant |gremlinEdges| == i
      invariant forall j :: 0 <= j < i ==>
        members[j].id.Some? && gremlinEdges[j] == MemberOfEdge(role.id, members[j].id.value, Some("User"), "DirectoryRole")
    {
      var member := members[i];
      if member.id.None? {
        return Throws(NullReference);
      }
      gremlinEdges := gremlinEdges + [MemberOfEdge(role.id, member.id.value, Some("User"), "DirectoryRole")];
      i := i + 1;
    }
    blocks.PostVertices(gremlinVertices);
    blocks.PostEdges(gremlinEdges);
    return Ok(Batches(gremlinVertices, gremlinEdges));
  }

  /** Whether the role's permissions include resetting passwords
      (`permissions?.Contains(..) == true`). */
  predicate CanResetPasswords(role: Graph.DirectoryRole, mapping: map<string, seq<string>>) {
    var permissions := TryGetPermissions(Some(role), mapping);
    permissions.Some? && PasswordUpdatePermission in permissions.value
  }

  /** `administrators.Contains(userId)`. */
  predicate IsAdministrator(administrators: set<Option<string>>, userId: string) {
    Some(userId) in administrators
  }

  /** The users a role's `ForceChangePassword` edges point to: the user ids
      that are not device administrators, in order. */
  function NonAdministrators(userIds: seq<string>, administrators: set<Option<string>>): (r: seq<string>)
    ensures |r| <= |userIds|
  {
    if userIds == [] then []
    else
      var last := userIds[|userIds| - 1];
      NonAdministrators(userIds[..|userIds| - 1], administrators) + if IsAdministrator(administrators, last) then [] else [last]
  }

  /** A user id is kept exactly when it is listed and is not an
      administrator. */
  lemma {:induction false} NonAdministratorsMembers(userIds: seq<string>, administrators: set<Option<string>>)
    ensures forall u :: u in NonAdministrators(userIds, administrators) <==>
      u in userIds && !IsAdministrator(administrators, u)
  {
    if userIds != [] {
      var init := userIds[..|userIds| - 1];
      NonAdministratorsMembers(init, administrators);
      assert userIds == init + [userIds[|userIds| - 1]];
    }
  }

  /** The users keep their order: the non-administrators of two lists one
      after the other are those of the first, then those of the second. */
  lemma {:induction false} NonAdministratorsAppend(a: seq<string>, b: seq<string>, administrators: set<Option<string>>)
    ensures NonAdministrators(a + b, administrators)
      == NonAdministrators(a, administrators) + NonAdministrators(b, administrators)
  {
    if b == [] {
      assert a + b == a;
    } else {
      var init := b[..|b| - 1];
      var last := b[|b| - 1];
      assert (a + b)[..|a + b| - 1] == a + init;
      NonAdministratorsAppend(a, init, administrators);
    }
  }

  lemma NonAdministratorsStep(userIds: seq<string>, i: nat, administrators: set<Option<string>>)
    requires i < |userIds|
    ensures NonAdministrators(userIds[..i + 1], administrators)
      == NonAdministrators(userIds[..i], administrators)
        + if IsAdministrator(administrators, userIds[i]) then [] else [userIds[i]]
  {
    assert userIds[..i + 1][..i] == userIds[..i];
  }

  /** The `ForceChangePassword` edge from a role to a user. */
  function ForceChangePasswordEdge(roleId: string, userId: string): (e: Edge)
    ensures e.id == roleId + userId && e.edgeLabel == "ForceChangePassword"
    ensures e.outId == roleId && e.inId == userId
    ensures e.outLabel == Some("DirectoryRole") && e.inLabel == "User"
    ensures e.outPk == HashCode(roleId) && e.inPk == HashCode(userId) && e.properties == map[]
  {
    Edge(roleId + userId, "ForceChangePassword", roleId, userId, Some("DirectoryRole"), "User",
      HashCode(roleId), HashCode(userId), map[])
  }

  /** The `Where(..).ForEach(..)` of `DirectoryRolePermissions`: one
      `ForceChangePassword` edge from the role to each user who is not a
      device administrator, in order. The administrators are the set that
      `GetDeviceAdministratorsIds` fills with member ids, which may be null;
      a user id is never null, so a null entry matches no user. */
  method ForceChangePasswordEdges(roleId: string, userIds: seq<string>, administrators: set<Option<string>>)
    returns (edges: seq<Edge>)
    ensures var targets := NonAdministrators(userIds, administrators);
      && |edges| == |targets|
      && forall i :: 0 <= i < |targets| ==> edges[i] == ForceChangePasswordEdge(roleId, targets[i])
  {
    edges := [];
    ghost var targets: seq<string> := [];
    var i := 0;
    while i < |userIds|
      invariant 0 <= i <= |userIds|
      invariant targets == NonAdministrators(userIds[..i], administrators)
      invariant |edges| == |targets|
      invariant forall j :: 0 <= j < |targets| ==> edges[j] == ForceChangePasswordEdge(roleId, targets[j])
    {
      NonAdministratorsStep(userIds, i, administrators);
      if !IsAdministrator(administrators, userIds[i]) {
        edges := edges + [ForceChangePasswordEdge(roleId, userIds[i])];
        targets := targets + [userIds[i]];
      }
      i := i + 1;
    }
    assert userIds[..i] == userIds;
  }

  /** `DirectoryRolePermissions`: a role that can reset passwords gets one
      `ForceChangePassword` edge to every user who is not a device
      administrator, in order; any other role gets none. The edge batch is
      posted either way, and no vertex is. */
  method DirectoryRolePermissions(
    blocks: ImportBlocks, role: Graph.DirectoryRole, userIds: seq<string>, administrators: set<Option<string>>,
    mapping: map<string, seq<string>>)
    returns (edges: seq<Edge>)
    modifies blocks
    ensures blocks.vertexBatches == old(blocks.vertexBatches)
    ensures blocks.edgeBatches == old(blocks.edgeBatches) + [edges]
    ensures !CanResetPasswords(role, mapping) ==> edges == []
    ensures CanResetPasswords(role, mapping) ==>
      var targets := NonAdministrators(userIds, administrators);
      && |edges| == |targets|
      && forall i :: 0 <= i < |targets| ==> edges[i] == ForceChangePasswordEdge(role.id, targets[i])
  {
    edges := [];
    if CanResetPasswords(role, mapping) {
      edges := ForceChangePasswordEdges(role.id, userIds, administrators);
    }
    blocks.PostEdges(edges);
  }

  /** The directory roles the device-owner edges come from: those whose
      display name is one of the device-owner group names (a role without a
      name is not among them). */
  function OwnerRoles(directoryRoles: seq<Graph.DirectoryRole>): (r: seq<Graph.DirectoryRole>)
    ensures forall d :: d in r <==>
      d in directoryRoles && d.displayName.Some? && d.displayName.value in Graph.DeviceOwnerGroupDisplayNames
  {
    Where(directoryRoles,
      (d: Graph.DirectoryRole) => d.displayName.Some? && d.displayName.value in Graph.DeviceOwnerGroupDisplayNames)
  }

  /** The `AdminTo` edge from an owner (a user or a directory role) to a
      device. */
  function AdminToEdge(ownerId: string, ownerLabel: string, deviceId: string): (e: Edge)
    ensures e.id == ownerId + deviceId && e.edgeLabel == "AdminTo"
    ensures e.outId == ownerId && e.inId == deviceId
    ensures e.outLabel == Some(ownerLabel) && e.inLabel == "Computer"
    ensures e.outPk == HashCode(ownerId) && e.inPk == HashCode(deviceId) && e.properties == map[]
  {
    Edge(ownerId + deviceId, "AdminTo", ownerId, deviceId, Some(ownerLabel), "Computer",
      HashCode(ownerId), HashCode(deviceId), map[])
  }

  /** `DeviceOwners`: the device's vertex, then one `AdminTo` edge from each
      owner, in order, followed by one from each device-owner directory role.
      The role edges are added whatever the device's trust type is. An owner
      that is not a user fails the cast to `User`, before anything is
      posted. */
  method DeviceOwners(
    blocks: ImportBlocks, device: Graph.Device, ownerList: seq<Graph.DirectoryObject>,
    directoryRoles: seq<Graph.DirectoryRole>)
    returns (r: Result<Batches>)
    modifies blocks
    ensures r.Throws? <==> exists i :: 0 <= i < |ownerList| && !ownerList[i].UserObject?
    ensures r.Throws? ==>
      r.error == InvalidCast && blocks.vertexBatches == old(blocks.vertexBatches) && blocks.edgeBatches == old(blocks.edgeBatches)
    ensures r.Ok? ==>
      var roles := OwnerRoles(directoryRoles);
      && blocks.vertexBatches == old(blocks.vertexBatches) + [r.value.vertices]
      && blocks.edgeBatches == old(blocks.edgeBatches) + [r.value.edges]
      && r.value.vertices == [EntityVertex(device.id, "Computer", device.displayName)]
      && |r.value.edges| == |ownerList| + |roles|
      && (forall i :: 0 <= i < |ownerList| ==>
            ownerList[i].UserObject? &&
            r.value.edges[i] == AdminToEdge(ownerList[i].user.id, "User", device.id))
      && (forall i :: 0 <= i < |roles| ==>
            r.value.edges[|ownerList| + i] == AdminToEdge(roles[i].id, "DirectoryRole", device.id))
  {
    var deviceOwnerGroups := OwnerRoles(directoryRoles);
    var gremlinVertices := [EntityVertex(device.id, "Computer", device.displayName)];
    var gremlinEdges: seq<Edge> := [];
    var i := 0;
    while i < |ownerList|
      invariant 0 <= i <= |ownerList|
      invariant |gremlinEdges| == i
      invariant forall j :: 0 <= j < i ==>
        ownerList[j].UserObject? && gremlinEdges[j] == AdminToEdge(ownerList[j].user.id, "User", device.id)
    {
      if !ownerList[i].UserObject? {
        return Throws(InvalidCast);
      }
      var user := ownerList[i].user;
      gremlinEdges := gremlinEdges + [AdminToEdge(user.id, "User", device.id)];
      i := i + 1;
    }
    var k := 0;
    while k < |deviceOwnerGroups|
      invariant 0 <= k <= |deviceOwnerGroups|
      invariant |gremlinEdges| == |ownerList| + k
      invariant forall j :: 0 <= j < |ownerList| ==>
        ownerList[j].UserObject? && gremlinEdges[j] == AdminToEdge(ownerList[j].user.id, "User", device.id)
      invariant forall j :: 0 <= j < k ==>
        gremlinEdges[|ownerList| + j] == AdminToEdge(deviceOwnerGroups[j].id, "DirectoryRole", device.id)
    {
      gremlinEdges := gremlinEdges + [AdminToEdge(deviceOwnerGroups[k].id, "DirectoryRole", device.id)];
      k := k + 1;
    }
    blocks.PostVertices(gremlinVertices);
    blocks.PostEdges(gremlinEdges);
    return Ok(Batches(gremlinVertices, gremlinEdges));
  }

  /** The edges `InteractiveLogOns` posts for one logon: a null device id is
      refused by the dictionary lookup; a device the map does not know gets
      no edge and nothing is posted (`None`); otherwise one `HasSession` edge
      goes from the mapped device to the user, and a logon without a user id
      throws when that id's hash code is taken. */
  function SessionEdges(logon: Logons.InteractiveLogon, deviceObjectIdToDeviceId: map<string, string>)
    : (r: Result<Option<seq<Edge>>>)
    ensures logon.deviceId.None? ==> r == Throws(ArgumentNull)
    ensures logon.deviceId.Some? && logon.deviceId.value !in deviceObjectIdToDeviceId ==> r == Ok(None)
    ensures logon.deviceId.Some? && logon.deviceId.value in deviceObjectIdToDeviceId ==>
      var deviceId := deviceObjectIdToDeviceId[logon.deviceId.value];
      && (logon.userId.None? ==> r == Throws(NullReference))
      && (logon.userId.Some? ==>
           && r.Ok? && r.value.Some? && |r.value.value| == 1
           && var e := r.value.value[0];
           && e.id == deviceId + logon.userId.value && e.edgeLabel == "HasSession"
           && e.outId == deviceId && e.inId == logon.userId.value
           && e.outLabel == Some("Computer") && e.inLabel == "User"
           && e.outPk == HashCode(deviceId) && e.inPk == HashCode(logon.userId.value)
           && e.properties == map[])
  {
    if logon.deviceId.None? then Throws(ArgumentNull)
    else if logon.deviceId.value !in deviceObjectIdToDeviceId then Ok(None)
    else
      var deviceId := deviceObjectIdToDeviceId[logon.deviceId.value];
      if logon.userId.None? then Throws(NullReference)
      else
        Ok(Some([Edge(deviceId + logon.userId.value, "HasSession", deviceId, logon.userId.value,
          Some("Computer"), "User", HashCode(deviceId), HashCode(logon.userId.value), map[])]))
  }

  /** `InteractiveLogOns`: posts the session edge, if there is one. */
  method InteractiveLogOns(blocks: ImportBlocks, logon: Logons.InteractiveLogon, deviceObjectIdToDeviceId: map<string, string>)
    returns (r: Result<Option<seq<Edge>>>)
    modifies blocks
    ensures r == SessionEdges(logon, deviceObjectIdToDeviceId)
    ensures blocks.vertexBatches == old(blocks.vertexBatches)
    ensures blocks.edgeBatches == old(blocks.edgeBatches) + if r.Ok? && r.value.Some? then [r.value.value] else []
  {
    r := SessionEdges(logon, deviceObjectIdToDeviceId);
    if r.Ok? && r.value.Some? {
      blocks.PostEdges(r.value.value);
    }
  }

  /** The vertex of a user: the partition key, the user principal name, the
      mail address and the upper-cased display name, each missing one as the
      empty string. */
  function UserVertex(user: Graph.User): (v: Vertex)
    ensures v.id == user.id && v.vertexLabel == "User"
    ensures v.properties.Keys == {PartitionKey, "UserPrincipalName", "Mail", "DisplayName"}
    ensures v.properties[PartitionKey] == HashCode(user.id)
    ensures v.properties["UserPrincipalName"] == Text(user.userPrincipalName.GetOr(""))
    ensures v.properties["Mail"] == Text(user.mail.GetOr(""))
    ensures v.properties["DisplayName"] == Text(UpperOrEmpty(user.displayName))
  {
    Vertex(user.id, "User", map[
      PartitionKey := HashCode(user.id),
      "UserPrincipalName" := Text(user.userPrincipalName.GetOr("")),
      "Mail" := Text(user.mail.GetOr("")),
      "DisplayName" := Text(UpperOrEmpty(user.displayName))])
  }

  /** `Users`: posts the user's vertex, and no edge. */
  method Users(blocks: ImportBlocks, user: Graph.User)
    modifies blocks
    ensures blocks.vertexBatches == old(blocks.vertexBatches) + [[UserVertex(user)]]
    ensures blocks.edgeBatches == old(blocks.edgeBatches)
  {
    blocks.PostVertices([UserVertex(user)]);
  }

  /** `HashSet.Overlaps`: some permission is a mail permission. */
  predicate OverlapsMailPermissions(permissionsSet: seq<string>) {
    exists p :: p in permissionsSet && p in MailPermissions
  }

  /** The test looks at every permission: the permissions of two lists in a
      row overlap the mail permissions exactly when those of one list do. */
  lemma OverlapsMailPermissionsAppend(a: seq<string>, b: seq<string>)
    ensures OverlapsMailPermissions(a + b) <==> OverlapsMailPermissions(a) || OverlapsMailPermissions(b)
  {
    if OverlapsMailPermissions(a + b) {
      var p :| p in a + b && p in MailPermissions;
      assert p in a || p in b;
    }
  }

  /** What `Applications` posts. The application's vertex; a `Granted` edge
      whose id joins the principal (or `AccessToAllPrincipals` when the grant
      names none) and the application, but whose out vertex is the
      application and whose in vertex is the principal, while its labels say
      "User" and "Application"; and a `CanManipulate` edge from the
      application to the mailboxes exactly when a permission is a mail
      permission. An application without an id throws when its hash code is
      taken. `permissionsSet` is the set in its enumeration order. */
  function ApplicationBatches(
    appDisplayName: Option<string>, appId: Option<string>, permissionsSet: seq<string>, principalId: Option<string>)
    : (r: Result<Batches>)
    ensures r.Throws? <==> appId.None?
    ensures r.Throws? ==> r.error == NullReference
    ensures r.Ok? ==>
      var app := appId.value;
      var principal := principalId.GetOr(AccessToAllPrincipals);
      var permissions := Text(Delimited(permissionsSet, ","));
      && |r.value.vertices| == 1
      && r.value.vertices[0].id == app && r.value.vertices[0].vertexLabel == "Application"
      && r.value.vertices[0].properties.Keys == {PartitionKey, "appDisplayName", "permissionsSet"}
      && r.value.vertices[0].properties[PartitionKey] == HashCode(app)
      && r.value.vertices[0].properties["appDisplayName"] == Text(UpperOrEmpty(appDisplayName))
      && r.value.vertices[0].properties["permissionsSet"] == permissions
      && |r.value.edges| == (if OverlapsMailPermissions(permissionsSet) then 2 else 1)
      && r.value.edges[0] == Edge(principal + app, "Granted", app, principal, Some("User"), "Application",
           HashCode(app), HashCode(principal), map["permissionsSet" := permissions])
      && (OverlapsMailPermissions(permissionsSet) ==>
           r.value.edges[1] == Edge(app + MailBoxes, "CanManipulate", app, MailBoxes, Some("Application"),
             "Application", HashCode(app), HashCode(MailBoxes), map[]))
  {
    if appId.None? then Throws(NullReference)
    else
      var app := appId.value;
      var permissions := Text(Delimited(permissionsSet, ","));
      var vertex := Vertex(app, "Application", map[
        PartitionKey := HashCode(app),
        "appDisplayName" := Text(UpperOrEmpty(appDisplayName)),
        "permissionsSet" := permissions]);
      var principal := principalId.GetOr(AccessToAllPrincipals);
      var granted := Edge(principal + app, "Granted", app, principal, Some("User"), "Application",
        HashCode(app), HashCode(principal), map["permissionsSet" := permissions]);
      var canManipulate := Edge(app + MailBoxes, "CanManipulate", app, MailBoxes, Some("Application"),
        "Application", HashCode(app), HashCode(MailBoxes), map[]);
      Ok(Batches([vertex], [granted] + if OverlapsMailPermissions(permissionsSet) then [canManipulate] else []))
  }

  /** `Applications`: posts the application's vertex and edges. */
  method Applications(
    blocks: ImportBlocks, appDisplayName: Option<string>, appId: Option<string>, permissionsSet: seq<string>,
    principalId: Option<string>)
    returns (r: Result<Batches>)
    modifies blocks
    ensures r == ApplicationBatches(appDisplayName, appId, permissionsSet, principalId)
    ensures r.Throws? ==> blocks.vertexBatches == old(blocks.vertexBatches) && blocks.edgeBatches == old(blocks.edgeBatches)
    ensures r.Ok? ==>
      && blocks.vertexBatches == old(blocks.vertexBatches) + [r.value.vertices]
      && blocks.edgeBatches == old(blocks.edgeBatches) + [r.value.edges]
  {
    r := ApplicationBatches(appDisplayName, appId, permissionsSet, principalId);
    if r.Ok? {
      blocks.PostVertices(r.value.vertices);
      blocks.PostEdges(r.value.edges);
    }
  }
}
