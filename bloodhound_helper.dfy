/** Utils/BloodHoundHelper.cs: the static helper that turns directory
    records into BloodHound output records and hands them to six output
    queues, each drained by its own output writer (see OutputWriter).

    The helper's static fields become the fields of one object. A queue is
    a blocking collection: its items and whether adding is complete. The
    writer tasks are not modelled as tasks: how far the writer of a queue
    gets is `OutputWriter.Taken` of the queue's items, and a queue is
    completed once adding is complete and its writer has taken every item.
    `replaced` keeps every queue a builder swapped out because it was
    completed, together with all it had received, for that queue's writer
    had been started on it. */
module BloodHoundHelpers {
  import opened Wrappers
  import opened Text
  import opened TitleCase
  import Graph
  import GroupMembers
  import LocalMembers
  import BloodHound
  import Logons
  import OutputWriter

  /** The six `_xxxOutput` fields. */
  datatype Channel = GroupsOutput | DevicesOutput | SignInOutput | UsersOutput | DomainsOutput | ApplicationsOutput

  /** A `BlockingCollection<JsonBase>`: every item it was given, and
      whether `CompleteAdding` was called (`IsAddingCompleted`). */
  datatype OutputQueue = OutputQueue(items: seq<BloodHound.JsonBase>, isAddingCompleted: bool)

  /** A queue that a builder replaced, with everything it had received. */
  datatype Generation = Generation(channel: Channel, items: seq<BloodHound.JsonBase>)

  const EmptyQueue := OutputQueue([], false)

  /** `BlockingCollection.IsCompleted`: adding is complete and the queue is
      empty, that is, its writer, which resolves its files against `folder`,
      has taken every item. */
  predicate IsCompleted(folder: Option<string>, q: OutputQueue) {
    q.isAddingCompleted && OutputWriter.Taken(folder, q.items) == |q.items|
  }

  /** Adding is complete, but the writer's task ended on an exception before
      it had taken every item. */
  predicate LeftOver(folder: Option<string>, q: OutputQueue) {
    q.isAddingCompleted && OutputWriter.Taken(folder, q.items) < |q.items|
  }

  /** The check every builder runs first: a completed queue is replaced by a
      new, empty one (and a new writer is started on it); any other queue is
      kept, and the kept queue still refuses items exactly when records were
      left in it. */
  function Renewed(folder: Option<string>, q: OutputQueue): (r: OutputQueue)
    ensures IsCompleted(folder, q) ==> r == EmptyQueue
    ensures !IsCompleted(folder, q) ==> r == q
    ensures r.isAddingCompleted <==> LeftOver(folder, q)
  {
    if IsCompleted(folder, q) then EmptyQueue else q
  }

  /** A writer that faults on the first of two records leaves the second in
      its queue: the queue, completed for adding, is not renewed and goes on
      refusing items. */
  lemma FaultedWriterKeepsQueue(folder: Option<string>, a: BloodHound.JsonBase, b: BloodHound.JsonBase)
    requires IsNullOrWhiteSpace(folder)
    requires a.GroupRecord?
    ensures LeftOver(folder, OutputQueue([a, b], true))
    ensures Renewed(folder, OutputQueue([a, b], true)) == OutputQueue([a, b], true)
  {
    OutputWriter.BlankFolderLeavesRecords(folder, a, b);
  }

  /** `__ is User`, `__ as User`, and so on: the users among the directory
      objects, in order. */
  function UserOwners(objects: seq<Graph.DirectoryObject>): (r: seq<Graph.User>)
    ensures |r| <= |objects|
    ensures forall i :: 0 <= i < |objects| && objects[i].UserObject? ==> objects[i].user in r
    ensures forall u :: u in r ==> Graph.UserObject(u) in objects
  {
    if objects == [] then []
    else if objects[0].UserObject? then [objects[0].user] + UserOwners(objects[1..])
    else UserOwners(objects[1..])
  }

  /** The owners keep their order: the user owners of two lists one after
      the other are those of the first, then those of the second. */
  lemma {:induction false} UserOwnersAppend(a: seq<Graph.DirectoryObject>, b: seq<Graph.DirectoryObject>)
    ensures UserOwners(a + b) == UserOwners(a) + UserOwners(b)
  {
    if a == [] {
      assert a + b == b;
    } else {
      assert (a + b)[0] == a[0];
      assert (a + b)[1..] == a[1..] + b;
      UserOwnersAppend(a[1..], b);
    }
  }

  /** The exception building the device's local administrators stops at:
      `_.DisplayName.ToUpper()` on the first user owner without a display
      name, otherwise `device.TrustType.Equals(..)` on a device without a
      trust type. */
  function DeviceOwnersError(device: Graph.Device, owners: seq<Graph.User>): Option<Exception> {
    if exists i :: 0 <= i < |owners| && owners[i].displayName.None? then Some(NullReference)
    else if device.trustType.None? then Some(NullReference)
    else None
  }

  /** `device.TrustType.Equals("AzureAd", StringComparison.CurrentCultureIgnoreCase)`. */
  predicate IsAzureAdJoined(device: Graph.Device)
    requires device.trustType.Some?
  {
    EqualsIgnoreCase(device.trustType.value, "AzureAd")
  }

  /** The trust type is compared without case: "AzureAd" in any mix of
      cases joins the device. */
  lemma AzureAdJoinedIgnoresCase(device: Graph.Device)
    requires device.trustType.Some?
    ensures IsAzureAdJoined(device) <==> Upper(device.trustType.value) == "AZUREAD"
  {
    assert Upper("AzureAd") == "AZUREAD" by {
      assert |Upper("AzureAd")| == 7;
      forall i | 0 <= i < 7 ensures Upper("AzureAd")[i] == "AZUREAD"[i] {
      }
    }
  }

  /** The member type tag `BuildGroupMembersList` gives each kind of directory
      object (`nameof(User)`, `nameof(Group)`, `nameof(Computer)`). */
  function MemberTag(o: Graph.DirectoryObject): Option<string> {
    match o
    case UserObject(_) => Some("User")
    case GroupObject(_) => Some("Group")
    case DeviceObject(_) => Some("Computer")
    case OtherObject(_) => None
  }

  /** Users, groups and devices have a tag, other objects none, and every
      tag passes the `MemberType` setter's title-casing unchanged. */
  lemma MemberTagsAreTitles(o: Graph.DirectoryObject)
    ensures MemberTag(o).None? <==> o.OtherObject?
    ensures MemberTag(o).Some? ==> ToTitleCase(MemberTag(o)) == Ok(MemberTag(o).value)
  {
    ToTitleCaseOfTags();
  }

  /** The `Id` a user, group or device member is listed under. */
  function MemberId(o: Graph.DirectoryObject): string
    requires !o.OtherObject?
  {
    match o
    case UserObject(u) => u.id
    case GroupObject(g) => g.id
    case DeviceObject(d) => d.id
  }

  /** The `DisplayName` a user, group or device member is listed under. */
  function MemberDisplayName(o: Graph.DirectoryObject): Option<string>
    requires !o.OtherObject?
  {
    match o
    case UserObject(u) => u.displayName
    case GroupObject(g) => g.displayName
    case DeviceObject(d) => d.displayName
  }

  /** The exception `BuildGroupMembersList` stops at, if any: the explicit
      `NotImplementedException` for an object that is neither a user, a
      group nor a device, and the `MemberName` setter on a null name. */
  function GroupMembersError(members: seq<Graph.DirectoryObject>): Option<Exception> {
    if members == [] then None
    else if members[0].OtherObject? then Some(NotImplemented)
    else if MemberDisplayName(members[0]).None? then Some(NullReference)
    else GroupMembersError(members[1..])
  }

  /** The conversion succeeds exactly when every member is a user, a group or
      a device with a display name. */
  lemma {:induction false} GroupMembersErrorFree(members: seq<Graph.DirectoryObject>)
    ensures GroupMembersError(members).None?
      <==> forall i :: 0 <= i < |members| ==> !members[i].OtherObject? && MemberDisplayName(members[i]).Some?
  {
    if members != [] {
      GroupMembersErrorFree(members[1..]);
      assert forall i :: 1 <= i < |members| ==> members[i] == members[1..][i - 1];
    }
  }

  /** `BuildGroupMembersList`: the members in order, each with its id, its
      upper-cased display name and the tag of its kind. */
  method BuildGroupMembersList(groupMembersList: seq<Graph.DirectoryObject>)
    returns (r: Result<seq<GroupMembers.GroupMember>>)
    ensures r.Throws? <==> GroupMembersError(groupMembersList).Some?
    ensures r.Throws? ==> r.error == GroupMembersError(groupMembersList).value
    ensures r.Ok? ==> |r.value| == |groupMembersList|
    ensures r.Ok? ==> forall i :: 0 <= i < |groupMembersList| ==>
      && fresh(r.value[i])
      && !groupMembersList[i].OtherObject?
      && MemberDisplayName(groupMembersList[i]).Some?
      && r.value[i].id == Some(MemberId(groupMembersList[i]))
      && r.value[i].memberName == Some(Upper(MemberDisplayName(groupMembersList[i]).value))
      && r.value[i].memberType == MemberTag(groupMembersList[i])
  {
    ToTitleCaseOfTags();
    var groupMembers: seq<GroupMembers.GroupMember> := [];
    var i := 0;
    while i < |groupMembersList|
      invariant 0 <= i <= |groupMembersList|
      invariant GroupMembersError(groupMembersList) == GroupMembersError(groupMembersList[i..])
      invariant |groupMembers| == i
      invariant forall j :: 0 <= j < i ==>
        && fresh(groupMembers[j])
        && !groupMembersList[j].OtherObject?
        && MemberDisplayName(groupMembersList[j]).Some?
        && groupMembers[j].id == Some(MemberId(groupMembersList[j]))
        && groupMembers[j].memberName == Some(Upper(MemberDisplayName(groupMembersList[j]).value))
        && groupMembers[j].memberType == MemberTag(groupMembersList[j])
    {
      assert groupMembersList[i..][1..] == groupMembersList[i + 1..];
      var member := groupMembersList[i];
      if member.OtherObject? {
        return Throws(NotImplemented);
      }
      var m := GroupMembers.NewGroupMember(Some(MemberId(member)), MemberDisplayName(member), MemberTag(member));
      if m.Throws? {
        return Throws(m.error);
      }
      groupMembers := groupMembers + [m.value];
      i := i + 1;
    }
    return Ok(groupMembers);
  }

  /** The local members `DeviceOwners` builds for the user owners, in order:
      the upper-cased display name and the type "User"; an owner without a
      display name throws. */
  method OwnerMembers(owners: seq<Graph.User>) returns (r: Option<seq<LocalMembers.LocalMember>>)
    ensures r.None? <==> exists i :: 0 <= i < |owners| && owners[i].displayName.None?
    ensures r.Some? ==> |r.value| == |owners| && forall j :: 0 <= j < |owners| ==>
      && fresh(r.value[j])
      && owners[j].displayName.Some?
      && r.value[j].name == Some(Upper(owners[j].displayName.value))
      && r.value[j].memberType == Some("User")
  {
    ToTitleCaseOfTags();
    var members: seq<LocalMembers.LocalMember> := [];
    var i := 0;
    while i < |owners|
      invariant 0 <= i <= |owners|
      invariant |members| == i
      invariant forall j :: 0 <= j < i ==> owners[j].displayName.Some?
      invariant forall j :: 0 <= j < i ==>
        && fresh(members[j])
        && members[j].name == Some(Upper(owners[j].displayName.value))
        && members[j].memberType == Some("User")
    {
      if owners[i].displayName.None? {
        return None;
      }
      UpperIdempotent(owners[i].displayName.value);
      var m := LocalMembers.NewLocalMember(Some(Upper(owners[i].displayName.value)), Some("User"));
      members := members + [m.value];
      i := i + 1;
    }
    return Some(members);
  }

  /** The order `Waiter` awaits the six writers in. */
  const AwaitOrder: seq<Channel> :=
    [GroupsOutput, DevicesOutput, SignInOutput, UsersOutput, DomainsOutput, ApplicationsOutput]

  /** Whether the writer task of a queue faulted, and with what. */
  function WriterFault(folder: Option<string>, q: OutputQueue): Option<Exception> {
    OutputWriter.Run(folder, q.items).fault
  }

  /** `await` on the writers of `cs`, in order: the first task that faulted
      rethrows its exception, and the writers after it are not awaited. */
  function Awaited(folder: Option<string>, queues: map<Channel, OutputQueue>, cs: seq<Channel>): (o: Outcome)
    requires forall c: Channel :: c in queues
    ensures o.Pass? <==> forall i :: 0 <= i < |cs| ==> WriterFault(folder, queues[cs[i]]).None?
    ensures o.Fail? ==>
      exists i ::
        && 0 <= i < |cs|
        && WriterFault(folder, queues[cs[i]]) == Some(o.error)
        && (forall j :: 0 <= j < i ==> WriterFault(folder, queues[cs[j]]).None?)
  {
    if cs == [] then Pass
    else match WriterFault(folder, queues[cs[0]])
      case Some(e) => Fail(e)
      case None => Awaited(folder, queues, cs[1..])
  }

  class BloodHoundHelper {
    var queues: map<Channel, OutputQueue>
    var replaced: seq<Generation>
    /** `Startup.OutputFolderLocation`, a read-only setting every writer
        resolves its files against. */
    const folder: Option<string>
    /** The two entries of `DeviceGroupOwners`, shared by every computer record
        they are appended to. */
    const companyAdministrator: LocalMembers.LocalMember
    const cloudDeviceAdministrator: LocalMembers.LocalMember

    /** `DeviceGroupOwners`. */
    function DeviceGroupOwners(): seq<LocalMembers.LocalMember> {
      [companyAdministrator, cloudDeviceAdministrator]
    }

    predicate Valid()
      reads this, companyAdministrator, cloudDeviceAdministrator
    {
      && (forall c: Channel :: c in queues)
      && companyAdministrator.name == Some(Upper(Graph.DeviceOwnerGroupDisplayNames[0]))
      && companyAdministrator.memberType == Some("Group")
      && cloudDeviceAdministrator.name == Some(Upper(Graph.DeviceOwnerGroupDisplayNames[1]))
      && cloudDeviceAdministrator.memberType == Some("Group")
    }

    /** The static constructor: six new, open, empty queues (the groups queue
        is created twice, and the first one is dropped), and the fixed group
        owners, whose names are upper-cased by `_.ToUpper()` and again by the
        `Name` setter, with the type `nameof(Group)`. */
    constructor(folder: Option<string>)
      ensures Valid()
      ensures this.folder == folder
      ensures forall c: Channel :: queues[c] == EmptyQueue
      ensures replaced == []
      ensures fresh(companyAdministrator) && fresh(cloudDeviceAdministrator)
    {
      ToTitleCaseOfTags();
      UpperIdempotent(Graph.DeviceOwnerGroupDisplayNames[0]);
      UpperIdempotent(Graph.DeviceOwnerGroupDisplayNames[1]);
      var a := LocalMembers.NewLocalMember(Some(Upper(Graph.DeviceOwnerGroupDisplayNames[0])), Some("Group"));
      var b := LocalMembers.NewLocalMember(Some(Upper(Graph.DeviceOwnerGroupDisplayNames[1])), Some("Group"));
      this.folder := folder;
      companyAdministrator := a.value;
      cloudDeviceAdministrator := b.value;
      queues := map[
        SignInOutput := EmptyQueue, DevicesOutput := EmptyQueue, GroupsOutput := EmptyQueue,
        UsersOutput := EmptyQueue, DomainsOutput := EmptyQueue, ApplicationsOutput := EmptyQueue];
      replaced := [];
      new;
      forall c: Channel ensures c in queues {
        match c
        case GroupsOutput =>
        case DevicesOutput =>
        case SignInOutput =>
        case UsersOutput =>
        case DomainsOutput =>
        case ApplicationsOutput =>
      }
    }

    /** The `if (_xxxOutput.IsCompleted)` block every builder starts with. */
    method RenewIfCompleted(c: Channel)
      requires Valid()
      modifies this
      ensures Valid()
      ensures queues == old(queues)[c := Renewed(folder, old(queues[c]))]
      ensures replaced == old(replaced) + if IsCompleted(folder, old(queues[c])) then [Generation(c, old(queues[c].items))] else []
    {
      if IsCompleted(folder, queues[c]) {
        replaced := replaced + [Generation(c, queues[c].items)];
        queues := queues[c := EmptyQueue];
      }
    }

    /** `BlockingCollection.Add`: a collection that is completed for adding
        refuses the item. */
    method Add(c: Channel, r: BloodHound.JsonBase) returns (o: Outcome)
      requires Valid()
      modifies this
      ensures Valid()
      ensures old(queues[c].isAddingCompleted) ==> o == Fail(InvalidOperation) && queues == old(queues)
      ensures !old(queues[c].isAddingCompleted) ==>
        o == Pass && queues == old(queues)[c := old(queues[c]).(items := old(queues[c].items) + [r])]
      ensures replaced == old(replaced)
    {
      if queues[c].isAddingCompleted {
        return Fail(InvalidOperation);
      }
      queues := queues[c := queues[c].(items := queues[c].items + [r])];
      return Pass;
    }

    /** `GroupMembership`: one group record, holding the upper-cased display
        name and the members, goes to the groups queue. A null display name
        throws in the `Name` setter, after the queue check. */
    method GroupMembership(group: Graph.Group, groupMembers: seq<GroupMembers.GroupMember>)
      returns (o: Outcome)
      requires Valid()
      modifies this
      ensures Valid()
      ensures o == if group.displayName.None? then Fail(NullReference)
        else if LeftOver(folder, old(queues[GroupsOutput])) then Fail(InvalidOperation) else Pass
      ensures replaced == old(replaced)
        + if IsCompleted(folder, old(queues[GroupsOutput])) then [Generation(GroupsOutput, old(queues[GroupsOutput].items))] else []
      ensures o.Fail? ==> queues == old(queues)[GroupsOutput := Renewed(folder, old(queues[GroupsOutput]))]
      ensures o.Pass? ==>
        var q := Renewed(folder, old(queues[GroupsOutput]));
        && |queues[GroupsOutput].items| == |q.items| + 1
        && queues == old(queues)[GroupsOutput := q.(items := q.items + [queues[GroupsOutput].items[|q.items|]])]
        && var r := queues[GroupsOutput].items[|q.items|];
        && r.GroupRecord? && fresh(r.group) && !r.group.isDirectoryRole
        && r.group.name == Some(Upper(group.displayName.value))
        && r.group.members == Some(groupMembers)
        && r.group.properties == map[] && r.group.aces == None
    {
      RenewIfCompleted(GroupsOutput);
      var g := new BloodHound.Group();
      o := g.SetName(group.displayName);
      if o.Fail? {
        return;
      }
      g.SetMembers(Some(groupMembers));
      g.SetProperties(map[]);
      o := Add(GroupsOutput, BloodHound.GroupRecord(g));
    }

    /** `DirectoryRoleMembership`: like a group, but the record is a directory
        role and its only property is the role's `RoleTemplateId`. */
    method DirectoryRoleMembership(role: Graph.DirectoryRole, groupMembers: seq<GroupMembers.GroupMember>)
      returns (o: Outcome)
      requires Valid()
      modifies this
      ensures Valid()
      ensures o == if role.displayName.None? then Fail(NullReference)
        else if LeftOver(folder, old(queues[GroupsOutput])) then Fail(InvalidOperation) else Pass
      ensures replaced == old(replaced)
        + if IsCompleted(folder, old(queues[GroupsOutput])) then [Generation(GroupsOutput, old(queues[GroupsOutput].items))] else []
      ensures o.Fail? ==> queues == old(queues)[GroupsOutput := Renewed(folder, old(queues[GroupsOutput]))]
      ensures o.Pass? ==>
        var q := Renewed(folder, old(queues[GroupsOutput]));
        && |queues[GroupsOutput].items| == |q.items| + 1
        && queues == old(queues)[GroupsOutput := q.(items := q.items + [queues[GroupsOutput].items[|q.items|]])]
        && var r := queues[GroupsOutput].items[|q.items|];
        && r.GroupRecord? && fresh(r.group) && r.group.isDirectoryRole
        && r.group.name == Some(Upper(role.displayName.value))
        && r.group.members == Some(groupMembers)
        && r.group.properties == map["RoleTemplateId" := role.roleTemplateId]
        && r.group.aces == None
    {
      RenewIfCompleted(GroupsOutput);
      var properties := map["RoleTemplateId" := role.roleTemplateId];
      var g := new BloodHound.Group.DirectoryRole();
      o := g.SetName(role.displayName);
      if o.Fail? {
        return;
      }
      g.SetMembers(Some(groupMembers));
      g.SetProperties(properties);
      o := Add(GroupsOutput, BloodHound.GroupRecord(g));
    }

    /** `DeviceOwners`: a computer record whose local administrators are the
        device's user owners, in order, each with the upper-cased display
        name and the type "User" (owners of other types are dropped),
        followed by the two fixed group owners when the device is joined to
        Azure AD. */
    method DeviceOwners(device: Graph.Device, localMembers: seq<Graph.DirectoryObject>)
      returns (o: Outcome)
      requires Valid()
      modifies this
      ensures Valid()
      ensures o.Fail? <==>
        DeviceOwnersError(device, UserOwners(localMembers)).Some? || LeftOver(folder, old(queues[DevicesOutput]))
      ensures o.Fail? ==> o.error == match DeviceOwnersError(device, UserOwners(localMembers))
        case Some(e) => e
        case None => InvalidOperation
      ensures replaced == old(replaced)
        + if IsCompleted(folder, old(queues[DevicesOutput])) then [Generation(DevicesOutput, old(queues[DevicesOutput].items))] else []
      ensures o.Fail? ==> queues == old(queues)[DevicesOutput := Renewed(folder, old(queues[DevicesOutput]))]
      ensures o.Pass? ==>
        var q := Renewed(folder, old(queues[DevicesOutput]));
        var owners := UserOwners(localMembers);
        && |queues[DevicesOutput].items| == |q.items| + 1
        && queues == old(queues)[DevicesOutput := q.(items := q.items + [queues[DevicesOutput].items[|q.items|]])]
        && var r := queues[DevicesOutput].items[|q.items|];
        && r.ComputerRecord?
        && r.computer.name == device.displayName
        && device.trustType.Some?
        && |r.computer.localAdmins| == |owners| + (if IsAzureAdJoined(device) then 2 else 0)
        && (forall i :: 0 <= i < |owners| ==>
              && fresh(r.computer.localAdmins[i])
              && owners[i].displayName.Some?
              && r.computer.localAdmins[i].name == Some(Upper(owners[i].displayName.value))
              && r.computer.localAdmins[i].memberType == Some("User"))
        && r.computer.localAdmins[|owners|..] == if IsAzureAdJoined(device) then DeviceGroupOwners() else []
    {
      RenewIfCompleted(DevicesOutput);
      var owners := UserOwners(localMembers);
      var members := OwnerMembers(owners);
      if members.None? {
        return Fail(NullReference);
      }
      var deviceOwners := members.value;
      if device.trustType.None? {
        return Fail(NullReference);
      }
      if IsAzureAdJoined(device) {
        deviceOwners := deviceOwners + DeviceGroupOwners();
      }
      assert deviceOwners[|owners|..] == if IsAzureAdJoined(device) then DeviceGroupOwners() else [];
      o := Add(DevicesOutput, BloodHound.ComputerRecord(BloodHound.Computer(device.displayName, deviceOwners)));
    }

    /** `InteractiveLogOns`: a session of the logon's (already upper-cased)
        user on its device goes to the sign-in queue. */
    method InteractiveLogOns(logon: Logons.InteractiveLogon) returns (o: Outcome)
      requires Valid()
      modifies this
      ensures Valid()
      ensures o == if LeftOver(folder, old(queues[SignInOutput])) then Fail(InvalidOperation) else Pass
      ensures replaced == old(replaced)
        + if IsCompleted(folder, old(queues[SignInOutput])) then [Generation(SignInOutput, old(queues[SignInOutput].items))] else []
      ensures o.Fail? ==> queues == old(queues)
      ensures o.Pass? ==>
        var q := Renewed(folder, old(queues[SignInOutput]));
        queues == old(queues)[SignInOutput := q.(items := q.items
          + [BloodHound.SessionRecord(BloodHound.Session(logon.userDisplayName, logon.deviceDisplayName))])]
    {
      RenewIfCompleted(SignInOutput);
      o := Add(SignInOutput,
        BloodHound.SessionRecord(BloodHound.Session(logon.userDisplayName, logon.deviceDisplayName)));
    }

    /** `Users`: a user record with the upper-cased display name and three
        properties, the id, the user principal name and the mail address. */
    method Users(user: Graph.User) returns (o: Outcome)
      requires Valid()
      modifies this
      ensures Valid()
      ensures o == if user.displayName.None? then Fail(NullReference)
        else if LeftOver(folder, old(queues[UsersOutput])) then Fail(InvalidOperation) else Pass
      ensures replaced == old(replaced)
        + if IsCompleted(folder, old(queues[UsersOutput])) then [Generation(UsersOutput, old(queues[UsersOutput].items))] else []
      ensures o.Fail? ==> queues == old(queues)[UsersOutput := Renewed(folder, old(queues[UsersOutput]))]
      ensures o.Pass? ==>
        var q := Renewed(folder, old(queues[UsersOutput]));
        && |queues[UsersOutput].items| == |q.items| + 1
        && queues == old(queues)[UsersOutput := q.(items := q.items + [queues[UsersOutput].items[|q.items|]])]
        && var r := queues[UsersOutput].items[|q.items|];
        && r.UserRecord? && fresh(r.user)
        && r.user.name == Some(Upper(user.displayName.value))
        && r.user.properties
          == map["Id" := Some(user.id), "UserPrincipalName" := user.userPrincipalName, "Mail" := user.mail]
        && r.user.primaryGroup == None && r.user.aces == None && r.user.allowedToDelegate == None
    {
      RenewIfCompleted(UsersOutput);
      var u := new BloodHound.User();
      o := u.SetName(user.displayName);
      if o.Fail? {
        return;
      }
      u.SetProperties(map["Id" := Some(user.id), "UserPrincipalName" := user.userPrincipalName, "Mail" := user.mail]);
      o := Add(UsersOutput, BloodHound.UserRecord(u));
    }

    /** `Domains`: a domain record named after the domain's id. */
    method Domains(domain: Graph.Domain) returns (o: Outcome)
      requires Valid()
      modifies this
      ensures Valid()
      ensures o == if LeftOver(folder, old(queues[DomainsOutput])) then Fail(InvalidOperation) else Pass
      ensures replaced == old(replaced)
        + if IsCompleted(folder, old(queues[DomainsOutput])) then [Generation(DomainsOutput, old(queues[DomainsOutput].items))] else []
      ensures o.Fail? ==> queues == old(queues)
      ensures o.Pass? ==>
        var q := Renewed(folder, old(queues[DomainsOutput]));
        queues == old(queues)[DomainsOutput := q.(items := q.items
          + [BloodHound.DomainRecord(BloodHound.Domain(Some(domain.id)))])]
    {
      RenewIfCompleted(DomainsOutput);
      o := Add(DomainsOutput, BloodHound.DomainRecord(BloodHound.Domain(Some(domain.id))));
    }

    /** `Applications`: an application record named after the upper-cased
        application id, with the permissions in the set's enumeration order
        and the principal id. A null application id throws in the setter. */
    method Applications(appId: Option<string>, permissionsSet: seq<string>, principalId: Option<string>)
      returns (o: Outcome)
      requires Valid()
      modifies this
      ensures Valid()
      ensures o == if appId.None? then Fail(NullReference)
        else if LeftOver(folder, old(queues[ApplicationsOutput])) then Fail(InvalidOperation) else Pass
      ensures replaced == old(replaced)
        + if IsCompleted(folder, old(queues[ApplicationsOutput])) then
            [Generation(ApplicationsOutput, old(queues[ApplicationsOutput].items))] else []
      ensures o.Fail? ==> queues == old(queues)[ApplicationsOutput := Renewed(folder, old(queues[ApplicationsOutput]))]
      ensures o.Pass? ==>
        var q := Renewed(folder, old(queues[ApplicationsOutput]));
        && |queues[ApplicationsOutput].items| == |q.items| + 1
        && queues == old(queues)[ApplicationsOutput := q.(items := q.items + [queues[ApplicationsOutput].items[|q.items|]])]
        && var r := queues[ApplicationsOutput].items[|q.items|];
        && r.ApplicationRecord? && fresh(r.application)
        && r.application.name == Some(Upper(appId.value))
        && r.application.permissions == Some(permissionsSet)
        && r.application.principalId == principalId
        && r.application.properties == map[]
    {
      RenewIfCompleted(ApplicationsOutput);
      var a := new BloodHound.Application();
      o := a.SetName(appId);
      if o.Fail? {
        return;
      }
      a.SetPermissions(Some(permissionsSet));
      a.SetPrincipalId(principalId);
      o := Add(ApplicationsOutput, BloodHound.ApplicationRecord(a));
    }

    /** `Waiter`: adding is completed on all six queues, and then the six
        writers are awaited in turn. A queue is now completed exactly when
        its writer did not fault before its last item; the first writer
        whose task faulted rethrows its exception. The writers of replaced
        queues are not awaited. */
    method Waiter() returns (o: Outcome)
      requires Valid()
      modifies this
      ensures Valid()
      ensures forall c: Channel :: queues[c] == old(queues[c]).(isAddingCompleted := true)
      ensures forall c: Channel :: IsCompleted(folder, queues[c]) <==>
        (queues[c].items == [] || OutputWriter.Run(folder, queues[c].items[..|queues[c].items| - 1]).fault.None?)
      ensures o == Awaited(folder, queues, AwaitOrder)
      ensures replaced == old(replaced)
    {
      queues := map c: Channel | c in queues :: queues[c].(isAddingCompleted := true);
      o := Awaited(folder, queues, AwaitOrder);
    }
  }
}
