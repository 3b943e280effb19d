/** The records of the BloodHound output files (Models/BloodHound): users,
    groups (directory roles among them) and applications are objects whose
    `Name` setter upper-cases what it stores; computers, domains and sessions
    are plain values. `JsonBase` is the common base type the output queues
    carry. */
module BloodHound {
  import opened Wrappers
  import opened Text
  import GroupMembers
  import LocalMembers

  /** An access-control entry. ACL.cs is not part of this model, so an entry
      is carried as an uninterpreted value and only ever stored verbatim. */
  datatype Ace = Ace(raw: string)

  /** The `Dictionary<string, object> Properties` of a record: every value the
      core stores there is a (possibly null) string. */
  type Properties = map<string, Option<string>>

  /** Models/BloodHound/User.cs. */
  class User {
    /** The backing field `_userName` behind `Name`. */
    var name: Option<string>
    var properties: Properties
    var primaryGroup: Option<string>
    var aces: Option<seq<Ace>>
    var allowedToDelegate: Option<seq<string>>

    /** `new User()`: `Properties` starts as an empty dictionary, every other
        field as null. */
    constructor()
      ensures name == None && properties == map[]
      ensures primaryGroup == None && aces == None && allowedToDelegate == None
    {
      name := None;
      properties := map[];
      primaryGroup := None;
      aces := None;
      allowedToDelegate := None;
    }

    /** The `Name` setter stores the upper-cased value; null throws. */
    method SetName(value: Option<string>) returns (o: Outcome)
      modifies this
      ensures value.None? ==> o == Fail(NullReference) && name == old(name)
      ensures value.Some? ==> o == Pass && name == Some(Upper(value.value))
      ensures properties == old(properties) && primaryGroup == old(primaryGroup)
      ensures aces == old(aces) && allowedToDelegate == old(allowedToDelegate)
    {
      if value.None? {
        return Fail(NullReference);
      }
      name := Some(Upper(value.value));
      return Pass;
    }

    method SetProperties(value: Properties)
      modifies this
      ensures properties == value
      ensures name == old(name) && primaryGroup == old(primaryGroup)
      ensures aces == old(aces) && allowedToDelegate == old(allowedToDelegate)
    {
      properties := value;
    }

    method SetPrimaryGroup(value: Option<string>)
      modifies this
      ensures primaryGroup == value
      ensures name == old(name) && properties == old(properties)
      ensures aces == old(aces) && allowedToDelegate == old(allowedToDelegate)
    {
      primaryGroup := value;
    }

    method SetAces(value: Option<seq<Ace>>)
      modifies this
      ensures aces == value
      ensures name == old(name) && properties == old(properties)
      ensures primaryGroup == old(primaryGroup) && allowedToDelegate == old(allowedToDelegate)
    {
      aces := value;
    }

    method SetAllowedToDelegate(value: Option<seq<string>>)
      modifies this
      ensures allowedToDelegate == value
      ensures name == old(name) && properties == old(properties)
      ensures primaryGroup == old(primaryGroup) && aces == old(aces)
    {
      allowedToDelegate := value;
    }
  }

  /** Models/BloodHound/Group.cs, and its subclass `DirectoryRole`, which adds
      no field: a directory role is a group whose runtime type says so. */
  class Group {
    const isDirectoryRole: bool
    /** The backing field `_userName` behind `Name`. */
    var name: Option<string>
    var properties: Properties
    var aces: Option<seq<Ace>>
    var members: Option<seq<GroupMembers.GroupMember>>

    /** `new Group()`. */
    constructor()
      ensures !isDirectoryRole
      ensures name == None && properties == map[] && aces == None && members == None
    {
      isDirectoryRole := false;
      name := None;
      properties := map[];
      aces := None;
      members := None;
    }

    /** `new DirectoryRole()`: the same fields and defaults as a group. */
    constructor DirectoryRole()
      ensures isDirectoryRole
      ensures name == None && properties == map[] && aces == None && members == None
    {
      isDirectoryRole := true;
      name := None;
      properties := map[];
      aces := None;
      members := None;
    }

    /** The `Name` setter stores the upper-cased value; null throws. */
    method SetName(value: Option<string>) returns (o: Outcome)
      modifies this
      ensures value.None? ==> o == Fail(NullReference) && name == old(name)
      ensures value.Some? ==> o == Pass && name == Some(Upper(value.value))
      ensures properties == old(properties) && aces == old(aces) && members == old(members)
    {
      if value.None? {
        return Fail(NullReference);
      }
      name := Some(Upper(value.value));
      return Pass;
    }

    method SetProperties(value: Properties)
      modifies this
      ensures properties == value
      ensures name == old(name) && aces == old(aces) && members == old(members)
    {
      properties := value;
    }

    method SetAces(value: Option<seq<Ace>>)
      modifies this
      ensures aces == value
      ensures name == old(name) && properties == old(properties) && members == old(members)
    {
      aces := value;
    }

    method SetMembers(value: Option<seq<GroupMembers.GroupMember>>)
      modifies this
      ensures members == value
      ensures name == old(name) && properties == old(properties) && aces == old(aces)
    {
      members := value;
    }
  }

  /** Models/BloodHound/Application.cs. */
  class Application {
    /** The backing field `_name` behind `Name`. */
    var name: Option<string>
    var properties: Properties
    var permissions: Option<seq<string>>
    var principalId: Option<string>

    /** `new Application()`. */
    constructor()
      ensures name == None && properties == map[] && permissions == None && principalId == None
    {
      name := None;
      properties := map[];
      permissions := None;
      principalId := None;
    }

    /** The `Name` setter stores the upper-cased value; null throws. */
    method SetName(value: Option<string>) returns (o: Outcome)
      modifies this
      ensures value.None? ==> o == Fail(NullReference) && name == old(name)
      ensures value.Some? ==> o == Pass && name == Some(Upper(value.value))
      ensures properties == old(properties) && permissions == old(permissions)
      ensures principalId == old(principalId)
    {
      if value.None? {
        return Fail(NullReference);
      }
      name := Some(Upper(value.value));
      return Pass;
    }

    method SetPermissions(value: Option<seq<string>>)
      modifies this
      ensures permissions == value
      ensures name == old(name) && properties == old(properties) && principalId == old(principalId)
    {
      permissions := value;
    }

    method SetPrincipalId(value: Option<string>)
      modifies this
      ensures principalId == value
      ensures name == old(name) && properties == old(properties) && permissions == old(permissions)
    {
      principalId := value;
    }
  }

  /** A computer record. Computer.cs is not part of this model; its fields are
      kept as the helper assigns them, without normalisation. */
  datatype Computer = Computer(name: Option<string>, localAdmins: seq<LocalMembers.LocalMember>)

  /** A domain record (Domain.cs is not part of this model). */
  datatype Domain = Domain(name: Option<string>)

  /** A session of a user on a computer (Session.cs is not part of this model). */
  datatype Session = Session(userName: Option<string>, computerName: Option<string>)

  /** A record the output queues carry, tagged with its runtime type.
      `OtherRecord` stands for any other subclass of `JsonBase`, such as `Gpo`. */
  datatype JsonBase =
    | ComputerRecord(computer: Computer)
    | DomainRecord(domain: Domain)
    | GroupRecord(group: Group)
    | SessionRecord(session: Session)
    | UserRecord(user: User)
    | ApplicationRecord(application: Application)
    | OtherRecord(typeName: string)
}
