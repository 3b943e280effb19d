/** Models/BloodHound/GroupMember.cs: a member of a group as it appears in
    the groups output file. The setters normalise what they store; equality
    and the hash code look at the name and the type only, never at `Id`. */
module GroupMembers {
  import opened Wrappers
  import opened Text
  import opened TitleCase

  /** A .NET string hash code, or 0 for null as the source's `?:` writes it. */
  function HashOrZero(stringHash: string -> bv32, s: Option<string>): bv32 {
    if s.None? then 0 else stringHash(s.value)
  }

  /** `(h1 * 397) ^ h2` with 32-bit wrap-around, as `unchecked` computes it. */
  function CombineHashes(h1: bv32, h2: bv32): bv32 {
    (h1 * 397) ^ h2
  }

  class GroupMember {
    /** The backing field `_userName` behind `MemberName`. */
    var memberName: Option<string>
    /** The backing field `_type` behind `MemberType`. */
    var memberType: Option<string>
    var id: Option<string>

    /** `new GroupMember()`: every field starts out null. */
    constructor()
      ensures memberName == None && memberType == None && id == None
    {
      memberName := None;
      memberType := None;
      id := None;
    }

    /** The `MemberName` setter stores the upper-cased value; null throws
        before anything is stored. */
    method SetMemberName(value: Option<string>) returns (o: Outcome)
      modifies this
      ensures value.None? ==> o == Fail(NullReference) && memberName == old(memberName)
      ensures value.Some? ==> o == Pass && memberName == Some(Upper(value.value))
      ensures memberType == old(memberType) && id == old(id)
    {
      if value.None? {
        return Fail(NullReference);
      }
      memberName := Some(Upper(value.value));
      return Pass;
    }

    /** The `MemberType` setter stores the title-cased value; whatever
        `ToTitleCase` throws propagates and nothing is stored. */
    method SetMemberType(value: Option<string>) returns (o: Outcome)
      modifies this
      ensures ToTitleCase(value).Throws? ==>
        o == Fail(ToTitleCase(value).error) && memberType == old(memberType)
      ensures ToTitleCase(value).Ok? ==> o == Pass && memberType == Some(ToTitleCase(value).value)
      ensures memberName == old(memberName) && id == old(id)
    {
      var t := ToTitleCase(value);
      if t.Throws? {
        return Fail(t.error);
      }
      memberType := Some(t.value);
      return Pass;
    }

    /** The auto-property `Id` stores its value as given. */
    method SetId(value: Option<string>)
      modifies this
      ensures id == value
      ensures memberName == old(memberName) && memberType == old(memberType)
    {
      id := value;
    }

    /** `Equals(GroupMember)`: null is never equal, the same object always
        is, and otherwise the stored names and types are compared
        (`string.Equals` holds for two nulls). */
    function Equals(other: GroupMember?): (r: bool)
      reads this, other
      ensures r <==> other != null && memberName == other.memberName && memberType == other.memberType
    {
      if other == null then false
      else if this == other then true
      else memberName == other.memberName && memberType == other.memberType
    }

    /** `Equals(object)`: an object of another runtime type is never equal;
        a `GroupMember` is compared as above. */
    function EqualsObject(obj: object?): (r: bool)
      reads this, obj
      ensures r <==> obj is GroupMember && Equals(obj as GroupMember)
    {
      if obj == null then false
      else if this == obj then true
      else if obj is GroupMember then Equals(obj as GroupMember)
      else false
    }

    /** `GetHashCode()`, in unchecked 32-bit arithmetic: the product of the
        name hash and 397 wraps around before it is xor-ed with the type hash.
        The string hash is a parameter: its values are decided at run time. */
    function GetHashCode(stringHash: string -> bv32): bv32
      reads this
    {
      CombineHashes(HashOrZero(stringHash, memberName), HashOrZero(stringHash, memberType))
    }
  }

  /** The object initialiser `new GroupMember { Id = .., MemberName = ..,
      MemberType = .. }`, which runs the setters in that order. */
  method NewGroupMember(id: Option<string>, name: Option<string>, memberType: Option<string>)
    returns (r: Result<GroupMember>)
    ensures r.Ok? <==> name.Some? && ToTitleCase(memberType).Ok?
    ensures name.None? ==> r == Throws(NullReference)
    ensures name.Some? && ToTitleCase(memberType).Throws? ==> r == Throws(ToTitleCase(memberType).error)
    ensures r.Ok? ==> fresh(r.value)
    ensures r.Ok? ==>
      && r.value.id == id
      && r.value.memberName == Some(Upper(name.value))
      && r.value.memberType == Some(ToTitleCase(memberType).value)
  {
    var m := new GroupMember();
    m.SetId(id);
    var o := m.SetMemberName(name);
    if o.Fail? {
      return Throws(o.error);
    }
    o := m.SetMemberType(memberType);
    if o.Fail? {
      return Throws(o.error);
    }
    return Ok(m);
  }

  lemma EqualsReflexive(a: GroupMember)
    ensures a.Equals(a) && a.EqualsObject(a)
  {
  }

  lemma NotEqualToNull(a: GroupMember)
    ensures !a.Equals(null) && !a.EqualsObject(null)
  {
  }

  lemma EqualsSymmetric(a: GroupMember, b: GroupMember)
    ensures a.Equals(b) <==> b.Equals(a)
  {
  }

  lemma EqualsTransitive(a: GroupMember, b: GroupMember, c: GroupMember)
    requires a.Equals(b) && b.Equals(c)
    ensures a.Equals(c)
  {
  }

  /** Two members that differ only in `Id` are equal. */
  lemma EqualsIgnoresId(a: GroupMember, b: GroupMember)
    requires a.memberName == b.memberName && a.memberType == b.memberType
    requires a.id != b.id
    ensures a.Equals(b) && a.EqualsObject(b)
  {
  }

  /** Equal members have equal hash codes, whatever the string hash is. */
  lemma EqualMembersHashAlike(a: GroupMember, b: GroupMember, stringHash: string -> bv32)
    requires a.Equals(b)
    ensures a.GetHashCode(stringHash) == b.GetHashCode(stringHash)
  {
  }
}
