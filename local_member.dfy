/** Models/BloodHound/LocalMember.cs: a local administrator of a computer as
    it appears in the computers output file. Like a group member, it
    normalises what its setters store, and equality and the hash code look
    at the type and the name. */
module LocalMembers {
  import opened Wrappers
  import opened Text
  import opened TitleCase
  import GroupMembers

  class LocalMember {
    /** The backing field `_userName` behind `Name`. */
    var name: Option<string>
    /** The backing field `_type` behind `Type`. */
    var memberType: Option<string>

    /** `new LocalMember()`: both fields start out null. */
    constructor()
      ensures name == None && memberType == None
    {
      name := None;
      memberType := None;
    }

    /** The `Name` setter stores the upper-cased value; null throws. */
    method SetName(value: Option<string>) returns (o: Outcome)
      modifies this
      ensures value.None? ==> o == Fail(NullReference) && name == old(name)
      ensures value.Some? ==> o == Pass && name == Some(Upper(value.value))
      ensures memberType == old(memberType)
    {
      if value.None? {
        return Fail(NullReference);
      }
      name := Some(Upper(value.value));
      return Pass;
    }

    /** The `Type` setter stores the title-cased value; whatever
        `ToTitleCase` throws propagates and nothing is stored. */
    method SetType(value: Option<string>) returns (o: Outcome)
      modifies this
      ensures ToTitleCase(value).Throws? ==>
        o == Fail(ToTitleCase(value).error) && memberType == old(memberType)
      ensures ToTitleCase(value).Ok? ==> o == Pass && memberType == Some(ToTitleCase(value).value)
      ensures name == old(name)
    {
      var t := ToTitleCase(value);
      if t.Throws? {
        return Fail(t.error);
      }
      memberType := Some(t.value);
      return Pass;
    }

    /** `Equals(LocalMember)`: null is never equal, the same object always
        is, and otherwise the types and then the names are compared. */
    function Equals(other: LocalMember?): (r: bool)
      reads this, other
      ensures r <==> other != null && memberType == other.memberType && name == other.name
    {
      if other == null then false
      else if this == other then true
      else memberType == other.memberType && name == other.name
    }

    /** `Equals(object)`: an object of another runtime type is never equal. */
    function EqualsObject(obj: object?): (r: bool)
      reads this, obj
      ensures r <==> obj is LocalMember && Equals(obj as LocalMember)
    {
      if obj == null then false
      else if this == obj then true
      else if obj is LocalMember then Equals(obj as LocalMember)
      else false
    }

    /** `GetHashCode()` in unchecked 32-bit arithmetic; here the type hash is
        the one multiplied by 397. */
    function GetHashCode(stringHash: string -> bv32): bv32
      reads this
    {
      GroupMembers.CombineHashes(
        GroupMembers.HashOrZero(stringHash, memberType), GroupMembers.HashOrZero(stringHash, name))
    }
  }

  /** The object initialiser `new LocalMember { Name = .., Type = .. }`. */
  method NewLocalMember(name: Option<string>, memberType: Option<string>) returns (r: Result<LocalMember>)
    ensures r.Ok? <==> name.Some? && ToTitleCase(memberType).Ok?
    ensures name.None? ==> r == Throws(NullReference)
    ensures name.Some? && ToTitleCase(memberType).Throws? ==> r == Throws(ToTitleCase(memberType).error)
    ensures r.Ok? ==> fresh(r.value)
    ensures r.Ok? ==>
      r.value.name == Some(Upper(name.value)) && r.value.memberType == Some(ToTitleCase(memberType).value)
  {
    var m := new LocalMember();
    var o := m.SetName(name);
    if o.Fail? {
      return Throws(o.error);
    }
    o := m.SetType(memberType);
    if o.Fail? {
      return Throws(o.error);
    }
    return Ok(m);
  }

  lemma EqualsReflexive(a: LocalMember)
    ensures a.Equals(a) && a.EqualsObject(a)
  {
  }

  lemma NotEqualToNull(a: LocalMember)
    ensures !a.Equals(null) && !a.EqualsObject(null)
  {
  }

  lemma EqualsSymmetric(a: LocalMember, b: LocalMember)
    ensures a.Equals(b) <==> b.Equals(a)
  {
  }

  lemma EqualsTransitive(a: LocalMember, b: LocalMember, c: LocalMember)
    requires a.Equals(b) && b.Equals(c)
    ensures a.Equals(c)
  {
  }

  /** Equal members have equal hash codes, whatever the string hash is. */
  lemma EqualMembersHashAlike(a: LocalMember, b: LocalMember, stringHash: string -> bv32)
    requires a.Equals(b)
    ensures a.GetHashCode(stringHash) == b.GetHashCode(stringHash)
  {
  }
}
