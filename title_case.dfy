/** `ToTitleCase` of Models/Extensions.cs, the string extension that the
    member-type setters apply. */
module TitleCase {
  import opened Wrappers
  import opened Text

  /** `str.Substring(0, 1).ToUpper() + str.Substring(1).ToLower()`: null
      throws, the empty string throws (`Substring(0, 1)` is out of range),
      anything else keeps its length, with the first character upper-cased
      and the rest lower-cased. */
  function ToTitleCase(str: Option<string>): (r: Result<string>)
    ensures r.Ok? <==> str.Some? && |str.value| >= 1
    ensures str.None? ==> r == Throws(NullReference)
    ensures str == Some("") ==> r == Throws(ArgumentOutOfRange)
    ensures r.Ok? ==> |r.value| == |str.value|
    ensures r.Ok? ==> !IsAsciiLower(r.value[0])
    ensures r.Ok? ==> forall i :: 1 <= i < |r.value| ==> !IsAsciiUpper(r.value[i])
    ensures r.Ok? ==> forall i :: 1 <= i < |r.value| ==> r.value[i] == LowerChar(str.value[i])
    ensures r.Ok? ==> r.value[0] == UpperChar(str.value[0])
  {
    if str.None? then Throws(NullReference)
    else if |str.value| < 1 then Throws(ArgumentOutOfRange)
    else Ok(Upper(str.value[..1]) + Lower(str.value[1..]))
  }

  /** Title-casing a title-cased string gives it back unchanged. */
  lemma ToTitleCaseIdempotent(s: string)
    requires |s| >= 1
    ensures ToTitleCase(Some(ToTitleCase(Some(s)).value)) == ToTitleCase(Some(s))
  {
    var t := ToTitleCase(Some(s)).value;
    var u := ToTitleCase(Some(t)).value;
    assert |u| == |t|;
    UpperCharIdempotent(s[0]);
    forall i | 1 <= i < |t| ensures u[i] == t[i] {
      LowerCharIdempotent(s[i]);
    }
    assert u == t;
  }

  /** A string already in title case comes back unchanged. */
  lemma ToTitleCaseOfTitle(s: string)
    requires |s| >= 1
    requires !IsAsciiLower(s[0])
    requires forall i :: 1 <= i < |s| ==> !IsAsciiUpper(s[i])
    ensures ToTitleCase(Some(s)) == Ok(s)
  {
    var t := ToTitleCase(Some(s)).value;
    assert forall i :: 0 <= i < |s| ==> t[i] == s[i];
    assert t == s;
  }

  /** The tags the source passes through the setters are already title case. */
  lemma ToTitleCaseOfTags()
    ensures ToTitleCase(Some("User")) == Ok("User")
    ensures ToTitleCase(Some("Group")) == Ok("Group")
    ensures ToTitleCase(Some("Computer")) == Ok("Computer")
  {
    ToTitleCaseOfTitle("User");
    ToTitleCaseOfTitle("Group");
    ToTitleCaseOfTitle("Computer");
  }
}
