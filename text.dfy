/** The .NET string operations the normalisation layer relies on: case
    mapping, case-insensitive comparison, null-or-blank checks, splitting,
    filtering and decimal formatting of numbers. Case mapping is modelled on
    the ASCII letters only; every other character maps to itself. */
module Text {
  import opened Wrappers

  predicate IsAsciiLower(c: char) { 'a' <= c <= 'z' }

  predicate IsAsciiUpper(c: char) { 'A' <= c <= 'Z' }

  /** `char.ToUpper`. */
  function UpperChar(c: char): (r: char)
    ensures !IsAsciiLower(r)
    ensures IsAsciiLower(c) || r == c
  {
    if IsAsciiLower(c) then (c as int - 'a' as int + 'A' as int) as char else c
  }

  /** `char.ToLower`. */
  function LowerChar(c: char): (r: char)
    ensures !IsAsciiUpper(r)
    ensures IsAsciiUpper(c) || r == c
  {
    if IsAsciiUpper(c) then (c as int - 'A' as int + 'a' as int) as char else c
  }

  /** `string.ToUpper()`: every character upper-cased, the length kept. */
  function Upper(s: string): (r: string)
    ensures |r| == |s|
    ensures forall i :: 0 <= i < |s| ==> r[i] == UpperChar(s[i])
  {
    seq(|s|, i requires 0 <= i < |s| => UpperChar(s[i]))
  }

  /** `string.ToLower()`: every character lower-cased, the length kept. */
  function Lower(s: string): (r: string)
    ensures |r| == |s|
    ensures forall i :: 0 <= i < |s| ==> r[i] == LowerChar(s[i])
  {
    seq(|s|, i requires 0 <= i < |s| => LowerChar(s[i]))
  }

  lemma UpperCharIdempotent(c: char)
    ensures UpperChar(UpperChar(c)) == UpperChar(c)
  {
  }

  lemma LowerCharIdempotent(c: char)
    ensures LowerChar(LowerChar(c)) == LowerChar(c)
  {
  }

  /** Upper-casing an upper-cased string changes nothing. */
  lemma UpperIdempotent(s: string)
    ensures Upper(Upper(s)) == Upper(s)
  {
    forall i | 0 <= i < |s| ensures Upper(Upper(s))[i] == Upper(s)[i] {
      UpperCharIdempotent(s[i]);
    }
  }

  /** Lower-casing a lower-cased string changes nothing. */
  lemma LowerIdempotent(s: string)
    ensures Lower(Lower(s)) == Lower(s)
  {
    forall i | 0 <= i < |s| ensures Lower(Lower(s))[i] == Lower(s)[i] {
      LowerCharIdempotent(s[i]);
    }
  }

  lemma UpperAppend(a: string, b: string)
    ensures Upper(a + b) == Upper(a) + Upper(b)
  {
  }

  /** `a.Equals(b, StringComparison.OrdinalIgnoreCase)` (and the culture
      variant, which the model does not distinguish). */
  predicate EqualsIgnoreCase(a: string, b: string) {
    Upper(a) == Upper(b)
  }

  /** Comparing without case accepts a string and its upper-cased form,
      and only strings of the same length. */
  lemma EqualsIgnoreCaseOfUpper(a: string, b: string)
    ensures EqualsIgnoreCase(Upper(a), a) && EqualsIgnoreCase(a, Upper(a))
    ensures EqualsIgnoreCase(a, b) ==> |a| == |b|
  {
    UpperIdempotent(a);
  }

  /** `char.IsWhiteSpace`: the control characters U+0009 to U+000D and
      U+0085, and the space, line and paragraph separators (U+0020, U+00A0,
      U+1680, U+2000 to U+200A, U+2028, U+2029, U+202F, U+205F, U+3000). */
  predicate IsWhiteSpace(c: char) {
    ('\t' <= c <= '\r') || c == ' ' || c == '\U{0085}' || c == '\U{00A0}' || c == '\U{1680}'
    || ('\U{2000}' <= c <= '\U{200A}') || c == '\U{2028}' || c == '\U{2029}'
    || c == '\U{202F}' || c == '\U{205F}' || c == '\U{3000}'
  }

  /** `string.IsNullOrWhiteSpace`. */
  predicate IsNullOrWhiteSpace(s: Option<string>) {
    s.None? || forall i :: 0 <= i < |s.value| ==> IsWhiteSpace(s.value[i])
  }

  /** Two strings in a row are blank exactly when each of them is. */
  lemma WhiteSpaceAppend(a: string, b: string)
    ensures IsNullOrWhiteSpace(Some(a + b)) <==> IsNullOrWhiteSpace(Some(a)) && IsNullOrWhiteSpace(Some(b))
  {
    assert forall i :: 0 <= i < |a| ==> (a + b)[i] == a[i];
    assert forall i :: 0 <= i < |b| ==> (a + b)[|a| + i] == b[i];
    if IsNullOrWhiteSpace(Some(a)) && IsNullOrWhiteSpace(Some(b)) {
      forall i | 0 <= i < |a + b| ensures IsWhiteSpace((a + b)[i]) {
        if i >= |a| {
          assert (a + b)[i] == b[i - |a|];
        }
      }
    }
  }

  /** `string.IsNullOrEmpty`. */
  predicate IsNullOrEmpty(s: Option<string>) {
    s.None? || s.value == ""
  }

  /** `sep` occurs in `t` at position `j`. */
  predicate OccursAt(t: string, sep: string, j: int) {
    0 <= j && j + |sep| <= |t| && t[j..j + |sep|] == sep
  }

  predicate Occurs(t: string, sep: string) {
    exists j :: 0 <= j <= |t| && OccursAt(t, sep, j)
  }

  lemma OccursSingleChar(t: string, c: char)
    ensures Occurs(t, [c]) <==> c in t
  {
    if c in t {
      var j :| 0 <= j < |t| && t[j] == c;
      assert OccursAt(t, [c], j);
    }
    if Occurs(t, [c]) {
      var j :| 0 <= j <= |t| && OccursAt(t, [c], j);
      assert t[j] == t[j..j + 1][0];
    }
  }

  predicate IsNonEmpty(t: string) {
    t != ""
  }

  /** The pieces joined back together with `sep` between them. */
  function Join(pieces: seq<string>, sep: string): string
    requires |pieces| >= 1
  {
    if |pieces| == 1 then pieces[0] else pieces[0] + sep + Join(pieces[1..], sep)
  }

  /** The concatenation of the pieces. */
  function Concat(pieces: seq<string>): string {
    if pieces == [] then "" else pieces[0] + Concat(pieces[1..])
  }

  lemma ConcatAppend(a: seq<string>, b: seq<string>)
    ensures Concat(a + b) == Concat(a) + Concat(b)
  {
    if a == [] {
      assert a + b == b;
    } else {
      assert (a + b)[0] == a[0];
      assert (a + b)[1..] == a[1..] + b;
      ConcatAppend(a[1..], b);
    }
  }

  /** `s.Split(sep)`: the pieces of `s` between the occurrences of `sep`,
      scanned from the left, empty pieces included. The pieces joined with
      `sep` give `s` back, and no piece contains `sep`. */
  function Split(s: string, sep: string): (r: seq<string>)
    requires sep != []
    ensures |r| >= 1
    ensures Join(r, sep) == s
    ensures forall i :: 0 <= i < |r| ==> !Occurs(r[i], sep)
    decreases |s|
  {
    if |s| < |sep| then
      assert forall j :: !OccursAt(s, sep, j);
      [s]
    else if s[..|sep|] == sep then
      var rest := Split(s[|sep|..], sep);
      assert !Occurs("", sep) by {
        assert forall j :: !OccursAt("", sep, j);
      }
      assert ([""] + rest)[1..] == rest;
      [""] + rest
    else
      var rest := Split(s[1..], sep);
      var first := [s[0]] + rest[0];
      var r := [first] + rest[1..];
      JoinPrefix(rest, sep);
      assert first == s[..|first|];
      assert !Occurs(first, sep) by {
        forall j | OccursAt(first, sep, j) ensures false {
          if j > 0 {
            assert rest[0][j - 1..j - 1 + |sep|] == first[j..j + |sep|];
            assert OccursAt(rest[0], sep, j - 1);
          }
        }
      }
      assert forall i :: 1 <= i < |r| ==> r[i] == rest[i];
      assert Join(r, sep) == s by {
        if |rest| > 1 {
          assert r[1..] == rest[1..];
        }
      }
      r
  }

  /** The first piece is a prefix of the joined string. */
  lemma JoinPrefix(pieces: seq<string>, sep: string)
    requires |pieces| >= 1
    ensures |pieces[0]| <= |Join(pieces, sep)|
    ensures Join(pieces, sep)[..|pieces[0]|] == pieces[0]
  {
  }

  /** Every character of a piece is a character of the joined string. */
  lemma {:induction false} PieceCharsInJoin(pieces: seq<string>, sep: string, i: nat, c: char)
    requires i < |pieces| && c in pieces[i]
    ensures c in Join(pieces, sep)
  {
    if i > 0 {
      PieceCharsInJoin(pieces[1..], sep, i - 1, c);
    }
  }

  /** Joining more than one piece puts `sep` right before the last one. */
  lemma {:induction false} JoinLast(pieces: seq<string>, sep: string)
    requires |pieces| > 1
    ensures Join(pieces, sep) == Join(pieces[..|pieces| - 1], sep) + sep + pieces[|pieces| - 1]
  {
    var rest := pieces[1..];
    assert pieces[..|pieces| - 1][1..] == rest[..|rest| - 1];
    if |rest| > 1 {
      JoinLast(rest, sep);
    }
  }

  /** With more than one piece, `sep` stands right before the last piece. */
  lemma SepBeforeLastPiece(pieces: seq<string>, sep: string)
    requires |pieces| > 1
    ensures var joined := Join(pieces, sep);
      var last := pieces[|pieces| - 1];
      && |sep| + |last| <= |joined|
      && joined[|joined| - |last| - |sep|..|joined| - |last|] == sep
  {
    JoinLast(pieces, sep);
    var before := Join(pieces[..|pieces| - 1], sep);
    assert Join(pieces, sep) == before + sep + pieces[|pieces| - 1];
  }

  /** With more than one piece, `sep` stands right after the first piece. */
  lemma SepAfterFirstPiece(pieces: seq<string>, sep: string)
    requires |pieces| > 1
    ensures var joined := Join(pieces, sep);
      && |pieces[0]| + |sep| <= |joined|
      && joined[|pieces[0]|..|pieces[0]| + |sep|] == sep
  {
    assert Join(pieces, sep) == pieces[0] + sep + Join(pieces[1..], sep);
  }

  /** The last piece is a suffix of the joined string. */
  lemma {:induction false} LastPieceIsSuffix(pieces: seq<string>, sep: string)
    requires |pieces| >= 1
    ensures |pieces[|pieces| - 1]| <= |Join(pieces, sep)|
    ensures Join(pieces, sep)[|Join(pieces, sep)| - |pieces[|pieces| - 1]|..] == pieces[|pieces| - 1]
  {
    if |pieces| > 1 {
      var rest := pieces[1..];
      LastPieceIsSuffix(rest, sep);
      assert rest[|rest| - 1] == pieces[|pieces| - 1];
      var head := pieces[0] + sep;
      var tail := Join(rest, sep);
      assert Join(pieces, sep) == head + tail;
      assert (head + tail)[|head + tail| - |rest[|rest| - 1]|..] == tail[|tail| - |rest[|rest| - 1]|..];
    }
  }

  /** `Enumerable.Where`: the elements that satisfy `p`, in order. */
  function Where<T>(s: seq<T>, p: T -> bool): (r: seq<T>)
    ensures |r| <= |s|
    ensures forall i :: 0 <= i < |r| ==> p(r[i]) && r[i] in s
    ensures forall i :: 0 <= i < |s| && p(s[i]) ==> s[i] in r
  {
    if s == [] then []
    else if p(s[0]) then [s[0]] + Where(s[1..], p)
    else Where(s[1..], p)
  }

  /** Filtering works piecewise, so the kept elements keep their order. */
  lemma WhereAppend<T>(a: seq<T>, b: seq<T>, p: T -> bool)
    ensures Where(a + b, p) == Where(a, p) + Where(b, p)
  {
    if a == [] {
      assert a + b == b;
    } else {
      assert (a + b)[0] == a[0];
      assert (a + b)[1..] == a[1..] + b;
      WhereAppend(a[1..], b, p);
    }
  }

  /** `ToHashSet()` in enumeration order: the first occurrence of every
      element, in order. */
  function Distinct<T(==)>(s: seq<T>): (r: seq<T>)
    ensures forall i :: 0 <= i < |r| ==> r[i] in s
    ensures forall i :: 0 <= i < |s| ==> s[i] in r
    ensures forall i, j :: 0 <= i < j < |r| ==> r[i] != r[j]
  {
    if s == [] then []
    else
      var d := Distinct(s[..|s| - 1]);
      assert s == s[..|s| - 1] + [s[|s| - 1]];
      if s[|s| - 1] in d then d else d + [s[|s| - 1]]
  }

  /** Spelled out for the solver, which proves it only by extensionality. */
  lemma AppendAssociates<T>(a: seq<T>, b: seq<T>, c: seq<T>)
    ensures (a + b) + c == a + (b + c)
  {
  }

  /** A second update of the same key overwrites the first. */
  lemma UpdateOverwrites<K, V>(m: map<K, V>, k: K, a: V, b: V)
    ensures m[k := a][k := b] == m[k := b]
  {
  }

  lemma DistinctMembers<T>(s: seq<T>, x: T)
    ensures x in Distinct(s) <==> x in s
  {
    if x in s {
      var i :| 0 <= i < |s| && s[i] == x;
    }
    if x in Distinct(s) {
      var i :| 0 <= i < |Distinct(s)| && Distinct(s)[i] == x;
    }
  }

  function Digit(d: int): char
    requires 0 <= d < 10
  {
    "0123456789"[d]
  }

  /** The decimal form of a natural number, without leading zeros. */
  function NatToString(n: nat): (r: string)
    ensures |r| >= 1
    ensures forall i :: 0 <= i < |r| ==> '0' <= r[i] <= '9'
  {
    if n < 10 then [Digit(n)] else NatToString(n / 10) + [Digit(n % 10)]
  }

  /** The decimal form of an integer, as C# string interpolation prints it. */
  function IntToString(n: int): (r: string)
    ensures |r| >= 1
    ensures r[0] == '-' <==> n < 0
    ensures forall i :: 1 <= i < |r| ==> '0' <= r[i] <= '9'
  {
    if n < 0 then "-" + NatToString(-n) else NatToString(n)
  }

  /** C# string interpolation of a nullable number: null prints as nothing. */
  function OptionalIntToString(n: Option<int>): (r: string)
    ensures r == "" <==> n.None?
  {
    if n.None? then "" else IntToString(n.value)
  }
}
