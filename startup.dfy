/** App_Start/Startup.cs: the two pieces of the start-up code that compute
    strings. `Scopes` turns the `ida:AppScopes` setting into the list of
    permissions the application asks for; `OnAuthenticationFailed` builds the
    address of the error page a failed sign-in is sent to. The setting is a
    parameter; the OWIN pipeline and the redirect itself are left out. */
module Startup {
  import opened Wrappers
  import opened Text

  /** `Replace(' ', ',')`: every space becomes a comma. */
  function ReplaceChar(s: string, from: char, to: char): (r: string)
    ensures |r| == |s|
    ensures forall i :: 0 <= i < |s| ==> r[i] == if s[i] == from then to else s[i]
  {
    seq(|s|, i requires 0 <= i < |s| => if s[i] == from then to else s[i])
  }

  /** `Scopes`: the setting with spaces turned into commas, split on commas,
      with the empty entries removed. */
  function Scopes(appScopes: string): seq<string> {
    Where(Split(ReplaceChar(appScopes, ' ', ','), ","), IsNonEmpty)
  }

  predicate IsSeparator(c: char) {
    c == ' ' || c == ','
  }

  /** The setting with every space and every comma removed. */
  function WithoutSeparators(s: string): (r: string)
    ensures |r| <= |s|
  {
    if s == [] then []
    else (if IsSeparator(s[0]) then [] else [s[0]]) + WithoutSeparators(s[1..])
  }

  /** `s` with every `c` removed. */
  function Without(s: string, c: char): string {
    if s == [] then [] else (if s[0] == c then [] else [s[0]]) + Without(s[1..], c)
  }

  lemma {:induction false} WithoutAppend(a: string, b: string, c: char)
    ensures Without(a + b, c) == Without(a, c) + Without(b, c)
  {
    if a == [] {
      assert a + b == b;
    } else {
      assert (a + b)[0] == a[0];
      assert (a + b)[1..] == a[1..] + b;
      WithoutAppend(a[1..], b, c);
    }
  }

  lemma {:induction false} WithoutAbsent(s: string, c: char)
    requires c !in s
    ensures Without(s, c) == s
  {
    if s != [] {
      assert c !in s[1..];
      WithoutAbsent(s[1..], c);
    }
  }

  /** Pieces free of `c`, joined with `c` and stripped of it again, give their
      concatenation. */
  lemma {:induction false} WithoutJoin(pieces: seq<string>, c: char)
    requires |pieces| >= 1
    requires forall i :: 0 <= i < |pieces| ==> c !in pieces[i]
    ensures Without(Join(pieces, [c]), c) == Concat(pieces)
  {
    WithoutAbsent(pieces[0], c);
    if |pieces| > 1 {
      WithoutJoin(pieces[1..], c);
      WithoutAppend(pieces[0] + [c], Join(pieces[1..], [c]), c);
      WithoutAppend(pieces[0], [c], c);
      assert Without([c], c) == [];
    }
  }

  /** The empty pieces add nothing to a concatenation. */
  lemma {:induction false} ConcatNonEmpty(pieces: seq<string>)
    ensures Concat(Where(pieces, IsNonEmpty)) == Concat(pieces)
  {
    if pieces != [] {
      ConcatNonEmpty(pieces[1..]);
      if IsNonEmpty(pieces[0]) {
        assert ([pieces[0]] + Where(pieces[1..], IsNonEmpty))[1..] == Where(pieces[1..], IsNonEmpty);
      }
    }
  }

  lemma {:induction false} WithoutReplaced(s: string)
    ensures Without(ReplaceChar(s, ' ', ','), ',') == WithoutSeparators(s)
  {
    if s != [] {
      WithoutReplaced(s[1..]);
      assert ReplaceChar(s, ' ', ',')[1..] == ReplaceChar(s[1..], ' ', ',');
    }
  }

  /** No scope is empty and none contains a space or a comma. */
  lemma {:induction false} ScopesAreWords(appScopes: string)
    ensures forall scope :: scope in Scopes(appScopes) ==> scope != "" && ' ' !in scope && ',' !in scope
  {
    var replaced := ReplaceChar(appScopes, ' ', ',');
    var pieces := Split(replaced, ",");
    forall scope | scope in Scopes(appScopes)
      ensures scope != "" && ' ' !in scope && ',' !in scope
    {
      var k :| 0 <= k < |Scopes(appScopes)| && Scopes(appScopes)[k] == scope;
      assert IsNonEmpty(scope);
      var i :| 0 <= i < |pieces| && pieces[i] == scope;
      OccursSingleChar(scope, ',');
      if ' ' in scope {
        PieceCharsInJoin(pieces, ",", i, ' ');
        assert false;
      }
    }
  }

  /** The scopes, concatenated in order, are the setting without its spaces
      and commas: nothing else is dropped, nothing is reordered. */
  lemma ScopesConcatenate(appScopes: string)
    ensures Concat(Scopes(appScopes)) == WithoutSeparators(appScopes)
  {
    var replaced := ReplaceChar(appScopes, ' ', ',');
    var pieces := Split(replaced, ",");
    ConcatNonEmpty(pieces);
    forall i | 0 <= i < |pieces|
      ensures ',' !in pieces[i]
    {
      OccursSingleChar(pieces[i], ',');
    }
    WithoutJoin(pieces, ',');
    WithoutReplaced(appScopes);
  }

  /** `notification.ProtocolMessage`, reduced to the field the handler reads. */
  datatype ProtocolMessage = ProtocolMessage(errorDescription: Option<string>)

  const ErrorPage := "/Home/Error?message="
  const DebugParameter := "&debug="

  /** The handler adds the description exactly when there is a protocol
      message whose description is neither null nor empty. */
  predicate ShowsDebug(protocolMessage: Option<ProtocolMessage>) {
    protocolMessage.Some? && !IsNullOrEmpty(protocolMessage.value.errorDescription)
  }

  /** `OnAuthenticationFailed`: the error page with the exception's message
      and, when there is one, the protocol message's error description. */
  method OnAuthenticationFailed(exceptionMessage: string, protocolMessage: Option<ProtocolMessage>)
    returns (redirect: string)
    ensures |redirect| >= |ErrorPage| + |exceptionMessage|
    ensures redirect[..|ErrorPage|] == ErrorPage
    ensures redirect[|ErrorPage|..|ErrorPage| + |exceptionMessage|] == exceptionMessage
    ensures |redirect| > |ErrorPage| + |exceptionMessage| <==> ShowsDebug(protocolMessage)
    ensures ShowsDebug(protocolMessage) ==>
      redirect[|ErrorPage| + |exceptionMessage|..] == DebugParameter + protocolMessage.value.errorDescription.value
  {
    redirect := ErrorPage + exceptionMessage;
    if protocolMessage.Some? && !IsNullOrEmpty(protocolMessage.value.errorDescription) {
      redirect := redirect + DebugParameter + protocolMessage.value.errorDescription.value;
    }
  }
}
