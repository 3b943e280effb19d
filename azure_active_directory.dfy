/** Models/AzureActiveDirectory.cs: the orchestrator of one run against a
    tenant. Of its phases this models the interactive sign-in window, the
    consent scopes read from the directory audit log, the two
    first-wins permission maps, the choice of permission set for every
    service principal, and the run summary. The shared phase logic is in
    Orchestration. */
module AzureActiveDirectory {
  import opened Wrappers
  import opened Text
  import Graph
  import UtilsExtensions
  import Orchestration

  /** `IsNotOlderThan(10.Days())` in the sign-in phase. */
  const InteractiveLoginWindow := 10 * UtilsExtensions.MinutesPerDay

  // ---------------------------------------------------------------------
  // Consent scopes

  const ScopeMarker := "Scope:"
  const ConsentPermissionsName := "ConsentAction.Permissions"

  /** `NewValue.Split("Scope:").Last().Split("]").First()`. */
  function ScopeText(newValue: string): string {
    var pieces := Split(newValue, ScopeMarker);
    Split(pieces[|pieces| - 1], "]")[0]
  }


  /** The permission set of a consent: the non-empty space-separated tokens
      of the scope text, each once, in the order of their first occurrence. */
  function ConsentPermissions(newValue: string): seq<string> {
    Distinct(Where(Split(ScopeText(newValue), " "), IsNonEmpty))
  }

  /** Where the scope text lies: after the last "Scope:" and up to the first
      "]". The piece after the last "Scope:" is a suffix of the value that
      holds no further "Scope:"; it is preceded by "Scope:", or is the whole
      value when there is none. The text is a prefix of that piece without a
      "]", and it is the whole piece or stops right before a "]". */
  lemma ScopeTextLies(newValue: string)
    ensures var pieces := Split(newValue, ScopeMarker);
      var segment := pieces[|pieces| - 1];
      var text := ScopeText(newValue);
      && !Occurs(segment, ScopeMarker)
      && |segment| <= |newValue| && newValue[|newValue| - |segment|..] == segment
      && (|pieces| == 1 ==> segment == newValue)
      && (|pieces| > 1 ==>
            && |ScopeMarker| <= |newValue| - |segment|
            && newValue[|newValue| - |segment| - |ScopeMarker|..|newValue| - |segment|] == ScopeMarker)
      && |text| <= |segment| && segment[..|text|] == text
      && ']' !in text
      && (|text| < |segment| ==> segment[|text|] == ']')
  {
    var pieces := Split(newValue, ScopeMarker);
    var segment := pieces[|pieces| - 1];
    LastPieceIsSuffix(pieces, ScopeMarker);
    if |pieces| > 1 {
      SepBeforeLastPiece(pieces, ScopeMarker);
    }
    var heads := Split(segment, "]");
    JoinPrefix(heads, "]");
    OccursSingleChar(heads[0], ']');
    if |heads| > 1 {
      SepAfterFirstPiece(heads, "]");
      assert segment[|heads[0]|] == segment[|heads[0]|..|heads[0]| + 1][0];
    }
  }

  /** The permissions are exactly the non-empty tokens of the scope text:
      each is a token of the text, non-empty, without a space and without a
      "]"; no permission is listed twice; and every non-empty token of the
      text is a permission. */
  lemma {:induction false} ConsentPermissionsAreTokens(newValue: string)
    ensures var r := ConsentPermissions(newValue);
      && (forall t :: t in r ==> t in Split(ScopeText(newValue), " ") && t != "" && ' ' !in t && ']' !in t)
      && (forall i, j :: 0 <= i < j < |r| ==> r[i] != r[j])
      && (forall t :: t in Split(ScopeText(newValue), " ") && t != "" ==> t in r)
  {
    var text := ScopeText(newValue);
    var tokens := Split(text, " ");
    var kept := Where(tokens, IsNonEmpty);
    ScopeTextLies(newValue);
    forall t | t in ConsentPermissions(newValue)
      ensures t in tokens && t != "" && ' ' !in t && ']' !in t
    {
      assert t in kept;
      var k :| 0 <= k < |kept| && kept[k] == t;
      assert IsNonEmpty(t);
      var i :| 0 <= i < |tokens| && tokens[i] == t;
      OccursSingleChar(t, ' ');
      if ']' in t {
        PieceCharsInJoin(tokens, " ", i, ']');
      }
    }
    forall t | t in tokens && t != ""
      ensures t in ConsentPermissions(newValue)
    {
      var i :| 0 <= i < |tokens| && tokens[i] == t;
      assert IsNonEmpty(tokens[i]);
      assert t in kept;
      var k :| 0 <= k < |kept| && kept[k] == t;
    }
  }

  /** `ModifiedProperties.First(__ => __.DisplayName == "ConsentAction.Permissions")`,
      or nothing when no property has that name. */
  function FirstPermissionsProperty(properties: seq<Graph.ModifiedProperty>): (r: Option<Graph.ModifiedProperty>)
    ensures r.None? <==> forall i :: 0 <= i < |properties| ==> properties[i].displayName != Some(ConsentPermissionsName)
    ensures r.Some? ==> exists i :: (0 <= i < |properties| && properties[i] == r.value
      && r.value.displayName == Some(ConsentPermissionsName)
      && forall j :: 0 <= j < i ==> properties[j].displayName != Some(ConsentPermissionsName))
  {
    if properties == [] then None
    else if properties[0].displayName == Some(ConsentPermissionsName) then Some(properties[0])
    else
      var r := FirstPermissionsProperty(properties[1..]);
      assert forall i :: 1 <= i < |properties| ==> properties[i] == properties[1..][i - 1];
      r
  }

  /** The key and the value one audit entry offers `TryAdd`: the first
      target's id and the consent permissions of its first permissions
      property. No target and no such property are `First` failures; a null
      value fails on `Split`, and a null id in `TryAdd`, in that order. */
  function PrincipalEntry(audit: Graph.DirectoryAudit): (r: Result<(string, seq<string>)>)
    ensures audit.targetResources == [] ==> r == Throws(InvalidOperation)
    ensures audit.targetResources != [] ==>
      var target := audit.targetResources[0];
      var property := FirstPermissionsProperty(target.modifiedProperties);
      && (property.None? ==> r == Throws(InvalidOperation))
      && (property.Some? && property.value.newValue.None? ==> r == Throws(NullReference))
      && (property.Some? && property.value.newValue.Some? && target.id.None? ==> r == Throws(ArgumentNull))
      && (property.Some? && property.value.newValue.Some? && target.id.Some? ==>
            r == Ok((target.id.value, ConsentPermissions(property.value.newValue.value))))
  {
    if audit.targetResources == [] then Throws(InvalidOperation)
    else
      var target := audit.targetResources[0];
      var property := FirstPermissionsProperty(target.modifiedProperties);
      if property.None? then Throws(InvalidOperation)
      else if property.value.newValue.None? then Throws(NullReference)
      else if target.id.None? then Throws(ArgumentNull)
      else Ok((target.id.value, ConsentPermissions(property.value.newValue.value)))
  }

  /** `principalIdToPermissions`, filled by `TryAdd` over the audit entries:
      the first entry for a principal wins, and an entry that throws ends
      the phase. */
  method PrincipalIdToPermissions(audits: seq<Graph.DirectoryAudit>)
    returns (r: Result<map<string, seq<string>>>)
    ensures Orchestration.Collected(audits, PrincipalEntry).Throws? ==>
      r == Throws(Orchestration.Collected(audits, PrincipalEntry).error)
    ensures Orchestration.Collected(audits, PrincipalEntry).Ok? ==>
      r == Ok(Orchestration.FirstWins(Orchestration.Collected(audits, PrincipalEntry).value))
  {
    var principalIdToPermissions := new UtilsExtensions.Dictionary<string, seq<string>>();
    ghost var entries: seq<(string, seq<string>)> := [];
    var i := 0;
    while i < |audits|
      invariant 0 <= i <= |audits|
      invariant Orchestration.Collected(audits[..i], PrincipalEntry) == Ok(entries)
      invariant principalIdToPermissions.entries == Orchestration.FirstWins(entries)
    {
      Orchestration.CollectedStep(audits, i, PrincipalEntry);
      var entry := PrincipalEntry(audits[i]);
      if entry.Throws? {
        Orchestration.CollectedFailureStays(audits, i + 1, PrincipalEntry);
        return Throws(entry.error);
      }
      var added := principalIdToPermissions.TryAdd(entry.value.0, entry.value.1);
      Orchestration.FirstWinsStep(entries, entry.value);
      entries := entries + [entry.value];
      i := i + 1;
    }
    assert audits[..i] == audits;
    return Ok(principalIdToPermissions.entries);
  }

  /** The key and the value one permission grant offers `TryAdd`: the client
      id and the set of the scope split on single spaces. A null scope fails
      on `Split`, and a null client id in `TryAdd`, in that order. */
  function AppEntry(grant: Graph.PermissionGrant): (r: Result<(string, seq<string>)>)
    ensures grant.scope.None? ==> r == Throws(NullReference)
    ensures grant.scope.Some? && grant.clientId.None? ==> r == Throws(ArgumentNull)
    ensures grant.scope.Some? && grant.clientId.Some? ==> r.Ok? && r.value.0 == grant.clientId.value
    ensures r.Ok? ==> forall t :: t in r.value.1 <==> t in Split(grant.scope.value, " ")
    ensures r.Ok? ==> forall i, j :: 0 <= i < j < |r.value.1| ==> r.value.1[i] != r.value.1[j]
  {
    if grant.scope.None? then Throws(NullReference)
    else
      var permissionsSet := Distinct(Split(grant.scope.value, " "));
      if grant.clientId.None? then Throws(ArgumentNull)
      else Ok((grant.clientId.value, permissionsSet))
  }

  /** `appIdToPermissionsSetDictionary`, filled by `TryAdd` over the grants:
      the first grant of a client wins, and a grant that throws ends the
      phase. */
  method AppIdToPermissions(grants: seq<Graph.PermissionGrant>) returns (r: Result<map<string, seq<string>>>)
    ensures Orchestration.Collected(grants, AppEntry).Throws? ==>
      r == Throws(Orchestration.Collected(grants, AppEntry).error)
    ensures Orchestration.Collected(grants, AppEntry).Ok? ==>
      r == Ok(Orchestration.FirstWins(Orchestration.Collected(grants, AppEntry).value))
  {
    var appIdToPermissionsSetDictionary := new UtilsExtensions.Dictionary<string, seq<string>>();
    ghost var entries: seq<(string, seq<string>)> := [];
    var i := 0;
    while i < |grants|
      invariant 0 <= i <= |grants|
      invariant Orchestration.Collected(grants[..i], AppEntry) == Ok(entries)
      invariant appIdToPermissionsSetDictionary.entries == Orchestration.FirstWins(entries)
    {
      Orchestration.CollectedStep(grants, i, AppEntry);
      var entry := AppEntry(grants[i]);
      if entry.Throws? {
        Orchestration.CollectedFailureStays(grants, i + 1, AppEntry);
        return Throws(entry.error);
      }
      var added := appIdToPermissionsSetDictionary.TryAdd(entry.value.0, entry.value.1);
      Orchestration.FirstWinsStep(entries, entry.value);
      entries := entries + [entry.value];
      i := i + 1;
    }
    assert grants[..i] == grants;
    return Ok(appIdToPermissionsSetDictionary.entries);
  }

  /** The key and the value one service principal offers `Add`: its id, and
      the principal standing for the tuple of its application id, display
      name, home page and owner organisation. */
  function NameEntries(servicePrincipals: seq<Graph.ServicePrincipal>): (r: seq<(Option<string>, Graph.ServicePrincipal)>)
    ensures |r| == |servicePrincipals|
    ensures forall i :: 0 <= i < |servicePrincipals| ==> r[i] == (servicePrincipals[i].id, servicePrincipals[i])
  {
    if servicePrincipals == [] then []
    else
      var last := servicePrincipals[|servicePrincipals| - 1];
      NameEntries(servicePrincipals[..|servicePrincipals| - 1]) + [(last.id, last)]
  }

  /** `appIdToNameDictionary`, filled by `Add`: a null service principal id
      or one seen twice throws. */
  method AppIdToName(servicePrincipals: seq<Graph.ServicePrincipal>)
    returns (r: Result<map<string, Graph.ServicePrincipal>>)
    ensures r == Orchestration.AddAll(NameEntries(servicePrincipals))
  {
    var appIdToNameDictionary := new UtilsExtensions.Dictionary<string, Graph.ServicePrincipal>();
    ghost var pairs := NameEntries(servicePrincipals);
    var i := 0;
    while i < |servicePrincipals|
      invariant 0 <= i <= |servicePrincipals|
      invariant Orchestration.AddAll(pairs[..i]) == Ok(appIdToNameDictionary.entries)
    {
      assert pairs[..i + 1] == pairs[..i] + [pairs[i]];
      Orchestration.AddAllStep(pairs[..i], pairs[i]);
      var id := servicePrincipals[i].id;
      if id.None? {
        // `Add` refuses a null key.
        Orchestration.AddAllFailureStays(pairs, i + 1);
        return Throws(ArgumentNull);
      }
      var o := appIdToNameDictionary.Add(id.value, servicePrincipals[i]);
      if o.Fail? {
        Orchestration.AddAllFailureStays(pairs, i + 1);
        return Throws(o.error);
      }
      i := i + 1;
    }
    assert pairs[..i] == pairs;
    return Ok(appIdToNameDictionary.entries);
  }

  // ---------------------------------------------------------------------
  // The choice of permission set

  /** `UserIds`: a set the class declares and never adds to, so it is empty
      whenever the calls below pass it on. */
  const UserIds: seq<string> := []

  /** The arguments of the graph call a service principal leads to, by
      position. That call is not part of this model. */
  datatype ApplicationCall = ApplicationCall(
    appDisplayName: Option<string>,
    appId: Option<string>,
    permissionsSet: seq<string>,
    userIds: seq<string>,
    objectId: Option<string>,
    homepage: Option<string>,
    appOwnerOrganizationId: Option<string>)

  /** The call for one service principal of the name map (whose id is
      therefore not null): its consent permissions when the audit log has
      any, otherwise its granted permissions, otherwise none. The second
      branch passes the principal's id and its application id in each
      other's place. The user ids are always the empty `UserIds`. */
  function CallFor(
    sp: Graph.ServicePrincipal, principalIdToPermissions: map<string, seq<string>>,
    appIdToPermissions: map<string, seq<string>>)
    : (r: Option<ApplicationCall>)
    requires sp.id.Some?
    ensures r.None? <==> sp.id.value !in principalIdToPermissions && sp.id.value !in appIdToPermissions
    ensures r.Some? ==>
      && r.value.appDisplayName == sp.displayName && r.value.userIds == []
      && r.value.homepage == sp.homepage && r.value.appOwnerOrganizationId == sp.appOwnerOrganizationId
    ensures sp.id.value in principalIdToPermissions ==>
      && r.value.permissionsSet == principalIdToPermissions[sp.id.value]
      && r.value.appId == sp.appId && r.value.objectId == sp.id
    ensures sp.id.value !in principalIdToPermissions && sp.id.value in appIdToPermissions ==>
      && r.value.permissionsSet == appIdToPermissions[sp.id.value]
      && r.value.appId == sp.id && r.value.objectId == sp.appId
  {
    var id := sp.id.value;
    if id in principalIdToPermissions then
      Some(ApplicationCall(sp.displayName, sp.appId, principalIdToPermissions[id], UserIds, sp.id,
        sp.homepage, sp.appOwnerOrganizationId))
    else if id in appIdToPermissions then
      Some(ApplicationCall(sp.displayName, sp.id, appIdToPermissions[id], UserIds, sp.appId,
        sp.homepage, sp.appOwnerOrganizationId))
    else None
  }

  /** Every service principal has an id. */
  predicate AllIdentified(servicePrincipals: seq<Graph.ServicePrincipal>) {
    forall i :: 0 <= i < |servicePrincipals| ==> servicePrincipals[i].id.Some?
  }

  /** The calls of the loop over the service principals, in their order;
      none when the graph option is off. */
  function ApplicationCalls(
    servicePrincipals: seq<Graph.ServicePrincipal>, principalIdToPermissions: map<string, seq<string>>,
    appIdToPermissions: map<string, seq<string>>, isCosmosDbGraphEnabled: bool)
    : seq<ApplicationCall>
    requires AllIdentified(servicePrincipals)
  {
    if servicePrincipals == [] || !isCosmosDbGraphEnabled then []
    else
      var call := CallFor(servicePrincipals[|servicePrincipals| - 1], principalIdToPermissions, appIdToPermissions);
      ApplicationCalls(servicePrincipals[..|servicePrincipals| - 1], principalIdToPermissions, appIdToPermissions,
        isCosmosDbGraphEnabled)
        + (if call.Some? then [call.value] else [])
  }

  lemma ApplicationCallsStep(
    servicePrincipals: seq<Graph.ServicePrincipal>, i: nat, principalIdToPermissions: map<string, seq<string>>,
    appIdToPermissions: map<string, seq<string>>, isCosmosDbGraphEnabled: bool)
    requires i < |servicePrincipals| && AllIdentified(servicePrincipals)
    ensures var call := CallFor(servicePrincipals[i], principalIdToPermissions, appIdToPermissions);
      ApplicationCalls(servicePrincipals[..i + 1], principalIdToPermissions, appIdToPermissions, isCosmosDbGraphEnabled)
      == ApplicationCalls(servicePrincipals[..i], principalIdToPermissions, appIdToPermissions, isCosmosDbGraphEnabled)
        + (if isCosmosDbGraphEnabled && call.Some? then [call.value] else [])
  {
    assert servicePrincipals[..i + 1][..i] == servicePrincipals[..i];
  }

  /** With the graph option on, the calls are exactly those of the service
      principals with a permission set; with it off there are none. Every
      call passes the empty user id list. */
  lemma {:induction false} ApplicationCallsSelect(
    servicePrincipals: seq<Graph.ServicePrincipal>, principalIdToPermissions: map<string, seq<string>>,
    appIdToPermissions: map<string, seq<string>>, isCosmosDbGraphEnabled: bool)
    requires AllIdentified(servicePrincipals)
    ensures !isCosmosDbGraphEnabled ==>
      ApplicationCalls(servicePrincipals, principalIdToPermissions, appIdToPermissions, isCosmosDbGraphEnabled) == []
    ensures isCosmosDbGraphEnabled ==> forall c ::
      c in ApplicationCalls(servicePrincipals, principalIdToPermissions, appIdToPermissions, isCosmosDbGraphEnabled)
      <==> exists i :: 0 <= i < |servicePrincipals|
             && CallFor(servicePrincipals[i], principalIdToPermissions, appIdToPermissions) == Some(c)
    ensures forall c ::
      c in ApplicationCalls(servicePrincipals, principalIdToPermissions, appIdToPermissions, isCosmosDbGraphEnabled)
      ==> c.userIds == []
  {
    if servicePrincipals != [] && isCosmosDbGraphEnabled {
      var init := servicePrincipals[..|servicePrincipals| - 1];
      assert forall i :: 0 <= i < |init| ==> init[i] == servicePrincipals[i];
      ApplicationCallsSelect(init, principalIdToPermissions, appIdToPermissions, isCosmosDbGraphEnabled);
    }
  }

  /** A name map built without an exception holds one entry per service
      principal, and none of them has a null id. */
  lemma {:induction false} NamesIdentified(servicePrincipals: seq<Graph.ServicePrincipal>)
    requires Orchestration.AddAll(NameEntries(servicePrincipals)).Ok?
    ensures AllIdentified(servicePrincipals)
    ensures |Orchestration.AddAll(NameEntries(servicePrincipals)).value| == |servicePrincipals|
  {
    var pairs := NameEntries(servicePrincipals);
    Orchestration.AddAllSize(pairs);
    Orchestration.AddAllSucceeds(pairs);
    forall i | 0 <= i < |servicePrincipals|
      ensures servicePrincipals[i].id.Some?
    {
      assert pairs[i].0.Some?;
    }
  }

  /** `ServicePrincipals`: the consent map, the grant map and the name map,
      in that order, then the choice for every service principal. Any
      exception before the choices makes the phase report 0; otherwise it
      reports the number of service principals. */
  method ServicePrincipals(
    audits: seq<Graph.DirectoryAudit>, grants: seq<Graph.PermissionGrant>,
    servicePrincipals: seq<Graph.ServicePrincipal>, isCosmosDbGraphEnabled: bool)
    returns (count: int, calls: seq<ApplicationCall>)
    ensures var principals := Orchestration.Collected(audits, PrincipalEntry);
      var apps := Orchestration.Collected(grants, AppEntry);
      var names := Orchestration.AddAll(NameEntries(servicePrincipals));
      && (principals.Throws? || apps.Throws? || names.Throws? ==> count == 0 && calls == [])
      && (principals.Ok? && apps.Ok? && names.Ok? ==>
            && count == |servicePrincipals|
            && AllIdentified(servicePrincipals)
            && calls == ApplicationCalls(servicePrincipals, Orchestration.FirstWins(principals.value),
                 Orchestration.FirstWins(apps.value), isCosmosDbGraphEnabled))
  {
    var principalIdToPermissions := PrincipalIdToPermissions(audits);
    if principalIdToPermissions.Throws? {
      return 0, [];
    }
    var appIdToPermissions := AppIdToPermissions(grants);
    if appIdToPermissions.Throws? {
      return 0, [];
    }
    var appIdToName := AppIdToName(servicePrincipals);
    if appIdToName.Throws? {
      return 0, [];
    }
    NamesIdentified(servicePrincipals);
    calls := [];
    var i := 0;
    while i < |servicePrincipals|
      invariant 0 <= i <= |servicePrincipals|
      invariant calls == ApplicationCalls(servicePrincipals[..i], principalIdToPermissions.value,
        appIdToPermissions.value, isCosmosDbGraphEnabled)
    {
      ApplicationCallsStep(servicePrincipals, i, principalIdToPermissions.value, appIdToPermissions.value,
        isCosmosDbGraphEnabled);
      var call := CallFor(servicePrincipals[i], principalIdToPermissions.value, appIdToPermissions.value);
      if isCosmosDbGraphEnabled && call.Some? {
        calls := calls + [call.value];
      }
      i := i + 1;
    }
    assert servicePrincipals[..i] == servicePrincipals;
    return |appIdToName.value|, calls;
  }

  // ---------------------------------------------------------------------
  // The run summary

  const PhaseNames: seq<string> := [
    "DeviceOwners", "DirectoryRoles", "Domains", "Groups", "Users", "InteractiveLogins", "ServicePrincipals",
    "Applications"]

  /** What the phases hand back: a set or list size, or null when the phase
      caught an exception, and plain numbers for the three counting
      phases (`Users` reports -1 on failure, `ServicePrincipals` 0). */
  datatype PhaseResults = PhaseResults(
    deviceOwners: Option<nat>,
    directoryRoles: Option<nat>,
    domains: Option<nat>,
    groups: Option<nat>,
    users: int,
    interactiveLogins: Option<nat>,
    servicePrincipals: int,
    applications: int)

  /** `Users`: the number of listed user ids, or -1 when fetching failed. */
  function UsersCount(userIds: Result<seq<string>>): (r: int)
    ensures userIds.Ok? ==> r == |userIds.value|
    ensures userIds.Throws? ==> r == -1
  {
    if userIds.Ok? then |userIds.value| else -1
  }

  /** One summary line, "name | count". */
  function Line(name: string, count: string): (r: string)
    ensures |name| + 3 <= |r| && r[..|name| + 3] == name + " | " && r[|name| + 3..] == count
  {
    var r := name + " | " + count;
    assert r[..|name| + 3] == name + " | ";
    r
  }

  /** The counts as C# interpolation prints them: a null count prints as
      nothing, and the first one is followed by a space. */
  function CountTexts(results: PhaseResults): (r: seq<string>)
    ensures |r| == |PhaseNames|
  {
    [OptionalIntToString(results.deviceOwners) + " ",
     OptionalIntToString(results.directoryRoles),
     OptionalIntToString(results.domains),
     OptionalIntToString(results.groups),
     IntToString(results.users),
     OptionalIntToString(results.interactiveLogins),
     IntToString(results.servicePrincipals),
     IntToString(results.applications)]
  }

  /** The eight lines `RunAzureActiveDirectoryApplication` returns: one per
      phase, in the fixed phase order, each the phase name, a bar and the
      phase's count. */
  function SummaryLines(results: PhaseResults): (r: seq<string>)
    ensures |r| == |PhaseNames|
    ensures forall i :: 0 <= i < |PhaseNames| ==>
      && |PhaseNames[i]| + 3 <= |r[i]|
      && r[i][..|PhaseNames[i]| + 3] == PhaseNames[i] + " | "
      && r[i][|PhaseNames[i]| + 3..] == CountTexts(results)[i]
  {
    var counts := CountTexts(results);
    seq(|PhaseNames|, i requires 0 <= i < |PhaseNames| => Line(PhaseNames[i], counts[i]))
  }

  /** A phase that caught an exception leaves nothing after the bar, except
      for the space of the first line. */
  lemma FailedPhasesPrintNothing(results: PhaseResults)
    ensures results.deviceOwners.None? ==> SummaryLines(results)[0] == "DeviceOwners |  "
    ensures results.directoryRoles.None? ==> SummaryLines(results)[1] == "DirectoryRoles | "
    ensures results.interactiveLogins.None? ==> SummaryLines(results)[5] == "InteractiveLogins | "
  {
  }
}
