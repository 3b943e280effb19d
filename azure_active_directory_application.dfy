/** Models/AzureActiveDirectoryApplication.cs: the older orchestrator. Its
    sign-in phase keeps a two-day window; its application phase merges the
    permission grants per application into a union map with
    `CreateOrUpdate`; its user phase passes on the users with a display
    name. The sign-in phase, the device id map and the device
    administrators are shared with the newer orchestrator and modelled in
    Orchestration. */
module AzureActiveDirectoryApplication {
  import opened Wrappers
  import opened Text
  import Graph
  import UtilsExtensions
  import Orchestration
  import GraphImport
  import GraphService
  import BloodHound
  import BloodHoundHelpers

  /** `IsNotOlderThan(2.Days())` in the sign-in phase. */
  const InteractiveLogOnsWindow := 2 * UtilsExtensions.MinutesPerDay

  // ---------------------------------------------------------------------
  // The application phase

  /** `scope.Split(' ').ToHashSet()`: every piece between single spaces, the
      empty ones included, each once. */
  function ScopeSet(scope: string): seq<string> {
    Distinct(Split(scope, " "))
  }

  /** A scope that starts with a space yields the empty permission. */
  lemma LeadingSpaceGivesEmptyPermission(scope: string)
    requires |scope| >= 1 && scope[0] == ' '
    ensures "" in ScopeSet(scope)
  {
    assert scope[..1] == " ";
    assert Split(scope, " ")[0] == "";
    DistinctMembers(Split(scope, " "), "");
  }

  /** The display names of the service principals, keyed by id. */
  function DisplayNameEntries(servicePrincipals: seq<Graph.ServicePrincipal>)
    : (r: seq<(Option<string>, Option<string>)>)
    ensures |r| == |servicePrincipals|
    ensures forall i :: 0 <= i < |servicePrincipals| ==>
      r[i] == (servicePrincipals[i].id, servicePrincipals[i].appDisplayName)
  {
    if servicePrincipals == [] then []
    else
      var last := servicePrincipals[|servicePrincipals| - 1];
      DisplayNameEntries(servicePrincipals[..|servicePrincipals| - 1]) + [(last.id, last.appDisplayName)]
  }

  /** `appIdToNameDictionary`, filled by `Add`: a null service principal id
      or one seen twice throws. */
  method AppIdToName(servicePrincipals: seq<Graph.ServicePrincipal>)
    returns (r: Result<map<string, Option<string>>>)
    ensures r == Orchestration.AddAll(DisplayNameEntries(servicePrincipals))
  {
    var appIdToNameDictionary := new UtilsExtensions.Dictionary<string, Option<string>>();
    ghost var pairs := DisplayNameEntries(servicePrincipals);
    var i := 0;
    while i < |servicePrincipals|
      invariant 0 <= i <= |servicePrincipals|
      invariant Orchestration.AddAll(pairs[..i]) == Ok(appIdToNameDictionary.entries)
    {
      assert pairs[..i + 1] == pairs[..i] + [pairs[i]];
      Orchestration.AddAllStep(pairs[..i], pairs[i]);
      var id := servicePrincipals[i].id;
      if id.None? {
        // `Add` refuses a null key.
        Orchestration.AddAllFailureStays(pairs, i + 1);
        return Throws(ArgumentNull);
      }
      var o := appIdToNameDictionary.Add(id.value, servicePrincipals[i].appDisplayName);
      if o.Fail? {
        Orchestration.AddAllFailureStays(pairs, i + 1);
        return Throws(o.error);
      }
      i := i + 1;
    }
    assert pairs[..i] == pairs;
    return Ok(appIdToNameDictionary.entries);
  }

  /** What the body of the `ForEach` over the grants reads from one grant
      token before it merges: the scope, the client id and the principal
      id. */
  datatype GrantValues = GrantValues(scope: string, appId: string, principalId: Option<string>)

  /** Reading one grant: a null scope fails on `Split`, and a null client id
      in `TryGetValue`, in that order. */
  function ReadGrant(grant: Graph.PermissionGrant): (r: Result<GrantValues>)
    ensures grant.scope.None? ==> r == Throws(NullReference)
    ensures grant.scope.Some? && grant.clientId.None? ==> r == Throws(ArgumentNull)
    ensures grant.scope.Some? && grant.clientId.Some? ==>
      r == Ok(GrantValues(grant.scope.value, grant.clientId.value, grant.principalId))
  {
    if grant.scope.None? then Throws(NullReference)
    else if grant.clientId.None? then Throws(ArgumentNull)
    else Ok(GrantValues(grant.scope.value, grant.clientId.value, grant.principalId))
  }

  /** The grants the loop gets through: the values of the grants read before
      the first that throws, and that grant's exception, if any. */
  function ReadUntilFault(grants: seq<Graph.PermissionGrant>): (r: (seq<GrantValues>, Option<Exception>))
    ensures |r.0| <= |grants|
    ensures forall j :: 0 <= j < |r.0| ==> ReadGrant(grants[j]) == Ok(r.0[j])
    ensures r.1.None? <==> |r.0| == |grants|
    ensures r.1.Some? ==> ReadGrant(grants[|r.0|]) == Throws(r.1.value)
  {
    if grants == [] then ([], None)
    else
      var before := ReadUntilFault(grants[..|grants| - 1]);
      assert forall j :: 0 <= j < |grants| - 1 ==> grants[..|grants| - 1][j] == grants[j];
      if before.1.Some? then before
      else
        match ReadGrant(grants[|grants| - 1])
        case Ok(v) => (before.0 + [v], None)
        case Throws(e) => (before.0, Some(e))
  }

  /** A fault in a prefix is the fault of the whole. */
  lemma {:induction false} ReadFaultStays(grants: seq<Graph.PermissionGrant>, i: nat)
    requires i <= |grants| && ReadUntilFault(grants[..i]).1.Some?
    ensures ReadUntilFault(grants) == ReadUntilFault(grants[..i])
    decreases |grants|
  {
    if i == |grants| {
      assert grants[..i] == grants;
    } else {
      var init := grants[..|grants| - 1];
      assert init[..i] == grants[..i];
      ReadFaultStays(init, i);
    }
  }

  lemma ReadStep(grants: seq<Graph.PermissionGrant>, i: nat)
    requires i < |grants| && ReadUntilFault(grants[..i]).1.None?
    ensures ReadUntilFault(grants[..i + 1]) ==
      match ReadGrant(grants[i])
      case Ok(v) => (ReadUntilFault(grants[..i]).0 + [v], None)
      case Throws(e) => (ReadUntilFault(grants[..i]).0, Some(e))
  {
    assert grants[..i + 1][..i] == grants[..i];
  }

  /** `TryGetValue(appId, out var appDisplayName)`: the display name of the
      client, null when the client is not a known service principal. */
  function AppDisplayName(grant: GrantValues, appIdToName: map<string, Option<string>>): Option<string> {
    if grant.appId in appIdToName then appIdToName[grant.appId] else None
  }

  /** `appDisplayName ?? appId`: the key a grant is merged under. */
  function GrantKey(grant: GrantValues, appIdToName: map<string, Option<string>>): string {
    AppDisplayName(grant, appIdToName).GetOr(grant.appId)
  }

  /** `appIdToPermissionsSetDictionary` after the grants: each grant's scope
      set is stored under its key when the key is new, and united with what
      is stored there otherwise. */
  function Merged(grants: seq<GrantValues>, appIdToName: map<string, Option<string>>)
    : map<string, seq<string>>
  {
    if grants == [] then map[]
    else
      var m := Merged(grants[..|grants| - 1], appIdToName);
      var last := grants[|grants| - 1];
      var key := GrantKey(last, appIdToName);
      MergeStep(m, key, ScopeSet(last.scope))
  }

  /** One `CreateOrUpdate`: a new key gets the grant's set, a known one the
      union of what it holds with that set. */
  function MergeStep(m: map<string, seq<string>>, key: string, permissionsSet: seq<string>): map<string, seq<string>> {
    m[key := if key in m then Distinct(m[key] + permissionsSet) else permissionsSet]
  }

  /** Some grant is merged under `key`. */
  predicate HasGrant(grants: seq<GrantValues>, appIdToName: map<string, Option<string>>, key: string) {
    exists i :: 0 <= i < |grants| && GrantKey(grants[i], appIdToName) == key
  }

  /** Some grant merged under `key` lists `permission` in its scope. */
  predicate Grants(
    grants: seq<GrantValues>, appIdToName: map<string, Option<string>>, key: string, permission: string)
  {
    exists i :: 0 <= i < |grants| && GrantKey(grants[i], appIdToName) == key && permission in Split(grants[i].scope, " ")
  }

  lemma HasGrantStep(grants: seq<GrantValues>, appIdToName: map<string, Option<string>>, key: string)
    requires grants != []
    ensures HasGrant(grants, appIdToName, key) <==>
      HasGrant(grants[..|grants| - 1], appIdToName, key) || GrantKey(grants[|grants| - 1], appIdToName) == key
  {
    var init := grants[..|grants| - 1];
    if HasGrant(grants, appIdToName, key) {
      var i :| 0 <= i < |grants| && GrantKey(grants[i], appIdToName) == key;
      if i < |init| {
        assert init[i] == grants[i];
      }
    }
    if HasGrant(init, appIdToName, key) {
      var i :| 0 <= i < |init| && GrantKey(init[i], appIdToName) == key;
      assert grants[i] == init[i];
    }
  }

  /** The merged map has a key exactly for every application with a grant. */
  lemma {:induction false} MergedKeys(grants: seq<GrantValues>, appIdToName: map<string, Option<string>>, key: string)
    ensures key in Merged(grants, appIdToName) <==> HasGrant(grants, appIdToName, key)
  {
    if grants == [] {
      assert !HasGrant(grants, appIdToName, key);
    } else {
      var init := grants[..|grants| - 1];
      MergedKeys(init, appIdToName, key);
      HasGrantStep(grants, appIdToName, key);
      assert key in Merged(grants, appIdToName) <==>
        key in Merged(init, appIdToName) || key == GrantKey(grants[|grants| - 1], appIdToName);
    }
  }

  /** A grant added at the back grants what it lists, besides what the
      earlier grants grant. */
  lemma GrantsStep(
    grants: seq<GrantValues>, appIdToName: map<string, Option<string>>, key: string, permission: string)
    requires grants != []
    ensures var last := grants[|grants| - 1];
      Grants(grants, appIdToName, key, permission) <==>
        || Grants(grants[..|grants| - 1], appIdToName, key, permission)
        || (GrantKey(last, appIdToName) == key && permission in Split(last.scope, " "))
  {
    var init := grants[..|grants| - 1];
    if Grants(grants, appIdToName, key, permission) {
      var i :| 0 <= i < |grants| && GrantKey(grants[i], appIdToName) == key && permission in Split(grants[i].scope, " ");
      if i < |init| {
        assert init[i] == grants[i];
      }
    }
    if Grants(init, appIdToName, key, permission) {
      var i :| 0 <= i < |init| && GrantKey(init[i], appIdToName) == key && permission in Split(init[i].scope, " ");
      assert grants[i] == init[i];
    }
  }

  /** Under each key the merged map holds the union of the scopes of all the
      grants merged under it. */
  lemma {:induction false} MergedIsUnion(
    grants: seq<GrantValues>, appIdToName: map<string, Option<string>>, key: string, permission: string)
    requires key in Merged(grants, appIdToName)
    ensures permission in Merged(grants, appIdToName)[key] <==> Grants(grants, appIdToName, key, permission)
  {
    var init := grants[..|grants| - 1];
    var last := grants[|grants| - 1];
    var m := Merged(init, appIdToName);
    var permissionsSet := ScopeSet(last.scope);
    assert Merged(grants, appIdToName) == MergeStep(m, GrantKey(last, appIdToName), permissionsSet);
    GrantsStep(grants, appIdToName, key, permission);
    if key != GrantKey(last, appIdToName) {
      assert Merged(grants, appIdToName)[key] == m[key];
      MergedIsUnion(init, appIdToName, key, permission);
    } else if key in m {
      assert Merged(grants, appIdToName)[key] == Distinct(m[key] + permissionsSet);
      MergedIsUnion(init, appIdToName, key, permission);
      DistinctMembers(m[key] + permissionsSet, permission);
      DistinctMembers(Split(last.scope, " "), permission);
    } else {
      assert Merged(grants, appIdToName)[key] == permissionsSet;
      MergedKeys(init, appIdToName, key);
      DistinctMembers(Split(last.scope, " "), permission);
      assert !Grants(init, appIdToName, key, permission);
    }
  }

  /** The batches the graph sink posts for one grant. The client id is never
      null here, so the builder does not throw. */
  function GrantBatches(grant: GrantValues, appIdToName: map<string, Option<string>>): GraphImport.Batches {
    GraphImport.ApplicationBatches(
      AppDisplayName(grant, appIdToName), Some(grant.appId), ScopeSet(grant.scope), grant.principalId).value
  }

  function GrantVertexBatches(grants: seq<GrantValues>, appIdToName: map<string, Option<string>>)
    : seq<seq<GraphImport.Vertex>>
  {
    if grants == [] then []
    else
      GrantVertexBatches(grants[..|grants| - 1], appIdToName)
        + [GrantBatches(grants[|grants| - 1], appIdToName).vertices]
  }

  function GrantEdgeBatches(grants: seq<GrantValues>, appIdToName: map<string, Option<string>>)
    : seq<seq<GraphImport.Edge>>
  {
    if grants == [] then []
    else
      GrantEdgeBatches(grants[..|grants| - 1], appIdToName)
        + [GrantBatches(grants[|grants| - 1], appIdToName).edges]
  }

  /** The body of the `ForEach` over the grants once a grant is read: the
      `CreateOrUpdate` call and, with the graph option on, the
      application's vertex and edges. */
  method MergeGrant(
    appIdToPermissionsSetDictionary: UtilsExtensions.Dictionary<string, seq<string>>, blocks: GraphImport.ImportBlocks,
    grant: GrantValues, appIdToName: map<string, Option<string>>, isCosmosDbGraphEnabled: bool)
    modifies appIdToPermissionsSetDictionary, blocks
    ensures appIdToPermissionsSetDictionary.entries == MergeStep(
      old(appIdToPermissionsSetDictionary.entries), GrantKey(grant, appIdToName), ScopeSet(grant.scope))
    ensures blocks.vertexBatches == old(blocks.vertexBatches)
      + (if isCosmosDbGraphEnabled then [GrantBatches(grant, appIdToName).vertices] else [])
    ensures blocks.edgeBatches == old(blocks.edgeBatches)
      + (if isCosmosDbGraphEnabled then [GrantBatches(grant, appIdToName).edges] else [])
  {
    var permissionsSet := ScopeSet(grant.scope);
    var appDisplayName := AppDisplayName(grant, appIdToName);
    appIdToPermissionsSetDictionary.CreateOrUpdate(
      appDisplayName.GetOr(grant.appId),
      () => permissionsSet,
      stored => Distinct(stored + permissionsSet));
    if isCosmosDbGraphEnabled {
      var posted := GraphImport.Applications(blocks, appDisplayName, Some(grant.appId), permissionsSet,
        grant.principalId);
    }
  }

  /** What one more grant adds to the merged map and to the posted batches. */
  lemma GrantStep(grants: seq<GrantValues>, grant: GrantValues, appIdToName: map<string, Option<string>>)
    ensures Merged(grants + [grant], appIdToName)
      == MergeStep(Merged(grants, appIdToName), GrantKey(grant, appIdToName), ScopeSet(grant.scope))
    ensures GrantVertexBatches(grants + [grant], appIdToName)
      == GrantVertexBatches(grants, appIdToName) + [GrantBatches(grant, appIdToName).vertices]
    ensures GrantEdgeBatches(grants + [grant], appIdToName)
      == GrantEdgeBatches(grants, appIdToName) + [GrantBatches(grant, appIdToName).edges]
  {
    assert (grants + [grant])[..|grants|] == grants;
  }

  /** The `ForEach` over the grants, once the name map is built: the grants
      before the first that throws are merged and posted, and that grant's
      exception ends the loop. */
  method MergeGrants(
    blocks: GraphImport.ImportBlocks, grants: seq<Graph.PermissionGrant>, appIdToName: map<string, Option<string>>,
    isCosmosDbGraphEnabled: bool)
    returns (merged: Result<map<string, seq<string>>>)
    modifies blocks
    ensures var read := ReadUntilFault(grants);
      && merged == (if read.1.Some? then Throws(read.1.value) else Ok(Merged(read.0, appIdToName)))
      && blocks.vertexBatches == old(blocks.vertexBatches)
           + (if isCosmosDbGraphEnabled then GrantVertexBatches(read.0, appIdToName) else [])
      && blocks.edgeBatches == old(blocks.edgeBatches)
           + (if isCosmosDbGraphEnabled then GrantEdgeBatches(read.0, appIdToName) else [])
  {
    var appIdToPermissionsSetDictionary := new UtilsExtensions.Dictionary<string, seq<string>>();
    ghost var read: seq<GrantValues> := [];
    var i := 0;
    while i < |grants|
      invariant 0 <= i <= |grants|
      invariant ReadUntilFault(grants[..i]) == (read, None)
      invariant appIdToPermissionsSetDictionary.entries == Merged(read, appIdToName)
      invariant blocks.vertexBatches == old(blocks.vertexBatches)
        + (if isCosmosDbGraphEnabled then GrantVertexBatches(read, appIdToName) else [])
      invariant blocks.edgeBatches == old(blocks.edgeBatches)
        + (if isCosmosDbGraphEnabled then GrantEdgeBatches(read, appIdToName) else [])
    {
      ReadStep(grants, i);
      var values := ReadGrant(grants[i]);
      if values.Throws? {
        ReadFaultStays(grants, i + 1);
        return Throws(values.error);
      }
      var grant := values.value;
      GrantStep(read, grant, appIdToName);
      MergeGrant(appIdToPermissionsSetDictionary, blocks, grant, appIdToName, isCosmosDbGraphEnabled);
      if isCosmosDbGraphEnabled {
        AppendAssociates(old(blocks.vertexBatches), GrantVertexBatches(read, appIdToName),
          [GrantBatches(grant, appIdToName).vertices]);
        AppendAssociates(old(blocks.edgeBatches), GrantEdgeBatches(read, appIdToName),
          [GrantBatches(grant, appIdToName).edges]);
      }
      read := read + [grant];
      i := i + 1;
    }
    assert grants[..i] == grants;
    return Ok(appIdToPermissionsSetDictionary.entries);
  }

  /** `AppSignIns`: the name map first (a null or repeated service principal
      id ends the phase before anything is posted), then per grant the merge
      and, with the graph option on, the application's batches, up to the
      first grant that throws. The merged map is a local of the source that
      nothing reads afterwards; it is handed back here. */
  method AppSignIns(
    blocks: GraphImport.ImportBlocks, grants: seq<Graph.PermissionGrant>,
    servicePrincipals: seq<Graph.ServicePrincipal>, isCosmosDbGraphEnabled: bool)
    returns (r: Result<map<string, seq<string>>>)
    modifies blocks
    ensures var names := Orchestration.AddAll(DisplayNameEntries(servicePrincipals));
      && (names.Throws? ==>
            && r == Throws(names.error)
            && blocks.vertexBatches == old(blocks.vertexBatches) && blocks.edgeBatches == old(blocks.edgeBatches))
      && (names.Ok? ==>
            var read := ReadUntilFault(grants);
            && r == (if read.1.Some? then Throws(read.1.value) else Ok(Merged(read.0, names.value)))
            && blocks.vertexBatches == old(blocks.vertexBatches)
                 + (if isCosmosDbGraphEnabled then GrantVertexBatches(read.0, names.value) else [])
            && blocks.edgeBatches == old(blocks.edgeBatches)
                 + (if isCosmosDbGraphEnabled then GrantEdgeBatches(read.0, names.value) else []))
  {
    var appIdToName := AppIdToName(servicePrincipals);
    if appIdToName.Throws? {
      return Throws(appIdToName.error);
    }
    r := MergeGrants(blocks, grants, appIdToName.value, isCosmosDbGraphEnabled);
  }

  // ---------------------------------------------------------------------
  // The user phase

  /** `records` stands for `users` one to one: each is the user record of
      the user's upper-cased display name and its three properties. */
  predicate Describe(records: seq<BloodHound.JsonBase>, users: seq<Graph.User>)
    reads set j | 0 <= j < |records| && records[j].UserRecord? :: records[j].user
  {
    && |records| == |users|
    && forall j :: 0 <= j < |records| ==>
         && records[j].UserRecord?
         && users[j].displayName.Some?
         && records[j].user.name == Some(Upper(users[j].displayName.value))
         && records[j].user.properties
           == map["Id" := Some(users[j].id), "UserPrincipalName" := users[j].userPrincipalName, "Mail" := users[j].mail]
  }

  lemma DescribeAppend(
    records: seq<BloodHound.JsonBase>, users: seq<Graph.User>, record: BloodHound.JsonBase, user: Graph.User)
    requires Describe(records, users) && Describe([record], [user])
    ensures Describe(records + [record], users + [user])
  {
  }

  /** Both sinks' part of one user with a display name: the output queue
      refuses the record, and the phase ends, when records were left in it. */
  method PostUser(
    helper: BloodHoundHelpers.BloodHoundHelper, blocks: GraphImport.ImportBlocks, user: Graph.User,
    isCosmosDbGraphEnabled: bool)
    returns (record: Option<BloodHound.JsonBase>)
    requires helper.Valid() && user.displayName.Some?
    modifies helper, blocks
    ensures helper.Valid()
    ensures record.None? <==> BloodHoundHelpers.LeftOver(helper.folder, old(helper.queues[BloodHoundHelpers.UsersOutput]))
    ensures record.None? ==>
      && helper.queues == old(helper.queues) && helper.replaced == old(helper.replaced)
      && blocks.vertexBatches == old(blocks.vertexBatches) && blocks.edgeBatches == old(blocks.edgeBatches)
    ensures record.Some? ==>
      var q := BloodHoundHelpers.Renewed(helper.folder, old(helper.queues[BloodHoundHelpers.UsersOutput]));
      && helper.queues == old(helper.queues)[BloodHoundHelpers.UsersOutput := q.(items := q.items + [record.value])]
      && helper.replaced == old(helper.replaced)
           + Orchestration.SwappedOut(helper.folder, old(helper.queues[BloodHoundHelpers.UsersOutput]), BloodHoundHelpers.UsersOutput, true)
      && record.value.UserRecord? && fresh(record.value.user) && Describe([record.value], [user])
      && blocks.vertexBatches == old(blocks.vertexBatches)
           + (if isCosmosDbGraphEnabled then [[GraphImport.UserVertex(user)]] else [])
      && blocks.edgeBatches == old(blocks.edgeBatches)
  {
    var o := helper.Users(user);
    if o.Fail? {
      return None;
    }
    record := Some(helper.queues[BloodHoundHelpers.UsersOutput].items[|helper.queues[BloodHoundHelpers.UsersOutput].items| - 1]);
    if isCosmosDbGraphEnabled {
      GraphImport.Users(blocks, user);
    }
  }

  /** One vertex batch per user, in order. */
  function UserVertexBatches(users: seq<Graph.User>): (r: seq<seq<GraphImport.Vertex>>)
    ensures |r| == |users|
    ensures forall j :: 0 <= j < |users| ==> r[j] == [GraphImport.UserVertex(users[j])]
  {
    seq(|users|, j requires 0 <= j < |users| => [GraphImport.UserVertex(users[j])])
  }
  lemma UserVertexBatchesAppend(users: seq<Graph.User>, user: Graph.User)
    ensures UserVertexBatches(users + [user]) == UserVertexBatches(users) + [[GraphImport.UserVertex(user)]]
  {
  }


  /** Posting the named users is posting one vertex per user that passes the
      display-name filter. */
  lemma {:induction false} NamedUserVerticesAreFiltered(users: seq<Graph.User>)
    ensures GraphService.NamedUserVertices(users) == UserVertexBatches(Where(users, GraphService.HasDisplayName))
  {
    if users != [] {
      var init := users[..|users| - 1];
      var last := users[|users| - 1];
      NamedUserVerticesAreFiltered(init);
      assert users == init + [last];
      WhereAppend(init, [last], GraphService.HasDisplayName);
      assert Where([last], GraphService.HasDisplayName) == if GraphService.HasDisplayName(last) then [last] else [] by {
        assert [last][1..] == [];
      }
    }
  }

  /** `Users`: every user with a display name goes to the output sink and,
      with the graph option on, to the graph sink; the others go nowhere. A
      users queue that refuses the first record ends the phase before
      anything is sent. */
  method Users(
    helper: BloodHoundHelpers.BloodHoundHelper, blocks: GraphImport.ImportBlocks,
    users: seq<Graph.User>, isCosmosDbGraphEnabled: bool)
    returns (records: seq<BloodHound.JsonBase>)
    requires helper.Valid()
    modifies helper, blocks
    ensures helper.Valid()
    ensures var named := Where(users, GraphService.HasDisplayName);
      named != [] && BloodHoundHelpers.LeftOver(helper.folder, old(helper.queues[BloodHoundHelpers.UsersOutput])) ==>
      && records == []
      && helper.queues == old(helper.queues) && helper.replaced == old(helper.replaced)
      && blocks.vertexBatches == old(blocks.vertexBatches) && blocks.edgeBatches == old(blocks.edgeBatches)
    ensures var named := Where(users, GraphService.HasDisplayName);
      !(named != [] && BloodHoundHelpers.LeftOver(helper.folder, old(helper.queues[BloodHoundHelpers.UsersOutput]))) ==>
      && Describe(records, named)
      && helper.queues == old(helper.queues)[BloodHoundHelpers.UsersOutput :=
           Orchestration.Appended(helper.folder, old(helper.queues[BloodHoundHelpers.UsersOutput]), records)]
      && helper.replaced == old(helper.replaced)
           + Orchestration.SwappedOut(helper.folder, old(helper.queues[BloodHoundHelpers.UsersOutput]), BloodHoundHelpers.UsersOutput, named != [])
      && blocks.vertexBatches == old(blocks.vertexBatches)
           + (if isCosmosDbGraphEnabled then GraphService.NamedUserVertices(users) else [])
      && blocks.edgeBatches == old(blocks.edgeBatches)
  {
    ghost var q0 := helper.queues[BloodHoundHelpers.UsersOutput];
    var named := Where(users, GraphService.HasDisplayName);
    records := [];
    var i := 0;
    while i < |named|
      invariant 0 <= i <= |named|
      invariant helper.Valid()
      invariant |records| == i
      invariant i > 0 ==> !BloodHoundHelpers.LeftOver(helper.folder, q0)
      invariant Describe(records, named[..i])
      invariant helper.queues == old(helper.queues)[BloodHoundHelpers.UsersOutput := Orchestration.Appended(helper.folder, q0, records)]
      invariant helper.replaced == old(helper.replaced) + Orchestration.SwappedOut(helper.folder, q0, BloodHoundHelpers.UsersOutput, records != [])
      invariant blocks.vertexBatches == old(blocks.vertexBatches)
        + (if isCosmosDbGraphEnabled then UserVertexBatches(named[..i]) else [])
      invariant blocks.edgeBatches == old(blocks.edgeBatches)
    {
      var user := named[i];
      assert named[..i + 1] == named[..i] + [user];
      UserVertexBatchesAppend(named[..i], user);
      var added := PostUser(helper, blocks, user, isCosmosDbGraphEnabled);
      if added.None? {
        return;
      }
      UpdateOverwrites(old(helper.queues), BloodHoundHelpers.UsersOutput, Orchestration.Appended(helper.folder, q0, records),
        helper.queues[BloodHoundHelpers.UsersOutput]);
      AppendAssociates(old(helper.replaced), Orchestration.SwappedOut(helper.folder, q0, BloodHoundHelpers.UsersOutput, records != []),
        Orchestration.SwappedOut(helper.folder, Orchestration.Appended(helper.folder, q0, records), BloodHoundHelpers.UsersOutput, true));
      assert Orchestration.SwappedOut(helper.folder, q0, BloodHoundHelpers.UsersOutput, records != [])
        + Orchestration.SwappedOut(helper.folder, Orchestration.Appended(helper.folder, q0, records), BloodHoundHelpers.UsersOutput, true)
        == Orchestration.SwappedOut(helper.folder, q0, BloodHoundHelpers.UsersOutput, true);
      if isCosmosDbGraphEnabled {
        AppendAssociates(old(blocks.vertexBatches), UserVertexBatches(named[..i]), [[GraphImport.UserVertex(user)]]);
      }
      DescribeAppend(records, named[..i], added.value, user);
      Orchestration.AppendedStep(helper.folder, q0, records, added.value);
      records := records + [added.value];
      i := i + 1;
    }
    assert named[..i] == named;
    NamedUserVerticesAreFiltered(users);
  }
}
