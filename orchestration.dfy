/** What the two orchestrators, Models/AzureActiveDirectory.cs and
    Models/AzureActiveDirectoryApplication.cs, do alike: the interactive
    sign-in phase, the map from device ids to device object ids, the set of
    device administrators, and the `Dictionary.Add` and `TryAdd` loops that
    fill their lookup tables. Each phase runs sequentially here, one item
    after the other, and a phase's `catch` becomes a failed result. */
module Orchestration {
  import opened Wrappers
  import opened Text
  import Graph
  import Logons
  import UtilsExtensions
  import BloodHound
  import BloodHoundHelpers
  import GraphImport
  import GroupMembers

  // ---------------------------------------------------------------------
  // The interactive sign-in phase

  const MobileAppsAndDesktopClients := "Mobile Apps and Desktop clients"
  const WindowsAzureActiveDirectory := "Windows Azure Active Directory"

  /** The three `Where` clauses: a desktop or mobile client signing in to the
      directory itself (both compared ignoring case, a null never matching),
      at a recorded time that passes `IsNotOlderThan(window)`. */
  predicate IsInteractiveSignIn(s: Graph.SignIn, window: int, now: int) {
    && s.clientAppUsed.Some? && EqualsIgnoreCase(s.clientAppUsed.value, MobileAppsAndDesktopClients)
    && s.resourceDisplayName.Some? && EqualsIgnoreCase(s.resourceDisplayName.value, WindowsAzureActiveDirectory)
    && s.createdDateTime.Some? && UtilsExtensions.IsNotOlderThan(s.createdDateTime.value, window, now)
  }

  /** The filter as a function value, for `Where`. */
  function InteractiveFilter(window: int, now: int): Graph.SignIn -> bool {
    s => IsInteractiveSignIn(s, window, now)
  }

  /** The logon the `ForEach` builds from a kept sign-in. */
  function LogonOf(s: Graph.SignIn): Result<Logons.InteractiveLogon> {
    Logons.NewInteractiveLogon(s.deviceDetail, s.location, s.userId, s.createdDateTime.GetOr(0), s.userDisplayName)
  }

  /** The list `interactiveLogOns` ends up with: one logon per kept sign-in,
      in order, or the first exception a constructor throws. */
  function KeptLogons(signIns: seq<Graph.SignIn>, window: int, now: int): Result<seq<Logons.InteractiveLogon>> {
    if signIns == [] then Ok([])
    else
      var before :- KeptLogons(signIns[..|signIns| - 1], window, now);
      var last := signIns[|signIns| - 1];
      if IsInteractiveSignIn(last, window, now) then
        var logon :- LogonOf(last);
        Ok(before + [logon])
      else Ok(before)
  }

  /** Once a constructor has thrown, the later sign-ins change nothing. */
  lemma {:induction false} KeptLogonsFailureStays(signIns: seq<Graph.SignIn>, i: nat, window: int, now: int)
    requires i <= |signIns|
    requires KeptLogons(signIns[..i], window, now).Throws?
    ensures KeptLogons(signIns, window, now) == KeptLogons(signIns[..i], window, now)
    decreases |signIns|
  {
    if i == |signIns| {
      assert signIns[..i] == signIns;
    } else {
      var init := signIns[..|signIns| - 1];
      assert init[..i] == signIns[..i];
      KeptLogonsFailureStays(init, i, window, now);
    }
  }

  /** The logons are those of the sign-ins the filter keeps, one for one and
      in order: nothing is dropped as a duplicate, since the result of
      `DistinctBy` is thrown away. The list fails exactly when a kept
      sign-in lacks its device detail or its user display name. */
  lemma {:induction false} KeptLogonsFollowFilter(signIns: seq<Graph.SignIn>, window: int, now: int)
    ensures var kept := Where(signIns, InteractiveFilter(window, now));
      var logons := KeptLogons(signIns, window, now);
      && (logons.Ok? <==> forall i :: 0 <= i < |kept| ==> LogonOf(kept[i]).Ok?)
      && (logons.Throws? ==> logons.error == NullReference)
      && (logons.Ok? ==>
            && |logons.value| == |kept|
            && forall i :: 0 <= i < |kept| ==> logons.value[i] == LogonOf(kept[i]).value)
  {
    if signIns != [] {
      var init := signIns[..|signIns| - 1];
      var last := signIns[|signIns| - 1];
      var p := InteractiveFilter(window, now);
      assert signIns == init + [last];
      WhereAppend(init, [last], p);
      assert Where([last], p) == if p(last) then [last] else [] by {
        assert [last][1..] == [];
      }
      KeptLogonsFollowFilter(init, window, now);
    }
  }

  /** The source's loop: the kept sign-ins are turned into logons one at a
      time and appended to the list. */
  method CollectLogons(signIns: seq<Graph.SignIn>, window: int, now: int)
    returns (r: Result<seq<Logons.InteractiveLogon>>)
    ensures r == KeptLogons(signIns, window, now)
  {
    var interactiveLogOns: seq<Logons.InteractiveLogon> := [];
    var i := 0;
    while i < |signIns|
      invariant 0 <= i <= |signIns|
      invariant KeptLogons(signIns[..i], window, now) == Ok(interactiveLogOns)
    {
      assert signIns[..i + 1][..i] == signIns[..i];
      if IsInteractiveSignIn(signIns[i], window, now) {
        var logon := LogonOf(signIns[i]);
        if logon.Throws? {
          KeptLogonsFailureStays(signIns, i + 1, window, now);
          return Throws(logon.error);
        }
        interactiveLogOns := interactiveLogOns + [logon.value];
      }
      i := i + 1;
    }
    assert signIns[..i] == signIns;
    return Ok(interactiveLogOns);
  }

  /** The second `Where`: only a logon with a user id, a user name and a
      device name goes to the sinks. */
  predicate CanBeSent(l: Logons.InteractiveLogon) {
    l.userId.Some? && l.userDisplayName.Some? && l.deviceDisplayName.Some?
  }

  function SessionRecord(l: Logons.InteractiveLogon): BloodHound.JsonBase {
    BloodHound.SessionRecord(BloodHound.Session(l.userDisplayName, l.deviceDisplayName))
  }

  /** The session records the output sink receives for the logons. */
  function SessionRecords(logons: seq<Logons.InteractiveLogon>): (r: seq<BloodHound.JsonBase>)
    ensures |r| == |logons|
    ensures forall i :: 0 <= i < |logons| ==> r[i] == SessionRecord(logons[i])
  {
    if logons == [] then []
    else SessionRecords(logons[..|logons| - 1]) + [SessionRecord(logons[|logons| - 1])]
  }

  /** The edge batches the graph sink posts for the logons, as long as none
      of them throws. */
  function SessionBatches(logons: seq<Logons.InteractiveLogon>, deviceObjectIdToDeviceId: map<string, string>)
    : seq<seq<GraphImport.Edge>>
  {
    if logons == [] then []
    else
      SessionBatches(logons[..|logons| - 1], deviceObjectIdToDeviceId)
        + SessionBatch(logons[|logons| - 1], deviceObjectIdToDeviceId)
  }

  /** The edge batch the graph sink posts for one logon, if any. */
  function SessionBatch(logon: Logons.InteractiveLogon, deviceObjectIdToDeviceId: map<string, string>)
    : seq<seq<GraphImport.Edge>>
  {
    var e := GraphImport.SessionEdges(logon, deviceObjectIdToDeviceId);
    if e.Ok? && e.value.Some? then [e.value.value] else []
  }

  lemma SendStep(sent: seq<Logons.InteractiveLogon>, i: nat, deviceObjectIdToDeviceId: map<string, string>)
    requires i < |sent|
    ensures SessionRecords(sent[..i + 1]) == SessionRecords(sent[..i]) + [SessionRecord(sent[i])]
    ensures SessionBatches(sent[..i + 1], deviceObjectIdToDeviceId)
      == SessionBatches(sent[..i], deviceObjectIdToDeviceId) + SessionBatch(sent[i], deviceObjectIdToDeviceId)
  {
    assert sent[..i + 1][..i] == sent[..i];
  }

  /** A queue after a builder has added the records to it one by one: it is
      renewed before the first of them, and stays open from then on unless
      records were left in it. */
  function Appended(folder: Option<string>, q: BloodHoundHelpers.OutputQueue, records: seq<BloodHound.JsonBase>)
    : (r: BloodHoundHelpers.OutputQueue)
    ensures records == [] ==> r == q
    ensures records != [] ==> r.items == BloodHoundHelpers.Renewed(folder, q).items + records
    ensures records != [] ==> (r.isAddingCompleted <==> BloodHoundHelpers.LeftOver(folder, q))
  {
    if records == [] then q
    else BloodHoundHelpers.Renewed(folder, q).(items := BloodHoundHelpers.Renewed(folder, q).items + records)
  }

  lemma AppendedStep(
    folder: Option<string>, q: BloodHoundHelpers.OutputQueue, records: seq<BloodHound.JsonBase>, r: BloodHound.JsonBase)
    requires !BloodHoundHelpers.LeftOver(folder, q)
    ensures var a := BloodHoundHelpers.Renewed(folder, Appended(folder, q, records));
      Appended(folder, q, records + [r]) == a.(items := a.items + [r])
  {
    if records != [] {
      var b := BloodHoundHelpers.Renewed(folder, q);
      assert b.items + records + [r] == b.items + (records + [r]);
    }
  }

  /** The generation a first record swaps out, when the queue was completed. */
  function SwappedOut(folder: Option<string>, q: BloodHoundHelpers.OutputQueue, c: BloodHoundHelpers.Channel, added: bool)
    : seq<BloodHoundHelpers.Generation>
  {
    if added && BloodHoundHelpers.IsCompleted(folder, q) then [BloodHoundHelpers.Generation(c, q.items)] else []
  }

  /** The second `ForEach`: each sendable logon becomes a session record and,
      when the graph option is on, a `HasSession` edge. A graph sink that
      throws ends the phase. */
  method SendToSinks(
    helper: BloodHoundHelpers.BloodHoundHelper, blocks: GraphImport.ImportBlocks,
    sent: seq<Logons.InteractiveLogon>, isCosmosDbGraphEnabled: bool, deviceObjectIdToDeviceId: map<string, string>)
    returns (o: Outcome)
    requires helper.Valid()
    modifies helper, blocks
    ensures helper.Valid()
    ensures o.Fail? <==>
      || (sent != [] && BloodHoundHelpers.LeftOver(helper.folder, old(helper.queues[BloodHoundHelpers.SignInOutput])))
      || (isCosmosDbGraphEnabled
          && exists i :: 0 <= i < |sent| && GraphImport.SessionEdges(sent[i], deviceObjectIdToDeviceId).Throws?)
    ensures sent != [] && BloodHoundHelpers.LeftOver(helper.folder, old(helper.queues[BloodHoundHelpers.SignInOutput])) ==>
      && o == Fail(InvalidOperation)
      && helper.queues == old(helper.queues) && helper.replaced == old(helper.replaced)
      && blocks.vertexBatches == old(blocks.vertexBatches) && blocks.edgeBatches == old(blocks.edgeBatches)
    ensures o.Pass? ==>
      && helper.queues == old(helper.queues)[BloodHoundHelpers.SignInOutput :=
           Appended(helper.folder, old(helper.queues[BloodHoundHelpers.SignInOutput]), SessionRecords(sent))]
      && helper.replaced == old(helper.replaced)
           + SwappedOut(helper.folder, old(helper.queues[BloodHoundHelpers.SignInOutput]), BloodHoundHelpers.SignInOutput, sent != [])
      && blocks.vertexBatches == old(blocks.vertexBatches)
      && blocks.edgeBatches == old(blocks.edgeBatches)
           + (if isCosmosDbGraphEnabled then SessionBatches(sent, deviceObjectIdToDeviceId) else [])
  {
    ghost var q0 := helper.queues[BloodHoundHelpers.SignInOutput];
    var i := 0;
    while i < |sent|
      invariant 0 <= i <= |sent|
      invariant helper.Valid()
      invariant i > 0 ==> !BloodHoundHelpers.LeftOver(helper.folder, q0)
      invariant helper.queues == old(helper.queues)[BloodHoundHelpers.SignInOutput := Appended(helper.folder, q0, SessionRecords(sent[..i]))]
      invariant helper.replaced == old(helper.replaced) + SwappedOut(helper.folder, q0, BloodHoundHelpers.SignInOutput, i > 0)
      invariant blocks.vertexBatches == old(blocks.vertexBatches)
      invariant blocks.edgeBatches == old(blocks.edgeBatches)
        + (if isCosmosDbGraphEnabled then SessionBatches(sent[..i], deviceObjectIdToDeviceId) else [])
      invariant isCosmosDbGraphEnabled ==>
        forall j :: 0 <= j < i ==> GraphImport.SessionEdges(sent[j], deviceObjectIdToDeviceId).Ok?
    {
      SendStep(sent, i, deviceObjectIdToDeviceId);
      var added := helper.InteractiveLogOns(sent[i]);
      if added.Fail? {
        return added;
      }
      AppendedStep(helper.folder, q0, SessionRecords(sent[..i]), SessionRecord(sent[i]));
      UpdateOverwrites(old(helper.queues), BloodHoundHelpers.SignInOutput, Appended(helper.folder, q0, SessionRecords(sent[..i])),
        helper.queues[BloodHoundHelpers.SignInOutput]);
      AppendAssociates(old(helper.replaced), SwappedOut(helper.folder, q0, BloodHoundHelpers.SignInOutput, i > 0),
        SwappedOut(helper.folder, Appended(helper.folder, q0, SessionRecords(sent[..i])), BloodHoundHelpers.SignInOutput, true));
      if isCosmosDbGraphEnabled {
        var e := GraphImport.InteractiveLogOns(blocks, sent[i], deviceObjectIdToDeviceId);
        if e.Throws? {
          assert 0 <= i < |sent| && GraphImport.SessionEdges(sent[i], deviceObjectIdToDeviceId).Throws?;
          return Fail(e.error);
        }
        assert forall j :: 0 <= j < i + 1 ==> GraphImport.SessionEdges(sent[j], deviceObjectIdToDeviceId).Ok?;
        AppendAssociates(old(blocks.edgeBatches), SessionBatches(sent[..i], deviceObjectIdToDeviceId),
          SessionBatch(sent[i], deviceObjectIdToDeviceId));
      }
      i := i + 1;
    }
    assert sent[..i] == sent;
    return Pass;
  }

  /** `InteractiveLogins` (and `InteractiveLogOns`): the filtered logons are
      built first, and a constructor that throws ends the phase before any
      sink sees a record; then the sendable ones go to the sinks. The phase
      returns every kept logon, the unsendable and the repeated ones
      included, or null when it caught an exception. */
  method InteractiveLogins(
    helper: BloodHoundHelpers.BloodHoundHelper, blocks: GraphImport.ImportBlocks,
    signIns: seq<Graph.SignIn>, window: int, now: int,
    isCosmosDbGraphEnabled: bool, deviceObjectIdToDeviceId: map<string, string>)
    returns (r: Option<seq<Logons.InteractiveLogon>>)
    requires helper.Valid()
    modifies helper, blocks
    ensures helper.Valid()
    ensures KeptLogons(signIns, window, now).Throws? ==>
      && r.None?
      && helper.queues == old(helper.queues) && helper.replaced == old(helper.replaced)
      && blocks.vertexBatches == old(blocks.vertexBatches) && blocks.edgeBatches == old(blocks.edgeBatches)
    ensures KeptLogons(signIns, window, now).Ok? ==>
      var sent := Where(KeptLogons(signIns, window, now).value, CanBeSent);
      && (r.None? <==>
            || (sent != [] && BloodHoundHelpers.LeftOver(helper.folder, old(helper.queues[BloodHoundHelpers.SignInOutput])))
            || (isCosmosDbGraphEnabled
                && exists i :: 0 <= i < |sent| && GraphImport.SessionEdges(sent[i], deviceObjectIdToDeviceId).Throws?))
      && (r.Some? ==>
            && r.value == KeptLogons(signIns, window, now).value
            && helper.queues == old(helper.queues)[BloodHoundHelpers.SignInOutput :=
                 Appended(helper.folder, old(helper.queues[BloodHoundHelpers.SignInOutput]), SessionRecords(sent))]
            && helper.replaced == old(helper.replaced)
                 + SwappedOut(helper.folder, old(helper.queues[BloodHoundHelpers.SignInOutput]), BloodHoundHelpers.SignInOutput, sent != [])
            && blocks.vertexBatches == old(blocks.vertexBatches)
            && blocks.edgeBatches == old(blocks.edgeBatches)
                 + (if isCosmosDbGraphEnabled then SessionBatches(sent, deviceObjectIdToDeviceId) else []))
  {
    var interactiveLogOns := CollectLogons(signIns, window, now);
    if interactiveLogOns.Throws? {
      return None;
    }
    // The result of `DistinctBy` is discarded, so the list stays as built.
    var sent := Where(interactiveLogOns.value, CanBeSent);
    var o := SendToSinks(helper, blocks, sent, isCosmosDbGraphEnabled, deviceObjectIdToDeviceId);
    assert sent == Where(KeptLogons(signIns, window, now).value, CanBeSent);
    if o.Fail? {
      return None;
    }
    return Some(interactiveLogOns.value);
  }

  /** A wider window keeps every sign-in a narrower one keeps. */
  lemma WiderWindowKeepsMore(s: Graph.SignIn, narrow: int, wide: int, now: int)
    requires narrow <= wide
    ensures IsInteractiveSignIn(s, narrow, now) ==> IsInteractiveSignIn(s, wide, now)
  {
  }

  // ---------------------------------------------------------------------
  // The device id map

  /** `_deviceObjectIdToDeviceId` and how its filling ended. */
  datatype Registration = Registration(entries: map<string, string>, outcome: Outcome)

  /** The device phase's `Where` and `Dictionary.Add`: a device without a
      display name is skipped; every other one maps its device id to its
      object id. A null device id throws `ArgumentNullException`, a device
      id already present `ArgumentException`, and nothing is added after
      that. */
  function Registered(devices: seq<Graph.Device>, entries: map<string, string>): Registration {
    if devices == [] then Registration(entries, Pass)
    else
      var before := Registered(devices[..|devices| - 1], entries);
      var d := devices[|devices| - 1];
      if before.outcome.Fail? || d.displayName.None? then before
      else if d.deviceId.None? then Registration(before.entries, Fail(ArgumentNull))
      else if d.deviceId.value in before.entries then Registration(before.entries, Fail(DuplicateKey))
      else Registration(before.entries[d.deviceId.value := d.id], Pass)
  }

  lemma {:induction false} RegisteredFailureStays(devices: seq<Graph.Device>, i: nat, entries: map<string, string>)
    requires i <= |devices|
    requires Registered(devices[..i], entries).outcome.Fail?
    ensures Registered(devices, entries) == Registered(devices[..i], entries)
    decreases |devices|
  {
    if i == |devices| {
      assert devices[..i] == devices;
    } else {
      var init := devices[..|devices| - 1];
      assert init[..i] == devices[..i];
      RegisteredFailureStays(init, i, entries);
    }
  }

  predicate Listed(d: Graph.Device) {
    d.displayName.Some?
  }

  /** Starting from an empty map, filling succeeds exactly when every listed
      device has a device id and no two listed devices share one. */
  lemma {:induction false} RegistrationSucceeds(devices: seq<Graph.Device>)
    ensures Registered(devices, map[]).outcome.Pass? <==>
      && (forall i :: 0 <= i < |devices| && Listed(devices[i]) ==> devices[i].deviceId.Some?)
      && (forall i, j :: 0 <= i < j < |devices| && Listed(devices[i]) && Listed(devices[j]) ==>
            devices[i].deviceId != devices[j].deviceId)
    ensures Registered(devices, map[]).outcome.Pass? ==>
      && (forall i :: 0 <= i < |devices| && Listed(devices[i]) ==>
            devices[i].deviceId.value in Registered(devices, map[]).entries)
      && (forall k :: k in Registered(devices, map[]).entries ==>
            exists i :: 0 <= i < |devices| && Listed(devices[i]) && devices[i].deviceId == Some(k))
    ensures Registered(devices, map[]).outcome.Fail? ==> Registered(devices, map[]).outcome.error in {ArgumentNull, DuplicateKey}
  {
    if devices != [] {
      var init := devices[..|devices| - 1];
      var d := devices[|devices| - 1];
      RegistrationSucceeds(init);
      var before := Registered(init, map[]);
      assert forall i :: 0 <= i < |init| ==> init[i] == devices[i];
      if before.outcome.Pass? && Listed(d) && d.deviceId.Some? && d.deviceId.value in before.entries {
        var i :| 0 <= i < |init| && Listed(init[i]) && init[i].deviceId == Some(d.deviceId.value);
        assert devices[i].deviceId == devices[|devices| - 1].deviceId;
      }
    }
  }

  /** Every listed device maps its device id to its own object id. */
  lemma {:induction false} RegisteredValues(devices: seq<Graph.Device>)
    requires Registered(devices, map[]).outcome.Pass?
    ensures forall i :: 0 <= i < |devices| && Listed(devices[i]) ==>
      && devices[i].deviceId.Some? && devices[i].deviceId.value in Registered(devices, map[]).entries
      && Registered(devices, map[]).entries[devices[i].deviceId.value] == devices[i].id
  {
    if devices != [] {
      var init := devices[..|devices| - 1];
      RegisteredValues(init);
      assert forall i :: 0 <= i < |init| ==> init[i] == devices[i];
    }
  }

  /** The device phase filling the map, one device at a time. */
  method RegisterDevices(deviceObjectIdToDeviceId: UtilsExtensions.Dictionary<string, string>, devices: seq<Graph.Device>)
    returns (o: Outcome)
    modifies deviceObjectIdToDeviceId
    ensures deviceObjectIdToDeviceId.entries == Registered(devices, old(deviceObjectIdToDeviceId.entries)).entries
    ensures o == Registered(devices, old(deviceObjectIdToDeviceId.entries)).outcome
  {
    ghost var start := deviceObjectIdToDeviceId.entries;
    var i := 0;
    while i < |devices|
      invariant 0 <= i <= |devices|
      invariant Registered(devices[..i], start) == Registration(deviceObjectIdToDeviceId.entries, Pass)
    {
      assert devices[..i + 1][..i] == devices[..i];
      var d := devices[i];
      if d.displayName.Some? {
        if d.deviceId.None? {
          RegisteredFailureStays(devices, i + 1, start);
          return Fail(ArgumentNull);
        }
        o := deviceObjectIdToDeviceId.Add(d.deviceId.value, d.id);
        if o.Fail? {
          RegisteredFailureStays(devices, i + 1, start);
          return;
        }
      }
      i := i + 1;
    }
    assert devices[..i] == devices;
    return Pass;
  }

  // ---------------------------------------------------------------------
  // The device administrators

  predicate IsDeviceAdministratorRole(directoryRoleDisplayName: Option<string>) {
    directoryRoleDisplayName.Some? && directoryRoleDisplayName.value in Graph.DeviceOwnerGroupDisplayNames
  }

  /** `members.Select(__ => __.Id)` as a set. */
  function MemberIds(members: seq<GroupMembers.GroupMember>): (r: set<Option<string>>)
    reads members
    ensures forall i :: 0 <= i < |members| ==> members[i].id in r
    ensures forall x :: x in r ==> exists i :: 0 <= i < |members| && members[i].id == x
  {
    set i | 0 <= i < |members| :: members[i].id
  }

  /** The administrators after one role: the role's member ids are added when
      it is one of the two device owner roles, and the set is kept as it is
      otherwise. */
  function WithDeviceAdministrators(
    directoryRoleDisplayName: Option<string>, ids: set<Option<string>>, administrators: set<Option<string>>)
    : (r: set<Option<string>>)
    ensures administrators <= r
    ensures IsDeviceAdministratorRole(directoryRoleDisplayName) ==> ids <= r && r - administrators <= ids
    ensures !IsDeviceAdministratorRole(directoryRoleDisplayName) ==> r == administrators
  {
    if IsDeviceAdministratorRole(directoryRoleDisplayName) then administrators + ids else administrators
  }

  /** The roles can be taken in any order: the union does not depend on it,
      which is why the phase's fan-out over roles is sequential here. */
  lemma DeviceAdministratorsCommute(
    name1: Option<string>, ids1: set<Option<string>>, name2: Option<string>, ids2: set<Option<string>>,
    administrators: set<Option<string>>)
    ensures WithDeviceAdministrators(name1, ids1, WithDeviceAdministrators(name2, ids2, administrators))
      == WithDeviceAdministrators(name2, ids2, WithDeviceAdministrators(name1, ids1, administrators))
  {
  }

  /** `GetDeviceAdministratorsIds`: `UnionWith` on the caller's set, which is
      passed in and handed back. */
  method GetDeviceAdministratorsIds(
    directoryRoleDisplayName: Option<string>, members: seq<GroupMembers.GroupMember>,
    administrators: set<Option<string>>)
    returns (r: set<Option<string>>)
    ensures IsDeviceAdministratorRole(directoryRoleDisplayName) ==> r == administrators + MemberIds(members)
    ensures !IsDeviceAdministratorRole(directoryRoleDisplayName) ==> r == administrators
  {
    r := administrators;
    if IsDeviceAdministratorRole(directoryRoleDisplayName) {
      r := r + MemberIds(members);
    }
  }

  // ---------------------------------------------------------------------
  // Dictionary loops

  /** A loop that computes one entry per item and stops at the first item
      whose computation throws. */
  function Collected<A, B>(xs: seq<A>, f: A -> Result<B>): (r: Result<seq<B>>)
    ensures r.Ok? <==> forall i :: 0 <= i < |xs| ==> f(xs[i]).Ok?
    ensures r.Ok? ==> |r.value| == |xs| && forall i :: 0 <= i < |xs| ==> r.value[i] == f(xs[i]).value
    ensures r.Throws? ==>
      exists i :: 0 <= i < |xs| && f(xs[i]) == Throws(r.error) && forall j :: 0 <= j < i ==> f(xs[j]).Ok?
  {
    if xs == [] then Ok([])
    else
      var init := xs[..|xs| - 1];
      assert forall i :: 0 <= i < |init| ==> init[i] == xs[i];
      var before :- Collected(init, f);
      var last :- f(xs[|xs| - 1]);
      Ok(before + [last])
  }

  lemma {:induction false} CollectedFailureStays<A, B>(xs: seq<A>, i: nat, f: A -> Result<B>)
    requires i <= |xs|
    requires Collected(xs[..i], f).Throws?
    ensures Collected(xs, f) == Collected(xs[..i], f)
    decreases |xs|
  {
    if i == |xs| {
      assert xs[..i] == xs;
    } else {
      var init := xs[..|xs| - 1];
      assert init[..i] == xs[..i];
      CollectedFailureStays(init, i, f);
    }
  }

  /** One more item: its entry is appended, or its failure is the result. */
  lemma CollectedStep<A, B>(xs: seq<A>, i: nat, f: A -> Result<B>)
    requires i < |xs| && Collected(xs[..i], f).Ok?
    ensures Collected(xs[..i + 1], f) ==
      if f(xs[i]).Ok? then Ok(Collected(xs[..i], f).value + [f(xs[i]).value]) else Throws(f(xs[i]).error)
  {
    assert xs[..i + 1][..i] == xs[..i];
  }

  /** A loop of `Dictionary.Add` over the pairs: a null key throws
      ArgumentNull, and the first key seen twice throws DuplicateKey. */
  function AddAll<V>(pairs: seq<(Option<string>, V)>): Result<map<string, V>> {
    if pairs == [] then Ok(map[])
    else
      var m :- AddAll(pairs[..|pairs| - 1]);
      var last := pairs[|pairs| - 1];
      if last.0.None? then Throws(ArgumentNull)
      else if last.0.value in m then Throws(DuplicateKey)
      else Ok(m[last.0.value := last.1])
  }

  /** One more pair after a successful prefix: a null key or a key already
      stored throws. */
  lemma AddAllStep<V>(pairs: seq<(Option<string>, V)>, last: (Option<string>, V))
    requires AddAll(pairs).Ok?
    ensures AddAll(pairs + [last]) ==
      if last.0.None? then Throws(ArgumentNull)
      else if last.0.value in AddAll(pairs).value then Throws(DuplicateKey)
      else Ok(AddAll(pairs).value[last.0.value := last.1])
  {
    assert (pairs + [last])[..|pairs|] == pairs;
  }

  /** The loop succeeds exactly when no key is null and the keys are
      distinct, and then maps every key to its own value. A null key throws
      only where there is one, and a duplicate only where a key repeats. */
  lemma {:induction false} AddAllSucceeds<V>(pairs: seq<(Option<string>, V)>)
    ensures AddAll(pairs).Ok? <==>
      && (forall i :: 0 <= i < |pairs| ==> pairs[i].0.Some?)
      && (forall i, j :: 0 <= i < j < |pairs| ==> pairs[i].0 != pairs[j].0)
    ensures AddAll(pairs) == Throws(ArgumentNull) ==> exists i :: 0 <= i < |pairs| && pairs[i].0.None?
    ensures AddAll(pairs) == Throws(DuplicateKey) ==>
      exists i, j :: 0 <= i < j < |pairs| && pairs[i].0.Some? && pairs[i].0 == pairs[j].0
    ensures AddAll(pairs).Throws? ==> AddAll(pairs).error in {ArgumentNull, DuplicateKey}
    ensures AddAll(pairs).Ok? ==>
      && (forall k :: k in AddAll(pairs).value <==> exists i :: 0 <= i < |pairs| && pairs[i].0 == Some(k))
      && (forall i :: 0 <= i < |pairs| ==> AddAll(pairs).value[pairs[i].0.value] == pairs[i].1)
  {
    if pairs != [] {
      var init := pairs[..|pairs| - 1];
      var last := pairs[|pairs| - 1];
      AddAllSucceeds(init);
      assert forall i :: 0 <= i < |init| ==> init[i] == pairs[i];
      if AddAll(init).Ok? && last.0.Some? && last.0.value in AddAll(init).value {
        var i :| 0 <= i < |init| && init[i].0 == last.0;
        assert pairs[i].0 == pairs[|pairs| - 1].0;
      }
    }
  }

  /** A successful loop stores one entry per pair. */
  lemma {:induction false} AddAllSize<V>(pairs: seq<(Option<string>, V)>)
    requires AddAll(pairs).Ok?
    ensures |AddAll(pairs).value| == |pairs|
  {
    if pairs != [] {
      AddAllSize(pairs[..|pairs| - 1]);
    }
  }

  lemma {:induction false} AddAllFailureStays<V>(pairs: seq<(Option<string>, V)>, i: nat)
    requires i <= |pairs|
    requires AddAll(pairs[..i]).Throws?
    ensures AddAll(pairs) == AddAll(pairs[..i])
    decreases |pairs|
  {
    if i == |pairs| {
      assert pairs[..i] == pairs;
    } else {
      var init := pairs[..|pairs| - 1];
      assert init[..i] == pairs[..i];
      AddAllFailureStays(init, i);
    }
  }

  /** A loop of `Dictionary.TryAdd` over the pairs: the first value stored
      under a key stays. */
  function FirstWins<V>(pairs: seq<(string, V)>): map<string, V> {
    if pairs == [] then map[]
    else
      var m := FirstWins(pairs[..|pairs| - 1]);
      var last := pairs[|pairs| - 1];
      if last.0 in m then m else m[last.0 := last.1]
  }

  /** One more pair: it is added unless its key is already there. */
  lemma FirstWinsStep<V>(pairs: seq<(string, V)>, last: (string, V))
    ensures FirstWins(pairs + [last]) ==
      if last.0 in FirstWins(pairs) then FirstWins(pairs) else FirstWins(pairs)[last.0 := last.1]
  {
    assert (pairs + [last])[..|pairs|] == pairs;
  }

  /** The keys are the keys of the pairs, and each holds the value of its
      first pair. */
  lemma {:induction false} FirstWinsKeeps<V>(pairs: seq<(string, V)>)
    ensures forall k :: k in FirstWins(pairs) <==> exists i :: 0 <= i < |pairs| && pairs[i].0 == k
    ensures forall i :: 0 <= i < |pairs| && (forall j :: 0 <= j < i ==> pairs[j].0 != pairs[i].0) ==>
      FirstWins(pairs)[pairs[i].0] == pairs[i].1
  {
    if pairs != [] {
      var init := pairs[..|pairs| - 1];
      FirstWinsKeeps(init);
      assert forall i :: 0 <= i < |init| ==> init[i] == pairs[i];
    }
  }
}
