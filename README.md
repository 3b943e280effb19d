# AzureADLateralMovement: a Dafny model of the normalisation layer

AzureADLateralMovement reads an Azure Active Directory tenant through Microsoft
Graph: users, groups, directory roles, devices, domains, sign-ins, permission
grants and service principals. It turns them into two outputs:

* BloodHound-style JSON files, one per entity kind, written by background
  writer tasks that drain blocking queues;
* vertices and edges of an attack-path graph, posted to the bulk-import blocks
  of a Cosmos DB graph database.

This project models the layer between the Graph reads and those two outputs,
and proves what each step promises. The layer covers:

* the paged reads;
* the interactive-logon filter;
* the lookup tables the orchestrators build;
* the upper-casing and title-casing of names;
* the BloodHound records and their equality;
* the output-queue helper and the file writer;
* the graph vertex and edge builders;
* the throttled application state;
* the scope list and the sign-in error redirect of the start-up class.

## How the model is built

**Dafny modules.** There is one module per source file, named after it, plus
four shared modules (`Text`, `Orchestration`, `Graph` and `Wrappers`):

| module | source file |
|---|---|
| `Text` | string helpers: ASCII case mapping, `Split`, `Where`, `Distinct` |
| `TitleCase` | `ToTitleCase` in Models/Extensions.cs |
| `BloodHound` | the BloodHound record models |
| `GroupMembers` | Models/BloodHound/GroupMember.cs |
| `LocalMembers` | Models/BloodHound/LocalMember.cs |
| `Logons` | Models/InteractiveLogon.cs |
| `UtilsExtensions` | Utils/Extensions.cs |
| `OutputWriter` | the file writer in Models/Extensions.cs |
| `BloodHoundHelpers` | Utils/BloodHoundHelper.cs |
| `GraphImport` | Utils/CosmosDbGraphHelper.cs |
| `GraphService` | Helpers/GraphServiceHelper.cs |
| `ApplicationStates` | Utils/ApplicationStateExtension.cs |
| `Startup` | App_Start/Startup.cs |
| `AzureActiveDirectory` | Models/AzureActiveDirectory.cs |
| `AzureActiveDirectoryApplication` | Models/AzureActiveDirectoryApplication.cs |
| `Orchestration` | what the two orchestrators share |
| `Graph` | plain datatypes for the Microsoft Graph entities |
| `Wrappers` | `Option` for null; `Result` and `Outcome` for a thrown exception, named after its .NET type |

**Entities that the source updates in place are classes:**

* the BloodHound user, group, directory role and application records, and the
  group and local members, whose property setters upper-case or title-case;
* the queue helper, holding its six queues;
* the import blocks, holding the batches posted to them;
* the `Dictionary` wrapper used by the `Add`, `TryAdd` and `CreateOrUpdate`
  loops;
* the application state.

**Loops of the source are methods with loops.** Each is proved against a
specification function. Examples:

* the writer's `foreach` against `Run`, a left fold of `Consume`;
* each pagination loop against `Requests` and `Items`;
* each `ForEach` of an orchestrator against the function giving the records,
  batches or map it produces.

**Time is a parameter**, in whole minutes.

**`ToUpper` and `ToLower` are ASCII-only.**

**Partition keys are left uncomputed.** A partition key is a hash code. The
model keeps `HashCode(s)`, naming the string that is hashed, and does not
compute it.

### Behaviour modelled as written

These points look unintended, but they are what the code does, and the model
keeps them:

* **The `Granted` edge runs backwards.** In `CosmosDbGraphHelper.Applications`,
  the edge id is principal + application. The out vertex, however, is the
  application and the in vertex is the principal. The labels still say "User"
  to "Application".
* **The fallback branch swaps two ids.** In `AzureActiveDirectory.ServicePrincipals`,
  a principal found only in the grant map gets a call that passes its object
  id as the application id, and its application id as the object id.
* **Duplicate logons are not removed.** Both sign-in phases discard the result
  of `DistinctBy`. Every kept logon is returned and sent, repeats included.
* **`IsNotOlderThan` tests `d - now < window`.** The documented intent is the
  age `now - d`. This model follows the code. As a result, every past time
  passes the test, and only a time at least one window in the future fails it.
* **The newer orchestrator's `UserIds` set is never filled.** The model
  holds it as the empty constant `UserIds`, and every application call it
  makes passes that empty list.
* **`AppSignIns` throws away its merged map.** The map it builds with
  `CreateOrUpdate` is not read afterwards. The model returns it so that its
  contents can be stated.
* **The grant maps keep empty permissions.** Both orchestrators build their
  client-id to permissions map by splitting the grant's scope on single
  spaces without dropping empty pieces, so a leading, trailing or doubled
  space yields the empty permission "". Only the principal-id map of the
  older orchestrator, built from the audit log, drops empty pieces.
* **`DirectoryRoleMembership` ignores the member type.** Its edges always have
  the out label "User", whatever the member's type.
* **The groups queue is created twice.** The queue helper's static constructor
  creates it and starts a writer on it twice, and the first of the two is
  dropped.

## Model

Source paths are relative to the repository root. The BloodHound record models
are in `AzureADLateralMovement/Models/BloodHound/`.

| member | source | states |
|---|---|---|
| Text.Upper | AzureADLateralMovement/Models/BloodHound/User.cs:10-14 | the upper-cased name has the same length and maps every letter to its upper case and keeps every other character |
| Text.UpperIdempotent | AzureADLateralMovement/Utils/BloodHoundHelper.cs:56-61 | upper-casing twice (`_.ToUpper()` and then the `Name` setter) equals upper-casing once |
| Text.Lower | AzureADLateralMovement/Models/Extensions.cs:22 | the lower-cased string has the same length and maps every letter to its lower case and keeps every other character |
| Text.LowerIdempotent | AzureADLateralMovement/Models/Extensions.cs:22 | lower-casing twice equals lower-casing once |
| Text.EqualsIgnoreCase | AzureAdLateralMovement/Models/AzureActiveDirectory.cs:178-181 | definition (`Equals(.., OrdinalIgnoreCase)` as equality of the upper-cased strings); its properties are in Text.EqualsIgnoreCaseOfUpper |
| Text.EqualsIgnoreCaseOfUpper | AzureAdLateralMovement/Models/AzureActiveDirectory.cs:178-181 | a string equals its upper-cased form ignoring case, in both directions, and strings equal ignoring case have the same length |
| Text.IsNullOrWhiteSpace | AzureAdLateralMovement/Helpers/GraphServiceHelper.cs:196 | definition (`string.IsNullOrWhiteSpace`: null, or only characters `char.IsWhiteSpace` accepts, the Unicode space, line and paragraph separators and the controls U+0009 to U+000D and U+0085 included); its properties are in Text.WhiteSpaceAppend, GraphService.EnsureId and OutputWriter.CreateFileStream |
| Text.WhiteSpaceAppend | AzureADLateralMovement/Models/Extensions.cs:42-51 | two strings one after the other are blank exactly when each of them is blank |
| Text.Split | AzureAdLateralMovement/Models/AzureActiveDirectory.cs:294-295 | `string.Split`: at least one piece, no piece contains the separator, and the pieces joined with the separator give the input back |
| Text.Where | AzureAdLateralMovement/Models/AzureActiveDirectory.cs:177-183 | `Enumerable.Where`: no longer than the input; every kept element satisfies the predicate and comes from the input; every input element that satisfies it is kept |
| Text.WhereAppend | AzureAdLateralMovement/Models/AzureActiveDirectory.cs:177-183 | filtering distributes over concatenation, so the kept elements keep their input order |
| Text.Distinct | AzureADLateralMovement/Models/AzureActiveDirectoryApplication.cs:213 | `ToHashSet()`: every input element appears, only input elements appear, and none appears twice |
| Text.DistinctMembers | AzureADLateralMovement/Models/AzureActiveDirectoryApplication.cs:213 | an element is in the set exactly when it is in the input |
| TitleCase.ToTitleCase | AzureADLateralMovement/Models/Extensions.cs:20-23 | null throws NullReference and "" throws ArgumentOutOfRange; otherwise the length is kept, the first character is upper-cased and every later one lower-cased |
| TitleCase.ToTitleCaseIdempotent | AzureADLateralMovement/Models/Extensions.cs:20-23 | title-casing a title-cased string changes nothing |
| TitleCase.ToTitleCaseOfTitle | AzureADLateralMovement/Models/Extensions.cs:20-23 | a string already upper-first and lower-after is its own title case |
| TitleCase.ToTitleCaseOfTags | AzureADLateralMovement/Utils/BloodHoundHelper.cs:206-220 | the type tags "User", "Group" and "Computer" survive the `MemberType` setter unchanged |
| BloodHound.User.constructor | AzureADLateralMovement/Models/BloodHound/User.cs:8-20 | a new user record has no name, no properties, no primary group, no ACEs and no delegation list |
| BloodHound.User.SetName | AzureADLateralMovement/Models/BloodHound/User.cs:10-14 | null throws and leaves the name; otherwise the name becomes the upper-cased value; no other field changes |
| BloodHound.User.SetProperties | AzureADLateralMovement/Models/BloodHound/User.cs:8 | only the properties change |
| BloodHound.User.SetPrimaryGroup | AzureADLateralMovement/Models/BloodHound/User.cs:16 | only the primary group changes |
| BloodHound.User.SetAces | AzureADLateralMovement/Models/BloodHound/User.cs:18 | only the ACEs change |
| BloodHound.User.SetAllowedToDelegate | AzureADLateralMovement/Models/BloodHound/User.cs:20 | only the delegation list changes |
| BloodHound.Group.constructor | AzureADLateralMovement/Models/BloodHound/Group.cs:8-18 | a new group record is not a directory role and is empty |
| BloodHound.Group.DirectoryRole | AzureADLateralMovement/Models/BloodHound/Group.cs:21-23 | a new directory-role record is a group marked as a directory role and is empty |
| BloodHound.Group.SetName | AzureADLateralMovement/Models/BloodHound/Group.cs:8-12 | null throws and leaves the name; otherwise the name becomes the upper-cased value; no other field changes |
| BloodHound.Group.SetProperties | AzureADLateralMovement/Models/BloodHound/Group.cs:14 | only the properties change |
| BloodHound.Group.SetAces | AzureADLateralMovement/Models/BloodHound/Group.cs:16 | only the ACEs change |
| BloodHound.Group.SetMembers | AzureADLateralMovement/Models/BloodHound/Group.cs:18 | only the members change |
| BloodHound.Application.constructor | AzureADLateralMovement/Models/BloodHound/Application.cs:8-17 | a new application record is empty |
| BloodHound.Application.SetName | AzureADLateralMovement/Models/BloodHound/Application.cs:10-14 | null throws and leaves the name; otherwise the name becomes the upper-cased value; no other field changes |
| BloodHound.Application.SetPermissions | AzureADLateralMovement/Models/BloodHound/Application.cs:16 | only the permissions change |
| BloodHound.Application.SetPrincipalId | AzureADLateralMovement/Models/BloodHound/Application.cs:17 | only the principal id changes |
| GroupMembers.GroupMember.constructor | AzureADLateralMovement/Models/BloodHound/GroupMember.cs:6-21 | a new member has no name, no type and no id |
| GroupMembers.GroupMember.SetMemberName | AzureADLateralMovement/Models/BloodHound/GroupMember.cs:8-12 | null throws and leaves the name; otherwise the name becomes the upper-cased value; type and id are unchanged |
| GroupMembers.GroupMember.SetMemberType | AzureADLateralMovement/Models/BloodHound/GroupMember.cs:14-19 | the type becomes the title-cased value, and the setter throws exactly what `ToTitleCase` throws; name and id are unchanged |
| GroupMembers.GroupMember.SetId | AzureADLateralMovement/Models/BloodHound/GroupMember.cs:21 | only the id changes |
| GroupMembers.GroupMember.Equals | AzureADLateralMovement/Models/BloodHound/GroupMember.cs:23-28 | two members are equal exactly when the other is not null and both name and type agree |
| GroupMembers.GroupMember.EqualsObject | AzureADLateralMovement/Models/BloodHound/GroupMember.cs:30-36 | an object equals a member exactly when it is a group member equal to it |
| GroupMembers.NewGroupMember | AzureADLateralMovement/Utils/BloodHoundHelper.cs:202-207 | the object initialiser succeeds exactly when the name is present and the type title-cases; the result is fresh and holds the id, the upper-cased name and the title-cased type |
| GroupMembers.EqualsReflexive | AzureADLateralMovement/Models/BloodHound/GroupMember.cs:23-36 | every member equals itself, through both overloads |
| GroupMembers.NotEqualToNull | AzureADLateralMovement/Models/BloodHound/GroupMember.cs:23-36 | no member equals null |
| GroupMembers.EqualsSymmetric | AzureADLateralMovement/Models/BloodHound/GroupMember.cs:23-28 | equality is symmetric |
| GroupMembers.EqualsTransitive | AzureADLateralMovement/Models/BloodHound/GroupMember.cs:23-28 | equality is transitive |
| GroupMembers.EqualsIgnoresId | AzureADLateralMovement/Models/BloodHound/GroupMember.cs:23-28 | members with the same name and type are equal even when their ids differ |
| GroupMembers.EqualMembersHashAlike | AzureADLateralMovement/Models/BloodHound/GroupMember.cs:38-45 | equal members have equal hash codes, for any string hash |
| GroupMembers.HashOrZero | AzureADLateralMovement/Models/BloodHound/GroupMember.cs:42-43 | definition (`s != null ? s.GetHashCode() : 0`); used by the two `GetHashCode` definitions |
| GroupMembers.CombineHashes | AzureADLateralMovement/Models/BloodHound/GroupMember.cs:40-43 | definition (`unchecked((h1 * 397) ^ h2)` on 32-bit values); used by the two `GetHashCode` definitions |
| GroupMembers.GroupMember.GetHashCode | AzureADLateralMovement/Models/BloodHound/GroupMember.cs:38-45 | definition (unchecked 32-bit `(nameHash * 397) ^ typeHash`, 0 for null); its property is in GroupMembers.EqualMembersHashAlike |
| LocalMembers.LocalMember.constructor | AzureADLateralMovement/Models/BloodHound/LocalMember.cs:8-20 | a new local member has no name and no type |
| LocalMembers.LocalMember.SetName | AzureADLateralMovement/Models/BloodHound/LocalMember.cs:10-14 | null throws and leaves the name; otherwise the name becomes the upper-cased value; the type is unchanged |
| LocalMembers.LocalMember.SetType | AzureADLateralMovement/Models/BloodHound/LocalMember.cs:16-20 | the type becomes the title-cased value, and the setter throws exactly what `ToTitleCase` throws; the name is unchanged |
| LocalMembers.LocalMember.Equals | AzureADLateralMovement/Models/BloodHound/LocalMember.cs:22-27 | two local members are equal exactly when the other is not null and type and name agree |
| LocalMembers.LocalMember.EqualsObject | AzureADLateralMovement/Models/BloodHound/LocalMember.cs:29-35 | an object equals a local member exactly when it is a local member equal to it |
| LocalMembers.NewLocalMember | AzureADLateralMovement/Utils/BloodHoundHelper.cs:109-113 | the object initialiser succeeds exactly when the name is present and the type title-cases; the result is fresh and holds the upper-cased name and the title-cased type |
| LocalMembers.EqualsReflexive | AzureADLateralMovement/Models/BloodHound/LocalMember.cs:22-35 | every local member equals itself, through both overloads |
| LocalMembers.NotEqualToNull | AzureADLateralMovement/Models/BloodHound/LocalMember.cs:22-35 | no local member equals null |
| LocalMembers.EqualsSymmetric | AzureADLateralMovement/Models/BloodHound/LocalMember.cs:22-27 | equality is symmetric |
| LocalMembers.EqualsTransitive | AzureADLateralMovement/Models/BloodHound/LocalMember.cs:22-27 | equality is transitive |
| LocalMembers.EqualMembersHashAlike | AzureADLateralMovement/Models/BloodHound/LocalMember.cs:37-43 | equal local members have equal hash codes, for any string hash |
| LocalMembers.LocalMember.GetHashCode | AzureADLateralMovement/Models/BloodHound/LocalMember.cs:37-43 | definition (unchecked 32-bit `(typeHash * 397) ^ nameHash`, 0 for null); its property is in LocalMembers.EqualMembersHashAlike |
| Logons.NewInteractiveLogon | AzureADLateralMovement/Models/InteractiveLogon.cs:9-24 | a missing device detail or user display name throws NullReference; otherwise the logon holds the device's name and id, the user id, the time and the upper-cased user name |
| UtilsExtensions.PastIsNeverTooOld | AzureADLateralMovement/Utils/Extensions.cs:39-42 | as written, with a positive window, a time not after now always passes the test |
| UtilsExtensions.IsNotOlderThanBoundary | AzureADLateralMovement/Utils/Extensions.cs:39-42 | the test fails exactly for a time at least one window after now |
| UtilsExtensions.IsNotOlderThan | AzureADLateralMovement/Utils/Extensions.cs:39-42 | definition: `datetime - now < window`, as written (not `now - datetime`); its properties are in UtilsExtensions.PastIsNeverTooOld and UtilsExtensions.IsNotOlderThanBoundary |
| UtilsExtensions.Upserted | AzureADLateralMovement/Utils/Extensions.cs:27-34 | the keys gain the id; a known id holds the updated value, a new id the added value, and every other key keeps its value |
| UtilsExtensions.Dictionary.constructor | AzureADLateralMovement/Models/AzureActiveDirectoryApplication.cs:210 | a new dictionary is empty |
| UtilsExtensions.Dictionary.Add | AzureADLateralMovement/Models/AzureActiveDirectoryApplication.cs:203-208 | a known key throws DuplicateKey and changes nothing; a new key is stored |
| UtilsExtensions.Dictionary.TryAdd | AzureAdLateralMovement/Models/AzureActiveDirectory.cs:289-297 | returns whether the key was new; only a new key is stored |
| UtilsExtensions.Dictionary.CreateOrUpdate | AzureADLateralMovement/Utils/Extensions.cs:27-34 | the entries become the upserted map |
| OutputWriter.CreateFileStream | AzureADLateralMovement/Models/Extensions.cs:40-53 | succeeds exactly when folder and file name are not null or blank; a blank folder is reported first; the container key is the file name and the path is folder + file name |
| OutputWriter.FileNameNotBlank | AzureADLateralMovement/Models/Extensions.cs:71-76 | the writer's own six file names always pass the file-name check |
| OutputWriter.FileName | AzureADLateralMovement/Models/Extensions.cs:120-129 | definition (`nameof` of the six writer variables); its property is in OutputWriter.FileNameNotBlank |
| OutputWriter.Consume | AzureADLateralMovement/Models/Extensions.cs:78-107 | one pass of the `foreach` keeps every writer slot filled |
| OutputWriter.SerializeAndFlush | AzureADLateralMovement/Models/Extensions.cs:109-114 | definition; its properties are in OutputWriter.ConsumeStep and OutputWriter.SerializationFlushes |
| OutputWriter.WriteRecord | AzureADLateralMovement/Models/Extensions.cs:78-107 | the loop body leaves exactly the state `Consume` gives for the record |
| OutputWriter.StartOutputWriter | AzureADLateralMovement/Models/Extensions.cs:55-132 | the writer's events and fault are the run over the whole queue followed by the six close calls |
| OutputWriter.RunStaysFaulted | AzureADLateralMovement/Models/Extensions.cs:78-107 | once a record has faulted the writer, the later records change nothing |
| OutputWriter.Route | AzureADLateralMovement/Models/Extensions.cs:78-107 | definition (the `switch` on the record type); its properties are in OutputWriter.ConsumeStep and OutputWriter.RunWriter |
| OutputWriter.Run | AzureADLateralMovement/Models/Extensions.cs:78-107 | every writer slot stays filled; its properties are in OutputWriter.RunStep, OutputWriter.RunStaysFaulted, OutputWriter.RunCount and OutputWriter.RunEvents |
| OutputWriter.Taken | AzureADLateralMovement/Models/Extensions.cs:78-107 | the writer takes every record when it does not fault, and up to the record it faults on otherwise; it takes them all exactly when it had not faulted before the last one |
| OutputWriter.BlankFolderLeavesRecords | AzureADLateralMovement/Models/Extensions.cs:40-43 | with a blank folder and a group record first, the writer takes one record of two and faults with EnsureFailed |
| OutputWriter.CloseAll | AzureADLateralMovement/Models/Extensions.cs:124-129 | definition; its properties are in OutputWriter.CloseAllProjection |
| OutputWriter.CloseEach | AzureADLateralMovement/Models/Extensions.cs:124-129 | definition (the `CloseC` calls in order); its properties are in OutputWriter.CloseAllProjection and OutputWriter.NothingOpenClosesNothing |
| OutputWriter.CloseC | AzureADLateralMovement/Models/Extensions.cs:25-38 | definition (nothing for a null writer, else the trailer with the count and the type); its properties are in OutputWriter.CloseCProjection and OutputWriter.NothingOpenClosesNothing |
| OutputWriter.CloseCProjection | AzureADLateralMovement/Models/Extensions.cs:25-38 | a `CloseC` call writes only to its own file |
| OutputWriter.NothingOpenClosesNothing | AzureADLateralMovement/Models/Extensions.cs:27 | when no writer was opened, the close calls write nothing |
| OutputWriter.Output | AzureADLateralMovement/Models/Extensions.cs:55-132 | definition; its properties are in OutputWriter.OutputProjection and OutputWriter.BlankFolderWritesNothing |
| OutputWriter.ConsumeStep | AzureADLateralMovement/Models/Extensions.cs:78-114 | with a usable folder, an unrouted record changes nothing; a routed one opens its file on first use, increments that file's counter alone and appends its serialisation (and a flush on a multiple of 100) |
| OutputWriter.RunWritersAreFiles | AzureADLateralMovement/Models/Extensions.cs:71-107 | with a usable folder, every opened writer is the stream of its own file in that folder |
| OutputWriter.RunCount | AzureADLateralMovement/Models/Extensions.cs:64-69 | each counter equals the number of queued records routed to its file |
| OutputWriter.RunWriter | AzureADLateralMovement/Models/Extensions.cs:71-107 | a file's writer is open exactly when some record was routed to it |
| OutputWriter.RunEvents | AzureADLateralMovement/Models/Extensions.cs:78-114 | before the close calls, each file has received its creation and then the serialisations of its records in queue order, with the flushes |
| OutputWriter.CloseAllProjection | AzureADLateralMovement/Models/Extensions.cs:124-129 | the six close calls write to each file exactly that file's own trailer |
| OutputWriter.OutputProjection | AzureADLateralMovement/Models/Extensions.cs:55-132 | with a usable folder the writer never faults, and each file receives its creation, its records in queue order with the flushes, and its trailer, and nothing else |
| OutputWriter.BlankFolderWritesNothing | AzureADLateralMovement/Models/Extensions.cs:40-43 | with a null or blank folder no file receives anything, and the writer faults exactly when some record is routed, with EnsureFailed |
| OutputWriter.RunBlankFolder | AzureADLateralMovement/Models/Extensions.cs:40-43 | with a null or blank folder the run leaves the log empty and every writer unopened |
| OutputWriter.SerializationFlushes | AzureADLateralMovement/Models/Extensions.cs:109-114 | a file of n records receives n / 100 flushes |
| OutputWriter.SerializationsKeepRecords | AzureADLateralMovement/Models/Extensions.cs:109-114 | the records serialised into a file are exactly its records, each once, in order |
| OutputWriter.RoleMembersErrorFree | AzureADLateralMovement/Models/Extensions.cs:134-143 | the conversion cannot fail exactly when every member is a named user |
| OutputWriter.RoleMembersError | AzureADLateralMovement/Models/Extensions.cs:134-143 | definition; its properties are in OutputWriter.RoleMembersErrorFree and OutputWriter.DirectoryRoleMembersResultsToList |
| OutputWriter.DirectoryRoleMembersResultsToList | AzureADLateralMovement/Models/Extensions.cs:134-143 | fails exactly at the first member that is not a user (InvalidCast) or has no name; otherwise each member, in order, becomes a fresh group member with its id, its upper-cased name and the type "User" |
| BloodHoundHelpers.Renewed | AzureADLateralMovement/Utils/BloodHoundHelper.cs:66-70 | a queue whose adding is complete and whose writer took every item is replaced by a new, empty, open one; any other queue is kept, and it refuses items exactly when its writer left records in it |
| BloodHoundHelpers.IsCompleted | AzureADLateralMovement/Utils/BloodHoundHelper.cs:66 | definition (`IsCompleted`: adding complete and queue empty); its properties are in BloodHoundHelpers.Renewed and BloodHoundHelpers.BloodHoundHelper.Waiter |
| BloodHoundHelpers.LeftOver | AzureADLateralMovement/Utils/BloodHoundHelper.cs:66-77 | definition (adding complete, records still queued); its properties are in BloodHoundHelpers.Renewed and BloodHoundHelpers.FaultedWriterKeepsQueue |
| BloodHoundHelpers.FaultedWriterKeepsQueue | AzureADLateralMovement/Utils/BloodHoundHelper.cs:63-78 | with a blank output folder, a completed queue of two records, the first a group, keeps the second: it is not renewed and goes on refusing items |
| BloodHoundHelpers.DeviceOwnersError | AzureADLateralMovement/Utils/BloodHoundHelper.cs:107-118 | definition; its properties are in BloodHoundHelpers.BloodHoundHelper.DeviceOwners |
| BloodHoundHelpers.IsAzureAdJoined | AzureADLateralMovement/Utils/BloodHoundHelper.cs:118 | definition; its properties are in BloodHoundHelpers.AzureAdJoinedIgnoresCase |
| BloodHoundHelpers.AzureAdJoinedIgnoresCase | AzureADLateralMovement/Utils/BloodHoundHelper.cs:118 | a device is joined exactly when its trust type, upper-cased, is "AZUREAD" |
| BloodHoundHelpers.MemberTag | AzureADLateralMovement/Utils/BloodHoundHelper.cs:200-223 | definition; its properties are in BloodHoundHelpers.MemberTagsAreTitles |
| BloodHoundHelpers.MemberTagsAreTitles | AzureADLateralMovement/Utils/BloodHoundHelper.cs:200-223 | users, groups and devices have a tag and other objects none; every tag passes the `MemberType` setter unchanged |
| BloodHoundHelpers.MemberId | AzureADLateralMovement/Utils/BloodHoundHelper.cs:200-223 | definition (the `Id` of a user, group or device member); used by BloodHoundHelpers.BuildGroupMembersList |
| BloodHoundHelpers.MemberDisplayName | AzureADLateralMovement/Utils/BloodHoundHelper.cs:200-223 | definition (the `DisplayName` of a user, group or device member, which the `MemberName` setter rejects when null); used by BloodHoundHelpers.GroupMembersError and BloodHoundHelpers.BuildGroupMembersList |
| BloodHoundHelpers.Awaited | AzureADLateralMovement/Utils/BloodHoundHelper.cs:237-242 | awaiting in order passes exactly when no writer faulted; otherwise it rethrows the exception of the first writer that faulted |
| BloodHoundHelpers.WriterFault | AzureADLateralMovement/Utils/BloodHoundHelper.cs:237-242 | definition (the fault of the writer task run over the queue); its properties are in BloodHoundHelpers.Awaited |
| BloodHoundHelpers.UserOwners | AzureADLateralMovement/Utils/BloodHoundHelper.cs:107-108 | exactly the users among the owners are kept, and nothing else |
| BloodHoundHelpers.UserOwnersAppend | AzureADLateralMovement/Utils/BloodHoundHelper.cs:107-108 | the user owners keep the owners' order: those of two lists in a row are those of the first, then those of the second |
| BloodHoundHelpers.GroupMembersErrorFree | AzureADLateralMovement/Utils/BloodHoundHelper.cs:200-223 | building the member list cannot fail exactly when every member is a named user, group or device |
| BloodHoundHelpers.GroupMembersError | AzureADLateralMovement/Utils/BloodHoundHelper.cs:200-223 | definition; its properties are in BloodHoundHelpers.GroupMembersErrorFree and BloodHoundHelpers.BuildGroupMembersList |
| BloodHoundHelpers.BuildGroupMembersList | AzureADLateralMovement/Utils/BloodHoundHelper.cs:195-226 | fails at the first member of another kind (NotImplemented) or without a display name (NullReference), and only then; otherwise one fresh member per object, in order, with its id, upper-cased name and kind tag |
| BloodHoundHelpers.OwnerMembers | AzureADLateralMovement/Utils/BloodHoundHelper.cs:107-114 | fails exactly when some user owner has no display name; otherwise one fresh local member per owner, in order, with the upper-cased name and the type "User" |
| BloodHoundHelpers.BloodHoundHelper.constructor | AzureADLateralMovement/Utils/BloodHoundHelper.cs:32-61 | six open, empty queues, the configured output folder, and the two fixed group owners with upper-cased names and the type "Group" |
| BloodHoundHelpers.BloodHoundHelper.DeviceGroupOwners | AzureADLateralMovement/Utils/BloodHoundHelper.cs:56-61 | definition (the two fixed group owners, in order); its properties are in BloodHoundHelpers.BloodHoundHelper.constructor and BloodHoundHelpers.BloodHoundHelper.DeviceOwners |
| BloodHoundHelpers.BloodHoundHelper.RenewIfCompleted | AzureADLateralMovement/Utils/BloodHoundHelper.cs:66-70 | the queue becomes `Renewed`; a completed one is recorded with everything it received |
| BloodHoundHelpers.BloodHoundHelper.Add | AzureADLateralMovement/Utils/BloodHoundHelper.cs:72-77 | a queue whose adding is complete refuses the item with InvalidOperation; any other gains it at the end; the other queues are unchanged |
| BloodHoundHelpers.BloodHoundHelper.GroupMembership | AzureADLateralMovement/Utils/BloodHoundHelper.cs:63-78 | after the renewal, a group with a name appends one fresh group record with the upper-cased name, the members and no properties; a group with no name throws NullReference, and otherwise a queue with records left in it throws InvalidOperation |
| BloodHoundHelpers.BloodHoundHelper.DirectoryRoleMembership | AzureADLateralMovement/Utils/BloodHoundHelper.cs:80-96 | the same for a role, with the record marked as a directory role and the role template id as its only property |
| BloodHoundHelpers.BloodHoundHelper.DeviceOwners | AzureADLateralMovement/Utils/BloodHoundHelper.cs:98-128 | throws NullReference exactly when a user owner has no name or the trust type is null, and otherwise InvalidOperation when records were left in the queue; on success appends a computer record whose admins are the user owners in order, followed by the two group owners exactly when the device is joined to Azure AD |
| BloodHoundHelpers.BloodHoundHelper.InteractiveLogOns | AzureADLateralMovement/Utils/BloodHoundHelper.cs:130-143 | after the renewal, appends the session of the logon's user on its device; a queue with records left in it throws InvalidOperation and nothing changes |
| BloodHoundHelpers.BloodHoundHelper.Users | AzureADLateralMovement/Utils/BloodHoundHelper.cs:145-163 | a user with a name appends a fresh user record with the upper-cased name and exactly the id, user principal name and mail properties; no name throws NullReference, a queue with records left in it InvalidOperation |
| BloodHoundHelpers.BloodHoundHelper.Domains | AzureADLateralMovement/Utils/BloodHoundHelper.cs:165-177 | after the renewal, appends a domain record named after the domain id; a queue with records left in it throws InvalidOperation and nothing changes |
| BloodHoundHelpers.BloodHoundHelper.Applications | AzureADLateralMovement/Utils/BloodHoundHelper.cs:179-193 | an application with an id appends a fresh record with the upper-cased id, the permission list and the principal id; without an id it throws NullReference, and a queue with records left in it InvalidOperation |
| BloodHoundHelpers.BloodHoundHelper.Waiter | AzureADLateralMovement/Utils/BloodHoundHelper.cs:228-242 | adding is completed on every queue, which keeps its items; a queue is then completed exactly when its writer did not fault before its last item; the outcome is `Awaited` in the six writers' order |
| GraphImport.UpperOrEmpty | AzureADLateralMovement/Utils/CosmosDbGraphHelper.cs:44 | null becomes "", and a name becomes its upper case |
| GraphImport.EntityVertex | AzureADLateralMovement/Utils/CosmosDbGraphHelper.cs:42-45 | the vertex has the id and label, and exactly two properties: the partition key (the id's hash) and the upper-cased display name or "" |
| GraphImport.ImportBlocks.constructor | AzureADLateralMovement/Utils/CosmosDbGraphHelper.cs:62-63 | no batch has been posted |
| GraphImport.ImportBlocks.PostVertices | AzureADLateralMovement/Utils/CosmosDbGraphHelper.cs:62 | the vertex batch is appended, and the edge batches are unchanged |
| GraphImport.ImportBlocks.PostEdges | AzureADLateralMovement/Utils/CosmosDbGraphHelper.cs:63 | the edge batch is appended, and the vertex batches are unchanged |
| GraphImport.TryGetPermissions | AzureADLateralMovement/Utils/CosmosDbGraphHelper.cs:28-34 | permissions are found exactly when the role and its name are present and the mapping has the name, and then they are the mapped ones |
| GraphImport.MemberOfEdge | AzureADLateralMovement/Utils/CosmosDbGraphHelper.cs:49-57 | a `MemberOf` edge from the member to the group, with id group + member and the two hashes as partition keys |
| GraphImport.GroupMembership | AzureADLateralMovement/Utils/CosmosDbGraphHelper.cs:36-64 | throws exactly when some member has no id, and then posts nothing; otherwise posts the group vertex and one `MemberOf` edge per member, in order, labelled with the member's type |
| GraphImport.DirectoryRoleMembership | AzureADLateralMovement/Utils/CosmosDbGraphHelper.cs:66-93 | the same for a role vertex, and every edge labelled "User" |
| GraphImport.NonAdministrators | AzureADLateralMovement/Utils/CosmosDbGraphHelper.cs:103 | a user id is kept exactly when it is listed and is not an administrator |
| GraphImport.NonAdministratorsAppend | AzureADLateralMovement/Utils/CosmosDbGraphHelper.cs:103 | the kept user ids keep their order: those of two lists in a row are those of the first, then those of the second |
| GraphImport.NonAdministratorsMembers | AzureADLateralMovement/Utils/CosmosDbGraphHelper.cs:103 | a user id is a target exactly when it is listed and is not an administrator |
| GraphImport.IsAdministrator | AzureADLateralMovement/Utils/CosmosDbGraphHelper.cs:103 | definition (`administrators.Contains(userId)`); used by GraphImport.NonAdministratorsMembers |
| GraphImport.ForceChangePasswordEdge | AzureADLateralMovement/Utils/CosmosDbGraphHelper.cs:106-114 | a `ForceChangePassword` edge from the role to the user |
| GraphImport.CanResetPasswords | AzureADLateralMovement/Utils/CosmosDbGraphHelper.cs:100-102 | definition (the role's permissions contain the password-update permission); its properties are in GraphImport.DirectoryRolePermissions |
| GraphImport.ForceChangePasswordEdges | AzureADLateralMovement/Utils/CosmosDbGraphHelper.cs:103-114 | one `ForceChangePassword` edge per non-administrator, in order, each from the role to that user |
| GraphImport.DirectoryRolePermissions | AzureADLateralMovement/Utils/CosmosDbGraphHelper.cs:95-118 | always posts one edge batch and no vertex; the batch is empty unless the role's permissions include the password update, and then holds one edge per non-administrator, in order |
| GraphImport.OwnerRoles | AzureADLateralMovement/Utils/CosmosDbGraphHelper.cs:127-129 | a role is kept exactly when its name is one of the two device-owner group names |
| GraphImport.AdminToEdge | AzureADLateralMovement/Utils/CosmosDbGraphHelper.cs:139-147 | an `AdminTo` edge from the owner to the device |
| GraphImport.DeviceOwners | AzureADLateralMovement/Utils/CosmosDbGraphHelper.cs:120-169 | throws InvalidCast exactly when an owner is not a user, and then posts nothing; otherwise posts the computer vertex, one `AdminTo` edge per owner, then one per device-owner role |
| GraphImport.SessionEdges | AzureADLateralMovement/Utils/CosmosDbGraphHelper.cs:171-193 | a null device id throws; an unknown one posts nothing; a known one gives one `HasSession` edge from the mapped device to the user, or throws when the user id is null |
| GraphImport.InteractiveLogOns | AzureADLateralMovement/Utils/CosmosDbGraphHelper.cs:171-193 | posts exactly the edge batch `SessionEdges` gives, if any |
| GraphImport.UserVertex | AzureADLateralMovement/Utils/CosmosDbGraphHelper.cs:195-207 | the user vertex holds exactly the partition key, the user principal name, the mail and the upper-cased display name, with "" for null |
| GraphImport.Users | AzureADLateralMovement/Utils/CosmosDbGraphHelper.cs:195-207 | posts one batch holding the user vertex |
| GraphImport.Delimited | AzureADLateralMovement/Utils/CosmosDbGraphHelper.cs:236 | definition (`ToDelimitedString`: "" for no items, the items joined by the separator otherwise); used by GraphImport.ApplicationBatches |
| GraphImport.OverlapsMailPermissions | AzureADLateralMovement/Utils/CosmosDbGraphHelper.cs:239-246 | definition (`Overlaps`: some permission is a mail permission); its properties are in GraphImport.OverlapsMailPermissionsAppend and GraphImport.ApplicationBatches |
| GraphImport.OverlapsMailPermissionsAppend | AzureADLateralMovement/Utils/CosmosDbGraphHelper.cs:246 | two permission lists in a row overlap the mail permissions exactly when one of them does |
| GraphImport.ApplicationBatches | AzureADLateralMovement/Utils/CosmosDbGraphHelper.cs:209-262 | a null application id throws; otherwise an application vertex, the (reversed) `Granted` edge from the principal or `AccessToAllPrincipals`, and a `CanManipulate` edge to the mailboxes exactly when a permission is a mail permission |
| GraphImport.Applications | AzureADLateralMovement/Utils/CosmosDbGraphHelper.cs:209-262 | posts those batches, or nothing when it throws |
| GraphService.RequestsFromBounds | AzureAdLateralMovement/Helpers/GraphServiceHelper.cs:37-43 | from request k on, a walk makes between k + 1 and 10 requests, every page before the last links on, and an early stop is at a page without a next link |
| GraphService.Items | AzureAdLateralMovement/Helpers/GraphServiceHelper.cs:39-40 | definition (the pages' items, in page order); its properties are in GraphService.WalkPages |
| GraphService.Requests | AzureAdLateralMovement/Helpers/GraphServiceHelper.cs:37-43 | definition (how many pages the do-while fetches); its properties are in GraphService.RequestsBounds |
| GraphService.RequestsBounds | AzureAdLateralMovement/Helpers/GraphServiceHelper.cs:21 | a walk makes between one and ten requests, and stops before ten only at a page without a next link |
| GraphService.WalkPages | AzureAdLateralMovement/Helpers/GraphServiceHelper.cs:35-45 | the items are those of the fetched pages in page order; a fetch beyond the pages fails |
| GraphService.EnsureId | AzureAdLateralMovement/Helpers/GraphServiceHelper.cs:196 | fails exactly for a null or blank id |
| GraphService.DetailRequest | AzureAdLateralMovement/Helpers/GraphServiceHelper.cs:194-210 | a null or blank id fails before the request; otherwise the answer is the response |
| GraphService.GetApplicationsOwner | AzureAdLateralMovement/Helpers/GraphServiceHelper.cs:212-237 | the id check, then the items of the walk |
| GraphService.NamedUserIds | AzureAdLateralMovement/Helpers/GraphServiceHelper.cs:65-74 | lists no more ids than there are users |
| GraphService.NamedUserVertices | AzureAdLateralMovement/Helpers/GraphServiceHelper.cs:65-74 | one vertex batch per listed id |
| GraphService.NamedUserIdsMembers | AzureAdLateralMovement/Helpers/GraphServiceHelper.cs:65-74 | an id is listed exactly when some user with a display name has it |
| GraphService.HasDisplayName | AzureAdLateralMovement/Helpers/GraphServiceHelper.cs:66 | definition (`DisplayName != null`); its properties are in GraphService.NamedUserIdsMembers |
| GraphService.NamedUsersAppend | AzureAdLateralMovement/Helpers/GraphServiceHelper.cs:65-74 | the ids and vertices of two user lists in a row are those of the first, then those of the second, so order is kept |
| GraphService.ListedUserIds | AzureAdLateralMovement/Helpers/GraphServiceHelper.cs:65-74 | definition (the named users' ids with the graph option on, none with it off); its properties are in GraphService.GetUsersAsync |
| GraphService.PostedUserVertices | AzureAdLateralMovement/Helpers/GraphServiceHelper.cs:65-74 | definition (the named users' vertex batches with the graph option on, none with it off); its properties are in GraphService.GetUsersAsync |
| GraphService.PostedUsersAppend | AzureAdLateralMovement/Helpers/GraphServiceHelper.cs:65-74 | the listed ids and posted batches of two user lists in a row are those of the first, then those of the second |
| GraphService.PostNamedUsers | AzureAdLateralMovement/Helpers/GraphServiceHelper.cs:64-74 | over one page, with the graph option on, each user with a display name gets its vertex posted and its id listed, in order; with the option off, nothing is posted or listed |
| GraphService.GetUsersAsync | AzureAdLateralMovement/Helpers/GraphServiceHelper.cs:48-81 | over the fetched pages, the listed ids and the posted vertices are those of the named users, in order; no edge is posted |
| GraphService.GetAppsPermission | AzureAdLateralMovement/Helpers/GraphServiceHelper.cs:246-252 | a null answer throws ArgumentNull; otherwise a grant is kept exactly when its expiry time passes the 100-day test |
| GraphService.GrantIsRecent | AzureAdLateralMovement/Helpers/GraphServiceHelper.cs:250 | definition (`IsNotOlderThan(100 days)` on the expiry time); its properties are in GraphService.GetAppsPermission |
| GraphService.GetAppsPermissionAppend | AzureAdLateralMovement/Helpers/GraphServiceHelper.cs:249-251 | a single grant is kept exactly when it is recent, and the grants kept from two answers in a row are those of the first, then those of the second: the kept grants are in answer order |
| ApplicationStates.SyncKeyDiffers | AzureADLateralMovement/Utils/ApplicationStateExtension.cs:13-17 | the last-sync key differs from the value's key |
| ApplicationStates.SyncKey | AzureADLateralMovement/Utils/ApplicationStateExtension.cs:13 | definition (`objectName + "LastSync"`); its properties are in ApplicationStates.SyncKeyDiffers |
| ApplicationStates.WriteDue | AzureADLateralMovement/Utils/ApplicationStateExtension.cs:13 | a write is due exactly when there is no last-sync time or it is at least `syncCheckMinutes` old; a non-time entry throws InvalidCast |
| ApplicationStates.AfterSet | AzureADLateralMovement/Utils/ApplicationStateExtension.cs:41-50 | throws exactly when the due test throws |
| ApplicationStates.AfterGetSet | AzureADLateralMovement/Utils/ApplicationStateExtension.cs:9-24 | throws exactly when the due test throws |
| ApplicationStates.Read | AzureADLateralMovement/Utils/ApplicationStateExtension.cs:60-68 | missing or null reads as `default`, an object as itself, and a time throws InvalidCast |
| ApplicationStates.AfterSetTouchesTwoKeys | AzureADLateralMovement/Utils/ApplicationStateExtension.cs:44-48 | a set changes no key other than the value and its last-sync time |
| ApplicationStates.AfterSetWritesWhenDue | AzureADLateralMovement/Utils/ApplicationStateExtension.cs:44-48 | when due, the value and the time now are stored; otherwise the state is unchanged |
| ApplicationStates.AfterGetSetRefreshes | AzureADLateralMovement/Utils/ApplicationStateExtension.cs:13-18 | when due, the time is refreshed and a given value stored; otherwise the value stays; no other key changes |
| ApplicationStates.GetSetReadsBack | AzureADLateralMovement/Utils/ApplicationStateExtension.cs:13-21 | a due get-set with a value reads that value back |
| ApplicationStates.ApplicationState.constructor | AzureADLateralMovement/Utils/ApplicationStateExtension.cs:9-68 | the state starts empty |
| ApplicationStates.ApplicationState.SetApplicationState | AzureADLateralMovement/Utils/ApplicationStateExtension.cs:41-50 | the new state is `AfterSet`, or unchanged when it throws |
| ApplicationStates.ApplicationState.GetSetApplicationState | AzureADLateralMovement/Utils/ApplicationStateExtension.cs:9-24 | the new state is `AfterGetSet`, and the answer is the read of that state |
| ApplicationStates.ApplicationState.GetApplicationState | AzureADLateralMovement/Utils/ApplicationStateExtension.cs:60-68 | a read that changes nothing |
| Startup.ReplaceChar | AzureADLateralMovement/App_Start/Startup.cs:29-30 | `Replace(' ', ',')` keeps the length and replaces exactly the spaces |
| Startup.WithoutSeparators | AzureADLateralMovement/App_Start/Startup.cs:29-30 | dropping spaces and commas never lengthens the text |
| Startup.ScopesAreWords | AzureADLateralMovement/App_Start/Startup.cs:29-30 | every scope is non-empty and holds no space and no comma |
| Startup.ScopesConcatenate | AzureADLateralMovement/App_Start/Startup.cs:29-30 | the scopes, put back together, are the setting without its spaces and commas, so no other character is lost or added |
| Startup.Scopes | AzureADLateralMovement/App_Start/Startup.cs:29-30 | definition (spaces to commas, split on commas, empty entries removed); its properties are in Startup.ScopesAreWords and Startup.ScopesConcatenate |
| Startup.ShowsDebug | AzureADLateralMovement/App_Start/Startup.cs:87 | definition (a protocol message whose description is neither null nor empty); its properties are in Startup.OnAuthenticationFailed |
| Startup.OnAuthenticationFailed | AzureADLateralMovement/App_Start/Startup.cs:82-93 | the redirect is the error page followed by the exception message, with a debug suffix holding the description exactly when the protocol message has a non-empty one |
| Orchestration.KeptLogonsFailureStays | AzureAdLateralMovement/Models/AzureActiveDirectory.cs:177-193 | a logon constructor that throws ends the phase: later sign-ins change nothing |
| Orchestration.LogonOf | AzureAdLateralMovement/Models/AzureActiveDirectory.cs:186-192 | definition (the `InteractiveLogon` constructor on a kept sign-in); its properties are in Logons.NewInteractiveLogon and Orchestration.KeptLogonsFollowFilter |
| Orchestration.IsInteractiveSignIn | AzureAdLateralMovement/Models/AzureActiveDirectory.cs:177-183 | definition (the three `Where` clauses); its properties are in Orchestration.KeptLogonsFollowFilter and Orchestration.WiderWindowKeepsMore |
| Orchestration.KeptLogons | AzureAdLateralMovement/Models/AzureActiveDirectory.cs:177-193 | definition (one logon per kept sign-in, or the first constructor throw); its properties are in Orchestration.KeptLogonsFollowFilter, Orchestration.KeptLogonsFailureStays and Orchestration.CollectLogons |
| Orchestration.KeptLogonsFollowFilter | AzureAdLateralMovement/Models/AzureActiveDirectory.cs:177-193 | when no constructor throws, the logons are those of the sign-ins the three filters keep, one for one and in order |
| Orchestration.CollectLogons | AzureAdLateralMovement/Models/AzureActiveDirectory.cs:175-193 | the loop yields exactly the kept logons, or the first constructor failure |
| Orchestration.SessionRecords | AzureAdLateralMovement/Models/AzureActiveDirectory.cs:197-206 | one session record per sendable logon, in order |
| Orchestration.SessionBatches | AzureAdLateralMovement/Models/AzureActiveDirectory.cs:204-205 | definition (the `HasSession` edge batches the graph sink posts, in order); its properties are in Orchestration.SendToSinks |
| Orchestration.CanBeSent | AzureAdLateralMovement/Models/AzureActiveDirectory.cs:197-200 | definition (user id, user name and device name all non-null); its properties are in Orchestration.SendToSinks |
| Orchestration.Appended | AzureADLateralMovement/Utils/BloodHoundHelper.cs:130-143 | adding records one by one leaves a queue holding the renewed items followed by the records, open unless records were left in it; adding none changes nothing |
| Orchestration.SendToSinks | AzureAdLateralMovement/Models/AzureActiveDirectory.cs:197-206 | fails exactly when there is a logon and records were left in the sign-in queue (InvalidOperation, nothing changed) or the graph option is on and some sendable logon's edge throws; on success, the sign-in queue gained the session records in order and the edge batches are those of `SessionBatches` |
| Orchestration.InteractiveLogins | AzureAdLateralMovement/Models/AzureActiveDirectory.cs:170-215 | a constructor failure returns null before any sink sees anything; a full sign-in queue or a failing edge returns null; otherwise the phase returns every kept logon (repeats included) after sending the sendable ones |
| Orchestration.WiderWindowKeepsMore | AzureADLateralMovement/Models/AzureActiveDirectoryApplication.cs:129-130 | a sign-in kept by a narrower window is kept by a wider one |
| Orchestration.RegisteredFailureStays | AzureAdLateralMovement/Models/AzureActiveDirectory.cs:141-146 | once `Add` has thrown, the later devices change nothing |
| Orchestration.Registered | AzureAdLateralMovement/Models/AzureActiveDirectory.cs:141-146 | definition (skip unnamed devices, `Add` the device id, stop at the first throw); its properties are in Orchestration.RegistrationSucceeds, Orchestration.RegisteredValues and Orchestration.RegisteredFailureStays |
| Orchestration.RegistrationSucceeds | AzureAdLateralMovement/Models/AzureActiveDirectory.cs:141-146 | filling succeeds exactly when every listed device has a device id and no two share one; a failure is ArgumentNull or DuplicateKey |
| Orchestration.RegisteredValues | AzureAdLateralMovement/Models/AzureActiveDirectory.cs:141-146 | after a successful filling, every listed device maps its device id to its own object id |
| Orchestration.RegisterDevices | AzureADLateralMovement/Models/AzureActiveDirectoryApplication.cs:96-100 | the loop leaves the map and the outcome that `Registered` gives |
| Orchestration.MemberIds | AzureAdLateralMovement/Models/AzureActiveDirectory.cs:355 | the set of exactly the members' ids |
| Orchestration.IsDeviceAdministratorRole | AzureAdLateralMovement/Models/AzureActiveDirectory.cs:354 | definition (the role name is one of the two device owner names); its properties are in Orchestration.WithDeviceAdministrators and Orchestration.GetDeviceAdministratorsIds |
| Orchestration.WithDeviceAdministrators | AzureAdLateralMovement/Models/AzureActiveDirectory.cs:351-356 | the set only grows; a device-owner role adds exactly its members' ids, and any other role adds nothing |
| Orchestration.DeviceAdministratorsCommute | AzureAdLateralMovement/Models/AzureActiveDirectory.cs:76-90 | the roles may be taken in either order (the source runs them concurrently), with the same administrators |
| Orchestration.GetDeviceAdministratorsIds | AzureADLateralMovement/Models/AzureActiveDirectoryApplication.cs:251-256 | the union with the members' ids for a device-owner role, and the same set for any other role |
| Orchestration.Collected | AzureAdLateralMovement/Models/AzureActiveDirectory.cs:290-297 | succeeds exactly when every item's entry succeeds, and then lists them in order; otherwise the first failure is the result |
| Orchestration.CollectedFailureStays | AzureAdLateralMovement/Models/AzureActiveDirectory.cs:290-297 | after the first failure, later items change nothing |
| Orchestration.AddAllSucceeds | AzureAdLateralMovement/Models/AzureActiveDirectory.cs:311-319 | an `Add` loop succeeds exactly when no key is null and the keys are distinct, and then maps each key to its value; otherwise it throws ArgumentNull (only when some key is null) or DuplicateKey (only when some key repeats) |
| Orchestration.AddAll | AzureAdLateralMovement/Models/AzureActiveDirectory.cs:311-319 | definition (a loop of `Dictionary.Add`: ArgumentNull on a null key, DuplicateKey on a repeated one); its properties are in Orchestration.AddAllSucceeds, Orchestration.AddAllSize and Orchestration.AddAllFailureStays |
| Orchestration.AddAllSize | AzureAdLateralMovement/Models/AzureActiveDirectory.cs:340 | a successful `Add` loop stores one entry per pair, so the count is the number of service principals |
| Orchestration.AddAllFailureStays | AzureAdLateralMovement/Models/AzureActiveDirectory.cs:311-319 | after the first null or repeated key, later pairs change nothing |
| Orchestration.FirstWinsKeeps | AzureAdLateralMovement/Models/AzureActiveDirectory.cs:300-308 | a `TryAdd` loop has exactly the keys of the pairs, each holding the value of its first pair |
| Orchestration.FirstWins | AzureAdLateralMovement/Models/AzureActiveDirectory.cs:300-308 | definition (a loop of `TryAdd`); its properties are in Orchestration.FirstWinsKeeps |
| AzureActiveDirectory.ScopeTextLies | AzureAdLateralMovement/Models/AzureActiveDirectory.cs:294-295 | the piece after the last "Scope:" is a suffix of the value with no further "Scope:", preceded by "Scope:" or equal to the whole value when there is none; the scope text is the longest prefix of that piece without a "]": it is the whole piece or stops right before a "]" |
| AzureActiveDirectory.ScopeText | AzureAdLateralMovement/Models/AzureActiveDirectory.cs:294-295 | definition (`Split("Scope:").Last().Split("]").First()`); its properties are in AzureActiveDirectory.ScopeTextLies |
| AzureActiveDirectory.ConsentPermissions | AzureAdLateralMovement/Models/AzureActiveDirectory.cs:294-295 | definition (the non-empty space-separated tokens, as a set); its properties are in AzureActiveDirectory.ConsentPermissionsAreTokens |
| AzureActiveDirectory.ConsentPermissionsAreTokens | AzureAdLateralMovement/Models/AzureActiveDirectory.cs:294-295 | the consent permissions are exactly the non-empty space-separated tokens of the scope text: each is such a token (with no space and no "]"), every such token is one, and none is listed twice |
| AzureActiveDirectory.FirstPermissionsProperty | AzureAdLateralMovement/Models/AzureActiveDirectory.cs:294 | finds the first property named "ConsentAction.Permissions", or nothing when none is so named |
| AzureActiveDirectory.PrincipalEntry | AzureAdLateralMovement/Models/AzureActiveDirectory.cs:292-295 | no target or no permissions property throws InvalidOperation, a null value NullReference, and a null id ArgumentNull; otherwise the first target's id and its consent permissions |
| AzureActiveDirectory.PrincipalIdToPermissions | AzureAdLateralMovement/Models/AzureActiveDirectory.cs:289-297 | the first failing entry ends the loop; otherwise the first entry per principal wins |
| AzureActiveDirectory.AppEntry | AzureAdLateralMovement/Models/AzureActiveDirectory.cs:300-307 | a null scope throws NullReference, then a null client id ArgumentNull; otherwise the client id and exactly the pieces of the scope split on single spaces, each once |
| AzureActiveDirectory.AppIdToPermissions | AzureAdLateralMovement/Models/AzureActiveDirectory.cs:299-308 | the first failing grant ends the loop with its exception; otherwise the first grant per client id wins |
| AzureActiveDirectory.NameEntries | AzureAdLateralMovement/Models/AzureActiveDirectory.cs:311-319 | one entry per service principal, keyed by its id, which may be null |
| AzureActiveDirectory.AppIdToName | AzureAdLateralMovement/Models/AzureActiveDirectory.cs:310-319 | the `Add` loop over the service principals: the first null id throws ArgumentNull and the first repeated id DuplicateKey |
| AzureActiveDirectory.NamesIdentified | AzureAdLateralMovement/Models/AzureActiveDirectory.cs:310-319 | a name map built without an exception has one entry per service principal, and no service principal has a null id |
| AzureActiveDirectory.CallFor | AzureAdLateralMovement/Models/AzureActiveDirectory.cs:321-337 | no call without permissions; the consent permissions win, with the ids in place; otherwise the grant permissions, with object id and application id swapped; the user ids are always the empty `UserIds` |
| AzureActiveDirectory.ApplicationCallsSelect | AzureAdLateralMovement/Models/AzureActiveDirectory.cs:321-338 | with the graph option off there are no calls; with it on, the calls are exactly those `CallFor` gives; every call passes an empty user id list |
| AzureActiveDirectory.ApplicationCalls | AzureAdLateralMovement/Models/AzureActiveDirectory.cs:321-338 | definition (the calls of the loop, in order; none with the graph option off); its properties are in AzureActiveDirectory.ApplicationCallsSelect |
| AzureActiveDirectory.ServicePrincipals | AzureAdLateralMovement/Models/AzureActiveDirectory.cs:281-349 | a failing audit entry, a failing grant, or a null or repeated service principal id reports 0 and makes no call; otherwise every service principal has an id, the phase reports their number and makes the calls for the two first-wins maps, all with the empty `UserIds` |
| AzureActiveDirectory.UsersCount | AzureAdLateralMovement/Models/AzureActiveDirectory.cs:217-228 | the number of listed user ids, or -1 when fetching failed |
| AzureActiveDirectory.Line | AzureAdLateralMovement/Models/AzureActiveDirectory.cs:53-63 | a summary line is the name, " \| ", then the count |
| AzureActiveDirectory.CountTexts | AzureAdLateralMovement/Models/AzureActiveDirectory.cs:53-63 | one count text per phase |
| AzureActiveDirectory.SummaryLines | AzureAdLateralMovement/Models/AzureActiveDirectory.cs:53-63 | the eight lines name the phases in the source's order, each with its count |
| Text.IntToString | AzureAdLateralMovement/Models/AzureActiveDirectory.cs:55-62 | a count prints as at least one character, with a leading '-' exactly when it is negative and decimal digits after it |
| Text.OptionalIntToString | AzureAdLateralMovement/Models/AzureActiveDirectory.cs:55-62 | a nullable count prints as the empty text exactly when it is null |
| AzureActiveDirectory.FailedPhasesPrintNothing | AzureAdLateralMovement/Models/AzureActiveDirectory.cs:55-60 | a phase that returned null prints nothing after the bar, apart from the source's trailing space |
| AzureActiveDirectoryApplication.LeadingSpaceGivesEmptyPermission | AzureADLateralMovement/Models/AzureActiveDirectoryApplication.cs:213 | a scope starting with a space yields the empty permission |
| AzureActiveDirectoryApplication.ScopeSet | AzureADLateralMovement/Models/AzureActiveDirectoryApplication.cs:213 | definition (`Split(' ').ToHashSet()`, empty pieces kept); its properties are in AzureActiveDirectoryApplication.LeadingSpaceGivesEmptyPermission and AzureActiveDirectoryApplication.MergedIsUnion |
| AzureActiveDirectoryApplication.DisplayNameEntries | AzureADLateralMovement/Models/AzureActiveDirectoryApplication.cs:204-208 | one entry per service principal: its id, which may be null, and its display name |
| AzureActiveDirectoryApplication.AppIdToName | AzureADLateralMovement/Models/AzureActiveDirectoryApplication.cs:203-208 | the `Add` loop over the service principals: the first null id throws ArgumentNull and the first repeated id DuplicateKey |
| AzureActiveDirectoryApplication.ReadGrant | AzureADLateralMovement/Models/AzureActiveDirectoryApplication.cs:213-216 | a null scope throws NullReference at `Split`, then a null client id ArgumentNull at `TryGetValue`; otherwise the scope, client id and principal id |
| AzureActiveDirectoryApplication.ReadUntilFault | AzureADLateralMovement/Models/AzureActiveDirectoryApplication.cs:211-228 | the values of the grants read before the first that throws, in order, and that grant's exception; no exception exactly when every grant is read |
| AzureActiveDirectoryApplication.MergedKeys | AzureADLateralMovement/Models/AzureActiveDirectoryApplication.cs:216-222 | the merged map has a key exactly for each display name (or client id) that some grant is merged under |
| AzureActiveDirectoryApplication.AppDisplayName | AzureADLateralMovement/Models/AzureActiveDirectoryApplication.cs:216 | definition (`TryGetValue`: the name of a known client, null otherwise); used by AzureActiveDirectoryApplication.GrantKey |
| AzureActiveDirectoryApplication.GrantKey | AzureADLateralMovement/Models/AzureActiveDirectoryApplication.cs:216-219 | definition (`appDisplayName ?? appId`); its properties are in AzureActiveDirectoryApplication.MergedKeys and AzureActiveDirectoryApplication.MergedIsUnion |
| AzureActiveDirectoryApplication.MergeStep | AzureADLateralMovement/Models/AzureActiveDirectoryApplication.cs:218-222 | definition (one `CreateOrUpdate`: a new key gets the set, a known key the union); its properties are in AzureActiveDirectoryApplication.MergedIsUnion |
| AzureActiveDirectoryApplication.Merged | AzureADLateralMovement/Models/AzureActiveDirectoryApplication.cs:210-222 | definition (the `CreateOrUpdate` loop over the grants); its properties are in AzureActiveDirectoryApplication.MergedKeys and AzureActiveDirectoryApplication.MergedIsUnion |
| AzureActiveDirectoryApplication.ReadFaultStays | AzureADLateralMovement/Models/AzureActiveDirectoryApplication.cs:211-216 | once a grant has faulted, the later grants change nothing |
| AzureActiveDirectoryApplication.MergedIsUnion | AzureADLateralMovement/Models/AzureActiveDirectoryApplication.cs:218-222 | under each key the merged map holds exactly the union of the scopes of the grants merged there |
| AzureActiveDirectoryApplication.MergeGrant | AzureADLateralMovement/Models/AzureActiveDirectoryApplication.cs:211-228 | one grant merges its scope set under its key and, with the graph option on, posts its application batches |
| AzureActiveDirectoryApplication.MergeGrants | AzureADLateralMovement/Models/AzureActiveDirectoryApplication.cs:210-229 | the loop over the grants merges and, when the option is on, posts one pair of batches for each grant before the first that throws; it returns that exception, or the merged map when none throws |
| AzureActiveDirectoryApplication.GrantBatches | AzureADLateralMovement/Models/AzureActiveDirectoryApplication.cs:225-228 | definition (what `CosmosDbGraphHelper.Applications` posts for one grant); its properties are in GraphImport.ApplicationBatches and AzureActiveDirectoryApplication.MergeGrants |
| AzureActiveDirectoryApplication.AppSignIns | AzureADLateralMovement/Models/AzureActiveDirectoryApplication.cs:196-249 | a null or repeated service principal id ends the phase before anything is posted; otherwise the grants are merged and posted up to the first that throws, and the phase ends with that exception or the merged map |
| AzureActiveDirectoryApplication.PostUser | AzureADLateralMovement/Models/AzureActiveDirectoryApplication.cs:168-174 | a named user appends its user record and, with the option on, its vertex; a users queue with records left in it refuses the record and nothing changes |
| AzureActiveDirectoryApplication.UserVertexBatches | AzureADLateralMovement/Models/AzureActiveDirectoryApplication.cs:173 | one batch per user, holding its vertex |
| AzureActiveDirectoryApplication.Describe | AzureADLateralMovement/Models/AzureActiveDirectoryApplication.cs:166-175 | definition (each record is the user record of the matching user); its properties are in AzureActiveDirectoryApplication.DescribeAppend and AzureActiveDirectoryApplication.Users |
| AzureActiveDirectoryApplication.DescribeAppend | AzureADLateralMovement/Models/AzureActiveDirectoryApplication.cs:166-175 | describing the records of a prefix and of one more user describes the records of the longer list |
| AzureActiveDirectoryApplication.NamedUserVerticesAreFiltered | AzureADLateralMovement/Models/AzureActiveDirectoryApplication.cs:166-175 | posting the named users equals posting one vertex per user that passes the display-name filter |
| AzureActiveDirectoryApplication.Users | AzureADLateralMovement/Models/AzureActiveDirectoryApplication.cs:161-181 | every user with a display name, in order, gets its user record and, with the option on, its vertex; the others get nothing; a users queue with records left in it ends the phase before anything is sent |

## Left out

- Concurrency: `ForEachAsync` (AzureADLateralMovement/Utils/Extensions.cs:10-25), the writer tasks, and the locks. Each phase runs its items one after the other, and `DeviceAdministratorsCommute` covers only the order of the union.
- The blocking queues' waiting: the writer drains a finished sequence of records, and awaiting the writer tasks in `Waiter` is not modelled.
- File I/O and JSON bytes: the writer's output is a log of events (open, serialise, flush, close), not bytes.
- The bulk import into Cosmos DB (Utils/CosmosDbHelper.cs): the import blocks only record the batches posted to them.
- Hash codes: string hash codes are run-time values. Partition keys name the hashed string, and `GetHashCode` of the members takes the string hash as a parameter.
- Culture-sensitive casing: `ToUpper`, `ToLower` and `CurrentCultureIgnoreCase` are ASCII-only.
- Integer width: the writer's `int` counters are unbounded here, and a 32-bit overflow after 2^31 records is not modelled.
- The Computer, Domain, Session and ACL record files are not part of this model. Their records are datatypes with the fields the builders set.
- `HashSet` enumeration order is not specified by .NET. `ToHashSet` and `Union` are modelled as first-occurrence order without repeats.
- The non-generic application-state overloads (AzureADLateralMovement/Utils/ApplicationStateExtension.cs:25-40 and 51-59): they differ from the generic ones only in the cast.
- The object ids of users, groups, devices, directory roles and domains are plain strings: the directory always returns them. The permission grant's scope and client id and the service principal's id are nullable, and their JSON null cases throw as in the source.
- Graph.PermissionGrant and Graph.ServicePrincipal: a JSON property that holds null is modelled (as None), but a property missing from the token altogether is not. In the source `_["scope"]` on a missing property yields a null token and `Value<string>` then throws `ArgumentNullException`, so AzureActiveDirectory.AppEntry, AzureActiveDirectory.NameEntries, AzureActiveDirectory.ServicePrincipals, AzureActiveDirectoryApplication.ReadGrant and AzureActiveDirectoryApplication.DisplayNameEntries describe tokens whose read properties are all present, null or not.
- GraphService.GrantIsRecent: the grant's `expiryTime` is always present and a valid time; a null one (an `InvalidCastException` from the cast to `DateTime`) and a missing one (`ArgumentNullException`) are not modelled.
- `GetGraphDataPrivate` and the HTTP and JSON layer of the Graph reads: a read is a parameter, either a sequence of pages or the decoded answer, with null for a failed request.
- The Graph reads without a loop (`GetSignIns`, `GetDirectoryAudits`, `GetGroupOwnersAsync`, `GetServicePrincipals`): their answers are parameters.
- The rest of Startup (authentication wiring, token cache, `GetAccessToken`): it is framework configuration. `HandleResponse` and `Response.Redirect` are side effects; the model gives back the redirect URL.
- The phase drivers are not modelled as loops of their own, because their only logic is calling the phases: `RunAzureActiveDirectoryApplication`, `DirectoryRoles`, `Groups`, `DeviceOwners` and `Domains`. The builders each of them calls are modelled, and the phase counts are parameters of `SummaryLines`.
- `BuildGroupOwnership` and `CosmosDbGraphHelper.AppOwnership` are called by the newer orchestrator, but their source is not part of this model.
- The seven-argument `CosmosDbGraphHelper.Applications` overload, called by the older orchestrator (AzureAdLateralMovement/Models/AzureActiveDirectory.cs:330 and 334), is not part of this model either: its calls are recorded as data, and a throw inside it, which would make the phase return 0, is not modelled.
- Logging through NLog and `Console.WriteLine` is left out.
- SendToSinks: the contract states the queues and batches only on success. When a graph edge throws, the state left behind is not stated.
- InteractiveLogins: the same as SendToSinks; when a graph edge throws, the state of the sinks is not stated.
