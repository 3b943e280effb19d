/** Helpers/GraphServiceHelper.cs: the paged reads of the directory. A walker
    follows the "next page" links of a collection, at most ten pages per
    tenant, and gathers the items of every page it fetched.

    The directory service is a parameter: the pages it would answer, in the
    order the walker asks for them. A walker that asks for a page beyond the
    ones given fails as a page request to the service would. */
module GraphService {
  import opened Wrappers
  import opened Text
  import Graph
  import GraphImport
  import UtilsExtensions

  /** `_maxPageRequestsPerTenant`. */
  const MaxPageRequestsPerTenant := 10

  /** One page of a collection and whether it links to a next one. */
  datatype Page<T> = Page(items: seq<T>, hasNext: bool)

  /** The items of the pages, in page order. */
  function Items<T>(pages: seq<Page<T>>): seq<T> {
    if pages == [] then [] else Items(pages[..|pages| - 1]) + pages[|pages| - 1].items
  }

  /** The number of page requests a walk makes when its next one is the
      `k`-th: it stops after a page without a next link or after the tenth
      request; a request beyond the pages given is the last. */
  function RequestsFrom<T>(pages: seq<Page<T>>, k: nat): nat
    requires k < MaxPageRequestsPerTenant
    decreases MaxPageRequestsPerTenant - k
  {
    if k < |pages| && pages[k].hasNext && k + 1 < MaxPageRequestsPerTenant then RequestsFrom(pages, k + 1)
    else k + 1
  }

  /** The number of page requests a whole walk makes. */
  function Requests<T>(pages: seq<Page<T>>): nat {
    RequestsFrom(pages, 0)
  }

  /** Every page from the `k`-th up to, not including, the `n`-th exists and
      links to a next page. */
  predicate LinksOn<T>(pages: seq<Page<T>>, k: nat, n: int) {
    n <= k || (n <= |pages| && forall j :: k <= j < n ==> pages[j].hasNext)
  }

  lemma LinksOnExtend<T>(pages: seq<Page<T>>, k: nat, n: int)
    requires 0 <= k < |pages| && pages[k].hasNext && LinksOn(pages, k + 1, n)
    ensures LinksOn(pages, k, n)
  {
  }

  lemma {:induction false} RequestsFromBounds<T>(pages: seq<Page<T>>, k: nat)
    requires k < MaxPageRequestsPerTenant
    ensures k + 1 <= RequestsFrom(pages, k) <= MaxPageRequestsPerTenant
    ensures LinksOn(pages, k, RequestsFrom(pages, k) - 1)
    ensures RequestsFrom(pages, k) < MaxPageRequestsPerTenant && RequestsFrom(pages, k) <= |pages| ==>
      !pages[RequestsFrom(pages, k) - 1].hasNext
    decreases MaxPageRequestsPerTenant - k
  {
    if k < |pages| && pages[k].hasNext && k + 1 < MaxPageRequestsPerTenant {
      var n := RequestsFrom(pages, k + 1);
      RequestsFromBounds(pages, k + 1);
      assert RequestsFrom(pages, k) == n;
      LinksOnExtend(pages, k, n - 1);
    } else {
      assert RequestsFrom(pages, k) == k + 1;
    }
  }

  /** A walk makes at least one and at most ten requests; every page before
      the last one fetched links to a next page, and the walk stops early only
      at a page without a next link. */
  lemma RequestsBounds<T>(pages: seq<Page<T>>)
    ensures 1 <= Requests(pages) <= MaxPageRequestsPerTenant
    ensures LinksOn(pages, 0, Requests(pages) - 1)
    ensures Requests(pages) < MaxPageRequestsPerTenant && Requests(pages) <= |pages| ==>
      !pages[Requests(pages) - 1].hasNext
  {
    RequestsFromBounds(pages, 0);
  }

  /** The do-while loop every walker runs: fetch a page, keep its items,
      count the request, and go on while the page links to a next one and
      fewer than ten requests were made. */
  method WalkPages<T>(pages: seq<Page<T>>) returns (r: Result<seq<T>>)
    ensures r.Throws? <==> Requests(pages) > |pages|
    ensures r.Throws? ==> r.error == FetchFailed
    ensures r.Ok? ==> r.value == Items(pages[..Requests(pages)])
  {
    var pageRequestCount := 0;
    var items: seq<T> := [];
    var more := true;
    while more
      invariant 0 <= pageRequestCount <= |pages| && pageRequestCount <= MaxPageRequestsPerTenant
      invariant items == Items(pages[..pageRequestCount])
      invariant more ==>
        pageRequestCount < MaxPageRequestsPerTenant && Requests(pages) == RequestsFrom(pages, pageRequestCount)
      invariant !more ==> Requests(pages) == pageRequestCount
      decreases MaxPageRequestsPerTenant - pageRequestCount, more
    {
      if pageRequestCount >= |pages| {
        return Throws(FetchFailed);
      }
      var page := pages[pageRequestCount];
      assert pages[..pageRequestCount + 1][..pageRequestCount] == pages[..pageRequestCount];
      items := items + page.items;
      pageRequestCount := pageRequestCount + 1;
      more := page.hasNext && pageRequestCount < MaxPageRequestsPerTenant;
    }
    return Ok(items);
  }

  /** `Ensure.That(id, nameof(id)).IsNotNullOrWhiteSpace()`. */
  function EnsureId(id: Option<string>): (o: Outcome)
    ensures o.Fail? <==> IsNullOrWhiteSpace(id)
    ensures o.Fail? ==> o.error == EnsureFailed("id")
  {
    if IsNullOrWhiteSpace(id) then Fail(EnsureFailed("id")) else Pass
  }

  /** `GetGroupMembers`, `GetDirectoryRoleMembers` and `GetDeviceOwners`: the
      id is checked before the one request is made, whose answer is
      `response`. */
  function DetailRequest<T>(id: Option<string>, response: T): (r: Result<T>)
    ensures r.Throws? <==> IsNullOrWhiteSpace(id)
    ensures r.Throws? ==> r.error == EnsureFailed("id")
    ensures r.Ok? ==> r.value == response
  {
    if EnsureId(id).Fail? then Throws(EnsureFailed("id")) else Ok(response)
  }

  /** `GetApplicationsOwner`: the id check, then a walk. */
  method GetApplicationsOwner(id: Option<string>, pages: seq<Page<Graph.DirectoryObject>>)
    returns (r: Result<seq<Graph.DirectoryObject>>)
    ensures IsNullOrWhiteSpace(id) ==> r == Throws(EnsureFailed("id"))
    ensures !IsNullOrWhiteSpace(id) ==>
      && (r.Throws? <==> Requests(pages) > |pages|)
      && (r.Ok? ==> r.value == Items(pages[..Requests(pages)]))
  {
    var o := EnsureId(id);
    if o.Fail? {
      return Throws(o.error);
    }
    r := WalkPages(pages);
  }

  predicate HasDisplayName(u: Graph.User) {
    u.displayName.Some?
  }

  /** The ids of the users with a display name, in order. */
  function NamedUserIds(users: seq<Graph.User>): (r: seq<string>)
    ensures |r| <= |users|
  {
    if users == [] then []
    else
      var last := users[|users| - 1];
      NamedUserIds(users[..|users| - 1]) + (if HasDisplayName(last) then [last.id] else [])
  }

  /** The vertex batches posted for those users, one per user. */
  function NamedUserVertices(users: seq<Graph.User>): (r: seq<seq<GraphImport.Vertex>>)
    ensures |r| == |NamedUserIds(users)|
  {
    if users == [] then []
    else
      var last := users[|users| - 1];
      NamedUserVertices(users[..|users| - 1]) + (if HasDisplayName(last) then [[GraphImport.UserVertex(last)]] else [])
  }

  /** A user is listed exactly when it has a display name. */
  lemma {:induction false} NamedUserIdsMembers(users: seq<Graph.User>, id: string)
    ensures id in NamedUserIds(users) <==> exists u :: u in users && HasDisplayName(u) && u.id == id
  {
    if users != [] {
      var init := users[..|users| - 1];
      NamedUserIdsMembers(init, id);
      assert users == init + [users[|users| - 1]];
    }
  }

  lemma {:induction false} NamedUsersAppend(a: seq<Graph.User>, b: seq<Graph.User>)
    ensures NamedUserIds(a + b) == NamedUserIds(a) + NamedUserIds(b)
    ensures NamedUserVertices(a + b) == NamedUserVertices(a) + NamedUserVertices(b)
    decreases |b|
  {
    if b == [] {
      assert a + b == a;
    } else {
      var init := b[..|b| - 1];
      assert (a + b)[..|a + b| - 1] == a + init;
      NamedUsersAppend(a, init);
    }
  }

  /** The ids `GetUsersAsync` lists for the users it fetched. */
  function ListedUserIds(users: seq<Graph.User>, isCosmosDbGraphEnabled: bool): seq<string> {
    if isCosmosDbGraphEnabled then NamedUserIds(users) else []
  }

  /** The vertex batches `GetUsersAsync` posts for the users it fetched. */
  function PostedUserVertices(users: seq<Graph.User>, isCosmosDbGraphEnabled: bool): seq<seq<GraphImport.Vertex>> {
    if isCosmosDbGraphEnabled then NamedUserVertices(users) else []
  }

  lemma PostedUsersAppend(a: seq<Graph.User>, b: seq<Graph.User>, isCosmosDbGraphEnabled: bool)
    ensures ListedUserIds(a + b, isCosmosDbGraphEnabled)
      == ListedUserIds(a, isCosmosDbGraphEnabled) + ListedUserIds(b, isCosmosDbGraphEnabled)
    ensures PostedUserVertices(a + b, isCosmosDbGraphEnabled)
      == PostedUserVertices(a, isCosmosDbGraphEnabled) + PostedUserVertices(b, isCosmosDbGraphEnabled)
  {
    NamedUsersAppend(a, b);
  }

  /** Fetching one more page lists and posts what that page adds. */
  lemma UsersPageStep(pages: seq<Page<Graph.User>>, k: nat, isCosmosDbGraphEnabled: bool)
    requires k < |pages|
    ensures ListedUserIds(Items(pages[..k + 1]), isCosmosDbGraphEnabled)
      == ListedUserIds(Items(pages[..k]), isCosmosDbGraphEnabled) + ListedUserIds(pages[k].items, isCosmosDbGraphEnabled)
    ensures PostedUserVertices(Items(pages[..k + 1]), isCosmosDbGraphEnabled)
      == PostedUserVertices(Items(pages[..k]), isCosmosDbGraphEnabled) + PostedUserVertices(pages[k].items, isCosmosDbGraphEnabled)
  {
    assert pages[..k + 1][..k] == pages[..k];
    assert Items(pages[..k + 1]) == Items(pages[..k]) + pages[k].items;
    PostedUsersAppend(Items(pages[..k]), pages[k].items, isCosmosDbGraphEnabled);
  }

  /** The inner loop of `GetUsersAsync` over one page: when the graph
      database is enabled, every user with a display name gets its vertex
      posted and its id listed. */
  method PostNamedUsers(blocks: GraphImport.ImportBlocks, users: seq<Graph.User>, isCosmosDbGraphEnabled: bool)
    returns (userIds: seq<string>)
    modifies blocks
    ensures userIds == ListedUserIds(users, isCosmosDbGraphEnabled)
    ensures blocks.edgeBatches == old(blocks.edgeBatches)
    ensures blocks.vertexBatches == old(blocks.vertexBatches) + PostedUserVertices(users, isCosmosDbGraphEnabled)
  {
    userIds := [];
    if !isCosmosDbGraphEnabled {
      return;
    }
    var i := 0;
    while i < |users|
      invariant 0 <= i <= |users|
      invariant userIds == NamedUserIds(users[..i])
      invariant blocks.edgeBatches == old(blocks.edgeBatches)
      invariant blocks.vertexBatches == old(blocks.vertexBatches) + NamedUserVertices(users[..i])
    {
      var user := users[i];
      assert users[..i + 1][..i] == users[..i];
      assert NamedUserIds(users[..i + 1]) == NamedUserIds(users[..i]) + (if HasDisplayName(user) then [user.id] else []);
      assert NamedUserVertices(users[..i + 1])
        == NamedUserVertices(users[..i]) + (if HasDisplayName(user) then [[GraphImport.UserVertex(user)]] else []);
      if HasDisplayName(user) {
        GraphImport.Users(blocks, user);
        userIds := userIds + [user.id];
      }
      i := i + 1;
    }
    assert users[..i] == users;
  }

  /** `GetUsersAsync`: a walk over the user pages. When the graph database is
      enabled, every user with a display name, in order, gets its vertex
      posted and its id listed; when it is not, no vertex is posted and the
      list is empty. */
  method GetUsersAsync(blocks: GraphImport.ImportBlocks, pages: seq<Page<Graph.User>>, isCosmosDbGraphEnabled: bool)
    returns (r: Result<seq<string>>)
    modifies blocks
    ensures r.Throws? <==> Requests(pages) > |pages|
    ensures r.Throws? ==> r.error == FetchFailed
    ensures blocks.edgeBatches == old(blocks.edgeBatches)
    ensures r.Ok? ==>
      && r.value == ListedUserIds(Items(pages[..Requests(pages)]), isCosmosDbGraphEnabled)
      && blocks.vertexBatches
        == old(blocks.vertexBatches) + PostedUserVertices(Items(pages[..Requests(pages)]), isCosmosDbGraphEnabled)
    ensures r.Throws? ==>
      blocks.vertexBatches == old(blocks.vertexBatches) + PostedUserVertices(Items(pages), isCosmosDbGraphEnabled)
  {
    var pageRequestCount := 0;
    var userIds: seq<string> := [];
    var more := true;
    while more
      invariant 0 <= pageRequestCount <= |pages| && pageRequestCount <= MaxPageRequestsPerTenant
      invariant userIds == ListedUserIds(Items(pages[..pageRequestCount]), isCosmosDbGraphEnabled)
      invariant blocks.edgeBatches == old(blocks.edgeBatches)
      invariant blocks.vertexBatches
        == old(blocks.vertexBatches) + PostedUserVertices(Items(pages[..pageRequestCount]), isCosmosDbGraphEnabled)
      invariant more ==>
        pageRequestCount < MaxPageRequestsPerTenant && Requests(pages) == RequestsFrom(pages, pageRequestCount)
      invariant !more ==> Requests(pages) == pageRequestCount
      decreases MaxPageRequestsPerTenant - pageRequestCount, more
    {
      if pageRequestCount >= |pages| {
        assert pages[..pageRequestCount] == pages;
        return Throws(FetchFailed);
      }
      var page := pages[pageRequestCount];
      UsersPageStep(pages, pageRequestCount, isCosmosDbGraphEnabled);
      var ids := PostNamedUsers(blocks, page.items, isCosmosDbGraphEnabled);
      AppendAssociates(old(blocks.vertexBatches), PostedUserVertices(Items(pages[..pageRequestCount]), isCosmosDbGraphEnabled),
        PostedUserVertices(page.items, isCosmosDbGraphEnabled));
      userIds := userIds + ids;
      pageRequestCount := pageRequestCount + 1;
      more := page.hasNext && pageRequestCount < MaxPageRequestsPerTenant;
    }
    return Ok(userIds);
  }

  /** The 100-day window of `GetAppsPermission`. */
  const PermissionGrantWindow := 100 * UtilsExtensions.MinutesPerDay

  predicate GrantIsRecent(now: int, grant: Graph.PermissionGrant) {
    UtilsExtensions.IsNotOlderThan(grant.expiryTime, PermissionGrantWindow, now)
  }

  /** The `Where` filter of `GetAppsPermission` at the moment `now`. */
  function RecentAt(now: int): Graph.PermissionGrant -> bool {
    g => GrantIsRecent(now, g)
  }

  /** `GetAppsPermission`: the grants whose expiry time passes the 100-day
      test, in order. The beta endpoint's answer is null when its request
      failed, and filtering null throws. */
  function GetAppsPermission(permissionGrants: Option<seq<Graph.PermissionGrant>>, now: int)
    : (r: Result<seq<Graph.PermissionGrant>>)
    ensures r.Throws? <==> permissionGrants.None?
    ensures r.Throws? ==> r.error == ArgumentNull
    ensures r.Ok? ==> forall g :: g in r.value <==> g in permissionGrants.value && GrantIsRecent(now, g)
  {
    if permissionGrants.None? then Throws(ArgumentNull)
    else Ok(Where(permissionGrants.value, RecentAt(now)))
  }

  /** The kept grants keep the answer's order: a single grant is kept
      exactly when it is recent, and the grants kept from two answers one
      after the other are those kept from the first, then those kept from
      the second. */
  lemma GetAppsPermissionAppend(a: seq<Graph.PermissionGrant>, b: seq<Graph.PermissionGrant>, now: int)
    ensures forall g :: GetAppsPermission(Some([g]), now).value == if GrantIsRecent(now, g) then [g] else []
    ensures GetAppsPermission(Some(a + b), now).value
      == GetAppsPermission(Some(a), now).value + GetAppsPermission(Some(b), now).value
  {
    WhereAppend(a, b, RecentAt(now));
    forall g ensures Where([g], RecentAt(now)) == if GrantIsRecent(now, g) then [g] else [] {
      assert [g][1..] == [];
    }
  }
}
