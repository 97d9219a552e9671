/** Collaboration requests between NGOs and shared resources
    (backend/src/controllers/collaborationController.js,
    backend/src/routes/collaborationRoutes.js): who may list, read and update
    them, and the response, view and download counters. */
module Collaboration {
  import opened Common
  import opened Strings
  import opened Users
  import opened Notifications
  import Messages

  datatype CollaborationType =
    | JointProgram | ResourceSharing | ExpertiseSharing | Funding | Event | Advocacy | Research | OtherType

  datatype RequestStatus = Open | InProgress | RequestCompleted | RequestCancelled

  datatype Visibility = Public | Private | InvitedOnly

  /** A stored collaboration request. The budget is in cents; dates are milliseconds. */
  datatype Request = Request(
    id: Id,
    requesterId: Id,
    recipientId: Option<Id>,
    title: string,
    description: string,
    collaborationType: CollaborationType,
    duration: Option<string>,
    startDate: Option<nat>,
    endDate: Option<nat>,
    requiredSkills: seq<string>,
    estimatedBudget: Option<int>,
    currency: string,
    location: Option<string>,
    isRemote: bool,
    status: RequestStatus,
    visibility: Visibility,
    documents: seq<string>,
    responses: int,
    createdAt: nat)

  datatype ResourceType =
    | TrainingMaterial | Document | Guide | Template | EventResource | Opportunity | CollaborationRequest
    | OtherResource

  datatype AccessLevel = PublicLevel | VerifiedUsers | NgoOnly | PrivateLevel

  /** A stored shared resource. */
  datatype Resource = Resource(
    id: Id,
    createdBy: Id,
    resourceType: ResourceType,
    title: string,
    description: string,
    category: Option<string>,
    fileUrl: Option<string>,
    accessLevel: AccessLevel,
    downloads: int,
    views: int,
    isActive: bool,
    createdAt: nat)

  /** Ids identify requests and resources. */
  ghost predicate Keyed(requests: seq<Request>, resources: seq<Resource>) {
    (forall i, j :: 0 <= i < j < |requests| ==> requests[i].id != requests[j].id)
    && (forall i, j :: 0 <= i < j < |resources| ==> resources[i].id != resources[j].id)
  }

  /** The collaboration-request and resource tables. */
  class Board {
    var requests: seq<Request>
    var resources: seq<Resource>

    ghost predicate Valid()
      reads this
    {
      Keyed(requests, resources)
    }

    constructor (requests: seq<Request>, resources: seq<Resource>)
      requires Keyed(requests, resources)
      ensures Valid() && this.requests == requests && this.resources == resources
    {
      this.requests, this.resources := requests, resources;
    }
  }

  function FindRequest(requests: seq<Request>, id: Id): (i: Option<nat>)
    ensures i.Some? ==> i.value < |requests| && requests[i.value].id == id
    ensures i.None? ==> forall k :: 0 <= k < |requests| ==> requests[k].id != id
  {
    FirstIndex(requests, (c: Request) => c.id == id)
  }

  function FindResource(resources: seq<Resource>, id: Id): (i: Option<nat>)
    ensures i.Some? ==> i.value < |resources| && resources[i.value].id == id
    ensures i.None? ==> forall k :: 0 <= k < |resources| ==> resources[k].id != id
  {
    FirstIndex(resources, (r: Resource) => r.id == id)
  }

  /** Replacing one row by a row with the same id keeps ids unique. */
  lemma ReplaceRequestKeepsKeys(requests: seq<Request>, resources: seq<Resource>, i: nat, c: Request)
    requires Keyed(requests, resources) && i < |requests| && c.id == requests[i].id
    ensures Keyed(requests[i := c], resources)
  {
  }

  lemma ReplaceResourceKeepsKeys(requests: seq<Request>, resources: seq<Resource>, i: nat, r: Resource)
    requires Keyed(requests, resources) && i < |resources| && r.id == resources[i].id
    ensures Keyed(requests, resources[i := r])
  {
  }

  // ---------------------------------------------------------------------------
  // getAllCollaborations

  /** The request is addressed by or to the viewer. */
  predicate Party(c: Request, viewer: User) {
    c.requesterId == viewer.id || c.recipientId == Some(viewer.id)
  }

  /** The listing scope: an NGO sees public requests and its own, an admin all
      (narrowed by `visibility` when given), anyone else only public ones. */
  predicate InListing(viewer: User, visibility: Option<Visibility>, c: Request) {
    match viewer.role
    case Ngo => c.visibility == Public || Party(c, viewer)
    case Admin => visibility.None? || c.visibility == visibility.value
    case _ => c.visibility == Public
  }

  function RequestListed(viewer: User, kind: Option<CollaborationType>, status: Option<RequestStatus>,
                         visibility: Option<Visibility>): Request -> bool
  {
    (c: Request) =>
      (kind.None? || c.collaborationType == kind.value)
      && (status.None? || c.status == status.value)
      && InListing(viewer, visibility, c)
  }

  function RequestCreated(c: Request): int {
    c.createdAt
  }

  /** `getAllCollaborations`: the scoped and filtered requests, newest first,
      one page of them. Apart from an admin, nobody is shown a request that is
      not public unless they are a party to it. */
  function GetAllCollaborations(requests: seq<Request>, viewer: User, kind: Option<CollaborationType>,
                                status: Option<RequestStatus>, visibility: Option<Visibility>,
                                page: nat, limit: nat): (p: Page<Request>)
    requires page >= 1 && limit >= 1
    ensures p.page == page && p.limit == limit
    ensures p.items == Paginate(Ranked(requests, RequestListed(viewer, kind, status, visibility), RequestCreated), page, limit)
    ensures p.total == Count(requests, RequestListed(viewer, kind, status, visibility))
    ensures p.pages == PageCount(p.total, limit) && |p.items| <= limit
    ensures forall c :: c in p.items ==> c in requests && RequestListed(viewer, kind, status, visibility)(c)
    ensures viewer.role != Admin ==>
              forall c :: c in p.items ==> c.visibility == Public || (viewer.role == Ngo && Party(c, viewer))
    ensures SortedDesc(p.items, RequestCreated)
  {
    ListQuery(requests, RequestListed(viewer, kind, status, visibility), RequestCreated, page, limit)
  }

  // ---------------------------------------------------------------------------
  // getCollaborationById

  /** Only a private request is guarded: an admin or a party may read it. */
  predicate Readable(c: Request, viewer: User) {
    c.visibility != Private || viewer.role == Admin || Party(c, viewer)
  }

  /** `getCollaborationById`: 404 for an unknown id, 403 for an unreadable
      private request, otherwise the request. */
  function GetCollaborationById(requests: seq<Request>, id: Id, viewer: User): (r: Reply<Request>)
    ensures r.Shown? <==> FindRequest(requests, id).Some? && Readable(requests[FindRequest(requests, id).value], viewer)
    ensures r.Shown? ==> r.value in requests && r.value.id == id
    ensures FindRequest(requests, id).None? ==> r == Denied(NotFound, "Collaboration request not found")
    ensures r.Denied? && FindRequest(requests, id).Some? ==> r == Denied(Forbidden, "Access denied")
  {
    match FindRequest(requests, id)
    case None => Denied(NotFound, "Collaboration request not found")
    case Some(i) => if Readable(requests[i], viewer) then Shown(requests[i]) else Denied(Forbidden, "Access denied")
  }

  /** Whatever the listing shows a viewer, the viewer may also open. */
  lemma ListedIsReadable(viewer: User, kind: Option<CollaborationType>, status: Option<RequestStatus>,
                         visibility: Option<Visibility>, c: Request)
    requires RequestListed(viewer, kind, status, visibility)(c)
    ensures Readable(c, viewer)
  {
  }

  /** An invited-only request is left out of non-parties' listings, yet any
      authenticated user who knows its id may open it. */
  lemma InvitedOnlyOpenById(requests: seq<Request>, i: nat, viewer: User)
    requires i < |requests| && requests[i].visibility == InvitedOnly
    requires forall k :: 0 <= k < i ==> requests[k].id != requests[i].id
    ensures GetCollaborationById(requests, requests[i].id, viewer) == Shown(requests[i])
    ensures viewer.role != Admin && !Party(requests[i], viewer) ==>
              !RequestListed(viewer, None, None, None)(requests[i])
  {
    assert FindRequest(requests, requests[i].id) == Some(i);
  }

  // ---------------------------------------------------------------------------
  // updateCollaboration

  /** Only an admin or the requester may update a request. */
  predicate MayUpdate(c: Request, viewer: User) {
    viewer.role == Admin || c.requesterId == viewer.id
  }

  /** `updateCollaboration`: 404, then 403 unless admin or requester; otherwise
      the body's changes (`edit`) are stored, the id kept. */
  method UpdateCollaboration(board: Board, id: Id, viewer: User, edit: Request -> Request) returns (status: Status)
    requires board.Valid()
    modifies board
    ensures board.Valid() && board.resources == old(board.resources)
    ensures FindRequest(old(board.requests), id).None? ==> status == NotFound && board.requests == old(board.requests)
    ensures FindRequest(old(board.requests), id).Some? ==>
              var i := FindRequest(old(board.requests), id).value;
              if MayUpdate(old(board.requests)[i], viewer) then
                status == Ok && board.requests == old(board.requests)[i := edit(old(board.requests)[i]).(id := id)]
              else
                status == Forbidden && board.requests == old(board.requests)
  {
    var found := FindRequest(board.requests, id);
    if found.None? {
      return NotFound;
    }
    var i := found.value;
    if !MayUpdate(board.requests[i], viewer) {
      return Forbidden;
    }
    ReplaceRequestKeepsKeys(board.requests, board.resources, i, edit(board.requests[i]).(id := id));
    board.requests := board.requests[i := edit(board.requests[i]).(id := id)];
    return Ok;
  }

  // ---------------------------------------------------------------------------
  // respondToCollaboration

  /** The notification metadata `{ response, message }`; an absent field is
      dropped when serialised. */
  function ResponseMetadata(response: Option<Json>, message: Option<Json>): (m: map<string, Json>)
    ensures "response" in m <==> response.Some?
    ensures "message" in m <==> message.Some?
    ensures response.Some? ==> m["response"] == response.value
    ensures message.Some? ==> m["message"] == message.value
    ensures m.Keys <= {"response", "message"}
  {
    (if response.Some? then map["response" := response.value] else map[])
    + (if message.Some? then map["message" := message.value] else map[])
  }

  function RequestUrl(id: Id): string {
    "/collaboration/" + NatToString(id)
  }

  /** `respondToCollaboration`: 404 for an unknown id; otherwise the response
      counter goes up by exactly one, nothing else in the request changes, and
      the requester gets one notification carrying the response. */
  method RespondToCollaboration(board: Board, notes: NotificationStore, users: seq<User>, id: Id, responder: User,
                                response: Option<Json>, message: Option<Json>, now: nat, email: Adapter, sms: Adapter)
    returns (status: Status)
    requires board.Valid() && notes.Valid()
    modifies board, notes
    ensures board.Valid() && notes.Valid() && board.resources == old(board.resources)
    ensures FindRequest(old(board.requests), id).None? ==>
              status == NotFound && board.requests == old(board.requests) && notes.rows == old(notes.rows)
    ensures FindRequest(old(board.requests), id).Some? ==>
              var i := FindRequest(old(board.requests), id).value;
              var c := old(board.requests)[i];
              status == Ok
              && board.requests == old(board.requests)[i := c.(responses := c.responses + 1)]
              && Notified(old(notes.rows), notes.rows, c.requesterId, CollaborationResponse, id)
              && notes.rows[|old(notes.rows)|].metadata == ResponseMetadata(response, message)
              && notes.rows[|old(notes.rows)|].title == "New Collaboration Response"
  {
    var found := FindRequest(board.requests, id);
    if found.None? {
      return NotFound;
    }
    var i := found.value;
    var c := board.requests[i];
    ReplaceRequestKeepsKeys(board.requests, board.resources, i, c.(responses := c.responses + 1));
    board.requests := board.requests[i := c.(responses := c.responses + 1)];
    NotifyResponse(notes, users, c, responder, response, message, now, email, sms);
    return Ok;
  }

  /** The notification a response sends to the requester, carrying the
      response and its message as metadata. */
  method NotifyResponse(notes: NotificationStore, users: seq<User>, c: Request, responder: User,
                        response: Option<Json>, message: Option<Json>, now: nat, email: Adapter, sms: Adapter)
    requires notes.Valid()
    modifies notes
    ensures notes.Valid()
    ensures Notified(old(notes.rows), notes.rows, c.requesterId, CollaborationResponse, c.id)
    ensures notes.rows[|old(notes.rows)|].metadata == ResponseMetadata(response, message)
    ensures notes.rows[|old(notes.rows)|].title == "New Collaboration Response"
  {
    var text := Messages.NameText(responder, "firstName") + " responded to your collaboration request: " + c.title;
    var options := Options(Some(c.id), Some("collaboration"), Some(RequestUrl(c.id)), None, Some(["in_app", "email"]),
                           Some(ResponseMetadata(response, message)));
    var n, _, _ := CreateNotification(notes, users, c.requesterId, CollaborationResponse,
                                      "New Collaboration Response", text, options, now, email, sms);
    assert notes.rows[..|old(notes.rows)|] == old(notes.rows);
  }

  // ---------------------------------------------------------------------------
  // Resources: listing levels and the access predicate

  /** The access levels a role's listing includes: a woman public and
      verified-user resources, an NGO or donor also NGO-only ones, an admin all. */
  predicate LevelListed(role: Role, level: AccessLevel) {
    match role
    case Woman => level == PublicLevel || level == VerifiedUsers
    case Ngo => level != PrivateLevel
    case Donor => level != PrivateLevel
    case Admin => true
  }

  /** `canAccess` of `getResourceById` for an authenticated viewer. */
  predicate CanAccess(r: Resource, viewer: User) {
    match r.accessLevel
    case PublicLevel => true
    case VerifiedUsers => true
    case NgoOnly => viewer.role == Ngo || viewer.role == Admin
    case PrivateLevel => r.createdBy == viewer.id || viewer.role == Admin
  }

  /** The listing and the detail check disagree in exactly two ways: a donor is
      shown NGO-only resources it may not open, and a creator may open its own
      private resources although no non-admin listing shows them. */
  lemma ListingAgainstAccess(r: Resource, viewer: User)
    ensures LevelListed(viewer.role, r.accessLevel) && !CanAccess(r, viewer)
            <==> viewer.role == Donor && r.accessLevel == NgoOnly
    ensures !LevelListed(viewer.role, r.accessLevel) && CanAccess(r, viewer)
            <==> viewer.role != Admin && r.accessLevel == PrivateLevel && r.createdBy == viewer.id
  {
  }

  /** Case-insensitive substring match, as `ILIKE '%search%'`. */
  predicate Mentions(r: Resource, search: string) {
    Includes(Lower(r.title), Lower(search)) || Includes(Lower(r.description), Lower(search))
  }

  function ResourceListed(viewer: User, kind: Option<ResourceType>, category: Option<string>,
                          search: Option<string>): Resource -> bool
  {
    (r: Resource) =>
      r.isActive
      && (kind.None? || r.resourceType == kind.value)
      && (!TruthyStr(category) || r.category == category)
      && LevelListed(viewer.role, r.accessLevel)
      && (!TruthyStr(search) || Mentions(r, search.value))
  }

  function ResourceCreated(r: Resource): int {
    r.createdAt
  }

  /** `getAllResources`: active resources at the levels the viewer's role
      lists, filtered, newest first, one page of them. */
  function GetAllResources(resources: seq<Resource>, viewer: User, kind: Option<ResourceType>,
                           category: Option<string>, search: Option<string>, page: nat, limit: nat)
    : (p: Page<Resource>)
    requires page >= 1 && limit >= 1
    ensures p.page == page && p.limit == limit
    ensures p.items == Paginate(Ranked(resources, ResourceListed(viewer, kind, category, search), ResourceCreated), page, limit)
    ensures p.total == Count(resources, ResourceListed(viewer, kind, category, search))
    ensures p.pages == PageCount(p.total, limit) && |p.items| <= limit
    ensures forall r :: r in p.items ==>
              r in resources && r.isActive && LevelListed(viewer.role, r.accessLevel)
              && (TruthyStr(search) ==> Includes(Lower(r.title), Lower(search.value))
                                        || Includes(Lower(r.description), Lower(search.value)))
    ensures SortedDesc(p.items, ResourceCreated)
  {
    ListQuery(resources, ResourceListed(viewer, kind, category, search), ResourceCreated, page, limit)
  }

  // ---------------------------------------------------------------------------
  // getResourceById and downloadResource

  /** `getResourceById`: 404, then 403 unless `CanAccess`; otherwise the
      resource, and its view counter goes up by one. Whether it is active is
      not checked. */
  method GetResourceById(board: Board, id: Id, viewer: User) returns (r: Reply<Resource>)
    requires board.Valid()
    modifies board
    ensures board.Valid() && board.requests == old(board.requests)
    ensures FindResource(old(board.resources), id).None? ==>
              r == Denied(NotFound, "Resource not found") && board.resources == old(board.resources)
    ensures FindResource(old(board.resources), id).Some? ==>
              var i := FindResource(old(board.resources), id).value;
              var x := old(board.resources)[i];
              if CanAccess(x, viewer) then
                r == Shown(x) && board.resources == old(board.resources)[i := x.(views := x.views + 1)]
              else
                r == Denied(Forbidden, "Access denied") && board.resources == old(board.resources)
  {
    var found := FindResource(board.resources, id);
    if found.None? {
      return Denied(NotFound, "Resource not found");
    }
    var i := found.value;
    var x := board.resources[i];
    if !CanAccess(x, viewer) {
      return Denied(Forbidden, "Access denied");
    }
    ReplaceResourceKeepsKeys(board.requests, board.resources, i, x.(views := x.views + 1));
    board.resources := board.resources[i := x.(views := x.views + 1)];
    return Shown(x);
  }

  /** `downloadResource`: 404 for an unknown id; otherwise, for any viewer and
      any access level, the file URL, and the download counter goes up by one. */
  method DownloadResource(board: Board, id: Id, viewer: User) returns (r: Reply<Option<string>>)
    requires board.Valid()
    modifies board
    ensures board.Valid() && board.requests == old(board.requests)
    ensures FindResource(old(board.resources), id).None? ==>
              r == Denied(NotFound, "Resource not found") && board.resources == old(board.resources)
    ensures FindResource(old(board.resources), id).Some? ==>
              var i := FindResource(old(board.resources), id).value;
              var x := old(board.resources)[i];
              r == Shown(x.fileUrl) && board.resources == old(board.resources)[i := x.(downloads := x.downloads + 1)]
  {
    var found := FindResource(board.resources, id);
    if found.None? {
      return Denied(NotFound, "Resource not found");
    }
    var i := found.value;
    var x := board.resources[i];
    ReplaceResourceKeepsKeys(board.requests, board.resources, i, x.(downloads := x.downloads + 1));
    board.resources := board.resources[i := x.(downloads := x.downloads + 1)];
    return Shown(x.fileUrl);
  }

  // ---------------------------------------------------------------------------
  // Route order

  /** One segment of a route pattern: a literal, or a parameter such as `:id`
      that matches any non-empty segment. */
  datatype Segment = Lit(text: string) | Param

  datatype Handler = ListRequests | ShowRequest | ListResources | ShowResource | Download

  datatype Route = Route(pattern: seq<Segment>, handler: Handler)

  predicate Matches(pattern: seq<Segment>, path: seq<string>) {
    |pattern| == |path|
    && forall k :: 0 <= k < |path| ==>
         path[k] != "" && (pattern[k].Lit? ==> pattern[k].text == path[k])
  }

  /** The handler of the first route that matches, as Express dispatches. */
  function Resolve(routes: seq<Route>, path: seq<string>): (h: Option<Handler>)
    ensures h.Some? <==> exists k :: 0 <= k < |routes| && Matches(routes[k].pattern, path)
  {
    if routes == [] then None
    else if Matches(routes[0].pattern, path) then Some(routes[0].handler)
    else
      var rest := Resolve(routes[1..], path);
      assert forall k :: 1 <= k < |routes| ==> routes[k] == routes[1..][k - 1];
      rest
  }

  /** The GET routes in the order they are declared. */
  const GetRoutesAsWritten: seq<Route> := [
    Route([], ListRequests),
    Route([Param], ShowRequest),
    Route([Lit("resources")], ListResources),
    Route([Lit("resources"), Param], ShowResource),
    Route([Lit("resources"), Param, Lit("download")], Download)
  ]

  lemma ResolveCons(r: Route, rest: seq<Route>, path: seq<string>)
    ensures Resolve([r] + rest, path) == if Matches(r.pattern, path) then Some(r.handler) else Resolve(rest, path)
  {
    assert ([r] + rest)[1..] == rest;
  }

  /** What the declared GET routes resolve a path to, route by route. */
  lemma ResolveAsWritten(path: seq<string>)
    ensures Resolve(GetRoutesAsWritten, path)
            == if Matches([], path) then Some(ListRequests)
               else if Matches([Param], path) then Some(ShowRequest)
               else if Matches([Lit("resources")], path) then Some(ListResources)
               else if Matches([Lit("resources"), Param], path) then Some(ShowResource)
               else if Matches([Lit("resources"), Param, Lit("download")], path) then Some(Download)
               else None
  {
    var r4 := [Route([Lit("resources"), Param, Lit("download")], Download)];
    var r3 := [Route([Lit("resources"), Param], ShowResource)] + r4;
    var r2 := [Route([Lit("resources")], ListResources)] + r3;
    var r1 := [Route([Param], ShowRequest)] + r2;
    assert GetRoutesAsWritten == [Route([], ListRequests)] + r1;
    ResolveCons(Route([], ListRequests), r1, path);
    ResolveCons(Route([Param], ShowRequest), r2, path);
    ResolveCons(Route([Lit("resources")], ListResources), r3, path);
    ResolveCons(Route([Lit("resources"), Param], ShowResource), r4, path);
    ResolveCons(Route([Lit("resources"), Param, Lit("download")], Download), [], path);
  }

  /** What the reordered GET routes resolve a path to, route by route. */
  lemma ResolveReordered(path: seq<string>)
    ensures Resolve(GetRoutes, path)
            == if Matches([], path) then Some(ListRequests)
               else if Matches([Lit("resources")], path) then Some(ListResources)
               else if Matches([Lit("resources"), Param], path) then Some(ShowResource)
               else if Matches([Lit("resources"), Param, Lit("download")], path) then Some(Download)
               else if Matches([Param], path) then Some(ShowRequest)
               else None
  {
    var r4 := [Route([Param], ShowRequest)];
    var r3 := [Route([Lit("resources"), Param, Lit("download")], Download)] + r4;
    var r2 := [Route([Lit("resources"), Param], ShowResource)] + r3;
    var r1 := [Route([Lit("resources")], ListResources)] + r2;
    assert GetRoutes == [Route([], ListRequests)] + r1;
    ResolveCons(Route([], ListRequests), r1, path);
    ResolveCons(Route([Lit("resources")], ListResources), r2, path);
    ResolveCons(Route([Lit("resources"), Param], ShowResource), r3, path);
    ResolveCons(Route([Lit("resources"), Param, Lit("download")], Download), r4, path);
    ResolveCons(Route([Param], ShowRequest), [], path);
  }

  /** `GET /resources` is taken by `GET /:id`, with "resources" as the id: the
      resource listing can never be reached. */
  lemma ResourceListingShadowed()
    ensures Resolve(GetRoutesAsWritten, ["resources"]) == Some(ShowRequest)
    ensures forall path :: Resolve(GetRoutesAsWritten, path) != Some(ListResources)
  {
    ResolveAsWritten(["resources"]);
    forall path ensures Resolve(GetRoutesAsWritten, path) != Some(ListResources) {
      ResolveAsWritten(path);
      if Matches([Lit("resources")], path) {
        assert Matches([Param], path);
      }
    }
  }

  /** The GET routes with the fixed `/resources` paths declared before `/:id`. */
  const GetRoutes: seq<Route> := [
    Route([], ListRequests),
    Route([Lit("resources")], ListResources),
    Route([Lit("resources"), Param], ShowResource),
    Route([Lit("resources"), Param, Lit("download")], Download),
    Route([Param], ShowRequest)
  ]

  lemma ResourcesPath(path: seq<string>)
    ensures Matches([Lit("resources")], path) <==> path == ["resources"]
  {
    if Matches([Lit("resources")], path) {
      assert path == ["resources"];
    }
  }

  /** In that order `GET /resources` reaches the listing, and every other path
      reaches the handler it reached before. */
  lemma ResourceListingReached()
    ensures Resolve(GetRoutes, ["resources"]) == Some(ListResources)
    ensures forall path :: path != ["resources"] ==> Resolve(GetRoutes, path) == Resolve(GetRoutesAsWritten, path)
  {
    ResolveReordered(["resources"]);
    forall path | path != ["resources"]
      ensures Resolve(GetRoutes, path) == Resolve(GetRoutesAsWritten, path)
    {
      ResolveAsWritten(path);
      ResolveReordered(path);
      ResourcesPath(path);
    }
  }
}
