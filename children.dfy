/** Children in care and their case events (backend/src/controllers/childController.js):
    who may see and change a child's record, the soft delete, the event logged
    on every update, and the statistics by status. */
module Children {
  import opened Common
  import opened Strings
  import opened Users
  import Messages

  datatype Gender = Male | Female | OtherGender

  datatype ChildStatus = Orphan | Vulnerable | Rescued | InCare | Adopted | Reunited | Independent

  datatype EventType =
    | HealthCheckup | MedicalTreatment | EducationEnrollment | PlacementChange | FamilyVisit
    | CounselingSession | LegalProceeding | Achievement | Incident | StatusUpdate | DonationReceived
    | OtherEvent

  /** A stored child record. The many descriptive attributes (guardian,
      medical, education, legal) are kept by name in `details`. */
  datatype Child = Child(
    id: Id,
    registeredBy: Id,
    firstName: string,
    lastName: string,
    dateOfBirth: nat,
    gender: Gender,
    currentStatus: ChildStatus,
    caseNumber: string,
    isActive: bool,
    archivedAt: Option<nat>,
    archivedReason: Option<string>,
    details: map<string, Json>,
    createdAt: nat)

  /** A stored case event. */
  datatype ChildEvent = ChildEvent(
    id: Id,
    childId: Id,
    recordedBy: Id,
    eventType: EventType,
    eventDate: nat,
    title: string,
    description: string,
    details: map<string, Json>)

  /** Child ids are unique; event ids increase and are below the next one. */
  ghost predicate Filed(children: seq<Child>, events: seq<ChildEvent>, nextEventId: Id) {
    (forall i, j :: 0 <= i < j < |children| ==> children[i].id != children[j].id)
    && (forall i, j :: 0 <= i < j < |events| ==> events[i].id < events[j].id)
    && (forall k :: 0 <= k < |events| ==> events[k].id < nextEventId)
  }

  /** The children and child-events tables. */
  class Registry {
    var children: seq<Child>
    var events: seq<ChildEvent>
    var nextEventId: Id

    ghost predicate Valid()
      reads this
    {
      Filed(children, events, nextEventId)
    }

    constructor ()
      ensures Valid() && children == [] && events == []
    {
      children, events, nextEventId := [], [], 0;
    }
  }

  function FindChild(children: seq<Child>, id: Id): (i: Option<nat>)
    ensures i.Some? ==> i.value < |children| && children[i.value].id == id
    ensures i.None? ==> forall k :: 0 <= k < |children| ==> children[k].id != id
  {
    FirstIndex(children, (c: Child) => c.id == id)
  }

  lemma ReplaceKeepsFiled(children: seq<Child>, events: seq<ChildEvent>, next: Id, i: nat, c: Child)
    requires Filed(children, events, next) && i < |children| && c.id == children[i].id
    ensures Filed(children[i := c], events, next)
  {
  }

  lemma LogKeepsFiled(children: seq<Child>, events: seq<ChildEvent>, next: Id, e: ChildEvent)
    requires Filed(children, events, next) && e.id == next
    ensures Filed(children, events + [e], next + 1)
  {
  }

  // ---------------------------------------------------------------------------
  // The access check shared by get, update, delete and add-event

  /** An NGO may handle only the children it registered; an admin any child. */
  predicate MayHandle(viewer: User, c: Child) {
    viewer.role != Ngo || c.registeredBy == viewer.id
  }

  datatype Access = Missing | Refused | Granted(index: nat)

  /** 404 for an unknown child, then 403 for an NGO that did not register it. */
  function CheckAccess(children: seq<Child>, id: Id, viewer: User): (a: Access)
    ensures a.Missing? <==> FindChild(children, id).None?
    ensures a.Granted? <==> FindChild(children, id).Some? && MayHandle(viewer, children[FindChild(children, id).value])
    ensures a.Granted? ==> a.index == FindChild(children, id).value
  {
    match FindChild(children, id)
    case None => Missing
    case Some(i) => if MayHandle(viewer, children[i]) then Granted(i) else Refused
  }

  function Refusal<T>(a: Access): (r: Reply<T>)
    requires !a.Granted?
    ensures r.Denied? && (r.status == NotFound <==> a.Missing?) && (r.status == Forbidden <==> a.Refused?)
  {
    if a.Missing? then Denied(NotFound, "Child not found") else Denied(Forbidden, "Access denied")
  }

  /** `getChildById`: the record, whether or not it is archived, to whoever
      passes the access check. */
  function GetChildById(children: seq<Child>, id: Id, viewer: User): (r: Reply<Child>)
    ensures r.Shown? <==> CheckAccess(children, id, viewer).Granted?
    ensures r.Shown? ==> r.value in children && r.value.id == id && MayHandle(viewer, r.value)
    ensures CheckAccess(children, id, viewer).Missing? ==> r == Denied(NotFound, "Child not found")
    ensures CheckAccess(children, id, viewer).Refused? ==> r == Denied(Forbidden, "Access denied")
  {
    match CheckAccess(children, id, viewer)
    case Granted(i) => Shown(children[i])
    case a => Refusal(a)
  }

  // ---------------------------------------------------------------------------
  // updateChild

  function UpdateText(editor: User): string {
    "Child information was updated by " + Messages.NameText(editor, "firstName")
  }

  /** `updateChild`: refused with no change, or the body's changes stored (id
      kept) and exactly one status-update event, recorded by the editor, logged
      for the child. */
  method UpdateChild(registry: Registry, id: Id, editor: User, edit: Child -> Child, now: nat)
    returns (r: Reply<Child>)
    requires registry.Valid()
    modifies registry
    ensures registry.Valid()
    ensures !CheckAccess(old(registry.children), id, editor).Granted? ==>
              r == Refusal(CheckAccess(old(registry.children), id, editor))
              && registry.children == old(registry.children) && registry.events == old(registry.events)
    ensures CheckAccess(old(registry.children), id, editor).Granted? ==>
              var i := CheckAccess(old(registry.children), id, editor).index;
              r == Shown(edit(old(registry.children)[i]).(id := id))
              && registry.children == old(registry.children)[i := r.value]
              && registry.events == old(registry.events)
                 + [ChildEvent(old(registry.nextEventId), id, editor.id, StatusUpdate, now,
                               "Child Record Updated", UpdateText(editor), map[])]
  {
    var a := CheckAccess(registry.children, id, editor);
    if !a.Granted? {
      return Refusal(a);
    }
    var changed := edit(registry.children[a.index]).(id := id);
    ReplaceKeepsFiled(registry.children, registry.events, registry.nextEventId, a.index, changed);
    registry.children := registry.children[a.index := changed];
    var e := ChildEvent(registry.nextEventId, id, editor.id, StatusUpdate, now, "Child Record Updated",
                        UpdateText(editor), map[]);
    LogKeepsFiled(registry.children, registry.events, registry.nextEventId, e);
    registry.events := registry.events + [e];
    registry.nextEventId := registry.nextEventId + 1;
    return Shown(changed);
  }

  // ---------------------------------------------------------------------------
  // deleteChild: archive

  /** The archived record: inactive, stamped, with the given reason or
      "Archived by user"; everything else as it was. */
  function Archived(c: Child, reason: Option<string>, now: nat): (r: Child)
    ensures !r.isActive && r.archivedAt == Some(now)
    ensures r.archivedReason == Some(if TruthyStr(reason) then reason.value else "Archived by user")
    ensures r == c.(isActive := false, archivedAt := r.archivedAt, archivedReason := r.archivedReason)
  {
    c.(isActive := false, archivedAt := Some(now),
       archivedReason := Some(if TruthyStr(reason) then reason.value else "Archived by user"))
  }

  /** `deleteChild`: refused with no change, or the record archived in place;
      no record is removed. */
  method DeleteChild(registry: Registry, id: Id, viewer: User, reason: Option<string>, now: nat)
    returns (status: Status)
    requires registry.Valid()
    modifies registry
    ensures registry.Valid() && registry.events == old(registry.events)
    ensures |registry.children| == |old(registry.children)|
    ensures !CheckAccess(old(registry.children), id, viewer).Granted? ==>
              status == Refusal<Child>(CheckAccess(old(registry.children), id, viewer)).status
              && registry.children == old(registry.children)
    ensures CheckAccess(old(registry.children), id, viewer).Granted? ==>
              var i := CheckAccess(old(registry.children), id, viewer).index;
              status == Ok && registry.children == old(registry.children)[i := Archived(old(registry.children)[i], reason, now)]
  {
    var a := CheckAccess(registry.children, id, viewer);
    if !a.Granted? {
      return Refusal<Child>(a).status;
    }
    ReplaceKeepsFiled(registry.children, registry.events, registry.nextEventId, a.index,
                      Archived(registry.children[a.index], reason, now));
    registry.children := registry.children[a.index := Archived(registry.children[a.index], reason, now)];
    return Ok;
  }

  // ---------------------------------------------------------------------------
  // addChildEvent and getChildEvents

  /** The body of a new event; the attributes the table requires may be missing. */
  datatype EventBody = EventBody(eventType: Option<EventType>, eventDate: Option<nat>, title: Option<string>,
                                 description: Option<string>, details: map<string, Json>)

  predicate Complete(body: EventBody) {
    body.eventType.Some? && body.title.Some? && body.description.Some?
  }

  /** `addChildEvent`: refused with no change; a body lacking a required
      attribute fails with 500 and nothing stored; otherwise the event is
      stored for the child, recorded by the caller, dated now unless given. */
  method AddChildEvent(registry: Registry, id: Id, recorder: User, body: EventBody, now: nat)
    returns (r: Reply<ChildEvent>)
    requires registry.Valid()
    modifies registry
    ensures registry.Valid() && registry.children == old(registry.children)
    ensures !CheckAccess(old(registry.children), id, recorder).Granted? ==>
              r == Refusal(CheckAccess(old(registry.children), id, recorder)) && registry.events == old(registry.events)
    ensures CheckAccess(old(registry.children), id, recorder).Granted? && !Complete(body) ==>
              r.Denied? && r.status == ServerError && registry.events == old(registry.events)
    ensures CheckAccess(old(registry.children), id, recorder).Granted? && Complete(body) ==>
              r == Shown(ChildEvent(old(registry.nextEventId), id, recorder.id, body.eventType.value,
                                    if body.eventDate.Some? then body.eventDate.value else now,
                                    body.title.value, body.description.value, body.details))
              && registry.events == old(registry.events) + [r.value]
  {
    var a := CheckAccess(registry.children, id, recorder);
    if !a.Granted? {
      return Refusal(a);
    }
    if !Complete(body) {
      return Denied(ServerError, "notNull Violation");
    }
    var e := ChildEvent(registry.nextEventId, id, recorder.id, body.eventType.value,
                        if body.eventDate.Some? then body.eventDate.value else now,
                        body.title.value, body.description.value, body.details);
    LogKeepsFiled(registry.children, registry.events, registry.nextEventId, e);
    registry.events := registry.events + [e];
    registry.nextEventId := registry.nextEventId + 1;
    return Shown(e);
  }

  function EventListed(childId: Id, kind: Option<EventType>): ChildEvent -> bool {
    (e: ChildEvent) => e.childId == childId && (kind.None? || e.eventType == kind.value)
  }

  function EventDate(e: ChildEvent): int {
    e.eventDate
  }

  /** `getChildEvents`: the child's events, optionally of one type, newest
      first, one page of them. It takes no viewer: no ownership check is made,
      and an unknown child simply has no events. */
  function GetChildEvents(events: seq<ChildEvent>, childId: Id, kind: Option<EventType>, page: nat, limit: nat)
    : (p: Page<ChildEvent>)
    requires page >= 1 && limit >= 1
    ensures p.page == page && p.limit == limit
    ensures p.items == Paginate(Ranked(events, EventListed(childId, kind), EventDate), page, limit)
    ensures p.total == Count(events, EventListed(childId, kind))
    ensures p.pages == PageCount(p.total, limit) && |p.items| <= limit
    ensures forall e :: e in p.items ==> e in events && e.childId == childId && (kind.Some? ==> e.eventType == kind.value)
    ensures SortedDesc(p.items, EventDate)
  {
    ListQuery(events, EventListed(childId, kind), EventDate, page, limit)
  }

  /** An NGO refused a child's record still gets the child's events. */
  lemma EventsBypassOwnership(children: seq<Child>, events: seq<ChildEvent>, id: Id, viewer: User, k: nat)
    requires GetChildById(children, id, viewer) == Denied(Forbidden, "Access denied")
    requires k < |events| && events[k].childId == id
    ensures GetChildEvents(events, id, None, 1, |events|).total >= 1
  {
    assert EventListed(id, None)(events[k]);
    assert events[k] in Filter(events, EventListed(id, None));
  }

  // ---------------------------------------------------------------------------
  // getAllChildren

  /** Case-insensitive substring match on the names and the case number. */
  predicate Mentions(c: Child, search: string) {
    Includes(Lower(c.firstName), Lower(search)) || Includes(Lower(c.lastName), Lower(search))
    || Includes(Lower(c.caseNumber), Lower(search))
  }

  /** The registrar filter: an NGO always its own id; an admin the one asked
      for, if any; nobody else any. */
  function RegistrarFilter(viewer: User, registeredBy: Option<Id>): (f: Option<Id>)
    ensures viewer.role == Ngo ==> f == Some(viewer.id)
    ensures viewer.role != Ngo && viewer.role != Admin ==> f.None?
  {
    if viewer.role == Ngo then Some(viewer.id)
    else if viewer.role == Admin then registeredBy
    else None
  }

  function ChildListed(viewer: User, status: Option<ChildStatus>, search: Option<string>, registeredBy: Option<Id>)
    : Child -> bool
  {
    (c: Child) =>
      c.isActive
      && (status.None? || c.currentStatus == status.value)
      && (RegistrarFilter(viewer, registeredBy).None? || c.registeredBy == RegistrarFilter(viewer, registeredBy).value)
      && (!TruthyStr(search) || Mentions(c, search.value))
  }

  function ChildCreated(c: Child): int {
    c.createdAt
  }

  /** `getAllChildren`: active children only, an NGO only its own whatever it
      asks for, filtered, newest first, one page of them. */
  function GetAllChildren(children: seq<Child>, viewer: User, status: Option<ChildStatus>, search: Option<string>,
                          registeredBy: Option<Id>, page: nat, limit: nat): (p: Page<Child>)
    requires page >= 1 && limit >= 1
    ensures p.page == page && p.limit == limit
    ensures p.items == Paginate(Ranked(children, ChildListed(viewer, status, search, registeredBy), ChildCreated), page, limit)
    ensures p.total == Count(children, ChildListed(viewer, status, search, registeredBy))
    ensures p.pages == PageCount(p.total, limit) && |p.items| <= limit
    ensures forall c :: c in p.items ==>
              c in children && c.isActive && (viewer.role == Ngo ==> c.registeredBy == viewer.id)
              && (status.Some? ==> c.currentStatus == status.value)
    ensures SortedDesc(p.items, ChildCreated)
  {
    ListQuery(children, ChildListed(viewer, status, search, registeredBy), ChildCreated, page, limit)
  }

  /** An archived child leaves every listing but can still be opened by id. */
  lemma ArchivedUnlistedButOpen(children: seq<Child>, i: nat, viewer: User, reason: Option<string>, now: nat,
                                status: Option<ChildStatus>, search: Option<string>, registeredBy: Option<Id>)
    requires i < |children| && MayHandle(viewer, children[i])
    requires forall k :: 0 <= k < i ==> children[k].id != children[i].id
    ensures !ChildListed(viewer, status, search, registeredBy)(Archived(children[i], reason, now))
    ensures var after := children[i := Archived(children[i], reason, now)];
            GetChildById(after, children[i].id, viewer) == Shown(after[i])
  {
    var after := children[i := Archived(children[i], reason, now)];
    FindChildAt(after, i);
  }

  /** A child preceded by no other with its id is the one found. */
  lemma FindChildAt(children: seq<Child>, i: nat)
    requires i < |children|
    requires forall k :: 0 <= k < i ==> children[k].id != children[i].id
    ensures FindChild(children, children[i].id) == Some(i)
  {
  }

  // ---------------------------------------------------------------------------
  // getChildStatistics

  /** The statistics scope: active children, an NGO's own only. */
  function InStats(viewer: User): Child -> bool {
    (c: Child) => c.isActive && (viewer.role != Ngo || c.registeredBy == viewer.id)
  }

  function WithStatus(viewer: User, s: ChildStatus): Child -> bool {
    (c: Child) => InStats(viewer)(c) && c.currentStatus == s
  }

  /** The statuses in declaration order: the order of the `byStatus` counts. */
  function StatusAt(k: nat): ChildStatus
    requires k < 7
  {
    if k == 0 then Orphan else if k == 1 then Vulnerable else if k == 2 then Rescued
    else if k == 3 then InCare else if k == 4 then Adopted else if k == 5 then Reunited else Independent
  }

  /** Each status has exactly one slot in the breakdown. */
  lemma StatusAtIsOneToOne(st: ChildStatus)
    ensures exists k :: 0 <= k < 7 && StatusAt(k) == st
    ensures forall i, j :: 0 <= i < j < 7 ==> StatusAt(i) != StatusAt(j)
  {
    match st
    case Orphan => assert StatusAt(0) == st;
    case Vulnerable => assert StatusAt(1) == st;
    case Rescued => assert StatusAt(2) == st;
    case InCare => assert StatusAt(3) == st;
    case Adopted => assert StatusAt(4) == st;
    case Reunited => assert StatusAt(5) == st;
    case Independent => assert StatusAt(6) == st;
  }

  /** The `byStatus` counts, one per status, in declaration order. */
  function ByStatus(children: seq<Child>, viewer: User): seq<nat> {
    seq(7, k requires 0 <= k < 7 => Count(children, WithStatus(viewer, StatusAt(k))))
  }

  function SumOf(xs: seq<nat>): nat {
    if xs == [] then 0 else xs[0] + SumOf(xs[1..])
  }

  /** The per-status counts add up to the total: every child in scope has
      exactly one status. */
  lemma ByStatusSumsToTotal(children: seq<Child>, viewer: User)
    ensures SumOf(ByStatus(children, viewer)) == Count(children, InStats(viewer))
  {
    SumOfSeven(ByStatus(children, viewer));
    CountsSumToTotal(children, viewer);
  }

  /** The seven per-status counts added up. */
  function StatusTotal(children: seq<Child>, viewer: User): nat {
    Count(children, WithStatus(viewer, Orphan)) + Count(children, WithStatus(viewer, Vulnerable))
    + Count(children, WithStatus(viewer, Rescued)) + Count(children, WithStatus(viewer, InCare))
    + Count(children, WithStatus(viewer, Adopted)) + Count(children, WithStatus(viewer, Reunited))
    + Count(children, WithStatus(viewer, Independent))
  }

  lemma {:induction false} CountsSumToTotal(children: seq<Child>, viewer: User)
    ensures StatusTotal(children, viewer) == Count(children, InStats(viewer))
  {
    if children != [] {
      CountsSumToTotal(children[1..], viewer);
      StatusTotalCons(children, viewer);
      CountCons(children, InStats(viewer));
    }
  }

  /** The first child adds one to the seven counts together exactly when it is
      in scope. */
  lemma StatusTotalCons(children: seq<Child>, viewer: User)
    requires children != []
    ensures StatusTotal(children, viewer) == (if InStats(viewer)(children[0]) then 1 else 0) + StatusTotal(children[1..], viewer)
  {
    StatusCountCons(children, viewer, Orphan);
    StatusCountCons(children, viewer, Vulnerable);
    StatusCountCons(children, viewer, Rescued);
    StatusCountCons(children, viewer, InCare);
    StatusCountCons(children, viewer, Adopted);
    StatusCountCons(children, viewer, Reunited);
    StatusCountCons(children, viewer, Independent);
    HitsSumToOne(children[0], viewer);
  }

  /** 1 when `c` is in scope with status `s`, else 0. */
  function Hit(c: Child, viewer: User, s: ChildStatus): nat {
    if InStats(viewer)(c) && c.currentStatus == s then 1 else 0
  }

  lemma StatusCountCons(children: seq<Child>, viewer: User, s: ChildStatus)
    requires children != []
    ensures Count(children, WithStatus(viewer, s)) == Hit(children[0], viewer, s) + Count(children[1..], WithStatus(viewer, s))
  {
    CountCons(children, WithStatus(viewer, s));
  }

  lemma HitsSumToOne(c: Child, viewer: User)
    ensures Hit(c, viewer, Orphan) + Hit(c, viewer, Vulnerable) + Hit(c, viewer, Rescued) + Hit(c, viewer, InCare)
            + Hit(c, viewer, Adopted) + Hit(c, viewer, Reunited) + Hit(c, viewer, Independent)
            == if InStats(viewer)(c) then 1 else 0
  {
  }

  lemma SumOfSeven(xs: seq<nat>)
    requires |xs| == 7
    ensures SumOf(xs) == xs[0] + xs[1] + xs[2] + xs[3] + xs[4] + xs[5] + xs[6]
  {
    assert SumOf(xs[6..]) == xs[6] by { assert xs[6..][1..] == []; }
    assert SumOf(xs[5..]) == xs[5] + SumOf(xs[6..]) by { assert xs[5..][1..] == xs[6..]; }
    assert SumOf(xs[4..]) == xs[4] + SumOf(xs[5..]) by { assert xs[4..][1..] == xs[5..]; }
    assert SumOf(xs[3..]) == xs[3] + SumOf(xs[4..]) by { assert xs[3..][1..] == xs[4..]; }
    assert SumOf(xs[2..]) == xs[2] + SumOf(xs[3..]) by { assert xs[2..][1..] == xs[3..]; }
    assert SumOf(xs[1..]) == xs[1] + SumOf(xs[2..]) by { assert xs[1..][1..] == xs[2..]; }
  }

  datatype ChildStats = ChildStats(totalChildren: nat, byStatus: seq<nat>)

  /** `getChildStatistics` (the status breakdown; the age and gender
      breakdowns are not modelled). */
  function GetChildStatistics(children: seq<Child>, viewer: User): (s: ChildStats)
    ensures s.totalChildren == Count(children, InStats(viewer))
    ensures |s.byStatus| == 7 && SumOf(s.byStatus) == s.totalChildren
    ensures forall k :: 0 <= k < 7 ==> s.byStatus[k] == Count(children, WithStatus(viewer, StatusAt(k)))
  {
    ByStatusSumsToTotal(children, viewer);
    ChildStats(Count(children, InStats(viewer)), ByStatus(children, viewer))
  }
}
