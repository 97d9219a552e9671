/** Notifications: the record and its defaults (backend/src/models/Notification.js),
    the dispatcher and read-state service (backend/src/services/notificationService.js)
    and the owner-scoped listing and delete handlers
    (backend/src/controllers/notificationController.js). The email and SMS
    adapters appear only through their result contract. */
module Notifications {
  import opened Common
  import opened Users

  datatype NotificationType =
    | DonationReceived | DonationAllocated | ImpactReport | EnrollmentApproved | EnrollmentRejected
    | TrainingStarted | TrainingCompleted | CertificateIssued | ChildUpdate | CollaborationInvite
    | CollaborationResponse | MessageReceived | UserApproved | UserRejected | System | Other

  datatype Priority = Low | Normal | High | Urgent

  /** The optional settings of `createNotification`; `None` is an absent option. */
  datatype Options = Options(
    relatedTo: Option<Id>,
    relatedType: Option<string>,
    actionUrl: Option<string>,
    priority: Option<Priority>,
    deliveryChannels: Option<seq<string>>,
    metadata: Option<map<string, Json>>)

  const NoOptions: Options := Options(None, None, None, None, None, None)

  datatype Notification = Notification(
    id: Id,
    userId: Id,
    kind: NotificationType,
    title: string,
    message: string,
    relatedTo: Option<Id>,
    relatedType: Option<string>,
    actionUrl: Option<string>,
    priority: Priority,
    isRead: bool,
    readAt: Option<nat>,
    deliveryChannels: seq<string>,
    emailSent: bool,
    smsSent: bool,
    pushSent: bool,
    metadata: map<string, Json>,
    createdAt: nat)

  /** `options.deliveryChannels || ['in_app']` */
  function Channels(options: Options): seq<string> {
    if options.deliveryChannels.Some? then options.deliveryChannels.value else ["in_app"]
  }

  /** The record as first stored: the given fields, the option defaults, unread
      and nothing sent. */
  function BaseRecord(id: Id, userId: Id, kind: NotificationType, title: string, message: string,
                      options: Options, now: nat): (n: Notification)
    ensures n.id == id && n.userId == userId && n.kind == kind && n.title == title && n.message == message
    ensures n.priority == (if options.priority.Some? then options.priority.value else Normal)
    ensures n.deliveryChannels == Channels(options)
    ensures n.metadata == (if options.metadata.Some? then options.metadata.value else map[])
    ensures !n.isRead && n.readAt.None? && !n.emailSent && !n.smsSent && !n.pushSent
  {
    Notification(id, userId, kind, title, message, options.relatedTo, options.relatedType, options.actionUrl,
                 if options.priority.Some? then options.priority.value else Normal,
                 false, None, Channels(options), false, false, false,
                 if options.metadata.Some? then options.metadata.value else map[], now)
  }

  /** A mail or SMS transport: switched off for want of credentials, or a
      provider call that succeeds or fails. */
  datatype Adapter = Disabled | Provider(delivers: bool)

  /** The adapter's `{success}`: a disabled adapter reports success without
      sending; a provider error is caught and reported as failure. */
  predicate Success(a: Adapter) {
    a.Disabled? || a.delivers
  }

  /** Email goes out only when requested and the recipient has a verified address. */
  predicate EmailEligible(channels: seq<string>, u: User) {
    "email" in channels && u.email != "" && u.emailVerified
  }

  /** SMS goes out only when requested and the recipient has a verified phone number. */
  predicate SmsEligible(channels: seq<string>, u: User) {
    "sms" in channels && "phoneNumber" in u.profile && Truthy(u.profile["phoneNumber"]) && u.phoneVerified
  }

  /** Ids increase along the rows and stay below `next`. */
  ghost predicate IdsBelow(rows: seq<Notification>, next: nat) {
    (forall i, j :: 0 <= i < j < |rows| ==> rows[i].id < rows[j].id)
    && (forall i :: 0 <= i < |rows| ==> rows[i].id < next)
  }

  lemma AppendIdsBelow(rows: seq<Notification>, next: nat, n: Notification)
    requires IdsBelow(rows, next) && n.id == next
    ensures IdsBelow(rows + [n], next + 1)
  {
  }

  lemma SameIdIdsBelow(rows: seq<Notification>, next: nat, i: nat, n: Notification)
    requires IdsBelow(rows, next) && i < |rows| && n.id == rows[i].id
    ensures IdsBelow(rows[i := n], next)
  {
  }

  /** The stored notifications. */
  class NotificationStore {
    var rows: seq<Notification>
    var nextId: nat

    /** Ids are handed out in increasing order. */
    ghost predicate Valid()
      reads this
    {
      IdsBelow(rows, nextId)
    }

    constructor ()
      ensures Valid() && rows == []
    {
      rows := [];
      nextId := 0;
    }
  }

  /** `createNotification`: store the base record, then, if the recipient
      exists, send on each eligible channel and record each adapter's result.
      Push is marked sent whenever it is requested. */
  method CreateNotification(store: NotificationStore, users: seq<User>, userId: Id, kind: NotificationType,
                            title: string, message: string, options: Options, now: nat,
                            email: Adapter, sms: Adapter)
    returns (n: Notification, emailCalled: bool, smsCalled: bool)
    requires store.Valid()
    modifies store
    ensures store.Valid()
    ensures store.rows == old(store.rows) + [n]
    ensures n == BaseRecord(old(store.nextId), userId, kind, title, message, options, now)
                   .(emailSent := n.emailSent, smsSent := n.smsSent, pushSent := n.pushSent)
    ensures var u := FindUser(users, userId);
            emailCalled == (u.Some? && EmailEligible(Channels(options), u.value))
            && smsCalled == (u.Some? && SmsEligible(Channels(options), u.value))
            && n.emailSent == (emailCalled && Success(email))
            && n.smsSent == (smsCalled && Success(sms))
            && n.pushSent == (u.Some? && "push" in Channels(options))
  {
    n := BaseRecord(store.nextId, userId, kind, title, message, options, now);
    AppendIdsBelow(store.rows, store.nextId, n);
    store.rows := store.rows + [n];
    store.nextId := store.nextId + 1;
    emailCalled, smsCalled := false, false;
    var user := FindUser(users, userId);
    if user.None? {
      return;
    }
    var channels := Channels(options);
    if EmailEligible(channels, user.value) {
      emailCalled := true;
      n := n.(emailSent := Success(email));
    }
    if SmsEligible(channels, user.value) {
      smsCalled := true;
      n := n.(smsSent := Success(sms));
    }
    if "push" in channels {
      n := n.(pushSent := true);
    }
    // the three flag updates land on the row just created
    SameIdIdsBelow(store.rows, store.nextId, |store.rows| - 1, n);
    store.rows := store.rows[|store.rows| - 1 := n];
  }

  /** With the default channel list no adapter is called and nothing is marked
      sent. */
  lemma InAppOnlySendsNothing()
    ensures Channels(NoOptions) == ["in_app"]
    ensures forall u :: !EmailEligible(Channels(NoOptions), u) && !SmsEligible(Channels(NoOptions), u)
    ensures "push" !in Channels(NoOptions)
  {
  }

  /** One settled outcome of `Promise.allSettled`. */
  datatype Settled = Fulfilled(n: Notification) | Rejected

  /** The notifications of the fulfilled outcomes, in order. */
  function FulfilledRecords(outcomes: seq<Settled>): (r: seq<Notification>)
    ensures |r| <= |outcomes|
  {
    if outcomes == [] then []
    else (if outcomes[0].Fulfilled? then [outcomes[0].n] else []) + FulfilledRecords(outcomes[1..])
  }

  lemma {:induction false} FulfilledRecordsSnoc(outcomes: seq<Settled>, o: Settled)
    ensures FulfilledRecords(outcomes + [o]) == FulfilledRecords(outcomes) + (if o.Fulfilled? then [o.n] else [])
  {
    if outcomes == [] {
      assert outcomes + [o] == [o];
    } else {
      var head := if outcomes[0].Fulfilled? then [outcomes[0].n] else [];
      var tail := if o.Fulfilled? then [o.n] else [];
      assert (outcomes + [o])[1..] == outcomes[1..] + [o];
      FulfilledRecordsSnoc(outcomes[1..], o);
      assert FulfilledRecords(outcomes + [o]) == head + (FulfilledRecords(outcomes[1..]) + tail);
      assert head + (FulfilledRecords(outcomes[1..]) + tail) == (head + FulfilledRecords(outcomes[1..])) + tail;
    }
  }

  /** One recipient of a bulk send: rejected when its insert fails, otherwise
      the outcome of `createNotification`. */
  method Settle(store: NotificationStore, users: seq<User>, userId: Id, kind: NotificationType,
                title: string, message: string, options: Options, now: nat,
                inserted: bool, email: Adapter, sms: Adapter)
    returns (o: Settled)
    requires store.Valid()
    modifies store
    ensures store.Valid()
    ensures o.Fulfilled? <==> inserted
    ensures o.Fulfilled? ==> o.n.userId == userId && o.n.kind == kind && o.n.title == title
    ensures store.rows == old(store.rows) + (if o.Fulfilled? then [o.n] else [])
  {
    if !inserted {
      return Rejected;
    }
    var n, _, _ := CreateNotification(store, users, userId, kind, title, message, options, now, email, sms);
    return Fulfilled(n);
  }

  /** Outcome `o` is the one expected for a recipient `userId` whose insert
      succeeded iff `inserted`. */
  predicate SettledFor(o: Settled, inserted: bool, userId: Id, kind: NotificationType) {
    (o.Fulfilled? <==> inserted) && (o.Fulfilled? ==> o.n.userId == userId && o.n.kind == kind)
  }

  /** `createBulkNotifications`: one outcome per recipient, in input order. A
      recipient whose insert fails (`inserts[i]` false) is rejected and the
      others carry on; the store gains exactly the fulfilled records. */
  method CreateBulkNotifications(store: NotificationStore, users: seq<User>, userIds: seq<Id>,
                                 kind: NotificationType, title: string, message: string, options: Options,
                                 now: nat, inserts: seq<bool>, emails: seq<Adapter>, smses: seq<Adapter>)
    returns (outcomes: seq<Settled>)
    requires store.Valid()
    requires |inserts| == |userIds| && |emails| == |userIds| && |smses| == |userIds|
    modifies store
    ensures store.Valid()
    ensures |outcomes| == |userIds|
    ensures forall i :: 0 <= i < |userIds| ==> SettledFor(outcomes[i], inserts[i], userIds[i], kind)
    ensures store.rows == old(store.rows) + FulfilledRecords(outcomes)
  {
    outcomes := [];
    ghost var start := store.rows;
    var k := 0;
    while k < |userIds|
      invariant 0 <= k <= |userIds| && |outcomes| == k
      invariant store.Valid()
      invariant forall i :: 0 <= i < k ==> SettledFor(outcomes[i], inserts[i], userIds[i], kind)
      invariant store.rows == start + FulfilledRecords(outcomes)
    {
      var o := Settle(store, users, userIds[k], kind, title, message, options, now, inserts[k], emails[k], smses[k]);
      assert SettledFor(o, inserts[k], userIds[k], kind);
      FulfilledRecordsSnoc(outcomes, o);
      ghost var added := if o.Fulfilled? then [o.n] else [];
      assert store.rows == start + (FulfilledRecords(outcomes) + added);
      outcomes := outcomes + [o];
      k := k + 1;
    }
  }

  lemma {:induction false} CountSnoc<T>(s: seq<T>, x: T, p: T -> bool)
    ensures Count(s + [x], p) == Count(s, p) + if p(x) then 1 else 0
  {
    if s == [] {
      assert s + [x] == [x];
    } else {
      assert (s + [x])[1..] == s[1..] + [x];
      CountSnoc(s[1..], x, p);
    }
  }

  // ---------------------------------------------------------------------------
  // Read state

  /** `markAsRead`: the caller's own notification becomes read at `now` (an
      earlier `readAt` is overwritten); an absent or foreign id is not found and
      nothing changes. */
  method MarkAsRead(store: NotificationStore, id: Id, userId: Id, now: nat) returns (found: bool)
    requires store.Valid()
    modifies store
    ensures store.Valid()
    ensures var i := FirstIndex(old(store.rows), (n: Notification) => n.id == id && n.userId == userId);
            found == i.Some?
            && (i.None? ==> store.rows == old(store.rows))
            && (i.Some? ==> store.rows == old(store.rows)[i.value := old(store.rows)[i.value].(isRead := true, readAt := Some(now))])
    ensures store.nextId == old(store.nextId)
  {
    var i := FirstIndex(store.rows, (n: Notification) => n.id == id && n.userId == userId);
    if i.None? {
      return false;
    }
    var n := store.rows[i.value];
    store.rows := store.rows[i.value := n.(isRead := true, readAt := Some(now))];
    return true;
  }

  /** Each of the user's unread notifications becomes read at `now`; everything
      else is kept as it was. */
  function MarkAllRows(rows: seq<Notification>, userId: Id, now: nat): (r: seq<Notification>)
    ensures |r| == |rows|
    ensures forall i :: 0 <= i < |rows| ==>
              r[i] == if rows[i].userId == userId && !rows[i].isRead
                      then rows[i].(isRead := true, readAt := Some(now)) else rows[i]
  {
    seq(|rows|, i requires 0 <= i < |rows| =>
      if rows[i].userId == userId && !rows[i].isRead then rows[i].(isRead := true, readAt := Some(now)) else rows[i])
  }

  /** `markAllAsRead`: one bulk update of the user's unread rows. */
  method MarkAllAsRead(store: NotificationStore, userId: Id, now: nat)
    requires store.Valid()
    modifies store
    ensures store.Valid()
    ensures store.rows == MarkAllRows(old(store.rows), userId, now)
    ensures store.nextId == old(store.nextId)
  {
    store.rows := MarkAllRows(store.rows, userId, now);
  }

  /** The notifications `getUnreadCount` counts. */
  predicate UnreadOf(userId: Id, n: Notification) {
    n.userId == userId && !n.isRead
  }

  /** `getUnreadCount`: the user's notifications that are not read. */
  function UnreadCount(rows: seq<Notification>, userId: Id): (c: nat)
    ensures c <= |rows|
    ensures c == 0 <==> forall i :: 0 <= i < |rows| ==> !UnreadOf(userId, rows[i])
  {
    Count(rows, (n: Notification) => UnreadOf(userId, n))
  }

  /** After marking all, the user has nothing unread. */
  lemma UnreadZeroAfterMarkAll(rows: seq<Notification>, userId: Id, now: nat)
    ensures UnreadCount(MarkAllRows(rows, userId, now), userId) == 0
  {
    var r := MarkAllRows(rows, userId, now);
    assert forall i :: 0 <= i < |r| ==> !UnreadOf(userId, r[i]);
  }

  /** Marking all for one user changes no other user's unread count. */
  lemma MarkAllKeepsOthersUnread(rows: seq<Notification>, userId: Id, other: Id, now: nat)
    requires other != userId
    ensures UnreadCount(MarkAllRows(rows, userId, now), other) == UnreadCount(rows, other)
  {
    var r := MarkAllRows(rows, userId, now);
    CountSame(rows, r, (n: Notification) => UnreadOf(other, n));
  }

  lemma {:induction false} CountSame<T>(a: seq<T>, b: seq<T>, p: T -> bool)
    requires |a| == |b|
    requires forall i :: 0 <= i < |a| ==> p(a[i]) == p(b[i])
    ensures Count(a, p) == Count(b, p)
  {
    if a != [] {
      CountSame(a[1..], b[1..], p);
    }
  }

  /** A new notification adds one to its recipient's unread count. */
  lemma CreateAddsUnread(rows: seq<Notification>, n: Notification)
    requires !n.isRead
    ensures UnreadCount(rows + [n], n.userId) == UnreadCount(rows, n.userId) + 1
  {
    CountSnoc(rows, n, (m: Notification) => UnreadOf(n.userId, m));
  }

  // ---------------------------------------------------------------------------
  // Controller: listing and delete

  /** The listing's where-clause: the caller's own notifications, narrowed by
      read state ("true" means read, any other supplied value unread) and type. */
  predicate Listed(caller: Id, isRead: Option<string>, kind: Option<NotificationType>, n: Notification) {
    n.userId == caller
    && (isRead.Some? ==> n.isRead == (isRead.value == "true"))
    && (kind.Some? ==> n.kind == kind.value)
  }

  function CreatedAt(n: Notification): int { n.createdAt }

  /** `getNotifications`: filter, newest first, one page of `limit` from offset
      (page - 1) * limit, with the total and the page count of all matches. */
  function GetNotifications(rows: seq<Notification>, caller: Id, isRead: Option<string>,
                            kind: Option<NotificationType>, page: nat, limit: nat): (p: Page<Notification>)
    requires page >= 1 && limit >= 1
    ensures |p.items| <= limit && p.page == page && p.limit == limit
    ensures forall n :: n in p.items ==> n in rows && n.userId == caller
    ensures isRead.Some? ==> forall n :: n in p.items ==> n.isRead == (isRead.value == "true")
    ensures kind.Some? ==> forall n :: n in p.items ==> n.kind == kind.value
    ensures p.items == Paginate(Ranked(rows, (n: Notification) => Listed(caller, isRead, kind, n), CreatedAt), page, limit)
    ensures p.total == Count(rows, (n: Notification) => Listed(caller, isRead, kind, n))
    ensures p.pages == PageCount(p.total, limit)
    ensures SortedDesc(p.items, CreatedAt)
  {
    var q := ListQuery(rows, (n: Notification) => Listed(caller, isRead, kind, n), CreatedAt, page, limit);
    assert forall n :: n in q.items ==> Listed(caller, isRead, kind, n);
    q
  }

  /** `deleteNotification`: removes exactly the caller's record with that id;
      404 and no change otherwise. */
  method DeleteNotification(store: NotificationStore, id: Id, caller: Id) returns (status: Status)
    requires store.Valid()
    modifies store
    ensures store.Valid()
    ensures store.nextId == old(store.nextId)
    ensures var i := FirstIndex(old(store.rows), (n: Notification) => n.id == id && n.userId == caller);
            (i.None? ==> status == NotFound && store.rows == old(store.rows))
            && (i.Some? ==> status == Ok && store.rows == old(store.rows)[..i.value] + old(store.rows)[i.value + 1..])
  {
    var i := FirstIndex(store.rows, (n: Notification) => n.id == id && n.userId == caller);
    if i.None? {
      return NotFound;
    }
    store.rows := store.rows[..i.value] + store.rows[i.value + 1..];
    return Ok;
  }

  /** Delete leaves every other notification in place and removes only the one
      matched. */
  lemma DeleteRemovesOnlyTarget(rows: seq<Notification>, i: nat)
    requires i < |rows|
    requires forall a, b :: 0 <= a < b < |rows| ==> rows[a].id < rows[b].id
    ensures var after := rows[..i] + rows[i + 1..];
            |after| == |rows| - 1 && rows[i] !in after
            && forall n :: n in rows && n != rows[i] ==> n in after
  {
    var after := rows[..i] + rows[i + 1..];
    forall n | n in after ensures n != rows[i] {
      var k :| 0 <= k < |after| && after[k] == n;
      if k < i { assert after[k] == rows[k]; } else { assert after[k] == rows[k + 1]; }
    }
    forall n | n in rows && n != rows[i] ensures n in after {
      var k :| 0 <= k < |rows| && rows[k] == n;
      if k < i { assert after[k] == n; } else { assert after[k - 1] == n; }
    }
  }

  /** Exactly one unread notification of `kind` about `relatedTo` was added for
      `userId`, after the rows that were there. */
  predicate Notified(before: seq<Notification>, after: seq<Notification>, userId: Id, kind: NotificationType,
                     relatedTo: Id) {
    |after| == |before| + 1 && after[..|before|] == before
    && after[|before|].userId == userId && after[|before|].kind == kind
    && after[|before|].relatedTo == Some(relatedTo) && !after[|before|].isRead
  }
}
