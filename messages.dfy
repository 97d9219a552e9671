/** Direct messages between users (backend/src/controllers/messageController.js,
    backend/src/models/Message.js): sending with a notification to the
    recipient, the inbox and sent listings, viewing, read and archive flags, and
    the combined unread counter. */
module Messages {
  import opened Common
  import opened Strings
  import opened Users
  import opened Notifications

  datatype MessageType = Direct | Collaboration | Support | NotificationMessage

  /** A stored message. Dates are milliseconds since the epoch; `None` is NULL. */
  datatype Message = Message(
    id: Id,
    senderId: Id,
    recipientId: Id,
    subject: Option<string>,
    content: string,
    messageType: MessageType,
    relatedTo: Option<Id>,
    relatedType: Option<string>,
    priority: Priority,
    isRead: bool,
    readAt: Option<nat>,
    isArchived: bool,
    archivedAt: Option<nat>,
    createdAt: nat)

  /** The messages table. */
  class Mailbox {
    var rows: seq<Message>
    var nextId: nat

    /** Ids are handed out in increasing order. */
    ghost predicate Valid()
      reads this
    {
      (forall i, j :: 0 <= i < j < |rows| ==> rows[i].id < rows[j].id)
      && (forall i :: 0 <= i < |rows| ==> rows[i].id < nextId)
    }

    constructor ()
      ensures Valid() && rows == []
    {
      rows := [];
      nextId := 0;
    }
  }

  // ---------------------------------------------------------------------------
  // Sending

  /** The message as `sendMessage` creates it: type "direct" and priority
      "normal" unless given, unread and not archived. */
  function NewMessage(id: Id, senderId: Id, recipientId: Id, subject: Option<string>, content: string,
                      messageType: Option<MessageType>, relatedTo: Option<Id>, relatedType: Option<string>,
                      priority: Option<Priority>, now: nat): (m: Message)
    ensures m.id == id && m.senderId == senderId && m.recipientId == recipientId && m.content == content
    ensures m.messageType == (if messageType.Some? then messageType.value else Direct)
    ensures m.priority == (if priority.Some? then priority.value else Normal)
    ensures !m.isRead && m.readAt.None? && !m.isArchived && m.archivedAt.None? && m.createdAt == now
  {
    Message(id, senderId, recipientId, subject, content,
            if messageType.Some? then messageType.value else Direct,
            relatedTo, relatedType,
            if priority.Some? then priority.value else Normal,
            false, None, false, None, now)
  }

  /** How a template literal prints a profile attribute: a string as itself,
      null as "null" and a missing attribute as "undefined". Names are stored
      as strings, so no other kind of value reaches it. */
  function NameText(u: User, field: string): string {
    if field !in u.profile then "undefined"
    else match u.profile[field]
      case JStr(s) => s
      case JNull => "null"
      case _ => ""
  }

  /** The text of the notification announcing a message from `sender`. */
  function NoticeText(sender: User): string {
    "You have a new message from " + NameText(sender, "firstName") + " " + NameText(sender, "lastName")
  }

  /** The notification options: the message as related entity, a link to it,
      and the in-app and email channels. */
  function NoticeOptions(messageId: Id): (o: Options)
    ensures o.relatedTo == Some(messageId) && o.relatedType == Some("message")
    ensures o.actionUrl.Some? && |o.actionUrl.value| > 10 && o.actionUrl.value[..10] == "/messages/"
    ensures o.actionUrl.Some? && |o.actionUrl.value| > 10 ==>
              var digits := o.actionUrl.value[10..];
              (forall i :: 0 <= i < |digits| ==> '0' <= digits[i] <= '9') && DigitsValue(digits) == messageId
    ensures Channels(o) == ["in_app", "email"] && o.priority.None? && o.metadata.None?
  {
    NatToStringValue(messageId);
    var url := "/messages/" + NatToString(messageId);
    assert url[10..] == NatToString(messageId);
    Options(Some(messageId), Some("message"), Some(url),
            None, Some(["in_app", "email"]), None)
  }

  /** `Message.create(...)`: store a new message under the next id. */
  method Post(mailbox: Mailbox, senderId: Id, recipientId: Id, subject: Option<string>, content: string,
              messageType: Option<MessageType>, relatedTo: Option<Id>, relatedType: Option<string>,
              priority: Option<Priority>, now: nat) returns (m: Message)
    requires mailbox.Valid()
    modifies mailbox
    ensures mailbox.Valid()
    ensures m == NewMessage(old(mailbox.nextId), senderId, recipientId, subject, content,
                            messageType, relatedTo, relatedType, priority, now)
    ensures mailbox.rows == old(mailbox.rows) + [m]
    ensures mailbox.nextId == old(mailbox.nextId) + 1
  {
    m := NewMessage(mailbox.nextId, senderId, recipientId, subject, content,
                    messageType, relatedTo, relatedType, priority, now);
    mailbox.rows := mailbox.rows + [m];
    mailbox.nextId := mailbox.nextId + 1;
  }

  /** `sendMessage`: 404 and no change when the recipient does not exist;
      otherwise the message is stored and its recipient notified in-app and by
      email, and the answer is 201 with the message. */
  method SendMessage(mailbox: Mailbox, notes: NotificationStore, users: seq<User>, sender: User,
                     recipientId: Id, subject: Option<string>, content: string,
                     messageType: Option<MessageType>, relatedTo: Option<Id>, relatedType: Option<string>,
                     priority: Option<Priority>, now: nat, email: Adapter, sms: Adapter)
    returns (status: Status, sent: Option<Message>, note: Option<Notification>)
    requires mailbox.Valid() && notes.Valid()
    modifies mailbox, notes
    ensures mailbox.Valid() && notes.Valid()
    ensures FindUser(users, recipientId).None? ==>
              status == NotFound && sent.None? && note.None?
              && mailbox.rows == old(mailbox.rows) && notes.rows == old(notes.rows)
    ensures FindUser(users, recipientId).Some? ==>
              status == Created && sent.Some? && note.Some?
              && sent.value == NewMessage(old(mailbox.nextId), sender.id, recipientId, subject, content,
                                          messageType, relatedTo, relatedType, priority, now)
              && mailbox.rows == old(mailbox.rows) + [sent.value]
              && notes.rows == old(notes.rows) + [note.value]
              && note.value.userId == recipientId && note.value.kind == MessageReceived
              && note.value.title == "New Message" && note.value.message == NoticeText(sender)
              && note.value.relatedTo == Some(sent.value.id)
              && note.value.deliveryChannels == ["in_app", "email"]
              && !note.value.isRead
  {
    if FindUser(users, recipientId).None? {
      return NotFound, None, None;
    }
    var m := Post(mailbox, sender.id, recipientId, subject, content, messageType, relatedTo, relatedType, priority, now);
    var n, _, _ := CreateNotification(notes, users, recipientId, MessageReceived, "New Message",
                                      NoticeText(sender), NoticeOptions(m.id), now, email, sms);
    return Created, Some(m), Some(n);
  }

  // ---------------------------------------------------------------------------
  // Listings

  /** The inbox where-clause: received, not archived, narrowed by read state
      ("true" means read, any other supplied value unread) and type. */
  predicate InInbox(caller: Id, isRead: Option<string>, messageType: Option<MessageType>, m: Message) {
    m.recipientId == caller && !m.isArchived
    && (isRead.Some? ==> m.isRead == (isRead.value == "true"))
    && (messageType.Some? ==> m.messageType == messageType.value)
  }

  /** The sent-box where-clause: sent by the caller and not archived. */
  predicate InSent(caller: Id, m: Message) {
    m.senderId == caller && !m.isArchived
  }

  function SentAt(m: Message): int { m.createdAt }

  /** `getInbox`: one page of the caller's received, unarchived messages, newest
      first, with the total count of matches. */
  function GetInbox(rows: seq<Message>, caller: Id, isRead: Option<string>, messageType: Option<MessageType>,
                    page: nat, limit: nat): (p: Page<Message>)
    requires page >= 1 && limit >= 1
    ensures |p.items| <= limit && p.page == page && p.limit == limit
    ensures forall m :: m in p.items ==> m in rows && m.recipientId == caller && !m.isArchived
    ensures isRead.Some? ==> forall m :: m in p.items ==> m.isRead == (isRead.value == "true")
    ensures messageType.Some? ==> forall m :: m in p.items ==> m.messageType == messageType.value
    ensures p.items == Paginate(Ranked(rows, (m: Message) => InInbox(caller, isRead, messageType, m), SentAt), page, limit)
    ensures p.total == Count(rows, (m: Message) => InInbox(caller, isRead, messageType, m))
    ensures p.pages == PageCount(p.total, limit)
    ensures SortedDesc(p.items, SentAt)
  {
    var q := ListQuery(rows, (m: Message) => InInbox(caller, isRead, messageType, m), SentAt, page, limit);
    assert forall m :: m in q.items ==> InInbox(caller, isRead, messageType, m);
    q
  }

  /** `getSentMessages`: one page of the caller's sent, unarchived messages,
      newest first. */
  function GetSentMessages(rows: seq<Message>, caller: Id, page: nat, limit: nat): (p: Page<Message>)
    requires page >= 1 && limit >= 1
    ensures |p.items| <= limit && p.page == page && p.limit == limit
    ensures forall m :: m in p.items ==> m in rows && m.senderId == caller && !m.isArchived
    ensures p.items == Paginate(Ranked(rows, (m: Message) => InSent(caller, m), SentAt), page, limit)
    ensures p.total == Count(rows, (m: Message) => InSent(caller, m))
    ensures p.pages == PageCount(p.total, limit)
    ensures SortedDesc(p.items, SentAt)
  {
    var q := ListQuery(rows, (m: Message) => InSent(caller, m), SentAt, page, limit);
    assert forall m :: m in q.items ==> InSent(caller, m);
    q
  }

  // ---------------------------------------------------------------------------
  // Viewing and flags

  /** `Message.findByPk(id)`. */
  function FindMessage(rows: seq<Message>, id: Id): (i: Option<nat>)
    ensures i.Some? ==> i.value < |rows| && rows[i.value].id == id
    ensures i.None? ==> forall k :: 0 <= k < |rows| ==> rows[k].id != id
  {
    FirstIndex(rows, (m: Message) => m.id == id)
  }

  /** What viewing does to a message: its recipient reading an unread message
      marks it read now; anything else leaves it as it was. */
  function Viewed(m: Message, caller: Id, now: nat): (r: Message)
    ensures m.recipientId == caller ==> r.isRead
    ensures r.readAt == (if m.recipientId == caller && !m.isRead then Some(now) else m.readAt)
    ensures r == m.(isRead := r.isRead, readAt := r.readAt)
  {
    if m.recipientId == caller && !m.isRead then m.(isRead := true, readAt := Some(now)) else m
  }

  /** A second view keeps the time of the first reading. */
  lemma ViewedTwice(m: Message, caller: Id, t1: nat, t2: nat)
    ensures Viewed(Viewed(m, caller, t1), caller, t2) == Viewed(m, caller, t1)
  {
  }

  /** `getMessageById`: 404 for an unknown id, 403 unless the caller sent or
      received it; otherwise the message as viewed, stored back. */
  method GetMessageById(mailbox: Mailbox, id: Id, caller: Id, now: nat) returns (status: Status, shown: Option<Message>)
    requires mailbox.Valid()
    modifies mailbox
    ensures mailbox.Valid() && mailbox.nextId == old(mailbox.nextId)
    ensures var i := FindMessage(old(mailbox.rows), id);
            (i.None? ==> status == NotFound && shown.None? && mailbox.rows == old(mailbox.rows))
            && (i.Some? && old(mailbox.rows)[i.value].senderId != caller && old(mailbox.rows)[i.value].recipientId != caller ==>
                  status == Forbidden && shown.None? && mailbox.rows == old(mailbox.rows))
            && (i.Some? && (old(mailbox.rows)[i.value].senderId == caller || old(mailbox.rows)[i.value].recipientId == caller) ==>
                  status == Ok && shown == Some(Viewed(old(mailbox.rows)[i.value], caller, now))
                  && mailbox.rows == old(mailbox.rows)[i.value := shown.value])
  {
    var i := FindMessage(mailbox.rows, id);
    if i.None? {
      return NotFound, None;
    }
    var m := mailbox.rows[i.value];
    if m.senderId != caller && m.recipientId != caller {
      return Forbidden, None;
    }
    var v := Viewed(m, caller, now);
    mailbox.rows := mailbox.rows[i.value := v];
    return Ok, Some(v);
  }

  /** The index `findOne({id, recipientId: caller})` finds. */
  function FindReceived(rows: seq<Message>, id: Id, caller: Id): (i: Option<nat>)
    ensures i.Some? ==> i.value < |rows| && rows[i.value].id == id && rows[i.value].recipientId == caller
    ensures i.None? ==> forall k :: 0 <= k < |rows| ==> !(rows[k].id == id && rows[k].recipientId == caller)
  {
    FirstIndex(rows, (m: Message) => m.id == id && m.recipientId == caller)
  }

  /** `markAsRead`: the recipient's message becomes read at `now`, overwriting
      an earlier reading time; 404 for an unknown id or a caller who is not the
      recipient (the sender included). */
  method MarkMessageRead(mailbox: Mailbox, id: Id, caller: Id, now: nat) returns (status: Status)
    requires mailbox.Valid()
    modifies mailbox
    ensures mailbox.Valid() && mailbox.nextId == old(mailbox.nextId)
    ensures var i := FindReceived(old(mailbox.rows), id, caller);
            (i.None? ==> status == NotFound && mailbox.rows == old(mailbox.rows))
            && (i.Some? ==>
                  status == Ok && mailbox.rows == old(mailbox.rows)[i.value := old(mailbox.rows)[i.value].(isRead := true, readAt := Some(now))])
  {
    var i := FindReceived(mailbox.rows, id, caller);
    if i.None? {
      return NotFound;
    }
    var m := mailbox.rows[i.value];
    mailbox.rows := mailbox.rows[i.value := m.(isRead := true, readAt := Some(now))];
    return Ok;
  }

  /** The index `findOne({id, [or]: [sender, recipient]})` finds. */
  function FindOwned(rows: seq<Message>, id: Id, caller: Id): (i: Option<nat>)
    ensures i.Some? ==> i.value < |rows| && rows[i.value].id == id
                        && (rows[i.value].senderId == caller || rows[i.value].recipientId == caller)
    ensures i.None? ==> forall k :: 0 <= k < |rows| ==>
                          !(rows[k].id == id && (rows[k].senderId == caller || rows[k].recipientId == caller))
  {
    FirstIndex(rows, (m: Message) => m.id == id && (m.senderId == caller || m.recipientId == caller))
  }

  /** `archiveMessage`: the sender or the recipient archives the message (one
      flag for both of them) at `now`; 404 otherwise. */
  method ArchiveMessage(mailbox: Mailbox, id: Id, caller: Id, now: nat) returns (status: Status)
    requires mailbox.Valid()
    modifies mailbox
    ensures mailbox.Valid() && mailbox.nextId == old(mailbox.nextId)
    ensures var i := FindOwned(old(mailbox.rows), id, caller);
            (i.None? ==> status == NotFound && mailbox.rows == old(mailbox.rows))
            && (i.Some? ==>
                  status == Ok && mailbox.rows == old(mailbox.rows)[i.value := old(mailbox.rows)[i.value].(isArchived := true, archivedAt := Some(now))])
  {
    var i := FindOwned(mailbox.rows, id, caller);
    if i.None? {
      return NotFound;
    }
    var m := mailbox.rows[i.value];
    mailbox.rows := mailbox.rows[i.value := m.(isArchived := true, archivedAt := Some(now))];
    return Ok;
  }

  /** An archived message leaves every listing: nobody's inbox and nobody's
      sent box shows it, whatever the filters, and it no longer counts as
      unread. */
  lemma ArchivedIsHidden(m: Message, now: nat, who: Id, isRead: Option<string>, messageType: Option<MessageType>)
    ensures var a := m.(isArchived := true, archivedAt := Some(now));
            !InInbox(who, isRead, messageType, a) && !InSent(who, a) && !UnreadMessage(who, a)
  {
  }

  // ---------------------------------------------------------------------------
  // Unread counter

  /** The messages `getUnreadCount` counts. */
  predicate UnreadMessage(caller: Id, m: Message) {
    m.recipientId == caller && !m.isRead && !m.isArchived
  }

  /** The three numbers `getUnreadCount` reports. */
  datatype UnreadSummary = UnreadSummary(messages: nat, notifications: nat, total: nat)

  /** `getUnreadCount`: unread unarchived messages received, unread
      notifications, and their sum. */
  function GetUnreadCount(messages: seq<Message>, notes: seq<Notification>, caller: Id): (r: UnreadSummary)
    ensures r.messages == Count(messages, (m: Message) => UnreadMessage(caller, m))
    ensures r.notifications == UnreadCount(notes, caller)
    ensures r.total == r.messages + r.notifications
    ensures r.total == 0 <==> (forall i :: 0 <= i < |messages| ==> !UnreadMessage(caller, messages[i]))
                              && (forall i :: 0 <= i < |notes| ==> !UnreadOf(caller, notes[i]))
  {
    var m := Count(messages, (m: Message) => UnreadMessage(caller, m));
    var n := UnreadCount(notes, caller);
    UnreadSummary(m, n, m + n)
  }

  /** Sending a message raises the recipient's total by two: the message and
      its notification. */
  lemma SendRaisesUnreadByTwo(messages: seq<Message>, notes: seq<Notification>, m: Message, n: Notification)
    requires !m.isRead && !m.isArchived && !n.isRead && n.userId == m.recipientId
    ensures GetUnreadCount(messages + [m], notes + [n], m.recipientId).total
            == GetUnreadCount(messages, notes, m.recipientId).total + 2
  {
    CountSnoc(messages, m, (x: Message) => UnreadMessage(m.recipientId, x));
    CreateAddsUnread(notes, n);
  }

  /** Updating one message in place (reading or archiving it) changes the
      unread message count only by what that one message contributes before
      and after. */
  lemma {:induction false} ReplaceCount(rows: seq<Message>, i: nat, x: Message, caller: Id)
    requires i < |rows|
    ensures Count(rows[i := x], (m: Message) => UnreadMessage(caller, m))
            == Count(rows, (m: Message) => UnreadMessage(caller, m))
               - (if UnreadMessage(caller, rows[i]) then 1 else 0) + (if UnreadMessage(caller, x) then 1 else 0)
  {
    if i > 0 {
      ReplaceCount(rows[1..], i - 1, x, caller);
      assert rows[i := x][1..] == rows[1..][i - 1 := x];
    }
  }
}
