# Threads of Hope backend — a Dafny model of its decisions

Threads of Hope is a platform for women, NGOs, donors and administrators. It
covers training programs, donations with impact reports, child case files,
collaboration requests, messaging and notifications. Its Express/Sequelize
backend is mostly CRUD. Under the ORM calls, each handler makes small decisions
that can be checked:

- the order of its guards and the status code each one produces;
- who may see or change a record;
- which fields change, and which counters move;
- which notification is sent;
- what the audit trail records.

This project models those decisions over an in-memory store. It then proves the
properties the code promises.

Module layout: one module per source file, plus two shared modules.

- `Common` holds the shared pieces:
  - `Option`, `Json`, `Role` and `Status`;
  - the `Reply` outcome, `Shown(value)` or `Denied(status, message)`;
  - a stable descending sort, filter and count;
  - the shared pagination arithmetic: offset `(page-1)*limit` and `pages = ceil(total/limit)`.
- `Strings` holds split/join, lower-casing, substring search and decimal rendering.
- `Users` holds the user record, its JSON projection, the password hooks and the
  `Accounts` table.
- `AuditLog` builds audit records: entity type and id extraction, key redaction,
  and the entry built when a response is emitted.
- `AuthMiddleware` holds the `verifyToken` → `checkRole` gate chain and `optionalAuth`.
- `AuthController` covers register, login, email verification, password reset and
  the profile allow-list.
- `Notifications` holds the notification store (a class) with its dispatcher and
  read-state transitions, plus listing and delete.
- `Messages` holds the mailbox (a class): send, inbox and sent views, read and
  archive, and the combined unread total.
- `Training` holds the program/enrolment catalogue (a class): enrolment guards,
  the capacity counter, progress and completion, review, and program
  update/delete.
- `Donations` holds the ledger (a class): creation, impact reports with the
  invariant allocated + remaining = amount, anonymisation, role scoping, and the
  ordering of message recipients.
- `Collaboration` holds the request/resource board (a class): visibility, update
  permission, the response counter, resource access, the view and download
  counters, and route resolution.
- `Children` holds the child registry (a class): ownership checks, archive as a
  soft delete, update event logging, events and statistics.
- `Admin` covers user status changes and their notice, audit-log filters,
  export type checks, and the dashboard figures.

Modelling conventions:

- Tables are `seq` fields of classes, and handlers are methods that `modify` them.
- Ids are `nat`, issued in increasing order.
- The clock is a `now: nat` parameter.
- The email and SMS adapters are `Adapter` parameters, and only their `success`
  field is used.
- bcrypt and JWT are function parameters: `hash`, `compare` and `verify`.
- Money is integer cents.

## Model

| member | source | states |
|---|---|---|
| Common.Filter | backend/src/controllers/notificationController.js:9-12 | the rows kept are exactly the input rows that satisfy the where-clause, as a sub-multiset |
| Common.Count | backend/src/controllers/notificationController.js:16-21 | `count` equals the number of filtered rows; it is 0 iff no row matches |
| Common.SortDesc | backend/src/controllers/notificationController.js:17 | `ORDER BY key DESC`: the result is sorted descending and is a permutation of the input |
| Common.SortByFlagIsStablePartition | backend/src/controllers/donationController.js:438-442 | sorting by a 0/1 flag yields every flagged row, then every unflagged row, each group in its original order (a stable partition) |
| Common.PageCount | backend/src/controllers/notificationController.js:31 | `pages = ceil(total/limit)`: the pages cover every row, and the last page is not empty |
| Common.Paginate | backend/src/controllers/notificationController.js:14-21 | the page holds at most `limit` rows, the rows starting at offset (page-1)*limit, in order |
| Common.PageNonEmptyIffWithinCount | backend/src/controllers/notificationController.js:14-31 | a page has rows iff its number is at most `pages` |
| Common.ListQuery | backend/src/controllers/notificationController.js:9-31 | filter, sort and page: the page and limit are echoed; total counts every match; the items are exactly page `page` of the matching rows ranked newest first |
| Common.Ranked | backend/src/controllers/notificationController.js:9-17 | the ranked rows are the matching rows sorted descending by the key, as a permutation of the matches |
| Common.RowOnItsPage | backend/src/controllers/notificationController.js:14-21 | the k-th ranked row is row k mod limit of page k div limit + 1, so every match is reachable on some page |
| Strings.Split | backend/src/middleware/auth.js:7 | `split(sep)` gives at least one piece, and no piece contains the separator |
| Strings.JoinSplit | backend/src/middleware/auth.js:7 | joining the pieces of a split gives back the original string |
| Strings.SplitJoin | backend/src/middleware/auth.js:7 | splitting a join of separator-free pieces gives back the pieces |
| Strings.NonEmptyPieces | backend/src/middleware/auditLog.js:53 | `split('/').filter(Boolean)`: the pieces are non-empty and contain no '/' |
| Strings.Lower | backend/src/middleware/auditLog.js:80 | `toLowerCase` maps each character, and the result has no upper-case ASCII letter |
| Strings.Includes | backend/src/middleware/auditLog.js:80 | `includes` is true iff the needle occurs at some position |
| Strings.NatToStringValue | backend/src/controllers/donationController.js:58 | the decimal rendering of a number reads back as that number |
| Users.ToJson | backend/src/models/User.js:5-137 | the serialised user has every column of the table (the account attributes, including twoFactorEnabled, oauthProvider and oauthProviderId, and the createdAt/updatedAt timestamps) plus the profile columns, each with the user's value |
| Users.PublicProfile | backend/src/models/User.js:136-139 | the public profile is the serialised user minus exactly the secret columns, every other value unchanged |
| Users.PublicProfileKeepsOtherSecrets | backend/src/models/User.js:137-138 | only those three are withheld: the email-verification token and the reset expiry are still shown, with their values |
| Users.BeforeCreate | backend/src/models/User.js:115-120 | the password is replaced by its hash iff it is non-empty |
| Users.BeforeUpdate | backend/src/models/User.js:123-128 | the password is re-hashed iff it changed and is non-empty; otherwise the given value is stored |
| Users.UnchangedPasswordKeepsHash | backend/src/models/User.js:123-128 | saving an unchanged password leaves the stored hash untouched |
| Users.FindUser | backend/src/middleware/auth.js:19 | `findByPk`: a user with that id from the table, or none when no user has it |
| Users.FindUserUnique | backend/src/middleware/auth.js:19 | with unique ids, looking up a user's id finds that very user |
| AuditLog.LowerFields | backend/src/middleware/auditLog.js:77-80 | the lower-cased list of sensitive fields is the one used for matching |
| AuditLog.SensitiveKey | backend/src/middleware/auditLog.js:77-80 | a key is sensitive iff its lower-cased form contains password, token, secret, apikey or creditcard |
| AuditLog.SanitizeData | backend/src/middleware/auditLog.js:73-86 | a missing body gives null; otherwise the copy has exactly the input's keys, with sensitive values redacted |
| AuditLog.SanitizedAt | backend/src/middleware/auditLog.js:77-83 | a value becomes "[REDACTED]" iff its key is sensitive; every other value, nested objects included, is copied unchanged |
| AuditLog.SanitizeIdempotent | backend/src/middleware/auditLog.js:76-85 | sanitising a sanitised map changes nothing |
| AuditLog.RedactedIff | backend/src/middleware/auditLog.js:77-83 | an output value is "[REDACTED]" iff the key is sensitive or the input value already was "[REDACTED]" |
| AuditLog.ExtractEntityType | backend/src/middleware/auditLog.js:52-59 | "Unknown" for fewer than two non-empty segments; otherwise exactly the second segment's first character upper-cased followed by the rest of the segment with its hyphens dropped |
| AuditLog.EntityTypeWithoutHyphens | backend/src/middleware/auditLog.js:56-58 | a hyphen-free second segment comes back unchanged except for its upper-cased first character |
| AuditLog.FindIdFrom | backend/src/middleware/auditLog.js:66-68 | the scan returns the leftmost position, from the start point on, where a '/' is followed by 36 hex-digit-or-hyphen characters, or none when there is no such position |
| AuditLog.ExtractEntityId | backend/src/middleware/auditLog.js:62-70 | id precedence: a truthy `params.id`, then a truthy `body.id`, then the first 36-character id after a '/', then null; with no body the lookup throws |
| AuditLog.BuildEntry | backend/src/middleware/auditLog.js:16-37 | the entry carries the user, method, URL, status and `duration = now - startTime`; the entity type is ExtractEntityType of the path; the entity id is the looked-up id, or null when there is none; the IP is `req.ip` unless empty, else the remote address; the user agent is the header; newValues are the sanitised body only for POST, PUT and PATCH; oldValues are never filled; a throwing id lookup gives no entry |
| AuditLog.OnJson | backend/src/middleware/auditLog.js:5-45 | the response body is passed on unchanged; an entry is written iff building it and writing it both succeed, so a failure never reaches the response |
| AuthMiddleware.BearerToken | backend/src/middleware/auth.js:7-14 | the token is the second space-separated piece of the header, and it must be present and non-empty |
| AuthMiddleware.BearerTokenOfScheme | backend/src/middleware/auth.js:7 | "Bearer t" yields token t for any space-free t |
| AuthMiddleware.VerifyToken | backend/src/middleware/auth.js:5-60 | the request proceeds iff the token decodes to an existing, active and approved user; otherwise 401, 403 or 500, and no token gives 401 |
| AuthMiddleware.InactiveBeforeUnapproved | backend/src/middleware/auth.js:28-38 | an inactive user is refused as deactivated (403), even when also unapproved |
| AuthMiddleware.CheckRole | backend/src/middleware/auth.js:63-81 | proceeds iff there is a user whose role is listed; 401 without a user, 403 for another role |
| AuthMiddleware.Authorize | backend/src/middleware/auth.js:84-86 | proceeds iff verifyToken proceeds and the role is listed; a verifyToken refusal is returned as is |
| AuthMiddleware.OptionalAuth | backend/src/middleware/auth.js:89-104 | always proceeds; a user is attached iff verifyToken would accept the request, and then it is the same user |
| AuthController.RegistrationProfile | backend/src/controllers/authController.js:32-40 | the profile keeps the first and last name, and the preferred language defaults to "en" |
| AuthController.NewAccount | backend/src/controllers/authController.js:32-42 | a new account is approved iff its role is woman or donor; it is active and unverified, with a hashed password and a verification token expiring 24 h later; two-factor is off, there is no OAuth provider, and both timestamps are now |
| AuthController.Register | backend/src/controllers/authController.js:7-78 | an existing email gives 400 and changes nothing; otherwise one account is appended, and an NGO profile is added iff the role is ngo and both the organisation name and the registration number are given |
| AuthController.LoginDecision | backend/src/controllers/authController.js:86-113 | success iff the user exists, the password matches, and the user is active and approved; unknown user or wrong password give 401, then inactive gives 403, then unapproved gives 403 |
| AuthController.LoginDoesNotDiscloseAccounts | backend/src/controllers/authController.js:86-98 | an unknown email and a wrong password get the same status and message |
| AuthController.Login | backend/src/controllers/authController.js:81-136 | the reply is LoginDecision for the first account with that email; lastLoginAt is set only on success, and only for that user; nothing else changes |
| AuthController.CheckToken | backend/src/controllers/authController.js:143-153 | a token is unknown iff no user holds it; an accepted token is held by the chosen user and has not expired |
| AuthController.NullTokenRejected | backend/src/controllers/authController.js:143-153 | a missing token is never accepted, either for verification or for reset |
| AuthController.VerifyEmail | backend/src/controllers/authController.js:139-176 | an unknown or expired token gives 400 with no change; on success the user is verified and the token and expiry are cleared |
| AuthController.VerificationTokenSpent | backend/src/controllers/authController.js:159-167 | once a token has been used, the same token is no longer accepted |
| AuthController.RequestPasswordReset | backend/src/controllers/authController.js:179-209 | the reply is identical whether or not the email exists; a known user gets a reset token expiring one hour later |
| AuthController.ResetPassword | backend/src/controllers/authController.js:212-249 | an unknown or expired token gives 400 with no change; on success the password is re-hashed and the reset token and expiry are cleared |
| AuthController.AllowedUpdates | backend/src/controllers/authController.js:270-289 | the update holds exactly the allow-listed fields present in the body, with the body's values |
| AuthController.UpdateProfile | backend/src/controllers/authController.js:268-299 | only allow-listed profile fields change; email, role, password and the approval and activation flags never do; the reply is the public profile |
| Notifications.BaseRecord | backend/src/services/notificationService.js:8-19 | the record stores the given user, type, title and message; priority defaults to normal, channels to in_app and metadata to {}; it is unread, and nothing has been sent |
| Notifications.CreateNotification | backend/src/services/notificationService.js:6-63 | one record is appended; emailSent equals the email adapter's success iff email is requested and the address is verified, smsSent likewise for the phone, pushSent iff push is requested and the recipient exists; with no recipient, all flags stay false |
| Notifications.InAppOnlySendsNothing | backend/src/services/notificationService.js:25-56 | with the default channels, no adapter is eligible and push is not requested |
| Notifications.FulfilledRecordsSnoc | backend/src/services/notificationService.js:66-71 | the records created by a batch are those of its fulfilled outcomes, in input order |
| Notifications.Settle | backend/src/services/notificationService.js:66-71 | one recipient's outcome: fulfilled iff its insert succeeds, and then exactly that record is appended |
| Notifications.CreateBulkNotifications | backend/src/services/notificationService.js:66-71 | one settled outcome per user id, in order; a failure does not stop the others; the store gains exactly the fulfilled records (a sequential rendering, see Left out) |
| Notifications.MarkAsRead | backend/src/services/notificationService.js:74-89 | an absent or foreign id changes nothing; otherwise that record becomes read, and readAt is overwritten with now on every call |
| Notifications.MarkAllRows | backend/src/services/notificationService.js:92-97 | exactly the user's unread records become read at now; every other record is unchanged |
| Notifications.MarkAllAsRead | backend/src/services/notificationService.js:92-97 | the store holds the marked rows, and nothing else changes |
| Notifications.UnreadCount | backend/src/services/notificationService.js:100-104 | counts the user's unread records; it is zero iff the user has none |
| Notifications.UnreadZeroAfterMarkAll | backend/src/services/notificationService.js:92-104 | after mark-all, the user's unread count is 0 |
| Notifications.MarkAllKeepsOthersUnread | backend/src/services/notificationService.js:92-104 | mark-all does not change any other user's unread count |
| Notifications.CreateAddsUnread | backend/src/services/notificationService.js:6-19 | a created record raises its recipient's unread count by exactly one |
| Notifications.GetNotifications | backend/src/controllers/notificationController.js:5-38 | only the caller's records; isRead "true" selects read records and any other value unread ones; the type filter applies; the items are exactly the requested page of those records newest first, with page, limit, total and page count |
| Notifications.DeleteNotification | backend/src/controllers/notificationController.js:83-108 | an absent or foreign id gives 404 and no change; otherwise exactly that record is removed |
| Notifications.DeleteRemovesOnlyTarget | backend/src/controllers/notificationController.js:83-99 | after a delete, every other record is still there, in order, and the target is gone |
| Messages.NewMessage | backend/src/controllers/messageController.js:19-28 | a new message defaults to direct type and normal priority, and is unread and not archived |
| Messages.NoticeOptions | backend/src/controllers/messageController.js:31-42 | the notice points at the message, links to /messages/<id> and uses the in_app and email channels |
| Messages.Post | backend/src/controllers/messageController.js:19-28 | the mailbox gains exactly the new message |
| Messages.SendMessage | backend/src/controllers/messageController.js:6-52 | an unknown recipient gives 404 with neither a message nor a notification; otherwise one message and one message_received notification to the recipient |
| Messages.GetInbox | backend/src/controllers/messageController.js:55-98 | the items are exactly the requested page of the messages received by the caller and not archived, filtered by read state and type, newest first; page and limit are echoed |
| Messages.GetSentMessages | backend/src/controllers/messageController.js:101-141 | the items are exactly the requested page of the messages sent by the caller and not archived, newest first; page and limit are echoed |
| Messages.Viewed | backend/src/controllers/messageController.js:172-178 | the recipient's view marks an unread message read at now; an already-read message keeps its readAt |
| Messages.ViewedTwice | backend/src/controllers/messageController.js:172-178 | viewing twice is the same as viewing once |
| Messages.GetMessageById | backend/src/controllers/messageController.js:144-191 | 404 for an absent message; 403 unless the caller is sender or recipient; otherwise the message, marked read when the recipient opens it unread |
| Messages.FindReceived | backend/src/controllers/messageController.js:196-199 | finds the message with that id addressed to the caller, or shows that none exists |
| Messages.MarkMessageRead | backend/src/controllers/messageController.js:194-222 | 404 unless the caller is the recipient; otherwise the message is read, and readAt is overwritten on every call |
| Messages.ArchiveMessage | backend/src/controllers/messageController.js:225-256 | sender or recipient may archive; the shared isArchived flag and archivedAt are set; anyone else gets 404 |
| Messages.ArchivedIsHidden | backend/src/controllers/messageController.js:59-62 | an archived message is in neither party's inbox nor sent view |
| Messages.GetUnreadCount | backend/src/controllers/messageController.js:259-287 | total = unread, non-archived received messages + unread notifications; it is zero iff both are |
| Messages.SendRaisesUnreadByTwo | backend/src/controllers/messageController.js:19-42 | a sent message and its notice raise the recipient's unread total by two |
| Training.FindProgram | backend/src/controllers/trainingController.js:190-197 | finds the program with that id, or shows that none exists |
| Training.AppendKeepsConsistent | backend/src/controllers/trainingController.js:229-233 | appending an enrolment for an existing program keeps the catalogue consistent: unique ids, existing programs, unique user/program pairs |
| Training.CheckEnrollment | backend/src/controllers/trainingController.js:190-227 | guard order: missing program gives 404, then not active gives 400, then already enrolled gives 400, then full gives 400 (only when maxParticipants is non-zero and reached) |
| Training.Admitted | backend/src/controllers/trainingController.js:229-244 | a new enrolment is pending iff cost > 0; it is auto-approved with a start date only when cost == 0 |
| Training.NegativeCostGap | backend/src/controllers/trainingController.js:232-236 | a negative cost yields an approved enrolment with no approver and no start date |
| Training.Enroll | backend/src/controllers/trainingController.js:188-286 | a refusal changes nothing; otherwise one enrolment is appended, and a free program also gains a participant, a message and an enrollment_approved notification |
| Training.FreeEnrollmentWithinCapacity | backend/src/controllers/trainingController.js:222 | an admitted program with a non-zero limit is below it, so the extra participant stays within the limit |
| Training.AdmissionKeepsPairsUnique | backend/src/controllers/trainingController.js:206-219 | an admitted user holds no earlier enrolment in that program, so (program, user) pairs stay unique |
| Training.FindOwnEnrollment | backend/src/controllers/trainingController.js:321-333 | finds the caller's own enrolment with that id, or shows that none exists |
| Training.ProgramOf | backend/src/controllers/trainingController.js:324-331 | the included program is present iff it exists in the catalogue |
| Training.AfterProgress | backend/src/controllers/trainingController.js:335-361 | progress is replaced when given; proofs are appended; progress 100 on an uncompleted enrolment completes it at now; certificate fields are set only when the program certifies |
| Training.CompletedOnce | backend/src/controllers/trainingController.js:347-351 | a completed enrolment is not completed again, and its completion date stays |
| Training.ProofsOnlyGrow | backend/src/controllers/trainingController.js:340-344 | the earlier proofs are a prefix of the new list |
| Training.AnnounceCompletion | backend/src/controllers/trainingController.js:378-427 | completion sends one message and one training_completed notification to the learner |
| Training.UpdateProgress | backend/src/controllers/trainingController.js:317-439 | 404 unless the enrolment is the caller's; out-of-range progress fails with no change; otherwise the enrolment becomes AfterProgress, announced iff it just completed |
| Training.ParseEnrollmentStatus | backend/src/models/Enrollment.js:28-29 | only the enum's names parse, and each parses back to its own name |
| Training.RejectedIsNotAStatus | backend/src/controllers/trainingController.js:474-509 | "rejected" is not an enrolment status, so that branch always fails when it is stored |
| Training.Reviewed | backend/src/controllers/trainingController.js:474-480 | status, reviewer and time are set; notes are kept when none are given; startDate is reset only on approval |
| Training.ReviewKind | backend/src/controllers/trainingController.js:512 | the notice is enrollment_approved iff the status is approved, and enrollment_rejected otherwise |
| Training.CheckReview | backend/src/controllers/trainingController.js:459-472 | 404 for an unknown enrolment, then 403 unless admin or the program's creator, then 500 for a status outside the enum |
| Training.StoreReview | backend/src/controllers/trainingController.js:474-484 | the enrolment is replaced, and each approval adds exactly one participant, with no check of an earlier approval |
| Training.UpdateEnrollmentStatus | backend/src/controllers/trainingController.js:442-535 | a refusal changes nothing; otherwise the review is stored, an approval is mailed, and one notice of the matching type is sent |
| Training.UpdateProgram | backend/src/controllers/trainingController.js:125-154 | 404, then 403 unless admin or creator; otherwise the fields change and the id stays |
| Training.DeleteProgram | backend/src/controllers/trainingController.js:157-185 | 404, then 403 unless admin or creator; otherwise the program and its enrolments are removed |
| Training.CascadeKeepsConsistent | backend/src/controllers/trainingController.js:176 | the cascade leaves a consistent catalogue |
| Donations.Saved | backend/src/models/Donation.js:127-129 | the save hook restores allocated + remaining = amount and leaves a balanced donation unchanged |
| Donations.Allocate | backend/src/controllers/donationController.js:244-249 | allocation adds the amount used and keeps the ledger balanced; within the remainder, remaining drops by exactly that amount and stays ≥ 0 |
| Donations.AllocateKeepsBooks | backend/src/controllers/donationController.js:244-249 | after a report, each donation's allocation still equals the sum of its reports |
| Donations.ReportsNeverOverspend | backend/src/controllers/donationController.js:230-249 | across all reports, what a donation spends lies between 0 and its amount, and remaining = amount − spent |
| Donations.NewDonation | backend/src/controllers/donationController.js:26-48 | starts with remaining = amount, allocated 0, currency "USD" unless given, completed payment and an issued receipt |
| Donations.OmittedCurrencyReadsUndefined | backend/src/controllers/donationController.js:58 | as written: with no currency, the stored donation says USD while the NGO's notice and the donor's thank-you both read "undefined" |
| Donations.OmittedCurrencyReadsUsd | backend/src/controllers/donationController.js:32 | corrected: the notices quote the stored currency, so they read USD |
| Donations.NamedCurrencyTextsAgree | backend/src/controllers/donationController.js:58-73 | when the body names a currency, the as-written notice texts equal the corrected ones |
| Donations.CreateDonation | backend/src/controllers/donationController.js:7-90 | an invalid amount gives 400 and no change; otherwise one donation is appended, and the NGO (when named) and the donor get one notice each, quoting the stored (corrected) currency |
| Donations.FindDonation | backend/src/controllers/donationController.js:212-217 | finds the donation with that id, or shows that none exists |
| Donations.CheckReport | backend/src/controllers/donationController.js:212-241 | invalid body gives 400; missing donation gives 404; 403 unless admin or the receiving NGO; overspending gives 400 |
| Donations.NegativeUseUnbalances | backend/src/routes/donationRoutes.js:19-22 | without the route's minimum, a negative amount used would break the balance |
| Donations.StoreReport | backend/src/controllers/donationController.js:244-249 | the report is appended and its donation allocated, keeping the books |
| Donations.CreateImpactReport | backend/src/controllers/donationController.js:208-273 | a refusal leaves ledger and notices unchanged; otherwise one report, one allocation and one impact_report notice to the donor |
| Donations.Sanitize | backend/src/controllers/donationController.js:131-137 | the donor becomes "Anonymous Donor" iff the donation is anonymous and the viewer is neither admin nor donor; all else is unchanged |
| Donations.GetDonationById | backend/src/controllers/donationController.js:157-205 | 404 for an unknown id; 403 unless admin, donor or the managing NGO; otherwise the sanitised donation and exactly the reports on it, in table order |
| Donations.OnlyNgoSeesAnonymous | backend/src/controllers/donationController.js:182-196 | a viewer shown the anonymous card is the donation's NGO, never admin or donor |
| Donations.GetAllDonations | backend/src/controllers/donationController.js:93-154 | a donor sees their own donations and an NGO the ones it received; others see everything; the items are exactly the requested page of the filtered donations, newest first, each sanitised; page and limit are echoed |
| Donations.SanitizeAll | backend/src/controllers/donationController.js:131-137 | each listed donation is sanitised in place, in order |
| Donations.TotalsBalance | backend/src/controllers/donationController.js:317-335 | on balanced donations, total allocated + total remaining = total amount, both ≥ 0 |
| Donations.Statistics | backend/src/controllers/donationController.js:276-343 | the count, total amount, total allocated and total remaining are those of the donations in the viewer's scope; the report count is that of their reports; the totals balance |
| Donations.StatisticsOfNewDonation | backend/src/controllers/donationController.js:281-335 | a new donation raises the count by one and the total by its amount iff it is in the viewer's scope, and otherwise leaves both unchanged |
| Donations.Marked | backend/src/controllers/donationController.js:429-435 | hasDonated holds iff the NGO's id is among the donor's donation NGO ids |
| Donations.MarkDonated | backend/src/controllers/donationController.js:429-435 | the loop marks every NGO exactly as Marked does |
| Donations.GetMessageRecipients | backend/src/controllers/donationController.js:402-454 | the active, approved admins; then the active, approved NGOs, those the donor gave to first, each group in query order; hasDonated holds iff the donor gave to that NGO |
| Donations.MarkedContacts | backend/src/controllers/donationController.js:417-435 | every listed contact is an NGO from the table, flagged iff the donor gave to it |
| Donations.DonatedFirstOrder | backend/src/controllers/donationController.js:438-442 | in the sorted list, no NGO that has not donated comes before one that has |
| Collaboration.FindRequest | backend/src/controllers/collaborationController.js:114-119 | finds the request with that id, or shows that none exists |
| Collaboration.FindResource | backend/src/controllers/collaborationController.js:312-317 | finds the resource with that id, or shows that none exists |
| Collaboration.GetAllCollaborations | backend/src/controllers/collaborationController.js:40-99 | an NGO sees public requests and its own; an admin sees all, optionally by visibility; others see public only; the items are exactly the requested page of the filtered requests, newest first; page and limit are echoed |
| Collaboration.GetCollaborationById | backend/src/controllers/collaborationController.js:102-141 | 404 for an unknown id; 403 for a private request unless admin, requester or recipient; invited_only is not restricted |
| Collaboration.ListedIsReadable | backend/src/controllers/collaborationController.js:56-66 | every listed request can also be opened by id |
| Collaboration.InvitedOnlyOpenById | backend/src/controllers/collaborationController.js:122-132 | any viewer can open an invited_only request by id, even one they cannot list |
| Collaboration.UpdateCollaboration | backend/src/controllers/collaborationController.js:144-173 | 404, then 403 unless admin or requester; otherwise the fields change and the id stays |
| Collaboration.ResponseMetadata | backend/src/controllers/collaborationController.js:201-204 | the metadata holds response and message exactly when given |
| Collaboration.RespondToCollaboration | backend/src/controllers/collaborationController.js:176-215 | responses goes up by exactly one, and the requester gets one collaboration_response notice |
| Collaboration.ListingAgainstAccess | backend/src/controllers/collaborationController.js:247-257 | the listing rule and the detail rule disagree in exactly two cases: a donor lists ngo_only items it cannot open, and a non-admin creator can open its own private resource that no listing shows it |
| Collaboration.GetAllResources | backend/src/controllers/collaborationController.js:237-297 | only active resources at the levels listed for the role, with the type, category and search filters; the items are exactly the requested page of them, newest first; page and limit are echoed |
| Collaboration.GetResourceById | backend/src/controllers/collaborationController.js:300-343 | 404, then 403 unless access is allowed; otherwise views goes up by one |
| Collaboration.DownloadResource | backend/src/controllers/collaborationController.js:346-369 | 404 for an unknown id; otherwise downloads goes up by one, with no access check |
| Collaboration.Resolve | backend/src/routes/collaborationRoutes.js:26-36 | Express picks the first route whose pattern matches; none iff no route matches |
| Collaboration.ResourceListingShadowed | backend/src/routes/collaborationRoutes.js:28-34 | as written: GET /resources is served by the request-by-id handler, and the resource listing is unreachable |
| Collaboration.ResourceListingReached | backend/src/routes/collaborationRoutes.js:28-34 | corrected: with /resources first, it reaches the listing, and every other path is routed as before |
| Children.FindChild | backend/src/controllers/childController.js:113-116 | finds the child with that id, or shows that none exists |
| Children.CheckAccess | backend/src/controllers/childController.js:113-126 | missing iff no child has the id; granted iff it exists and the viewer is admin or the registering NGO |
| Children.Refusal | backend/src/controllers/childController.js:113-126 | a missing child gives 404 and a refused one 403 |
| Children.GetChildById | backend/src/controllers/childController.js:95-135 | 404, then 403; otherwise the child, archived or not |
| Children.UpdateChild | backend/src/controllers/childController.js:138-177 | a refusal changes nothing; otherwise the child is edited and exactly one status_update event by the caller is appended |
| Children.Archived | backend/src/controllers/childController.js:199-203 | archive sets inactive, archivedAt now and the reason (default "Archived by user"); all else unchanged |
| Children.DeleteChild | backend/src/controllers/childController.js:180-212 | a refusal changes nothing; otherwise the child is archived in place and no record is removed |
| Children.AddChildEvent | backend/src/controllers/childController.js:215-248 | a refusal or an incomplete event changes nothing; otherwise one event is appended |
| Children.GetChildEvents | backend/src/controllers/childController.js:251-291 | the items are exactly the requested page of that child's events, of the given type when given, newest first; page and limit are echoed |
| Children.EventsBypassOwnership | backend/src/controllers/childController.js:251-258 | a viewer refused the child still lists its events |
| Children.RegistrarFilter | backend/src/controllers/childController.js:46-50 | an NGO is always restricted to itself; only an admin may choose a registrar |
| Children.GetAllChildren | backend/src/controllers/childController.js:28-92 | only active children, within the registrar scope, the status filter and the search; the items are exactly the requested page of them, newest first; page and limit are echoed |
| Children.ArchivedUnlistedButOpen | backend/src/controllers/childController.js:38-126 | an archived child leaves every listing (the isActive filter at line 38) but can still be opened by id |
| Children.ByStatusSumsToTotal | backend/src/controllers/childController.js:296-313 | the per-status counts add up to the active total |
| Children.GetChildStatistics | backend/src/controllers/childController.js:294-351 | counts the active children in scope; the k-th status count is the number of those with the k-th status (orphan, vulnerable, rescued, in_care, adopted, reunited, independent), and the seven sum to the total |
| Children.StatusAtIsOneToOne | backend/src/controllers/childController.js:296-313 | each of the seven statuses has exactly one slot in the per-status counts |
| Admin.StatusNotice | backend/src/controllers/adminController.js:177-190 | type user_approved iff isApproved is true, else user_rejected; title and message are empty iff neither flag is given |
| Admin.ApprovalTakesPrecedence | backend/src/controllers/adminController.js:180-190 | when isApproved is given, isActive does not affect the notice |
| Admin.ReasonOnlyOnRefusal | backend/src/controllers/adminController.js:183-189 | the reason appears only in rejection and deactivation texts |
| Admin.ApplyStatus | backend/src/controllers/adminController.js:170-174 | only the supplied flags change |
| Admin.ApplyStatusIdempotent | backend/src/controllers/adminController.js:170-174 | applying the same change twice is the same as once |
| Admin.UpdateUserStatus | backend/src/controllers/adminController.js:157-210 | 404 with no change for an unknown user; otherwise the flags change and exactly one notice is sent, even an empty one |
| Admin.GetAuditLogs | backend/src/controllers/adminController.js:213-269 | total counts the entries matching the filters; the items are exactly the requested page of them, newest first; page and limit are echoed |
| Admin.NoFiltersCountsAll | backend/src/controllers/adminController.js:227-235 | with no filters every entry counts |
| Admin.NarrowerQueryCountsFewer | backend/src/controllers/adminController.js:227-235 | adding a date bound never counts more entries |
| Admin.ActionFilterNarrows | backend/src/controllers/adminController.js:228 | adding an action filter never counts more entries |
| Admin.InvertedWindowIsEmpty | backend/src/controllers/adminController.js:231-235 | startDate after endDate matches nothing |
| Admin.ParseExportType | backend/src/controllers/adminController.js:278-302 | only users, children, donations and programs parse, each to its own kind |
| Admin.ExportNameRoundTrip | backend/src/controllers/adminController.js:278-302 | every kind's name parses back to that kind |
| Admin.ExportedUsers | backend/src/controllers/adminController.js:280-284 | each exported user row is the user's public profile |
| Admin.ExportRowsOf | backend/src/controllers/adminController.js:278-302 | users are exported as public profiles, active children only, all donations and all programs |
| Admin.ExportData | backend/src/controllers/adminController.js:272-319 | 400 iff the type is unknown; JSON for no format or "json"; a CSV placeholder named <type>_export.csv; any other format sends no response |
| Admin.ExportNeverLeaksSecrets | backend/src/controllers/adminController.js:280-284 | no exported row holds a password, two-factor secret or reset token |
| Admin.CompletionRate | backend/src/controllers/adminController.js:85 | no rate iff there are no enrolments; otherwise the percentage in hundredths, rounded half up |
| Admin.CompletionRateRange | backend/src/controllers/adminController.js:85 | all completed gives 100.00, none gives 0.00, and the rate never exceeds 100.00 |
| Admin.DashboardStats | backend/src/controllers/adminController.js:6-93 | counts users, pending approvals, children, donations, active programs, completed enrolments and all enrolments; total donations and allocated are the ledger sums; remaining = total − allocated, both ≥ 0 on a balanced ledger |

## Left out

- I/O: the database, SendGrid, Twilio, Socket.io, bcrypt and JWT. The adapters are parameters, and only their `success` result is used.
- The deferred `setImmediate` audit write: the model builds the record that would be written, not when it is written.
- Raw SQL statistics (monthly donation totals, child age and gender groups, admin growth series and 30-day counts): database-side date arithmetic.
- Floating point: amounts are integer cents with no `parseFloat`. The completion rate is exact hundredths rounded half up, not `toFixed`, and it is a number, not a string.
- Random and time-based identifiers (transactionId, caseNumber) are parameters.
- Strings.Includes: `ILIKE '%s%'` is modelled as a case-insensitive substring test. `%` and `_` inside the search text are matched literally, not as wildcards, and case folding is the ASCII one of Strings.Lower, not the database collation's.
- Search in getAllUsers and the program listing is not modelled, as those listings are not.
- Strings.Lower: only the ASCII letters A-Z are case-mapped (also Strings.UpperChar and Strings.LowerChar). JavaScript's toLowerCase/toUpperCase are Unicode-aware; this affects SensitiveKey, ExtractEntityType's capital and search.
- Pagination requires page ≥ 1 and limit ≥ 1; non-numeric query values are not modelled.
- Every listing takes page and limit as inputs. The query defaults (page 1, limit 20; limit 50 for audit logs) are applied by the caller of the model, not by the model. The audit-log user join is not modelled.
- `Date` parsing of startDate/endDate is not modelled; times are `nat`.
- Admin.UpdateUserStatus: the body flags are booleans. Other JSON values, whose truthiness the ORM may store differently, are not modelled; neither is updatedAt.
- Admin.ExportData: the CSV branch's headers are not modelled.
- getAllUsers, getSystemHealth, createProgram, the program listings, registerChild, createCollaboration and createResource are CRUD without a decision and are not modelled.
- Joins (`include`) are not modelled; listings return the stored records.
- Badge and UserBadge awards on completion, and the enrolment and donation emails, are left out. The notices and messages that go to the store are modelled.
- The receipt email and the byRecipientType, byMonth and getRecipients statistics are not modelled.
- Children.AddChildEvent: an incomplete event is modelled as a 500 with no change. The model rejects any event missing its type, title or description; the exact validation message of the error handler (errorHandler.js is not part of this model) is not modelled.
- Training.UpdateProgress: progress outside 0..100 fails the model's range validation. It is modelled as a 500 with no change; the error handler's exact reply is not modelled.
- Training.Admitted: the cost is an integer, so a non-numeric cost (a DECIMAL read as a string) is not modelled. For a negative cost, `cost > 0` and `cost === 0` are both false (Training.NegativeCostGap).
- Collaboration.UpdateCollaboration: an edit is any function that keeps the id; the body's field list is not modelled.
- Training.UpdateProgram: an edit is any function that keeps the id, so it always succeeds. A body that fails the Sequelize validation, which `program.update` rejects, is not modelled, nor is the body's field list.
- Children.GetChildStatistics: byStatus is a vector of seven counts, one per status, zeros included. The source returns the rows of a SQL `GROUP BY status`, which omits the statuses with no child, in the database's order.
- Users: createdAt and updatedAt are set when an account is created. The saves made later (login, email verification, password reset, profile and status updates) do not advance updatedAt.
- Collaboration.GetResourceById returns the record as it was before the views increment.
- Notifications.MarkAsRead: readAt is overwritten with now on every call (notificationService.js:83-86), so a second call is not a no-op; the model follows the code.
- Notifications: pushSent is set without any delivery check, as the code does.
- Notifications.CreateBulkNotifications: `Promise.allSettled` runs the creations concurrently. The model settles them one after another in input order, and does not model a promise rejected after its row was inserted (a failing `notification.update`), which would leave a row with no fulfilled outcome.
- Donations.GetDonationById: the `order` option sits inside the impact-report include, where Sequelize does not apply it, so the reports come in no promised order. The model returns them in table order and promises only which reports appear.
- Donations.CreateDonation: the handler sends the corrected texts, which quote the stored currency. The texts as written are ReceivedTextAsWritten and ThanksTextAsWritten; they agree with the corrected ones whenever the body names a currency (Donations.NamedCurrencyTextsAgree).

## Findings

| source | as written | input that shows it | evidently intended | confidence | as-written member | corrected member |
|---|---|---|---|---|---|---|
| backend/src/controllers/donationController.js:58 | the NGO's and the donor's notices quote the raw `currency` body field | a donation without `currency`: it is stored as USD, but the notice reads "undefined" | quote the stored currency, "USD" by default | not executed | Donations.OmittedCurrencyReadsUndefined | Donations.OmittedCurrencyReadsUsd |
| backend/src/routes/collaborationRoutes.js:28 | GET `/:id` is declared before GET `/resources` | GET /resources matches `/:id` with id "resources" and is served by getCollaborationById | the resource listing at /resources | not executed | Collaboration.ResourceListingShadowed | Collaboration.ResourceListingReached |
