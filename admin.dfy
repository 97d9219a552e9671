/** The administrator's handlers (backend/src/controllers/adminController.js):
    approving, rejecting, activating and deactivating accounts with the
    notification that goes with each change, the audit-log query, the data
    export and the derived dashboard figures. */
module Admin {
  import opened Common
  import opened Users
  import opened Notifications
  import AuditLog
  import Donations
  import Training
  import Children

  // ---------------------------------------------------------------------------
  // updateUserStatus

  /** `reason || ''` */
  function ReasonText(reason: Option<string>): string {
    if TruthyStr(reason) then reason.value else ""
  }

  const ApprovedText: string := "Your account has been approved. You can now access all features."
  const RejectedPrefix: string := "Your account application was not approved. "
  const ReactivatedText: string := "Your account has been reactivated."
  const DeactivatedPrefix: string := "Your account has been deactivated. "

  /** The type, title and message of the notification an account change sends. */
  datatype Notice = Notice(kind: NotificationType, title: string, message: string)

  /** A supplied `isApproved` decides the title and message; otherwise a supplied
      `isActive` does; otherwise both are empty. The type is `user_approved`
      exactly when `isApproved` is true, so an activation alone is typed
      `user_rejected`. */
  function StatusNotice(isApproved: Option<bool>, isActive: Option<bool>, reason: Option<string>): (n: Notice)
    ensures n.kind == UserApproved <==> isApproved == Some(true)
    ensures n.kind == UserRejected <==> isApproved != Some(true)
    ensures n.title == "" <==> isApproved.None? && isActive.None?
    ensures n.message == "" <==> isApproved.None? && isActive.None?
  {
    var kind := if isApproved == Some(true) then UserApproved else UserRejected;
    if isApproved.Some? then
      if isApproved.value then Notice(kind, "Account Approved", ApprovedText)
      else Notice(kind, "Account Rejected", RejectedPrefix + ReasonText(reason))
    else if isActive.Some? then
      if isActive.value then Notice(kind, "Account Activated", ReactivatedText)
      else Notice(kind, "Account Deactivated", DeactivatedPrefix + ReasonText(reason))
    else Notice(kind, "", "")
  }

  /** Once `isApproved` is given, `isActive` has no say in the notification. */
  lemma ApprovalTakesPrecedence(approved: bool, active1: Option<bool>, active2: Option<bool>, reason: Option<string>)
    ensures StatusNotice(Some(approved), active1, reason) == StatusNotice(Some(approved), active2, reason)
    ensures StatusNotice(Some(approved), active1, reason).title
            == (if approved then "Account Approved" else "Account Rejected")
  {
  }

  /** A rejection or a deactivation carries the reason after its fixed text; an
      approval or a reactivation reads the same whatever the reason. */
  lemma ReasonOnlyOnRefusal(isApproved: Option<bool>, isActive: Option<bool>, reason: Option<string>, other: Option<string>)
    ensures isApproved == Some(false) ==>
              StatusNotice(isApproved, isActive, reason).message == RejectedPrefix + ReasonText(reason)
    ensures isApproved.None? && isActive == Some(false) ==>
              StatusNotice(isApproved, isActive, reason).message == DeactivatedPrefix + ReasonText(reason)
    ensures isApproved != Some(false) && !(isApproved.None? && isActive == Some(false)) ==>
              StatusNotice(isApproved, isActive, reason) == StatusNotice(isApproved, isActive, other)
  {
  }

  /** `user.update(updates)` with only the supplied flags: everything else about
      the account, the password included, stays as it was. */
  function ApplyStatus(u: User, isApproved: Option<bool>, isActive: Option<bool>): (r: User)
    ensures r == u.(isApproved := r.isApproved, isActive := r.isActive)
    ensures isApproved.Some? ==> r.isApproved == isApproved.value
    ensures isApproved.None? ==> r.isApproved == u.isApproved
    ensures isActive.Some? ==> r.isActive == isActive.value
    ensures isActive.None? ==> r.isActive == u.isActive
  {
    u.(isApproved := if isApproved.Some? then isApproved.value else u.isApproved,
       isActive := if isActive.Some? then isActive.value else u.isActive)
  }

  /** An empty body changes nothing, and applying the same change twice is the
      same as applying it once. */
  lemma ApplyStatusIdempotent(u: User, isApproved: Option<bool>, isActive: Option<bool>)
    ensures ApplyStatus(u, None, None) == u
    ensures ApplyStatus(ApplyStatus(u, isApproved, isActive), isApproved, isActive) == ApplyStatus(u, isApproved, isActive)
  {
  }

  /** `user.update(updates)` on the account at index `i`. */
  method SetStatus(accounts: Accounts, i: nat, isApproved: Option<bool>, isActive: Option<bool>)
    requires accounts.Valid() && i < |accounts.users|
    modifies accounts
    ensures accounts.Valid()
    ensures accounts.ngoProfiles == old(accounts.ngoProfiles) && accounts.nextId == old(accounts.nextId)
    ensures accounts.users == old(accounts.users)[i := ApplyStatus(old(accounts.users)[i], isApproved, isActive)]
  {
    ReplaceAccount(accounts.users, accounts.nextId, i, ApplyStatus(accounts.users[i], isApproved, isActive));
    accounts.users := accounts.users[i := ApplyStatus(accounts.users[i], isApproved, isActive)];
  }

  const StatusChannels: seq<string> := ["in_app", "email"]

  const StatusOptions: Options := NoOptions.(deliveryChannels := Some(StatusChannels))

  /** `updateUserStatus`: 404 for an unknown user; otherwise the supplied flags
      are stored, one notification of the selected type goes to the user in the
      app and by email, and the updated public profile is returned. */
  method UpdateUserStatus(accounts: Accounts, store: NotificationStore, id: Id,
                          isApproved: Option<bool>, isActive: Option<bool>, reason: Option<string>,
                          now: nat, email: Adapter, sms: Adapter)
    returns (status: Status, message: string, profile: map<Column, Json>)
    requires accounts.Valid() && store.Valid()
    modifies accounts, store
    ensures accounts.Valid() && store.Valid()
    ensures accounts.ngoProfiles == old(accounts.ngoProfiles) && accounts.nextId == old(accounts.nextId)
    ensures var i := FirstIndex(old(accounts.users), (u: User) => u.id == id);
            i.None? ==> status == NotFound && message == "User not found"
                        && accounts.users == old(accounts.users) && store.rows == old(store.rows)
    ensures var i := FirstIndex(old(accounts.users), (u: User) => u.id == id);
            i.Some? ==>
              var u := ApplyStatus(old(accounts.users)[i.value], isApproved, isActive);
              status == Ok && message == "User status updated successfully"
              && accounts.users == old(accounts.users)[i.value := u]
              && profile == PublicProfile(u)
    ensures var i := FirstIndex(old(accounts.users), (u: User) => u.id == id);
            i.Some? ==>
              StatusNoticed(old(store.rows), store.rows, old(accounts.users)[i.value],
                            StatusNotice(isApproved, isActive, reason), email)
  {
    var i := FirstIndex(accounts.users, (u: User) => u.id == id);
    if i.None? {
      return NotFound, "User not found", map[];
    }
    var u := ApplyStatus(accounts.users[i.value], isApproved, isActive);
    SetStatus(accounts, i.value, isApproved, isActive);
    SendStatusNotice(store, accounts.users, i.value, StatusNotice(isApproved, isActive, reason), now, email, sms);
    return Ok, "User status updated successfully", PublicProfile(u);
  }

  /** The one notification a status change sends: to the account, of the
      notice's type, title and message, in the app and by email; the email goes
      out only to a verified address and nothing goes by SMS or push. */
  predicate StatusNoticed(before: seq<Notification>, after: seq<Notification>, u: User, notice: Notice,
                          email: Adapter) {
    |after| == |before| + 1 && after[..|before|] == before
    && var n := after[|before|];
       n.userId == u.id && n.kind == notice.kind && n.title == notice.title
       && n.message == notice.message && n.deliveryChannels == StatusChannels && !n.isRead
       && n.emailSent == (u.email != "" && u.emailVerified && Success(email))
       && !n.smsSent && !n.pushSent
  }

  /** `createNotification(...)` for the account at index `i`. */
  method SendStatusNotice(store: NotificationStore, users: seq<User>, i: nat, notice: Notice, now: nat,
                          email: Adapter, sms: Adapter)
    requires store.Valid() && UniqueIds(users) && i < |users|
    modifies store
    ensures store.Valid()
    ensures StatusNoticed(old(store.rows), store.rows, users[i], notice, email)
  {
    FindUserUnique(users, i);
    var n, emailCalled, smsCalled := CreateNotification(store, users, users[i].id, notice.kind, notice.title,
                                                        notice.message, StatusOptions, now, email, sms);
    assert store.rows[..|old(store.rows)|] == old(store.rows);
  }

  // ---------------------------------------------------------------------------
  // getAuditLogs

  /** A stored audit record and the time it was written. */
  datatype LogRow = LogRow(id: Id, entry: AuditLog.AuditEntry, createdAt: nat)

  /** The query's filters. An absent or empty string filter is not applied. */
  datatype LogQuery = LogQuery(action: Option<string>, entityType: Option<string>, userId: Option<Id>,
                               startDate: Option<nat>, endDate: Option<nat>)

  const NoLogFilters: LogQuery := LogQuery(None, None, None, None, None)

  /** Equality on action, entity type and user, and an inclusive window on the
      creation time. */
  predicate LogMatches(q: LogQuery, r: LogRow) {
    (TruthyStr(q.action) ==> r.entry.action == q.action.value)
    && (TruthyStr(q.entityType) ==> r.entry.entityType == q.entityType.value)
    && (q.userId.Some? ==> r.entry.userId == q.userId)
    && (q.startDate.Some? ==> q.startDate.value <= r.createdAt)
    && (q.endDate.Some? ==> r.createdAt <= q.endDate.value)
  }

  function Matching(q: LogQuery): LogRow -> bool {
    (r: LogRow) => LogMatches(q, r)
  }

  function LoggedAt(r: LogRow): int { r.createdAt }

  /** `getAuditLogs`: the matching records, newest first, one page of them. */
  function GetAuditLogs(rows: seq<LogRow>, q: LogQuery, page: nat, limit: nat): (p: Page<LogRow>)
    requires page >= 1 && limit >= 1
    ensures p.page == page && p.limit == limit
    ensures p.items == Paginate(Ranked(rows, Matching(q), LoggedAt), page, limit)
    ensures p.total == Count(rows, Matching(q))
    ensures p.pages == PageCount(p.total, limit) && |p.items| <= limit
    ensures forall k :: 0 <= k < |p.items| ==> p.items[k] in rows && LogMatches(q, p.items[k])
    ensures forall i, j :: 0 <= i < j < |p.items| ==> p.items[i].createdAt >= p.items[j].createdAt
  {
    var p := ListQuery(rows, Matching(q), LoggedAt, page, limit);
    assert forall k :: 0 <= k < |p.items| ==> p.items[k] in rows && LogMatches(q, p.items[k]) by {
      forall k | 0 <= k < |p.items| ensures p.items[k] in rows && LogMatches(q, p.items[k]) {
        assert p.items[k] in p.items && Matching(q)(p.items[k]);
      }
    }
    assert forall i, j :: 0 <= i < j < |p.items| ==> p.items[i].createdAt >= p.items[j].createdAt by {
      forall i, j | 0 <= i < j < |p.items| ensures p.items[i].createdAt >= p.items[j].createdAt {
        assert LoggedAt(p.items[i]) >= LoggedAt(p.items[j]);
      }
    }
    p
  }

  /** Without filters every record is counted. */
  lemma NoFiltersCountsAll(rows: seq<LogRow>, page: nat, limit: nat)
    requires page >= 1 && limit >= 1
    ensures GetAuditLogs(rows, NoLogFilters, page, limit).total == |rows|
  {
    assert forall i :: 0 <= i < |rows| ==> Matching(NoLogFilters)(rows[i]);
    CountMonotone(rows, (r: LogRow) => true, Matching(NoLogFilters));
    assert Count(rows, (r: LogRow) => true) == |rows| by {
      AllCount(rows);
    }
  }

  lemma {:induction false} AllCount(rows: seq<LogRow>)
    ensures Count(rows, (r: LogRow) => true) == |rows|
  {
    if rows != [] {
      AllCount(rows[1..]);
    }
  }

  /** A query whose filters are all met by every row the other query's are
      counts no more rows: adding a filter only narrows the result. */
  lemma NarrowerQueryCountsFewer(rows: seq<LogRow>, narrow: LogQuery, wide: LogQuery, page: nat, limit: nat)
    requires page >= 1 && limit >= 1
    requires forall r :: LogMatches(narrow, r) ==> LogMatches(wide, r)
    ensures GetAuditLogs(rows, narrow, page, limit).total <= GetAuditLogs(rows, wide, page, limit).total
  {
    CountMonotone(rows, Matching(narrow), Matching(wide));
  }

  /** Adding an action filter to a query without one narrows it. */
  lemma ActionFilterNarrows(rows: seq<LogRow>, q: LogQuery, action: string, page: nat, limit: nat)
    requires page >= 1 && limit >= 1 && !TruthyStr(q.action)
    ensures GetAuditLogs(rows, q.(action := Some(action)), page, limit).total <= GetAuditLogs(rows, q, page, limit).total
  {
    forall r | LogMatches(q.(action := Some(action)), r) ensures LogMatches(q, r) {
    }
    NarrowerQueryCountsFewer(rows, q.(action := Some(action)), q, page, limit);
  }

  /** A window that ends before it starts matches nothing. */
  lemma InvertedWindowIsEmpty(rows: seq<LogRow>, q: LogQuery, page: nat, limit: nat)
    requires page >= 1 && limit >= 1
    requires q.startDate.Some? && q.endDate.Some? && q.startDate.value > q.endDate.value
    ensures GetAuditLogs(rows, q, page, limit).total == 0
    ensures GetAuditLogs(rows, q, page, limit).items == []
  {
  }

  // ---------------------------------------------------------------------------
  // exportData

  datatype ExportKind = UsersExport | ChildrenExport | DonationsExport | ProgramsExport

  function ExportName(k: ExportKind): string {
    match k
    case UsersExport => "users"
    case ChildrenExport => "children"
    case DonationsExport => "donations"
    case ProgramsExport => "programs"
  }

  /** The `switch (type)`: one of the four names, or nothing. */
  function ParseExportType(t: Option<string>): (k: Option<ExportKind>)
    ensures k.Some? ==> t == Some(ExportName(k.value))
    ensures k.None? ==> forall e: ExportKind :: t != Some(ExportName(e))
  {
    if t == Some("users") then Some(UsersExport)
    else if t == Some("children") then Some(ChildrenExport)
    else if t == Some("donations") then Some(DonationsExport)
    else if t == Some("programs") then Some(ProgramsExport)
    else None
  }

  /** Every export name is recognised as itself. */
  lemma ExportNameRoundTrip(k: ExportKind)
    ensures ParseExportType(Some(ExportName(k))) == Some(k)
  {
  }

  datatype ExportRows =
    | UserRows(users: seq<map<Column, Json>>)
    | ChildRows(children: seq<Children.Child>)
    | DonationRows(donations: seq<Donations.Donation>)
    | ProgramRows(programs: seq<Training.Program>)

  /** The response: 400 "Invalid export type", the rows as JSON, the CSV
      placeholder, or (for any other format) no response at all. */
  datatype ExportOutcome =
    | InvalidType
    | JsonExport(data: ExportRows)
    | CsvPlaceholder(filename: string, body: string)
    | NoResponse

  /** Every user with the password, the two-factor secret and the reset token
      excluded from its attributes. */
  function ExportedUsers(users: seq<User>): (rows: seq<map<Column, Json>>)
    ensures |rows| == |users|
    ensures forall i :: 0 <= i < |users| ==> rows[i] == PublicProfile(users[i])
    ensures forall i :: 0 <= i < |users| ==>
              PasswordCol !in rows[i] && TwoFactorSecretCol !in rows[i] && ResetPasswordTokenCol !in rows[i]
  {
    seq(|users|, i requires 0 <= i < |users| => ToJson(users[i]) - {PasswordCol, TwoFactorSecretCol, ResetPasswordTokenCol})
  }

  function IsActiveChild(c: Children.Child): bool { c.isActive }

  /** The rows an export of kind `k` reads. */
  function ExportRowsOf(k: ExportKind, users: seq<User>, children: seq<Children.Child>,
                        donations: seq<Donations.Donation>, programs: seq<Training.Program>): (r: ExportRows)
    ensures k == UsersExport ==> r == UserRows(ExportedUsers(users))
    ensures k == ChildrenExport ==> r.ChildRows? && r.children == Filter(children, IsActiveChild)
                                    && forall c :: c in r.children <==> c in children && c.isActive
    ensures k == DonationsExport ==> r == DonationRows(donations)
    ensures k == ProgramsExport ==> r == ProgramRows(programs)
  {
    match k
    case UsersExport => UserRows(ExportedUsers(users))
    case ChildrenExport => ChildRows(Filter(children, IsActiveChild))
    case DonationsExport => DonationRows(donations)
    case ProgramsExport => ProgramRows(programs)
  }

  const CsvNotice: string := "CSV export not yet implemented"

  /** `exportData`: an unknown type is refused before the format is looked at;
      `json` (the default) sends the rows, `csv` sends a fixed placeholder as
      `<type>_export.csv`, and any other format sends nothing. */
  function ExportData(t: Option<string>, format: Option<string>, users: seq<User>, children: seq<Children.Child>,
                      donations: seq<Donations.Donation>, programs: seq<Training.Program>): (r: ExportOutcome)
    ensures r == InvalidType <==> ParseExportType(t).None?
    ensures r.JsonExport? <==> ParseExportType(t).Some? && (format.None? || format == Some("json"))
    ensures r.JsonExport? ==> r.data == ExportRowsOf(ParseExportType(t).value, users, children, donations, programs)
    ensures r.CsvPlaceholder? <==> ParseExportType(t).Some? && format == Some("csv")
    ensures r.CsvPlaceholder? ==> r.filename == t.value + "_export.csv" && r.body == CsvNotice
  {
    match ParseExportType(t)
    case None => InvalidType
    case Some(k) =>
      if format.None? || format == Some("json") then JsonExport(ExportRowsOf(k, users, children, donations, programs))
      else if format == Some("csv") then CsvPlaceholder(ExportName(k) + "_export.csv", CsvNotice)
      else NoResponse
  }

  /** No user export, in any format, carries a secret. */
  lemma ExportNeverLeaksSecrets(format: Option<string>, users: seq<User>, children: seq<Children.Child>,
                                donations: seq<Donations.Donation>, programs: seq<Training.Program>)
    ensures var r := ExportData(Some("users"), format, users, children, donations, programs);
            r.JsonExport? ==> r.data.UserRows? && |r.data.users| == |users|
                              && forall i :: 0 <= i < |users| ==> r.data.users[i].Keys !! SecretColumns
  {
  }

  // ---------------------------------------------------------------------------
  // getDashboardStats: the derived figures

  /** `completionRate`: the number 0 without enrolments, otherwise the completed
      share as a percentage to two decimals, here in hundredths of a percent. */
  datatype Rate = NoEnrollments | Hundredths(value: nat)

  /** The completed share in hundredths of a percent, rounded half up:
      `value` is within one half of 10000 * completed / total. */
  function CompletionRate(completed: nat, total: nat): (r: Rate)
    ensures r == NoEnrollments <==> total == 0
    ensures r.Hundredths? ==> (2 * r.value - 1) * total <= 20000 * completed < (2 * r.value + 1) * total
  {
    if total == 0 then NoEnrollments
    else
      var v := (20000 * completed + total) / (2 * total);
      RoundingBounds(20000 * completed + total, 2 * total);
      Hundredths(v)
  }

  /** Euclidean division brackets the dividend. */
  lemma RoundingBounds(n: nat, d: nat)
    requires d > 0
    ensures (n / d) * d <= n < (n / d + 1) * d
  {
  }

  /** The quotient is the one `q` whose multiples bracket the dividend. */
  lemma DivUnique(n: nat, d: nat, q: nat)
    requires d > 0 && q * d <= n < (q + 1) * d
    ensures n / d == q
  {
    var r := n / d;
    RoundingBounds(n, d);
    if r > q {
      MulMonotone(q + 1, r, d);
    } else if r < q {
      MulMonotone(r + 1, q, d);
    }
  }

  /** All completed is 100.00, none completed is 0.00, and the rate never
      exceeds 100.00 when the completed enrolments are among the total. */
  lemma CompletionRateRange(completed: nat, total: nat)
    ensures total > 0 && completed == total ==> CompletionRate(completed, total) == Hundredths(10000)
    ensures total > 0 && completed == 0 ==> CompletionRate(completed, total) == Hundredths(0)
    ensures total > 0 && completed <= total ==> CompletionRate(completed, total).value <= 10000
  {
    if total == 0 {
      return;
    }
    var n, d := 20000 * completed + total, 2 * total;
    if completed == total {
      assert n == 20001 * total && 10000 * d == 20000 * total && 10001 * d == 20002 * total;
      DivUnique(n, d, 10000);
    }
    if completed == 0 {
      DivUnique(n, d, 0);
    }
    if completed <= total {
      var v := n / d;
      RoundingBounds(n, d);
      MulMonotone(completed, total, 20000);
      assert n < 10001 * d;
      if v > 10000 {
        MulMonotone(10001, v, d);
      }
    }
  }

  datatype Dashboard = Dashboard(
    totalUsers: nat,
    pendingApprovals: nat,
    totalChildren: nat,
    totalDonations: int,
    donationCount: nat,
    allocatedAmount: int,
    remaining: int,
    activePrograms: nat,
    totalEnrollments: nat,
    completedEnrollments: nat,
    completionRate: Rate)

  function Unapproved(u: User): bool { !u.isApproved }

  function ActiveProgram(p: Training.Program): bool { p.status == Training.ProgramStatus.Active }

  function CompletedEnrollment(e: Training.Enrollment): bool { e.status == Training.EnrollmentStatus.Completed }

  /** Over balanced donations the dashboard's remaining figure is the sum of the
      donations' own remaining amounts, and neither figure is negative. */
  lemma BalancedRemaining(donations: seq<Donations.Donation>)
    ensures (forall k :: 0 <= k < |donations| ==> Donations.Balanced(donations[k])) ==>
              Donations.TotalAmount(donations) - Donations.TotalAllocated(donations) == Donations.TotalRemaining(donations)
              && Donations.TotalAllocated(donations) >= 0 && Donations.TotalRemaining(donations) >= 0
  {
    if forall k :: 0 <= k < |donations| ==> Donations.Balanced(donations[k]) {
      Donations.TotalsBalance(donations);
    }
  }

  /** The counts and sums `getDashboardStats` reports. `remaining` is computed
      as total minus allocated; on a balanced ledger it is the sum of what each
      donation has left. */
  function DashboardStats(users: seq<User>, children: seq<Children.Child>, donations: seq<Donations.Donation>,
                          programs: seq<Training.Program>, enrollments: seq<Training.Enrollment>): (d: Dashboard)
    ensures d.totalUsers == |users| && d.pendingApprovals == Count(users, Unapproved)
    ensures d.pendingApprovals <= d.totalUsers
    ensures d.totalChildren == |Filter(children, IsActiveChild)|
    ensures d.donationCount == |donations|
    ensures d.activePrograms == Count(programs, ActiveProgram) && d.activePrograms <= |programs|
    ensures d.completedEnrollments == Count(enrollments, CompletedEnrollment)
    ensures d.completedEnrollments <= d.totalEnrollments == |enrollments|
    ensures d.totalDonations == Donations.TotalAmount(donations)
    ensures d.allocatedAmount == Donations.TotalAllocated(donations)
    ensures d.remaining == d.totalDonations - d.allocatedAmount
    ensures d.completionRate == CompletionRate(d.completedEnrollments, d.totalEnrollments)
    ensures d.completionRate == NoEnrollments <==> enrollments == []
    ensures d.completionRate.Hundredths? ==> d.completionRate.value <= 10000
    ensures (forall k :: 0 <= k < |donations| ==> Donations.Balanced(donations[k])) ==>
              d.remaining == Donations.TotalRemaining(donations) && d.remaining >= 0 && d.allocatedAmount >= 0
              && d.allocatedAmount + d.remaining == d.totalDonations
  {
    BalancedRemaining(donations);
    var completed := Count(enrollments, CompletedEnrollment);
    CompletionRateRange(completed, |enrollments|);
    var total := Donations.TotalAmount(donations);
    var allocatedAmount := Donations.TotalAllocated(donations);
    Dashboard(|users|, Count(users, Unapproved), Count(children, IsActiveChild), total, |donations|,
              allocatedAmount, total - allocatedAmount, Count(programs, ActiveProgram), |enrollments|, completed,
              CompletionRate(completed, |enrollments|))
  }
}
