/** Donations and their impact reports (backend/src/controllers/donationController.js,
    backend/src/models/Donation.js, backend/src/routes/donationRoutes.js).
    Money is counted in integer cents; a donation's ledger is its amount split
    into what impact reports have used (`allocatedAmount`) and what is left
    (`remainingAmount`). */
module Donations {
  import opened Common
  import opened Strings
  import opened Users
  import opened Notifications
  import Messages

  datatype RecipientType = ChildRecipient | WomanRecipient | NgoRecipient | ProgramRecipient | General

  datatype PaymentMethod = CreditCard | DebitCard | BankTransfer | MobileMoney | PayPal | OtherMethod

  datatype PaymentStatus = PaymentPending | Processing | PaymentCompleted | PaymentFailed | Refunded

  datatype Frequency = Weekly | Monthly | Quarterly | Annually

  datatype ReportCategory =
    | Education | Healthcare | Food | Shelter | Clothing | TrainingCost | Infrastructure | Administration
    | OtherCategory

  /** A stored donation. Amounts are cents; dates are milliseconds. */
  datatype Donation = Donation(
    id: Id,
    donorId: Id,
    recipientType: RecipientType,
    recipientId: Option<Id>,
    ngoId: Option<Id>,
    amount: int,
    currency: string,
    paymentMethod: PaymentMethod,
    transactionId: string,
    paymentStatus: PaymentStatus,
    donationDate: nat,
    isRecurring: bool,
    recurringFrequency: Option<Frequency>,
    purpose: Option<string>,
    message: Option<string>,
    isAnonymous: bool,
    receiptIssued: bool,
    receiptUrl: Option<string>,
    allocatedAmount: int,
    remainingAmount: int,
    impactReported: bool,
    lastImpactReportDate: Option<nat>)

  /** A stored impact report: how much of one donation an NGO has used, and on what. */
  datatype Report = Report(
    id: Id,
    donationId: Id,
    reportedBy: Id,
    amountUsed: int,
    category: ReportCategory,
    title: string,
    description: string,
    reportDate: nat)

  // ---------------------------------------------------------------------------
  // The ledger of one donation

  /** The ledger balances: what was used and what is left make up the amount,
      and neither is negative. */
  predicate Balanced(d: Donation) {
    d.allocatedAmount >= 0 && d.remainingAmount >= 0 && d.allocatedAmount + d.remainingAmount == d.amount
  }

  /** The `beforeSave` hook: every save recomputes the remaining amount from the
      amount and the allocated amount. */
  function Saved(d: Donation): (r: Donation)
    ensures r.allocatedAmount + r.remainingAmount == r.amount
    ensures r == d.(remainingAmount := r.remainingAmount)
    ensures d.allocatedAmount + d.remainingAmount == d.amount ==> r == d
  {
    d.(remainingAmount := d.amount - d.allocatedAmount)
  }

  /** The update an accepted impact report makes: `used` moves from the
      remaining amount to the allocated amount, and the report is recorded. */
  function Allocate(d: Donation, used: int, now: nat): (r: Donation)
    ensures r.allocatedAmount == d.allocatedAmount + used
    ensures r.amount == d.amount && r.allocatedAmount + r.remainingAmount == r.amount
    ensures Balanced(d) && 0 <= used <= d.remainingAmount ==> Balanced(r) && r.remainingAmount == d.remainingAmount - used
    ensures r.impactReported && r.lastImpactReportDate == Some(now)
    ensures r == d.(allocatedAmount := r.allocatedAmount, remainingAmount := r.remainingAmount,
                    impactReported := true, lastImpactReportDate := Some(now))
  {
    Saved(d.(allocatedAmount := d.allocatedAmount + used, remainingAmount := d.remainingAmount - used,
             impactReported := true, lastImpactReportDate := Some(now)))
  }

  /** The total `amountUsed` of the reports filed against `donationId`. */
  function UsedFor(reports: seq<Report>, donationId: Id): int {
    if reports == [] then 0
    else
      var last := reports[|reports| - 1];
      UsedFor(reports[..|reports| - 1], donationId) + (if last.donationId == donationId then last.amountUsed else 0)
  }

  lemma UsedForSnoc(reports: seq<Report>, r: Report, donationId: Id)
    ensures UsedFor(reports + [r], donationId)
            == UsedFor(reports, donationId) + (if r.donationId == donationId then r.amountUsed else 0)
  {
    assert (reports + [r])[..|reports|] == reports;
  }

  /** Reports about other donations add nothing. */
  lemma {:induction false} UsedForNone(reports: seq<Report>, donationId: Id)
    requires forall k :: 0 <= k < |reports| ==> reports[k].donationId != donationId
    ensures UsedFor(reports, donationId) == 0
  {
    if reports != [] {
      UsedForNone(reports[..|reports| - 1], donationId);
    }
  }

  /** The state of the donations table and the impact-report table: ids
      increase, every donation balances, and every donation's allocated amount
      is what its reports used. */
  ghost predicate Books(donations: seq<Donation>, reports: seq<Report>, nextDonationId: Id, nextReportId: Id) {
    (forall i, j :: 0 <= i < j < |donations| ==> donations[i].id < donations[j].id)
    && (forall i :: 0 <= i < |donations| ==> donations[i].id < nextDonationId)
    && (forall i :: 0 <= i < |donations| ==> Balanced(donations[i]))
    && (forall i :: 0 <= i < |donations| ==> donations[i].allocatedAmount == UsedFor(reports, donations[i].id))
    && (forall k :: 0 <= k < |reports| ==> reports[k].id < nextReportId && reports[k].donationId < nextDonationId)
  }

  class Ledger {
    var donations: seq<Donation>
    var reports: seq<Report>
    var nextDonationId: Id
    var nextReportId: Id

    ghost predicate Valid()
      reads this
    {
      Books(donations, reports, nextDonationId, nextReportId)
    }

    constructor ()
      ensures Valid() && donations == [] && reports == []
    {
      donations, reports, nextDonationId, nextReportId := [], [], 0, 0;
    }
  }

  /** A new donation with nothing allocated keeps the books. */
  lemma AppendKeepsBooks(donations: seq<Donation>, reports: seq<Report>, nd: Id, nr: Id, d: Donation)
    requires Books(donations, reports, nd, nr)
    requires d.id == nd && Balanced(d) && d.allocatedAmount == 0
    ensures Books(donations + [d], reports, nd + 1, nr)
  {
    UsedForNone(reports, d.id);
    var after := donations + [d];
    forall i | 0 <= i < |after|
      ensures after[i].allocatedAmount == UsedFor(reports, after[i].id)
    {
      if i < |donations| { assert after[i] == donations[i]; }
    }
  }

  /** An accepted report and the allocation it makes keep the books. */
  lemma AllocateKeepsBooks(donations: seq<Donation>, reports: seq<Report>, nd: Id, nr: Id, i: nat, r: Report, now: nat)
    requires Books(donations, reports, nd, nr)
    requires i < |donations| && r.id == nr && r.donationId == donations[i].id
    requires 0 < r.amountUsed <= donations[i].remainingAmount
    ensures Books(donations[i := Allocate(donations[i], r.amountUsed, now)], reports + [r], nd, nr + 1)
  {
    var after := donations[i := Allocate(donations[i], r.amountUsed, now)];
    forall j | 0 <= j < |after|
      ensures after[j].allocatedAmount == UsedFor(reports + [r], after[j].id)
    {
      UsedForSnoc(reports, r, after[j].id);
      if j != i {
        assert after[j] == donations[j];
        assert donations[j].id != donations[i].id by {
          if j < i { assert donations[j].id < donations[i].id; } else { assert donations[i].id < donations[j].id; }
        }
      }
    }
    forall j | 0 <= j < |after| ensures Balanced(after[j]) {
      if j != i { assert after[j] == donations[j]; }
    }
  }

  /** Every report in valid books leaves its donation within its amount: a
      donation's reports never use more than was given. */
  lemma {:induction false} ReportsNeverOverspend(donations: seq<Donation>, reports: seq<Report>, nd: Id, nr: Id, i: nat)
    requires Books(donations, reports, nd, nr)
    requires i < |donations|
    ensures 0 <= UsedFor(reports, donations[i].id) <= donations[i].amount
    ensures donations[i].remainingAmount == donations[i].amount - UsedFor(reports, donations[i].id)
  {
    assert Balanced(donations[i]);
    assert donations[i].allocatedAmount == UsedFor(reports, donations[i].id);
  }

  // ---------------------------------------------------------------------------
  // createDonation

  /** The request body after the route's validation of the enumerations. The
      amount is in cents; `amountText` is how the body's amount reads when
      interpolated into a template string. */
  datatype DonationBody = DonationBody(
    recipientType: RecipientType,
    recipientId: Option<Id>,
    ngoId: Option<Id>,
    amount: int,
    amountText: string,
    currency: Option<string>,
    paymentMethod: PaymentMethod,
    purpose: Option<string>,
    message: Option<string>,
    isAnonymous: bool,
    isRecurring: bool,
    recurringFrequency: Option<Frequency>)

  /** The route's check of the amount: at least 0.01. */
  predicate ValidAmount(body: DonationBody) {
    body.amount >= 1
  }

  function ReceiptUrl(id: Id): string {
    "/receipts/" + NatToString(id)
  }

  function DonationUrl(id: Id): string {
    "/donations/" + NatToString(id)
  }

  /** The donation as stored by `createDonation` and its receipt update: paid,
      with a receipt, nothing allocated yet, and the currency defaulting to USD. */
  function NewDonation(id: Id, donorId: Id, body: DonationBody, transactionId: string, now: nat): (d: Donation)
    ensures d.id == id && d.donorId == donorId && d.amount == body.amount && d.ngoId == body.ngoId
    ensures d.currency == (if TruthyStr(body.currency) then body.currency.value else "USD")
    ensures d.paymentStatus == PaymentCompleted && d.receiptIssued && d.receiptUrl == Some(ReceiptUrl(id))
    ensures d.allocatedAmount == 0 && d.remainingAmount == body.amount && !d.impactReported
    ensures d.isAnonymous == body.isAnonymous
    ensures body.amount >= 0 ==> Balanced(d)
  {
    Saved(Donation(id, donorId, body.recipientType, body.recipientId, body.ngoId, body.amount,
                   if TruthyStr(body.currency) then body.currency.value else "USD",
                   body.paymentMethod, transactionId, PaymentCompleted, now, body.isRecurring,
                   body.recurringFrequency, body.purpose, body.message, body.isAnonymous,
                   true, Some(ReceiptUrl(id)), 0, body.amount, false, None))
  }

  /** The currency as a template string renders the body's field: an omitted
      currency reads "undefined". */
  function CurrencyAsWritten(currency: Option<string>): string {
    if currency.Some? then currency.value else "undefined"
  }

  /** The NGO's notification text as written: it interpolates the body's
      currency, not the stored one. */
  function ReceivedTextAsWritten(body: DonationBody, donor: User): string {
    "You received a donation of " + CurrencyAsWritten(body.currency) + " " + body.amountText + " from "
    + (if body.isAnonymous then "Anonymous" else Messages.NameText(donor, "firstName"))
  }

  /** With no currency in the body the stored donation is in USD, yet the NGO
      is told the donation is in "undefined". */
  function ThanksTextAsWritten(body: DonationBody): string {
    "Your donation of " + CurrencyAsWritten(body.currency) + " " + body.amountText + " has been received successfully"
  }

  lemma OmittedCurrencyReadsUndefined(id: Id, donor: User, body: DonationBody, transactionId: string, now: nat)
    requires body.currency.None?
    ensures NewDonation(id, donor.id, body, transactionId, now).currency == "USD"
    ensures var text := ReceivedTextAsWritten(body, donor);
            |text| >= 36 && text[27..36] == "undefined"
    ensures var text := ThanksTextAsWritten(body);
            |text| >= 26 && text[17..26] == "undefined"
  {
    var text := ReceivedTextAsWritten(body, donor);
    assert text == "You received a donation of " + "undefined" + (" " + body.amountText + " from "
      + (if body.isAnonymous then "Anonymous" else Messages.NameText(donor, "firstName")));
    var thanks := ThanksTextAsWritten(body);
    assert thanks == "Your donation of " + "undefined" + (" " + body.amountText + " has been received successfully");
  }

  /** Whenever the body names a currency, the texts as written and the
      corrected texts are the same: the two differ only for an omitted or
      empty currency. */
  lemma NamedCurrencyTextsAgree(id: Id, donor: User, body: DonationBody, transactionId: string, now: nat)
    requires TruthyStr(body.currency)
    ensures var d := NewDonation(id, donor.id, body, transactionId, now);
            ReceivedTextAsWritten(body, donor) == ReceivedText(d, body.amountText, donor)
            && ThanksTextAsWritten(body) == ThanksText(d, body.amountText)
  {
  }

  /** The NGO's notification text, naming the currency the donation was stored in. */
  function ReceivedText(d: Donation, amountText: string, donor: User): (text: string)
    ensures |text| >= 27 + |d.currency| && text[27..27 + |d.currency|] == d.currency
  {
    var text := "You received a donation of " + d.currency + " " + amountText + " from "
      + (if d.isAnonymous then "Anonymous" else Messages.NameText(donor, "firstName"));
    assert text == "You received a donation of " + d.currency + (" " + amountText + " from "
      + (if d.isAnonymous then "Anonymous" else Messages.NameText(donor, "firstName")));
    text
  }

  /** The donor's thank-you text, naming the stored currency. */
  function ThanksText(d: Donation, amountText: string): (text: string)
    ensures |text| >= 17 + |d.currency| && text[17..17 + |d.currency|] == d.currency
  {
    var text := "Your donation of " + d.currency + " " + amountText + " has been received successfully";
    assert text == "Your donation of " + d.currency + (" " + amountText + " has been received successfully");
    text
  }

  /** With the stored currency, an omitted currency reads "USD" in both texts. */
  lemma OmittedCurrencyReadsUsd(id: Id, donor: User, body: DonationBody, transactionId: string, now: nat)
    requires body.currency.None?
    ensures var d := NewDonation(id, donor.id, body, transactionId, now);
            ReceivedText(d, body.amountText, donor)[27..30] == "USD"
            && ThanksText(d, body.amountText)[17..20] == "USD"
  {
  }

  /** Sends one notification about a donation and reports its title and text. */
  method Announce(notes: NotificationStore, users: seq<User>, userId: Id, title: string, text: string,
                  donationId: Id, channels: seq<string>, now: nat, email: Adapter, sms: Adapter)
    requires notes.Valid()
    modifies notes
    ensures notes.Valid()
    ensures Notified(old(notes.rows), notes.rows, userId, DonationReceived, donationId)
    ensures notes.rows[|old(notes.rows)|].title == title && notes.rows[|old(notes.rows)|].message == text
  {
    var options := Options(Some(donationId), Some("donation"), Some(DonationUrl(donationId)), None, Some(channels), None);
    var n, _, _ := CreateNotification(notes, users, userId, DonationReceived, title, text, options, now, email, sms);
    assert notes.rows[..|old(notes.rows)|] == old(notes.rows);
  }

  /** The notices of a new donation `d`: one to the managing NGO when there is
      one, then the donor's thanks, both about `d` and nothing else changed. */
  predicate DonationNoticed(before: seq<Notification>, after: seq<Notification>, d: Donation, body: DonationBody,
                            donor: User) {
    var n := |before|;
    var sent := if body.ngoId.Some? then 2 else 1;
    |after| == n + sent && after[..n] == before
    && (body.ngoId.Some? ==>
          after[n].userId == body.ngoId.value
          && after[n].title == "New Donation Received"
          && after[n].message == ReceivedText(d, body.amountText, donor))
    && after[n + sent - 1].userId == donor.id
    && after[n + sent - 1].title == "Thank You for Your Donation"
    && after[n + sent - 1].message == ThanksText(d, body.amountText)
    && forall k :: n <= k < |after| ==> after[k].kind == DonationReceived && after[k].relatedTo == Some(d.id)
  }

  /** The two notification calls of `createDonation`. */
  method AnnounceDonation(notes: NotificationStore, users: seq<User>, d: Donation, body: DonationBody, donor: User,
                          now: nat, email: Adapter, sms: Adapter)
    requires notes.Valid()
    modifies notes
    ensures notes.Valid()
    ensures DonationNoticed(old(notes.rows), notes.rows, d, body, donor)
  {
    ghost var before := notes.rows;
    if body.ngoId.Some? {
      Announce(notes, users, body.ngoId.value, "New Donation Received", ReceivedText(d, body.amountText, donor),
               d.id, ["in_app", "email"], now, email, sms);
    }
    ghost var middle := notes.rows;
    Announce(notes, users, donor.id, "Thank You for Your Donation", ThanksText(d, body.amountText),
             d.id, ["in_app"], now, email, sms);
    assert notes.rows[..|middle|] == middle;
    assert middle[..|before|] == before;
  }

  /** Stores a new donation with nothing allocated. */
  method StoreDonation(ledger: Ledger, d: Donation)
    requires ledger.Valid() && d.id == ledger.nextDonationId && Balanced(d) && d.allocatedAmount == 0
    modifies ledger
    ensures ledger.Valid()
    ensures ledger.donations == old(ledger.donations) + [d] && ledger.reports == old(ledger.reports)
    ensures ledger.nextDonationId == old(ledger.nextDonationId) + 1 && ledger.nextReportId == old(ledger.nextReportId)
  {
    AppendKeepsBooks(ledger.donations, ledger.reports, ledger.nextDonationId, ledger.nextReportId, d);
    ledger.donations := ledger.donations + [d];
    ledger.nextDonationId := ledger.nextDonationId + 1;
  }

  /** `createDonation`: an amount under 0.01 is refused by the route with 400;
      otherwise the donation is stored paid and receipted, the managing NGO (if
      any) is told of it, and then the donor is thanked. */
  method CreateDonation(ledger: Ledger, notes: NotificationStore, users: seq<User>, donor: User,
                        body: DonationBody, transactionId: string, now: nat, email: Adapter, sms: Adapter)
    returns (status: Status, donation: Option<Donation>)
    requires ledger.Valid() && notes.Valid()
    modifies ledger, notes
    ensures ledger.Valid() && notes.Valid()
    ensures !ValidAmount(body) ==> status == BadRequest && donation.None? && unchanged(ledger) && unchanged(notes)
    ensures ValidAmount(body) ==>
              status == Created
              && donation == Some(NewDonation(old(ledger.nextDonationId), donor.id, body, transactionId, now))
              && ledger.donations == old(ledger.donations) + [donation.value]
              && ledger.reports == old(ledger.reports)
              && DonationNoticed(old(notes.rows), notes.rows, donation.value, body, donor)
  {
    if !ValidAmount(body) {
      return BadRequest, None;
    }
    var d := NewDonation(ledger.nextDonationId, donor.id, body, transactionId, now);
    StoreDonation(ledger, d);
    AnnounceDonation(notes, users, d, body, donor, now, email, sms);
    return Created, Some(d);
  }

  // ---------------------------------------------------------------------------
  // createImpactReport

  /** The request body of an impact report, its category already validated. */
  datatype ReportBody = ReportBody(amountUsed: int, category: ReportCategory, title: string, description: string)

  /** The route's checks: at least 0.01 used, and a title and description given. */
  predicate ValidReport(body: ReportBody) {
    body.amountUsed >= 1 && body.title != "" && body.description != ""
  }

  /** `Donation.findByPk(id)`. */
  function FindDonation(donations: seq<Donation>, id: Id): (i: Option<nat>)
    ensures i.Some? ==> i.value < |donations| && donations[i.value].id == id
    ensures i.None? ==> forall k :: 0 <= k < |donations| ==> donations[k].id != id
  {
    FirstIndex(donations, (d: Donation) => d.id == id)
  }

  /** Only an admin or the donation's managing NGO may report on it. */
  predicate MayReport(caller: User, d: Donation) {
    caller.role == Admin || d.ngoId == Some(caller.id)
  }

  datatype ReportCheck = Invalid | Refused(status: Status, message: string) | Accept(index: nat)

  /** The checks before a report is filed, in order: the route's validation
      (400), an unknown donation (404), a caller who is neither admin nor the
      managing NGO (403), and an amount above what remains (400). */
  function CheckReport(donations: seq<Donation>, donationId: Id, caller: User, body: ReportBody): (c: ReportCheck)
    ensures c.Invalid? <==> !ValidReport(body)
    ensures c.Accept? <==>
              ValidReport(body) && FindDonation(donations, donationId).Some?
              && MayReport(caller, donations[FindDonation(donations, donationId).value])
              && body.amountUsed <= donations[FindDonation(donations, donationId).value].remainingAmount
    ensures c.Accept? ==> c.index == FindDonation(donations, donationId).value
    ensures ValidReport(body) && FindDonation(donations, donationId).None? ==> c == Refused(NotFound, "Donation not found")
    ensures c.Refused? && c.status == Forbidden ==> c.message == "Only the receiving NGO can create impact reports"
    ensures c.Refused? ==> c.status in {NotFound, Forbidden, BadRequest}
  {
    if !ValidReport(body) then Invalid
    else match FindDonation(donations, donationId)
      case None => Refused(NotFound, "Donation not found")
      case Some(i) =>
        if !MayReport(caller, donations[i]) then Refused(Forbidden, "Only the receiving NGO can create impact reports")
        else if body.amountUsed > donations[i].remainingAmount then
          Refused(BadRequest, "Amount used exceeds remaining donation amount")
        else Accept(i)
  }

  /** Without the route's minimum, a negative amount used would pass the
      handler's own check and drive the allocated amount below zero. */
  lemma NegativeUseUnbalances(d: Donation, used: int, now: nat)
    requires Balanced(d) && d.allocatedAmount == 0 && used < 0
    ensures used <= d.remainingAmount
    ensures !Balanced(Allocate(d, used, now))
  {
  }

  method StoreReport(ledger: Ledger, i: nat, r: Report, now: nat)
    requires ledger.Valid() && i < |ledger.donations|
    requires r.id == ledger.nextReportId && r.donationId == ledger.donations[i].id
    requires 0 < r.amountUsed <= ledger.donations[i].remainingAmount
    modifies ledger
    ensures ledger.Valid()
    ensures ledger.reports == old(ledger.reports) + [r]
    ensures ledger.donations == old(ledger.donations)[i := Allocate(old(ledger.donations)[i], r.amountUsed, now)]
    ensures ledger.nextDonationId == old(ledger.nextDonationId)
  {
    AllocateKeepsBooks(ledger.donations, ledger.reports, ledger.nextDonationId, ledger.nextReportId, i, r, now);
    ledger.reports := ledger.reports + [r];
    ledger.nextReportId := ledger.nextReportId + 1;
    ledger.donations := ledger.donations[i := Allocate(ledger.donations[i], r.amountUsed, now)];
  }

  /** `createImpactReport`: refused with no change, or the report stored, the
      amount moved from remaining to allocated, and the donor told. */
  method CreateImpactReport(ledger: Ledger, notes: NotificationStore, users: seq<User>, donationId: Id,
                            caller: User, body: ReportBody, now: nat, email: Adapter, sms: Adapter)
    returns (status: Status, report: Option<Report>)
    requires ledger.Valid() && notes.Valid()
    modifies ledger, notes
    ensures ledger.Valid() && notes.Valid()
    ensures !CheckReport(old(ledger.donations), donationId, caller, body).Accept? ==>
              report.None? && unchanged(ledger) && unchanged(notes)
              && status == (if body.amountUsed < 1 || body.title == "" || body.description == "" then BadRequest
                            else CheckReport(old(ledger.donations), donationId, caller, body).status)
    ensures CheckReport(old(ledger.donations), donationId, caller, body).Accept? ==>
              var i := CheckReport(old(ledger.donations), donationId, caller, body).index;
              status == Created
              && report == Some(Report(old(ledger.nextReportId), donationId, caller.id, body.amountUsed, body.category,
                                       body.title, body.description, now))
              && ledger.reports == old(ledger.reports) + [report.value]
              && ledger.donations == old(ledger.donations)[i := Allocate(old(ledger.donations)[i], body.amountUsed, now)]
              && Notified(old(notes.rows), notes.rows, old(ledger.donations)[i].donorId,
                          NotificationType.ImpactReport, report.value.id)
  {
    var check := CheckReport(ledger.donations, donationId, caller, body);
    match check {
      case Invalid =>
        return BadRequest, None;
      case Refused(s, _) =>
        return s, None;
      case Accept(i) =>
        var donorId := ledger.donations[i].donorId;
        var r := Report(ledger.nextReportId, donationId, caller.id, body.amountUsed, body.category,
                        body.title, body.description, now);
        StoreReport(ledger, i, r, now);
        var options := Options(Some(r.id), Some("impact_report"), Some(DonationUrl(donationId)), None,
                               Some(["in_app", "email"]), None);
        var n, _, _ := CreateNotification(notes, users, donorId, NotificationType.ImpactReport,
                                          "New Impact Report Available",
                                          "A new impact report has been submitted for your donation",
                                          options, now, email, sms);
        assert notes.rows[..|old(notes.rows)|] == old(notes.rows);
        return Created, Some(r);
    }
  }

  // ---------------------------------------------------------------------------
  // Viewing: access and anonymisation

  /** The donor attributes included with a donation. */
  datatype DonorCard = DonorCard(id: Option<Id>, firstName: Json, lastName: Json, email: Option<string>)

  const AnonymousDonor: DonorCard := DonorCard(None, JStr("Anonymous"), JStr("Donor"), None)

  function CardOf(u: User): DonorCard {
    DonorCard(Some(u.id), Value(u, ProfileCol("firstName")), Value(u, ProfileCol("lastName")), Some(u.email))
  }

  /** A donation as a viewer receives it. */
  datatype DonationView = DonationView(donation: Donation, donor: Option<DonorCard>)

  /** The donor is hidden from everyone except an admin and the donor. */
  predicate Hidden(d: Donation, viewer: User) {
    d.isAnonymous && viewer.role != Admin && viewer.id != d.donorId
  }

  /** The serialised donation: the donor's card replaced by "Anonymous Donor"
      exactly when hidden; every donation field unchanged. */
  function Sanitize(d: Donation, users: seq<User>, viewer: User): (v: DonationView)
    ensures v.donation == d
    ensures v.donor == Some(AnonymousDonor) <==> Hidden(d, viewer)
    ensures !Hidden(d, viewer) && FindUser(users, d.donorId).Some? ==> v.donor == Some(CardOf(FindUser(users, d.donorId).value))
  {
    if Hidden(d, viewer) then DonationView(d, Some(AnonymousDonor))
    else match FindUser(users, d.donorId)
      case None => DonationView(d, None)
      case Some(u) => DonationView(d, Some(CardOf(u)))
  }

  /** Only an admin, the donor and the managing NGO may open a donation. */
  predicate MayView(viewer: User, d: Donation) {
    viewer.role == Admin || d.donorId == viewer.id || d.ngoId == Some(viewer.id)
  }

  function ReportsOf(donationId: Id): Report -> bool {
    (r: Report) => r.donationId == donationId
  }

  /** A donation as opened: the sanitised donation and its impact reports. */
  datatype DonationDetail = DonationDetail(view: DonationView, reports: seq<Report>)

  /** `getDonationById`: 404, then 403 unless the viewer may open it; otherwise
      the sanitised donation with every report on it, in table order (the
      `order` option sits inside the include, where the query ignores it). */
  function GetDonationById(donations: seq<Donation>, reports: seq<Report>, users: seq<User>, id: Id, viewer: User)
    : (r: Reply<DonationDetail>)
    ensures r.Shown? <==> FindDonation(donations, id).Some? && MayView(viewer, donations[FindDonation(donations, id).value])
    ensures FindDonation(donations, id).None? ==> r == Denied(NotFound, "Donation not found")
    ensures r.Denied? && FindDonation(donations, id).Some? ==> r == Denied(Forbidden, "Access denied")
    ensures r.Shown? ==>
              r.value.view == Sanitize(donations[FindDonation(donations, id).value], users, viewer)
              && (forall x :: x in r.value.reports <==> x in reports && x.donationId == id)
              && r.value.reports == Filter(reports, ReportsOf(id))
  {
    match FindDonation(donations, id)
    case None => Denied(NotFound, "Donation not found")
    case Some(i) =>
      if !MayView(viewer, donations[i]) then Denied(Forbidden, "Access denied")
      else Shown(DonationDetail(Sanitize(donations[i], users, viewer), Filter(reports, ReportsOf(id))))
  }

  /** The only viewer who opens an anonymous donation and sees "Anonymous Donor"
      is its managing NGO. */
  lemma OnlyNgoSeesAnonymous(donations: seq<Donation>, reports: seq<Report>, users: seq<User>, id: Id, viewer: User)
    requires GetDonationById(donations, reports, users, id, viewer).Shown?
    requires GetDonationById(donations, reports, users, id, viewer).value.view.donor == Some(AnonymousDonor)
    ensures viewer.role != Admin
    ensures var d := donations[FindDonation(donations, id).value];
            d.isAnonymous && d.donorId != viewer.id && d.ngoId == Some(viewer.id)
  {
  }

  // ---------------------------------------------------------------------------
  // getAllDonations

  /** The listing scope: a donor sees their own donations, an NGO those it
      manages, anyone else all of them. */
  predicate InScope(viewer: User, d: Donation) {
    match viewer.role
    case Donor => d.donorId == viewer.id
    case Ngo => d.ngoId == Some(viewer.id)
    case _ => true
  }

  function Listed(viewer: User, recipientType: Option<RecipientType>, paymentStatus: Option<PaymentStatus>)
    : Donation -> bool
  {
    (d: Donation) =>
      InScope(viewer, d)
      && (recipientType.None? || d.recipientType == recipientType.value)
      && (paymentStatus.None? || d.paymentStatus == paymentStatus.value)
  }

  function DonationDate(d: Donation): int {
    d.donationDate
  }

  /** `getAllDonations`: the scoped and filtered donations, newest first, one
      page of them, each sanitised for the viewer. */
  function GetAllDonations(donations: seq<Donation>, users: seq<User>, viewer: User,
                           recipientType: Option<RecipientType>, paymentStatus: Option<PaymentStatus>,
                           page: nat, limit: nat): (p: Page<DonationView>)
    requires page >= 1 && limit >= 1
    ensures p.page == page && p.limit == limit
    ensures p.items == SanitizeAll(Paginate(Ranked(donations, Listed(viewer, recipientType, paymentStatus), DonationDate),
                                            page, limit), users, viewer)
    ensures p.total == Count(donations, Listed(viewer, recipientType, paymentStatus))
    ensures p.pages == PageCount(p.total, limit) && |p.items| <= limit
    ensures forall k :: 0 <= k < |p.items| ==>
              p.items[k].donation in donations
              && Listed(viewer, recipientType, paymentStatus)(p.items[k].donation)
              && p.items[k] == Sanitize(p.items[k].donation, users, viewer)
    ensures forall i, j :: 0 <= i < j < |p.items| ==> p.items[i].donation.donationDate >= p.items[j].donation.donationDate
  {
    var q := ListQuery(donations, Listed(viewer, recipientType, paymentStatus), DonationDate, page, limit);
    var items := SanitizeAll(q.items, users, viewer);
    forall k | 0 <= k < |items|
      ensures items[k].donation in donations && Listed(viewer, recipientType, paymentStatus)(items[k].donation)
    {
      assert items[k].donation == q.items[k] && q.items[k] in q.items;
    }
    Page(items, q.total, q.page, q.limit, q.pages)
  }

  /** Each donation of a page, sanitised for the viewer, in the same order. */
  function SanitizeAll(ds: seq<Donation>, users: seq<User>, viewer: User): (vs: seq<DonationView>)
    ensures |vs| == |ds|
    ensures forall k :: 0 <= k < |ds| ==> vs[k] == Sanitize(ds[k], users, viewer) && vs[k].donation == ds[k]
  {
    seq(|ds|, k requires 0 <= k < |ds| => Sanitize(ds[k], users, viewer))
  }

  // ---------------------------------------------------------------------------
  // getDonationStatistics

  function InScopeOf(viewer: User): Donation -> bool {
    (d: Donation) => InScope(viewer, d)
  }

  function TotalAmount(ds: seq<Donation>): int {
    if ds == [] then 0 else ds[0].amount + TotalAmount(ds[1..])
  }

  function TotalAllocated(ds: seq<Donation>): int {
    if ds == [] then 0 else ds[0].allocatedAmount + TotalAllocated(ds[1..])
  }

  function TotalRemaining(ds: seq<Donation>): int {
    if ds == [] then 0 else ds[0].remainingAmount + TotalRemaining(ds[1..])
  }

  /** Over balanced donations the allocated and remaining totals add up to the
      donated total, and none of them is negative. */
  lemma {:induction false} TotalsBalance(ds: seq<Donation>)
    requires forall k :: 0 <= k < |ds| ==> Balanced(ds[k])
    ensures TotalAllocated(ds) + TotalRemaining(ds) == TotalAmount(ds)
    ensures TotalAllocated(ds) >= 0 && TotalRemaining(ds) >= 0
  {
    if ds != [] {
      assert Balanced(ds[0]);
      TotalsBalance(ds[1..]);
    }
  }

  /** The viewer's scope of balanced donations balances in total. */
  lemma ScopedTotalsBalance(donations: seq<Donation>, viewer: User)
    ensures (forall k :: 0 <= k < |donations| ==> Balanced(donations[k])) ==>
              var scoped := Filter(donations, InScopeOf(viewer));
              TotalAllocated(scoped) + TotalRemaining(scoped) == TotalAmount(scoped)
              && TotalAllocated(scoped) >= 0 && TotalRemaining(scoped) >= 0
  {
    var scoped := Filter(donations, InScopeOf(viewer));
    if forall k :: 0 <= k < |donations| ==> Balanced(donations[k]) {
      forall k | 0 <= k < |scoped| ensures Balanced(scoped[k]) {
        assert scoped[k] in donations;
        var j :| 0 <= j < |donations| && donations[j] == scoped[k];
      }
      TotalsBalance(scoped);
    }
  }

  datatype Stats = Stats(totalDonations: int, totalAllocated: int, totalRemaining: int,
                         donationCount: nat, impactReportsCount: nat)

  function ReportInScope(donations: seq<Donation>, viewer: User): Report -> bool {
    (r: Report) => FindDonation(Filter(donations, InScopeOf(viewer)), r.donationId).Some?
  }

  /** `getDonationStatistics`: totals and counts over the viewer's scope; with
      balanced donations the allocated and remaining totals make up the donated
      total. */
  function Statistics(donations: seq<Donation>, reports: seq<Report>, viewer: User): (s: Stats)
    ensures var scoped := Filter(donations, InScopeOf(viewer));
            s.totalDonations == TotalAmount(scoped) && s.totalAllocated == TotalAllocated(scoped)
            && s.totalRemaining == TotalRemaining(scoped)
    ensures s.donationCount == Count(donations, InScopeOf(viewer))
    ensures s.impactReportsCount == Count(reports, ReportInScope(donations, viewer))
    ensures (forall k :: 0 <= k < |donations| ==> Balanced(donations[k])) ==>
              s.totalAllocated + s.totalRemaining == s.totalDonations
              && s.totalAllocated >= 0 && s.totalRemaining >= 0
  {
    var scoped := Filter(donations, InScopeOf(viewer));
    ScopedTotalsBalance(donations, viewer);
    Stats(TotalAmount(scoped), TotalAllocated(scoped), TotalRemaining(scoped),
          Count(donations, InScopeOf(viewer)), Count(reports, ReportInScope(donations, viewer)))
  }

  lemma {:induction false} TotalAmountAppend(a: seq<Donation>, b: seq<Donation>)
    ensures TotalAmount(a + b) == TotalAmount(a) + TotalAmount(b)
  {
    if a == [] {
      assert a + b == b;
    } else {
      assert (a + b)[1..] == a[1..] + b;
      TotalAmountAppend(a[1..], b);
    }
  }

  /** A new donation moves the statistics of exactly the viewers whose scope it
      falls in: by one donation and by its amount. */
  lemma StatisticsOfNewDonation(donations: seq<Donation>, reports: seq<Report>, viewer: User, d: Donation)
    ensures var before, after := Statistics(donations, reports, viewer), Statistics(donations + [d], reports, viewer);
            after.donationCount == before.donationCount + (if InScope(viewer, d) then 1 else 0)
            && after.totalDonations == before.totalDonations + (if InScope(viewer, d) then d.amount else 0)
  {
    var scoped := Filter(donations, InScopeOf(viewer));
    FilterAppend(donations, [d], InScopeOf(viewer));
    assert Filter([d], InScopeOf(viewer)) == if InScope(viewer, d) then [d] else [] by {
      assert [d][1..] == [];
    }
    TotalAmountAppend(scoped, Filter([d], InScopeOf(viewer)));
    assert TotalAmount([d]) == d.amount;
  }

  // ---------------------------------------------------------------------------
  // getMessageRecipients

  /** A user whose account is of `role`, active and approved. */
  function Reachable(role: Role): User -> bool {
    (u: User) => u.role == role && u.isActive && u.isApproved
  }

  /** The NGOs `donorId` has donated to (donations without an NGO excluded). */
  function DonatedNgoIds(donations: seq<Donation>, donorId: Id): set<Id> {
    set d | d in donations && d.donorId == donorId && d.ngoId.Some? :: d.ngoId.value
  }

  datatype Contact = Contact(user: User, hasDonated: bool)

  /** Each NGO marked with whether the donor has donated to it. */
  function Marked(ngos: seq<User>, donated: set<Id>): (r: seq<Contact>)
    ensures |r| == |ngos|
    ensures forall k :: 0 <= k < |ngos| ==> r[k].user == ngos[k] && (r[k].hasDonated <==> ngos[k].id in donated)
  {
    seq(|ngos|, k requires 0 <= k < |ngos| => Contact(ngos[k], ngos[k].id in donated))
  }

  /** The `forEach` that fills the map from NGO id to marked NGO. */
  method MarkDonated(ngos: seq<User>, donated: set<Id>) returns (marked: seq<Contact>)
    ensures marked == Marked(ngos, donated)
  {
    marked := [];
    var k := 0;
    while k < |ngos|
      invariant 0 <= k <= |ngos|
      invariant marked == Marked(ngos[..k], donated)
    {
      marked := marked + [Contact(ngos[k], ngos[k].id in donated)];
      k := k + 1;
    }
    assert ngos[..k] == ngos;
  }

  predicate HasDonated(c: Contact) { c.hasDonated }

  predicate NotDonated(c: Contact) { !c.hasDonated }

  function DonatedFirst(c: Contact): int { if c.hasDonated then 1 else 0 }

  /** `getMessageRecipients`: the reachable admins, and the reachable NGOs with
      those the donor has donated to first, each group in its query order. */
  method GetMessageRecipients(users: seq<User>, donations: seq<Donation>, donorId: Id)
    returns (admins: seq<User>, ngos: seq<Contact>)
    ensures admins == Filter(users, Reachable(Admin))
    ensures ngos == Filter(Marked(Filter(users, Reachable(Ngo)), DonatedNgoIds(donations, donorId)), HasDonated)
                    + Filter(Marked(Filter(users, Reachable(Ngo)), DonatedNgoIds(donations, donorId)), NotDonated)
    ensures forall c :: c in ngos ==>
              c.user in users && c.user.role == Ngo && (c.hasDonated <==> c.user.id in DonatedNgoIds(donations, donorId))
    ensures forall i, j :: 0 <= i < j < |ngos| && ngos[j].hasDonated ==> ngos[i].hasDonated
  {
    admins := Filter(users, Reachable(Admin));
    var donated := DonatedNgoIds(donations, donorId);
    var marked := MarkDonated(Filter(users, Reachable(Ngo)), donated);
    ngos := SortDesc(marked, DonatedFirst);
    SortByFlagIsStablePartition(marked, DonatedFirst, HasDonated, NotDonated);
    MarkedContacts(users, donated);
    forall c | c in ngos
      ensures c.user in users && c.user.role == Ngo && (c.hasDonated <==> c.user.id in donated)
    {
      assert c in multiset(ngos);
    }
    DonatedFirstOrder(ngos);
  }

  /** Every marked NGO is a reachable NGO, marked by membership in `donated`. */
  lemma MarkedContacts(users: seq<User>, donated: set<Id>)
    ensures forall c :: c in Marked(Filter(users, Reachable(Ngo)), donated) ==>
              c.user in users && c.user.role == Ngo && (c.hasDonated <==> c.user.id in donated)
  {
    var ngos := Filter(users, Reachable(Ngo));
    var marked := Marked(ngos, donated);
    forall c | c in marked
      ensures c.user in users && c.user.role == Ngo && (c.hasDonated <==> c.user.id in donated)
    {
      var k :| 0 <= k < |marked| && marked[k] == c;
      assert ngos[k] in ngos;
    }
  }

  /** Sorted by `DonatedFirst`, no NGO donated to follows one not donated to. */
  lemma DonatedFirstOrder(ngos: seq<Contact>)
    requires SortedDesc(ngos, DonatedFirst)
    ensures forall i, j :: 0 <= i < j < |ngos| && ngos[j].hasDonated ==> ngos[i].hasDonated
  {
    forall i, j | 0 <= i < j < |ngos| && ngos[j].hasDonated ensures ngos[i].hasDonated {
      assert DonatedFirst(ngos[i]) >= DonatedFirst(ngos[j]);
    }
  }
}
