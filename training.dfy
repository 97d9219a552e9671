/** Training programs and enrolments (backend/src/controllers/trainingController.js
    over backend/src/models/TrainingProgram.js and backend/src/models/Enrollment.js):
    the enrolment guards, the participant counter, approval, progress with
    auto-completion and certificates, and who may manage a program. The
    messages and notifications the handlers send are stored through the
    Messages and Notifications modules. */
module Training {
  import opened Common
  import opened Strings
  import opened Users
  import opened Notifications
  import opened Messages

  datatype ProgramStatus = Draft | Active | Full | Completed | Cancelled

  /** A training program. `cost` is whole cents; `maxParticipants` None or 0
      means no limit. */
  datatype Program = Program(
    id: Id,
    createdBy: Id,
    title: string,
    category: string,
    skillLevel: string,
    duration: int,
    maxParticipants: Option<int>,
    currentParticipants: int,
    startDate: Option<nat>,
    certificationProvided: bool,
    cost: int,
    status: ProgramStatus)

  datatype EnrollmentStatus = Pending | Approved | Active | Completed | Dropped | Failed

  datatype Enrollment = Enrollment(
    id: Id,
    programId: Id,
    userId: Id,
    status: EnrollmentStatus,
    approvedBy: Option<Id>,
    approvedAt: Option<nat>,
    startDate: Option<nat>,
    completionDate: Option<nat>,
    progress: int,
    certificateIssued: bool,
    certificateUrl: Option<string>,
    certificateIssuedDate: Option<nat>,
    proofOfProgress: seq<string>,
    notes: Option<string>,
    enrollmentDate: nat)

  function FindProgram(programs: seq<Program>, id: Id): (i: Option<nat>)
    ensures i.Some? ==> i.value < |programs| && programs[i.value].id == id
    ensures i.None? ==> forall k :: 0 <= k < |programs| ==> programs[k].id != id
  {
    FirstIndex(programs, (p: Program) => p.id == id)
  }

  /** The tables' invariant: program ids and (program, user) pairs are unique,
      enrolment ids increase, every enrolment's program exists (the foreign key
      with cascading delete) and progress is a percentage (the column's
      validation). */
  ghost predicate Consistent(programs: seq<Program>, enrollments: seq<Enrollment>, nextId: nat) {
    (forall i, j :: 0 <= i < j < |programs| ==> programs[i].id != programs[j].id)
    && (forall i, j :: 0 <= i < j < |enrollments| ==> enrollments[i].id < enrollments[j].id)
    && (forall i, j :: 0 <= i < j < |enrollments| ==>
          !(enrollments[i].programId == enrollments[j].programId && enrollments[i].userId == enrollments[j].userId))
    && (forall i :: 0 <= i < |enrollments| ==>
          enrollments[i].id < nextId && FindProgram(programs, enrollments[i].programId).Some?
          && 0 <= enrollments[i].progress <= 100)
  }

  /** The programs and enrolments tables. */
  class Catalogue {
    var programs: seq<Program>
    var enrollments: seq<Enrollment>
    var nextEnrollmentId: nat

    ghost predicate Valid()
      reads this
    {
      Consistent(programs, enrollments, nextEnrollmentId)
    }

    constructor ()
      ensures Valid() && programs == [] && enrollments == []
    {
      programs := [];
      enrollments := [];
      nextEnrollmentId := 0;
    }
  }

  /** Changing a program's other fields keeps every enrolment's program. */
  lemma SameIdsKeepPrograms(programs: seq<Program>, i: nat, p: Program, enrollments: seq<Enrollment>, nextId: nat)
    requires Consistent(programs, enrollments, nextId)
    requires i < |programs| && p.id == programs[i].id
    ensures Consistent(programs[i := p], enrollments, nextId)
  {
    var after := programs[i := p];
    forall k | 0 <= k < |enrollments| ensures FindProgram(after, enrollments[k].programId).Some? {
      var j := FindProgram(programs, enrollments[k].programId).value;
      assert after[j].id == enrollments[k].programId;
    }
  }

  /** Storing a new enrolment under the next id, for an existing program and a
      pair not yet enrolled, keeps the tables consistent. */
  lemma AppendKeepsConsistent(programs: seq<Program>, enrollments: seq<Enrollment>, nextId: nat, e: Enrollment)
    requires Consistent(programs, enrollments, nextId)
    requires e.id == nextId && FindProgram(programs, e.programId).Some? && 0 <= e.progress <= 100
    requires !Enrolled(enrollments, e.programId, e.userId)
    ensures Consistent(programs, enrollments + [e], nextId + 1)
  {
    var es := enrollments + [e];
    forall a, b | 0 <= a < b < |es| ensures !(es[a].programId == es[b].programId && es[a].userId == es[b].userId) {
      if b == |enrollments| {
        assert es[a] in enrollments;
      }
    }
  }

  /** Rewriting an enrolment's other fields, progress kept a percentage, keeps
      the tables consistent. */
  lemma ReplaceKeepsConsistent(programs: seq<Program>, enrollments: seq<Enrollment>, nextId: nat, i: nat, r: Enrollment)
    requires Consistent(programs, enrollments, nextId) && i < |enrollments|
    requires r.id == enrollments[i].id && r.programId == enrollments[i].programId && r.userId == enrollments[i].userId
    requires 0 <= r.progress <= 100
    ensures Consistent(programs, enrollments[i := r], nextId)
  {
  }

  // ---------------------------------------------------------------------------
  // Messages and notifications sent about an enrolment

  /** The notification options of every enrolment notice. */
  function EnrollmentOptions(enrollmentId: Id, actionUrl: string): (o: Options)
    ensures o.relatedTo == Some(enrollmentId) && o.relatedType == Some("enrollment")
    ensures o.actionUrl == Some(actionUrl) && Channels(o) == ["in_app", "email"]
  {
    Options(Some(enrollmentId), Some("enrollment"), Some(actionUrl), None, Some(["in_app", "email"]), None)
  }

  /** Exactly one system message with `subject` about the enrolment was added
      for `userId`. */
  predicate Mailed(before: seq<Message>, after: seq<Message>, userId: Id, subject: string, enrollmentId: Id) {
    |after| == |before| + 1 && after[..|before|] == before
    && after[|before|].recipientId == userId && after[|before|].subject == Some(subject)
    && after[|before|].messageType == NotificationMessage
    && after[|before|].relatedTo == Some(enrollmentId) && !after[|before|].isRead
  }

  /** `Message.create(...)` with the enrolment as related entity. */
  method MailAbout(mailbox: Mailbox, senderId: Id, userId: Id, subject: string, content: string, priority: Priority,
                   enrollmentId: Id, now: nat)
    requires mailbox.Valid()
    modifies mailbox
    ensures mailbox.Valid()
    ensures Mailed(old(mailbox.rows), mailbox.rows, userId, subject, enrollmentId)
  {
    var m := Post(mailbox, senderId, userId, Some(subject), content, Some(NotificationMessage),
                  Some(enrollmentId), Some("enrollment"), Some(priority), now);
    assert mailbox.rows[..|old(mailbox.rows)|] == old(mailbox.rows);
  }

  /** `createNotification(...)` with the enrolment as related entity. */
  method NotifyAbout(notes: NotificationStore, users: seq<User>, userId: Id, kind: NotificationType, title: string,
                     text: string, enrollmentId: Id, actionUrl: string, now: nat, email: Adapter, sms: Adapter)
    requires notes.Valid()
    modifies notes
    ensures notes.Valid()
    ensures Notified(old(notes.rows), notes.rows, userId, kind, enrollmentId)
  {
    var n, _, _ := CreateNotification(notes, users, userId, kind, title, text,
                                      EnrollmentOptions(enrollmentId, actionUrl), now, email, sms);
    assert notes.rows[..|old(notes.rows)|] == old(notes.rows);
  }

  function TrainingUrl(programId: Id): string {
    "/training/" + NatToString(programId)
  }

  // ---------------------------------------------------------------------------
  // enrollInProgram

  /** Some enrolment of `userId` in the program exists, whatever its status. */
  predicate Enrolled(enrollments: seq<Enrollment>, programId: Id, userId: Id) {
    exists e :: e in enrollments && e.programId == programId && e.userId == userId
  }

  /** The capacity test: a limit is set (and non-zero) and has been reached. */
  predicate IsFull(p: Program) {
    p.maxParticipants.Some? && p.maxParticipants.value != 0 && p.currentParticipants >= p.maxParticipants.value
  }

  /** The outcome of the enrolment guards: a refusal, or the program admitted to. */
  datatype Admission = Refused(status: Status, message: string) | Admit(index: nat)

  /** The guards in their order: unknown program 404, a program not active 400,
      an existing enrolment 400, a full program 400. */
  function CheckEnrollment(programs: seq<Program>, enrollments: seq<Enrollment>, programId: Id, userId: Id): (r: Admission)
    ensures r.Admit? <==> FindProgram(programs, programId).Some?
                          && programs[FindProgram(programs, programId).value].status.Active?
                          && !Enrolled(enrollments, programId, userId)
                          && !IsFull(programs[FindProgram(programs, programId).value])
    ensures r.Admit? ==> r.index < |programs| && programs[r.index].id == programId
    ensures FindProgram(programs, programId).None? ==> r == Refused(NotFound, "Training program not found")
    ensures r.Refused? ==> r.status in {NotFound, BadRequest}
    ensures FindProgram(programs, programId).Some? && !programs[FindProgram(programs, programId).value].status.Active? ==>
              r == Refused(BadRequest, "This program is not accepting enrollments")
    ensures FindProgram(programs, programId).Some? && programs[FindProgram(programs, programId).value].status.Active?
            && Enrolled(enrollments, programId, userId) ==>
              r == Refused(BadRequest, "Already enrolled in this program")
    ensures FindProgram(programs, programId).Some? && programs[FindProgram(programs, programId).value].status.Active?
            && !Enrolled(enrollments, programId, userId) && IsFull(programs[FindProgram(programs, programId).value]) ==>
              r == Refused(BadRequest, "Program is full")
  {
    match FindProgram(programs, programId)
    case None => Refused(NotFound, "Training program not found")
    case Some(i) =>
      var p := programs[i];
      if !p.status.Active? then Refused(BadRequest, "This program is not accepting enrollments")
      else if Enrolled(enrollments, programId, userId) then Refused(BadRequest, "Already enrolled in this program")
      else if IsFull(p) then Refused(BadRequest, "Program is full")
      else Admit(i)
  }

  /** The enrolment as `enrollInProgram` leaves it: pending when the program
      costs something, approved otherwise; only a program whose cost is
      exactly zero also records approval by its creator and starts now. */
  function Admitted(id: Id, p: Program, userId: Id, now: nat): (e: Enrollment)
    ensures e.id == id && e.programId == p.id && e.userId == userId && e.enrollmentDate == now
    ensures e.status.Pending? <==> p.cost > 0
    ensures !e.status.Pending? ==> e.status.Approved?
    ensures p.cost == 0 ==> e.approvedBy == Some(p.createdBy) && e.approvedAt == Some(now) && e.startDate == Some(now)
    ensures p.cost != 0 ==> e.approvedBy.None? && e.approvedAt.None? && e.startDate.None?
    ensures e.progress == 0 && e.proofOfProgress == [] && e.completionDate.None? && !e.certificateIssued
  {
    var created := Enrollment(id, p.id, userId, if p.cost > 0 then Pending else Approved,
                              None, None, None, None, 0, false, None, None, [], None, now);
    if p.cost == 0 then
      created.(status := Approved, approvedBy := Some(p.createdBy), approvedAt := Some(now), startDate := Some(now))
    else created
  }

  /** The two cost tests are not complementary: a negative cost yields an
      enrolment that reads approved but records no approver and no start, and
      (see `Enroll`) is not counted as a participant. */
  lemma NegativeCostGap(id: Id, p: Program, userId: Id, now: nat)
    requires p.cost < 0
    ensures Admitted(id, p, userId, now).status.Approved?
    ensures Admitted(id, p, userId, now).approvedBy.None? && Admitted(id, p, userId, now).startDate.None?
  {
  }

  function FreeApprovalContent(p: Program): string {
    "Congratulations! Your enrollment in \"" + p.title + "\" has been approved. You can now start your training journey.\n\n"
    + "Program Details:\n- Duration: " + IntToString(p.duration) + " days\n- Category: " + p.category
    + "\n- Skill Level: " + p.skillLevel + "\n\nLog in to your dashboard to get started!"
  }

  /** `program.increment('currentParticipants')`. */
  method AddParticipant(cat: Catalogue, i: nat)
    requires cat.Valid() && i < |cat.programs|
    modifies cat
    ensures cat.Valid()
    ensures cat.enrollments == old(cat.enrollments) && cat.nextEnrollmentId == old(cat.nextEnrollmentId)
    ensures var p := old(cat.programs)[i];
            cat.programs == old(cat.programs)[i := p.(currentParticipants := p.currentParticipants + 1)]
  {
    var p := cat.programs[i];
    var counted := p.(currentParticipants := p.currentParticipants + 1);
    SameIdsKeepPrograms(cat.programs, i, counted, cat.enrollments, cat.nextEnrollmentId);
    cat.programs := cat.programs[i := counted];
  }

  /** The free-program block of `enrollInProgram`: one more participant, then
      the approval message from the creator and the notification. */
  method WelcomeFree(cat: Catalogue, mailbox: Mailbox, notes: NotificationStore, users: seq<User>,
                     i: nat, e: Enrollment, now: nat, email: Adapter, sms: Adapter)
    requires cat.Valid() && mailbox.Valid() && notes.Valid() && i < |cat.programs|
    modifies cat, mailbox, notes
    ensures cat.Valid() && mailbox.Valid() && notes.Valid()
    ensures cat.enrollments == old(cat.enrollments) && cat.nextEnrollmentId == old(cat.nextEnrollmentId)
    ensures var p := old(cat.programs)[i];
            cat.programs == old(cat.programs)[i := p.(currentParticipants := p.currentParticipants + 1)]
            && Mailed(old(mailbox.rows), mailbox.rows, e.userId, "Enrollment Approved: " + p.title, e.id)
    ensures Notified(old(notes.rows), notes.rows, e.userId, EnrollmentApproved, e.id)
  {
    var p := cat.programs[i];
    AddParticipant(cat, i);
    MailAbout(mailbox, p.createdBy, e.userId, "Enrollment Approved: " + p.title, FreeApprovalContent(p),
              Normal, e.id, now);
    NotifyAbout(notes, users, e.userId, EnrollmentApproved, "Enrollment Approved",
                "You have been enrolled in " + p.title, e.id, TrainingUrl(p.id), now, email, sms);
  }

  /** The database side of an enrolment: the row appended under the next id. */
  method StoreEnrollment(cat: Catalogue, e: Enrollment)
    requires cat.Valid() && e.id == cat.nextEnrollmentId && FindProgram(cat.programs, e.programId).Some?
    requires 0 <= e.progress <= 100 && !Enrolled(cat.enrollments, e.programId, e.userId)
    modifies cat
    ensures cat.Valid() && cat.programs == old(cat.programs)
    ensures cat.enrollments == old(cat.enrollments) + [e] && cat.nextEnrollmentId == old(cat.nextEnrollmentId) + 1
  {
    AppendKeepsConsistent(cat.programs, cat.enrollments, cat.nextEnrollmentId, e);
    cat.enrollments := cat.enrollments + [e];
    cat.nextEnrollmentId := cat.nextEnrollmentId + 1;
  }

  /** `enrollInProgram`: the guards; then the enrolment is stored. For a free
      program the creator's approval is recorded, the participant counter goes
      up by one, and the woman gets a message and a notification. */
  method Enroll(cat: Catalogue, mailbox: Mailbox, notes: NotificationStore, users: seq<User>,
                programId: Id, caller: User, now: nat, email: Adapter, sms: Adapter)
    returns (status: Status, message: string, enrollment: Option<Enrollment>)
    requires cat.Valid() && mailbox.Valid() && notes.Valid()
    modifies cat, mailbox, notes
    ensures cat.Valid() && mailbox.Valid() && notes.Valid()
    ensures var d := CheckEnrollment(old(cat.programs), old(cat.enrollments), programId, caller.id);
            d.Refused? ==>
              status == d.status && message == d.message && enrollment.None?
              && cat.programs == old(cat.programs) && cat.enrollments == old(cat.enrollments)
              && mailbox.rows == old(mailbox.rows) && notes.rows == old(notes.rows)
    ensures var d := CheckEnrollment(old(cat.programs), old(cat.enrollments), programId, caller.id);
            d.Admit? ==>
              var p := old(cat.programs)[d.index];
              status == Created && enrollment == Some(Admitted(old(cat.nextEnrollmentId), p, caller.id, now))
              && cat.enrollments == old(cat.enrollments) + [enrollment.value]
              && message == (if p.cost > 0 then "Enrollment pending approval" else "Enrolled successfully")
              && (p.cost == 0 ==>
                    cat.programs == old(cat.programs)[d.index := p.(currentParticipants := p.currentParticipants + 1)]
                    && Mailed(old(mailbox.rows), mailbox.rows, caller.id, "Enrollment Approved: " + p.title, enrollment.value.id)
                    && Notified(old(notes.rows), notes.rows, caller.id, EnrollmentApproved, enrollment.value.id))
              && (p.cost != 0 ==>
                    cat.programs == old(cat.programs) && mailbox.rows == old(mailbox.rows) && notes.rows == old(notes.rows))
  {
    var d := CheckEnrollment(cat.programs, cat.enrollments, programId, caller.id);
    if d.Refused? {
      return d.status, d.message, None;
    }
    var p := cat.programs[d.index];
    var e := Admitted(cat.nextEnrollmentId, p, caller.id, now);
    StoreEnrollment(cat, e);
    if p.cost == 0 {
      WelcomeFree(cat, mailbox, notes, users, d.index, e, now, email, sms);
    }
    message := if e.status.Approved? then "Enrolled successfully" else "Enrollment pending approval";
    return Created, message, Some(e);
  }

  /** A free enrolment never takes a limited program past its limit: the guard
      admitted it below the limit and the counter rises by one. */
  lemma FreeEnrollmentWithinCapacity(programs: seq<Program>, enrollments: seq<Enrollment>, programId: Id, userId: Id)
    requires CheckEnrollment(programs, enrollments, programId, userId).Admit?
    ensures var p := programs[CheckEnrollment(programs, enrollments, programId, userId).index];
            p.maxParticipants.Some? && p.maxParticipants.value != 0 ==>
              p.currentParticipants + 1 <= p.maxParticipants.value
  {
  }

  /** Nobody is enrolled twice in one program: after any admission the
      (program, user) pair occurs once. */
  lemma AdmissionKeepsPairsUnique(programs: seq<Program>, enrollments: seq<Enrollment>, nextId: nat,
                                  programId: Id, userId: Id, now: nat)
    requires Consistent(programs, enrollments, nextId)
    requires CheckEnrollment(programs, enrollments, programId, userId).Admit?
    ensures var e := Admitted(nextId, programs[CheckEnrollment(programs, enrollments, programId, userId).index], userId, now);
            forall k :: 0 <= k < |enrollments| ==>
              !(enrollments[k].programId == e.programId && enrollments[k].userId == e.userId)
  {
    var e := Admitted(nextId, programs[CheckEnrollment(programs, enrollments, programId, userId).index], userId, now);
    forall k | 0 <= k < |enrollments| ensures !(enrollments[k].programId == e.programId && enrollments[k].userId == e.userId) {
      assert enrollments[k] in enrollments;
    }
  }

  // ---------------------------------------------------------------------------
  // updateEnrollmentProgress

  /** `Enrollment.findOne({id, userId: caller})`. */
  function FindOwnEnrollment(enrollments: seq<Enrollment>, id: Id, userId: Id): (i: Option<nat>)
    ensures i.Some? ==> i.value < |enrollments| && enrollments[i.value].id == id && enrollments[i.value].userId == userId
    ensures i.None? ==> forall k :: 0 <= k < |enrollments| ==> !(enrollments[k].id == id && enrollments[k].userId == userId)
  {
    FirstIndex(enrollments, (e: Enrollment) => e.id == id && e.userId == userId)
  }

  /** `TrainingProgram.findByPk(id)` as a value. */
  function ProgramOf(programs: seq<Program>, id: Id): (p: Option<Program>)
    ensures p.Some? <==> FindProgram(programs, id).Some?
    ensures p.Some? ==> p.value in programs && p.value.id == id
  {
    match FindProgram(programs, id)
    case Some(i) => Some(programs[i])
    case None => None
  }

  /** The supplied progress fails the column's 0..100 validation. */
  predicate OutOfRange(progress: Option<int>) {
    progress.Some? && !(0 <= progress.value <= 100)
  }

  /** This update completes the enrolment: progress of at least 100 (with the
      validation, exactly 100) on an enrolment not yet completed. */
  predicate Completes(e: Enrollment, progress: Option<int>) {
    progress.Some? && progress.value >= 100 && !e.status.Completed?
  }

  /** The enrolment after a progress update: progress replaced when supplied,
      new proofs appended after the old ones, and on completion the status,
      the completion date and, when the program certifies, the certificate. */
  function AfterProgress(e: Enrollment, p: Option<Program>, progress: Option<int>, proofs: Option<seq<string>>,
                         now: nat): (r: Enrollment)
    ensures r.progress == (if progress.Some? then progress.value else e.progress)
    ensures r.proofOfProgress == e.proofOfProgress + (if proofs.Some? then proofs.value else [])
    ensures Completes(e, progress) ==> r.status == EnrollmentStatus.Completed && r.completionDate == Some(now)
    ensures !Completes(e, progress) ==> r.status == e.status && r.completionDate == e.completionDate
    ensures Completes(e, progress) && p.Some? && p.value.certificationProvided ==>
              r.certificateIssued && r.certificateIssuedDate == Some(now)
              && r.certificateUrl == Some("/certificates/" + NatToString(e.id))
    ensures !(Completes(e, progress) && p.Some? && p.value.certificationProvided) ==>
              r.certificateIssued == e.certificateIssued && r.certificateUrl == e.certificateUrl
              && r.certificateIssuedDate == e.certificateIssuedDate
    ensures r == e.(progress := r.progress, proofOfProgress := r.proofOfProgress, status := r.status,
                    completionDate := r.completionDate, certificateIssued := r.certificateIssued,
                    certificateUrl := r.certificateUrl, certificateIssuedDate := r.certificateIssuedDate)
  {
    var updated := e.(progress := if progress.Some? then progress.value else e.progress,
                      proofOfProgress := e.proofOfProgress + if proofs.Some? then proofs.value else []);
    if !Completes(e, progress) then updated
    else
      var done := updated.(status := EnrollmentStatus.Completed, completionDate := Some(now));
      if p.Some? && p.value.certificationProvided then
        done.(certificateIssued := true, certificateIssuedDate := Some(now),
              certificateUrl := Some("/certificates/" + NatToString(e.id)))
      else done
  }

  /** A completed enrolment is not completed again: reporting 100 a second
      time keeps the first completion date and certificate date. */
  lemma CompletedOnce(e: Enrollment, p: Option<Program>, proofs: Option<seq<string>>, more: Option<seq<string>>,
                      t1: nat, t2: nat)
    ensures var once := AfterProgress(e, p, Some(100), proofs, t1);
            var twice := AfterProgress(once, p, Some(100), more, t2);
            twice.status == EnrollmentStatus.Completed && twice.completionDate == once.completionDate
            && twice.certificateIssuedDate == once.certificateIssuedDate
  {
  }

  /** The proofs of progress only ever grow, and keep their order. */
  lemma ProofsOnlyGrow(e: Enrollment, p: Option<Program>, progress: Option<int>, proofs: Option<seq<string>>, now: nat)
    ensures var r := AfterProgress(e, p, progress, proofs, now);
            |r.proofOfProgress| >= |e.proofOfProgress| && r.proofOfProgress[..|e.proofOfProgress|] == e.proofOfProgress
  {
  }

  function CompletionContent(p: Program, certified: bool): string {
    if certified then
      "Congratulations! You have successfully completed \"" + p.title + "\" and earned a certificate.\n\n"
      + "Your dedication and hard work have paid off. You can now download your certificate from your dashboard.\n\n"
      + "Keep up the great work!"
    else
      "Congratulations! You have successfully completed \"" + p.title + "\".\n\n"
      + "Your dedication and hard work have paid off. Keep up the great work!"
  }

  /** The message and notification of a completion; the notification links to
      the certificate when the program certifies, to the program otherwise. */
  method AnnounceCompletion(mailbox: Mailbox, notes: NotificationStore, users: seq<User>, p: Program, userId: Id,
                            enrollmentId: Id, now: nat, email: Adapter, sms: Adapter)
    requires mailbox.Valid() && notes.Valid()
    modifies mailbox, notes
    ensures mailbox.Valid() && notes.Valid()
    ensures Mailed(old(mailbox.rows), mailbox.rows, userId, "Training Completed: " + p.title, enrollmentId)
    ensures Notified(old(notes.rows), notes.rows, userId, TrainingCompleted, enrollmentId)
  {
    var certified := p.certificationProvided;
    MailAbout(mailbox, p.createdBy, userId, "Training Completed: " + p.title, CompletionContent(p, certified),
              High, enrollmentId, now);
    var text := if certified then "Congratulations! You've completed " + p.title + " and earned a certificate."
                else "Congratulations! You've completed " + p.title + ".";
    var url := if certified then "/training/certificate/" + NatToString(enrollmentId) else TrainingUrl(p.id);
    NotifyAbout(notes, users, userId, TrainingCompleted, "Training Completed!", text, enrollmentId, url, now, email, sms);
  }

  /** `updateEnrollmentProgress`: 404 unless the enrolment is the caller's;
      a progress outside 0..100 fails validation (500) and nothing changes;
      otherwise the update is stored, and a completing update also sends the
      woman a message and a notification. */
  method UpdateProgress(cat: Catalogue, mailbox: Mailbox, notes: NotificationStore, users: seq<User>,
                        enrollmentId: Id, caller: Id, progress: Option<int>, proofs: Option<seq<string>>,
                        now: nat, email: Adapter, sms: Adapter)
    returns (status: Status)
    requires cat.Valid() && mailbox.Valid() && notes.Valid()
    modifies cat, mailbox, notes
    ensures cat.Valid() && mailbox.Valid() && notes.Valid()
    ensures cat.programs == old(cat.programs) && cat.nextEnrollmentId == old(cat.nextEnrollmentId)
    ensures var i := FindOwnEnrollment(old(cat.enrollments), enrollmentId, caller);
            (i.None? ==> status == NotFound)
            && (i.Some? && OutOfRange(progress) ==> status == ServerError)
            && (i.None? || OutOfRange(progress) ==>
                  cat.enrollments == old(cat.enrollments) && mailbox.rows == old(mailbox.rows) && notes.rows == old(notes.rows))
    ensures var i := FindOwnEnrollment(old(cat.enrollments), enrollmentId, caller);
            i.Some? && !OutOfRange(progress) ==>
              var e := old(cat.enrollments)[i.value];
              status == Ok
              && cat.enrollments == old(cat.enrollments)[i.value :=
                   AfterProgress(e, ProgramOf(old(cat.programs), e.programId), progress, proofs, now)]
              && (Completes(e, progress) ==>
                    var p := ProgramOf(old(cat.programs), e.programId).value;
                    Mailed(old(mailbox.rows), mailbox.rows, caller, "Training Completed: " + p.title, e.id)
                    && Notified(old(notes.rows), notes.rows, caller, TrainingCompleted, e.id))
              && (!Completes(e, progress) ==> mailbox.rows == old(mailbox.rows) && notes.rows == old(notes.rows))
  {
    var i := FindOwnEnrollment(cat.enrollments, enrollmentId, caller);
    if i.None? {
      return NotFound;
    }
    if OutOfRange(progress) {
      return ServerError;
    }
    var e := cat.enrollments[i.value];
    var program := ProgramOf(cat.programs, e.programId);
    var r := AfterProgress(e, program, progress, proofs, now);
    ReplaceKeepsConsistent(cat.programs, cat.enrollments, cat.nextEnrollmentId, i.value, r);
    cat.enrollments := cat.enrollments[i.value := r];
    if Completes(e, progress) {
      AnnounceCompletion(mailbox, notes, users, program.value, caller, e.id, now, email, sms);
    }
    return Ok;
  }

  // ---------------------------------------------------------------------------
  // updateEnrollmentStatus, updateProgram, deleteProgram

  /** Only an admin or the program's creator may manage it. */
  predicate MayManage(caller: User, p: Program) {
    caller.role == Admin || p.createdBy == caller.id
  }

  function EnrollmentStatusName(s: EnrollmentStatus): string {
    match s
    case Pending => "pending"
    case Approved => "approved"
    case Active => "active"
    case Completed => "completed"
    case Dropped => "dropped"
    case Failed => "failed"
  }

  /** The enumerated column accepts exactly the six status names. */
  function ParseEnrollmentStatus(s: string): (r: Option<EnrollmentStatus>)
    ensures r.Some? ==> EnrollmentStatusName(r.value) == s
    ensures r.None? ==> forall st :: EnrollmentStatusName(st) != s
  {
    if s == "pending" then Some(Pending)
    else if s == "approved" then Some(Approved)
    else if s == "active" then Some(EnrollmentStatus.Active)
    else if s == "completed" then Some(EnrollmentStatus.Completed)
    else if s == "dropped" then Some(Dropped)
    else if s == "failed" then Some(Failed)
    else None
  }

  /** "rejected" is not an enrolment status, so a rejection fails in the
      database and the handler's rejection message is never sent. */
  lemma RejectedIsNotAStatus()
    ensures ParseEnrollmentStatus("rejected").None?
  {
  }

  /** The enrolment after a review: the new status, the reviewer and the time;
      the notes replaced only by non-empty notes; the start date reset only
      on approval. */
  function Reviewed(e: Enrollment, s: EnrollmentStatus, reviewer: Id, notesGiven: Option<string>, now: nat): (r: Enrollment)
    ensures r.status == s && r.approvedBy == Some(reviewer) && r.approvedAt == Some(now)
    ensures r.notes == (if TruthyStr(notesGiven) then notesGiven else e.notes)
    ensures r.startDate == (if s.Approved? then Some(now) else e.startDate)
    ensures r == e.(status := s, approvedBy := r.approvedBy, approvedAt := r.approvedAt, notes := r.notes,
                    startDate := r.startDate)
  {
    e.(status := s, approvedBy := Some(reviewer), approvedAt := Some(now),
       notes := if TruthyStr(notesGiven) then notesGiven else e.notes,
       startDate := if s.Approved? then Some(now) else e.startDate)
  }

  function ReviewApprovalContent(p: Program, notesGiven: Option<string>, localeDate: nat -> string): string {
    "Great news! Your enrollment in \"" + p.title + "\" has been approved.\n\nProgram Details:\n- Duration: "
    + IntToString(p.duration) + " days\n- Category: " + p.category + "\n- Skill Level: " + p.skillLevel + "\n"
    + (if p.startDate.Some? then "- Start Date: " + localeDate(p.startDate.value) + "\n" else "")
    + "\nYou can now start your training journey. Log in to your dashboard to get started!"
    + (if TruthyStr(notesGiven) then "\n\nNotes: " + notesGiven.value else "")
  }

  /** The notification type of a review: approval, and every other status
      reported as a rejection. */
  function ReviewKind(s: EnrollmentStatus): (k: NotificationType)
    ensures k == EnrollmentApproved <==> s.Approved?
    ensures k != EnrollmentApproved ==> k == EnrollmentRejected
  {
    if s.Approved? then EnrollmentApproved else EnrollmentRejected
  }

  /** The outcome of the review guards: a refusal, or the enrolment's index,
      its program's index and the parsed status. */
  datatype ReviewCheck = Deny(status: Status) | Go(i: nat, j: nat, s: EnrollmentStatus)

  /** The guards of `updateEnrollmentStatus` in their order: an unknown
      enrolment 404; a caller who is neither admin nor the program's creator
      403; a value outside the status enumeration 500, when the database
      refuses the update. */
  function CheckReview(programs: seq<Program>, enrollments: seq<Enrollment>, enrollmentId: Id, caller: User,
                       statusText: string): (r: ReviewCheck)
    requires forall k :: 0 <= k < |enrollments| ==> FindProgram(programs, enrollments[k].programId).Some?
    ensures FirstIndex(enrollments, (e: Enrollment) => e.id == enrollmentId).None? <==> r == Deny(NotFound)
    ensures r.Go? ==> r.i < |enrollments| && enrollments[r.i].id == enrollmentId
                      && r.j < |programs| && programs[r.j].id == enrollments[r.i].programId
                      && MayManage(caller, programs[r.j]) && ParseEnrollmentStatus(statusText) == Some(r.s)
    ensures r == Deny(Forbidden) <==>
              FirstIndex(enrollments, (e: Enrollment) => e.id == enrollmentId).Some?
              && !MayManage(caller, ProgramOf(programs, enrollments[FirstIndex(enrollments, (e: Enrollment) => e.id == enrollmentId).value].programId).value)
    ensures r == Deny(ServerError) ==> ParseEnrollmentStatus(statusText).None?
    ensures r.Deny? ==> r.status in {NotFound, Forbidden, ServerError}
    ensures ParseEnrollmentStatus(statusText).None? ==> r.Deny?
  {
    match FirstIndex(enrollments, (e: Enrollment) => e.id == enrollmentId)
    case None => Deny(NotFound)
    case Some(i) =>
      var j := FindProgram(programs, enrollments[i].programId).value;
      if !MayManage(caller, programs[j]) then Deny(Forbidden)
      else match ParseEnrollmentStatus(statusText)
        case None => Deny(ServerError)
        case Some(s) => Go(i, j, s)
  }

  /** The database side of a review: the enrolment rewritten, and on approval
      the program's participant counter raised by one. */
  method StoreReview(cat: Catalogue, i: nat, j: nat, reviewed: Enrollment)
    requires cat.Valid() && i < |cat.enrollments| && j < |cat.programs|
    requires reviewed.id == cat.enrollments[i].id && reviewed.programId == cat.enrollments[i].programId
    requires reviewed.userId == cat.enrollments[i].userId && reviewed.progress == cat.enrollments[i].progress
    modifies cat
    ensures cat.Valid() && cat.nextEnrollmentId == old(cat.nextEnrollmentId)
    ensures cat.enrollments == old(cat.enrollments)[i := reviewed]
    ensures reviewed.status.Approved? ==>
              cat.programs == old(cat.programs)[j := old(cat.programs)[j].(currentParticipants := old(cat.programs)[j].currentParticipants + 1)]
    ensures !reviewed.status.Approved? ==> cat.programs == old(cat.programs)
  {
    ReplaceKeepsConsistent(cat.programs, cat.enrollments, cat.nextEnrollmentId, i, reviewed);
    cat.enrollments := cat.enrollments[i := reviewed];
    if reviewed.status.Approved? {
      AddParticipant(cat, j);
    }
  }

  /** `updateEnrollmentStatus`: the guards; then the review is stored, every
      approval (a repeated one too) adds one participant and sends the woman a
      message, and every review sends her a notification. */
  method UpdateEnrollmentStatus(cat: Catalogue, mailbox: Mailbox, notes: NotificationStore, users: seq<User>,
                                enrollmentId: Id, caller: User, statusText: string, notesGiven: Option<string>,
                                localeDate: nat -> string, now: nat, email: Adapter, sms: Adapter)
    returns (status: Status)
    requires cat.Valid() && mailbox.Valid() && notes.Valid()
    modifies cat, mailbox, notes
    ensures cat.Valid() && mailbox.Valid() && notes.Valid()
    ensures cat.nextEnrollmentId == old(cat.nextEnrollmentId)
    ensures var r := CheckReview(old(cat.programs), old(cat.enrollments), enrollmentId, caller, statusText);
            r.Deny? ==>
              status == r.status
              && cat.programs == old(cat.programs) && cat.enrollments == old(cat.enrollments)
              && mailbox.rows == old(mailbox.rows) && notes.rows == old(notes.rows)
    ensures var r := CheckReview(old(cat.programs), old(cat.enrollments), enrollmentId, caller, statusText);
            r.Go? ==>
              var e := old(cat.enrollments)[r.i];
              var p := old(cat.programs)[r.j];
              status == Ok
              && cat.enrollments == old(cat.enrollments)[r.i := Reviewed(e, r.s, caller.id, notesGiven, now)]
              && (r.s.Approved? ==>
                    cat.programs == old(cat.programs)[r.j := p.(currentParticipants := p.currentParticipants + 1)]
                    && Mailed(old(mailbox.rows), mailbox.rows, e.userId, "Enrollment Approved: " + p.title, e.id))
              && (!r.s.Approved? ==> cat.programs == old(cat.programs) && mailbox.rows == old(mailbox.rows))
              && Notified(old(notes.rows), notes.rows, e.userId, ReviewKind(r.s), e.id)
  {
    var r := CheckReview(cat.programs, cat.enrollments, enrollmentId, caller, statusText);
    if r.Deny? {
      return r.status;
    }
    var e := cat.enrollments[r.i];
    var p := cat.programs[r.j];
    StoreReview(cat, r.i, r.j, Reviewed(e, r.s, caller.id, notesGiven, now));
    AnnounceReview(mailbox, notes, users, caller, e, p, r.s, statusText, notesGiven, localeDate, now, email, sms);
    return Ok;
  }

  /** What a stored review sends out: a message on approval, a notification
      always. */
  method AnnounceReview(mailbox: Mailbox, notes: NotificationStore, users: seq<User>, caller: User,
                        e: Enrollment, p: Program, s: EnrollmentStatus, statusText: string,
                        notesGiven: Option<string>, localeDate: nat -> string, now: nat,
                        email: Adapter, sms: Adapter)
    requires mailbox.Valid() && notes.Valid()
    modifies mailbox, notes
    ensures mailbox.Valid() && notes.Valid()
    ensures s.Approved? ==> Mailed(old(mailbox.rows), mailbox.rows, e.userId, "Enrollment Approved: " + p.title, e.id)
    ensures !s.Approved? ==> mailbox.rows == old(mailbox.rows)
    ensures Notified(old(notes.rows), notes.rows, e.userId, ReviewKind(s), e.id)
  {
    if s.Approved? {
      MailAbout(mailbox, caller.id, e.userId, "Enrollment Approved: " + p.title,
                ReviewApprovalContent(p, notesGiven, localeDate), Normal, e.id, now);
    }
    NotifyAbout(notes, users, e.userId, ReviewKind(s), "Enrollment " + statusText,
                "Your enrollment in " + p.title + " has been " + statusText,
                e.id, TrainingUrl(e.programId), now, email, sms);
  }

  /** `updateProgram`: 404, then 403 unless admin or creator; otherwise the
      body's fields are applied (the primary key stays). */
  method UpdateProgram(cat: Catalogue, programId: Id, caller: User, edit: Program -> Program) returns (status: Status)
    requires cat.Valid()
    modifies cat
    ensures cat.Valid()
    ensures cat.enrollments == old(cat.enrollments) && cat.nextEnrollmentId == old(cat.nextEnrollmentId)
    ensures var i := FindProgram(old(cat.programs), programId);
            (i.None? ==> status == NotFound && cat.programs == old(cat.programs))
            && (i.Some? && !MayManage(caller, old(cat.programs)[i.value]) ==>
                  status == Forbidden && cat.programs == old(cat.programs))
            && (i.Some? && MayManage(caller, old(cat.programs)[i.value]) ==>
                  status == Ok
                  && cat.programs == old(cat.programs)[i.value := edit(old(cat.programs)[i.value]).(id := programId)])
  {
    var i := FindProgram(cat.programs, programId);
    if i.None? {
      return NotFound;
    }
    var p := cat.programs[i.value];
    if !MayManage(caller, p) {
      return Forbidden;
    }
    var q := edit(p).(id := programId);
    SameIdsKeepPrograms(cat.programs, i.value, q, cat.enrollments, cat.nextEnrollmentId);
    cat.programs := cat.programs[i.value := q];
    return Ok;
  }

  /** `deleteProgram`: 404, then 403 unless admin or creator; otherwise the
      program goes, and with it (the cascading foreign key) its enrolments. */
  method DeleteProgram(cat: Catalogue, programId: Id, caller: User) returns (status: Status)
    requires cat.Valid()
    modifies cat
    ensures cat.Valid()
    ensures cat.nextEnrollmentId == old(cat.nextEnrollmentId)
    ensures var i := FindProgram(old(cat.programs), programId);
            (i.None? ==> status == NotFound)
            && (i.Some? && !MayManage(caller, old(cat.programs)[i.value]) ==> status == Forbidden)
            && (i.None? || !MayManage(caller, old(cat.programs)[i.value]) ==>
                  cat.programs == old(cat.programs) && cat.enrollments == old(cat.enrollments))
            && (i.Some? && MayManage(caller, old(cat.programs)[i.value]) ==>
                  status == Ok
                  && cat.programs == old(cat.programs)[..i.value] + old(cat.programs)[i.value + 1..]
                  && cat.enrollments == Filter(old(cat.enrollments), OtherProgram(programId)))
  {
    var i := FindProgram(cat.programs, programId);
    if i.None? {
      return NotFound;
    }
    if !MayManage(caller, cat.programs[i.value]) {
      return Forbidden;
    }
    CascadeKeepsConsistent(cat.programs, cat.enrollments, cat.nextEnrollmentId, i.value);
    cat.programs := cat.programs[..i.value] + cat.programs[i.value + 1..];
    cat.enrollments := Filter(cat.enrollments, OtherProgram(programId));
    return Ok;
  }

  /** The enrolments that survive deleting program `id`. */
  function OtherProgram(id: Id): Enrollment -> bool {
    (e: Enrollment) => e.programId != id
  }

  /** Removing a program together with its enrolments keeps the tables consistent. */
  lemma CascadeKeepsConsistent(programs: seq<Program>, enrollments: seq<Enrollment>, nextId: nat, i: nat)
    requires Consistent(programs, enrollments, nextId) && i < |programs|
    ensures Consistent(programs[..i] + programs[i + 1..], Filter(enrollments, OtherProgram(programs[i].id)), nextId)
  {
    RemovedProgramIdsDistinct(programs, i);
    FilterPairwise(enrollments, OtherProgram(programs[i].id), IdBefore);
    FilterPairwise(enrollments, OtherProgram(programs[i].id), DistinctPair);
    SurvivorsKeepPrograms(programs, enrollments, nextId, i);
    ConsistentFromParts(programs[..i] + programs[i + 1..], Filter(enrollments, OtherProgram(programs[i].id)), nextId);
  }

  lemma ConsistentFromParts(programs: seq<Program>, enrollments: seq<Enrollment>, nextId: nat)
    requires forall a, b :: 0 <= a < b < |programs| ==> programs[a].id != programs[b].id
    requires forall a, b :: 0 <= a < b < |enrollments| ==> IdBefore(enrollments[a], enrollments[b])
    requires forall a, b :: 0 <= a < b < |enrollments| ==> DistinctPair(enrollments[a], enrollments[b])
    requires forall k :: 0 <= k < |enrollments| ==>
               enrollments[k].id < nextId && FindProgram(programs, enrollments[k].programId).Some?
               && 0 <= enrollments[k].progress <= 100
    ensures Consistent(programs, enrollments, nextId)
  {
  }

  predicate IdBefore(x: Enrollment, y: Enrollment) {
    x.id < y.id
  }

  predicate DistinctPair(x: Enrollment, y: Enrollment) {
    !(x.programId == y.programId && x.userId == y.userId)
  }

  lemma RemovedProgramIdsDistinct(programs: seq<Program>, i: nat)
    requires i < |programs|
    requires forall a, b :: 0 <= a < b < |programs| ==> programs[a].id != programs[b].id
    ensures var ps := programs[..i] + programs[i + 1..];
            forall a, b :: 0 <= a < b < |ps| ==> ps[a].id != ps[b].id
  {
    var ps := programs[..i] + programs[i + 1..];
    forall a, b | 0 <= a < b < |ps| ensures ps[a].id != ps[b].id {
      var a' := if a < i then a else a + 1;
      var b' := if b < i then b else b + 1;
      assert ps[a] == programs[a'] && ps[b] == programs[b'];
    }
  }

  lemma SurvivorsKeepPrograms(programs: seq<Program>, enrollments: seq<Enrollment>, nextId: nat, i: nat)
    requires Consistent(programs, enrollments, nextId) && i < |programs|
    ensures forall k :: 0 <= k < |Filter(enrollments, OtherProgram(programs[i].id))| ==>
              var e := Filter(enrollments, OtherProgram(programs[i].id))[k];
              e.id < nextId && FindProgram(programs[..i] + programs[i + 1..], e.programId).Some?
              && 0 <= e.progress <= 100
  {
    var id := programs[i].id;
    var ps := programs[..i] + programs[i + 1..];
    var es := Filter(enrollments, OtherProgram(id));
    forall k | 0 <= k < |es|
      ensures es[k].id < nextId && FindProgram(ps, es[k].programId).Some? && 0 <= es[k].progress <= 100
    {
      assert es[k] in es;
      var m :| 0 <= m < |enrollments| && enrollments[m] == es[k];
      var j := FindProgram(programs, es[k].programId).value;
      assert j != i;
      var j' := if j < i then j else j - 1;
      assert ps[j'] == programs[j];
    }
  }
}
