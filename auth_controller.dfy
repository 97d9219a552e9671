/** The account handlers (backend/src/controllers/authController.js): register,
    login, email verification, password reset and profile update, over the
    users table. Clock readings are milliseconds; generated tokens, the bcrypt
    comparison and the hash are parameters. The welcome and verification emails
    are sent through the mail adapter, whose result the handlers ignore. */
module AuthController {
  import opened Common
  import opened Users

  const HourMs: nat := 60 * 60 * 1000
  const DayMs: nat := 24 * HourMs

  /** The fields of a registration request (the route validator has already
      required an email, a password, both names and a role from the enum). */
  datatype Registration = Registration(
    email: string,
    password: string,
    role: Role,
    firstName: string,
    lastName: string,
    phoneNumber: Option<string>,
    country: Option<string>,
    preferredLanguage: Option<string>,
    organizationName: Option<string>,
    registrationNumber: Option<string>)

  /** A new account is approved straight away only for women and donors. */
  predicate AutoApproved(role: Role) {
    role == Woman || role == Donor
  }

  /** The NGO profile is created only for an NGO that named both its
      organisation and its registration number. */
  predicate CreatesNgoProfile(r: Registration) {
    r.role == Ngo && TruthyStr(r.organizationName) && TruthyStr(r.registrationNumber)
  }

  /** The profile attributes `User.create` receives; a preferred language
      defaults to "en". */
  function RegistrationProfile(r: Registration): (p: map<string, Json>)
    ensures "firstName" in p && "lastName" in p && "preferredLanguage" in p
    ensures p["firstName"] == JStr(r.firstName) && p["lastName"] == JStr(r.lastName)
    ensures p["preferredLanguage"] == JStr(if TruthyStr(r.preferredLanguage) then r.preferredLanguage.value else "en")
  {
    var base := map["firstName" := JStr(r.firstName), "lastName" := JStr(r.lastName)];
    var withPhone := if r.phoneNumber.Some? then base["phoneNumber" := JStr(r.phoneNumber.value)] else base;
    var withCountry := if r.country.Some? then withPhone["country" := JStr(r.country.value)] else withPhone;
    withCountry["preferredLanguage" := JStr(if TruthyStr(r.preferredLanguage) then r.preferredLanguage.value else "en")]
  }

  /** The row `register` stores, after the create hook and the verification-token
      update. */
  function NewAccount(id: Id, r: Registration, hash: string -> string, verificationToken: string, now: nat): (u: User)
    ensures u.id == id && u.email == r.email && u.role == r.role
    ensures u.isApproved <==> AutoApproved(r.role)
    ensures u.isActive && !u.emailVerified && !u.phoneVerified
    ensures u.password == BeforeCreate(Some(r.password), hash)
    ensures u.emailVerificationToken == Some(verificationToken)
    ensures u.emailVerificationExpires == Some(now + DayMs)
    ensures u.resetPasswordToken.None? && u.twoFactorSecret.None? && u.lastLoginAt.None?
    ensures !u.twoFactorEnabled && u.oauthProvider.None? && u.oauthProviderId.None?
    ensures u.createdAt == now && u.updatedAt == now
    ensures TokensPaired(u)
  {
    User(id, r.email, BeforeCreate(Some(r.password), hash), r.role, false, false, true,
         AutoApproved(r.role), false, None, None, None, None, None, None,
         Some(verificationToken), Some(now + DayMs), now, now, RegistrationProfile(r))
  }

  /** `register`: 400 for an email already in use, with nothing created;
      otherwise 201, one new account and, for a qualifying NGO, one NGO profile. */
  method Register(accounts: Accounts, r: Registration, hash: string -> string, verificationToken: string, now: nat)
    returns (status: Status, profile: Option<map<Column, Json>>)
    requires accounts.Valid()
    modifies accounts
    ensures accounts.Valid()
    ensures (exists i :: 0 <= i < |old(accounts.users)| && old(accounts.users)[i].email == r.email) ==>
              status == BadRequest && profile.None?
              && accounts.users == old(accounts.users) && accounts.ngoProfiles == old(accounts.ngoProfiles)
    ensures (forall i :: 0 <= i < |old(accounts.users)| ==> old(accounts.users)[i].email != r.email) ==>
              status == Created
              && accounts.users == old(accounts.users) + [NewAccount(old(accounts.nextId), r, hash, verificationToken, now)]
              && profile == Some(PublicProfile(NewAccount(old(accounts.nextId), r, hash, verificationToken, now)))
              && accounts.ngoProfiles == old(accounts.ngoProfiles) +
                   (if CreatesNgoProfile(r)
                    then [NgoProfile(old(accounts.nextId), r.organizationName.value, r.registrationNumber.value)]
                    else [])
  {
    var existing := FirstIndex(accounts.users, (u: User) => u.email == r.email);
    if existing.Some? {
      return BadRequest, None;
    }
    var user := NewAccount(accounts.nextId, r, hash, verificationToken, now);
    StoreAccount(accounts, user, r);
    return Created, Some(PublicProfile(user));
  }

  /** The database side of a registration: the account under the next id and,
      for a qualifying NGO, its profile. */
  method StoreAccount(accounts: Accounts, user: User, r: Registration)
    requires accounts.Valid() && user.id == accounts.nextId && TokensPaired(user)
    requires forall i :: 0 <= i < |accounts.users| ==> accounts.users[i].email != user.email
    requires CreatesNgoProfile(r) ==> r.organizationName.Some? && r.registrationNumber.Some?
    modifies accounts
    ensures accounts.Valid()
    ensures accounts.users == old(accounts.users) + [user] && accounts.nextId == old(accounts.nextId) + 1
    ensures accounts.ngoProfiles == old(accounts.ngoProfiles) +
              (if CreatesNgoProfile(r) then [NgoProfile(user.id, r.organizationName.value, r.registrationNumber.value)]
               else [])
  {
    AppendAccount(accounts.users, accounts.nextId, user);
    accounts.users := accounts.users + [user];
    accounts.nextId := accounts.nextId + 1;
    if CreatesNgoProfile(r) {
      accounts.ngoProfiles := accounts.ngoProfiles +
        [NgoProfile(user.id, r.organizationName.value, r.registrationNumber.value)];
    }
  }

  // ---------------------------------------------------------------------------
  // Login

  const InvalidCredentials: string := "Invalid email or password"

  /** The login decision for the account found by email (if any) and the result
      of comparing the password with its stored hash. */
  function LoginDecision(user: Option<User>, passwordMatches: bool): (r: (Status, string))
    ensures r.0 == Ok <==> user.Some? && passwordMatches && user.value.isActive && user.value.isApproved
    ensures user.None? || !passwordMatches ==> r == (Unauthorized, InvalidCredentials)
    ensures user.Some? && passwordMatches && !user.value.isActive ==> r.0 == Forbidden
    ensures user.Some? && passwordMatches && user.value.isActive && !user.value.isApproved ==> r.0 == Forbidden
  {
    if user.None? || !passwordMatches then (Unauthorized, InvalidCredentials)
    else if !user.value.isActive then (Forbidden, "Your account has been deactivated")
    else if !user.value.isApproved then (Forbidden, "Your account is pending approval")
    else (Ok, "Login successful")
  }

  /** A caller cannot tell an unknown email from a wrong password. */
  lemma LoginDoesNotDiscloseAccounts(u: User)
    ensures LoginDecision(None, true) == LoginDecision(Some(u), false)
  {
  }

  /** `login`: the decision above; only a successful login records the time. */
  method Login(accounts: Accounts, email: string, password: string, compare: (string, Option<string>) -> bool, now: nat)
    returns (status: Status, message: string)
    requires accounts.Valid()
    modifies accounts
    ensures accounts.Valid()
    ensures accounts.ngoProfiles == old(accounts.ngoProfiles) && accounts.nextId == old(accounts.nextId)
    ensures var i := FirstIndex(old(accounts.users), (u: User) => u.email == email);
            var user := if i.Some? then Some(old(accounts.users)[i.value]) else None;
            (status, message) == LoginDecision(user, user.Some? && compare(password, user.value.password))
            && (status == Ok ==> accounts.users == old(accounts.users)[i.value := user.value.(lastLoginAt := Some(now))])
            && (status != Ok ==> accounts.users == old(accounts.users))
  {
    var i := FirstIndex(accounts.users, (u: User) => u.email == email);
    var user := if i.Some? then Some(accounts.users[i.value]) else None;
    status, message := LoginDecision(user, user.Some? && compare(password, user.value.password)).0,
                       LoginDecision(user, user.Some? && compare(password, user.value.password)).1;
    if status == Ok {
      ReplaceAccount(accounts.users, accounts.nextId, i.value, user.value.(lastLoginAt := Some(now)));
      accounts.users := accounts.users[i.value := user.value.(lastLoginAt := Some(now))];
    }
  }

  // ---------------------------------------------------------------------------
  // Tokens with an expiry

  /** `expires < new Date()`, where a NULL expiry compares as 0. */
  predicate Expired(expires: Option<nat>, now: nat) {
    (if expires.Some? then expires.value else 0) < now
  }

  /** The outcome of presenting a token: unknown, expired, or accepted. */
  datatype TokenCheck = Unknown | TokenExpired | Accepted(index: nat)

  /** Look up the first account whose token equals the one presented (a JSON
      null finds an account with no token) and check its expiry. */
  function CheckToken(users: seq<User>, token: Option<string>, tokenOf: User -> Option<string>,
                      expiresOf: User -> Option<nat>, now: nat): (c: TokenCheck)
    ensures c.Accepted? ==> c.index < |users| && tokenOf(users[c.index]) == token
                            && !Expired(expiresOf(users[c.index]), now)
    ensures c == Unknown <==> forall i :: 0 <= i < |users| ==> tokenOf(users[i]) != token
  {
    match FirstIndex(users, (u: User) => tokenOf(u) == token)
    case None => Unknown
    case Some(i) => if Expired(expiresOf(users[i]), now) then TokenExpired else Accepted(i)
  }

  function VerificationToken(u: User): Option<string> { u.emailVerificationToken }
  function VerificationExpires(u: User): Option<nat> { u.emailVerificationExpires }
  function ResetToken(u: User): Option<string> { u.resetPasswordToken }
  function ResetExpires(u: User): Option<nat> { u.resetPasswordExpires }

  /** While tokens travel with their expiries, a JSON null never passes as a
      token: whatever account it finds has no expiry, which counts as expired. */
  lemma NullTokenRejected(users: seq<User>, now: nat)
    requires forall i :: 0 <= i < |users| ==> TokensPaired(users[i])
    requires now > 0
    ensures !CheckToken(users, None, VerificationToken, VerificationExpires, now).Accepted?
    ensures !CheckToken(users, None, ResetToken, ResetExpires, now).Accepted?
  {
  }

  /** `verifyEmail`: 400 for an unknown or expired token; otherwise the email is
      verified and the token and its expiry are cleared. */
  method VerifyEmail(accounts: Accounts, token: Option<string>, now: nat) returns (status: Status, message: string)
    requires accounts.Valid()
    modifies accounts
    ensures accounts.Valid()
    ensures accounts.ngoProfiles == old(accounts.ngoProfiles) && accounts.nextId == old(accounts.nextId)
    ensures var c := CheckToken(old(accounts.users), token, VerificationToken, VerificationExpires, now);
            (c == Unknown ==> status == BadRequest && message == "Invalid or expired verification token")
            && (c == TokenExpired ==> status == BadRequest && message == "Verification token has expired")
            && (!c.Accepted? ==> accounts.users == old(accounts.users))
            && (c.Accepted? ==> status == Ok && accounts.users == old(accounts.users)[c.index :=
                  old(accounts.users)[c.index].(emailVerified := true, emailVerificationToken := None,
                                                emailVerificationExpires := None)])
  {
    var c := CheckToken(accounts.users, token, VerificationToken, VerificationExpires, now);
    match c
    case Unknown =>
      return BadRequest, "Invalid or expired verification token";
    case TokenExpired =>
      return BadRequest, "Verification token has expired";
    case Accepted(i) =>
      var u := accounts.users[i];
      ReplaceAccount(accounts.users, accounts.nextId, i, u.(emailVerified := true, emailVerificationToken := None,
                                                             emailVerificationExpires := None));
      accounts.users := accounts.users[i := u.(emailVerified := true, emailVerificationToken := None,
                                                emailVerificationExpires := None)];
      return Ok, "Email verified successfully";
  }

  /** An accepted verification token is spent: the account it verified no
      longer holds it. */
  lemma VerificationTokenSpent(users: seq<User>, t: string, now: nat, i: nat)
    requires CheckToken(users, Some(t), VerificationToken, VerificationExpires, now) == Accepted(i)
    ensures var after := users[i := users[i].(emailVerified := true, emailVerificationToken := None,
                                               emailVerificationExpires := None)];
            after[i].emailVerified && VerificationToken(after[i]) != Some(t)
  {
  }

  const ResetNotice: string := "If an account exists with this email, a password reset link will be sent."

  /** `requestPasswordReset`: the same answer whether or not the email is known;
      a known account gets a reset token valid for one hour. */
  method RequestPasswordReset(accounts: Accounts, email: string, resetToken: string, now: nat)
    returns (status: Status, message: string)
    requires accounts.Valid()
    modifies accounts
    ensures accounts.Valid()
    ensures status == Ok && message == ResetNotice
    ensures accounts.ngoProfiles == old(accounts.ngoProfiles) && accounts.nextId == old(accounts.nextId)
    ensures var i := FirstIndex(old(accounts.users), (u: User) => u.email == email);
            (i.None? ==> accounts.users == old(accounts.users))
            && (i.Some? ==> accounts.users == old(accounts.users)[i.value :=
                  old(accounts.users)[i.value].(resetPasswordToken := Some(resetToken),
                                                resetPasswordExpires := Some(now + HourMs))])
  {
    var i := FirstIndex(accounts.users, (u: User) => u.email == email);
    if i.Some? {
      var u := accounts.users[i.value];
      ReplaceAccount(accounts.users, accounts.nextId, i.value,
                     u.(resetPasswordToken := Some(resetToken), resetPasswordExpires := Some(now + HourMs)));
      accounts.users := accounts.users[i.value := u.(resetPasswordToken := Some(resetToken),
                                                     resetPasswordExpires := Some(now + HourMs))];
    }
    return Ok, ResetNotice;
  }

  /** `resetPassword`: 400 for an unknown or expired token; otherwise the new
      password goes through the update hook and the token and its expiry are
      cleared. */
  method ResetPassword(accounts: Accounts, token: Option<string>, newPassword: string, hash: string -> string, now: nat)
    returns (status: Status, message: string)
    requires accounts.Valid()
    modifies accounts
    ensures accounts.Valid()
    ensures accounts.ngoProfiles == old(accounts.ngoProfiles) && accounts.nextId == old(accounts.nextId)
    ensures var c := CheckToken(old(accounts.users), token, ResetToken, ResetExpires, now);
            (c == Unknown ==> status == BadRequest && message == "Invalid or expired reset token")
            && (c == TokenExpired ==> status == BadRequest && message == "Reset token has expired")
            && (!c.Accepted? ==> accounts.users == old(accounts.users))
            && (c.Accepted? ==> status == Ok && accounts.users == old(accounts.users)[c.index :=
                  old(accounts.users)[c.index].(
                    password := BeforeUpdate(old(accounts.users)[c.index].password, Some(newPassword), hash),
                    resetPasswordToken := None, resetPasswordExpires := None)])
  {
    var c := CheckToken(accounts.users, token, ResetToken, ResetExpires, now);
    match c
    case Unknown =>
      return BadRequest, "Invalid or expired reset token";
    case TokenExpired =>
      return BadRequest, "Reset token has expired";
    case Accepted(i) =>
      var u := accounts.users[i];
      ReplaceAccount(accounts.users, accounts.nextId, i,
                     u.(password := BeforeUpdate(u.password, Some(newPassword), hash),
                        resetPasswordToken := None, resetPasswordExpires := None));
      accounts.users := accounts.users[i := u.(password := BeforeUpdate(u.password, Some(newPassword), hash),
                                                resetPasswordToken := None, resetPasswordExpires := None)];
      return Ok, "Password reset successful";
  }

  // ---------------------------------------------------------------------------
  // Profile update

  /** The `updateData` object: each allow-listed field the body defines, with the
      body's value (a JSON null included). */
  method AllowedUpdates(body: map<string, Json>) returns (updateData: map<string, Json>)
    ensures forall f :: f in updateData <==> f in ProfileFields && f in body
    ensures forall f :: f in updateData ==> updateData[f] == body[f]
  {
    updateData := map[];
    var n := 0;
    while n < |ProfileFields|
      invariant n <= |ProfileFields|
      invariant forall f :: f in updateData <==> f in ProfileFields[..n] && f in body
      invariant forall f :: f in updateData ==> updateData[f] == body[f]
    {
      var field := ProfileFields[n];
      if field in body {
        updateData := updateData[field := body[field]];
      }
      assert ProfileFields[..n + 1] == ProfileFields[..n] + [field];
      n := n + 1;
    }
    assert ProfileFields[..n] == ProfileFields;
  }

  /** `updateProfile` for the authenticated user at index `i`: only profile
      attributes the body names change; email, role, password, the flags and
      the tokens are untouched. */
  method UpdateProfile(accounts: Accounts, i: nat, body: map<string, Json>) returns (status: Status, profile: map<Column, Json>)
    requires accounts.Valid() && i < |accounts.users|
    modifies accounts
    ensures accounts.Valid()
    ensures accounts.ngoProfiles == old(accounts.ngoProfiles) && accounts.nextId == old(accounts.nextId)
    ensures |accounts.users| == |old(accounts.users)|
    ensures forall j :: 0 <= j < |accounts.users| && j != i ==> accounts.users[j] == old(accounts.users)[j]
    ensures var before, after := old(accounts.users)[i], accounts.users[i];
            after == before.(profile := after.profile)
            && (forall f :: f in after.profile <==> f in before.profile || (f in ProfileFields && f in body))
            && (forall f :: f in after.profile ==>
                  after.profile[f] == if f in ProfileFields && f in body then body[f] else before.profile[f])
    ensures status == Ok && profile == PublicProfile(accounts.users[i])
  {
    var updateData := AllowedUpdates(body);
    var u := accounts.users[i];
    ReplaceAccount(accounts.users, accounts.nextId, i, u.(profile := u.profile + updateData));
    accounts.users := accounts.users[i := u.(profile := u.profile + updateData)];
    return Ok, PublicProfile(accounts.users[i]);
  }
}
