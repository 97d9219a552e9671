/** The users table (backend/src/models/User.js): the record, its password
    hashing hooks and the public-profile projection. Hashing is a function
    parameter; only the conditions under which it is applied are modelled. */
module Users {
  import opened Common

  /** The nine profile attributes a user may edit (firstName, lastName,
      phoneNumber, dateOfBirth, country, city, address, preferredLanguage,
      profilePicture); they are kept as JSON values keyed by name. */
  const ProfileFields: seq<string> :=
    ["firstName", "lastName", "phoneNumber", "dateOfBirth", "country", "city", "address",
     "preferredLanguage", "profilePicture"]

  /** A stored user. Dates are milliseconds since the epoch; `None` is SQL NULL. */
  datatype User = User(
    id: Id,
    email: string,
    password: Option<string>,
    role: Role,
    emailVerified: bool,
    phoneVerified: bool,
    isActive: bool,
    isApproved: bool,
    twoFactorEnabled: bool,
    twoFactorSecret: Option<string>,
    oauthProvider: Option<string>,
    oauthProviderId: Option<string>,
    lastLoginAt: Option<nat>,
    resetPasswordToken: Option<string>,
    resetPasswordExpires: Option<nat>,
    emailVerificationToken: Option<string>,
    emailVerificationExpires: Option<nat>,
    createdAt: nat,
    updatedAt: nat,
    profile: map<string, Json>)

  function RoleName(r: Role): string {
    match r
    case Admin => "admin"
    case Ngo => "ngo"
    case Woman => "woman"
    case Donor => "donor"
  }

  function StrOrNull(s: Option<string>): Json {
    if s.Some? then JStr(s.value) else JNull
  }

  function NumOrNull(n: Option<nat>): Json {
    if n.Some? then JNum(n.value) else JNull
  }

  /** The attribute names of a serialised user: the account columns, and the
      profile attributes by their own names. */
  datatype Column =
    | IdCol | EmailCol | PasswordCol | RoleCol | EmailVerifiedCol | PhoneVerifiedCol
    | IsActiveCol | IsApprovedCol | TwoFactorEnabledCol | TwoFactorSecretCol
    | OauthProviderCol | OauthProviderIdCol | LastLoginAtCol
    | ResetPasswordTokenCol | ResetPasswordExpiresCol
    | EmailVerificationTokenCol | EmailVerificationExpiresCol
    | CreatedAtCol | UpdatedAtCol
    | ProfileCol(name: string)

  /** The account columns, with the two timestamps the table keeps. */
  const AccountColumns: set<Column> :=
    {IdCol, EmailCol, PasswordCol, RoleCol, EmailVerifiedCol, PhoneVerifiedCol, IsActiveCol,
     IsApprovedCol, TwoFactorEnabledCol, TwoFactorSecretCol, OauthProviderCol, OauthProviderIdCol,
     LastLoginAtCol, ResetPasswordTokenCol, ResetPasswordExpiresCol, EmailVerificationTokenCol,
     EmailVerificationExpiresCol, CreatedAtCol, UpdatedAtCol}

  function ProfileColumns(u: User): set<Column> {
    set k | k in u.profile :: ProfileCol(k)
  }

  /** The value of one attribute of `u` (a profile attribute the user never set
      reads as null). */
  function Value(u: User, c: Column): Json {
    match c
    case IdCol => JNum(u.id)
    case EmailCol => JStr(u.email)
    case PasswordCol => StrOrNull(u.password)
    case RoleCol => JStr(RoleName(u.role))
    case EmailVerifiedCol => JBool(u.emailVerified)
    case PhoneVerifiedCol => JBool(u.phoneVerified)
    case IsActiveCol => JBool(u.isActive)
    case IsApprovedCol => JBool(u.isApproved)
    case TwoFactorEnabledCol => JBool(u.twoFactorEnabled)
    case TwoFactorSecretCol => StrOrNull(u.twoFactorSecret)
    case OauthProviderCol => StrOrNull(u.oauthProvider)
    case OauthProviderIdCol => StrOrNull(u.oauthProviderId)
    case LastLoginAtCol => NumOrNull(u.lastLoginAt)
    case ResetPasswordTokenCol => StrOrNull(u.resetPasswordToken)
    case ResetPasswordExpiresCol => NumOrNull(u.resetPasswordExpires)
    case EmailVerificationTokenCol => StrOrNull(u.emailVerificationToken)
    case EmailVerificationExpiresCol => NumOrNull(u.emailVerificationExpires)
    case CreatedAtCol => JNum(u.createdAt)
    case UpdatedAtCol => JNum(u.updatedAt)
    case ProfileCol(k) => if k in u.profile then u.profile[k] else JNull
  }

  /** `user.toJSON()`: every account attribute and every profile attribute set. */
  function ToJson(u: User): (m: map<Column, Json>)
    ensures m.Keys == AccountColumns + ProfileColumns(u)
    ensures forall c :: c in m ==> m[c] == Value(u, c)
  {
    map c | c in AccountColumns + ProfileColumns(u) :: Value(u, c)
  }

  /** The attributes `getPublicProfile` drops. */
  const SecretColumns: set<Column> := {PasswordCol, TwoFactorSecretCol, ResetPasswordTokenCol}

  /** `getPublicProfile()`: every attribute except the three secret ones, values
      unchanged. */
  function PublicProfile(u: User): (m: map<Column, Json>)
    ensures m.Keys == ToJson(u).Keys - SecretColumns
    ensures forall k :: k in m ==> m[k] == ToJson(u)[k]
  {
    ToJson(u) - SecretColumns
  }

  /** The projection withholds only the three secret columns: the
      email-verification token and the reset expiry are still shown. */
  lemma PublicProfileKeepsOtherSecrets(u: User)
    ensures EmailVerificationTokenCol in PublicProfile(u)
    ensures PublicProfile(u)[EmailVerificationTokenCol] == StrOrNull(u.emailVerificationToken)
    ensures ResetPasswordExpiresCol in PublicProfile(u)
    ensures PublicProfile(u)[ResetPasswordExpiresCol] == NumOrNull(u.resetPasswordExpires)
  {
    ShowsVerificationToken(u);
    ShowsResetExpiry(u);
  }

  lemma ShowsVerificationToken(u: User)
    ensures EmailVerificationTokenCol in PublicProfile(u)
    ensures PublicProfile(u)[EmailVerificationTokenCol] == StrOrNull(u.emailVerificationToken)
  {
    var c := EmailVerificationTokenCol;
    assert c in AccountColumns && c !in SecretColumns;
    assert Value(u, c) == StrOrNull(u.emailVerificationToken);
    PublicColumn(u, c);
  }

  lemma ShowsResetExpiry(u: User)
    ensures ResetPasswordExpiresCol in PublicProfile(u)
    ensures PublicProfile(u)[ResetPasswordExpiresCol] == NumOrNull(u.resetPasswordExpires)
  {
    var c := ResetPasswordExpiresCol;
    assert c in AccountColumns && c !in SecretColumns;
    assert Value(u, c) == NumOrNull(u.resetPasswordExpires);
    PublicColumn(u, c);
  }

  /** An account column that is not secret is shown with its value. */
  lemma PublicColumn(u: User, c: Column)
    requires c in AccountColumns && c !in SecretColumns
    ensures c in PublicProfile(u) && PublicProfile(u)[c] == Value(u, c)
  {
    assert c in ToJson(u);
  }

  // ---------------------------------------------------------------------------
  // Password hooks

  /** JavaScript truthiness of a nullable string. */
  predicate TruthyStr(s: Option<string>) {
    s.Some? && s.value != ""
  }

  /** `beforeCreate`: a non-empty password is replaced by its hash. */
  function BeforeCreate(password: Option<string>, hash: string -> string): (stored: Option<string>)
    ensures TruthyStr(password) ==> stored == Some(hash(password.value))
    ensures !TruthyStr(password) ==> stored == password
  {
    if TruthyStr(password) then Some(hash(password.value)) else password
  }

  /** `beforeUpdate`: the given password is hashed only when it differs from
      the stored one and is non-empty; otherwise it is stored as given. */
  function BeforeUpdate(stored: Option<string>, given: Option<string>, hash: string -> string): (r: Option<string>)
    ensures given != stored && TruthyStr(given) ==> r == Some(hash(given.value))
    ensures !(given != stored && TruthyStr(given)) ==> r == given
  {
    if given != stored && TruthyStr(given) then Some(hash(given.value)) else given
  }

  /** An update that leaves the password as it is keeps the stored hash. */
  lemma UnchangedPasswordKeepsHash(stored: Option<string>, hash: string -> string)
    ensures BeforeUpdate(stored, stored, hash) == stored
  {
  }

  // ---------------------------------------------------------------------------
  // Lookups

  /** `User.findByPk(id)`. */
  function FindUser(users: seq<User>, id: Id): (r: Option<User>)
    ensures r.Some? ==> r.value in users && r.value.id == id
    ensures r.None? ==> forall u :: u in users ==> u.id != id
  {
    match FirstIndex(users, (u: User) => u.id == id)
    case Some(i) => Some(users[i])
    case None => None
  }

  /** Ids identify users. */
  predicate UniqueIds(users: seq<User>) {
    forall i, j :: 0 <= i < j < |users| ==> users[i].id != users[j].id
  }

  /** With unique ids, `findByPk` finds the one user with that id. */
  lemma FindUserUnique(users: seq<User>, i: nat)
    requires UniqueIds(users) && i < |users|
    ensures FindUser(users, users[i].id) == Some(users[i])
  {
    var r := FirstIndex(users, (u: User) => u.id == users[i].id);
    assert r.Some?;
    if r.value != i {
      assert false;
    }
  }

  /** An account's token and its expiry are set and cleared together. */
  predicate TokensPaired(u: User) {
    (u.emailVerificationToken.None? ==> u.emailVerificationExpires.None?)
    && (u.resetPasswordToken.None? ==> u.resetPasswordExpires.None?)
  }

  /** Ids and emails are unique, ids are below `nextId`, and tokens travel
      with their expiry. */
  ghost predicate WellKept(users: seq<User>, nextId: nat) {
    UniqueIds(users)
    && (forall i, j :: 0 <= i < j < |users| ==> users[i].email != users[j].email)
    && (forall i :: 0 <= i < |users| ==> users[i].id < nextId && TokensPaired(users[i]))
  }

  /** A new account under the next id with an email nobody uses keeps the
      table well kept. */
  lemma AppendAccount(users: seq<User>, nextId: nat, u: User)
    requires WellKept(users, nextId) && u.id == nextId && TokensPaired(u)
    requires forall i :: 0 <= i < |users| ==> users[i].email != u.email
    ensures WellKept(users + [u], nextId + 1)
  {
  }

  /** Rewriting an account without touching its id or email keeps the table
      well kept, provided its tokens stay paired. */
  lemma ReplaceAccount(users: seq<User>, nextId: nat, i: nat, u: User)
    requires WellKept(users, nextId) && i < |users| && TokensPaired(u)
    requires u.id == users[i].id && u.email == users[i].email
    ensures WellKept(users[i := u], nextId)
  {
  }

  /** The NGO profile created beside an NGO account at registration. */
  datatype NgoProfile = NgoProfile(userId: Id, organizationName: string, registrationNumber: string)

  /** The users table and the NGO profiles table. */
  class Accounts {
    var users: seq<User>
    var ngoProfiles: seq<NgoProfile>
    var nextId: nat

    /** Ids and emails are unique, ids are below the next one handed out, and
        tokens travel with their expiry. */
    ghost predicate Valid()
      reads this
    {
      WellKept(users, nextId)
    }

    constructor ()
      ensures Valid() && users == [] && ngoProfiles == []
    {
      users := [];
      ngoProfiles := [];
      nextId := 0;
    }
  }
}
