/** Sign-up, sign-in, status, security settings and password recovery
    (controllers/authController.js).  Passwords are compared as stored
    values: the bcrypt hashing of models/User.js is not part of the model,
    and a session token is represented by the id it is signed for. */
module Auth {
  import opened Common
  import Activity
  import Gateway
  import Invites

  /** The schema's `status` enum, which is also the set `updateUserStatus`
      accepts. */
  const UserStatuses: set<string> := {"Active", "In a Meeting", "Presenting", "Away", "Offline", "Busy"}

  /** The `phoneExtension` used when none is given. */
  const DefaultPhoneExtension: string := "+1"

  /** A user document as the authentication handlers see it.
      `sessionTimeout` and `loginNotifications` are the two preferences the
      handlers read; the schema does not declare them. */
  datatype Account = Account(
    id: string,
    username: string,
    email: string,
    phone: Option<string>,
    phoneExtension: string,
    password: string,
    firstName: string,
    lastName: string,
    organizationID: Option<string>,
    role: string,
    status: string,
    lastLogin: Option<int>,
    googleId: Option<string>,
    twoFactorEnabled: bool,
    sessionTimeout: Option<int>,
    loginNotifications: Option<bool>,
    tempSecret: Option<string>)

  /** Schema validation: the required strings are non-empty and the status
      is in the enum. */
  predicate ValidAccount(a: Account) {
    a.username != "" && a.firstName != "" && a.lastName != "" && a.email != "" && a.password != "" &&
    a.status in UserStatuses
  }

  /** The unique indexes on `username` and `email`. */
  predicate UniqueIdentities(accounts: seq<Account>) {
    forall i, j :: 0 <= i < j < |accounts| ==>
      accounts[i].username != accounts[j].username && accounts[i].email != accounts[j].email
  }

  /** A `ForgotPasswordHistory` document.  `isValid` is `None` for the
      schema's null default. */
  datatype ResetRecord = ResetRecord(
    username: string,
    attemptNo: nat,
    maxAttempts: nat,
    key: string,
    expiryTime: int,
    isValid: Option<bool>,
    passwordChangedDate: Option<int>)

  /** Reset links are valid for 24 hours. */
  const ResetLifetimeMs: int := 24 * HourMs

  datatype Store = Store(
    accounts: seq<Account>,
    invites: seq<Invites.Invite>,
    resets: seq<ResetRecord>,
    log: seq<Activity.Record>,
    io: Gateway.Server)

  /** What a sign-in answers besides its status: nothing, a token only
      (registration), a request for the second factor, or a session with the
      security preferences. */
  datatype SignInBody =
    | NoBody
    | Issued(tokenFor: string)
    | SecondFactor(userId: string)
    | Session(tokenFor: string, twoFactorEnabled: bool, sessionTimeout: int, loginNotifications: bool, status: string)

  datatype Outcome = Outcome(store: Store, status: nat, body: SignInBody, needsAdditionalDetails: bool)

  datatype Response = Response(store: Store, status: nat)

  /** `User.findById(id)`. */
  function AccountIndex(accounts: seq<Account>, id: string): Option<nat> {
    AccountBy(accounts, ById, id)
  }

  /** The fields the handlers look a single user up by. */
  datatype Key = ById | ByUsername

  function KeyOf(a: Account, k: Key): string {
    match k
    case ById => a.id
    case ByUsername => a.username
  }

  /** `User.findById(x)` or `User.findOne({ username: x })`: an account
      whose key is `x`, and none exactly when no account has it. */
  function AccountBy(accounts: seq<Account>, k: Key, x: string): (r: Option<nat>)
    ensures r.Some? ==> r.value < |accounts| && KeyOf(accounts[r.value], k) == x
    ensures r.None? <==> forall j :: 0 <= j < |accounts| ==> KeyOf(accounts[j], k) != x
  {
    FirstWhere(accounts, (a: Account) => KeyOf(a, k) == x)
  }

  /** `User.findOne({ $or: [{ email: x }, { username: x }] })`. */
  function LoginIndex(accounts: seq<Account>, usernameOrEmail: string): (r: Option<nat>)
    ensures r.Some? ==> (r.value < |accounts| &&
      (accounts[r.value].email == usernameOrEmail || accounts[r.value].username == usernameOrEmail))
    ensures r.None? <==> forall j :: 0 <= j < |accounts| ==>
      accounts[j].email != usernameOrEmail && accounts[j].username != usernameOrEmail
  {
    FirstWhere(accounts, (a: Account) => a.email == usernameOrEmail || a.username == usernameOrEmail)
  }

  // ---------------------------------------------------------------------
  // Registration
  // ---------------------------------------------------------------------

  datatype Registration = Registration(
    username: string,
    firstName: string,
    lastName: string,
    phone: Option<string>,
    phoneExtension: Option<string>,
    email: string,
    password: string,
    inviteToken: Option<string>)

  /** An existing user the registration collides with: same e-mail, same
      username or same phone.  A registration without a phone puts
      `{ phone: undefined }` in the `$or`, which the driver sends as `null`
      and which therefore matches every user stored without a phone. */
  predicate Clashes(a: Account, b: Registration) {
    a.email == b.email || a.username == b.username || a.phone == b.phone
  }

  function NewAccount(id: string, b: Registration, organizationID: Option<string>, now: int): Account {
    Account(id, b.username, b.email, b.phone,
            if Truthy(b.phoneExtension) then b.phoneExtension.value else DefaultPhoneExtension,
            b.password, b.firstName, b.lastName, organizationID, "User", "Offline", Some(now), None,
            false, None, None, None)
  }

  /** `registerUser`: a collision with an existing user gives 400; an invite
      token must select a Pending invite for the same e-mail (else 400),
      which is saved as Accepted and supplies the organization; the user is
      then created with role User (500 when validation fails, with the
      invite already accepted).  Additional details are needed exactly
      when no organization came from an invite. */
  function Register(st: Store, b: Registration, id: string, now: int): (r: Outcome)
    ensures r.status in {201, 400, 500}
    ensures r.status == 400 <==>
      (exists j :: 0 <= j < |st.accounts| && Clashes(st.accounts[j], b)) ||
      (Truthy(b.inviteToken) && Invites.Accept(st.invites, b.inviteToken.value, b.email, now).Err?)
    ensures r.status == 400 ==> r.store == st
    ensures r.status != 201 ==> r.store.accounts == st.accounts && r.body == NoBody
    ensures r.store.resets == st.resets && r.store.log == st.log && r.store.io == st.io
    ensures !Truthy(b.inviteToken) ==> r.store.invites == st.invites
    ensures r.status == 201 ==>
      |r.store.accounts| == |st.accounts| + 1 && r.store.accounts[..|st.accounts|] == st.accounts &&
      r.body == Issued(id) &&
      var a := r.store.accounts[|st.accounts|];
      a.id == id && a.username == b.username && a.email == b.email && a.password == b.password &&
      a.role == "User" && a.status == "Offline" && a.lastLogin == Some(now) &&
      (Truthy(b.phoneExtension) ==> a.phoneExtension == b.phoneExtension.value) &&
      (!Truthy(b.phoneExtension) ==> a.phoneExtension == DefaultPhoneExtension) &&
      (r.needsAdditionalDetails <==> !Truthy(a.organizationID)) &&
      (!Truthy(b.inviteToken) ==> a.organizationID.None?) &&
      (Truthy(b.inviteToken) ==> var acc := Invites.Accept(st.invites, b.inviteToken.value, b.email, now);
         acc.Ok? && a.organizationID == Some(acc.value.organizationID) && r.store.invites == acc.value.invites)
  {
    if FirstWhere(st.accounts, (a: Account) => Clashes(a, b)).Some? then Outcome(st, 400, NoBody, false)
    else if Truthy(b.inviteToken) && Invites.Accept(st.invites, b.inviteToken.value, b.email, now).Err? then
      Outcome(st, 400, NoBody, false)
    else
      var accepted := if Truthy(b.inviteToken) then Invites.Accept(st.invites, b.inviteToken.value, b.email, now)
                      else Ok(Invites.Acceptance(st.invites, ""));
      var organizationID := if Truthy(b.inviteToken) then Some(accepted.value.organizationID) else None;
      var st' := st.(invites := accepted.value.invites);
      var a := NewAccount(id, b, organizationID, now);
      if !ValidAccount(a) then Outcome(st', 500, NoBody, false)
      else Outcome(st'.(accounts := st.accounts + [a]), 201, Issued(id), !Truthy(organizationID))
  }

  /** Once some account has no phone — every Google sign-up stores none —
      each registration without a phone is refused as a duplicate. */
  lemma PhonelessRegistrationClashes(st: Store, b: Registration, id: string, now: int, j: nat)
    requires j < |st.accounts| && st.accounts[j].phone.None? && b.phone.None?
    ensures Register(st, b, id, now).status == 400 && Register(st, b, id, now).store == st
  {
    assert Clashes(st.accounts[j], b);
  }

  /** With well-formed invites, a registered user needs additional details
      exactly when no invite token was given. */
  lemma RegisterNeedsDetails(st: Store, b: Registration, id: string, now: int)
    requires forall k :: 0 <= k < |st.invites| ==> Invites.ValidInvite(st.invites[k])
    ensures var r := Register(st, b, id, now);
      r.status == 201 ==> (r.needsAdditionalDetails <==> !Truthy(b.inviteToken))
  {
    var r := Register(st, b, id, now);
    if r.status == 201 && Truthy(b.inviteToken) {
      var acc := Invites.Accept(st.invites, b.inviteToken.value, b.email, now);
      var k :| 0 <= k < |st.invites| && Invites.Usable(st.invites[k], b.inviteToken.value, b.email, now, false) &&
        acc.value.organizationID == st.invites[k].organizationID &&
        acc.value.invites == st.invites[k := st.invites[k].(status := Invites.Accepted, acceptedAt := Some(now))];
      assert Invites.ValidInvite(st.invites[k]);
    }
  }

  /** Registration keeps usernames and e-mails unique. */
  lemma RegisterKeepsUniqueIdentities(st: Store, b: Registration, id: string, now: int)
    requires UniqueIdentities(st.accounts)
    ensures UniqueIdentities(Register(st, b, id, now).store.accounts)
  {
    var r := Register(st, b, id, now);
    if r.status == 201 {
      var n := |st.accounts|;
      forall j | 0 <= j < n
        ensures st.accounts[j].username != b.username && st.accounts[j].email != b.email
      {
        assert !Clashes(st.accounts[j], b);
      }
      assert forall j :: 0 <= j < n ==> r.store.accounts[j] == st.accounts[j];
    }
  }

  // ---------------------------------------------------------------------
  // Login
  // ---------------------------------------------------------------------

  /** `user.sessionTimeout || 30`. */
  function SessionTimeout(a: Account): (t: int)
    ensures t == 30 <==> a.sessionTimeout.None? || a.sessionTimeout.value in {0, 30}
  {
    if a.sessionTimeout.Some? && a.sessionTimeout.value != 0 then a.sessionTimeout.value else 30
  }

  /** `user.loginNotifications !== false`. */
  predicate NotifiesLogins(a: Account) {
    a.loginNotifications != Some(false)
  }

  /** The session a signed-in user without a second factor receives. */
  function SessionFor(a: Account): SignInBody {
    Session(a.id, a.twoFactorEnabled, SessionTimeout(a), NotifiesLogins(a), a.status)
  }

  /** `loginUser`: the first user whose e-mail or username matches must have
      the given password; then the login is recorded (lastLogin, Active, a
      `login` activity) and the answer is either a request for the second
      factor, with no token, or a session.  Otherwise a `login_failed`
      activity is logged (with the user when one matched) and 401 given. */
  function Login(st: Store, usernameOrEmail: string, password: string, now: int): (r: Outcome)
    ensures r.status in {200, 401}
    ensures r.status == 200 <==> (LoginIndex(st.accounts, usernameOrEmail).Some? &&
      st.accounts[LoginIndex(st.accounts, usernameOrEmail).value].password == password)
    ensures |r.store.log| == |st.log| + 1 && r.store.log[..|st.log|] == st.log
    ensures r.store.invites == st.invites && r.store.resets == st.resets && r.store.io == st.io
    ensures !r.needsAdditionalDetails
    ensures r.status == 401 ==>
      r.store.accounts == st.accounts && r.body == NoBody &&
      r.store.log[|st.log|].typ == "login_failed" && r.store.log[|st.log|].loginMethod == Some("email") &&
      (LoginIndex(st.accounts, usernameOrEmail).None? ==> r.store.log[|st.log|].user.None?) &&
      (LoginIndex(st.accounts, usernameOrEmail).Some? &&
       st.accounts[LoginIndex(st.accounts, usernameOrEmail).value].id != "" ==>
         r.store.log[|st.log|].user == Some(st.accounts[LoginIndex(st.accounts, usernameOrEmail).value].id))
    ensures r.status == 200 ==> var i := LoginIndex(st.accounts, usernameOrEmail).value;
      |r.store.accounts| == |st.accounts| &&
      (forall j :: 0 <= j < |st.accounts| && j != i ==> r.store.accounts[j] == st.accounts[j]) &&
      r.store.accounts[i] == st.accounts[i].(lastLogin := Some(now), status := "Active") &&
      r.store.log[|st.log|].typ == "login" && r.store.log[|st.log|].loginMethod == Some("email") &&
      (r.body.SecondFactor? <==> st.accounts[i].twoFactorEnabled) &&
      (r.body.SecondFactor? ==> r.body.userId == st.accounts[i].id) &&
      (r.body.Session? ==> (!r.body.twoFactorEnabled && r.body.tokenFor == st.accounts[i].id &&
         r.body.status == "Active" &&
         r.body.sessionTimeout == SessionTimeout(st.accounts[i]) &&
         (r.body.loginNotifications <==> st.accounts[i].loginNotifications != Some(false))))
  {
    match LoginIndex(st.accounts, usernameOrEmail)
    case Some(i) =>
      if st.accounts[i].password == password then
        var a := st.accounts[i].(lastLogin := Some(now), status := "Active");
        var log := Activity.LogActivity(st.log, Some(a.id), "login", "success", "User logged in successfully",
                                        map[], Some("email"), now).log;
        var st' := st.(accounts := st.accounts[i := a], log := log);
        if a.twoFactorEnabled then Outcome(st', 200, SecondFactor(a.id), false)
        else Outcome(st', 200, SessionFor(a), false)
      else
        var log := Activity.LogActivity(st.log, Some(st.accounts[i].id), "login_failed", "error", "Invalid password",
                                        map[], Some("email"), now).log;
        Outcome(st.(log := log), 401, NoBody, false)
    case None =>
      var log := Activity.LogActivity(st.log, None, "login_failed", "error", "User not found",
                                      map[], Some("email"), now).log;
      Outcome(st.(log := log), 401, NoBody, false)
  }

  /** A freshly registered user who signs in with the registration username
      and password gets a session with the default preferences: a 30-minute
      timeout and login notifications on. */
  lemma RegisterThenLogin(st: Store, b: Registration, id: string, now: int, later: int)
    requires UniqueIdentities(st.accounts)
    requires forall j :: 0 <= j < |st.accounts| ==> st.accounts[j].email != b.username
    requires Register(st, b, id, now).status == 201
    ensures var r := Login(Register(st, b, id, now).store, b.username, b.password, later);
      r.status == 200 && r.body == Session(id, false, 30, true, "Active")
  {
    var reg := Register(st, b, id, now);
    var n := |st.accounts|;
    RegisterKeepsUniqueIdentities(st, b, id, now);
    RegisteredDefaults(st, b, id, now);
    EarlierAccountsDiffer(st.accounts, reg.store.accounts, b.username);
    LoginFinds(reg.store.accounts, b.username, n);
    LoginWithDefaults(reg.store, b.username, b.password, later, n);
  }

  /** A registered account starts without a second factor, session timeout
      or notification preference. */
  lemma RegisteredDefaults(st: Store, b: Registration, id: string, now: int)
    requires Register(st, b, id, now).status == 201
    ensures var a := Register(st, b, id, now).store.accounts[|st.accounts|];
      !a.twoFactorEnabled && a.sessionTimeout.None? && a.loginNotifications.None?
  {
    var a := Register(st, b, id, now).store.accounts[|st.accounts|];
    assert a == NewAccount(id, b, a.organizationID, now);
  }

  /** After registration under `u` with unique identities, no earlier
      account answers to `u`. */
  lemma EarlierAccountsDiffer(before: seq<Account>, after: seq<Account>, u: string)
    requires |after| == |before| + 1 && after[..|before|] == before && after[|before|].username == u
    requires UniqueIdentities(after)
    requires forall j :: 0 <= j < |before| ==> before[j].email != u
    ensures forall j :: 0 <= j < |before| ==> after[j].email != u && after[j].username != u
  {
    forall j | 0 <= j < |before|
      ensures after[j].email != u && after[j].username != u
    {
      assert after[j] == before[j];
    }
  }

  /** The lookup lands on the first account answering to the name. */
  lemma LoginFinds(accounts: seq<Account>, u: string, n: nat)
    requires n < |accounts| && accounts[n].username == u
    requires forall j :: 0 <= j < n ==> accounts[j].email != u && accounts[j].username != u
    ensures LoginIndex(accounts, u) == Some(n)
  {
  }

  /** Signing in to an account with default preferences gives the default
      session. */
  lemma LoginWithDefaults(st: Store, u: string, password: string, now: int, n: nat)
    requires LoginIndex(st.accounts, u) == Some(n)
    requires st.accounts[n].password == password
    requires !st.accounts[n].twoFactorEnabled && st.accounts[n].sessionTimeout.None? &&
      st.accounts[n].loginNotifications.None?
    ensures var r := Login(st, u, password, now);
      r.status == 200 && r.body == Session(st.accounts[n].id, false, 30, true, "Active")
  {
  }

  // ---------------------------------------------------------------------
  // Google sign-in
  // ---------------------------------------------------------------------

  /** The verified Google ID token's payload. */
  datatype GoogleProfile = GoogleProfile(
    emailVerified: bool,
    email: string,
    name: string,
    givenName: Option<string>,
    familyName: Option<string>,
    sub: string)

  datatype Names = Names(first: string, last: string)

  /** A new Google user's names: the given name, else the first word of the
      full name; the family name, else the remaining words. */
  function GoogleNames(p: GoogleProfile): Names {
    var words := Split(p.name, ' ');
    Names(if Truthy(p.givenName) then p.givenName.value else words[0],
          if Truthy(p.familyName) then p.familyName.value else Join(words[1..], ' '))
  }

  /** Without given and family names, the two names split the full name at
      its first space, and put back together give it whole. */
  lemma GoogleNamesSplitFullName(p: GoogleProfile)
    requires !Truthy(p.givenName) && !Truthy(p.familyName)
    ensures var n := GoogleNames(p);
      ' ' !in n.first &&
      (' ' in p.name ==> n.first + " " + n.last == p.name) &&
      (' ' !in p.name ==> n.first == p.name && n.last == "")
  {
    var words := Split(p.name, ' ');
    JoinSplit(p.name, ' ');
    if |words| >= 2 {
      assert Join(words, ' ') == words[0] + [' '] + Join(words[1..], ' ');
    }
  }

  /** The username a new Google user gets: the e-mail's local part followed
      by a number below 1000. */
  function GoogleUsername(email: string, suffix: nat): string
    requires suffix < 1000
  {
    Split(email, '@')[0] + NatToString(suffix)
  }

  function GoogleAccount(id: string, p: GoogleProfile, username: string, password: string,
                         organizationID: Option<string>, now: int): Account
  {
    var n := GoogleNames(p);
    Account(id, username, p.email, None, DefaultPhoneExtension, password, n.first, n.last, organizationID,
            "User", "Offline", Some(now), Some(p.sub), false, None, None, None)
  }

  const GoogleMeta: map<string, string> := map["provider" := "google"]

  /** `googleLogin`: an unverified e-mail is logged with the string
      'google' in the `metadata` argument, which the log cannot store, so
      the call throws and the catch logs a failed Google login and answers
      500; a known e-mail signs that user in (200); otherwise an account
      is created — after the same invite step as registration — and
      answered with 201.  A creation that fails validation or the username
      index is logged as a failed Google login and answered with 500.
      `suffix` and `password` stand for the handler's two `Math.random`
      draws. */
  function GoogleLogin(st: Store, p: GoogleProfile, inviteToken: Option<string>, id: string,
                       suffix: nat, password: string, now: int): (r: Outcome)
    requires suffix < 1000
    ensures r.status in {200, 201, 400, 500}
    ensures !p.emailVerified ==> (r.status == 500 && r.store.accounts == st.accounts &&
      |r.store.log| == |st.log| + 2 && r.store.log[..|st.log|] == st.log &&
      r.store.log[|st.log|].typ == "error" && "originalType" in r.store.log[|st.log|].metadata &&
      r.store.log[|st.log|].metadata["originalType"] == "login_failed" &&
      r.store.log[|st.log| + 1].typ == "login_failed" && r.store.log[|st.log| + 1].metadata == GoogleMeta)
    ensures p.emailVerified ==>
      (r.status == 200 <==> exists j :: 0 <= j < |st.accounts| && st.accounts[j].email == p.email)
    ensures r.status == 200 ==> |r.store.accounts| == |st.accounts| && r.body.Session? && !r.needsAdditionalDetails
    ensures r.status == 201 ==> GoogleCreated(st, p, inviteToken, suffix, r)
    ensures p.emailVerified && r.status == 500 ==> (r.store.accounts == st.accounts &&
      |r.store.log| == |st.log| + 1 && r.store.log[|st.log|].typ == "login_failed")
    ensures (p.emailVerified && !Truthy(inviteToken) &&
      (forall j :: 0 <= j < |st.accounts| ==> st.accounts[j].email != p.email) &&
      !ValidAccount(GoogleAccount(id, p, GoogleUsername(p.email, suffix), password, None, now))) ==> r.status == 500
  {
    if !p.emailVerified then
      var thrown := Activity.LogActivityTextMetadata(st.log, None, "login_failed", "error",
                                                     "Email not verified by Google", now).log;
      var log := Activity.LogActivity(thrown, None, "login_failed", "error", "Google login failed",
                                      GoogleMeta, None, now).log;
      Outcome(st.(log := log), 500, NoBody, false)
    else GoogleSignIn(st, p, inviteToken, id, suffix, password, now)
  }

  /** `googleLogin` with the unverified e-mail logged as evidently meant:
      no metadata and `loginMethod` "google", so the record is saved and
      the answer is 400.  Verified e-mails are handled as written. */
  function GoogleLoginIntended(st: Store, p: GoogleProfile, inviteToken: Option<string>, id: string,
                               suffix: nat, password: string, now: int): (r: Outcome)
    requires suffix < 1000
    ensures !p.emailVerified ==> (r.status == 400 && r.store.accounts == st.accounts &&
      |r.store.log| == |st.log| + 1 && r.store.log[..|st.log|] == st.log &&
      var a := r.store.log[|st.log|];
      a.typ == "login_failed" && a.status == "error" && a.loginMethod == Some("google") && a.user.None?)
    ensures p.emailVerified ==> r == GoogleLogin(st, p, inviteToken, id, suffix, password, now)
  {
    if !p.emailVerified then
      var log := Activity.LogActivity(st.log, None, "login_failed", "error", "Email not verified by Google",
                                      map[], Some("google"), now).log;
      Outcome(st.(log := log), 400, NoBody, false)
    else GoogleSignIn(st, p, inviteToken, id, suffix, password, now)
  }

  /** An unverified Google e-mail: 500 and two records as written, 400 and
      one `login_failed` record when logged as meant. */
  lemma UnverifiedGoogleLoginFails(st: Store, p: GoogleProfile, inviteToken: Option<string>, id: string,
                                   suffix: nat, password: string, now: int)
    requires suffix < 1000
    requires !p.emailVerified
    ensures GoogleLogin(st, p, inviteToken, id, suffix, password, now).status == 500
    ensures GoogleLoginIntended(st, p, inviteToken, id, suffix, password, now).status == 400
    ensures |GoogleLogin(st, p, inviteToken, id, suffix, password, now).store.log| ==
            |GoogleLoginIntended(st, p, inviteToken, id, suffix, password, now).store.log| + 1
  {
  }

  /** The verified half of `googleLogin`: a known e-mail signs in, any
      other goes on to sign-up. */
  function GoogleSignIn(st: Store, p: GoogleProfile, inviteToken: Option<string>, id: string,
                        suffix: nat, password: string, now: int): (r: Outcome)
    requires suffix < 1000
  {
    match FirstWhere(st.accounts, (a: Account) => a.email == p.email)
      case Some(i) =>
        var a := st.accounts[i].(lastLogin := Some(now), status := "Active");
        var log := Activity.LogActivity(st.log, Some(a.id), "login", "success", "User logged in via Google",
                                        GoogleMeta, None, now).log;
        Outcome(st.(accounts := st.accounts[i := a], log := log), 200, SessionFor(a), false)
      case None =>
        GoogleSignUp(st, p, inviteToken, id, suffix, password, now)
  }

  /** The account a Google sign-up appended: the profile's e-mail, subject
      and names, the generated username, role "User", status "Offline", and
      the organization of the accepted invite if any. */
  predicate GoogleCreated(st: Store, p: GoogleProfile, inviteToken: Option<string>, suffix: nat, r: Outcome)
    requires suffix < 1000
  {
    |r.store.accounts| == |st.accounts| + 1 && r.store.accounts[..|st.accounts|] == st.accounts &&
    var a := r.store.accounts[|st.accounts|];
    a.email == p.email && a.googleId == Some(p.sub) && a.role == "User" && a.status == "Offline" &&
    a.username == GoogleUsername(p.email, suffix) &&
    a.firstName == GoogleNames(p).first && a.lastName == GoogleNames(p).last &&
    (r.needsAdditionalDetails <==> !Truthy(a.organizationID)) &&
    (!Truthy(inviteToken) ==> a.organizationID.None?)
  }

  /** The sign-up half of `googleLogin`, for an e-mail no account has: the
      invite step, then the new account (201), or a logged failure (500). */
  function GoogleSignUp(st: Store, p: GoogleProfile, inviteToken: Option<string>, id: string,
                        suffix: nat, password: string, now: int): (r: Outcome)
    requires suffix < 1000
    ensures r.status in {201, 400, 500}
    ensures r.status == 201 ==> GoogleCreated(st, p, inviteToken, suffix, r)
    ensures r.status == 500 ==> (r.store.accounts == st.accounts &&
      |r.store.log| == |st.log| + 1 && r.store.log[|st.log|].typ == "login_failed")
    ensures r.status == 400 ==> Truthy(inviteToken) && r.store == st
    ensures (!Truthy(inviteToken) &&
      !ValidAccount(GoogleAccount(id, p, GoogleUsername(p.email, suffix), password, None, now))) ==> r.status == 500
  {
    if Truthy(inviteToken) && Invites.Accept(st.invites, inviteToken.value, p.email, now).Err? then
      Outcome(st, 400, NoBody, false)
    else
      var accepted := if Truthy(inviteToken) then Invites.Accept(st.invites, inviteToken.value, p.email, now)
                      else Ok(Invites.Acceptance(st.invites, ""));
      var organizationID := if Truthy(inviteToken) then Some(accepted.value.organizationID) else None;
      var st' := st.(invites := accepted.value.invites);
      var username := GoogleUsername(p.email, suffix);
      var a := GoogleAccount(id, p, username, password, organizationID, now);
      if !ValidAccount(a) || FirstWhere(st.accounts, (x: Account) => x.username == username).Some? then
        var log := Activity.LogActivity(st.log, None, "login_failed", "error", "Google login failed",
                                        GoogleMeta, None, now).log;
        Outcome(st'.(log := log), 500, NoBody, false)
      else
        var log := Activity.LogActivity(st.log, Some(id), "login", "success",
                                        "New user registered and logged in via Google", GoogleMeta, None, now).log;
        Outcome(st'.(accounts := st.accounts + [a], log := log), 201, Issued(id), !Truthy(organizationID))
  }

  /** A Google user whose full name is a single word and who has no family
      name gets an empty last name, which the required `lastName` refuses:
      the sign-up fails with 500. */
  lemma SingleWordNameFails(st: Store, p: GoogleProfile, id: string, suffix: nat, password: string, now: int)
    requires suffix < 1000
    requires p.emailVerified && ' ' !in p.name && !Truthy(p.familyName)
    requires forall j :: 0 <= j < |st.accounts| ==> st.accounts[j].email != p.email
    ensures GoogleLogin(st, p, None, id, suffix, password, now).status == 500
  {
    assert GoogleNames(p).last == Join(Split(p.name, ' ')[1..], ' ') == "";
  }

  // ---------------------------------------------------------------------
  // Status and security settings
  // ---------------------------------------------------------------------

  /** `updateUserStatus`: only a status of the enum is stored (else 400);
      an unknown user gives 404; a user with an organization is announced
      to it. */
  function UpdateUserStatus(st: Store, userId: string, status: string): (r: Response)
    ensures r.status in {200, 400, 404}
    ensures r.status == 400 <==> status !in UserStatuses
    ensures r.status == 404 <==> status in UserStatuses && AccountIndex(st.accounts, userId).None?
    ensures r.status != 200 ==> r.store == st
    ensures r.status == 200 ==> var i := AccountIndex(st.accounts, userId).value;
      r.store.accounts == st.accounts[i := st.accounts[i].(status := status)] &&
      r.store.invites == st.invites && r.store.resets == st.resets && r.store.log == st.log &&
      (Truthy(st.accounts[i].organizationID) ==>
         r.store.io == Gateway.EmitToOrg(st.io, st.accounts[i].organizationID.value, "org.member.updated", Gateway.NoData)) &&
      (!Truthy(st.accounts[i].organizationID) ==> r.store.io == st.io)
  {
    if status !in UserStatuses then Response(st, 400)
    else match AccountIndex(st.accounts, userId)
      case None => Response(st, 404)
      case Some(i) =>
        var a := st.accounts[i].(status := status);
        var io := if Truthy(a.organizationID) then
                    Gateway.EmitToOrg(st.io, a.organizationID.value, "org.member.updated", Gateway.NoData)
                  else st.io;
        Response(st.(accounts := st.accounts[i := a], io := io), 200)
  }

  /** Every stored status stays within the enum. */
  lemma UpdateUserStatusKeepsEnum(st: Store, userId: string, status: string)
    requires forall j :: 0 <= j < |st.accounts| ==> st.accounts[j].status in UserStatuses
    ensures var r := UpdateUserStatus(st, userId, status);
      forall j :: 0 <= j < |r.store.accounts| ==> r.store.accounts[j].status in UserStatuses
  {
  }

  datatype Settings = Settings(twoFactorEnabled: bool, sessionTimeout: int, loginNotifications: bool)

  /** `getSecuritySettings` as written: `loginNotifications || true` is true
      whatever is stored. */
  function SecuritySettingsAsWritten(a: Option<Account>): (s: Settings)
    ensures s.loginNotifications
  {
    match a
    case None => Settings(false, 30, true)
    case Some(u) => Settings(u.twoFactorEnabled, SessionTimeout(u), true)
  }

  /** The settings with the test the login response uses. */
  function SecuritySettings(a: Option<Account>): (s: Settings)
    ensures a.Some? ==> s.loginNotifications == NotifiesLogins(a.value)
  {
    match a
    case None => Settings(false, 30, true)
    case Some(u) => Settings(u.twoFactorEnabled, SessionTimeout(u), NotifiesLogins(u))
  }

  /** A user who turned notifications off is reported with them on; with the
      `!== false` test the report agrees with what login answers. */
  lemma SecuritySettingsIgnoreOptOut(u: Account)
    requires u.loginNotifications == Some(false) && !u.twoFactorEnabled
    ensures SecuritySettingsAsWritten(Some(u)).loginNotifications
    ensures !SecuritySettings(Some(u)).loginNotifications
    ensures SessionFor(u).loginNotifications == SecuritySettings(Some(u)).loginNotifications
    ensures SessionFor(u).sessionTimeout == SecuritySettings(Some(u)).sessionTimeout
  {
  }

  /** `updateSecuritySettings`: `findByIdAndUpdate` with `$set` of the two
      preferences.  `declared` says whether the schema declares them; it
      does not, and strict mode then removes both paths from the update. */
  function UpdateSecuritySettingsWith(st: Store, userId: string, sessionTimeout: int, loginNotifications: bool,
                                      declared: bool): (r: Response)
    ensures r.status == 200
    ensures r.store.invites == st.invites && r.store.resets == st.resets && r.store.log == st.log && r.store.io == st.io
    ensures !declared ==> r.store == st
    ensures declared && AccountIndex(st.accounts, userId).Some? ==> var i := AccountIndex(st.accounts, userId).value;
      r.store.accounts == st.accounts[i := st.accounts[i].(sessionTimeout := Some(sessionTimeout),
                                                           loginNotifications := Some(loginNotifications))]
  {
    if !declared then Response(st, 200)
    else match AccountIndex(st.accounts, userId)
      case None => Response(st, 200)
      case Some(i) =>
        var a := st.accounts[i].(sessionTimeout := Some(sessionTimeout), loginNotifications := Some(loginNotifications));
        Response(st.(accounts := st.accounts[i := a]), 200)
  }

  function UpdateSecuritySettings(st: Store, userId: string, sessionTimeout: int, loginNotifications: bool): Response {
    UpdateSecuritySettingsWith(st, userId, sessionTimeout, loginNotifications, false)
  }

  function UpdateSecuritySettingsIntended(st: Store, userId: string, sessionTimeout: int, loginNotifications: bool): Response {
    UpdateSecuritySettingsWith(st, userId, sessionTimeout, loginNotifications, true)
  }

  /** As written, saved preferences never reach the next login: a user
      created by the handlers keeps the defaults.  With the paths declared,
      the next session reports what was saved. */
  lemma SavedSettingsIgnored(st: Store, userId: string, sessionTimeout: int, loginNotifications: bool)
    requires AccountIndex(st.accounts, userId).Some?
    requires sessionTimeout != 0
    ensures var i := AccountIndex(st.accounts, userId).value;
      UpdateSecuritySettings(st, userId, sessionTimeout, loginNotifications).store.accounts[i] == st.accounts[i]
    ensures var i := AccountIndex(st.accounts, userId).value;
      var u := UpdateSecuritySettingsIntended(st, userId, sessionTimeout, loginNotifications).store.accounts[i];
      SessionTimeout(u) == sessionTimeout && NotifiesLogins(u) == loginNotifications
  {
  }

  // ---------------------------------------------------------------------
  // Two-factor secret generation
  // ---------------------------------------------------------------------

  /** `generate2FA` as written: the user's e-mail is read before the
      missing-user test, and the QR code comes from `QRCode`, a name the file
      never binds (it imports `qrcode`).  Every call throws before the save:
      500 and nothing stored. */
  function Generate2FAAsWritten(st: Store, userId: string): (r: Response)
    ensures r.status == 500 && r.store == st
  {
    Response(st, 500)
  }

  /** `generate2FA` with the missing-user test first and the imported QR
      encoder: an unknown user gives 404; otherwise the new secret is kept as
      the temporary secret. */
  function Generate2FA(st: Store, userId: string, secret: string): (r: Response)
    ensures r.status == 404 <==> AccountIndex(st.accounts, userId).None?
    ensures r.status in {200, 404}
    ensures r.status == 404 ==> r.store == st
    ensures r.status == 200 ==> var i := AccountIndex(st.accounts, userId).value;
      r.store.accounts == st.accounts[i := st.accounts[i].(tempSecret := Some(secret))] &&
      r.store.invites == st.invites && r.store.resets == st.resets && r.store.log == st.log && r.store.io == st.io
  {
    match AccountIndex(st.accounts, userId)
    case None => Response(st, 404)
    case Some(i) => Response(st.(accounts := st.accounts[i := st.accounts[i].(tempSecret := Some(secret))]), 200)
  }

  /** A known user never gets a temporary secret as written; with the fix
      the secret is stored. */
  lemma Generate2FANeverStores(st: Store, userId: string, secret: string)
    requires AccountIndex(st.accounts, userId).Some?
    ensures Generate2FAAsWritten(st, userId).status == 500
    ensures var i := AccountIndex(st.accounts, userId).value;
      Generate2FA(st, userId, secret).status == 200 &&
      Generate2FA(st, userId, secret).store.accounts[i].tempSecret == Some(secret)
  {
  }

  // ---------------------------------------------------------------------
  // Password recovery
  // ---------------------------------------------------------------------

  /** `forgotPassword`: the login identifier is required (400) and must
      match a user (404); a valid single-attempt record with a 24-hour
      expiry is stored under the new key.  Sending the e-mail is not part of
      the model. */
  function ForgotPassword(st: Store, usernameOrEmail: Option<string>, key: string, now: int): (r: Response)
    ensures r.status in {200, 400, 404}
    ensures r.status == 400 <==> !Truthy(usernameOrEmail)
    ensures r.status == 404 <==> Truthy(usernameOrEmail) && LoginIndex(st.accounts, usernameOrEmail.value).None?
    ensures r.status != 200 ==> r.store == st
    ensures r.status == 200 ==>
      r.store == st.(resets := st.resets + [ResetRecord(st.accounts[LoginIndex(st.accounts, usernameOrEmail.value).value].username,
                                                        1, 3, key, now + ResetLifetimeMs, Some(true), None)])
  {
    if !Truthy(usernameOrEmail) then Response(st, 400)
    else match LoginIndex(st.accounts, usernameOrEmail.value)
      case None => Response(st, 404)
      case Some(i) =>
        Response(st.(resets := st.resets + [ResetRecord(st.accounts[i].username, 1, 3, key,
                                                        now + ResetLifetimeMs, Some(true), None)]), 200)
  }

  /** What `verifyResetPassword` reports about a key, in the order the
      handler tests it. */
  datatype KeyCheck = UnknownKey | KeyUsed | KeyExpired | KeyValid

  function ResetIndex(resets: seq<ResetRecord>, key: string): (r: Option<nat>)
    ensures r.Some? ==> r.value < |resets| && resets[r.value].key == key
    ensures r.None? <==> forall j :: 0 <= j < |resets| ==> resets[j].key != key
  {
    FirstWhere(resets, (x: ResetRecord) => x.key == key)
  }

  /** The first record with the key decides: none, explicitly invalidated
      (a null `IsValid` is not `== false`), expired strictly before now,
      else valid. */
  function CheckKey(resets: seq<ResetRecord>, key: string, now: int): (c: KeyCheck)
    ensures c == UnknownKey <==> ResetIndex(resets, key).None?
    ensures c == KeyUsed <==> ResetIndex(resets, key).Some? && resets[ResetIndex(resets, key).value].isValid == Some(false)
    ensures c == KeyExpired <==> (ResetIndex(resets, key).Some? && resets[ResetIndex(resets, key).value].isValid != Some(false) &&
      resets[ResetIndex(resets, key).value].expiryTime < now)
  {
    match ResetIndex(resets, key)
    case None => UnknownKey
    case Some(k) =>
      if resets[k].isValid == Some(false) then KeyUsed
      else if resets[k].expiryTime < now then KeyExpired
      else KeyValid
  }

  /** The status the verification answers: 200 for a valid key, 201 with a
      message otherwise. */
  function VerifyResetPassword(resets: seq<ResetRecord>, key: string, now: int): (status: nat)
    ensures status == 200 <==> CheckKey(resets, key, now) == KeyValid
    ensures status in {200, 201}
  {
    if CheckKey(resets, key, now) == KeyValid then 200 else 201
  }

  /** The password rule: at least eight characters, none a line terminator
      (`.` does not match one), with a lower-case letter, an upper-case
      letter, a digit and one of the listed special characters. */
  const SpecialChars: string := "!@#$%^&*()_+-=[]{};':\"\\|,.<>/?"

  predicate IsSpecial(c: char) {
    c in SpecialChars
  }

  predicate IsLineTerminator(c: char) {
    c == '\n' || c == '\r' || c == '\U{2028}' || c == '\U{2029}'
  }

  /** Some character of `p` passes `test`: one lookahead of the pattern. */
  predicate Occurs(p: string, test: char -> bool) {
    exists i :: 0 <= i < |p| && test(p[i])
  }

  predicate StrongPassword(p: string) {
    |p| >= 8 && !Occurs(p, IsLineTerminator) &&
    Occurs(p, IsLower) && Occurs(p, IsUpper) && Occurs(p, IsDigit) && Occurs(p, IsSpecial)
  }

  /** Whether some character of `p` passes `test`, scanned left to right. */
  method AnyChar(p: string, test: char -> bool) returns (found: bool)
    ensures found <==> exists i :: 0 <= i < |p| && test(p[i])
  {
    found := false;
    var i := 0;
    while i < |p|
      invariant 0 <= i <= |p|
      invariant found <==> exists j :: 0 <= j < i && test(p[j])
    {
      found := found || test(p[i]);
      i := i + 1;
    }
  }

  /** The pattern's four lookaheads and its `.{8,}`, decided by scans. */
  method CheckStrong(p: string) returns (ok: bool)
    ensures ok <==> StrongPassword(p)
  {
    var lower := AnyChar(p, IsLower);
    var upper := AnyChar(p, IsUpper);
    var digit := AnyChar(p, IsDigit);
    var special := AnyChar(p, IsSpecial);
    var broken := AnyChar(p, IsLineTerminator);
    ok := |p| >= 8 && !broken && lower && upper && digit && special;
  }

  /** The record `resetPassword` uses: the first one with the key whose
      `IsValid` is true. */
  function ValidResetIndex(resets: seq<ResetRecord>, key: string): (r: Option<nat>)
    ensures r.Some? ==> r.value < |resets| && resets[r.value].key == key && resets[r.value].isValid == Some(true)
    ensures r.None? <==> forall j :: 0 <= j < |resets| ==> !(resets[j].key == key && resets[j].isValid == Some(true))
  {
    FirstWhere(resets, (x: ResetRecord) => x.key == key && x.isValid == Some(true))
  }

  /** `User.findOne({ username })`. */
  function UsernameIndex(accounts: seq<Account>, username: string): Option<nat> {
    AccountBy(accounts, ByUsername, username)
  }

  /** `resetPassword`, its tests in order: both inputs present, a valid
      record, not expired, its user exists (else 404), the new password
      differs from the old one and is strong.  Each failure leaves the store
      unchanged; success stores the password and invalidates the record. */
  function ResetPassword(st: Store, key: Option<string>, newPassword: Option<string>, now: int): (r: Response)
    ensures r.status in {200, 400, 404}
    ensures r.status != 200 ==> r.store == st
    ensures !Truthy(key) || !Truthy(newPassword) ==> r.status == 400
    ensures Truthy(key) && Truthy(newPassword) && ValidResetIndex(st.resets, key.value).None? ==> r.status == 400
    ensures r.status == 404 <==> (Truthy(key) && Truthy(newPassword) && ValidResetIndex(st.resets, key.value).Some? &&
      st.resets[ValidResetIndex(st.resets, key.value).value].expiryTime >= now &&
      UsernameIndex(st.accounts, st.resets[ValidResetIndex(st.resets, key.value).value].username).None?)
    ensures r.status == 200 <==> (Truthy(key) && Truthy(newPassword) && ValidResetIndex(st.resets, key.value).Some? &&
      var k := ValidResetIndex(st.resets, key.value).value;
      st.resets[k].expiryTime >= now &&
      UsernameIndex(st.accounts, st.resets[k].username).Some? &&
      st.accounts[UsernameIndex(st.accounts, st.resets[k].username).value].password != newPassword.value &&
      StrongPassword(newPassword.value))
    ensures r.status == 200 ==>
      var k := ValidResetIndex(st.resets, key.value).value;
      var i := UsernameIndex(st.accounts, st.resets[k].username).value;
      r.store == st.(accounts := st.accounts[i := st.accounts[i].(password := newPassword.value)],
                     resets := st.resets[k := st.resets[k].(isValid := Some(false), passwordChangedDate := Some(now))])
  {
    if !Truthy(key) || !Truthy(newPassword) then Response(st, 400)
    else match ValidResetIndex(st.resets, key.value)
      case None => Response(st, 400)
      case Some(k) =>
        var rec := st.resets[k];
        if rec.expiryTime < now then Response(st, 400)
        else match UsernameIndex(st.accounts, rec.username)
          case None => Response(st, 404)
          case Some(i) =>
            if st.accounts[i].password == newPassword.value then Response(st, 400)
            else if !StrongPassword(newPassword.value) then Response(st, 400)
            else
              Response(st.(accounts := st.accounts[i := st.accounts[i].(password := newPassword.value)],
                           resets := st.resets[k := rec.(isValid := Some(false), passwordChangedDate := Some(now))]), 200)
  }

  /** Reset keys are distinct (they are fresh UUIDs). */
  predicate KeysDistinct(resets: seq<ResetRecord>) {
    forall i, j :: 0 <= i < j < |resets| ==> resets[i].key != resets[j].key
  }

  /** A reset key works once: after a successful reset the same key is
      refused, and verification reports it as used. */
  lemma ResetSingleUse(st: Store, key: Option<string>, newPassword: Option<string>, again: Option<string>,
                       now: int, later: int)
    requires KeysDistinct(st.resets)
    requires ResetPassword(st, key, newPassword, now).status == 200
    ensures ResetPassword(ResetPassword(st, key, newPassword, now).store, key, again, later).status == 400
    ensures CheckKey(ResetPassword(st, key, newPassword, now).store.resets, key.value, later) == KeyUsed
  {
    var st' := ResetPassword(st, key, newPassword, now).store;
    var k := ValidResetIndex(st.resets, key.value).value;
    assert st'.resets[k].isValid == Some(false);
    forall j | 0 <= j < |st'.resets| && j != k
      ensures st'.resets[j].key != key.value
    {
      assert st'.resets[j] == st.resets[j];
    }
    assert ValidResetIndex(st'.resets, key.value).None?;
    assert ResetIndex(st'.resets, key.value) == Some(k);
  }

  /** The recovery round trip: a link requested for an existing user, used
      within its lifetime with a strong new password, resets that user's
      password. */
  lemma ForgotThenReset(st: Store, usernameOrEmail: string, key: string, newPassword: string, now: int, later: int)
    requires UniqueIdentities(st.accounts)
    requires usernameOrEmail != "" && key != ""
    requires LoginIndex(st.accounts, usernameOrEmail).Some?
    requires forall j :: 0 <= j < |st.resets| ==> st.resets[j].key != key
    requires now <= later <= now + ResetLifetimeMs
    requires StrongPassword(newPassword)
    requires st.accounts[LoginIndex(st.accounts, usernameOrEmail).value].password != newPassword
    ensures var i := LoginIndex(st.accounts, usernameOrEmail).value;
      var r := ResetPassword(ForgotPassword(st, Some(usernameOrEmail), key, now).store, Some(key), Some(newPassword), later);
      r.status == 200 && r.store.accounts[i].password == newPassword
  {
    var i := LoginIndex(st.accounts, usernameOrEmail).value;
    var st1 := ForgotPassword(st, Some(usernameOrEmail), key, now).store;
    var n := |st.resets|;
    assert st1.resets[n].key == key;
    assert ValidResetIndex(st1.resets, key) == Some(n);
    var u := UsernameIndex(st1.accounts, st.accounts[i].username);
    assert u.Some?;
    assert u.value == i;
  }

  /** The handlers as written: `ForgotPasswordHistory` is never imported, so
      the first use of it throws and the handler answers 500 — after the
      input and user tests in `forgotPassword` and `resetPassword`, at once
      in `verifyResetPassword`. */
  function ForgotPasswordAsWritten(st: Store, usernameOrEmail: Option<string>): (r: Response)
    ensures r.store == st
    ensures r.status == 400 <==> !Truthy(usernameOrEmail)
    ensures r.status in {400, 404, 500}
  {
    if !Truthy(usernameOrEmail) then Response(st, 400)
    else if LoginIndex(st.accounts, usernameOrEmail.value).None? then Response(st, 404)
    else Response(st, 500)
  }

  function VerifyResetPasswordAsWritten(key: string): (status: nat)
    ensures status == 500
  {
    500
  }

  function ResetPasswordAsWritten(st: Store, key: Option<string>, newPassword: Option<string>): (r: Response)
    ensures r.store == st
    ensures r.status == (if !Truthy(key) || !Truthy(newPassword) then 400 else 500)
  {
    if !Truthy(key) || !Truthy(newPassword) then Response(st, 400) else Response(st, 500)
  }

  /** As written no password can be recovered: for the inputs the recovery
      round trip accepts, every step of the written handlers fails. */
  lemma RecoveryUnavailable(st: Store, usernameOrEmail: string, key: string, newPassword: string)
    requires usernameOrEmail != "" && key != "" && newPassword != ""
    requires LoginIndex(st.accounts, usernameOrEmail).Some?
    ensures ForgotPasswordAsWritten(st, Some(usernameOrEmail)).status == 500
    ensures VerifyResetPasswordAsWritten(key) == 500
    ensures ResetPasswordAsWritten(st, Some(key), Some(newPassword)).status == 500
  {
  }

  // ---------------------------------------------------------------------
  // GitHub OAuth state
  // ---------------------------------------------------------------------

  /** `count` consecutive characters starting at `first`. */
  function CharRange(first: char, count: nat): (r: string)
    requires first as int + count <= 0xD800
    ensures |r| == count
  {
    seq(count, i requires 0 <= i < count => (first as int + i) as char)
  }

  lemma CharRangeMembers(first: char, count: nat, c: char)
    requires first as int + count <= 0xD800
    ensures c in CharRange(first, count) <==> first <= c && (c as int) < first as int + count
  {
    if first <= c && (c as int) < first as int + count {
      assert CharRange(first, count)[c as int - first as int] == c;
    }
  }

  /** The generator's `chars`: A to Z, a to z, 0 to 9, in that order. */
  const StateAlphabet: string := CharRange('A', 26) + CharRange('a', 26) + CharRange('0', 10)
  const StateLength: nat := 32

  /** The alphabet is exactly the 62 ASCII letters and digits. */
  lemma StateAlphabetIsAlphanumeric()
    ensures |StateAlphabet| == 62
    ensures forall c :: c in StateAlphabet <==> IsLetter(c) || IsDigit(c)
  {
    forall c
      ensures c in StateAlphabet <==> IsLetter(c) || IsDigit(c)
    {
      CharRangeMembers('A', 26, c);
      CharRangeMembers('a', 26, c);
      CharRangeMembers('0', 10, c);
    }
  }

  /** `chars.charAt(Math.floor(Math.random() * chars.length))` for one draw
      in [0, 1). */
  function Pick(d: real): (k: nat)
    requires 0.0 <= d < 1.0
    ensures k < |StateAlphabet|
  {
    (d * 62.0).Floor
  }

  /** `generateRandomString`: one character per draw. */
  function RandomString(draws: seq<real>): (r: string)
    requires forall i :: 0 <= i < |draws| ==> 0.0 <= draws[i] < 1.0
    ensures |r| == |draws|
    ensures forall i :: 0 <= i < |r| ==> r[i] in StateAlphabet
  {
    seq(|draws|, i requires 0 <= i < |draws| => StateAlphabet[Pick(draws[i])])
  }

  /** `initiateGitHubAuth`: a user id is required (400); the state is 32
      characters drawn from the alphabet. */
  function GitHubState(userId: Option<string>, draws: seq<real>): (r: Reply<string>)
    requires |draws| == StateLength
    requires forall i :: 0 <= i < |draws| ==> 0.0 <= draws[i] < 1.0
    ensures r.Err? <==> !Truthy(userId)
    ensures r.Err? ==> r.code == 400
    ensures r.Ok? ==> r.value == RandomString(draws)
  {
    if !Truthy(userId) then Err(400) else Ok(RandomString(draws))
  }

  /** Every string over the alphabet is the outcome of some draws, so every
      32-character alphanumeric state can occur. */
  lemma {:induction false} EveryStringReachable(s: string) returns (draws: seq<real>)
    requires forall i :: 0 <= i < |s| ==> s[i] in StateAlphabet
    ensures |draws| == |s|
    ensures forall i :: 0 <= i < |draws| ==> 0.0 <= draws[i] < 1.0
    ensures RandomString(draws) == s
  {
    if s == [] {
      draws := [];
    } else {
      var rest := EveryStringReachable(s[1..]);
      var k :| 0 <= k < |StateAlphabet| && StateAlphabet[k] == s[0];
      var d := k as real / 62.0;
      assert d * 62.0 == k as real;
      draws := [d] + rest;
      assert forall i :: 1 <= i < |draws| ==> draws[i] == rest[i - 1];
      var r := RandomString(draws);
      assert r[0] == s[0];
      assert forall i :: 1 <= i < |r| ==> r[i] == RandomString(rest)[i - 1] == s[i];
    }
  }
}
