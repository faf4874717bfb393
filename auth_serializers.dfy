/** The account payloads: login, registration, the two e-mail requests
    (resend verification, password reset), password change, profile update
    and the new-password form. Each `validate` is a pure decision over the
    user table; the `save` steps that write go through `UserDb`. */
module AuthSerializers {
  import opened Wrappers
  import opened Text
  import opened QuizModels
  import opened AuthModels

  datatype ErrorKind = Required | Blank | TooShort | TooLong | NullCharacter | Taken | WrongPassword | UnknownEmail
  /** One entry of the 400 error body, keyed by field name. */
  datatype FieldError = FieldError(field: string, kind: ErrorKind)

  const PasswordMinLength: nat := 6
  const LoginUsernameMinLength: nat := 3
  const UsernameMaxLength: nat := 150
  const EmailMaxLength: nat := 254
  const NameMaxLength: nat := 150
  const BioMaxLength: nat := 200

  /** A `CharField`: the value is trimmed; a blank value is refused unless
      blanks are allowed (and then no validator runs); otherwise the length
      bounds and the prohibition of null characters apply. */
  function CharErrors(field: string, value: Option<string>, required: bool, allowBlank: bool,
                      minLength: nat, maxLength: Option<nat>): (r: set<FieldError>)
    ensures value.None? ==> (r == {} <==> !required)
    ensures value.Some? && Strip(value.value) == "" ==> (r == {} <==> allowBlank)
    ensures value.Some? && Strip(value.value) != "" ==>
              (r == {} <==> minLength <= |Strip(value.value)| &&
                            (maxLength.None? || |Strip(value.value)| <= maxLength.value) &&
                            '\0' !in Strip(value.value))
    ensures FieldError(field, NullCharacter) in r <==> value.Some? && '\0' in Strip(value.value)
    ensures forall e :: e in r ==> e.field == field
  {
    match value
    case None => if required then {FieldError(field, Required)} else {}
    case Some(s) =>
      var t := Strip(s);
      if t == "" then (if allowBlank then {} else {FieldError(field, Blank)})
      else (if |t| < minLength then {FieldError(field, TooShort)} else {})
           + (if maxLength.Some? && |t| > maxLength.value then {FieldError(field, TooLong)} else {})
           + (if '\0' in t then {FieldError(field, NullCharacter)} else {})
  }

  /** The trimmed value of a field that passed its checks. */
  function Trimmed(value: Option<string>): string {
    if value.Some? then Strip(value.value) else ""
  }

  // ===== Login =================================================================

  /** `django.contrib.auth.authenticate`: the row with that username, if its
      password matches and it is active. */
  function Authenticate(us: seq<User>, username: string, password: string): (r: Option<nat>)
    ensures r.Some? ==> r.value < |us| && us[r.value].username == username &&
                        us[r.value].password == password && us[r.value].isActive
    ensures UniqueUsernames(us) && r.None? ==>
              forall i :: 0 <= i < |us| && us[i].username == username ==>
                us[i].password != password || !us[i].isActive
  {
    match UsernameIndex(us, username)
    case None => None
    case Some(i) => if us[i].password == password && us[i].isActive then Some(i) else None
  }

  function LoginFieldErrors(username: Option<string>, password: Option<string>): set<FieldError> {
    CharErrors("username", username, true, false, LoginUsernameMinLength, None)
    + CharErrors("password", password, true, false, PasswordMinLength, None)
  }

  datatype LoginOutcome = LoggedIn(userId: UserId) | LoginRejected(errors: set<FieldError>)
                        | InvalidCredentials | VerificationRequired

  /** `LoginSerializer.validate`: credentials are checked before e-mail
      verification. */
  function Login(us: seq<User>, username: Option<string>, password: Option<string>): (r: LoginOutcome)
    ensures r.LoginRejected? <==> LoginFieldErrors(username, password) != {}
    ensures LoginFieldErrors(username, password) != {} ==> r == LoginRejected(LoginFieldErrors(username, password))
    ensures r == InvalidCredentials <==>
              LoginFieldErrors(username, password) == {} && Authenticate(us, Trimmed(username), Trimmed(password)).None?
    ensures r == VerificationRequired <==>
              && LoginFieldErrors(username, password) == {}
              && var a := Authenticate(us, Trimmed(username), Trimmed(password));
                 a.Some? && !us[a.value].isVerified
    ensures r.LoggedIn? ==>
              exists i :: 0 <= i < |us| && us[i].id == r.userId && us[i].isVerified && us[i].isActive &&
                          us[i].username == Trimmed(username) && us[i].password == Trimmed(password)
    ensures LoginFieldErrors(username, password) == {} ==>
              var a := Authenticate(us, Trimmed(username), Trimmed(password));
              a.Some? && us[a.value].isVerified ==> r == LoggedIn(us[a.value].id)
  {
    var errs := LoginFieldErrors(username, password);
    if errs != {} then LoginRejected(errs)
    else match Authenticate(us, Trimmed(username), Trimmed(password))
      case None => InvalidCredentials
      case Some(i) => if !us[i].isVerified then VerificationRequired else LoggedIn(us[i].id)
  }

  /** A wrong password is reported as bad credentials whether or not the
      account is verified. */
  lemma WrongPasswordBeforeVerification(us: seq<User>, i: nat, username: string, password: string)
    requires UniqueUsernames(us) && i < |us|
    requires us[i].username == Strip(username) && us[i].password != Strip(password)
    requires LoginFieldErrors(Some(username), Some(password)) == {}
    ensures Login(us, Some(username), Some(password)) == InvalidCredentials
  {
  }

  // ===== Register ==============================================================

  predicate UsernameTaken(us: seq<User>, name: string) {
    exists k | 0 <= k < |us| :: us[k].username == name
  }

  predicate EmailTaken(us: seq<User>, email: string) {
    exists k | 0 <= k < |us| :: us[k].email == email
  }

  /** The unique validator of a model field: it runs on a non-blank value
      and compares it with the stored values as given. */
  function UniqueError(field: string, value: Option<string>, taken: bool): set<FieldError> {
    if value.Some? && Strip(value.value) != "" && taken then {FieldError(field, Taken)} else {}
  }

  function RegisterFieldErrors(us: seq<User>, username: Option<string>, email: Option<string>,
                               password: Option<string>, password2: Option<string>): set<FieldError>
  {
    CharErrors("username", username, true, false, 0, Some(UsernameMaxLength))
    + UniqueError("username", username, UsernameTaken(us, Trimmed(username)))
    + CharErrors("email", email, true, false, 0, Some(EmailMaxLength))
    + UniqueError("email", email, EmailTaken(us, Trimmed(email)))
    + CharErrors("password", password, true, false, PasswordMinLength, None)
    + CharErrors("password2", password2, true, false, PasswordMinLength, None)
  }

  datatype RegisterCheck = RegisterOk | RegisterInvalid(errors: set<FieldError>) | PasswordMismatch

  /** `RegisterSerializer` validation: field checks, then the password match. */
  function ValidateRegister(us: seq<User>, username: Option<string>, email: Option<string>,
                            password: Option<string>, password2: Option<string>): (r: RegisterCheck)
    ensures r.RegisterInvalid? <==> RegisterFieldErrors(us, username, email, password, password2) != {}
    ensures r.RegisterInvalid? ==> r.errors == RegisterFieldErrors(us, username, email, password, password2)
    ensures r == PasswordMismatch <==>
              RegisterFieldErrors(us, username, email, password, password2) == {} && Trimmed(password) != Trimmed(password2)
    ensures r == RegisterOk <==>
              RegisterFieldErrors(us, username, email, password, password2) == {} && Trimmed(password) == Trimmed(password2)
    ensures r == RegisterOk ==>
              && username.Some? && email.Some? && password.Some? && password2.Some?
              && !UsernameTaken(us, Trimmed(username)) && !EmailTaken(us, Trimmed(email))
              && Trimmed(password) == Trimmed(password2) && |Trimmed(password)| >= PasswordMinLength
  {
    var errs := RegisterFieldErrors(us, username, email, password, password2);
    if errs != {} then
      RegisterInvalid(errs)
    else if Trimmed(password) != Trimmed(password2) then
      PasswordMismatch
    else
      assert FieldError("username", Required) !in errs && FieldError("email", Required) !in errs;
      assert FieldError("password", Required) !in errs && FieldError("password2", Required) !in errs;
      assert CharErrors("password", password, true, false, PasswordMinLength, None) == {};
      assert UniqueError("username", username, UsernameTaken(us, Trimmed(username))) == {};
      assert UniqueError("email", email, EmailTaken(us, Trimmed(email))) == {};
      RegisterOk
  }

  datatype RegisterOutcome = Registered(userId: UserId) | RegisterRejected(errors: set<FieldError>)
                           | RegisterPasswordMismatch | RegisterIntegrityError

  /** `RegisterView.post`: validate, then `create` drops `password2` and
      calls `create_user`. The uniqueness checks compare the username and
      e-mail as typed, while `create_user` stores both normalised, so a
      value that only clashes after normalisation reaches the database
      constraint. */
  method Register(db: UserDb, username: Option<string>, email: Option<string>,
                  password: Option<string>, password2: Option<string>,
                  normalizeUsername: string -> string) returns (r: RegisterOutcome)
    requires db.Valid()
    modifies db
    ensures db.Valid()
    ensures var check := ValidateRegister(old(db.users), username, email, password, password2);
            && (check.RegisterInvalid? <==> r.RegisterRejected?)
            && (check.RegisterInvalid? ==> r.errors == check.errors)
            && (check == PasswordMismatch <==> r == RegisterPasswordMismatch)
    ensures !r.Registered? ==> db.users == old(db.users)
    ensures r.Registered? ==>
              db.users == old(db.users) + [NewUser(r.userId, Trimmed(username), Trimmed(email), Trimmed(password), normalizeUsername)]
    ensures r == RegisterIntegrityError <==>
              && ValidateRegister(old(db.users), username, email, password, password2) == RegisterOk
              && (|| UsernameTaken(old(db.users), normalizeUsername(Trimmed(username)))
                  || EmailTaken(old(db.users), NormalizeEmail(Trimmed(email))))
  {
    var check := ValidateRegister(db.users, username, email, password, password2);
    match check
    case RegisterInvalid(errs) => r := RegisterRejected(errs);
    case PasswordMismatch => r := RegisterPasswordMismatch;
    case RegisterOk =>
      var created := db.CreateUser(Trimmed(username), Trimmed(email), Trimmed(password), normalizeUsername);
      if created.Ok? {
        r := Registered(created.value);
      } else {
        r := RegisterIntegrityError;
      }
  }

  // ===== Resend verification / password reset request ===========================

  /** The bare `EmailField` of the two e-mail requests: present, not blank,
      free of null characters, and held by some user; it has no length cap
      of its own. */
  function EmailErrors(us: seq<User>, email: Option<string>): (r: set<FieldError>)
    ensures r == {} <==>
              && email.Some? && Strip(email.value) != "" && '\0' !in Strip(email.value)
              && EmailIndex(us, Trimmed(email)).Some?
    ensures email.None? ==> r == {FieldError("email", Required)}
    ensures email.Some? && Strip(email.value) == "" ==> r == {FieldError("email", Blank)}
    ensures email.Some? && Strip(email.value) != "" && '\0' in Strip(email.value) ==>
              r == {FieldError("email", NullCharacter)}
    ensures && email.Some? && Strip(email.value) != "" && '\0' !in Strip(email.value)
            && EmailIndex(us, Trimmed(email)).None?
            ==> r == {FieldError("email", UnknownEmail)}
  {
    var errs := CharErrors("email", email, true, false, 0, None);
    if errs != {} then errs
    else if EmailIndex(us, Trimmed(email)).None? then {FieldError("email", UnknownEmail)}
    else {}
  }

  /** `ResendEmailSerialiazer`: an unknown address is refused; `save` sends
      an activation mail (the `true` result) only to an unverified user and
      changes no row. */
  function ResendVerification(us: seq<User>, email: Option<string>): (r: Result<bool, set<FieldError>>)
    ensures r.Err? <==> EmailErrors(us, email) != {}
    ensures r.Ok? ==> exists i :: 0 <= i < |us| && us[i].email == Trimmed(email)
    ensures r.Ok? ==> (r.value <==> !us[EmailIndex(us, Trimmed(email)).value].isVerified)
  {
    var errs := EmailErrors(us, email);
    if errs != {} then Err(errs)
    else Ok(!us[EmailIndex(us, Trimmed(email)).value].isVerified)
  }

  /** `EmailPasswordResetSerialiazer`: an unknown address is refused; `save`
      mails a reset link only to a verified user and changes no row. */
  function RequestPasswordReset(us: seq<User>, email: Option<string>): (r: Result<bool, set<FieldError>>)
    ensures r.Err? <==> EmailErrors(us, email) != {}
    ensures r.Ok? ==> exists i :: 0 <= i < |us| && us[i].email == Trimmed(email)
    ensures r.Ok? ==> (r.value <==> us[EmailIndex(us, Trimmed(email)).value].isVerified)
  {
    var errs := EmailErrors(us, email);
    if errs != {} then Err(errs)
    else Ok(us[EmailIndex(us, Trimmed(email)).value].isVerified)
  }

  /** For a known address exactly one of the two mails is sent. */
  lemma ResendAndResetAreExclusive(us: seq<User>, email: Option<string>)
    requires EmailErrors(us, email) == {}
    ensures ResendVerification(us, email).value != RequestPasswordReset(us, email).value
  {
  }

  // ===== Password change =======================================================

  /** `check_password`. */
  predicate CheckPassword(u: User, password: string) {
    u.password == password
  }

  function ChangePasswordErrors(u: User, oldPassword: Option<string>, newPassword: Option<string>): (r: set<FieldError>)
    ensures FieldError("old_password", WrongPassword) in r <==>
              CharErrors("old_password", oldPassword, true, false, PasswordMinLength, None) == {} &&
              !CheckPassword(u, Trimmed(oldPassword))
    ensures r == {} ==> oldPassword.Some? && CheckPassword(u, Trimmed(oldPassword)) &&
                        newPassword.Some? && |Trimmed(newPassword)| >= PasswordMinLength
    ensures r == {} <==>
              && CharErrors("old_password", oldPassword, true, false, PasswordMinLength, None) == {}
              && CheckPassword(u, Trimmed(oldPassword))
              && CharErrors("new_password", newPassword, true, false, PasswordMinLength, None) == {}
  {
    var oldErrs := CharErrors("old_password", oldPassword, true, false, PasswordMinLength, None);
    (if oldErrs != {} then oldErrs
     else if !CheckPassword(u, Trimmed(oldPassword)) then {FieldError("old_password", WrongPassword)}
     else {})
    + CharErrors("new_password", newPassword, true, false, PasswordMinLength, None)
  }

  /** `ChangePasswordSerializer` on the signed-in user `id`: a wrong old
      password leaves the row unchanged; on success only the password
      changes, the new one checks and the old one checks only if equal to it. */
  method ChangePassword(db: UserDb, id: UserId, oldPassword: Option<string>, newPassword: Option<string>)
    returns (errors: set<FieldError>)
    requires db.Valid() && id in UserIds(db.users)
    modifies db`users
    ensures db.Valid()
    ensures var i := UserIndex(old(db.users), id).value;
            errors == ChangePasswordErrors(old(db.users)[i], oldPassword, newPassword)
    ensures errors != {} ==> db.users == old(db.users)
    ensures errors == {} ==>
              var i := UserIndex(old(db.users), id).value;
              && db.users == old(db.users)[i := old(db.users)[i].(password := Trimmed(newPassword))]
              && CheckPassword(db.users[i], Trimmed(newPassword))
              && (CheckPassword(db.users[i], Trimmed(oldPassword)) <==> Trimmed(oldPassword) == Trimmed(newPassword))
  {
    var i := UserIndex(db.users, id).value;
    errors := ChangePasswordErrors(db.users[i], oldPassword, newPassword);
    if errors == {} {
      var u := db.users[i].(password := Trimmed(newPassword));
      SameKeysNoClash(db.users, db.nextId, i, u);
      var err := db.Save(u);
    }
  }

  // ===== Profile update ========================================================

  /** The writable profile keys of `UserSerializer`; `None` is an absent key. */
  datatype ProfilePayload = ProfilePayload(username: Option<string>, firstName: Option<string>,
                                           lastName: Option<string>, bio: Option<string>)

  /** Another user than `id` holds `name`. */
  predicate UsernameTakenByOther(us: seq<User>, id: UserId, name: string) {
    exists k | 0 <= k < |us| :: us[k].id != id && us[k].username == name
  }

  /** The checks of a partial `UserSerializer`: the username must stay
      unique among the other users; the other keys may be blank. */
  function ProfileErrors(us: seq<User>, id: UserId, p: ProfilePayload): set<FieldError> {
    CharErrors("username", p.username, false, false, 0, Some(UsernameMaxLength))
    + UniqueError("username", p.username, UsernameTakenByOther(us, id, Trimmed(p.username)))
    + CharErrors("first_name", p.firstName, false, true, 0, Some(NameMaxLength))
    + CharErrors("last_name", p.lastName, false, true, 0, Some(NameMaxLength))
    + CharErrors("bio", p.bio, false, true, 0, Some(BioMaxLength))
  }

  /** The `setattr` loop of `UserSerializer.update`: only supplied keys change. */
  function PatchedUser(u: User, p: ProfilePayload): (r: User)
    ensures r.id == u.id && r.email == u.email && r.password == u.password
    ensures r.isVerified == u.isVerified && r.isStaff == u.isStaff && r.isActive == u.isActive
    ensures r.username == (if p.username.Some? then Trimmed(p.username) else u.username)
    ensures r.firstName == (if p.firstName.Some? then Trimmed(p.firstName) else u.firstName)
    ensures r.lastName == (if p.lastName.Some? then Trimmed(p.lastName) else u.lastName)
    ensures r.bio == (if p.bio.Some? then Trimmed(p.bio) else u.bio)
    ensures p == ProfilePayload(None, None, None, None) ==> r == u
  {
    u.(username := if p.username.Some? then Trimmed(p.username) else u.username,
       firstName := if p.firstName.Some? then Trimmed(p.firstName) else u.firstName,
       lastName := if p.lastName.Some? then Trimmed(p.lastName) else u.lastName,
       bio := if p.bio.Some? then Trimmed(p.bio) else u.bio)
  }

  /** `UserView.patch` on the signed-in user `id`. */
  method UpdateProfile(db: UserDb, id: UserId, p: ProfilePayload) returns (errors: set<FieldError>)
    requires db.Valid() && id in UserIds(db.users)
    modifies db`users
    ensures db.Valid()
    ensures errors == ProfileErrors(old(db.users), id, p)
    ensures errors != {} ==> db.users == old(db.users)
    ensures errors == {} ==>
              var i := UserIndex(old(db.users), id).value;
              db.users == old(db.users)[i := PatchedUser(old(db.users)[i], p)]
  {
    errors := ProfileErrors(db.users, id, p);
    if errors == {} {
      var i := UserIndex(db.users, id).value;
      var u := PatchedUser(db.users[i], p);
      if p.username.Some? {
        assert UniqueError("username", p.username, UsernameTakenByOther(db.users, id, Trimmed(p.username))) == {};
        assert CharErrors("username", p.username, false, false, 0, Some(UsernameMaxLength)) == {};
      }
      assert !ClashesWith(db.users, id, u.username, u.email);
      var err := db.Save(u);
    }
  }

  // ===== New password ==========================================================

  /** `int(smart_str(urlsafe_base64_decode(uidb64)))`; `None` is the
      ValueError of either step. */
  function DecodeUid(uidb64: string, b64decode: string -> Option<string>): Option<int> {
    match b64decode(uidb64)
    case None => None
    case Some(text) => ParseInt(text)
  }

  /** A link built from `str(user.id)` decodes back to that id. */
  lemma DecodeUidOfEncodedId(uidb64: string, b64decode: string -> Option<string>, id: int)
    requires b64decode(uidb64) == Some(Show(id))
    ensures DecodeUid(uidb64, b64decode) == Some(id)
  {
    ParseIntShow(id);
  }

  function NewPasswordFieldErrors(p1: Option<string>, p2: Option<string>, token: Option<string>, uidb64: Option<string>)
    : set<FieldError>
  {
    CharErrors("new_password1", p1, true, false, PasswordMinLength, None)
    + CharErrors("new_password2", p2, true, false, PasswordMinLength, None)
    + CharErrors("token", token, true, false, 0, None)
    + CharErrors("uidb64", uidb64, true, false, 0, None)
  }

  datatype NewPasswordOutcome = NewPasswordOk(index: nat) | NewPasswordRejected(errors: set<FieldError>)
                              | NewPasswordMismatch | TokenInvalid | UserMissing

  /** `NewPasswordSerializer.validate`; the first failure wins: mismatch,
      undecodable uid, unknown user, bad token. */
  function ValidateNewPassword(us: seq<User>, p1: Option<string>, p2: Option<string>,
                               token: Option<string>, uidb64: Option<string>,
                               b64decode: string -> Option<string>,
                               checkToken: (User, string) -> bool): (r: NewPasswordOutcome)
    ensures NewPasswordFieldErrors(p1, p2, token, uidb64) != {} ==>
              r == NewPasswordRejected(NewPasswordFieldErrors(p1, p2, token, uidb64))
    ensures r == NewPasswordMismatch <==>
              NewPasswordFieldErrors(p1, p2, token, uidb64) == {} && Trimmed(p1) != Trimmed(p2)
    ensures r == UserMissing <==>
              && NewPasswordFieldErrors(p1, p2, token, uidb64) == {} && Trimmed(p1) == Trimmed(p2)
              && var id := DecodeUid(Trimmed(uidb64), b64decode);
                 id.Some? && forall j :: 0 <= j < |us| ==> us[j].id != id.value
    ensures r == TokenInvalid <==>
              && NewPasswordFieldErrors(p1, p2, token, uidb64) == {} && Trimmed(p1) == Trimmed(p2)
              && var id := DecodeUid(Trimmed(uidb64), b64decode);
                 || id.None?
                 || (LookupId(us, id.value).Some? && !checkToken(us[LookupId(us, id.value).value], Trimmed(token)))
    ensures NewPasswordFieldErrors(p1, p2, token, uidb64) == {} && Trimmed(p1) == Trimmed(p2) ==>
              var id := DecodeUid(Trimmed(uidb64), b64decode);
              && id.Some? && LookupId(us, id.value).Some?
              && checkToken(us[LookupId(us, id.value).value], Trimmed(token))
              ==> r == NewPasswordOk(LookupId(us, id.value).value)
    ensures r.NewPasswordOk? ==>
              && r.index < |us| && Trimmed(p1) == Trimmed(p2) && |Trimmed(p1)| >= PasswordMinLength
              && DecodeUid(Trimmed(uidb64), b64decode) == Some(us[r.index].id as int)
              && checkToken(us[r.index], Trimmed(token))
  {
    var errs := NewPasswordFieldErrors(p1, p2, token, uidb64);
    if errs != {} then NewPasswordRejected(errs)
    else if Trimmed(p1) != Trimmed(p2) then NewPasswordMismatch
    else match DecodeUid(Trimmed(uidb64), b64decode)
      case None => TokenInvalid
      case Some(id) =>
        match LookupId(us, id)
        case None => UserMissing
        case Some(i) =>
          if !checkToken(us[i], Trimmed(token)) then TokenInvalid
          else
            assert CharErrors("new_password1", p1, true, false, PasswordMinLength, None) == {};
            NewPasswordOk(i)
  }

  /** `SetNewPasswordView.post`: after validation, `save` sets the resolved
      user's password to `new_password1` and changes nothing else. */
  method SetNewPassword(db: UserDb, p1: Option<string>, p2: Option<string>,
                        token: Option<string>, uidb64: Option<string>,
                        b64decode: string -> Option<string>,
                        checkToken: (User, string) -> bool) returns (r: NewPasswordOutcome)
    requires db.Valid()
    modifies db`users
    ensures db.Valid()
    ensures r == ValidateNewPassword(old(db.users), p1, p2, token, uidb64, b64decode, checkToken)
    ensures !r.NewPasswordOk? ==> db.users == old(db.users)
    ensures r.NewPasswordOk? ==>
              db.users == old(db.users)[r.index := old(db.users)[r.index].(password := Trimmed(p1))]
  {
    r := ValidateNewPassword(db.users, p1, p2, token, uidb64, b64decode, checkToken);
    if r.NewPasswordOk? {
      var u := db.users[r.index].(password := Trimmed(p1));
      SameKeysNoClash(db.users, db.nextId, r.index, u);
      assert UserIds(db.users)[r.index] == u.id;
      var err := db.Save(u);
      assert UserIndex(old(db.users), u.id).value == r.index;
    }
  }
}
