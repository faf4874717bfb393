/** The account endpoints that decide on stored users directly: the staff
    toggle, e-mail verification after the token is decoded, and the
    password-reset link check. */
module AuthViews {
  import opened Wrappers
  import opened QuizModels
  import opened AuthModels
  import opened Text
  import opened AuthSerializers

  /** What an endpoint answers: an HTTP code with the body's `status`, an
      `AuthenticationFailed` with its message, or an unhandled exception. */
  datatype Outcome = Reply(code: int, status: string) | AuthenticationFailed(message: string) | ServerError

  const NotFoundReply: Outcome := Reply(404, "error")

  /** The table with user `i`'s staff flag set to `flag`. */
  function WithStaff(us: seq<User>, i: nat, flag: bool): (r: seq<User>)
    requires i < |us|
    ensures |r| == |us| && r[i].isStaff == flag && r[i].id == us[i].id
    ensures forall j :: 0 <= j < |us| && j != i ==> r[j] == us[j]
  {
    us[i := us[i].(isStaff := flag)]
  }

  /** Granting then revoking staff leaves a non-staff user as it was. */
  lemma GrantThenRevoke(us: seq<User>, i: nat)
    requires i < |us| && !us[i].isStaff
    ensures WithStaff(WithStaff(us, i, true), i, false) == us
  {
  }

  /** `UserStaff.post`: a staff user is a reported no-op (400, "failed");
      otherwise the flag is set and saved (200). */
  method UserStaffPost(db: UserDb, id: UserId) returns (r: Outcome)
    requires db.Valid()
    modifies db`users
    ensures db.Valid()
    ensures id !in UserIds(old(db.users)) ==> r == NotFoundReply && db.users == old(db.users)
    ensures id in UserIds(old(db.users)) ==>
              var i := UserIndex(old(db.users), id).value;
              if old(db.users)[i].isStaff then r == Reply(400, "failed") && db.users == old(db.users)
              else r == Reply(200, "success") && db.users == WithStaff(old(db.users), i, true)
  {
    var found := UserIndex(db.users, id);
    if found.None? {
      return NotFoundReply;
    }
    var i := found.value;
    if db.users[i].isStaff {
      return Reply(400, "failed");
    }
    var u := db.users[i].(isStaff := true);
    SameKeysNoClash(db.users, db.nextId, i, u);
    var err := db.Save(u);
    r := Reply(200, "success");
  }

  /** `UserStaff.delete`: a staff user loses the flag (200); a non-staff
      user is a no-op answered with 400 and status "success". */
  method UserStaffDelete(db: UserDb, id: UserId) returns (r: Outcome)
    requires db.Valid()
    modifies db`users
    ensures db.Valid()
    ensures id !in UserIds(old(db.users)) ==> r == NotFoundReply && db.users == old(db.users)
    ensures id in UserIds(old(db.users)) ==>
              var i := UserIndex(old(db.users), id).value;
              if old(db.users)[i].isStaff then r == Reply(200, "success") && db.users == WithStaff(old(db.users), i, false)
              else r == Reply(400, "success") && db.users == old(db.users)
  {
    var found := UserIndex(db.users, id);
    if found.None? {
      return NotFoundReply;
    }
    var i := found.value;
    if !db.users[i].isStaff {
      return Reply(400, "success");
    }
    var u := db.users[i].(isStaff := false);
    SameKeysNoClash(db.users, db.nextId, i, u);
    var err := db.Save(u);
    r := Reply(200, "success");
  }

  /** The result of `jwt.decode` on the token: the `user_id` claim when it
      decodes, or the exception it raised. */
  datatype JwtOutcome = Decoded(userId: Option<int>) | DecodeFailed | Expired | OtherInvalid

  /** `EmailVerificationView.get`. A token that fails to decode or names no
      user, and an expired token, raise AuthenticationFailed with different
      messages; other token errors are not caught. An unverified user is
      verified (200); an already verified one gets 400 "failed". */
  method EmailVerificationGet(db: UserDb, token: JwtOutcome) returns (r: Outcome)
    requires db.Valid()
    modifies db`users
    ensures db.Valid()
    ensures token == Expired ==> r == AuthenticationFailed("Your Token has expired!")
    ensures token == OtherInvalid ==> r == ServerError
    ensures token == DecodeFailed || token == Decoded(None) ==> r == AuthenticationFailed("Your token is invalid")
    ensures token.Decoded? && token.userId.Some? && LookupId(old(db.users), token.userId.value).None? ==>
              r == AuthenticationFailed("Your token is invalid")
    ensures !r.Reply? || r.code != 200 ==> db.users == old(db.users)
    ensures token.Decoded? && token.userId.Some? && LookupId(old(db.users), token.userId.value).Some? ==>
              var i := LookupId(old(db.users), token.userId.value).value;
              if old(db.users)[i].isVerified then r == Reply(400, "failed")
              else r == Reply(200, "success") && db.users == old(db.users)[i := old(db.users)[i].(isVerified := true)]
  {
    match token
    case Expired => return AuthenticationFailed("Your Token has expired!");
    case OtherInvalid => return ServerError;
    case DecodeFailed => return AuthenticationFailed("Your token is invalid");
    case Decoded(claim) =>
      if claim.None? {
        return AuthenticationFailed("Your token is invalid");
      }
      var found := LookupId(db.users, claim.value);
      if found.None? {
        return AuthenticationFailed("Your token is invalid");
      }
      var i := found.value;
      if db.users[i].isVerified {
        return Reply(400, "failed");
      }
      var u := db.users[i].(isVerified := true);
      SameKeysNoClash(db.users, db.nextId, i, u);
      assert UserIds(db.users)[i] == u.id;
      var err := db.Save(u);
      assert UserIndex(old(db.users), u.id).value == i;
      r := Reply(200, "success");
  }

  /** `VerifyPasswordTokenView.get`: the code, and the echoed `(token, uidb64)` on success. */
  datatype TokenReply = TokenReply(code: int, echo: Option<(string, string)>)

  function VerifyPasswordToken(us: seq<User>, uidb64: string, token: string,
                               b64decode: string -> Option<string>,
                               checkToken: (User, string) -> bool): (r: TokenReply)
    ensures r.code == 200 || r.code == 401 || r.code == 404
    ensures r.code == 200 <==> r.echo == Some((token, uidb64))
    ensures r.code != 200 ==> r.echo.None?
    ensures DecodeUid(uidb64, b64decode).None? ==> r.code == 401
    ensures r.code == 404 <==>
              DecodeUid(uidb64, b64decode).Some? && LookupId(us, DecodeUid(uidb64, b64decode).value).None?
    ensures r.code == 200 ==>
              exists i :: 0 <= i < |us| && DecodeUid(uidb64, b64decode) == Some(us[i].id as int) && checkToken(us[i], token)
    ensures r.code == 200 <==>
              var id := DecodeUid(uidb64, b64decode);
              && id.Some? && LookupId(us, id.value).Some?
              && checkToken(us[LookupId(us, id.value).value], token)
  {
    match DecodeUid(uidb64, b64decode)
    case None => TokenReply(401, None)
    case Some(id) =>
      match LookupId(us, id)
      case None => TokenReply(404, None)
      case Some(i) => if !checkToken(us[i], token) then TokenReply(401, None) else TokenReply(200, Some((token, uidb64)))
  }

  /** The reset form with matching passwords is accepted exactly when the
      link check on the same uid and token answers 200. */
  lemma LinkCheckAgreesWithReset(us: seq<User>, p: string, token: string, uidb64: string,
                                 b64decode: string -> Option<string>, checkToken: (User, string) -> bool)
    requires NewPasswordFieldErrors(Some(p), Some(p), Some(token), Some(uidb64)) == {}
    ensures ValidateNewPassword(us, Some(p), Some(p), Some(token), Some(uidb64), b64decode, checkToken).NewPasswordOk?
            <==> VerifyPasswordToken(us, Strip(uidb64), Strip(token), b64decode, checkToken).code == 200
  {
  }
}
