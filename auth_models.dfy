/** The user table of the accounts app: the `User` model, the manager's
    `create_user`, `save` on a stored user, and the user and per-user
    question counters. Passwords are kept as the accepted text: hashing is
    a library primitive, and `check_password` after `set_password(p)`
    accepts exactly `p`. */
module AuthModels {
  import opened Wrappers
  import opened Tables
  import opened Text
  import opened QuizModels

  datatype User = User(
    id: UserId,
    username: string,
    email: string,
    password: string,
    firstName: string,
    lastName: string,
    bio: string,
    isVerified: bool,
    isStaff: bool,
    isActive: bool)

  function UserIds(us: seq<User>): seq<UserId> {
    seq(|us|, i requires 0 <= i < |us| => us[i].id)
  }

  function UserIndex(us: seq<User>, id: UserId): (r: Option<nat>)
    ensures r.Some? <==> id in UserIds(us)
    ensures r.Some? ==> r.value < |us| && us[r.value].id == id
  {
    var r := FirstIndex(us, (u: User) => u.id == id);
    assert r.Some? ==> UserIds(us)[r.value] == id;
    assert r.None? ==> forall j :: 0 <= j < |us| ==> UserIds(us)[j] != id;
    r
  }

  /** `User.objects.get(id=...)` for an id that `int()` produced, which may be negative. */
  function LookupId(us: seq<User>, id: int): (r: Option<nat>)
    ensures r.Some? ==> r.value < |us| && us[r.value].id == id
    ensures r.None? ==> forall j :: 0 <= j < |us| ==> us[j].id != id
  {
    if id < 0 then None else UserIndex(us, id)
  }

  function UsernameIndex(us: seq<User>, name: string): (r: Option<nat>)
    ensures r.Some? ==> r.value < |us| && us[r.value].username == name
    ensures r.None? ==> forall j :: 0 <= j < |us| ==> us[j].username != name
  {
    FirstIndex(us, (u: User) => u.username == name)
  }

  /** `User.objects.get(email=...)`. */
  function EmailIndex(us: seq<User>, email: string): (r: Option<nat>)
    ensures r.Some? ==> r.value < |us| && us[r.value].email == email
    ensures r.None? ==> forall j :: 0 <= j < |us| ==> us[j].email != email
  {
    FirstIndex(us, (u: User) => u.email == email)
  }

  predicate UniqueUsernames(us: seq<User>) {
    forall i, j :: 0 <= i < j < |us| ==> us[i].username != us[j].username
  }

  ghost predicate UsersValid(us: seq<User>, nextId: nat) {
    && (forall i :: 0 <= i < |us| ==> us[i].id < nextId)
    && (forall i, j :: 0 <= i < j < |us| ==> us[i].id != us[j].id && us[i].email != us[j].email)
    && UniqueUsernames(us)
  }

  /** Another row (not `id`) already holds `username` or `email`. */
  predicate ClashesWith(us: seq<User>, id: UserId, username: string, email: string) {
    exists k | 0 <= k < |us| :: us[k].id != id && (us[k].username == username || us[k].email == email)
  }

  /** The last position of `c` in `s` (`rsplit(c, 1)`). */
  function LastIndexOf(s: string, c: char): (r: Option<nat>)
    ensures r.Some? ==> r.value < |s| && s[r.value] == c && forall j :: r.value < j < |s| ==> s[j] != c
    ensures r.None? ==> c !in s
  {
    if s == [] then None
    else if s[|s| - 1] == c then Some(|s| - 1)
    else LastIndexOf(s[..|s| - 1], c)
  }

  /** `BaseUserManager.normalize_email`: the domain part after the last `@`
      is lowercased; an address without `@` is kept as given. */
  function NormalizeEmail(email: string): (r: string)
    ensures '@' !in Strip(email) ==> r == email
    ensures '@' in Strip(email) ==>
              var t := Strip(email);
              var k := LastIndexOf(t, '@').value;
              |r| == |t| && r[..k] == t[..k] && r[k] == '@' && r[k + 1..] == Lower(t[k + 1..])
  {
    var t := Strip(email);
    match LastIndexOf(t, '@')
    case None => email
    case Some(k) => t[..k] + "@" + Lower(t[k + 1..])
  }

  /** The row `create_user` inserts: unverified, not staff, active, blank
      profile, with the username in the form `normalizeUsername` (the NFKC
      normalisation of `AbstractBaseUser.normalize_username`) gives it. */
  function NewUser(id: UserId, username: string, email: string, password: string,
                   normalizeUsername: string -> string): (u: User)
    ensures u.id == id && u.username == normalizeUsername(username) && u.password == password
    ensures !u.isVerified && !u.isStaff && u.isActive
    ensures u.email == NormalizeEmail(email)
  {
    User(id, normalizeUsername(username), NormalizeEmail(email), password, "", "", "", false, false, true)
  }

  /** The user table of one database. */
  class UserDb {
    var users: seq<User>
    var nextId: nat

    ghost predicate Valid()
      reads this
    {
      UsersValid(users, nextId)
    }

    constructor ()
      ensures Valid() && users == []
    {
      users, nextId := [], 1;
    }

    /** `User.objects.create_user(username, email, password)`: the unique
        constraints on the normalised username and e-mail refuse a clash. */
    method CreateUser(username: string, email: string, password: string, normalizeUsername: string -> string)
      returns (r: Result<UserId, IntegrityError>)
      requires Valid()
      modifies this
      ensures Valid()
      ensures r.Err? <==> ClashesWith(old(users), old(nextId), normalizeUsername(username), NormalizeEmail(email))
      ensures r.Err? ==> users == old(users) && nextId == old(nextId)
      ensures r.Ok? ==> && r.value == old(nextId) && r.value !in UserIds(old(users))
                        && users == old(users) + [NewUser(r.value, username, email, password, normalizeUsername)]
                        && nextId == old(nextId) + 1
    {
      var u := NewUser(nextId, username, email, password, normalizeUsername);
      if ClashesWith(users, nextId, u.username, u.email) {
        return Err(UniqueViolation);
      }
      users := users + [u];
      nextId := nextId + 1;
      r := Ok(u.id);
    }

    /** `user.save()` on a stored user: the row with the same id is written
        back unless the new username or email belongs to another row. */
    method Save(u: User) returns (err: Option<IntegrityError>)
      requires Valid()
      requires u.id in UserIds(users)
      modifies this`users
      ensures Valid()
      ensures err.Some? <==> ClashesWith(old(users), u.id, u.username, u.email)
      ensures err.Some? ==> users == old(users)
      ensures err.None? ==> users == old(users)[UserIndex(old(users), u.id).value := u]
    {
      if ClashesWith(users, u.id, u.username, u.email) {
        return Some(UniqueViolation);
      }
      var i := UserIndex(users, u.id).value;
      users := users[i := u];
      err := None;
    }
  }

  /** Saving a stored user whose username and email are unchanged never clashes. */
  lemma SameKeysNoClash(us: seq<User>, nextId: nat, i: nat, u: User)
    requires UsersValid(us, nextId) && i < |us|
    requires u.id == us[i].id && u.username == us[i].username && u.email == us[i].email
    ensures !ClashesWith(us, u.id, u.username, u.email)
  {
  }

  // ===== Counters ==============================================================

  predicate IsStaffRow(u: User) {
    u.isStaff
  }

  /** `User.total_user()`. */
  function TotalUser(us: seq<User>): nat {
    |us|
  }

  /** `User.total_staff()`: the number of staff rows, never more than all
      users, and zero exactly when nobody is staff. */
  function TotalStaff(us: seq<User>): (n: nat)
    ensures n == |Positions(us, IsStaffRow)|
    ensures n <= TotalUser(us)
    ensures n == 0 <==> forall u :: u in us ==> !u.isStaff
  {
    var r := Filter(us, IsStaffRow);
    assert r != [] ==> r[0] in r;
    FilterCountsPositions(us, IsStaffRow);
    |r|
  }

  function CreatorIs(uid: UserId): Question -> bool {
    (q: Question) => q.createdBy == Some(uid)
  }

  /** `user.questions`: the questions whose creator is `uid`. */
  function QuestionsOf(qs: seq<Question>, uid: UserId): (r: seq<Question>)
    ensures forall q :: q in r <==> q in qs && q.createdBy == Some(uid)
  {
    Filter(qs, CreatorIs(uid))
  }

  function NumberOfQuestions(qs: seq<Question>, uid: UserId): nat {
    |QuestionsOf(qs, uid)|
  }

  function NumberOfVerifiedQuestions(qs: seq<Question>, uid: UserId): nat {
    |VerifiedRows(QuestionsOf(qs, uid))|
  }

  function NumberOfUnverifiedQuestions(qs: seq<Question>, uid: UserId): nat {
    |UnverifiedRows(QuestionsOf(qs, uid))|
  }

  /** A user's verified and unverified questions add up to all of them. */
  lemma UserCountsAddUp(qs: seq<Question>, uid: UserId)
    ensures NumberOfVerifiedQuestions(qs, uid) + NumberOfUnverifiedQuestions(qs, uid) == NumberOfQuestions(qs, uid)
  {
    VerifiedPlusUnverified(QuestionsOf(qs, uid));
  }

  /** A user created after the questions were written has no questions:
      every creator reference names an earlier user. */
  lemma FreshUserHasNoQuestions(qs: seq<Question>, us: seq<User>, uid: UserId)
    requires forall q :: q in qs && q.createdBy.Some? ==> q.createdBy.value in UserIds(us)
    requires uid !in UserIds(us)
    ensures NumberOfQuestions(qs, uid) == 0
    ensures NumberOfVerifiedQuestions(qs, uid) == 0 && NumberOfUnverifiedQuestions(qs, uid) == 0
  {
    FilterNone(qs, CreatorIs(uid));
  }
}
