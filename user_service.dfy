/** UserServiceImpl: the account registry over the user table, the deactivation table and the
    grade log.

    The repository's update queries report a boolean the model cannot compute
    (updateLoginDate, updateStatus); the value each call reports is a parameter. */
module UserService {
  import opened Common

  /** The user statuses the service sets. */
  datatype UserStatus = Active | Withdraw

  datatype User = User(
    id: int,
    loginId: string,
    name: string,
    email: string,
    contactNumber: string,
    birthday: string,
    isAdmin: bool,
    status: UserStatus,
    lastLoginAt: Option<int>)

  /** A deactivation record. Its key is taken to be the user's id, so that existsById on the
      user's id asks whether the account has a record. */
  datatype Deactivation = Deactivation(userId: int, deactivationAt: int, reason: string)

  datatype GradeLog = GradeLog(grade: string, userId: int, changeDate: int)

  datatype RegisterRequest = RegisterRequest(
    loginId: string,
    name: string,
    email: string,
    contactNumber: string,
    birthday: string)

  datatype RegisterResponse = RegisterResponse(name: string, loginId: string, status: int, message: string)

  datatype UserInfo = UserInfo(
    id: int,
    name: string,
    loginId: string,
    birthday: string,
    isAdmin: bool,
    contactNumber: string,
    email: string)

  datatype UserError = UserNotFound | Deactivated | GradeNotFound | UserAlreadyExists | UnknownUser

  /** The grade every new account starts in. */
  const NORMAL: string := "NORMAL"

  /** The message of a successful registration: "registration succeeded" in Korean. */
  const REGISTER_SUCCESS: string := "\U{D68C}\U{C6D0}\U{AC00}\U{C785} \U{C131}\U{ACF5}"

  /** userRepository.findByLoginId. */
  function FindByLoginId(users: seq<User>, loginId: string): (r: Option<User>)
    ensures r.Some? ==> r.value in users && r.value.loginId == loginId
    ensures r.None? <==> forall i :: 0 <= i < |users| ==> users[i].loginId != loginId
  {
    if users == [] then None
    else if users[0].loginId == loginId then Some(users[0])
    else FindByLoginId(users[1..], loginId)
  }

  /** userRepository.findById, as a position in the table. */
  function IndexOfId(users: seq<User>, id: int): (r: Option<nat>)
    ensures r.Some? ==> r.value < |users| && users[r.value].id == id
    ensures r.None? <==> forall i :: 0 <= i < |users| ==> users[i].id != id
  {
    if users == [] then None
    else if users[0].id == id then Some(0)
    else match IndexOfId(users[1..], id)
      case None => None
      case Some(k) => Some(k + 1)
  }

  /** deactivationRepository.existsById. */
  predicate IsDeactivated(deactivations: seq<Deactivation>, userId: int): (r: bool)
    ensures r <==> exists d :: d in deactivations && d.userId == userId
  {
    exists i :: 0 <= i < |deactivations| && deactivations[i].userId == userId
  }

  /** requestLogin's decision: an unknown login id, then a deactivated account, is refused. */
  function LoginCheck(users: seq<User>, deactivations: seq<Deactivation>, loginId: string): (r: Result<User, UserError>)
    ensures r.Ok? <==> FindByLoginId(users, loginId).Some? && !IsDeactivated(deactivations, FindByLoginId(users, loginId).value.id)
    ensures r.Ok? ==> r.value in users && r.value.loginId == loginId
    ensures r.Err? ==> r.error == if FindByLoginId(users, loginId).None? then UserNotFound else Deactivated
  {
    match FindByLoginId(users, loginId)
    case None => Err(UserNotFound)
    case Some(user) => if IsDeactivated(deactivations, user.id) then Err(Deactivated) else Ok(user)
  }

  function InfoOf(u: User): UserInfo {
    UserInfo(u.id, u.name, u.loginId, u.birthday, u.isAdmin, u.contactNumber, u.email)
  }

  /** RegisterUserRequest.toUser: a new, active, non-administrator account. */
  function NewUser(req: RegisterRequest, id: int): User {
    User(id, req.loginId, req.name, req.email, req.contactNumber, req.birthday, false, Active, None)
  }

  /** Login ids are unique. */
  ghost predicate UniqueLogins(users: seq<User>) {
    forall i, j :: 0 <= i < j < |users| ==> users[i].loginId != users[j].loginId
  }

  /** A freshly registered account can log in, as itself, as long as no deactivation is on
      record for its new id. */
  lemma {:induction false} RegisterThenLogin(users: seq<User>, deactivations: seq<Deactivation>, u: User)
    requires FindByLoginId(users, u.loginId).None?
    requires !IsDeactivated(deactivations, u.id)
    ensures LoginCheck(users + [u], deactivations, u.loginId) == Ok(u)
  {
    FindAfterAppend(users, u);
  }

  lemma {:induction false} FindAfterAppend(users: seq<User>, u: User)
    requires FindByLoginId(users, u.loginId).None?
    ensures FindByLoginId(users + [u], u.loginId) == Some(u)
  {
    if users != [] {
      assert (users + [u])[1..] == users[1..] + [u];
      FindAfterAppend(users[1..], u);
    }
  }

  /** Once a deactivation is on record for an account, requestLogin refuses it whatever its
      status; reactivation does not lift that. */
  lemma DeactivatedCannotLogin(users: seq<User>, deactivations: seq<Deactivation>, d: Deactivation, loginId: string)
    requires FindByLoginId(users, loginId).Some? && FindByLoginId(users, loginId).value.id == d.userId
    ensures LoginCheck(users, deactivations + [d], loginId) == Err(Deactivated)
  {
    assert (deactivations + [d])[|deactivations|] == d;
  }

  /** requestLogin never reads the status: changing an account's status keeps the login decision
      for every login id, and the same account is let in. */
  lemma {:induction false} LoginIgnoresStatus(users: seq<User>, deactivations: seq<Deactivation>, k: nat, s: UserStatus, loginId: string)
    requires k < |users|
    ensures var after := LoginCheck(users[k := users[k].(status := s)], deactivations, loginId);
            var before := LoginCheck(users, deactivations, loginId);
            && after.Ok? == before.Ok?
            && (after.Ok? ==> after.value.id == before.value.id && after.value.loginId == before.value.loginId)
  {
    if k > 0 {
      assert users[k := users[k].(status := s)][1..] == users[1..][k - 1 := users[k].(status := s)];
      LoginIgnoresStatus(users[1..], deactivations, k - 1, s, loginId);
    }
  }

  class UserRegistry {
    var users: seq<User>
    var deactivations: seq<Deactivation>
    var gradeLogs: seq<GradeLog>
    /** The names of the grades on record. */
    var grades: set<string>
    var nextUserId: int

    /** Ids and login ids are unique, and every id, of a user or of a deactivation, is below the
        next id handed out. */
    ghost predicate Valid()
      reads this
    {
      && UniqueLogins(users)
      && (forall i, j :: 0 <= i < j < |users| ==> users[i].id != users[j].id)
      && (forall i :: 0 <= i < |users| ==> users[i].id < nextUserId)
      && (forall i :: 0 <= i < |deactivations| ==> deactivations[i].userId < nextUserId)
    }

    constructor (grades: set<string>)
      ensures Valid()
      ensures users == [] && deactivations == [] && gradeLogs == [] && this.grades == grades
    {
      users, deactivations, gradeLogs := [], [], [];
      this.grades := grades;
      nextUserId := 1;
    }

    /** requestLogin: the account with that login id, unless it is unknown or deactivated. */
    method RequestLogin(loginId: string) returns (r: Result<User, UserError>)
      ensures r == LoginCheck(users, deactivations, loginId)
      ensures r.Ok? ==> r.value in users && r.value.loginId == loginId &&
                        forall i :: 0 <= i < |deactivations| ==> deactivations[i].userId != r.value.id
    {
      var found := FindByLoginId(users, loginId);
      if found.None? {
        return Err(UserNotFound);
      }
      var user := found.value;
      if IsDeactivated(deactivations, user.id) {
        return Err(Deactivated);
      }
      r := Ok(user);
    }

    /** getUserInfoByLoginId: the account's public fields, or UserNotFound. */
    method GetUserInfoByLoginId(loginId: string) returns (r: Result<UserInfo, UserError>)
      ensures r.Err? <==> forall i :: 0 <= i < |users| ==> users[i].loginId != loginId
      ensures r.Err? ==> r.error == UserNotFound
      ensures r.Ok? ==> exists i :: 0 <= i < |users| && users[i].loginId == loginId && r.value == InfoOf(users[i])
    {
      var found := FindByLoginId(users, loginId);
      if found.None? {
        return Err(UserNotFound);
      }
      r := Ok(InfoOf(found.value));
    }

    /** updateLoginDate: stamps every account with that login id. */
    method UpdateLoginDate(loginId: string, now: int)
      requires Valid()
      modifies this`users
      ensures Valid()
      ensures |users| == |old(users)|
      ensures forall i :: 0 <= i < |users| ==>
                users[i] == if old(users)[i].loginId == loginId then old(users)[i].(lastLoginAt := Some(now)) else old(users)[i]
    {
      var i := 0;
      while i < |users|
        invariant 0 <= i <= |users| == |old(users)|
        invariant forall k :: 0 <= k < i ==>
                    users[k] == if old(users)[k].loginId == loginId then old(users)[k].(lastLoginAt := Some(now)) else old(users)[k]
        invariant forall k :: i <= k < |users| ==> users[k] == old(users)[k]
      {
        if users[i].loginId == loginId {
          users := users[i := users[i].(lastLoginAt := Some(now))];
        }
        i := i + 1;
      }
    }

    /** successLogin: the login date is updated, once more when the first update reports false,
        and the account's info is returned. */
    method SuccessLogin(loginId: string, firstReported: bool, now: int)
      returns (r: Result<UserInfo, UserError>, attempts: nat)
      requires Valid()
      modifies this`users
      ensures Valid()
      ensures attempts == if firstReported then 1 else 2
      ensures |users| == |old(users)|
      ensures forall i :: 0 <= i < |users| ==>
                users[i] == if old(users)[i].loginId == loginId then old(users)[i].(lastLoginAt := Some(now)) else old(users)[i]
      ensures r.Err? <==> forall i :: 0 <= i < |users| ==> users[i].loginId != loginId
      ensures r.Ok? ==> exists i :: 0 <= i < |users| && users[i].loginId == loginId && r.value == InfoOf(users[i])
    {
      UpdateLoginDate(loginId, now);
      attempts := 1;
      if !firstReported {
        UpdateLoginDate(loginId, now);
        attempts := 2;
      }
      r := GetUserInfoByLoginId(loginId);
    }

    /** requestRegister: refused when the NORMAL grade is missing, then when the login id is
        taken, with nothing saved; otherwise exactly one account and one NORMAL grade-log entry
        for it are saved and status 200 is returned. */
    method RequestRegister(req: RegisterRequest, now: int) returns (r: Result<RegisterResponse, UserError>)
      requires Valid()
      modifies this`users, this`gradeLogs, this`nextUserId
      ensures Valid()
      ensures NORMAL !in grades ==> r == Err(GradeNotFound)
      ensures NORMAL in grades && FindByLoginId(old(users), req.loginId).Some? ==> r == Err(UserAlreadyExists)
      ensures r.Err? ==> users == old(users) && gradeLogs == old(gradeLogs)
      ensures r.Ok? ==>
                && NORMAL in grades && FindByLoginId(old(users), req.loginId).None?
                && users == old(users) + [NewUser(req, old(nextUserId))]
                && gradeLogs == old(gradeLogs) + [GradeLog(NORMAL, old(nextUserId), now)]
                && r.value == RegisterResponse(req.name, req.loginId, 200, REGISTER_SUCCESS)
    {
      if NORMAL !in grades {
        return Err(GradeNotFound);
      }
      if FindByLoginId(users, req.loginId).Some? {
        return Err(UserAlreadyExists);
      }
      var user := NewUser(req, nextUserId);
      users := users + [user];
      nextUserId := nextUserId + 1;
      gradeLogs := gradeLogs + [GradeLog(NORMAL, user.id, now)];
      r := Ok(RegisterResponse(req.name, req.loginId, 200, REGISTER_SUCCESS));
    }

    /** deactivate: refused for an unknown id; otherwise a deactivation is recorded for that
        account, the account is marked withdrawn, and the answer is true. */
    method Deactivate(userId: int, reason: string, now: int) returns (r: Result<bool, UserError>)
      requires Valid()
      modifies this`users, this`deactivations
      ensures Valid()
      ensures IndexOfId(old(users), userId).None? <==> r == Err(UserNotFound)
      ensures r.Err? ==> users == old(users) && deactivations == old(deactivations)
      ensures r.Ok? ==>
                var k := IndexOfId(old(users), userId).value;
                && r.value
                && deactivations == old(deactivations) + [Deactivation(userId, now, reason)]
                && users == old(users)[k := old(users)[k].(status := Withdraw)]
    {
      var k := IndexOfId(users, userId);
      if k.None? {
        return Err(UserNotFound);
      }
      var saved := Deactivation(userId, now, reason);
      deactivations := deactivations + [saved];
      users := users[k.value := users[k.value].(status := Withdraw)];
      r := Ok(saved.userId == userId);
    }

    /** activate: refused for an unknown login id; otherwise the status update runs and, as
        written, UnknownUser is raised when the update reports true. The deactivation record is
        kept. */
    method Activate(loginId: string, updateReported: bool) returns (failure: Option<UserError>)
      requires Valid()
      modifies this`users
      ensures Valid()
      ensures FindByLoginId(old(users), loginId).None? ==> failure == Some(UserNotFound) && users == old(users)
      ensures FindByLoginId(old(users), loginId).Some? ==>
                && failure == (if updateReported then Some(UnknownUser) else None)
                && |users| == |old(users)|
                && forall i :: 0 <= i < |users| ==>
                     users[i] == if old(users)[i].loginId == loginId then old(users)[i].(status := Active) else old(users)[i]
    {
      if FindByLoginId(users, loginId).None? {
        return Some(UserNotFound);
      }
      var i := 0;
      while i < |users|
        invariant 0 <= i <= |users| == |old(users)|
        invariant forall k :: 0 <= k < i ==>
                    users[k] == if old(users)[k].loginId == loginId then old(users)[k].(status := Active) else old(users)[k]
        invariant forall k :: i <= k < |users| ==> users[k] == old(users)[k]
      {
        if users[i].loginId == loginId {
          users := users[i := users[i].(status := Active)];
        }
        i := i + 1;
      }
      failure := if updateReported then Some(UnknownUser) else None;
    }
  }
}
