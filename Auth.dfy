/**
 * The authentication endpoints as functions from the store before a call to
 * the store after it and the reply: OTP issuance (`request_otp`), OTP
 * verification (`verify_otp`), the admin login with its bootstrap
 * (`admin_login`), the admin gate (`require_admin`) and the session check that
 * guards the order endpoints. The random code draw, the fresh token and the
 * clock are parameters.
 */
module Auth {
  import opened Http
  import opened Records
  import Phone
  import OtpCode

  /** `timedelta(minutes=5)` in microseconds. */
  const OTP_LIFETIME: int := 5 * 60 * 1000000
  const ADMIN_PASSWORD := "admin123"
  const ADMIN_NAME := "Admin"
  const ADMIN_PHONE := "+10000000000"

  const INVALID_OTP := Error(400, "Invalid or expired OTP")
  const USER_NOT_FOUND := Error(404, "User not found")
  const INVALID_CREDENTIALS := Error(401, "Invalid credentials")
  const MISSING_ADMIN_TOKEN := Error(401, "Missing admin token")
  const INVALID_TOKEN := Error(401, "Invalid token")
  const FORBIDDEN := Error(403, "Forbidden")
  const MISSING_SESSION_TOKEN := Error(401, "Missing session token")
  const INVALID_SESSION := Error(401, "Invalid session")

  /** The store after a call, and what the call replied. */
  datatype Step<T> = Step(post: State, reply: Result<T>)

  /** The `user` object of the verification reply. */
  datatype UserSummary = UserSummary(id: nat, name: string, phone: string, role: Role)

  datatype Login = Login(token: string, user: UserSummary)

  predicate UrlSafeChar(c: char) {
    'A' <= c <= 'Z' || 'a' <= c <= 'z' || '0' <= c <= '9' || c == '-' || c == '_'
  }

  /** What `secrets.token_urlsafe(24)` yields: 24 bytes in unpadded URL-safe base64. */
  predicate IsMintedToken(t: string) {
    |t| == 32 && forall i :: 0 <= i < |t| ==> UrlSafeChar(t[i])
  }

  predicate TokenUnused(st: State, token: string) {
    forall i :: 0 <= i < |st.sessions| ==> st.sessions[i].token != token
  }

  /** Some user in the store has this phone. */
  predicate HasUserWithPhone(users: seq<User>, phone: string) {
    exists j :: 0 <= j < |users| && users[j].phone == phone
  }

  /** The `not authorization` test: no header, or an empty one. */
  predicate Absent(authorization: Option<string>) {
    authorization.None? || authorization.value == ""
  }

  /** `request_otp`: make sure a user holds the phone, then replace its codes by a fresh one. */
  function IssueOtp(st: State, name: string, phone: string, draw: nat, now: int): (r: Step<string>)
    requires draw < OtpCode.CODE_SPACE
    ensures r.reply.Err? ==> r.post == st
  {
    match Phone.ValidatePhone(phone)
    case Err(e) => Step(st, Err(e))
    case Ok(p) =>
      var st1 :=
        if UserByPhone(st.users, p).None?
        then st.(users := st.users + [User(st.nextId, name, p, None, Customer, true)], nextId := st.nextId + 1)
        else st;
      var code := OtpCode.PadCode(draw);
      var st2 := st1.(otps := WithoutPhone(st1.otps, p) + [Otp(p, code, now + OTP_LIFETIME)]);
      Step(st2, Ok(code))
  }

  /** `verify_otp`: a matching, unexpired code for a phone whose user exists opens a session. */
  function VerifyOtp(st: State, phone: string, code: string, now: int, token: string): (r: Step<Login>)
    ensures r.reply.Err? ==> r.post == st
  {
    match Phone.ValidatePhone(phone)
    case Err(e) => Step(st, Err(e))
    case Ok(p) =>
      match OtpMatch(st.otps, p, code)
      case None => Step(st, Err(INVALID_OTP))
      case Some(i) =>
        if st.otps[i].expiresAt < now then Step(st, Err(INVALID_OTP))
        else
          match UserByPhone(st.users, p)
          case None => Step(st, Err(USER_NOT_FOUND))
          case Some(j) =>
            var u := st.users[j];
            var st1 := st.(sessions := st.sessions + [Session(u.id, token, now)]);
            Step(st1.(otps := WithoutPhone(st1.otps, p)), Ok(Login(token, UserSummary(u.id, u.name, u.phone, u.role))))
  }

  /** `admin_login`: the fixed password admits any email, creating its admin account on first use. */
  function AdminLogin(st: State, email: string, password: string, token: string, now: int): (r: Step<string>)
    ensures r.reply.Err? ==> r.post == st && r.reply.error == INVALID_CREDENTIALS
    ensures r.reply.Ok? ==> r.reply.value == token
  {
    match AdminByEmail(st.users, email)
    case None =>
      if password == ADMIN_PASSWORD then
        var admin := User(st.nextId, ADMIN_NAME, ADMIN_PHONE, Some(email), Admin, true);
        var st1 := st.(users := st.users + [admin], nextId := st.nextId + 1);
        Step(st1.(sessions := st1.sessions + [Session(admin.id, token, now)]), Ok(token))
      else Step(st, Err(INVALID_CREDENTIALS))
    case Some(i) =>
      if password != ADMIN_PASSWORD then Step(st, Err(INVALID_CREDENTIALS))
      else Step(st.(sessions := st.sessions + [Session(st.users[i].id, token, now)]), Ok(token))
  }

  /** `require_admin`: 401 without a token or a session for it, 403 unless the session's user is an admin. */
  function RequireAdmin(st: State, authorization: Option<string>): (r: Result<nat>)
    ensures Absent(authorization) ==> r == Err(MISSING_ADMIN_TOKEN)
    ensures !Absent(authorization) && SessionByToken(st.sessions, authorization.value).None? ==>
      r == Err(INVALID_TOKEN)
    ensures r.Ok? ==>
      exists i, j :: 0 <= i < |st.sessions| && 0 <= j < |st.users| &&
        st.sessions[i].token == authorization.value && st.users[j].id == st.sessions[i].userId &&
        st.users[j].role == Admin && r.value == st.users[j].id
    ensures r.Err? ==> r.error in {MISSING_ADMIN_TOKEN, INVALID_TOKEN, FORBIDDEN}
  {
    if Absent(authorization) then Err(MISSING_ADMIN_TOKEN)
    else
      match SessionByToken(st.sessions, authorization.value)
      case None => Err(INVALID_TOKEN)
      case Some(i) =>
        match UserById(st.users, st.sessions[i].userId)
        case None => Err(FORBIDDEN)
        case Some(j) => if st.users[j].role != Admin then Err(FORBIDDEN) else Ok(st.users[j].id)
  }

  /** The session check of `place_order` and `my_orders`: the session's user id, without loading the user. */
  function SessionUser(st: State, authorization: Option<string>): (r: Result<nat>)
    ensures Absent(authorization) ==> r == Err(MISSING_SESSION_TOKEN)
    ensures !Absent(authorization) ==>
      (r.Ok? <==> exists i :: 0 <= i < |st.sessions| && st.sessions[i].token == authorization.value)
    ensures r.Ok? ==>
      exists i :: 0 <= i < |st.sessions| && st.sessions[i].token == authorization.value && st.sessions[i].userId == r.value
    ensures !Absent(authorization) && SessionByToken(st.sessions, authorization.value).None? ==>
      r == Err(INVALID_SESSION)
    ensures r.Err? ==> r.error in {MISSING_SESSION_TOKEN, INVALID_SESSION}
  {
    if Absent(authorization) then Err(MISSING_SESSION_TOKEN)
    else
      match SessionByToken(st.sessions, authorization.value)
      case None => Err(INVALID_SESSION)
      case Some(i) => Ok(st.sessions[i].userId)
  }
}
