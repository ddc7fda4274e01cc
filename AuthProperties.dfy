/**
 * What the authentication endpoints promise, one call at a time and across
 * calls: issuance effects, the verification outcome, single use and
 * re-issuance, the admin login and the admin gate.
 */
module AuthProperties {
  import opened Http
  import opened Records
  import opened Auth
  import opened Invariants
  import Phone
  import OtpCode

  ghost predicate HasAdminWithEmail(users: seq<User>, email: string) {
    exists j :: 0 <= j < |users| && IsAdminWithEmail(users[j], email)
  }

  /** `request_otp`: a malformed phone changes nothing; otherwise the phone's codes become exactly the new one. */
  lemma IssueOtpEffects(st: State, name: string, phone: string, draw: nat, now: int)
    requires draw < OtpCode.CODE_SPACE
    ensures var r := IssueOtp(st, name, phone, draw, now);
      !Phone.AcceptedPhone(phone) ==> r == Step(st, Err(Phone.INVALID_PHONE))
    ensures var r := IssueOtp(st, name, phone, draw, now);
      Phone.AcceptedPhone(phone) ==>
        r.reply == Ok(OtpCode.PadCode(draw)) &&
        HasUserWithPhone(r.post.users, phone) &&
        r.post.users == (if HasUserWithPhone(st.users, phone) then st.users
                         else st.users + [User(st.nextId, name, phone, None, Customer, true)]) &&
        OtpsFor(r.post.otps, phone) == [Otp(phone, OtpCode.PadCode(draw), now + OTP_LIFETIME)] &&
        (forall q :: q != phone ==> OtpsFor(r.post.otps, q) == OtpsFor(st.otps, q)) &&
        r.post.sessions == st.sessions && r.post.orders == st.orders && r.post.settings == st.settings
  {
    var r := IssueOtp(st, name, phone, draw, now);
    if Phone.AcceptedPhone(phone) {
      var o := Otp(phone, OtpCode.PadCode(draw), now + OTP_LIFETIME);
      var w := WithoutPhone(st.otps, phone);
      assert r.post.otps == w + [o];
      OtpsForAppend(w, o, phone);
      OtpsForWithoutPhone(st.otps, phone, phone);
      forall q | q != phone ensures OtpsFor(r.post.otps, q) == OtpsFor(st.otps, q) {
        OtpsForAppend(w, o, q);
        OtpsForWithoutPhone(st.otps, phone, q);
      }
      var k := UserByPhone(st.users, phone);
      if k.Some? {
        assert r.post.users[k.value].phone == phone;
      } else {
        assert r.post.users[|st.users|].phone == phone;
      }
    }
  }

  /** A code is found for a phone exactly when the phone's own codes contain it. */
  lemma OtpMatchFor(otps: seq<Otp>, phone: string, code: string)
    ensures OtpMatch(otps, phone, code).Some? ==> otps[OtpMatch(otps, phone, code).value] in OtpsFor(otps, phone)
    ensures OtpMatch(otps, phone, code).None? <==> forall o :: o in OtpsFor(otps, phone) ==> o.code != code
  {
    if OtpMatch(otps, phone, code).None? {
      forall o | o in OtpsFor(otps, phone) ensures o.code != code {
        var i :| 0 <= i < |otps| && otps[i] == o;
      }
    }
  }

  /** `verify_otp` rejections: a malformed phone gives 400, a code that is not on file for the phone gives 400. */
  lemma VerifyOtpRejects(st: State, phone: string, code: string, now: int, token: string)
    ensures var r := VerifyOtp(st, phone, code, now, token);
      !Phone.AcceptedPhone(phone) ==> r == Step(st, Err(Phone.INVALID_PHONE))
    ensures var r := VerifyOtp(st, phone, code, now, token);
      Phone.AcceptedPhone(phone) && (forall o :: o in OtpsFor(st.otps, phone) ==> o.code != code) ==>
        r == Step(st, Err(INVALID_OTP))
    ensures var r := VerifyOtp(st, phone, code, now, token);
      Phone.AcceptedPhone(phone) && OtpsFor(st.otps, phone) == [] ==> r == Step(st, Err(INVALID_OTP))
  {
    OtpMatchFor(st.otps, phone, code);
  }

  /** `verify_otp` on a matching code: it is 400 once the code has expired, and 404 while it is live but no user holds the phone; neither changes the store. */
  lemma VerifyOtpExpiredOrUnknownUser(st: State, phone: string, code: string, now: int, token: string)
    ensures var k := OtpMatch(st.otps, phone, code);
      Phone.AcceptedPhone(phone) && k.Some? && st.otps[k.value].expiresAt < now ==>
        VerifyOtp(st, phone, code, now, token) == Step(st, Err(INVALID_OTP))
    ensures var k := OtpMatch(st.otps, phone, code);
      Phone.AcceptedPhone(phone) && k.Some? && now <= st.otps[k.value].expiresAt &&
      UserByPhone(st.users, phone).None? ==>
        VerifyOtp(st, phone, code, now, token) == Step(st, Err(USER_NOT_FOUND))
  {
  }

  /** `verify_otp` success: one session for the phone's user is appended and the phone's codes are gone. */
  lemma VerifyOtpAccepts(st: State, phone: string, code: string, now: int, token: string)
    ensures var r := VerifyOtp(st, phone, code, now, token);
      r.reply.Ok? ==>
        UserByPhone(st.users, phone).Some? &&
        (var u := st.users[UserByPhone(st.users, phone).value];
         r.reply.value == Login(token, UserSummary(u.id, u.name, u.phone, u.role)) &&
         r.post.sessions == st.sessions + [Session(u.id, token, now)]) &&
        r.post.users == st.users &&
        OtpsFor(r.post.otps, phone) == [] &&
        (forall q :: q != phone ==> OtpsFor(r.post.otps, q) == OtpsFor(st.otps, q)) &&
        r.post.orders == st.orders && r.post.settings == st.settings
  {
    var r := VerifyOtp(st, phone, code, now, token);
    if r.reply.Ok? {
      OtpsForWithoutPhone(st.otps, phone, phone);
      forall q | q != phone ensures OtpsFor(r.post.otps, q) == OtpsFor(st.otps, q) {
        OtpsForWithoutPhone(st.otps, phone, q);
      }
    }
  }

  /** In a consistent store a verification succeeds exactly when the phone is valid and holds that code unexpired (the expiry instant itself included), and never fails with 404. */
  lemma VerifyOtpSucceedsIff(st: State, phone: string, code: string, now: int, token: string)
    requires Inv(st)
    ensures VerifyOtp(st, phone, code, now, token).reply.Ok? <==>
      Phone.AcceptedPhone(phone) &&
      exists i :: 0 <= i < |st.otps| && st.otps[i].phone == phone && st.otps[i].code == code && now <= st.otps[i].expiresAt
    ensures VerifyOtp(st, phone, code, now, token).reply.Err? ==>
      VerifyOtp(st, phone, code, now, token).reply.error in {Phone.INVALID_PHONE, INVALID_OTP}
  {
    var k := OtpMatch(st.otps, phone, code);
    if Phone.AcceptedPhone(phone) && k.Some? {
      // the phone of a code on file is registered
      assert HasUserWithPhone(st.users, st.otps[k.value].phone);
      // one code per phone: the first match is the only one
      forall i | 0 <= i < |st.otps| && st.otps[i].phone == phone && st.otps[i].code == code
        ensures i == k.value
      {
      }
    }
  }

  /** Issue followed by verify with the issued code succeeds until the code expires; then the code is spent. */
  lemma IssueThenVerify(st: State, name: string, phone: string, draw: nat, t0: int, t1: int, t2: int,
                        token: string, token2: string)
    requires draw < OtpCode.CODE_SPACE && Phone.AcceptedPhone(phone)
    requires t1 <= t0 + OTP_LIFETIME
    ensures var s1 := IssueOtp(st, name, phone, draw, t0).post;
      var v := VerifyOtp(s1, phone, OtpCode.PadCode(draw), t1, token);
      v.reply.Ok? && VerifyOtp(v.post, phone, OtpCode.PadCode(draw), t2, token2) == Step(v.post, Err(INVALID_OTP))
  {
    var code := OtpCode.PadCode(draw);
    IssueOtpEffects(st, name, phone, draw, t0);
    var s1 := IssueOtp(st, name, phone, draw, t0).post;
    var o := Otp(phone, code, t0 + OTP_LIFETIME);
    assert o in OtpsFor(s1.otps, phone);
    OtpMatchFor(s1.otps, phone, code);
    var k := OtpMatch(s1.otps, phone, code).value;
    assert s1.otps[k] == o;
    var v := VerifyOtp(s1, phone, code, t1, token);
    assert UserByPhone(s1.users, phone).Some?;
    assert v.reply.Ok?;
    VerifyOtpAccepts(s1, phone, code, t1, token);
    VerifyOtpRejects(v.post, phone, code, t2, token2);
  }

  /** A code verified after its five minutes are over is rejected. */
  lemma ExpiredCodeRejected(st: State, name: string, phone: string, draw: nat, t0: int, t1: int, token: string)
    requires draw < OtpCode.CODE_SPACE && Phone.AcceptedPhone(phone)
    requires t1 > t0 + OTP_LIFETIME
    ensures var s1 := IssueOtp(st, name, phone, draw, t0).post;
      VerifyOtp(s1, phone, OtpCode.PadCode(draw), t1, token) == Step(s1, Err(INVALID_OTP))
  {
    var code := OtpCode.PadCode(draw);
    IssueOtpEffects(st, name, phone, draw, t0);
    var s1 := IssueOtp(st, name, phone, draw, t0).post;
    var o := Otp(phone, code, t0 + OTP_LIFETIME);
    assert o in OtpsFor(s1.otps, phone);
    OtpMatchFor(s1.otps, phone, code);
    var k := OtpMatch(s1.otps, phone, code).value;
    assert s1.otps[k] == o;
  }

  /** Re-issuing a code for a phone invalidates the earlier code (unless the draw repeats it). */
  lemma ReissueInvalidates(st: State, name: string, phone: string, d1: nat, d2: nat, t0: int, t1: int, t2: int,
                           token: string)
    requires d1 < OtpCode.CODE_SPACE && d2 < OtpCode.CODE_SPACE && d1 != d2
    requires Phone.AcceptedPhone(phone)
    ensures var s1 := IssueOtp(st, name, phone, d1, t0).post;
      var s2 := IssueOtp(s1, name, phone, d2, t1).post;
      VerifyOtp(s2, phone, OtpCode.PadCode(d1), t2, token) == Step(s2, Err(INVALID_OTP))
  {
    var s1 := IssueOtp(st, name, phone, d1, t0).post;
    IssueOtpEffects(s1, name, phone, d2, t1);
    var s2 := IssueOtp(s1, name, phone, d2, t1).post;
    assert OtpCode.Value(OtpCode.PadCode(d1)) != OtpCode.Value(OtpCode.PadCode(d2));
    VerifyOtpRejects(s2, phone, OtpCode.PadCode(d1), t2, token);
  }

  /** `admin_login`: success exactly with the fixed password; the admin for the email is created only if missing, and gets one new session. */
  lemma AdminLoginOutcome(st: State, email: string, password: string, token: string, now: int)
    ensures var r := AdminLogin(st, email, password, token, now);
      r.reply.Ok? <==> password == ADMIN_PASSWORD
    ensures var r := AdminLogin(st, email, password, token, now);
      password != ADMIN_PASSWORD ==> r == Step(st, Err(INVALID_CREDENTIALS))
    ensures var r := AdminLogin(st, email, password, token, now);
      password == ADMIN_PASSWORD ==>
        r.reply == Ok(token) &&
        r.post.users == (if HasAdminWithEmail(st.users, email) then st.users
                         else st.users + [User(st.nextId, ADMIN_NAME, ADMIN_PHONE, Some(email), Admin, true)]) &&
        AdminByEmail(r.post.users, email).Some? &&
        r.post.sessions == st.sessions + [Session(r.post.users[AdminByEmail(r.post.users, email).value].id, token, now)] &&
        r.post.otps == st.otps && r.post.orders == st.orders && r.post.settings == st.settings
  {
    var r := AdminLogin(st, email, password, token, now);
    if password == ADMIN_PASSWORD {
      var k := AdminByEmail(st.users, email);
      if k.Some? {
        assert IsAdminWithEmail(st.users[k.value], email);
      } else {
        var admin := User(st.nextId, ADMIN_NAME, ADMIN_PHONE, Some(email), Admin, true);
        assert r.post.users == st.users + [admin];
        assert IsAdminWithEmail(r.post.users[|st.users|], email);
        assert AdminByEmail(r.post.users, email) == Some(|st.users|);
      }
    }
  }

  /** In a consistent store the gate admits a token exactly when its session belongs to an admin, and returns that admin's id. */
  lemma RequireAdminIff(st: State, token: string, uid: nat)
    requires Inv(st)
    ensures RequireAdmin(st, Some(token)) == Ok(uid) <==>
      token != "" &&
      exists i, j :: 0 <= i < |st.sessions| && 0 <= j < |st.users| &&
        st.sessions[i].token == token && st.sessions[i].userId == uid && st.users[j].id == uid &&
        st.users[j].role == Admin
    ensures RequireAdmin(st, Some(token)) == Err(FORBIDDEN) <==>
      token != "" &&
      exists i, j :: 0 <= i < |st.sessions| && 0 <= j < |st.users| &&
        st.sessions[i].token == token && st.users[j].id == st.sessions[i].userId && st.users[j].role != Admin
  {
    if token != "" {
      var k := SessionByToken(st.sessions, token);
      if k.Some? {
        var s := st.sessions[k.value];
        assert HasUserWithId(st.users, s.userId);
        var m := UserById(st.users, s.userId).value;
        forall i, j | 0 <= i < |st.sessions| && 0 <= j < |st.users| &&
          st.sessions[i].token == token && st.users[j].id == st.sessions[i].userId
          ensures i == k.value && j == m
        {
        }
      }
    }
  }

  /** Once a session holds the token, the gate answers 403 or admits: it looks up the session's user, and a missing user or a non-admin gets 403. */
  lemma RequireAdminSessionFound(st: State, token: string)
    requires token != "" && SessionByToken(st.sessions, token).Some?
    ensures RequireAdmin(st, Some(token)).Ok? || RequireAdmin(st, Some(token)) == Err(FORBIDDEN)
    ensures var u := UserById(st.users, st.sessions[SessionByToken(st.sessions, token).value].userId);
      u.None? ==> RequireAdmin(st, Some(token)) == Err(FORBIDDEN)
    ensures var u := UserById(st.users, st.sessions[SessionByToken(st.sessions, token).value].userId);
      u.Some? ==>
        RequireAdmin(st, Some(token)) ==
          (if st.users[u.value].role == Admin then Ok(st.users[u.value].id) else Err(FORBIDDEN))
  {
  }

  /** A token handed out by a successful admin login passes the gate as that admin, and the order session check. */
  lemma AdminLoginThenGate(st: State, email: string, token: string, now: int)
    requires Inv(st) && IsMintedToken(token) && TokenUnused(st, token)
    ensures var s1 := AdminLogin(st, email, ADMIN_PASSWORD, token, now).post;
      AdminByEmail(s1.users, email).Some? &&
      (var uid := s1.users[AdminByEmail(s1.users, email).value].id;
       RequireAdmin(s1, Some(token)) == Ok(uid) && SessionUser(s1, Some(token)) == Ok(uid))
  {
    AdminLoginOutcome(st, email, ADMIN_PASSWORD, token, now);
    AdminLoginKeepsInv(st, email, ADMIN_PASSWORD, token, now);
    var s1 := AdminLogin(st, email, ADMIN_PASSWORD, token, now).post;
    var j := AdminByEmail(s1.users, email).value;
    LastSessionPassesGate(s1, j, token);
  }

  /** A token held only by the newest session, which belongs to an admin, passes the gate and the session check as that admin. */
  lemma LastSessionPassesGate(st: State, j: nat, token: string)
    requires Inv(st) && token != "" && j < |st.users| && st.users[j].role == Admin
    requires |st.sessions| > 0 && st.sessions[|st.sessions| - 1].token == token
    requires st.sessions[|st.sessions| - 1].userId == st.users[j].id
    requires forall i :: 0 <= i < |st.sessions| - 1 ==> st.sessions[i].token != token
    ensures RequireAdmin(st, Some(token)) == Ok(st.users[j].id)
    ensures SessionUser(st, Some(token)) == Ok(st.users[j].id)
  {
    var n := |st.sessions| - 1;
    assert SessionByToken(st.sessions, token) == Some(n);
    RequireAdminIff(st, token, st.users[j].id);
  }

  /** After a successful verification the new token resolves to the logged-in user, and passes the admin gate only if that user is an admin. */
  lemma VerifyOtpThenGate(st: State, phone: string, code: string, now: int, token: string)
    requires Inv(st) && IsMintedToken(token) && TokenUnused(st, token)
    ensures var v := VerifyOtp(st, phone, code, now, token);
      v.reply.Ok? ==>
        SessionUser(v.post, Some(token)) == Ok(v.reply.value.user.id) &&
        RequireAdmin(v.post, Some(token)) ==
          (if v.reply.value.user.role == Admin then Ok(v.reply.value.user.id) else Err(FORBIDDEN))
  {
    var v := VerifyOtp(st, phone, code, now, token);
    if v.reply.Ok? {
      VerifyOtpAccepts(st, phone, code, now, token);
      VerifyOtpKeepsInv(st, phone, code, now, token);
      var j := UserByPhone(st.users, phone).value;
      var n := |st.sessions|;
      assert v.post.sessions[n] == Session(st.users[j].id, token, now);
      assert v.post.users[j] == st.users[j];
      assert SessionByToken(v.post.sessions, token) == Some(n);
      RequireAdminIff(v.post, token, st.users[j].id);
    }
  }

  /** A customer walk-through: Ada asks for a code, signs in with it, and is refused by the admin gate. */
  lemma CustomerScenario(token: string)
    requires IsMintedToken(token)
    ensures var s1 := IssueOtp(EMPTY, "Ada", "+12025550123", 42917, 0);
      s1.reply == Ok("042917") &&
      (var v := VerifyOtp(s1.post, "+12025550123", "042917", 60 * 1000000, token);
       v.reply.Ok? && v.reply.value.user == UserSummary(0, "Ada", "+12025550123", Customer) &&
       SessionUser(v.post, Some(token)) == Ok(0) && RequireAdmin(v.post, Some(token)) == Err(FORBIDDEN))
  {
    Phone.PhoneExamples();
    OtpCode.PadCodeExample();
    EmptyInv();
    IssueOtpKeepsInv(EMPTY, "Ada", "+12025550123", 42917, 0);
    var s1 := IssueOtp(EMPTY, "Ada", "+12025550123", 42917, 0);
    IssueThenVerify(EMPTY, "Ada", "+12025550123", 42917, 0, 60 * 1000000, 0, token, token);
    assert s1.post.users == [User(0, "Ada", "+12025550123", None, Customer, true)];
    VerifyOtpThenGate(s1.post, "+12025550123", "042917", 60 * 1000000, token);
  }

  /** The admin walk-through: the first login with the fixed password creates the admin; a wrong password afterwards is refused. */
  lemma AdminScenario(token: string, token2: string)
    ensures var s1 := AdminLogin(EMPTY, "a@x.com", "admin123", token, 0);
      s1.reply == Ok(token) && s1.post.users == [User(0, ADMIN_NAME, ADMIN_PHONE, Some("a@x.com"), Admin, true)] &&
      AdminLogin(s1.post, "a@x.com", "wrong", token2, 0) == Step(s1.post, Err(INVALID_CREDENTIALS))
  {
    AdminLoginOutcome(EMPTY, "a@x.com", "admin123", token, 0);
  }

  /** An OTP sign-in signs in as the first user holding the phone, whatever its role: the new token passes the admin gate exactly when that user is an admin. */
  lemma OtpSignInTakesFirstUser(st: State, name: string, phone: string, draw: nat, t0: int, t1: int, token: string)
    requires Inv(st) && draw < OtpCode.CODE_SPACE && Phone.AcceptedPhone(phone)
    requires IsMintedToken(token) && TokenUnused(st, token) && t1 <= t0 + OTP_LIFETIME
    requires UserByPhone(st.users, phone).Some?
    ensures var u := st.users[UserByPhone(st.users, phone).value];
      var s1 := IssueOtp(st, name, phone, draw, t0).post;
      var v := VerifyOtp(s1, phone, OtpCode.PadCode(draw), t1, token);
      v.reply.Ok? && v.reply.value.user.id == u.id &&
      RequireAdmin(v.post, Some(token)) == (if u.role == Admin then Ok(u.id) else Err(FORBIDDEN))
  {
    IssueOtpEffects(st, name, phone, draw, t0);
    IssueOtpKeepsInv(st, name, phone, draw, t0);
    var s1 := IssueOtp(st, name, phone, draw, t0).post;
    assert s1.users == st.users && s1.sessions == st.sessions;
    IssueThenVerify(st, name, phone, draw, t0, t1, t1, token, token);
    VerifyOtpAccepts(s1, phone, OtpCode.PadCode(draw), t1, token);
    VerifyOtpThenGate(s1, phone, OtpCode.PadCode(draw), t1, token);
  }

  /** Customer lookups by phone do not look at the role: after an admin is bootstrapped into an empty store, an OTP sign-in with its placeholder phone yields an admin session. */
  lemma PlaceholderPhoneSignsInAsAdmin(email: string, name: string, draw: nat, now: int, token1: string, token2: string)
    requires draw < OtpCode.CODE_SPACE
    requires IsMintedToken(token1) && IsMintedToken(token2) && token1 != token2
    ensures var s1 := AdminLogin(EMPTY, email, ADMIN_PASSWORD, token1, now).post;
      var s2 := IssueOtp(s1, name, ADMIN_PHONE, draw, now).post;
      var v := VerifyOtp(s2, ADMIN_PHONE, OtpCode.PadCode(draw), now, token2);
      v.reply.Ok? && RequireAdmin(v.post, Some(token2)) == Ok(0)
  {
    var s1 := State([User(0, ADMIN_NAME, ADMIN_PHONE, Some(email), Admin, true)], [], [Session(0, token1, now)], [], None, 1);
    BootstrapOnEmpty(email, token1, now);
    PlaceholderPhoneAccepted();
    assert UserByPhone(s1.users, ADMIN_PHONE) == Some(0);
    OtpSignInTakesFirstUser(s1, name, ADMIN_PHONE, draw, now, now, token2);
  }

  /** The first admin login on an empty store creates admin 0 with the placeholder phone and its session, and the store stays consistent. */
  lemma BootstrapOnEmpty(email: string, token: string, now: int)
    requires IsMintedToken(token)
    ensures AdminLogin(EMPTY, email, ADMIN_PASSWORD, token, now).post ==
      State([User(0, ADMIN_NAME, ADMIN_PHONE, Some(email), Admin, true)], [], [Session(0, token, now)], [], None, 1)
    ensures Inv(AdminLogin(EMPTY, email, ADMIN_PASSWORD, token, now).post)
  {
    EmptyInv();
    AdminLoginKeepsInv(EMPTY, email, ADMIN_PASSWORD, token, now);
  }

  lemma PlaceholderPhoneAccepted()
    ensures Phone.AcceptedPhone(ADMIN_PHONE)
  {
    assert Phone.PhoneShape(ADMIN_PHONE);
  }
}
