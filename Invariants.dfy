/**
 * The consistency the endpoints keep in the store: user ids are distinct, order
 * ids are distinct, every id is below the generator, every phone has at most one live code and that code belongs
 * to a registered phone, tokens are distinct minted tokens, and every session
 * and order refers to an existing user.
 */
module Invariants {
  import opened Http
  import opened Records
  import opened Auth
  import opened Shop
  import Phone
  import OtpCode

  ghost predicate IdsFresh(st: State) {
    (forall i :: 0 <= i < |st.users| ==> st.users[i].id < st.nextId) &&
    (forall i :: 0 <= i < |st.orders| ==> st.orders[i].id < st.nextId) &&
    (st.settings.Some? ==> st.settings.value.id < st.nextId)
  }

  ghost predicate UserIdsDistinct(users: seq<User>) {
    forall i, j :: 0 <= i < j < |users| ==> users[i].id != users[j].id
  }

  ghost predicate OrderIdsDistinct(orders: seq<Order>) {
    forall i, j :: 0 <= i < j < |orders| ==> orders[i].id != orders[j].id
  }

  /** Phone uniquely identifies a customer. */
  ghost predicate CustomerPhonesDistinct(users: seq<User>) {
    forall i, j :: 0 <= i < j < |users| && users[i].role == Customer && users[j].role == Customer ==>
      users[i].phone != users[j].phone
  }

  /** At most one live code per phone. */
  ghost predicate OnePerPhone(otps: seq<Otp>) {
    forall i, j :: 0 <= i < j < |otps| ==> otps[i].phone != otps[j].phone
  }

  ghost predicate CodesWellFormed(otps: seq<Otp>) {
    forall i :: 0 <= i < |otps| ==> |otps[i].code| == OtpCode.CODE_WIDTH && Phone.AllDigits(otps[i].code)
  }

  ghost predicate OtpsOwned(st: State) {
    forall i :: 0 <= i < |st.otps| ==> HasUserWithPhone(st.users, st.otps[i].phone)
  }

  ghost predicate TokensDistinct(sessions: seq<Session>) {
    forall i, j :: 0 <= i < j < |sessions| ==> sessions[i].token != sessions[j].token
  }

  ghost predicate TokensMinted(sessions: seq<Session>) {
    forall i :: 0 <= i < |sessions| ==> IsMintedToken(sessions[i].token)
  }

  predicate HasUserWithId(users: seq<User>, id: nat) {
    exists j :: 0 <= j < |users| && users[j].id == id
  }

  ghost predicate SessionsOwned(st: State) {
    forall i :: 0 <= i < |st.sessions| ==> HasUserWithId(st.users, st.sessions[i].userId)
  }

  ghost predicate OrdersOwned(st: State) {
    forall i :: 0 <= i < |st.orders| ==> HasUserWithId(st.users, st.orders[i].userId)
  }

  ghost predicate Inv(st: State) {
    IdsFresh(st) && UserIdsDistinct(st.users) && OrderIdsDistinct(st.orders) && CustomerPhonesDistinct(st.users) &&
    OnePerPhone(st.otps) && CodesWellFormed(st.otps) && OtpsOwned(st) &&
    TokensDistinct(st.sessions) && TokensMinted(st.sessions) && SessionsOwned(st) && OrdersOwned(st)
  }

  lemma EmptyInv()
    ensures Inv(EMPTY)
  {
  }

  /** Appending a code for a phone after deleting that phone's codes keeps one code per phone. */
  lemma ReplaceCodeKeepsOnePerPhone(otps: seq<Otp>, o: Otp)
    requires OnePerPhone(otps)
    ensures OnePerPhone(WithoutPhone(otps, o.phone) + [o])
  {
    var w := WithoutPhone(otps, o.phone);
    var r := w + [o];
    forall i, j | 0 <= i < j < |r| ensures r[i].phone != r[j].phone {
      if j == |w| {
        assert r[i] in w;
      } else {
        WithoutPhoneOnePerPhone(otps, o.phone);
      }
    }
  }

  lemma {:induction false} WithoutPhoneOnePerPhone(otps: seq<Otp>, phone: string)
    requires OnePerPhone(otps)
    ensures OnePerPhone(WithoutPhone(otps, phone))
  {
    if otps != [] {
      WithoutPhoneOnePerPhone(otps[1..], phone);
      if otps[0].phone != phone {
        var w := WithoutPhone(otps[1..], phone);
        var r := [otps[0]] + w;
        forall i, j | 0 <= i < j < |r| ensures r[i].phone != r[j].phone {
          if i == 0 {
            assert r[j] in otps[1..];
          } else {
            assert r[i] == w[i - 1] && r[j] == w[j - 1];
          }
        }
      }
    }
  }

  /** Adding a user keeps every user id and phone that was present. */
  lemma AddUserKeepsOwners(users: seq<User>, u: User)
    ensures forall id :: HasUserWithId(users, id) ==> HasUserWithId(users + [u], id)
    ensures forall phone :: HasUserWithPhone(users, phone) ==> HasUserWithPhone(users + [u], phone)
  {
    forall id | HasUserWithId(users, id) ensures HasUserWithId(users + [u], id) {
      var j :| 0 <= j < |users| && users[j].id == id;
      assert (users + [u])[j] == users[j];
    }
    forall phone | HasUserWithPhone(users, phone) ensures HasUserWithPhone(users + [u], phone) {
      var j :| 0 <= j < |users| && users[j].phone == phone;
      assert (users + [u])[j] == users[j];
    }
  }

  lemma IssueOtpKeepsInv(st: State, name: string, phone: string, draw: nat, now: int)
    requires Inv(st) && draw < OtpCode.CODE_SPACE
    ensures Inv(IssueOtp(st, name, phone, draw, now).post)
  {
    var r := IssueOtp(st, name, phone, draw, now);
    if r.reply.Ok? {
      var post := r.post;
      var newUser := User(st.nextId, name, phone, None, Customer, true);
      assert post.users == st.users || post.users == st.users + [newUser];
      AddUserKeepsOwners(st.users, newUser);
      assert HasUserWithPhone(post.users, phone) by {
        var k := UserByPhone(st.users, phone);
        if k.Some? { assert post.users[k.value].phone == phone; }
        else { assert post.users[|st.users|] == newUser; }
      }
      ReplaceCodeKeepsOnePerPhone(st.otps, Otp(phone, OtpCode.PadCode(draw), now + OTP_LIFETIME));
      forall i | 0 <= i < |post.otps| ensures HasUserWithPhone(post.users, post.otps[i].phone) {
        if post.otps[i].phone != phone {
          assert post.otps[i] in st.otps;
        }
      }
      forall i | 0 <= i < |post.otps|
        ensures |post.otps[i].code| == OtpCode.CODE_WIDTH && Phone.AllDigits(post.otps[i].code)
      {
        if i < |post.otps| - 1 { assert post.otps[i] in st.otps; }
      }
    }
  }

  lemma VerifyOtpKeepsInv(st: State, phone: string, code: string, now: int, token: string)
    requires Inv(st) && IsMintedToken(token) && TokenUnused(st, token)
    ensures Inv(VerifyOtp(st, phone, code, now, token).post)
  {
    var r := VerifyOtp(st, phone, code, now, token);
    if r.reply.Ok? {
      var post := r.post;
      WithoutPhoneOnePerPhone(st.otps, phone);
      forall i | 0 <= i < |post.otps| ensures post.otps[i] in st.otps { }
      var j := UserByPhone(st.users, phone).value;
      assert post.sessions == st.sessions + [Session(st.users[j].id, token, now)];
      assert HasUserWithId(post.users, st.users[j].id);
    }
  }

  lemma AdminLoginKeepsInv(st: State, email: string, password: string, token: string, now: int)
    requires Inv(st) && IsMintedToken(token) && TokenUnused(st, token)
    ensures Inv(AdminLogin(st, email, password, token, now).post)
  {
    var r := AdminLogin(st, email, password, token, now);
    if r.reply.Ok? {
      var post := r.post;
      if AdminByEmail(st.users, email).None? {
        var admin := User(st.nextId, ADMIN_NAME, ADMIN_PHONE, Some(email), Admin, true);
        assert post.users == st.users + [admin];
        assert post.users[|st.users|] == admin;
        AddUserKeepsOwners(st.users, admin);
        assert HasUserWithId(post.users, admin.id);
      } else {
        var i := AdminByEmail(st.users, email).value;
        assert HasUserWithId(post.users, st.users[i].id);
      }
    }
  }

  lemma PlaceOrderKeepsInv(st: State, authorization: Option<string>, order: OrderIn)
    requires Inv(st)
    ensures Inv(PlaceOrder(st, authorization, order).post)
  {
    var r := PlaceOrder(st, authorization, order);
    if r.reply.Ok? {
      var i := SessionByToken(st.sessions, authorization.value).value;
      assert HasUserWithId(st.users, st.sessions[i].userId);
    }
  }

  lemma GetSettingsKeepsInv(st: State)
    requires Inv(st)
    ensures Inv(GetSettings(st).post)
  {
  }

  lemma SetSettingsKeepsInv(st: State, authorization: Option<string>, payload: SettingsIn)
    requires Inv(st)
    ensures Inv(SetSettings(st, authorization, payload).post)
  {
  }
}
