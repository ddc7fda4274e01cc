/**
 * The endpoints as methods on the store object. Each collection is a field the
 * methods reassign; every method keeps the store consistent (`Valid`) and
 * leaves it, and replies, exactly as the corresponding function of `Auth` or
 * `Shop` says. What those functions guarantee is proved in `AuthProperties`,
 * `ShopProperties` and `Invariants`.
 */
module Backend {
  import opened Http
  import opened Records
  import opened Auth
  import opened Shop
  import opened Invariants
  import Phone
  import OtpCode

  class Store {
    var users: seq<User>
    var otps: seq<Otp>
    var sessions: seq<Session>
    var orders: seq<Order>
    var settings: Option<SettingsDoc>
    var nextId: nat

    /** The store's contents as a value. */
    function Snapshot(): State
      reads this
    {
      State(users, otps, sessions, orders, settings, nextId)
    }

    ghost predicate Valid()
      reads this
    {
      Inv(Snapshot())
    }

    constructor ()
      ensures Valid() && Snapshot() == EMPTY
    {
      users, otps, sessions, orders, settings, nextId := [], [], [], [], None, 0;
      EmptyInv();
    }

    /** The id `create_document` gives a new record. */
    method NewId() returns (id: nat)
      modifies this`nextId
      ensures id == old(nextId) && nextId == old(nextId) + 1
    {
      id := nextId;
      nextId := nextId + 1;
    }

    /** `request_otp`, with the random draw and the clock as parameters. */
    method RequestOtp(name: string, phone: string, draw: nat, now: int) returns (r: Result<string>)
      requires Valid() && draw < OtpCode.CODE_SPACE
      modifies this
      ensures Valid()
      ensures Snapshot() == IssueOtp(old(Snapshot()), name, phone, draw, now).post
      ensures r == IssueOtp(old(Snapshot()), name, phone, draw, now).reply
    {
      ghost var before := Snapshot();
      IssueOtpKeepsInv(before, name, phone, draw, now);
      var checked := Phone.ValidatePhone(phone);
      if checked.Err? {
        return Err(checked.error);
      }
      var p := checked.value;
      if UserByPhone(users, p).None? {
        var id := NewId();
        users := users + [User(id, name, p, None, Customer, true)];
      }
      var code := OtpCode.PadCode(draw);
      var expires := now + OTP_LIFETIME;
      otps := WithoutPhone(otps, p);
      otps := otps + [Otp(p, code, expires)];
      r := Ok(code);
    }

    /** `verify_otp`, with the clock and the freshly generated token as parameters. */
    method VerifyOtp(phone: string, code: string, now: int, token: string) returns (r: Result<Login>)
      requires Valid() && IsMintedToken(token) && TokenUnused(Snapshot(), token)
      modifies this
      ensures Valid()
      ensures Snapshot() == Auth.VerifyOtp(old(Snapshot()), phone, code, now, token).post
      ensures r == Auth.VerifyOtp(old(Snapshot()), phone, code, now, token).reply
    {
      ghost var before := Snapshot();
      VerifyOtpKeepsInv(before, phone, code, now, token);
      var checked := Phone.ValidatePhone(phone);
      if checked.Err? {
        return Err(checked.error);
      }
      var p := checked.value;
      var found := OtpMatch(otps, p, code);
      if found.None? || otps[found.value].expiresAt < now {
        return Err(INVALID_OTP);
      }
      var owner := UserByPhone(users, p);
      if owner.None? {
        return Err(USER_NOT_FOUND);
      }
      var u := users[owner.value];
      sessions := sessions + [Session(u.id, token, now)];
      otps := WithoutPhone(otps, p);
      r := Ok(Login(token, UserSummary(u.id, u.name, u.phone, u.role)));
    }

    /** `admin_login`, with the freshly generated token and the clock as parameters. */
    method AdminLogin(email: string, password: string, token: string, now: int) returns (r: Result<string>)
      requires Valid() && IsMintedToken(token) && TokenUnused(Snapshot(), token)
      modifies this
      ensures Valid()
      ensures Snapshot() == Auth.AdminLogin(old(Snapshot()), email, password, token, now).post
      ensures r == Auth.AdminLogin(old(Snapshot()), email, password, token, now).reply
    {
      ghost var before := Snapshot();
      AdminLoginKeepsInv(before, email, password, token, now);
      var admin: User;
      var found := AdminByEmail(users, email);
      if found.None? {
        if password == ADMIN_PASSWORD {
          var id := NewId();
          admin := User(id, ADMIN_NAME, ADMIN_PHONE, Some(email), Admin, true);
          users := users + [admin];
        } else {
          return Err(INVALID_CREDENTIALS);
        }
      } else {
        if password != ADMIN_PASSWORD {
          return Err(INVALID_CREDENTIALS);
        }
        admin := users[found.value];
      }
      sessions := sessions + [Session(admin.id, token, now)];
      r := Ok(token);
    }

    /** `require_admin`: reads the store and changes nothing. */
    method RequireAdmin(authorization: Option<string>) returns (r: Result<nat>)
      ensures r == Auth.RequireAdmin(Snapshot(), authorization)
      ensures Absent(authorization) ==> r == Err(MISSING_ADMIN_TOKEN)
      ensures r.Ok? ==> exists j :: 0 <= j < |users| && users[j].id == r.value && users[j].role == Admin
    {
      if Absent(authorization) {
        return Err(MISSING_ADMIN_TOKEN);
      }
      var found := SessionByToken(sessions, authorization.value);
      if found.None? {
        return Err(INVALID_TOKEN);
      }
      var owner := UserById(users, sessions[found.value].userId);
      if owner.None? || users[owner.value].role != Admin {
        return Err(FORBIDDEN);
      }
      r := Ok(users[owner.value].id);
    }

    /** The session check shared by `place_order` and `my_orders`. */
    method SessionUser(authorization: Option<string>) returns (r: Result<nat>)
      ensures r == Auth.SessionUser(Snapshot(), authorization)
      ensures r.Ok? ==> exists i :: 0 <= i < |sessions| && sessions[i].token == authorization.value && sessions[i].userId == r.value
    {
      if Absent(authorization) {
        return Err(MISSING_SESSION_TOKEN);
      }
      var found := SessionByToken(sessions, authorization.value);
      if found.None? {
        return Err(INVALID_SESSION);
      }
      r := Ok(sessions[found.value].userId);
    }

    /** `place_order` (without the float total). */
    method PlaceOrder(authorization: Option<string>, order: OrderIn) returns (r: Result<Order>)
      requires Valid()
      modifies this
      ensures Valid()
      ensures Snapshot() == Shop.PlaceOrder(old(Snapshot()), authorization, order).post
      ensures r == Shop.PlaceOrder(old(Snapshot()), authorization, order).reply
    {
      ghost var before := Snapshot();
      PlaceOrderKeepsInv(before, authorization, order);
      var session := SessionUser(authorization);
      if session.Err? {
        return Err(session.error);
      }
      var id := NewId();
      var o := Order(id, session.value, order.items, order.paymentMode, order.deliveryLocation, StatusFor(order.paymentMode));
      orders := orders + [o];
      r := Ok(o);
    }

    /** `my_orders` (in store order): reads the store and changes nothing. */
    method MyOrders(authorization: Option<string>) returns (r: Result<seq<Order>>)
      ensures r == Shop.MyOrders(Snapshot(), authorization)
      ensures r.Ok? ==> forall o :: o in r.value ==> o in orders
    {
      var session := SessionUser(authorization);
      if session.Err? {
        return Err(session.error);
      }
      r := Ok(OrdersOf(orders, session.value));
    }

    /** `get_settings`: seeds the default document on first read. */
    method GetSettings() returns (r: SettingsDoc)
      requires Valid()
      modifies this
      ensures Valid()
      ensures Snapshot() == Shop.GetSettings(old(Snapshot())).post
      ensures Ok(r) == Shop.GetSettings(old(Snapshot())).reply
    {
      GetSettingsKeepsInv(Snapshot());
      if settings.Some? {
        return settings.value;
      }
      var id := NewId();
      r := SettingsDoc(id, DEFAULT_SETTINGS);
      settings := Some(r);
    }

    /** `set_settings`, behind the admin gate. */
    method SetSettings(authorization: Option<string>, payload: SettingsIn) returns (r: Result<SettingsDoc>)
      requires Valid()
      modifies this
      ensures Valid()
      ensures Snapshot() == Shop.SetSettings(old(Snapshot()), authorization, payload).post
      ensures r == Shop.SetSettings(old(Snapshot()), authorization, payload).reply
    {
      SetSettingsKeepsInv(Snapshot(), authorization, payload);
      var gate := RequireAdmin(authorization);
      if gate.Err? {
        return Err(gate.error);
      }
      var data := DropNone(Dump(payload));
      var doc: SettingsDoc;
      if settings.Some? {
        doc := settings.value.(fields := SetFields(settings.value.fields, data));
      } else {
        var id := NewId();
        doc := SettingsDoc(id, data);
      }
      settings := Some(doc);
      r := Ok(doc);
    }
  }
}
