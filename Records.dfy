/**
 * The records of the credential store and the queries the endpoints run
 * against it. Each collection is a sequence in insertion order; `find_one`
 * returns the first record that matches, `delete_many` keeps the others in
 * order. Store-generated ids are natural numbers drawn from one counter.
 */
module Records {
  import opened Http

  datatype Role = Customer | Admin

  datatype User = User(id: nat, name: string, phone: string, email: Option<string>, role: Role, active: bool)

  /** A one-time code; `expiresAt` is a UTC instant in microseconds. */
  datatype Otp = Otp(phone: string, code: string, expiresAt: int)

  datatype Session = Session(userId: nat, token: string, createdAt: int)

  /** An order line without its price (a float, see the README). */
  datatype OrderItem = OrderItem(productId: string, title: string, size: string, quantity: int)

  datatype Order = Order(id: nat, userId: nat, items: seq<OrderItem>, paymentMode: string,
                         deliveryLocation: string, status: string)

  /** The settings document: its id and the fields it holds. */
  datatype SettingsDoc = SettingsDoc(id: nat, fields: map<string, string>)

  /** The whole store: the user, otp, session, order and settings collections and the id generator. */
  datatype State = State(users: seq<User>, otps: seq<Otp>, sessions: seq<Session>, orders: seq<Order>,
                         settings: Option<SettingsDoc>, nextId: nat)

  const EMPTY := State([], [], [], [], None, 0)

  /** `db["user"].find_one({"phone": phone})` */
  function UserByPhone(users: seq<User>, phone: string): (r: Option<nat>)
    ensures r.Some? ==> r.value < |users| && users[r.value].phone == phone
    ensures r.Some? ==> forall j :: 0 <= j < r.value ==> users[j].phone != phone
    ensures r.None? <==> forall j :: 0 <= j < |users| ==> users[j].phone != phone
  {
    if users == [] then None
    else if users[0].phone == phone then Some(0)
    else match UserByPhone(users[1..], phone)
      case None => None
      case Some(k) => Some(k + 1)
  }

  /** `db["user"].find_one({"_id": id})` */
  function UserById(users: seq<User>, id: nat): (r: Option<nat>)
    ensures r.Some? ==> r.value < |users| && users[r.value].id == id
    ensures r.Some? ==> forall j :: 0 <= j < r.value ==> users[j].id != id
    ensures r.None? <==> forall j :: 0 <= j < |users| ==> users[j].id != id
  {
    if users == [] then None
    else if users[0].id == id then Some(0)
    else match UserById(users[1..], id)
      case None => None
      case Some(k) => Some(k + 1)
  }

  predicate IsAdminWithEmail(u: User, email: string) {
    u.email == Some(email) && u.role == Admin
  }

  /** `db["user"].find_one({"email": email, "role": "admin"})` */
  function AdminByEmail(users: seq<User>, email: string): (r: Option<nat>)
    ensures r.Some? ==> r.value < |users| && IsAdminWithEmail(users[r.value], email)
    ensures r.Some? ==> forall j :: 0 <= j < r.value ==> !IsAdminWithEmail(users[j], email)
    ensures r.None? <==> forall j :: 0 <= j < |users| ==> !IsAdminWithEmail(users[j], email)
  {
    if users == [] then None
    else if IsAdminWithEmail(users[0], email) then Some(0)
    else match AdminByEmail(users[1..], email)
      case None => None
      case Some(k) => Some(k + 1)
  }

  /** `db["otp"].find_one({"phone": phone, "code": code})` */
  function OtpMatch(otps: seq<Otp>, phone: string, code: string): (r: Option<nat>)
    ensures r.Some? ==> r.value < |otps| && otps[r.value].phone == phone && otps[r.value].code == code
    ensures r.Some? ==> forall j :: 0 <= j < r.value ==> !(otps[j].phone == phone && otps[j].code == code)
    ensures r.None? <==> forall j :: 0 <= j < |otps| ==> !(otps[j].phone == phone && otps[j].code == code)
  {
    if otps == [] then None
    else if otps[0].phone == phone && otps[0].code == code then Some(0)
    else match OtpMatch(otps[1..], phone, code)
      case None => None
      case Some(k) => Some(k + 1)
  }

  /** `db["session"].find_one({"token": token})` */
  function SessionByToken(sessions: seq<Session>, token: string): (r: Option<nat>)
    ensures r.Some? ==> r.value < |sessions| && sessions[r.value].token == token
    ensures r.Some? ==> forall j :: 0 <= j < r.value ==> sessions[j].token != token
    ensures r.None? <==> forall j :: 0 <= j < |sessions| ==> sessions[j].token != token
  {
    if sessions == [] then None
    else if sessions[0].token == token then Some(0)
    else match SessionByToken(sessions[1..], token)
      case None => None
      case Some(k) => Some(k + 1)
  }

  /** `db["otp"].delete_many({"phone": phone})`: the codes for other phones, in their order. */
  function WithoutPhone(otps: seq<Otp>, phone: string): (r: seq<Otp>)
    ensures |r| <= |otps|
    ensures forall o :: o in r <==> o in otps && o.phone != phone
  {
    if otps == [] then []
    else if otps[0].phone == phone then WithoutPhone(otps[1..], phone)
    else [otps[0]] + WithoutPhone(otps[1..], phone)
  }

  /** The codes recorded for one phone, in store order. */
  function OtpsFor(otps: seq<Otp>, phone: string): (r: seq<Otp>)
    ensures |r| <= |otps|
    ensures forall o :: o in r <==> o in otps && o.phone == phone
  {
    if otps == [] then []
    else if otps[0].phone == phone then [otps[0]] + OtpsFor(otps[1..], phone)
    else OtpsFor(otps[1..], phone)
  }

  /** `db["order"].find({"user_id": userId})`, in store order. */
  function OrdersOf(orders: seq<Order>, userId: nat): (r: seq<Order>)
    ensures |r| <= |orders|
    ensures forall o :: o in r <==> o in orders && o.userId == userId
  {
    if orders == [] then []
    else if orders[0].userId == userId then [orders[0]] + OrdersOf(orders[1..], userId)
    else OrdersOf(orders[1..], userId)
  }

  lemma {:induction false} OtpsForAppend(otps: seq<Otp>, o: Otp, phone: string)
    ensures OtpsFor(otps + [o], phone) == OtpsFor(otps, phone) + (if o.phone == phone then [o] else [])
  {
    if otps != [] {
      assert (otps + [o])[1..] == otps[1..] + [o];
      OtpsForAppend(otps[1..], o, phone);
    }
  }

  /** Deleting the codes of one phone leaves the codes of every other phone exactly as they were. */
  lemma {:induction false} OtpsForWithoutPhone(otps: seq<Otp>, phone: string, q: string)
    ensures OtpsFor(WithoutPhone(otps, phone), q) == if q == phone then [] else OtpsFor(otps, q)
  {
    if otps != [] {
      OtpsForWithoutPhone(otps[1..], phone, q);
      if otps[0].phone != phone {
        assert ([otps[0]] + WithoutPhone(otps[1..], phone))[1..] == WithoutPhone(otps[1..], phone);
      }
    }
  }

  lemma {:induction false} OrdersOfAppend(orders: seq<Order>, o: Order, userId: nat)
    ensures OrdersOf(orders + [o], userId) == OrdersOf(orders, userId) + (if o.userId == userId then [o] else [])
  {
    if orders != [] {
      assert (orders + [o])[1..] == orders[1..] + [o];
      OrdersOfAppend(orders[1..], o, userId);
    }
  }
}
