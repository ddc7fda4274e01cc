/**
 * The session-gated order endpoints (`place_order`, `my_orders`) and the
 * storefront settings (`get_settings`, `set_settings`). Settings documents are
 * maps from field name to text; a field a document does not hold is absent.
 */
module Shop {
  import opened Http
  import opened Records
  import opened Auth

  const COD := "COD"
  const PENDING := "pending"
  const PAID := "paid"

  const BRAND_NAME := "brand_name"
  const LOGO_DATA_URL := "logo_data_url"
  const QR_DATA_URL := "qr_data_url"
  const WELCOME_MESSAGE := "welcome_message"

  /** The body of a new order. */
  datatype OrderIn = OrderIn(items: seq<OrderItem>, paymentMode: string, deliveryLocation: string)

  /** The settings payload: each field may be left out (None). */
  datatype SettingsIn = SettingsIn(brandName: Option<string>, logoDataUrl: Option<string>,
                                   qrDataUrl: Option<string>, welcomeMessage: Option<string>)

  /** The status a new order starts in: cash on delivery waits for payment, anything else counts as paid. */
  function StatusFor(paymentMode: string): (status: string)
    ensures status == PENDING <==> paymentMode == COD
    ensures status == PAID <==> paymentMode != COD
  {
    if paymentMode == COD then PENDING else PAID
  }

  /** `place_order`: the order is filed under the session's user id. */
  function PlaceOrder(st: State, authorization: Option<string>, order: OrderIn): (r: Step<Order>)
    ensures r.reply.Err? <==> SessionUser(st, authorization).Err?
    ensures r.reply.Err? ==> r.post == st && r.reply.error == SessionUser(st, authorization).error
  {
    match SessionUser(st, authorization)
    case Err(e) => Step(st, Err(e))
    case Ok(uid) =>
      var o := Order(st.nextId, uid, order.items, order.paymentMode, order.deliveryLocation, StatusFor(order.paymentMode));
      Step(st.(orders := st.orders + [o], nextId := st.nextId + 1), Ok(o))
  }

  /** `my_orders`: exactly the orders filed under the session's user id, in store order. */
  function MyOrders(st: State, authorization: Option<string>): (r: Result<seq<Order>>)
    ensures r.Err? <==> SessionUser(st, authorization).Err?
    ensures r.Err? ==> r.error == SessionUser(st, authorization).error
    ensures r.Ok? ==> forall o :: o in r.value <==> o in st.orders && o.userId == SessionUser(st, authorization).value
  {
    match SessionUser(st, authorization)
    case Err(e) => Err(e)
    case Ok(uid) => Ok(OrdersOf(st.orders, uid))
  }

  /** `payload.model_dump()`: every field, set or not. */
  function Dump(payload: SettingsIn): map<string, Option<string>> {
    map[BRAND_NAME := payload.brandName, LOGO_DATA_URL := payload.logoDataUrl,
        QR_DATA_URL := payload.qrDataUrl, WELCOME_MESSAGE := payload.welcomeMessage]
  }

  /** `{k: v for k, v in d.items() if v is not None}` */
  function DropNone(d: map<string, Option<string>>): (data: map<string, string>)
    ensures forall k :: k in data <==> k in d && d[k].Some?
    ensures forall k :: k in data ==> data[k] == d[k].value
  {
    map k | k in d && d[k].Some? :: d[k].value
  }

  /** `update_one(..., {"$set": data})`: the fields in `data` are overwritten, the others kept. */
  function SetFields(fields: map<string, string>, data: map<string, string>): (r: map<string, string>)
    ensures r.Keys == fields.Keys + data.Keys
    ensures forall k :: k in data ==> r[k] == data[k]
    ensures forall k :: k in fields && k !in data ==> r[k] == fields[k]
  {
    fields + data
  }

  /** The document `get_settings` seeds when there is none. */
  const DEFAULT_SETTINGS: map<string, string> :=
    map[BRAND_NAME := "PrintZest", WELCOME_MESSAGE := "Quality prints, fast delivery."]

  /** `get_settings`: the stored document, seeding the defaults when there is none. */
  function GetSettings(st: State): (r: Step<SettingsDoc>)
    ensures r.reply.Ok? && r.post.settings == Some(r.reply.value)
    ensures st.settings.Some? ==> r.post == st && r.reply.value == st.settings.value
    ensures st.settings.None? ==> r.reply.value.fields == DEFAULT_SETTINGS
    ensures r.post.users == st.users && r.post.otps == st.otps && r.post.sessions == st.sessions
    ensures r.post.orders == st.orders
  {
    match st.settings
    case Some(s) => Step(st, Ok(s))
    case None =>
      var s := SettingsDoc(st.nextId, DEFAULT_SETTINGS);
      Step(st.(settings := Some(s), nextId := st.nextId + 1), Ok(s))
  }

  /** `set_settings`: behind the admin gate, merge the given fields into the document, or create it from them. */
  function SetSettings(st: State, authorization: Option<string>, payload: SettingsIn): (r: Step<SettingsDoc>)
    ensures r.reply.Err? <==> RequireAdmin(st, authorization).Err?
    ensures r.reply.Err? ==> r.post == st && r.reply.error == RequireAdmin(st, authorization).error
    ensures r.reply.Ok? ==> r.post.settings == Some(r.reply.value)
    ensures r.post.users == st.users && r.post.otps == st.otps && r.post.sessions == st.sessions
    ensures r.post.orders == st.orders
  {
    match RequireAdmin(st, authorization)
    case Err(e) => Step(st, Err(e))
    case Ok(_) =>
      var data := DropNone(Dump(payload));
      match st.settings
      case Some(s) =>
        var s1 := s.(fields := SetFields(s.fields, data));
        Step(st.(settings := Some(s1)), Ok(s1))
      case None =>
        var s1 := SettingsDoc(st.nextId, data);
        Step(st.(settings := Some(s1), nextId := st.nextId + 1), Ok(s1))
  }
}
