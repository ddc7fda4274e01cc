/** What the order and settings endpoints promise. */
module ShopProperties {
  import opened Http
  import opened Records
  import opened Auth
  import opened Shop

  /** `place_order`: a session is required; the order is appended under the session's user with the status its payment mode implies. */
  lemma PlaceOrderOutcome(st: State, authorization: Option<string>, order: OrderIn)
    ensures var r := PlaceOrder(st, authorization, order);
      SessionUser(st, authorization).Err? ==> r == Step(st, Err(SessionUser(st, authorization).error))
    ensures var r := PlaceOrder(st, authorization, order);
      SessionUser(st, authorization).Ok? ==>
        r.reply.Ok? && r.post.orders == st.orders + [r.reply.value] &&
        r.reply.value.userId == SessionUser(st, authorization).value &&
        r.reply.value.items == order.items && r.reply.value.paymentMode == order.paymentMode &&
        r.reply.value.deliveryLocation == order.deliveryLocation &&
        (r.reply.value.status == PENDING <==> order.paymentMode == COD) &&
        (r.reply.value.status == PAID <==> order.paymentMode != COD) &&
        r.post.users == st.users && r.post.otps == st.otps && r.post.sessions == st.sessions &&
        r.post.settings == st.settings
  {
  }

  /** A placed order shows up last, in store order, in the placing session's own listing; other users' listings are unchanged. */
  lemma PlaceThenMyOrders(st: State, authorization: Option<string>, order: OrderIn, other: Option<string>)
    requires SessionUser(st, authorization).Ok?
    ensures var r := PlaceOrder(st, authorization, order);
      MyOrders(r.post, authorization) == Ok(MyOrders(st, authorization).value + [r.reply.value])
    ensures var r := PlaceOrder(st, authorization, order);
      SessionUser(st, other).Ok? && SessionUser(st, other) != SessionUser(st, authorization) ==>
        MyOrders(r.post, other) == MyOrders(st, other)
  {
    var uid := SessionUser(st, authorization).value;
    var o := Order(st.nextId, uid, order.items, order.paymentMode, order.deliveryLocation, StatusFor(order.paymentMode));
    var post := st.(orders := st.orders + [o], nextId := st.nextId + 1);
    assert PlaceOrder(st, authorization, order) == Step(post, Ok(o));
    assert SessionUser(post, authorization) == SessionUser(st, authorization);
    assert SessionUser(post, other) == SessionUser(st, other);
    OrdersOfAppend(st.orders, o, uid);
    if SessionUser(st, other).Ok? && SessionUser(st, other) != SessionUser(st, authorization) {
      var ouid := SessionUser(st, other).value;
      assert o.userId != ouid;
      OrdersOfAppend(st.orders, o, ouid);
      assert OrdersOf(post.orders, ouid) == OrdersOf(st.orders, ouid);
    }
  }

  /** `model_dump` lists every settings field, set or not, with the payload's value for it. */
  lemma DumpListsEveryField(payload: SettingsIn)
    ensures Dump(payload).Keys == {BRAND_NAME, LOGO_DATA_URL, QR_DATA_URL, WELCOME_MESSAGE}
    ensures Dump(payload)[BRAND_NAME] == payload.brandName && Dump(payload)[LOGO_DATA_URL] == payload.logoDataUrl
    ensures Dump(payload)[QR_DATA_URL] == payload.qrDataUrl && Dump(payload)[WELCOME_MESSAGE] == payload.welcomeMessage
  {
  }

  /** The fields a payload sets: exactly the ones it does not leave as None. */
  lemma GivenFields(payload: SettingsIn, k: string)
    ensures k in DropNone(Dump(payload)) <==>
      (k == BRAND_NAME && payload.brandName.Some?) || (k == LOGO_DATA_URL && payload.logoDataUrl.Some?) ||
      (k == QR_DATA_URL && payload.qrDataUrl.Some?) || (k == WELCOME_MESSAGE && payload.welcomeMessage.Some?)
  {
  }

  /** `set_settings` for an admin: given fields are overwritten, all others kept; without a document one is created from the given fields alone. */
  lemma SetSettingsMerge(st: State, authorization: Option<string>, payload: SettingsIn)
    requires RequireAdmin(st, authorization).Ok?
    ensures var r := SetSettings(st, authorization, payload);
      var data := DropNone(Dump(payload));
      r.reply.Ok? &&
      (st.settings.None? ==> r.reply.value == SettingsDoc(st.nextId, data)) &&
      (st.settings.Some? ==>
        r.reply.value.id == st.settings.value.id &&
        (forall k :: k in r.reply.value.fields <==> k in st.settings.value.fields || k in data) &&
        (forall k :: k in data ==> r.reply.value.fields[k] == data[k]) &&
        (forall k :: k in st.settings.value.fields && k !in data ==>
           r.reply.value.fields[k] == st.settings.value.fields[k]))
  {
  }

  /** The brand name after a merge is the payload's when given, and otherwise the stored one. */
  lemma SetSettingsBrandName(st: State, authorization: Option<string>, payload: SettingsIn)
    requires RequireAdmin(st, authorization).Ok? && st.settings.Some?
    ensures var f := SetSettings(st, authorization, payload).reply.value.fields;
      payload.brandName.Some? ==> BRAND_NAME in f && f[BRAND_NAME] == payload.brandName.value
    ensures var f := SetSettings(st, authorization, payload).reply.value.fields;
      payload.brandName.None? ==>
        (BRAND_NAME in f <==> BRAND_NAME in st.settings.value.fields) &&
        (BRAND_NAME in f ==> f[BRAND_NAME] == st.settings.value.fields[BRAND_NAME])
  {
    SetSettingsMerge(st, authorization, payload);
    GivenFields(payload, BRAND_NAME);
  }

  /** Setting the same payload twice is the same as setting it once. */
  lemma SetSettingsIdempotent(st: State, authorization: Option<string>, payload: SettingsIn)
    requires RequireAdmin(st, authorization).Ok?
    ensures var r := SetSettings(st, authorization, payload);
      SetSettings(r.post, authorization, payload) == r
  {
    var r := SetSettings(st, authorization, payload);
    assert r.post.users == st.users && r.post.sessions == st.sessions;
    assert RequireAdmin(r.post, authorization) == RequireAdmin(st, authorization);
    var data := DropNone(Dump(payload));
    var s1 := r.reply.value;
    assert SetFields(s1.fields, data) == s1.fields;
  }

  /** Reading the settings seeds the defaults at most once: a second read changes nothing and returns the same document. */
  lemma GetSettingsIdempotent(st: State)
    ensures var r := GetSettings(st);
      GetSettings(r.post) == Step(r.post, r.reply)
  {
  }

  /** After `set_settings` succeeds, `get_settings` returns what it returned, without a change. */
  lemma SetThenGet(st: State, authorization: Option<string>, payload: SettingsIn)
    requires RequireAdmin(st, authorization).Ok?
    ensures var r := SetSettings(st, authorization, payload);
      GetSettings(r.post) == Step(r.post, r.reply)
  {
  }
}
