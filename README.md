# PrintZest authentication core in Dafny

This project models the authentication and session-authorization logic of the
PrintZest storefront backend (`main.py`). Customers sign in with a one-time code
sent to their phone. Administrators sign in with an email and password. A
bearer token from either sign-in opens a session. The session gates the order
endpoints, and the admin gate protects the settings endpoint.

The credential store (MongoDB in the source) is an in-memory value `State` with
five collections, each kept as a sequence in insertion order: users, one-time
codes, sessions, orders, and at most one settings document. It also holds a
counter that stands in for the store's generated ids. `find_one` is "the first
matching record" and `delete_many` is "keep the others, in order".

Layout:

- `Http`: error replies (status and detail) and the `Result`/`Option` wrappers.
- `Phone`: `validate_phone`. One definition follows the regex engine on
  `^\+?\d{10,14}$`, including Python's `$` admitting one final newline. A
  second, declarative definition is proved equivalent to it.
- `OtpCode`: the `06d` zero-padding of the random draw. It is proved to be a
  bijection between the draws 0..999999 and the six-digit strings.
- `Records`: the entities and the store queries (`find_one`, `delete_many`,
  `find`).
- `Auth`: `request_otp`, `verify_otp`, `admin_login`, `require_admin` and the
  session check of the order endpoints. Each is a function from the store
  before the call to the store after it and the reply.
- `Shop`: `place_order`, `my_orders`, `get_settings`, `set_settings`, in the
  same form.
- `Invariants`: the store consistency that every endpoint preserves. User ids
  are distinct, order ids are distinct, and every id is below the generator. Each phone has at most one live code, and only a registered phone
  has one. Tokens are distinct minted tokens. A phone belongs to at most one
  customer. Sessions and orders refer to existing users.
- `AuthProperties`, `ShopProperties`: the promised behaviour, proved over
  single calls and call sequences.
- `Backend`: the class `Store`. Its fields are the collections. Its methods are
  the endpoints, each proved to leave the store and reply exactly as the
  corresponding function says, and to keep it consistent.

The clock (`now`, UTC microseconds), the random code draw and the generated
token are parameters. A token is 32 URL-safe characters, the shape of
`secrets.token_urlsafe(24)`. The methods require it to be unused, because the
source relies on its entropy for uniqueness.

The model keeps these behaviours of the code as written:

- Codes are deleted only when a verification succeeds. A failed attempt leaves
  them in place.
- The admin password is checked against the fixed `admin123` whether or not
  the admin account exists.
- A token collision is not checked for.

One consequence of the code is proved as lemmas. Every bootstrapped admin
gets the placeholder phone `+10000000000`. Lookups by phone do not look at the
role: an OTP sign-in takes the first user holding the phone, whatever its role
(`AuthProperties.OtpSignInTakesFirstUser`). So when the first user holding
`+10000000000` is a bootstrapped admin, an OTP request and verification for
that phone signs in as that admin, and the new token passes the admin gate.
`AuthProperties.PlaceholderPhoneSignsInAsAdmin` proves this for an admin
bootstrapped into an empty store. If a customer registered that phone first,
the sign-in is the customer's instead.

## Model

| member | source | states |
|---|---|---|
| Phone.ValidatePhone | main.py:25-31 | succeeds exactly for an optional `+` then 10-14 digits, optionally followed by one final newline, returning the phone unchanged; otherwise 400 "Invalid phone number format" |
| Phone.MatchesIff | main.py:25 | the backtracking regex match (optional `+`, greedy `\d{10,14}`, `$`) agrees with the declarative phone shape |
| Phone.TryDigitsIff | main.py:25 | greedy `\d{10,14}$` with backtracking succeeds iff the whole leading digit run has 10 to 14 digits and ends the input (or precedes a final newline) |
| Phone.DigitRun | main.py:25 | the leading digit run is all digits and is followed by a non-digit or the end |
| Phone.PhoneExamples | main.py:25-31 | "12345" is rejected with 400; "+12025550123" and "12025550123\n" are accepted; a letter among the digits is rejected |
| OtpCode.PadCode | main.py:112 | the code for a draw below 1000000 is six decimal digits denoting the draw |
| OtpCode.CodeSpaceIsExact | main.py:112 | every six-digit string 000000-999999 is the code of exactly the draw it denotes |
| OtpCode.PadCodeExample | main.py:112 | draw 42917 gives "042917" |
| OtpCode.DecimalValue | main.py:112 | the decimal numeral of n denotes n |
| OtpCode.ValueInjective | main.py:112 | equal-length digit strings denoting the same number are equal |
| Records.UserByPhone | main.py:103 | the first user with the phone, or none when no user has it |
| Records.UserById | main.py:92 | the first user with the id, or none when no user has it |
| Records.AdminByEmail | main.py:138 | the first user that is an admin with that email, or none |
| Records.OtpMatch | main.py:123 | the first code record matching both phone and code, or none when no record matches both |
| Records.SessionByToken | main.py:89 | the first session with the token, or none when no session has it |
| Records.WithoutPhone | main.py:114 | deleting a phone's codes keeps exactly the records of other phones |
| Records.OrdersOf | main.py:208 | the orders listed are exactly the stored orders with that user id |
| Records.OtpsForWithoutPhone | main.py:114 | after deleting a phone's codes that phone has none and every other phone's codes are unchanged, in order |
| Records.OtpsForAppend | main.py:115 | inserting a code adds it to its own phone's codes only |
| Records.OrdersOfAppend | main.py:190-197 | inserting an order adds it to its own user's listing only |
| Auth.IssueOtp | main.py:99-117 | a failed issuance leaves the store unchanged |
| Auth.VerifyOtp | main.py:120-132 | a failed verification (400 or 404) leaves the store, codes and sessions included, unchanged; which failure each case gets is `AuthProperties.VerifyOtpRejects` and `AuthProperties.VerifyOtpExpiredOrUnknownUser` |
| Auth.AdminLogin | main.py:136-152 | a failed login is 401 "Invalid credentials" and changes nothing; success replies with the token |
| Auth.RequireAdmin | main.py:86-95 | 401 "Missing admin token" without a token, 401 "Invalid token" without a session; a returned id is that of an admin whose session holds the token; the only errors are these two and 403 (which case gives 403 is `AuthProperties.RequireAdminSessionFound`) |
| Auth.SessionUser | main.py:183-188 | 401 "Missing session token" without a token; succeeds iff some session has the token, returning that session's user id; otherwise 401 "Invalid session" |
| Shop.StatusFor | main.py:195 | the status is "pending" iff the payment mode is "COD", otherwise "paid" |
| Shop.PlaceOrder | main.py:181-199 | fails iff the session check fails, with its error and no store change |
| Shop.MyOrders | main.py:201-209 | fails iff the session check fails; otherwise returns exactly the orders of the session's user |
| Shop.DropNone | main.py:237 | keeps exactly the payload fields that are not None, with their values |
| Shop.SetFields | main.py:239 | `$set` overwrites the given fields and keeps every other field |
| Shop.GetSettings | main.py:223-232 | returns the stored document unchanged, or seeds and stores the default brand name and welcome message when there is none |
| Shop.SetSettings | main.py:234-244 | fails iff the admin gate fails, with its error and no store change; on success the stored document is the reply |
| Invariants.IssueOtpKeepsInv | main.py:99-117 | issuance keeps the store consistent: one code per phone, and only for a registered phone |
| Invariants.VerifyOtpKeepsInv | main.py:120-132 | verification with a fresh token keeps the store consistent |
| Invariants.AdminLoginKeepsInv | main.py:136-152 | admin login with a fresh token keeps the store consistent |
| Invariants.PlaceOrderKeepsInv | main.py:181-199 | placing an order keeps the store consistent: the new order's id is fresh, so order ids stay distinct, and the order is owned by an existing user |
| Invariants.GetSettingsKeepsInv | main.py:223-232 | reading (and seeding) the settings keeps the store consistent |
| Invariants.SetSettingsKeepsInv | main.py:234-244 | writing the settings keeps the store consistent, whether or not the caller passes the gate |
| Invariants.ReplaceCodeKeepsOnePerPhone | main.py:114-115 | delete-then-insert keeps at most one code per phone |
| Invariants.WithoutPhoneOnePerPhone | main.py:114 | deleting codes keeps at most one code per phone |
| AuthProperties.IssueOtpEffects | main.py:99-117 | an invalid phone gives 400 and no change; otherwise the reply is the padded draw, a user holds the phone, a customer with the given name is added only if none held it, the phone's codes are exactly the new one expiring at now + 5 minutes, other phones' codes and all other collections are unchanged |
| AuthProperties.OtpMatchFor | main.py:123 | a (phone, code) match exists iff the phone's own codes contain the code |
| AuthProperties.VerifyOtpRejects | main.py:122-125 | an invalid phone gives 400 "Invalid phone number format"; a code not on file for the phone gives 400 "Invalid or expired OTP"; neither changes the store |
| AuthProperties.VerifyOtpExpiredOrUnknownUser | main.py:122-128 | a matching code that has expired gives 400 "Invalid or expired OTP"; a live matching code for a phone no user holds gives 404 "User not found"; neither changes the store |
| AuthProperties.VerifyOtpAccepts | main.py:126-132 | on success the reply describes the first user holding the phone, exactly one session for it is appended, the phone's codes are all removed, nothing else changes |
| AuthProperties.VerifyOtpSucceedsIff | main.py:122-131 | in a consistent store verification succeeds iff the phone is valid and holds that code with `now <= expires_at` (so the expiry instant itself succeeds), and the 404 case never occurs |
| AuthProperties.IssueThenVerify | main.py:99-131 | verifying the issued code within five minutes succeeds, and a second verification with it fails with 400 |
| AuthProperties.ExpiredCodeRejected | main.py:124-125 | verifying the issued code after its five minutes fails with 400 and changes nothing |
| AuthProperties.ReissueInvalidates | main.py:114-115 | after a second issuance with a different draw, the first code fails with 400 |
| AuthProperties.AdminLoginOutcome | main.py:136-152 | login succeeds iff the password is "admin123"; a wrong one gives 401 with no change; success creates the admin (name "Admin", phone "+10000000000") only when no admin with that email exists and appends exactly one session for the admin |
| AuthProperties.RequireAdminIff | main.py:86-95 | in a consistent store the gate returns a user id iff a session with the token belongs to that admin user, and 403 iff the session's user is not an admin |
| AuthProperties.RequireAdminSessionFound | main.py:89-95 | for a token some session holds, the gate looks up that session's user: 403 when the user is missing or not an admin, otherwise the admin's id; never a 401 |
| AuthProperties.AdminLoginThenGate | main.py:86-95 | a token from a successful admin login passes the gate and the session check as that admin |
| AuthProperties.VerifyOtpThenGate | main.py:86-95 | a token from a successful verification resolves to the signed-in user and passes the gate only if that user is an admin, otherwise 403 |
| AuthProperties.OtpSignInTakesFirstUser | main.py:103-132 | issue then verify signs in as the first user holding the phone, whatever its role |
| AuthProperties.CustomerScenario | main.py:99-132 | Ada's walk-through: code "042917", sign-in succeeds a minute later, the token resolves to Ada and gets 403 at the admin gate |
| AuthProperties.AdminScenario | main.py:136-152 | the first admin login creates the admin; a wrong password afterwards gets 401 |
| AuthProperties.PlaceholderPhoneSignsInAsAdmin | main.py:103-142 | after the admin bootstrap into an empty store, an OTP sign-in with "+10000000000" yields a token that passes the admin gate |
| ShopProperties.PlaceOrderOutcome | main.py:181-199 | without a valid session the error is returned and nothing changes; otherwise one order is appended for the session's user, with the given items and status "pending" iff the mode is "COD" |
| ShopProperties.PlaceThenMyOrders | main.py:181-209 | a placed order appears last in store order in the placing session's listing; another user's listing is unchanged |
| ShopProperties.DumpListsEveryField | main.py:237 | `model_dump` holds exactly the four settings fields, each with the payload's value, None included |
| ShopProperties.GivenFields | main.py:237 | a payload sets exactly the settings fields it does not leave as None |
| ShopProperties.SetSettingsMerge | main.py:236-243 | the given fields are overwritten and all others kept; when no document exists one is created from the given fields alone |
| ShopProperties.SetSettingsBrandName | main.py:237-239 | the brand name afterwards is the payload's when given, otherwise the stored one |
| ShopProperties.SetSettingsIdempotent | main.py:234-244 | applying the same payload twice equals applying it once |
| ShopProperties.GetSettingsIdempotent | main.py:223-232 | the defaults are seeded at most once; a second read changes nothing |
| ShopProperties.SetThenGet | main.py:223-244 | after a successful update, reading the settings returns the updated document and changes nothing |
| Backend.Store.constructor | main.py:12 | a new store is empty and consistent |
| Backend.Store.NewId | main.py:190 | `create_document` hands out the generator's current value as the new id and advances the generator by one; code and session records carry no id and take none, because the code never reads their ids |
| Backend.Store.RequestOtp | main.py:99-117 | updates the collections and replies as `Auth.IssueOtp`, and keeps the store consistent |
| Backend.Store.VerifyOtp | main.py:120-132 | updates the collections and replies as `Auth.VerifyOtp`, and keeps the store consistent |
| Backend.Store.AdminLogin | main.py:136-152 | updates the collections and replies as `Auth.AdminLogin`, and keeps the store consistent |
| Backend.Store.RequireAdmin | main.py:86-95 | changes nothing; replies as `Auth.RequireAdmin`; a returned id is an admin user's |
| Backend.Store.SessionUser | main.py:183-188 | changes nothing; replies as `Auth.SessionUser` |
| Backend.Store.PlaceOrder | main.py:181-199 | updates the orders and replies as `Shop.PlaceOrder`, and keeps the store consistent |
| Backend.Store.MyOrders | main.py:201-209 | changes nothing; replies as `Shop.MyOrders` |
| Backend.Store.GetSettings | main.py:223-232 | seeds and replies as `Shop.GetSettings` |
| Backend.Store.SetSettings | main.py:234-244 | runs the admin gate, then merges and replies as `Shop.SetSettings` |

## Left out

- Phone.ValidatePhone: reads `\d` as an ASCII digit. Python's `\d` on `str` also matches other Unicode decimal digits, which the source accepts and the model rejects. Unicode character classes are outside the model.
- FastAPI routing, CORS, `Header`/`Depends` injection and the uvicorn entry point are framework plumbing. The gate's dependency on `set_settings` is modelled as an explicit call.
- Pydantic request parsing is left out: `EmailStr` validation and normalisation, `quantity >= 1`, type coercion. The model takes the parsed values.
- `database.py` is not part of this model. This leaves out `create_document`'s timestamps, `ObjectId` and `to_str_id`. A shared counter stands in for generated ids.
- The store's natural order is modelled as insertion order. How BSON stores and returns a date (millisecond precision, time-zone awareness) is also left out: a stored expiry reads back as the instant that was written.
- `secrets.randbelow` and `secrets.token_urlsafe` are parameters. Token uniqueness is a precondition, not a checked collision.
- The clock is a parameter. `verify_otp` reads the clock twice (expiry check and session timestamp); the model uses one instant for both.
- The order total (`sum(price * quantity)`) and item prices are floating point and are left out.
- The `created_at` sorting of users, products and orders is left out, because the timestamp is set in `database.py`. `my_orders` returns store order.
- `list_users` and `all_orders` are left out: each is the admin gate followed by an unfiltered, sorted listing.
- Product create and delete, `update_order_status`, the `/` and `/test` endpoints are left out. They are store writes or diagnostics with no logic. `list_products` is left out too: it is an unfiltered read sorted by `created_at`, whose timestamp is set in `database.py`.
- `schemas.py` has no behaviour. Its record shapes and role values shaped the datatypes.
- Concurrency between requests is left out: each call is one atomic step of the store.
- The settings collection holds at most one document here. Nothing in the modelled code creates a second one.
