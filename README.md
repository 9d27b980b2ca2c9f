# Order fulfilment of the valor-site storefront, in Dafny

This project models the server side of a storefront that sells license keys
for game software. Buyers pay through Stripe, either with a payment intent or
with an embedded checkout session, or through the Card Setup invoice gateway.
A pending order is recorded when checkout starts. One of several triggers
later completes it and issues a license key:

- the Stripe webhook (`payment_intent.succeeded`, `checkout.session.completed`,
  and `charge.refunded` for refunds);
- the completion route the success page calls;
- the admin's single and bulk reprocessing of stuck orders;
- the two Card Setup callbacks (verify and finalize).

The store is the class `Store.Db`. It holds the tables the server code reads
and writes, each as a sequence of rows in insertion order: orders, license
keys, coupons, products and variants. It also holds an id counter that
stands for the database's generated uuids. The `lib/db` modules
(`Orders`, `LicenseKeys`, `Coupons`) are pure functions over those sequences
plus thin methods that write one table. Each entry point is a method with a
`modifies db` frame whose `ensures` give the whole new state. Outside inputs
are parameters of those methods:

- the gateways' answers: the verdict of the signature check, the payment
  intent's status, the Card Setup replies, and the objects Stripe creates;
- the clock;
- the random draws that spell a key and the random part of an order number;
- which store calls report an error (the `Faults` records).

Every trigger keeps the invariants `Fulfilment.OrderInvariants` names:

- order and key ids stay primary keys below the id counter;
- an order whose `license_key_id` changed is, after the write, "paid" or
  "completed";
- no license key is held by two orders.

The last two are stated by `Store.KeyWritesSettle` and `Store.KeyRefsFresh`.
Triggers applied one after another are idempotent:
`StripeWebhook.DeliverIntentTwice`, `CompleteOrder.Retry` and
`CompleteOrder.WebhookThenPage` prove that a second success trigger for the
same payment changes nothing.

Around the store sit small pure modules:

- `Text`: JavaScript `trim`, ASCII case mapping, `includes`, `join`;
- `Radix`: `toString(36)` and `String(n)`;
- `Json`: truthiness, `?.` and `||` chains over JSON replies;
- `Rows`: the PostgREST filter, `.single()`, `.order()`, update and delete over a
  sequence of rows;
- the catalogue (`Catalogue`), category slugs and ordering (`Categories`),
  the settings table (`SiteSettings`), the Card Setup client
  (`CardSetupClient`) and the external key supplier (`ExternalKeyApi`).

The two small tables the server writes in place are classes:
`Categories.Table` and `SiteSettings.Table`.

Where the code departs from a clean order state machine, the model does what
the code does. The departures it proves:

- The webhook completes an order even when key creation failed. The order
  then has no `license_key_id` and gets `license_key_error` in its metadata
  (`StripeWebhook.Fulfil`).
- The completion route never asks a gateway, sets "paid" rather than
  "completed", leaves the metadata alone and does not count the coupon
  (`CompleteOrder.Post`).
- Admin reprocessing skips payment verification when the order has no
  payment intent (`AdminActions.Refusal`). It can also leave a key issued to
  an order whose update then failed (`AdminActions.ProcessOrderManually`);
  the batch does so for every such turn (`AdminActions.KeyedTurns`,
  `AdminActions.IssuedKeys`).
- The Card Setup verify path treats only "completed" as done, so it reports a
  "paid" order as a failure. The finalize path does the same, so it
  finalizes a "paid", "failed" or "refunded" order again.
- Both Card Setup callbacks call `createLicenseKeyForOrder(orderId,
  variantId, …)` against its declaration `(variantId, orderId, …)`. The key
  row they insert therefore names the order as its variant and the variant
  as its order (`CardSetupActions.CallbackKey`).
- A rejecting Card Setup reply deletes the pending order twice: once in its
  own branch and once more in the `catch`.
- The two coupon rule sets round differently. `lib/db/coupons.ts` rounds the
  price and `app/actions/cardsetup.ts` rounds the discount, so they differ
  by one cent exactly when the exact discount ends in half a cent
  (`CardSetupActions.TwoRoundings`).
- A failed order insert after a checkout session was created still returns
  the session (`StripeActions.CreateCheckoutSession`).
- A key whose status lookup fails is deleted without the "used" check
  (`KeyInventory.DeleteLicenseKey`).
- `charge.refunded` without a refund id drops the `refund_id` key from the
  metadata instead of storing a null (`StripeWebhook.RefundMeta`, through
  `Store.SetMeta`).
- `lib/database.types.ts` omits "completed" from the order status type.
  The code writes it, so the model includes it.
- The external key supplier adapter (`ExternalKeyApi`) is modelled on its
  own. No trigger in the code calls it.

## Model

| member | source | states |
|---|---|---|
| Store.SetMeta | app/api/webhooks/stripe/route.ts:232-236 | spreading `{...metadata, k: v}` into a jsonb column sets `k` to `v`, drops `k` when `v` is undefined, and keeps every other key with its value |
| StripeWebhook.IntentSuccessMeta | app/api/webhooks/stripe/route.ts:92-96 | the stored metadata with every key kept and `stripe_payment_id` set to the intent id, and no other key added |
| StripeWebhook.IntentFailureMeta | app/api/webhooks/stripe/route.ts:78-83 | the stored metadata with every key kept, `license_key_error` set to "Failed to generate" and `stripe_payment_id` to the intent id, and no other key added |
| StripeWebhook.SessionSuccessMeta | app/api/webhooks/stripe/route.ts:184-189 | the stored metadata with every key kept, `stripe_session_id` set to the session id and `stripe_payment_intent` to its intent or null, and no other key added |
| StripeWebhook.SessionFailureMeta | app/api/webhooks/stripe/route.ts:170-175 | the stored metadata with every key kept, `license_key_error` set to "Failed to generate" and `stripe_session_id` to the session id, and no other key added |
| StripeWebhook.RefundMeta | app/api/webhooks/stripe/route.ts:232-236 | the stored metadata with `refunded_at` set to now, `refund_id` set to the first refund's id or dropped when the charge has none, every other key kept and no other key added |
| Store.FindOrder | lib/db/orders.ts:102 | the lookup by id finds an order exactly when a row has that id, and the row it finds has it |
| Store.FindKey | lib/db/orders.ts:112-114 | the lookup of a key by id finds one exactly when a key row has that id |
| Store.FindVariant | lib/db/orders.ts:110 | a variant found by id is in the table with that id; none is found only when no row has the id |
| Store.FindProduct | lib/db/orders.ts:108 | a product found by id is in the table with that id; none is found only when no row has the id |
| Store.ProductBySlug | app/actions/stripe.ts:15-18 | `getProductBySlug` finds only a product with that slug and no store error, and finds it whenever exactly one product has the slug |
| Store.VariantById | app/actions/stripe.ts:24-27 | `getVariantById` finds only a variant with that id and no store error, and finds it whenever exactly one variant has the id |
| Store.FindOrderIsSingle | lib/db/orders.ts:102 | with ids a primary key, `.eq("id", id).single()` on orders is the lookup by id |
| Store.FindKeyIsSingle | app/actions/license-keys.ts:151 | with ids a primary key, `.eq("id", id).single()` on keys is the lookup by id |
| Store.KeyWritesSettleRefl | app/api/webhooks/stripe/route.ts:90-97 | a table compared with itself satisfies the invariant that a changed `license_key_id` comes with a settled status |
| Store.UpdateSettles | app/api/webhooks/stripe/route.ts:90-97 | an update by id that either keeps the key id or makes the row "paid"/"completed" keeps that invariant |
| Store.InsertSettles | lib/db/orders.ts:21-33 | inserting a new order without a key id keeps that invariant |
| Store.DeleteSettles | app/actions/cardsetup.ts:133 | deleting orders keeps that invariant |
| Store.InPlaceSettles | lib/db/orders.ts:89 | the row-by-row form of the invariant implies the id-based one when ids are a key |
| Store.UpdateSettlesInPlace | lib/db/orders.ts:89 | an update by id that keeps ids and either keeps the key id or settles the row satisfies the row-by-row invariant |
| Store.FreshKeyWrite | app/api/webhooks/stripe/route.ts:90-97 | writing the id of the key just issued into one order keeps every key held by at most one order |
| Store.KeyRefsKept | app/api/webhooks/stripe/route.ts:222-241 | a write that keeps every order's key id keeps the keys held once each and issued before the counter |
| Rows.Filter | lib/db/orders.ts:51 | `.eq` keeps exactly the rows satisfying the filter: all of them when every row matches, none when no row does |
| Rows.Single | lib/db/orders.ts:48-58 | `.single()` returns a row exactly when one row matches, and that row matches |
| Rows.First | lib/db/license-keys.ts:57-63 | `.limit(1).single()` returns a row exactly when some row matches |
| Rows.Count | app/actions/license-keys.ts:28-43 | a `count: "exact"` query counts the matching rows, never more than the table holds |
| Rows.CountMonotone | app/actions/license-keys.ts:28-43 | a narrower filter counts no more rows |
| Rows.CountDisjoint | app/actions/license-keys.ts:33-43 | two exclusive filters count together what their union counts |
| Rows.UpdateWhere | lib/db/orders.ts:89 | `.update(f).eq(...)` rewrites exactly the matching rows in place and keeps the rest |
| Rows.DeleteWhere | app/actions/license-keys.ts:157 | `.delete().eq(...)` keeps exactly the non-matching rows |
| Rows.FilterAppend | lib/db/orders.ts:21-33 | filtering a table with a row appended is filtering the table, then the row |
| Rows.FilterAgree | lib/db/orders.ts:51 | filters that agree on every row select the same rows |
| Rows.DeleteNone | app/actions/cardsetup.ts:133 | a delete that matches no row changes nothing |
| Rows.DeleteLast | app/actions/cardsetup.ts:160 | deleting the order just inserted gives back the table before the insert |
| Rows.UpdateLast | app/actions/cardsetup.ts:165-174 | updating the order just inserted rewrites that row only |
| Rows.AppendFresh | lib/db/orders.ts:21-33 | inserting a row under the next id keeps ids a primary key below the counter |
| Rows.AppendFreshBatch | lib/db/license-keys.ts:128 | inserting a batch under consecutive fresh ids keeps ids a primary key |
| Rows.RaiseBound | lib/db/orders.ts:21-33 | ids below a bound stay below any higher bound |
| Rows.UpdateKeyed | lib/db/orders.ts:89 | an update that keeps ids keeps them a primary key |
| Rows.FilterKeyed | app/actions/license-keys.ts:157 | a delete keeps ids a primary key |
| Rows.FilterDistinct | app/actions/license-keys.ts:173-178 | filtering keeps the ids distinct |
| Rows.SingleById | lib/db/orders.ts:102 | with ids a primary key, at most one row has an id, and `.single()` on it finds the first such row |
| Rows.InsertBy | lib/db/categories.ts:14 | inserting into a list ordered by a total order keeps it ordered and adds exactly the one row |
| Rows.SortBy | lib/db/categories.ts:14 | `.order(...)` by a total order gives the same rows (a permutation), ordered |
| Rows.ConsSorted | lib/db/categories.ts:14 | a row that may precede the head of an ordered list heads it in order |
| Rows.BoundsPermutation | lib/db/categories.ts:14 | a row that may precede every row of two parts may precede every row of their permutation |
| Rows.FilterUpdate | lib/db/orders.ts:45-58 | when an update never changes whether a row matches a lookup, looking up after the update is updating the rows the lookup found |
| Text.LeadingSpace | app/actions/license-keys.ts:91 | the length of the whitespace run `trim` removes at the start |
| Text.TrailingSpace | app/actions/license-keys.ts:91 | the length of the whitespace run `trim` removes at the end |
| Text.Trim | app/actions/license-keys.ts:91 | `trim`: the input is leading whitespace, the result, trailing whitespace, and the result neither starts nor ends with whitespace |
| Text.TrimPieces | app/actions/license-keys.ts:91 | the trimmed text is the input without its leading and trailing whitespace runs |
| Text.TrimIdempotent | app/actions/license-keys.ts:91 | trimming twice trims nothing more |
| Text.TrimmedNonEmpty | app/actions/license-keys.ts:91 | `map(trim).filter(length > 0)` keeps no empty entry and never grows the list |
| Text.TrimmedKeeps | app/actions/license-keys.ts:91 | every non-blank input is in the cleaned list, trimmed |
| Text.TrimmedFrom | app/actions/license-keys.ts:91 | every entry of the cleaned list is some input, trimmed |
| Text.ToUpper | lib/db/coupons.ts:10 | `toUpperCase` under ASCII case mapping: each character upper-cased on its own |
| Text.ToLower | lib/products.ts:121 | `toLowerCase` under ASCII case mapping: each character lower-cased on its own |
| Text.Includes | lib/products.ts:121 | `includes` holds exactly when the needle occurs at some index |
| Text.IndexOfChar | lib/db/orders.ts:7 | the first position of a character, with no earlier occurrence |
| Text.Substring | lib/db/orders.ts:6 | `substring(start, end)` is never longer than `end - start`, and is exactly that slice when the text is long enough |
| Radix.ValueOf | lib/db/orders.ts:5 | a character's digit value, at most 36 (36 for a character that is no digit) |
| Radix.DigitCharValue | lib/db/orders.ts:5 | each digit character `toString` writes reads back as its digit, is never "-", and is "0" only for zero |
| Radix.ToRadix | lib/db/orders.ts:5 | `n.toString(base)` writes only digits of the base, without leading zeros |
| Radix.RadixRoundTrip | lib/db/orders.ts:5 | reading back what `toString(base)` wrote gives the number again |
| Radix.RadixInjective | lib/db/orders.ts:5 | distinct numbers get distinct base texts |
| Radix.IntToString | app/actions/stripe.ts:58-60 | `String(i)` is non-empty: decimal digits that read back as `i`, after a "-" for a negative `i` |
| Json.Prop | app/actions/cardsetup.ts:139-153 | `v?.key` is defined only on an object holding the key |
| Json.Item | lib/cardsetup.ts:46 | `v?.[i]` is defined only on an array long enough, and is its element |
| Json.Path | app/actions/cardsetup.ts:373 | an optional-chaining path of no keys is the value itself |
| Json.OrChain | lib/external-key-api.ts:104 | `a \|\| b \|\| …` is truthy when some operand is, and is then the first truthy operand |
| Json.UuidText | app/actions/stripe.ts:57 | the text a uuid is interpolated as is never empty |
| Orders.OrderNumberShape | lib/db/orders.ts:4-8 | an order number is "JC-", the upper-case base-36 timestamp, "-", and at most four random characters, and its timestamp part reads back as the time of issue |
| Orders.TimestampReadsBack | lib/db/orders.ts:4-8 | the timestamp part of any order number reads back as the time it was issued at |
| Orders.TimestampDigits | lib/db/orders.ts:5 | the timestamp part is non-empty upper-case base-36 digits, without "-", that read back as the time |
| Orders.UpperKeepsValue | lib/db/orders.ts:5 | upper-casing base-36 digits keeps their value |
| Orders.SplitAtDash | lib/db/orders.ts:7 | the timestamp part ends at the first "-" after the prefix |
| Orders.OrderNumbersDiffer | lib/db/orders.ts:4-8 | two order numbers issued at different milliseconds differ, whatever their random parts |
| Orders.OrderNumber | lib/db/orders.ts:4-8 | defined as "JC-", the base-36 timestamp, "-" and the upper-cased random characters; its properties are the rows `Orders.OrderNumberShape`, `Orders.TimestampReadsBack` and `Orders.OrderNumbersDiffer` |
| Orders.CreateOrder | lib/db/orders.ts:10-43 | `createOrder` inserts exactly one order under a fresh id, always "pending", without key or paid time, with metadata `{}` by default; a store error inserts nothing and returns null |
| Orders.GetOrderByPaymentIntent | lib/db/orders.ts:45-58 | the lookup by payment intent returns an order exactly when one order has that intent and the store answers, and that order has the intent |
| Orders.GetOrderByCheckoutSession | lib/db/orders.ts:61-71 | the same exact-match lookup by checkout session id |
| Orders.ApplyStatusEffect | lib/db/orders.ts:80-87 | the row update writes the status and the supplied fields only, sets `paid_at` exactly for "paid" and "completed", and replaces the metadata when one is supplied |
| Orders.UpdateOrderStatus | lib/db/orders.ts:73-97 | `updateOrderStatus` rewrites only the row with the id, returns the updated row with the new status, or null on an error or a missing row |
| Orders.GetOrderWithDetails | lib/db/orders.ts:99-122 | null for a missing order; the key is fetched only when the order holds a key id, and each detail found belongs to the order |
| Orders.ByPaidTotal | lib/db/orders.ts:174 | `paid_at` descending with nulls first compares any two orders, transitively |
| Orders.SortByPaid | lib/db/orders.ts:174 | `.order("paid_at", { ascending: false })` gives the same orders, latest payment first and a null `paid_at` ahead |
| Orders.GetCompletedOrders | lib/db/orders.ts:167-187 | at most `limit` (100 by default) "paid" or "completed" orders, latest payment first; all of them when they fit, and otherwise every settled order left out was paid no later than every one returned; none on a store error |
| Orders.LatestPaidKept | lib/db/orders.ts:167-176 | of two settled orders, a limit of one returns the one paid later, whatever the table order |
| LicenseKeys.Segment | lib/db/license-keys.ts:11-14 | one segment is five characters, each the alphabet character its draw picks |
| LicenseKeys.GenerateLicenseKey | lib/db/license-keys.ts:4-19 | the two nested loops build exactly the key the draws spell |
| LicenseKeys.DrawOf | lib/db/license-keys.ts:5 | a key character's position in the alphabet, 32 for any other character |
| LicenseKeys.AlphabetIndex | lib/db/license-keys.ts:5 | every alphabet character reads back as its own draw, and none is 0, 1, I, O or "-" |
| LicenseKeys.KeyShape | lib/db/license-keys.ts:4-19 | a key is 23 characters with "-" at positions 5, 11 and 17, and every other character comes from the 32-character alphabet |
| LicenseKeys.KeyFromDraws | lib/db/license-keys.ts:4-19 | defined as the four segments the draws spell, joined by "-"; its properties are the rows `LicenseKeys.GenerateLicenseKey` and `LicenseKeys.KeyShape` |
| Text.Join | lib/db/license-keys.ts:18 | defined as `Array.prototype.join`: the parts with the separator between neighbours, "" for no parts; it is used through `LicenseKeys.KeyShape` and `CardSetupActions.RejectionMessage` |
| LicenseKeys.KeyDeterminesDraws | lib/db/license-keys.ts:4-19 | distinct draws give distinct keys |
| LicenseKeys.ExpiryDays | lib/db/license-keys.ts:30 | the expiry is null exactly for a null or zero duration, and otherwise a whole number of days from issue, exactly the duration for a positive one |
| LicenseKeys.CreateLicenseKeyForOrder | lib/db/license-keys.ts:21-52 | on success exactly one key is added: the custom key if non-empty, otherwise the generated one, "used", assigned to the order at `now`, with the expiry of the duration; a store error adds nothing and returns null |
| LicenseKeys.GetAvailableLicenseKey | lib/db/license-keys.ts:54-70 | an unused key of the variant, found whenever one exists and the store answers |
| LicenseKeys.AssignLicenseKeyToOrder | lib/db/license-keys.ts:72-100 | only a key still "unused" becomes "used" for the order; any other key is left untouched and null is returned |
| LicenseKeys.UnusedRows | lib/db/license-keys.ts:122-126 | one "unused" row per input, with the text trimmed, for the variant, under consecutive fresh ids |
| LicenseKeys.AddLicenseKeys | lib/db/license-keys.ts:119-136 | every input is inserted trimmed, blank ones included, and the count is the number of inputs; 0 and no change on an error |
| LicenseKeys.RevokeLicenseKey | lib/db/license-keys.ts:138-144 | the key with the id is set "revoked"; true iff the store reported no error |
| LicenseKeys.RevokeOnlyStatus | lib/db/license-keys.ts:141 | a revoke changes only the status of the one key, and no other key |
| Coupons.RoundHalfUp | lib/db/coupons.ts:44 | `Math.round(n / d)` is the nearest integer, halves rounding up |
| Coupons.ValidateCoupon | lib/db/coupons.ts:4-40 | a coupon is returned exactly when the one active coupon with the upper-cased code is inside its validity window, has uses left and the amount meets its minimum |
| Coupons.ValidationBoundaries | lib/db/coupons.ts:19-37 | both ends of the window and the minimum are inclusive, and a `max_uses` of null or 0 is unlimited |
| Coupons.FixedDiscount | lib/db/coupons.ts:46 | a fixed discount never goes below zero and takes off at most the value |
| Coupons.PercentageDiscount | lib/db/coupons.ts:44 | a percentage between 0 and 100 gives a price between 0 and the amount, the exact price rounded half up |
| Coupons.ApplyCouponDiscount | lib/db/coupons.ts:42-48 | defined as the percentage price rounded half up, or the amount less the fixed value floored at 0; its properties are the rows `Coupons.FixedDiscount` and `Coupons.PercentageDiscount` |
| Coupons.IncrementCouponUsage | lib/db/coupons.ts:50-56 | the named coupon's use count is bumped and true returned, or nothing changes and false is returned on an error |
| Coupons.IncrementAddsOne | lib/db/coupons.ts:50-56 | with the stored procedure `increment_coupon_usage` read from its name as "one more use of the coupon with this id" (its SQL is not part of this model), one increment adds exactly one use to the named coupon and changes no other coupon or field |
| ExternalKeyApi.Configs | lib/external-key-api.ts:27-48 | exactly four product slugs have a supplier configuration |
| ExternalKeyApi.HasExternalApi | lib/external-key-api.ts:53-56 | true iff the slug has a configuration with a non-empty url and a non-empty api key |
| ExternalKeyApi.OnlyFourSlugs | lib/external-key-api.ts:27-56 | any other product has no supplier API whatever the environment |
| ExternalKeyApi.RequestFor | lib/external-key-api.ts:75-92 | the request carries the slug, the variant name as duration, the e-mail and the order number, with a bearer token of the api key |
| ExternalKeyApi.KeyCandidate | lib/external-key-api.ts:104 | the key is the first truthy of `key`, `license_key`, `licenseKey`, `code`, `license`, and is truthy iff one of them is |
| ExternalKeyApi.FetchExternalLicenseKey | lib/external-key-api.ts:61-124 | an unconfigured product sends nothing; a non-2xx status fails with the status; a thrown error comes back as a failure, including the `TypeError` of a `null` body; success iff a 2xx reply parses and carries a key field, and the key is its string |
| ExternalKeyApi.Outcome | lib/external-key-api.ts:94-123 | a key is fetched exactly when a 2xx reply parsed and one of the key fields is truthy, and the key is that field written as a string; a `null` body fails with the `TypeError` its `.key` throws, any other body without a key with "No license key found in API response" |
| ExternalKeyApi.FirstFieldWins | lib/external-key-api.ts:104 | a reply carrying both `key` and `code` yields the `key` |
| ExternalKeyApi.NoKeyField | lib/external-key-api.ts:106-111 | a 2xx reply without any key field fails with "No license key found in API response" |
| Fulfilment.DurationOf | app/api/webhooks/stripe/route.ts:64 | `variant?.duration_days \|\| null` is defined only for a non-zero duration of the order's variant |
| Fulfilment.FindMember | app/api/webhooks/stripe/route.ts:47 | an order found by any query is the one its id finds |
| Fulfilment.CompletionKeepsInvariants | app/api/webhooks/stripe/route.ts:77-97 | a completing write keeps ids a key, settles any row whose key id it writes, and keeps every key held once |
| Fulfilment.Complete | lib/db/orders.ts:73-97 | the completing write of a trigger changes only the order with the id, and reports failure iff the store errs or the order is missing |
| Fulfilment.SingleAfterUpdate | lib/db/orders.ts:45-71 | an order found by a lookup that the update does not affect is found again, updated |
| Fulfilment.IntentLookupAfterSettle | app/api/webhooks/stripe/route.ts:47-58 | after a settling write, the intent lookup finds the order settled, so a later trigger stops at its guard |
| Fulfilment.SessionLookupAfterSettle | app/api/webhooks/stripe/route.ts:140-151 | the same for the checkout session lookup |
| StripeWebhook.MethodLabel | app/api/webhooks/stripe/route.ts:78 | `payment_method_types?.[0] \|\| "card"` is never empty: the first type, or "card" |
| StripeWebhook.Post | app/api/webhooks/stripe/route.ts:14-253 | a missing signature gives 400, a missing secret 500, an invalid signature 400, each touching nothing; a verified event always gets 200 and is handled by its type; other event types change nothing |
| StripeWebhook.HandleIntentSucceeded | app/api/webhooks/stripe/route.ts:43-129 | an unknown intent or an order already "paid"/"completed" changes nothing; otherwise the order is completed with `stripe_payment_id` merged into its metadata |
| StripeWebhook.HandleSessionCompleted | app/api/webhooks/stripe/route.ts:131-220 | a session not paid, an unknown session or a settled order changes nothing; otherwise the order is completed with the session id and its intent merged into its metadata |
| StripeWebhook.Fulfil | app/api/webhooks/stripe/route.ts:66-102 | on a key: one key issued, the order "completed" with its id, and the coupon counted once if the event names one; on a failed key insert: the order still "completed", without a key, with `license_key_error`, and the coupon not counted |
| Fulfilment.IssueKey | app/api/webhooks/stripe/route.ts:64-66 | reads the duration of the order's variant and inserts the key for `(variant_id, order.id)`: on success one issued row is appended and the id counter advances; a failed insert changes nothing |
| StripeWebhook.HandleChargeRefunded | app/api/webhooks/stripe/route.ts:222-241 | the order of the charge's intent becomes "refunded" whatever its status, keeps its key, and gets `refund_id` and `refunded_at` merged into its metadata |
| StripeWebhook.DeliverIntentTwice | app/api/webhooks/stripe/route.ts:55-58 | delivering the same `payment_intent.succeeded` twice ends exactly where one delivery does |
| CompleteOrder.Post | app/api/complete-order/route.ts:8-71 | unreadable JSON gives 500, a missing intent 400, an unknown order 404, a settled order 200 with the order, a failed key insert 500, each touching nothing; otherwise one key is issued and the order set "paid" with it and payment method "card", without asking any gateway |
| CompleteOrder.MarkPaid | app/api/complete-order/route.ts:28-66 | after the guards: the key is issued and the order marked "paid", metadata and coupon untouched, and the reply carries the order number and the key |
| CompleteOrder.Retry | app/api/complete-order/route.ts:21-23 | a second call for the same intent after a success gets "already completed" and issues no second key |
| CompleteOrder.WebhookThenPage | app/api/complete-order/route.ts:21-23 | after the webhook has handled the intent, the page's call finds the order settled and issues no second key |
| AdminActions.StatusOnlyKeepsKey | app/actions/admin.ts:187 | the admin status change writes only the status, so an order keeps its key and paid time |
| AdminActions.UpdateOrderStatus | app/actions/admin.ts:184-195 | the status of the order with the id is set whatever it was; a store error is returned and changes nothing |
| AdminActions.AddLicenseKeys | app/actions/admin.ts:135-155 | inputs are trimmed, blank ones dropped, and each is inserted "unused" for the variant; the count is the number inserted; an error inserts nothing and counts 0 |
| AdminActions.AddedKeysNonBlank | app/actions/admin.ts:138-145 | no key the admin action inserts is blank, and each is an input trimmed |
| AdminActions.GetAdminStats | app/actions/admin.ts:269-313 | a failed query counts as no rows; otherwise the revenue is the sum of the amounts of the paid and completed orders, the completed, pending and failed counts are the numbers of orders with those statuses, and each product status count is the number of products with that status; the counts add up to the totals |
| AdminActions.RevenueIsSettledSum | app/actions/admin.ts:289-290 | the revenue is the `reduce` sum over the `filter` of the paid and completed orders |
| AdminActions.RevenueAppend | app/actions/admin.ts:290 | revenue over two batches of orders is the sum of their revenues |
| AdminActions.RevenueOfSettled | app/actions/admin.ts:289-290 | only paid and completed orders bring revenue, which is never negative for non-negative amounts |
| AdminActions.OrderCountsAddUp | app/actions/admin.ts:289-306 | the completed ("paid" or "completed"), pending and failed ("failed" or "refunded") counts add up to all orders |
| AdminActions.ProductCountsAddUp | app/actions/admin.ts:297-302 | every product falls in exactly one of the four status counts |
| AdminActions.Refusal | app/actions/admin.ts:369-389 | a found order is turned away iff it is already settled, or it has an intent whose status is not "succeeded" or could not be retrieved; without an intent it proceeds unverified |
| AdminActions.ProcessOrderManually | app/actions/admin.ts:350-456 | an unknown or refused order changes nothing; a failed key insert changes nothing; otherwise the key is issued and the order "completed" with it, the coupon never counted, and a failed update reported after the key exists |
| AdminActions.IssueAndComplete | app/actions/admin.ts:391-418 | after the guards: one key issued and the order completed with its id and a paid time |
| AdminActions.PendingStep | app/actions/admin.ts:479-516 | completing an order that was pending keeps "every changed row went from pending to completed" |
| AdminActions.PendingCompletedSettles | app/actions/admin.ts:406-413 | rows changed only from pending to completed keep the key-write invariant |
| AdminActions.CompletedExactly | app/actions/admin.ts:479-515 | a pending order is completed by its turn exactly when it has an intent, both retrievals say "succeeded" and no store call fails |
| AdminActions.ProcessOne | app/actions/admin.ts:479-515 | one turn of the batch loop: its error line is the one the attempt calls for; a turn with an error line changes no order, and one without completes exactly this order with the next key id; a turn that passes the intent, both status checks, the lookup and the key insert appends exactly the key `TurnKey` describes under the next id (even when the order update then fails), and any other turn leaves the key table and the id counter alone; the batch invariants are kept |
| AdminActions.KeyedTurns | app/actions/admin.ts:391-418 | a pending order's turn writes no error line exactly when it issues a key and its update succeeds; a turn that issues a key and then fails the update writes "Failed to update order status", leaving that key behind without an order |
| AdminActions.ErrorsGrow | app/actions/admin.ts:486 | appending an error line keeps the lines of earlier orders without an intent, and adds this order's |
| AdminActions.ProcessAllPendingOrders | app/actions/admin.ts:459-523 | a failed fetch changes nothing; otherwise the error lines are those of the pending orders' attempts in order, processed + failed is the number of pending orders with one line per failure, a pending order ends "completed" with a key exactly when its attempt wrote no line and stays as fetched otherwise, and only pending orders change; the key table gains exactly `IssuedKeys` of the pending orders' attempts, in order and under consecutive ids, and the id counter moves past them; coupons, products and variants are unchanged |
| AdminActions.RunBatch | app/actions/admin.ts:475-516 | the loop counts each fetched order once, as processed or failed, writes exactly the error lines of the attempts in order, leaves each order completed or as fetched as its attempt says, and one failure does not stop it; it appends exactly `IssuedKeys(pending, attempts, …)` to the key table, one key for every turn that passes the guards including a turn whose order update then fails, and advances the id counter by their number |
| AdminActions.LeftAsStep | app/actions/admin.ts:495-499 | completing the next fetched order keeps the earlier ones as they were left, when ids are distinct |
| AdminActions.ErrorLinesStep | app/actions/admin.ts:486-514 | the lines of one more turn are the earlier lines and this turn's |
| CardSetupActions.UsableAsValidated | app/actions/cardsetup.ts:51-58 | for a non-negative clock and price, this file's coupon checks are those of `validateCoupon` |
| CardSetupActions.DiscountBounds | app/actions/cardsetup.ts:61-65 | the discount lies between nothing and the whole price |
| CardSetupActions.Discount | app/actions/cardsetup.ts:61-65 | defined as the percentage of the price rounded half up, or the fixed value capped at the price; its property is the row `CardSetupActions.DiscountBounds` |
| CardSetupActions.TwoRoundings | app/actions/cardsetup.ts:62 | compared with `applyCouponDiscount`, the price is the same except when the exact discount ends in half a cent, where it is one cent lower here |
| CardSetupActions.RoundingExample | app/actions/cardsetup.ts:62 | a one-cent price with a 50% coupon is free here and one cent through `applyCouponDiscount` |
| CardSetupActions.InvoicePricing | app/actions/cardsetup.ts:39-70 | discount + final = price; a coupon applies iff a code was given, the lookup found the active coupon with the upper-cased code, and it is usable; otherwise full price and no coupon |
| CardSetupActions.WithSlash | app/actions/cardsetup.ts:102 | the store address ends with exactly one added "/": unchanged when it ends with one, extended otherwise |
| CardSetupActions.WithSlashIdempotent | app/actions/cardsetup.ts:102 | adding the slash twice changes nothing more |
| CardSetupActions.StoreUrl | app/actions/cardsetup.ts:102 | the configured store address, or "https://valor.com/" when unset |
| CardSetupActions.InvoiceRequestContents | app/actions/cardsetup.ts:105-114 | the invoice carries the order number, the charged amount as dollars that read back as its cents, and the store address |
| CardSetupActions.RejectionMessage | app/actions/cardsetup.ts:134 | a rejection without `errors` throws "Failed to create invoice" |
| CardSetupActions.RejectionExample | app/actions/cardsetup.ts:134 | the errors are joined with ", " |
| CardSetupActions.RedirectUrl | app/actions/cardsetup.ts:137-154 | the redirect address is truthy iff one of the candidate fields is, and is then the first truthy one in order |
| CardSetupActions.RedirectSteps | app/actions/cardsetup.ts:137-154 | the nested `\|\|` steps of the code compute the single `\|\|` chain over all candidate fields |
| CardSetupActions.OrChainAppend | app/actions/cardsetup.ts:143-153 | `\|\|` over two runs of operands is the chain over both |
| CardSetupActions.InvoiceGuard | app/actions/cardsetup.ts:28-36 | the product by slug and the variant by id, or "Product not found", "Variant not found", "Failed to create order" |
| CardSetupActions.CreateCardSetupInvoice | app/actions/cardsetup.ts:19-188 | before the insert a failure touches nothing; after it the invoice is sent and either the order gets the gateway's data and the redirect is returned, or the order is deleted again and the error thrown |
| CardSetupActions.InsertOrder | app/actions/cardsetup.ts:76-100 | the pending order is appended under the next id |
| CardSetupActions.AwaitGateway | app/actions/cardsetup.ts:118-187 | an accepted reply saves the gateway's data and returns the redirect; any other reply throws its message, and the order is removed unless every delete attempted failed (a rejecting reply attempts two, a thrown error one) |
| CardSetupActions.SettleReply | app/actions/cardsetup.ts:127-181 | a reply with no success flag or no redirect address attempts two deletes and throws its message; an accepted reply saves the invoice id and the data and returns the redirect |
| CardSetupActions.SaveGatewayMeta | app/actions/cardsetup.ts:165-174 | the new order's metadata is replaced, or kept on a store error |
| CardSetupActions.DeleteOrder | app/actions/cardsetup.ts:133 | the new order is removed, or kept on a store error |
| CardSetupActions.InvoiceTableSettles | app/actions/cardsetup.ts:76-187 | every table the invoice can leave keeps the key-write invariant |
| CardSetupActions.InvoiceIdOf | app/actions/cardsetup.ts:234 | the invoice id is `metadata.cardsetup_invoice_id` when truthy, otherwise the order number |
| CardSetupActions.CallbackKey | app/actions/cardsetup.ts:251-255 | with the arguments swapped, the inserted key names the order as its variant and the variant as its order |
| CardSetupActions.VerifyCardSetupOrder | app/actions/cardsetup.ts:199-324 | "completed" reports the held key without a gateway call; "pending" asks the gateway and on a confirmed payment completes the order with a new key without counting the coupon, or otherwise reports pending; any other status, "paid" included, gives "Payment was not completed" |
| CardSetupActions.CreateCallbackKey | app/actions/cardsetup.ts:251-255 | creates the key with the order id where the variant id belongs and the variant id where the order id belongs; a failed insert changes nothing |
| CardSetupActions.IssueCallbackKey | app/actions/cardsetup.ts:251-268 | issues one key (arguments swapped) and completes the order with its id, a paid time and the merged metadata; a failed insert changes nothing |
| CardSetupActions.CouponRef | app/actions/cardsetup.ts:399-401 | `metadata.coupon_id` names a coupon exactly when it holds a uuid |
| CardSetupActions.InvoiceCouponCounted | app/actions/cardsetup.ts:88 | the coupon finalizing counts is the one the invoice was priced with |
| CardSetupActions.FinalizeCardSetupPayment | app/actions/cardsetup.ts:326-444 | "completed" reports the held key without a gateway call, or no key when that separate key read fails; otherwise an unconfirmed payment marks the order "failed" and throws, and a confirmed one completes it with a new key, the transaction id and approval code, and counts its coupon |
| CardSetupClient.ShouldUseCardSetup | lib/cardsetup.ts:70-73 | true only when a stored `payment_provider` row holds "cardsetup" or "both"; false when the read fails or no row exists |
| CardSetupClient.ShouldUseStripe | lib/cardsetup.ts:75-78 | false only when a stored `payment_provider` row holds something other than "stripe" or "both"; true when the read fails or no row exists |
| CardSetupClient.ProvidersCovered | lib/cardsetup.ts:70-78 | each declared provider enables at least one path, both only for "both" |
| CardSetupClient.Cents | lib/cardsetup.ts:27 | two characters |
| CardSetupClient.DollarsText | lib/cardsetup.ts:27 | `(cents / 100).toFixed(2)` has a point before exactly two decimals, and no sign for a non-negative amount |
| CardSetupClient.CentsValue | lib/cardsetup.ts:27 | the two characters are decimal digits that read back as the cents |
| CardSetupClient.DollarsRoundTrip | lib/cardsetup.ts:27 | the dollar text reads back as the cents it came from |
| CardSetupClient.BodyRoundTrip | lib/cardsetup.ts:27 | the whole dollars and the cents read back as the amount |
| CardSetupClient.DollarsExample | lib/cardsetup.ts:27 | 1999 cents is "19.99" and -50 cents is "-0.50" |
| CardSetupClient.InvoicePayload | lib/cardsetup.ts:24-33 | the payload carries the store, the invoice id, the dollar amount and "USD", and `orderinfo` exactly when given |
| CardSetupClient.CreatePayload | lib/cardsetup.ts:22-33 | the store is "https://warpcheats.com" when the read fails or no `cardsetup_store_url` row exists, and otherwise a stored row's value; the amount is the dollar text of the cents |
| CardSetupClient.MessageOr | lib/cardsetup.ts:46 | `new Error(m \|\| fallback)` falls back when the message is falsy |
| CardSetupClient.CheckCreated | lib/cardsetup.ts:43-49 | a `null` reply throws the `TypeError` of reading its `success`; another reply without a truthy `success` throws its first error or "Failed to create Card Setup invoice"; otherwise it is returned |
| CardSetupClient.CheckFinalized | lib/cardsetup.ts:61-67 | a `null` reply throws the `TypeError` of reading its `success`; another reply without a truthy `success` throws its error or "Failed to finalize payment"; otherwise it is returned |
| CardSetupClient.FinalizeRequest | lib/cardsetup.ts:52-58 | defined as the JSON object `{transactionid}`; `CardSetupActions.FinalizeCardSetupPayment` states that this is the body sent for the transaction |
| StripeActions.CheckoutGuard | app/actions/stripe.ts:15-27 | in order: "Product not found", "This product is currently unavailable" for a down product, "Invalid variant selected" for a missing variant or one of another product |
| StripeActions.VariantRejected | app/actions/stripe.ts:24-27 | the variant is rejected exactly when the product is usable and the variant is missing or belongs to another product |
| StripeActions.PriceWithCoupon | app/actions/stripe.ts:29-43 | discount + final = price; a coupon applies iff a code was given and `validateCoupon` accepts it, and then final is `applyCouponDiscount` |
| StripeActions.DurationTextMeaning | app/actions/stripe.ts:58 | "lifetime" stands for a null duration only, and a zero duration is written "0" |
| StripeActions.CouponTextReadBack | app/actions/stripe.ts:57 | `couponId \|\| ""` is empty exactly for no coupon and tells coupons apart |
| StripeActions.IntentMetadata | app/actions/stripe.ts:50-61 | the intent metadata has the ten keys, the coupon text and the duration text |
| StripeActions.CreatePaymentIntent | app/actions/stripe.ts:9-92 | a rejected purchase sends nothing and stores nothing; otherwise the intent is created for the final amount and one pending order is stored with its id and amount; a failed order insert throws after the intent exists |
| StripeActions.OrderMetadata | app/actions/stripe.ts:74-79 | defined as the object `{coupon_id, coupon_code, original_amount, discount_amount}`, null for a missing coupon; `StripeActions.CreatePaymentIntent` states that the pending order is stored with it |
| StripeActions.IntentAmounts | app/actions/stripe.ts:82-91 | the amounts returned add up to the variant price |
| StripeActions.Origin | app/actions/stripe.ts:126 | the `origin` header when present and non-empty, otherwise the default origin |
| StripeActions.SessionMetadata | app/actions/stripe.ts:146-154 | the session metadata has the seven keys, the coupon text and the duration text |
| StripeActions.SessionRequestFor | app/actions/stripe.ts:128-156 | one line at the final amount, and the return address under the origin |
| StripeActions.CreateCheckoutSession | app/actions/stripe.ts:94-171 | the same rejections; otherwise the session is created and one pending order keyed by its session id is stored; the session is returned even when that insert fails |
| StripeActions.SessionOrderMetadata | app/actions/stripe.ts:164-167 | defined as the object `{coupon_id, original_amount}`, null for a missing coupon; `StripeActions.CreateCheckoutSession` states that the pending order is stored with it |
| StripeActions.ValidateCouponCode | app/actions/stripe.ts:173-194 | "Invalid variant" iff the variant is missing, "Invalid or expired coupon code" iff `validateCoupon` refuses; when valid, discount + final = price |
| StripeActions.PreviewMatchesCharge | app/actions/stripe.ts:179-190 | the preview's price is what checkout charges for the same store, code and time |
| KeyInventory.StockOf | app/actions/license-keys.ts:28-51 | unused + used ≤ total ≤ the number of keys |
| KeyInventory.StockBound | app/actions/license-keys.ts:33-43 | the variant's unused and used keys together are no more than its keys |
| KeyInventory.VariantsWithStock | app/actions/license-keys.ts:8-57 | every variant of the product, each once, with its stock; none on a store error |
| KeyInventory.ExistingTextsMeaning | app/actions/license-keys.ts:98-103 | the existing set is exactly the batch entries held by some key of any variant; empty when the query fails |
| KeyInventory.NewTexts | app/actions/license-keys.ts:104 | the batch entries not already held, in batch order |
| KeyInventory.AddLicenseKeysToVariant | app/actions/license-keys.ts:79-127 | "No valid keys provided" when nothing remains after cleaning; "All keys already exist in the system" with every entry counted as a duplicate; otherwise the new entries inserted "unused" for the variant, with count and duplicates; an insert error inserts nothing |
| KeyInventory.InsertedKeysAreNew | app/actions/license-keys.ts:98-115 | no inserted key repeats a stored one, and each is a non-blank input trimmed |
| KeyInventory.DuplicatesCounted | app/actions/license-keys.ts:105 | the duplicates reported are the batch entries already held |
| KeyInventory.RepeatsInBatchKept | app/actions/license-keys.ts:103-115 | the same new key given twice in one batch is inserted twice |
| KeyInventory.DeleteLicenseKey | app/actions/license-keys.ts:147-165 | a key read as "used" is refused with "Cannot delete a used license key"; any other key is deleted; a delete error changes nothing |
| KeyInventory.UsedKeysSurvive | app/actions/license-keys.ts:153-157 | deleting a key that is not "used" keeps every used key |
| KeyInventory.FoundById | app/actions/license-keys.ts:151 | with ids a primary key, the lookup by a key's id finds that key |
| KeyInventory.BulkDeleteUnusedKeys | app/actions/license-keys.ts:168-186 | deletes the variant's unused keys and returns their number; an error changes nothing |
| KeyInventory.BulkDeleteExact | app/actions/license-keys.ts:173-177 | exactly the variant's unused keys go, and every other key stays |
| KeyInventory.BulkRevokeKeys | app/actions/license-keys.ts:189-208 | revokes the listed keys of the variant whatever their status, and returns their number; an error changes nothing |
| KeyInventory.BulkRevokeExact | app/actions/license-keys.ts:195-199 | a key changes exactly when its id is listed and it belongs to the variant |
| Categories.DashNoSpace | lib/db/categories.ts:56 | `replace(/\s+/g, "-")` leaves no whitespace |
| Categories.DashKeepsPlain | lib/db/categories.ts:56 | a text without whitespace is left as it is |
| Categories.DashRunFirst | lib/db/categories.ts:56 | a leading whitespace run becomes one "-" |
| Categories.DashSplit | lib/db/categories.ts:56 | a whole whitespace run between two texts becomes one "-" and the texts on either side are replaced on their own |
| Categories.DashSpaces | lib/db/categories.ts:56 | defined character by character: a whitespace character followed by whitespace is dropped and the last of a run becomes "-"; its properties are the rows `Categories.DashSplit`, `Categories.DashNoSpace` and `Categories.DashKeepsPlain` |
| Categories.DashConsSplit | lib/db/categories.ts:56 | a character before a text whose replacement splits at a run keeps the split |
| Categories.DashCons | lib/db/categories.ts:56 | the replacement of a text is that of its first character, then that of the rest |
| Categories.KeepSlugChars | lib/db/categories.ts:57 | `replace(/[^a-z0-9-]/g, "")` keeps only slug characters, and keeps a slug as it is |
| Categories.KeepSlugCharsAppend | lib/db/categories.ts:57 | stripping a concatenation strips each part on its own |
| Categories.KeepSlugChar | lib/db/categories.ts:57 | one character is kept exactly when it is a slug character |
| Categories.Slug | lib/db/categories.ts:54-57 | a slug consists of a–z, 0–9 and "-" only |
| Categories.SlugOfSlug | lib/db/categories.ts:54-57 | a slug is its own slug |
| Categories.SlugIdempotent | lib/db/categories.ts:54-57 | deriving a slug twice gives the same slug |
| Categories.SlugExample | lib/db/categories.ts:54-57 | "CS 2!" becomes "cs-2" |
| Categories.DashExample | lib/db/categories.ts:56 | a space becomes "-" |
| Categories.UniqueGames | lib/db/categories.ts:46 | the non-empty game names, each once |
| Categories.UniqueGamesPrefix | lib/db/categories.ts:46 | the games found in the first products come first in the result, in the same order |
| Categories.LexTotal | lib/db/categories.ts:38 | any two names compare one way or the other |
| Categories.LexTrans | lib/db/categories.ts:38 | the name order is transitive |
| Categories.ByGameTotal | lib/db/categories.ts:38 | names ascending with nulls last compares any two rows, transitively |
| Categories.SortByGame | lib/db/categories.ts:38 | `.order("game")` gives the same rows, ordered by name with nulls last |
| Categories.UniqueGamesAscending | lib/db/categories.ts:38-46 | the distinct names of rows sorted by name come out ascending |
| Categories.GetUniqueGamesFromProducts | lib/db/categories.ts:36-48 | exactly the non-empty game names of the products, each once, in ascending order; none when the query fails |
| Categories.ByOrderTotal | lib/db/categories.ts:14 | `sort_order` ascending compares any two categories, transitively |
| Categories.GetAllCategories | lib/db/categories.ts:12-22 | exactly the active categories, ordered by `sort_order`; none on a store error |
| Categories.MaxSortOrder | lib/db/categories.ts:60-65 | the highest `sort_order`, present exactly when the table has rows |
| Categories.NextSortOrder | lib/db/categories.ts:67 | one past the highest order, which some row holds, and 1 for an empty table or a failed read |
| Categories.Reordered | lib/db/categories.ts:118 | applying the updates keeps the number of categories |
| Categories.ReorderPlaces | lib/db/categories.ts:118-128 | with distinct ids and no failed update, each listed category's order is its position, and unlisted ones keep theirs |
| Categories.Table.CreateCategory | lib/db/categories.ts:50-86 | a new active category with the slug of its name and the next sort order, after every existing one; nothing on an insert error |
| Categories.Table.ReorderCategories | lib/db/categories.ts:114-129 | each listed id gets its position as `sort_order`; true iff no update reported an error |
| SiteSettings.DefaultValues | lib/db/settings.ts:13-19 | the five default keys, with provider "stripe" and maintenance off |
| SiteSettings.GetSetting | lib/db/settings.ts:21-31 | the stored value of the one row with the key, or the default when there is none or the read fails |
| SiteSettings.GetPaymentProvider | lib/db/settings.ts:65-67 | the stored provider, or "stripe" when the read fails |
| SiteSettings.LastValue | lib/db/settings.ts:43-47 | the value of the last row with the key, present exactly when some row has it |
| SiteSettings.Merged | lib/db/settings.ts:42-47 | copying the rows over the defaults keeps exactly the known keys |
| SiteSettings.MergedValue | lib/db/settings.ts:42-47 | each known key has the value of its last row, or its default; unknown keys are ignored |
| SiteSettings.Table.GetAllSettings | lib/db/settings.ts:33-50 | the defaults on a failed read, otherwise the rows merged over them |
| SiteSettings.Table.UpdateSetting | lib/db/settings.ts:52-63 | an upsert on the key; on an error "Failed to update setting" is thrown and nothing changes |
| SiteSettings.Upsert | lib/db/settings.ts:57 | defined as `upsert(…, {onConflict: "key"})`: the row with the key gets the value, or a row is appended; its properties are the rows `SiteSettings.UpsertKeepsKeys` and `SiteSettings.UpsertThenGet` |
| SiteSettings.UpsertKeepsKeys | lib/db/settings.ts:57 | an upsert keeps one row per key |
| SiteSettings.UpsertThenGet | lib/db/settings.ts:52-63 | after an upsert the key reads back the value written, and every other key reads what it did before |
| SiteSettings.UpdateThenGet | lib/db/settings.ts:52-63 | upserting a key that has a row: the key reads back the new value, and other keys read as before |
| SiteSettings.AppendThenGet | lib/db/settings.ts:52-63 | upserting a key without a row: the appended row is read back, and other keys read as before |
| SiteSettings.UniqueKeySingle | lib/db/settings.ts:24 | with one row per key, the read by key finds that row, or none |
| SiteSettings.UniqueFilter | lib/db/settings.ts:24 | with one row per key, the filter by key is that one row |
| SiteSettings.OtherRowsKept | lib/db/settings.ts:57 | an upsert of one key leaves the rows of other keys |
| Catalogue.IdsDistinct | lib/products.ts:14-114 | eight entries, no two with the same id |
| Catalogue.GetProductById | lib/products.ts:116-118 | an entry with the id, found exactly when one exists |
| Catalogue.ProductByOwnId | lib/products.ts:116-118 | the lookup by an entry's id finds that entry |
| Catalogue.GetProductsByGame | lib/products.ts:120-122 | exactly the entries whose lower-cased game contains the lower-cased query |
| Catalogue.EmptyQueryListsAll | lib/products.ts:120-122 | an empty query lists the whole catalogue |
| Catalogue.LowerOfUpper | lib/products.ts:121 | lower-casing an upper-cased text is lower-casing it |
| Catalogue.QueryCaseIgnored | lib/products.ts:121 | the game filter ignores the case of the query |

## Left out

- E-mail and Discord notifications, `revalidatePath` and logging are left out. The code catches their errors or ignores their results, so they do not change the store.
- The Stripe SDK, Card Setup HTTP calls, the webhook signature check and the external supplier's `fetch` are not modelled. Their answers are parameters.
- The clock and `Math.random` are not modelled. The time and the random draws are parameters.
- Timestamps are whole milliseconds. Their ISO-8601 text is not modelled. Dates compare as numbers.
- Floating point is not modelled. Percentages are integer arithmetic with explicit half-up rounding, and `toFixed(2)` is rendered from integer cents.
- Concurrency is not modelled. Triggers run one after another, as whole methods.
- Supabase's query builder is not modelled. Tables are in-memory sequences, and store errors are boolean parameters.
- `Store.ProductBySlug` and `Store.VariantById` do not state the answer when several rows match. The slug and the id are unique in the schema, so `.single()` never sees two.
- The message of the runtime's `TypeError` is one fixed string. The runtime's wording is not modelled.
- `createCardSetupInvoice`'s fallback message "Failed to connect to payment gateway" is not modelled. Every error that reaches that `catch` is an `Error`, so the branch cannot run.
- `SiteSettings.Table.GetAllSettings` assumes a plain-object key test. The `in` test of the code would also accept inherited property names such as "toString". Those are not settings keys, and the model ignores them like other unknown keys.
- `CardSetupClient.ProvidersCovered` does not cover provider values outside the three declared ones. Such a value enables neither payment path, and the lemma states that too.
- `Json.Prop` on a `null` or `undefined` value gives `undefined`, as `?.` does. A plain `.` access that would throw is modelled only where the code has one, as the `TypeError` result.
- Text.ToUpper: maps ASCII letters only and keeps the length. JavaScript's `toUpperCase` also maps other letters and can lengthen a text ("ß" becomes "SS"). The callers inherit this: `Coupons.ValidateCoupon` and `CardSetupActions.InvoicePricing` match coupon codes under the ASCII mapping, and `Orders.OrderNumber` upper-cases only base-36 digits, where the two agree.
- Text.ToLower: maps ASCII letters only and keeps the length. JavaScript's `toLowerCase` also maps other letters and can lengthen a text ("İ" becomes two code units). The callers inherit this: `Categories.Slug`, `Catalogue.GetProductsByGame`, and the lemmas `Catalogue.LowerOfUpper` and `Catalogue.QueryCaseIgnored` hold for the ASCII mapping; with the full mapping "ı" upper-cases to "I", which lower-cases to "i".
- Categories.GetUniqueGamesFromProducts: orders names by code unit (`Categories.LexLe`). The database orders them by its collation, which is not modelled.
- Rows.SortBy: rows that compare both ways keep their table order. The database leaves their order open, so the model fixes one of the orders it may return.
- Coupons.IncrementCouponUsage: the stored procedure `increment_coupon_usage` is modelled from its name as `current_uses + 1` on the one coupon with the given id, and nothing else. Its SQL is not part of the code, so `Coupons.BumpUses` and `Coupons.IncrementAddsOne` describe that reading, not the procedure.
- Orders.GetCompletedOrders: returns the order rows without the joined product and variant.
- `KeyInventory.VariantsWithStock` does not model the order of the variants by `sort_order`. It keeps table order.
- `KeyInventory.StockOf` does not model a failing count query, whose `count || 0` would read as 0.
- `StripeActions.SessionRequestFor` leaves out the line's description and image of the product. The product rows of the model carry only id, slug, name and status.
- Product, variant and coupon CRUD in app/actions/admin.ts are not part of this model. These are `createProduct`, `updateProduct`, `deleteProduct`, `createVariant`, `updateVariant`, `deleteVariant`, `createCoupon`, `updateCoupon`, `deleteCoupon` and `bulkUpdateProductStatus`. They are single writes without guards.
- Admin's `revokeLicenseKey`, `deleteLicenseKey` and `getOrdersByDateRange` are not part of this model. So are the date-range filter of `getAdminStats` and `getAllCategoriesAdmin`, `updateCategory` and `deleteCategory`.
- `getLicenseKeysByVariant`, `updateLicenseKey`, `getAllProductsWithVariantsAndStock`, `getAllCoupons`, `getAllOrders`, `getOrdersByEmail`, `getPaymentIntentStatus` and `getCheckoutSessionStatus` are not part of this model. They are reads or writes without logic of their own.
- lib/db/products.ts is not part of this model. Its lookups are the `Store` functions above.
- `createCardSetupPayment` is not modelled. It only forwards to `createCardSetupInvoice`.
