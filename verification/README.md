# Payment-order bookkeeping of the CV builder's serverless API

This project models, in Dafny, the order bookkeeping behind the CV builder's
paid export: the in-memory order store (`api/_store.js`), order creation
(`api/payment/init.js`), the Saweria donation webhook that marks an order as
paid (`api/payment/webhook.js`) and the status poll (`api/payment/status.js`).

* The store is a JavaScript `Map` from order id to order record, iterated in
  insertion order. It is modelled as the value `Store.Table` (distinct keys in
  insertion order plus a map) and as the class `Store.OrderStore`, whose
  methods update it in place. `Map.set` on an existing key keeps that key's
  position; a new key goes last.
* `setOrder` stamps `updatedAt`; `getOrder` and `orderExists` only read. The
  hourly sweep deletes every record that is not `success` and is strictly older
  than 24 hours (86 400 000 ms), `pending` and `failed` alike.
* Order creation checks that `amount` is truthy (present and non-zero) and that
  `email` is truthy (present and non-empty). It then inserts a `pending` record
  under `ORDER-<now>-<random>`, with the name defaulting to `Guest User`, and
  answers with `https://saweria.co/<user>?amount=<amount>&order_id=<id>`. The
  user defaults to `eilasya`.
* The webhook answers 405 to anything but POST and 200 to everything else. It
  ignores payloads without a truthy `id` or whose `type` is not `donation`. It
  scans the orders in insertion order and takes the first one that has the same
  email, is `pending`, and has `|amount - amount_raw| < 100`. It writes that
  order back with `status = success`, `paidAt` and `saweriaId` set, using
  `Map.set`, so `updatedAt` is not refreshed. The `message` field is read but
  never used. There is no lookup by order id in the message and no
  idempotency check on the Saweria id. A matched key is tested for truthiness,
  so a match stored under the empty key reads as "No matching order".
* The status poll answers 200 with `not_found` for an unknown id, or with the
  stored `status`, `amount`, `email` and `createdAt`. `paid` is true exactly
  when the status is `success`. `paidAt` is the stored value, or null when it
  is absent or 0 (`|| null`).

The three handlers use three store objects: `store` in `api/_store.js:3`,
`global.orderStore || new Map()` in `api/payment/webhook.js:15`, and
`sharedStore` from `api/_shared-store.js` in `api/payment/status.js:6`.
`api/_shared-store.js` is not part of this model. **The model assumes one
shared store.** All three handlers act on the same `Store.OrderStore` or
`Store.Table`. The finding below shows what the webhook does as written.

Time (`Date.now()`), the random part of the order id and the
`SAWERIA_USERNAME` environment variable are parameters. Each handler call is
one atomic step.

Four things the webhook does not do are worth stating plainly:
- It does not look for the order id in the donation's `message`. Only the
  email/amount scan selects an order.
- It keeps no record of Saweria ids already seen, so a repeated delivery is
  not recognised (`Webhook.RedeliveryPaysNextOrder`).
- It never sets `failed`; no handler does. The sweep evicts every record that
  is not `success`, whatever its status.
- Its write does not refresh `updatedAt`, because it calls `Map.set` rather
  than `setOrder`.

## Model

| member | source | states |
|---|---|---|
| `Store.OrderStore.constructor` | api/_store.js:3 | the store starts as an empty map |
| `Store.OrderStore.GetOrder` | api/_store.js:5-7 | returns the stored record exactly when the key is present, absent otherwise; changes nothing |
| `Store.OrderStore.OrderExists` | api/_store.js:16-18 | true iff the key is present |
| `Store.OrderStore.SetOrder` | api/_store.js:9-14 | the key maps to the given record with `updatedAt` replaced by `now`, even if the record carried its own; other keys, their records and their order are unchanged; an existing key keeps its position |
| `Store.OrderStore.Put` | api/payment/webhook.js:91 | `Map.set`: same as `SetOrder` without the time stamp |
| `Store.Insert` | api/_store.js:10-13 | the value of `Map.set`: the key set grows by the key alone, the key maps to the record, every other record is unchanged, the old keys keep their positions as a prefix, and an existing key adds no position |
| `Store.Lookup` | api/payment/status.js:35 | `Map.get`: a record exactly when the key is present, and then the stored one |
| `Store.OrderStore.Delete` | api/_store.js:27 | `Map.delete`: the key and its record are gone; the store stays well formed |
| `Store.Remove` | api/_store.js:27 | the key set loses exactly that key; the keys list stays duplicate-free and in step with the map; the remaining keys keep their order (the deleted key's position is closed up, and deleting an absent key changes nothing) |
| `Store.OrderStore.Sweep` | api/_store.js:21-29 | the in-place loop over the entries leaves exactly `Swept` of the old state |
| `Store.Expired` | api/_store.js:22-25 | the sweep's condition: status other than `success` and `now - createdAt` strictly greater than 86 400 000 ms |
| `Store.Swept` | api/_store.js:21-29 | a record survives iff it is `success` or `now - createdAt <= 24h`; survivors keep their records unchanged |
| `Store.SweepBoundaries` | api/_store.js:22-25 | age exactly 24h survives (strict `>`), one millisecond more evicts a non-`success` record (`pending` or `failed`), a `success` record survives at any age |
| `Store.SweepKeepsOrder` | api/_store.js:24-29 | two surviving records keep their relative insertion order |
| `Store.SweepIdempotent` | api/_store.js:24-29 | a second sweep at the same `now` changes nothing |
| `Webhook.Reconcile` | api/payment/webhook.js:6-111 | 405 iff the method is not POST, 200 with success otherwise; the store is unchanged for a non-POST request, for a payload that is not a donation, and whenever no order is confirmed; keys and their order never change |
| `Webhook.HandleWebhook` | api/payment/webhook.js:6-111 | the handler with its `for…of`/`break` scan leaves the store and answers exactly as `Reconcile` |
| `Webhook.IsDonation` | api/payment/webhook.js:35 | a payload is handled further only with a truthy (present, non-empty) `id` and `type` equal to `donation` |
| `Webhook.Qualifies` | api/payment/webhook.js:66-70 | an order qualifies when its email equals `donator_email`, it is `pending`, and `amount_raw` is present with `\|amount - amount_raw\| < 100` |
| `Webhook.FirstMatch` | api/payment/webhook.js:54-75 | the position found qualifies and none before it does; none is found iff no order qualifies |
| `Webhook.Paid` | api/payment/webhook.js:86-89 | the written-back record is `success` with `paidAt = now` and `saweriaId` set, and equals the old record in every other field |
| `Webhook.ConfirmsFirstMatchOnly` | api/payment/webhook.js:56-91 | a confirmed order qualifies, no earlier order qualifies, and only its `status`, `paidAt`, `saweriaId` change: its position, other fields (`updatedAt` included) and all other records stay |
| `Webhook.FirstQualifyingIsConfirmed` | api/payment/webhook.js:54-102 | conversely, for a POSTed donation the first qualifying order under a non-empty key is confirmed: the reply is 'Payment confirmed' with its id and the record is written back as `Paid` |
| `Webhook.NoQualifyingOrderLeavesStore` | api/payment/webhook.js:77-83 | no qualifying order: 200 'No matching order' and the store unchanged |
| `Webhook.ToleranceBoundary` | api/payment/webhook.js:66-70 | for an order of 5000, 5099 and 4901 qualify, 5100 and 4900 do not, an absent `amount_raw` never does |
| `Webhook.RedeliveryCannotReselect` | api/payment/webhook.js:66-91 | after an order is confirmed, delivering the same payload again cannot select it again |
| `Webhook.RedeliveryPaysNextOrder` | api/payment/webhook.js:35-91 | with two matching pending orders, one donation delivered twice pays both: there is no idempotency on the Saweria id |
| `Webhook.MessageIsIgnored` | api/payment/webhook.js:27-33 | the outcome does not depend on `message` |
| `Webhook.EmptyKeyHidesMatch` | api/payment/webhook.js:71-83 | a first match keyed by the empty string is reported as 'No matching order', even when a later order matches |
| `Webhook.ReconcileDetached` | api/payment/webhook.js:15 | as written, the webhook scans a fresh map, which stays empty |
| `Webhook.DetachedStoreNeverConfirms` | api/payment/webhook.js:15 | on that fresh map every valid donation is answered 'No matching order' |
| `PaymentInit.Create` | api/payment/init.js:7-60 | OPTIONS is the empty 200; 405 iff neither OPTIONS nor POST; 400 iff POST with a falsy amount or email; the store is unchanged unless an order is created; a created id starts with `ORDER-` and is a key of the new store |
| `PaymentInit.HandleInit` | api/payment/init.js:7-60 | the handler leaves the store and answers exactly as `Create` |
| `PaymentInit.Accepts` | api/payment/init.js:21-23 | a request body is accepted when `amount` is truthy (present, non-zero) and `email` is truthy (present, non-empty) |
| `PaymentInit.NatToString` | api/payment/init.js:30 | the decimal text of a non-negative number: non-empty, digits only, no leading zero unless it is `0`, and read back it gives the number |
| `PaymentInit.IntToString` | api/payment/init.js:44 | the decimal text of any integer: starts with `-` exactly when it is negative, then a non-empty run of digits with no leading zero unless it is `0`, and read back (sign included) it gives the integer |
| `PaymentInit.NewOrderId` | api/payment/init.js:30 | the generated id starts with `ORDER-` |
| `PaymentInit.NewOrder` | api/payment/init.js:32-39 | the inserted record is `pending`, has `createdAt = updatedAt = now`, the given amount and email, and no `paidAt` or `saweriaId` |
| `PaymentInit.OrElse` | api/payment/init.js:34 | a falsy name (absent or empty) becomes `Guest User`; a truthy one is kept |
| `PaymentInit.PaymentUrl` | api/payment/init.js:43-44 | the link starts with `https://saweria.co/<user>?amount=` (`eilasya` when the user is falsy) and ends with `&order_id=<orderId>`; the text between them is exactly `IntToString(amount)` |
| `PaymentInit.CreateAddsOnePendingOrder` | api/payment/init.js:30-49 | with a fresh id exactly one key is appended, mapped to the pending record; existing entries and positions are unchanged; the answer names that key and its link |
| `PaymentInit.CollidingIdOverwrites` | api/payment/init.js:30-39 | the id is not checked for freshness: a colliding id replaces the existing record in place |
| `PaymentStatus.Query` | api/payment/status.js:8-68 | OPTIONS 200, other non-GET 405, missing or empty `orderId` 400, unknown id `not_found`; a found order copies `status`, `amount`, `email`, `createdAt`, gives `paid` iff `success`, and `paidAt` or null |
| `PaymentFlow.CreatePayPoll` | api/payment/status.js:50-59 | creating an order, then a donation with its email and amount, then polling reports it paid with `paidAt`, provided no earlier pending order matches the donation |
| `PaymentFlow.PayThenPoll` | api/payment/status.js:50-59 | once the webhook confirms the first qualifying order, the poll for it answers `Found` with `success`, `paid` true, the stored amount, email and `createdAt`, and the payment time (null when 0) |
| `PaymentFlow.UnpaidOrderExpires` | api/_store.js:24-29 | an order still pending more than 24h after creation is swept, and the poll then answers `not_found` |
| `PaymentFlow.PaidOrderSurvives` | api/_store.js:25 | a paid order survives every sweep and the poll keeps reporting it paid |

## Findings

| source | as written | input that shows it | evidently intended | confidence | as-written member | corrected member |
|---|---|---|---|---|---|---|
| api/payment/webhook.js:15 | the webhook reads orders from `global.orderStore \|\| new Map()`. Nothing here assigns `global.orderStore`, and `init.js` writes to the `store` of `api/_store.js`. | create an order through `init.js`, then deliver a donation with its email and amount: the answer is 'No matching order' | the webhook scans the store that `init.js` fills | medium (not executed; `api/_shared-store.js` is not part of this model) | `Webhook.DetachedStoreNeverConfirms` | `PaymentFlow.CreatePayPoll` |

## Left out

- The `catch` branches (`api/payment/webhook.js:104-110`, `api/payment/init.js:53-59`, `api/payment/status.js:61-67`) are not modelled. No modelled step throws. The webhook's catch would also answer 200.
- The sweep's scheduling by `setInterval` every hour. Only the body is modelled, as `Store.OrderStore.Sweep(now)`. The loop runs over a copy of the keys. This matches iterating the live `Map`, because only the key being visited is ever deleted.
- `Date.now()` and `Math.random()` are parameters: `now` and the random part of the id. `init.js` calls `Date.now()` three times. The model uses one `now` for the id, `createdAt` and `updatedAt`.
- CORS headers, `console.log` and `sharedStore.debug()`: output only.
- JavaScript number semantics. Amounts are integers, and `amount_raw` is either a number or absent. An absent `amount_raw` never matches, because its difference is NaN. Values that JavaScript coerces to numbers are not modelled: `null`, `""` and `false` count as 0, and `"5000"` counts as 5000. A non-numeric string gives NaN and is not modelled either.
- Concurrency and sharing across invocations or instances. Each handler call is one atomic step on one shared store.
- An order lifecycle with explicit `success`/`failed` transitions, a lookup by order id in the donation message, and an idempotency key on the Saweria id: no handler has them, so there is nothing to model.
- The React components (`src/components/DownloadOptions.tsx`, `src/components/TailorCVDialog.tsx`), the Gemini wrappers (`api/tailor.js`, `api/gemini.ts`), `api/payment-callback.js` (a constant acknowledgement) and the commented-out Midtrans drafts in `api/payment/init.js:62-244`.
