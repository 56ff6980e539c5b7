/**
 * The Saweria webhook of `api/payment/webhook.js`: it filters out payloads
 * that are not donations, scans the shared order store in insertion order for
 * the first pending order with the donor's email and an amount within 100 of
 * the donation, and marks that one order as paid.
 */
module Webhook {
  import opened Wrappers
  import opened Store

  /** The fields the handler destructures from the request body; an absent
      body (`req.body || {}`) is a payload whose fields are all absent. */
  datatype Payload = Payload(
    id: Option<string>,
    kind: Option<string>,
    amountRaw: Option<int>,
    donatorEmail: Option<string>,
    message: Option<string>)

  datatype WebhookReply =
    | MethodNotAllowed
    | Acknowledged(success: bool, message: string, orderId: Option<OrderId>)

  /** The HTTP status code the handler answers with. */
  function Code(r: WebhookReply): int {
    if r.MethodNotAllowed? then 405 else 200
  }

  const NotADonation := "Invalid webhook (not a donation)"
  const NoMatchingOrder := "No matching order"
  const PaymentConfirmed := "Payment confirmed"

  /** `!saweriaId || type !== 'donation'` fails: an id that is present and not
      empty, and the type 'donation'. */
  predicate IsDonation(p: Payload) {
    p.id.Some? && p.id.value != "" && p.kind == Some("donation")
  }

  function Abs(x: int): int { if x < 0 then -x else x }

  /** The scan's test: same email, still pending, and an amount strictly
      within 100 of `amount_raw` (an absent `amount_raw` makes the difference
      NaN, which never compares below 100). */
  predicate Qualifies(o: Order, p: Payload) {
    && p.donatorEmail == Some(o.email)
    && o.status == Pending
    && p.amountRaw.Some? && Abs(o.amount - p.amountRaw.value) < 100
  }

  /** The position of the first qualifying order in insertion order. */
  function FirstMatch(keys: seq<OrderId>, entries: map<OrderId, Order>, p: Payload): (r: Option<nat>)
    requires forall k :: k in keys ==> k in entries
    ensures r.Some? ==> r.value < |keys| && Qualifies(entries[keys[r.value]], p)
    ensures r.Some? ==> forall j :: 0 <= j < r.value ==> !Qualifies(entries[keys[j]], p)
    ensures r.None? <==> forall j :: 0 <= j < |keys| ==> !Qualifies(entries[keys[j]], p)
  {
    if keys == [] then None
    else if Qualifies(entries[keys[0]], p) then Some(0)
    else match FirstMatch(keys[1..], entries, p)
      case None => None
      case Some(i) => Some(i + 1)
  }

  /** A qualifying position with no qualifying position before it is the first match. */
  lemma FirstMatchAt(keys: seq<OrderId>, entries: map<OrderId, Order>, p: Payload, i: nat)
    requires forall k :: k in keys ==> k in entries
    requires i < |keys| && Qualifies(entries[keys[i]], p)
    requires forall j :: 0 <= j < i ==> !Qualifies(entries[keys[j]], p)
    ensures FirstMatch(keys, entries, p) == Some(i)
  {
  }

  /** The record written back for a confirmed payment. */
  function Paid(o: Order, saweriaId: string, now: int): (r: Order)
    ensures r.status == Success && r.paidAt == Some(now) && r.saweriaId == Some(saweriaId)
    ensures r.(status := o.status, paidAt := o.paidAt, saweriaId := o.saweriaId) == o
  {
    o.(status := Success, paidAt := Some(now), saweriaId := Some(saweriaId))
  }

  /** What one call of the handler does to the store, and what it answers. */
  function Reconcile(t: Table, verb: string, p: Payload, now: int): (res: (Table, WebhookReply))
    requires WellFormed(t)
    ensures WellFormed(res.0)
    ensures Code(res.1) == 405 <==> verb != "POST"
    ensures res.1.Acknowledged? ==> res.1.success
    ensures verb != "POST" || !IsDonation(p) ==> res.0 == t
    ensures res.1.Acknowledged? && res.1.orderId.None? ==> res.0 == t
    ensures res.0.keys == t.keys && res.0.entries.Keys == t.entries.Keys
  {
    if verb != "POST" then (t, MethodNotAllowed)
    else if !IsDonation(p) then (t, Acknowledged(true, NotADonation, None))
    else match FirstMatch(t.keys, t.entries, p)
      case None => (t, Acknowledged(true, NoMatchingOrder, None))
      case Some(i) =>
        var id := t.keys[i];
        if id == "" then (t, Acknowledged(true, NoMatchingOrder, None))
        else (Insert(t, id, Paid(t.entries[id], p.id.value, now)), Acknowledged(true, PaymentConfirmed, Some(id)))
  }

  /** The handler, run against the shared store. */
  method HandleWebhook(store: OrderStore, verb: string, p: Payload, now: int) returns (reply: WebhookReply)
    requires store.Valid()
    modifies store
    ensures store.Valid()
    ensures (store.Snapshot(), reply) == Reconcile(old(store.Snapshot()), verb, p, now)
  {
    if verb != "POST" {
      return MethodNotAllowed;
    }
    if !IsDonation(p) {
      return Acknowledged(true, NotADonation, None);
    }
    var found: Option<OrderId> := None;
    var i := 0;
    while i < |store.keys|
      invariant 0 <= i <= |store.keys|
      invariant forall j :: 0 <= j < i ==> !Qualifies(store.entries[store.keys[j]], p)
    {
      var id := store.keys[i];
      if Qualifies(store.entries[id], p) {
        found := Some(id);
        break;
      }
      i := i + 1;
    }
    if found.Some? {
      FirstMatchAt(store.keys, store.entries, p, i);
    }
    if found.None? || found.value == "" {
      return Acknowledged(true, NoMatchingOrder, None);
    }
    var orderId := found.value;
    var order := store.GetOrder(orderId);
    store.Put(orderId, order.value.(status := Success, paidAt := Some(now), saweriaId := p.id));
    reply := Acknowledged(true, PaymentConfirmed, Some(orderId));
  }

  // ---------------------------------------------------------------------
  // Properties of the reconciliation
  // ---------------------------------------------------------------------

  /** A confirmed order is the first qualifying one in insertion order, and the
      payment changes that record's status, `paidAt` and `saweriaId` only: its
      position, every other field (including `updatedAt`, since the handler
      writes with `Map.set` rather than `setOrder`) and every other record are
      unchanged. */
  lemma ConfirmsFirstMatchOnly(t: Table, verb: string, p: Payload, now: int, i: nat)
    requires WellFormed(t) && i < |t.keys|
    requires Reconcile(t, verb, p, now).1 == Acknowledged(true, PaymentConfirmed, Some(t.keys[i]))
    ensures verb == "POST" && IsDonation(p)
    ensures Qualifies(t.entries[t.keys[i]], p)
    ensures forall j :: 0 <= j < i ==> !Qualifies(t.entries[t.keys[j]], p)
    ensures var after, o := Reconcile(t, verb, p, now).0, t.entries[t.keys[i]];
      && after.keys == t.keys
      && after.entries.Keys == t.entries.Keys
      && (forall k :: k in t.entries && k != t.keys[i] ==> after.entries[k] == t.entries[k])
      && after.entries[t.keys[i]].status == Success
      && after.entries[t.keys[i]].paidAt == Some(now)
      && after.entries[t.keys[i]].saweriaId == p.id
      && after.entries[t.keys[i]].(status := o.status, paidAt := o.paidAt, saweriaId := o.saweriaId) == o
  {
    var m := FirstMatch(t.keys, t.entries, p);
    assert m.Some?;
    DistinctIndex(t.keys, m.value, i);
  }

  /** The converse: the first qualifying order, under a non-empty key, is the
      one a POSTed donation confirms, and it is written back as paid. */
  lemma FirstQualifyingIsConfirmed(t: Table, p: Payload, now: int, i: nat)
    requires WellFormed(t) && IsDonation(p) && i < |t.keys| && t.keys[i] != ""
    requires Qualifies(t.entries[t.keys[i]], p)
    requires forall j :: 0 <= j < i ==> !Qualifies(t.entries[t.keys[j]], p)
    ensures Reconcile(t, "POST", p, now).1 == Acknowledged(true, PaymentConfirmed, Some(t.keys[i]))
    ensures Reconcile(t, "POST", p, now).0.entries[t.keys[i]] == Paid(t.entries[t.keys[i]], p.id.value, now)
  {
    FirstMatchAt(t.keys, t.entries, p, i);
  }

  lemma DistinctIndex(s: seq<OrderId>, a: nat, b: nat)
    requires Distinct(s) && a < |s| && b < |s| && s[a] == s[b]
    ensures a == b
  {
  }

  /** When no order qualifies the donation is acknowledged as unmatched and
      the store is left as it was. */
  lemma NoQualifyingOrderLeavesStore(t: Table, p: Payload, now: int)
    requires WellFormed(t) && IsDonation(p)
    requires forall k :: k in t.entries ==> !Qualifies(t.entries[k], p)
    ensures Reconcile(t, "POST", p, now) == (t, Acknowledged(true, NoMatchingOrder, None))
  {
    forall j | 0 <= j < |t.keys| ensures !Qualifies(t.entries[t.keys[j]], p) {
      assert t.keys[j] in t.entries;
    }
  }

  /** A confirmed order is no longer pending, so delivering the same payload
      again (at any later time) cannot select it a second time. */
  lemma {:induction false} RedeliveryCannotReselect(t: Table, p: Payload, now: int, later: int, id: OrderId)
    requires WellFormed(t)
    requires Reconcile(t, "POST", p, now).1.Acknowledged?
    requires Reconcile(t, "POST", p, now).1.orderId == Some(id)
    ensures Reconcile(Reconcile(t, "POST", p, now).0, "POST", p, later).1.orderId != Some(id)
  {
    var t1 := Reconcile(t, "POST", p, now).0;
    assert id in t1.entries && t1.entries[id].status == Success;
    var m := FirstMatch(t1.keys, t1.entries, p);
    if m.Some? {
      assert Qualifies(t1.entries[t1.keys[m.value]], p);
      assert t1.keys[m.value] != id;
    }
  }

  /** The free-text `message` is read from the body but plays no part. */
  lemma MessageIsIgnored(t: Table, verb: string, p: Payload, now: int, note: Option<string>)
    requires WellFormed(t)
    ensures Reconcile(t, verb, p.(message := note), now) == Reconcile(t, verb, p, now)
  {
    var q := p.(message := note);
    assert IsDonation(q) == IsDonation(p);
    assert forall o :: Qualifies(o, q) == Qualifies(o, p);
    FirstMatchSameTest(t.keys, t.entries, p, q);
  }

  lemma {:induction false} FirstMatchSameTest(keys: seq<OrderId>, entries: map<OrderId, Order>, p: Payload, q: Payload)
    requires forall k :: k in keys ==> k in entries
    requires forall o :: Qualifies(o, q) == Qualifies(o, p)
    ensures FirstMatch(keys, entries, q) == FirstMatch(keys, entries, p)
  {
    if keys != [] {
      FirstMatchSameTest(keys[1..], entries, p, q);
    }
  }

  /** The tolerance is strict: for an order of 5000, 5099 and 4901 qualify,
      5100 and 4900 do not. */
  lemma ToleranceBoundary(o: Order, email: string, id: string)
    requires o.amount == 5000 && o.email == email && o.status == Pending
    ensures Qualifies(o, Payload(Some(id), Some("donation"), Some(5099), Some(email), None))
    ensures Qualifies(o, Payload(Some(id), Some("donation"), Some(4901), Some(email), None))
    ensures !Qualifies(o, Payload(Some(id), Some("donation"), Some(5100), Some(email), None))
    ensures !Qualifies(o, Payload(Some(id), Some("donation"), Some(4900), Some(email), None))
    ensures !Qualifies(o, Payload(Some(id), Some("donation"), None, Some(email), None))
  {
  }

  /** There is no idempotency check on the Saweria id: with two pending orders
      of the same email and amount, delivering one donation twice marks both
      orders as paid. */
  lemma RedeliveryPaysNextOrder(first: Order, second: Order, now: int)
    requires first.status == Pending && second.status == Pending
    requires first.email == second.email && first.amount == second.amount
    ensures var t := Table(["ORDER-1", "ORDER-2"], map["ORDER-1" := first, "ORDER-2" := second]);
      var p := Payload(Some("tx"), Some("donation"), Some(first.amount), Some(first.email), None);
      var once := Reconcile(t, "POST", p, now);
      var twice := Reconcile(once.0, "POST", p, now);
      && once.1.orderId == Some("ORDER-1")
      && twice.1.orderId == Some("ORDER-2")
      && twice.0.entries["ORDER-1"].status == Success
      && twice.0.entries["ORDER-2"].status == Success
  {
    var t := Table(["ORDER-1", "ORDER-2"], map["ORDER-1" := first, "ORDER-2" := second]);
    var p := Payload(Some("tx"), Some("donation"), Some(first.amount), Some(first.email), None);
    assert "ORDER-1" != "ORDER-2" by { assert "ORDER-1"[6] != "ORDER-2"[6]; }
    assert WellFormed(t);
    FirstMatchAt(t.keys, t.entries, p, 0);
    var once := Reconcile(t, "POST", p, now);
    assert once.0.keys == t.keys;
    FirstMatchAt(once.0.keys, once.0.entries, p, 1);
  }

  /** The handler tests the found key for truthiness, so a first qualifying
      order stored under the empty key hides every later qualifying order. */
  lemma EmptyKeyHidesMatch(first: Order, second: Order, now: int)
    requires first.status == Pending && second.status == Pending
    requires first.email == second.email && first.amount == second.amount
    ensures var t := Table(["", "ORDER-2"], map["" := first, "ORDER-2" := second]);
      var p := Payload(Some("tx"), Some("donation"), Some(first.amount), Some(first.email), None);
      Reconcile(t, "POST", p, now) == (t, Acknowledged(true, NoMatchingOrder, None))
  {
    var t := Table(["", "ORDER-2"], map["" := first, "ORDER-2" := second]);
    var p := Payload(Some("tx"), Some("donation"), Some(first.amount), Some(first.email), None);
    assert "" != "ORDER-2";
    assert WellFormed(t);
    FirstMatchAt(t.keys, t.entries, p, 0);
  }

  /** The handler as written looks orders up in `global.orderStore || new Map()`.
      Nothing in this code base assigns `global.orderStore`, and the orders
      created by `api/payment/init.js` live in the `store` of `api/_store.js`,
      so the scan runs over a fresh, empty map. */
  function ReconcileDetached(verb: string, p: Payload, now: int): (res: (Table, WebhookReply))
    ensures res.0 == Table([], map[])
  {
    Reconcile(Table([], map[]), verb, p, now)
  }

  /** With that detached map no donation is ever matched: every valid donation
      is answered 'No matching order' and no order is ever marked paid. */
  lemma DetachedStoreNeverConfirms(p: Payload, now: int)
    requires IsDonation(p)
    ensures ReconcileDetached("POST", p, now).1 == Acknowledged(true, NoMatchingOrder, None)
  {
    assert WellFormed(Table([], map[]));
  }
}
