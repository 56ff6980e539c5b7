/**
 * The three handlers acting on one shared store: creating an order, the
 * Saweria webhook paying it, the TTL sweep, and the browser's poll.
 */
module PaymentFlow {
  import opened Wrappers
  import opened Store
  import opened Webhook
  import opened PaymentInit
  import opened PaymentStatus

  /** A created order, paid by a donation with its email and amount, is
      reported as paid by the next poll, provided no earlier pending order
      in the store also matches that donation. */
  lemma CreatePayPoll(t: Table, body: InitBody, now: int, randomPart: string, username: Option<string>,
                      saweriaId: string, paidAt: int)
    requires WellFormed(t) && Accepts(body) && saweriaId != ""
    requires NewOrderId(now, randomPart) !in t.entries
    requires var p := Payload(Some(saweriaId), Some("donation"), body.amount, body.email, None);
      forall k :: k in t.entries ==> !Qualifies(t.entries[k], p)
    ensures var id := NewOrderId(now, randomPart);
      var p := Payload(Some(saweriaId), Some("donation"), body.amount, body.email, None);
      var created := Create(t, "POST", body, now, randomPart, username);
      var paid := Reconcile(created.0, "POST", p, paidAt);
      && created.1 == Created(id, PaymentUrl(username, body.amount.value, id))
      && paid.1 == Acknowledged(true, PaymentConfirmed, Some(id))
      && Query(paid.0, "GET", Some(id)) == Found(id, Success, true, body.amount.value, body.email.value, now,
                                                 if paidAt == 0 then None else Some(paidAt))
  {
    var id := NewOrderId(now, randomPart);
    var p := Payload(Some(saweriaId), Some("donation"), body.amount, body.email, None);
    CreateAddsOnePendingOrder(t, body, now, randomPart, username);
    var created := Create(t, "POST", body, now, randomPart, username).0;
    assert created.keys == t.keys + [id];
    forall j | 0 <= j < |t.keys| ensures !Qualifies(created.entries[created.keys[j]], p) {
      assert t.keys[j] in t.entries && created.keys[j] == t.keys[j];
    }
    assert created.keys[|t.keys|] == id && id != "";
    PayThenPoll(created, p, paidAt, |t.keys|);
  }

  /** Once the webhook confirms the first qualifying order, the poll for that
      order reports it paid, with the payment time and its stored fields. */
  lemma PayThenPoll(t: Table, p: Payload, paidAt: int, i: nat)
    requires WellFormed(t) && IsDonation(p) && i < |t.keys| && t.keys[i] != ""
    requires Qualifies(t.entries[t.keys[i]], p)
    requires forall j :: 0 <= j < i ==> !Qualifies(t.entries[t.keys[j]], p)
    ensures var id, o := t.keys[i], t.entries[t.keys[i]];
      var paid := Reconcile(t, "POST", p, paidAt);
      && paid.1 == Acknowledged(true, PaymentConfirmed, Some(id))
      && Query(paid.0, "GET", Some(id))
         == Found(id, Success, true, o.amount, o.email, o.createdAt, if paidAt == 0 then None else Some(paidAt))
  {
    FirstQualifyingIsConfirmed(t, p, paidAt, i);
    var paid := Reconcile(t, "POST", p, paidAt).0;
    assert t.keys[i] in paid.entries;
  }

  /** An order still pending when the sweep runs more than 24 hours after its
      creation is gone, and the poll then answers `not_found`. */
  lemma UnpaidOrderExpires(t: Table, id: OrderId, now: int)
    requires WellFormed(t) && id in t.entries && id != ""
    requires t.entries[id].status == Pending && now > t.entries[id].createdAt + TTL
    ensures id !in Swept(t, now).entries
    ensures Query(Swept(t, now), "GET", Some(id)) == NotFound(id)
  {
  }

  /** A paid order survives every sweep, and the poll keeps reporting it paid. */
  lemma PaidOrderSurvives(t: Table, id: OrderId, now: int)
    requires WellFormed(t) && id in t.entries && id != ""
    requires t.entries[id].status == Success
    ensures id in Swept(t, now).entries
    ensures ReportsPaid(Query(Swept(t, now), "GET", Some(id)))
  {
  }
}
