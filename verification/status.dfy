/**
 * The status poll of `api/payment/status.js`: a read-only lookup of one order
 * in the shared store, projected into the answer the browser polls for.
 */
module PaymentStatus {
  import opened Wrappers
  import opened Store

  datatype StatusReply =
    | Preflight                  // OPTIONS: empty 200
    | MethodNotAllowed           // 405
    | MissingOrderId             // 400 'orderId required'
    | NotFound(orderId: OrderId) // 200, success false, status 'not_found', paid false
    | Found(orderId: OrderId, status: Status, paid: bool, amount: int, email: string,
            createdAt: int, paidAt: Option<int>)   // 200, success true

  function Code(r: StatusReply): int {
    match r
    case Preflight => 200
    case MethodNotAllowed => 405
    case MissingOrderId => 400
    case NotFound(_) => 200
    case Found(_, _, _, _, _, _, _) => 200
  }

  /** The `paid` flag of the answer; absent answers count as not paid. */
  predicate ReportsPaid(r: StatusReply) {
    r.Found? && r.paid
  }

  /** The answer to one poll for `orderId` (absent or empty means not given). */
  function Query(t: Table, verb: string, orderId: Option<string>): (r: StatusReply)
    ensures Code(r) == 405 <==> verb != "OPTIONS" && verb != "GET"
    ensures Code(r) == 400 <==> verb == "GET" && (orderId.None? || orderId.value == "")
    ensures r.Preflight? <==> verb == "OPTIONS"
    ensures r.MethodNotAllowed? <==> verb != "OPTIONS" && verb != "GET"
    ensures r.MissingOrderId? <==> verb == "GET" && (orderId.None? || orderId.value == "")
    ensures r.NotFound? <==> verb == "GET" && orderId.Some? && orderId.value != "" && orderId.value !in t.entries
    ensures r.NotFound? || r.Found? ==> orderId == Some(r.orderId)
    ensures r.Found? ==> r.orderId in t.entries
    ensures r.Found? ==> (r.paid <==> t.entries[r.orderId].status == Success)
    ensures r.Found? ==> var o := t.entries[r.orderId];
      && r.status == o.status && r.amount == o.amount && r.email == o.email && r.createdAt == o.createdAt
      && r.paidAt == (if o.paidAt == Some(0) then None else o.paidAt)
  {
    if verb == "OPTIONS" then Preflight
    else if verb != "GET" then MethodNotAllowed
    else if orderId.None? || orderId.value == "" then MissingOrderId
    else match Lookup(t, orderId.value)
      case None => NotFound(orderId.value)
      case Some(o) =>
        // `order.paidAt || null`: an absent or zero timestamp reads as null
        var paidAt := if o.paidAt.Some? && o.paidAt.value != 0 then o.paidAt else None;
        Found(orderId.value, o.status, o.status == Success, o.amount, o.email, o.createdAt, paidAt)
  }
}
