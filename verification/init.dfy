/**
 * Order creation, `api/payment/init.js` (the live handler): validate the
 * amount and email, insert a pending order into the shared store, and answer
 * with the order id and the Saweria payment link.
 *
 * The clock, the random part of the id and the `SAWERIA_USERNAME`
 * environment variable are parameters.
 */
module PaymentInit {
  import opened Wrappers
  import opened Store

  /** The fields read from the request body; an absent body reads as all absent. */
  datatype InitBody = InitBody(amount: Option<int>, name: Option<string>, email: Option<string>)

  datatype InitReply =
    | Preflight                                       // OPTIONS: empty 200
    | MethodNotAllowed                                // 405
    | BadRequest                                      // 400 'amount dan email wajib'
    | Created(orderId: OrderId, paymentUrl: string)   // 200

  function Code(r: InitReply): int {
    match r
    case Preflight => 200
    case MethodNotAllowed => 405
    case BadRequest => 400
    case Created(_, _) => 200
  }

  const GuestName := "Guest User"
  const DefaultUsername := "eilasya"
  const SaweriaBase := "https://saweria.co/"

  function DigitChar(d: nat): char
    requires d < 10
  {
    ('0' as int + d) as char
  }

  function DigitValue(c: char): nat {
    if '0' <= c <= '9' then c as int - '0' as int else 0
  }

  /** The number a text of decimal digits denotes (most significant first). */
  function DecimalValue(s: string): nat {
    if s == [] then 0 else DecimalValue(s[..|s| - 1]) * 10 + DigitValue(s[|s| - 1])
  }

  /** The number a decimal text with an optional leading `-` denotes. */
  function SignedValue(s: string): int
  {
    if |s| > 0 && s[0] == '-' then -(DecimalValue(s[1..]) as int) else DecimalValue(s)
  }

  /** The decimal text JavaScript gives a non-negative integer in a template
      literal: digits only, no leading zero, denoting `n`. */
  function NatToString(n: nat): (s: string)
    ensures |s| > 0
    ensures forall c :: c in s ==> '0' <= c <= '9'
    ensures s[0] == '0' ==> s == "0"
    ensures DecimalValue(s) == n
  {
    if n < 10 then [DigitChar(n)]
    else
      var s := NatToString(n / 10) + [DigitChar(n % 10)];
      assert s[..|s| - 1] == NatToString(n / 10);
      s
  }

  /** The decimal text of any integer: a `-` exactly for a negative one,
      then canonical digits, and reading the text back gives the integer. */
  function IntToString(i: int): (r: string)
    ensures |r| > 0 && (r[0] == '-' <==> i < 0)
    ensures var digits := if i < 0 then r[1..] else r;
      && |digits| > 0
      && (forall c :: c in digits ==> '0' <= c <= '9')
      && (digits[0] == '0' ==> digits == "0")
    ensures SignedValue(r) == i
  {
    if i < 0 then
      var r := "-" + NatToString(-i);
      assert r[1..] == NatToString(-i);
      r
    else
      var r := NatToString(i);
      assert r[0] in r;
      r
  }

  /** JavaScript `s || fallback` for a string that may be absent. */
  function OrElse(s: Option<string>, fallback: string): (r: string)
    ensures s.Some? && s.value != "" ==> r == s.value
    ensures s.None? || s.value == "" ==> r == fallback
  {
    if s.Some? && s.value != "" then s.value else fallback
  }

  /** `!amount || !email` is false: an amount present and non-zero, an email present and non-empty. */
  predicate Accepts(body: InitBody) {
    body.amount.Some? && body.amount.value != 0 && body.email.Some? && body.email.value != ""
  }

  /** `ORDER-${Date.now()}-${random}`. */
  function NewOrderId(now: int, randomPart: string): (id: OrderId)
    ensures "ORDER-" <= id
  {
    "ORDER-" + IntToString(now) + "-" + randomPart
  }

  /** The Saweria page of the configured user (by default `eilasya`), with
      the amount and, last, the order id as query parameters. */
  function PaymentUrl(username: Option<string>, amount: int, orderId: OrderId): (url: string)
    ensures username.Some? && username.value != "" ==> SaweriaBase + username.value + "?amount=" <= url
    ensures username.None? || username.value == "" ==> SaweriaBase + DefaultUsername + "?amount=" <= url
    ensures var tail := "&order_id=" + orderId; |url| >= |tail| && url[|url| - |tail|..] == tail
    ensures var head := SaweriaBase + OrElse(username, DefaultUsername) + "?amount=";
      var tail := "&order_id=" + orderId;
      |head| <= |url| - |tail| && url[|head|..|url| - |tail|] == IntToString(amount)
  {
    var head := SaweriaBase + OrElse(username, DefaultUsername) + "?amount=";
    var tail := "&order_id=" + orderId;
    Framed(head, IntToString(amount), tail);
    head + IntToString(amount) + tail
  }

  lemma Framed(head: string, middle: string, tail: string)
    ensures head <= head + middle + tail
    ensures var s := head + middle + tail; s[|s| - |tail|..] == tail
    ensures var s := head + middle + tail; s[|head|..|s| - |tail|] == middle
  {
    var s := head + middle + tail;
    assert s[..|head|] == head;
    assert s[|s| - |tail|..] == tail;
    assert s[|head|..|s| - |tail|] == middle;
  }

  /** The record inserted for an accepted request. */
  function NewOrder(body: InitBody, now: int): (o: Order)
    requires Accepts(body)
    ensures o.status == Pending && o.createdAt == now && o.updatedAt == now
    ensures o.amount == body.amount.value && o.email == body.email.value
    ensures o.name == OrElse(body.name, GuestName)
    ensures o.paidAt.None? && o.saweriaId.None?
  {
    Order(body.amount.value, OrElse(body.name, GuestName), body.email.value, Pending, now, now, None, None)
  }

  /** What one call of the handler does to the store, and what it answers. */
  function Create(t: Table, verb: string, body: InitBody, now: int, randomPart: string, username: Option<string>)
    : (res: (Table, InitReply))
    requires WellFormed(t)
    ensures WellFormed(res.0)
    ensures res.1.Preflight? <==> verb == "OPTIONS"
    ensures res.1.MethodNotAllowed? <==> verb != "OPTIONS" && verb != "POST"
    ensures res.1.BadRequest? <==> verb == "POST" && !Accepts(body)
    ensures !res.1.Created? ==> res.0 == t
    ensures res.1.Created? ==> res.1.orderId in res.0.entries && "ORDER-" <= res.1.orderId
  {
    if verb == "OPTIONS" then (t, Preflight)
    else if verb != "POST" then (t, MethodNotAllowed)
    else if !Accepts(body) then (t, BadRequest)
    else
      var id := NewOrderId(now, randomPart);
      (Insert(t, id, NewOrder(body, now)), Created(id, PaymentUrl(username, body.amount.value, id)))
  }

  /** The handler, run against the shared store. */
  method HandleInit(store: OrderStore, verb: string, body: InitBody, now: int, randomPart: string, username: Option<string>)
    returns (reply: InitReply)
    requires store.Valid()
    modifies store
    ensures store.Valid()
    ensures (store.Snapshot(), reply) == Create(old(store.Snapshot()), verb, body, now, randomPart, username)
  {
    if verb == "OPTIONS" {
      return Preflight;
    }
    if verb != "POST" {
      return MethodNotAllowed;
    }
    if body.amount.None? || body.amount.value == 0 || body.email.None? || body.email.value == "" {
      return BadRequest;
    }
    var orderId := NewOrderId(now, randomPart);
    var name := if body.name.Some? && body.name.value != "" then body.name.value else GuestName;
    store.Put(orderId, Order(body.amount.value, name, body.email.value, Pending, now, now, None, None));
    var user := if username.Some? && username.value != "" then username.value else DefaultUsername;
    var paymentUrl := SaweriaBase + user + "?amount=" + IntToString(body.amount.value) + ("&order_id=" + orderId);
    reply := Created(orderId, paymentUrl);
  }

  // ---------------------------------------------------------------------
  // Properties of order creation
  // ---------------------------------------------------------------------

  /** With a fresh generated id, an accepted request appends exactly one key,
      mapped to a pending record stamped with the current time; every existing
      entry and its position are unchanged, and the answer names that key. */
  lemma CreateAddsOnePendingOrder(t: Table, body: InitBody, now: int, randomPart: string, username: Option<string>)
    requires WellFormed(t) && Accepts(body)
    requires NewOrderId(now, randomPart) !in t.entries
    ensures var id := NewOrderId(now, randomPart);
      var (after, reply) := Create(t, "POST", body, now, randomPart, username);
      && reply == Created(id, PaymentUrl(username, body.amount.value, id))
      && Code(reply) == 200
      && after.keys == t.keys + [id]
      && after.entries == t.entries[id := Order(body.amount.value, OrElse(body.name, GuestName), body.email.value,
                                                Pending, now, now, None, None)]
  {
  }

  /** The generated id is not checked against the store: a colliding id
      replaces the existing record in place, keeping its position. */
  lemma CollidingIdOverwrites(t: Table, body: InitBody, now: int, randomPart: string, username: Option<string>)
    requires WellFormed(t) && Accepts(body)
    requires NewOrderId(now, randomPart) in t.entries
    ensures var after := Create(t, "POST", body, now, randomPart, username).0;
      && after.keys == t.keys
      && after.entries[NewOrderId(now, randomPart)] == NewOrder(body, now)
  {
  }
}
