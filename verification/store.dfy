/**
 * The order store of `api/_store.js`: a JavaScript `Map` from order id to
 * order record, iterated in insertion order, with a periodic sweep that
 * evicts stale unpaid orders.
 *
 * The `Map` is modelled as a value `Table` (a sequence of distinct keys in
 * insertion order plus a map from key to record) and as the class
 * `OrderStore` whose methods update that value in place.
 */
module Store {
  import opened Wrappers

  type OrderId = string

  /** The `status` strings the handlers store: 'pending', 'success', 'failed'. */
  datatype Status = Pending | Success | Failed

  /** One order record, as `api/payment/init.js` creates it and the webhook completes it. */
  datatype Order = Order(
    amount: int,
    name: string,
    email: string,
    status: Status,
    createdAt: int,
    updatedAt: int,
    paidAt: Option<int>,
    saweriaId: Option<string>)

  /** Age, in milliseconds, beyond which an unpaid order is evicted (24 hours). */
  const TTL: int := 24 * 60 * 60 * 1000

  // ---------------------------------------------------------------------
  // The ordered map as a value
  // ---------------------------------------------------------------------

  datatype Table = Table(keys: seq<OrderId>, entries: map<OrderId, Order>)

  ghost predicate Distinct(s: seq<OrderId>) {
    forall i, j :: 0 <= i < j < |s| ==> s[i] != s[j]
  }

  /** The keys list each key of the map exactly once. */
  ghost predicate WellFormed(t: Table) {
    Distinct(t.keys) && forall k :: k in t.keys <==> k in t.entries
  }

  /** `Map.get`: the stored record, or `undefined`. */
  function Lookup(t: Table, id: OrderId): (r: Option<Order>)
    ensures r.Some? <==> id in t.entries
    ensures r.Some? ==> r.value == t.entries[id]
  {
    if id in t.entries then Some(t.entries[id]) else None
  }

  /** `Map.set`: a new key goes last; an existing key keeps its position. */
  function Insert(t: Table, id: OrderId, o: Order): (r: Table)
    requires WellFormed(t)
    ensures WellFormed(r)
    ensures r.entries.Keys == t.entries.Keys + {id} && r.entries[id] == o
    ensures forall k :: k in t.entries && k != id ==> r.entries[k] == t.entries[k]
    ensures |t.keys| <= |r.keys| && r.keys[..|t.keys|] == t.keys
    ensures id in t.entries ==> r.keys == t.keys
  {
    if id in t.entries then
      Table(t.keys, t.entries[id := o])
    else
      DistinctAppend(t.keys, id);
      Table(t.keys + [id], t.entries[id := o])
  }

  lemma DistinctAppend(s: seq<OrderId>, id: OrderId)
    requires Distinct(s) && id !in s
    ensures Distinct(s + [id]) && (s + [id])[..|s|] == s
  {
    var r := s + [id];
    forall i, j | 0 <= i < j < |r| ensures r[i] != r[j] {
      if j == |s| {
        assert r[i] == s[i];
      } else {
        assert r[i] == s[i] && r[j] == s[j];
      }
    }
  }

  /** `Map.delete`: the key disappears; the other keys keep their order. */
  function Remove(t: Table, id: OrderId): (r: Table)
    requires WellFormed(t)
    ensures WellFormed(r)
    ensures r.entries == t.entries - {id}
    ensures id !in t.entries ==> r.keys == t.keys
    ensures forall i :: 0 <= i < |t.keys| && t.keys[i] == id ==> r.keys == t.keys[..i] + t.keys[i + 1..]
  {
    WithoutDistinct(t.keys, id);
    WithoutOrder(t.keys, id);
    Table(Without(t.keys, id), t.entries - {id})
  }

  function Without(s: seq<OrderId>, id: OrderId): (r: seq<OrderId>)
    ensures forall k :: k in r <==> k in s && k != id
  {
    if s == [] then []
    else (if s[0] == id then [] else [s[0]]) + Without(s[1..], id)
  }

  lemma {:induction false} WithoutDistinct(s: seq<OrderId>, id: OrderId)
    requires Distinct(s)
    ensures Distinct(Without(s, id))
  {
    if s != [] {
      WithoutDistinct(s[1..], id);
      assert s[0] !in s[1..] by {
        forall j | 0 <= j < |s[1..]| ensures s[1..][j] != s[0] {
          assert s[1..][j] == s[j + 1];
        }
      }
    }
  }

  lemma {:induction false} WithoutAbsent(s: seq<OrderId>, id: OrderId)
    requires id !in s
    ensures Without(s, id) == s
  {
    if s != [] {
      WithoutAbsent(s[1..], id);
    }
  }

  /** Deleting a key that sits between `a` and `b` closes the gap and changes nothing else. */
  lemma {:induction false} WithoutSplit(a: seq<OrderId>, id: OrderId, b: seq<OrderId>)
    requires id !in a && id !in b
    ensures Without(a + [id] + b, id) == a + b
  {
    if a == [] {
      assert a + [id] + b == [id] + b;
      assert ([id] + b)[1..] == b;
      WithoutAbsent(b, id);
    } else {
      assert (a + [id] + b)[1..] == a[1..] + [id] + b;
      WithoutSplit(a[1..], id, b);
      assert a + b == [a[0]] + (a[1..] + b);
    }
  }

  /** Deleting from distinct keys removes exactly the deleted key's position. */
  lemma WithoutOrder(s: seq<OrderId>, id: OrderId)
    requires Distinct(s)
    ensures id !in s ==> Without(s, id) == s
    ensures forall i :: 0 <= i < |s| && s[i] == id ==> Without(s, id) == s[..i] + s[i + 1..]
  {
    if id !in s {
      WithoutAbsent(s, id);
    }
    forall i | 0 <= i < |s| && s[i] == id ensures Without(s, id) == s[..i] + s[i + 1..] {
      WithoutAt(s, i);
    }
  }

  lemma WithoutAt(s: seq<OrderId>, i: nat)
    requires Distinct(s) && i < |s|
    ensures Without(s, s[i]) == s[..i] + s[i + 1..]
  {
    var a, b := s[..i], s[i + 1..];
    DistinctAt(s, i);
    assert s == a + [s[i]] + b;
    WithoutSplit(a, s[i], b);
  }

  /** In a sequence of distinct keys, the key at a position occurs nowhere else. */
  lemma DistinctAt(s: seq<OrderId>, i: nat)
    requires Distinct(s) && i < |s|
    ensures s[i] !in s[..i] && s[i] !in s[i + 1..]
  {
    forall j | 0 <= j < i ensures s[..i][j] != s[i] {
      assert s[..i][j] == s[j];
    }
    var tail := s[i + 1..];
    forall j | 0 <= j < |tail| ensures tail[j] != s[i] {
      assert tail[j] == s[i + 1 + j];
    }
  }

  // ---------------------------------------------------------------------
  // The TTL sweep as a function of the table
  // ---------------------------------------------------------------------

  /** The sweep's condition: not paid and strictly older than the TTL. */
  predicate Expired(o: Order, now: int) {
    o.status != Success && now - o.createdAt > TTL
  }

  /** The keys of `s` that the sweep keeps, in their order. */
  function Live(s: seq<OrderId>, m: map<OrderId, Order>, now: int): seq<OrderId> {
    if s == [] then []
    else (if s[0] in m && Expired(m[s[0]], now) then [] else [s[0]]) + Live(s[1..], m, now)
  }

  lemma {:induction false} LiveMembers(s: seq<OrderId>, m: map<OrderId, Order>, now: int)
    ensures forall k :: k in Live(s, m, now) <==> k in s && !(k in m && Expired(m[k], now))
  {
    if s != [] {
      LiveMembers(s[1..], m, now);
      assert forall k :: k in s <==> k == s[0] || k in s[1..];
    }
  }

  lemma {:induction false} LiveDistinct(s: seq<OrderId>, m: map<OrderId, Order>, now: int)
    requires Distinct(s)
    ensures Distinct(Live(s, m, now))
  {
    if s != [] {
      var tail := s[1..];
      assert Distinct(tail) by {
        forall i, j | 0 <= i < j < |tail| ensures tail[i] != tail[j] {
          assert tail[i] == s[i + 1] && tail[j] == s[j + 1];
        }
      }
      LiveDistinct(tail, m, now);
      LiveMembers(tail, m, now);
      DistinctAt(s, 0);
    }
  }

  lemma {:induction false} LiveAppend(a: seq<OrderId>, b: seq<OrderId>, m: map<OrderId, Order>, now: int)
    ensures Live(a + b, m, now) == Live(a, m, now) + Live(b, m, now)
  {
    if a == [] {
      assert a + b == b;
    } else {
      assert (a + b)[1..] == a[1..] + b;
      LiveAppend(a[1..], b, m, now);
    }
  }

  /** A sequence with nothing expired passes the sweep unchanged. */
  lemma {:induction false} LiveKeepsAll(s: seq<OrderId>, m: map<OrderId, Order>, now: int)
    requires forall k :: k in s ==> !(k in m && Expired(m[k], now))
    ensures Live(s, m, now) == s
  {
    if s != [] {
      LiveKeepsAll(s[1..], m, now);
    }
  }

  /** The state left by one run of the sweep body (`api/_store.js`, lines 21-29). */
  function Swept(t: Table, now: int): (r: Table)
    requires WellFormed(t)
    ensures WellFormed(r)
    ensures forall k :: k in r.entries <==> k in t.entries && !Expired(t.entries[k], now)
    ensures forall k :: k in r.entries ==> r.entries[k] == t.entries[k]
  {
    LiveMembers(t.keys, t.entries, now);
    LiveDistinct(t.keys, t.entries, now);
    Table(Live(t.keys, t.entries, now),
          map k | k in t.entries && !Expired(t.entries[k], now) :: t.entries[k])
  }

  /** Running the sweep twice at the same instant is the same as running it once. */
  lemma SweepIdempotent(t: Table, now: int)
    requires WellFormed(t)
    ensures Swept(Swept(t, now), now) == Swept(t, now)
  {
    var once := Swept(t, now);
    LiveKeepsAll(once.keys, once.entries, now);
  }

  /** Two records that both survive keep their relative order. */
  lemma SweepKeepsOrder(t: Table, now: int, i: nat, j: nat)
    requires WellFormed(t) && i < j < |t.keys|
    requires t.keys[i] in Swept(t, now).entries && t.keys[j] in Swept(t, now).entries
    ensures exists p, q :: (0 <= p < q < |Swept(t, now).keys|
      && Swept(t, now).keys[p] == t.keys[i] && Swept(t, now).keys[q] == t.keys[j])
  {
    LiveKeepsOrder(t.keys, t.entries, now, i, j);
  }

  lemma LiveKeepsOrder(s: seq<OrderId>, m: map<OrderId, Order>, now: int, i: nat, j: nat)
    requires i < j < |s| && s[i] in m && s[j] in m
    requires !Expired(m[s[i]], now) && !Expired(m[s[j]], now)
    ensures exists p, q :: (0 <= p < q < |Live(s, m, now)|
      && Live(s, m, now)[p] == s[i] && Live(s, m, now)[q] == s[j])
  {
    var before, after := s[..j], s[j + 1..];
    assert s == before + ([s[j]] + after);
    LiveAppend(before, [s[j]] + after, m, now);
    LiveAppend([s[j]], after, m, now);
    assert Live([s[j]], m, now) == [s[j]];
    var kept := Live(before, m, now);
    LiveMembers(before, m, now);
    assert s[i] == before[i];
    var p :| 0 <= p < |kept| && kept[p] == s[i];
    var r := Live(s, m, now);
    assert r == kept + ([s[j]] + Live(after, m, now));
    assert r[p] == s[i] && r[|kept|] == s[j];
  }

  lemma SweepStep(done: seq<OrderId>, id: OrderId, rest: seq<OrderId>)
    requires Distinct(done + ([id] + rest))
    ensures Without(done + ([id] + rest), id) == done + rest
  {
    var keys := done + ([id] + rest);
    assert keys == done + [id] + rest;
    assert keys[|done|] == id;
    DistinctAt(keys, |done|);
    assert keys[..|done|] == done && keys[|done| + 1..] == rest;
    WithoutSplit(done, id, rest);
  }

  /** Visiting one more key extends the kept prefix by that key, unless it expired. */
  lemma LiveStep(s: seq<OrderId>, i: nat, m: map<OrderId, Order>, now: int)
    requires i < |s| && s[i] in m
    ensures Live(s[..i + 1], m, now) == Live(s[..i], m, now) + (if Expired(m[s[i]], now) then [] else [s[i]])
    ensures s[i..] == [s[i]] + s[i + 1..]
  {
    assert s[..i + 1] == s[..i] + [s[i]];
    LiveAppend(s[..i], [s[i]], m, now);
    assert s[i..][0] == s[i] && s[i..][1..] == s[i + 1..];
  }

  /** The table after the sweep has visited the first `i` keys of `t`. */
  ghost function Progress(t: Table, i: nat, now: int): Table
    requires i <= |t.keys|
  {
    Table(Live(t.keys[..i], t.entries, now) + t.keys[i..],
          map k | k in t.entries && (k in t.keys[i..] || !Expired(t.entries[k], now)) :: t.entries[k])
  }

  lemma ProgressStart(t: Table, now: int)
    requires WellFormed(t)
    ensures Progress(t, 0, now) == t
  {
    assert t.keys[..0] == [] && t.keys[0..] == t.keys;
  }

  lemma ProgressEnd(t: Table, now: int)
    requires WellFormed(t)
    ensures Progress(t, |t.keys|, now) == Swept(t, now)
  {
    assert t.keys[..|t.keys|] == t.keys && t.keys[|t.keys|..] == [];
  }

  /** One iteration of the sweep loop: the key under the cursor is deleted or kept. */
  lemma ProgressStep(t: Table, i: nat, now: int)
    requires WellFormed(t) && i < |t.keys| && WellFormed(Progress(t, i, now))
    ensures t.keys[i] in Progress(t, i, now).entries
    ensures Progress(t, i, now).entries[t.keys[i]] == t.entries[t.keys[i]]
    ensures Expired(t.entries[t.keys[i]], now) ==> Remove(Progress(t, i, now), t.keys[i]) == Progress(t, i + 1, now)
    ensures !Expired(t.entries[t.keys[i]], now) ==> Progress(t, i, now) == Progress(t, i + 1, now)
  {
    var s, m, id := t.keys, t.entries, t.keys[i];
    var p, q := Progress(t, i, now), Progress(t, i + 1, now);
    ProgressKeysStep(s, m, i, now);
    ProgressEntriesStep(t, i, now);
    if Expired(m[id], now) {
      assert Remove(p, id).keys == q.keys;
    }
  }

  lemma ProgressKeysStep(s: seq<OrderId>, m: map<OrderId, Order>, i: nat, now: int)
    requires i < |s| && s[i] in m && Distinct(Live(s[..i], m, now) + s[i..])
    ensures Expired(m[s[i]], now) ==>
      Without(Live(s[..i], m, now) + s[i..], s[i]) == Live(s[..i + 1], m, now) + s[i + 1..]
    ensures !Expired(m[s[i]], now) ==>
      Live(s[..i], m, now) + s[i..] == Live(s[..i + 1], m, now) + s[i + 1..]
  {
    var id, rest := s[i], s[i + 1..];
    var done := Live(s[..i], m, now);
    LiveStep(s, i, m, now);
    assert done + s[i..] == done + ([id] + rest);
    if Expired(m[id], now) {
      SweepStep(done, id, rest);
      assert Live(s[..i + 1], m, now) == done;
    } else {
      assert Live(s[..i + 1], m, now) + rest == (done + [id]) + rest;
    }
  }

  lemma ProgressEntriesStep(t: Table, i: nat, now: int)
    requires WellFormed(t) && i < |t.keys|
    ensures t.keys[i] in Progress(t, i, now).entries
    ensures Expired(t.entries[t.keys[i]], now) ==>
      Progress(t, i, now).entries - {t.keys[i]} == Progress(t, i + 1, now).entries
    ensures !Expired(t.entries[t.keys[i]], now) ==> Progress(t, i, now).entries == Progress(t, i + 1, now).entries
  {
    var s, id := t.keys, t.keys[i];
    LiveStep(s, i, t.entries, now);
    DistinctAt(s, i);
    assert forall k :: k in s[i..] <==> k == id || k in s[i + 1..];
  }

  /** The sweep's boundaries: exactly 24 hours survives, one millisecond more does not
      (pending and failed alike), and a paid order survives at any age. */
  lemma SweepBoundaries(o: Order, created: int)
    requires o.createdAt == created
    ensures !Expired(o, created + TTL)
    ensures o.status != Success ==> Expired(o, created + TTL + 1)
    ensures forall now :: !Expired(o.(status := Success), now)
  {
  }

  // ---------------------------------------------------------------------
  // The store object
  // ---------------------------------------------------------------------

  /** The module-level `store` of `api/_store.js`, shared by every handler. */
  class OrderStore {
    var keys: seq<OrderId>
    var entries: map<OrderId, Order>

    function Snapshot(): Table
      reads this
    {
      Table(keys, entries)
    }

    ghost predicate Valid()
      reads this
    {
      WellFormed(Snapshot())
    }

    /** `new Map()`. */
    constructor ()
      ensures Valid() && keys == [] && entries == map[]
    {
      keys := [];
      entries := map[];
    }

    /** `getOrder`: the stored record, or absent; reads only. */
    method GetOrder(id: OrderId) returns (r: Option<Order>)
      requires Valid()
      ensures r.Some? <==> id in entries
      ensures r.Some? ==> r.value == entries[id]
    {
      if id in entries {
        r := Some(entries[id]);
      } else {
        r := None;
      }
    }

    /** `orderExists`: whether the key is present. */
    method OrderExists(id: OrderId) returns (b: bool)
      requires Valid()
      ensures b <==> id in keys
    {
      b := id in entries;
    }

    /** `Map.set` on the shared store. */
    method Put(id: OrderId, o: Order)
      requires Valid()
      modifies this
      ensures Valid()
      ensures Snapshot() == Insert(old(Snapshot()), id, o)
    {
      if id !in entries {
        keys := keys + [id];
      }
      entries := entries[id := o];
    }

    /** `setOrder`: stores the record with `updatedAt` replaced by the current time. */
    method SetOrder(id: OrderId, d: Order, now: int)
      requires Valid()
      modifies this
      ensures Valid()
      ensures Snapshot() == Insert(old(Snapshot()), id, d.(updatedAt := now))
    {
      Put(id, d.(updatedAt := now));
    }

    /** `Map.delete` on the shared store. */
    method Delete(id: OrderId)
      requires Valid()
      modifies this
      ensures Valid()
      ensures Snapshot() == Remove(old(Snapshot()), id)
    {
      WithoutDistinct(keys, id);
      keys := Without(keys, id);
      entries := entries - {id};
    }

    /** The body of the hourly `setInterval` callback, at time `now`. */
    method Sweep(now: int)
      requires Valid()
      modifies this
      ensures Valid()
      ensures Snapshot() == Swept(old(Snapshot()), now)
    {
      ghost var t0 := Snapshot();
      var snapshot := keys;
      var i := 0;
      ProgressStart(t0, now);
      while i < |snapshot|
        invariant 0 <= i <= |snapshot| && snapshot == t0.keys
        invariant Snapshot() == Progress(t0, i, now)
        invariant Valid()
      {
        var id := snapshot[i];
        ProgressStep(t0, i, now);
        var order := entries[id];
        if order.status != Success && now - order.createdAt > TTL {
          Delete(id);
        }
        i := i + 1;
      }
      ProgressEnd(t0, now);
    }
  }
}
