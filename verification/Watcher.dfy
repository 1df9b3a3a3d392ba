/**
 The order book and the watcher (db.go, app.go, the watch loop of main.go): the two tables, one
 look at one order, and one round over all orders still to be fulfilled.
 */
module Watcher {
  import opened Bytes
  import opened Orders
  import opened Trades
  import opened Settlement
  import opened Executions

  // ---- The two tables ----

  datatype OrderStatus = Pending | Funded | Fulfilled | Cancelled | Expired

  datatype Row = Row(orderId: string, status: OrderStatus)

  /** The orders table, by primary key, and the order_statuses table in order of insertion. */
  datatype Db = Db(orders: map<string, Order>, rows: seq<Row>)

  predicate Open(s: OrderStatus) {
    s == OrderStatus.Pending || s == OrderStatus.Funded
  }

  function Updated(rows: seq<Row>, id: string, status: OrderStatus): (r: seq<Row>)
    ensures |r| == |rows|
    ensures forall i :: 0 <= i < |rows| ==> r[i] == if rows[i].orderId == id then Row(id, status) else rows[i]
  {
    seq(|rows|, i requires 0 <= i < |rows| => if rows[i].orderId == id then Row(id, status) else rows[i])
  }

  /** A database write that may fail, and then changes nothing. */
  function WithStatus(db: Db, id: string, status: OrderStatus, written: bool): Db {
    if written then db.(rows := Updated(db.rows, id, status)) else db
  }

  /** Times are in nanoseconds. */
  const SECOND := 1_000_000_000
  const TEN_MINUTES := 600 * SECOND

  /** Timestamps are stored in whole seconds. */
  function Stored(o: Order): Order {
    o.(timestamp := o.timestamp - o.timestamp % SECOND)
  }

  /** Both rows of a new order, or none: the insert is one transaction, and the id is a primary key. */
  function WithOrder(db: Db, o: Order, written: bool): Db {
    if written && o.id !in db.orders
    then Db(db.orders[o.id := Stored(o)], db.rows + [Row(o.id, OrderStatus.Pending)]) else db
  }

  /** The join of the two tables, restricted to orders still to be fulfilled. */
  function ToFulfill(orders: map<string, Order>, rows: seq<Row>): seq<Order> {
    if rows == [] then []
    else
      var rest := ToFulfill(orders, rows[1..]);
      if Open(rows[0].status) && rows[0].orderId in orders then [orders[rows[0].orderId]] + rest else rest
  }

  class Database {
    var orders: map<string, Order>
    var rows: seq<Row>

    function State(): Db
      reads this
    {
      Db(orders, rows)
    }

    constructor ()
      ensures State() == Db(map[], [])
    {
      orders, rows := map[], [];
    }

    method SaveOrder(o: Order, written: bool) returns (ok: bool)
      modifies this
      ensures State() == WithOrder(old(State()), o, written)
      ensures ok == (written && o.id !in old(orders))
    {
      ok := written && o.id !in orders;
      if ok {
        orders := orders[o.id := Stored(o)];
        rows := rows + [Row(o.id, OrderStatus.Pending)];
      }
    }

    method UpdateOrderStatus(id: string, status: OrderStatus, written: bool) returns (ok: bool)
      modifies this
      ensures State() == WithStatus(old(State()), id, status, written) && ok == written
    {
      if written {
        rows := Updated(rows, id, status);
      }
      ok := written;
    }

    method FetchOrdersToFulfill(readable: bool) returns (r: Option<seq<Order>>)
      ensures r == if readable then Some(ToFulfill(orders, rows)) else None
    {
      if !readable {
        return None;
      }
      var found: seq<Order> := [];
      for i := 0 to |rows|
        invariant found + ToFulfill(orders, rows[i..]) == ToFulfill(orders, rows)
      {
        assert rows[i..][1..] == rows[i + 1..];
        if Open(rows[i].status) && rows[i].orderId in orders {
          ghost var rest := ToFulfill(orders, rows[i + 1..]);
          assert found + ([orders[rows[i].orderId]] + rest) == found + [orders[rows[i].orderId]] + rest;
          found := found + [orders[rows[i].orderId]];
        }
      }
      assert rows[|rows|..] == [] && found + [] == found;
      r := Some(found);
    }
  }

  // ---- Counting coins ----

  function Sum(us: seq<Utxo>): nat {
    if us == [] then 0 else us[0].value + Sum(us[1..])
  }

  /** The 64-bit accumulator wraps around. */
  predicate Suffices(us: seq<Utxo>, amount: uint64) {
    Sum(us) % TWO_TO_THE_64 >= amount
  }

  method CoinsAreMoreThan(utxos: seq<Utxo>, amount: uint64) returns (enough: bool)
    ensures enough == Suffices(utxos, amount)
  {
    var totalValue: uint64 := 0;
    for i := 0 to |utxos|
      invariant (totalValue + Sum(utxos[i..])) % TWO_TO_THE_64 == Sum(utxos) % TWO_TO_THE_64
    {
      assert utxos[i..][1..] == utxos[i + 1..];
      ghost var before, rest := totalValue, Sum(utxos[i + 1..]);
      totalValue := (totalValue + utxos[i].value) % TWO_TO_THE_64;
      WrapInside(before + utxos[i].value, rest);
    }
    assert Sum(utxos[|utxos|..]) == 0;
    enough := totalValue >= amount;
  }

  lemma WrapInside(x: nat, y: nat)
    ensures (x % TWO_TO_THE_64 + y) % TWO_TO_THE_64 == (x + y) % TWO_TO_THE_64
  {
    var k := x / TWO_TO_THE_64;
    assert x + y == x % TWO_TO_THE_64 + y + k * TWO_TO_THE_64;
    AddMultiple(x % TWO_TO_THE_64 + y, k);
  }

  lemma {:induction false} AddMultiple(x: nat, k: nat)
    ensures (x + k * TWO_TO_THE_64) % TWO_TO_THE_64 == x % TWO_TO_THE_64
  {
    if k > 0 {
      AddMultiple(x, k - 1);
    }
  }

  /** The count never claims coins that are not there, and below 2^64 it misses none. */
  lemma CoinsAreExact(us: seq<Utxo>, amount: uint64)
    ensures Suffices(us, amount) ==> Sum(us) >= amount
    ensures Sum(us) < TWO_TO_THE_64 ==> (Suffices(us, amount) <==> Sum(us) >= amount)
  {
  }

  /** It is right about every amount exactly when the sum does not wrap, or wraps to the greatest amount. */
  lemma CoinsAreExactIff(us: seq<Utxo>)
    ensures (forall amount: uint64 :: Suffices(us, amount) <==> Sum(us) >= amount)
       <==> Sum(us) < TWO_TO_THE_64 || Sum(us) % TWO_TO_THE_64 == TWO_TO_THE_64 - 1
  {
    if forall amount: uint64 :: Suffices(us, amount) <==> Sum(us) >= amount {
      assert Suffices(us, TWO_TO_THE_64 - 1) <==> Sum(us) >= TWO_TO_THE_64 - 1;
    }
  }

  /** At 2^64 it misses them all: coins of that value are found not to cover the least amount. */
  lemma CoinsOverflow(u: Utxo, v: Utxo)
    requires u.value == v.value == 0x8000_0000_0000_0000
    ensures Sum([u, v]) == TWO_TO_THE_64 && !Suffices([u, v], 1)
  {
    assert [u, v][1..] == [v];
    assert [v][1..] == [];
    assert Sum([v]) == v.value + Sum([]);
  }

  lemma {:induction false} SumSplit(a: seq<Utxo>, b: seq<Utxo>)
    ensures Sum(a + b) == Sum(a) + Sum(b)
    decreases |a|
  {
    if a == [] {
      assert a + b == b;
    } else {
      assert (a + b)[1..] == a[1..] + b;
      SumSplit(a[1..], b);
    }
  }

  /** The sum is that of the values, coin by coin. */
  lemma SumOfValues(us: seq<Utxo>, u: Utxo)
    ensures Sum([]) == 0 && Sum([u]) == u.value && Sum(us + [u]) == Sum(us) + u.value
  {
    assert [u][1..] == [];
    assert Sum([u]) == u.value + Sum([]);
    SumSplit(us, [u]);
  }

  lemma MultisetWithout(us: seq<Utxo>, vs: seq<Utxo>, i: nat)
    requires us != [] && i < |vs| && vs[i] == us[0] && multiset(us) == multiset(vs)
    ensures multiset(us[1..]) == multiset(vs[..i] + vs[i + 1..])
  {
    assert us == [us[0]] + us[1..];
    assert vs == vs[..i] + [vs[i]] + vs[i + 1..];
    var front, back := vs[..i], vs[i + 1..];
    assert multiset(front + back) == multiset(front) + multiset(back);
    assert multiset(us) == multiset{us[0]} + multiset(us[1..]);
    assert multiset(vs) == multiset(front) + multiset{vs[i]} + multiset(back);
    assert multiset(us[1..]) == multiset(us) - multiset{us[0]};
    assert multiset(front + back) == multiset(vs) - multiset{us[0]};
  }

  /** The order in which the coins are reported does not matter. */
  lemma CountIsOrderless(us: seq<Utxo>, vs: seq<Utxo>, amount: uint64)
    requires multiset(us) == multiset(vs)
    ensures Suffices(us, amount) <==> Suffices(vs, amount)
  {
    SumIsOrderless(us, vs);
  }

  lemma {:induction false} SumIsOrderless(us: seq<Utxo>, vs: seq<Utxo>)
    requires multiset(us) == multiset(vs)
    ensures Sum(us) == Sum(vs)
    decreases |us|
  {
    if us == [] {
      assert |multiset(vs)| == 0;
    } else {
      var u := us[0];
      assert u in multiset(vs);
      var i :| 0 <= i < |vs| && vs[i] == u;
      var a, b := vs[..i], vs[i + 1..];
      MultisetWithout(us, vs, i);
      SumIsOrderless(us[1..], a + b);
      assert vs == a + ([u] + b);
      SumSplit(a, [u] + b);
      SumSplit(a, b);
      assert ([u] + b)[1..] == b;
    }
  }

  // ---- One look at one order ----

  /** What the clock, the database, the explorer and the wallet answer during one watchForTrades. */
  datatype Answers = Answers(
    now: int, expireWritten: bool, unspents: Option<seq<Utxo>>,
    fundWritten: bool, replies: seq<Replies>, fulfillWritten: bool)
  {
    predicate Valid() {
      unspents.Some? ==> |replies| == |unspents.value|
    }
  }

  datatype Watched = Watched(db: Db, result: Result<()>, sent: seq<Broadcast>)

  function Wanted(us: seq<Utxo>): (r: seq<Option<Utxo>>)
    ensures |r| == |us| && forall i :: 0 <= i < |us| ==> r[i] == Some(us[i])
  {
    seq(|us|, i requires 0 <= i < |us| => Some(us[i]))
  }

  predicate IsExpired(o: Order, now: int) {
    now - o.timestamp > TEN_MINUTES
  }

  function Watch(db: Db, o: Order, a: Answers): Watched
    requires a.Valid() && Sizeable(o)
  {
    if IsExpired(o, a.now) && !a.expireWritten then Watched(db, Err, [])
    else
      var db1 := if IsExpired(o, a.now) then WithStatus(db, o.id, Expired, true) else db;
      if a.unspents.None? then Watched(db1, Err, [])
      else if !Suffices(a.unspents.value, o.input.amount) then Watched(db1, Ok(()), [])
      else
        var db2 := WithStatus(db1, o.id, OrderStatus.Funded, a.fundWritten);
        var b := BatchFrom(o, Wanted(a.unspents.value), a.replies);
        if b.result.Ok? then Watched(WithStatus(db2, o.id, Fulfilled, a.fulfillWritten), Ok(()), b.sent)
        else Watched(db2, b.result, b.sent)
  }

  method WatchForTrades(db: Database, network: Network, o: Order, a: Answers) returns (result: Result<()>)
    requires a.Valid() && Sizeable(o)
    modifies db, network
    ensures var w := Watch(old(db.State()), o, a);
            db.State() == w.db && result == w.result && network.sent == old(network.sent) + w.sent
  {
    hide BatchFrom, Suffices, Updated;
    assert network.sent + [] == network.sent;
    if a.now - o.timestamp > TEN_MINUTES {
      var ok := db.UpdateOrderStatus(o.id, Expired, a.expireWritten);
      if !ok {
        return Err;
      }
    }
    if a.unspents.None? {
      return Err;
    }
    var utxos := a.unspents.value;
    var enough := CoinsAreMoreThan(utxos, o.input.amount);
    if enough {
      var ignored := db.UpdateOrderStatus(o.id, OrderStatus.Funded, a.fundWritten);
      var trades := ExecuteTrades(network, o, Wanted(utxos), a.replies);
      if !trades.Ok? {
        return if trades.Panic? then Panic else Err;
      }
      ignored := db.UpdateOrderStatus(o.id, Fulfilled, a.fulfillWritten);
    }
    return Ok(());
  }

  // ---- One round over all open orders ----

  datatype Round = Round(db: Db, crashed: bool, sent: seq<Broadcast>)

  /** The k-th order of a round gets the k-th answers; errors are logged and the round goes on. */
  function RoundFrom(db: Db, todo: seq<Order>, answers: nat -> Answers, k: nat): Round
    requires forall n :: answers(n).Valid()
    requires forall o :: o in todo ==> Sizeable(o)
    decreases |todo|
  {
    if todo == [] then Round(db, false, [])
    else
      var w := Watch(db, todo[0], answers(k));
      if w.result.Panic? then Round(w.db, true, w.sent)
      else
        var rest := RoundFrom(w.db, todo[1..], answers, k + 1);
        Round(rest.db, rest.crashed, w.sent + rest.sent)
  }

  /** The callback of startWatching. */
  method WatchRound(db: Database, network: Network, readable: bool, answers: nat -> Answers) returns (crashed: bool)
    requires forall n :: answers(n).Valid()
    requires forall id :: id in db.orders ==> Sizeable(db.orders[id])
    modifies db, network
    ensures !readable ==> db.State() == old(db.State()) && network.sent == old(network.sent) && !crashed
    ensures readable ==>
              && (forall o :: o in ToFulfill(old(db.orders), old(db.rows)) ==> Sizeable(o))
              && var r := RoundFrom(old(db.State()), ToFulfill(old(db.orders), old(db.rows)), answers, 0);
                 db.State() == r.db && crashed == r.crashed && network.sent == old(network.sent) + r.sent
  {
    hide Watch, ToFulfill;
    var orders := db.FetchOrdersToFulfill(readable);
    if orders.None? {
      return false;
    }
    FetchedAreOrders(db.orders, db.rows);
    var todo := orders.value;
    assert forall o :: o in todo ==> Sizeable(o);
    for k := 0 to |todo|
      invariant var all := RoundFrom(old(db.State()), todo, answers, 0);
                var rest := RoundFrom(db.State(), todo[k..], answers, k);
                && all.db == rest.db && all.crashed == rest.crashed
                && old(network.sent) + all.sent == network.sent + rest.sent
    {
      ghost var before := network.sent;
      ghost var w := Watch(db.State(), todo[k], answers(k));
      assert todo[k..][1..] == todo[k + 1..];
      var result := WatchForTrades(db, network, todo[k], answers(k));
      if result.Panic? {
        return true;
      }
      ghost var rest := RoundFrom(db.State(), todo[k + 1..], answers, k + 1);
      assert before + (w.sent + rest.sent) == network.sent + rest.sent;
    }
    assert network.sent + [] == network.sent;
    return false;
  }

  /** A round looks at its first order with the first answers; unless that panics, it goes on with the others. */
  lemma RoundLooks(db: Db, o: Order, todo: seq<Order>, answers: nat -> Answers, k: nat)
    requires forall n :: answers(n).Valid()
    requires forall p :: p in [o] + todo ==> Sizeable(p)
    ensures o in [o] + todo && (forall p :: p in todo ==> p in [o] + todo)
    ensures var w := Watch(db, o, answers(k));
            var r := RoundFrom(db, [o] + todo, answers, k);
            if w.result.Panic? then r == Round(w.db, true, w.sent)
            else var rest := RoundFrom(w.db, todo, answers, k + 1);
                 r == Round(rest.db, rest.crashed, w.sent + rest.sent)
    ensures RoundFrom(db, [], answers, k) == Round(db, false, [])
  {
    hide Watch;
    assert ([o] + todo)[1..] == todo;
  }

  lemma {:induction false} FetchedAreOrders(orders: map<string, Order>, rows: seq<Row>)
    ensures forall o :: o in ToFulfill(orders, rows) ==> exists id :: id in orders && orders[id] == o
    decreases |rows|
  {
    if rows != [] {
      FetchedAreOrders(orders, rows[1..]);
    }
  }

  // ---- Consistency, and the outcome of a look ----

  /** Exactly one status row for every order and no row without an order; nothing is ever cancelled. */
  ghost predicate Consistent(db: Db) {
    && (forall i :: 0 <= i < |db.rows| ==> db.rows[i].orderId in db.orders && !db.rows[i].status.Cancelled?)
    && (forall i, j :: 0 <= i < j < |db.rows| ==> db.rows[i].orderId != db.rows[j].orderId)
    && (forall id :: id in db.orders ==> exists i :: 0 <= i < |db.rows| && db.rows[i].orderId == id)
    && (forall id :: id in db.orders ==> db.orders[id].id == id)
  }

  /** The order with this id has this status, in all its rows. */
  ghost predicate HasStatus(db: Db, id: string, s: OrderStatus) {
    && id in db.orders
    && (exists i :: 0 <= i < |db.rows| && db.rows[i] == Row(id, s))
    && (forall i :: 0 <= i < |db.rows| && db.rows[i].orderId == id ==> db.rows[i].status == s)
  }

  lemma StatusKeepsConsistent(db: Db, id: string, s: OrderStatus, written: bool)
    requires Consistent(db) && s != OrderStatus.Cancelled
    ensures Consistent(WithStatus(db, id, s, written))
  {
    var db' := WithStatus(db, id, s, written);
    assert forall i :: 0 <= i < |db.rows| ==> db'.rows[i].orderId == db.rows[i].orderId;
    forall x | x in db.orders
      ensures exists i :: 0 <= i < |db'.rows| && db'.rows[i].orderId == x
    {
      var i :| 0 <= i < |db.rows| && db.rows[i].orderId == x;
      assert db'.rows[i].orderId == x;
    }
  }

  lemma StatusWritten(db: Db, id: string, s: OrderStatus)
    requires Consistent(db) && id in db.orders
    ensures HasStatus(WithStatus(db, id, s, true), id, s)
  {
    var i :| 0 <= i < |db.rows| && db.rows[i].orderId == id;
    assert WithStatus(db, id, s, true).rows[i] == Row(id, s);
  }

  lemma OthersUntouched(db: Db, id: string, s: OrderStatus, written: bool, other: string, t: OrderStatus)
    requires other != id && HasStatus(db, other, t)
    ensures HasStatus(WithStatus(db, id, s, written), other, t)
  {
    var i :| 0 <= i < |db.rows| && db.rows[i] == Row(other, t);
    assert WithStatus(db, id, s, written).rows[i] == Row(other, t);
  }

  lemma PlacementKeepsConsistent(db: Db, o: Order, written: bool)
    requires Consistent(db)
    ensures Consistent(WithOrder(db, o, written))
  {
    var db' := WithOrder(db, o, written);
    if db' != db {
      var n := |db.rows|;
      assert db'.rows[n] == Row(o.id, OrderStatus.Pending) && db'.rows[..n] == db.rows;
      forall x | x in db'.orders
        ensures exists i :: 0 <= i < |db'.rows| && db'.rows[i].orderId == x
      {
        OldOrNewRow(db, db'.rows, o.id, x);
      }
    }
  }

  /** A new order is pending, as it was placed but for fractions of a second. */
  lemma PlacedIsPending(db: Db, o: Order)
    requires Consistent(db) && o.id !in db.orders
    ensures var db' := WithOrder(db, o, true);
            && HasStatus(db', o.id, OrderStatus.Pending)
            && db'.orders[o.id] == o.(timestamp := db'.orders[o.id].timestamp)
            && db'.orders[o.id].timestamp % 1_000_000_000 == 0
            && 0 <= o.timestamp - db'.orders[o.id].timestamp < 1_000_000_000
    ensures WithOrder(db, o, false) == db
  {
    var db' := WithOrder(db, o, true);
    assert db'.rows[|db.rows|] == Row(o.id, OrderStatus.Pending);
  }

  lemma OldOrNewRow(db: Db, rows: seq<Row>, id: string, x: string)
    requires Consistent(db) && |rows| == |db.rows| + 1 && rows[..|db.rows|] == db.rows && rows[|db.rows|].orderId == id
    requires x == id || x in db.orders
    ensures exists i :: 0 <= i < |rows| && rows[i].orderId == x
  {
    if x in db.orders {
      var i :| 0 <= i < |db.rows| && db.rows[i].orderId == x;
      assert rows[i] == rows[..|db.rows|][i];
    }
  }

  /** A placement, even one that reuses an id, leaves the orders already there as they are. */
  lemma PlacementKeepsStatus(db: Db, o: Order, written: bool, id: string, s: OrderStatus)
    requires Consistent(db) && HasStatus(db, id, s)
    ensures HasStatus(WithOrder(db, o, written), id, s)
  {
    var i :| 0 <= i < |db.rows| && db.rows[i] == Row(id, s);
    assert WithOrder(db, o, written).rows[i] == Row(id, s);
  }

  /** All the database writes a look asks for succeed. */
  predicate Written(a: Answers) {
    a.expireWritten && a.fundWritten && a.fulfillWritten
  }

  /** The status a look leaves an order with when nothing it writes is lost. */
  function StatusAfter(o: Order, a: Answers, before: OrderStatus): OrderStatus
    requires a.Valid() && Sizeable(o)
  {
    if a.unspents.Some? && Suffices(a.unspents.value, o.input.amount) then
      if BatchFrom(o, Wanted(a.unspents.value), a.replies).done == |a.unspents.value|
      then Fulfilled else OrderStatus.Funded
    else if IsExpired(o, a.now) then Expired
    else before
  }

  /**
   Outcome of a look. Coins that suffice decide alone, past the ten minutes as well: Fulfilled if
   every trade went through, Funded if one did not. Without them the clock decides.
   */
  lemma TickOutcome(db: Db, o: Order, a: Answers, before: OrderStatus)
    requires a.Valid() && Sizeable(o) && Written(a)
    requires Consistent(db) && HasStatus(db, o.id, before)
    ensures HasStatus(Watch(db, o, a).db, o.id, StatusAfter(o, a, before))
  {
    hide BatchFrom, Suffices, HasStatus, Consistent, WithStatus;
    KnownOrder(db, o.id, before);
    var db1 := if IsExpired(o, a.now) then WithStatus(db, o.id, Expired, true) else db;
    WriteHolds(db, o.id, Expired);
    WriteHolds(db1, o.id, OrderStatus.Funded);
    WriteHolds(WithStatus(db1, o.id, OrderStatus.Funded, true), o.id, Fulfilled);
    if a.unspents.Some? {
      PartialExecution(o, Wanted(a.unspents.value), a.replies);
    }
  }

  /**
   The same with every write that may be lost, and with the result. An expired order whose status
   cannot be written is looked at no further; other lost writes go unnoticed.
   */
  lemma LookOutcome(db: Db, o: Order, a: Answers, before: OrderStatus)
    requires a.Valid() && Sizeable(o) && Consistent(db) && HasStatus(db, o.id, before)
    ensures var w := Watch(db, o, a);
            var late := a.now - o.timestamp > 600_000_000_000;
            var first := if late && a.expireWritten then Expired else before;
            var enough := a.unspents.Some? && Sum(a.unspents.value) % 0x1_0000_0000_0000_0000 >= o.input.amount;
            if (late && !a.expireWritten) || !enough then
              && HasStatus(w.db, o.id, first) && w.sent == []
              && w.result == if (late && !a.expireWritten) || a.unspents.None? then Err else Ok(())
            else
              var b := BatchFrom(o, Wanted(a.unspents.value), a.replies);
              var second := if a.fundWritten then OrderStatus.Funded else first;
              && w.sent == b.sent && w.result == b.result
              && HasStatus(w.db, o.id, if b.result.Ok? && a.fulfillWritten then Fulfilled else second)
  {
    hide BatchFrom, HasStatus, Consistent, WithStatus;
    KnownOrder(db, o.id, before);
    var late := IsExpired(o, a.now);
    var first := if late && a.expireWritten then Expired else before;
    var db1 := WithStatus(db, o.id, Expired, late && a.expireWritten);
    WriteOrNot(db, o.id, Expired, before, late && a.expireWritten);
    var db2 := WithStatus(db1, o.id, OrderStatus.Funded, a.fundWritten);
    WriteOrNot(db1, o.id, OrderStatus.Funded, first, a.fundWritten);
    WriteOrNot(db2, o.id, Fulfilled, if a.fundWritten then OrderStatus.Funded else first, a.fulfillWritten);
    NotWritten(db, o.id, Expired);
    if a.unspents.Some? {
      PartialExecution(o, Wanted(a.unspents.value), a.replies);
      NoValue(BatchFrom(o, Wanted(a.unspents.value), a.replies).result);
    }
  }

  lemma NoValue(r: Result<()>)
    ensures r.Ok? <==> r == Ok(())
  {
    assert r.Ok? ==> r.value == ();
  }

  lemma WriteOrNot(db: Db, id: string, s: OrderStatus, before: OrderStatus, written: bool)
    requires Consistent(db) && HasStatus(db, id, before) && s != OrderStatus.Cancelled
    ensures var db' := WithStatus(db, id, s, written);
            Consistent(db') && HasStatus(db', id, if written then s else before)
  {
    hide Consistent, HasStatus, Updated;
    KnownOrder(db, id, before);
    if written {
      WriteHolds(db, id, s);
    }
  }

  lemma NotWritten(db: Db, id: string, s: OrderStatus)
    ensures WithStatus(db, id, s, false) == db
  {
  }

  /** A look at one order leaves every other order's status alone, whatever is written or lost. */
  lemma LookTouchesOne(db: Db, o: Order, a: Answers, other: string, t: OrderStatus)
    requires a.Valid() && Sizeable(o) && other != o.id && HasStatus(db, other, t)
    ensures HasStatus(Watch(db, o, a).db, other, t)
  {
    hide BatchFrom, Suffices, HasStatus, WithStatus;
    var db1 := if IsExpired(o, a.now) then WithStatus(db, o.id, Expired, true) else db;
    OthersUntouched(db, o.id, Expired, true, other, t);
    OthersUntouched(db1, o.id, OrderStatus.Funded, a.fundWritten, other, t);
    var db2 := WithStatus(db1, o.id, OrderStatus.Funded, a.fundWritten);
    OthersUntouched(db2, o.id, Fulfilled, a.fulfillWritten, other, t);
  }

  lemma KnownOrder(db: Db, id: string, s: OrderStatus)
    requires HasStatus(db, id, s)
    ensures id in db.orders
  {
  }

  lemma WriteHolds(db: Db, id: string, s: OrderStatus)
    requires Consistent(db) && id in db.orders && s != OrderStatus.Cancelled
    ensures var db' := WithStatus(db, id, s, true);
            Consistent(db') && HasStatus(db', id, s) && id in db'.orders
  {
    StatusWritten(db, id, s);
    StatusKeepsConsistent(db, id, s, true);
  }

  /**
   Fulfilled means, for an order that asks for anything, that there were coins, and that the network
   took for each of them a transaction that spends it.
   */
  lemma FulfilledWasTraded(db: Db, o: Order, a: Answers, before: OrderStatus)
    requires a.Valid() && Sizeable(o) && Written(a)
    requires before != Fulfilled && o.input.amount > 0 && StatusAfter(o, a, before) == Fulfilled
    ensures var sent := Watch(db, o, a).sent;
            && |sent| == |a.unspents.value| > 0 && (forall i :: 0 <= i < |sent| ==> sent[i].reply.Some?)
            && forall i :: 0 <= i < |sent| && SignerKeepsInputs(a.replies[i]) ==>
                 SpendsFirst(sent[i].tx, a.unspents.value[i])
  {
    hide BatchFrom, WithStatus, SignerKeepsInputs, SpendsFirst;
    PartialExecution(o, Wanted(a.unspents.value), a.replies);
    BatchAllTaken(o, Wanted(a.unspents.value), a.replies);
    forall i | 0 <= i < |a.unspents.value| && SignerKeepsInputs(a.replies[i])
      ensures SpendsFirst(Watch(db, o, a).sent[i].tx, a.unspents.value[i])
    {
      BatchSpendsCoins(o, Wanted(a.unspents.value), a.replies, i);
    }
    assert Sum([]) == 0;
    assert !Suffices([], o.input.amount);
  }

  /** What the wallet is asked for, it selects, and it reports its coins, and the explorer this one, as they are. */
  ghost predicate Truthful(o: Order, coin: Utxo, r: Replies, chain: Chain) {
    && SignerKeepsInputs(r) && SignerKeepsOutputs(r)
    && (Answered(r) ==> WalletSelects(o, Args(r)) && Reported([coin] + Args(r).trade + Args(r).fees, chain))
  }

  /** Everything the wallet named got into the transaction. */
  predicate IsWhole(tx: Pset, r: Replies) {
    Answered(r) ==> |tx.inputs| == 1 + |Args(r).trade| + |Args(r).fees|
  }

  /**
   If the network takes only what balances, Fulfilled means that every coin found covers the order's
   input side and the refused inputs, and no more; with none refused, that it is the input side to
   the unit. An order funded in two parts, or with one unit too much, has coins that suffice and
   is fulfilled by no look.
   */
  lemma FulfilledWasFunded(db: Db, o: Order, a: Answers, before: OrderStatus, chain: Chain, i: nat)
    requires a.Valid() && Sizeable(o) && Written(a)
    requires before != Fulfilled && o.input.amount > 0 && StatusAfter(o, a, before) == Fulfilled
    requires i < |a.unspents.value| && Truthful(o, a.unspents.value[i], a.replies[i], chain)
    requires forall b :: b in Watch(db, o, a).sent && b.reply.Some? ==> Balanced(b.tx, chain)
    ensures Answered(a.replies[i])
    ensures var payment := PaymentOf(o);
            var r := a.replies[i];
            Covers(o, a.unspents.value[i], SiftedCoins(o, a.unspents.value[i], payment, Args(r), r.accepts, false))
    ensures i < |Watch(db, o, a).sent|
    ensures IsWhole(Watch(db, o, a).sent[i].tx, a.replies[i]) ==> FullyFunded(o, a.unspents.value[i])
  {
    hide BatchFrom, WithStatus, Suffices, Execution, Balanced, Covers, FullyFunded, SiftedCoins, WalletSelects,
      Reported, SignerKeepsInputs, SignerKeepsOutputs;
    var us, r := Wanted(a.unspents.value), a.replies[i];
    FulfilledWasTraded(db, o, a, before);
    PartialExecution(o, us, a.replies);
    BatchSendsInOrder(o, us, a.replies, i);
    var b := Watch(db, o, a).sent[i];
    var payment := PaymentOf(o);
    assert b in Watch(db, o, a).sent && b in Execution(TradeStatus.Funded, o, us[i], payment, r).sent;
    BroadcastBalances(TradeStatus.Funded, o, a.unspents.value[i], payment, r, b, chain);
  }

  /** A coin whose trade balances, with nothing refused, is the order's input side to the unit. */
  lemma TradeIsFunded(o: Order, u: Utxo, r: Replies, b: Broadcast, chain: Chain)
    requires Sizeable(o) && Truthful(o, u, r, chain) && b in TradeFor(o, Some(u), r).sent
    requires Balanced(b.tx, chain) && IsWhole(b.tx, r)
    ensures FullyFunded(o, u)
  {
    hide Execution, Balanced, Covers, FullyFunded, SiftedCoins, WalletSelects, Reported, SignerKeepsInputs,
      SignerKeepsOutputs;
    BroadcastBalances(TradeStatus.Funded, o, u, PaymentOf(o), r, b, chain);
  }

  // ---- What is fetched ----

  lemma {:induction false} ToFulfillIsOpen(orders: map<string, Order>, rows: seq<Row>, o: Order)
    requires o in ToFulfill(orders, rows)
    requires forall id :: id in orders ==> orders[id].id == id
    ensures o.id in orders && o == orders[o.id]
    ensures exists i :: 0 <= i < |rows| && rows[i].orderId == o.id && Open(rows[i].status)
    decreases |rows|
  {
    if o in ToFulfill(orders, rows[1..]) {
      ToFulfillIsOpen(orders, rows[1..], o);
      var i :| 0 <= i < |rows[1..]| && rows[1..][i].orderId == o.id && Open(rows[1..][i].status);
      assert rows[i + 1] == rows[1..][i];
    } else {
      assert rows[0].orderId == o.id;
    }
  }

  lemma {:induction false} OpenIsFetched(orders: map<string, Order>, rows: seq<Row>, i: nat)
    requires i < |rows| && rows[i].orderId in orders && Open(rows[i].status)
    ensures orders[rows[i].orderId] in ToFulfill(orders, rows)
    decreases |rows|
  {
    if i > 0 {
      assert rows[1..][i - 1] == rows[i];
      OpenIsFetched(orders, rows[1..], i - 1);
    }
  }

  /** A round looks at exactly the orders that are pending or funded. */
  lemma FetchedExactly(db: Db, o: Order, s: OrderStatus)
    requires Consistent(db) && HasStatus(db, o.id, s)
    ensures o in ToFulfill(db.orders, db.rows) <==>
            db.orders[o.id] == o && (s == OrderStatus.Pending || s == OrderStatus.Funded)
  {
    hide ToFulfill;
    if o in ToFulfill(db.orders, db.rows) {
      ToFulfillIsOpen(db.orders, db.rows, o);
    }
    if db.orders[o.id] == o && Open(s) {
      var i :| 0 <= i < |db.rows| && db.rows[i] == Row(o.id, s);
      OpenIsFetched(db.orders, db.rows, i);
    }
  }

  /** And at each of them once. */
  lemma {:induction false} FetchedOnce(db: Db, k: nat)
    requires Consistent(db) && k <= |db.rows|
    ensures var os := ToFulfill(db.orders, db.rows[k..]);
            forall i, j :: 0 <= i < j < |os| ==> os[i].id != os[j].id
    decreases |db.rows| - k
  {
    hide ToFulfill;
    if k == |db.rows| {
      NothingToFulfill(db.orders, db.rows[k..]);
    } else {
      FetchedOnce(db, k + 1);
      var o, rest := db.orders[db.rows[k].orderId], ToFulfill(db.orders, db.rows[k + 1..]);
      forall p | p in rest
        ensures p.id != o.id
      {
        NotAhead(db, k, p);
      }
      NextToFulfill(db.orders, db.rows, k);
      HeadDiffers(o, rest);
    }
  }

  lemma NothingToFulfill(orders: map<string, Order>, rows: seq<Row>)
    requires rows == []
    ensures ToFulfill(orders, rows) == []
  {
  }

  lemma NextToFulfill(orders: map<string, Order>, rows: seq<Row>, k: nat)
    requires k < |rows| && rows[k].orderId in orders
    ensures var rest := ToFulfill(orders, rows[k + 1..]);
            ToFulfill(orders, rows[k..]) == if Open(rows[k].status) then [orders[rows[k].orderId]] + rest else rest
  {
    assert rows[k..][1..] == rows[k + 1..];
  }

  lemma NotAhead(db: Db, k: nat, o: Order)
    requires Consistent(db) && k < |db.rows| && o in ToFulfill(db.orders, db.rows[k + 1..])
    ensures o.id != db.rows[k].orderId
  {
    hide ToFulfill;
    ToFulfillIsOpen(db.orders, db.rows[k + 1..], o);
    var i :| 0 <= i < |db.rows[k + 1..]| && db.rows[k + 1..][i].orderId == o.id;
    assert db.rows[k + 1 + i].orderId == o.id;
  }

  lemma HeadDiffers(o: Order, rest: seq<Order>)
    requires forall p :: p in rest ==> p.id != o.id
    requires forall i, j :: 0 <= i < j < |rest| ==> rest[i].id != rest[j].id
    ensures var os := [o] + rest; forall i, j :: 0 <= i < j < |os| ==> os[i].id != os[j].id
  {
    var os := [o] + rest;
    forall i, j | 0 <= i < j < |os|
      ensures os[i].id != os[j].id
    {
      assert os[j] == rest[j - 1];
      if i > 0 {
        assert os[i] == rest[i - 1];
      }
    }
  }
}
