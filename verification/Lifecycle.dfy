/**
 The life of orders over all interleavings: HTTP handlers place orders at any moment while the
 watcher goes round, one database statement, one answer from outside or one trade at a time. The
 sequential code of module Watcher is shown to be one way of taking these steps.
 */
module Lifecycle {
  import opened Bytes
  import opened Scripts
  import opened Covenant
  import opened Orders
  import opened Trades
  import opened Settlement
  import opened Executions
  import opened Watcher

  /** Where the watcher is; todo are the orders of this round still to be looked at. */
  datatype Pc =
    | Idle
    | Between(todo: seq<Order>)
    | Fetching(current: Order, todo: seq<Order>)
    | Funding(current: Order, utxos: seq<Utxo>, todo: seq<Order>)
    | Trading(current: Order, utxos: seq<Utxo>, next: nat, todo: seq<Order>)
    | Crashed

  datatype Sent = Sent(orderId: string, broadcast: Broadcast)

  /** The explorer has said that this coin pays this address. */
  datatype Report = Report(address: Address, coin: Utxo)

  /** The database, the watcher, what has been broadcast for which order, and what has been reported. */
  datatype World = World(db: Db, pc: Pc, sent: seq<Sent>, found: set<Report>)

  /** One atomic step with the outcome chosen by the outside world. */
  datatype Event =
    | Place(order: Order, written: bool)        // saveOrder
    | BeginRound(readable: bool)                // fetchOrdersToFulfill
    | TakeOrder(now: int, written: bool)        // the expiry check and its write
    | FetchUnspents(unspents: Option<seq<Utxo>>)
    | MarkFunded(written: bool)
    | TradeNext(replies: Replies)               // FromFundedOrder and ExecuteTrade
    | MarkFulfilled(written: bool)
    | EndRound
    | Restart                                   // the process ends, anywhere, and is started again

  function Tagged(id: string, sent: seq<Broadcast>): (r: seq<Sent>)
    ensures |r| == |sent| && forall i :: 0 <= i < |sent| ==> r[i] == Sent(id, sent[i])
  {
    seq(|sent|, i requires 0 <= i < |sent| => Sent(id, sent[i]))
  }

  function Reports(address: Address, us: seq<Utxo>): set<Report> {
    set u | u in us :: Report(address, u)
  }

  /** What is known once the explorer has been asked, if it was and answered. */
  function FoundAfter(found: set<Report>, o: Order, unspents: Option<seq<Utxo>>): set<Report> {
    if unspents.Some? then found + Reports(o.address, unspents.value) else found
  }

  /** The next world, or None where the event is not enabled. */
  function Step(w: World, e: Event): Option<World> {
    match e
    case Place(o, written) =>
      if Sizeable(o) then Some(w.(db := WithOrder(w.db, o, written))) else None
    case BeginRound(readable) =>
      if w.pc.Idle? then Some(if readable then w.(pc := Between(ToFulfill(w.db.orders, w.db.rows))) else w) else None
    case TakeOrder(now, written) =>
      if !w.pc.Between? || w.pc.todo == [] then None
      else
        var o, rest := w.pc.todo[0], w.pc.todo[1..];
        if !IsExpired(o, now) then Some(w.(pc := Fetching(o, rest)))
        else if written then Some(w.(db := WithStatus(w.db, o.id, Expired, true), pc := Fetching(o, rest)))
        else Some(w.(pc := Between(rest)))
    case FetchUnspents(unspents) =>
      if !w.pc.Fetching? then None
      else
        var enough := unspents.Some? && Suffices(unspents.value, w.pc.current.input.amount);
        Some(w.(found := FoundAfter(w.found, w.pc.current, unspents),
                pc := if enough then Funding(w.pc.current, unspents.value, w.pc.todo) else Between(w.pc.todo)))
    case MarkFunded(written) =>
      if !w.pc.Funding? then None
      else Some(w.(db := WithStatus(w.db, w.pc.current.id, OrderStatus.Funded, written),
                   pc := Trading(w.pc.current, w.pc.utxos, 0, w.pc.todo)))
    case TradeNext(replies) =>
      if !w.pc.Trading? || w.pc.next >= |w.pc.utxos| || !Sizeable(w.pc.current) then None
      else
        var done := TradeFor(w.pc.current, Some(w.pc.utxos[w.pc.next]), replies);
        Some(w.(sent := w.sent + Tagged(w.pc.current.id, done.sent),
                pc := match done.result
                      case Ok(_) => w.pc.(next := w.pc.next + 1)
                      case Err => Between(w.pc.todo)
                      case Panic => Crashed))
    case MarkFulfilled(written) =>
      if !w.pc.Trading? || w.pc.next < |w.pc.utxos| then None
      else Some(w.(db := WithStatus(w.db, w.pc.current.id, Fulfilled, written), pc := Between(w.pc.todo)))
    case EndRound =>
      if w.pc.Between? && w.pc.todo == [] then Some(w.(pc := Idle)) else None
    case Restart => Some(w.(pc := Idle))
  }

  function Run(w: World, es: seq<Event>): Option<World>
    decreases |es|
  {
    if es == [] then Some(w)
    else match Step(w, es[0])
      case None => None
      case Some(w') => Run(w', es[1..])
  }

  const INIT := World(Db(map[], []), Idle, [], {})

  // ---- What every step keeps ----

  /** The order being looked at, and those still to come. */
  function InHand(pc: Pc): seq<Order> {
    match pc
    case Idle => []
    case Crashed => []
    case Between(todo) => todo
    case Fetching(o, todo) => [o] + todo
    case Funding(o, _, todo) => [o] + todo
    case Trading(o, _, _, todo) => [o] + todo
  }

  ghost predicate Inv(w: World) {
    && Consistent(w.db)
    && (forall o :: o in InHand(w.pc) ==> o.id in w.db.orders && w.db.orders[o.id] == o)
    && (forall id :: id in w.db.orders ==> Sizeable(w.db.orders[id]))
  }

  lemma StepKeepsConsistent(w: World, e: Event)
    requires Inv(w) && Step(w, e).Some?
    ensures Consistent(Step(w, e).value.db)
  {
    hide Consistent, WithStatus, WithOrder, TradeFor, Suffices;
    match e {
      case Place(o, written) => PlacementKeepsConsistent(w.db, o, written);
      case TakeOrder(now, written) => StatusKeepsConsistent(w.db, w.pc.todo[0].id, Expired, true);
      case MarkFunded(written) => StatusKeepsConsistent(w.db, w.pc.current.id, OrderStatus.Funded, written);
      case MarkFulfilled(written) => StatusKeepsConsistent(w.db, w.pc.current.id, Fulfilled, written);
      case _ =>
    }
  }

  /** Only the start of a round brings orders into the watcher's hands. */
  lemma HandShrinks(w: World, e: Event, o: Order)
    requires Step(w, e).Some? && !e.BeginRound? && o in InHand(Step(w, e).value.pc)
    ensures o in InHand(w.pc)
  {
    hide TradeFor, Suffices, WithStatus, WithOrder;
  }

  /** Orders are added, never altered or removed. */
  lemma OrdersGrow(w: World, e: Event, id: string)
    requires Step(w, e).Some?
    ensures var w' := Step(w, e).value;
            && (id in w.db.orders ==> id in w'.db.orders && w'.db.orders[id] == w.db.orders[id])
            && (id in w'.db.orders && id !in w.db.orders ==> Sizeable(w'.db.orders[id]))
  {
    hide TradeFor, Suffices;
  }

  lemma StepKeepsInv(w: World, e: Event)
    requires Inv(w) && Step(w, e).Some?
    ensures Inv(Step(w, e).value)
  {
    StepKeepsConsistent(w, e);
    var w' := Step(w, e).value;
    hide Step;
    forall id | id in w'.db.orders
      ensures Sizeable(w'.db.orders[id])
    {
      OrdersGrow(w, e, id);
    }
    forall o | o in InHand(w'.pc)
      ensures o.id in w'.db.orders && w'.db.orders[o.id] == o
    {
      OrdersGrow(w, e, o.id);
      if e.BeginRound? {
        RoundStart(w, e, o);
      } else {
        HandShrinks(w, e, o);
      }
    }
  }

  lemma RoundStart(w: World, e: Event, o: Order)
    requires Inv(w) && e.BeginRound? && Step(w, e).Some? && o in InHand(Step(w, e).value.pc)
    ensures o.id in w.db.orders && o == w.db.orders[o.id]
    ensures exists i :: 0 <= i < |w.db.rows| && w.db.rows[i].orderId == o.id && Open(w.db.rows[i].status)
  {
    ToFulfillIsOpen(w.db.orders, w.db.rows, o);
  }

  lemma InitHolds()
    ensures Inv(INIT)
  {
  }

  lemma {:induction false} RunKeepsInv(w: World, es: seq<Event>)
    requires Inv(w) && Run(w, es).Some?
    ensures Inv(Run(w, es).value)
    decreases |es|
  {
    hide Step, Inv;
    if es != [] {
      StepKeepsInv(w, es[0]);
      RunKeepsInv(Step(w, es[0]).value, es[1..]);
    }
  }

  /** Whatever happens, every order has exactly one status row, and no order is ever cancelled. */
  lemma BookIsConsistent(es: seq<Event>)
    requires Run(INIT, es).Some?
    ensures Consistent(Run(INIT, es).value.db)
    ensures forall id, s :: HasStatus(Run(INIT, es).value.db, id, s) ==> s != OrderStatus.Cancelled
  {
    RunKeepsInv(INIT, es);
  }

  // ---- Closed orders stay closed ----

  /** The order is fulfilled or expired, and this round is not about it. */
  ghost predicate Closed(w: World, id: string, s: OrderStatus) {
    && HasStatus(w.db, id, s) && !Open(s)
    && forall o :: o in InHand(w.pc) ==> o.id != id
  }

  /** A status written by a step is that of the order in hand; all others stay. */
  lemma StepKeepsStatus(w: World, e: Event, id: string, s: OrderStatus)
    requires Inv(w) && HasStatus(w.db, id, s) && Step(w, e).Some?
    requires forall o :: o in InHand(w.pc) ==> o.id != id
    ensures HasStatus(Step(w, e).value.db, id, s)
  {
    hide Consistent, HasStatus, WithStatus, WithOrder, TradeFor, Suffices, ToFulfill;
    match e {
      case Place(o, written) => PlacementKeepsStatus(w.db, o, written, id, s);
      case TakeOrder(now, written) => OthersUntouched(w.db, w.pc.todo[0].id, Expired, true, id, s);
      case MarkFunded(written) => OthersUntouched(w.db, w.pc.current.id, OrderStatus.Funded, written, id, s);
      case MarkFulfilled(written) => OthersUntouched(w.db, w.pc.current.id, Fulfilled, written, id, s);
      case _ =>
    }
  }

  lemma StepKeepsClosed(w: World, e: Event, id: string, s: OrderStatus)
    requires Inv(w) && Closed(w, id, s) && Step(w, e).Some?
    ensures Closed(Step(w, e).value, id, s)
  {
    hide Step, HasStatus;
    StepKeepsStatus(w, e, id, s);
    var w' := Step(w, e).value;
    forall o | o in InHand(w'.pc)
      ensures o.id != id
    {
      if e.BeginRound? {
        RoundStart(w, e, o);
        NotFetchable(w.db, id, s, o.id);
      } else {
        HandShrinks(w, e, o);
      }
    }
  }

  lemma NotFetchable(db: Db, id: string, s: OrderStatus, other: string)
    requires HasStatus(db, id, s) && !Open(s)
    requires exists i :: 0 <= i < |db.rows| && db.rows[i].orderId == other && Open(db.rows[i].status)
    ensures other != id
  {
  }

  /** A trade is the only step that broadcasts, and it does so for the order in hand. */
  lemma StepSends(w: World, e: Event)
    requires Step(w, e).Some?
    ensures e.TradeNext? ==> w.pc.Trading? && w.pc.next < |w.pc.utxos| && Sizeable(w.pc.current)
    ensures Step(w, e).value.sent
         == if e.TradeNext?
            then w.sent + Tagged(w.pc.current.id, TradeFor(w.pc.current, Some(w.pc.utxos[w.pc.next]), e.replies).sent)
            else w.sent
  {
    hide TradeFor, Suffices, WithStatus, WithOrder;
  }

  /**
   Once an order is fulfilled or expired and the round is over, no interleaving of placements and
   rounds changes its status or broadcasts another trade for it.
   */
  lemma {:induction false} ClosedIsAbsorbing(w: World, es: seq<Event>, id: string, s: OrderStatus)
    requires Inv(w) && Closed(w, id, s) && Run(w, es).Some?
    ensures var w' := Run(w, es).value;
            && Closed(w', id, s) && w.sent <= w'.sent
            && forall i :: |w.sent| <= i < |w'.sent| ==> w'.sent[i].orderId != id
    decreases |es|
  {
    hide Step, HasStatus, Inv;
    if es != [] {
      var next := Step(w, es[0]).value;
      StepKeepsInv(w, es[0]);
      StepKeepsClosed(w, es[0], id, s);
      StepSends(w, es[0]);
      ClosedIsAbsorbing(next, es[1..], id, s);
      TradingInHand(w.pc);
      var last := Run(w, es).value;
      forall i | |w.sent| <= i < |last.sent|
        ensures last.sent[i].orderId != id
      {
        if i < |next.sent| {
          assert last.sent[i] == next.sent[i];
        }
      }
    }
  }

  lemma TradingInHand(pc: Pc)
    ensures pc.Trading? ==> pc.current in InHand(pc)
  {
  }

  /** From an idle watcher the two final statuses alone suffice. */
  lemma FinalStatusIsFinal(es1: seq<Event>, es2: seq<Event>, id: string, s: OrderStatus)
    requires Run(INIT, es1).Some? && Run(INIT, es1).value.pc.Idle?
    requires s in {Fulfilled, Expired} && HasStatus(Run(INIT, es1).value.db, id, s)
    requires Run(Run(INIT, es1).value, es2).Some?
    ensures var w, w' := Run(INIT, es1).value, Run(Run(INIT, es1).value, es2).value;
            && HasStatus(w'.db, id, s) && w.sent <= w'.sent
            && forall i :: |w.sent| <= i < |w'.sent| ==> w'.sent[i].orderId != id
  {
    hide Step, HasStatus, Inv;
    InitHolds();
    RunKeepsInv(INIT, es1);
    ClosedIsAbsorbing(Run(INIT, es1).value, es2, id, s);
  }

  // ---- What is broadcast, over every run ----

  /** Orders are placed as NewOrder made them, for any recipient; signers only sign. */
  ghost predicate Honest(e: Event) {
    && (e.Place? ==> Compiled(e.order))
    && (e.TradeNext? ==> SignerKeepsInputs(e.replies) && SignerKeepsOutputs(e.replies))
  }

  /** The first input spends a coin reported for this address. */
  ghost predicate SpendsReported(b: Broadcast, address: Address, found: set<Report>) {
    exists u :: Report(address, u) in found && SpendsFirst(b.tx, u)
  }

  /**
   The broadcast pays the maker what the order promises, spends a coin that the explorer reported
   for the order's address, shows the contract with a control block, and satisfies it exactly if
   the maker's script is one that can be paid.
   */
  ghost predicate Settles(b: Broadcast, o: Order, found: set<Report>, sha256: bytes -> bytes) {
    && b.tx.outputs != [] && b.tx.outputs[0] == MakerOutput(o)
    && SpendsReported(b, o.address, found)
    && (exists block :: Reveals(b.tx, o.fulfillScript, block))
    && UnlocksIfPayable(o, b.tx, sha256)
  }

  ghost predicate AllCompiled(w: World) {
    forall id :: id in w.db.orders ==> Compiled(w.db.orders[id])
  }

  ghost predicate AllSettled(w: World, sha256: bytes -> bytes) {
    forall i :: 0 <= i < |w.sent| ==>
      && w.sent[i].orderId in w.db.orders
      && Settles(w.sent[i].broadcast, w.db.orders[w.sent[i].orderId], w.found, sha256)
  }

  /** The coins being traded, for the order in hand. */
  function Coins(pc: Pc): set<Report> {
    match pc
    case Funding(o, us, _) => Reports(o.address, us)
    case Trading(o, us, _, _) => Reports(o.address, us)
    case _ => {}
  }

  lemma StepKeepsReported(w: World, e: Event)
    requires Coins(w.pc) <= w.found && Step(w, e).Some?
    ensures var w' := Step(w, e).value; w.found <= w'.found && Coins(w'.pc) <= w'.found
  {
    hide TradeFor, Suffices, WithStatus, WithOrder;
  }

  lemma TradeSettles(o: Order, u: Utxo, r: Replies, found: set<Report>, sha256: bytes -> bytes)
    requires Compiled(o) && SignerKeepsInputs(r) && SignerKeepsOutputs(r)
    requires Report(o.address, u) in found
    ensures Sizeable(o)
    ensures var sent := TradeFor(o, Some(u), r).sent; forall i :: 0 <= i < |sent| ==> Settles(sent[i], o, found, sha256)
  {
    hide Execution, Reveals, LeafScript, FulfillOutputs, SignerKeepsOutputs, SignerKeepsInputs, SpendsFirst,
      UnlocksIfPayable;
    BroadcastUnlocks(TradeStatus.Funded, o, Some(u), r, sha256);
    BroadcastIsFulfillment(TradeStatus.Funded, o, Some(u), PaymentOf(o), r);
    if Answered(r) {
      MakerFirst(o, Args(r));
    }
    var sent := TradeFor(o, Some(u), r).sent;
    assert forall i :: 0 <= i < |sent| ==> sent[i] in sent;
  }

  lemma StepKeepsCompiled(w: World, e: Event)
    requires AllCompiled(w) && Honest(e) && Step(w, e).Some?
    ensures AllCompiled(Step(w, e).value)
  {
    hide LeafScript, TradeFor, Suffices;
  }

  lemma SettlesStill(b: Broadcast, o: Order, found: set<Report>, more: set<Report>, sha256: bytes -> bytes)
    requires Settles(b, o, found, sha256) && found <= more
    ensures Settles(b, o, more, sha256)
  {
    hide UnlocksIfPayable, Reveals, SpendsFirst;
  }

  lemma StepKeepsSettled(w: World, e: Event, sha256: bytes -> bytes)
    requires Inv(w) && AllCompiled(w) && Coins(w.pc) <= w.found && AllSettled(w, sha256)
    requires Honest(e) && Step(w, e).Some?
    ensures AllSettled(Step(w, e).value, sha256)
  {
    hide Step, Settles, TradeFor, Consistent, Compiled, SignerKeepsInputs, SignerKeepsOutputs;
    var w' := Step(w, e).value;
    StepSends(w, e);
    StepKeepsReported(w, e);
    if e.TradeNext? {
      TradingInHand(w.pc);
      TradeSettles(w.pc.current, w.pc.utxos[w.pc.next], e.replies, w'.found, sha256);
    }
    forall i | 0 <= i < |w'.sent|
      ensures w'.sent[i].orderId in w'.db.orders
      ensures Settles(w'.sent[i].broadcast, w'.db.orders[w'.sent[i].orderId], w'.found, sha256)
    {
      OrdersGrow(w, e, w'.sent[i].orderId);
      if i < |w.sent| {
        assert w'.sent[i] == w.sent[i];
        SettlesStill(w.sent[i].broadcast, w.db.orders[w.sent[i].orderId], w.found, w'.found, sha256);
      }
    }
  }

  lemma {:induction false} RunSettles(w: World, es: seq<Event>, sha256: bytes -> bytes)
    requires Inv(w) && AllCompiled(w) && Coins(w.pc) <= w.found && AllSettled(w, sha256) && Run(w, es).Some?
    requires forall e :: e in es ==> Honest(e)
    ensures AllSettled(Run(w, es).value, sha256) && AllCompiled(Run(w, es).value)
    decreases |es|
  {
    hide Step, Inv, AllCompiled, AllSettled, Honest, Coins;
    if es != [] {
      StepKeepsInv(w, es[0]);
      StepKeepsCompiled(w, es[0]);
      StepKeepsReported(w, es[0]);
      StepKeepsSettled(w, es[0], sha256);
      assert forall e :: e in es[1..] ==> e in es;
      RunSettles(Step(w, es[0]).value, es[1..], sha256);
    }
  }

  /**
   From the order form to the chain: over all interleavings of placements, for whatever recipient,
   of rounds and restarts, and whatever clock, explorer, database, wallet and network answer, every
   transaction the bot broadcasts pays the maker of its order in full, spends a coin reported for
   that order's address, and satisfies the contract the order was compiled to exactly if the
   maker's script can be paid. Of signer and finalizer it is assumed that they only sign.
   */
  lemma EveryBroadcastSettles(es: seq<Event>, sha256: bytes -> bytes)
    requires Run(INIT, es).Some? && forall e :: e in es ==> Honest(e)
    ensures AllSettled(Run(INIT, es).value, sha256)
  {
    hide Step, Inv, Honest, Settles;
    InitHolds();
    RunSettles(INIT, es, sha256);
  }

  /** An outpoint pays one address: the explorer never reports it for two. */
  ghost predicate OneAddressEach(found: set<Report>) {
    forall x, y :: x in found && y in found && x.coin.Ref() == y.coin.Ref() ==> x.address == y.address
  }

  /**
   Broadcasts that spend the same contract coin are for orders whose sides are the same, or swapped,
   and whose recipient is, as far as a contract keeps it; for witness programs, the maker script.
   */
  lemma CoinIsTradedForItsTerms(es: seq<Event>, i: nat, j: nat)
    requires Run(INIT, es).Some? && forall e :: e in es ==> Honest(e)
    requires var w := Run(INIT, es).value;
             i < |w.sent| && j < |w.sent| && OneAddressEach(w.found)
    ensures var w := Run(INIT, es).value;
            var b, c := w.sent[i], w.sent[j];
            && b.orderId in w.db.orders && b.broadcast.tx.inputs != []
            && c.orderId in w.db.orders && c.broadcast.tx.inputs != []
            && var o, p := w.db.orders[b.orderId], w.db.orders[c.orderId];
               b.broadcast.tx.inputs[0].outpoint == c.broadcast.tx.inputs[0].outpoint ==>
                 && (SameSides(o, p) || SwappedSides(o, p))
                 && |o.traderScript| >= 2 && |p.traderScript| >= 2 && SameRecipient(o.traderScript, p.traderScript)
                 && (WellFormed(o.traderScript) && WellFormed(p.traderScript) ==> o.traderScript == p.traderScript)
  {
    hide Step, Inv, Honest, UnlocksIfPayable, Reveals, Compiled, WellFormed, SameRecipient;
    InitHolds();
    RunSettles(INIT, es, b => b);
    var w := Run(INIT, es).value;
    var o, p := w.db.orders[w.sent[i].orderId], w.db.orders[w.sent[j].orderId];
    var u :| Report(o.address, u) in w.found && SpendsFirst(w.sent[i].broadcast.tx, u);
    var v :| Report(p.address, v) in w.found && SpendsFirst(w.sent[j].broadcast.tx, v);
    if u.Ref() == v.Ref() {
      assert Report(o.address, u).coin.Ref() == Report(p.address, v).coin.Ref();
      AddressIsTerms(o, p);
    }
  }

  // ---- The sequential watcher takes these steps ----

  lemma {:induction false} RunAppend(w: World, a: seq<Event>, b: seq<Event>)
    requires Run(w, a).Some?
    ensures Run(w, a + b) == Run(Run(w, a).value, b)
    decreases |a|
  {
    if a == [] {
      assert a + b == b;
    } else {
      assert (a + b)[1..] == a[1..] + b;
      RunAppend(Step(w, a[0]).value, a[1..], b);
    }
  }

  lemma OneStep(w: World, e: Event)
    ensures Run(w, [e]) == Step(w, e)
  {
    assert [e][1..] == [];
  }

  /** The event is the watcher's, and its outcome is among the answers to this look. */
  ghost predicate Follows(e: Event, a: Answers) {
    match e
    case TakeOrder(now, written) => now == a.now && written == a.expireWritten
    case FetchUnspents(unspents) => unspents == a.unspents
    case MarkFunded(written) => written == a.fundWritten
    case TradeNext(replies) => replies in a.replies
    case MarkFulfilled(written) => written == a.fulfillWritten
    case _ => false
  }

  /** Where a batch leaves the watcher. */
  function AfterBatch(o: Order, utxos: seq<Utxo>, todo: seq<Order>, result: Result<()>): Pc {
    match result
    case Ok(_) => Trading(o, utxos, |utxos|, todo)
    case Err => Between(todo)
    case Panic => Crashed
  }

  lemma {:induction false} BatchIsRun(w: World, rs: seq<Replies>) returns (es: seq<Event>)
    requires w.pc.Trading? && w.pc.next <= |w.pc.utxos| && Sizeable(w.pc.current)
    requires |rs| == |w.pc.utxos| - w.pc.next
    ensures var b := BatchFrom(w.pc.current, Wanted(w.pc.utxos[w.pc.next..]), rs);
            Run(w, es) == Some(World(w.db, AfterBatch(w.pc.current, w.pc.utxos, w.pc.todo, b.result),
                                     w.sent + Tagged(w.pc.current.id, b.sent), w.found))
    ensures forall e :: e in es ==> e.TradeNext? && e.replies in rs
    decreases |rs|
  {
    hide TradeFor;
    var o, us, k := w.pc.current, w.pc.utxos, w.pc.next;
    if rs == [] {
      assert Wanted(us[k..]) == [];
      assert w.sent + Tagged(o.id, []) == w.sent;
      return [];
    }
    var e := TradeNext(rs[0]);
    var first := TradeFor(o, Some(us[k]), rs[0]);
    var next := Step(w, e).value;
    assert Wanted(us[k..])[0] == Some(us[k]);
    assert Wanted(us[k..])[1..] == Wanted(us[k + 1..]);
    OneStep(w, e);
    if !first.result.Ok? {
      return [e];
    }
    var rest := BatchIsRun(next, rs[1..]);
    RunAppend(w, [e], rest);
    var b := BatchFrom(o, Wanted(us[k + 1..]), rs[1..]);
    assert w.sent + Tagged(o.id, first.sent) + Tagged(o.id, b.sent) == w.sent + Tagged(o.id, first.sent + b.sent);
    return [e] + rest;
  }

  /** What is known after a look. */
  function FoundBy(found: set<Report>, o: Order, a: Answers): set<Report> {
    if IsExpired(o, a.now) && !a.expireWritten then found else FoundAfter(found, o, a.unspents)
  }

  /** The steps up to the moment the coins are known to suffice, or to the return if they do not. */
  lemma FirstSteps(w: World, a: Answers) returns (es: seq<Event>)
    requires w.pc.Between? && w.pc.todo != [] && a.Valid()
    ensures var o, rest := w.pc.todo[0], w.pc.todo[1..];
            var db1 := if IsExpired(o, a.now) then WithStatus(w.db, o.id, Expired, a.expireWritten) else w.db;
            var goesOn := (IsExpired(o, a.now) ==> a.expireWritten) && a.unspents.Some?
                          && Suffices(a.unspents.value, o.input.amount);
            Run(w, es) == Some(World(db1, if goesOn then Funding(o, a.unspents.value, rest) else Between(rest), w.sent,
                                     FoundBy(w.found, o, a)))
    ensures forall e :: e in es ==> Follows(e, a)
  {
    hide WithStatus, Suffices, TradeFor;
    var o := w.pc.todo[0];
    var take := TakeOrder(a.now, a.expireWritten);
    var w1 := Step(w, take).value;
    OneStep(w, take);
    if IsExpired(o, a.now) && !a.expireWritten {
      assert WithStatus(w.db, o.id, Expired, false) == w.db by {
        Unwritten(w.db, o.id);
      }
      return [take];
    }
    var fetch := FetchUnspents(a.unspents);
    OneStep(w1, fetch);
    RunAppend(w, [take], [fetch]);
    es := [take] + [fetch];
  }

  lemma Unwritten(db: Db, id: string)
    ensures WithStatus(db, id, Expired, false) == db
  {
  }

  /** A call of watchForTrades is a run from the moment its order is taken to the moment it returns. */
  lemma WatchIsRun(w: World, a: Answers) returns (es: seq<Event>)
    requires w.pc.Between? && w.pc.todo != [] && a.Valid() && Sizeable(w.pc.todo[0])
    ensures var o := w.pc.todo[0];
            var r := Watch(w.db, o, a);
            Run(w, es) == Some(World(r.db, if r.result.Panic? then Crashed else Between(w.pc.todo[1..]),
                                     w.sent + Tagged(o.id, r.sent), FoundBy(w.found, o, a)))
    ensures forall e :: e in es ==> Follows(e, a)
  {
    hide BatchFrom, Suffices, TradeFor, Updated;
    var o := w.pc.todo[0];
    assert w.sent + Tagged(o.id, []) == w.sent;
    es := FirstSteps(w, a);
    var w2 := Run(w, es).value;
    if w2.pc.Between? {
      return;
    }
    var fund := MarkFunded(a.fundWritten);
    var w3 := Step(w2, fund).value;
    OneStep(w2, fund);
    RunAppend(w, es, [fund]);
    es := es + [fund];
    assert a.unspents.value[0..] == a.unspents.value;
    var trades := BatchIsRun(w3, a.replies);
    RunAppend(w, es, trades);
    es := es + trades;
    if BatchFrom(o, Wanted(a.unspents.value), a.replies).result.Ok? {
      var w4 := Run(w3, trades).value;
      var fulfill := MarkFulfilled(a.fulfillWritten);
      OneStep(w4, fulfill);
      RunAppend(w, es, [fulfill]);
      es := es + [fulfill];
    }
  }

  /** Placing an order is a step that is enabled at any moment and touches nothing but the tables. */
  lemma PlacementIsStep(w: World, o: Order, written: bool)
    requires Compiled(o)
    ensures Step(w, Place(o, written)) == Some(World(WithOrder(w.db, o, written), w.pc, w.sent, w.found))
  {
    CompiledIsSizeable(o);
  }

  function Untagged(sent: seq<Sent>): (r: seq<Broadcast>)
    ensures |r| == |sent| && forall i :: 0 <= i < |sent| ==> r[i] == sent[i].broadcast
  {
    seq(|sent|, i requires 0 <= i < |sent| => sent[i].broadcast)
  }

  /** The world shows what a round returned: its database, its broadcasts, and whether it crashed. */
  ghost predicate Shows(w: World, was: World, r: Round) {
    && w.db == r.db && Untagged(w.sent) == Untagged(was.sent) + r.sent
    && (r.crashed <==> w.pc.Crashed?)
  }

  lemma {:induction false} RoundFromIsRun(w: World, answers: nat -> Answers, k: nat) returns (es: seq<Event>)
    requires w.pc.Between? && forall n :: answers(n).Valid()
    requires forall o :: o in w.pc.todo ==> Sizeable(o)
    ensures Run(w, es).Some? && Shows(Run(w, es).value, w, RoundFrom(w.db, w.pc.todo, answers, k))
    ensures Run(w, es).value.pc in {Idle, Crashed}
    ensures forall e :: e in es ==> e == EndRound || exists n: nat :: Follows(e, answers(n))
    decreases |w.pc.todo|
  {
    hide Watch, Step;
    if w.pc.todo == [] {
      OneStep(w, EndRound);
      EndsIdle(w);
      return [EndRound];
    }
    var o := w.pc.todo[0];
    var looked := Watch(w.db, o, answers(k));
    var first := WatchIsRun(w, answers(k));
    var next := Run(w, first).value;
    assert Untagged(next.sent) == Untagged(w.sent) + looked.sent;
    if looked.result.Panic? {
      return first;
    }
    var rest := RoundFromIsRun(next, answers, k + 1);
    RunAppend(w, first, rest);
    var r := RoundFrom(next.db, w.pc.todo[1..], answers, k + 1);
    assert Untagged(w.sent) + looked.sent + r.sent == Untagged(w.sent) + (looked.sent + r.sent);
    return first + rest;
  }

  lemma EndsIdle(w: World)
    requires w.pc.Between? && w.pc.todo == []
    ensures Step(w, EndRound) == Some(w.(pc := Idle))
    ensures Untagged(w.sent) == Untagged(w.sent) + []
  {
  }

  /**
   Every round of the sequential watcher is a run of the interleaved system, from idle to idle, of the
   watcher's own events with the outcomes it was answered.
   */
  lemma RoundIsRun(w: World, answers: nat -> Answers) returns (es: seq<Event>)
    requires Inv(w) && w.pc.Idle? && forall n :: answers(n).Valid()
    ensures forall o :: o in ToFulfill(w.db.orders, w.db.rows) ==> Sizeable(o)
    ensures Run(w, es).Some?
    ensures Shows(Run(w, es).value, w, RoundFrom(w.db, ToFulfill(w.db.orders, w.db.rows), answers, 0))
    ensures Run(w, es).value.pc in {Idle, Crashed}
    ensures forall e :: e in es ==> e == BeginRound(true) || e == EndRound || exists n: nat :: Follows(e, answers(n))
  {
    var begin := BeginRound(true);
    var next := Step(w, begin).value;
    StepKeepsInv(w, begin);
    OneStep(w, begin);
    var rest := RoundFromIsRun(next, answers, 0);
    RunAppend(w, [begin], rest);
    es := [begin] + rest;
  }
}
