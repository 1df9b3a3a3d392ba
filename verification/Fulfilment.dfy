/**
 What it takes for an order to be fulfilled, over every run of the interleaved system: coins reported
 at its address that suffice, each with a broadcast that the network took.
 */
module Fulfilment {
  import opened Bytes
  import opened Orders
  import opened Trades
  import opened Settlement
  import opened Executions
  import opened Watcher
  import opened Lifecycle

  /** Something that holds of an order, a coin and the broadcast the network took for the two. */
  type Claim = (Order, Utxo, Broadcast) -> bool

  /** The claim holds of what this step trades, as far as the network takes it. */
  ghost predicate Claimed(w: World, e: Event, claim: Claim) {
    e.TradeNext? && Step(w, e).Some? ==>
      var o, u := w.pc.current, w.pc.utxos[w.pc.next];
      forall b :: b in TradeFor(o, Some(u), e.replies).sent && b.reply.Some? ==> claim(o, u, b)
  }

  ghost predicate ClaimedAlong(w: World, es: seq<Event>, claim: Claim)
    decreases |es|
  {
    es == [] ||
    (Claimed(w, es[0], claim) && (Step(w, es[0]).Some? ==> ClaimedAlong(Step(w, es[0]).value, es[1..], claim)))
  }

  /** The network took a broadcast for the order, and of it and this coin the claim holds. */
  ghost predicate Taken(sent: seq<Sent>, o: Order, u: Utxo, claim: Claim) {
    exists x :: x in sent && x.orderId == o.id && x.broadcast.reply.Some? && claim(o, u, x.broadcast)
  }

  ghost predicate AllTaken(sent: seq<Sent>, o: Order, us: seq<Utxo>, claim: Claim) {
    forall u :: u in us ==> Taken(sent, o, u, claim)
  }

  /** There are coins, reported for the order's address and in sum sufficient, and all of them were traded. */
  ghost predicate Paid(sent: seq<Sent>, found: set<Report>, o: Order, claim: Claim) {
    exists us :: Suffices(us, o.input.amount) && Reports(o.address, us) <= found && AllTaken(sent, o, us, claim)
  }

  /** The coins before the next one are traded, and together they suffice. */
  ghost predicate OnTheWay(w: World, claim: Claim) {
    match w.pc
    case Funding(o, us, _) => Suffices(us, o.input.amount)
    case Trading(o, us, n, _) => n <= |us| && Suffices(us, o.input.amount) && AllTaken(w.sent, o, us[..n], claim)
    case _ => true
  }

  ghost predicate IsFulfilled(db: Db, id: string) {
    exists i :: 0 <= i < |db.rows| && db.rows[i] == Row(id, Fulfilled)
  }

  ghost predicate AllPaid(w: World, claim: Claim) {
    forall id :: IsFulfilled(w.db, id) ==>
      id in w.db.orders && w.db.orders[id].id == id && Paid(w.sent, w.found, w.db.orders[id], claim)
  }

  lemma TakenStill(sent: seq<Sent>, more: seq<Sent>, o: Order, us: seq<Utxo>, claim: Claim)
    requires AllTaken(sent, o, us, claim)
    ensures AllTaken(sent + more, o, us, claim)
  {
    forall u | u in us
      ensures Taken(sent + more, o, u, claim)
    {
      var x :| x in sent && x.orderId == o.id && x.broadcast.reply.Some? && claim(o, u, x.broadcast);
      assert x in sent + more;
    }
  }

  lemma PaidStill(sent: seq<Sent>, found: set<Report>, o: Order, claim: Claim, more: seq<Sent>, known: set<Report>)
    requires Paid(sent, found, o, claim) && found <= known
    ensures Paid(sent + more, known, o, claim)
  {
    hide Suffices, AllTaken;
    var us :| Suffices(us, o.input.amount) && Reports(o.address, us) <= found && AllTaken(sent, o, us, claim);
    TakenStill(sent, more, o, us, claim);
  }

  /** A trade that goes through adds its coin to those taken. */
  lemma TradeTakes(w: World, e: Event, claim: Claim)
    requires e.TradeNext? && Step(w, e).Some? && Claimed(w, e, claim) && OnTheWay(w, claim)
    ensures OnTheWay(Step(w, e).value, claim)
  {
    hide TradeFor, Suffices;
    var o, us, n := w.pc.current, w.pc.utxos, w.pc.next;
    var done := TradeFor(o, Some(us[n]), e.replies);
    var sent := Step(w, e).value.sent;
    TradeSendsOne(o, Some(us[n]), e.replies);
    TakenStill(w.sent, Tagged(o.id, done.sent), o, us[..n], claim);
    if done.result.Ok? {
      assert us[..n + 1] == us[..n] + [us[n]];
      assert done.sent[0] in done.sent;
      assert sent[|w.sent|] == Sent(o.id, done.sent[0]);
      assert Sent(o.id, done.sent[0]) in sent;
    }
  }

  lemma StepKeepsOnTheWay(w: World, e: Event, claim: Claim)
    requires Step(w, e).Some? && Claimed(w, e, claim) && OnTheWay(w, claim)
    ensures OnTheWay(Step(w, e).value, claim)
  {
    hide TradeFor, Suffices, WithStatus, WithOrder, Claimed;
    if e.TradeNext? {
      TradeTakes(w, e, claim);
    }
  }

  /** Only the end of a batch makes an order fulfilled. */
  lemma NewlyFulfilled(w: World, e: Event, id: string)
    requires Step(w, e).Some? && IsFulfilled(Step(w, e).value.db, id)
    ensures IsFulfilled(w.db, id) ||
            (e.MarkFulfilled? && w.pc.Trading? && w.pc.next >= |w.pc.utxos| && id == w.pc.current.id)
  {
    hide TradeFor, Suffices;
    var rows := Step(w, e).value.db.rows;
    var i :| 0 <= i < |rows| && rows[i] == Row(id, Fulfilled);
    if i < |w.db.rows| {
      assert w.db.rows[i] == Row(id, Fulfilled) ==> IsFulfilled(w.db, id);
    }
  }

  lemma AllTraded(w: World, claim: Claim)
    requires w.pc.Trading? && w.pc.next >= |w.pc.utxos| && Coins(w.pc) <= w.found && OnTheWay(w, claim)
    ensures Paid(w.sent, w.found, w.pc.current, claim)
  {
    hide Suffices, AllTaken;
    assert w.pc.utxos[..w.pc.next] == w.pc.utxos;
  }

  lemma StepKeepsPaid(w: World, e: Event, claim: Claim)
    requires Inv(w) && Coins(w.pc) <= w.found && OnTheWay(w, claim) && AllPaid(w, claim) && Step(w, e).Some?
    ensures AllPaid(Step(w, e).value, claim)
  {
    hide Step, Paid, IsFulfilled, OnTheWay, Consistent, TradeFor, Coins;
    var w' := Step(w, e).value;
    StepKeepsReported(w, e);
    StepSends(w, e);
    var more := w'.sent[|w.sent|..];
    assert w'.sent == w.sent + more;
    forall id | IsFulfilled(w'.db, id)
      ensures id in w'.db.orders && w'.db.orders[id].id == id && Paid(w'.sent, w'.found, w'.db.orders[id], claim)
    {
      NewlyFulfilled(w, e, id);
      OrdersGrow(w, e, id);
      if IsFulfilled(w.db, id) {
        PaidStill(w.sent, w.found, w.db.orders[id], claim, more, w'.found);
      } else {
        TradingInHand(w.pc);
        AllTraded(w, claim);
        PaidStill(w.sent, w.found, w.pc.current, claim, more, w'.found);
      }
    }
  }

  lemma {:induction false} RunPays(w: World, es: seq<Event>, claim: Claim)
    requires Inv(w) && Coins(w.pc) <= w.found && OnTheWay(w, claim) && AllPaid(w, claim)
    requires Run(w, es).Some? && ClaimedAlong(w, es, claim)
    ensures AllPaid(Run(w, es).value, claim)
    decreases |es|
  {
    hide Step, Inv, Coins, OnTheWay, AllPaid, Claimed;
    if es != [] {
      StepKeepsInv(w, es[0]);
      StepKeepsReported(w, es[0]);
      StepKeepsOnTheWay(w, es[0], claim);
      StepKeepsPaid(w, es[0], claim);
      RunPays(Step(w, es[0]).value, es[1..], claim);
    }
  }

  /**
   Whatever is claimed of the trades of a run is so of all the coins a fulfilled order was fulfilled
   on; these were reported for its address, and in sum they suffice.
   */
  lemma FulfilledIsPaid(es: seq<Event>, id: string, claim: Claim)
    requires Run(INIT, es).Some? && ClaimedAlong(INIT, es, claim)
    requires HasStatus(Run(INIT, es).value.db, id, Fulfilled)
    ensures var w := Run(INIT, es).value;
            id in w.db.orders && w.db.orders[id].id == id && Paid(w.sent, w.found, w.db.orders[id], claim)
  {
    hide Step, Paid, Inv;
    InitHolds();
    RunPays(INIT, es, claim);
    assert IsFulfilled(Run(INIT, es).value.db, id);
  }

  /** Coins that suffice for an amount are there, if the amount is. */
  lemma SufficientCoins(us: seq<Utxo>, amount: uint64)
    requires Suffices(us, amount) && amount > 0
    ensures us != []
  {
    assert Sum([]) == 0;
  }

  // ---- Fulfilled orders were traded ----

  /** The network took a broadcast for the order whose first input spends this coin. */
  ghost predicate WasSpent(sent: seq<Sent>, id: string, u: Utxo) {
    exists x :: x in sent && x.orderId == id && x.broadcast.reply.Some? && SpendsFirst(x.broadcast.tx, u)
  }

  lemma {:induction false} SignersSpend(w: World, es: seq<Event>)
    requires Run(w, es).Some? && forall e :: e in es && e.TradeNext? ==> SignerKeepsInputs(e.replies)
    ensures ClaimedAlong(w, es, (o: Order, u: Utxo, b: Broadcast) => SpendsFirst(b.tx, u))
    decreases |es|
  {
    hide Step, SpendsFirst, SignerKeepsInputs;
    if es != [] {
      TradeSpends(w, es[0]);
      assert forall e :: e in es[1..] ==> e in es;
      SignersSpend(Step(w, es[0]).value, es[1..]);
    }
  }

  lemma TradeSpends(w: World, e: Event)
    requires e.TradeNext? ==> SignerKeepsInputs(e.replies)
    ensures Claimed(w, e, (o: Order, u: Utxo, b: Broadcast) => SpendsFirst(b.tx, u))
  {
    hide Execution, SpendsFirst, SignerKeepsInputs;
    if e.TradeNext? && Step(w, e).Some? {
      var o, u := w.pc.current, w.pc.utxos[w.pc.next];
      BroadcastSpendsCoin(TradeStatus.Funded, o, Some(u), PaymentOf(o), e.replies);
    }
  }

  /**
   Over all interleavings, whatever is written or lost, an order that asks for anything is fulfilled
   only if there were coins, reported for its address and sufficient, and the network took for each
   of them a broadcast that spends it. Of signer and finalizer only the outpoints are assumed kept.
   */
  lemma FulfilledWasSpent(es: seq<Event>, id: string)
    requires Run(INIT, es).Some? && forall e :: e in es && e.TradeNext? ==> SignerKeepsInputs(e.replies)
    requires HasStatus(Run(INIT, es).value.db, id, Fulfilled)
    requires Run(INIT, es).value.db.orders[id].input.amount > 0
    ensures var w := Run(INIT, es).value;
            var o := w.db.orders[id];
            exists us ::
              && us != [] && Suffices(us, o.input.amount) && Reports(o.address, us) <= w.found
              && forall u :: u in us ==> WasSpent(w.sent, id, u)
  {
    hide Step, Suffices, SpendsFirst, SignerKeepsInputs, ClaimedAlong;
    var claim := (o: Order, u: Utxo, b: Broadcast) => SpendsFirst(b.tx, u);
    SignersSpend(INIT, es);
    FulfilledIsPaid(es, id, claim);
    var w := Run(INIT, es).value;
    var o := w.db.orders[id];
    var us :| Suffices(us, o.input.amount) && Reports(o.address, us) <= w.found && AllTaken(w.sent, o, us, claim);
    SufficientCoins(us, o.input.amount);
    forall u | u in us
      ensures WasSpent(w.sent, id, u)
    {
      assert Taken(w.sent, o, u, claim);
    }
  }

  lemma {:induction false} NothingClaimed(w: World, es: seq<Event>)
    ensures ClaimedAlong(w, es, (o: Order, u: Utxo, b: Broadcast) => true)
    decreases |es|
  {
    hide Step, TradeFor;
    if es != [] && Step(w, es[0]).Some? {
      NothingClaimed(Step(w, es[0]).value, es[1..]);
    }
  }

  /** Whatever the signer does, such an order had a broadcast that the network took. */
  lemma FulfilledWasBroadcast(es: seq<Event>, id: string)
    requires Run(INIT, es).Some? && HasStatus(Run(INIT, es).value.db, id, Fulfilled)
    requires Run(INIT, es).value.db.orders[id].input.amount > 0
    ensures exists x :: x in Run(INIT, es).value.sent && x.orderId == id && x.broadcast.reply.Some?
  {
    hide Step, Suffices, ClaimedAlong;
    var claim := (o: Order, u: Utxo, b: Broadcast) => true;
    NothingClaimed(INIT, es);
    FulfilledIsPaid(es, id, claim);
    var w := Run(INIT, es).value;
    var o := w.db.orders[id];
    var us :| Suffices(us, o.input.amount) && Reports(o.address, us) <= w.found && AllTaken(w.sent, o, us, claim);
    SufficientCoins(us, o.input.amount);
    assert Taken(w.sent, o, us[0], claim);
  }

  // ---- And funded ----

  /** Wallet, signer and explorer are truthful, nothing is refused, and the network takes only what balances. */
  ghost predicate Fair(w: World, e: Event, chain: Chain) {
    e.TradeNext? && Step(w, e).Some? ==>
      var o, u := w.pc.current, w.pc.utxos[w.pc.next];
      && Truthful(o, u, e.replies, chain)
      && forall b :: b in TradeFor(o, Some(u), e.replies).sent && b.reply.Some? ==>
           Balanced(b.tx, chain) && IsWhole(b.tx, e.replies)
  }

  ghost predicate FairAlong(w: World, es: seq<Event>, chain: Chain)
    decreases |es|
  {
    es == [] ||
    (Fair(w, es[0], chain) && (Step(w, es[0]).Some? ==> FairAlong(Step(w, es[0]).value, es[1..], chain)))
  }

  lemma TradeFunds(w: World, e: Event, chain: Chain)
    requires Fair(w, e, chain)
    ensures Claimed(w, e, (o: Order, u: Utxo, b: Broadcast) => FullyFunded(o, u))
  {
    hide Balanced, FullyFunded, TradeFor, Truthful, IsWhole;
    if e.TradeNext? && Step(w, e).Some? {
      var o, u := w.pc.current, w.pc.utxos[w.pc.next];
      forall b | b in TradeFor(o, Some(u), e.replies).sent && b.reply.Some?
        ensures FullyFunded(o, u)
      {
        TradeIsFunded(o, u, e.replies, b, chain);
      }
    }
  }

  lemma {:induction false} FairTradesFund(w: World, es: seq<Event>, chain: Chain)
    requires Run(w, es).Some? && FairAlong(w, es, chain)
    ensures ClaimedAlong(w, es, (o: Order, u: Utxo, b: Broadcast) => FullyFunded(o, u))
    decreases |es|
  {
    hide Step, Fair, FullyFunded;
    if es != [] {
      TradeFunds(w, es[0], chain);
      FairTradesFund(Step(w, es[0]).value, es[1..], chain);
    }
  }

  /**
   Over all fair runs an order that asks for anything is fulfilled only on coins reported for its
   address that suffice, and each of which is its input side to the unit.
   */
  lemma FulfilledIsFunded(es: seq<Event>, id: string, chain: Chain)
    requires Run(INIT, es).Some? && FairAlong(INIT, es, chain)
    requires HasStatus(Run(INIT, es).value.db, id, Fulfilled)
    requires Run(INIT, es).value.db.orders[id].input.amount > 0
    ensures var w := Run(INIT, es).value;
            var o := w.db.orders[id];
            exists us ::
              && us != [] && Suffices(us, o.input.amount) && Reports(o.address, us) <= w.found
              && forall u :: u in us ==> FullyFunded(o, u)
    ensures var w := Run(INIT, es).value;
            var o := w.db.orders[id];
            exists x :: x in w.found && x.address == o.address && FullyFunded(o, x.coin)
  {
    hide Step, Suffices, FullyFunded, FairAlong, ClaimedAlong;
    var claim := (o: Order, u: Utxo, b: Broadcast) => FullyFunded(o, u);
    FairTradesFund(INIT, es, chain);
    FulfilledIsPaid(es, id, claim);
    var w := Run(INIT, es).value;
    var o := w.db.orders[id];
    var us :| Suffices(us, o.input.amount) && Reports(o.address, us) <= w.found && AllTaken(w.sent, o, us, claim);
    SufficientCoins(us, o.input.amount);
    forall u | u in us
      ensures FullyFunded(o, u)
    {
      assert Taken(w.sent, o, u, claim);
    }
    assert us[0] in us && Report(o.address, us[0]) in w.found;
  }

  /** An order funded in parts, or with a unit too much each time, is never fulfilled, though its coins may suffice. */
  lemma UnfundedIsNeverFulfilled(es: seq<Event>, id: string, chain: Chain)
    requires Run(INIT, es).Some? && FairAlong(INIT, es, chain) && id in Run(INIT, es).value.db.orders
    requires var w := Run(INIT, es).value;
             var o := w.db.orders[id];
             o.input.amount > 0 && forall x :: x in w.found && x.address == o.address ==> !FullyFunded(o, x.coin)
    ensures !HasStatus(Run(INIT, es).value.db, id, Fulfilled)
  {
    hide Step, Suffices, FullyFunded, FairAlong;
    if HasStatus(Run(INIT, es).value.db, id, Fulfilled) {
      FulfilledIsFunded(es, id, chain);
    }
  }
}
