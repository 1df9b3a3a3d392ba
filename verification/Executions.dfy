/**
 Carrying a trade out (trade.go, ExecuteTrade and CancelTrade; app.go, executeTrades): the status
 of a trade, what reaches the network, and what a batch of trades leaves behind when it fails.
 The wallet, the signer and the network are replies that the outside world chooses.
 */
module Executions {
  import opened Bytes
  import opened FreeLists
  import opened Codec
  import opened Streams
  import opened ScriptNums
  import opened Scripts
  import opened Covenant
  import opened Orders
  import opened Trades
  import opened Settlement

  datatype TradeStatus = Pending | Funded | Executed | Cancelled

  /** The contract fits in memory. */
  predicate Sizeable(o: Order) {
    |o.fulfillScript| < TWO_TO_THE_64
  }

  /** What the wallet service and the PSET library answer during one ExecuteTrade; None is an error. */
  datatype Replies = Replies(
    address: Option<bytes>, changeAddress: Option<bytes>, feeChangeAddress: Option<bytes>,
    tradeUtxos: Option<(seq<Utxo>, uint64)>, feeUtxos: Option<(seq<Utxo>, uint64)>,
    accepts: Acceptance,
    sign: Pset -> Option<Pset>,
    finalize: (Pset, nat) -> Option<PsetInput>,
    controlBlock: nat -> Option<Sized>,
    extracts: Pset -> bool,
    broadcast: Option<string>)

  type Sized = b: bytes | |b| < TWO_TO_THE_64

  /** One transaction handed to the network, and the transaction id or error that came back. */
  datatype Broadcast = Broadcast(tx: Pset, reply: Option<string>) {
    predicate Succeeded() {
      reply.Some? && reply.value != ""
    }
  }

  // ---- From replies to the broadcast transaction ----

  function FinalizeFrom(p: Pset, i: nat, r: Replies): Option<Pset>
    decreases |p.inputs| - i
  {
    if i >= |p.inputs| then Some(p)
    else match r.finalize(p, i)
      case None => None
      case Some(x) => FinalizeFrom(p.(inputs := p.inputs[i := x]), i + 1, r)
  }

  /** The first leaf whose script is the fulfill script. */
  function FindLeaf(leaves: seq<bytes>, script: bytes): (r: Option<nat>)
    ensures r.Some? <==> script in leaves
    ensures r.Some? ==> r.value < |leaves| && leaves[r.value] == script && script !in leaves[..r.value]
  {
    if leaves == [] then None
    else if leaves[0] == script then Some(0)
    else match FindLeaf(leaves[1..], script)
      case None => None
      case Some(i) => Some(i + 1)
  }

  /** The signed PSET with every input final, the first by the witness that reveals the leaf. */
  function Complete(o: Order, payment: Payment, signed: Pset, r: Replies): Result<Pset>
    requires Sizeable(o)
  {
    match FinalizeFrom(signed, 1, r)
    case None => Err
    case Some(final) =>
      match FindLeaf(payment.leaves, o.fulfillScript)
      case None => Err
      case Some(leafIndex) =>
        match r.controlBlock(leafIndex)
        case None => Err
        case Some(block) =>
          if final.inputs == [] then Panic
          else
            var spend := EncodeVector([o.fulfillScript, block]);
            var p := final.(inputs := final.inputs[0 := final.inputs[0].(finalWitness := Some(spend))]);
            if r.extracts(p) then Ok(p) else Err
  }

  /** What the replies ask the builder to pay, once the wallet has answered everything. */
  function Args(r: Replies): FulfillArgs
    requires Answered(r)
  {
    FulfillArgs(r.tradeUtxos.value.0, r.feeUtxos.value.0, r.address.value, r.changeAddress.value,
                r.feeChangeAddress.value, r.tradeUtxos.value.1, r.feeUtxos.value.1)
  }

  predicate Answered(r: Replies) {
    r.address.Some? && r.changeAddress.Some? && r.feeChangeAddress.Some? && r.tradeUtxos.Some? && r.feeUtxos.Some?
  }

  /** The transaction ExecuteTrade hands to the network, if it gets that far. */
  function FinalTx(o: Order, funding: Utxo, payment: Payment, r: Replies): Result<Pset>
    requires Sizeable(o)
  {
    if !Answered(r) then Err
    else match FulfillPset(o, funding, payment, Args(r), r.accepts)
      case None => Err
      case Some(p) =>
        match r.sign(p)
        case None => Err
        case Some(signed) => Complete(o, payment, signed, r)
  }

  /** New status, result and what was broadcast. */
  datatype Outcome = Outcome(status: TradeStatus, result: Result<()>, sent: seq<Broadcast>)

  function Execution(status: TradeStatus, o: Order, funding: Option<Utxo>, payment: Payment, r: Replies): Outcome
    requires Sizeable(o)
  {
    if status != Funded || funding.None? then Outcome(status, Err, [])
    else match FinalTx(o, funding.value, payment, r)
      case Err => Outcome(status, Err, [])
      case Panic => Outcome(status, Panic, [])
      case Ok(tx) =>
        match r.broadcast
        case None => Outcome(status, Err, [Broadcast(tx, None)])
        case Some(txid) => Outcome(if txid != "" then Executed else status, Ok(()), [Broadcast(tx, Some(txid))])
  }

  /** No order NewOrder makes has a contract too large to handle. */
  lemma CompiledIsSizeable(o: Order)
    requires Compiled(o)
    ensures Sizeable(o)
  {
    hide Assemble, EncodeNum;
    var version := ScriptVersion(o.traderScript[0]).value;
    NumBounds(version);
    var asset := AssetHashToBytes(o.output.asset);
    ClauseFits(EncodeNum(version), o.traderScript[2..], asset[1..], o.output.amount);
    AssembledSize(ClauseOps(EncodeNum(version), o.traderScript[2..], asset[1..], o.output.amount));
  }

  lemma {:induction false} AssembledSize(ops: seq<Op>)
    requires Pushable(ops)
    ensures |Assemble(ops)| <= |ops| * (MAX_SCRIPT_ELEMENT_SIZE + 5)
    decreases |ops|
  {
    hide EmitPush;
    if ops != [] {
      AssembledSize(ops[1..]);
    }
  }

  // ---- The trade object ----

  /** The network's view: every transaction the bot has handed over. */
  class Network {
    var sent: seq<Broadcast>

    constructor ()
      ensures sent == []
    {
      sent := [];
    }

    method BroadcastTransaction(tx: Pset, reply: Option<string>)
      modifies this
      ensures sent == old(sent) + [Broadcast(tx, reply)]
    {
      sent := sent + [Broadcast(tx, reply)];
    }
  }

  class Trade {
    const order: Order
    const funding: Option<Utxo>
    const payment: Payment
    const network: Network
    var status: TradeStatus

    /** FromFundedOrder; without a funding output the trade is pending. */
    constructor FromFundedOrder(network: Network, order: Order, funding: Option<Utxo>)
      ensures this.network == network && this.order == order && this.funding == funding
      ensures status == if funding.None? then Pending else Funded
      ensures payment == if funding.None? then Payment([])
                         else PaymentOf(order)
    {
      this.network, this.order, this.funding := network, order, funding;
      if funding.None? {
        payment, status := Payment([]), Pending;
      } else {
        payment, status := PaymentOf(order), Funded;
      }
    }

    method PrepareFulfillTransaction(a: FulfillArgs, accepts: Acceptance) returns (r: Option<Pset>)
      ensures r == if funding.None? || status == Pending then None
                   else FulfillPset(order, funding.value, payment, a, accepts)
    {
      if funding.None? || status == Pending {
        return None;
      }
      r := BuildFulfill(order, funding.value, payment, a, accepts);
    }

    method ExecuteTrade(r: Replies) returns (result: Result<()>)
      requires Sizeable(order)
      modifies this`status, network
      ensures var e := Execution(old(status), order, funding, payment, r);
              status == e.status && result == e.result && network.sent == old(network.sent) + e.sent
    {
      hide FulfillPset, FindLeaf, FinalizeFrom, EncodeVector;
      if status == Pending {
        return Err;
      }
      if status == Executed || status == Cancelled {
        return Err;
      }
      if r.address.None? || r.changeAddress.None? || r.feeChangeAddress.None? {
        return Err;
      }
      // the trade's output amount, and the fees, from the wallet
      if r.tradeUtxos.None? || r.feeUtxos.None? {
        return Err;
      }
      var prepared := PrepareFulfillTransaction(Args(r), r.accepts);
      if prepared.None? {
        return Err;
      }
      var signed := r.sign(prepared.value);
      if signed.None? {
        return Err;
      }
      var tx := CompleteTx(signed.value, r);
      if !tx.Ok? {
        return if tx.Panic? then Panic else Err;
      }
      network.BroadcastTransaction(tx.value, r.broadcast);
      if r.broadcast.None? {
        return Err;
      }
      if r.broadcast.value != "" {
        status := Executed;
      }
      return Ok(());
    }

    /** Finalizes the wallet's inputs and writes the script-path witness of input 0 by hand. */
    method CompleteTx(signed: Pset, r: Replies) returns (res: Result<Pset>)
      requires Sizeable(order)
      ensures res == Complete(order, payment, signed, r)
    {
      hide EncodeVector;
      var p := signed;
      var i := 1;
      while i < |p.inputs|
        invariant 1 <= i
        invariant FinalizeFrom(p, i, r) == FinalizeFrom(signed, 1, r)
      {
        var x := r.finalize(p, i);
        if x.None? {
          return Err;
        }
        p := p.(inputs := p.inputs[i := x.value]);
        i := i + 1;
      }
      var leafIndex := FirstLeaf();
      if leafIndex.None? {
        return Err;
      }
      var block := r.controlBlock(leafIndex.value);
      if block.None? {
        return Err;
      }
      var list := new FreeList();
      var buffer := new Buffer([]);
      var serializer := new Serializer(list, buffer);
      serializer.WriteVector([payment.leaves[leafIndex.value], block.value]);
      assert [] + EncodeVector([order.fulfillScript, block.value]) == EncodeVector([order.fulfillScript, block.value]);
      if p.inputs == [] {
        return Panic;
      }
      p := p.(inputs := p.inputs[0 := p.inputs[0].(finalWitness := Some(buffer.data))]);
      res := if r.extracts(p) then Ok(p) else Err;
    }

    method FirstLeaf() returns (leafIndex: Option<nat>)
      ensures leafIndex == FindLeaf(payment.leaves, order.fulfillScript)
    {
      for i := 0 to |payment.leaves|
        invariant order.fulfillScript !in payment.leaves[..i]
      {
        if payment.leaves[i] == order.fulfillScript {
          FirstIsUnique(payment.leaves, order.fulfillScript, i);
          return Some(i);
        }
      }
      assert payment.leaves[..|payment.leaves|] == payment.leaves;
      return None;
    }

    method CancelTrade()
      modifies this`status
      ensures status == Cancelled
    {
      status := Cancelled;
    }
  }

  lemma FirstIsUnique(leaves: seq<bytes>, script: bytes, i: nat)
    requires i < |leaves| && leaves[i] == script && script !in leaves[..i]
    ensures FindLeaf(leaves, script) == Some(i)
  {
  }

  // ---- Any sequence of calls ----

  datatype Call = Execute(replies: Replies) | Cancel

  function AfterCall(status: TradeStatus, o: Order, funding: Option<Utxo>, payment: Payment, c: Call): Outcome
    requires Sizeable(o)
  {
    match c
    case Execute(r) => Execution(status, o, funding, payment, r)
    case Cancel => Outcome(Cancelled, Ok(()), [])
  }

  function AfterCalls(status: TradeStatus, o: Order, funding: Option<Utxo>, payment: Payment, calls: seq<Call>)
      : (TradeStatus, seq<Broadcast>)
    requires Sizeable(o)
    decreases |calls|
  {
    if calls == [] then (status, [])
    else
      var first := AfterCall(status, o, funding, payment, calls[0]);
      var (last, sent) := AfterCalls(first.status, o, funding, payment, calls[1..]);
      (last, first.sent + sent)
  }

  lemma CallIsSafe(status: TradeStatus, o: Order, funding: Option<Utxo>, payment: Payment, c: Call)
    requires Sizeable(o)
    ensures var e := AfterCall(status, o, funding, payment, c);
            && (status != Funded ==> e.sent == [] && e.status in {status, Cancelled})
            && |e.sent| <= 1
            && (e.sent != [] && e.sent[0].Succeeded() ==> e.status == Executed)
            && (e.status == Executed ==> status == Executed || (e.sent != [] && e.sent[0].Succeeded()))
  {
    hide FinalTx;
  }

  /**
   Safety of a trade under any calls and any replies: a trade that is not funded stays silent,
   cancelled stays cancelled, and no broadcast follows one that succeeded, so that at most one does.
   */
  lemma {:induction false} TradeIsSafe(status: TradeStatus, o: Order, funding: Option<Utxo>, payment: Payment,
                                       calls: seq<Call>)
    requires Sizeable(o)
    ensures var (last, sent) := AfterCalls(status, o, funding, payment, calls);
            && (status != Funded ==> sent == [] && last in {status, Cancelled})
            && (forall i :: 0 <= i < |sent| - 1 ==> !sent[i].Succeeded())
            && (last == Executed ==> status == Executed || (sent != [] && sent[|sent| - 1].Succeeded()))
    decreases |calls|
  {
    hide AfterCall;
    if calls != [] {
      var first := AfterCall(status, o, funding, payment, calls[0]);
      CallIsSafe(status, o, funding, payment, calls[0]);
      TradeIsSafe(first.status, o, funding, payment, calls[1..]);
    }
  }

  // ---- What reaches the network ----

  /** The signer adds signatures; it does not touch what is paid. */
  ghost predicate SignerKeepsOutputs(r: Replies) {
    forall p :: r.sign(p).Some? ==> r.sign(p).value.outputs == p.outputs
  }

  /** Nor do signer and finalizer touch what is spent. */
  ghost predicate SignerKeepsInputs(r: Replies) {
    && (forall p :: r.sign(p).Some? ==> Outpoints(r.sign(p).value.inputs) == Outpoints(p.inputs))
    && (forall p: Pset, i: nat :: i < |p.inputs| && r.finalize(p, i).Some? ==>
          r.finalize(p, i).value.outpoint == p.inputs[i].outpoint)
  }

  function WitnessUtxos(inputs: seq<PsetInput>): (r: seq<Option<TxOut>>)
    ensures |r| == |inputs| && forall i :: 0 <= i < |inputs| ==> r[i] == inputs[i].witnessUtxo
  {
    seq(|inputs|, i requires 0 <= i < |inputs| => inputs[i].witnessUtxo)
  }

  /** Signer and finalizer keep the witness UTXOs; only what is said of these depends on it. */
  ghost predicate SignerKeepsWitnesses(r: Replies) {
    && (forall p :: r.sign(p).Some? ==> WitnessUtxos(r.sign(p).value.inputs) == WitnessUtxos(p.inputs))
    && (forall p: Pset, i: nat :: i < |p.inputs| && r.finalize(p, i).Some? ==>
          r.finalize(p, i).value.witnessUtxo == p.inputs[i].witnessUtxo)
  }

  lemma BroadcastIsFulfillment(status: TradeStatus, o: Order, funding: Option<Utxo>, payment: Payment, r: Replies)
    requires Sizeable(o) && SignerKeepsOutputs(r)
    ensures forall b :: b in Execution(status, o, funding, payment, r).sent ==>
              Answered(r) && b.tx.outputs == FulfillOutputs(o, Args(r))
  {
    hide FulfillOutputs, EncodeVector;
    if Answered(r) && funding.Some? {
      var p := FulfillPset(o, funding.value, payment, Args(r), r.accepts);
      if p.Some? && r.sign(p.value).Some? {
        FinalizeKeepsOutputs(r.sign(p.value).value, 1, r);
      }
    }
    hide FinalizeFrom;
  }

  lemma {:induction false} FinalizeKeepsOutputs(p: Pset, i: nat, r: Replies)
    ensures var final := FinalizeFrom(p, i, r); final.Some? ==> final.value.outputs == p.outputs
    decreases |p.inputs| - i
  {
    if i < |p.inputs| && r.finalize(p, i).Some? {
      FinalizeKeepsOutputs(p.(inputs := p.inputs[i := r.finalize(p, i).value]), i + 1, r);
    }
  }

  lemma {:induction false} FinalizeKeepsInputs(p: Pset, i: nat, r: Replies)
    requires SignerKeepsInputs(r)
    ensures var final := FinalizeFrom(p, i, r); final.Some? ==> Outpoints(final.value.inputs) == Outpoints(p.inputs)
    decreases |p.inputs| - i
  {
    if i < |p.inputs| && r.finalize(p, i).Some? {
      var next := p.(inputs := p.inputs[i := r.finalize(p, i).value]);
      assert Outpoints(next.inputs) == Outpoints(p.inputs);
      FinalizeKeepsInputs(next, i + 1, r);
    }
  }

  lemma {:induction false} FinalizeKeepsWitnesses(p: Pset, i: nat, r: Replies)
    requires SignerKeepsWitnesses(r)
    ensures var final := FinalizeFrom(p, i, r);
            final.Some? ==> WitnessUtxos(final.value.inputs) == WitnessUtxos(p.inputs)
    decreases |p.inputs| - i
  {
    if i < |p.inputs| && r.finalize(p, i).Some? {
      var next := p.(inputs := p.inputs[i := r.finalize(p, i).value]);
      assert WitnessUtxos(next.inputs) == WitnessUtxos(p.inputs);
      FinalizeKeepsWitnesses(next, i + 1, r);
    }
  }

  /** What is broadcast spends what was built, of a payment that has the fulfill script for a leaf. */
  lemma BroadcastSpends(status: TradeStatus, o: Order, funding: Option<Utxo>, payment: Payment, r: Replies)
    requires Sizeable(o)
    ensures forall b :: b in Execution(status, o, funding, payment, r).sent ==>
              && Answered(r) && funding.Some? && o.fulfillScript in payment.leaves
              && FulfillPset(o, funding.value, payment, Args(r), r.accepts).Some?
              && var p := FulfillPset(o, funding.value, payment, Args(r), r.accepts).value;
                 && (SignerKeepsInputs(r) ==> Outpoints(b.tx.inputs) == Outpoints(p.inputs))
                 && (SignerKeepsWitnesses(r) ==> WitnessUtxos(b.tx.inputs) == WitnessUtxos(p.inputs))
  {
    hide FulfillPset, EncodeVector, SignerKeepsInputs, SignerKeepsWitnesses, Outpoints, WitnessUtxos;
    if Answered(r) && funding.Some? {
      var p := FulfillPset(o, funding.value, payment, Args(r), r.accepts);
      if p.Some? && r.sign(p.value).Some? {
        SignedKeeps(p.value, r);
      }
    }
    hide FinalizeFrom;
  }

  lemma SignedKeeps(p: Pset, r: Replies)
    requires r.sign(p).Some?
    ensures var final := FinalizeFrom(r.sign(p).value, 1, r);
            final.Some? ==>
              && (SignerKeepsInputs(r) ==> Outpoints(final.value.inputs) == Outpoints(p.inputs))
              && (SignerKeepsWitnesses(r) ==> WitnessUtxos(final.value.inputs) == WitnessUtxos(p.inputs))
  {
    if SignerKeepsInputs(r) {
      FinalizeKeepsInputs(r.sign(p).value, 1, r);
    }
    if SignerKeepsWitnesses(r) {
      FinalizeKeepsWitnesses(r.sign(p).value, 1, r);
    }
  }

  /** The first input spends this coin. */
  predicate SpendsFirst(tx: Pset, coin: Utxo) {
    tx.inputs != [] && tx.inputs[0].outpoint == coin.Ref()
  }

  /** The coin a trade was made for is spent by the first input of whatever the trade broadcasts. */
  lemma BroadcastSpendsCoin(status: TradeStatus, o: Order, funding: Option<Utxo>, payment: Payment, r: Replies)
    requires Sizeable(o) && SignerKeepsInputs(r)
    ensures forall b :: b in Execution(status, o, funding, payment, r).sent ==>
              funding.Some? && SpendsFirst(b.tx, funding.value)
  {
    hide Execution, FulfillPset, SignerKeepsInputs, SignerKeepsWitnesses;
    BroadcastSpends(status, o, funding, payment, r);
    if Execution(status, o, funding, payment, r).sent != [] {
      assert Execution(status, o, funding, payment, r).sent[0] in Execution(status, o, funding, payment, r).sent;
      PsetSpends(o, funding.value, payment, Args(r), r.accepts);
      var p := FulfillPset(o, funding.value, payment, Args(r), r.accepts).value;
      assert Outpoints(p.inputs)[0] == funding.value.Ref();
    }
  }

  /** What the transaction pays, in terms of what the wallet answered. */
  lemma BroadcastPays(status: TradeStatus, o: Order, funding: Option<Utxo>, payment: Payment, r: Replies)
    requires Sizeable(o) && SignerKeepsOutputs(r)
    ensures forall b :: b in Execution(status, o, funding, payment, r).sent ==>
              && r.address.Some? && r.changeAddress.Some? && r.feeChangeAddress.Some?
              && r.tradeUtxos.Some? && r.feeUtxos.Some?
              && var outs := b.tx.outputs;
                 var (tradeChange, feeChange) := (r.tradeUtxos.value.1, r.feeUtxos.value.1);
                 var c := if tradeChange > 0 && (o.output.asset == LBTC.hash ==> tradeChange >= 500) then 1 else 0;
                 var d := if feeChange >= 500 then 1 else 0;
                 && |outs| == 3 + c + d
                 && outs[0] == PsetOutput(o.output.asset, o.output.amount, o.traderScript)
                 && outs[1] == PsetOutput(o.input.asset, o.input.amount, r.address.value)
                 && (c == 1 ==> outs[2] == PsetOutput(o.output.asset, tradeChange, r.changeAddress.value))
                 && (d == 1 ==> outs[2 + c] == PsetOutput(LBTC.hash, feeChange, r.feeChangeAddress.value))
                 && outs[2 + c + d] == PsetOutput(
                      LBTC.hash,
                      500 + (if o.output.asset == LBTC.hash && tradeChange < 500 then tradeChange else 0)
                      + (if feeChange < 500 then feeChange else 0),
                      [])
  {
    hide Execution, FulfillOutputs, SignerKeepsOutputs;
    BroadcastIsFulfillment(status, o, funding, payment, r);
    if Answered(r) {
      OutputsInOrder(o, Args(r));
    }
  }

  /** The inputs name these coins, by transaction and by the index cut to 32 bits. */
  predicate NameCoins(inputs: seq<PsetInput>, us: seq<Utxo>) {
    && |inputs| == |us|
    && forall i :: 0 <= i < |us| ==> inputs[i].outpoint == Outpoint(us[i].txid, us[i].index % 0x1_0000_0000)
  }

  /** And what it spends: the coin of the trade, then, if all got in, the coins for the trade and for the fees. */
  lemma BroadcastNamesCoins(status: TradeStatus, o: Order, funding: Utxo, payment: Payment, r: Replies, b: Broadcast)
    requires Sizeable(o) && SignerKeepsInputs(r) && b in Execution(status, o, Some(funding), payment, r).sent
    ensures r.tradeUtxos.Some? && r.feeUtxos.Some? && b.tx.inputs != [] && NameCoins(b.tx.inputs[..1], [funding])
    ensures var (trade, fees) := (r.tradeUtxos.value.0, r.feeUtxos.value.0);
            |b.tx.inputs| == 1 + |trade| + |fees| ==> NameCoins(b.tx.inputs, [funding] + trade + fees)
  {
    hide Execution, FulfillPset, SignerKeepsInputs, SignerKeepsWitnesses, NameCoins;
    BroadcastSpends(status, o, Some(funding), payment, r);
    BroadcastSpendsCoin(status, o, Some(funding), payment, r);
    NamesOf(b.tx.inputs[..1], [funding]);
    var a := Args(r);
    var p := FulfillPset(o, funding, payment, a, r.accepts).value;
    assert |b.tx.inputs| == |Outpoints(p.inputs)| == |p.inputs|;
    if |p.inputs| == 1 + |a.trade| + |a.fees| {
      InputsInOrder(o, funding, payment, a, r.accepts);
      IntendedOutpoints(o, funding, payment, a);
      NamesOf(b.tx.inputs, [funding] + a.trade + a.fees);
    }
  }

  lemma NamesOf(inputs: seq<PsetInput>, us: seq<Utxo>)
    requires Outpoints(inputs) == Refs(us)
    ensures NameCoins(inputs, us)
  {
    assert |inputs| == |Refs(us)| == |us|;
    forall i | 0 <= i < |us|
      ensures inputs[i].outpoint == us[i].Ref()
    {
      assert Outpoints(inputs)[i] == Refs(us)[i];
    }
  }

  /** Inputs up to i as they are in the end, the first one and those from i on as they were signed. */
  function Halfway(signed: Pset, final: Pset, i: nat): Pset
    requires 1 <= i <= |signed.inputs| == |final.inputs|
  {
    signed.(inputs := [signed.inputs[0]] + final.inputs[1..i] + signed.inputs[i..])
  }

  /** What is final is what finalizing made of each input in turn, the first one left out. */
  ghost predicate IsFinalized(signed: Pset, final: Pset, r: Replies) {
    && |signed.inputs| == |final.inputs| > 0 && final.outputs == signed.outputs
    && forall i :: 1 <= i < |signed.inputs| ==> r.finalize(Halfway(signed, final, i), i) == Some(final.inputs[i])
  }

  lemma {:induction false} FinalizedFrom(signed: Pset, p: Pset, i: nat, r: Replies)
    requires 1 <= i <= |p.inputs| == |signed.inputs| && FinalizeFrom(p, i, r).Some?
    requires p.outputs == signed.outputs && p.inputs[i..] == signed.inputs[i..] && p.inputs[0] == signed.inputs[0]
    ensures var final := FinalizeFrom(p, i, r).value;
            && |final.inputs| == |p.inputs| && final.outputs == p.outputs && final.inputs[..i] == p.inputs[..i]
            && forall j :: i <= j < |p.inputs| ==> r.finalize(Halfway(signed, final, j), j) == Some(final.inputs[j])
    decreases |p.inputs| - i
  {
    if i < |p.inputs| {
      var x := r.finalize(p, i).value;
      var next := p.(inputs := p.inputs[i := x]);
      assert next.inputs[i + 1..] == p.inputs[i..][1..] == signed.inputs[i + 1..];
      FinalizedFrom(signed, next, i + 1, r);
      var final := FinalizeFrom(p, i, r).value;
      assert final.inputs[i] == final.inputs[..i + 1][i] == x;
      assert final.inputs[..i] == final.inputs[..i + 1][..i] == p.inputs[..i];
      assert p.inputs == p.inputs[..i] + p.inputs[i..];
      assert p.inputs[..i] == [p.inputs[0]] + final.inputs[..i][1..];
      assert Halfway(signed, final, i) == p;
    }
  }

  /**
   What is broadcast is what was built, signed by the wallet, and finalized input by input, input 0
   getting the witness that reveals the leaf instead; it is what the library could extract, and what
   came back is the network's reply.
   */
  lemma BroadcastIsSigned(status: TradeStatus, o: Order, funding: Option<Utxo>, payment: Payment, r: Replies)
    requires Sizeable(o)
    ensures forall b :: b in Execution(status, o, funding, payment, r).sent ==>
              && Answered(r) && funding.Some?
              && var p := FulfillPset(o, funding.value, payment, Args(r), r.accepts);
                 && p.Some? && r.sign(p.value).Some?
                 && var signed := r.sign(p.value).value;
                    && |b.tx.inputs| == |signed.inputs| > 0 && b.tx.outputs == signed.outputs
                    && b.tx.inputs[0] == signed.inputs[0].(finalWitness := b.tx.inputs[0].finalWitness)
                    && IsFinalized(signed, b.tx, r)
                    && r.extracts(b.tx) && b.reply == r.broadcast
  {
    hide FulfillPset, EncodeVector;
    if Answered(r) && funding.Some? {
      var p := FulfillPset(o, funding.value, payment, Args(r), r.accepts);
      if p.Some? && r.sign(p.value).Some? {
        var signed := r.sign(p.value).value;
        if FinalizeFrom(signed, 1, r).Some? && signed.inputs != [] {
          FinalizedFrom(signed, signed, 1, r);
          var final := FinalizeFrom(signed, 1, r).value;
          forall w, j | 1 <= j < |signed.inputs|
            ensures Halfway(signed, final.(inputs := final.inputs[0 := final.inputs[0].(finalWitness := w)]), j)
                 == Halfway(signed, final, j)
          {
          }
        }
      }
    }
    hide FinalizeFrom;
  }

  /**
   How one call ends. Only a funded trade sends, and then one transaction: it is the network's error
   that makes the call fail then, and a transaction id that makes the trade executed. Where nothing
   is sent the status stays and the call fails, by a panic exactly if all went well up to the
   witness and the signer had left no input to put it in.
   */
  lemma ExecutionOutcome(status: TradeStatus, o: Order, funding: Option<Utxo>, payment: Payment, r: Replies)
    requires Sizeable(o)
    ensures var e := Execution(status, o, funding, payment, r);
            var ready := status == TradeStatus.Funded && funding.Some? && Answered(r);
            var built := if ready then FulfillPset(o, funding.value, payment, Args(r), r.accepts) else None;
            var signed := if built.Some? then r.sign(built.value) else None;
            && (e.sent == [] ==> e.status == status && !e.result.Ok?)
            && (e.sent != [] ==>
                && |e.sent| == 1 && e.sent[0].reply == r.broadcast && signed.Some?
                && e.result == (if r.broadcast.Some? then Ok(()) else Err)
                && e.status == if r.broadcast.Some? && r.broadcast.value != "" then Executed else TradeStatus.Funded)
            && (e.result.Panic? <==>
                && signed.Some? && signed.value.inputs == [] && o.fulfillScript in payment.leaves
                && r.controlBlock(FindLeaf(payment.leaves, o.fulfillScript).value).Some?)
  {
    hide FulfillPset, EncodeVector;
    if status == TradeStatus.Funded && funding.Some? && Answered(r) {
      var built := FulfillPset(o, funding.value, payment, Args(r), r.accepts);
      if built.Some? && r.sign(built.value).Some? {
        FinalizeKeepsLength(r.sign(built.value).value, 1, r);
        NothingToFinalize(r.sign(built.value).value, r);
      }
    }
    hide FinalizeFrom;
  }

  /**
   Something is sent exactly if nothing before it fails: the wallet answers, the PSET is built, signed
   and finalized, the leaf is found, its control block encoded, and the transaction extracted.
   */
  lemma SendsExactly(o: Order, funding: Utxo, payment: Payment, r: Replies)
    requires Sizeable(o)
    ensures var built := if Answered(r) then FulfillPset(o, funding, payment, Args(r), r.accepts) else None;
            var signed := if built.Some? then r.sign(built.value) else None;
            var final := if signed.Some? then FinalizeFrom(signed.value, 1, r) else None;
            var i := FindLeaf(payment.leaves, o.fulfillScript);
            var block := if i.Some? then r.controlBlock(i.value) else None;
            Execution(TradeStatus.Funded, o, Some(funding), payment, r).sent != [] <==>
              && final.Some? && final.value.inputs != [] && block.Some?
              && var spend := EncodeVector([o.fulfillScript, block.value]);
                 var first := final.value.inputs[0].(finalWitness := Some(spend));
                 r.extracts(final.value.(inputs := final.value.inputs[0 := first]))
  {
    hide FulfillPset, EncodeVector, FinalizeFrom, FindLeaf;
  }

  lemma {:induction false} FinalizeKeepsLength(p: Pset, i: nat, r: Replies)
    ensures FinalizeFrom(p, i, r).Some? ==> |FinalizeFrom(p, i, r).value.inputs| == |p.inputs|
    decreases |p.inputs| - i
  {
    if i < |p.inputs| && r.finalize(p, i).Some? {
      FinalizeKeepsLength(p.(inputs := p.inputs[i := r.finalize(p, i).value]), i + 1, r);
    }
  }

  lemma NothingToFinalize(p: Pset, r: Replies)
    ensures p.inputs == [] ==> FinalizeFrom(p, 1, r) == Some(p)
  {
  }

  /** The witness of a transaction's first input reads back as the script and the control block, and no more. */
  ghost predicate Reveals(tx: Pset, script: bytes, block: bytes) {
    && tx.inputs != [] && tx.inputs[0].finalWitness.Some?
    && DecodeVector(tx.inputs[0].finalWitness.value) == Done([script, block], [])
  }

  /** The control block shown is that of the first leaf that is the fulfill script. */
  lemma BroadcastReveals(status: TradeStatus, o: Order, funding: Option<Utxo>, payment: Payment, r: Replies)
    requires Sizeable(o)
    ensures forall b :: b in Execution(status, o, funding, payment, r).sent ==>
              var i := FindLeaf(payment.leaves, o.fulfillScript);
              && i.Some? && r.controlBlock(i.value).Some?
              && Reveals(b.tx, o.fulfillScript, r.controlBlock(i.value).value)
  {
    hide FulfillPset, FinalizeFrom, EncodeVector, DecodeVector;
    if funding.Some? && Answered(r) && FinalTx(o, funding.value, payment, r).Ok? {
      var i := FindLeaf(payment.leaves, o.fulfillScript).value;
      var v := [o.fulfillScript, r.controlBlock(i).value];
      VectorFraming(v, []);
      assert EncodeVector(v) + [] == EncodeVector(v);
    }
  }

  /**
   The witness, byte by byte, where contract and control block each take one byte for their length, as
   the contract of a witness program always does.
   */
  lemma WitnessBytes(status: TradeStatus, o: Order, funding: Option<Utxo>, payment: Payment, r: Replies)
    requires Sizeable(o) && |o.fulfillScript| <= 0xfc
    requires forall i: nat :: r.controlBlock(i).Some? ==> |r.controlBlock(i).value| <= 0xfc
    ensures forall b :: b in Execution(status, o, funding, payment, r).sent ==>
              && b.tx.inputs != [] && o.fulfillScript in payment.leaves
              && var block := r.controlBlock(FindLeaf(payment.leaves, o.fulfillScript).value);
                 && block.Some?
                 && b.tx.inputs[0].finalWitness
                    == Some([2, |o.fulfillScript|] + o.fulfillScript + [|block.value|] + block.value)
  {
    hide FulfillPset, FinalizeFrom, EncodeVector;
    if funding.Some? && Answered(r) && FinalTx(o, funding.value, payment, r).Ok? {
      var i := FindLeaf(payment.leaves, o.fulfillScript).value;
      PairBytes(o.fulfillScript, r.controlBlock(i).value);
    }
  }

  /**
   The transaction satisfies the order's contract exactly if the contract admits the maker's own
   script: for versions 0 and 1, exactly if that script is a witness program.
   */
  ghost predicate UnlocksIfPayable(o: Order, tx: Pset, sha256: bytes -> bytes) {
    var context := TxContext(ToTxOuts(tx.outputs), sha256);
    && |o.traderScript| >= 2
    && (Accepts(o.fulfillScript, context) <==> Admits(o.traderScript, o.traderScript, context))
    && (o.traderScript[0] in {OP_0, OP_1} ==> (Accepts(o.fulfillScript, context) <==> WellFormed(o.traderScript)))
  }

  /**
   Every transaction the bot broadcasts for an order that was compiled spends the coin it was made
   for and reveals the fulfill leaf with the control block of that leaf; and the leaf accepts what
   the transaction pays, if only the recipient can be paid at all.
   */
  lemma BroadcastUnlocks(status: TradeStatus, o: Order, funding: Option<Utxo>, r: Replies, sha256: bytes -> bytes)
    requires SignerKeepsInputs(r) && SignerKeepsOutputs(r) && Compiled(o)
    ensures Sizeable(o)
    ensures forall b :: b in Execution(status, o, funding, PaymentOf(o), r).sent ==>
              && funding.Some? && SpendsFirst(b.tx, funding.value)
              && r.controlBlock(0).Some? && Reveals(b.tx, o.fulfillScript, r.controlBlock(0).value)
              && UnlocksIfPayable(o, b.tx, sha256)
  {
    hide Execution, Reveals, SignerKeepsOutputs, SignerKeepsInputs, LeafScript, SpendsFirst, UnlocksIfPayable;
    CompiledIsSizeable(o);
    BroadcastIsFulfillment(status, o, funding, PaymentOf(o), r);
    BroadcastSpendsCoin(status, o, funding, PaymentOf(o), r);
    BroadcastReveals(status, o, funding, PaymentOf(o), r);
    if Answered(r) {
      var sent := Execution(status, o, funding, PaymentOf(o), r).sent;
      forall b | b in sent
        ensures UnlocksIfPayable(o, b.tx, sha256)
      {
        FulfillmentUnlocks(o, Args(r), b.tx, sha256);
      }
    }
  }

  lemma FulfillmentUnlocks(o: Order, a: FulfillArgs, tx: Pset, sha256: bytes -> bytes)
    requires Compiled(o) && tx.outputs == FulfillOutputs(o, a)
    ensures UnlocksIfPayable(o, tx, sha256)
  {
    hide Accepts, Admits, WellFormed, LeafScript, FulfillOutputs;
    FulfillAccepted(o, a, sha256);
    if o.traderScript[0] in {OP_0, OP_1} {
      FulfillUnlocks(o, a, sha256);
    }
  }

  lemma {:induction false} SameWitnessTotal(a: seq<PsetInput>, b: seq<PsetInput>, h: AssetHash)
    requires WitnessUtxos(a) == WitnessUtxos(b)
    ensures WitnessTotal(a, h) == WitnessTotal(b, h)
    decreases |a|
  {
    hide Carried;
    assert |a| == |WitnessUtxos(a)| == |b|;
    if a != [] {
      assert WitnessUtxos(a)[0] == WitnessUtxos(b)[0];
      assert WitnessUtxos(a[1..]) == WitnessUtxos(a)[1..] && WitnessUtxos(b[1..]) == WitnessUtxos(b)[1..];
      SameWitnessTotal(a[1..], b[1..], h);
    }
  }

  /**
   What a broadcast spends on the chain and what it pays balance, asset by asset, exactly when its
   coin holds the order's input side and what the inputs refused by the library were to bring in.
   */
  lemma BroadcastBalances(status: TradeStatus, o: Order, funding: Utxo, payment: Payment, r: Replies, b: Broadcast,
                          chain: Chain)
    requires Sizeable(o) && SignerKeepsInputs(r) && SignerKeepsOutputs(r)
    requires b in Execution(status, o, Some(funding), payment, r).sent
    requires Answered(r) ==> WalletSelects(o, Args(r)) && Reported([funding] + Args(r).trade + Args(r).fees, chain)
    ensures Answered(r)
    ensures Balanced(b.tx, chain) <==> Covers(o, funding, SiftedCoins(o, funding, payment, Args(r), r.accepts, false))
    ensures |b.tx.inputs| == 1 + |Args(r).trade| + |Args(r).fees| ==>
              (Balanced(b.tx, chain) <==> FullyFunded(o, funding))
    ensures RefusesDuplicates(r.accepts) ==>
              (Balanced(b.tx, chain) <==> Covers(o, funding, Repeats([funding.Ref()], Args(r).trade + Args(r).fees)))
  {
    hide Execution, SignerKeepsInputs, SignerKeepsWitnesses, SignerKeepsOutputs, WalletSelects, Reported, FullyFunded,
      Covers, FulfillPset, FulfillOutputs, Total, SiftedCoins, Repeats, RefusesDuplicates;
    BroadcastIsFulfillment(status, o, Some(funding), payment, r);
    BroadcastSpends(status, o, Some(funding), payment, r);
    var a := Args(r);
    var p := FulfillPset(o, funding, payment, a, r.accepts).value;
    PsetPays(o, funding, payment, a, r.accepts);
    assert Outpoints(b.tx.inputs) == Outpoints(p.inputs);
    assert Balanced(b.tx, chain) <==> Balanced(p, chain);
    hide Balanced;
    BalancedIffCovered(o, funding, payment, a, r.accepts, chain);
    if |p.inputs| == 1 + |a.trade| + |a.fees| {
      BalancedIffFullyFunded(o, funding, payment, a, r.accepts, chain);
    }
    if RefusesDuplicates(r.accepts) {
      BalancedIffCoversRepeats(o, funding, payment, a, r.accepts, chain);
    }
  }

  lemma PsetPays(o: Order, funding: Utxo, payment: Payment, a: FulfillArgs, accepts: Acceptance)
    requires FulfillPset(o, funding, payment, a, accepts).Some?
    ensures FulfillPset(o, funding, payment, a, accepts).value.outputs == FulfillOutputs(o, a)
  {
  }

  /** The same over the witness UTXOs that the broadcast carries itself, when no input was refused. */
  lemma BroadcastConserves(status: TradeStatus, o: Order, funding: Utxo, payment: Payment, r: Replies, b: Broadcast,
                           h: AssetHash)
    requires Sizeable(o) && SignerKeepsWitnesses(r) && SignerKeepsOutputs(r)
    requires b in Execution(status, o, Some(funding), payment, r).sent
    requires Answered(r) ==> WalletSelects(o, Args(r)) && |b.tx.inputs| == 1 + |Args(r).trade| + |Args(r).fees|
    ensures WitnessTotal(b.tx.inputs, h) - Total(ToTxOuts(b.tx.outputs), h)
         == Carried(funding.prevout, h) - (if h == o.input.asset then o.input.amount else 0)
  {
    hide Execution, SignerKeepsInputs, SignerKeepsWitnesses, SignerKeepsOutputs, WalletSelects, FulfillPset,
      FulfillOutputs, Total, Carried;
    BroadcastIsFulfillment(status, o, Some(funding), payment, r);
    BroadcastSpends(status, o, Some(funding), payment, r);
    PsetPays(o, funding, payment, Args(r), r.accepts);
    var p := FulfillPset(o, funding, payment, Args(r), r.accepts).value;
    assert |b.tx.inputs| == |WitnessUtxos(b.tx.inputs)| == |p.inputs|;
    SameWitnessTotal(b.tx.inputs, p.inputs, h);
    PsetConserves(o, funding, payment, Args(r), r.accepts, h);
  }

  /** Nobody errs, and signer and finalizer leave the PSET as it is. */
  ghost predicate AllGoesWell(r: Replies) {
    && (forall p :: r.sign(p) == Some(p) && r.extracts(p))
    && (forall p: Pset, i: nat :: i < |p.inputs| ==> r.finalize(p, i) == Some(p.inputs[i]))
    && (forall i: nat :: r.controlBlock(i).Some?) && r.broadcast.Some?
  }

  lemma {:induction false} FinalizeIsIdle(p: Pset, i: nat, r: Replies)
    requires AllGoesWell(r)
    ensures FinalizeFrom(p, i, r) == Some(p)
    decreases |p.inputs| - i
  {
    if i < |p.inputs| {
      assert p.(inputs := p.inputs[i := p.inputs[i]]) == p;
      FinalizeIsIdle(p, i + 1, r);
    }
  }

  lemma Delivered(o: Order, funding: Utxo, payment: Payment, r: Replies)
    requires Sizeable(o) && Answered(r) && AllGoesWell(r) && o.fulfillScript in payment.leaves
    requires FulfillPset(o, funding, payment, Args(r), r.accepts).Some?
    ensures |Execution(TradeStatus.Funded, o, Some(funding), payment, r).sent| == 1
    ensures SignerKeepsInputs(r) && SignerKeepsWitnesses(r) && SignerKeepsOutputs(r)
  {
    hide EncodeVector, FulfillOutputs;
    var p := FulfillPset(o, funding, payment, Args(r), r.accepts).value;
    PsetSpends(o, funding, payment, Args(r), r.accepts);
    assert |p.inputs| == |Outpoints(p.inputs)| > 0;
    hide FulfillPset;
    FinalizeIsIdle(p, 1, r);
  }

  /**
   An order funded to the unit whose broadcast does not balance: the wallet names one coin for the
   trade and for the fees, the library refuses it the second time, and the outputs pay it twice.
   */
  lemma FundedYetUnbalanced(o: Order, funding: Utxo, payment: Payment, r: Replies, u: Utxo, chain: Chain)
    requires Sizeable(o) && Answered(r) && AllGoesWell(r) && o.fulfillScript in payment.leaves
    requires RefusesDuplicates(r.accepts) && u.Ref() != funding.Ref() && Reported([funding, u], chain)
    requires o.input.asset == USDT.hash && o.output.asset == LBTC.hash && FullyFunded(o, funding)
    requires Args(r).trade == Args(r).fees == [u] && WalletSelects(o, Args(r))
    ensures var sent := Execution(TradeStatus.Funded, o, Some(funding), payment, r).sent;
            var v := Carried(u.prevout, LBTC.hash);
            && |sent| == 1 && !Balanced(sent[0].tx, chain)
            && WitnessTotal(sent[0].tx.inputs, LBTC.hash) == v
            && Total(ToTxOuts(sent[0].tx.outputs), LBTC.hash) == v + v
  {
    hide Execution, FulfillPset, FulfillOutputs, ToTxOuts, Carried, Total, WalletSelects, AllGoesWell, AssetTag,
      SignerKeepsInputs, SignerKeepsWitnesses, SignerKeepsOutputs, RefusesDuplicates, WitnessTotal;
    var a := Args(r);
    CoinNamedTwice(o, funding, payment, a, r.accepts, u);
    Delivered(o, funding, payment, r);
    var b := Execution(TradeStatus.Funded, o, Some(funding), payment, r).sent[0];
    assert b in Execution(TradeStatus.Funded, o, Some(funding), payment, r).sent;
    BroadcastIsFulfillment(TradeStatus.Funded, o, Some(funding), payment, r);
    BroadcastSpends(TradeStatus.Funded, o, Some(funding), payment, r);
    PsetPays(o, funding, payment, a, r.accepts);
    SameWitnessTotal(b.tx.inputs, FulfillPset(o, funding, payment, a, r.accepts).value.inputs, LBTC.hash);
    assert Outpoints(b.tx.inputs) == [funding.Ref(), u.Ref()];
    assert Resolved(Outpoints(b.tx.inputs), chain) == Prevouts([funding] + [u]);
    TotalNext(funding, [u], LBTC.hash);
    OneCoin(u, LBTC.hash);
    assert Carried(funding.prevout, LBTC.hash) == 0;
  }

  /** A coin of this value of this asset, paying nobody in particular. */
  function Coin(txid: string, h: AssetHash, value: uint64): Utxo {
    Utxo(txid, 0, value, TxOut([], AssetTag(h), Explicit(value)))
  }

  lemma CoinCarries(txid: string, h: AssetHash, value: uint64)
    ensures forall x :: Carried(Coin(txid, h, value).prevout, x) == if x == h then value else 0
    ensures forall x :: Total(Prevouts([Coin(txid, h, value)]), x) == if x == h then value else 0
  {
    forall x: AssetHash
      ensures Carried(Coin(txid, h, value).prevout, x) == if x == h then value else 0
      ensures Total(Prevouts([Coin(txid, h, value)]), x) == if x == h then value else 0
    {
      AssetBytesDiffer(x, h);
      OneCoin(Coin(txid, h, value), x);
    }
  }

  /** A wallet that offers one coin for everything, with the same change, and whose signer signs nothing. */
  function OneCoinReplies(u: Utxo, change: uint64): Replies {
    Replies(Some([]), Some([]), Some([]), Some(([u], change)), Some(([u], change)),
            (inputs, x) => x !in Outpoints(inputs), p => Some(p),
            (p: Pset, i: nat) => if i < |p.inputs| then Some(p.inputs[i]) else None,
            i => Some([]), p => true, Some("txid"))
  }

  function OrderFor(traderScript: bytes, input: Side, output: Side): (o: Order)
    requires WellFormed(traderScript)
    ensures o.traderScript == traderScript && o.input == input && o.output == output
  {
    var asset, refund := AssetHashToBytes(output.asset), AssetHashToBytes(input.asset);
    var f, g := LeafScript(traderScript, output.amount, asset), LeafScript(traderScript, input.amount, refund);
    if f.Ok? && g.Ok?
    then Order("id", 0, CreateFundingOutput(f.value, g.value).TaprootAddress(),
               f.value, g.value, traderScript, input, output)
    else Order("id", 0, Payment([]).TaprootAddress(), [], [], traderScript, input, output)
  }

  lemma OrderIsCompiled(traderScript: bytes, input: Side, output: Side)
    requires WellFormed(traderScript)
    ensures var o := OrderFor(traderScript, input, output); Compiled(o) && o.fulfillScript in PaymentOf(o).leaves
  {
    hide LeafScript;
    WellFormedCompiles(traderScript, output.amount, AssetHashToBytes(output.asset));
    WellFormedCompiles(traderScript, input.amount, AssetHashToBytes(input.asset));
  }

  /** Such an input: seven units of USDT for 500 of L-BTC, and one coin of 1000 offered twice. */
  lemma UnbalancedExample(traderScript: bytes)
    requires WellFormed(traderScript)
    ensures var o := OrderFor(traderScript, Side(USDT.hash, 7), Side(LBTC.hash, 500));
            var funding, u := Coin("funding", USDT.hash, 7), Coin("wallet", LBTC.hash, 1000);
            var chain := (x: Outpoint) => if x == u.Ref() then u.prevout else funding.prevout;
            && Compiled(o) && Sizeable(o) && FullyFunded(o, funding)
            && WalletSelects(o, Args(OneCoinReplies(u, 500)))
            && var sent := Execution(TradeStatus.Funded, o, Some(funding), PaymentOf(o), OneCoinReplies(u, 500)).sent;
               && |sent| == 1 && !Balanced(sent[0].tx, chain)
               && WitnessTotal(sent[0].tx.inputs, LBTC.hash) == 1000
               && Total(ToTxOuts(sent[0].tx.outputs), LBTC.hash) == 2000
  {
    hide LeafScript, Carried, Total, Execution, ToTxOuts, WitnessTotal, AssetTag, OrderFor, WellFormed, Compiled,
      Balanced;
    var o := OrderFor(traderScript, Side(USDT.hash, 7), Side(LBTC.hash, 500));
    var funding, u := Coin("funding", USDT.hash, 7), Coin("wallet", LBTC.hash, 1000);
    var r := OneCoinReplies(u, 500);
    var chain := (x: Outpoint) => if x == u.Ref() then u.prevout else funding.prevout;
    OrderIsCompiled(traderScript, Side(USDT.hash, 7), Side(LBTC.hash, 500));
    CompiledIsSizeable(o);
    CoinCarries("funding", USDT.hash, 7);
    CoinCarries("wallet", LBTC.hash, 1000);
    FundedYetUnbalanced(o, funding, PaymentOf(o), r, u, chain);
  }

  // ---- A batch of trades ----

  /** How many trades went through, how the batch ended, and everything broadcast on the way. */
  datatype Batch = Batch(done: nat, result: Result<()>, sent: seq<Broadcast>)

  function TradeFor(o: Order, unspent: Option<Utxo>, r: Replies): Outcome
    requires Sizeable(o)
  {
    Execution(if unspent.None? then Pending else Funded, o, unspent,
              if unspent.None? then Payment([]) else PaymentOf(o), r)
  }

  function BatchFrom(o: Order, unspents: seq<Option<Utxo>>, rs: seq<Replies>): Batch
    requires Sizeable(o) && |rs| == |unspents|
    decreases |unspents|
  {
    if unspents == [] then Batch(0, Ok(()), [])
    else
      var first := TradeFor(o, unspents[0], rs[0]);
      if !first.result.Ok? then Batch(0, first.result, first.sent)
      else
        var rest := BatchFrom(o, unspents[1..], rs[1..]);
        Batch(1 + rest.done, rest.result, first.sent + rest.sent)
  }

  /** executeTrades: one trade per unspent, in order, stopping at the first that fails. */
  method ExecuteTrades(network: Network, order: Order, unspents: seq<Option<Utxo>>, rs: seq<Replies>)
      returns (result: Result<seq<Trade>>)
    requires Sizeable(order) && |rs| == |unspents|
    modifies network
    ensures var b := BatchFrom(order, unspents, rs);
            && network.sent == old(network.sent) + b.sent
            && (result.Ok? <==> b.result.Ok?) && (result.Panic? <==> b.result.Panic?)
    ensures result.Ok? ==>
              && |result.value| == |unspents|
              && forall i :: 0 <= i < |unspents| ==>
                   result.value[i].order == order && result.value[i].funding == unspents[i]
  {
    hide Execution;
    var trades: seq<Trade> := [];
    for i := 0 to |unspents|
      invariant |trades| == i
      invariant forall j :: 0 <= j < i ==> trades[j].order == order && trades[j].funding == unspents[j]
      invariant var b, rest := BatchFrom(order, unspents, rs), BatchFrom(order, unspents[i..], rs[i..]);
                b.result == rest.result && old(network.sent) + b.sent == network.sent + rest.sent
    {
      ghost var before := network.sent;
      assert unspents[i..][1..] == unspents[i + 1..] && rs[i..][1..] == rs[i + 1..];
      var trade := new Trade.FromFundedOrder(network, order, unspents[i]);
      if trade.status != Funded {
        NotFunded(order, unspents[i], rs[i]);
        assert network.sent + [] == network.sent;
        return Err;
      }
      var done := trade.ExecuteTrade(rs[i]);
      if !done.Ok? {
        return if done.Panic? then Panic else Err;
      }
      trades := trades + [trade];
      ghost var rest := BatchFrom(order, unspents[i + 1..], rs[i + 1..]).sent;
      assert before + (TradeFor(order, unspents[i], rs[i]).sent + rest) == network.sent + rest;
    }
    assert network.sent + [] == network.sent;
    return Ok(trades);
  }

  lemma NotFunded(o: Order, unspent: Option<Utxo>, r: Replies)
    requires Sizeable(o) && unspent.None?
    ensures TradeFor(o, unspent, r) == Outcome(Pending, Err, [])
  {
  }

  /** A batch fails at trade k exactly if the trades before it went through and it did not. */
  lemma {:induction false} PartialExecution(o: Order, unspents: seq<Option<Utxo>>, rs: seq<Replies>)
    requires Sizeable(o) && |rs| == |unspents|
    ensures var b := BatchFrom(o, unspents, rs);
            && b.done <= |unspents|
            && (forall i :: 0 <= i < b.done ==> TradeFor(o, unspents[i], rs[i]).result.Ok?)
            && (b.result.Ok? <==> b.done == |unspents|)
            && (b.done < |unspents| ==> b.result == TradeFor(o, unspents[b.done], rs[b.done]).result)
    decreases |unspents|
  {
    hide TradeFor;
    if unspents != [] && TradeFor(o, unspents[0], rs[0]).result.Ok? {
      PartialExecution(o, unspents[1..], rs[1..]);
      var b, rest := BatchFrom(o, unspents, rs), BatchFrom(o, unspents[1..], rs[1..]);
      forall i | 0 <= i < b.done
        ensures TradeFor(o, unspents[i], rs[i]).result.Ok?
      {
        if i > 0 {
          assert unspents[i] == unspents[1..][i - 1] && rs[i] == rs[1..][i - 1];
        }
      }
    }
  }

  /** In a batch that went through the network took one transaction for each unspent. */
  lemma {:induction false} BatchAllTaken(o: Order, unspents: seq<Option<Utxo>>, rs: seq<Replies>)
    requires Sizeable(o) && |rs| == |unspents|
    requires BatchFrom(o, unspents, rs).result.Ok?
    ensures var sent := BatchFrom(o, unspents, rs).sent;
            |sent| == |unspents| && forall i :: 0 <= i < |sent| ==> sent[i].reply.Some?
    decreases |unspents|
  {
    hide FinalTx;
    if unspents != [] {
      BatchAllTaken(o, unspents[1..], rs[1..]);
    }
  }

  /** The i-th broadcast of a batch, one that failed included, is that of the i-th trade. */
  lemma {:induction false} BatchSendsInOrder(o: Order, unspents: seq<Option<Utxo>>, rs: seq<Replies>, i: nat)
    requires Sizeable(o) && |rs| == |unspents| && i < |BatchFrom(o, unspents, rs).sent|
    ensures |BatchFrom(o, unspents, rs).sent| <= |unspents|
    ensures TradeFor(o, unspents[i], rs[i]).sent == [BatchFrom(o, unspents, rs).sent[i]]
    decreases |unspents|
  {
    hide TradeFor;
    TradeSendsOne(o, unspents[0], rs[0]);
    if i > 0 {
      BatchSendsInOrder(o, unspents[1..], rs[1..], i - 1);
    } else if TradeFor(o, unspents[0], rs[0]).result.Ok? && BatchFrom(o, unspents[1..], rs[1..]).sent != [] {
      BatchSendsInOrder(o, unspents[1..], rs[1..], 0);
    }
  }

  /** A batch sends what its trades sent, that of the trade it failed at included. */
  lemma {:induction false} BatchSendsAll(o: Order, unspents: seq<Option<Utxo>>, rs: seq<Replies>)
    requires Sizeable(o) && |rs| == |unspents|
    ensures var b := BatchFrom(o, unspents, rs);
            && b.done <= |unspents| && b.done <= |b.sent|
            && b.sent[b.done..] == if b.done < |unspents| then TradeFor(o, unspents[b.done], rs[b.done]).sent else []
    decreases |unspents|
  {
    hide TradeFor;
    if unspents != [] {
      TradeSendsOne(o, unspents[0], rs[0]);
      BatchSendsAll(o, unspents[1..], rs[1..]);
    }
  }

  lemma TradeSendsOne(o: Order, unspent: Option<Utxo>, r: Replies)
    requires Sizeable(o)
    ensures var e := TradeFor(o, unspent, r);
            && |e.sent| <= 1 && (e.sent != [] ==> unspent.Some?)
            && (e.result.Ok? ==> |e.sent| == 1 && e.sent[0].reply.Some?)
  {
    hide FinalTx;
  }

  /** And it spends the i-th coin. */
  lemma BatchSpendsCoins(o: Order, unspents: seq<Option<Utxo>>, rs: seq<Replies>, i: nat)
    requires Sizeable(o) && |rs| == |unspents| && i < |BatchFrom(o, unspents, rs).sent|
    ensures |BatchFrom(o, unspents, rs).sent| <= |unspents| && unspents[i].Some?
    ensures SignerKeepsInputs(rs[i]) ==> SpendsFirst(BatchFrom(o, unspents, rs).sent[i].tx, unspents[i].value)
  {
    hide FinalTx, SpendsFirst, SignerKeepsInputs, BatchFrom;
    BatchSendsInOrder(o, unspents, rs, i);
    var sent := TradeFor(o, unspents[i], rs[i]).sent;
    assert sent[0] in sent;
    if SignerKeepsInputs(rs[i]) {
      var payment := PaymentOf(o);
      BroadcastSpendsCoin(TradeStatus.Funded, o, unspents[i], payment, rs[i]);
    }
  }

  /** The maker's side of the order, at the maker's script. */
  function MakerOutput(o: Order): PsetOutput {
    PsetOutput(o.output.asset, o.output.amount, o.traderScript)
  }

  /** What the maker of the order is paid by the transactions the network took without an error. */
  function Committed(o: Order, sent: seq<Broadcast>): nat {
    if sent == [] then 0
    else (if sent[0].reply.Some? && sent[0].tx.outputs != [] && sent[0].tx.outputs[0] == MakerOutput(o)
          then o.output.amount else 0) + Committed(o, sent[1..])
  }

  /** Each trade of a batch that went through commits the order's full output amount once. */
  lemma {:induction false} BatchCommits(o: Order, unspents: seq<Option<Utxo>>, rs: seq<Replies>)
    requires Sizeable(o) && |rs| == |unspents|
    requires forall i :: 0 <= i < |rs| ==> SignerKeepsOutputs(rs[i])
    ensures var b := BatchFrom(o, unspents, rs); Committed(o, b.sent) == b.done * o.output.amount
    decreases |unspents|
  {
    hide TradeFor, SignerKeepsOutputs;
    if unspents != [] {
      var first := TradeFor(o, unspents[0], rs[0]);
      TradeCommits(o, unspents[0], rs[0]);
      if first.result.Ok? {
        BatchCommits(o, unspents[1..], rs[1..]);
        var rest := BatchFrom(o, unspents[1..], rs[1..]);
        assert (first.sent + rest.sent)[1..] == rest.sent;
        assert Committed(o, first.sent) == Committed(o, [first.sent[0]]) + Committed(o, first.sent[1..]);
        assert (1 + rest.done) * o.output.amount == o.output.amount + rest.done * o.output.amount;
      }
    }
  }

  lemma TradeCommits(o: Order, unspent: Option<Utxo>, r: Replies)
    requires Sizeable(o) && SignerKeepsOutputs(r)
    ensures var e := TradeFor(o, unspent, r);
            && |e.sent| <= 1
            && (e.result.Ok? ==> |e.sent| == 1 && e.sent[0].reply.Some? && e.sent[0].tx.outputs != []
                                 && e.sent[0].tx.outputs[0] == MakerOutput(o))
            && (!e.result.Ok? ==> Committed(o, e.sent) == 0)
  {
    hide FulfillOutputs, FinalTx;
    var e := TradeFor(o, unspent, r);
    var payment := if unspent.None? then Payment([]) else PaymentOf(o);
    BroadcastIsFulfillment(if unspent.None? then Pending else Funded, o, unspent, payment, r);
    if e.sent != [] {
      assert e.sent[0] in e.sent;
      MakerFirst(o, Args(r));
    }
  }

  lemma MakerFirst(o: Order, a: FulfillArgs)
    ensures FulfillOutputs(o, a) != []
    ensures FulfillOutputs(o, a)[0] == MakerOutput(o)
  {
  }
}
