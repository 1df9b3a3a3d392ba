/**
 The fulfilling transaction (trade.go, PrepareFulfillTransaction): how it is put together input by
 input, what it pays, that it balances, and that it unlocks the contract it spends.
 */
module Trades {
  import opened Bytes
  import opened Scripts
  import opened Orders

  const FEE_AMOUNT := 500

  datatype Outpoint = Outpoint(txid: string, index: int)

  datatype Utxo = Utxo(txid: string, index: int, value: uint64, prevout: TxOut) {
    /** The reference an input makes to this output; the index is cut to 32 bits. */
    function Ref(): Outpoint {
      Outpoint(txid, index % 0x1_0000_0000)
    }
  }

  datatype Sighash = Default | All

  // ---- The PSET ----

  datatype PsetInput = PsetInput(
    outpoint: Outpoint, witnessUtxo: Option<TxOut>, sighash: Option<Sighash>,
    tapLeaves: seq<bytes>, finalWitness: Option<bytes>)

  datatype PsetOutput = PsetOutput(asset: AssetHash, amount: uint64, script: bytes)

  datatype Pset = Pset(inputs: seq<PsetInput>, outputs: seq<PsetOutput>)

  /** Whether the library takes a further input: it may refuse a duplicate or a malformed txid. */
  type Acceptance = (seq<PsetInput>, Outpoint) -> bool

  function BareInput(o: Outpoint): PsetInput {
    PsetInput(o, None, None, [], None)
  }

  /** An input as the builder wants it. */
  function Signable(u: Utxo, sighash: Sighash): PsetInput {
    PsetInput(u.Ref(), Some(u.prevout), Some(sighash), [], None)
  }

  /** go-elements' updater: every call reports success, and a failed call changes nothing. */
  class Updater {
    const accepts: Acceptance
    var inputs: seq<PsetInput>
    var outputs: seq<PsetOutput>

    constructor (accepts: Acceptance)
      ensures this.accepts == accepts && inputs == [] && outputs == []
    {
      this.accepts := accepts;
      inputs, outputs := [], [];
    }

    method AddInput(o: Outpoint) returns (ok: bool)
      modifies this`inputs
      ensures ok == accepts(old(inputs), o)
      ensures inputs == if ok then old(inputs) + [BareInput(o)] else old(inputs)
    {
      ok := accepts(inputs, o);
      if ok {
        inputs := inputs + [BareInput(o)];
      }
    }

    method AddInWitnessUtxo(i: nat, prevout: TxOut) returns (ok: bool)
      modifies this`inputs
      ensures ok == (i < |old(inputs)|)
      ensures inputs == if ok then old(inputs)[i := old(inputs)[i].(witnessUtxo := Some(prevout))] else old(inputs)
    {
      ok := i < |inputs|;
      if ok {
        inputs := inputs[i := inputs[i].(witnessUtxo := Some(prevout))];
      }
    }

    method AddInSighashType(i: nat, sighash: Sighash) returns (ok: bool)
      modifies this`inputs
      ensures ok == (i < |old(inputs)|)
      ensures inputs == if ok then old(inputs)[i := old(inputs)[i].(sighash := Some(sighash))] else old(inputs)
    {
      ok := i < |inputs|;
      if ok {
        inputs := inputs[i := inputs[i].(sighash := Some(sighash))];
      }
    }

    method AddInTapLeafScript(i: nat, leaf: bytes) returns (ok: bool)
      modifies this`inputs
      ensures ok == (i < |old(inputs)|)
      ensures inputs == if ok then old(inputs)[i := old(inputs)[i].(tapLeaves := old(inputs)[i].tapLeaves + [leaf])]
                        else old(inputs)
    {
      ok := i < |inputs|;
      if ok {
        inputs := inputs[i := inputs[i].(tapLeaves := inputs[i].tapLeaves + [leaf])];
      }
    }

    method AddOutputs(outs: seq<PsetOutput>)
      modifies this`outputs
      ensures outputs == old(outputs) + outs
    {
      outputs := outputs + outs;
    }

    /** One turn of the input loops: the three calls whose errors the builder ignores. */
    method Attach(u: Utxo, index: nat, sighash: Sighash)
      modifies this`inputs
      ensures inputs == Attached(old(inputs), u, index, sighash, accepts)
    {
      var added := AddInput(u.Ref());
      var updated := AddInWitnessUtxo(index, u.prevout);
      var typed := AddInSighashType(index, sighash);
    }

    method AttachEach(us: seq<Utxo>, start: nat, sighash: Sighash) returns (inputIndex: nat)
      modifies this`inputs
      ensures inputIndex == start + |us|
      ensures inputs == AttachedAll(old(inputs), us, start, sighash, accepts)
    {
      inputIndex := start;
      for i := 0 to |us|
        invariant inputIndex == start + i
        invariant AttachedAll(inputs, us[i..], inputIndex, sighash, accepts)
               == AttachedAll(old(inputs), us, start, sighash, accepts)
      {
        assert us[i..][1..] == us[i + 1..];
        Attach(us[i], inputIndex, sighash);
        inputIndex := inputIndex + 1;
      }
    }
  }

  function Attached(inputs: seq<PsetInput>, u: Utxo, index: nat, sighash: Sighash, accepts: Acceptance)
      : seq<PsetInput>
  {
    var added := if accepts(inputs, u.Ref()) then inputs + [BareInput(u.Ref())] else inputs;
    if index < |added|
    then added[index := added[index].(witnessUtxo := Some(u.prevout), sighash := Some(sighash))]
    else added
  }

  function AttachedAll(inputs: seq<PsetInput>, us: seq<Utxo>, index: nat, sighash: Sighash, accepts: Acceptance)
      : seq<PsetInput>
    decreases |us|
  {
    if us == [] then inputs
    else AttachedAll(Attached(inputs, us[0], index, sighash, accepts), us[1..], index + 1, sighash, accepts)
  }

  // ---- Input bookkeeping ----

  /** What the builder means to attach. */
  function SignableAll(us: seq<Utxo>, sighash: Sighash): (r: seq<PsetInput>)
    ensures |r| == |us| && forall i :: 0 <= i < |us| ==> r[i] == Signable(us[i], sighash)
  {
    seq(|us|, i requires 0 <= i < |us| => Signable(us[i], sighash))
  }

  /** The library takes every one of these inputs, added in this order behind the given ones. */
  ghost predicate AllAccepted(inputs: seq<PsetInput>, us: seq<Utxo>, sighash: Sighash, accepts: Acceptance)
    decreases |us|
  {
    us == [] || (accepts(inputs, us[0].Ref())
                 && AllAccepted(inputs + [Signable(us[0], sighash)], us[1..], sighash, accepts))
  }

  lemma AttachNext(inputs: seq<PsetInput>, u: Utxo, index: nat, sighash: Sighash, accepts: Acceptance)
    requires index >= |inputs|
    ensures Attached(inputs, u, index, sighash, accepts)
         == if !accepts(inputs, u.Ref()) then inputs
            else if index == |inputs| then inputs + [Signable(u, sighash)]
            else inputs + [BareInput(u.Ref())]
  {
  }

  lemma SignableNext(inputs: seq<PsetInput>, us: seq<Utxo>, sighash: Sighash)
    requires us != []
    ensures inputs + SignableAll(us, sighash) == inputs + [Signable(us[0], sighash)] + SignableAll(us[1..], sighash)
  {
  }

  /**
   While the index keeps step with the inputs, the result is the inputs as meant if and only if
   no add is refused; once one is, the inputs are too few.
   */
  lemma {:induction false} AttachedExactly(inputs: seq<PsetInput>, us: seq<Utxo>, sighash: Sighash, accepts: Acceptance)
    ensures var r := AttachedAll(inputs, us, |inputs|, sighash, accepts);
            if AllAccepted(inputs, us, sighash, accepts) then r == inputs + SignableAll(us, sighash)
            else |r| < |inputs| + |us|
    decreases |us|
  {
    hide Attached, SignableAll, Signable;
    if us != [] {
      var next := Attached(inputs, us[0], |inputs|, sighash, accepts);
      AttachNext(inputs, us[0], |inputs|, sighash, accepts);
      if accepts(inputs, us[0].Ref()) {
        AttachedExactly(next, us[1..], sighash, accepts);
        SignableNext(inputs, us, sighash);
      } else {
        AttachedBehind(inputs, us[1..], |inputs| + 1, sighash, accepts);
      }
    } else {
      assert SignableAll(us, sighash) == [];
    }
  }

  /** An index that has run ahead never touches an input again: what is added stays bare. */
  lemma {:induction false} AttachedBehind(inputs: seq<PsetInput>, us: seq<Utxo>, index: nat, sighash: Sighash,
                                          accepts: Acceptance)
    requires index > |inputs|
    ensures var r := AttachedAll(inputs, us, index, sighash, accepts);
            && |inputs| <= |r| <= |inputs| + |us|
            && r[..|inputs|] == inputs
            && forall i :: |inputs| <= i < |r| ==> r[i] == BareInput(r[i].outpoint)
    decreases |us|
  {
    if us != [] {
      var next := Attached(inputs, us[0], index, sighash, accepts);
      AttachNext(inputs, us[0], index, sighash, accepts);
      AttachedBehind(next, us[1..], index + 1, sighash, accepts);
      var r := AttachedAll(next, us[1..], index + 1, sighash, accepts);
      assert r[..|inputs|] == r[..|next|][..|inputs|];
    }
  }

  /** Once an add is refused the index has run ahead: whatever the loop still adds gets no UTXO and no sighash. */
  lemma RefusalLeavesBare(inputs: seq<PsetInput>, u: Utxo, us: seq<Utxo>, sighash: Sighash, accepts: Acceptance)
    requires !accepts(inputs, u.Ref())
    ensures var r := AttachedAll(inputs, [u] + us, |inputs|, sighash, accepts);
            && |inputs| <= |r| <= |inputs| + |us| && r[..|inputs|] == inputs
            && forall i :: |inputs| <= i < |r| ==> r[i].witnessUtxo.None? && r[i].sighash.None?
  {
    assert ([u] + us)[1..] == us;
    AttachNext(inputs, u, |inputs|, sighash, accepts);
    AttachedBehind(inputs, us, |inputs| + 1, sighash, accepts);
  }

  /** Inputs whose witness UTXO, where they have one, is the output they spend. */
  ghost predicate OwnWitness(inputs: seq<PsetInput>, us: seq<Utxo>) {
    forall i :: 0 <= i < |inputs| && inputs[i].witnessUtxo.Some? ==>
      exists u :: u in us && inputs[i].outpoint == u.Ref() && inputs[i].witnessUtxo == Some(u.prevout)
  }

  /** Even with refused adds no input is ever given the UTXO of another one. */
  lemma {:induction false} AttachedKeepsOwnWitness(
      inputs: seq<PsetInput>, us: seq<Utxo>, index: nat, sighash: Sighash, accepts: Acceptance, all: seq<Utxo>)
    requires index >= |inputs| && OwnWitness(inputs, all) && forall u :: u in us ==> u in all
    ensures OwnWitness(AttachedAll(inputs, us, index, sighash, accepts), all)
    ensures |AttachedAll(inputs, us, index, sighash, accepts)| <= index + |us|
    decreases |us|
  {
    if us != [] {
      var next := Attached(inputs, us[0], index, sighash, accepts);
      AttachNext(inputs, us[0], index, sighash, accepts);
      assert us[0] in all;
      AttachedKeepsOwnWitness(next, us[1..], index + 1, sighash, accepts, all);
    }
  }

  // ---- What is paid ----

  /** The wallet's side of a fulfilling transaction. */
  datatype FulfillArgs = FulfillArgs(
    trade: seq<Utxo>, fees: seq<Utxo>,
    providerScript: bytes, tradeChangeScript: bytes, feeChangeScript: bytes,
    tradeChange: uint64, feeChange: uint64)

  /** Change too small for an output of its own is left to the fee. */
  predicate TradeChangeIsDust(o: Order, a: FulfillArgs) {
    o.output.asset == LBTC.hash && a.tradeChange < FEE_AMOUNT
  }

  function Fee(o: Order, a: FulfillArgs): (fee: uint64)
    ensures FEE_AMOUNT <= fee <= 1498
  {
    FEE_AMOUNT + (if TradeChangeIsDust(o, a) then a.tradeChange else 0)
    + (if a.feeChange < FEE_AMOUNT then a.feeChange else 0)
  }

  function TradeChangeOutputs(o: Order, a: FulfillArgs): seq<PsetOutput> {
    if a.tradeChange > 0 && !TradeChangeIsDust(o, a)
    then [PsetOutput(o.output.asset, a.tradeChange, a.tradeChangeScript)] else []
  }

  function FeeChangeOutputs(a: FulfillArgs): seq<PsetOutput> {
    if a.feeChange >= FEE_AMOUNT then [PsetOutput(LBTC.hash, a.feeChange, a.feeChangeScript)] else []
  }

  function FulfillOutputs(o: Order, a: FulfillArgs): (outs: seq<PsetOutput>)
    ensures |outs| >= 3
  {
    [PsetOutput(o.output.asset, o.output.amount, o.traderScript),
     PsetOutput(o.input.asset, o.input.amount, a.providerScript)]
    + TradeChangeOutputs(o, a) + FeeChangeOutputs(a)
    + [PsetOutput(LBTC.hash, Fee(o, a), [])]
  }

  /** Input 0 with one leaf attached per leaf of the tree that is the fulfill script. */
  function WithLeaves(i: PsetInput, leaves: seq<bytes>, fulfillScript: bytes): PsetInput
    decreases |leaves|
  {
    if leaves == [] then i
    else WithLeaves(if leaves[0] == fulfillScript then i.(tapLeaves := i.tapLeaves + [fulfillScript]) else i,
                    leaves[1..], fulfillScript)
  }

  /** The PSET, or None where the builder reports an error. */
  function FulfillPset(o: Order, funding: Utxo, payment: Payment, a: FulfillArgs, accepts: Acceptance): Option<Pset> {
    var inputs0 := Attached([], funding, 0, Default, accepts);
    if inputs0 == [] && o.fulfillScript in payment.leaves then None
    else
      var inputs1 := if inputs0 == [] then [] else [WithLeaves(inputs0[0], payment.leaves, o.fulfillScript)];
      var inputs2 := AttachedAll(inputs1, a.trade, 1, All, accepts);
      var inputs3 := AttachedAll(inputs2, a.fees, 1 + |a.trade|, All, accepts);
      Some(Pset(inputs3, FulfillOutputs(o, a)))
  }

  /** Attaches every proof of the tree whose script is the fulfill script; stops at the first error. */
  method AttachLeaves(updater: Updater, leaves: seq<bytes>, fulfillScript: bytes) returns (ok: bool)
    requires |updater.inputs| <= 1
    modifies updater`inputs
    ensures ok == (|old(updater.inputs)| == 1 || fulfillScript !in leaves)
    ensures updater.inputs == if old(updater.inputs) == [] then []
                              else [WithLeaves(old(updater.inputs)[0], leaves, fulfillScript)]
  {
    for i := 0 to |leaves|
      invariant |updater.inputs| == |old(updater.inputs)|
      invariant updater.inputs == [] ==> fulfillScript !in leaves[..i]
      invariant updater.inputs != [] ==>
        WithLeaves(updater.inputs[0], leaves[i..], fulfillScript)
        == WithLeaves(old(updater.inputs)[0], leaves, fulfillScript)
    {
      assert leaves[i..][1..] == leaves[i + 1..];
      assert leaves[..i + 1] == leaves[..i] + [leaves[i]];
      if leaves[i] == fulfillScript {
        ok := updater.AddInTapLeafScript(0, leaves[i]);
        if !ok {
          return false;
        }
      }
    }
    assert leaves[..|leaves|] == leaves;
    ok := true;
  }

  /** The maker's output first, the bot's next, then change that is no dust, and the fee. */
  method AddFulfillOutputs(updater: Updater, o: Order, a: FulfillArgs)
    modifies updater`outputs
    ensures updater.outputs == old(updater.outputs) + FulfillOutputs(o, a)
  {
    updater.AddOutputs([PsetOutput(o.output.asset, o.output.amount, o.traderScript),
                        PsetOutput(o.input.asset, o.input.amount, a.providerScript)]);
    var fee := FEE_AMOUNT;
    if a.tradeChange > 0 {
      if o.output.asset == LBTC.hash && a.tradeChange < FEE_AMOUNT {
        fee := fee + a.tradeChange;
      } else {
        updater.AddOutputs([PsetOutput(o.output.asset, a.tradeChange, a.tradeChangeScript)]);
      }
    }
    if a.feeChange > 0 {
      if a.feeChange < FEE_AMOUNT {
        fee := fee + a.feeChange;
      } else {
        updater.AddOutputs([PsetOutput(LBTC.hash, a.feeChange, a.feeChangeScript)]);
      }
    }
    updater.AddOutputs([PsetOutput(LBTC.hash, fee, [])]);
  }

  /** PrepareFulfillTransaction on a trade that has a funding output. */
  method BuildFulfill(o: Order, funding: Utxo, payment: Payment, a: FulfillArgs, accepts: Acceptance)
      returns (r: Option<Pset>)
    ensures r == FulfillPset(o, funding, payment, a, accepts)
  {
    hide WithLeaves, AttachedAll;
    var updater := new Updater(accepts);
    var inputIndex := 0;
    updater.Attach(funding, inputIndex, Default);
    var ok := AttachLeaves(updater, payment.leaves, o.fulfillScript);
    if !ok {
      return None;
    }
    inputIndex := inputIndex + 1;
    inputIndex := updater.AttachEach(a.trade, inputIndex, All);
    inputIndex := updater.AttachEach(a.fees, inputIndex, All);

    AddFulfillOutputs(updater, o, a);
    assert [] + FulfillOutputs(o, a) == FulfillOutputs(o, a);
    r := Some(Pset(updater.inputs, updater.outputs));
  }

  /** The input that spends the contract. */
  function ContractInput(o: Order, funding: Utxo, payment: Payment): PsetInput {
    WithLeaves(Signable(funding, Default), payment.leaves, o.fulfillScript)
  }

  /** The inputs of a transaction none of whose adds was refused. */
  function IntendedInputs(o: Order, funding: Utxo, payment: Payment, a: FulfillArgs): seq<PsetInput> {
    [ContractInput(o, funding, payment)] + SignableAll(a.trade, All) + SignableAll(a.fees, All)
  }

  lemma {:induction false} WithLeavesKeeps(i: PsetInput, leaves: seq<bytes>, fulfillScript: bytes)
    ensures WithLeaves(i, leaves, fulfillScript) == i.(tapLeaves := WithLeaves(i, leaves, fulfillScript).tapLeaves)
    decreases |leaves|
  {
    if leaves != [] {
      WithLeavesKeeps(if leaves[0] == fulfillScript then i.(tapLeaves := i.tapLeaves + [fulfillScript]) else i,
                      leaves[1..], fulfillScript);
    }
  }

  /**
   Input bookkeeping. The errors of the add calls are ignored, so the inputs are the funding output
   under the default sighash, then the trade and the fee UTXOs under SigHashAll, each with its own
   witness UTXO, if and only if as many inputs came out as went in.
   */
  lemma InputsInOrder(o: Order, funding: Utxo, payment: Payment, a: FulfillArgs, accepts: Acceptance)
    requires FulfillPset(o, funding, payment, a, accepts).Some?
    ensures var p := FulfillPset(o, funding, payment, a, accepts).value;
            |p.inputs| == 1 + |a.trade| + |a.fees| <==> p.inputs == IntendedInputs(o, funding, payment, a)
  {
    hide WithLeaves, FulfillOutputs, AttachedAll;
    AttachNext([], funding, 0, Default, accepts);
    var inputs0 := Attached([], funding, 0, Default, accepts);
    if inputs0 == [] {
      AttachedBehind([], a.trade, 1, All, accepts);
      AttachedLonger([], a.trade, a.fees, 1, accepts);
    } else {
      var inputs1 := [WithLeaves(inputs0[0], payment.leaves, o.fulfillScript)];
      assert inputs0[0] == Signable(funding, Default);
      var inputs2 := AttachedAll(inputs1, a.trade, 1, All, accepts);
      AttachedExactly(inputs1, a.trade, All, accepts);
      if AllAccepted(inputs1, a.trade, All, accepts) {
        AttachedExactly(inputs2, a.fees, All, accepts);
      } else {
        AttachedBehind(inputs2, a.fees, 1 + |a.trade|, All, accepts);
      }
    }
  }

  lemma AttachedLonger(inputs: seq<PsetInput>, us: seq<Utxo>, vs: seq<Utxo>, index: nat, accepts: Acceptance)
    requires index > |inputs|
    ensures |AttachedAll(AttachedAll(inputs, us, index, All, accepts), vs, index + |us|, All, accepts)|
         <= |inputs| + |us| + |vs|
  {
    AttachedBehind(inputs, us, index, All, accepts);
    AttachedBehind(AttachedAll(inputs, us, index, All, accepts), vs, index + |us|, All, accepts);
  }

  lemma FirstOwnsWitness(inputs: seq<PsetInput>, all: seq<Utxo>)
    requires |inputs| <= 1 && all != []
    requires inputs != [] ==> inputs[0].outpoint == all[0].Ref() && inputs[0].witnessUtxo == Some(all[0].prevout)
    ensures OwnWitness(inputs, all)
  {
  }

  /** Complete or not, no input is given the UTXO of another one. */
  lemma WitnessesAreOwn(o: Order, funding: Utxo, payment: Payment, a: FulfillArgs, accepts: Acceptance)
    requires FulfillPset(o, funding, payment, a, accepts).Some?
    ensures OwnWitness(FulfillPset(o, funding, payment, a, accepts).value.inputs, [funding] + a.trade + a.fees)
  {
    hide WithLeaves, FulfillOutputs, AttachedAll;
    var all := [funding] + a.trade + a.fees;
    AttachNext([], funding, 0, Default, accepts);
    WithLeavesKeeps(Signable(funding, Default), payment.leaves, o.fulfillScript);
    var inputs0 := Attached([], funding, 0, Default, accepts);
    var inputs1 := if inputs0 == [] then [] else [WithLeaves(inputs0[0], payment.leaves, o.fulfillScript)];
    FirstOwnsWitness(inputs1, all);
    assert forall i :: 0 <= i < |a.trade| ==> all[1 + i] == a.trade[i];
    assert forall i :: 0 <= i < |a.fees| ==> all[1 + |a.trade| + i] == a.fees[i];
    AttachedKeepsOwnWitness(inputs1, a.trade, 1, All, accepts, all);
    AttachedKeepsOwnWitness(AttachedAll(inputs1, a.trade, 1, All, accepts), a.fees, 1 + |a.trade|, All, accepts, all);
  }

  /** The builder fails only where it has a leaf to attach to an input that was refused. */
  lemma BuildFails(o: Order, funding: Utxo, payment: Payment, a: FulfillArgs, accepts: Acceptance)
    ensures FulfillPset(o, funding, payment, a, accepts).None? <==>
            !accepts([], Outpoint(funding.txid, funding.index % 0x1_0000_0000)) && o.fulfillScript in payment.leaves
  {
    hide AttachedAll, WithLeaves;
  }

  /** A leaf is attached once for every leaf of the tree that is the fulfill script. */
  lemma {:induction false} LeavesAttached(i: PsetInput, leaves: seq<bytes>, fulfillScript: bytes)
    ensures WithLeaves(i, leaves, fulfillScript).tapLeaves
         == i.tapLeaves + seq(multiset(leaves)[fulfillScript], _ => fulfillScript)
    decreases |leaves|
  {
    if leaves != [] {
      assert leaves == [leaves[0]] + leaves[1..];
      assert multiset(leaves) == multiset{leaves[0]} + multiset(leaves[1..]);
      LeavesAttached(if leaves[0] == fulfillScript then i.(tapLeaves := i.tapLeaves + [fulfillScript]) else i,
                     leaves[1..], fulfillScript);
      var n := multiset(leaves[1..])[fulfillScript];
      if leaves[0] == fulfillScript {
        assert [fulfillScript] + seq(n, _ => fulfillScript) == seq(n + 1, _ => fulfillScript);
      }
    }
  }

  /** An input with this outpoint, UTXO and sighash. */
  predicate IsFor(i: PsetInput, u: Utxo, sighash: Sighash) {
    && i.outpoint.txid == u.txid && i.outpoint.index == u.index % 0x1_0000_0000
    && i.witnessUtxo == Some(u.prevout) && i.sighash == Some(sighash)
  }

  predicate AreFor(inputs: seq<PsetInput>, us: seq<Utxo>, sighash: Sighash) {
    && |inputs| == |us|
    && (forall i :: 0 <= i < |us| ==> IsFor(inputs[i], us[i], sighash))
    && (forall x :: x in inputs ==> x.tapLeaves == [] && x.finalWitness.None?)
  }

  /**
   The inputs of a complete PSET, one by one: the contract's coin under the default sighash with its
   leaves, then the trade and the fee UTXOs in their order under SigHashAll, without leaves; none
   has a final witness yet.
   */
  lemma CompleteInputs(o: Order, funding: Utxo, payment: Payment, a: FulfillArgs, accepts: Acceptance)
    requires FulfillPset(o, funding, payment, a, accepts).Some?
    requires |FulfillPset(o, funding, payment, a, accepts).value.inputs| == 1 + |a.trade| + |a.fees|
    ensures var inputs, n := FulfillPset(o, funding, payment, a, accepts).value.inputs, 1 + |a.trade|;
            && IsFor(inputs[0], funding, Default) && inputs[0].finalWitness.None?
            && inputs[0].tapLeaves == seq(multiset(payment.leaves)[o.fulfillScript], _ => o.fulfillScript)
            && AreFor(inputs[1..n], a.trade, All) && AreFor(inputs[n..], a.fees, All)
  {
    hide FulfillPset, IsFor, AreFor, ContractInput;
    InputsInOrder(o, funding, payment, a, accepts);
    ContractInputIsFor(o, funding, payment);
    SignableAreFor(a.trade);
    SignableAreFor(a.fees);
    var inputs, n := IntendedInputs(o, funding, payment, a), 1 + |a.trade|;
    assert inputs[1..n] == SignableAll(a.trade, All) && inputs[n..] == SignableAll(a.fees, All);
  }

  lemma ContractInputIsFor(o: Order, funding: Utxo, payment: Payment)
    ensures var x := ContractInput(o, funding, payment);
            && IsFor(x, funding, Default) && x.finalWitness.None?
            && x.tapLeaves == seq(multiset(payment.leaves)[o.fulfillScript], _ => o.fulfillScript)
  {
    hide WithLeaves;
    WithLeavesKeeps(Signable(funding, Default), payment.leaves, o.fulfillScript);
    LeavesAttached(Signable(funding, Default), payment.leaves, o.fulfillScript);
  }

  lemma SignableAreFor(us: seq<Utxo>)
    ensures AreFor(SignableAll(us, All), us, All)
  {
  }

  // ---- What is spent when adds are refused ----

  function Outpoints(inputs: seq<PsetInput>): (r: seq<Outpoint>)
    ensures |r| == |inputs| && forall i :: 0 <= i < |inputs| ==> r[i] == inputs[i].outpoint
  {
    seq(|inputs|, i requires 0 <= i < |inputs| => inputs[i].outpoint)
  }

  function Refs(us: seq<Utxo>): (r: seq<Outpoint>)
    ensures |r| == |us| && forall i :: 0 <= i < |us| ==> r[i] == us[i].Ref()
  {
    seq(|us|, i requires 0 <= i < |us| => us[i].Ref())
  }

  /** The coins of an input loop that the library takes, or those that it refuses. */
  function Sifted(inputs: seq<PsetInput>, us: seq<Utxo>, index: nat, sighash: Sighash, accepts: Acceptance, taken: bool)
      : seq<Utxo>
    decreases |us|
  {
    if us == [] then []
    else
      var rest := Sifted(Attached(inputs, us[0], index, sighash, accepts), us[1..], index + 1, sighash, accepts, taken);
      if accepts(inputs, us[0].Ref()) == taken then [us[0]] + rest else rest
  }

  lemma AttachedOutpoints(inputs: seq<PsetInput>, u: Utxo, index: nat, sighash: Sighash, accepts: Acceptance)
    ensures Outpoints(Attached(inputs, u, index, sighash, accepts))
         == if accepts(inputs, u.Ref()) then Outpoints(inputs) + [u.Ref()] else Outpoints(inputs)
  {
  }

  lemma RefsNext(seen: seq<Outpoint>, u: Utxo, us: seq<Utxo>)
    ensures seen + Refs([u] + us) == seen + [u.Ref()] + Refs(us)
  {
  }

  /** What an input loop adds are the outpoints of the coins taken, whatever the index. */
  lemma {:induction false} AttachedSpends(inputs: seq<PsetInput>, us: seq<Utxo>, index: nat, sighash: Sighash,
                                          accepts: Acceptance)
    ensures var taken := Sifted(inputs, us, index, sighash, accepts, true);
            var refused := Sifted(inputs, us, index, sighash, accepts, false);
            && Outpoints(AttachedAll(inputs, us, index, sighash, accepts)) == Outpoints(inputs) + Refs(taken)
            && |taken| + |refused| == |us|
    decreases |us|
  {
    hide Attached, Outpoints, Refs;
    if us == [] {
      assert Refs([]) == [] && Outpoints(inputs) + [] == Outpoints(inputs);
    } else {
      AttachedOutpoints(inputs, us[0], index, sighash, accepts);
      var next := Attached(inputs, us[0], index, sighash, accepts);
      AttachedSpends(next, us[1..], index + 1, sighash, accepts);
      RefsNext(Outpoints(inputs), us[0], Sifted(next, us[1..], index + 1, sighash, accepts, true));
    }
  }

  /** The trade and fee coins that the library takes behind the contract's input, or those it refuses. */
  function SiftedCoins(o: Order, funding: Utxo, payment: Payment, a: FulfillArgs, accepts: Acceptance, taken: bool)
      : seq<Utxo>
  {
    var inputs1 := [ContractInput(o, funding, payment)];
    Sifted(inputs1, a.trade, 1, All, accepts, taken)
    + Sifted(AttachedAll(inputs1, a.trade, 1, All, accepts), a.fees, 1 + |a.trade|, All, accepts, taken)
  }

  /** The inputs are the contract's coin, always, and the coins that were not refused. */
  lemma PsetSpends(o: Order, funding: Utxo, payment: Payment, a: FulfillArgs, accepts: Acceptance)
    requires FulfillPset(o, funding, payment, a, accepts).Some? && o.fulfillScript in payment.leaves
    ensures var p := FulfillPset(o, funding, payment, a, accepts).value;
            var taken := SiftedCoins(o, funding, payment, a, accepts, true);
            var refused := SiftedCoins(o, funding, payment, a, accepts, false);
            && Outpoints(p.inputs) == [funding.Ref()] + Refs(taken)
            && |taken| + |refused| == |a.trade| + |a.fees|
  {
    hide WithLeaves, FulfillOutputs, AttachedAll, Sifted;
    AttachNext([], funding, 0, Default, accepts);
    WithLeavesKeeps(Signable(funding, Default), payment.leaves, o.fulfillScript);
    var inputs1 := [ContractInput(o, funding, payment)];
    var inputs2 := AttachedAll(inputs1, a.trade, 1, All, accepts);
    AttachedSpends(inputs1, a.trade, 1, All, accepts);
    AttachedSpends(inputs2, a.fees, 1 + |a.trade|, All, accepts);
    assert Outpoints(inputs1) == [funding.Ref()];
    var x := Sifted(inputs1, a.trade, 1, All, accepts, true);
    var y := Sifted(inputs2, a.fees, 1 + |a.trade|, All, accepts, true);
    assert [funding.Ref()] + Refs(x) + Refs(y) == [funding.Ref()] + Refs(x + y);
  }

  // ---- A library that refuses duplicates ----

  ghost predicate Distinct<T>(s: seq<T>) {
    forall i, j :: 0 <= i < j < |s| ==> s[i] != s[j]
  }

  ghost predicate RefusesDuplicates(accepts: Acceptance) {
    forall inputs, o :: accepts(inputs, o) <==> o !in Outpoints(inputs)
  }

  lemma {:induction false} AcceptedIffDistinct(inputs: seq<PsetInput>, us: seq<Utxo>, sighash: Sighash,
                                               accepts: Acceptance)
    requires RefusesDuplicates(accepts) && Distinct(Outpoints(inputs))
    ensures AllAccepted(inputs, us, sighash, accepts) <==> Distinct(Outpoints(inputs) + Refs(us))
    decreases |us|
  {
    var was := Outpoints(inputs);
    if us == [] {
      assert was + Refs(us) == was;
      return;
    }
    var u := us[0].Ref();
    var next := inputs + [Signable(us[0], sighash)];
    assert Outpoints(next) == was + [u];
    assert was + Refs(us) == was + [u] + Refs(us[1..]);
    if accepts(inputs, u) {
      AcceptedIffDistinct(next, us[1..], sighash, accepts);
    } else {
      var i :| 0 <= i < |was| && was[i] == u;
      assert (was + Refs(us))[i] == (was + Refs(us))[|was|];
    }
  }

  lemma PrefixDistinct<T>(a: seq<T>, b: seq<T>)
    requires Distinct(a + b)
    ensures Distinct(a)
  {
    assert forall i :: 0 <= i < |a| ==> (a + b)[i] == a[i];
  }

  /** If duplicates are all the library refuses, every input arrives exactly when no outpoint is named twice. */
  lemma CompleteIffDistinct(o: Order, funding: Utxo, payment: Payment, a: FulfillArgs, accepts: Acceptance)
    requires RefusesDuplicates(accepts)
    ensures var r := FulfillPset(o, funding, payment, a, accepts);
            && r.Some?
            && (|r.value.inputs| == 1 + |a.trade| + |a.fees| <==>
                Distinct([funding.Ref()] + Refs(a.trade) + Refs(a.fees)))
  {
    hide WithLeaves, FulfillOutputs, AttachedAll, Distinct;
    assert Outpoints([]) == [];
    AttachNext([], funding, 0, Default, accepts);
    var head := ContractInput(o, funding, payment);
    WithLeavesKeeps(Signable(funding, Default), payment.leaves, o.fulfillScript);
    TwoPhases(head, a.trade, a.fees, accepts);
  }

  lemma SignableOutpoints(inputs: seq<PsetInput>, us: seq<Utxo>, sighash: Sighash)
    ensures Outpoints(inputs + SignableAll(us, sighash)) == Outpoints(inputs) + Refs(us)
  {
  }

  lemma IntendedOutpoints(o: Order, funding: Utxo, payment: Payment, a: FulfillArgs)
    ensures Outpoints(IntendedInputs(o, funding, payment, a)) == Refs([funding] + a.trade + a.fees)
  {
    hide SignableAll, WithLeaves;
    WithLeavesKeeps(Signable(funding, Default), payment.leaves, o.fulfillScript);
    var first := [ContractInput(o, funding, payment)];
    SignableOutpoints(first, a.trade, All);
    SignableOutpoints(first + SignableAll(a.trade, All), a.fees, All);
    assert Refs([funding] + a.trade + a.fees) == Outpoints(first) + Refs(a.trade) + Refs(a.fees);
  }

  lemma TwoPhases(head: PsetInput, us: seq<Utxo>, vs: seq<Utxo>, accepts: Acceptance)
    requires RefusesDuplicates(accepts)
    ensures var r := AttachedAll(AttachedAll([head], us, 1, All, accepts), vs, 1 + |us|, All, accepts);
            |r| == 1 + |us| + |vs| <==> Distinct([head.outpoint] + Refs(us) + Refs(vs))
  {
    hide AttachedAll, RefusesDuplicates, AllAccepted, SignableAll;
    var inputs1 := [head];
    assert Outpoints(inputs1) == [head.outpoint];
    var inputs2 := AttachedAll(inputs1, us, 1, All, accepts);
    AttachedExactly(inputs1, us, All, accepts);
    AcceptedIffDistinct(inputs1, us, All, accepts);
    if AllAccepted(inputs1, us, All, accepts) {
      SignableOutpoints(inputs1, us, All);
      AttachedExactly(inputs2, vs, All, accepts);
      AcceptedIffDistinct(inputs2, vs, All, accepts);
    } else {
      AttachedBehind(inputs2, vs, 1 + |us|, All, accepts);
      if Distinct([head.outpoint] + Refs(us) + Refs(vs)) {
        PrefixDistinct([head.outpoint] + Refs(us), Refs(vs));
      }
    }
  }

  /** The coins whose outpoint is among those seen, or that of a coin before. */
  function Repeats(seen: seq<Outpoint>, us: seq<Utxo>): seq<Utxo>
    decreases |us|
  {
    if us == [] then []
    else
      var rest := Repeats(seen + [us[0].Ref()], us[1..]);
      if us[0].Ref() in seen then [us[0]] + rest else rest
  }

  lemma {:induction false} RepeatsAppend(seen: seq<Outpoint>, us: seq<Utxo>, vs: seq<Utxo>)
    ensures Repeats(seen, us + vs) == Repeats(seen, us) + Repeats(seen + Refs(us), vs)
    decreases |us|
  {
    hide Refs;
    if us == [] {
      assert us + vs == vs;
      assert Refs(us) == [] && seen + [] == seen;
    } else {
      RepeatsAppend(seen + [us[0].Ref()], us[1..], vs);
      RefsNext(seen, us[0], us[1..]);
      assert us == [us[0]] + us[1..];
      assert (us + vs)[1..] == us[1..] + vs;
    }
  }

  /** The same outpoints, however often. */
  ghost predicate SameNames(a: seq<Outpoint>, b: seq<Outpoint>) {
    forall x :: x in a <==> x in b
  }

  lemma NextNames(inputs: seq<PsetInput>, u: Utxo, index: nat, sighash: Sighash, accepts: Acceptance,
                  seen: seq<Outpoint>)
    requires RefusesDuplicates(accepts) && SameNames(seen, Outpoints(inputs))
    ensures SameNames(seen + [u.Ref()], Outpoints(Attached(inputs, u, index, sighash, accepts)))
    ensures accepts(inputs, u.Ref()) <==> u.Ref() !in seen
  {
    AttachedOutpoints(inputs, u, index, sighash, accepts);
  }

  lemma {:induction false} RefusedIsRepeated(
      inputs: seq<PsetInput>, us: seq<Utxo>, index: nat, sighash: Sighash, accepts: Acceptance, seen: seq<Outpoint>)
    requires RefusesDuplicates(accepts) && SameNames(seen, Outpoints(inputs))
    ensures Sifted(inputs, us, index, sighash, accepts, false) == Repeats(seen, us)
    ensures SameNames(seen + Refs(us), Outpoints(AttachedAll(inputs, us, index, sighash, accepts)))
    decreases |us|
  {
    hide RefusesDuplicates, SameNames, Attached, Refs, Outpoints;
    if us == [] {
      assert Refs(us) == [] && seen + [] == seen;
    } else {
      NextNames(inputs, us[0], index, sighash, accepts, seen);
      RefusedIsRepeated(Attached(inputs, us[0], index, sighash, accepts), us[1..], index + 1, sighash, accepts,
                        seen + [us[0].Ref()]);
      RefsNext(seen, us[0], us[1..]);
      assert us == [us[0]] + us[1..];
    }
  }

  /** The library refuses the coins that were named before, and no others. */
  lemma RefusedCoinsAreRepeats(o: Order, funding: Utxo, payment: Payment, a: FulfillArgs, accepts: Acceptance)
    requires RefusesDuplicates(accepts)
    ensures SiftedCoins(o, funding, payment, a, accepts, false) == Repeats([funding.Ref()], a.trade + a.fees)
  {
    hide WithLeaves, AttachedAll, Sifted, Repeats, RefusesDuplicates;
    WithLeavesKeeps(Signable(funding, Default), payment.leaves, o.fulfillScript);
    var inputs1, seen := [ContractInput(o, funding, payment)], [funding.Ref()];
    assert Outpoints(inputs1) == seen;
    RefusedIsRepeated(inputs1, a.trade, 1, All, accepts, seen);
    RefusedIsRepeated(AttachedAll(inputs1, a.trade, 1, All, accepts), a.fees, 1 + |a.trade|, All, accepts,
                      seen + Refs(a.trade));
    RepeatsAppend(seen, a.trade, a.fees);
  }
}
