/**
 What a fulfilling transaction achieves: it balances asset by asset, it creates no dust, and it
 satisfies the very contract that the order was compiled to.
 */
module Settlement {
  import opened Bytes
  import opened Scripts
  import opened Covenant
  import opened Orders
  import opened Trades

  /** An output of the final transaction is unblinded: explicit asset, explicit amount. */
  function ToTxOut(p: PsetOutput): TxOut {
    TxOut(p.script, AssetTag(p.asset), Explicit(p.amount))
  }

  function AssetTag(h: AssetHash): Commitment {
    Commitment(1, LittleEndian(h, 32))
  }

  function ToTxOuts(ps: seq<PsetOutput>): (outs: seq<TxOut>)
    ensures |outs| == |ps| && forall i :: 0 <= i < |ps| ==> outs[i] == ToTxOut(ps[i])
  {
    seq(|ps|, i requires 0 <= i < |ps| => ToTxOut(ps[i]))
  }

  // ---- Balance ----

  /** How much of an asset an output carries in the open; blinded amounts are not counted. */
  function Carried(out: TxOut, h: AssetHash): nat {
    if out.asset == AssetTag(h) && out.value.Explicit? then out.value.amount else 0
  }

  function Total(outs: seq<TxOut>, h: AssetHash): nat {
    if outs == [] then 0 else Carried(outs[0], h) + Total(outs[1..], h)
  }

  function Prevouts(us: seq<Utxo>): seq<TxOut> {
    seq(|us|, i requires 0 <= i < |us| => us[i].prevout)
  }

  lemma {:induction false} TotalAppend(a: seq<TxOut>, b: seq<TxOut>, h: AssetHash)
    ensures Total(a + b, h) == Total(a, h) + Total(b, h)
    decreases |a|
  {
    if a == [] {
      assert a + b == b;
    } else {
      assert (a + b)[1..] == a[1..] + b;
      TotalAppend(a[1..], b, h);
    }
  }

  /** What one PSET output carries of an asset. */
  function Paid(p: PsetOutput, h: AssetHash): nat {
    if p.asset == h then p.amount else 0
  }

  function PaidAll(ps: seq<PsetOutput>, h: AssetHash): nat {
    if ps == [] then 0 else Paid(ps[0], h) + PaidAll(ps[1..], h)
  }

  lemma {:induction false} TotalOfOutputs(ps: seq<PsetOutput>, h: AssetHash)
    ensures Total(ToTxOuts(ps), h) == PaidAll(ps, h)
    decreases |ps|
  {
    if ps != [] {
      AssetBytesDiffer(ps[0].asset, h);
      assert ToTxOuts(ps)[1..] == ToTxOuts(ps[1..]);
      TotalOfOutputs(ps[1..], h);
    }
  }

  lemma {:induction false} PaidAppend(a: seq<PsetOutput>, b: seq<PsetOutput>, h: AssetHash)
    ensures PaidAll(a + b, h) == PaidAll(a, h) + PaidAll(b, h)
    decreases |a|
  {
    if a == [] {
      assert a + b == b;
    } else {
      assert (a + b)[1..] == a[1..] + b;
      PaidAppend(a[1..], b, h);
    }
  }

  lemma PaidOne(p: PsetOutput, h: AssetHash)
    ensures PaidAll([p], h) == Paid(p, h)
  {
    assert PaidAll([], h) == 0;
  }

  /** Coin selection: of the asset asked for exactly the target and the change, and nothing else. */
  ghost predicate Selected(us: seq<Utxo>, h: AssetHash, target: nat, change: nat) {
    forall x :: Total(Prevouts(us), x) == if x == h then target + change else 0
  }

  /** What the outputs pay of an asset: both sides of the trade, the change and the network fee. */
  lemma OutputsPay(o: Order, a: FulfillArgs, h: AssetHash)
    ensures PaidAll(FulfillOutputs(o, a), h)
         == (if o.output.asset == h then o.output.amount + a.tradeChange else 0)
            + (if o.input.asset == h then o.input.amount else 0)
            + (if LBTC.hash == h then FEE_AMOUNT + a.feeChange else 0)
  {
    var maker := PsetOutput(o.output.asset, o.output.amount, o.traderScript);
    var provider := PsetOutput(o.input.asset, o.input.amount, a.providerScript);
    var fee := PsetOutput(LBTC.hash, Fee(o, a), []);
    var c1, c2 := TradeChangeOutputs(o, a), FeeChangeOutputs(a);
    assert [maker, provider] == [maker] + [provider];
    PaidAppend([maker, provider] + c1 + c2, [fee], h);
    PaidAppend([maker, provider] + c1, c2, h);
    PaidAppend([maker, provider], c1, h);
    PaidAppend([maker], [provider], h);
    PaidOne(maker, h);
    PaidOne(provider, h);
    PaidOne(fee, h);
    if c1 != [] {
      PaidOne(c1[0], h);
    }
    if c2 != [] {
      PaidOne(c2[0], h);
    }
  }

  function TotalIn(funding: Utxo, a: FulfillArgs, h: AssetHash): nat {
    Total([funding.prevout] + Prevouts(a.trade) + Prevouts(a.fees), h)
  }

  function TotalOut(o: Order, a: FulfillArgs, h: AssetHash): nat {
    Total(ToTxOuts(FulfillOutputs(o, a)), h)
  }

  /** The wallet selected what ExecuteTrade asks it for. */
  ghost predicate WalletSelects(o: Order, a: FulfillArgs) {
    && Selected(a.trade, o.output.asset, o.output.amount, a.tradeChange)
    && Selected(a.fees, LBTC.hash, FEE_AMOUNT, a.feeChange)
  }

  /**
   Conservation. When the wallet selects what it is asked for, inputs and outputs differ, asset by
   asset, by exactly what the funding output holds beyond the order's input side; nothing is
   assumed about which of the assets are the same, or that the funding output is of the right one.
   */
  lemma Conservation(o: Order, funding: Utxo, a: FulfillArgs, h: AssetHash)
    requires WalletSelects(o, a)
    ensures TotalIn(funding, a, h) - TotalOut(o, a, h)
         == Carried(funding.prevout, h) - (if h == o.input.asset then o.input.amount else 0)
  {
    hide FulfillOutputs, Carried;
    TotalAppend([funding.prevout] + Prevouts(a.trade), Prevouts(a.fees), h);
    TotalAppend([funding.prevout], Prevouts(a.trade), h);
    assert Total([funding.prevout], h) == Carried(funding.prevout, h) + Total([], h);
    TotalOfOutputs(FulfillOutputs(o, a), h);
    OutputsPay(o, a, h);
  }

  // ---- The same of the PSET ----

  function CarriedBy(i: PsetInput, h: AssetHash): nat {
    if i.witnessUtxo.Some? then Carried(i.witnessUtxo.value, h) else 0
  }

  /** What the witness UTXOs of the inputs bring in. */
  function WitnessTotal(inputs: seq<PsetInput>, h: AssetHash): nat {
    if inputs == [] then 0 else CarriedBy(inputs[0], h) + WitnessTotal(inputs[1..], h)
  }

  lemma {:induction false} WitnessAppend(a: seq<PsetInput>, b: seq<PsetInput>, h: AssetHash)
    ensures WitnessTotal(a + b, h) == WitnessTotal(a, h) + WitnessTotal(b, h)
    decreases |a|
  {
    if a == [] {
      assert a + b == b;
    } else {
      assert (a + b)[1..] == a[1..] + b;
      WitnessAppend(a[1..], b, h);
    }
  }

  lemma {:induction false} WitnessOfSignable(us: seq<Utxo>, sighash: Sighash, h: AssetHash)
    ensures WitnessTotal(SignableAll(us, sighash), h) == Total(Prevouts(us), h)
    decreases |us|
  {
    if us != [] {
      assert SignableAll(us, sighash)[1..] == SignableAll(us[1..], sighash);
      assert Prevouts(us)[1..] == Prevouts(us[1..]);
      WitnessOfSignable(us[1..], sighash, h);
    }
  }

  lemma WitnessOfIntended(o: Order, funding: Utxo, payment: Payment, a: FulfillArgs, h: AssetHash)
    ensures WitnessTotal(IntendedInputs(o, funding, payment, a), h) == TotalIn(funding, a, h)
  {
    hide Carried, WithLeaves, SignableAll, Prevouts;
    var first := WithLeaves(Signable(funding, Default), payment.leaves, o.fulfillScript);
    WithLeavesKeeps(Signable(funding, Default), payment.leaves, o.fulfillScript);
    WitnessAppend([first] + SignableAll(a.trade, All), SignableAll(a.fees, All), h);
    WitnessAppend([first], SignableAll(a.trade, All), h);
    WitnessOfSignable(a.trade, All, h);
    WitnessOfSignable(a.fees, All, h);
    TotalAppend([funding.prevout] + Prevouts(a.trade), Prevouts(a.fees), h);
    TotalAppend([funding.prevout], Prevouts(a.trade), h);
    assert WitnessTotal([first], h) == CarriedBy(first, h) + WitnessTotal([], h);
    assert Total([funding.prevout], h) == Carried(funding.prevout, h) + Total([], h);
  }

  /** A PSET that none of its inputs was refused entry to conserves every asset up to the funding surplus. */
  lemma PsetConserves(o: Order, funding: Utxo, payment: Payment, a: FulfillArgs, accepts: Acceptance, h: AssetHash)
    requires WalletSelects(o, a) && FulfillPset(o, funding, payment, a, accepts).Some?
    requires |FulfillPset(o, funding, payment, a, accepts).value.inputs| == 1 + |a.trade| + |a.fees|
    ensures var p := FulfillPset(o, funding, payment, a, accepts).value;
            WitnessTotal(p.inputs, h) - Total(ToTxOuts(p.outputs), h)
            == Carried(funding.prevout, h) - (if h == o.input.asset then o.input.amount else 0)
  {
    hide Carried, WitnessTotal, Total, IntendedInputs, WalletSelects, FulfillOutputs;
    InputsInOrder(o, funding, payment, a, accepts);
    WitnessOfIntended(o, funding, payment, a, h);
    Conservation(o, funding, a, h);
  }

  // ---- What the inputs spend on the chain ----

  /** The output each outpoint refers to. */
  type Chain = Outpoint -> TxOut

  function Resolved(os: seq<Outpoint>, chain: Chain): seq<TxOut> {
    seq(|os|, i requires 0 <= i < |os| => chain(os[i]))
  }

  /** Explorer and wallet report coins as they are on the chain. */
  ghost predicate Reported(us: seq<Utxo>, chain: Chain) {
    forall u :: u in us ==> chain(u.Ref()) == u.prevout
  }

  /** The outputs pay, of every asset, what the outputs spent hold of it. */
  ghost predicate Balanced(p: Pset, chain: Chain) {
    forall h :: Total(Resolved(Outpoints(p.inputs), chain), h) == Total(ToTxOuts(p.outputs), h)
  }

  /** The funding output is the order's input side and whatever is missing, no more and no less. */
  ghost predicate Covers(o: Order, funding: Utxo, missing: seq<Utxo>) {
    forall h :: Carried(funding.prevout, h)
             == (if h == o.input.asset then o.input.amount else 0) + Total(Prevouts(missing), h)
  }

  /** The funding output is the order's input side, no more and no less, and nothing else. */
  ghost predicate FullyFunded(o: Order, funding: Utxo) {
    forall h :: Carried(funding.prevout, h) == if h == o.input.asset then o.input.amount else 0
  }

  lemma TotalNext(u: Utxo, us: seq<Utxo>, h: AssetHash)
    ensures Total(Prevouts([u] + us), h) == Carried(u.prevout, h) + Total(Prevouts(us), h)
  {
    assert Prevouts([u] + us)[1..] == Prevouts(us);
  }

  /** Taken and refused coins are together the coins of the loop. */
  lemma {:induction false} SiftedTotals(
      inputs: seq<PsetInput>, us: seq<Utxo>, index: nat, sighash: Sighash, accepts: Acceptance, h: AssetHash)
    ensures Total(Prevouts(Sifted(inputs, us, index, sighash, accepts, true)), h)
            + Total(Prevouts(Sifted(inputs, us, index, sighash, accepts, false)), h)
            == Total(Prevouts(us), h)
    decreases |us|
  {
    hide Attached, Total, Carried, Prevouts;
    if us == [] {
      assert Total(Prevouts([]), h) == 0 by {
        NothingIsLeft(h);
      }
    } else {
      var next := Attached(inputs, us[0], index, sighash, accepts);
      SiftedTotals(next, us[1..], index + 1, sighash, accepts, h);
      TotalNext(us[0], Sifted(next, us[1..], index + 1, sighash, accepts, accepts(inputs, us[0].Ref())), h);
      TotalNext(us[0], us[1..], h);
      assert us == [us[0]] + us[1..];
    }
  }

  lemma NothingIsLeft(h: AssetHash)
    ensures Total(Prevouts([]), h) == 0
  {
  }

  lemma PrevoutsAppend(us: seq<Utxo>, vs: seq<Utxo>, h: AssetHash)
    ensures Total(Prevouts(us + vs), h) == Total(Prevouts(us), h) + Total(Prevouts(vs), h)
  {
    TotalAppend(Prevouts(us), Prevouts(vs), h);
    assert Prevouts(us + vs) == Prevouts(us) + Prevouts(vs);
  }

  lemma SiftedCoinsTotals(o: Order, funding: Utxo, payment: Payment, a: FulfillArgs, accepts: Acceptance, h: AssetHash)
    ensures Total(Prevouts(SiftedCoins(o, funding, payment, a, accepts, true)), h)
            + Total(Prevouts(SiftedCoins(o, funding, payment, a, accepts, false)), h)
            == Total(Prevouts(a.trade), h) + Total(Prevouts(a.fees), h)
  {
    hide Sifted, AttachedAll, Total, Prevouts, Carried, ContractInput;
    var inputs1 := [ContractInput(o, funding, payment)];
    var inputs2 := AttachedAll(inputs1, a.trade, 1, All, accepts);
    SiftedTotals(inputs1, a.trade, 1, All, accepts, h);
    SiftedTotals(inputs2, a.fees, 1 + |a.trade|, All, accepts, h);
    PrevoutsAppend(Sifted(inputs1, a.trade, 1, All, accepts, true),
                   Sifted(inputs2, a.fees, 1 + |a.trade|, All, accepts, true), h);
    PrevoutsAppend(Sifted(inputs1, a.trade, 1, All, accepts, false),
                   Sifted(inputs2, a.fees, 1 + |a.trade|, All, accepts, false), h);
  }

  /** Sifting drops coins and adds none. */
  lemma {:induction false} SiftedIsPart(
      inputs: seq<PsetInput>, us: seq<Utxo>, index: nat, sighash: Sighash, accepts: Acceptance, taken: bool, u: Utxo)
    requires u in Sifted(inputs, us, index, sighash, accepts, taken)
    ensures u in us
    decreases |us|
  {
    hide Attached;
    var next := Attached(inputs, us[0], index, sighash, accepts);
    if u in Sifted(next, us[1..], index + 1, sighash, accepts, taken) {
      SiftedIsPart(next, us[1..], index + 1, sighash, accepts, taken, u);
    }
  }

  /** What the inputs spend is what the coins that got in hold. */
  lemma SpentIsTaken(o: Order, funding: Utxo, payment: Payment, a: FulfillArgs, accepts: Acceptance, chain: Chain)
    requires FulfillPset(o, funding, payment, a, accepts).Some? && o.fulfillScript in payment.leaves
    requires Reported([funding] + a.trade + a.fees, chain)
    ensures Resolved(Outpoints(FulfillPset(o, funding, payment, a, accepts).value.inputs), chain)
         == Prevouts([funding] + SiftedCoins(o, funding, payment, a, accepts, true))
  {
    hide Sifted, AttachedAll, ContractInput, FulfillPset;
    PsetSpends(o, funding, payment, a, accepts);
    var taken := SiftedCoins(o, funding, payment, a, accepts, true);
    forall u | u in taken
      ensures chain(u.Ref()) == u.prevout
    {
      var inputs1 := [ContractInput(o, funding, payment)];
      var inputs2 := AttachedAll(inputs1, a.trade, 1, All, accepts);
      if u in Sifted(inputs1, a.trade, 1, All, accepts, true) {
        SiftedIsPart(inputs1, a.trade, 1, All, accepts, true, u);
      } else {
        SiftedIsPart(inputs2, a.fees, 1 + |a.trade|, All, accepts, true, u);
      }
    }
    hide SiftedCoins;
    assert funding in [funding] + a.trade + a.fees;
    assert [funding.Ref()] + Refs(taken) == Refs([funding] + taken);
  }

  /**
   Conservation on the chain, whatever the library refuses: for every asset, what the inputs spend
   and the outputs pay differ by what the funding output holds beyond the order's input side, less
   what the refused coins would have brought in.
   */
  lemma RefusedIsMissing(o: Order, funding: Utxo, payment: Payment, a: FulfillArgs, accepts: Acceptance,
                         chain: Chain, h: AssetHash)
    requires WalletSelects(o, a) && Reported([funding] + a.trade + a.fees, chain)
    requires FulfillPset(o, funding, payment, a, accepts).Some? && o.fulfillScript in payment.leaves
    ensures var p := FulfillPset(o, funding, payment, a, accepts).value;
            Total(Resolved(Outpoints(p.inputs), chain), h) - Total(ToTxOuts(p.outputs), h)
            == Carried(funding.prevout, h) - (if h == o.input.asset then o.input.amount else 0)
               - Total(Prevouts(SiftedCoins(o, funding, payment, a, accepts, false)), h)
  {
    hide Carried, Total, SiftedCoins, Resolved, WalletSelects, Reported, Prevouts;
    SpentIsTaken(o, funding, payment, a, accepts, chain);
    SiftedCoinsTotals(o, funding, payment, a, accepts, h);
    TotalNext(funding, SiftedCoins(o, funding, payment, a, accepts, true), h);
    Conservation(o, funding, a, h);
    OfferedTotal(funding, a, h);
    hide FulfillOutputs, AttachedAll;
  }

  lemma OfferedTotal(funding: Utxo, a: FulfillArgs, h: AssetHash)
    ensures TotalIn(funding, a, h)
         == Carried(funding.prevout, h) + Total(Prevouts(a.trade), h) + Total(Prevouts(a.fees), h)
  {
    hide Carried, Prevouts;
    TotalAppend([funding.prevout] + Prevouts(a.trade), Prevouts(a.fees), h);
    TotalAppend([funding.prevout], Prevouts(a.trade), h);
    assert Total([funding.prevout], h) == Carried(funding.prevout, h) + Total([], h);
  }

  /**
   A transaction balances exactly when the contract holds the order's input side and, of every
   asset, what the refused coins were to bring in.
   */
  lemma BalancedIffCovered(o: Order, funding: Utxo, payment: Payment, a: FulfillArgs, accepts: Acceptance, chain: Chain)
    requires WalletSelects(o, a) && Reported([funding] + a.trade + a.fees, chain)
    requires FulfillPset(o, funding, payment, a, accepts).Some? && o.fulfillScript in payment.leaves
    ensures Balanced(FulfillPset(o, funding, payment, a, accepts).value, chain) <==>
            Covers(o, funding, SiftedCoins(o, funding, payment, a, accepts, false))
  {
    hide Carried, Total, SiftedCoins, Resolved, WalletSelects, Reported, Prevouts, FulfillPset, ToTxOuts, Outpoints;
    var p := FulfillPset(o, funding, payment, a, accepts).value;
    var missing := SiftedCoins(o, funding, payment, a, accepts, false);
    forall h: AssetHash
      ensures Total(Resolved(Outpoints(p.inputs), chain), h) == Total(ToTxOuts(p.outputs), h) <==>
              Carried(funding.prevout, h)
              == (if h == o.input.asset then o.input.amount else 0) + Total(Prevouts(missing), h)
    {
      RefusedIsMissing(o, funding, payment, a, accepts, chain, h);
    }
  }

  lemma NothingMissing(o: Order, funding: Utxo)
    ensures Covers(o, funding, []) <==> FullyFunded(o, funding)
  {
    hide Carried, Total;
    forall h: AssetHash
      ensures Total(Prevouts([]), h) == 0
    {
      NothingIsLeft(h);
    }
  }

  /** If every input got in, the contract must be funded to the unit; of its inputs nothing else is asked. */
  lemma BalancedIffFullyFunded(o: Order, funding: Utxo, payment: Payment, a: FulfillArgs, accepts: Acceptance,
                               chain: Chain)
    requires WalletSelects(o, a) && Reported([funding] + a.trade + a.fees, chain)
    requires FulfillPset(o, funding, payment, a, accepts).Some? && o.fulfillScript in payment.leaves
    requires |FulfillPset(o, funding, payment, a, accepts).value.inputs| == 1 + |a.trade| + |a.fees|
    ensures Balanced(FulfillPset(o, funding, payment, a, accepts).value, chain) <==> FullyFunded(o, funding)
  {
    hide Balanced, Covers, FullyFunded, SiftedCoins, WalletSelects, Reported, FulfillPset;
    BalancedIffCovered(o, funding, payment, a, accepts, chain);
    PsetSpends(o, funding, payment, a, accepts);
    assert SiftedCoins(o, funding, payment, a, accepts, false) == [];
    NothingMissing(o, funding);
  }

  /**
   If duplicates are all the library refuses, what is missing are the coins named before: with
   distinct outpoints the contract must be funded to the unit, otherwise it must hold the repeats.
   */
  lemma BalancedIffCoversRepeats(o: Order, funding: Utxo, payment: Payment, a: FulfillArgs, accepts: Acceptance,
                                 chain: Chain)
    requires WalletSelects(o, a) && Reported([funding] + a.trade + a.fees, chain)
    requires RefusesDuplicates(accepts) && o.fulfillScript in payment.leaves
    ensures var r := FulfillPset(o, funding, payment, a, accepts);
            r.Some? && (Balanced(r.value, chain) <==> Covers(o, funding, Repeats([funding.Ref()], a.trade + a.fees)))
  {
    hide Balanced, Covers, SiftedCoins, WalletSelects, Reported, FulfillPset, RefusesDuplicates, Repeats;
    CompleteIffDistinct(o, funding, payment, a, accepts);
    BalancedIffCovered(o, funding, payment, a, accepts, chain);
    RefusedCoinsAreRepeats(o, funding, payment, a, accepts);
  }

  /**
   Funded to the unit and yet unbalanced: the wallet names one L-BTC coin for the trade and for the
   fees, each time with the right change, and the library refuses it the second time.
   */
  lemma CoinNamedTwice(o: Order, funding: Utxo, payment: Payment, a: FulfillArgs, accepts: Acceptance, u: Utxo)
    requires RefusesDuplicates(accepts) && u.Ref() != funding.Ref()
    requires o.input.asset == USDT.hash && o.output.asset == LBTC.hash && FullyFunded(o, funding)
    requires a.trade == a.fees == [u] && WalletSelects(o, a)
    ensures FulfillPset(o, funding, payment, a, accepts).Some?
    ensures var p := FulfillPset(o, funding, payment, a, accepts).value;
            var v := Carried(u.prevout, LBTC.hash);
            && Outpoints(p.inputs) == [funding.Ref(), u.Ref()] && v >= FEE_AMOUNT
            && WitnessTotal(p.inputs, LBTC.hash) == v && Total(ToTxOuts(p.outputs), LBTC.hash) == v + v
  {
    hide FulfillOutputs, WithLeaves, ToTxOuts, AssetTag;
    OneCoin(u, LBTC.hash);
    assert Total(Prevouts([u]), LBTC.hash) == FEE_AMOUNT + a.feeChange;
    OutputsPay(o, a, LBTC.hash);
    TotalOfOutputs(FulfillOutputs(o, a), LBTC.hash);
    AcceptsNew(accepts, [], funding.Ref());
    AttachNext([], funding, 0, Default, accepts);
    WithLeavesKeeps(Signable(funding, Default), payment.leaves, o.fulfillScript);
    var first := ContractInput(o, funding, payment);
    AttachedTwice(first, u, accepts);
    WitnessOfTwo(first, Signable(u, All), LBTC.hash);
    assert Carried(funding.prevout, LBTC.hash) == 0;
    hide Carried;
  }

  lemma OneCoin(u: Utxo, h: AssetHash)
    ensures Total(Prevouts([u]), h) == Carried(u.prevout, h)
  {
    TotalNext(u, [], h);
    assert [u] + [] == [u];
    NothingIsLeft(h);
  }

  lemma AcceptsNew(accepts: Acceptance, inputs: seq<PsetInput>, x: Outpoint)
    requires RefusesDuplicates(accepts)
    ensures accepts(inputs, x) <==> x !in Outpoints(inputs)
  {
  }

  lemma AttachedTwice(first: PsetInput, u: Utxo, accepts: Acceptance)
    requires RefusesDuplicates(accepts) && first.outpoint != u.Ref()
    ensures AttachedAll([first], [u], 1, All, accepts) == [first, Signable(u, All)]
    ensures AttachedAll([first, Signable(u, All)], [u], 2, All, accepts) == [first, Signable(u, All)]
  {
    hide RefusesDuplicates, Attached;
    var inputs := [first, Signable(u, All)];
    AcceptsNew(accepts, [first], u.Ref());
    AcceptsNew(accepts, inputs, u.Ref());
    assert Outpoints([first]) == [first.outpoint];
    assert Outpoints(inputs)[1] == u.Ref();
    AttachNext([first], u, 1, All, accepts);
    AttachNext(inputs, u, 2, All, accepts);
    assert [first] + [Signable(u, All)] == inputs;
    assert [u][1..] == [];
  }

  lemma WitnessOfTwo(i: PsetInput, j: PsetInput, h: AssetHash)
    ensures WitnessTotal([i, j], h) == CarriedBy(i, h) + CarriedBy(j, h)
  {
    hide Carried;
    assert [i, j][1..] == [j];
    assert WitnessTotal([j], h) == CarriedBy(j, h) + WitnessTotal([], h);
  }

  /** The last output is the fee, within its bounds; what is added as change in L-BTC is no dust. */
  lemma FeeAndDust(o: Order, a: FulfillArgs)
    ensures var outs := FulfillOutputs(o, a);
            var fee := outs[|outs| - 1];
            && fee.asset == LBTC.hash && fee.script == [] && 500 <= fee.amount <= 1498
            && forall i :: 2 <= i < |outs| - 1 && outs[i].asset == LBTC.hash ==> outs[i].amount >= 500
  {
  }

  /**
   The outputs, one by one: the maker's side of the order at the maker's script, the bot's side at the
   bot's, then change of the output asset and of L-BTC that is no dust, in this order, and the fee.
   */
  lemma OutputsInOrder(o: Order, a: FulfillArgs)
    ensures var outs := FulfillOutputs(o, a);
            var c := if a.tradeChange > 0 && (o.output.asset == LBTC.hash ==> a.tradeChange >= 500) then 1 else 0;
            var d := if a.feeChange >= 500 then 1 else 0;
            && |outs| == 3 + c + d
            && outs[0] == PsetOutput(o.output.asset, o.output.amount, o.traderScript)
            && outs[1] == PsetOutput(o.input.asset, o.input.amount, a.providerScript)
            && (c == 1 ==> outs[2] == PsetOutput(o.output.asset, a.tradeChange, a.tradeChangeScript))
            && (d == 1 ==> outs[2 + c] == PsetOutput(LBTC.hash, a.feeChange, a.feeChangeScript))
            && outs[2 + c + d] == PsetOutput(
                 LBTC.hash,
                 500 + (if o.output.asset == LBTC.hash && a.tradeChange < 500 then a.tradeChange else 0)
                 + (if a.feeChange < 500 then a.feeChange else 0),
                 [])
  {
  }

  /** Between the two sides of the trade and the fee there is change, all of it and nothing but it. */
  lemma ChangeIsReturned(o: Order, a: FulfillArgs, p: PsetOutput)
    ensures var outs := FulfillOutputs(o, a);
            p in outs[2..|outs| - 1] <==>
            || (p == PsetOutput(o.output.asset, a.tradeChange, a.tradeChangeScript) && a.tradeChange > 0
                && (o.output.asset == LBTC.hash ==> a.tradeChange >= FEE_AMOUNT))
            || (p == PsetOutput(LBTC.hash, a.feeChange, a.feeChangeScript) && a.feeChange >= FEE_AMOUNT)
  {
    var outs := FulfillOutputs(o, a);
    assert outs[2..|outs| - 1] == TradeChangeOutputs(o, a) + FeeChangeOutputs(a);
  }

  // ---- Unlocking the contract ----

  function FulfillContext(o: Order, a: FulfillArgs, sha256: bytes -> bytes): TxContext {
    TxContext(ToTxOuts(FulfillOutputs(o, a)), sha256)
  }

  /** Whatever the wallet contributes, the fulfill leaf accepts exactly if it admits the maker's own script. */
  lemma FulfillAccepted(o: Order, a: FulfillArgs, sha256: bytes -> bytes)
    requires Compiled(o)
    ensures |o.traderScript| >= 2
    ensures Accepts(o.fulfillScript, FulfillContext(o, a, sha256)) <==>
            Admits(o.traderScript, o.traderScript, FulfillContext(o, a, sha256))
  {
    hide Accepts, Admits;
    var tx := FulfillContext(o, a, sha256);
    var asset := AssetHashToBytes(o.output.asset);
    LeafScriptCorrect(o.traderScript, o.output.amount, asset, tx);
    assert asset[1..] == LittleEndian(o.output.asset, 32);
    assert tx.outputs[0] == ToTxOut(PsetOutput(o.output.asset, o.output.amount, o.traderScript));
  }

  /**
   End to end: an order for a recipient of version 0 or 1 is unlocked by the bot's transaction,
   for any wallet contribution, if and only if the recipient's script is a witness program.
   */
  lemma FulfillUnlocks(o: Order, a: FulfillArgs, sha256: bytes -> bytes)
    requires Compiled(o) && o.traderScript[0] in {OP_0, OP_1}
    ensures Accepts(o.fulfillScript, FulfillContext(o, a, sha256)) <==> WellFormed(o.traderScript)
  {
    hide Accepts, FulfillContext, LeafScript;
    FulfillAccepted(o, a, sha256);
    RecipientIsPayable(o.traderScript, FulfillContext(o, a, sha256));
  }

  /** The same from the order form onwards. */
  lemma NewOrderUnlocks(traderScript: bytes, inputCurrency: string, inputValue: Option<Float>,
                        outputCurrency: string, outputValue: Option<Float>,
                        rate: real, cast: Cast, id: string, now: int,
                        a: FulfillArgs, sha256: bytes -> bytes)
    requires WellFormed(traderScript)
    ensures var r := NewOrder(Some(traderScript), inputCurrency, inputValue, outputCurrency, outputValue,
                              rate, cast, id, now);
            r.Ok? ==> Accepts(r.value.fulfillScript, FulfillContext(r.value, a, sha256))
  {
    hide Accepts, FulfillContext, CurrencyToAsset, ProposedRate, OutsideSlippage;
    var r := NewOrder(Some(traderScript), inputCurrency, inputValue, outputCurrency, outputValue, rate, cast, id, now);
    if r.Ok? {
      FulfillUnlocks(r.value, a, sha256);
    }
  }

  /** The bot's transaction passes for a refund only if the order trades a thing for itself. */
  lemma FulfillIsNoRefund(o: Order, a: FulfillArgs, sha256: bytes -> bytes)
    requires Compiled(o) && Accepts(o.fulfillScript, FulfillContext(o, a, sha256))
    ensures Accepts(o.refundScript, FulfillContext(o, a, sha256)) <==> o.input == o.output
  {
    hide Accepts, LeafScript, FulfillContext;
    var x, y := AssetHashToBytes(o.output.asset), AssetHashToBytes(o.input.asset);
    LeavesAreDisjoint(o.traderScript, o.output.amount, x, o.input.amount, y, FulfillContext(o, a, sha256));
    assert x[1..] == LittleEndian(o.output.asset, 32) && y[1..] == LittleEndian(o.input.asset, 32);
    AssetBytesDiffer(o.output.asset, o.input.asset);
  }
}
