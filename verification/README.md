# Banco, verified

Banco is a non-interactive swap bot for Elements. A maker's order is compiled to a Tapscript
covenant, the maker funds the covenant's address, and the bot builds the transaction that fulfils
the order, broadcasts it and keeps the order book up to date. This project models the parts of the
program that decide money and state, and proves that they work together: whatever clock, explorer,
database, wallet and network answer, for whatever recipients orders are placed, and however
placement and restarts interleave with the watcher, every transaction the bot broadcasts pays the
maker in full, spends a coin the explorer reported at the order's address, and reveals the contract
the order was compiled to; it satisfies that contract exactly if the maker's script is one that can
be paid, which for versions 0 and 1 means a witness program. Of signer and PSET finalizer it is
assumed that they keep outpoints and outputs.

`dafny verify dfyconfig.toml` checks everything.

| file | models |
|---|---|
| Bytes.dfy | bytes, fixed-width little-endian numbers, results with errors and panics |
| FreeList.dfy | `bytes.Buffer` and the free list of scratch buffers |
| PoolProtocol.dfy | the free list shared by goroutines, under every interleaving |
| VarInts.dfy | CompactSize integers |
| Codec.dfy | slices and vectors of slices: what is written, what is accepted, what truncation does |
| Streams.dfy | the serializer and deserializer objects; Elements value, asset and nonce fields |
| ScriptNums.dfy | script numbers |
| Scripts.dfy | canonical pushes, a script parser and the stack machine with output introspection |
| Covenant.dfy | the covenant compiler and the meaning of the scripts it emits |
| Orders.dfy | assets, orders, quotes and the slippage check |
| Trades.dfy | the fulfilling transaction, input by input |
| Settlement.dfy | conservation, dust, and unlocking |
| Executions.dfy | the trade object, its calls, and batches of trades |
| Watcher.dfy | the two database tables, one look at one order, one round |
| Lifecycle.dfy | the interleaved system, its invariants, and its refinement by the sequential code |
| Fulfilment.dfy | what it takes, over every run, for an order to be fulfilled |

## How to read it

- An object of the program is a class; each of its methods is tied by its contract to a function of
  the old state, and the results are lemmas about these functions.
- Everything outside the program is an argument: readers' bytes, the wallet's, signer's and
  network's replies (`Executions.Replies`), the clock, explorer and database outcomes
  (`Watcher.Answers`, `Lifecycle.Event`), the acceptance of an input by the PSET library
  (`Trades.Acceptance`) and SHA-256 (`Scripts.TxContext`). Theorems hold for all of them.
- `Bytes.Result` has a constructor for a Go panic, so operations are total.
- Standards followed: BIP 62 rules 3 and 4 (minimal pushes and numbers), BIP 141 section "Witness
  program", BIP 342 section "Script execution", the Elements tapscript opcodes for output
  introspection, and CompactSize from the Bitcoin protocol documentation.

## Findings

Where a promise does not hold for every input, the condition under which it does is proved.

- A slice is read with a plain `Read`, so a buffer that ends inside the last slice gives zeros for the
  missing bytes and no error (`Codec.VectorExactly`, `Codec.VectorTruncated`, `Streams.FieldExactly`).
- The length byte of the maker's script is not checked. Among versions 0 and 1 the covenant can be
  satisfied by paying the maker's own script exactly if that script is a witness program
  (`Covenant.RecipientIsPayable`, `Settlement.FulfillUnlocks`); a recipient of 32 zero bytes compiles
  and cannot be paid (`Covenant.UnpayableRecipient`). Such an order does no harm to the others: the
  condition is per order, over all runs (`Lifecycle.EveryBroadcastSettles`).
- A Sell quote proposes the inverse of its price to the slippage check, and passes only near price 1
  (`Orders.SellPasses`). A quote for nothing divides zero by zero and passes, and so does one for an
  infinite amount.
- Neither form nor NewOrder looks at the sign or the size of an amount: every Buy quote passes, a
  negative one included (`Orders.BuyPasses`). The amounts of the order that is built are the values
  asked for, up to a unit, exactly if these are above -1 and below 2^64 units (`Orders.Convertible`,
  `Orders.AmountsTruncate`); otherwise they are whatever the conversion yields.
- The watcher compares a sum of coins, not each coin and not its asset, and the errors of the PSET add
  calls are ignored. What a broadcast spends on the chain and what it pays balance exactly if the one
  contract coin holds the order's input side and whatever the refused inputs were to bring in
  (`Executions.BroadcastBalances`): if no input was refused, exactly if the coin is the order's input
  side; if the library refuses duplicates, exactly if it makes up for the coins named before as well.
  Fully funded is not enough: a wallet that names one L-BTC coin for the trade and for the fees makes
  the outputs pay it twice (`Executions.FundedYetUnbalanced`, with numbers in
  `Executions.UnbalancedExample`). The sum wraps at 2^64 (`Watcher.CoinsOverflow`).
- Over all runs an order that asks for anything is fulfilled only on coins reported for its address
  that suffice, each with a broadcast the network took (`Fulfilment.FulfilledWasSpent`). Where the
  network takes only what balances and no input is refused, each of these is the order's input side to
  the unit (`Fulfilment.FulfilledIsFunded`): an order funded in two parts, or with one unit too much, has
  coins that suffice and is never fulfilled (`Fulfilment.UnfundedIsNeverFulfilled`).
- Inputs are as meant exactly if as many came out as went in, and even otherwise input 0 spends the
  contract's coin and no input gets another one's UTXO (`Trades.InputsInOrder`, `Trades.PsetSpends`,
  `Trades.WitnessesAreOwn`).
- An address has no nonce and does not tell the two leaves apart, a taproot branch being order-free. Two
  orders share it exactly if their recipients agree, as far as they enter the contract (for witness
  programs, entirely), and their sides are the same or swapped (`Orders.AddressIsTerms`). Such orders
  compete for one coin; no other two orders ever trade the same (`Lifecycle.CoinIsTradedForItsTerms`).
  Swapped pairs do get through: a Buy and a Sell of amount 0, or 1.01 USDT for 1 L-BTC and the reverse
  at rate 1 (`Orders.SwappedOrdersShareAddress`, `Orders.SwappableValues`).
- Within one look an order may be marked Expired and then Funded and Fulfilled: coins that suffice
  override the clock (`Watcher.TickOutcome`). Across rounds Expired and Fulfilled are final
  (`Lifecycle.FinalStatusIsFinal`).
- `scriptNum(-2^63).Bytes()` panics; every other number is encoded canonically (`ScriptNums.ScriptNumBytes`).
- PROTOCOL.md gives the maker a key path to cancel and README.md says that only the maker can cancel.
  The code uses an unspendable internal key (offer.go:19) and a refund leaf without a signature: what
  satisfies the leaf depends on output 0 alone (`Covenant.ContractEnforcesTerms`, at the input side of
  the order), so that anyone may return the coin to the maker. The model follows the code.

## Model

| member | source | states |
|---|---|---|
| FreeLists.Buffer.ReadFull | pkg/bufferutil/bufferutil.go:78-79 | a full read yields exactly the next bytes; a short one drains the buffer and is an error |
| FreeLists.FreeList.Borrow | pkg/bufferutil/bufferutil.go:54-62 | a buffer of capacity 8 that is not in the list any more, new only if the list was empty |
| FreeLists.FreeList.Return | pkg/bufferutil/bufferutil.go:66-72 | the slice is pooled unless 1024 are, and the list stays free of duplicates |
| FreeLists.FreeList.ReadUint | pkg/bufferutil/bufferutil.go:76-127 | the number in the next k bytes, whatever the borrowed buffer held before, and the list with that buffer back |
| FreeLists.FreeList.WriteUint | pkg/bufferutil/bufferutil.go:131-170 | appends the k low-order bytes, whatever the borrowed buffer held before, and gives the buffer back |
| PoolProtocol.StepKeepsOwned | pkg/bufferutil/bufferutil.go:54-72 | no step makes a buffer held twice, or both held and pooled; capacity stays 8, the pool at most 1024 |
| PoolProtocol.StepKeepsIntact | pkg/bufferutil/bufferutil.go:76-170 | no step of another goroutine touches bytes a goroutine has filled in |
| PoolProtocol.RunRefinesPrivate | pkg/bufferutil/bufferutil.go:76-170 | every run yields the outputs of goroutines with private buffers |
| PoolProtocol.PoolIsSafe | pkg/bufferutil/bufferutil.go:39-72 | from the empty list, any interleaving keeps ownership, never depends on stale contents, and never lacks capacity |
| PoolProtocol.CallIsRun | pkg/bufferutil/bufferutil.go:76-170 | every call of the free list object, by its contract, is a run of the protocol that hands on the call's own bytes |
| Bytes.LittleEndianAt | offer.go:99-100 | the i-th byte written is the i-th digit to base 256 |
| VarInts.WriteVarInt | pkg/bufferutil/bufferutil.go:176-202 | appends the CompactSize encoding |
| VarInts.ReadVarInt | pkg/bufferutil/bufferutil.go:204-262 | value and remaining bytes, or the error, for any buffer, non-canonical forms included |
| VarInts.EncodeVarInt | pkg/bufferutil/bufferutil.go:266-284 | VarIntSerializeSize is the number of bytes written |
| VarInts.VarIntExactly | pkg/bufferutil/bufferutil.go:176-262 | a value is read exactly from what the writer emits for it, the rest being left; nothing else is accepted |
| VarInts.VarIntCanonical | pkg/bufferutil/bufferutil.go:217-256 | whatever is accepted is the writer's own encoding |
| VarInts.VarIntTruncated | pkg/bufferutil/bufferutil.go:204-207 | no strict prefix of an encoding is accepted |
| VarInts.VarIntBytes | pkg/bufferutil/bufferutil.go:176-202 | the encoding byte by byte, for each of the four sizes |
| VarInts.VarIntFails | pkg/bufferutil/bufferutil.go:204-262 | what is left of the buffer after each failed read |
| Codec.EncodeVarSlice | pkg/bufferutil/bufferutil.go:289-291 | VarSliceSerializeSize is the number of bytes written |
| Codec.VarSliceSound | pkg/bufferutil/deserializer.go:49-65 | a slice that was read is what its length and bytes encode, up to zeros missing at the end of the input |
| Codec.VectorExactly | pkg/bufferutil/deserializer.go:49-82 | the inputs ReadVector accepts with a given result and rest, exactly: the encoding, or the encoding short of zeros inside its last slice |
| Codec.VectorFraming | pkg/bufferutil/serializer.go:67-80 | every vector reads back, and whatever follows it is left untouched |
| Codec.EncodingIsPrefixFree | pkg/bufferutil/serializer.go:67-80 | no encoding of a vector starts the encoding of another one |
| Codec.UniqueDecoding | pkg/bufferutil/deserializer.go:59-82 | a successful read consumed exactly the encoding of its result if and only if no slice was short |
| Codec.VectorTruncated | pkg/bufferutil/deserializer.go:49-82 | a cut vector is rejected, unless the cut leaves part of the last slice, whose missing tail then reads as zeros |
| Codec.PairBytes | pkg/bufferutil/serializer.go:67-80 | a vector of two short slices byte by byte |
| Streams.Serializer.WriteVarSlice | pkg/bufferutil/serializer.go:59-65 | appends length and bytes |
| Streams.Serializer.WriteVector | pkg/bufferutil/serializer.go:68-80 | appends the count and each element in order |
| Streams.Deserializer.ReadSlice | pkg/bufferutil/deserializer.go:49-56 | n bytes, padded with zeros when the buffer is short but not empty |
| Streams.Deserializer.ReadVarSlice | pkg/bufferutil/deserializer.go:59-65 | result and remaining buffer for any input |
| Streams.Deserializer.ReadVector | pkg/bufferutil/deserializer.go:68-82 | result and remaining buffer for any input |
| Streams.Deserializer.ReadElementsValue | pkg/bufferutil/deserializer.go:86-116 | prefix 0 alone, 1 with 8 bytes, 8 or 9 with 32 bytes, otherwise an error |
| Streams.Deserializer.ReadElementsAsset | pkg/bufferutil/deserializer.go:119-136 | prefix 1, 10 or 11 with 32 bytes, otherwise an error |
| Streams.Deserializer.ReadElementsNonce | pkg/bufferutil/deserializer.go:139-156 | prefix 1 to 3 with 32 bytes, any other prefix alone |
| Streams.FieldExactly | pkg/bufferutil/deserializer.go:84-156 | the inputs that give a field and a rest, exactly, for the three kinds of field |
| Streams.ValueExactly | pkg/bufferutil/deserializer.go:86-116 | the fields accepted as values, by prefix and length, and from which inputs |
| Streams.AssetExactly | pkg/bufferutil/deserializer.go:119-136 | the same of assets |
| Streams.NonceExactly | pkg/bufferutil/deserializer.go:139-156 | the same of nonces |
| Streams.FieldFails | pkg/bufferutil/deserializer.go:84-156 | when a field is an error, and what is left of the buffer then |
| ScriptNums.ScriptNumBytes | scriptnum.go:40-80 | the sign-magnitude encoding of every 64-bit number, a panic at the least one only |
| ScriptNums.NumRoundTrip | scriptnum.go:40-80 | decoding inverts encoding |
| ScriptNums.NumExactly | scriptnum.go:40-80 | the encodings are exactly the minimal strings, each of the number it denotes |
| ScriptNums.NumLength | scriptnum.go:50-77 | the length of an encoding is decided by the magnitude |
| ScriptNums.NumBounds | scriptnum.go:14-17 | at most nine bytes, and at most four exactly for the operands of arithmetic opcodes |
| ScriptNums.NumBytes | scriptnum.go:50-80 | the top bit of the last byte is the sign, the other bits are the magnitude in little-endian order |
| ScriptNums.NumExamples | scriptnum.go:40-80 | the bytes of 0, 1, 127, 128, 256 and their negatives |
| Scripts.ParseEmittedPush | offer.go:102-118 | an emitted push is parsed as one push of the data, [0x00] alone coming back empty |
| Scripts.EmittedPushIsShortest | offer.go:102-118 | no push of the same data is shorter |
| Scripts.PushBytes | offer.go:102-118 | the push of any element of at most 520 bytes, byte by byte |
| Covenant.ScriptBuilder.AddOp | offer.go:103-120 | appends an opcode unless the script has failed or is full |
| Covenant.ScriptBuilder.AddData | offer.go:102-119 | appends the push unless the script has failed, the data is over 520 bytes or the script is full |
| Covenant.CompileClause | offer.go:93-164 | the bytes of the clause, or an error for oversized data, or a panic for an empty asset |
| Covenant.CompileLeaf | offer.go:51-91 | the clause for the version and program of the recipient, an error for another version, a panic for a script too short |
| Covenant.LeafScriptBytes | offer.go:51-164 | the bytes, the error or the panic for every recipient, amount and asset, opcodes by their numbers |
| Covenant.ContractBytes | offer.go:93-128 | the whole contract of a witness program byte by byte |
| Covenant.ContractIsShort | offer.go:93-128 | that contract is 54 bytes longer than the recipient's script |
| Scripts.ParseAssembled | offer.go:100-128 | disassembling what the builder assembles gives the operations back, for every script |
| Covenant.NormalClause | offer.go:93-128 | the clause disassembled is the documented clause over the values as pushed |
| Covenant.ClauseFits | offer.go:122-125 | a clause is a valid script exactly if program and asset payload are at most 520 bytes |
| Covenant.ClauseAccepts | offer.go:102-120 | the machine accepts a clause exactly on inspected script, asset payload and explicit amount of output 0 |
| Covenant.LeafScriptCorrect | offer.go:51-164 | for every recipient, amount and asset that compile: accepted exactly by the transactions whose first output has an admitted script, the asset and the amount |
| Covenant.ContractEnforcesTerms | offer.go:51-164 | for every well-formed recipient: accepted exactly if output 0 has its script, the asset payload and the explicit amount |
| Covenant.RecipientIsPayable | offer.go:51-64 | recipients of version 0 and 1 can be paid at their own script exactly if it is a witness program |
| Covenant.UnpayableRecipient | trade_test.go:73-76 | a recipient of 32 zero bytes compiles, and no payment to it satisfies the contract |
| Covenant.ClauseInjective | offer.go:93-164 | clauses are equal bytes exactly if they check equal values |
| Covenant.LeafScriptInjective | offer.go:51-164 | contracts are equal exactly if version, pushed program, asset and amount are |
| Covenant.LeavesAreDisjoint | offer.go:38-41 | a transaction that satisfies one leaf satisfies the other exactly if their asset and amount agree |
| Orders.AssetBytesDiffer | order.go:44-47 | different asset hashes have different asset bytes |
| Orders.ListedAssets | currencyutil.go:10-18 | the two currencies, their asset hashes and eight digits, and no other |
| Orders.AssetBytesAt | order.go:44-47 | prefix 1, then the bytes of the hash from the least significant one |
| Orders.AddressIsTerms | offer.go:38-41 | compiled orders share an address exactly if their recipients agree as pushed (for witness programs, entirely) and their sides are the same or swapped |
| Orders.NewOrder | order.go:34-126 | an order that is built carries the contracts its own terms compile to, and their address |
| Orders.NewOrderExactly | order.go:34-126 | there is an order exactly for legible input, listed currencies, values within 3% of the rate and a script that compiles; a panic exactly for a script too short |
| Orders.OrderIsNearRate | order.go:74-82 | an order is built only between 0.97 and 1.03 times the rate |
| Orders.NewOrderHolds | order.go:48-125 | the assets asked for, the amounts in hundred-millionths, and both contracts byte by byte over their sides |
| Orders.ToAmount | order.go:52 | the amount is the scaled value truncated towards zero wherever the language defines the conversion |
| Orders.AmountsTruncate | order.go:48-71 | the amounts are within a unit of the values asked for exactly if these convert, whatever the conversion yields elsewhere; never above a value that is not negative |
| Orders.DisplayedValue | order.go:128-136 | an amount of a listed asset is displayed at that asset's precision |
| Orders.SwappedOrdersShareAddress | order.go:84-113 | values that pass the check either way round give a pair of orders with swapped sides and one address |
| Orders.SwappableValues | main.go:243-255 | such values exist, among them the quotes of a Buy and a Sell of amount 0 |
| Orders.BuyPasses | main.go:245-249 | every Buy quote passes the slippage check, an empty, negative or infinite one included |
| Orders.SellPasses | main.go:250-255 | a Sell quote of any sign passes exactly if the price is near its own inverse, or nothing or no finite amount is sold |
| Orders.QuotesInWords | main.go:241-255 | who gives what in a Buy and in a Sell, and the 1% on top or off |
| Orders.BuyOrderIsPriced | order.go:52-71 | wherever both values convert, the amounts of a Buy order are at the price plus fee up to the truncation of both |
| Orders.PricedInWords | main.go:246 | what it means that amounts are priced: 1.01 times the price, up to truncation |
| Trades.Updater.AttachEach | trade.go:122-142 | the input loops, with the errors of the add calls ignored and the index advancing regardless |
| Trades.AttachLeaves | trade.go:107-119 | every tree leaf that is the fulfill script is attached to input 0, an error if there is no input |
| Trades.AddFulfillOutputs | trade.go:145-186 | the outputs in order, dust going to the fee |
| Trades.BuildFulfill | trade.go:82-188 | the whole PSET for any acceptance of inputs |
| Trades.AttachedExactly | trade.go:122-142 | a loop attaches every input as meant exactly if no add is refused |
| Trades.InputsInOrder | trade.go:91-142 | funding input first under the default sighash, then trade and fee UTXOs under SigHashAll, each with its own UTXO, exactly if all arrived |
| Trades.CompleteInputs | trade.go:91-142 | of a complete PSET each input's transaction, index, UTXO, sighash and leaves |
| Trades.RefusalLeavesBare | trade.go:122-142 | after a refused add the loop gives no UTXO and no sighash to what it still adds |
| Trades.BuildFails | trade.go:91-119 | the builder fails exactly if the funding input is refused and there is a leaf to attach |
| Trades.WitnessesAreOwn | trade.go:91-142 | no input is ever given the UTXO of another one |
| Trades.CompleteIffDistinct | trade.go:91-142 | when only duplicates are refused, all inputs arrive exactly if the outpoints are distinct |
| Trades.PsetSpends | trade.go:91-142 | the inputs spend the contract's coin first and then exactly the coins that were not refused |
| Trades.RefusedCoinsAreRepeats | trade.go:122-142 | when only duplicates are refused, the coins left out are those named before |
| Settlement.Conservation | trade.go:122-186 | for every asset, coins offered minus outputs is what the funding output holds beyond the order's input side |
| Settlement.PsetConserves | trade.go:122-186 | the same of the witness UTXOs and outputs of a PSET with all its inputs |
| Settlement.RefusedIsMissing | trade.go:122-186 | the same of the outputs spent on the chain, less what refused coins were to bring in |
| Settlement.BalancedIffCovered | trade.go:91-186 | spent and paid balance exactly if the funding output is the order's input side and the refused coins |
| Settlement.BalancedIffFullyFunded | trade.go:91-186 | with all inputs in, they balance exactly if the funding output is the order's input side |
| Settlement.BalancedIffCoversRepeats | trade.go:91-186 | when only duplicates are refused, exactly if it also makes up for the coins named before |
| Settlement.CoinNamedTwice | trade.go:122-142 | one coin named for trade and fees: its value enters once and is paid twice, the order being fully funded |
| Settlement.FeeAndDust | trade.go:158-186 | the fee is the last output and between 500 and 1498; no L-BTC change is below 500 |
| Settlement.OutputsInOrder | trade.go:145-186 | each output in its place: the maker's, the bot's at its own script, the change, and the fee to the unit |
| Settlement.ChangeIsReturned | trade.go:158-181 | between trade and fee outputs there is the change, at its script, and nothing else |
| Settlement.FulfillAccepted | trade.go:145-150 | whatever the wallet contributes, the fulfill leaf accepts exactly if it admits the maker's script |
| Settlement.FulfillUnlocks | trade.go:145-156 | an order of version 0 or 1 is unlocked exactly if its recipient is a witness program |
| Settlement.NewOrderUnlocks | order.go:84-113 | every order NewOrder builds for a well-formed recipient is unlocked by its fulfilling transaction |
| Settlement.FulfillIsNoRefund | order.go:89-97 | the fulfilling transaction passes for a refund exactly if the two sides of the order are the same |
| Executions.Trade.FromFundedOrder | trade.go:41-66 | funded with the order's payment, or pending without a funding output |
| Executions.Trade.PrepareFulfillTransaction | trade.go:68-80 | an error for a trade that is pending or has no funding output, the PSET otherwise |
| Executions.Trade.ExecuteTrade | trade.go:191-318 | status, result and broadcasts for every status and all replies |
| Executions.Trade.CompleteTx | trade.go:243-305 | every wallet input finalized, the first matching leaf revealed with its control block |
| Executions.Trade.FirstLeaf | trade.go:256-267 | the first leaf that is the fulfill script |
| Executions.Trade.CancelTrade | trade.go:320-324 | the trade is cancelled |
| Executions.ExecutionOutcome | trade.go:191-318 | status, result and broadcast of one call: which errors, which panic, and when the trade is executed |
| Executions.SendsExactly | trade.go:198-310 | a transaction is sent exactly if nothing on the way to it fails |
| Executions.TradeIsSafe | trade.go:191-324 | under any calls: only a funded trade broadcasts, cancelled is final, and nothing follows a successful broadcast |
| Executions.BroadcastReveals | trade.go:256-289 | the witness of every broadcast reads back as the fulfill script and the control block of its first leaf, and nothing else |
| Executions.WitnessBytes | trade.go:281-289 | that witness byte by byte |
| Executions.BroadcastPays | trade.go:198-233 | every output of a broadcast in terms of the wallet's replies |
| Executions.BroadcastNamesCoins | trade.go:212-224 | every input of a broadcast, if none was refused, in terms of the wallet's replies |
| Executions.BroadcastIsSigned | trade.go:234-310 | what is broadcast is what the wallet signed, finalized input by input, with the revealing witness on input 0 |
| Executions.BroadcastSpendsCoin | trade.go:92-98 | the first input of every broadcast spends the coin the trade was made for |
| Executions.BroadcastUnlocks | trade.go:191-318 | every broadcast for a compiled order spends the trade's coin, reveals the fulfill leaf and is accepted by it exactly if the maker's script is admitted |
| Executions.BroadcastBalances | trade.go:213-310 | on the chain a broadcast balances exactly if its coin covers the order's input side and the refused inputs; with none refused, exactly if it is the input side |
| Executions.BroadcastConserves | trade.go:213-310 | the witness UTXOs of a broadcast with all its inputs exceed its outputs by the funding surplus, asset by asset, signer and finalizer keeping witness UTXOs and outputs |
| Executions.FundedYetUnbalanced | trade.go:122-142 | a fully funded order whose broadcast pays twice what its coin brings in |
| Executions.UnbalancedExample | trade.go:122-142 | such an order and wallet in numbers: 1000 units come in and 2000 are paid |
| Executions.ExecuteTrades | app.go:176-201 | one trade per unspent in order, stopping at the first failure, with everything broadcast until then |
| Executions.PartialExecution | app.go:176-201 | a batch fails at trade k exactly if those before it went through and it did not |
| Executions.BatchSendsAll | app.go:176-201 | a batch has sent one transaction per trade that went through and whatever the failing trade sent |
| Executions.BatchAllTaken | app.go:193-200 | in a batch that went through, the network took as many transactions as there are unspents |
| Executions.BatchSpendsCoins | app.go:176-201 | the i-th broadcast of any batch spends the i-th unspent |
| Executions.BatchCommits | app.go:176-201 | the maker's script is paid the output amount of the output asset once per trade that went through |
| Watcher.Database.SaveOrder | db.go:82-142 | both rows or none, none for an id already taken; the timestamp in whole seconds |
| Watcher.PlacedIsPending | db.go:82-142 | a new order is pending and as it was placed, down to the second; a lost insert changes nothing |
| Watcher.Database.UpdateOrderStatus | db.go:144-164 | all rows of the order, or none |
| Watcher.Database.FetchOrdersToFulfill | db.go:166-232 | the joined orders that are pending or funded, in row order |
| Watcher.FetchedExactly | db.go:173-178 | in a consistent book an order is fetched exactly if its status is Pending or Funded |
| Watcher.FetchedOnce | db.go:173-178 | and no order twice |
| Watcher.CoinsAreMoreThan | app.go:166-174 | decides the sum modulo 2^64 |
| Watcher.CoinsAreExact | app.go:166-174 | never claims coins that are not there; exact below 2^64 |
| Watcher.CoinsAreExactIff | app.go:166-174 | exact for all amounts exactly if the sum does not wrap, or wraps to the greatest amount |
| Watcher.CountIsOrderless | app.go:166-174 | the order of the coins does not matter |
| Watcher.SumOfValues | app.go:167-171 | the sum is that of the values, coin by coin |
| Watcher.WatchForTrades | app.go:131-164 | tables, result and broadcasts for all answers |
| Watcher.TickOutcome | app.go:131-164 | the status a look leaves, for every combination of clock, explorer, coins and trades |
| Watcher.LookOutcome | app.go:131-164 | status, result and broadcasts of a look whichever writes are lost; ten minutes in nanoseconds, 64 bits of sum |
| Watcher.LookTouchesOne | app.go:131-164 | no look changes the status of another order |
| Watcher.FulfilledWasTraded | app.go:144-161 | Fulfilled means that for every coin found, and there was one, the network took a transaction that spends it |
| Watcher.FulfilledWasFunded | app.go:143-161 | if the network takes only what balances, Fulfilled means that every coin found covers the input side and the refused inputs; with none refused, to the unit |
| Watcher.WatchRound | main.go:72-87 | one look at every fetched order in turn, errors not stopping the round |
| Watcher.RoundLooks | main.go:72-87 | the k-th order gets the k-th look, and only a panic ends the round early |
| Lifecycle.StepKeepsInv | db.go:82-178 | each step of the interleaved system keeps the book consistent and the watcher's orders those of the book |
| Lifecycle.PlacementIsStep | db.go:82-142 | an order is placed at any moment and touches nothing but the tables |
| Lifecycle.BookIsConsistent | db.go:82-164 | over all runs every order has one status row and none is cancelled |
| Lifecycle.ClosedIsAbsorbing | db.go:173-178 | a fulfilled or expired order not in hand keeps its status and is not traded again |
| Lifecycle.FinalStatusIsFinal | app.go:131-164 | what is fulfilled or expired between rounds stays so, restarts included, and no later broadcast is for it |
| Lifecycle.EveryBroadcastSettles | main.go:72-87 | for any recipients, over all interleavings and restarts, every broadcast pays its maker in full, spends a coin reported for the order's address, reveals the contract, and satisfies it exactly if the maker's script can be paid; signer and finalizer keeping outpoints and outputs |
| Lifecycle.CoinIsTradedForItsTerms | app.go:148-161 | over all runs, broadcasts that spend one contract coin are for orders of one recipient whose sides are equal or swapped, signer and finalizer keeping outpoints and outputs |
| Fulfilment.FulfilledIsPaid | app.go:143-161 | over all runs, what is claimed of every trade taken by the network holds of all the coins, reported and sufficient, on which an order was fulfilled |
| Fulfilment.FulfilledWasSpent | app.go:143-161 | over all runs, a fulfilled order had reported coins that suffice, each spent by a broadcast the network took; outpoints kept by the signer |
| Fulfilment.FulfilledWasBroadcast | app.go:143-161 | over all runs and for any signer, a fulfilled order had a broadcast the network took |
| Fulfilment.FulfilledIsFunded | app.go:143-161 | over all runs in which the network takes only what balances and nothing is refused, each of these coins is the input side to the unit |
| Fulfilment.UnfundedIsNeverFulfilled | app.go:143-174 | over such runs, an order without a reported coin of exactly its input side is never fulfilled |
| Lifecycle.WatchIsRun | app.go:131-164 | a sequential look is a run of the interleaved system |
| Lifecycle.RoundIsRun | main.go:459-465 | a sequential round is a run of the interleaved system from an idle watcher, of the watcher's own events with the outcomes it was answered |

## Left out

- Streams.Deserializer.ReadSlice: does not model the panic or memory exhaustion of a declared length too large to allocate.
- Streams.Deserializer.ReadVarSlice: does not model that panic either; the declared length is any 64-bit number.
- Streams.Deserializer.ReadVector: does not model that panic for an element.
- FreeLists.FreeList.ReadUint: fixes the byte order to little-endian, the only one its callers pass.
- FreeLists.FreeList.WriteUint: fixes the byte order to little-endian, the only one its callers pass.
- Orders.NewOrder: takes reals with infinities and not-a-number for floats, so rounding and overflow are not modelled; the conversions Go leaves open are any function (`Orders.Cast`).
- Trades.AddFulfillOutputs: AddOutputs is taken to succeed, as it does for the assets of the currency table; only the input calls may be refused.
- Trades.BuildFulfill: the same; an output the library refuses, an error the program ignores, is not modelled.
- Executions.Trade.FromFundedOrder: does not model an error of CreateFundingOutput, which has succeeded for the same two scripts when the order was made.
- Executions.Trade.CompleteTx: finalizing an input may look at the whole PSET but is taken to change that input only, and base64 encoding to fail, if at all, together with the signer.
- Executions.BroadcastBalances: assumes that wallet and explorer report outputs as they are on the chain, and of signer and finalizer that they keep outpoints and outputs.
- Watcher.Database.FetchOrdersToFulfill: returns the rows in order of insertion, which the query leaves open.
- Lifecycle.EveryBroadcastSettles: assumes of every placement what NewOrder ensures (`Orders.Compiled`), and of signer and finalizer that they keep outpoints and outputs.
- Executions.BroadcastConserves: assumes of signer and finalizer that they keep witness UTXOs as well; no other member but the failing inputs does.
- Lifecycle.CoinIsTradedForItsTerms: assumes that the explorer reports an outpoint for one address only, besides what EveryBroadcastSettles assumes.
- Fulfilment.FulfilledIsFunded: assumes at every trade that wallet, signer and explorer are truthful, that no input is refused, and that the network takes only what balances.
- Trades.AttachLeaves: AddInTapLeafScript is taken to fail only for a missing input, also where an order with equal sides attaches the same leaf twice.
- Executions.Trade.ExecuteTrade: the transaction extracted and broadcast is taken to be the PSET.
- Settlement.Conservation: counts explicit amounts only; the wallet's account is unconfidential (ocean.go:144-150), and a blinded coin at the contract's address counts as nothing.
- Witness versions other than what `FulfillScript` compiles, OP_SUCCESS opcodes and opcodes outside the covenant: the parser takes them for malformed.
- Taproot tree assembly, tweaking, control blocks, addresses and signatures: library code; the tree is its two leaves, and an address is taken to determine the leaves of its tree but not their order.
- `FromFundedOrder` computes its payment for the test network whatever network the order names (trade.go:46); networks are not modelled.
- `Int32` of a script number, hex and decimal parsing, market limits, balances, the price cache: easy members.
- Ocean, Esplora and Kraken clients, HTTP handlers, HTML, SQL text, files and timestamp formats: input and output, present only as their outcomes.
