/**
 Orders and quotes (order.go, currencyutil.go and the quote arithmetic of main.go). Floating-point
 numbers are taken as reals with infinities and not-a-number.
 */
module Orders {
  import opened Bytes
  import opened Covenant

  // ---- Assets ----

  /** An asset hash is displayed as 64 hexadecimal digits; here it is the number they denote. */
  type AssetHash = n: nat | n < 0x1_0000000000000000_0000000000000000_0000000000000000_0000000000000000

  datatype Asset = Asset(hash: AssetHash, precision: nat)

  const USDT := Asset(0xf3d1ec678811398cd2ae277cbe3849c6f6dbd72c74bc542f7c4b11ff0e820958, 8)
  const LBTC := Asset(0x144c654344aa716d6f3abcc1ca90e5641e4e2a7f633bc09fe3baf64585819a49, 8)

  function CurrencyToAsset(currency: string): Option<Asset> {
    if currency == "USDT" then Some(USDT)
    else if currency == "L-BTC" then Some(LBTC)
    else None
  }

  function AssetToCurrency(h: AssetHash): Option<string> {
    if h == USDT.hash then Some("USDT")
    else if h == LBTC.hash then Some("L-BTC")
    else None
  }

  /** The unblinded form of an asset: prefix 1, then the displayed bytes in reverse order. */
  function AssetHashToBytes(h: AssetHash): (b: bytes)
    ensures |b| == 33
  {
    [1] + LittleEndian(h, 32)
  }

  lemma AssetBytesDiffer(a: AssetHash, b: AssetHash)
    ensures LittleEndian(a, 32) == LittleEndian(b, 32) <==> a == b
  {
    hide LittleEndian;
    PowThirtyTwo();
    LittleEndianInverse(a, 32);
    LittleEndianInverse(b, 32);
  }

  /** The two assets of the market, at eight digits, and no other. */
  lemma ListedAssets(currency: string)
    ensures CurrencyToAsset(currency).Some? <==> currency == "USDT" || currency == "L-BTC"
    ensures CurrencyToAsset("USDT")
         == Some(Asset(0xf3d1ec678811398cd2ae277cbe3849c6f6dbd72c74bc542f7c4b11ff0e820958, 8))
    ensures CurrencyToAsset("L-BTC")
         == Some(Asset(0x144c654344aa716d6f3abcc1ca90e5641e4e2a7f633bc09fe3baf64585819a49, 8))
  {
  }

  /** Prefix 1, then the displayed bytes backwards: displaying them takes the most significant one first. */
  lemma AssetBytesAt(h: AssetHash, i: nat)
    requires i < 32
    ensures AssetHashToBytes(h)[0] == 1 && AssetHashToBytes(h)[1 + i] == h / Pow256(i) % 256
  {
    hide LittleEndian, Pow256;
    LittleEndianAt(h, 32, i);
  }

  lemma PowThirtyTwo()
    ensures Pow256(32) == 0x1_0000000000000000_0000000000000000_0000000000000000_0000000000000000
  {
    hide Pow256;
    PowValues();
    PowSum(8, 8);
    PowSum(16, 16);
  }

  // ---- Orders ----

  /**
   An address stands for the root of a script tree: the hash of a branch sorts its two children (BIP
   341, section "Script validation rules"), so the order of the two leaves does not enter it.
   */
  type Address = multiset<bytes>

  /** A pay-to-taproot output, known by the scripts at its leaves. */
  datatype Payment = Payment(leaves: seq<bytes>) {
    function TaprootAddress(): Address {
      multiset(leaves)
    }
  }

  function CreateFundingOutput(fulfillScript: bytes, refundScript: bytes): Payment {
    Payment([fulfillScript, refundScript])
  }

  datatype Side = Side(asset: AssetHash, amount: uint64)

  datatype Order = Order(
    id: string, timestamp: int, address: Address,
    fulfillScript: bytes, refundScript: bytes, traderScript: bytes,
    input: Side, output: Side)

  function PaymentOf(o: Order): Payment {
    CreateFundingOutput(o.fulfillScript, o.refundScript)
  }

  /** The order carries the contracts its own terms compile to, and is funded at their address. */
  predicate Compiled(o: Order) {
    && LeafScript(o.traderScript, o.output.amount, AssetHashToBytes(o.output.asset)) == Ok(o.fulfillScript)
    && LeafScript(o.traderScript, o.input.amount, AssetHashToBytes(o.input.asset)) == Ok(o.refundScript)
    && o.address == PaymentOf(o).TaprootAddress()
  }

  /** Both orders give and take the same. */
  predicate SameSides(o: Order, p: Order) {
    o.input == p.input && o.output == p.output
  }

  /** Each order gives what the other one takes. */
  predicate SwappedSides(o: Order, p: Order) {
    o.input == p.output && o.output == p.input
  }

  /**
   Nothing but the terms enters the address, and not which side is which: two orders share it
   exactly if their recipients agree and their sides do, in this order or the other.
   */
  lemma AddressIsTerms(o: Order, p: Order)
    requires Compiled(o) && Compiled(p)
    ensures |o.traderScript| >= 2 && |p.traderScript| >= 2
    ensures o.address == p.address <==>
            SameRecipient(o.traderScript, p.traderScript) && (SameSides(o, p) || SwappedSides(o, p))
    ensures WellFormed(o.traderScript) && WellFormed(p.traderScript) ==>
            (SameRecipient(o.traderScript, p.traderScript) <==> o.traderScript == p.traderScript)
  {
    hide LeafScript, WellFormed, SameRecipient;
    LeafIsSide(o.traderScript, o.output, p.traderScript, p.output);
    LeafIsSide(o.traderScript, o.input, p.traderScript, p.input);
    LeafIsSide(o.traderScript, o.output, p.traderScript, p.input);
    LeafIsSide(o.traderScript, o.input, p.traderScript, p.output);
    PairsAgree(o.fulfillScript, o.refundScript, p.fulfillScript, p.refundScript);
    if WellFormed(o.traderScript) && WellFormed(p.traderScript) {
      WellFormedIsKept(o.traderScript, p.traderScript);
    }
  }

  lemma PairsAgree<T>(a: T, b: T, c: T, d: T)
    ensures multiset([a, b]) == multiset([c, d]) <==> (a == c && b == d) || (a == d && b == c)
  {
    assert multiset([a, b]) == multiset{a, b} && multiset([c, d]) == multiset{c, d};
    if multiset{a, b} == multiset{c, d} {
      assert a in multiset{c, d};
      assert multiset{a, b} - multiset{a} == multiset{b};
      if a == c {
        assert multiset{c, d} - multiset{a} == multiset{d};
        assert b in multiset{d};
      } else {
        assert multiset{c, d} - multiset{a} == multiset{c};
        assert b in multiset{c};
      }
    }
  }

  lemma LeafIsSide(r1: bytes, s1: Side, r2: bytes, s2: Side)
    requires LeafScript(r1, s1.amount, AssetHashToBytes(s1.asset)).Ok?
    requires LeafScript(r2, s2.amount, AssetHashToBytes(s2.asset)).Ok?
    ensures |r1| >= 2 && |r2| >= 2
    ensures LeafScript(r1, s1.amount, AssetHashToBytes(s1.asset))
            == LeafScript(r2, s2.amount, AssetHashToBytes(s2.asset))
       <==> SameRecipient(r1, r2) && s1 == s2
  {
    hide LeafScript, SameRecipient;
    var a1, a2 := AssetHashToBytes(s1.asset), AssetHashToBytes(s2.asset);
    LeafScriptInjective(r1, s1.amount, a1, r2, s2.amount, a2);
    assert a1[1..] == LittleEndian(s1.asset, 32) && a2[1..] == LittleEndian(s2.asset, 32);
    AssetBytesDiffer(s1.asset, s2.asset);
  }

  // ---- Building an order ----

  /** A parsed number; zeros have no sign here. */
  datatype Float = Real(r: real) | Infinity(negative: bool) | NaN

  function Pow10(k: nat): (p: real)
    ensures p >= 1.0
  {
    if k == 0 then 1.0 else 10.0 * Pow10(k - 1)
  }

  /** A value in units of its asset. */
  function Units(value: real, precision: nat): real {
    value * Pow10(precision)
  }

  function Scaled(value: Float, precision: nat): Float {
    if value.Real? then Real(Units(value.r, precision)) else value
  }

  /** What a conversion to uint64 yields where the language leaves it to the implementation. */
  type Cast = Float -> uint64

  /** A conversion to uint64 drops the fraction, towards zero. */
  function ToAmount(scaled: Float, cast: Cast): (a: uint64)
    ensures scaled.Real? ==>
              (-1.0 < scaled.r < TWO_TO_THE_64 as real <==> -1.0 < scaled.r - a as real < 1.0)
    ensures scaled.Real? && 0.0 <= scaled.r < TWO_TO_THE_64 as real ==> a as real <= scaled.r
  {
    if !scaled.Real? || scaled.r <= -1.0 || scaled.r >= TWO_TO_THE_64 as real then cast(scaled)
    else if scaled.r < 0.0 then 0
    else scaled.r.Floor
  }

  /** Values whose conversion the language defines: their integer part is an amount of 64 bits. */
  predicate Convertible(value: real, precision: nat) {
    -1.0 < Units(value, precision) < TWO_TO_THE_64 as real
  }

  /** A quotient; no comparison sees the sign of a zero, nor, against a finite rate, that of an infinity. */
  datatype Ratio = Finite(r: real) | Infinite | NotANumber

  /** 1 / (outputValue / inputValue) */
  function ProposedRate(inputValue: Float, outputValue: Float): Ratio {
    match (inputValue, outputValue)
    case (NaN, _) => NotANumber
    case (_, NaN) => NotANumber
    case (Infinity(_), Infinity(_)) => NotANumber
    case (Infinity(_), Real(_)) => Infinite
    case (Real(_), Infinity(_)) => Finite(0.0)
    case (Real(i), Real(o)) =>
      if i == 0.0 && o == 0.0 then NotANumber
      else if i == 0.0 then Finite(0.0)
      else if o == 0.0 then Infinite
      else Finite(1.0 / (o / i))
  }

  /** The 3% slippage check; no comparison with a value that is not a number holds. */
  predicate OutsideSlippage(proposed: Ratio, rate: real) {
    var slippage := rate * 0.03;
    match proposed
    case NotANumber => false
    case Infinite => true
    case Finite(r) => r < rate - slippage || r > rate + slippage
  }

  /** NewOrder once currencies are looked up and values parsed. */
  function BuildOrder(traderScript: bytes, inputAsset: Asset, inputValue: Float, outputAsset: Asset, outputValue: Float,
                      rate: real, cast: Cast, id: string, now: int): (r: Result<Order>)
    ensures r.Ok? ==> Compiled(r.value)
  {
    var inputAmount := ToAmount(Scaled(inputValue, inputAsset.precision), cast);
    var outputAmount := ToAmount(Scaled(outputValue, outputAsset.precision), cast);
    if OutsideSlippage(ProposedRate(inputValue, outputValue), rate) then Err
    else match LeafScript(traderScript, outputAmount, AssetHashToBytes(outputAsset.hash))
      case Err => Err
      case Panic => Panic
      case Ok(fulfillScript) =>
        match LeafScript(traderScript, inputAmount, AssetHashToBytes(inputAsset.hash))
        case Err => Err
        case Panic => Panic
        case Ok(refundScript) =>
          Ok(Order(id, now, CreateFundingOutput(fulfillScript, refundScript).TaprootAddress(),
                   fulfillScript, refundScript, traderScript,
                   Side(inputAsset.hash, inputAmount), Side(outputAsset.hash, outputAmount)))
  }

  /** A script or value is None where decoding or parsing it fails. */
  function NewOrder(traderScript: Option<bytes>, inputCurrency: string, inputValue: Option<Float>,
                    outputCurrency: string, outputValue: Option<Float>,
                    rate: real, cast: Cast, id: string, now: int): (r: Result<Order>)
    ensures r.Ok? ==> Compiled(r.value)
  {
    var inputAsset, outputAsset := CurrencyToAsset(inputCurrency), CurrencyToAsset(outputCurrency);
    if traderScript.None? || inputAsset.None? || inputValue.None? || outputAsset.None? || outputValue.None? then Err
    else BuildOrder(traderScript.value, inputAsset.value, inputValue.value, outputAsset.value, outputValue.value,
                    rate, cast, id, now)
  }

  /**
   Two values that pass the slippage check either way round make, for every witness program, a pair
   of orders of which each gives what the other takes; both are to be funded at one address.
   */
  lemma SwappedOrdersShareAddress(traderScript: bytes, v: Float, w: Float, rate: real, cast: Cast,
                                  id1: string, id2: string, now: int)
    requires WellFormed(traderScript)
    requires !OutsideSlippage(ProposedRate(v, w), rate) && !OutsideSlippage(ProposedRate(w, v), rate)
    ensures var buy := NewOrder(Some(traderScript), "USDT", Some(v), "L-BTC", Some(w), rate, cast, id1, now);
            var sell := NewOrder(Some(traderScript), "L-BTC", Some(w), "USDT", Some(v), rate, cast, id2, now);
            && buy.Ok? && sell.Ok? && SwappedSides(buy.value, sell.value) && !SameSides(buy.value, sell.value)
            && buy.value.address == sell.value.address
            && buy.value.fulfillScript == sell.value.refundScript && buy.value.fulfillScript != sell.value.fulfillScript
  {
    hide LeafScript, WellFormed, AssetHashToBytes, OutsideSlippage, ProposedRate;
    var x, y := ToAmount(Scaled(v, USDT.precision), cast), ToAmount(Scaled(w, LBTC.precision), cast);
    WellFormedCompiles(traderScript, x, AssetHashToBytes(USDT.hash));
    WellFormedCompiles(traderScript, y, AssetHashToBytes(LBTC.hash));
    var buy := NewOrder(Some(traderScript), "USDT", Some(v), "L-BTC", Some(w), rate, cast, id1, now);
    var sell := NewOrder(Some(traderScript), "L-BTC", Some(w), "USDT", Some(v), rate, cast, id2, now);
    LeafIsSide(traderScript, Side(USDT.hash, x), traderScript, Side(LBTC.hash, y));
    AddressIsTerms(buy.value, sell.value);
  }

  /** Such values: 1.01 and 1 at rate 1; and nothing for nothing, which a Buy and a Sell of amount 0 ask for. */
  lemma SwappableValues(price: real)
    ensures !OutsideSlippage(ProposedRate(Real(1.01), Real(1.0)), 1.0)
    ensures !OutsideSlippage(ProposedRate(Real(1.0), Real(1.01)), 1.0)
    ensures !OutsideSlippage(ProposedRate(Real(0.0), Real(0.0)), price)
    ensures MakeQuote("Buy", "L-BTC", "USDT", Real(0.0), price) == Quote("USDT", Real(0.0), "L-BTC", Real(0.0))
    ensures MakeQuote("Sell", "L-BTC", "USDT", Real(0.0), price) == Quote("L-BTC", Real(0.0), "USDT", Real(0.0))
  {
  }

  /** The quotient i / v is within 3% of the rate; what has no finite quotient is told apart first. */
  predicate IsNearRate(i: Float, v: Float, rate: real) {
    if i.NaN? || v.NaN? || (i.Infinity? && v.Infinity?) || (i == v == Real(0.0)) then true
    else if i.Infinity? || v == Real(0.0) then false
    else if v.Infinity? then 0.97 * rate <= 0.0 <= 1.03 * rate
    else 0.97 * rate <= i.r / v.r <= 1.03 * rate
  }

  lemma SlippageIsNearRate(i: Float, v: Float, rate: real)
    ensures !OutsideSlippage(ProposedRate(i, v), rate) <==> IsNearRate(i, v, rate)
  {
    assert rate - rate * 0.03 == 0.97 * rate && rate + rate * 0.03 == 1.03 * rate;
    if i.Real? && v.Real? && i.r != 0.0 && v.r != 0.0 {
      Inverse(v.r, i.r);
    }
  }

  /**
   NewOrder, for every input: there is an order exactly if script and values could be read, both
   currencies are listed, the values are near the rate, and the script has at least two and at most
   522 bytes of which the first is a known version. A script too short for that is a panic.
   */
  lemma NewOrderExactly(traderScript: Option<bytes>, inputCurrency: string, inputValue: Option<Float>,
                        outputCurrency: string, outputValue: Option<Float>,
                        rate: real, cast: Cast, id: string, now: int)
    ensures var r := NewOrder(traderScript, inputCurrency, inputValue, outputCurrency, outputValue,
                              rate, cast, id, now);
            var legible := traderScript.Some? && inputValue.Some? && outputValue.Some?
                           && CurrencyToAsset(inputCurrency).Some? && CurrencyToAsset(outputCurrency).Some?;
            && (r.Ok? <==>
                && legible && IsNearRate(inputValue.value, outputValue.value, rate)
                && 2 <= |traderScript.value| <= 522 && traderScript.value[0] in {0x4f, 0x00, 0x51})
            && (r.Panic? <==>
                && legible && IsNearRate(inputValue.value, outputValue.value, rate)
                && (traderScript.value == []
                    || (|traderScript.value| == 1 && traderScript.value[0] in {0x4f, 0x00, 0x51})))
  {
    hide BuildOrder, IsNearRate, CurrencyToAsset;
    if traderScript.Some? && inputValue.Some? && outputValue.Some?
       && CurrencyToAsset(inputCurrency).Some? && CurrencyToAsset(outputCurrency).Some? {
      var i, o := CurrencyToAsset(inputCurrency).value, CurrencyToAsset(outputCurrency).value;
      BuiltExactly(traderScript.value, i, inputValue.value, o, outputValue.value, rate, cast, id, now);
    }
  }

  lemma BuiltExactly(script: bytes, inputAsset: Asset, inputValue: Float, outputAsset: Asset, outputValue: Float,
                     rate: real, cast: Cast, id: string, now: int)
    ensures var r := BuildOrder(script, inputAsset, inputValue, outputAsset, outputValue, rate, cast, id, now);
            && (r.Ok? <==>
                && IsNearRate(inputValue, outputValue, rate) && 2 <= |script| <= 522 && script[0] in {0x4f, 0x00, 0x51})
            && (r.Panic? <==>
                && IsNearRate(inputValue, outputValue, rate)
                && (script == [] || (|script| == 1 && script[0] in {0x4f, 0x00, 0x51})))
  {
    hide LeafScript, OutsideSlippage, ProposedRate, IsNearRate, ToAmount, AssetHashToBytes;
    SlippageIsNearRate(inputValue, outputValue, rate);
    LeafOutcome(script, ToAmount(Scaled(outputValue, outputAsset.precision), cast), outputAsset.hash);
    LeafOutcome(script, ToAmount(Scaled(inputValue, inputAsset.precision), cast), inputAsset.hash);
  }

  lemma LeafOutcome(script: bytes, amount: uint64, h: AssetHash)
    ensures var r := LeafScript(script, amount, AssetHashToBytes(h));
            && (r.Ok? <==> 2 <= |script| <= 522 && script[0] in {0x4f, 0x00, 0x51})
            && (r.Panic? <==> script == [] || (|script| == 1 && script[0] in {0x4f, 0x00, 0x51}))
  {
    hide LeafScript, AssetHashToBytes;
    LeafScriptBytes(script, amount, AssetHashToBytes(h));
  }

  /** Between values that are not zero, the rate of an order that is built is within 3% of the market's. */
  lemma OrderIsNearRate(traderScript: bytes, inputCurrency: string, i: real, outputCurrency: string, v: real,
                        rate: real, cast: Cast, id: string, now: int)
    requires i != 0.0 && v != 0.0
    ensures NewOrder(Some(traderScript), inputCurrency, Some(Real(i)), outputCurrency, Some(Real(v)),
                     rate, cast, id, now).Ok? ==>
              0.97 * rate <= 1.0 / (v / i) <= 1.03 * rate
  {
    hide NewOrder;
    Inverse(v, i);
    NewOrderExactly(Some(traderScript), inputCurrency, Some(Real(i)), outputCurrency, Some(Real(v)),
                    rate, cast, id, now);
  }

  /**
   What an order that is built holds: the maker's script, the two assets asked for, each amount the
   value in hundred-millionths where that fits, and for a witness program the two contracts, byte by
   byte: the fulfill script over the output side, the refund script over the input side.
   */
  lemma NewOrderHolds(traderScript: bytes, inputCurrency: string, inputValue: Float,
                      outputCurrency: string, outputValue: Float, rate: real, cast: Cast, id: string, now: int)
    requires NewOrder(Some(traderScript), inputCurrency, Some(inputValue), outputCurrency, Some(outputValue),
                      rate, cast, id, now).Ok?
    ensures var o := NewOrder(Some(traderScript), inputCurrency, Some(inputValue), outputCurrency, Some(outputValue),
                              rate, cast, id, now).value;
            && o.id == id && o.timestamp == now && o.traderScript == traderScript
            && CurrencyToAsset(inputCurrency).Some? && o.input.asset == CurrencyToAsset(inputCurrency).value.hash
            && CurrencyToAsset(outputCurrency).Some? && o.output.asset == CurrencyToAsset(outputCurrency).value.hash
            && IsInUnits(o.input.amount, inputValue) && IsInUnits(o.output.amount, outputValue)
            && (WellFormed(traderScript) ==>
                && o.fulfillScript == ContractOver(traderScript, o.output)
                && o.refundScript == ContractOver(traderScript, o.input))
  {
    hide LeafScript, OutsideSlippage, ProposedRate, CurrencyToAsset, ToAmount, AssetHashToBytes, Scaled, WellFormed,
      ContractOver, IsInUnits;
    ListedAssets(inputCurrency);
    ListedAssets(outputCurrency);
    EightDigits(inputValue, cast);
    EightDigits(outputValue, cast);
    if WellFormed(traderScript) {
      var i, o := CurrencyToAsset(inputCurrency).value, CurrencyToAsset(outputCurrency).value;
      ContractIsOver(traderScript, Side(i.hash, ToAmount(Scaled(inputValue, i.precision), cast)));
      ContractIsOver(traderScript, Side(o.hash, ToAmount(Scaled(outputValue, o.precision), cast)));
    }
  }

  /** The amount is the value in hundred-millionths, truncated towards zero, wherever that is an amount. */
  predicate IsInUnits(amount: uint64, value: Float) {
    value.Real? && -1.0 < value.r * 100_000_000.0 < 18_446_744_073_709_551_616.0 ==>
      && -1.0 < value.r * 100_000_000.0 - amount as real < 1.0
      && (value.r >= 0.0 ==> amount as real <= value.r * 100_000_000.0)
  }

  lemma EightDigits(value: Float, cast: Cast)
    ensures IsInUnits(ToAmount(Scaled(value, 8), cast), value)
  {
    hide ToAmount;
    PowEight();
  }

  lemma PowEight()
    ensures Pow10(8) == 100_000_000.0
  {
    assert Pow10(4) == 10.0 * Pow10(3) && Pow10(2) == 10.0 * Pow10(1);
    assert Pow10(8) == 10.0 * Pow10(7) && Pow10(6) == 10.0 * Pow10(5);
  }

  /** The contract of a witness program: output 0 has this script, this asset and this amount. */
  function ContractOver(script: bytes, s: Side): bytes
    requires WellFormed(script)
  {
    [0x00, 0xd1, script[0], 0x88, |script| - 2] + script[2..]
    + [0x88, 0x00, 0xce, 0x75, 0x20] + LittleEndian(s.asset, 32)
    + [0x88, 0x00, 0xcf, 0x75, 0x08] + LittleEndian(s.amount, 8) + [0x87]
  }

  lemma ContractIsOver(script: bytes, s: Side)
    requires WellFormed(script)
    ensures LeafScript(script, s.amount, AssetHashToBytes(s.asset)) == Ok(ContractOver(script, s))
  {
    hide LeafScript, LittleEndian;
    ContractBytes(script, s.amount, AssetHashToBytes(s.asset));
    assert AssetHashToBytes(s.asset)[1..] == LittleEndian(s.asset, 32);
  }

  /** InputValue and OutputValue; an asset without a currency has precision 0. */
  function SideValue(s: Side): real {
    var currency := AssetToCurrency(s.asset);
    var asset := if currency.Some? then CurrencyToAsset(currency.value) else None;
    s.amount as real / Pow10(if asset.Some? then asset.value.precision else 0)
  }

  /** The two tables agree: an amount of a listed asset is displayed at the asset's precision. */
  lemma DisplayedValue(currency: string, amount: uint64)
    requires CurrencyToAsset(currency).Some?
    ensures var asset := CurrencyToAsset(currency).value;
            && SideValue(Side(asset.hash, amount)) == amount as real / Pow10(asset.precision)
            && SideValue(Side(asset.hash, amount)) == amount as real / 100_000_000.0
  {
    hide Pow10;
    PowEight();
  }

  /** The amount differs from the value by less than one unit of the asset. */
  predicate IsWithinUnit(amount: uint64, value: real, precision: nat) {
    -1.0 / Pow10(precision) < value - amount as real / Pow10(precision) < 1.0 / Pow10(precision)
  }

  predicate IsTruncated(amount: uint64, value: real, precision: nat) {
    && (IsWithinUnit(amount, value, precision) <==> Convertible(value, precision))
    && (Convertible(value, precision) && value >= 0.0 ==> amount as real / Pow10(precision) <= value)
  }

  /**
   The amounts of an order are the values asked for up to less than one unit of each asset exactly
   where the conversion is defined, whatever it yields elsewhere; no more than that is ever asked.
   */
  lemma AmountsTruncate(traderScript: bytes, inputAsset: Asset, inputValue: real, outputAsset: Asset,
                        outputValue: real, rate: real, cast: Cast, id: string, now: int)
    ensures var r := BuildOrder(traderScript, inputAsset, Real(inputValue), outputAsset, Real(outputValue),
                                rate, cast, id, now);
            r.Ok? ==>
              && IsTruncated(r.value.input.amount, inputValue, inputAsset.precision)
              && IsTruncated(r.value.output.amount, outputValue, outputAsset.precision)
  {
    hide LeafScript, ProposedRate, OutsideSlippage, AssetHashToBytes, Pow10;
    var r := BuildOrder(traderScript, inputAsset, Real(inputValue), outputAsset, Real(outputValue),
                        rate, cast, id, now);
    if r.Ok? {
      AmountIsTruncated(inputValue, inputAsset.precision, cast);
      AmountIsTruncated(outputValue, outputAsset.precision, cast);
    }
  }

  lemma AmountIsTruncated(value: real, precision: nat, cast: Cast)
    ensures IsTruncated(ToAmount(Scaled(Real(value), precision), cast), value, precision)
  {
    hide ToAmount, Units;
    var amount := ToAmount(Scaled(Real(value), precision), cast);
    UnitsBack(value, amount as real, precision);
  }

  lemma UnitsBack(value: real, amount: real, precision: nat)
    ensures -1.0 < Units(value, precision) - amount < 1.0 <==>
            -1.0 / Pow10(precision) < value - amount / Pow10(precision) < 1.0 / Pow10(precision)
    ensures amount <= Units(value, precision) ==> amount / Pow10(precision) <= value
    ensures value >= 0.0 ==> Units(value, precision) >= 0.0
  {
    hide Pow10;
    ScaleBack(value, amount, Pow10(precision));
    if value >= 0.0 {
      MulPositive(value, Pow10(precision));
    }
  }

  lemma ScaleBack(v: real, a: real, p: real)
    requires p > 0.0
    ensures -1.0 < v * p - a < 1.0 <==> -1.0 / p < v - a / p < 1.0 / p
    ensures a <= v * p ==> a / p <= v
  {
    var d, u := v - a / p, 1.0 / p;
    assert d * p == v * p - a;
    assert u * p == 1.0;
    assert -1.0 / p == -u;
    assert (d - u) * p == d * p - 1.0 && (d + u) * p == d * p + 1.0;
  }

  // ---- Quotes ----

  datatype Quote = Quote(inputCurrency: string, inputValue: Float, outputCurrency: string, outputValue: Float)

  const FEE_PERCENTAGE := 1.0

  function Times(x: Float, k: real): Float {
    match x
    case Real(r) => Real(r * k)
    case Infinity(negative) => if k == 0.0 then NaN else Infinity(negative != (k < 0.0))
    case NaN => NaN
  }

  /** What the trade form is turned into; any other trade type leaves the quote empty. */
  function MakeQuote(tradeType: string, base: string, quote: string, amount: Float, price: real): Quote {
    if tradeType == "Buy" then Quote(quote, Times(Times(amount, price), 1.0 + FEE_PERCENTAGE / 100.0), base, amount)
    else if tradeType == "Sell" then
      Quote(base, amount, quote, Times(Times(amount, price), 1.0 - FEE_PERCENTAGE / 100.0))
    else Quote("", Real(0.0), "", Real(0.0))
  }

  predicate QuotePasses(q: Quote, rate: real) {
    !OutsideSlippage(ProposedRate(q.inputValue, q.outputValue), rate)
  }

  lemma MulPositive(a: real, b: real)
    requires a >= 0.0 && b >= 0.0
    ensures a * b >= 0.0 && (a > 0.0 && b > 0.0 ==> a * b > 0.0)
  {
  }

  lemma Inverse(x: real, y: real)
    requires x != 0.0 && y != 0.0
    ensures x / y != 0.0 && 1.0 / (x / y) == y / x
  {
    assert (y / x) * (x / y) == 1.0 by {
      assert (y / x) * x == y;
      assert (x / y) * y == x;
      assert ((y / x) * (x / y)) * y == (y / x) * x;
    }
    var q := x / y;
    assert (1.0 / q) * q == 1.0;
    assert ((1.0 / q) - (y / x)) * q == 0.0;
  }

  /** Every Buy quote passes, of a negative amount as well: its rate is the price and the 1% fee. */
  lemma BuyPasses(base: string, quote: string, amount: Float, price: real)
    requires price > 0.0
    ensures QuotePasses(MakeQuote("Buy", base, quote, amount, price), price)
  {
    if amount.Real? && amount.r != 0.0 {
      var x, k := amount.r, 1.01 * price;
      assert MakeQuote("Buy", base, quote, amount, price).inputValue == Real(k * x);
      NonZero(k, x);
      Inverse(x, k * x);
      DivideBack(k, x);
    }
  }

  lemma NonZero(a: real, b: real)
    requires a != 0.0 && b != 0.0
    ensures a * b != 0.0
  {
    assert (a * b) / b == a;
  }

  lemma DivideBack(x: real, y: real)
    requires y != 0.0
    ensures (x * y) / y == x
  {
    var q := (x * y) / y;
    assert q * y == x * y;
    assert (q - x) * y == 0.0;
  }

  /**
   A Sell quote proposes the inverse of the price: it passes exactly when the price is within the
   tolerance of its own inverse, or when nothing is sold, or no finite amount.
   */
  lemma SellPasses(base: string, quote: string, amount: Float, price: real)
    requires price > 0.0
    ensures QuotePasses(MakeQuote("Sell", base, quote, amount, price), price) <==>
            !amount.Real? || amount.r == 0.0 || 1.0 / (0.99 * 1.03) <= price * price <= 1.0 / (0.99 * 0.97)
  {
    if amount.Real? && amount.r != 0.0 {
      var x, k := amount.r, 0.99 * price;
      assert MakeQuote("Sell", base, quote, amount, price).outputValue == Real(k * x);
      NonZero(k, x);
      DivideBack(k, x);
      InverseBounds(k, 0.97 * price, 1.03 * price);
      SquareBounds(price * price);
      assert price - price * 0.03 == 0.97 * price && price + price * 0.03 == 1.03 * price;
      assert (0.97 * price) * k == 0.99 * 0.97 * (price * price);
      assert (1.03 * price) * k == 0.99 * 1.03 * (price * price);
    }
  }

  lemma InverseBounds(y: real, low: real, high: real)
    requires y > 0.0
    ensures low <= 1.0 / y <==> low * y <= 1.0
    ensures 1.0 / y <= high <==> 1.0 <= high * y
  {
    var z := 1.0 / y;
    assert z * y == 1.0;
    assert (z - low) * y == 1.0 - low * y;
    assert (high - z) * y == high * y - 1.0;
  }

  lemma SquareBounds(p: real)
    ensures 1.0 / (0.99 * 1.03) <= p <==> 1.0 <= 0.99 * 1.03 * p
    ensures p <= 1.0 / (0.99 * 0.97) <==> 0.99 * 0.97 * p <= 1.0
  {
  }

  /** What the form turns into a quote: who gives what, and the 1% fee on top of the price or off it. */
  lemma QuotesInWords(base: string, quote: string, x: real, price: real)
    ensures MakeQuote("Buy", base, quote, Real(x), price) == Quote(quote, Real(1.01 * price * x), base, Real(x))
    ensures MakeQuote("Sell", base, quote, Real(x), price) == Quote(base, Real(x), quote, Real(0.99 * price * x))
    ensures forall t: string :: t != "Buy" && t != "Sell" ==>
              MakeQuote(t, base, quote, Real(x), price) == Quote("", Real(0.0), "", Real(0.0))
  {
  }

  /** The price with its fee. */
  function BuyRate(price: real): (k: real)
    ensures price > 0.0 ==> k > price
  {
    1.01 * price
  }

  /** The amounts are at this rate up to the truncation of both. */
  predicate IsPriced(input: uint64, output: uint64, rate: real) {
    -1.0 < input as real - rate * output as real < rate
  }

  /** The price of a Buy order in whole units, wherever both values convert. */
  lemma BuyOrderIsPriced(traderScript: bytes, amount: real, price: real, base: Asset, quote: Asset,
                         rate: real, cast: Cast, id: string, now: int)
    requires price > 0.0 && base.precision == quote.precision
    requires Convertible(amount, base.precision) && Convertible(BuyRate(price) * amount, quote.precision)
    ensures var q := MakeQuote("Buy", "", "", Real(amount), price);
            var r := BuildOrder(traderScript, quote, q.inputValue, base, q.outputValue, rate, cast, id, now);
            r.Ok? ==> IsPriced(r.value.input.amount, r.value.output.amount, BuyRate(price))
  {
    hide BuildOrder, ToAmount, Scaled, MakeQuote, IsPriced, BuyRate, Units;
    var q := MakeQuote("Buy", "", "", Real(amount), price);
    BuiltAmounts(traderScript, quote, q.inputValue, base, q.outputValue, rate, cast, id, now);
    QuotedAtRate(amount, price);
    PricedAmounts(amount, BuyRate(price) * amount, BuyRate(price), base.precision, cast);
  }

  /** That is, the amounts are at 1.01 times the price up to less than a unit of one and that much of the other. */
  lemma PricedInWords(input: uint64, output: uint64, price: real)
    ensures IsPriced(input, output, BuyRate(price)) <==>
            -1.0 < input as real - 1.01 * price * output as real < 1.01 * price
  {
  }

  lemma QuotedAtRate(amount: real, price: real)
    ensures var q := MakeQuote("Buy", "", "", Real(amount), price);
            q.inputValue == Real(BuyRate(price) * amount) && q.outputValue == Real(amount)
  {
  }

  lemma PricedAmounts(amount: real, value: real, k: real, precision: nat, cast: Cast)
    requires k > 0.0 && value == k * amount && Convertible(amount, precision) && Convertible(value, precision)
    ensures IsPriced(ToAmount(Scaled(Real(value), precision), cast), ToAmount(Scaled(Real(amount), precision), cast), k)
  {
    hide Units, ToAmount, IsPriced;
    UnitsOfMultiple(amount, value, k, precision);
    TruncatedPrice(k, Units(amount, precision), Units(value, precision), cast);
  }

  lemma UnitsOfMultiple(amount: real, value: real, k: real, precision: nat)
    requires value == k * amount
    ensures Units(value, precision) == k * Units(amount, precision)
  {
    hide Pow10;
  }

  lemma BuiltAmounts(traderScript: bytes, inputAsset: Asset, inputValue: Float, outputAsset: Asset, outputValue: Float,
                     rate: real, cast: Cast, id: string, now: int)
    ensures var r := BuildOrder(traderScript, inputAsset, inputValue, outputAsset, outputValue, rate, cast, id, now);
            r.Ok? ==>
              && r.value.input.amount == ToAmount(Scaled(inputValue, inputAsset.precision), cast)
              && r.value.output.amount == ToAmount(Scaled(outputValue, outputAsset.precision), cast)
  {
    hide LeafScript, ProposedRate, OutsideSlippage, AssetHashToBytes, Units, ToAmount;
  }

  lemma TruncatedPrice(k: real, x: real, y: real, cast: Cast)
    requires k > 0.0 && y == k * x && -1.0 < x < TWO_TO_THE_64 as real && -1.0 < y < TWO_TO_THE_64 as real
    ensures IsPriced(ToAmount(Real(y), cast), ToAmount(Real(x), cast), k)
  {
    var i, o := ToAmount(Real(y), cast) as real, ToAmount(Real(x), cast) as real;
    if x < 0.0 {
      MulPositive(k, -x);
      assert k * -x == -y;
      assert i == 0.0 && o == 0.0;
      assert k * o == 0.0;
    } else {
      MulPositive(k, x);
      assert i <= y < i + 1.0 && o <= x < o + 1.0;
      PriceOfFloors(i, o, x, k);
    }
  }

  lemma PriceOfFloors(i: real, o: real, x: real, k: real)
    requires k > 0.0 && i <= k * x < i + 1.0 && o <= x < o + 1.0
    ensures -1.0 < i - k * o < k
  {
    var d := x - o;
    var kd, kx, ko := k * d, k * x, k * o;
    assert kx == ko + kd by {
      assert x == o + d;
    }
    assert kd >= 0.0 by {
      MulPositive(k, d);
    }
    assert kd < k by {
      MulPositive(k, 1.0 - d);
      assert k * (1.0 - d) == k - kd;
    }
  }
}
