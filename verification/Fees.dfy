/** Transaction size, fee estimates, and the loop that settles the fee (apollo.go). */
module Fees {
  import opened Wrappers
  import opened Ledger
  import opened MinUtxo
  import opened Balance
  import opened Redeemers

  type Budgets = map<RedeemerKey, Entry>

  /** Collateral as it appears in the body. */
  datatype Sizing = Sizing(collaterals: seq<Utxo>, totalCollateral: Int64, collateralReturn: Option<Output>)

  /** What the chain and the codec supply. `rest` is every byte of the signed transaction
      that the outputs, the fee, the collateral and the redeemers do not account for;
      it and the fees of scripts are left uninterpreted. */
  datatype Chain = Chain(
    outputBase: OutputBase,
    price: int,
    coefficient: Int64,
    constant: Int64,
    maxTxFee: Uint64,
    collateralPercent: Int64,
    rest: seq<Utxo> -> nat,
    redeemerBytes: Budgets -> nat,
    redeemerFee: Budgets -> Result<nat>,
    referenceFee: seq<Utxo> -> Result<nat>)

  /** Two's-complement wrapping of an int64 result. */
  function Wrap64(n: int): Int64 {
    if -MAX_I64 - 1 <= n <= MAX_I64 then n
    else
      var m := n % 0x1_0000_0000_0000_0000;
      if m > MAX_I64 then m - 0x1_0000_0000_0000_0000 else m
  }

  lemma WrapInRange(n: int)
    requires -MAX_I64 - 1 <= n <= MAX_I64
    ensures Wrap64(n) == n
  {
  }

  function OutputsSize(base: OutputBase, outputs: seq<Output>): nat {
    if outputs == [] then 0
    else OutputsSize(base, outputs[..|outputs| - 1]) + OutputSize(base, outputs[|outputs| - 1])
  }

  /** Body key 2 is omitted for a zero fee. */
  function FeeFieldSize(fee: Uint64): nat {
    if fee == 0 then 0 else 1 + UintWidth(fee)
  }

  function SizingSize(base: OutputBase, s: Sizing): nat {
    if s.collaterals == [] then 0
    else
      (if s.totalCollateral > 0 then 1 + UintWidth(s.totalCollateral) else 0) +
      (if s.collateralReturn.Some? then 1 + OutputSize(base, s.collateralReturn.value) else 0)
  }

  function TxSize(chain: Chain, inputs: seq<Utxo>, outputs: seq<Output>, sizing: Sizing, budgets: Budgets,
                  fee: Uint64): nat {
    chain.rest(inputs) + UintWidth(|outputs|) + OutputsSize(chain.outputBase, outputs) +
    SizingSize(chain.outputBase, sizing) + chain.redeemerBytes(budgets) + FeeFieldSize(fee)
  }

  function PlaceholderFee(chain: Chain): Uint64 {
    if chain.maxTxFee == 0 then 2_000_000 else chain.maxTxFee
  }

  /** The price of a size, the scripts and the reference scripts, in int64 arithmetic. */
  function PriceOf(size: nat, coefficient: Int64, constant: Int64, scripts: nat, references: nat): Result<Int64> {
    var fee := Wrap64(Wrap64(Wrap64(size * coefficient) + constant) + scripts);
    if references > Wrap64(MAX_I64 - fee) then Err(FeeOverflow) else Ok(Wrap64(fee + references))
  }

  /** The same price in unbounded arithmetic. */
  function ExactPrice(size: nat, coefficient: int, constant: int, scripts: nat, references: nat): int {
    size * coefficient + constant + scripts + references
  }

  lemma PriceExact(size: nat, coefficient: Int64, constant: Int64, scripts: nat, references: nat)
    requires coefficient >= 0 && constant >= 0
    requires ExactPrice(size, coefficient, constant, scripts, references) <= MAX_I64
    ensures PriceOf(size, coefficient, constant, scripts, references) ==
            Ok(ExactPrice(size, coefficient, constant, scripts, references))
  {
    MulMonotone(0, size, coefficient);
    WrapsExactly(size * coefficient, constant, scripts, references);
  }

  lemma WrapsExactly(p: nat, constant: nat, scripts: nat, references: nat)
    requires p + constant + scripts + references <= MAX_I64
    ensures Wrap64(Wrap64(Wrap64(p) + constant) + scripts) == p + constant + scripts
    ensures Wrap64(MAX_I64 - (p + constant + scripts)) >= references
    ensures Wrap64(p + constant + scripts + references) == p + constant + scripts + references
  {
  }

  lemma MulMonotone(a: int, b: int, c: nat)
    requires a <= b
    ensures a * c <= b * c
  {
    assert (b - a) * c >= 0;
  }

  function ScriptFee(chain: Chain, budgets: Budgets): Result<nat> {
    if budgets == map[] then Ok(0) else chain.redeemerFee(budgets)
  }

  /** `estimateFee`. */
  function EstimateFee(chain: Chain, inputs: seq<Utxo>, outputs: seq<Output>, sizing: Sizing,
                       budgets: Budgets): Result<Int64> {
    match ScriptFee(chain, budgets)
    case Err(e) => Err(e)
    case Ok(scripts) =>
      match chain.referenceFee(inputs)
      case Err(e) => Err(e)
      case Ok(references) =>
        PriceOf(TxSize(chain, inputs, outputs, sizing, budgets, PlaceholderFee(chain)),
                chain.coefficient, chain.constant,
                scripts, references)
  }

  /** An estimate plus padding, clamped at zero as the loop does. */
  function Padded(fee: Int64, padding: Int64): Int64 {
    if Wrap64(fee + padding) < 0 then 0 else Wrap64(fee + padding)
  }

  // ----- adequacy -----

  /** The linear fee of the transaction as encoded with this fee, scripts included. */
  function RequiredFee(chain: Chain, inputs: seq<Utxo>, outputs: seq<Output>, sizing: Sizing, budgets: Budgets,
                       fee: Uint64): int
    requires ScriptFee(chain, budgets).Ok? && chain.referenceFee(inputs).Ok?
  {
    ExactPrice(TxSize(chain, inputs, outputs, sizing, budgets, fee), chain.coefficient, chain.constant,
               ScriptFee(chain, budgets).value, chain.referenceFee(inputs).value)
  }

  /** A fee of at least the estimate pays for the transaction as finally encoded, whenever its
      own encoding is no wider than the placeholder's. */
  lemma FeeCoversEncodedSize(chain: Chain, inputs: seq<Utxo>, outputs: seq<Output>, sizing: Sizing, budgets: Budgets,
                             fee: Uint64)
    requires chain.coefficient >= 0 && chain.constant >= 0
    requires EstimateFee(chain, inputs, outputs, sizing, budgets).Ok?
    requires fee >= EstimateFee(chain, inputs, outputs, sizing, budgets).value
    requires UintWidth(fee) <= UintWidth(PlaceholderFee(chain))
    requires RequiredFee(chain, inputs, outputs, sizing, budgets, PlaceholderFee(chain)) <= MAX_I64
    ensures fee >= RequiredFee(chain, inputs, outputs, sizing, budgets, fee)
  {
    var priced := TxSize(chain, inputs, outputs, sizing, budgets, PlaceholderFee(chain));
    PriceExact(priced, chain.coefficient, chain.constant,
               ScriptFee(chain, budgets).value, chain.referenceFee(inputs).value);
    MulMonotone(TxSize(chain, inputs, outputs, sizing, budgets, fee), priced, chain.coefficient);
  }

  // ----- the loop without scripts and collateral -----

  const NO_COLLATERAL := Sizing([], 0, None)

  /** The estimate for these outputs when nothing else about the transaction can change. */
  function PlainEstimate(chain: Chain, inputs: seq<Utxo>, outputs: seq<Output>): Result<Int64> {
    EstimateFee(chain, inputs, outputs, NO_COLLATERAL, map[])
  }

  lemma OutputsSizeAppend(base: OutputBase, outputs: seq<Output>, o: Output)
    ensures OutputsSize(base, outputs + [o]) == OutputsSize(base, outputs) + OutputSize(base, o)
  {
    assert (outputs + [o])[..|outputs|] == outputs;
  }

  /** The padded estimate of this shape stays within int64. */
  ghost predicate EstimateFits(chain: Chain, inputs: seq<Utxo>, outputs: seq<Output>, padding: Int64) {
    && chain.coefficient >= 0 && chain.constant >= 0 && padding >= 0
    && (chain.referenceFee(inputs).Ok? ==>
          RequiredFee(chain, inputs, outputs, NO_COLLATERAL, map[], PlaceholderFee(chain)) + padding <= MAX_I64)
  }

  /** Such a shape has a price, if its reference scripts do. */
  lemma FittingIsPriced(chain: Chain, inputs: seq<Utxo>, outputs: seq<Output>, padding: Int64)
    requires EstimateFits(chain, inputs, outputs, padding) && chain.referenceFee(inputs).Ok?
    ensures PlainEstimate(chain, inputs, outputs).Ok?
  {
    var fee := PlaceholderFee(chain);
    PriceExact(TxSize(chain, inputs, outputs, NO_COLLATERAL, map[], fee), chain.coefficient, chain.constant, 0,
               chain.referenceFee(inputs).value);
  }

  ghost predicate PlainSizeAtMost(chain: Chain, inputs: seq<Utxo>, small: seq<Output>, large: seq<Output>) {
    var fee := PlaceholderFee(chain);
    TxSize(chain, inputs, small, NO_COLLATERAL, map[], fee) <= TxSize(chain, inputs, large, NO_COLLATERAL, map[], fee)
  }

  /** The same over plain numbers. */
  lemma PricedLower(s: nat, l: nat, coefficient: Int64, constant: Int64, references: nat, padding: Int64)
    requires coefficient >= 0 && constant >= 0 && padding >= 0 && s <= l
    requires ExactPrice(l, coefficient, constant, 0, references) + padding <= MAX_I64
    ensures ExactPrice(s, coefficient, constant, 0, references) <= ExactPrice(l, coefficient, constant, 0, references)
    ensures var small, large := PriceOf(s, coefficient, constant, 0, references),
                                PriceOf(l, coefficient, constant, 0, references);
            small.Ok? && large.Ok? && Padded(small.value, padding) <= Padded(large.value, padding)
  {
    MulMonotone(s, l, coefficient);
    MulMonotone(0, s, coefficient);
    PriceExact(l, coefficient, constant, 0, references);
    PriceExact(s, coefficient, constant, 0, references);
    PaddedExact(ExactPrice(s, coefficient, constant, 0, references), padding);
    PaddedExact(ExactPrice(l, coefficient, constant, 0, references), padding);
  }

  lemma PaddedExact(fee: Int64, padding: Int64)
    requires fee >= 0 && padding >= 0 && fee + padding <= MAX_I64
    ensures Padded(fee, padding) == fee + padding
  {
    WrapInRange(fee + padding);
  }

  /** A shape that is no larger is priced no higher. */
  lemma SmallerShapeCheaper(chain: Chain, inputs: seq<Utxo>, small: seq<Output>, large: seq<Output>, padding: Int64)
    requires PlainSizeAtMost(chain, inputs, small, large) && EstimateFits(chain, inputs, large, padding)
    ensures EstimateFits(chain, inputs, small, padding)
    ensures PlainEstimate(chain, inputs, large).Ok? <==> PlainEstimate(chain, inputs, small).Ok?
    ensures PlainEstimate(chain, inputs, large).Ok? ==>
              Padded(PlainEstimate(chain, inputs, small).value, padding) <=
              Padded(PlainEstimate(chain, inputs, large).value, padding)
  {
    var s := TxSize(chain, inputs, small, NO_COLLATERAL, map[], PlaceholderFee(chain));
    var l := TxSize(chain, inputs, large, NO_COLLATERAL, map[], PlaceholderFee(chain));
    if chain.referenceFee(inputs).Ok? {
      PricedLower(s, l, chain.coefficient, chain.constant, chain.referenceFee(inputs).value, padding);
    }
  }

  /** Dropping a change output, or lowering its coin, never enlarges the transaction. */
  lemma SmallerChangeSmaller(chain: Chain, inputs: seq<Utxo>, baseOutputs: seq<Output>, o: Output, coin: Uint64)
    requires coin <= o.coin
    ensures PlainSizeAtMost(chain, inputs, baseOutputs, baseOutputs + [o])
    ensures PlainSizeAtMost(chain, inputs, baseOutputs + [o.(coin := coin)], baseOutputs + [o])
  {
    OutputsSizeAppend(chain.outputBase, baseOutputs, o);
    OutputsSizeAppend(chain.outputBase, baseOutputs, o.(coin := coin));
    UintWidthMonotone(|baseOutputs|, |baseOutputs| + 1);
    UintWidthMonotone(coin, o.coin);
  }

  /** The fee moves the leftover's coin and nothing else. */
  lemma LeftoverShift(ctx: Context, low: Uint64, high: Uint64)
    requires low <= high && Leftover(ctx, low).Ok? && Leftover(ctx, high).Ok?
    ensures Leftover(ctx, high).value.assets == Leftover(ctx, low).value.assets
    ensures Leftover(ctx, high).value.coin == Leftover(ctx, low).value.coin - (high - low)
  {
  }

  /** One raise of the fee is enough. Starting from the price of the base outputs, balancing
      either adds no change, which leaves the price alone, or adds change, whose price the
      next fee pays; and at that fee the change can only be smaller or gone. */
  lemma OneRaiseSettles(chain: Chain, inputs: seq<Utxo>, baseOutputs: seq<Output>, ctx: Context, padding: Int64,
                        first: Int64, second: Int64)
    requires PlainEstimate(chain, inputs, baseOutputs).Ok?
    requires first == Padded(PlainEstimate(chain, inputs, baseOutputs).value, padding)
    requires var b := BuildBalancedOutputs(chain.outputBase, chain.price, baseOutputs, first, ctx);
             && b.Ok?
             && EstimateFits(chain, inputs, b.value.outputs, padding)
             && PlainEstimate(chain, inputs, b.value.outputs).Ok?
             && var next := Padded(PlainEstimate(chain, inputs, b.value.outputs).value, padding);
                second == if next < first then first else next
    requires BuildBalancedOutputs(chain.outputBase, chain.price, baseOutputs, second, ctx).Ok?
    ensures var b := BuildBalancedOutputs(chain.outputBase, chain.price, baseOutputs, second, ctx).value;
            PlainEstimate(chain, inputs, b.outputs).Ok? &&
            Padded(PlainEstimate(chain, inputs, b.outputs).value, padding) <= second
  {
    var e0 := BalanceEnding(chain.outputBase, chain.price, baseOutputs, first, ctx);
    if e0.Emitted? {
      var e1 := BalanceEnding(chain.outputBase, chain.price, baseOutputs, second, ctx);
      LeftoverShift(ctx, first, second);
      var coin := if e1.Emitted? then e1.change.coin else 0;
      SmallerChangeSmaller(chain, inputs, baseOutputs, e0.change, coin);
      if e1.Emitted? {
        assert e1.change == e0.change.(coin := coin);
        SmallerShapeCheaper(chain, inputs, baseOutputs + [e1.change], baseOutputs + [e0.change], padding);
      } else {
        SmallerShapeCheaper(chain, inputs, baseOutputs, baseOutputs + [e0.change], padding);
      }
    }
  }
}
