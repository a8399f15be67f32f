/** A payment from a pool of ADA-only UTxOs, some with reference scripts: when its build completes. */
module PaymentExample {
  import opened Wrappers
  import opened Orders
  import opened Ledger
  import opened MinUtxo
  import opened Balance
  import opened Redeemers
  import opened Fees
  import opened Obligations
  import opened Reserves
  import opened Builder
  import BuilderExample
  import Selection

  /** Takes the first UTxO that covers the target alone. */
  function FirstFit(available: seq<Utxo>, target: Value): Result<seq<Utxo>> {
    if available == [] then Err(Insufficient)
    else if available[0].amount >= target.coin then Ok([available[0]])
    else FirstFit(available[1..], target)
  }

  /** What spending a UTxO costs for the reference script it carries. */
  function ScriptCost(u: Utxo): nat {
    if u.txin.index == 1 then 100_000
    else if u.txin.index == 2 then 200_000
    else 0
  }

  function ScriptCosts(us: seq<Utxo>): (cost: nat)
    ensures cost <= 200_000 * |us|
  {
    if us == [] then 0 else ScriptCost(us[0]) + ScriptCosts(us[1..])
  }

  function ScriptChain(): Chain {
    BuilderExample.ExampleChain().(referenceFee := us => Ok(ScriptCosts(us)))
  }

  const PAYMENT: Uint64 := 10_000_000
  const CEILING: Uint64 := 876_277

  /** The price of the payment with no inputs, and what one input adds to it. */
  const BARE_PRICE: Uint64 := 167_569
  const PER_INPUT: Uint64 := 6_600

  /** The price of spending this UTxO alone. */
  function PriceOfOne(u: Utxo): nat {
    BARE_PRICE + PER_INPUT + ScriptCost(u)
  }

  predicate AdaPool(us: seq<Utxo>) {
    DistinctRefs(us) && forall u :: u in us ==> u.assets.None? && 0 < u.amount <= 2 * PAYMENT
  }

  function Req(receiver: Address): Request {
    Request([Output(receiver, PAYMENT, None, 0)], [], [], [], 0, 0, 0, [], [])
  }

  ghost predicate Example(b: Builder, receiver: Address)
    reads b
  {
    && b.chain == ScriptChain() && b.req == Req(receiver) && b.options == FeeOptions(0, false, 0, false)
    && b.selector == FirstFit && b.preselected == [] && !b.hasScripts && AdaPool(b.utxos) && |b.utxos| <= 4
    && b.NothingRegistered()
    && b.used == {} && b.collaterals == [] && b.overlap.None? && b.evaluated.None?
  }

  method ExampleBuild(pool: seq<Utxo>, receiver: Address, changeAddress: Address, evaluator: Evaluator)
    returns (b: Builder)
    requires AdaPool(pool) && |pool| <= 4
    ensures fresh(b) && Example(b, receiver) && b.ReservationValid() && b.utxos == pool
  {
    b := new Builder(ScriptChain(), Req(receiver), FeeOptions(0, false, 0, false), changeAddress, FirstFit, evaluator,
                             _ => map[], [], false, 0, 0, pool, []);
  }

  // ----- what the build needs -----

  function ExampleNeeds(): Needs {
    Needs(SimpleValue(PAYMENT), SimpleValue(0), SimpleValue(0), SimpleValue(PAYMENT), SimpleValue(0), SimpleValue(0),
          CEILING)
  }

  lemma OnlyThePayment(receiver: Address)
    ensures TotalRequired(Req(receiver)) == Ok(SimpleValue(PAYMENT))
    ensures Governance(Req(receiver)) == Ok(SimpleValue(0)) && MintValue(Req(receiver).mint) == Ok(SimpleValue(0))
  {
    var outputs := Req(receiver).outputs;
    assert outputs[..0] == [];
    assert TotalOutputValue(outputs) == Ok(SimpleValue(PAYMENT));
  }

  lemma NothingImplicit(receiver: Address, coin: Uint64)
    ensures WithImplicitInputs(Req(receiver), SimpleValue(coin), SimpleValue(0)) == Ok(SimpleValue(coin))
  {
  }

  lemma NeedsHold(b: Builder, receiver: Address)
    requires Example(b, receiver)
    ensures b.NeedsOfRequest(ExampleNeeds())
  {
    OnlyThePayment(receiver);
    NothingImplicit(receiver, 0);
  }

  // ----- what it costs -----

  lemma PaymentSize(receiver: Address, us: seq<Utxo>, sizing: Sizing)
    requires sizing.collaterals == []
    ensures TxSize(ScriptChain(), us, Req(receiver).outputs, sizing, map[], CEILING) == 277 + 150 * |us|
  {
    var outputs := Req(receiver).outputs;
    assert outputs[..0] == [];
    assert OutputsSize(ScriptChain().outputBase, outputs) == 70;
  }

  lemma Price(b: Builder, receiver: Address, us: seq<Utxo>)
    requires Example(b, receiver) && |us| <= 1
    ensures b.Estimate(us, b.req.outputs) == Ok(BARE_PRICE + PER_INPUT * |us| + ScriptCosts(us))
    ensures PlainEstimate(b.chain, us, b.req.outputs) == b.Estimate(us, b.req.outputs)
  {
    PaymentSize(receiver, us, b.Sizing());
    PaymentSize(receiver, us, NO_COLLATERAL);
    PriceExact(277 + 150 * |us|, b.chain.coefficient, b.chain.constant, 0, ScriptCosts(us));
  }

  lemma FirstReserveIs(b: Builder, receiver: Address)
    requires Example(b, receiver)
    ensures b.FirstReserve(ExampleNeeds()) == BARE_PRICE
  {
    Price(b, receiver, []);
  }

  /** With one UTxO selected this is the price, which is also its reserve unless past the ceiling. */
  lemma CostOfOne(b: Builder, receiver: Address, u: Utxo)
    requires Example(b, receiver)
    ensures b.Sorted([u]) == [u]
    ensures b.CostOf([u], CEILING) == PriceOfOne(u) && b.PlainStart([u]) == Ok(PriceOfOne(u))
  {
    assert b.preselected + [u] == [u] && [u][1..] == [] && [u][..0] == [];
    Price(b, receiver, [u]);
  }

  // ----- what is selected -----

  lemma {:induction false} NothingUsed(b: Builder, receiver: Address, us: seq<Utxo>)
    requires Example(b, receiver)
    ensures b.AvailableIn(us, b.State()) == us
  {
    if us != [] {
      NothingUsed(b, receiver, us[..|us| - 1]);
    }
  }

  /** First fit stops at the first that covers. */
  lemma {:induction false} FitsAt(us: seq<Utxo>, target: Value, i: nat)
    requires i < |us| && us[i].amount >= target.coin && forall k :: 0 <= k < i ==> us[k].amount < target.coin
    ensures FirstFit(us, target) == Ok([us[i]])
  {
    if i > 0 {
      FitsAt(us[1..], target, i - 1);
    }
  }

  /** and the builder accepts that UTxO. */
  lemma OneAccepted(us: seq<Utxo>, i: nat, target: Uint64)
    requires AdaPool(us) && i < |us| && us[i].amount >= target
    ensures Selection.Accept(us, [us[i]], SimpleValue(target)) == Ok([us[i]])
  {
    Selection.CanonicalIsIdentity(us, [us[i]]);
    TotalOfOne(us[i]);
  }

  lemma SelectedAt(b: Builder, receiver: Address, reserve: Int64, i: nat)
    requires Example(b, receiver) && 0 <= reserve <= CEILING && i < |b.utxos|
    requires b.utxos[i].amount >= PAYMENT + reserve
    requires forall k :: 0 <= k < i ==> b.utxos[k].amount < PAYMENT + reserve
    ensures b.SelectionAt(ExampleNeeds(), reserve) == Ok([b.utxos[i]])
  {
    NothingUsed(b, receiver, b.utxos);
    TargetIs(b, reserve);
    SelectsFirstFit(b, receiver, PAYMENT + reserve, i);
  }

  lemma TargetIs(b: Builder, reserve: Int64)
    requires 0 <= reserve <= CEILING
    ensures b.SelectionTarget(ExampleNeeds(), reserve) == Ok(SimpleValue(PAYMENT + reserve))
  {
  }

  lemma SelectsFirstFit(b: Builder, receiver: Address, target: Uint64, i: nat)
    requires Example(b, receiver) && i < |b.utxos| && 0 < target <= b.utxos[i].amount
    requires forall k :: 0 <= k < i ==> b.utxos[k].amount < target
    ensures Selection.Select(b.SettingFor(b.utxos), SimpleValue(target), SimpleValue(0)) == Ok([b.utxos[i]])
  {
    FitsAt(b.utxos, SimpleValue(target), i);
    OneAccepted(b.utxos, i, target);
  }

  // ----- what can be balanced -----

  lemma TotalOfOne(u: Utxo)
    requires u.ValidAmount() && u.assets.None?
    ensures TotalValue([u]) == Ok(SimpleValue(u.amount))
  {
    assert [u][..0] == [];
  }

  lemma ContextOfOne(receiver: Address, address: Address, u: Utxo)
    requires u.ValidAmount() && u.assets.None?
    ensures ContextFor(Req(receiver), [u], address) ==
            Ok(Context(SimpleValue(u.amount), SimpleValue(PAYMENT), SimpleValue(0), address))
  {
    OnlyThePayment(receiver);
    NothingImplicit(receiver, u.amount);
    TotalOfOne(u);
  }

  /** A little lovelace left over is change or fee; nothing else can go wrong. */
  lemma LovelaceBalances(chain: Chain, outputs: seq<Output>, fee: Int64, total: Uint64, address: Address)
    requires chain == ScriptChain() && 0 <= fee <= CEILING && total <= 2 * PAYMENT
    ensures var ctx := Context(SimpleValue(total), SimpleValue(PAYMENT), SimpleValue(0), address);
            var b := BuildBalancedOutputs(chain.outputBase, chain.price, outputs, fee, ctx);
            && (b.Ok? <==> total >= PAYMENT + fee)
            && (b.Ok? ==> b.value.outputs == outputs ||
                          (total >= PAYMENT + fee + 900_000 &&
                           b.value.outputs == outputs + [Output(address, total - PAYMENT - fee, None, 0)]))
  {
    var ctx := Context(SimpleValue(total), SimpleValue(PAYMENT), SimpleValue(0), address);
    assert Needed(ctx, fee) == Ok(SimpleValue(PAYMENT + fee));
    if total >= PAYMENT + fee {
      assert Leftover(ctx, fee) == Ok(SimpleValue(total - PAYMENT - fee));
    }
  }

  /** A change output adds less than a minimum to the price. */
  lemma PriceWithChange(b: Builder, receiver: Address, u: Utxo, change: Output)
    requires Example(b, receiver) && change.assets.None? && change.extra == 0
    ensures var estimate := PlainEstimate(b.chain, [u], b.req.outputs + [change]);
            estimate.Ok? && estimate.value <= PriceOfOne(u) + 4_000
  {
    Price(b, receiver, [u]);
    OutputsSizeAppend(b.chain.outputBase, b.req.outputs, change);
  }

  /** Spending one UTxO settles exactly when it holds the payment and its own price. */
  lemma SettleableIff(b: Builder, receiver: Address, u: Utxo)
    requires Example(b, receiver) && u in b.utxos
    ensures b.Settleable([u]) <==> u.amount >= PAYMENT + PriceOfOne(u)
  {
    CostOfOne(b, receiver, u);
    ContextOfOne(receiver, b.changeAddress, u);
    LovelaceBalances(b.chain, b.req.outputs, PriceOfOne(u), u.amount, b.changeAddress);
    if u.amount >= PAYMENT + PriceOfOne(u) {
      var ctx := ContextFor(b.req, [u], b.changeAddress).value;
      SettlesAtSecond(b, receiver, u, ctx);
    }
  }

  lemma SettlesAtSecond(b: Builder, receiver: Address, u: Utxo, ctx: Context)
    requires Example(b, receiver) && u in b.utxos && u.amount >= PAYMENT + PriceOfOne(u)
    requires ctx == Context(SimpleValue(u.amount), SimpleValue(PAYMENT), SimpleValue(0), b.changeAddress)
    ensures b.PlainSettles([u], ctx, PriceOfOne(u))
  {
    var start := PriceOfOne(u);
    LovelaceBalances(b.chain, b.req.outputs, start, u.amount, b.changeAddress);
    CostOfOne(b, receiver, u);
    Price(b, receiver, [u]);
    var change := Output(b.changeAddress, u.amount - PAYMENT - start, None, 0);
    PriceWithChange(b, receiver, u, change);
    var second := b.SecondFee([u], ctx, start).value;
    LovelaceBalances(b.chain, b.req.outputs, second, u.amount, b.changeAddress);
  }

  /** The build is plain and within the range in which plain builds converge. */
  lemma Ordinary(b: Builder, receiver: Address)
    requires Example(b, receiver)
    ensures b.PlainBuild() && b.OrdinaryValues() && b.EstimatesFit(b.utxos)
  {
    var payment := Output(receiver, PAYMENT, None, 0);
    assert [payment][..0] == [];
    assert OutputsSize(b.chain.outputBase, [payment]) == 70;
    assert forall c :: payment.ToValue().Get(c) >= 0;
    BuilderExample.ExampleChainFits(b, b.utxos, {});
  }

  /** So the build completes exactly when the inputs the reserve loop ends with settle. */
  lemma CompletableOne(b: Builder, receiver: Address, u: Utxo)
    requires Example(b, receiver) && u in b.utxos && b.FoundFor(ExampleNeeds()) == Ok([u])
    ensures b.Completable() <==> u.amount >= PAYMENT + PriceOfOne(u)
  {
    NeedsHold(b, receiver);
    b.FoundIs(ExampleNeeds());
    CostOfOne(b, receiver, u);
    SettleableIff(b, receiver, u);
  }

  /** A UTxO listed first that holds the payment and the ceiling is what any reserve selects, so the
      build completes. */
  lemma FirstPays(b: Builder, receiver: Address)
    requires Example(b, receiver) && b.utxos != [] && b.utxos[0].amount >= PAYMENT + CEILING
    ensures b.Completable()
  {
    var u, costs := b.utxos[0], b.CostsFor(ExampleNeeds());
    b.CostsArePriced(ExampleNeeds());
    FirstReserveIs(b, receiver);
    LastWithinCeiling(costs, CEILING, BARE_PRICE, 0);
    SelectedAt(b, receiver, LastReserve(costs, CEILING, BARE_PRICE), 0);
    CompletableOne(b, receiver, u);
  }

  /** Such a build completes exactly when it can, with inputs from its pool, and is rejected otherwise. */
  method Run(b: Builder, receiver: Address) returns (r: Completion)
    requires Example(b, receiver) && b.ReservationValid()
    modifies b
    ensures if old(b.Completable()) then r.Completed? else r.Rejected?
    ensures r.Completed? ==> r.tx.inputs != [] && forall u :: u in r.tx.inputs ==> u in old(b.utxos)
  {
    Ordinary(b, receiver);
    r := b.Complete();
  }

  method RunPaid(b: Builder, receiver: Address) returns (r: Completion)
    requires Example(b, receiver) && b.ReservationValid()
    requires b.utxos != [] && b.utxos[0].amount >= PAYMENT + CEILING
    modifies b
    ensures r.Completed? && r.tx.inputs != [] && forall u :: u in r.tx.inputs ==> u in old(b.utxos)
  {
    FirstPays(b, receiver);
    r := Run(b, receiver);
  }

  /** There is such a build, and it completes. */
  method ExampleCompletes(u: Utxo, receiver: Address, changeAddress: Address, evaluator: Evaluator)
    returns (r: Completion)
    requires u.assets.None? && PAYMENT + CEILING <= u.amount <= 2 * PAYMENT
    ensures r.Completed? && r.tx.inputs != [] && forall w :: w in r.tx.inputs ==> w == u
  {
    var b := ExampleBuild([u], receiver, changeAddress, evaluator);
    r := RunPaid(b, receiver);
  }
}
