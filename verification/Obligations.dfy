/** What a transaction owes and what it is given besides UTxOs (apollo.go, dijkstra_tx.go). */
module Obligations {
  import opened Orders
  import opened Wrappers
  import opened Ledger
  import opened MinUtxo
  import opened Balance
  import opened Certificates
  import MacsSpec

  /** The builder's request, after payments have become outputs. */
  datatype Request = Request(
    outputs: seq<Output>,
    mint: seq<Unit>,
    withdrawals: seq<Uint64>,
    certificates: seq<Certificate>,
    stakeDeposit: Int64,
    poolDeposit: Int64,
    donation: Int64,
    proposalDeposits: seq<Uint64>,
    directDeposits: seq<Uint64>)

  function SumOf(amounts: seq<Uint64>): nat {
    if amounts == [] then 0 else SumOf(amounts[..|amounts| - 1]) + amounts[|amounts| - 1]
  }

  /** `dijkstraDirectDepositTotal`. */
  function DirectDepositTotal(deposits: seq<Uint64>): (r: Result<Uint64>)
    ensures r.Ok? ==> r.value == SumOf(deposits)
    ensures r.Ok? <==> SumOf(deposits) <= MAX_U64 && 0 !in deposits
  {
    assert deposits != [] ==> deposits == deposits[..|deposits| - 1] + [deposits[|deposits| - 1]];
    if deposits == [] then Ok(0)
    else
      var n := |deposits| - 1;
      match DirectDepositTotal(deposits[..n])
      case Err(e) => Err(e)
      case Ok(total) =>
        if deposits[n] == 0 || MAX_U64 - total < deposits[n] then Err(DirectDepositInvalid) else Ok(total + deposits[n])
  }

  function DonationOf(req: Request): nat {
    if req.donation > 0 then req.donation else 0
  }

  /** `governanceRequiredValue`. */
  function GovernanceRequired(donation: Uint64, deposits: seq<Uint64>): (r: Result<Uint64>)
    ensures r.Ok? ==> r.value == donation + SumOf(deposits)
    ensures r.Ok? <==> donation + SumOf(deposits) <= MAX_U64
  {
    if deposits == [] then Ok(donation)
    else
      var n := |deposits| - 1;
      match GovernanceRequired(donation, deposits[..n])
      case Err(e) => Err(e)
      case Ok(total) => if MAX_U64 - total < deposits[n] then Err(GovernanceOverflow) else Ok(total + deposits[n])
  }

  /** `totalWithdrawalValue`: saturates at the largest uint64 instead of failing. */
  function WithdrawalTotal(amounts: seq<Uint64>): (r: Uint64)
    ensures r == if SumOf(amounts) <= MAX_U64 then SumOf(amounts) else MAX_U64
  {
    if amounts == [] then 0
    else
      var total := WithdrawalTotal(amounts[..|amounts| - 1]);
      var last := amounts[|amounts| - 1];
      if total + last > MAX_U64 then MAX_U64 else total + last
  }

  /** `totalOutputValue`. */
  function TotalOutputValue(outputs: seq<Output>): (r: Result<Value>)
    ensures r.Ok? ==> forall c :: r.value.Get(c) == OutputTotal(outputs, c)
    ensures r.Ok? ==> r.value.coin == OutputTotal(outputs, Coin)
    ensures r.Ok? <==> OutputTotal(outputs, Coin) <= MAX_U64
  {
    if outputs == [] then Ok(Value(0, None))
    else
      OutputLovelaceGrows(outputs);
      match TotalOutputValue(outputs[..|outputs| - 1])
      case Err(e) => Err(e)
      case Ok(v) => v.Add(outputs[|outputs| - 1].ToValue())
  }

  lemma {:induction false} OutputLovelaceGrows(outputs: seq<Output>)
    ensures OutputTotal(outputs, Coin) >= 0
    ensures outputs != [] ==> OutputTotal(outputs[..|outputs| - 1], Coin) <= OutputTotal(outputs, Coin)
  {
    if outputs != [] {
      OutputLovelaceGrows(outputs[..|outputs| - 1]);
    }
  }

  /** Net quantity of a class minted; burns are negative. */
  function Minted(mint: seq<Unit>, c: Class): int {
    if mint == [] then 0
    else
      var last := mint[|mint| - 1];
      Minted(mint[..|mint| - 1], c) +
      (if c == (if last.asset.Some? then Token(last.asset.value) else Coin) then last.quantity else 0)
  }

  predicate NoLovelaceBurned(mint: seq<Unit>) {
    forall u :: u in mint && u.asset.None? ==> u.quantity >= 0
  }

  lemma {:induction false} MintedLovelaceGrows(mint: seq<Unit>)
    ensures NoLovelaceBurned(mint) ==> Minted(mint, Coin) >= 0
    ensures NoLovelaceBurned(mint) && mint != [] ==> Minted(mint[..|mint| - 1], Coin) <= Minted(mint, Coin)
  {
    if mint != [] {
      assert mint[|mint| - 1] in mint;
      MintedLovelaceGrows(mint[..|mint| - 1]);
    }
  }

  /** `mintValue`. It fails exactly on burned lovelace or on lovelace beyond uint64. */
  function MintValue(mint: seq<Unit>): (r: Result<Value>)
    ensures r.Ok? ==> forall c :: r.value.Get(c) == Minted(mint, c)
    ensures r.Ok? ==> r.value.coin == Minted(mint, Coin)
    ensures r.Ok? <==> NoLovelaceBurned(mint) && Minted(mint, Coin) <= MAX_U64
  {
    if mint == [] then Ok(Value(0, None))
    else
      var last := mint[|mint| - 1];
      assert mint == mint[..|mint| - 1] + [last];
      MintedLovelaceGrows(mint);
      match MintValue(mint[..|mint| - 1])
      case Err(e) => Err(e)
      case Ok(v) =>
        match last.asset
        case None => if last.quantity < 0 then Err(NegativeAmount) else v.Add(SimpleValue(last.quantity))
        case Some(a) => v.Add(Value(0, Some(map[a := last.quantity])))
  }

  /** `buildMintAsset` accepts native assets only, so lovelace cannot be minted. */
  predicate Mintable(mint: seq<Unit>) {
    forall u :: u in mint ==> u.asset.Some?
  }

  lemma {:induction false} NoLovelaceMinted(mint: seq<Unit>)
    requires Mintable(mint)
    ensures Minted(mint, Coin) == 0
  {
    if mint != [] {
      assert mint[|mint| - 1] in mint;
      NoLovelaceMinted(mint[..|mint| - 1]);
    }
  }

  /** `burnRequirementValue`: what must be present in the inputs to be burned. */
  function BurnRequirement(minted: Value): (r: Value)
    ensures forall a :: r.Get(Token(a)) == if minted.Get(Token(a)) < 0 then -minted.Get(Token(a)) else 0
    ensures r.coin == 0
  {
    if minted.assets.None? then Value(0, None)
    else
      var burned := map a | a in minted.assets.value && minted.assets.value[a] < 0 :: -minted.assets.value[a];
      if burned == map[] then
        assert forall a :: a in minted.assets.value && minted.assets.value[a] < 0 ==> a in burned;
        Value(0, None)
      else Value(0, Some(burned))
  }

  /** `totalRequired`: outputs, direct deposits and the net certificate deposit. */
  function TotalRequired(req: Request): Result<Value> {
    match TotalOutputValue(req.outputs)
    case Err(e) => Err(e)
    case Ok(outputs) =>
      match (if req.directDeposits == [] then Ok(0) else DirectDepositTotal(req.directDeposits))
      case Err(e) => Err(e)
      case Ok(direct) =>
        match outputs.Add(SimpleValue(direct))
        case Err(e) => Err(e)
        case Ok(required) =>
          match AdjustmentOf(req.certificates, req.stakeDeposit, req.poolDeposit)
          case Err(e) => Err(e)
          case Ok(adj) => if adj > 0 then required.Add(SimpleValue(adj)) else Ok(required)
  }

  function Governance(req: Request): Result<Value> {
    match GovernanceRequired(DonationOf(req), req.proposalDeposits)
    case Err(e) => Err(e)
    case Ok(total) => Ok(SimpleValue(total))
  }

  /** Adds the mint (or another value), the withdrawals and the certificate refund to `inputs`. */
  function WithImplicitInputs(req: Request, inputs: Value, minted: Value): Result<Value> {
    match inputs.Add(minted)
    case Err(e) => Err(e)
    case Ok(v) =>
      match v.Add(SimpleValue(WithdrawalTotal(req.withdrawals)))
      case Err(e) => Err(e)
      case Ok(w) =>
        match AdjustmentOf(req.certificates, req.stakeDeposit, req.poolDeposit)
        case Err(e) => Err(e)
        case Ok(adj) => if adj < 0 then w.Add(SimpleValue(-adj)) else Ok(w)
  }

  // ----- the two sides of the balance equation -----

  function DepositTotal(req: Request): int
    requires req.stakeDeposit >= 0 && req.poolDeposit >= 0
  {
    Deposits(req.certificates, |req.certificates|, req.stakeDeposit, req.poolDeposit)
  }

  function RefundTotal(req: Request): int
    requires req.stakeDeposit >= 0
  {
    Refunds(req.certificates, |req.certificates|, req.stakeDeposit)
  }

  /** What is put in: UTxOs, mint, withdrawals, refunds. */
  function PutIn(req: Request, inputs: seq<Utxo>, c: Class): int
    requires req.stakeDeposit >= 0
  {
    Sum(inputs, c) + Minted(req.mint, c) + CoinOnly(SumOf(req.withdrawals) + RefundTotal(req), c)
  }

  /** What is taken out: outputs, fee, deposits, proposals, donation, direct deposits. */
  function TakenOut(req: Request, outputs: seq<Output>, fee: int, c: Class): int
    requires req.stakeDeposit >= 0 && req.poolDeposit >= 0
  {
    OutputTotal(outputs, c) +
    CoinOnly(fee + DepositTotal(req) + SumOf(req.proposalDeposits) + DonationOf(req) + SumOf(req.directDeposits), c)
  }

  lemma RequiredExact(req: Request)
    requires TotalRequired(req).Ok?
    ensures req.stakeDeposit >= 0 && req.poolDeposit >= 0
    ensures var net := DepositTotal(req) - RefundTotal(req);
            forall c :: TotalRequired(req).value.Get(c) ==
                        OutputTotal(req.outputs, c)
                        + CoinOnly(SumOf(req.directDeposits) + if net > 0 then net else 0, c)
  {
    var outputs := TotalOutputValue(req.outputs).value;
    forall c ensures outputs.Get(c) == OutputTotal(req.outputs, c) {
    }
  }

  /** While the withdrawals fit uint64 the implicit inputs add up exactly. */
  lemma ImplicitSum(req: Request, inputs: Value, minted: Value)
    requires WithImplicitInputs(req, inputs, minted).Ok? && SumOf(req.withdrawals) <= MAX_U64
    ensures req.stakeDeposit >= 0 && req.poolDeposit >= 0
    ensures var net := DepositTotal(req) - RefundTotal(req);
            forall c :: WithImplicitInputs(req, inputs, minted).value.Get(c) ==
                        inputs.Get(c) + minted.Get(c)
                        + CoinOnly(SumOf(req.withdrawals) + if net < 0 then -net else 0, c)
  {
  }

  /** The saturation of the withdrawal total never reaches a transaction: with any lovelace
      among the inputs the addition overflows first. */
  lemma ImplicitExact(req: Request, inputs: Value, minted: Value)
    requires WithImplicitInputs(req, inputs, minted).Ok? && inputs.coin > 0
    ensures req.stakeDeposit >= 0 && req.poolDeposit >= 0
    ensures SumOf(req.withdrawals) <= MAX_U64
    ensures var net := DepositTotal(req) - RefundTotal(req);
            forall c :: WithImplicitInputs(req, inputs, minted).value.Get(c) ==
                        inputs.Get(c) + minted.Get(c)
                        + CoinOnly(SumOf(req.withdrawals) + if net < 0 then -net else 0, c)
  {
    ImplicitSum(req, inputs, minted);
  }

  /** What a build that spends these inputs is balanced against. */
  function ContextFor(req: Request, inputs: seq<Utxo>, changeAddress: Address): (r: Result<Context>)
    ensures r.Ok? <==>
              && TotalRequired(req).Ok? && Governance(req).Ok? && MintValue(req.mint).Ok? && TotalValue(inputs).Ok?
              && WithImplicitInputs(req, TotalValue(inputs).value, MintValue(req.mint).value).Ok?
    ensures r.Ok? ==>
              && TotalRequired(req) == Ok(r.value.totalRequired) && Governance(req) == Ok(r.value.governanceRequired)
              && WithImplicitInputs(req, TotalValue(inputs).value, MintValue(req.mint).value) == Ok(r.value.totalInput)
              && r.value.changeAddress == changeAddress
  {
    match (TotalRequired(req), Governance(req), MintValue(req.mint), TotalValue(inputs))
    case (Ok(required), Ok(governance), Ok(minted), Ok(total)) =>
      (match WithImplicitInputs(req, total, minted)
       case Err(e) => Err(e)
       case Ok(totalInput) => Ok(Context(totalInput, required, governance, changeAddress)))
    case (_, _, _, _) => Err(RequiredOverflow)
  }

  /** The three values balanced are exactly what the request puts in and takes out. */
  lemma ContextExact(req: Request, inputs: seq<Utxo>, changeAddress: Address, ctx: Context, c: Class)
    requires inputs != [] && forall u :: u in inputs ==> u.amount > 0
    requires ContextFor(req, inputs, changeAddress) == Ok(ctx)
    ensures req.stakeDeposit >= 0 && req.poolDeposit >= 0
    ensures ctx.totalInput.Get(c) - ctx.totalRequired.Get(c) - ctx.governanceRequired.Get(c) ==
            PutIn(req, inputs, c) - TakenOut(req, req.outputs, 0, c)
  {
    TotalValueExact(inputs);
    SumPositive(inputs);
    var total := TotalValue(inputs).value;
    assert total.coin == total.Get(Coin) == Sum(inputs, Coin);
    RequiredExact(req);
    ImplicitExact(req, total, MintValue(req.mint).value);
    assert total.Get(c) == Sum(inputs, c) && MintValue(req.mint).value.Get(c) == Minted(req.mint, c);
  }

  /** The balance equation of a completed transaction follows from balancing its context. */
  lemma Conservation(req: Request, inputs: seq<Utxo>, base: OutputBase, price: int, requestedFee: Int64,
                     changeAddress: Address, ctx: Context, c: Class)
    requires inputs != [] && forall u :: u in inputs ==> u.amount > 0
    requires forall o :: o in req.outputs ==> NothingNegative(o.ToValue())
    requires ContextFor(req, inputs, changeAddress) == Ok(ctx)
    requires BuildBalancedOutputs(base, price, req.outputs, requestedFee, ctx).Ok?
    ensures req.stakeDeposit >= 0 && req.poolDeposit >= 0
    ensures var b := BuildBalancedOutputs(base, price, req.outputs, requestedFee, ctx).value;
            PutIn(req, inputs, c) == TakenOut(req, b.outputs, b.fee, c)
  {
    ContextExact(req, inputs, changeAddress, ctx, c);
    ContextNonNegative(req, inputs, changeAddress, ctx);
    BalanceConserves(base, price, req.outputs, requestedFee, ctx, c);
  }

  lemma ContextNonNegative(req: Request, inputs: seq<Utxo>, changeAddress: Address, ctx: Context)
    requires inputs != [] && forall u :: u in inputs ==> u.amount > 0
    requires forall o :: o in req.outputs ==> NothingNegative(o.ToValue())
    requires ContextFor(req, inputs, changeAddress) == Ok(ctx)
    ensures NothingNegative(ctx.totalRequired) && NothingNegative(ctx.governanceRequired)
  {
    OutputsNonNegative(req.outputs);
    RequiredExact(req);
  }

  lemma {:induction false} SumPositive(inputs: seq<Utxo>)
    requires forall u :: u in inputs ==> u.amount > 0
    ensures Sum(inputs, Coin) >= |inputs|
  {
    if inputs != [] {
      assert inputs[|inputs| - 1] in inputs;
      SumPositive(inputs[..|inputs| - 1]);
    }
  }

  lemma {:induction false} OutputsNonNegative(outputs: seq<Output>)
    requires forall o :: o in outputs ==> NothingNegative(o.ToValue())
    ensures forall c :: OutputTotal(outputs, c) >= 0
  {
    if outputs != [] {
      assert outputs[|outputs| - 1] in outputs;
      OutputsNonNegative(outputs[..|outputs| - 1]);
    }
  }

  // ----- the ledger spends a set of inputs -----

  /** What the ledger sees put in: each UTxO once. */
  ghost function PutInOnce(req: Request, inputs: set<Utxo>, c: Class): int
    requires req.stakeDeposit >= 0
  {
    MacsSpec.Total(inputs, c) + Minted(req.mint, c) + CoinOnly(SumOf(req.withdrawals) + RefundTotal(req), c)
  }

  /** A transaction that balances over its list of inputs balances for the ledger, which spends
      their set, exactly when no input is listed twice: a repeated pin is counted twice. */
  lemma BalancesOnceIffDistinct(req: Request, inputs: seq<Utxo>, outputs: seq<Output>, fee: int)
    requires req.stakeDeposit >= 0 && req.poolDeposit >= 0
    requires forall u :: u in inputs ==> u.amount > 0
    requires MacsSpec.UniqueRefs(Elements(inputs))
    requires forall c :: PutIn(req, inputs, c) == TakenOut(req, outputs, fee, c)
    ensures (forall c :: PutInOnce(req, Elements(inputs), c) == TakenOut(req, outputs, fee, c)) <==>
            DistinctRefs(inputs)
  {
    if Distinct(inputs) {
      forall c ensures PutInOnce(req, Elements(inputs), c) == PutIn(req, inputs, c) {
        MacsSpec.SumIsTotal(inputs, c);
      }
      forall i, j | 0 <= i < j < |inputs| ensures inputs[i].txin != inputs[j].txin {
        assert inputs[i] in Elements(inputs) && inputs[j] in Elements(inputs);
      }
    } else {
      RepeatsOvercount(inputs);
      assert PutInOnce(req, Elements(inputs), Coin) < PutIn(req, inputs, Coin);
    }
  }

  lemma {:induction false} RepeatsOvercount(inputs: seq<Utxo>)
    requires forall u :: u in inputs ==> u.amount > 0
    ensures MacsSpec.Total(Elements(inputs), Coin) <= Sum(inputs, Coin)
    ensures !Distinct(inputs) ==> MacsSpec.Total(Elements(inputs), Coin) < Sum(inputs, Coin)
  {
    if inputs != [] {
      var init, last := inputs[..|inputs| - 1], inputs[|inputs| - 1];
      assert inputs == init + [last];
      RepeatsOvercount(init);
      if last in init {
        assert Elements(inputs) == Elements(init);
      } else {
        assert Elements(inputs) == Elements(init) + {last};
        MacsSpec.TotalAdd(Elements(init), last, Coin);
        if Distinct(init) {
          assert Distinct(inputs) by {
            forall i, j | 0 <= i < j < |inputs| ensures inputs[i] != inputs[j] {
              assert inputs[i] == init[i] && inputs[i] in init;
            }
          }
        }
      }
    }
  }

  /** A request for one payment out of a UTxO pinned twice. */
  function PaidByTwoPins(u: Utxo, receiver: Address, fee: Int64): Request
    requires u.assets.None? && 0 <= fee < 2 * u.amount <= MAX_I64
  {
    Request([Output(receiver, 2 * u.amount - fee, None, 0)], [], [], [], 0, 0, 0, [], [])
  }

  /** It happens: whatever the codec and the price, the request balances over the listed pins,
      and the ledger finds one of them missing. */
  lemma RepeatedPinBalances(base: OutputBase, price: int, u: Utxo, receiver: Address, changeAddress: Address,
                            fee: Int64)
    requires u.assets.None? && 0 <= fee < 2 * u.amount <= MAX_I64
    ensures var req := PaidByTwoPins(u, receiver, fee);
            var ctx := ContextFor(req, [u, u], changeAddress);
            && ctx.Ok?
            && BuildBalancedOutputs(base, price, req.outputs, fee, ctx.value) == Ok(Balanced(req.outputs, fee))
            && PutIn(req, [u, u], Coin) == TakenOut(req, req.outputs, fee, Coin)
            && PutInOnce(req, {u}, Coin) == TakenOut(req, req.outputs, fee, Coin) - u.amount
  {
    var req := PaidByTwoPins(u, receiver, fee);
    var o := req.outputs[0];
    assert [u, u][..1] == [u] && [u][..0] == [];
    assert TotalValue([]) == Ok(Value(0, None)) && TotalValue([u]) == Ok(Value(u.amount, None));
    assert TotalValue([u, u]) == Ok(Value(2 * u.amount, None));
    assert [o][..0] == [];
    assert TotalOutputValue([]) == Ok(Value(0, None)) && TotalOutputValue([o]) == Ok(Value(o.coin, None));
    assert AdjustmentOf([], 0, 0) == Ok(0);
    assert TotalRequired(req) == Ok(Value(o.coin, None)) && Governance(req) == Ok(Value(0, None));
    assert Sum([u], Coin) == u.amount && Sum([u, u], Coin) == 2 * u.amount && OutputTotal([o], Coin) == o.coin;
    MacsSpec.TotalAdd({}, u, Coin);
    assert {} + {u} == {u};
  }
}
