/** The transaction builder: reservation state, collateral, and `Complete` (apollo.go). */
module Builder {
  import opened Orders
  import opened Wrappers
  import opened Ledger
  import opened MinUtxo
  import opened Balance
  import opened Redeemers
  import opened Fees
  import opened Obligations
  import opened Reserves
  import MacsSpec
  import Selection
  import Collateral
  import LargestFirst

  /** How the fee is to be set, and whether scripts are evaluated. */
  datatype FeeOptions = FeeOptions(fee: Int64, forceFee: bool, padding: Int64, evaluates: bool)

  /** One evaluation round, as `RedeemerBook.EvaluationRound` performs it: the redeemer map it
      rebuilds, for the round, the inputs, the outputs and the fee. */
  type Evaluator = (nat, seq<Utxo>, seq<Output>, Int64) -> Result<Budgets>

  /** What the evaluator returns for a round, before it is validated and buffered into the tables. */
  type Responder = (nat, seq<Utxo>, seq<Output>, Int64) -> map<RedeemerKey, Evaluated>

  /** The parts of the body that settling the fee can still change. */
  datatype Shape = Shape(outputs: seq<Output>, fee: Int64, sizing: Sizing, budgets: Budgets)

  datatype Settled = Settled(outputs: seq<Output>, fee: Int64, requestedFee: Int64, rounds: nat)

  datatype Tx = Tx(inputs: seq<Utxo>, outputs: seq<Output>, fee: Int64, sizing: Sizing, budgets: Budgets)

  /** The reservation bookkeeping that a speculative selection changes. */
  datatype SelectionState = SelectionState(used: set<TxIn>, overlap: Option<TxIn>)

  predicate Contains(us: seq<Utxo>, ref: TxIn) {
    exists i :: 0 <= i < |us| && us[i].txin == ref
  }

  class Builder {
    const chain: Chain
    const req: Request
    const options: FeeOptions
    const changeAddress: Address
    const selector: Selection.Selector
    const evaluator: Evaluator
    const registered: seq<Utxo> -> Budgets
    const preselected: seq<Utxo>
    const hasScripts: bool
    const collateralAmount: Int64
    const maxCollateralInputs: int

    var utxos: seq<Utxo>
    var used: set<TxIn>
    var collaterals: seq<Utxo>
    var autoSelected: bool
    var overlap: Option<TxIn>
    var totalCollateral: Int64
    var collateralReturn: Option<Output>
    var evaluated: Option<Budgets>

    constructor (chain: Chain, req: Request, options: FeeOptions, changeAddress: Address, selector: Selection.Selector,
                 evaluator: Evaluator, registered: seq<Utxo> -> Budgets, preselected: seq<Utxo>, hasScripts: bool,
                 collateralAmount: Int64, maxCollateralInputs: int, utxos: seq<Utxo>, collaterals: seq<Utxo>)
      ensures this.chain == chain && this.req == req && this.options == options && this.changeAddress == changeAddress
      ensures this.preselected == preselected && this.utxos == utxos && this.collaterals == collaterals
      ensures this.hasScripts == hasScripts && this.collateralAmount == collateralAmount
      ensures this.registered == registered && this.selector == selector && this.evaluator == evaluator
      ensures used == {} && !autoSelected && overlap == None && evaluated == None && ReservationValid()
    {
      this.chain, this.req, this.options, this.changeAddress := chain, req, options, changeAddress;
      this.selector, this.evaluator, this.registered := selector, evaluator, registered;
      this.preselected, this.hasScripts, this.collateralAmount := preselected, hasScripts, collateralAmount;
      this.maxCollateralInputs, this.utxos, this.collaterals := maxCollateralInputs, utxos, collaterals;
      used, autoSelected, overlap, totalCollateral, collateralReturn, evaluated := {}, false, None, 0, None, None;
    }

    // ----- reservations -----

    /** `isUsed`: reserved, pinned, or collateral that is not flagged for overlap. */
    predicate IsUsed(ref: TxIn)
      reads this`used, this`overlap, this`collaterals
    {
      IsUsedUnder(ref, State())
    }

    predicate IsUsedUnder(ref: TxIn, s: SelectionState)
      reads this`collaterals
    {
      || ref in s.used
      || Contains(preselected, ref)
      || exists i :: 0 <= i < |collaterals| && collaterals[i].txin == ref && Some(ref) != s.overlap
    }

    /** Auto-selected collateral is one UTxO, not pinned as an input, and it is reserved until
        it is flagged for overlap. */
    ghost predicate ReservationValid()
      reads this`autoSelected, this`collaterals, this`used, this`overlap, this`collateralReturn
    {
      && (autoSelected ==>
            && |collaterals| == 1
            && !Contains(preselected, collaterals[0].txin)
            && (overlap.None? ==> collaterals[0].txin in used))
      && (overlap.Some? ==> autoSelected && overlap.value == collaterals[0].txin)
      && (collaterals == [] ==> collateralReturn.None?)
    }

    function State(): SelectionState
      reads this`used, this`overlap
    {
      SelectionState(used, overlap)
    }

    method Restore(s: SelectionState)
      modifies this`used, this`overlap
      ensures State() == s
    {
      used, overlap := s.used, s.overlap;
    }

    /** There is auto-selected collateral not yet flagged for overlap. */
    predicate CanRelease()
      reads this`autoSelected, this`overlap, this`collaterals
    {
      autoSelected && overlap.None? && |collaterals| == 1
    }

    /** The reservations with that collateral released. */
    function Released(): SelectionState
      reads this`autoSelected, this`overlap, this`collaterals, this`used
      requires CanRelease()
    {
      SelectionState(used - {collaterals[0].txin}, Some(collaterals[0].txin))
    }

    /** `releaseCollateralForOverlap`. */
    method ReleaseCollateralForOverlap() returns (released: bool)
      modifies this`used, this`overlap
      ensures released == old(CanRelease())
      ensures State() == if released then old(Released()) else old(State())
    {
      if !autoSelected || overlap.Some? || |collaterals| != 1 {
        return false;
      }
      used := used - {collaterals[0].txin};
      overlap := Some(collaterals[0].txin);
      released := true;
    }

    /** `restoreCollateralReservation`. */
    method RestoreCollateralReservation()
      modifies this`used, this`overlap
      ensures overlap.None?
      ensures used == if old(overlap).Some? then old(used) + {old(overlap).value} else old(used)
    {
      if overlap.None? {
        return;
      }
      used := used + {overlap.value};
      overlap := None;
    }

    // ----- coin selection -----

    /** The pool entries not in use, in pool order. */
    ghost function Available(s: SelectionState): seq<Utxo>
      reads this`utxos, this`collaterals
    {
      AvailableIn(utxos, s)
    }

    ghost function AvailableIn(us: seq<Utxo>, s: SelectionState): (r: seq<Utxo>)
      reads this`collaterals
      ensures forall u :: u in r <==> u in us && !IsUsedUnder(u.txin, s)
    {
      if us == [] then []
      else
        var n := |us| - 1;
        assert us == us[..n] + [us[n]];
        if IsUsedUnder(us[n].txin, s) then AvailableIn(us[..n], s) else AvailableIn(us[..n], s) + [us[n]]
    }

    function SettingFor(available: seq<Utxo>): Selection.Setting {
      Selection.Setting(chain.outputBase, chain.price, changeAddress, preselected, available, selector)
    }

    /** `selectCoins`. Reservations change only on success, and then by exactly the references
        selected. */
    method SelectCoins(required: Value, current: Value) returns (r: Result<seq<Utxo>>)
      modifies this`used
      ensures r == old(Selection.Select(SettingFor(Available(State())), required, current))
      ensures r.Err? ==> used == old(used)
      ensures r.Ok? ==> used == old(used) + set u | u in r.value :: u.txin
    {
      var available: seq<Utxo> := [];
      for i := 0 to |utxos|
        invariant available == AvailableIn(utxos[..i], State())
      {
        assert utxos[..i + 1][..i] == utxos[..i];
        if !IsUsed(utxos[i].txin) {
          available := available + [utxos[i]];
        }
      }
      assert utxos[..|utxos|] == utxos;
      var s := SettingFor(available);
      var picked: seq<Utxo>;
      var remaining := Selection.Remaining(required, current);
      if !current.GreaterOrEqual(required) {
        var selected := selector(available, remaining);
        if selected.Err? {
          return Err(selected.error);
        }
        picked := selected.value;
      } else if preselected == [] {
        var single := Selection.PickSingle(available);
        if single.Err? {
          return Err(single.error);
        }
        picked := [single.value];
      } else {
        var minimum := Selection.UnemittableChangeMinimum(s, required, current);
        if minimum.Err? {
          return Err(minimum.error);
        }
        if minimum.value == 0 {
          return Ok([]);
        }
        var raised := required.Add(SimpleValue(minimum.value));
        if raised.Err? {
          return Err(TopUpOverflow);
        }
        remaining := Selection.Remaining(raised.value, current);
        var selected := selector(available, remaining);
        if selected.Err? {
          return Ok([]);
        }
        picked := selected.value;
      }
      var canonical := Canonicalise(available, picked);
      if canonical.Err? {
        return Err(canonical.error);
      }
      var total := SumUtxoValues(canonical.value);
      if total.Err? {
        return Err(total.error);
      }
      if !total.value.GreaterOrEqual(remaining) {
        return Err(SelectionDoesNotCover);
      }
      MarkAllUsed(canonical.value);
      r := Ok(canonical.value);
    }

    method MarkAllUsed(us: seq<Utxo>)
      modifies this`used
      ensures used == old(used) + set u | u in us :: u.txin
    {
      for i := 0 to |us|
        invariant used == old(used) + set u | u in us[..i] :: u.txin
      {
        used := used + {us[i].txin};
        assert us[..i + 1] == us[..i] + [us[i]];
      }
      assert us[..|us|] == us;
    }

    /** `selectCoinsAllowingCollateralOverlap`: on failure, once more with the auto-selected
        collateral released. If that fails too, the reservations are as they were. */
    method SelectAllowingOverlap(target: Value, totalInput: Value) returns (r: Result<seq<Utxo>>)
      requires ReservationValid()
      modifies this`used, this`overlap
      ensures ReservationValid()
      ensures r == old(SelectedOrRetried(target, totalInput))
      ensures r.Err? ==> State() == old(State())
      ensures r.Ok? ==> old(overlap).Some? ==> overlap == old(overlap)
      ensures r.Ok? ==> SelectedFrom(r.value, target, totalInput)
      ensures r.Ok? && overlap == old(overlap) ==> forall u :: u in r.value ==> !old(IsUsed(u.txin))
      ensures r.Ok? && overlap != old(overlap) ==>
                forall u :: u in r.value ==> !old(IsUsed(u.txin)) || u.txin == collaterals[0].txin
      ensures r.Ok? ==>
                used == (if overlap == old(overlap) then old(used) else old(used) - {collaterals[0].txin})
                        + set u | u in r.value :: u.txin
    {
      r := SelectCoins(target, totalInput);
      if r.Ok? {
        Selection.SelectIsSound(old(SettingFor(Available(State()))), target, totalInput);
        return;
      }
      var released := ReleaseCollateralForOverlap();
      if !released {
        return;
      }
      ghost var retry := SettingFor(Available(State()));
      label Retry:
      r := SelectCoins(target, totalInput);
      if r.Ok? {
        Selection.SelectIsSound(retry, target, totalInput);
        forall u | u in r.value ensures !old(IsUsed(u.txin)) || u.txin == collaterals[0].txin {
          assert u in retry.available && !old@Retry(IsUsed(u.txin));
        }
        return;
      }
      RestoreCollateralReservation();
    }

    /** What selection finds with the reservations as they are, else with the collateral released. */
    ghost function SelectedOrRetried(target: Value, current: Value): Result<seq<Utxo>>
      reads this`utxos, this`collaterals, this`used, this`overlap, this`autoSelected
    {
      var first := Selection.Select(SettingFor(Available(State())), target, current);
      if first.Ok? || !CanRelease() then first
      else Selection.Select(SettingFor(Available(Released())), target, current)
    }

    /** The selector is exact on the pool of a reservation state, whose sums stay in range. */
    ghost predicate ExactUnder(s: SelectionState)
      reads this`utxos, this`collaterals
    {
      Selection.ExactOn(selector, Available(s)) && Selection.OrdinaryPool(Available(s))
    }

    /** Selection, retry included, that fails at one fee reserve fails at every larger one, unless
        the failure is the top-up guard's own. */
    lemma OverlapFailureIsMonotone(low: Value, high: Value, current: Value)
      requires ExactUnder(State()) && (CanRelease() ==> ExactUnder(Released()))
      requires Selection.Raised(low, high) && SelectedOrRetried(low, current).Err?
      requires !Selection.TopUpGuardFails(SettingFor([]), low, current)
      ensures SelectedOrRetried(high, current).Err?
    {
      var first := SettingFor(Available(State()));
      assert Selection.TopUpGuardFails(first, low, current) == Selection.TopUpGuardFails(SettingFor([]), low, current);
      Selection.FailureIsMonotone(first, low, high, current);
      if CanRelease() {
        var retry := SettingFor(Available(Released()));
        assert Selection.TopUpGuardFails(retry, low, current) ==
               Selection.TopUpGuardFails(SettingFor([]), low, current);
        Selection.FailureIsMonotone(retry, low, high, current);
      }
    }

    /** Distinct pool entries that, with the current input, cover the target, leaving the
        transaction with at least one input. */
    ghost predicate SelectedFrom(picked: seq<Utxo>, target: Value, current: Value)
      reads this`utxos
    {
      && DistinctRefs(picked)
      && (forall u :: u in picked ==> u in utxos)
      && (forall c :: target.Get(c) > 0 ==> current.Get(c) + Sum(picked, c) >= target.Get(c))
      && preselected + picked != []
    }

    // ----- collateral -----

    /** The lovelace collateral selection asks for: the requested amount, else the collateral
        for a maximum-size fee, else a conservative constant. */
    function MinCollateral(): Int64 {
      if collateralAmount > 0 then collateralAmount
      else if chain.collateralPercent > 0 && chain.maxTxFee <= MAX_I64 / chain.collateralPercent then
        QuotientBound(MAX_I64, chain.maxTxFee, chain.collateralPercent);
        var computed := chain.maxTxFee * chain.collateralPercent / 100;
        if computed > 0 then computed else 5_000_000
      else 5_000_000
    }

    /** `collateralEligible`: key-locked, enough lovelace, and room to return any assets. */
    predicate Eligible(u: Utxo, pureOnly: bool) {
      && !(pureOnly && u.assets.Some?)
      && u.address.KeyAddress?
      && MinCollateral() <= u.amount <= MAX_I64
      && !(u.assets.Some? && u.amount == MinCollateral())
    }

    /** The first unused candidate that is eligible. */
    method FirstEligible(candidates: seq<Utxo>, pureOnly: bool) returns (r: Option<Utxo>)
      ensures r.None? ==> forall u :: u in candidates && !IsUsed(u.txin) ==> !Eligible(u, pureOnly)
      ensures r.Some? ==> exists i :: 0 <= i < |candidates| && candidates[i] == r.value &&
                            !IsUsed(r.value.txin) && Eligible(r.value, pureOnly) &&
                            forall k :: 0 <= k < i && !IsUsed(candidates[k].txin) ==> !Eligible(candidates[k], pureOnly)
    {
      for i := 0 to |candidates|
        invariant forall k :: 0 <= k < i && !IsUsed(candidates[k].txin) ==> !Eligible(candidates[k], pureOnly)
      {
        if !IsUsed(candidates[i].txin) && Eligible(candidates[i], pureOnly) {
          return Some(candidates[i]);
        }
      }
      r := None;
    }

    /** `setCollateral`: reserves one eligible UTxO, ADA-only if there is one. */
    method SetCollateral() returns (error: Option<Error>)
      requires ReservationValid()
      modifies this
      ensures ReservationValid() && utxos == old(utxos) && overlap == old(overlap) && evaluated == old(evaluated)
      ensures old(collaterals) != [] || !hasScripts || error.Some? ==>
                collaterals == old(collaterals) && autoSelected == old(autoSelected) && used == old(used)
      ensures old(collaterals) != [] || !hasScripts ==>
                error.None? && totalCollateral == old(totalCollateral) && collateralReturn == old(collateralReturn)
      ensures old(collaterals) == [] && hasScripts && error.None? ==>
                && autoSelected && |collaterals| == 1
                && (var u := collaterals[0]; u in utxos && !old(IsUsed(u.txin)) && Eligible(u, false))
                && used == old(used) + {collaterals[0].txin}
                && (collaterals[0].assets.Some? ==>
                      forall u :: u in utxos && !old(IsUsed(u.txin)) ==> !Eligible(u, true))
                && (exists i :: 0 <= i < |utxos| && utxos[i] == collaterals[0] &&
                      forall k :: 0 <= k < i && !old(IsUsed(utxos[k].txin)) ==>
                        !Eligible(utxos[k], collaterals[0].assets.None?))
                && totalCollateral == MinCollateral()
                && totalCollateral + Collateral.ReturnCoin(collateralReturn) == collaterals[0].amount
                && (collateralReturn.Some? ==> collateralReturn.value.assets == collaterals[0].assets)
                && (collaterals[0].assets.Some? ==> collateralReturn.Some?)
      ensures old(collaterals) == [] && hasScripts && error.Some? ==>
                forall u :: u in utxos && !IsUsed(u.txin) ==> !Eligible(u, false)
    {
      if collaterals != [] || !hasScripts {
        return None;
      }
      var chosen := FirstEligible(utxos, true);
      if chosen.None? {
        chosen := FirstEligible(utxos, false);
      }
      if chosen.None? {
        return Some(NoEligibleCollateral);
      }
      var u := chosen.value;
      collaterals := [u];
      autoSelected := true;
      used := used + {u.txin};
      totalCollateral := MinCollateral();
      var remainder := u.amount - MinCollateral();
      if remainder > 0 || u.assets.Some? {
        collateralReturn := Some(Output(changeAddress, remainder, u.assets, 0));
      }
      error := None;
    }

    /** `finalizeCollateral`. */
    method FinalizeCollateral(fee: Int64) returns (error: Option<Error>)
      modifies this`totalCollateral, this`collateralReturn
      ensures var plan := Collateral.Finalize(chain.outputBase, chain.price, chain.collateralPercent, changeAddress,
                                              collaterals, autoSelected, collateralAmount, fee);
              match plan
              case Err(e) =>
                error == Some(e) && totalCollateral == old(totalCollateral) && collateralReturn == old(collateralReturn)
              case Ok(Untouched) =>
                error.None? && totalCollateral == old(totalCollateral) && collateralReturn == old(collateralReturn)
              case Ok(Sized(total, ret)) => error.None? && totalCollateral == total && collateralReturn == ret
    {
      var percent := chain.collateralPercent;
      if collaterals == [] || percent <= 0 || fee <= 0 {
        return None;
      }
      if fee > (MAX_I64 - 99) / percent {
        return Some(CollateralOverflow);
      }
      var required := Collateral.RequiredCollateral(fee, percent);
      var lovelace := Collateral.Lovelace(collaterals);
      if lovelace.Err? {
        return Some(lovelace.error);
      }
      var assets := Collateral.Assets(collaterals);
      if required > lovelace.value {
        return Some(InsufficientCollateral);
      }
      if !autoSelected && collateralAmount == 0 {
        return if assets.Some? then Some(StrandedCollateralAssets) else None;
      }
      if collateralAmount > 0 {
        if collateralAmount < required {
          return Some(CollateralAmountTooLow);
        }
        if collateralAmount > lovelace.value {
          return Some(CollateralAmountTooHigh);
        }
        required := collateralAmount;
      }
      var remainder := lovelace.value - required;
      if assets.Some? || remainder > 0 {
        var ret := Output(changeAddress, remainder, assets, 0);
        var min := MinLovelace(chain.outputBase, chain.price, ret);
        if min.Err? {
          return Some(min.error);
        }
        if remainder >= min.value {
          totalCollateral, collateralReturn := required, Some(ret);
          return None;
        }
        if assets.Some? || collateralAmount > 0 {
          return Some(CollateralReturnBelowMinUtxo);
        }
        totalCollateral, collateralReturn := lovelace.value, None;
        return None;
      }
      totalCollateral, collateralReturn := required, None;
      error := None;
    }

    /** `validateCollateral`: distinct, key-locked, not too many. */
    predicate CollateralValid()
      reads this`collaterals
    {
      && DistinctRefs(collaterals)
      && (forall u :: u in collaterals ==> u.address.KeyAddress?)
      && (maxCollateralInputs > 0 ==> |collaterals| <= maxCollateralInputs)
    }

    // ----- fees -----

    function Sizing(): Fees.Sizing
      reads this`collaterals, this`totalCollateral, this`collateralReturn
    {
      Fees.Sizing(collaterals, totalCollateral, collateralReturn)
    }

    function BudgetsFor(inputs: seq<Utxo>): Budgets
      reads this`evaluated
    {
      if evaluated.Some? then evaluated.value else registered(inputs)
    }

    /** `estimateFee` in the builder's present state; a body that cannot be built has no price. */
    function Estimate(inputs: seq<Utxo>, outputs: seq<Output>): Result<Int64>
      reads this`collaterals, this`totalCollateral, this`collateralReturn, this`evaluated
    {
      if !Mintable(req.mint) then Err(InvalidMint)
      else EstimateFee(chain, inputs, outputs, Sizing(), BudgetsFor(inputs))
    }

    /** The fee follows the estimate rather than a fixed amount. */
    predicate Estimating() {
      !options.forceFee && options.fee == 0
    }

    /** The fee charged pays for the very shape it is charged to. */
    ghost predicate PaysFor(inputs: seq<Utxo>, settled: Settled)
      reads this`collaterals, this`totalCollateral, this`collateralReturn, this`evaluated
    {
      && settled.requestedFee <= settled.fee
      && (Estimating() ==>
            Estimate(inputs, settled.outputs).Ok? &&
            Padded(Estimate(inputs, settled.outputs).value, options.padding) <= settled.requestedFee)
    }

    /** Nothing but the outputs and the fee can change while the fee settles. */
    ghost predicate Plain(inputs: seq<Utxo>)
      reads this`collaterals, this`evaluated
    {
      !options.evaluates && collaterals == [] && BudgetsFor(inputs) == map[] && Mintable(req.mint)
    }

    /** The starting fee prices the base outputs, and estimates stay within int64 for the shape
        that fee balances to. */
    ghost predicate StartsPriced(inputs: seq<Utxo>, ctx: Context, start: Int64)
    {
      Estimating() ==>
        && PlainEstimate(chain, inputs, req.outputs).Ok?
        && start == Padded(PlainEstimate(chain, inputs, req.outputs).value, options.padding)
        && var b := Balanced(start, ctx);
           b.Ok? ==> EstimateFits(chain, inputs, b.value.outputs, options.padding)
    }

    function Balanced(fee: Int64, ctx: Context): Result<Balance.Balanced> {
      BuildBalancedOutputs(chain.outputBase, chain.price, req.outputs, fee, ctx)
    }

    /** The fee the next iteration asks for: the padded estimate, never below the present one. */
    function NextFee(inputs: seq<Utxo>, outputs: seq<Output>, requested: Int64): (r: Result<Int64>)
      reads this`collaterals, this`totalCollateral, this`collateralReturn, this`evaluated
      ensures r.Ok? ==> r.value >= requested
      ensures r.Ok? && Estimating() ==>
                Estimate(inputs, outputs).Ok? &&
                r.value == if Padded(Estimate(inputs, outputs).value, options.padding) < requested then requested
                           else Padded(Estimate(inputs, outputs).value, options.padding)
    {
      if !Mintable(req.mint) then Err(InvalidMint)
      else if !Estimating() then Ok(requested)
      else
        match Estimate(inputs, outputs)
        case Err(e) => Err(e)
        case Ok(estimate) =>
          var padded := Padded(estimate, options.padding);
          Ok(if padded < requested then requested else padded)
    }

    /** The budgets in hand are those evaluated for this shape. */
    ghost predicate EvaluatedFor(k: nat, inputs: seq<Utxo>, outputs: seq<Output>, fee: Int64)
      reads this`evaluated
    {
      options.evaluates ==> evaluator(k, inputs, outputs, fee) == Ok(BudgetsFor(inputs))
    }

    /** One iteration of the loop up to pricing: balance, size the collateral, evaluate. */
    method Round(k: nat, inputs: seq<Utxo>, requested: Int64, ctx: Context) returns (r: Result<Shape>)
      modifies this`totalCollateral, this`collateralReturn, this`evaluated
      ensures r.Ok? ==>
                var shape := r.value;
                && Balanced(requested, ctx) == Ok(Balance.Balanced(shape.outputs, shape.fee))
                && shape.sizing == Sizing() && shape.budgets == BudgetsFor(inputs)
                && CollateralSized(shape.fee)
                && EvaluatedFor(k, inputs, shape.outputs, shape.fee)
      ensures collaterals == [] ==> collateralReturn == old(collateralReturn)
      ensures old(Plain(inputs)) ==>
                && totalCollateral == old(totalCollateral) && collateralReturn == old(collateralReturn)
                && evaluated == old(evaluated)
                && (r.Err? ==> Balanced(requested, ctx).Err?)
    {
      var balanced := Balanced(requested, ctx);
      if balanced.Err? {
        return Err(balanced.error);
      }
      var outputs, fee := balanced.value.outputs, balanced.value.fee;
      var error := FinalizeCollateral(fee);
      if error.Some? {
        return Err(error.value);
      }
      SizedByFinalize(fee);
      if options.evaluates {
        var budgets := evaluator(k, inputs, outputs, fee);
        if budgets.Err? {
          return Err(budgets.error);
        }
        evaluated := Some(budgets.value);
      }
      r := Ok(Shape(outputs, fee, Sizing(), BudgetsFor(inputs)));
    }

    lemma SizedByFinalize(fee: Int64)
      requires var plan := Collateral.Finalize(chain.outputBase, chain.price, chain.collateralPercent, changeAddress,
                                               collaterals, autoSelected, collateralAmount, fee);
               plan.Ok? && (plan.value.Sized? ==>
                              totalCollateral == plan.value.total && collateralReturn == plan.value.return_)
      ensures CollateralSized(fee)
    {
      if collaterals != [] && chain.collateralPercent > 0 && fee > 0
         && collateralAmount >= 0 && (autoSelected || collateralAmount > 0) {
        Collateral.FinalizeIsSound(chain.outputBase, chain.price, chain.collateralPercent, changeAddress, collaterals,
                                   autoSelected, collateralAmount, fee);
      }
    }

    /** What sizing promises about the fields of the body. */
    ghost predicate CollateralSized(fee: Int64)
      reads this`collaterals, this`totalCollateral, this`collateralReturn, this`autoSelected
    {
      collaterals != [] && chain.collateralPercent > 0 && fee > 0
      && collateralAmount >= 0 && (autoSelected || collateralAmount > 0) ==>
        && totalCollateral + Collateral.ReturnCoin(collateralReturn) == Sum(collaterals, Coin)
        && 100 * totalCollateral >= fee * chain.collateralPercent
        && (collateralAmount > 0 ==> totalCollateral == collateralAmount)
        && (forall a :: (if collateralReturn.Some? then Quantity(collateralReturn.value.assets, a) else 0) ==
                        Sum(collaterals, Token(a)))
        && (collateralReturn.Some? ==>
              var min := MinLovelace(chain.outputBase, chain.price, collateralReturn.value);
              min.Ok? && collateralReturn.value.coin >= min.value)
    }

    // ----- the balance and fee loop -----

    /** In a plain build the state at the start of each iteration is one of three. */
    ghost predicate PlainProgress(k: nat, inputs: seq<Utxo>, ctx: Context, start: Int64, requested: Int64,
                                  previous: Option<Shape>, seen: set<Shape>)
      reads this`collaterals, this`totalCollateral, this`collateralReturn, this`evaluated
    {
      if k == 0 then
        requested == start && previous.None? && seen == {}
      else
        var first := PlainShape(inputs, ctx, start);
        && first.Some?
        && NextFee(inputs, first.value.outputs, start) == Ok(requested)
        && if k == 1 then previous == first && seen == {first.value}
           else
             && k == 2
             && previous.Some? && previous == PlainShape(inputs, ctx, requested)
             && previous != first
    }

    /** The shape a fee balances to when nothing else can change. */
    ghost function PlainShape(inputs: seq<Utxo>, ctx: Context, fee: Int64): Option<Shape>
      reads this`collaterals, this`totalCollateral, this`collateralReturn, this`evaluated
    {
      match Balanced(fee, ctx)
      case Err(_) => None
      case Ok(b) => Some(Shape(b.outputs, b.fee, Sizing(), BudgetsFor(inputs)))
    }

    /** In a plain build the second fee is the last: its own shape asks for no more. */
    lemma SecondFeeIsFinal(inputs: seq<Utxo>, ctx: Context, start: Int64, second: Int64)
      requires Plain(inputs) && StartsPriced(inputs, ctx, start)
      requires Balanced(start, ctx).Ok? && NextFee(inputs, Balanced(start, ctx).value.outputs, start) == Ok(second)
      requires Balanced(second, ctx).Ok?
      ensures NextFee(inputs, Balanced(second, ctx).value.outputs, second) == Ok(second)
    {
      if Estimating() {
        PlainEstimates(inputs, Balanced(start, ctx).value.outputs);
        PlainEstimates(inputs, Balanced(second, ctx).value.outputs);
        OneRaiseSettles(chain, inputs, req.outputs, ctx, options.padding, start, second);
      }
    }

    lemma PlainEstimates(inputs: seq<Utxo>, outputs: seq<Output>)
      requires Plain(inputs)
      ensures Estimate(inputs, outputs) == PlainEstimate(chain, inputs, outputs)
    {
    }

    /** The fee a plain build asks for once the starting fee is balanced. */
    function SecondFee(inputs: seq<Utxo>, ctx: Context, start: Int64): Option<Int64> {
      match Balanced(start, ctx)
      case Err(_) => None
      case Ok(b) =>
        if !Estimating() then Some(start)
        else
          match PlainEstimate(chain, inputs, b.outputs)
          case Err(_) => None
          case Ok(estimate) =>
            Some(if Padded(estimate, options.padding) < start then start else Padded(estimate, options.padding))
    }

    /** A plain build settles: the starting fee balances, and so does the fee asked for next. */
    predicate PlainSettles(inputs: seq<Utxo>, ctx: Context, start: Int64) {
      var second := SecondFee(inputs, ctx, start);
      second.Some? && Balanced(second.value, ctx).Ok?
    }

    /** Once the starting fee is balanced there is a second fee. */
    lemma SecondFeeExists(inputs: seq<Utxo>, ctx: Context, start: Int64)
      requires Plain(inputs) && StartsPriced(inputs, ctx, start) && Balanced(start, ctx).Ok?
      ensures SecondFee(inputs, ctx, start).Some?
      ensures NextFee(inputs, Balanced(start, ctx).value.outputs, start) == Ok(SecondFee(inputs, ctx, start).value)
    {
      if Estimating() {
        var outputs := Balanced(start, ctx).value.outputs;
        PlainEstimates(inputs, outputs);
        FittingIsPriced(chain, inputs, outputs, options.padding);
      }
    }

    /** One iteration of the loop, and the fee it asks for next. */
    ghost predicate IteratesTo(k: nat, inputs: seq<Utxo>, ctx: Context, requested: Int64, shape: Shape, next: Int64)
      reads this`collaterals, this`totalCollateral, this`collateralReturn, this`evaluated, this`autoSelected
    {
      && Balanced(requested, ctx) == Ok(Balance.Balanced(shape.outputs, shape.fee))
      && 0 <= requested <= shape.fee
      && shape.sizing == Sizing() && shape.budgets == BudgetsFor(inputs)
      && EvaluatedFor(k, inputs, shape.outputs, shape.fee)
      && CollateralSized(shape.fee)
      && NextFee(inputs, shape.outputs, requested) == Ok(next)
    }

    method Iterate(k: nat, inputs: seq<Utxo>, ctx: Context, requested: Int64) returns (r: Result<Shape>, next: Int64)
      modifies this`totalCollateral, this`collateralReturn, this`evaluated
      ensures r.Ok? ==> IteratesTo(k, inputs, ctx, requested, r.value, next)
      ensures collaterals == [] ==> collateralReturn == old(collateralReturn)
      ensures old(Plain(inputs)) ==> Plain(inputs) && Sizing() == old(Sizing()) && evaluated == old(evaluated)
      ensures old(Plain(inputs)) && r.Err? ==>
                Balanced(requested, ctx).Err? || NextFee(inputs, Balanced(requested, ctx).value.outputs, requested).Err?
    {
      next := requested;
      r := Round(k, inputs, requested, ctx);
      if r.Err? {
        return;
      }
      BalancedFee(requested, ctx);
      var fee := NextFee(inputs, r.value.outputs, requested);
      if fee.Err? {
        return Err(fee.error), next;
      }
      next := fee.value;
    }

    /** In a plain build an iteration either settles or moves on to a new shape, and the third settles. */
    lemma PlainIteration(k: nat, inputs: seq<Utxo>, ctx: Context, start: Int64, requested: Int64,
                         previous: Option<Shape>, seen: set<Shape>, shape: Shape, next: Int64)
      requires Plain(inputs) && StartsPriced(inputs, ctx, start) && IteratesTo(k, inputs, ctx, requested, shape, next)
      requires PlainProgress(k, inputs, ctx, start, requested, previous, seen)
      ensures k <= 2
      ensures k > 0 ==> SecondFee(inputs, ctx, start) == Some(requested) && PlainSettles(inputs, ctx, start)
      ensures (next == requested && previous == Some(shape)) ||
              (shape !in seen && PlainProgress(k + 1, inputs, ctx, start, next, Some(shape), seen + {shape}))
    {
      if k > 0 {
        SecondFeeExists(inputs, ctx, start);
        SecondFeeIsFinal(inputs, ctx, start, requested);
      }
    }

    /** In a plain build an iteration fails only where balancing does. */
    lemma PlainFailure(k: nat, inputs: seq<Utxo>, ctx: Context, start: Int64, requested: Int64,
                       previous: Option<Shape>, seen: set<Shape>)
      requires Plain(inputs) && StartsPriced(inputs, ctx, start)
      requires PlainProgress(k, inputs, ctx, start, requested, previous, seen)
      requires Balanced(requested, ctx).Err? || NextFee(inputs, Balanced(requested, ctx).value.outputs, requested).Err?
      ensures !PlainSettles(inputs, ctx, start)
    {
      if Balanced(start, ctx).Ok? {
        SecondFeeExists(inputs, ctx, start);
        if k > 0 && Balanced(requested, ctx).Ok? {
          SecondFeeIsFinal(inputs, ctx, start, requested);
        }
      }
    }

    /** The loop stops with a shape it pays for, balanced at the requested fee, with collateral and
        budgets to match. */
    ghost predicate SettledOn(inputs: seq<Utxo>, ctx: Context, settled: Settled)
      reads this`collaterals, this`totalCollateral, this`collateralReturn, this`evaluated, this`autoSelected
    {
      && Balanced(settled.requestedFee, ctx) == Ok(Balance.Balanced(settled.outputs, settled.fee))
      && 0 < settled.rounds <= 5 && settled.fee >= 0
      && PaysFor(inputs, settled)
      && Mintable(req.mint)
      && CollateralSized(settled.fee)
      && EvaluatedFor(settled.rounds - 1, inputs, settled.outputs, settled.fee)
    }

    /** An iteration that asks for the fee it was given has settled. */
    lemma IterationSettles(k: nat, inputs: seq<Utxo>, ctx: Context, requested: Int64, shape: Shape)
      requires k < 5 && IteratesTo(k, inputs, ctx, requested, shape, requested)
      ensures SettledOn(inputs, ctx, Settled(shape.outputs, shape.fee, requested, k + 1))
    {
    }

    /** The loop of `Complete`. It stops only when the same fee has produced the same shape
        twice. A plain build gets there within three iterations exactly when balancing succeeds at the
        starting fee and at the one asked for next, and fails otherwise, so there neither
        non-convergence error is reachable. */
    method SettleFee(inputs: seq<Utxo>, ctx: Context, start: Int64) returns (outcome: Outcome)
      modifies this`totalCollateral, this`collateralReturn, this`evaluated
      ensures outcome.Converged? ==> SettledOn(inputs, ctx, outcome.settled)
      ensures collaterals == [] ==> collateralReturn == old(collateralReturn)
      ensures old(Plain(inputs)) && StartsPriced(inputs, ctx, start) ==>
                && !outcome.DidNotConverge?
                && (outcome.Converged? <==> PlainSettles(inputs, ctx, start))
                && (outcome.Converged? ==>
                      && outcome.settled.rounds <= 3
                      && SecondFee(inputs, ctx, start) == Some(outcome.settled.requestedFee))
    {
      ghost var plain := Plain(inputs) && StartsPriced(inputs, ctx, start);
      var requested := start;
      var previous: Option<Shape> := None;
      var seen: set<Shape> := {};
      for k := 0 to 5
        invariant collaterals == [] ==> collateralReturn == old(collateralReturn)
        invariant plain ==>
                    Plain(inputs) && PlainProgress(k, inputs, ctx, start, requested, previous, seen)
      {
        var iteration, next := Iterate(k, inputs, ctx, requested);
        if iteration.Err? {
          if plain {
            PlainFailure(k, inputs, ctx, start, requested, previous, seen);
          }
          return Failed(iteration.error);
        }
        var shape := iteration.value;
        if plain {
          PlainIteration(k, inputs, ctx, start, requested, previous, seen, shape, next);
        }
        if next == requested && previous == Some(shape) {
          IterationSettles(k, inputs, ctx, requested, shape);
          return Converged(Settled(shape.outputs, shape.fee, requested, k + 1));
        }
        if shape in seen {
          return DidNotConverge;
        }
        seen := seen + {shape};
        previous := Some(shape);
        requested := next;
      }
      outcome := DidNotConverge;
    }

    lemma BalancedFee(requested: Int64, ctx: Context)
      requires Balanced(requested, ctx).Ok?
      ensures 0 <= requested <= Balanced(requested, ctx).value.fee
    {
      var ending := BalanceEnding(chain.outputBase, chain.price, req.outputs, requested, ctx);
    }

    // ----- Complete -----

    /** What selection must cover at a fee reserve: outputs, deposits, the reserve, and the
        tokens to be burned. */
    function SelectionTarget(needs: Needs, reserve: Int64): Result<Value> {
      if reserve < 0 then Err(NegativeFee)
      else
        match needs.balanceRequired.Add(SimpleValue(reserve))
        case Err(e) => Err(e)
        case Ok(target) => target.Add(needs.burn)
    }

    /** A padded estimate as a reserve, replaced by the ceiling when it is out of range. */
    function ReserveFor(estimate: Result<Int64>, ceiling: Int64): Int64 {
      if estimate.Err? then ceiling
      else
        var padded := Wrap64(estimate.value + options.padding);
        if padded < 0 || padded > ceiling then ceiling else padded
    }

    /** The selection is free of reservations, except perhaps for auto-selected collateral, and is
        reserved now. */
    ghost predicate Reserved(picked: seq<Utxo>, before: SelectionState)
      reads this`used, this`overlap, this`autoSelected, this`collaterals
    {
      && (before.overlap.Some? ==> overlap == before.overlap)
      && (overlap != before.overlap ==> |collaterals| == 1)
      && (forall u :: u in picked ==>
            !IsUsedUnder(u.txin, before) || (autoSelected && |collaterals| == 1 && u.txin == collaterals[0].txin))
      && used == (if overlap == before.overlap then before.used else before.used - {collaterals[0].txin})
                 + set u | u in picked :: u.txin
    }

    /** What selection finds at a reserve, from the reservations as they are. */
    ghost function SelectionAt(needs: Needs, reserve: Int64): Result<seq<Utxo>>
      reads this`utxos, this`collaterals, this`used, this`overlap, this`autoSelected
    {
      match SelectionTarget(needs, reserve)
      case Err(e) => Err(e)
      case Ok(target) => SelectedOrRetried(target, needs.totalInput)
    }

    /** The reserve a selection turns out to need. */
    function CostOf(picked: seq<Utxo>, ceiling: Int64): Int64
      reads this`collaterals, this`totalCollateral, this`collateralReturn, this`evaluated
    {
      ReserveFor(Estimate(Sorted(picked), req.outputs), ceiling)
    }

    /** The reserve of the first attempt: the price of the pins alone. */
    function FirstReserve(needs: Needs): Int64
      reads this`collaterals, this`totalCollateral, this`collateralReturn, this`evaluated
    {
      ReserveFor(Estimate(preselected, req.outputs), needs.ceiling)
    }

    /** What is selected at each reserve costs, from the reservations as they are. */
    ghost function CostsFor(needs: Needs): Costs
      reads this`utxos, this`collaterals, this`used, this`overlap, this`autoSelected
      reads this`totalCollateral, this`collateralReturn, this`evaluated
    {
      imap r: Int64 | SelectionAt(needs, r).Ok? :: CostOf(SelectionAt(needs, r).value, needs.ceiling)
    }

    /** These are the costs of what is selected. */
    ghost predicate Priced(costs: Costs, needs: Needs)
      reads this`utxos, this`collaterals, this`used, this`overlap, this`autoSelected
      reads this`totalCollateral, this`collateralReturn, this`evaluated
    {
      Capped(costs, needs.ceiling) &&
      forall r: Int64 {:trigger SelectionAt(needs, r)} ::
        && (r in costs <==> SelectionAt(needs, r).Ok?)
        && (r in costs ==> costs[r] == CostOf(SelectionAt(needs, r).value, needs.ceiling))
    }

    lemma CostsArePriced(needs: Needs)
      ensures Priced(CostsFor(needs), needs)
    {
    }

    /** The reserve that replaces this one once this is selected. */
    function NextAfter(needs: Needs, reserve: Int64, r: Result<seq<Utxo>>): Option<Int64>
      reads this`collaterals, this`totalCollateral, this`collateralReturn, this`evaluated
    {
      if r.Ok? && reserve < needs.ceiling && CostOf(r.value, needs.ceiling) > reserve
      then Some(CostOf(r.value, needs.ceiling)) else None
    }

    lemma NextIsPriced(costs: Costs, needs: Needs, reserve: Int64)
      requires Priced(costs, needs)
      ensures NextReserve(costs, needs.ceiling, reserve) == NextAfter(needs, reserve, SelectionAt(needs, reserve))
    {
    }

    /** Selects against a reserve. */
    method SelectAtReserve(needs: Needs, reserve: Int64) returns (r: Result<seq<Utxo>>)
      requires ReservationValid()
      modifies this`used, this`overlap
      ensures ReservationValid()
      ensures r == old(SelectionAt(needs, reserve))
      ensures r.Err? ==> State() == old(State())
      ensures r.Ok? ==>
                CoversReserve(r.value, needs, reserve) && SelectionFits(r.value) && Reserved(r.value, old(State()))
    {
      var target := SelectionTarget(needs, reserve);
      if target.Err? {
        return Err(target.error);
      }
      r := SelectAllowingOverlap(target.value, needs.totalInput);
    }

    /** One attempt of the reserve loop. It asks for another, with the reservations rolled back,
        exactly when it selects what costs more than its reserve, that reserve is below the ceiling,
        and fewer than three attempts were made. */
    method Attempt(needs: Needs, reserve: Int64, attempt: nat) returns (r: Result<seq<Utxo>>, next: Option<Int64>)
      requires ReservationValid() && 0 <= reserve <= needs.ceiling && attempt < 3
      modifies this`used, this`overlap
      ensures ReservationValid()
      ensures r == old(SelectionAt(needs, reserve))
      ensures next == if attempt < 2 then NextAfter(needs, reserve, r) else None
      ensures next.Some? ==> next.value <= needs.ceiling
      ensures r.Err? || next.Some? ==> State() == old(State())
      ensures r.Ok? && next.None? ==>
                && Chosen(r.value, needs, reserve, attempt + 1)
                && SelectionFits(r.value) && Reserved(r.value, old(State()))
    {
      next := None;
      var before := State();
      r := SelectAtReserve(needs, reserve);
      if r.Err? || reserve >= needs.ceiling || attempt + 1 >= 3 {
        return;
      }
      var needed := CostOf(r.value, needs.ceiling);
      if needed <= reserve {
        return;
      }
      Restore(before);
      next := Some(needed);
    }

    /** The reserve loop: select, price what was selected, and if the reserve falls short roll
        the reservations back and select again at the higher price, three times at most. */
    method TryReserves(needs: Needs, ghost costs: Costs)
      returns (r: Result<seq<Utxo>>, ghost reserve: Int64, ghost attempts: nat)
      requires ReservationValid() && needs.ceiling >= 0 && Priced(costs, needs)
      modifies this`used, this`overlap
      ensures ReservationValid()
      ensures reserve == LastReserve(costs, needs.ceiling, FirstReserve(needs))
      ensures 0 <= reserve <= needs.ceiling && r == old(SelectionAt(needs, reserve))
      ensures r.Err? ==> State() == old(State())
      ensures r.Ok? ==>
                && Chosen(r.value, needs, reserve, attempts)
                && SelectionFits(r.value) && Reserved(r.value, old(State()))
    {
      var next: Int64 := FirstReserve(needs);
      var attempt := 0;
      while true
        invariant attempt < 3 && 0 <= next <= needs.ceiling
        invariant State() == old(State()) && ReservationValid() && Priced(costs, needs)
        invariant LastFrom(costs, needs.ceiling, next, attempt) ==
                  LastReserve(costs, needs.ceiling, FirstReserve(needs))
        decreases 3 - attempt
      {
        reserve, attempts := next, attempt + 1;
        var again;
        NextIsPriced(costs, needs, next);
        r, again := Attempt(needs, next, attempt);
        if again.None? {
          return;
        }
        next := again.value;
        attempt := attempt + 1;
      }
    }

    /** What the reserve loop ends with. */
    ghost function FoundFor(needs: Needs): Result<seq<Utxo>>
      reads this`utxos, this`collaterals, this`used, this`overlap, this`autoSelected
      reads this`totalCollateral, this`collateralReturn, this`evaluated
    {
      SelectionAt(needs, LastReserve(CostsFor(needs), needs.ceiling, FirstReserve(needs)))
    }

    /** The inputs selected: those found at the last reserve of the loop. */
    method ChooseInputs(needs: Needs) returns (r: Result<seq<Utxo>>, ghost reserve: Int64, ghost attempts: nat)
      requires ReservationValid() && needs.ceiling >= 0
      modifies this`used, this`overlap
      ensures ReservationValid()
      ensures reserve == old(LastReserve(CostsFor(needs), needs.ceiling, FirstReserve(needs)))
      ensures 0 <= reserve <= needs.ceiling && r == old(FoundFor(needs))
      ensures r.Err? ==> State() == old(State())
      ensures r.Ok? ==>
                && Chosen(r.value, needs, reserve, attempts)
                && SelectionFits(r.value) && Reserved(r.value, old(State()))
    {
      CostsArePriced(needs);
      r, reserve, attempts := TryReserves(needs, CostsFor(needs));
    }

    /** The inputs in the order of the body. */
    function Sorted(picked: seq<Utxo>): seq<Utxo> {
      LargestFirst.SortInputs(preselected + picked)
    }

    ghost predicate CoversReserve(picked: seq<Utxo>, needs: Needs, reserve: Int64)
      reads this`utxos
    {
      var target := SelectionTarget(needs, reserve);
      target.Ok? && SelectedFrom(picked, target.value, needs.totalInput)
    }

    /** How the reserve loop ends with a selection: it covers the target of a reserve within the
        ceiling, and that reserve pays for what was selected unless it is the ceiling itself or
        three attempts were made. */
    ghost predicate Chosen(picked: seq<Utxo>, needs: Needs, reserve: Int64, attempts: nat)
      reads this`utxos, this`collaterals, this`totalCollateral, this`collateralReturn, this`evaluated
    {
      && 0 <= reserve <= needs.ceiling && 1 <= attempts <= 3
      && CoversReserve(picked, needs, reserve)
      && (attempts == 3 || reserve == needs.ceiling ||
          var estimate := Estimate(Sorted(picked), req.outputs);
          estimate.Ok? && 0 <= Wrap64(estimate.value + options.padding) <= reserve)
    }

    /** The loop keeps a selection that costs more than its reserve exactly when three attempts in a row
        would: at the price of the pins alone, at the cost of what that selects, and at the cost of
        what that selects. The last is then the third, below the ceiling. */
    lemma StopsShortIff(needs: Needs, costs: Costs)
      requires Priced(costs, needs)
      ensures var first, last := FirstReserve(needs), LastReserve(costs, needs.ceiling, FirstReserve(needs));
              (SelectionAt(needs, last).Ok? && CostOf(SelectionAt(needs, last).value, needs.ceiling) > last) <==>
                CostsMore(costs, first) &&
                var second := costs[first];
                CostsMore(costs, second) &&
                var third := costs[second];
                CostsMore(costs, third) && last == third && first < second < third < needs.ceiling
    {
      ShortIff(costs, needs.ceiling, FirstReserve(needs));
    }

    /** Selection that fails at a reserve fails at the ceiling too, unless it is the top-up guard that
        fails. */
    lemma FailsAtCeiling(needs: Needs, reserve: Int64)
      requires ExactUnder(State()) && (CanRelease() ==> ExactUnder(Released()))
      requires 0 <= reserve <= needs.ceiling && SelectionAt(needs, reserve).Err?
      requires var low := SelectionTarget(needs, reserve);
               low.Ok? ==> !Selection.TopUpGuardFails(SettingFor([]), low.value, needs.totalInput)
      ensures SelectionAt(needs, needs.ceiling).Err?
    {
      var low, high := SelectionTarget(needs, reserve), SelectionTarget(needs, needs.ceiling);
      if low.Ok? && high.Ok? {
        OverlapFailureIsMonotone(low.value, high.value, needs.totalInput);
      }
    }

    /** The fee the loop starts from. */
    function StartFee(inputs: seq<Utxo>): Result<Int64>
      reads this`collaterals, this`totalCollateral, this`collateralReturn, this`evaluated
    {
      if options.forceFee then Ok(Padded(options.fee, options.padding))
      else
        match Estimate(inputs, req.outputs)
        case Err(e) => Err(e)
        case Ok(estimate) => Ok(Padded(if options.fee > 0 then options.fee else estimate, options.padding))
    }

    /** UTxOs carry lovelace and outputs carry no negative quantity. */
    ghost predicate OrdinaryValues()
      reads this`utxos
    {
      && (forall u :: u in preselected || u in utxos ==> u.amount > 0)
      && (forall o :: o in req.outputs ==> NothingNegative(o.ToValue()))
    }

    /** A build with no scripts and no collateral. */
    ghost predicate PlainBuild()
      reads this`collaterals, this`evaluated
    {
      && !options.evaluates && !hasScripts && collaterals == [] && Mintable(req.mint)
      && evaluated.None? && NothingRegistered()
    }

    ghost predicate NothingRegistered() {
      forall us :: registered(us) == map[]
    }

    /** Inputs the build could come to spend. */
    ghost predicate Spendable(us: seq<Utxo>, pool: seq<Utxo>) {
      && us != [] && (forall u :: u in us ==> u in preselected || u in pool)
      && |us| <= |preselected| + |pool|
    }

    /** If these inputs can be priced and balanced, the first shape balanced is priced within int64:
        the requested outputs with the change that is left at the price of those outputs. */
    ghost predicate FirstShapeFits(us: seq<Utxo>) {
      var ctx, price := ContextFor(req, us, changeAddress), PlainEstimate(chain, us, req.outputs);
      ctx.Ok? && price.Ok? ==>
        var b := Balanced(Padded(price.value, options.padding), ctx.value);
        b.Ok? ==> EstimateFits(chain, us, b.value.outputs, options.padding)
    }

    /** The estimates of the build stay within int64. */
    ghost predicate EstimatesFit(pool: seq<Utxo>) {
      forall us: seq<Utxo> :: Spendable(us, pool) ==> FirstShapeFits(us)
    }

    /** An output that change could be: to the change address, nothing attached, and of each asset a
        positive quantity no larger than the inputs and the mint supply. */
    ghost predicate ChangeLike(us: seq<Utxo>, o: Output) {
      && o.address == changeAddress && o.extra == 0
      && (o.assets.Some? ==>
            forall a :: a in o.assets.value ==>
              0 < o.assets.value[a] <= Sum(us, Token(a)) + Minted(req.mint, Token(a)))
    }

    /** It is enough that every output that change could be is priced within int64. */
    lemma BoundedChangeFits(pool: seq<Utxo>)
      requires forall u :: u in preselected || u in pool ==> u.amount > 0
      requires forall o :: o in req.outputs ==> NothingNegative(o.ToValue())
      requires forall us, o :: Spendable(us, pool) && ChangeLike(us, o) ==>
                 EstimateFits(chain, us, req.outputs + [o], options.padding)
      ensures EstimatesFit(pool)
    {
      forall us | Spendable(us, pool) ensures FirstShapeFits(us) {
        var ctx, price := ContextFor(req, us, changeAddress), PlainEstimate(chain, us, req.outputs);
        if ctx.Ok? && price.Ok? {
          var fee := Padded(price.value, options.padding);
          if Balanced(fee, ctx.value).Ok? {
            var o := FirstChange(us, ctx.value, fee);
            SmallerChangeSmaller(chain, us, req.outputs, o, 0);
            SmallerShapeCheaper(chain, us, req.outputs, req.outputs + [o], options.padding);
          }
        }
      }
    }

    /** A balance adds no output, or one that is change-like. */
    lemma FirstChange(us: seq<Utxo>, ctx: Context, fee: Int64) returns (o: Output)
      requires us != [] && forall u :: u in us ==> u.amount > 0
      requires forall o :: o in req.outputs ==> NothingNegative(o.ToValue())
      requires ContextFor(req, us, changeAddress) == Ok(ctx) && Balanced(fee, ctx).Ok?
      ensures ChangeLike(us, o)
      ensures Balanced(fee, ctx).value.outputs in {req.outputs, req.outputs + [o]}
    {
      var ending := BalanceEnding(chain.outputBase, chain.price, req.outputs, fee, ctx);
      o := if ending.Emitted? then ending.change else Output(changeAddress, 0, None, 0);
      if ending.Emitted? && o.assets.Some? {
        forall a | a in o.assets.value
          ensures 0 < o.assets.value[a] <= Sum(us, Token(a)) + Minted(req.mint, Token(a))
        {
          ContextExact(req, us, changeAddress, ctx, Token(a));
          OutputsNonNegative(req.outputs);
          RequiredExact(req);
          assert OutputTotal(req.outputs, Token(a)) >= 0;
          LeftoverExact(ctx, fee);
          assert Leftover(ctx, fee).value.Get(Token(a)) == o.assets.value[a];
        }
      }
    }

    /** The requested outputs, and after them change to the change address or nothing. */
    ghost predicate PaysOut(outputs: seq<Output>) {
      && req.outputs <= outputs && |outputs| <= |req.outputs| + 1
      && (|outputs| > |req.outputs| ==>
            var change := outputs[|req.outputs|];
            var min := MinLovelace(chain.outputBase, chain.price, change);
            change.address == changeAddress && min.Ok? && change.coin >= min.value)
    }

    /** The properties of a completed transaction. */
    ghost predicate Sound(tx: Tx)
      reads this`collaterals, this`totalCollateral, this`collateralReturn
      reads this`evaluated, this`utxos, this`autoSelected, this`overlap
    {
      // Conservation in lovelace and in every asset.
      && req.stakeDeposit >= 0 && req.poolDeposit >= 0
      && (forall c :: PutIn(req, tx.inputs, c) == TakenOut(req, tx.outputs, tx.fee, c))
      // The fee covers the estimate of this very transaction, padding included.
      && tx.sizing == Sizing() && tx.budgets == BudgetsFor(tx.inputs)
      && (Estimating() ==>
            var estimate := EstimateFee(chain, tx.inputs, tx.outputs, tx.sizing, tx.budgets);
            estimate.Ok? && tx.fee >= Padded(estimate.value, options.padding))
      // The budgets are those evaluated for this very shape.
      && (options.evaluates ==> exists k: nat :: evaluator(k, tx.inputs, tx.outputs, tx.fee) == Ok(tx.budgets))
      // Every requested output, then at most one change output, which meets its own minimum.
      && PaysOut(tx.outputs)
      // Inputs: never none, all from the pins and the pool, repeated only if a pin is.
      && tx.inputs != []
      && (forall u :: u in tx.inputs ==> u in preselected || u in utxos)
      // Collateral: sized for this fee, and apart from the inputs unless flagged for overlap.
      && InputsFit(tx.inputs) && CollateralSized(tx.fee) && CollateralValid()
    }

    /** With the fee estimated, a completed transaction pays the linear fee of its own encoding,
        scripts included, whenever its fee encodes no wider than the fee it was priced with. */
    lemma CompletedPaysItsSize(tx: Tx)
      requires Sound(tx) && Estimating() && chain.coefficient >= 0 && chain.constant >= 0 && options.padding >= 0
      requires RequiredFee(chain, tx.inputs, tx.outputs, tx.sizing, tx.budgets, PlaceholderFee(chain)) <=
               MAX_I64 - options.padding
      requires UintWidth(tx.fee) <= UintWidth(PlaceholderFee(chain))
      ensures tx.fee >= RequiredFee(chain, tx.inputs, tx.outputs, tx.sizing, tx.budgets, tx.fee)
    {
      var scripts, references := ScriptFee(chain, tx.budgets).value, chain.referenceFee(tx.inputs).value;
      var size := TxSize(chain, tx.inputs, tx.outputs, tx.sizing, tx.budgets, PlaceholderFee(chain));
      PriceExact(size, chain.coefficient, chain.constant, scripts, references);
      MulMonotone(0, size, chain.coefficient);
      WrapInRange(ExactPrice(size, chain.coefficient, chain.constant, scripts, references) + options.padding);
      FeeCoversEncodedSize(chain, tx.inputs, tx.outputs, tx.sizing, tx.budgets, tx.fee);
    }

    /** Every successful round of evaluation gives what `RedeemerBook.EvaluationRound` gives: a map
        faithful to the evaluator's response, with an entry for each registered redeemer. */
    ghost predicate RunsRounds(respond: Responder, registrations: nat) {
      forall k: nat, us: seq<Utxo>, os: seq<Output>, fee: Int64 {:trigger evaluator(k, us, os, fee)} ::
        evaluator(k, us, os, fee).Ok? ==>
          var response := respond(k, us, os, fee);
          FaithfulMap(evaluator(k, us, os, fee).value, map key | key in response :: response[key].buffered,
                      registrations)
    }

    /** Then a completed transaction carries exactly the keys and buffered budgets of a response to
        its own inputs, outputs and fee, one for each registered redeemer. */
    lemma CompletedBudgetsAreEvaluated(tx: Tx, respond: Responder, registrations: nat) returns (k: nat)
      requires Sound(tx) && options.evaluates && RunsRounds(respond, registrations)
      ensures var response := respond(k, tx.inputs, tx.outputs, tx.fee);
              FaithfulMap(tx.budgets, map key | key in response :: response[key].buffered, registrations)
    {
      k :| evaluator(k, tx.inputs, tx.outputs, tx.fee) == Ok(tx.budgets);
    }

    /** A completed transaction balances for the ledger, which spends the set of its inputs, exactly
        when no UTxO was pinned twice. */
    lemma CompletedBalancesOnceIff(tx: Tx)
      requires Sound(tx) && OrdinaryValues() && MacsSpec.UniqueRefs(Elements(preselected + utxos))
      ensures (forall c :: PutInOnce(req, Elements(tx.inputs), c) == TakenOut(req, tx.outputs, tx.fee, c)) <==>
                DistinctRefs(preselected)
    {
      assert forall u :: u in tx.inputs ==> u in preselected + utxos;
      BalancesOnceIffDistinct(req, tx.inputs, tx.outputs, tx.fee);
    }

    /** What selection leaves for the rest of the build to rely on. */
    ghost predicate SelectionFits(selected: seq<Utxo>)
      reads this`utxos, this`autoSelected, this`overlap, this`collaterals
    {
      && preselected + selected != [] && DistinctRefs(selected)
      && (forall u :: u in selected ==> u in utxos && !Contains(preselected, u.txin))
      && (autoSelected && overlap.None? && |collaterals| == 1 ==>
            forall u :: u in selected ==> u.txin != collaterals[0].txin)
    }

    lemma InputsSorted(selected: seq<Utxo>)
      requires ReservationValid() && SelectionFits(selected)
      ensures var inputs := LargestFirst.SortInputs(preselected + selected);
              && inputs != []
              && |inputs| == |preselected| + |selected|
              && (forall u :: u in inputs <==> u in preselected || u in selected)
              && (DistinctRefs(inputs) <==> DistinctRefs(preselected))
              && (autoSelected && overlap.None? ==> !Contains(inputs, collaterals[0].txin))
    {
      var all := preselected + selected;
      var inputs := LargestFirst.SortInputs(all);
      SameMultisetSameElements(inputs, all);
      assert forall u :: u in inputs <==> u in Elements(inputs);
      assert forall u :: u in all <==> u in Elements(all);
      RefsPermutation(all, inputs);
      RefsPermutation(inputs, all);
      JoinedRefs(preselected, selected);
      if autoSelected && overlap.None? {
        forall i | 0 <= i < |inputs| ensures inputs[i].txin != collaterals[0].txin {
          assert inputs[i] in inputs;
          assert inputs[i] in preselected ==> Contains(preselected, inputs[i].txin);
        }
      }
    }

    /** What the fee loop works from. */
    ghost predicate ReadyToSettle(ready: Ready)
      reads this`utxos, this`collaterals, this`totalCollateral, this`collateralReturn, this`evaluated
    {
      && ready.inputs != []
      && (forall u :: u in ready.inputs ==> u in preselected || u in utxos)
      && |ready.inputs| <= |preselected| + |utxos|
      && ContextFor(req, ready.inputs, changeAddress) == Ok(ready.ctx)
      && StartFee(ready.inputs) == Ok(ready.start)
    }

    /** The inputs have a total, a context to be balanced in and a starting fee. */
    ghost predicate Preparable(inputs: seq<Utxo>)
      reads this`collaterals, this`totalCollateral, this`collateralReturn, this`evaluated
    {
      CollateralValid() && StartFee(inputs).Ok? && ContextFor(req, inputs, changeAddress).Ok?
    }

    /** The sorted inputs, the balance context and the starting fee. */
    method Prepare(selected: seq<Utxo>, needs: Needs) returns (r: Result<Ready>)
      requires ReservationValid() && SelectionFits(selected)
      requires NeedsOfRequest(needs)
      ensures r.Ok? ==> ReadyToSettle(r.value) && InputsFit(r.value.inputs) && CollateralValid()
      ensures r.Ok? ==> r.value.inputs == Sorted(selected)
      ensures r.Ok? <==> Preparable(Sorted(selected))
      ensures PlainBuild() ==>
                (Settleable(Sorted(selected)) <==> r.Ok? && PlainSettles(r.value.inputs, r.value.ctx, r.value.start))
      ensures r.Ok? ==> forall u :: u in r.value.inputs ==> u in preselected || u in selected
    {
      var inputs := Sorted(selected);
      InputsSorted(selected);
      DistinctFits(selected, utxos);
      if PlainBuild() {
        SettleableIff(inputs);
      }
      if !CollateralValid() {
        return Err(InvalidCollateral);
      }
      var start := StartFee(inputs);
      if start.Err? {
        return Err(start.error);
      }
      var total := SumUtxoValues(inputs);
      if total.Err? {
        return Err(total.error);
      }
      var totalInput := WithImplicitInputs(req, total.value, needs.minted);
      if totalInput.Err? {
        return Err(totalInput.error);
      }
      r := Ok(Ready(inputs, Context(totalInput.value, needs.required, needs.governance, changeAddress), start.value));
    }

    /** Inputs repeat only if a pin does, and keep clear of collateral not flagged for overlap. */
    ghost predicate InputsFit(inputs: seq<Utxo>)
      reads this`autoSelected, this`overlap, this`collaterals
    {
      && (DistinctRefs(inputs) <==> DistinctRefs(preselected))
      && (autoSelected && overlap.None? && |collaterals| == 1 ==> !Contains(inputs, collaterals[0].txin))
    }

    /** From the prepared inputs to the settled transaction. */
    method Finish(ready: Ready) returns (r: Completion)
      requires OrdinaryValues() && ReadyToSettle(ready) && InputsFit(ready.inputs) && CollateralValid()
      modifies this`totalCollateral, this`collateralReturn, this`evaluated
      ensures r.Completed? ==> Sound(r.tx) && r.tx.inputs == ready.inputs
      ensures collaterals == [] ==> collateralReturn == old(collateralReturn)
      ensures old(PlainBuild()) && EstimatesFit(utxos) ==>
                && !r.NotConverged?
                && (r.Completed? <==> PlainSettles(ready.inputs, ready.ctx, ready.start))
    {
      if PlainBuild() && EstimatesFit(utxos) {
        assert Spendable(ready.inputs, utxos);
        StartIsPriced(ready.inputs, ready.ctx, ready.start);
      }
      var outcome := SettleFee(ready.inputs, ready.ctx, ready.start);
      match outcome {
        case Failed(e) => r := Rejected(e);
        case DidNotConverge => r := NotConverged;
        case Converged(settled) =>
          SettledConserves(ready.inputs, ready.ctx, settled.requestedFee);
          SettledPaysOut(ready.ctx, settled.requestedFee);
          r := Completed(Tx(ready.inputs, settled.outputs, settled.fee, Sizing(), BudgetsFor(ready.inputs)));
      }
    }

    lemma SettledConserves(inputs: seq<Utxo>, ctx: Context, requestedFee: Int64)
      requires inputs != [] && OrdinaryValues() && forall u :: u in inputs ==> u in preselected || u in utxos
      requires ContextFor(req, inputs, changeAddress) == Ok(ctx) && Balanced(requestedFee, ctx).Ok?
      ensures req.stakeDeposit >= 0 && req.poolDeposit >= 0
      ensures var b := Balanced(requestedFee, ctx).value;
              forall c :: PutIn(req, inputs, c) == TakenOut(req, b.outputs, b.fee, c)
    {
      Conservation(req, inputs, chain.outputBase, chain.price, requestedFee, changeAddress, ctx, Coin);
      var b := Balanced(requestedFee, ctx).value;
      forall c ensures PutIn(req, inputs, c) == TakenOut(req, b.outputs, b.fee, c) {
        Conservation(req, inputs, chain.outputBase, chain.price, requestedFee, changeAddress, ctx, c);
      }
    }

    lemma SettledPaysOut(ctx: Context, requestedFee: Int64)
      requires Balanced(requestedFee, ctx).Ok? && ctx.changeAddress == changeAddress
      ensures PaysOut(Balanced(requestedFee, ctx).value.outputs)
    {
      var ending := BalanceEnding(chain.outputBase, chain.price, req.outputs, requestedFee, ctx);
    }

    lemma StartIsPriced(inputs: seq<Utxo>, ctx: Context, start: Int64)
      requires PlainBuild() && FirstShapeFits(inputs)
      requires StartFee(inputs) == Ok(start) && ContextFor(req, inputs, changeAddress) == Ok(ctx)
      ensures Plain(inputs) && StartsPriced(inputs, ctx, start)
    {
      if Estimating() {
        PlainEstimates(inputs, req.outputs);
      }
    }

    /** The needs are those of the request: what must be balanced, what selection must find besides
        the fee, what is there before it, and the most a fee is reserved for. */
    ghost predicate NeedsOfRequest(needs: Needs) {
      && TotalRequired(req) == Ok(needs.required) && Governance(req) == Ok(needs.governance)
      && MintValue(req.mint) == Ok(needs.minted)
      && needs.required.Add(needs.governance) == Ok(needs.balanceRequired)
      && needs.burn == BurnRequirement(needs.minted)
      && TotalValue(preselected).Ok? && needs.minted.Add(needs.burn).Ok?
      && WithImplicitInputs(req, TotalValue(preselected).value, needs.minted.Add(needs.burn).value)
         == Ok(needs.totalInput)
      && chain.referenceFee(preselected).Ok?
      && needs.ceiling == chain.maxTxFee + chain.referenceFee(preselected).value
    }

    /** The fixed quantities of the build, and the fee ceiling, computed before selection. */
    method Gather() returns (r: Result<Needs>)
      ensures r.Ok? ==> NeedsOfRequest(r.value) && r.value.ceiling >= 0
      ensures r.Err? ==> forall needs: Needs :: !NeedsOfRequest(needs)
    {
      var required, governance, minted := TotalRequired(req), Governance(req), MintValue(req.mint);
      if required.Err? || governance.Err? || minted.Err? {
        return Err(RequiredOverflow);
      }
      var balanceRequired := required.value.Add(governance.value);
      if balanceRequired.Err? {
        return Err(balanceRequired.error);
      }
      var pinned := SumUtxoValues(preselected);
      if pinned.Err? {
        return Err(pinned.error);
      }
      var burn := BurnRequirement(minted.value);
      var mintInput := minted.value.Add(burn);
      var implicit := if mintInput.Err? then Err(RequiredOverflow)
                      else WithImplicitInputs(req, pinned.value, mintInput.value);
      var references := chain.referenceFee(preselected);
      if implicit.Err? || references.Err? || chain.maxTxFee > MAX_I64 || references.value > MAX_I64 - chain.maxTxFee {
        return Err(FeeOverflow);
      }
      r := Ok(Needs(required.value, governance.value, minted.value, balanceRequired.value, burn, implicit.value,
                    chain.maxTxFee + references.value));
    }

    // ----- what the reserve is for -----

    /** A selection that covers the target of a reserve pays for every fee up to it: the inputs hold
        the outputs, the deposits, the fee and the tokens to be burned. So balancing at that fee
        fails only over the change, when what is left is no output and the fee cannot absorb it. */
    lemma ReserveFundsFee(needs: Needs, picked: seq<Utxo>, reserve: Int64, ctx: Context, fee: Int64)
      requires NeedsOfRequest(needs) && CoversReserve(picked, needs, reserve)
      requires forall u :: u in preselected || u in picked ==> u.amount > 0
      requires forall o :: o in req.outputs ==> NothingNegative(o.ToValue())
      requires ContextFor(req, Sorted(picked), changeAddress) == Ok(ctx) && 0 <= fee <= reserve
      ensures Leftover(ctx, fee).Ok?
      ensures var change := Leftover(ctx, fee).value;
              var min := MinLovelace(chain.outputBase, chain.price, ChangeOutput(ctx, change));
              Balanced(fee, ctx).Err? <==>
                change != SimpleValue(0) &&
                (min.Err? || (change.coin < min.value && (change.HasAssets() || fee > MAX_I64 - change.coin)))
    {
      forall c ensures 0 <= NeededAt(ctx, fee, c) <= ctx.totalInput.Get(c) {
        FundedInClass(needs, picked, reserve, ctx, c);
      }
      NeededFits(needs, reserve, ctx, fee);
      CoveredLeaves(ctx, fee);
      BalancingFailsIff(chain.outputBase, chain.price, req.outputs, fee, ctx);
    }

    /** When the pins cover the target by themselves, what the top-up guard looks at is what balancing
        them at the reserve leaves. */
    lemma GuardSeesPins(needs: Needs, reserve: Int64, ctx: Context)
      requires NeedsOfRequest(needs) && CoversReserve([], needs, reserve) && reserve >= 0
      requires forall u :: u in preselected ==> u.amount > 0
      requires forall o :: o in req.outputs ==> NothingNegative(o.ToValue())
      requires ContextFor(req, Sorted([]), changeAddress) == Ok(ctx)
      ensures Selection.SeesLeftover(SelectionTarget(needs, reserve).value, needs.totalInput, ctx, reserve)
    {
      ReserveFundsFee(needs, [], reserve, ctx, reserve);
      SortedTotals([], Coin);
      assert Sorted([]) != [];
      ContextNonNegative(req, Sorted([]), changeAddress, ctx);
      LeftoverExact(ctx, reserve);
      PinsSurplus(needs, reserve, ctx);
      var target := SelectionTarget(needs, reserve).value;
      var surplus := Selection.Surplus(target, needs.totalInput);
      forall c ensures Leftover(ctx, reserve).value.Get(c) == surplus.Get(c) {
        PinsInClass(needs, reserve, ctx, c);
      }
    }

    lemma PinsSurplus(needs: Needs, reserve: Int64, ctx: Context)
      requires NeedsOfRequest(needs) && CoversReserve([], needs, reserve) && reserve >= 0
      requires forall u :: u in preselected ==> u.amount > 0
      requires forall o :: o in req.outputs ==> NothingNegative(o.ToValue())
      requires ContextFor(req, Sorted([]), changeAddress) == Ok(ctx)
      ensures var target := SelectionTarget(needs, reserve).value;
              forall c :: Selection.Surplus(target, needs.totalInput).Get(c) == needs.totalInput.Get(c) - target.Get(c)
    {
      var target := SelectionTarget(needs, reserve).value;
      forall c ensures 0 <= target.Get(c) && target.Get(c) <= needs.totalInput.Get(c) {
        PinsInClass(needs, reserve, ctx, c);
      }
      Selection.SurplusExact(target, needs.totalInput);
    }

    lemma PinsInClass(needs: Needs, reserve: Int64, ctx: Context, c: Class)
      requires NeedsOfRequest(needs) && CoversReserve([], needs, reserve) && reserve >= 0
      requires forall u :: u in preselected ==> u.amount > 0
      requires forall o :: o in req.outputs ==> NothingNegative(o.ToValue())
      requires ContextFor(req, Sorted([]), changeAddress) == Ok(ctx)
      ensures var target := SelectionTarget(needs, reserve).value;
              && target.Get(c) == NeededAt(ctx, reserve, c) + needs.burn.Get(c)
              && 0 <= target.Get(c) <= needs.totalInput.Get(c)
              && ctx.totalInput.Get(c) == needs.totalInput.Get(c) - needs.burn.Get(c)
    {
      FundedInClass(needs, [], reserve, ctx, c);
      InputGained(needs, [], ctx, c);
    }

    lemma NeededFits(needs: Needs, reserve: Int64, ctx: Context, fee: Int64)
      requires needs.required.Add(needs.governance) == Ok(needs.balanceRequired)
      requires ctx.totalRequired == needs.required && ctx.governanceRequired == needs.governance
      requires 0 <= fee <= reserve && SelectionTarget(needs, reserve).Ok?
      ensures Needed(ctx, fee).Ok?
    {
    }

    lemma FundedInClass(needs: Needs, picked: seq<Utxo>, reserve: Int64, ctx: Context, c: Class)
      requires NeedsOfRequest(needs) && CoversReserve(picked, needs, reserve)
      requires forall u :: u in preselected || u in picked ==> u.amount > 0
      requires forall o :: o in req.outputs ==> NothingNegative(o.ToValue())
      requires ContextFor(req, Sorted(picked), changeAddress) == Ok(ctx)
      ensures 0 <= NeededAt(ctx, 0, c) && NeededAt(ctx, reserve, c) <= ctx.totalInput.Get(c)
    {
      InputGained(needs, picked, ctx, c);
      OutputsNonNegative(req.outputs);
      RequiredExact(req);
      var target := SelectionTarget(needs, reserve).value;
      assert target.Get(c) == NeededAt(ctx, reserve, c) + needs.burn.Get(c);
      if target.Get(c) <= 0 && c.Token? {
        SumNonNegative(Sorted(picked), c);
      }
    }

    /** What the picks add to the current input, less what is set aside for burning. */
    lemma InputGained(needs: Needs, picked: seq<Utxo>, ctx: Context, c: Class)
      requires NeedsOfRequest(needs) && preselected + picked != []
      requires forall u :: u in preselected || u in picked ==> u.amount > 0
      requires ContextFor(req, Sorted(picked), changeAddress) == Ok(ctx)
      ensures ctx.totalInput.Get(c) == needs.totalInput.Get(c) + Sum(picked, c) - needs.burn.Get(c)
      ensures c.Token? && needs.burn.Get(c) == 0 ==> ctx.totalInput.Get(c) >= Sum(Sorted(picked), c)
      ensures forall u :: u in Sorted(picked) ==> u.amount >= 0
    {
      SortedTotals(picked, c);
      var total, pinned := TotalValue(Sorted(picked)).value, TotalValue(preselected).value;
      ImplicitExact(req, total, needs.minted);
      ImplicitSum(req, pinned, needs.minted.Add(needs.burn).value);
    }

    /** The total of the sorted inputs is that of the pins and that of the picks. */
    lemma SortedTotals(picked: seq<Utxo>, c: Class)
      requires preselected + picked != [] && forall u :: u in preselected || u in picked ==> u.amount > 0
      requires TotalValue(Sorted(picked)).Ok? && TotalValue(preselected).Ok?
      ensures TotalValue(Sorted(picked)).value.Get(c) == Sum(Sorted(picked), c)
      ensures TotalValue(preselected).value.Get(c) == Sum(preselected, c)
      ensures Sum(Sorted(picked), c) == Sum(preselected, c) + Sum(picked, c)
      ensures TotalValue(Sorted(picked)).value.coin > 0 && forall u :: u in Sorted(picked) ==> u.amount > 0
    {
      var inputs := Sorted(picked);
      SameMultisetSameElements(inputs, preselected + picked);
      assert forall u :: u in inputs ==> u in Elements(inputs);
      TotalValueExact(inputs);
      TotalValueExact(preselected);
      SumPositive(inputs);
      var total := TotalValue(inputs).value;
      assert total.coin == total.Get(Coin) == Sum(inputs, Coin);
      SumPermutation(inputs, preselected + picked, c);
      SumAppend(preselected, picked, c);
    }

    /** Every input is pinned, or was free before and is reserved now; an auto-selected
        collateral UTxO is the one exception, spendable as the last resort. */
    twostate predicate InputsWereFree(inputs: seq<Utxo>)
      reads this`used, this`overlap, this`autoSelected, this`collaterals
    {
      forall u :: u in inputs ==>
        u in preselected ||
        (u.txin in used &&
         (!old(IsUsed(u.txin)) || (old(autoSelected) && |collaterals| == 1 && u.txin == collaterals[0].txin)))
    }

    lemma NeedsUnique(needs: Needs, others: Needs)
      requires NeedsOfRequest(needs) && NeedsOfRequest(others)
      ensures needs == others
    {
    }

    /** The starting fee of a plain build. */
    function PlainStart(inputs: seq<Utxo>): Result<Int64> {
      if options.forceFee then Ok(Padded(options.fee, options.padding))
      else
        match PlainEstimate(chain, inputs, req.outputs)
        case Err(e) => Err(e)
        case Ok(estimate) => Ok(Padded(if options.fee > 0 then options.fee else estimate, options.padding))
    }

    /** These inputs have a context and a starting fee, and a plain build settles on them. */
    predicate Settleable(inputs: seq<Utxo>) {
      var ctx, start := ContextFor(req, inputs, changeAddress), PlainStart(inputs);
      ctx.Ok? && start.Ok? && PlainSettles(inputs, ctx.value, start.value)
    }

    /** The inputs found for the request, if it has its needs and the reserve loop finds any. */
    ghost function Found(): Option<seq<Utxo>>
      reads this`utxos, this`collaterals, this`used, this`overlap, this`autoSelected
      reads this`totalCollateral, this`collateralReturn, this`evaluated
    {
      if exists needs :: NeedsOfRequest(needs) && FoundFor(needs).Ok? then
        var needs :| NeedsOfRequest(needs) && FoundFor(needs).Ok?;
        Some(FoundFor(needs).value)
      else
        None
    }

    lemma FoundIs(needs: Needs)
      requires NeedsOfRequest(needs)
      ensures Found() == if FoundFor(needs).Ok? then Some(FoundFor(needs).value) else None
    {
      forall others | NeedsOfRequest(others) ensures others == needs {
        NeedsUnique(needs, others);
      }
    }

    /** A plain build can be completed: inputs are found for it, and these can be balanced at their
        starting fee and at the one asked for next. */
    ghost predicate Completable()
      reads this`utxos, this`collaterals, this`used, this`overlap, this`autoSelected
      reads this`totalCollateral, this`collateralReturn, this`evaluated
    {
      Found().Some? && Settleable(Sorted(Found().value))
    }

    lemma SettleableIff(inputs: seq<Utxo>)
      requires PlainBuild()
      ensures Settleable(inputs) <==>
                && Preparable(inputs)
                && PlainSettles(inputs, ContextFor(req, inputs, changeAddress).value, StartFee(inputs).value)
    {
      PlainEstimates(inputs, req.outputs);
    }

    /** The needs of the build, and inputs that meet them. */
    method SelectInputs() returns (needs: Result<Needs>, r: Result<seq<Utxo>>)
      requires ReservationValid()
      modifies this`used, this`overlap
      ensures ReservationValid()
      ensures needs.Ok? ==> NeedsOfRequest(needs.value)
      ensures old(Completable()) <==> needs.Ok? && r.Ok? && Settleable(Sorted(r.value))
      ensures needs.Ok? && r.Ok? ==> SelectionFits(r.value) && Reserved(r.value, old(State()))
    {
      needs := Gather();
      if needs.Err? {
        return needs, Err(needs.error);
      }
      FoundIs(needs.value);
      ghost var reserve, attempts;
      r, reserve, attempts := ChooseInputs(needs.value);
    }

    /** Selects the inputs and prepares them for the fee loop. */
    method Fund() returns (r: Result<Ready>)
      requires ReservationValid()
      modifies this`used, this`overlap
      ensures ReservationValid()
      ensures PlainBuild() ==>
                (old(Completable()) <==> r.Ok? && PlainSettles(r.value.inputs, r.value.ctx, r.value.start))
      ensures r.Ok? ==>
                && ReadyToSettle(r.value) && InputsFit(r.value.inputs) && CollateralValid()
                && InputsWereFree(r.value.inputs)
    {
      var needs, selected := SelectInputs();
      if needs.Err? {
        return Err(needs.error);
      }
      if selected.Err? {
        return Err(selected.error);
      }
      r := Prepare(selected.value, needs.value);
    }

    /** `Complete` once collateral is reserved. */
    method Assemble() returns (r: Completion)
      requires ReservationValid() && OrdinaryValues()
      modifies this`used, this`overlap, this`totalCollateral, this`collateralReturn, this`evaluated
      ensures ReservationValid()
      ensures r.Completed? ==> Sound(r.tx) && InputsWereFree(r.tx.inputs)
      ensures old(PlainBuild()) && EstimatesFit(utxos) ==> !r.NotConverged? && (r.Completed? <==> old(Completable()))
    {
      var ready := Fund();
      if ready.Err? {
        return Rejected(ready.error);
      }
      r := Finish(ready.value);
    }

    /** Reserves collateral, performs coin selection, settles the fee, and assembles the transaction. */
    method Complete() returns (r: Completion)
      requires ReservationValid() && OrdinaryValues()
      modifies this
      ensures ReservationValid() && utxos == old(utxos)
      ensures r.Completed? ==> Sound(r.tx) && InputsWereFree(r.tx.inputs)
      ensures old(PlainBuild()) && EstimatesFit(utxos) ==> !r.NotConverged? && (r.Completed? <==> old(Completable()))
    {
      var collateralError := SetCollateral();
      if collateralError.Some? {
        return Rejected(collateralError.value);
      }
      r := Assemble();
    }
  }

  datatype Ready = Ready(inputs: seq<Utxo>, ctx: Context, start: Int64)

  datatype Needs = Needs(required: Value, governance: Value, minted: Value, balanceRequired: Value, burn: Value,
                         totalInput: Value, ceiling: Int64)

  datatype Completion = Completed(tx: Tx) | Rejected(error: Error) | NotConverged

  datatype Outcome = Converged(settled: Settled) | Failed(error: Error) | DidNotConverge

  lemma JoinedRefs(us: seq<Utxo>, vs: seq<Utxo>)
    requires DistinctRefs(vs) && forall v :: v in vs ==> !Contains(us, v.txin)
    ensures DistinctRefs(us + vs) <==> DistinctRefs(us)
  {
    var all := us + vs;
    if DistinctRefs(us) {
      forall i, j | 0 <= i < j < |all| ensures all[i].txin != all[j].txin {
        if i < |us| <= j {
          assert all[j] in vs && !Contains(us, all[j].txin);
        }
      }
    } else {
      var i, j :| 0 <= i < j < |us| && us[i].txin == us[j].txin;
      assert all[i].txin == all[j].txin;
    }
  }

  /** Distinct entries of a pool are no more than the pool. */
  lemma DistinctFits(us: seq<Utxo>, pool: seq<Utxo>)
    requires DistinctRefs(us) && forall u :: u in us ==> u in pool
    ensures |us| <= |pool|
  {
    assert Distinct(us);
    DistinctCount(us);
    assert Elements(us) <= Elements(pool);
    SubsetSize(Elements(us), Elements(pool));
    ElementsSize(pool);
  }

  lemma {:induction false} ElementsSize<T>(xs: seq<T>)
    ensures |Elements(xs)| <= |xs|
  {
    if xs != [] {
      assert xs == [xs[0]] + xs[1..];
      ElementsCons(xs[0], xs[1..]);
      ElementsSize(xs[1..]);
    }
  }

  method IndexByRef(available: seq<Utxo>) returns (byRef: map<TxIn, Utxo>)
    ensures forall ref :: Selection.ByRef(available, ref) == if ref in byRef then Some(byRef[ref]) else None
  {
    byRef := map[];
    for i := 0 to |available|
      invariant forall ref :: Selection.ByRef(available[..i], ref) == if ref in byRef then Some(byRef[ref]) else None
    {
      assert available[..i + 1][..i] == available[..i];
      byRef := byRef[available[i].txin := available[i]];
    }
    assert available[..|available|] == available;
  }

  /** Resolves each reference through a map of the pool, with a set of those already seen. */
  method Canonicalise(available: seq<Utxo>, picked: seq<Utxo>) returns (r: Result<seq<Utxo>>)
    ensures r == Selection.Canonical(available, picked)
  {
    var byRef := IndexByRef(available);
    var canonical: seq<Utxo> := [];
    var seen: set<TxIn> := {};
    for i := 0 to |picked|
      invariant Selection.Canonical(available, picked[..i]) == Ok(canonical) && |canonical| == i
      invariant forall ref :: ref in seen <==> exists k :: 0 <= k < i && canonical[k].txin == ref
    {
      assert picked[..i + 1][..i] == picked[..i];
      var ref := picked[i].txin;
      if ref !in byRef {
        CanonicalError(available, picked, i + 1);
        return Err(UnavailableUtxo);
      }
      if ref in seen {
        CanonicalError(available, picked, i + 1);
        return Err(DuplicateUtxo);
      }
      seen := seen + {ref};
      canonical := canonical + [byRef[ref]];
    }
    assert picked[..|picked|] == picked;
    r := Ok(canonical);
  }

  lemma {:induction false} CanonicalError(available: seq<Utxo>, picked: seq<Utxo>, n: nat)
    requires n <= |picked| && Selection.Canonical(available, picked[..n]).Err?
    ensures Selection.Canonical(available, picked) == Selection.Canonical(available, picked[..n])
    decreases |picked|
  {
    if n == |picked| {
      assert picked[..n] == picked;
    } else {
      assert picked[..|picked| - 1][..n] == picked[..n];
      CanonicalError(available, picked[..|picked| - 1], n);
    }
  }
}
