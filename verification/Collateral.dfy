/** Sizing of total collateral and the collateral return against the final fee (apollo.go). */
module Collateral {
  import opened Wrappers
  import opened Ledger
  import opened MinUtxo
  import opened Fees

  /** What sizing does to the two fields of the body. */
  datatype Plan = Untouched | Sized(total: Int64, return_: Option<Output>)

  /** Lovelace of the collateral inputs, in int64 with its overflow check. It fails exactly on a
      negative amount or a total beyond int64. */
  function Lovelace(collaterals: seq<Utxo>): (r: Result<Int64>)
    ensures r.Ok? ==> r.value == Sum(collaterals, Coin) && r.value >= 0
    ensures r.Ok? <==> (forall u :: u in collaterals ==> u.amount >= 0) && Sum(collaterals, Coin) <= MAX_I64
  {
    if collaterals == [] then Ok(0)
    else
      var n := |collaterals| - 1;
      assert collaterals == collaterals[..n] + [collaterals[n]];
      LovelaceGrows(collaterals);
      match Lovelace(collaterals[..n])
      case Err(e) => Err(e)
      case Ok(total) =>
        var amount := collaterals[n].amount;
        if amount < -MAX_I64 - 1 || amount > MAX_I64 then Err(InvalidAmount)
        else if Wrap64(total + amount) < total then Err(CollateralOverflow)
        else Ok(Wrap64(total + amount))
  }

  lemma LovelaceGrows(collaterals: seq<Utxo>)
    requires collaterals != []
    ensures (forall u :: u in collaterals ==> u.amount >= 0) ==>
              0 <= Sum(collaterals[..|collaterals| - 1], Coin) <= Sum(collaterals, Coin)
  {
    if forall u :: u in collaterals ==> u.amount >= 0 {
      assert collaterals[|collaterals| - 1] in collaterals;
      SumNonNegative(collaterals[..|collaterals| - 1], Coin);
    }
  }

  /** Assets of the collateral inputs; None when no input carries a bundle. */
  function Assets(collaterals: seq<Utxo>): (r: Option<Bundle>)
    ensures forall a :: Quantity(r, a) == Sum(collaterals, Token(a))
    ensures r.Some? <==> exists u :: u in collaterals && u.assets.Some?
  {
    if collaterals == [] then None
    else
      var n := |collaterals| - 1;
      assert collaterals == collaterals[..n] + [collaterals[n]];
      PlusAssets(Assets(collaterals[..n]), collaterals[n].assets)
  }

  /** ceil(fee * percent / 100). */
  function RequiredCollateral(fee: nat, percent: nat): (r: nat)
    ensures fee * percent <= 100 * r < fee * percent + 100
  {
    (fee * percent + 99) / 100
  }

  /** `finalizeCollateral`, as a function of the fields it reads. */
  function Finalize(base: OutputBase, price: int, percent: Int64, changeAddress: Address, collaterals: seq<Utxo>,
                    autoSelected: bool, amount: Int64, fee: Int64): Result<Plan>
  {
    if collaterals == [] || percent <= 0 || fee <= 0 then
      Ok(Untouched)
    else if fee > (MAX_I64 - 99) / percent then
      Err(CollateralOverflow)
    else
      var required := RequiredCollateral(fee, percent);
      match Lovelace(collaterals)
      case Err(e) => Err(e)
      case Ok(lovelace) =>
        var assets := Assets(collaterals);
        if required > lovelace then
          Err(InsufficientCollateral)
        else if !autoSelected && amount == 0 then
          if assets.Some? then Err(StrandedCollateralAssets) else Ok(Untouched)
        else if amount > 0 && amount < required then
          Err(CollateralAmountTooLow)
        else if amount > 0 && amount > lovelace then
          Err(CollateralAmountTooHigh)
        else
          var total := if amount > 0 then amount else required;
          var remainder := lovelace - total;
          if remainder == 0 && assets.None? then
            Ok(Sized(total, None))
          else
            var ret := Output(changeAddress, remainder, assets, 0);
            match MinLovelace(base, price, ret)
            case Err(e) => Err(e)
            case Ok(minReturn) =>
              if remainder >= minReturn then Ok(Sized(total, Some(ret)))
              else if assets.Some? || amount > 0 then Err(CollateralReturnBelowMinUtxo)
              else Ok(Sized(lovelace, None))
  }

  /** The fee bound keeps the sizing arithmetic inside int64. */
  lemma SizingFitsInt64(fee: nat, percent: nat)
    requires percent > 0 && fee <= (MAX_I64 - 99) / percent
    ensures fee * percent + 99 <= MAX_I64
  {
    QuotientBound(MAX_I64 - 99, fee, percent);
  }

  function ReturnCoin(ret: Option<Output>): nat {
    if ret.Some? then ret.value.coin else 0
  }

  /** Every lovelace of collateral is either at stake or returned; at least the ledger minimum
      is at stake; a requested amount is honoured exactly; and all collateral assets are
      returned in an output that meets its own minimum. */
  lemma FinalizeIsSound(base: OutputBase, price: int, percent: Int64, changeAddress: Address, collaterals: seq<Utxo>,
                        autoSelected: bool, amount: Int64, fee: Int64)
    requires collaterals != [] && percent > 0 && fee > 0 && (autoSelected || amount > 0) && amount >= 0
    requires Finalize(base, price, percent, changeAddress, collaterals, autoSelected, amount, fee).Ok?
    ensures var plan := Finalize(base, price, percent, changeAddress, collaterals, autoSelected, amount, fee).value;
            && plan.Sized?
            && plan.total + ReturnCoin(plan.return_) == Sum(collaterals, Coin)
            && 100 * plan.total >= fee * percent
            && (amount > 0 ==> plan.total == amount)
            && (forall a :: (if plan.return_.Some? then Quantity(plan.return_.value.assets, a) else 0) ==
                            Sum(collaterals, Token(a)))
            && (plan.return_.Some? ==>
                  var min := MinLovelace(base, price, plan.return_.value);
                  min.Ok? && plan.return_.value.coin >= min.value && plan.return_.value.address == changeAddress)
  {
    var assets := Assets(collaterals);
    if assets.None? {
      assert forall a :: Sum(collaterals, Token(a)) == Quantity(assets, a) == 0;
    }
  }

  /** Nothing more than the minimum is at stake unless the caller asked for it or the leftover
      could not have been returned. */
  lemma FinalizeIsFrugal(base: OutputBase, price: int, percent: Int64, changeAddress: Address,
                         collaterals: seq<Utxo>, fee: Int64)
    requires collaterals != [] && percent > 0 && fee > 0
    requires Finalize(base, price, percent, changeAddress, collaterals, true, 0, fee).Ok?
    ensures var plan := Finalize(base, price, percent, changeAddress, collaterals, true, 0, fee).value;
            var required := RequiredCollateral(fee, percent);
            plan.total == required ||
            (plan.return_.None? && Assets(collaterals).None? && plan.total == Sum(collaterals, Coin) > required &&
             var kept := Output(changeAddress, plan.total - required, None, 0);
             MinLovelace(base, price, kept).Ok? && kept.coin < MinLovelace(base, price, kept).value)
  {
  }

  /** What is not at stake needs no return, can be returned, or may be added to the total. */
  ghost predicate Returnable(base: OutputBase, price: int, changeAddress: Address, rest: int, assets: Option<Bundle>,
                             exact: bool)
  {
    && 0 <= rest <= MAX_U64
    && ((rest == 0 && assets.None?) ||
        var ret := Output(changeAddress, rest, assets, 0);
        MinLovelace(base, price, ret).Ok? &&
        (rest >= MinLovelace(base, price, ret).value || (assets.None? && !exact)))
  }

  /** Exactly when sizing fails, for every input: the arithmetic or the collateral is out of range,
      the collateral is less than required, manual collateral would strand assets, or the total
      asked for is out of range or leaves a rest that is not returnable. */
  lemma FinalizeFailsIff(base: OutputBase, price: int, percent: Int64, changeAddress: Address, collaterals: seq<Utxo>,
                         autoSelected: bool, amount: Int64, fee: Int64)
    ensures Finalize(base, price, percent, changeAddress, collaterals, autoSelected, amount, fee).Err? <==>
              && collaterals != [] && percent > 0 && fee > 0
              && var required, lovelace := RequiredCollateral(fee, percent), Sum(collaterals, Coin);
                 var total := if amount > 0 then amount else required;
                 || fee * percent + 99 > MAX_I64
                 || (exists u :: u in collaterals && u.amount < 0)
                 || lovelace > MAX_I64
                 || lovelace < required
                 || (if !autoSelected && amount == 0 then Assets(collaterals).Some?
                     else total < required ||
                          !Returnable(base, price, changeAddress, lovelace - total, Assets(collaterals), amount > 0))
  {
    if collaterals != [] && percent > 0 && fee > 0 {
      QuotientBound(MAX_I64 - 99, fee, percent);
      if fee <= (MAX_I64 - 99) / percent && Lovelace(collaterals).Ok? {
        SplitFailsIff(base, price, percent, changeAddress, collaterals, autoSelected, amount, fee);
      }
    }
  }

  lemma SplitFailsIff(base: OutputBase, price: int, percent: Int64, changeAddress: Address, collaterals: seq<Utxo>,
                      autoSelected: bool, amount: Int64, fee: Int64)
    requires collaterals != [] && percent > 0 && 0 < fee <= (MAX_I64 - 99) / percent && Lovelace(collaterals).Ok?
    ensures Finalize(base, price, percent, changeAddress, collaterals, autoSelected, amount, fee).Err? <==>
              var required, lovelace := RequiredCollateral(fee, percent), Lovelace(collaterals).value;
              var total := if amount > 0 then amount else required;
              || lovelace < required
              || (if !autoSelected && amount == 0 then Assets(collaterals).Some?
                  else total < required ||
                       !Returnable(base, price, changeAddress, lovelace - total, Assets(collaterals), amount > 0))
  {
  }
}
