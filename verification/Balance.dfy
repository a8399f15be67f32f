/** The balance equation and the change output (evaluation_balance.go, helpers.go). */
module Balance {
  import opened Wrappers
  import opened Ledger
  import opened MinUtxo

  /** Everything in the balance equation that is neither a regular output nor the fee. */
  datatype Context = Context(totalInput: Value, totalRequired: Value, governanceRequired: Value, changeAddress: Address)

  datatype Balanced = Balanced(outputs: seq<Output>, fee: Int64)

  /** `normalizeChangeAssets`: a negative quantity is a burn the inputs do not cover; zero
      quantities are dropped, and so is an empty bundle. */
  function NormalizeChange(assets: Option<Bundle>): (r: Result<Option<Bundle>>)
    ensures r.Err? <==> exists a :: Quantity(assets, a) < 0
    ensures r.Ok? ==> forall a :: Quantity(r.value, a) == Quantity(assets, a)
    ensures r.Ok? && r.value.Some? ==>
              !NothingPositive(r.value) && forall a :: a in r.value.value ==> r.value.value[a] > 0
  {
    if assets.None? then
      Ok(None)
    else if exists a :: a in assets.value && assets.value[a] < 0 then
      var a :| a in assets.value && assets.value[a] < 0;
      assert Quantity(assets, a) < 0;
      Err(BurnExceedsInputs)
    else
      var kept := map a | a in assets.value && assets.value[a] != 0 :: assets.value[a];
      if kept.Keys == {} then
        assert forall a :: a in assets.value ==> a !in kept;
        Ok(None)
      else
        var a :| a in kept;
        assert kept[a] > 0;
        Ok(Some(kept))
  }

  /** What the outputs, deposits and fee take. */
  function Needed(ctx: Context, fee: Uint64): Result<Value> {
    match ctx.totalRequired.Add(ctx.governanceRequired)
    case Err(_) => Err(RequiredOverflow)
    case Ok(v) =>
      match v.Add(SimpleValue(fee))
      case Err(_) => Err(RequiredOverflow)
      case Ok(w) => Ok(w)
  }

  /** The leftover after a fee, with normalised assets. */
  function Leftover(ctx: Context, fee: Uint64): (r: Result<Value>)
    ensures r.Ok? ==> forall a :: r.value.Get(Token(a)) >= 0
  {
    match Needed(ctx, fee)
    case Err(e) => Err(e)
    case Ok(needed) =>
      match ctx.totalInput.Sub(needed)
      case Err(_) => Err(Overspent)
      case Ok(change) =>
        match NormalizeChange(change.assets)
        case Err(e) => Err(e)
        case Ok(assets) => Ok(Value(change.coin, assets))
  }

  function ChangeOutput(ctx: Context, change: Value): Output {
    Output(ctx.changeAddress, change.coin, change.assets, 0)
  }

  /** `buildBalancedOutputs`. */
  function BuildBalancedOutputs(base: OutputBase, price: int, baseOutputs: seq<Output>, requestedFee: Int64,
                                ctx: Context)
    : Result<Balanced>
  {
    if requestedFee < 0 then
      Err(NegativeFee)
    else
      match Leftover(ctx, requestedFee)
      case Err(e) => Err(e)
      case Ok(change) =>
        if change.coin == 0 && !change.HasAssets() then
          Ok(Balanced(baseOutputs, requestedFee))
        else
          match MinLovelace(base, price, ChangeOutput(ctx, change))
          case Err(e) => Err(e)
          case Ok(minChange) =>
            if change.coin >= minChange then
              Ok(Balanced(baseOutputs + [ChangeOutput(ctx, change)], requestedFee))
            else if !change.HasAssets() then
              if requestedFee > MAX_I64 - change.coin then Err(FeeOverflow)
              else Ok(Balanced(baseOutputs, requestedFee + change.coin))
            else
              RaiseAssetChange(base, price, baseOutputs, requestedFee, ctx, change.(coin := minChange))
  }

  /** The branch that raises asset-bearing change to its minimum. */
  function RaiseAssetChange(base: OutputBase, price: int, baseOutputs: seq<Output>, requestedFee: Int64, ctx: Context,
                            raised: Value): Result<Balanced>
    requires requestedFee >= 0 && Needed(ctx, requestedFee).Ok?
  {
    match MinLovelace(base, price, ChangeOutput(ctx, raised))
    case Err(e) => Err(e)
    case Ok(actualMin) =>
      var change := raised.(coin := actualMin);
      match Needed(ctx, requestedFee).value.Add(SimpleValue(change.coin))
      case Err(_) => Err(AssetChangeBelowMinUtxo)
      case Ok(neededWithChange) =>
        if !ctx.totalInput.GreaterOrEqual(neededWithChange) then Err(AssetChangeBelowMinUtxo)
        else Ok(Balanced(baseOutputs + [ChangeOutput(ctx, change)], requestedFee))
  }

  // ----- conservation -----

  /** What a list of outputs carries of a class. */
  function OutputTotal(outputs: seq<Output>, c: Class): int {
    if outputs == [] then 0
    else OutputTotal(outputs[..|outputs| - 1], c) + outputs[|outputs| - 1].ToValue().Get(c)
  }

  lemma OutputTotalAppend(outputs: seq<Output>, o: Output, c: Class)
    ensures OutputTotal(outputs + [o], c) == OutputTotal(outputs, c) + o.ToValue().Get(c)
  {
    assert (outputs + [o])[..|outputs|] == outputs;
  }

  function CoinOnly(amount: int, c: Class): int {
    if c == Coin then amount else 0
  }

  ghost predicate NothingNegative(v: Value) {
    forall c :: v.Get(c) >= 0
  }

  lemma NeededExact(ctx: Context, fee: Uint64)
    requires Needed(ctx, fee).Ok?
    ensures forall c :: Needed(ctx, fee).value.Get(c) ==
                        ctx.totalRequired.Get(c) + ctx.governanceRequired.Get(c) + CoinOnly(fee, c)
  {
  }

  lemma LeftoverExact(ctx: Context, fee: Uint64)
    requires Leftover(ctx, fee).Ok? && NothingNegative(ctx.totalRequired) && NothingNegative(ctx.governanceRequired)
    ensures forall c :: Leftover(ctx, fee).value.Get(c) ==
                        ctx.totalInput.Get(c) - ctx.totalRequired.Get(c) - ctx.governanceRequired.Get(c)
                        - CoinOnly(fee, c)
  {
    NeededExact(ctx, fee);
    var needed := Needed(ctx, fee).value;
    assert forall c :: needed.Get(c) >= 0;
    var change := ctx.totalInput.Sub(needed).value;
    forall c ensures Leftover(ctx, fee).value.Get(c) == change.Get(c) {
      if c.Token? {
        assert Quantity(NormalizeChange(change.assets).value, c.asset) == Quantity(change.assets, c.asset);
      }
    }
  }

  /** What the outputs, the deposits and a fee take of a class. */
  function NeededAt(ctx: Context, fee: int, c: Class): int {
    ctx.totalRequired.Get(c) + ctx.governanceRequired.Get(c) + CoinOnly(fee, c)
  }

  /** Inputs that hold what is needed of every class can be balanced. */
  lemma CoveredLeaves(ctx: Context, fee: Uint64)
    requires Needed(ctx, fee).Ok?
    requires forall c :: 0 <= NeededAt(ctx, fee, c) <= ctx.totalInput.Get(c)
    ensures Leftover(ctx, fee).Ok?
  {
    NeededExact(ctx, fee);
    var needed := Needed(ctx, fee).value;
    forall c ensures 0 <= needed.Get(c) <= ctx.totalInput.Get(c) {
      assert needed.Get(c) == NeededAt(ctx, fee, c);
    }
    var change := ctx.totalInput.Sub(needed).value;
    forall a ensures Quantity(change.assets, a) >= 0 {
      assert Quantity(change.assets, a) == change.Get(Token(a));
    }
  }

  /** Raising asset-bearing change spends more coin than is left, so the branch never succeeds. */
  lemma RaisingNeverSucceeds(base: OutputBase, price: int, baseOutputs: seq<Output>, requestedFee: Int64, ctx: Context,
                             change: Value)
    requires requestedFee >= 0 && Leftover(ctx, requestedFee) == Ok(change)
    requires MinLovelace(base, price, ChangeOutput(ctx, change)).Ok?
    requires change.coin < MinLovelace(base, price, ChangeOutput(ctx, change)).value
    ensures var minChange := MinLovelace(base, price, ChangeOutput(ctx, change)).value;
            RaiseAssetChange(base, price, baseOutputs, requestedFee, ctx, change.(coin := minChange)).Err?
  {
    var minChange := MinLovelace(base, price, ChangeOutput(ctx, change)).value;
    MinLovelaceMonotone(base, price, ChangeOutput(ctx, change), minChange);
    var needed := Needed(ctx, requestedFee).value;
    assert ctx.totalInput.coin == needed.coin + change.coin;
  }

  /** How a successful balance can end: nothing left over, dust absorbed into the fee, or
      the exact leftover in a change output that meets its own minimum. */
  datatype Ending = NoChange | Absorbed(dust: Uint64) | Emitted(change: Output)

  ghost predicate EndsWith(base: OutputBase, price: int, baseOutputs: seq<Output>, requestedFee: Int64, ctx: Context,
                           balanced: Balanced, ending: Ending)
    requires requestedFee >= 0
  {
    var leftover := Leftover(ctx, requestedFee);
    && leftover.Ok?
    && match ending
       case NoChange =>
         leftover.value == SimpleValue(0) && balanced == Balanced(baseOutputs, requestedFee)
       case Absorbed(dust) =>
         && dust > 0 && leftover.value == SimpleValue(dust)
         && balanced.outputs == baseOutputs && balanced.fee == requestedFee + dust
         && var min := MinLovelace(base, price, ChangeOutput(ctx, leftover.value)); min.Ok? && dust < min.value
       case Emitted(o) =>
         && o == ChangeOutput(ctx, leftover.value)
         && balanced == Balanced(baseOutputs + [o], requestedFee)
         && var min := MinLovelace(base, price, o); min.Ok? && o.coin >= min.value
  }

  lemma BalanceEnding(base: OutputBase, price: int, baseOutputs: seq<Output>, requestedFee: Int64, ctx: Context)
    returns (ending: Ending)
    requires BuildBalancedOutputs(base, price, baseOutputs, requestedFee, ctx).Ok?
    ensures requestedFee >= 0
    ensures EndsWith(base, price, baseOutputs, requestedFee, ctx,
                     BuildBalancedOutputs(base, price, baseOutputs, requestedFee, ctx).value, ending)
  {
    var change := Leftover(ctx, requestedFee).value;
    LeftoverWithoutAssets(ctx, requestedFee);
    ending := if change == SimpleValue(0) then NoChange
              else if change.coin >= MinLovelace(base, price, ChangeOutput(ctx, change)).value then
                Emitted(ChangeOutput(ctx, change))
              else Absorbed(change.coin);
    if ending.Absorbed? && change.HasAssets() {
      AssetChangeBelowMinimumFails(base, price, baseOutputs, requestedFee, ctx, change);
    }
  }

  /** Asset-bearing change below its minimum is an error, never a dropped asset. */
  lemma AssetChangeBelowMinimumFails(base: OutputBase, price: int, baseOutputs: seq<Output>, requestedFee: Int64,
                                     ctx: Context, change: Value)
    requires requestedFee >= 0 && Leftover(ctx, requestedFee) == Ok(change)
    requires change.HasAssets() && MinLovelace(base, price, ChangeOutput(ctx, change)).Ok?
    requires change.coin < MinLovelace(base, price, ChangeOutput(ctx, change)).value
    ensures BuildBalancedOutputs(base, price, baseOutputs, requestedFee, ctx).Err?
  {
    RaisingNeverSucceeds(base, price, baseOutputs, requestedFee, ctx, change);
  }

  /** Inputs that pay for everything can still be unbalanced: exactly when something is left whose
      minimum cannot be computed, or which is below that minimum and either carries assets or is too
      much for the fee to absorb. So lovelace spent to the last unit beside a foreign token fails. */
  lemma BalancingFailsIff(base: OutputBase, price: int, baseOutputs: seq<Output>, requestedFee: Int64, ctx: Context)
    requires requestedFee >= 0 && Leftover(ctx, requestedFee).Ok?
    ensures var change := Leftover(ctx, requestedFee).value;
            var min := MinLovelace(base, price, ChangeOutput(ctx, change));
            BuildBalancedOutputs(base, price, baseOutputs, requestedFee, ctx).Err? <==>
              change != SimpleValue(0) &&
              (min.Err? ||
               (change.coin < min.value && (change.HasAssets() || requestedFee > MAX_I64 - change.coin)))
    ensures var change := Leftover(ctx, requestedFee).value;
            change.coin == 0 && change.HasAssets() ==>
              BuildBalancedOutputs(base, price, baseOutputs, requestedFee, ctx).Err?
  {
    var change := Leftover(ctx, requestedFee).value;
    LeftoverWithoutAssets(ctx, requestedFee);
    var min := MinLovelace(base, price, ChangeOutput(ctx, change));
    if min.Ok? && change.coin < min.value && change.HasAssets() {
      RaisingNeverSucceeds(base, price, baseOutputs, requestedFee, ctx, change);
    }
  }

  lemma LeftoverWithoutAssets(ctx: Context, fee: Uint64)
    requires Leftover(ctx, fee).Ok?
    ensures !Leftover(ctx, fee).value.HasAssets() ==> Leftover(ctx, fee).value.assets.None?
  {
  }

  /** Nothing is lost: what goes in comes out as outputs, deposits and fee, in every class. */
  lemma BalanceConserves(base: OutputBase, price: int, baseOutputs: seq<Output>, requestedFee: Int64, ctx: Context,
                         c: Class)
    requires BuildBalancedOutputs(base, price, baseOutputs, requestedFee, ctx).Ok?
    requires NothingNegative(ctx.totalRequired) && NothingNegative(ctx.governanceRequired)
    ensures var b := BuildBalancedOutputs(base, price, baseOutputs, requestedFee, ctx).value;
            ctx.totalInput.Get(c) ==
            ctx.totalRequired.Get(c) + ctx.governanceRequired.Get(c) + CoinOnly(b.fee, c)
            + OutputTotal(b.outputs, c) - OutputTotal(baseOutputs, c)
  {
    var ending := BalanceEnding(base, price, baseOutputs, requestedFee, ctx);
    LeftoverExact(ctx, requestedFee);
    if ending.Emitted? {
      OutputTotalAppend(baseOutputs, ending.change, c);
      assert ending.change.ToValue().Get(c) == Leftover(ctx, requestedFee).value.Get(c);
    } else {
      assert Leftover(ctx, requestedFee).value.Get(c) ==
             CoinOnly(if ending.Absorbed? then ending.dust else 0, c);
    }
  }

  /** Native assets always reach a change output of their exact quantities, and the fee only
      ever grows by a leftover that could not have been an output. */
  lemma AssetsReachChange(base: OutputBase, price: int, baseOutputs: seq<Output>, requestedFee: Int64, ctx: Context)
    requires BuildBalancedOutputs(base, price, baseOutputs, requestedFee, ctx).Ok?
    requires NothingNegative(ctx.totalRequired) && NothingNegative(ctx.governanceRequired)
    ensures var b := BuildBalancedOutputs(base, price, baseOutputs, requestedFee, ctx).value;
            && (b.outputs == baseOutputs ==>
                  forall a :: ctx.totalInput.Get(Token(a)) ==
                              ctx.totalRequired.Get(Token(a)) + ctx.governanceRequired.Get(Token(a)))
            && (b.fee != requestedFee ==> b.outputs == baseOutputs)
            && (b.outputs != baseOutputs ==>
                  && |b.outputs| == |baseOutputs| + 1
                  && b.outputs[..|baseOutputs|] == baseOutputs
                  && var o := b.outputs[|baseOutputs|];
                     && o.address == ctx.changeAddress
                     && MinLovelace(base, price, o).Ok? && o.coin >= MinLovelace(base, price, o).value
                     && forall a :: Quantity(o.assets, a) ==
                                    ctx.totalInput.Get(Token(a)) - ctx.totalRequired.Get(Token(a))
                                    - ctx.governanceRequired.Get(Token(a)))
  {
    var ending := BalanceEnding(base, price, baseOutputs, requestedFee, ctx);
    LeftoverExact(ctx, requestedFee);
    var leftover := Leftover(ctx, requestedFee).value;
    forall a ensures leftover.Get(Token(a)) ==
                     ctx.totalInput.Get(Token(a)) - ctx.totalRequired.Get(Token(a))
                     - ctx.governanceRequired.Get(Token(a))
    {
    }
    if ending.Emitted? {
      assert |baseOutputs + [ending.change]| != |baseOutputs|;
      assert forall a :: Quantity(ending.change.assets, a) == leftover.Get(Token(a));
    } else {
      assert forall a :: leftover.Get(Token(a)) == 0;
    }
  }
}
