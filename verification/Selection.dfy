/** Coin selection as the builder performs it around an arbitrary selector (apollo.go). */
module Selection {
  import opened Orders
  import opened Wrappers
  import opened Ledger
  import opened MinUtxo
  import opened Balance
  import opened MacsSpec
  import MacsProperties
  import LargestFirst

  /** Any implementation of `CoinSelector`, well behaved or not. */
  type Selector = (seq<Utxo>, Value) -> Result<seq<Utxo>>

  /** What the surrounding transaction fixes about one selection. */
  datatype Setting = Setting(base: OutputBase, price: int, changeAddress: Address, preselected: seq<Utxo>,
                             available: seq<Utxo>, selector: Selector)

  // ----- what is still needed -----

  function Less0(a: Uint64, b: Uint64): Uint64 {
    if a > b then a - b else 0
  }

  /** `required` less `current`, saturating at zero class by class. */
  function Remaining(required: Value, current: Value): Value {
    Value(Less0(required.coin, current.coin),
          if required.assets.Some? && current.assets.Some?
          then Some(Saturating(required.assets.value, current.assets.value)) else required.assets)
  }

  /** The change left once `required` is taken out of `current`. */
  function Surplus(required: Value, current: Value): Value {
    var assets := if required.assets.Some? && current.assets.Some?
                  then Some(Saturating(current.assets.value, required.assets.value)) else current.assets;
    Value(Less0(current.coin, required.coin), if NothingPositive(assets) then None else assets)
  }

  /** `unemittableChangeMinimum`: the min-UTxO of a leftover too small to be an output, 0 when
      there is no leftover or it is large enough. */
  function UnemittableChangeMinimum(s: Setting, required: Value, current: Value): Result<Uint64> {
    var surplus := Surplus(required, current);
    if surplus == SimpleValue(0) then
      Ok(0)
    else
      match IteratedMinimum(s.base, s.price, Output(s.changeAddress, surplus.coin, surplus.assets, 0), 3)
      case Err(e) => Err(e)
      case Ok(m) => if surplus.coin >= m then Ok(0) else Ok(m)
  }

  /** The leftover as an output, zero quantities and all. */
  function SurplusOutput(s: Setting, required: Value, current: Value): Output {
    var surplus := Surplus(required, current);
    Output(s.changeAddress, surplus.coin, surplus.assets, 0)
  }

  lemma SurplusExact(required: Value, current: Value)
    requires forall c :: 0 <= required.Get(c) <= current.Get(c)
    ensures forall c :: Surplus(required, current).Get(c) == current.Get(c) - required.Get(c)
  {
    assert required.Get(Coin) == required.coin && current.Get(Coin) == current.coin;
    forall a ensures Surplus(required, current).Get(Token(a)) == current.Get(Token(a)) - required.Get(Token(a)) {
      assert 0 <= required.Get(Token(a)) <= current.Get(Token(a));
    }
  }

  /** The answer is 0 exactly when there is no leftover or it covers the minimum of this output;
      otherwise it is a minimum that prices its own encoding. */
  lemma UnemittableDecides(s: Setting, required: Value, current: Value)
    requires UnemittableChangeMinimum(s, required, current).Ok?
    ensures var minimum := UnemittableChangeMinimum(s, required, current).value;
            var surplus, o := Surplus(required, current), SurplusOutput(s, required, current);
            surplus != SimpleValue(0) ==>
              && MinLovelace(s.base, s.price, o).Ok?
              && (minimum == 0 <==> surplus.coin >= MinLovelace(s.base, s.price, o).value)
              && (minimum > 0 ==> MinLovelace(s.base, s.price, o.(coin := minimum)) == Ok(minimum))
  {
    if Surplus(required, current) != SimpleValue(0) {
      IteratedMinimumDecides(s.base, s.price, SurplusOutput(s, required, current));
    }
  }

  // ----- the guard and balancing -----

  /** No zero or negative quantities, and no empty bundle. */
  predicate Normal(assets: Option<Bundle>) {
    assets.Some? ==> assets.value.Keys != {} && forall a :: a in assets.value ==> assets.value[a] > 0
  }

  lemma NormalUnique(m: Option<Bundle>, n: Option<Bundle>)
    requires Normal(m) && Normal(n) && forall a :: Quantity(m, a) == Quantity(n, a)
    ensures m == n
  {
    if m.Some? {
      var a :| a in m.value;
      assert Quantity(m, a) == Quantity(n, a) > 0;
    }
    if n.Some? {
      var a :| a in n.value;
      assert Quantity(m, a) == Quantity(n, a) > 0;
      forall b ensures b in m.value <==> b in n.value {
        assert Quantity(m, b) == Quantity(n, b);
      }
      forall b | b in m.value ensures m.value[b] == n.value[b] {
        assert Quantity(m, b) == Quantity(n, b);
      }
      assert m.value == n.value;
    }
  }

  /** Balancing a context at a fee leaves what the guard sees. */
  ghost predicate SeesLeftover(required: Value, current: Value, ctx: Context, fee: Int64) {
    && 0 <= fee && Leftover(ctx, fee).Ok?
    && forall c :: Leftover(ctx, fee).value.Get(c) == Surplus(required, current).Get(c)
  }

  lemma LeftoverIsNormal(ctx: Context, fee: Uint64)
    requires Leftover(ctx, fee).Ok?
    ensures Normal(Leftover(ctx, fee).value.assets)
  {
    var assets := Leftover(ctx, fee).value.assets;
    if assets.Some? {
      var a :| a in assets.value && assets.value[a] > 0;
      assert a in assets.value.Keys;
    }
  }

  /** Balancing drops the zero quantities that the guard keeps. */
  lemma LeftoverDropsZeros(required: Value, current: Value, ctx: Context, fee: Int64)
    requires SeesLeftover(required, current, ctx, fee)
    ensures var l, surplus := Leftover(ctx, fee).value, Surplus(required, current);
            && l.coin == surplus.coin && (l == SimpleValue(0) <==> surplus == SimpleValue(0))
            && (Normal(surplus.assets) ==> l == surplus)
  {
    var l, surplus := Leftover(ctx, fee).value, Surplus(required, current);
    LeftoverIsNormal(ctx, fee);
    assert l.coin == l.Get(Coin) && surplus.coin == surplus.Get(Coin);
    forall a ensures Quantity(l.assets, a) == Quantity(surplus.assets, a) {
      assert l.Get(Token(a)) == surplus.Get(Token(a));
    }
    if surplus.assets.Some? {
      var a :| a in surplus.assets.value && surplus.assets.value[a] > 0;
      assert Quantity(l.assets, a) > 0;
    } else {
      NormalUnique(l.assets, surplus.assets);
    }
    if Normal(surplus.assets) {
      NormalUnique(l.assets, surplus.assets);
    }
  }

  /** The leftover becomes a change output. */
  predicate Emits(s: Setting, outputs: seq<Output>, ctx: Context, fee: Int64)
    requires 0 <= fee && Leftover(ctx, fee).Ok?
  {
    BuildBalancedOutputs(s.base, s.price, outputs, fee, ctx) ==
    Ok(Balanced(outputs + [ChangeOutput(ctx, Leftover(ctx, fee).value)], fee))
  }

  /** Balancing emits a leftover exactly when it covers the minimum of its own output. */
  lemma EmitsIff(s: Setting, outputs: seq<Output>, ctx: Context, fee: Int64)
    requires 0 <= fee && Leftover(ctx, fee).Ok? && Leftover(ctx, fee).value != SimpleValue(0)
    ensures var l := Leftover(ctx, fee).value;
            var min := MinLovelace(s.base, s.price, ChangeOutput(ctx, l));
            Emits(s, outputs, ctx, fee) <==> min.Ok? && l.coin >= min.value
  {
    var l := Leftover(ctx, fee).value;
    var min := MinLovelace(s.base, s.price, ChangeOutput(ctx, l));
    if min.Ok? && l.coin < min.value && l.HasAssets() {
      AssetChangeBelowMinimumFails(s.base, s.price, outputs, fee, ctx, l);
    }
  }

  /** The guard calls a leftover unemittable that balancing would emit, or the other way round,
      exactly when one of the two minima is covered and the other is not: that of the leftover with
      its zero quantities, and that of the leftover without them. Where dropping zero quantities
      enlarges no output, only the first can happen; where no asset is exactly used up, neither. */
  lemma GuardAgreesIff(s: Setting, required: Value, current: Value, outputs: seq<Output>, ctx: Context, fee: Int64)
    requires SeesLeftover(required, current, ctx, fee) && ctx.changeAddress == s.changeAddress
    requires Surplus(required, current) != SimpleValue(0) && UnemittableChangeMinimum(s, required, current).Ok?
    ensures var l := Leftover(ctx, fee).value;
            var kept := MinLovelace(s.base, s.price, SurplusOutput(s, required, current));
            var dropped := MinLovelace(s.base, s.price, ChangeOutput(ctx, l));
            var emittable := UnemittableChangeMinimum(s, required, current) == Ok(0);
            && kept.Ok?
            && (emittable == Emits(s, outputs, ctx, fee) <==>
                  (l.coin >= kept.value <==> dropped.Ok? && l.coin >= dropped.value))
            && (dropped.Ok? && dropped.value <= kept.value ==>
                  (emittable != Emits(s, outputs, ctx, fee) <==> dropped.value <= l.coin < kept.value))
            && (Normal(Surplus(required, current).assets) ==> emittable == Emits(s, outputs, ctx, fee))
  {
    LeftoverDropsZeros(required, current, ctx, fee);
    UnemittableDecides(s, required, current);
    EmitsIff(s, outputs, ctx, fee);
  }

  /** A codec whose output sizes grow with the bundle and with whatever is attached. */
  function ExampleBase(): OutputBase {
    (_, assets, extra) => 65 + 50 * AssetCount(assets) + extra
  }

  function AssetCount(assets: Option<Bundle>): nat {
    if assets.None? then 0 else |assets.value|
  }

  /** It happens: two assets come in, one of them is used up, and the zero entry it leaves makes the
      guard ask for more lovelace than is left, though balancing emits the rest as change. */
  lemma GuardOverlooksChange(used: Asset, rest: Asset, outputs: seq<Output>, address: Address, selector: Selector)
    requires used != rest
    ensures var s := Setting(ExampleBase(), 4310, address, [], [], selector);
            var current := Value(3_300_000, Some(map[used := 5, rest := 3]));
            var required := Value(2_000_000, Some(map[used := 5]));
            var ctx := Context(current, Value(1_800_000, Some(map[used := 5])), SimpleValue(0), address);
            && UnemittableChangeMinimum(s, required, current) == Ok(1_422_300)
            && BuildBalancedOutputs(s.base, s.price, outputs, 200_000, ctx) ==
               Ok(Balanced(outputs + [Output(address, 1_300_000, Some(map[rest := 3]), 0)], 200_000))
  {
    var s := Setting(ExampleBase(), 4310, address, [], [], selector);
    var current := Value(3_300_000, Some(map[used := 5, rest := 3]));
    var required := Value(2_000_000, Some(map[used := 5]));
    ExampleSurplus(used, rest);
    GuardExampleMinimum(used, rest, address);
    GuardExampleBalances(used, rest, outputs, address);
  }

  lemma ExampleSurplus(used: Asset, rest: Asset)
    requires used != rest
    ensures Surplus(Value(2_000_000, Some(map[used := 5])), Value(3_300_000, Some(map[used := 5, rest := 3]))) ==
            Value(1_300_000, Some(map[used := 0, rest := 3]))
  {
    var left := Saturating(map[used := 5, rest := 3], map[used := 5]);
    assert left == map[used := 0, rest := 3];
    assert rest in left && left[rest] > 0;
  }

  lemma GuardExampleMinimum(used: Asset, rest: Asset, address: Address)
    requires used != rest
    ensures IteratedMinimum(ExampleBase(), 4310, Output(address, 1_300_000, Some(map[used := 0, rest := 3]), 0), 3) ==
            Ok(1_422_300)
  {
    assert map[used := 0, rest := 3].Keys == {used, rest};
    assert |map[used := 0, rest := 3]| == |{used, rest}| == 2;
  }

  lemma GuardExampleBalances(used: Asset, rest: Asset, outputs: seq<Output>, address: Address)
    requires used != rest
    ensures var ctx := Context(Value(3_300_000, Some(map[used := 5, rest := 3])),
                               Value(1_800_000, Some(map[used := 5])), SimpleValue(0), address);
            BuildBalancedOutputs(ExampleBase(), 4310, outputs, 200_000, ctx) ==
            Ok(Balanced(outputs + [Output(address, 1_300_000, Some(map[rest := 3]), 0)], 200_000))
  {
    var ctx := Context(Value(3_300_000, Some(map[used := 5, rest := 3])),
                       Value(1_800_000, Some(map[used := 5])), SimpleValue(0), address);
    assert Needed(ctx, 200_000) == Ok(Value(2_000_000, Some(map[used := 5])));
    ExampleLeftover(used, rest, ctx);
    assert AssetCount(Some(map[rest := 3])) == 1;
  }

  lemma ExampleLeftover(used: Asset, rest: Asset, ctx: Context)
    requires used != rest && ctx.totalInput == Value(3_300_000, Some(map[used := 5, rest := 3]))
    requires Needed(ctx, 200_000) == Ok(Value(2_000_000, Some(map[used := 5])))
    ensures Leftover(ctx, 200_000) == Ok(Value(1_300_000, Some(map[rest := 3])))
  {
    var l := Leftover(ctx, 200_000).value;
    LeftoverIsNormal(ctx, 200_000);
    forall a ensures Quantity(l.assets, a) == Quantity(Some(map[rest := 3]), a) {
      assert l.Get(Token(a)) == ctx.totalInput.Get(Token(a)) - Needed(ctx, 200_000).value.Get(Token(a));
    }
    assert rest in map[rest := 3].Keys;
    NormalUnique(l.assets, Some(map[rest := 3]));
  }

  // ----- accepting a selector's answer -----

  /** The entry of the pool a reference resolves to: the last one, as a map would keep. */
  function ByRef(available: seq<Utxo>, ref: TxIn): (r: Option<Utxo>)
    ensures r.Some? ==> r.value in available && r.value.txin == ref
    ensures r.None? <==> forall u :: u in available ==> u.txin != ref
  {
    if available == [] then None
    else if available[|available| - 1].txin == ref then Some(available[|available| - 1])
    else
      var n := |available| - 1;
      assert available == available[..n] + [available[n]];
      ByRef(available[..n], ref)
  }

  /** Replaces each returned UTxO by the pool's own, refusing unknown and repeated references. */
  function Canonical(available: seq<Utxo>, picked: seq<Utxo>): (r: Result<seq<Utxo>>)
    ensures r.Ok? ==>
              && |r.value| == |picked| && DistinctRefs(r.value)
              && forall i :: 0 <= i < |picked| ==> r.value[i].txin == picked[i].txin && r.value[i] in available
  {
    if picked == [] then Ok([])
    else
      var n := |picked| - 1;
      match Canonical(available, picked[..n])
      case Err(e) => Err(e)
      case Ok(us) =>
        match ByRef(available, picked[n].txin)
        case None => Err(UnavailableUtxo)
        case Some(u) => if exists i :: 0 <= i < n && us[i].txin == u.txin then Err(DuplicateUtxo) else Ok(us + [u])
  }

  function Accept(available: seq<Utxo>, picked: seq<Utxo>, remaining: Value): Result<seq<Utxo>> {
    match Canonical(available, picked)
    case Err(e) => Err(e)
    case Ok(us) =>
      match TotalValue(us)
      case Err(e) => Err(e)
      case Ok(v) => if v.GreaterOrEqual(remaining) then Ok(us) else Err(SelectionDoesNotCover)
  }

  /** A UTxO without assets: no bundle, or an empty one. */
  predicate Bare(u: Utxo) {
    u.assets.None? || u.assets.value == map[]
  }

  /** The order `pickSingleInput` prefers candidates in: no bundle, an empty bundle, assets; within
      each the larger amount. */
  function PickOrder(): Less<Utxo> {
    (a: Utxo, b: Utxo) => if PickRank(a) != PickRank(b) then PickRank(a) < PickRank(b) else a.amount > b.amount
  }

  function PickRank(u: Utxo): nat {
    if u.assets.None? then 0 else if u.assets.value == map[] then 1 else 2
  }

  /** No other candidate comes before this one. */
  ghost predicate Preferred(pool: set<Utxo>, u: Utxo) {
    u in pool && forall w :: w in pool ==> !PickOrder()(w, u)
  }

  /** `pickSingleInput`. */
  function PickSingle(available: seq<Utxo>): (r: Result<Utxo>)
    ensures r.Ok? ==> r.value in available
    ensures r.Err? <==> available == []
  {
    if available == [] then Err(NoAvailableUtxo)
    else
      var sorted := LargestFirst.SortUtxos(available);
      SameMultisetSameElements(sorted, available);
      assert forall u :: u in sorted ==> u in Elements(sorted);
      Ok(PickFrom(sorted))
  }

  function PickFrom(sorted: seq<Utxo>): (u: Utxo)
    requires sorted != []
    ensures u in sorted
  {
    match FirstBare(sorted)
    case Some(u) => u
    case None => sorted[0]
  }

  function FirstBare(us: seq<Utxo>): (r: Option<Utxo>)
    ensures r.Some? ==> r.value in us && Bare(r.value)
    ensures r.None? ==> forall u :: u in us ==> !Bare(u)
  {
    if us == [] then None
    else if Bare(us[0]) then Some(us[0])
    else FirstBare(us[1..])
  }

  // ----- which single input is picked -----

  /** The first listed candidate that no other comes before. */
  ghost function FirstPreferred(pool: set<Utxo>, us: seq<Utxo>): (r: Option<Utxo>)
    ensures r.Some? ==> Preferred(pool, r.value)
  {
    if us == [] then None
    else if Preferred(pool, us[0]) then Some(us[0])
    else FirstPreferred(pool, us[1..])
  }

  /** A newcomer nothing comes before is picked. */
  lemma {:induction false} InsertTakesPick(x: Utxo, t: seq<Utxo>)
    requires forall e :: e in t ==> !PickOrder()(e, x)
    ensures PickFrom(Insert(x, t, LargestFirst.AmountOrder())) == x
  {
    if t == [] || !LargestFirst.AmountOrder()(t[0], x) {
      assert forall e :: e in t && Bare(e) ==> PickRank(e) < 2;
    } else {
      assert !PickOrder()(t[0], x) && !Bare(t[0]) && Bare(x);
      InsertTakesPick(x, t[1..]);
      assert x in multiset(Insert(x, t[1..], LargestFirst.AmountOrder()));
    }
  }

  /** A newcomer that comes after the pick changes nothing. */
  lemma {:induction false} InsertKeepsPick(x: Utxo, t: seq<Utxo>)
    requires t != [] && WeaklySorted(LargestFirst.AmountOrder(), t) && PickOrder()(PickFrom(t), x)
    ensures PickFrom(Insert(x, t, LargestFirst.AmountOrder())) == PickFrom(t)
  {
    var u := PickFrom(t);
    var r := Insert(x, t, LargestFirst.AmountOrder());
    assert forall e :: e in r ==> e in multiset(r);
    assert forall e :: e in r ==> e == x || e in t;
    assert !LargestFirst.AmountOrder()(u, t[0]);
    assert Bare(x) ==> LargestFirst.AmountOrder()(u, x);
    if LargestFirst.AmountOrder()(t[0], x) && !Bare(t[0]) && FirstBare(t).Some? {
      InsertKeepsPick(x, t[1..]);
      var s := Insert(x, t[1..], LargestFirst.AmountOrder());
      assert u in multiset(s) && u in s;
    }
  }

  /** The single input is the first listed of the candidates no other comes before: the choice
      among equals follows the pool's order. */
  lemma {:induction false} PickIsFirstPreferred(available: seq<Utxo>)
    requires available != []
    ensures FirstPreferred(Elements(available), available) == Some(PickSingle(available).value)
  {
    var x, rest := available[0], available[1..];
    var sorted := LargestFirst.SortUtxos(rest);
    assert Elements(available) == Elements(rest) + {x};
    SameMultisetSameElements(sorted, rest);
    LargestFirst.AmountWeak(Elements(rest));
    SortBySorts(rest, LargestFirst.AmountOrder());
    if Preferred(Elements(available), x) {
      assert forall e :: e in sorted ==> e in Elements(sorted);
      InsertTakesPick(x, sorted);
    } else {
      var y :| y in available && PickOrder()(y, x);
      assert y in Elements(rest);
      PickIsFirstPreferred(rest);
      assert PickOrder()(PickFrom(sorted), x);
      InsertKeepsPick(x, sorted);
      SamePreferred(Elements(rest), Elements(available), rest, x, y);
    }
  }

  /** A candidate behind another does not matter to which come first. */
  lemma {:induction false} SamePreferred(fewer: set<Utxo>, more: set<Utxo>, us: seq<Utxo>, x: Utxo, y: Utxo)
    requires more == fewer + {x} && y in fewer && PickOrder()(y, x)
    ensures FirstPreferred(fewer, us) == FirstPreferred(more, us)
  {
    if us != [] {
      assert Preferred(fewer, us[0]) <==> Preferred(more, us[0]);
      SamePreferred(fewer, more, us[1..], x, y);
    }
  }

  /** So the choice is independent of the listing exactly when one candidate comes before all others. */
  lemma PickIsDeterminedIff(p: seq<Utxo>)
    requires p != []
    ensures (forall q :: multiset(q) == multiset(p) ==> PickSingle(q) == PickSingle(p)) <==>
            (forall u, w :: Preferred(Elements(p), u) && Preferred(Elements(p), w) ==> u == w)
  {
    PickIsFirstPreferred(p);
    if forall u, w :: Preferred(Elements(p), u) && Preferred(Elements(p), w) ==> u == w {
      forall q | multiset(q) == multiset(p) ensures PickSingle(q) == PickSingle(p) {
        assert |multiset(q)| == |multiset(p)|;
        SameMultisetSameElements(p, q);
        PickIsFirstPreferred(q);
      }
    } else {
      var u, w :| Preferred(Elements(p), u) && Preferred(Elements(p), w) && u != w;
      var q := Fronted(p, u);
      var r := Fronted(p, w);
      assert PickSingle(q) == Ok(u) && PickSingle(r) == Ok(w);
    }
  }

  /** Two ADA-only UTxOs of one amount: either is picked, whichever is listed first. */
  lemma EqualsFollowListing(u: Utxo, w: Utxo)
    requires u.assets.None? && w.assets.None? && u.amount == w.amount && u != w
    ensures multiset([u, w]) == multiset([w, u])
    ensures PickSingle([u, w]) == Ok(u) && PickSingle([w, u]) == Ok(w)
  {
    assert Elements([u, w]) == {u, w} && Elements([w, u]) == {u, w};
    PickIsFirstPreferred([u, w]);
    PickIsFirstPreferred([w, u]);
  }

  /** A listing of the same pool with a preferred candidate in front picks it. */
  lemma Fronted(p: seq<Utxo>, u: Utxo) returns (q: seq<Utxo>)
    requires Preferred(Elements(p), u)
    ensures multiset(q) == multiset(p) && PickSingle(q) == Ok(u)
  {
    var i :| 0 <= i < |p| && p[i] == u;
    q := [u] + (p[..i] + p[i + 1..]);
    assert p == p[..i] + [u] + p[i + 1..];
    SameMultisetSameElements(p, q);
    PickIsFirstPreferred(q);
  }

  /** `selectCoins` without its bookkeeping. */
  function Select(s: Setting, required: Value, current: Value): Result<seq<Utxo>> {
    if !current.GreaterOrEqual(required) then
      var remaining := Remaining(required, current);
      match s.selector(s.available, remaining)
      case Err(e) => Err(e)
      case Ok(picked) => Accept(s.available, picked, remaining)
    else if s.preselected == [] then
      match PickSingle(s.available)
      case Err(e) => Err(e)
      case Ok(u) => Accept(s.available, [u], Remaining(required, current))
    else
      match UnemittableChangeMinimum(s, required, current)
      case Err(e) => Err(e)
      case Ok(minimum) =>
        if minimum == 0 then Ok([])
        else
          match required.Add(SimpleValue(minimum))
          case Err(_) => Err(TopUpOverflow)
          case Ok(raised) =>
            match s.selector(s.available, Remaining(raised, current))
            case Err(_) => Ok([])
            case Ok(picked) => Accept(s.available, picked, Remaining(raised, current))
  }

  // ----- soundness for every selector -----

  /** Selected UTxOs are distinct pool entries; with the current input they cover the
      requirement, and the transaction ends up with at least one input. */
  lemma SelectIsSound(s: Setting, required: Value, current: Value)
    requires Select(s, required, current).Ok?
    ensures var picked := Select(s, required, current).value;
            && DistinctRefs(picked)
            && (forall u :: u in picked ==> u in s.available)
            && (forall c :: required.Get(c) > 0 ==> current.Get(c) + Sum(picked, c) >= required.Get(c))
            && s.preselected + picked != []
  {
    var picked := Select(s, required, current).value;
    if !current.GreaterOrEqual(required) {
      var remaining := Remaining(required, current);
      AcceptCovers(s.available, s.selector(s.available, remaining).value, required, current);
      if picked == [] {
        NotCoveredNeedsMore(required, current);
      }
    } else if picked != [] {
      TotalValueExact(picked);
      forall c ensures Sum(picked, c) >= 0 {
        SumNonNegative(picked, c);
      }
    } else {
      assert forall c :: Sum([], c) == 0;
    }
  }

  lemma RemainingExact(required: Value, current: Value, c: Class)
    requires required.Get(c) > 0
    ensures Remaining(required, current).Get(c) >= 0
    ensures Remaining(required, current).Get(c) >= required.Get(c) - current.Get(c)
    ensures current.Get(c) >= 0 ==>
              Remaining(required, current).Get(c) ==
              if required.Get(c) > current.Get(c) then required.Get(c) - current.Get(c) else 0
  {
  }

  lemma AcceptCovers(available: seq<Utxo>, picked: seq<Utxo>, required: Value, current: Value)
    requires Accept(available, picked, Remaining(required, current)).Ok?
    ensures var us := Accept(available, picked, Remaining(required, current)).value;
            forall c :: required.Get(c) > 0 ==> current.Get(c) + Sum(us, c) >= required.Get(c)
  {
    var remaining := Remaining(required, current);
    var us := Canonical(available, picked).value;
    var v := TotalValue(us).value;
    TotalValueExact(us);
    forall c | required.Get(c) > 0 ensures Sum(us, c) >= remaining.Get(c) {
      assert v.Get(c) == Sum(us, c);
      RemainingExact(required, current, c);
      SumNonNegative(us, c);
      if c.Token? && remaining.Get(c) > 0 {
        assert c.asset in remaining.assets.value;
      }
    }
    forall c | required.Get(c) > 0 ensures current.Get(c) + Sum(us, c) >= required.Get(c) {
      RemainingExact(required, current, c);
    }
  }

  /** What does not already cover leaves some class wanting. */
  lemma NotCoveredNeedsMore(required: Value, current: Value)
    requires !current.GreaterOrEqual(required)
    ensures exists c :: required.Get(c) > 0 && current.Get(c) < required.Get(c)
  {
    if current.coin < required.coin {
      assert required.Get(Coin) > 0 && current.Get(Coin) < required.Get(Coin);
    } else {
      var a :| a in required.assets.value && required.assets.value[a] > 0
               && Quantity(current.assets, a) < required.assets.value[a];
      assert required.Get(Token(a)) > 0 && current.Get(Token(a)) < required.Get(Token(a));
    }
  }

  // ----- failure and the fee reserve -----

  /** A selector fails exactly when the pool is short, and what it returns is accepted. */
  ghost predicate ExactOn(selector: Selector, available: seq<Utxo>) {
    forall target: Value ::
      && (selector(available, target).Err? <==> MacsProperties.Short(Elements(available), target))
      && (selector(available, target).Ok? ==> Accept(available, selector(available, target).value, target).Ok?)
  }

  /** Pools whose sums cannot overflow: distinct references, valid amounts, total in uint64. */
  ghost predicate OrdinaryPool(available: seq<Utxo>) {
    DistinctRefs(available) && (forall u :: u in available ==> u.ValidAmount()) && Sum(available, Coin) <= MAX_U64
  }

  /** The top-up guard itself fails: the change minimum cannot be computed, or adding it to
      the requirement leaves uint64. */
  predicate TopUpGuardFails(s: Setting, required: Value, current: Value) {
    && current.GreaterOrEqual(required)
    && s.preselected != []
    && var minimum := UnemittableChangeMinimum(s, required, current);
       minimum.Err? || (minimum.value > 0 && required.coin + minimum.value > MAX_U64)
  }

  /** The requirement at a larger fee reserve: more coin, the same assets. */
  predicate Raised(low: Value, high: Value) {
    low.coin <= high.coin && low.assets == high.assets
  }

  lemma ShortIsMonotone(pool: set<Utxo>, low: Value, high: Value)
    requires Raised(low, high) && MacsProperties.Short(pool, low)
    ensures MacsProperties.Short(pool, high)
  {
    var c :| c in TargetClasses(low) && Total(pool, c) < low.Get(c);
    assert high.Get(c) >= low.Get(c);
    assert c in TargetClasses(high);
  }

  /** On an ordinary pool a failure that is not the guard's own means the pool is short, and
      a larger reserve cannot cure that. */
  lemma FailureIsMonotone(s: Setting, low: Value, high: Value, current: Value)
    requires ExactOn(s.selector, s.available) && OrdinaryPool(s.available)
    requires Raised(low, high)
    requires Select(s, low, current).Err? && !TopUpGuardFails(s, low, current)
    ensures Select(s, high, current).Err?
  {
    if !current.GreaterOrEqual(low) {
      assert !current.GreaterOrEqual(high);
      assert Raised(Remaining(low, current), Remaining(high, current));
      ShortIsMonotone(Elements(s.available), Remaining(low, current), Remaining(high, current));
    } else if s.preselected == [] {
      if s.available == [] {
        if !current.GreaterOrEqual(high) {
          EmptyPoolIsShort(high, current);
        }
      } else {
        SinglePickAccepted(s.available, low, current);
      }
    }
  }

  lemma EmptyPoolIsShort(required: Value, current: Value)
    requires !current.GreaterOrEqual(required)
    ensures MacsProperties.Short({}, Remaining(required, current))
  {
    var remaining := Remaining(required, current);
    if current.coin < required.coin {
      assert Coin in TargetClasses(remaining) && Total({}, Coin) < remaining.Get(Coin);
    } else {
      var a :| a in required.assets.value && required.assets.value[a] > 0
               && Quantity(current.assets, a) < required.assets.value[a];
      assert remaining.Get(Token(a)) > 0;
      assert Token(a) in TargetClasses(remaining) && Total({}, Token(a)) < remaining.Get(Token(a));
    }
  }

  /** When nothing more is needed, any pool entry is accepted. */
  lemma SinglePickAccepted(available: seq<Utxo>, required: Value, current: Value)
    requires available != [] && current.GreaterOrEqual(required)
    requires forall u :: u in available ==> u.ValidAmount()
    ensures Accept(available, [PickSingle(available).value], Remaining(required, current)).Ok?
  {
    var u := PickSingle(available).value;
    assert [u][..0] == [];
    assert Canonical(available, []) == Ok([]);
    var w := ByRef(available, u.txin).value;
    assert [] + [w] == [w];
    assert Canonical(available, [u]) == Ok([w]);
    assert [w][..0] == [];
    assert TotalValue([]) == Ok(Value(0, None));
    TotalValueExact([w]);
    assert Sum([w], Coin) == w.amount;
    var v := TotalValue([w]).value;
    forall a ensures Quantity(v.assets, a) >= 0 {
      assert v.Get(Token(a)) == Sum([w], Token(a));
    }
    NothingRemains(required, current);
  }

  lemma NothingRemains(required: Value, current: Value)
    requires current.GreaterOrEqual(required)
    ensures Remaining(required, current).coin == 0 && !Remaining(required, current).HasAssets()
  {
  }

  /** No lovelace can be added to the current input: the pool has none, or uint64 has no room. */
  ghost predicate NothingToAdd(s: Setting, current: Value) {
    current.coin == MAX_U64 || Sum(s.available, Coin) == 0
  }

  /** Within what is already covered, only the guard fails. */
  lemma CoveredFailsByGuard(s: Setting, required: Value, current: Value)
    requires ExactOn(s.selector, s.available)
    requires current.GreaterOrEqual(required) && s.preselected != []
    ensures Select(s, required, current).Err? <==> TopUpGuardFails(s, required, current)
  {
    var minimum := UnemittableChangeMinimum(s, required, current);
    if !TopUpGuardFails(s, required, current) && minimum.value > 0 {
      var remaining := Remaining(required.Add(SimpleValue(minimum.value)).value, current);
      assert s.selector(s.available, remaining).Ok? ==>
               Accept(s.available, s.selector(s.available, remaining).value, remaining).Ok?;
    }
  }

  /** One lovelace beyond what is covered can be selected unless there is nothing to add. */
  lemma OneMoreLovelace(s: Setting, low: Value, current: Value)
    requires ExactOn(s.selector, s.available) && OrdinaryPool(s.available)
    requires current.GreaterOrEqual(low) && !NothingToAdd(s, current)
    ensures Select(s, low.(coin := current.coin + 1), current).Ok?
  {
    var high := low.(coin := current.coin + 1);
    var remaining := Remaining(high, current);
    DistinctRefsUnique(s.available);
    SumIsTotal(s.available, Coin);
    SumNonNegative(s.available, Coin);
    NothingRemains(low, current);
    forall c | c in TargetClasses(remaining) ensures Total(Elements(s.available), c) >= remaining.Get(c) {
      assert remaining.coin == 1;
      assert c.Token? ==> remaining.Get(c) == Remaining(low, current).Get(c);
    }
    assert s.selector(s.available, remaining).Ok?;
  }

  /** When nothing can be added, whatever is not covered fails. */
  lemma BeyondCoverFails(s: Setting, high: Value, current: Value)
    requires ExactOn(s.selector, s.available) && OrdinaryPool(s.available)
    requires NothingToAdd(s, current) && high.coin > current.coin
    ensures Select(s, high, current).Err?
  {
    var remaining := Remaining(high, current);
    DistinctRefsUnique(s.available);
    SumIsTotal(s.available, Coin);
    assert Coin in TargetClasses(remaining) && Total(Elements(s.available), Coin) < remaining.Get(Coin);
  }

  /** A requirement that fails goes on failing at every larger reserve exactly when its failure is
      not the guard's, or the guard fails all the way up to what is covered and nothing can be
      added beyond that. */
  lemma FailsAtEveryLargerReserve(s: Setting, low: Value, current: Value)
    requires ExactOn(s.selector, s.available) && OrdinaryPool(s.available)
    requires Select(s, low, current).Err?
    ensures (forall high :: Raised(low, high) ==> Select(s, high, current).Err?) <==>
              || !TopUpGuardFails(s, low, current)
              || (NothingToAdd(s, current) &&
                  forall high :: Raised(low, high) && high.coin <= current.coin ==> TopUpGuardFails(s, high, current))
  {
    if !TopUpGuardFails(s, low, current) {
      forall high | Raised(low, high) ensures Select(s, high, current).Err? {
        FailureIsMonotone(s, low, high, current);
      }
    } else {
      forall high | Raised(low, high) && high.coin <= current.coin
        ensures Select(s, high, current).Err? <==> TopUpGuardFails(s, high, current)
      {
        CoveredFailsByGuard(s, high, current);
      }
      if NothingToAdd(s, current) {
        forall high | Raised(low, high) && high.coin > current.coin ensures Select(s, high, current).Err? {
          BeyondCoverFails(s, high, current);
        }
      } else {
        OneMoreLovelace(s, low, current);
        assert Raised(low, low.(coin := current.coin + 1));
      }
    }
  }

  /** Whatever the codec and the price: when the pinned inputs hold all of uint64, a requirement
      that leaves change below a computable minimum fails in the guard, and the higher one that
      leaves no change succeeds. */
  lemma GuardFailureIsNotMonotone(s: Setting, dust: Uint64)
    requires s.preselected != [] && dust > 0
    requires var minimum := IteratedMinimum(s.base, s.price, Output(s.changeAddress, dust, None, 0), 3);
             minimum.Ok? && minimum.value > dust
    ensures var current := SimpleValue(MAX_U64);
            Select(s, SimpleValue(MAX_U64 - dust), current) == Err(TopUpOverflow) &&
            Select(s, SimpleValue(MAX_U64), current) == Ok([])
  {
    var current := SimpleValue(MAX_U64);
    assert Surplus(SimpleValue(MAX_U64 - dust), current) == SimpleValue(dust);
    assert Surplus(SimpleValue(MAX_U64), current) == SimpleValue(0);
  }

  // ----- both built-in selectors are exact -----

  ghost function MacsAsSelector(config: Config): Selector {
    (pool: seq<Utxo>, target: Value) =>
      if UniqueRefs(Elements(pool)) then MacsSpec.Selection(config, Elements(pool), target) else Err(DuplicateUtxo)
  }

  ghost function LargestFirstAsSelector(): Selector {
    (pool: seq<Utxo>, target: Value) =>
      if UniqueRefs(Elements(pool)) then LargestFirst.Selection(Elements(pool), target) else Err(DuplicateUtxo)
  }

  lemma ByRefDistinct(available: seq<Utxo>, u: Utxo)
    requires DistinctRefs(available) && u in available
    ensures ByRef(available, u.txin) == Some(u)
  {
    var w := ByRef(available, u.txin).value;
    var i :| 0 <= i < |available| && available[i] == u;
    var j :| 0 <= j < |available| && available[j] == w;
    assert !(i < j) && !(j < i);
  }

  lemma {:induction false} CanonicalIsIdentity(available: seq<Utxo>, picked: seq<Utxo>)
    requires DistinctRefs(available) && Distinct(picked) && forall u :: u in picked ==> u in available
    ensures Canonical(available, picked) == Ok(picked)
  {
    if picked != [] {
      var n := |picked| - 1;
      assert picked == picked[..n] + [picked[n]];
      CanonicalIsIdentity(available, picked[..n]);
      ByRefDistinct(available, picked[n]);
      forall i | 0 <= i < n ensures picked[i].txin != picked[n].txin {
        ByRefDistinct(available, picked[i]);
        assert picked[i] in available && picked[i] != picked[n];
      }
    }
  }

  /** Distinct pool entries that cover every class of the target are accepted. */
  lemma CoverAccepted(available: seq<Utxo>, picked: seq<Utxo>, target: Value)
    requires OrdinaryPool(available) && Distinct(picked) && forall u :: u in picked ==> u in available
    requires forall c :: c in TargetClasses(target) ==> Sum(picked, c) >= target.Get(c)
    ensures Accept(available, picked, target).Ok?
  {
    CanonicalIsIdentity(available, picked);
    DistinctRefsUnique(available);
    SumIsTotal(picked, Coin);
    SumIsTotal(available, Coin);
    assert Elements(picked) <= Elements(available);
    TotalMonotone(Elements(picked), Elements(available), Coin);
    TotalValueExact(picked);
    LargestFirst.EnoughByClass(picked, target);
    var v := TotalValue(picked).value;
    assert v.Get(Coin) == Sum(picked, Coin);
    assert forall a :: Quantity(v.assets, a) == v.Get(Token(a)) == Sum(picked, Token(a));
  }

  lemma MacsIsExact(config: Config, available: seq<Utxo>)
    requires OrdinaryPool(available)
    ensures ExactOn(MacsAsSelector(config), available)
  {
    DistinctRefsUnique(available);
    var pool := Elements(available);
    forall target: Value
      ensures MacsAsSelector(config)(available, target).Err? <==> MacsProperties.Short(pool, target)
      ensures MacsAsSelector(config)(available, target).Ok? ==>
                Accept(available, MacsAsSelector(config)(available, target).value, target).Ok?
    {
      MacsProperties.InsufficientIffShort(config, pool, target);
      if MacsSpec.Selection(config, pool, target).Ok? {
        MacsCoverAccepted(config, available, target);
      }
    }
  }

  lemma MacsCoverAccepted(config: Config, available: seq<Utxo>, target: Value)
    requires OrdinaryPool(available) && UniqueRefs(Elements(available))
    requires MacsSpec.Selection(config, Elements(available), target).Ok?
    ensures Accept(available, MacsSpec.Selection(config, Elements(available), target).value, target).Ok?
  {
    var pool := Elements(available);
    var picked := MacsSpec.Selection(config, pool, target).value;
    MacsProperties.SelectionIsSound(config, pool, target);
    if target.coin == 0 && !target.HasAssets() {
      assert forall c :: c in TargetClasses(target) ==> c == Coin;
      CoverAccepted(available, picked, target);
    } else {
      var kept, swept :| picked == kept + swept && MacsProperties.CoverThenDust(config, pool, target, kept, swept);
      CoverThenDustAccepted(config, available, target, kept, swept);
    }
  }

  lemma CoverThenDustAccepted(config: Config, available: seq<Utxo>, target: Value, kept: seq<Utxo>, swept: seq<Utxo>)
    requires OrdinaryPool(available)
    requires MacsProperties.CoverThenDust(config, Elements(available), target, kept, swept)
    ensures Accept(available, kept + swept, target).Ok?
  {
    var picked := kept + swept;
    forall u | u in picked ensures u in available {
      assert u in Elements(picked);
    }
    forall i, j | 0 <= i < j < |kept| ensures kept[i] != kept[j] {
      assert picked[i] == kept[i] && picked[j] == kept[j];
    }
    forall c | c in TargetClasses(target) ensures Sum(picked, c) >= target.Get(c) {
      SumIsTotal(kept, c);
      SumAppend(kept, swept, c);
      assert forall u :: u in swept ==> u in picked;
      SumNonNegative(swept, c);
    }
    CoverAccepted(available, picked, target);
  }

  lemma LargestFirstIsExact(available: seq<Utxo>)
    requires OrdinaryPool(available)
    ensures ExactOn(LargestFirstAsSelector(), available)
  {
    DistinctRefsUnique(available);
    var pool := Elements(available);
    forall target: Value
      ensures LargestFirstAsSelector()(available, target).Err? <==> MacsProperties.Short(pool, target)
      ensures LargestFirstAsSelector()(available, target).Ok? ==>
                Accept(available, LargestFirstAsSelector()(available, target).value, target).Ok?
    {
      LargestFirst.InsufficientIffShort(pool, target);
      if LargestFirst.Selection(pool, target).Ok? {
        var picked := LargestFirst.Selection(pool, target).value;
        LargestFirst.EnoughByClass(picked, target);
        assert forall u :: u in picked ==> u in Elements(picked);
        CoverAccepted(available, picked, target);
      }
    }
  }

  // ----- the order of the pool is irrelevant -----

  /** Both built-in selectors return the same UTxOs in the same order, or the same error, for any
      two listings of one pool. */
  lemma PoolOrderIsIrrelevant(config: Config, p: seq<Utxo>, q: seq<Utxo>, target: Value)
    requires DistinctRefs(p) && multiset(p) == multiset(q)
    ensures DistinctRefs(q) && UniqueRefs(Elements(p)) && Elements(p) == Elements(q)
    ensures MacsAsSelector(config)(p, target) == MacsAsSelector(config)(q, target)
    ensures LargestFirstAsSelector()(p, target) == LargestFirstAsSelector()(q, target)
  {
    RefsPermutation(p, q);
    DistinctRefsUnique(p);
    SameMultisetSameElements(p, q);
  }
}
