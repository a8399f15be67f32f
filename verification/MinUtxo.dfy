/** Output sizes and the min-UTxO rule (helpers.go, models.go).

    CBOR is modelled by its size. An output occupies a part that does not depend on its
    coin, plus the width of the coin as an unsigned integer (section 3 of RFC 8949). */
module MinUtxo {
  import opened Wrappers
  import opened Ledger

  /** The bytes an unsigned integer occupies: head byte plus argument. */
  function UintWidth(n: nat): (w: nat)
    ensures w in {1, 2, 3, 5, 9}
  {
    if n < 24 then 1
    else if n < 0x100 then 2
    else if n < 0x1_0000 then 3
    else if n < 0x1_0000_0000 then 5
    else 9
  }

  lemma UintWidthMonotone(m: nat, n: nat)
    requires m <= n
    ensures UintWidth(m) <= UintWidth(n)
  {
  }

  /** A transaction output. `extra` is what its datum option and script reference encode to. */
  datatype Output = Output(address: Address, coin: Uint64, assets: Option<Bundle>, extra: nat) {
    function ToValue(): Value {
      Value(coin, assets)
    }
  }

  /** The encoded size of an output less the width of its coin. */
  type OutputBase = (Address, Option<Bundle>, nat) -> nat

  function OutputSize(base: OutputBase, o: Output): nat {
    base(o.address, o.assets, o.extra) + UintWidth(o.coin)
  }

  /** `MinLovelacePostAlonzo`. */
  function MinLovelace(base: OutputBase, price: int, o: Output): (r: Result<nat>)
    ensures r.Ok? ==> price > 0 && r.value == price * (OutputSize(base, o) + 160) <= MAX_I64
    ensures r.Err? ==> r.error in {InvalidCoinsPerByte, MinLovelaceOverflow}
  {
    if price <= 0 then
      Err(InvalidCoinsPerByte)
    else
      var factor := OutputSize(base, o) + 160;
      if price > MAX_I64 / factor then
        Err(MinLovelaceOverflow)
      else
        ProductBound(price, factor);
        Ok(price * factor)
  }

  lemma ProductBound(p: nat, f: nat)
    requires f > 0
    ensures p <= MAX_I64 / f <==> p * f <= MAX_I64
  {
    QuotientBound(MAX_I64, p, f);
  }

  lemma QuotientBound(n: nat, p: nat, f: nat)
    requires f > 0
    ensures p <= n / f <==> p * f <= n
  {
    var q := n / f;
    assert n == q * f + n % f;
    if p <= q {
      assert (q - p) * f >= 0;
    } else {
      assert (p - q - 1) * f >= 0;
    }
  }

  lemma MinLovelaceMonotone(base: OutputBase, price: int, o: Output, coin: Uint64)
    requires o.coin <= coin
    ensures var bigger := o.(coin := coin);
            MinLovelace(base, price, bigger).Ok? ==>
              MinLovelace(base, price, o).Ok? &&
              MinLovelace(base, price, o).value <= MinLovelace(base, price, bigger).value
  {
    var bigger := o.(coin := coin);
    UintWidthMonotone(o.coin, coin);
    if MinLovelace(base, price, bigger).Ok? {
      var f, g := OutputSize(base, o) + 160, OutputSize(base, bigger) + 160;
      assert price * f <= price * g;
      ProductBound(price, f);
    }
  }

  /** Two coins above the price of the smallest output and within nine bytes of price of
      each other straddle at most one change of width. Raising the coin to the minimum a
      third time can therefore not change it. */
  lemma AtMostOneWidthStep(price: nat, fixed: nat, offset: nat, a: nat, b: nat, c: nat)
    requires price > 0 && fixed >= 160
    requires price * fixed <= a <= b <= c <= price * (fixed + 9)
    ensures UintWidth(a + offset) == UintWidth(b + offset) || UintWidth(b + offset) == UintWidth(c + offset)
  {
    assert price * (fixed + 9) == price * fixed + 9 * price;
    assert price * fixed >= 160 * price by {
      assert (fixed - 160) * price >= 0;
    }
    assert 160 * c <= 169 * a;
  }

  // ----- Payment.EnsureMinUTXO -----

  /** A payment unit; None stands for the policy ids "" and "lovelace". */
  datatype Unit = Unit(asset: Option<Asset>, quantity: Int64)

  /** `Payment.ToValue` over the units, starting from the payment's own lovelace. */
  function UnitsValue(lovelace: Int64, units: seq<Unit>): (r: Result<Value>)
  {
    if lovelace < 0 then
      Err(NegativeAmount)
    else if units == [] then
      Ok(SimpleValue(lovelace))
    else
      var u := units[|units| - 1];
      match UnitsValue(lovelace, units[..|units| - 1])
      case Err(e) => Err(e)
      case Ok(v) =>
        if u.quantity < 0 then Err(NegativeAmount)
        else match u.asset
          case None => v.Add(SimpleValue(u.quantity))
          case Some(a) => v.Add(Value(0, Some(map[a := u.quantity])))
  }

  /** Lovelace carried by the units of a payment, on top of its own. */
  function UnitLovelace(units: seq<Unit>): int {
    if units == [] then
      0
    else
      UnitLovelace(units[..|units| - 1]) +
      (if units[|units| - 1].asset.None? then units[|units| - 1].quantity else 0)
  }

  /** Raising a payment's lovelace moves its coin by as much and leaves its assets alone. */
  lemma {:induction false} UnitsValueShift(lovelace: Int64, units: seq<Unit>, raised: Int64)
    requires UnitsValue(lovelace, units).Ok? && lovelace <= raised
    ensures UnitLovelace(units) >= 0
    ensures UnitsValue(lovelace, units).value.coin == lovelace + UnitLovelace(units)
    ensures UnitsValue(raised, units).Ok? <==> raised + UnitLovelace(units) <= MAX_U64
    ensures UnitsValue(raised, units).Err? ==> UnitsValue(raised, units).error == CoinOverflow
    ensures UnitsValue(raised, units).Ok? ==>
              UnitsValue(raised, units).value.assets == UnitsValue(lovelace, units).value.assets &&
              UnitsValue(raised, units).value.coin == raised + UnitLovelace(units)
  {
    if units == [] {
    } else {
      UnitsValueShift(lovelace, units[..|units| - 1], raised);
    }
  }

  const MIN_LOVELACE: Int64 := 1_000_000

  class Payment {
    const receiver: Address
    const units: seq<Unit>
    const extra: nat
    var lovelace: Int64

    constructor (receiver: Address, lovelace: Int64, units: seq<Unit>, extra: nat)
      ensures this.receiver == receiver && this.lovelace == lovelace
      ensures this.units == units && this.extra == extra
    {
      this.receiver, this.lovelace, this.units, this.extra := receiver, lovelace, units, extra;
    }

    /** `ToTxOut`, seen through the size model. */
    function ToTxOut(): (r: Result<Output>)
      reads this
    {
      OutputAt(receiver, lovelace, units, extra)
    }

    /** Raises the lovelace until the output meets its own minimum. The result is the
        smallest admissible raise: `MinUtxoDidNotConverge` is never returned. */
    method EnsureMinUtxo(base: OutputBase, price: int) returns (error: Option<Error>)
      modifies this
      ensures lovelace >= old(lovelace)
      ensures error.None? ==>
                if Exempt(units, old(lovelace), extra) then lovelace == old(lovelace)
                else LeastAdmissible(base, price, receiver, units, extra, old(lovelace), lovelace)
      ensures error.Some? ==>
                !Exempt(units, old(lovelace), extra) && !Admissible(base, price, receiver, units, extra, lovelace)
      ensures error.Some? ==>
                error.value in {NegativeAmount, CoinOverflow, InvalidCoinsPerByte, MinLovelaceOverflow}
    {
      if Exempt(units, lovelace, extra) {
        return None;
      }
      ghost var first := lovelace;
      ghost var coins: seq<Int64> := [];
      for i := 0 to 3
        invariant |coins| == i && lovelace == (if i == 0 then first else coins[i - 1])
        invariant RaiseChain(base, price, receiver, units, extra, first, coins)
      {
        var txOut := ToTxOut();
        if txOut.Err? {
          RaiseChainBounds(base, price, receiver, units, extra, first, coins);
          return Some(txOut.error);
        }
        var min := MinLovelace(base, price, txOut.value);
        if min.Err? {
          RaiseChainBounds(base, price, receiver, units, extra, first, coins);
          return Some(min.error);
        }
        if lovelace >= min.value {
          RaiseChainLeast(base, price, receiver, units, extra, first, coins);
          return None;
        }
        lovelace := min.value;
        coins := coins + [min.value];
      }
      RaiseChainBounds(base, price, receiver, units, extra, first, coins);
      var txOut := ToTxOut();
      if txOut.Err? {
        return Some(txOut.error);
      }
      var min := MinLovelace(base, price, txOut.value);
      if min.Err? {
        return Some(min.error);
      }
      RaiseChainSettles(base, price, receiver, units, extra, first, coins);
      if lovelace < min.value {
        return Some(MinUtxoDidNotConverge);
      }
      RaiseChainLeast(base, price, receiver, units, extra, first, coins);
      return None;
    }
  }

  function OutputAt(receiver: Address, lovelace: Int64, units: seq<Unit>, extra: nat): (r: Result<Output>)
    ensures r.Err? ==> r.error in {NegativeAmount, CoinOverflow}
  {
    UnitsValueErrors(lovelace, units);
    match UnitsValue(lovelace, units)
    case Err(e) => Err(e)
    case Ok(v) => Ok(Output(receiver, v.coin, v.assets, extra))
  }

  lemma UnitsValueErrors(lovelace: Int64, units: seq<Unit>)
    ensures UnitsValue(lovelace, units).Err? ==> UnitsValue(lovelace, units).error in {NegativeAmount, CoinOverflow}
  {
  }

  /** The early exit: an ADA-only payment of at least one ADA and nothing attached. */
  predicate Exempt(units: seq<Unit>, lovelace: Int64, extra: nat) {
    units == [] && lovelace >= MIN_LOVELACE && extra == 0
  }

  /** The output at this lovelace can be built and covers the minimum for its own encoding. */
  ghost predicate Admissible(base: OutputBase, price: int, receiver: Address, units: seq<Unit>, extra: nat,
                             lovelace: Int64)
  {
    var o := OutputAt(receiver, lovelace, units, extra);
    o.Ok? && MinLovelace(base, price, o.value).Ok? && lovelace >= MinLovelace(base, price, o.value).value
  }

  ghost predicate LeastAdmissible(base: OutputBase, price: int, receiver: Address, units: seq<Unit>, extra: nat,
                                  first: Int64, lovelace: Int64)
  {
    && first <= lovelace
    && Admissible(base, price, receiver, units, extra, lovelace)
    && forall l: Int64 :: first <= l && Admissible(base, price, receiver, units, extra, l) ==> lovelace <= l
  }

  /** Each coin is the minimum computed at the one before, and exceeds it. */
  ghost predicate RaiseChain(base: OutputBase, price: int, receiver: Address, units: seq<Unit>, extra: nat,
                             first: Int64, coins: seq<Int64>)
  {
    forall k {:trigger coins[k]} :: 0 <= k < |coins| ==>
      var before := if k == 0 then first else coins[k - 1];
      var o := OutputAt(receiver, before, units, extra);
      o.Ok? && MinLovelace(base, price, o.value) == Ok(coins[k]) && before < coins[k]
  }

  lemma RaiseChainBounds(base: OutputBase, price: int, receiver: Address, units: seq<Unit>, extra: nat,
                         first: Int64, coins: seq<Int64>)
    requires RaiseChain(base, price, receiver, units, extra, first, coins) && |coins| <= 3
    ensures |coins| > 0 ==> first < coins[|coins| - 1]
  {
    if |coins| > 0 { assert first < coins[0]; }
    if |coins| > 1 { assert coins[0] < coins[1]; }
    if |coins| > 2 { assert coins[1] < coins[2]; }
  }

  /** Any admissible lovelace from `first` up is at least every coin of the chain. */
  lemma RaiseChainLeast(base: OutputBase, price: int, receiver: Address, units: seq<Unit>, extra: nat,
                        first: Int64, coins: seq<Int64>)
    requires RaiseChain(base, price, receiver, units, extra, first, coins) && |coins| <= 3
    ensures forall l: Int64 :: first <= l && Admissible(base, price, receiver, units, extra, l) ==>
              forall k :: 0 <= k < |coins| ==> coins[k] <= l
    ensures |coins| > 0 ==> first < coins[|coins| - 1]
  {
    RaiseChainBounds(base, price, receiver, units, extra, first, coins);
    forall l: Int64 | first <= l && Admissible(base, price, receiver, units, extra, l)
      ensures forall k :: 0 <= k < |coins| ==> coins[k] <= l
    {
      if |coins| > 0 {
        AdmissibleAboveMinimum(base, price, receiver, units, extra, first, coins[0], l);
      }
      if |coins| > 1 {
        AdmissibleAboveMinimum(base, price, receiver, units, extra, coins[0], coins[1], l);
      }
      if |coins| > 2 {
        AdmissibleAboveMinimum(base, price, receiver, units, extra, coins[1], coins[2], l);
      }
    }
  }

  lemma AdmissibleAboveMinimum(base: OutputBase, price: int, receiver: Address, units: seq<Unit>, extra: nat,
                               before: Int64, coin: Int64, l: Int64)
    requires OutputAt(receiver, before, units, extra).Ok?
    requires MinLovelace(base, price, OutputAt(receiver, before, units, extra).value) == Ok(coin)
    requires before <= l && Admissible(base, price, receiver, units, extra, l)
    ensures coin <= l
  {
    UnitsValueShift(before, units, l);
    var o := OutputAt(receiver, before, units, extra).value;
    MinLovelaceMonotone(base, price, o, l + UnitLovelace(units));
    assert OutputAt(receiver, l, units, extra).value == o.(coin := l + UnitLovelace(units));
  }

  /** After three raises the minimum has stopped moving. */
  lemma RaiseChainSettles(base: OutputBase, price: int, receiver: Address, units: seq<Unit>, extra: nat,
                          first: Int64, coins: seq<Int64>)
    requires RaiseChain(base, price, receiver, units, extra, first, coins) && |coins| == 3
    requires OutputAt(receiver, coins[2], units, extra).Ok?
    requires MinLovelace(base, price, OutputAt(receiver, coins[2], units, extra).value).Ok?
    ensures MinLovelace(base, price, OutputAt(receiver, coins[2], units, extra).value).value <= coins[2]
  {
    var o := OutputAt(receiver, first, units, extra).value;
    var extraCoin := UnitLovelace(units);
    assert first < coins[0] && coins[0] < coins[1] && coins[1] < coins[2];
    UnitsValueShift(first, units, coins[0]);
    UnitsValueShift(first, units, coins[1]);
    UnitsValueShift(first, units, coins[2]);
    var fixed := base(receiver, o.assets, extra) + 160;
    WidthTerm(price, fixed, UintWidth(first + extraCoin));
    WidthTerm(price, fixed, UintWidth(coins[1] + extraCoin));
    AtMostOneWidthStep(price, fixed, extraCoin, coins[0], coins[1], coins[2]);
    if UintWidth(coins[0] + extraCoin) == UintWidth(coins[1] + extraCoin) {
      assert false;
    }
  }

  lemma WidthTerm(price: nat, fixed: nat, w: nat)
    requires 1 <= w <= 9
    ensures price * fixed <= price * (fixed + w) <= price * (fixed + 9)
  {
    assert price * (fixed + w) == price * fixed + price * w;
    assert price * w <= price * 9;
    assert price * (fixed + 9) == price * fixed + price * 9;
  }

  // ----- unemittableChangeMinimum -----

  /** The minimum of an output, recomputed at its own minimum `steps - 1` times. */
  function IteratedMinimum(base: OutputBase, price: int, o: Output, steps: nat): (r: Result<nat>)
    requires steps > 0
    decreases steps
  {
    match MinLovelace(base, price, o)
    case Err(e) => Err(e)
    case Ok(m) => if steps == 1 then Ok(m) else IteratedMinimum(base, price, o.(coin := m), steps - 1)
  }

  /** Three rounds reach a minimum that prices its own encoding, and comparing the coin of an output
      with it decides whether the output covers its own minimum. */
  lemma IteratedMinimumDecides(base: OutputBase, price: int, o: Output)
    requires IteratedMinimum(base, price, o, 3).Ok?
    ensures var m := IteratedMinimum(base, price, o, 3).value;
            MinLovelace(base, price, o.(coin := m)) == Ok(m) &&
            (o.coin >= m <==> o.coin >= MinLovelace(base, price, o).value)
  {
    var m1, m2, m3 := ThreeMinima(base, price, o);
    ThreeRounds(price, base(o.address, o.assets, o.extra) + 160, o.coin, m1, m2, m3);
    SameWidthSameMinimum(base, price, o, m3, m2);
  }

  lemma ThreeMinima(base: OutputBase, price: int, o: Output) returns (m1: nat, m2: nat, m3: nat)
    requires IteratedMinimum(base, price, o, 3).Ok?
    ensures MinLovelace(base, price, o) == Ok(m1) && m1 <= MAX_U64
    ensures MinLovelace(base, price, o.(coin := m1)) == Ok(m2) && m2 <= MAX_U64
    ensures MinLovelace(base, price, o.(coin := m2)) == Ok(m3) && m3 <= MAX_U64
    ensures IteratedMinimum(base, price, o, 3) == Ok(m3)
  {
    m1 := MinLovelace(base, price, o).value;
    var o1 := o.(coin := m1);
    m2 := MinLovelace(base, price, o1).value;
    var o2 := o1.(coin := m2);
    m3 := MinLovelace(base, price, o2).value;
    assert o2 == o.(coin := m2);
    assert IteratedMinimum(base, price, o1, 2) == IteratedMinimum(base, price, o2, 1) == Ok(m3);
  }

  /** The minimum depends on the coin through its width only. */
  lemma SameWidthSameMinimum(base: OutputBase, price: int, o: Output, a: Uint64, b: Uint64)
    requires UintWidth(a) == UintWidth(b)
    ensures MinLovelace(base, price, o.(coin := a)) == MinLovelace(base, price, o.(coin := b))
  {
  }

  /** Three rounds of the size recurrence, over plain numbers. */
  lemma ThreeRounds(price: nat, fixed: nat, c: nat, m1: nat, m2: nat, m3: nat)
    requires price > 0 && fixed >= 160
    requires m1 == price * (fixed + UintWidth(c))
    requires m2 == price * (fixed + UintWidth(m1))
    requires m3 == price * (fixed + UintWidth(m2))
    ensures UintWidth(m3) == UintWidth(m2)
    ensures c >= m3 <==> c >= m1
  {
    WidthTerm(price, fixed, UintWidth(c));
    WidthTerm(price, fixed, UintWidth(m1));
    WidthTerm(price, fixed, UintWidth(m2));
    if c <= m1 {
      RecurrenceMonotone(price, fixed, c, m1);
      RecurrenceMonotone(price, fixed, m1, m2);
      AtMostOneWidthStep(price, fixed, 0, m1, m2, m3);
    } else {
      RecurrenceMonotone(price, fixed, m1, c);
      RecurrenceMonotone(price, fixed, m2, m1);
      AtMostOneWidthStep(price, fixed, 0, m3, m2, m1);
    }
  }

  lemma RecurrenceMonotone(price: nat, fixed: nat, a: nat, b: nat)
    requires a <= b
    ensures price * (fixed + UintWidth(a)) <= price * (fixed + UintWidth(b))
  {
    UintWidthMonotone(a, b);
    assert price * (fixed + UintWidth(b)) == price * (fixed + UintWidth(a)) + price * (UintWidth(b) - UintWidth(a));
  }
}
