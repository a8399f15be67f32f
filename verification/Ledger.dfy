/** Values, UTxOs and the arithmetic on them (helpers.go, models.go, utils.go). */
module Ledger {
  import opened Wrappers
  import opened Orders

  const MAX_U64: int := 0xFFFF_FFFF_FFFF_FFFF
  const MAX_I64: int := 0x7FFF_FFFF_FFFF_FFFF

  type Int64 = n: int | -MAX_I64 - 1 <= n <= MAX_I64

  type Uint64 = n: int | 0 <= n <= MAX_U64

  datatype Result<+T> = Ok(value: T) | Err(error: Error)

  datatype Error =
    | CoinOverflow
    | CoinUnderflow
    | AssetUnderflow
    | InvalidAmount
    | Insufficient
    | NegativeFee
    | RequiredOverflow
    | BurnExceedsInputs
    | InvalidCoinsPerByte
    | MinLovelaceOverflow
    | NegativeAmount
    | MinUtxoDidNotConverge
    | FeeOverflow
    | AssetChangeBelowMinUtxo
    | NoAvailableUtxo
    | UnavailableUtxo
    | DuplicateUtxo
    | SelectionDoesNotCover
    | TopUpOverflow
    | NoEligibleCollateral
    | InvalidCollateral
    | CollateralOverflow
    | InsufficientCollateral
    | CollateralReturnBelowMinUtxo
    | StrandedCollateralAssets
    | CollateralAmountTooLow
    | CollateralAmountTooHigh
    | CertificateOverflow
    | GovernanceOverflow
    | DirectDepositInvalid
    | InvalidMint
    | EvaluationFailed
    | EvaluationDidNotConverge
    | Overspent

  // ----- references and asset names -----

  /** The hexadecimal form of a 32-byte transaction id: always 64 characters. */
  type TxId = s: string | |s| == 64 witness seq(64, _ => '0')

  datatype TxIn = TxIn(id: TxId, index: nat)

  /** `utxoRef`: the id, `#`, and the index in decimal. */
  function Ref(t: TxIn): string {
    t.id + "#" + Decimal(t.index)
  }

  lemma RefInjective(s: TxIn, t: TxIn)
    requires Ref(s) == Ref(t)
    ensures s == t
  {
    assert Ref(s)[..64] == s.id && Ref(t)[..64] == t.id;
    assert Ref(s)[65..] == Decimal(s.index) && Ref(t)[65..] == Decimal(t.index);
    DecimalInjective(s.index, t.index);
  }

  /** String comparison of references, the tie-break of every MACS order. */
  predicate RefLess(s: TxIn, t: TxIn) {
    LexLess(Ref(s), Ref(t))
  }

  lemma RefLessTotal(s: TxIn, t: TxIn, u: TxIn)
    ensures !(RefLess(s, t) && RefLess(t, s))
    ensures s != t ==> RefLess(s, t) || RefLess(t, s)
    ensures !RefLess(s, t) && !RefLess(t, u) ==> !RefLess(s, u)
  {
    LexAsymmetric(Ref(s), Ref(t));
    LexTotal(Ref(s), Ref(t));
    if Ref(s) == Ref(t) {
      RefInjective(s, t);
    }
    if !RefLess(s, t) && !RefLess(t, u) {
      LexTransitive(Ref(s), Ref(t), Ref(u));
    }
  }

  /** The order of `SortInputs`: raw id bytes, then the index as a number. Unlike
      `RefLess` it puts index 2 before index 10. */
  predicate InputLess(s: TxIn, t: TxIn) {
    if s.id != t.id then LexLess(s.id, t.id) else s.index < t.index
  }

  lemma InputLessTotal(s: TxIn, t: TxIn, u: TxIn)
    ensures !(InputLess(s, t) && InputLess(t, s))
    ensures s != t ==> InputLess(s, t) || InputLess(t, s)
    ensures !InputLess(s, t) && !InputLess(t, u) ==> !InputLess(s, u)
  {
    LexAsymmetric(s.id, t.id);
    LexTotal(s.id, t.id);
    LexTotal(t.id, u.id);
    LexTotal(s.id, u.id);
    LexAsymmetric(t.id, u.id);
    LexAsymmetric(s.id, u.id);
    if !LexLess(s.id, t.id) && !LexLess(t.id, u.id) {
      LexTransitive(s.id, t.id, u.id);
    }
    if !LexLess(u.id, s.id) && !LexLess(s.id, t.id) {
      LexTransitive(u.id, s.id, t.id);
    }
    if !LexLess(t.id, u.id) && !LexLess(u.id, s.id) {
      LexTransitive(t.id, u.id, s.id);
    }
  }

  datatype Asset = Asset(policy: string, name: string)

  predicate AssetLess(a: Asset, b: Asset) {
    if a.policy != b.policy then LexLess(a.policy, b.policy) else LexLess(a.name, b.name)
  }

  lemma AssetLessTotal(a: Asset, b: Asset, c: Asset)
    ensures !(AssetLess(a, b) && AssetLess(b, a))
    ensures a != b ==> AssetLess(a, b) || AssetLess(b, a)
    ensures !AssetLess(a, b) && !AssetLess(b, c) ==> !AssetLess(a, c)
  {
    LexAsymmetric(a.policy, b.policy);
    LexAsymmetric(b.policy, c.policy);
    LexAsymmetric(a.policy, c.policy);
    LexTotal(a.policy, b.policy);
    LexTotal(b.policy, c.policy);
    LexTotal(a.policy, c.policy);
    LexAsymmetric(a.name, b.name);
    LexTotal(a.name, b.name);
    if !LexLess(a.policy, b.policy) && !LexLess(b.policy, c.policy) {
      LexTransitive(a.policy, b.policy, c.policy);
    }
    if !LexLess(a.name, b.name) && !LexLess(b.name, c.name) {
      LexTransitive(a.name, b.name, c.name);
    }
    if !LexLess(c.policy, a.policy) && !LexLess(a.policy, b.policy) {
      LexTransitive(c.policy, a.policy, b.policy);
    }
    if !LexLess(b.policy, c.policy) && !LexLess(c.policy, a.policy) {
      LexTransitive(b.policy, c.policy, a.policy);
    }
  }

  // ----- values -----

  type Bundle = map<Asset, int>

  /** The bundles a UTxO or an output carries: no negative quantity. */
  type Tokens = m: Bundle | forall a :: a in m ==> m[a] >= 0

  /** An asset class of the ledger: lovelace or one native asset. */
  datatype Class = Coin | Token(asset: Asset)

  function Quantity(m: Option<Bundle>, a: Asset): int {
    if m.Some? && a in m.value then m.value[a] else 0
  }

  /** `MultiAssetIsEmpty`: no positive quantity. */
  predicate NothingPositive(m: Option<Bundle>) {
    m.None? || forall a :: a in m.value ==> m.value[a] <= 0
  }

  function Plus(m: Bundle, n: Bundle): (r: Bundle)
    ensures forall a :: Quantity(Some(r), a) == Quantity(Some(m), a) + Quantity(Some(n), a)
  {
    map a | a in m.Keys + n.Keys :: (if a in m then m[a] else 0) + (if a in n then n[a] else 0)
  }

  /** A coin amount with optional native assets. */
  datatype Value = Value(coin: Uint64, assets: Option<Bundle>) {
    function Get(c: Class): int {
      match c
      case Coin => coin
      case Token(a) => Quantity(assets, a)
    }

    predicate HasAssets() {
      !NothingPositive(assets)
    }

    function Add(other: Value): (r: Result<Value>)
      ensures r.Err? <==> coin + other.coin > MAX_U64
      ensures r.Err? ==> r.error == CoinOverflow
      ensures r.Ok? ==> forall c :: r.value.Get(c) == Get(c) + other.Get(c)
    {
      if coin + other.coin > MAX_U64 then
        Err(CoinOverflow)
      else
        Ok(Value(coin + other.coin, PlusAssets(assets, other.assets)))
    }

    /** Subtracts, refusing to drive the coin or a subtracted asset below zero. With no
        assets of its own a value drops what it is given, so exactness needs quantities
        that are not negative. */
    function Sub(other: Value): (r: Result<Value>)
      ensures r.Ok? && (forall c :: other.Get(c) >= 0) ==> forall c :: r.value.Get(c) == Get(c) - other.Get(c)
      ensures r.Err? ==> exists c :: other.Get(c) > Get(c)
      ensures (exists c :: other.Get(c) > Get(c) && other.Get(c) > 0) ==> r.Err?
    {
      if other.coin > coin then
        assert other.Get(Coin) > Get(Coin);
        Err(CoinUnderflow)
      else if assets.None? then
        if NothingPositive(other.assets) then
          Ok(Value(coin - other.coin, None))
        else
          var a :| a in other.assets.value && other.assets.value[a] > 0;
          assert other.Get(Token(a)) > Get(Token(a));
          Err(AssetUnderflow)
      else if other.assets.None? then
        Ok(Value(coin - other.coin, assets))
      else if exists a :: a in other.assets.value && other.assets.value[a] > Quantity(assets, a) then
        var a :| a in other.assets.value && other.assets.value[a] > Quantity(assets, a);
        assert other.Get(Token(a)) > Get(Token(a));
        Err(AssetUnderflow)
      else
        Ok(Value(coin - other.coin, Some(Minus(assets.value, other.assets.value))))
    }

    predicate GreaterOrEqual(other: Value) {
      && coin >= other.coin
      && (other.assets.Some? ==>
            forall a :: a in other.assets.value && other.assets.value[a] > 0 ==>
              Quantity(assets, a) >= other.assets.value[a])
    }
  }

  function SimpleValue(coin: Uint64): Value {
    Value(coin, None)
  }

  function PlusAssets(m: Option<Bundle>, n: Option<Bundle>): (r: Option<Bundle>)
    ensures forall a :: Quantity(r, a) == Quantity(m, a) + Quantity(n, a)
  {
    match (m, n)
    case (Some(x), Some(y)) => Some(Plus(x, y))
    case (Some(x), None) => m
    case (None, _) => n
  }

  function Minus(m: Bundle, n: Bundle): (r: Bundle)
    ensures forall a :: Quantity(Some(r), a) == Quantity(Some(m), a) - Quantity(Some(n), a)
  {
    Plus(m, map a | a in n :: -n[a])
  }

  /** `subtractAssetsSaturating` as a function of the bundles it is given. */
  function Saturating(required: Bundle, held: Bundle): (r: Bundle)
    ensures r.Keys == required.Keys
  {
    map a | a in required ::
      if a in held && required[a] > 0 then
        if held[a] >= required[a] then 0 else required[a] - held[a]
      else required[a]
  }

  /** `subtractAssetsSaturating`, one asset of `held` at a time. */
  method SubtractSaturating(required: Bundle, held: Bundle) returns (remaining: Bundle)
    ensures remaining == Saturating(required, held)
  {
    remaining := required;
    var todo := held.Keys;
    while todo != {}
      invariant todo <= held.Keys && remaining.Keys == required.Keys
      invariant forall a :: a in required ==>
                              remaining[a] == (if a in todo then required[a] else Saturating(required, held)[a])
      decreases todo
    {
      var a :| a in todo;
      todo := todo - {a};
      if a in remaining && remaining[a] > 0 {
        var taken := if held[a] >= remaining[a] then remaining[a] else held[a];
        remaining := remaining[a := remaining[a] - taken];
      }
    }
  }

  // ----- UTxOs -----

  datatype Address = KeyAddress(hash: string) | ScriptAddress(hash: string)

  /** An unspent output. `amount` is the provider's big integer, not yet known to be a
      uint64; `assets` is None where the source tests `Assets() != nil`. */
  datatype Utxo = Utxo(txin: TxIn, amount: int, assets: Option<Tokens>, address: Address) {
    predicate ValidAmount() {
      0 <= amount <= MAX_U64
    }

    function Amount(c: Class): int {
      match c
      case Coin => amount
      case Token(a) => Quantity(assets, a)
    }

    function ToValue(): Value
      requires ValidAmount()
    {
      Value(amount, assets)
    }
  }

  /** The amount of class `c` in a listing of UTxOs. */
  function Sum(us: seq<Utxo>, c: Class): int {
    if us == [] then 0 else Sum(us[..|us| - 1], c) + us[|us| - 1].Amount(c)
  }

  lemma {:induction false} SumAppend(us: seq<Utxo>, vs: seq<Utxo>, c: Class)
    ensures Sum(us + vs, c) == Sum(us, c) + Sum(vs, c)
  {
    if vs == [] {
      assert us + vs == us;
    } else {
      SumAppend(us, vs[..|vs| - 1], c);
      assert (us + vs)[..|us + vs| - 1] == us + vs[..|vs| - 1];
    }
  }

  lemma {:induction false} SumNonNegative(us: seq<Utxo>, c: Class)
    requires forall u :: u in us ==> u.amount >= 0
    ensures Sum(us, c) >= 0
  {
    if us != [] {
      SumNonNegative(us[..|us| - 1], c);
      assert us[|us| - 1] in us;
    }
  }

  lemma SumWithout(us: seq<Utxo>, k: nat, c: Class)
    requires k < |us|
    ensures Sum(us[..k] + us[k + 1..], c) == Sum(us, c) - us[k].Amount(c)
    ensures multiset(us[..k] + us[k + 1..]) == multiset(us) - multiset{us[k]}
  {
    assert us == us[..k] + [us[k]] + us[k + 1..];
    SumAppend(us[..k] + [us[k]], us[k + 1..], c);
    SumAppend(us[..k], [us[k]], c);
    SumAppend(us[..k], us[k + 1..], c);
    assert [us[k]][..0] == [];
  }

  lemma {:induction false} SumPermutation(us: seq<Utxo>, vs: seq<Utxo>, c: Class)
    requires multiset(us) == multiset(vs)
    ensures Sum(us, c) == Sum(vs, c)
  {
    if us == [] {
      assert |multiset(vs)| == 0;
    } else {
      var n := |us| - 1;
      assert us[n] in multiset(vs);
      var k :| 0 <= k < |vs| && vs[k] == us[n];
      SumWithout(vs, k, c);
      SumWithout(us, n, c);
      assert us[..n] + us[n + 1..] == us[..n];
      SumPermutation(us[..n], vs[..k] + vs[k + 1..], c);
    }
  }

  predicate DistinctRefs(us: seq<Utxo>) {
    forall i, j :: 0 <= i < j < |us| ==> us[i].txin != us[j].txin
  }

  lemma RefsPermutation(us: seq<Utxo>, vs: seq<Utxo>)
    requires multiset(us) == multiset(vs)
    ensures DistinctRefs(us) ==> DistinctRefs(vs)
  {
    if !DistinctRefs(us) {
      return;
    }
    assert Distinct(us);
    DistinctByMultiset(us, vs);
    SameMultisetSameElements(us, vs);
    forall i, j | 0 <= i < j < |vs| ensures vs[i].txin != vs[j].txin {
      assert vs[i] in Elements(us) && vs[j] in Elements(us);
      var k :| 0 <= k < |us| && us[k] == vs[i];
      var l :| 0 <= l < |us| && us[l] == vs[j];
      assert k < l || l < k;
    }
  }

  /** `sumUtxoValues`: the value of a listing, rejecting amounts outside uint64. */
  method SumUtxoValues(us: seq<Utxo>) returns (r: Result<Value>)
    ensures r == TotalValue(us)
  {
    var total := Value(0, None);
    for i := 0 to |us|
      invariant TotalValue(us[..i]) == Ok(total)
    {
      assert us[..i + 1][..i] == us[..i];
      if !us[i].ValidAmount() {
        TotalValueError(us, i + 1);
        return Err(InvalidAmount);
      }
      var sum := total.coin + us[i].amount;
      if sum > MAX_U64 {
        TotalValueError(us, i + 1);
        return Err(CoinOverflow);
      }
      total := Value(sum, PlusAssets(total.assets, us[i].assets));
    }
    assert us[..|us|] == us;
    r := Ok(total);
  }

  function TotalValue(us: seq<Utxo>): Result<Value> {
    if us == [] then
      Ok(Value(0, None))
    else
      match TotalValue(us[..|us| - 1])
      case Err(e) => Err(e)
      case Ok(v) =>
        if !us[|us| - 1].ValidAmount() then Err(InvalidAmount) else v.Add(us[|us| - 1].ToValue())
  }

  /** An error in a prefix is the error of the whole. */
  lemma {:induction false} TotalValueError(us: seq<Utxo>, n: nat)
    requires n <= |us| && TotalValue(us[..n]).Err?
    ensures TotalValue(us) == TotalValue(us[..n])
    decreases |us|
  {
    if n == |us| {
      assert us[..n] == us;
    } else {
      assert us[..|us| - 1][..n] == us[..n];
      TotalValueError(us[..|us| - 1], n);
    }
  }

  /** A total is exact in every class, and it fails only on an amount outside uint64
      or a coin total beyond it. */
  lemma {:induction false} TotalValueExact(us: seq<Utxo>)
    ensures TotalValue(us).Ok? ==> forall c :: TotalValue(us).value.Get(c) == Sum(us, c)
    ensures TotalValue(us).Ok? <==> (forall u :: u in us ==> u.ValidAmount()) && Sum(us, Coin) <= MAX_U64
  {
    if us != [] {
      var init, last := us[..|us| - 1], us[|us| - 1];
      assert us == init + [last];
      TotalValueExact(init);
      if forall u :: u in us ==> u.ValidAmount() {
        assert forall u :: u in init ==> u.ValidAmount();
        assert last in us;
        SumNonNegative(init, Coin);
        assert last.ValidAmount();
        if TotalValue(init).Ok? {
          assert TotalValue(init).value.coin == TotalValue(init).value.Get(Coin) == Sum(init, Coin);
          assert forall c :: last.ToValue().Get(c) == last.Amount(c);
        }
      }
    }
  }
}
