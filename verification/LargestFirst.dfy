/** Largest-first selection and the sorts it rests on (coinselection.go, utils.go). */
module LargestFirst {
  import opened Orders
  import opened Wrappers
  import opened Ledger
  import opened MacsSpec
  import MacsProperties

  /** The comparator of `SortUtxos`: ADA-only before asset-carrying, larger amounts first. */
  function AmountOrder(): Less<Utxo> {
    (a: Utxo, b: Utxo) =>
      if a.assets.Some? == b.assets.Some? then a.amount > b.amount else b.assets.Some?
  }

  function InputOrder(): Less<Utxo> {
    (a: Utxo, b: Utxo) => InputLess(a.txin, b.txin)
  }

  /** The amount order with its ties resolved by transaction id and index. */
  function CanonicalOrder(): Less<Utxo> {
    (a: Utxo, b: Utxo) => AmountOrder()(a, b) || (!AmountOrder()(b, a) && InputOrder()(a, b))
  }

  predicate Tied(a: Utxo, b: Utxo) {
    a.assets.Some? == b.assets.Some? && a.amount == b.amount
  }

  lemma AmountWeak(s: set<Utxo>)
    ensures WeakOn(AmountOrder(), s)
  {
  }

  lemma InputTotal(s: set<Utxo>)
    requires UniqueRefs(s)
    ensures TotalOn(InputOrder(), s)
  {
    forall x, y, z | x in s && y in s && z in s
      ensures !(InputOrder()(x, y) && InputOrder()(y, x))
      ensures x != y ==> InputOrder()(x, y) || InputOrder()(y, x)
      ensures !InputOrder()(x, y) && !InputOrder()(y, z) ==> !InputOrder()(x, z)
    {
      InputLessTotal(x.txin, y.txin, z.txin);
    }
  }

  lemma CanonicalTotal(s: set<Utxo>)
    requires UniqueRefs(s)
    ensures TotalOn(CanonicalOrder(), s)
  {
    InputTotal(s);
  }

  /** `SortUtxos` and `SortInputs`. */
  function SortUtxos(us: seq<Utxo>): seq<Utxo> {
    SortBy(us, AmountOrder())
  }

  function SortInputs(us: seq<Utxo>): seq<Utxo> {
    SortBy(us, InputOrder())
  }

  /** What the tie-stabilising loop has established when it stands at position `i`. */
  ghost predicate StableUpTo(us: seq<Utxo>, sorted: seq<Utxo>, i: nat) {
    && i <= |sorted|
    && multiset(sorted) == multiset(us)
    && WeaklySorted(AmountOrder(), sorted)
    && StrictlySorted(CanonicalOrder(), sorted[..i])
    && (forall p, q :: 0 <= p < i <= q < |sorted| ==> AmountOrder()(sorted[p], sorted[q]))
  }

  /** The entries before `i` and from `j` on are as before, and those between tie. */
  ghost predicate RunReplaced(sorted: seq<Utxo>, after: seq<Utxo>, i: nat, j: nat) {
    && i < j <= |sorted| == |after|
    && (forall k :: 0 <= k < i || j <= k < |sorted| ==> after[k] == sorted[k])
    && (forall k :: i <= k < j ==> Tied(sorted[i], sorted[k]) && Tied(sorted[i], after[k]))
    && (forall p, q :: i <= p < q < j ==> InputOrder()(after[p], after[q]))
  }

  /** Replaces a maximal run of ties by its canonical order. */
  lemma StabiliseRun(us: seq<Utxo>, sorted: seq<Utxo>, i: nat, j: nat)
    requires DistinctRefs(us) && UniqueRefs(Elements(us)) && StableUpTo(us, sorted, i) && i < j <= |sorted|
    requires forall k :: i <= k < j ==> Tied(sorted[i], sorted[k])
    requires j < |sorted| ==> !Tied(sorted[i], sorted[j])
    ensures StableUpTo(us, sorted[..i] + SortInputs(sorted[i..j]) + sorted[j..], j)
  {
    var after := sorted[..i] + SortInputs(sorted[i..j]) + sorted[j..];
    SpliceRun(us, sorted, i, j);
    StillWeaklySorted(sorted, after, i, j);
    PrefixStrictlySorted(sorted, after, i, j);
    assert forall p :: 0 <= p < j ==> after[..j][p] == after[p];
  }

  lemma SpliceRun(us: seq<Utxo>, sorted: seq<Utxo>, i: nat, j: nat)
    requires DistinctRefs(us) && UniqueRefs(Elements(us)) && multiset(sorted) == multiset(us)
    requires i < j <= |sorted| && forall k :: i <= k < j ==> Tied(sorted[i], sorted[k])
    ensures var after := sorted[..i] + SortInputs(sorted[i..j]) + sorted[j..];
            multiset(after) == multiset(sorted) && RunReplaced(sorted, after, i, j)
  {
    var stable := SortInputs(sorted[i..j]);
    RunElements(us, sorted, i, j);
    Splice(sorted, i, j, stable);
    var after := sorted[..i] + stable + sorted[j..];
    forall k | i <= k < j ensures Tied(sorted[i], after[k]) {
      assert after[k] == stable[k - i] && stable[k - i] in stable;
    }
  }

  lemma Splice<T>(s: seq<T>, i: nat, j: nat, run: seq<T>)
    requires i <= j <= |s| && multiset(run) == multiset(s[i..j])
    ensures var after := s[..i] + run + s[j..];
            && multiset(after) == multiset(s) && |after| == |s|
            && (forall k :: 0 <= k < i || j <= k < |s| ==> after[k] == s[k])
            && (forall k :: i <= k < j ==> after[k] == run[k - i])
  {
    assert |multiset(run)| == |multiset(s[i..j])|;
    assert s == s[..i] + s[i..j] + s[j..];
  }

  lemma StillWeaklySorted(sorted: seq<Utxo>, after: seq<Utxo>, i: nat, j: nat)
    requires WeaklySorted(AmountOrder(), sorted) && RunReplaced(sorted, after, i, j)
    requires j < |sorted| ==> !Tied(sorted[i], sorted[j])
    ensures WeaklySorted(AmountOrder(), after)
    ensures forall p, q :: 0 <= p < j <= q < |after| ==> AmountOrder()(after[p], after[q])
  {
    forall p | 0 <= p < |after| ensures Tied(after[p], sorted[p]) {
    }
    forall p, q | 0 <= p < j <= q < |after| ensures AmountOrder()(after[p], after[q]) {
      assert !AmountOrder()(sorted[q], sorted[j]) || q == j;
      assert !AmountOrder()(sorted[j], sorted[i]);
      assert p < i ==> !AmountOrder()(sorted[i], sorted[p]);
    }
  }

  lemma PrefixStrictlySorted(sorted: seq<Utxo>, after: seq<Utxo>, i: nat, j: nat)
    requires RunReplaced(sorted, after, i, j) && StrictlySorted(CanonicalOrder(), sorted[..i])
    requires forall p, q :: 0 <= p < i <= q < |sorted| ==> AmountOrder()(sorted[p], sorted[q])
    ensures forall p, q :: 0 <= p < q < j ==> CanonicalOrder()(after[p], after[q])
  {
    forall p, q | 0 <= p < q < j ensures CanonicalOrder()(after[p], after[q]) {
      if q < i {
        assert after[p] == sorted[..i][p] && after[q] == sorted[..i][q];
      } else if p < i {
        assert AmountOrder()(sorted[p], sorted[q]) && Tied(sorted[q], after[q]);
      }
    }
  }

  lemma RunElements(us: seq<Utxo>, sorted: seq<Utxo>, i: nat, j: nat)
    requires DistinctRefs(us) && UniqueRefs(Elements(us)) && multiset(sorted) == multiset(us)
    requires i < j <= |sorted| && forall k :: i <= k < j ==> Tied(sorted[i], sorted[k])
    ensures StrictlySorted(InputOrder(), SortInputs(sorted[i..j]))
    ensures forall u :: u in SortInputs(sorted[i..j]) ==> Tied(sorted[i], u)
  {
    var run := sorted[i..j];
    SameMultisetSameElements(sorted, us);
    DistinctByMultiset(us, sorted);
    forall u | u in run ensures u in Elements(us) && Tied(sorted[i], u) {
      assert u in sorted && u in Elements(sorted);
    }
    assert UniqueRefs(Elements(run));
    InputTotal(Elements(run));
    SortByStrict(run, InputOrder());
    forall u | u in SortInputs(run) ensures u in run {
      assert u in Elements(SortInputs(run));
    }
  }

  /** Sorts by amount, then rewrites every run of ties in place. The result is the pool in
      canonical order: the sort by amount leaves no trace of the order it started from. */
  method CanonicalSort(us: seq<Utxo>) returns (sorted: seq<Utxo>)
    requires DistinctRefs(us) && UniqueRefs(Elements(us))
    ensures TotalOn(CanonicalOrder(), Elements(us)) && sorted == Ascending(CanonicalOrder(), Elements(us))
  {
    sorted := SortUtxos(us);
    AmountWeak(Elements(us));
    SortBySorts(us, AmountOrder());
    var i := 0;
    while i < |sorted|
      invariant StableUpTo(us, sorted, i)
      decreases |us| - i
    {
      var j := i + 1;
      while j < |sorted| && Tied(sorted[i], sorted[j])
        invariant i < j <= |sorted|
        invariant forall k :: i <= k < j ==> Tied(sorted[i], sorted[k])
      {
        j := j + 1;
      }
      StabiliseRun(us, sorted, i, j);
      SingleRun(sorted, i, j);
      if j - i > 1 {
        var stable := SortInputs(sorted[i..j]);
        sorted := sorted[..i] + stable + sorted[j..];
      }
      assert |multiset(sorted)| == |multiset(us)|;
      i := j;
    }
    assert sorted[..|sorted|] == sorted;
    SameMultisetSameElements(sorted, us);
    CanonicalTotal(Elements(us));
    SortedIsAscending(CanonicalOrder(), sorted);
  }

  lemma SingleRun(sorted: seq<Utxo>, i: nat, j: nat)
    requires i < j <= |sorted|
    ensures j == i + 1 ==> sorted[..i] + SortInputs(sorted[i..j]) + sorted[j..] == sorted
  {
    if j == i + 1 {
      assert sorted[i..j] == [sorted[i]];
    }
  }

  // ----- selection -----

  predicate Enough(us: seq<Utxo>, target: Value) {
    Sum(us, Coin) >= target.coin &&
    (target.assets.Some? ==>
       forall a :: a in target.assets.value && target.assets.value[a] > 0 ==>
                     Sum(us, Token(a)) >= target.assets.value[a])
  }

  /** Takes entries in order until they cover the target, refusing an invalid amount when it
      is reached. */
  function Prefix(sorted: seq<Utxo>, n: nat, target: Value): Result<seq<Utxo>>
    requires n <= |sorted|
    decreases |sorted| - n
  {
    if n == |sorted| then Err(Insufficient)
    else if !sorted[n].ValidAmount() then Err(InvalidAmount)
    else if Enough(sorted[..n + 1], target) then Ok(sorted[..n + 1])
    else Prefix(sorted, n + 1, target)
  }

  /** The result of `LargestFirstSelector.Select`, a function of the pool as a set. */
  ghost function Selection(pool: set<Utxo>, target: Value): Result<seq<Utxo>>
    requires UniqueRefs(pool)
  {
    if target.coin == 0 && !target.HasAssets() then Ok([])
    else
      CanonicalTotal(pool);
      Prefix(Ascending(CanonicalOrder(), pool), 0, target)
  }

  ghost predicate RemainingAfter(remaining: Value, target: Value, taken: seq<Utxo>) {
    && remaining.coin == (if target.coin > Sum(taken, Coin) then target.coin - Sum(taken, Coin) else 0)
    && (remaining.assets.Some? <==> target.assets.Some?)
    && (target.assets.Some? ==>
          remaining.assets.value.Keys == target.assets.value.Keys &&
          forall a :: a in target.assets.value ==>
            remaining.assets.value[a] ==
            if target.assets.value[a] <= 0 then target.assets.value[a]
            else if target.assets.value[a] > Sum(taken, Token(a)) then target.assets.value[a] - Sum(taken, Token(a))
            else 0)
  }

  method Select(available: seq<Utxo>, target: Value) returns (r: Result<seq<Utxo>>)
    requires DistinctRefs(available) && UniqueRefs(Elements(available))
    ensures r == Selection(Elements(available), target)
  {
    if target.coin == 0 && !target.HasAssets() {
      return Ok([]);
    }
    var sorted := CanonicalSort(available);
    r := TakePrefix(sorted, target);
  }

  /** The greedy loop over the sorted pool. */
  method TakePrefix(sorted: seq<Utxo>, target: Value) returns (r: Result<seq<Utxo>>)
    ensures r == Prefix(sorted, 0, target)
  {
    var remaining := target;
    for i := 0 to |sorted|
      invariant RemainingAfter(remaining, target, sorted[..i])
      invariant Prefix(sorted, 0, target) == Prefix(sorted, i, target)
    {
      if !sorted[i].ValidAmount() {
        return Err(InvalidAmount);
      }
      remaining := Deduct(remaining, sorted[i], target, sorted[..i]);
      assert sorted[..i] + [sorted[i]] == sorted[..i + 1];
      if remaining.coin == 0 && !remaining.HasAssets() {
        return Ok(sorted[..i + 1]);
      }
    }
    r := Err(Insufficient);
  }

  method Deduct(remaining: Value, u: Utxo, target: Value, ghost taken: seq<Utxo>) returns (r: Value)
    requires RemainingAfter(remaining, target, taken) && u.ValidAmount()
    ensures RemainingAfter(r, target, taken + [u])
    ensures r.coin == 0 && !r.HasAssets() <==> Enough(taken + [u], target)
  {
    var coin := if remaining.coin <= u.amount then 0 else remaining.coin - u.amount;
    var assets := remaining.assets;
    if assets.Some? && u.assets.Some? {
      var left := SubtractSaturating(assets.value, u.assets.value);
      assets := Some(left);
    }
    r := Value(coin, assets);
    assert (taken + [u])[..|taken|] == taken;
  }

  // ----- properties -----

  /** A successful selection is the shortest prefix, in canonical order, that covers. */
  lemma {:induction false} PrefixOutcome(sorted: seq<Utxo>, n: nat, target: Value)
    requires n <= |sorted| && (n > 0 ==> !Enough(sorted[..n], target))
    requires forall u :: u in sorted ==> u.ValidAmount()
    ensures var r := Prefix(sorted, n, target);
            && (r.Ok? ==> exists k :: n < k <= |sorted| && r.value == sorted[..k] && Enough(sorted[..k], target) &&
                                      (k > 1 ==> !Enough(sorted[..k - 1], target)))
            && (r.Err? ==> r == Err(Insufficient) && (sorted != [] ==> !Enough(sorted, target)))
    decreases |sorted| - n
  {
    if n == |sorted| {
      assert sorted[..n] == sorted;
    } else {
      assert sorted[n] in sorted;
      if Enough(sorted[..n + 1], target) {
        assert n + 1 <= |sorted|;
      } else {
        PrefixOutcome(sorted, n + 1, target);
      }
    }
  }

  lemma {:induction false} SumPrefix(us: seq<Utxo>, k: nat, c: Class)
    requires k <= |us| && forall u :: u in us ==> u.amount >= 0
    ensures Sum(us[..k], c) <= Sum(us, c)
  {
    assert us == us[..k] + us[k..];
    SumAppend(us[..k], us[k..], c);
    SumNonNegative(us[k..], c);
  }

  /** Largest-first, too, fails exactly when the pool is short of some class; otherwise it
      returns distinct pool entries that cover the target. */
  lemma InsufficientIffShort(pool: set<Utxo>, target: Value)
    requires UniqueRefs(pool) && forall u :: u in pool ==> u.ValidAmount()
    ensures Selection(pool, target) == Err(Insufficient) <==> MacsProperties.Short(pool, target)
    ensures Selection(pool, target).Err? ==> Selection(pool, target) == Err(Insufficient)
    ensures Selection(pool, target).Ok? ==>
              var r := Selection(pool, target).value;
              Distinct(r) && Elements(r) <= pool && Enough(r, target)
  {
    if target.coin == 0 && !target.HasAssets() {
      forall c | c in TargetClasses(target) ensures Total(pool, c) >= target.Get(c) {
        TotalMonotone({}, pool, c);
      }
    } else {
      CanonicalTotal(pool);
      MacsProperties.AscendingSorted(CanonicalOrder(), pool);
      PrefixIffShort(Ascending(CanonicalOrder(), pool), target);
    }
  }

  lemma PrefixIffShort(sorted: seq<Utxo>, target: Value)
    requires Distinct(sorted) && forall u :: u in Elements(sorted) ==> u.ValidAmount()
    requires target.coin > 0 || target.HasAssets()
    ensures var r := Prefix(sorted, 0, target);
            && (r == Err(Insufficient) <==> MacsProperties.Short(Elements(sorted), target))
            && (r.Err? ==> r == Err(Insufficient))
            && (r.Ok? ==> Distinct(r.value) && Elements(r.value) <= Elements(sorted) && Enough(r.value, target))
  {
    assert forall u :: u in sorted ==> u in Elements(sorted);
    PrefixOutcome(sorted, 0, target);
    EnoughIffNotShort(sorted, target);
    EnoughByClass(sorted, target);
    var r := Prefix(sorted, 0, target);
    if r.Ok? {
      var k :| 0 < k <= |sorted| && r.value == sorted[..k] && Enough(sorted[..k], target);
      EnoughByClass(sorted[..k], target);
      forall c | c in TargetClasses(target) ensures Sum(sorted, c) >= target.Get(c) {
        SumPrefix(sorted, k, c);
      }
    } else if sorted == [] {
      MacsProperties.TargetHasClass(target);
      var c :| c in TargetClasses(target) && target.Get(c) > 0;
      assert Sum(sorted, c) < target.Get(c);
    }
  }

  lemma EnoughByClass(us: seq<Utxo>, target: Value)
    ensures Enough(us, target) <==> forall c :: c in TargetClasses(target) ==> Sum(us, c) >= target.Get(c)
  {
    if forall c :: c in TargetClasses(target) ==> Sum(us, c) >= target.Get(c) {
      assert Coin in TargetClasses(target) && target.Get(Coin) == target.coin;
      if target.assets.Some? {
        forall a | a in target.assets.value && target.assets.value[a] > 0
          ensures Sum(us, Token(a)) >= target.assets.value[a]
        {
          assert Token(a) in TargetClasses(target) && target.Get(Token(a)) == target.assets.value[a];
        }
      }
    }
  }

  lemma EnoughIffNotShort(us: seq<Utxo>, target: Value)
    requires Distinct(us)
    ensures Enough(us, target) <==> !MacsProperties.Short(Elements(us), target)
  {
    EnoughByClass(us, target);
    forall c ensures Sum(us, c) == Total(Elements(us), c) {
      SumIsTotal(us, c);
    }
  }
}
