/** What MACS computes, as functions of the *set* of pool entries (macs.go).

    Nothing here mentions pool positions, cached terms, lazy orders or cursors. The
    algorithm in `MacsSelector` is proved to return exactly these results, so its
    output cannot depend on the order of the pool. */
module MacsSpec {
  import opened Orders
  import opened Wrappers
  import opened Ledger

  // ----- totals over sets -----

  ghost function Total(s: set<Utxo>, c: Class): int {
    if s == {} then 0 else var u :| u in s; u.Amount(c) + Total(s - {u}, c)
  }

  lemma {:induction false} TotalRemove(s: set<Utxo>, u: Utxo, c: Class)
    requires u in s
    ensures Total(s, c) == u.Amount(c) + Total(s - {u}, c)
    decreases s
  {
    var w :| w in s && Total(s, c) == w.Amount(c) + Total(s - {w}, c);
    if w != u {
      TotalRemove(s - {w}, u, c);
      TotalRemove(s - {u}, w, c);
      assert s - {w} - {u} == s - {u} - {w};
    }
  }

  lemma TotalAdd(s: set<Utxo>, u: Utxo, c: Class)
    requires u !in s
    ensures Total(s + {u}, c) == Total(s, c) + u.Amount(c)
  {
    TotalRemove(s + {u}, u, c);
    assert s + {u} - {u} == s;
  }

  predicate AmountsNonNegative(s: set<Utxo>) {
    forall u :: u in s ==> u.amount >= 0
  }

  lemma {:induction false} TotalMonotone(s: set<Utxo>, t: set<Utxo>, c: Class)
    requires s <= t && AmountsNonNegative(t)
    ensures 0 <= Total(s, c) <= Total(t, c)
    decreases t
  {
    if t == {} {
    } else if u :| u in t && u !in s {
      TotalRemove(t, u, c);
      TotalMonotone(s, t - {u}, c);
    } else {
      assert s == t;
      var u :| u in t;
      TotalRemove(t, u, c);
      TotalMonotone(t - {u}, t - {u}, c);
    }
  }

  lemma {:induction false} SumIsTotal(us: seq<Utxo>, c: Class)
    requires Distinct(us)
    ensures Sum(us, c) == Total(Elements(us), c)
  {
    if us != [] {
      var init, last := us[..|us| - 1], us[|us| - 1];
      assert us == init + [last];
      assert Elements(us) == Elements(init) + {last};
      SumIsTotal(init, c);
      TotalAdd(Elements(init), last, c);
    }
  }

  predicate UniqueRefs(s: set<Utxo>) {
    forall u, w :: u in s && w in s && u.txin == w.txin ==> u == w
  }

  lemma DistinctRefsUnique(pool: seq<Utxo>)
    requires DistinctRefs(pool)
    ensures Distinct(pool) && UniqueRefs(Elements(pool))
  {
    forall u, w | u in pool && w in pool && u.txin == w.txin ensures u == w {
      var i :| 0 <= i < |pool| && pool[i] == u;
      var j :| 0 <= j < |pool| && pool[j] == w;
      assert !(i < j) && !(j < i);
    }
  }

  // ----- priorities -----

  /** `v1/(d1+1)` beats `v2/(d2+1)`, compared by cross-multiplication; ties prefer the
      larger value, then the smaller reference. */
  predicate Better(v1: int, d1: nat, r1: TxIn, v2: int, d2: nat, r2: TxIn) {
    var left := v1 * (d2 + 1);
    var right := v2 * (d1 + 1);
    if left != right then left > right
    else if v1 != v2 then v1 > v2
    else RefLess(r1, r2)
  }

  lemma MulSwap(a: int, b: int, c: int)
    ensures a * b * c == a * c * b
  {
  }

  lemma MulDifference(a: int, b: int, c: int)
    ensures (a - b) * c == a * c - b * c
  {
  }

  /** Scaling each ratio by the other denominators compares them over a common one. */
  lemma CommonDenominator(v1: int, d1: nat, v2: int, d2: nat, v3: int, d3: nat)
    requires v1 * (d2 + 1) <= v2 * (d1 + 1) && v2 * (d3 + 1) <= v3 * (d2 + 1)
    ensures v1 * (d3 + 1) <= v3 * (d1 + 1)
    ensures v1 * (d3 + 1) == v3 * (d1 + 1) ==>
              v1 * (d2 + 1) == v2 * (d1 + 1) && v2 * (d3 + 1) == v3 * (d2 + 1)
  {
    var e1, e2, e3 := d1 + 1, d2 + 1, d3 + 1;
    var gap12, gap23, gap13 := v2 * e1 - v1 * e2, v3 * e2 - v2 * e3, v3 * e1 - v1 * e3;
    assert gap12 * e3 + gap23 * e1 == gap13 * e2 by {
      MulDifference(v2 * e1, v1 * e2, e3);
      MulDifference(v3 * e2, v2 * e3, e1);
      MulDifference(v3 * e1, v1 * e3, e2);
      MulSwap(v2, e1, e3);
      MulSwap(v3, e2, e1);
      MulSwap(v1, e2, e3);
    }
    SignOfSum(gap12, e3, gap23, e1, gap13, e2);
  }

  lemma SignOfSum(a: nat, x: nat, b: nat, y: nat, c: int, z: nat)
    requires x > 0 && y > 0 && z > 0 && a * x + b * y == c * z
    ensures c >= 0 && (c == 0 ==> a == 0 && b == 0)
  {
    assert (a > 0 ==> a * x > 0) && (b > 0 ==> b * y > 0);
    assert (c < 0 ==> c * z < 0) && (c == 0 ==> c * z == 0);
  }

  /** `better` is a strict total order on candidates with distinct references. */
  lemma BetterIsTotalOrder(v1: int, d1: nat, r1: TxIn, v2: int, d2: nat, r2: TxIn, v3: int, d3: nat, r3: TxIn)
    ensures !(Better(v1, d1, r1, v2, d2, r2) && Better(v2, d2, r2, v1, d1, r1))
    ensures r1 != r2 ==> Better(v1, d1, r1, v2, d2, r2) || Better(v2, d2, r2, v1, d1, r1)
    ensures !Better(v1, d1, r1, v2, d2, r2) && !Better(v2, d2, r2, v3, d3, r3) ==> !Better(v1, d1, r1, v3, d3, r3)
  {
    RefLessTotal(r1, r2, r3);
    if !Better(v1, d1, r1, v2, d2, r2) && !Better(v2, d2, r2, v3, d3, r3) {
      CommonDenominator(v1, d1, v2, d2, v3, d3);
    }
  }

  function Deviation(u: Utxo, c: Class, avg: int): nat {
    if u.Amount(c) >= avg then u.Amount(c) - avg else avg - u.Amount(c)
  }

  function PriorityOrder(c: Class, avg: int): Less<Utxo> {
    (a: Utxo, b: Utxo) =>
      Better(a.Amount(c), Deviation(a, c, avg), a.txin, b.Amount(c), Deviation(b, c, avg), b.txin)
  }

  /** Larger quantity first, ties by reference. */
  function QuantityOrder(c: Class): Less<Utxo> {
    (a: Utxo, b: Utxo) => if a.Amount(c) != b.Amount(c) then a.Amount(c) > b.Amount(c) else RefLess(a.txin, b.txin)
  }

  /** Smaller coin first, ties by reference. */
  function DustOrder(): Less<Utxo> {
    (a: Utxo, b: Utxo) => if a.amount != b.amount then a.amount < b.amount else RefLess(a.txin, b.txin)
  }

  lemma PriorityTotal(c: Class, avg: int, s: set<Utxo>)
    requires UniqueRefs(s)
    ensures TotalOn(PriorityOrder(c, avg), s)
  {
    forall x, y, z | x in s && y in s && z in s
      ensures !(PriorityOrder(c, avg)(x, y) && PriorityOrder(c, avg)(y, x))
      ensures x != y ==> PriorityOrder(c, avg)(x, y) || PriorityOrder(c, avg)(y, x)
      ensures !PriorityOrder(c, avg)(x, y) && !PriorityOrder(c, avg)(y, z) ==> !PriorityOrder(c, avg)(x, z)
    {
      BetterIsTotalOrder(x.Amount(c), Deviation(x, c, avg), x.txin,
                         y.Amount(c), Deviation(y, c, avg), y.txin,
                         z.Amount(c), Deviation(z, c, avg), z.txin);
    }
  }

  lemma QuantityTotal(c: Class, s: set<Utxo>)
    requires UniqueRefs(s)
    ensures TotalOn(QuantityOrder(c), s)
  {
    forall x, y, z | x in s && y in s && z in s
      ensures !(QuantityOrder(c)(x, y) && QuantityOrder(c)(y, x))
      ensures x != y ==> QuantityOrder(c)(x, y) || QuantityOrder(c)(y, x)
      ensures !QuantityOrder(c)(x, y) && !QuantityOrder(c)(y, z) ==> !QuantityOrder(c)(x, z)
    {
      RefLessTotal(x.txin, y.txin, z.txin);
    }
  }

  lemma DustTotal(s: set<Utxo>)
    requires UniqueRefs(s)
    ensures TotalOn(DustOrder(), s)
  {
    forall x, y, z | x in s && y in s && z in s
      ensures !(DustOrder()(x, y) && DustOrder()(y, x))
      ensures x != y ==> DustOrder()(x, y) || DustOrder()(y, x)
      ensures !DustOrder()(x, y) && !DustOrder()(y, z) ==> !DustOrder()(x, z)
    {
      RefLessTotal(x.txin, y.txin, z.txin);
    }
  }

  // ----- one pick -----

  ghost function Holders(s: set<Utxo>, c: Class): set<Utxo> {
    set u | u in s && u.Amount(c) > 0
  }

  /** Candidates that cover the deficit alone. */
  ghost function Closers(s: set<Utxo>, c: Class, deficit: int): set<Utxo> {
    set u | u in s && u.Amount(c) >= deficit
  }

  /** The leftover is nothing, or enough to be emitted as change. */
  predicate LeavesChange(u: Utxo, c: Class, deficit: int, floor: Option<nat>) {
    floor.None? || u.Amount(c) == deficit || u.Amount(c) - deficit >= floor.value
  }

  ghost function CleanClosers(s: set<Utxo>, c: Class, deficit: int, floor: Option<nat>): set<Utxo> {
    set u | u in Closers(s, c, deficit) && LeavesChange(u, c, deficit, floor)
  }

  /** The stateless scan: the best closer that strands no change, else the largest closer,
      else the best-priority holder. */
  ghost predicate IsPick(s: set<Utxo>, c: Class, avg: int, deficit: int, floor: Option<nat>, pick: Option<Utxo>) {
    if CleanClosers(s, c, deficit, floor) != {} then
      pick.Some? && IsTop(PriorityOrder(c, avg), CleanClosers(s, c, deficit, floor), pick.value)
    else if Closers(s, c, deficit) != {} then
      pick.Some? && IsTop(QuantityOrder(c), Closers(s, c, deficit), pick.value)
    else if Holders(s, c) != {} then
      pick.Some? && IsTop(PriorityOrder(c, avg), Holders(s, c), pick.value)
    else
      pick.None?
  }

  ghost function NextPick(s: set<Utxo>, c: Class, avg: int, deficit: int, floor: Option<nat>): (pick: Option<Utxo>)
    requires UniqueRefs(s)
    ensures IsPick(s, c, avg, deficit, floor, pick)
  {
    PriorityTotal(c, avg, s);
    QuantityTotal(c, s);
    TotalSubset(PriorityOrder(c, avg), s, CleanClosers(s, c, deficit, floor));
    TotalSubset(QuantityOrder(c), s, Closers(s, c, deficit));
    TotalSubset(PriorityOrder(c, avg), s, Holders(s, c));
    if CleanClosers(s, c, deficit, floor) != {} then
      Some(Top(PriorityOrder(c, avg), CleanClosers(s, c, deficit, floor)))
    else if Closers(s, c, deficit) != {} then
      Some(Top(QuantityOrder(c), Closers(s, c, deficit)))
    else if Holders(s, c) != {} then
      Some(Top(PriorityOrder(c, avg), Holders(s, c)))
    else
      None
  }

  lemma PickUnique(s: set<Utxo>, c: Class, avg: int, deficit: int, floor: Option<nat>, pick: Option<Utxo>)
    requires UniqueRefs(s) && IsPick(s, c, avg, deficit, floor, pick)
    ensures pick == NextPick(s, c, avg, deficit, floor)
  {
    PriorityTotal(c, avg, s);
    QuantityTotal(c, s);
  }

  // ----- a whole selection -----

  datatype Config = Config(dustThreshold: nat, maxDustInputs: int, minChange: nat)

  /** A selected candidate with the priority terms it was chosen under. */
  datatype Pick = Pick(utxo: Utxo, v: int, dev: nat)

  function PositiveAssets(target: Value): set<Asset> {
    if target.assets.None? then {} else set a | a in target.assets.value && target.assets.value[a] > 0
  }

  lemma AssetTotal(s: set<Asset>)
    ensures TotalOn(AssetOrder(), s)
  {
    forall x, y, z | x in s && y in s && z in s
      ensures !(AssetOrder()(x, y) && AssetOrder()(y, x))
      ensures x != y ==> AssetOrder()(x, y) || AssetOrder()(y, x)
      ensures !AssetOrder()(x, y) && !AssetOrder()(y, z) ==> !AssetOrder()(x, z)
    {
      AssetLessTotal(x, y, z);
    }
  }

  function AssetOrder(): Less<Asset> {
    (a: Asset, b: Asset) => AssetLess(a, b)
  }

  function Tokenise(assets: seq<Asset>): seq<Class> {
    seq(|assets|, i requires 0 <= i < |assets| => Token(assets[i]))
  }

  /** Native assets by policy then name, lovelace last. */
  ghost function TargetClasses(target: Value): (cs: seq<Class>)
    ensures forall c :: c in cs <==> c == Coin || (c.Token? && target.Get(c) > 0)
  {
    AssetTotal(PositiveAssets(target));
    var assets := Ascending(AssetOrder(), PositiveAssets(target));
    var cs := Tokenise(assets) + [Coin];
    assert forall c :: c in cs <==> c == Coin || (c.Token? && target.Get(c) > 0) by {
      forall c: Class ensures c in cs <==> c == Coin || (c.Token? && target.Get(c) > 0) {
        if c.Token? && target.Get(c) > 0 {
          assert c.asset in Elements(assets);
          var i :| 0 <= i < |assets| && assets[i] == c.asset;
          assert cs[i] == c;
        }
        if c in cs && c.Token? {
          var i :| 0 <= i < |cs| && cs[i] == c;
          assert c.asset in Elements(assets);
        }
        assert cs[|assets|] == Coin;
      }
    }
    cs
  }

  /** Position of the first class whose need the selection does not meet. */
  ghost function FirstDeficit(classes: seq<Class>, target: Value, sel: set<Utxo>): (r: Option<nat>)
    ensures r.Some? ==> r.value < |classes| && target.Get(classes[r.value]) > Total(sel, classes[r.value])
    ensures r.Some? ==> forall i :: 0 <= i < r.value ==> target.Get(classes[i]) <= Total(sel, classes[i])
    ensures r.None? ==> forall i :: 0 <= i < |classes| ==> target.Get(classes[i]) <= Total(sel, classes[i])
  {
    if classes == [] then None
    else if target.Get(classes[0]) > Total(sel, classes[0]) then Some(0)
    else match FirstDeficit(classes[1..], target, sel)
      case None => None
      case Some(i) => Some(i + 1)
  }

  lemma {:induction false} FirstDeficitIs(classes: seq<Class>, target: Value, sel: set<Utxo>, r: Option<nat>)
    requires r.Some? ==> r.value < |classes| && target.Get(classes[r.value]) > Total(sel, classes[r.value])
    requires r.Some? ==> forall i :: 0 <= i < r.value ==> target.Get(classes[i]) <= Total(sel, classes[i])
    requires r.None? ==> forall i :: 0 <= i < |classes| ==> target.Get(classes[i]) <= Total(sel, classes[i])
    ensures FirstDeficit(classes, target, sel) == r
  {
    var f := FirstDeficit(classes, target, sel);
    if f.Some? && r.Some? {
      assert !(f.value < r.value) && !(r.value < f.value);
    }
  }

  ghost function Average(pool: set<Utxo>, c: Class): int {
    if pool == {} then 0 else Total(pool, c) / |pool|
  }

  /** The change floor applies to lovelace only, and a zero `MinChange` means none. */
  function Floor(config: Config, c: Class): Option<nat> {
    if c == Coin && config.minChange > 0 then Some(config.minChange) else None
  }

  datatype Decision = Covered | Stuck | Take(pick: Pick)

  /** What a round does about the class it finds deficient. */
  ghost function DecideFor(rest: set<Utxo>, c: Class, avg: int, deficit: int, floor: Option<nat>): (d: Decision)
    requires UniqueRefs(rest)
    ensures d.Take? ==> d.pick.utxo in rest
  {
    match NextPick(rest, c, avg, deficit, floor)
    case None => Stuck
    case Some(u) => Take(Pick(u, u.Amount(c), Deviation(u, c, avg)))
  }

  ghost function DecideIn(config: Config, pool: set<Utxo>, target: Value, sel: set<Utxo>, c: Class): (d: Decision)
    requires UniqueRefs(pool) && sel <= pool
    ensures d.Take? ==> d.pick.utxo in pool - sel
    ensures !d.Covered?
  {
    DecideFor(pool - sel, c, Average(pool, c), target.Get(c) - Total(sel, c), Floor(config, c))
  }

  /** What one round does with the current selection. */
  ghost function Decide(config: Config, pool: set<Utxo>, target: Value, sel: set<Utxo>): (d: Decision)
    requires UniqueRefs(pool) && sel <= pool
    ensures d.Take? ==> d.pick.utxo in pool - sel
  {
    var classes := TargetClasses(target);
    match FirstDeficit(classes, target, sel)
    case None => Covered
    case Some(i) => DecideIn(config, pool, target, sel, classes[i])
  }

  /** The decision once the first deficient class is known. */
  lemma DecideAt(config: Config, pool: set<Utxo>, target: Value, sel: set<Utxo>, i: nat)
    requires UniqueRefs(pool) && sel <= pool && FirstDeficit(TargetClasses(target), target, sel) == Some(i)
    ensures Decide(config, pool, target, sel) == DecideIn(config, pool, target, sel, TargetClasses(target)[i])
  {
  }

  lemma TakeShrinks(pool: set<Utxo>, sel: set<Utxo>, u: Utxo)
    requires u in pool - sel
    ensures |pool - (sel + {u})| < |pool - sel|
  {
    assert pool - (sel + {u}) == pool - sel - {u};
  }

  ghost function SelectFrom(config: Config, pool: set<Utxo>, target: Value, sel: set<Utxo>, picks: seq<Pick>)
    : Option<seq<Pick>>
    requires UniqueRefs(pool) && sel <= pool
    decreases |pool - sel|
  {
    match Decide(config, pool, target, sel)
    case Covered => Some(picks)
    case Stuck => None
    case Take(p) =>
      TakeShrinks(pool, sel, p.utxo);
      SelectFrom(config, pool, target, sel + {p.utxo}, picks + [p])
  }

  // ----- pruning -----

  function PruneOrder(): Less<Pick> {
    (p: Pick, q: Pick) => Better(q.v, q.dev, q.utxo.txin, p.v, p.dev, p.utxo.txin)
  }

  function PickedUtxos(picks: seq<Pick>): (us: seq<Utxo>)
    ensures |us| == |picks| && forall i :: 0 <= i < |us| ==> us[i] == picks[i].utxo
  {
    seq(|picks|, i requires 0 <= i < |picks| => picks[i].utxo)
  }

  ghost predicate Covers(s: set<Utxo>, classes: seq<Class>, target: Value) {
    forall c :: c in classes ==> Total(s, c) >= target.Get(c)
  }

  ghost predicate Redundant(kept: set<Utxo>, u: Utxo, classes: seq<Class>, target: Value) {
    forall c :: c in classes ==> Total(kept, c) - u.Amount(c) >= target.Get(c)
  }

  ghost function PruneFold(order: seq<Pick>, kept: set<Utxo>, classes: seq<Class>, target: Value): set<Utxo> {
    if order == [] then kept
    else
      var u := order[0].utxo;
      PruneFold(order[1..], if Redundant(kept, u, classes, target) then kept - {u} else kept, classes, target)
  }

  ghost function Prune(picks: seq<Pick>, classes: seq<Class>, target: Value): set<Utxo> {
    if |picks| < 2 then Elements(PickedUtxos(picks))
    else PruneFold(SortBy(picks, PruneOrder()), Elements(PickedUtxos(picks)), classes, target)
  }

  /** The kept picks in the order they were picked. */
  function Retain(picks: seq<Pick>, kept: set<Utxo>): (us: seq<Utxo>)
    ensures forall u :: u in us <==> u in PickedUtxos(picks) && u in kept
  {
    if picks == [] then []
    else
      var n := |picks| - 1;
      assert PickedUtxos(picks) == PickedUtxos(picks[..n]) + [picks[n].utxo];
      Retain(picks[..n], kept) + if picks[n].utxo in kept then [picks[n].utxo] else []
  }

  // ----- the dust sweep -----

  ghost function Dust(config: Config, pool: set<Utxo>, kept: set<Utxo>): set<Utxo> {
    set u | u in pool && u !in kept && u.amount < config.dustThreshold && u.assets.None?
  }

  function Min(a: int, b: int): int {
    if a < b then a else b
  }

  ghost function Swept(config: Config, pool: set<Utxo>, kept: set<Utxo>): seq<Utxo>
    requires UniqueRefs(pool)
  {
    if config.dustThreshold == 0 || config.maxDustInputs <= 0 || kept == {} then []
    else
      var dust := Dust(config, pool, kept);
      DustTotal(pool);
      TotalSubset(DustOrder(), pool, dust);
      var order := Ascending(DustOrder(), dust);
      order[..Min(|order|, config.maxDustInputs)]
  }

  /** The result of `MACSSelector.Select`. */
  ghost function Selection(config: Config, pool: set<Utxo>, target: Value): Result<seq<Utxo>>
    requires UniqueRefs(pool)
  {
    if target.coin == 0 && !target.HasAssets() then
      Ok([])
    else if exists u :: u in pool && !u.ValidAmount() then
      Err(InvalidAmount)
    else
      match SelectFrom(config, pool, target, {}, [])
      case None => Err(Insufficient)
      case Some(picks) =>
        var kept := Prune(picks, TargetClasses(target), target);
        Ok(Retain(picks, kept) + Swept(config, pool, kept))
  }
}
