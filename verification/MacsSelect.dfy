/** `MACSSelector.Select`: the picking loop, the pruning pass and the dust sweep (macs.go). */
module MacsSelect {
  import opened Orders
  import opened Wrappers
  import opened Ledger
  import opened MacsSpec
  import opened MacsSelector
  import MacsProperties

  /** `macsTargetClasses`. The keys come in no particular order and are then sorted. */
  method ClassesOf(target: Value) returns (classes: seq<Class>)
    ensures classes == TargetClasses(target)
  {
    var assets: seq<Asset> := [];
    var todo := PositiveAssets(target);
    while todo != {}
      invariant todo <= PositiveAssets(target) && Distinct(assets)
      invariant Elements(assets) == PositiveAssets(target) - todo
    {
      var a :| a in todo;
      assert a !in assets by { assert a in assets ==> a in Elements(assets); }
      assert Elements(assets + [a]) == Elements(assets) + {a};
      todo := todo - {a};
      assets := assets + [a];
    }
    AssetTotal(Elements(assets));
    SortByIsAscending(assets, AssetOrder());
    classes := Tokenise(SortBy(assets, AssetOrder())) + [Coin];
  }

  /** What is still missing of each class, given what has been selected. */
  ghost predicate RemainingIs(remaining: Value, target: Value, sel: set<Utxo>) {
    forall c :: c in TargetClasses(target) ==>
                  remaining.Get(c) == if target.Get(c) > Total(sel, c) then target.Get(c) - Total(sel, c) else 0
  }

  /** `macsFirstDeficit`. */
  method FirstDeficitOf(remaining: Value, classes: seq<Class>, ghost target: Value, ghost sel: set<Utxo>)
    returns (r: Option<nat>)
    requires classes == TargetClasses(target) && RemainingIs(remaining, target, sel)
    ensures r == FirstDeficit(classes, target, sel)
    ensures r.Some? ==> remaining.Get(classes[r.value]) > 0
  {
    for i := 0 to |classes|
      invariant forall k :: 0 <= k < i ==> target.Get(classes[k]) <= Total(sel, classes[k])
    {
      assert classes[i] in classes;
      if remaining.Get(classes[i]) > 0 {
        FirstDeficitIs(classes, target, sel, Some(i));
        return Some(i);
      }
    }
    FirstDeficitIs(classes, target, sel, None);
    r := None;
  }

  /** Takes a pick's amounts off what remains, never below zero. */
  method Deduct(remaining: Value, u: Utxo, ghost target: Value, ghost sel: set<Utxo>) returns (r: Value)
    requires RemainingIs(remaining, target, sel) && u !in sel && u.ValidAmount()
    ensures RemainingIs(r, target, sel + {u})
  {
    var coin := if remaining.coin <= u.amount then 0 else remaining.coin - u.amount;
    var assets := remaining.assets;
    if assets.Some? && u.assets.Some? {
      var left := SubtractSaturating(assets.value, u.assets.value);
      assets := Some(left);
    }
    r := Value(coin, assets);
    forall c | c in TargetClasses(target)
      ensures r.Get(c) == if target.Get(c) > Total(sel + {u}, c) then target.Get(c) - Total(sel + {u}, c) else 0
    {
      TotalAdd(sel, u, c);
      assert remaining.Get(c) == if target.Get(c) > Total(sel, c) then target.Get(c) - Total(sel, c) else 0;
    }
  }

  /** The views of all classes (`macsClassViews`). */
  method ClassViews(pool: seq<Utxo>, classes: seq<Class>) returns (views: seq<ClassView>)
    requires DistinctRefs(pool) && forall u :: u in pool ==> u.ValidAmount()
    ensures |views| == |classes| && fresh(views)
    ensures forall i, j :: 0 <= i < j < |views| ==> views[i] != views[j]
    ensures forall i :: 0 <= i < |views| ==> ViewOf(views[i], pool, classes[i])
    ensures forall i :: 0 <= i < |views| ==> views[i].Valid(seq(|pool|, _ => false))
  {
    views := [];
    for k := 0 to |classes|
      invariant |views| == k && fresh(views)
      invariant forall i, j :: 0 <= i < j < |views| ==> views[i] != views[j]
      invariant forall i :: 0 <= i < k ==> ViewOf(views[i], pool, classes[i])
      invariant forall i :: 0 <= i < k ==> views[i].Valid(seq(|pool|, _ => false))
    {
      var view := new ClassView(pool, classes[k]);
      views := views + [view];
    }
  }

  ghost predicate ViewOf(view: ClassView, pool: seq<Utxo>, c: Class) {
    view.pool == pool && view.cls == c && view.avg == Average(Elements(pool), c)
  }

  /** Selecting one more candidate takes exactly it out of the unselected ones. */
  lemma UnselectedAfter(pool: seq<Utxo>, selected: seq<bool>, i: nat)
    requires DistinctRefs(pool) && |selected| == |pool| && i < |pool| && !selected[i]
    ensures Unselected(pool, selected[i := true]) == Unselected(pool, selected) - {pool[i]}
  {
    assert forall k :: 0 <= k < |pool| && k != i ==> pool[k].txin != pool[i].txin;
  }

  /** Everything the picking loop maintains. */
  ghost predicate Progress(config: Config, pool: seq<Utxo>, target: Value, selected: seq<bool>, sel: set<Utxo>,
                           picks: seq<Pick>)
    requires UniqueRefs(Elements(pool))
  {
    && |selected| == |pool|
    && sel <= Elements(pool)
    && Unselected(pool, selected) == Elements(pool) - sel
    && SelectFrom(config, Elements(pool), target, sel, picks) == SelectFrom(config, Elements(pool), target, {}, [])
  }

  lemma TakeStep(config: Config, pool: seq<Utxo>, target: Value, selected: seq<bool>, sel: set<Utxo>,
                 picks: seq<Pick>, p: Pick, i: nat)
    requires DistinctRefs(pool) && UniqueRefs(Elements(pool)) && Progress(config, pool, target, selected, sel, picks)
    requires Decide(config, Elements(pool), target, sel) == Take(p)
    requires i < |pool| && pool[i] == p.utxo && !selected[i]
    ensures p.utxo !in sel
    ensures Progress(config, pool, target, selected[i := true], sel + {p.utxo}, picks + [p])
  {
    UnselectedAfter(pool, selected, i);
    assert p.utxo in Elements(pool) - sel;
    assert Elements(pool) - (sel + {p.utxo}) == Elements(pool) - sel - {p.utxo};
  }

  ghost predicate ViewsValid(views: seq<ClassView>, pool: seq<Utxo>, classes: seq<Class>, selected: seq<bool>)
    reads views
  {
    && |views| == |classes|
    && (forall i, j :: 0 <= i < j < |views| ==> views[i] != views[j])
    && (forall i :: 0 <= i < |views| ==> ViewOf(views[i], pool, classes[i]) && views[i].Valid(selected))
  }

  /** One round of the picking loop, up to the choice of a candidate. */
  method Round(config: Config, pool: seq<Utxo>, target: Value, classes: seq<Class>, views: seq<ClassView>,
               selected: seq<bool>, remaining: Value, ghost sel: set<Utxo>)
    returns (d: Decision, index: nat)
    requires UniqueRefs(Elements(pool)) && sel <= Elements(pool) && |selected| == |pool|
    requires Unselected(pool, selected) == Elements(pool) - sel
    requires classes == TargetClasses(target) && RemainingIs(remaining, target, sel)
    requires ViewsValid(views, pool, classes, selected)
    modifies views
    ensures ViewsValid(views, pool, classes, selected)
    ensures d == Decide(config, Elements(pool), target, sel)
    ensures d.Take? ==> index < |pool| && !selected[index] && pool[index] == d.pick.utxo
  {
    var first := FirstDeficitOf(remaining, classes, target, sel);
    if first.None? {
      return Covered, 0;
    }
    var i := first.value;
    var c := classes[i];
    assert c in classes;
    d, index := Choose(views[i], selected, remaining.Get(c), Floor(config, c));
    DecideAt(config, Elements(pool), target, sel, i);
  }

  /** The pick of one view, with the terms it is recorded under. */
  method Choose(view: ClassView, selected: seq<bool>, deficit: nat, floor: Option<nat>)
    returns (d: Decision, index: nat)
    requires view.Valid(selected) && deficit > 0 && UniqueRefs(Unselected(view.pool, selected))
    modifies view
    ensures view.Valid(selected)
    ensures d == DecideFor(Unselected(view.pool, selected), view.cls, view.avg, deficit, floor)
    ensures d.Take? ==> index < |view.pool| && !selected[index] && view.pool[index] == d.pick.utxo
  {
    var next := view.Next(selected, deficit, floor);
    PickUnique(Unselected(view.pool, selected), view.cls, view.avg, deficit, floor,
               if next.None? then None else Some(view.pool[next.value]));
    if next.None? {
      return Stuck, 0;
    }
    index := next.value;
    PickTerms(view, index, selected, deficit, floor);
    d := Take(Pick(view.pool[index], view.vals[index], view.devs[index]));
  }

  lemma ViewsValidAfter(views: seq<ClassView>, pool: seq<Utxo>, classes: seq<Class>, selected: seq<bool>, i: nat)
    requires ViewsValid(views, pool, classes, selected) && i < |selected|
    ensures ViewsValid(views, pool, classes, selected[i := true])
  {
    forall k | 0 <= k < |views| ensures views[k].Valid(selected[i := true]) {
      views[k].ValidAfterSelecting(selected, i);
    }
  }

  /** Picks until no class is deficient, or a deficient class has no unselected holder. */
  method PickAll(config: Config, pool: seq<Utxo>, target: Value, classes: seq<Class>) returns (r: Option<seq<Pick>>)
    requires DistinctRefs(pool) && UniqueRefs(Elements(pool)) && forall u :: u in pool ==> u.ValidAmount()
    requires classes == TargetClasses(target)
    ensures r == SelectFrom(config, Elements(pool), target, {}, [])
  {
    var views := ClassViews(pool, classes);
    var selected := seq(|pool|, _ => false);
    var remaining := target;
    var picks: seq<Pick> := [];
    ghost var sel: set<Utxo> := {};
    assert Unselected(pool, selected) == Elements(pool);
    while true
      invariant fresh(views)
      invariant Progress(config, pool, target, selected, sel, picks)
      invariant RemainingIs(remaining, target, sel)
      invariant ViewsValid(views, pool, classes, selected)
      decreases |Elements(pool) - sel|
    {
      var d, index := Round(config, pool, target, classes, views, selected, remaining, sel);
      match d {
        case Covered => return Some(picks);
        case Stuck => return None;
        case Take(p) =>
          TakeStep(config, pool, target, selected, sel, picks, p, index);
          TakeShrinks(Elements(pool), sel, p.utxo);
          ViewsValidAfter(views, pool, classes, selected, index);
          assert p.utxo in pool;
          remaining := Deduct(remaining, p.utxo, target, sel);
          selected := selected[index := true];
          picks := picks + [p];
          sel := sel + {p.utxo};
      }
    }
  }

  /** The terms recorded for a pick are its priority terms. */
  lemma PickTerms(view: ClassView, i: nat, selected: seq<bool>, deficit: nat, floor: Option<nat>)
    requires view.Valid(selected) && i < |view.pool| && deficit > 0
    requires IsPick(Unselected(view.pool, selected), view.cls, view.avg, deficit, floor, Some(view.pool[i]))
    ensures view.vals[i] == view.pool[i].Amount(view.cls)
    ensures view.devs[i] == Deviation(view.pool[i], view.cls, view.avg)
  {
    assert view.vals[i] > 0;
  }

  // ----- pruning and sweeping -----

  /** The running totals over the classes are those of the picks not pruned so far. */
  ghost predicate SumsOf(sums: seq<int>, classes: seq<Class>, kept: set<Utxo>) {
    |sums| == |classes| && forall k :: 0 <= k < |classes| ==> sums[k] == Total(kept, classes[k])
  }

  method SumsOfAll(us: seq<Utxo>, classes: seq<Class>) returns (sums: array<int>)
    requires Distinct(us)
    ensures fresh(sums) && SumsOf(sums[..], classes, Elements(us))
  {
    sums := new int[|classes|];
    for k := 0 to |classes|
      invariant forall l :: 0 <= l < k ==> sums[l] == Total(Elements(us), classes[l])
    {
      sums[k] := Sum(us, classes[k]);
      SumIsTotal(us, classes[k]);
    }
  }

  method TakeFromSums(sums: array<int>, classes: seq<Class>, u: Utxo, ghost kept: set<Utxo>)
    requires SumsOf(sums[..], classes, kept) && u in kept
    modifies sums
    ensures SumsOf(sums[..], classes, kept - {u})
  {
    for k := 0 to |classes|
      invariant forall l :: 0 <= l < |classes| ==>
                              sums[l] == if l < k then Total(kept - {u}, classes[l]) else Total(kept, classes[l])
    {
      TotalRemove(kept, u, classes[k]);
      sums[k] := sums[k] - u.Amount(classes[k]);
    }
  }

  /** `macsPruneRedundant`: per-class sums shrink in place as picks are dropped. */
  method PruneRedundant(picks: seq<Pick>, classes: seq<Class>, target: Value) returns (kept: set<Utxo>)
    requires Distinct(PickedUtxos(picks))
    ensures kept == Prune(picks, classes, target)
  {
    var us := PickedUtxos(picks);
    kept := Elements(us);
    if |picks| < 2 {
      return;
    }
    var sums := SumsOfAll(us, classes);
    var order := SortBy(picks, PruneOrder());
    MacsProperties.PickedUtxosPermutation(picks, order);
    ghost var all := kept;
    for n := 0 to |order|
      invariant SumsOf(sums[..], classes, kept)
      invariant Elements(PickedUtxos(order[n..])) <= kept
      invariant PruneFold(order[n..], kept, classes, target) == PruneFold(order, all, classes, target)
    {
      var u := order[n].utxo;
      PickedTail(order, n);
      var redundant := IsRedundant(sums, classes, target, u, kept);
      assert order[n..][0] == order[n] && order[n..][1..] == order[n + 1..];
      if redundant {
        TakeFromSums(sums, classes, u, kept);
        kept := kept - {u};
      }
    }
    assert order[|order|..] == [];
    assert order[0..] == order;
  }

  /** Distinct picks: the one at the front does not come back later in the order. */
  lemma PickedTail(order: seq<Pick>, n: nat)
    requires n < |order| && Distinct(PickedUtxos(order))
    ensures order[n].utxo in Elements(PickedUtxos(order[n..]))
    ensures Elements(PickedUtxos(order[n + 1..])) == Elements(PickedUtxos(order[n..])) - {order[n].utxo}
  {
    var here, rest := PickedUtxos(order[n..]), PickedUtxos(order[n + 1..]);
    assert here == [order[n].utxo] + rest;
    forall k | 0 <= k < |rest| ensures rest[k] != order[n].utxo {
      assert PickedUtxos(order)[n] != PickedUtxos(order)[n + 1 + k];
    }
  }

  method IsRedundant(sums: array<int>, classes: seq<Class>, target: Value, u: Utxo, ghost kept: set<Utxo>)
    returns (redundant: bool)
    requires SumsOf(sums[..], classes, kept)
    ensures redundant == Redundant(kept, u, classes, target)
  {
    for k := 0 to |classes|
      invariant forall l :: 0 <= l < k ==> Total(kept, classes[l]) - u.Amount(classes[l]) >= target.Get(classes[l])
    {
      assert sums[..][k] == Total(kept, classes[k]);
      if sums[k] - u.Amount(classes[k]) < target.Get(classes[k]) {
        assert classes[k] in classes;
        return false;
      }
    }
    redundant := true;
  }

  /** `sweepDust`. */
  method SweepDust(config: Config, result: seq<Utxo>, pool: seq<Utxo>, kept: set<Utxo>) returns (r: seq<Utxo>)
    requires DistinctRefs(pool) && UniqueRefs(Elements(pool))
    requires Elements(result) == kept
    ensures r == result + Swept(config, Elements(pool), kept)
  {
    if config.dustThreshold == 0 || config.maxDustInputs <= 0 || |result| == 0 {
      if |result| != 0 {
        assert result[0] in Elements(result);
      }
      return result;
    }
    assert result[0] in Elements(result);
    var dust: seq<Utxo> := [];
    for i := 0 to |pool|
      invariant forall u :: u in dust <==>
                            u in pool[..i] && u !in kept && u.amount < config.dustThreshold && u.assets.None?
      invariant Distinct(dust)
    {
      var u := pool[i];
      assert pool[..i + 1] == pool[..i] + [u];
      assert u !in pool[..i] by {
        assert forall k :: 0 <= k < i ==> pool[k].txin != pool[i].txin;
      }
      if u in kept || u.amount >= config.dustThreshold || u.assets.Some? {
        continue;
      }
      dust := dust + [u];
    }
    assert pool[..|pool|] == pool;
    assert Elements(dust) == Dust(config, Elements(pool), kept);
    DustTotal(Elements(pool));
    TotalSubset(DustOrder(), Elements(pool), Elements(dust));
    SortByIsAscending(dust, DustOrder());
    var order := SortBy(dust, DustOrder());
    r := result + order[..Min(|order|, config.maxDustInputs)];
  }

  /** `MACSSelector.Select` on a pool with distinct references. */
  method Select(config: Config, available: seq<Utxo>, target: Value) returns (r: Result<seq<Utxo>>)
    requires DistinctRefs(available)
    ensures UniqueRefs(Elements(available)) && r == Selection(config, Elements(available), target)
  {
    DistinctRefsUnique(available);
    if target.coin == 0 && !target.HasAssets() {
      return Ok([]);
    }
    for i := 0 to |available|
      invariant forall k :: 0 <= k < i ==> available[k].ValidAmount()
    {
      if !available[i].ValidAmount() {
        assert available[i] in Elements(available);
        return Err(InvalidAmount);
      }
    }
    assert forall u :: u in Elements(available) ==> u.ValidAmount();
    var classes := ClassesOf(target);
    var picked := PickAll(config, available, target, classes);
    if picked.None? {
      return Err(Insufficient);
    }
    var picks := picked.value;
    PickedAreDistinct(config, Elements(available), target);
    var kept := PruneRedundant(picks, classes, target);
    var result := Retain(picks, kept);
    MacsProperties.RetainKeeps(picks, kept);
    var swept := SweepDust(config, result, available, kept);
    r := Ok(swept);
  }

  lemma PickedAreDistinct(config: Config, pool: set<Utxo>, target: Value)
    requires UniqueRefs(pool) && (forall u :: u in pool ==> u.ValidAmount())
    requires target.coin > 0 || target.HasAssets()
    requires SelectFrom(config, pool, target, {}, []).Some?
    ensures var picks := SelectFrom(config, pool, target, {}, []).value;
            Distinct(PickedUtxos(picks)) &&
            Prune(picks, TargetClasses(target), target) <= Elements(PickedUtxos(picks))
  {
    assert MacsProperties.Picked(pool, {}, []);
    MacsProperties.SelectFromOutcome(config, pool, target, {}, []);
    MacsProperties.TargetHasClass(target);
    MacsProperties.PruneSound(SelectFrom(config, pool, target, {}, []).value, TargetClasses(target), target);
  }
}
