/** Properties of every MACS selection. */
module MacsProperties {
  import opened Orders
  import opened Wrappers
  import opened Ledger
  import opened MacsSpec

  /** What the picks of a selection in progress satisfy. */
  ghost predicate Picked(pool: set<Utxo>, sel: set<Utxo>, picks: seq<Pick>) {
    && sel <= pool
    && Elements(PickedUtxos(picks)) == sel
    && Distinct(PickedUtxos(picks))
  }

  lemma PickedExtend(pool: set<Utxo>, sel: set<Utxo>, picks: seq<Pick>, p: Pick)
    requires Picked(pool, sel, picks) && p.utxo in pool && p.utxo !in sel
    ensures Picked(pool, sel + {p.utxo}, picks + [p])
  {
    assert PickedUtxos(picks + [p]) == PickedUtxos(picks) + [p.utxo];
  }

  /** Some class of the target is out of reach of the whole pool. */
  ghost predicate Short(pool: set<Utxo>, target: Value) {
    exists c :: c in TargetClasses(target) && Total(pool, c) < target.Get(c)
  }

  lemma DecideMeaning(config: Config, pool: set<Utxo>, target: Value, sel: set<Utxo>)
    requires UniqueRefs(pool) && AmountsNonNegative(pool) && sel <= pool
    ensures Decide(config, pool, target, sel).Covered? ==>
              Covers(sel, TargetClasses(target), target) && !Short(pool, target)
    ensures Decide(config, pool, target, sel).Stuck? ==> Short(pool, target)
  {
    var classes := TargetClasses(target);
    match FirstDeficit(classes, target, sel)
    case None =>
      forall c | c in classes ensures Total(pool, c) >= Total(sel, c) >= target.Get(c) {
        TotalMonotone(sel, pool, c);
      }
    case Some(i) =>
      var c := classes[i];
      var pick := NextPick(pool - sel, c, Average(pool, c), target.Get(c) - Total(sel, c), Floor(config, c));
      if pick.None? {
        NothingHeldNothingAdded(pool, sel, c);
        assert c in classes && Total(pool, c) < target.Get(c);
      }
  }

  /** Picking never gives up while the pool still holds a deficient class, and stops only
      once every class is covered. */
  lemma {:induction false} SelectFromOutcome(config: Config, pool: set<Utxo>, target: Value, sel: set<Utxo>,
                                             picks: seq<Pick>)
    requires UniqueRefs(pool) && AmountsNonNegative(pool) && Picked(pool, sel, picks)
    ensures var r := SelectFrom(config, pool, target, sel, picks);
            && (r.None? <==> Short(pool, target))
            && (r.Some? ==> picks <= r.value)
            && (r.Some? ==> Picked(pool, Elements(PickedUtxos(r.value)), r.value) &&
                            Covers(Elements(PickedUtxos(r.value)), TargetClasses(target), target))
    decreases |pool - sel|
  {
    DecideMeaning(config, pool, target, sel);
    var d := Decide(config, pool, target, sel);
    if d.Take? {
      TakeShrinks(pool, sel, d.pick.utxo);
      PickedExtend(pool, sel, picks, d.pick);
      SelectFromOutcome(config, pool, target, sel + {d.pick.utxo}, picks + [d.pick]);
      assert picks <= picks + [d.pick];
    }
  }

  /** When nothing unselected holds a class, the selection already has all of it. */
  lemma {:induction false} NothingHeldNothingAdded(pool: set<Utxo>, sel: set<Utxo>, c: Class)
    requires sel <= pool && AmountsNonNegative(pool) && Holders(pool - sel, c) == {}
    ensures Total(pool, c) == Total(sel, c)
    decreases pool
  {
    if u :| u in pool && u !in sel {
      assert u !in Holders(pool - sel, c);
      TotalRemove(pool, u, c);
      assert Holders(pool - {u} - sel, c) <= Holders(pool - sel, c);
      NothingHeldNothingAdded(pool - {u}, sel, c);
    } else {
      assert pool == sel;
    }
  }

  // ----- pruning -----

  /** Removing an element from the smaller set breaks whatever it breaks in the larger one. */
  lemma NeededStaysNeeded(big: set<Utxo>, small: set<Utxo>, u: Utxo, classes: seq<Class>, target: Value)
    requires small <= big && AmountsNonNegative(big) && !Redundant(big, u, classes, target)
    ensures !Redundant(small, u, classes, target)
  {
    var c :| c in classes && Total(big, c) - u.Amount(c) < target.Get(c);
    TotalMonotone(small, big, c);
  }

  /** A single pass, worst priority first, leaves a cover from which nothing can be dropped. */
  lemma {:induction false} PruneFoldSound(order: seq<Pick>, kept: set<Utxo>, classes: seq<Class>, target: Value)
    requires AmountsNonNegative(kept) && Covers(kept, classes, target)
    requires Elements(PickedUtxos(order)) <= kept && Distinct(PickedUtxos(order))
    ensures var r := PruneFold(order, kept, classes, target);
            && r <= kept
            && Covers(r, classes, target)
            && (forall u :: u in r && (u in PickedUtxos(order) || !Redundant(kept, u, classes, target)) ==>
                  !Redundant(r, u, classes, target))
  {
    if order != [] {
      var u := order[0].utxo;
      var next := if Redundant(kept, u, classes, target) then kept - {u} else kept;
      var rest := order[1..];
      assert PickedUtxos(order) == [u] + PickedUtxos(rest);
      assert u in Elements(PickedUtxos(order));
      if Redundant(kept, u, classes, target) {
        forall c | c in classes ensures Total(next, c) >= target.Get(c) {
          TotalRemove(kept, u, c);
        }
      }
      assert u !in PickedUtxos(rest) by {
        assert forall k :: 1 <= k < |PickedUtxos(order)| ==> PickedUtxos(order)[0] != PickedUtxos(order)[k];
      }
      assert Elements(PickedUtxos(rest)) <= next;
      PruneFoldSound(rest, next, classes, target);
      forall w | w in next && !Redundant(kept, w, classes, target) ensures !Redundant(next, w, classes, target) {
        NeededStaysNeeded(kept, next, w, classes, target);
      }
    }
  }

  lemma PickedUtxosPermutation(picks: seq<Pick>, order: seq<Pick>)
    requires multiset(picks) == multiset(order) && Distinct(PickedUtxos(picks))
    ensures Distinct(PickedUtxos(order)) && Elements(PickedUtxos(order)) == Elements(PickedUtxos(picks))
  {
    var us, ws := PickedUtxos(picks), PickedUtxos(order);
    assert Distinct(picks) by {
      forall i, j | 0 <= i < j < |picks| ensures picks[i] != picks[j] {
        assert us[i] != us[j];
      }
    }
    DistinctByMultiset(picks, order);
    SameMultisetSameElements(picks, order);
    forall p ensures p in order <==> p in picks {
      assert p in Elements(order) <==> p in Elements(picks);
    }
    forall i, j | 0 <= i < j < |order| ensures ws[i] != ws[j] {
      assert order[i] in picks && order[j] in picks;
      var k :| 0 <= k < |picks| && picks[k] == order[i];
      var l :| 0 <= l < |picks| && picks[l] == order[j];
      assert us[k] == ws[i] && us[l] == ws[j] && k != l;
    }
    forall u ensures u in us <==> u in ws {
      if u in us {
        var k :| 0 <= k < |us| && us[k] == u;
        assert picks[k] in order;
        var l :| 0 <= l < |order| && order[l] == picks[k];
        assert ws[l] == u;
      }
      if u in ws {
        var k :| 0 <= k < |ws| && ws[k] == u;
        assert order[k] in picks;
        var l :| 0 <= l < |picks| && picks[l] == order[k];
        assert us[l] == u;
      }
    }
  }

  /** Dropping any element of the cover leaves some class short. */
  ghost predicate Minimal(s: set<Utxo>, classes: seq<Class>, target: Value) {
    forall u :: u in s ==> !Covers(s - {u}, classes, target)
  }

  lemma NotRedundantIsNeeded(s: set<Utxo>, u: Utxo, classes: seq<Class>, target: Value)
    requires u in s
    ensures Redundant(s, u, classes, target) <==> Covers(s - {u}, classes, target)
  {
    forall c | c in classes ensures Total(s, c) - u.Amount(c) == Total(s - {u}, c) {
      TotalRemove(s, u, c);
    }
  }

  lemma PruneSound(picks: seq<Pick>, classes: seq<Class>, target: Value)
    requires var s := Elements(PickedUtxos(picks));
             AmountsNonNegative(s) && Covers(s, classes, target) && Distinct(PickedUtxos(picks))
    requires exists c :: c in classes && target.Get(c) > 0
    ensures var kept := Prune(picks, classes, target);
            kept <= Elements(PickedUtxos(picks)) && Covers(kept, classes, target) && Minimal(kept, classes, target)
  {
    var s := Elements(PickedUtxos(picks));
    var kept := Prune(picks, classes, target);
    if |picks| < 2 {
      forall u | u in s ensures !Covers(s - {u}, classes, target) {
        assert s - {u} == {};
        var c :| c in classes && target.Get(c) > 0;
        assert Total({}, c) == 0;
      }
    } else {
      var order := SortBy(picks, PruneOrder());
      PickedUtxosPermutation(picks, order);
      PruneFoldSound(order, s, classes, target);
      forall u | u in kept ensures !Covers(kept - {u}, classes, target) {
        assert u in Elements(PickedUtxos(order));
        NotRedundantIsNeeded(kept, u, classes, target);
      }
    }
  }

  lemma {:induction false} RetainKeeps(picks: seq<Pick>, kept: set<Utxo>)
    requires Distinct(PickedUtxos(picks))
    ensures Distinct(Retain(picks, kept))
    ensures kept <= Elements(PickedUtxos(picks)) ==> Elements(Retain(picks, kept)) == kept
  {
    if picks != [] {
      var n := |picks| - 1;
      assert PickedUtxos(picks) == PickedUtxos(picks[..n]) + [picks[n].utxo];
      RetainKeeps(picks[..n], kept);
      assert picks[n].utxo !in PickedUtxos(picks[..n]) by {
        assert forall k :: 0 <= k < n ==> PickedUtxos(picks)[k] != PickedUtxos(picks)[n];
      }
    }
  }

  // ----- the main results -----

  /** A successful selection is a minimal cover followed by a bounded sweep of the smallest
      ADA-only dust that was not kept. */
  ghost predicate CoverThenDust(config: Config, pool: set<Utxo>, target: Value, kept: seq<Utxo>, swept: seq<Utxo>) {
    && Distinct(kept + swept)
    && Elements(kept + swept) <= pool
    && Covers(Elements(kept), TargetClasses(target), target)
    && Minimal(Elements(kept), TargetClasses(target), target)
    && |swept| <= (if config.maxDustInputs > 0 then config.maxDustInputs else 0)
    && (forall u :: u in swept ==> u.assets.None? && u.amount < config.dustThreshold)
    && (forall u, w :: u in swept && w in Dust(config, pool, Elements(kept)) && w !in swept ==> DustOrder()(u, w))
  }

  ghost predicate SoundSelection(config: Config, pool: set<Utxo>, target: Value, result: seq<Utxo>) {
    exists kept, swept :: result == kept + swept && CoverThenDust(config, pool, target, kept, swept)
  }

  lemma TargetHasClass(target: Value)
    requires target.coin > 0 || target.HasAssets()
    ensures exists c :: c in TargetClasses(target) && target.Get(c) > 0
  {
    if target.coin > 0 {
      assert Coin in TargetClasses(target) && target.Get(Coin) > 0;
    } else {
      var a :| a in target.assets.value && target.assets.value[a] > 0;
      assert Token(a) in TargetClasses(target) && target.Get(Token(a)) > 0;
    }
  }

  lemma SweptSound(config: Config, pool: set<Utxo>, kept: set<Utxo>)
    requires UniqueRefs(pool)
    ensures var swept := Swept(config, pool, kept);
            && Distinct(swept)
            && |swept| <= (if config.maxDustInputs > 0 then config.maxDustInputs else 0)
            && (forall u :: u in swept ==> u in Dust(config, pool, kept))
            && (swept == [] || forall u, w :: u in swept && w in Dust(config, pool, kept) && w !in swept ==>
                                                DustOrder()(u, w))
  {
    if !(config.dustThreshold == 0 || config.maxDustInputs <= 0 || kept == {}) {
      var dust := Dust(config, pool, kept);
      DustTotal(pool);
      TotalSubset(DustOrder(), pool, dust);
      var order := Ascending(DustOrder(), dust);
      AscendingSorted(DustOrder(), dust);
      var n := Min(|order|, config.maxDustInputs);
      forall u | u in order[..n] ensures u in dust {
        assert u in Elements(order);
      }
      forall u, w | u in order[..n] && w in dust && w !in order[..n] ensures DustOrder()(u, w) {
        assert w in Elements(order);
        var j :| 0 <= j < |order| && order[j] == w;
        assert j >= n;
      }
    }
  }

  lemma {:induction false} AscendingSorted<T(!new)>(less: Less<T>, s: set<T>)
    requires TotalOn(less, s)
    ensures StrictlySorted(less, Ascending(less, s))
    ensures Distinct(Ascending(less, s))
  {
    if s != {} {
      var x := Top(less, s);
      AscendingSorted(less, s - {x});
      var t := Ascending(less, s - {x});
      forall k | 0 <= k < |t| ensures less(x, t[k]) && t[k] != x {
        assert t[k] in Elements(t);
      }
    }
  }

  lemma FinishSound(config: Config, pool: set<Utxo>, target: Value, picks: seq<Pick>)
    requires UniqueRefs(pool) && AmountsNonNegative(pool) && (target.coin > 0 || target.HasAssets())
    requires var s := Elements(PickedUtxos(picks));
             Picked(pool, s, picks) && Covers(s, TargetClasses(target), target)
    ensures var kept := Prune(picks, TargetClasses(target), target);
            CoverThenDust(config, pool, target, Retain(picks, kept), Swept(config, pool, kept))
  {
    var classes := TargetClasses(target);
    TargetHasClass(target);
    PruneSound(picks, classes, target);
    var keptSet := Prune(picks, classes, target);
    RetainKeeps(picks, keptSet);
    SweptSound(config, pool, keptSet);
    KeptThenSwept(pool, Retain(picks, keptSet), Swept(config, pool, keptSet));
  }

  lemma KeptThenSwept(pool: set<Utxo>, kept: seq<Utxo>, swept: seq<Utxo>)
    requires Distinct(kept) && Distinct(swept) && Elements(kept) <= pool
    requires forall u :: u in swept ==> u in pool && u !in Elements(kept)
    ensures Distinct(kept + swept) && Elements(kept + swept) <= pool
  {
    forall i, j | 0 <= i < |kept| && 0 <= j < |swept| ensures kept[i] != swept[j] {
      assert kept[i] in Elements(kept) && swept[j] in swept;
    }
    forall u | u in kept + swept ensures u in pool {
      assert u in Elements(kept) || u in swept;
    }
  }

  /** Whenever MACS succeeds on a pool with distinct references, its result is sound. */
  lemma SelectionIsSound(config: Config, pool: set<Utxo>, target: Value)
    requires UniqueRefs(pool) && Selection(config, pool, target).Ok?
    ensures target.coin == 0 && !target.HasAssets() ==> Selection(config, pool, target).value == []
    ensures target.coin > 0 || target.HasAssets() ==>
              SoundSelection(config, pool, target, Selection(config, pool, target).value)
  {
    if target.coin > 0 || target.HasAssets() {
      assert AmountsNonNegative(pool);
      assert Picked(pool, {}, []);
      SelectFromOutcome(config, pool, target, {}, []);
      FinishSound(config, pool, target, SelectFrom(config, pool, target, {}, []).value);
    }
  }

  /** MACS reports insufficiency exactly when the pool is short of some class. */
  lemma InsufficientIffShort(config: Config, pool: set<Utxo>, target: Value)
    requires UniqueRefs(pool) && forall u :: u in pool ==> u.ValidAmount()
    ensures Selection(config, pool, target) == Err(Insufficient) <==> Short(pool, target)
    ensures Selection(config, pool, target).Err? ==> Selection(config, pool, target) == Err(Insufficient)
  {
    assert Picked(pool, {}, []);
    SelectFromOutcome(config, pool, target, {}, []);
    if target.coin == 0 && !target.HasAssets() {
      forall c | c in TargetClasses(target) ensures Total(pool, c) >= target.Get(c) {
        assert c == Coin;
        TotalMonotone({}, pool, c);
      }
    }
  }
}
