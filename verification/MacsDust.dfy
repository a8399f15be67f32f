/** When the dust sweep brings back a pick that pruning dropped (macs.go). */
module MacsDust {
  import opened Wrappers
  import opened Orders
  import opened Ledger
  import opened MacsSpec
  import MacsProperties

  // ----- the exact condition -----

  /** The elements of `s` before `x`. */
  ghost function Preceding<T(!new)>(less: Less<T>, s: set<T>, x: T): set<T> {
    set y | y in s && less(y, x)
  }

  /** An element's position in the ascending listing counts those before it. */
  lemma {:induction false} AscendingRank<T(!new)>(less: Less<T>, s: set<T>, i: nat)
    requires TotalOn(less, s) && i < |Ascending(less, s)|
    ensures |Preceding(less, s, Ascending(less, s)[i])| == i
    decreases i
  {
    var top := Top(less, s);
    var rest := s - {top};
    var x := Ascending(less, s)[i];
    assert forall y :: y in rest ==> less(top, y) && !less(y, top);
    if i == 0 {
      assert Preceding(less, s, x) == {};
    } else {
      assert x == Ascending(less, rest)[i - 1];
      assert x in Elements(Ascending(less, rest));
      AscendingRank(less, rest, i - 1);
      PrecedingTop(less, s, top, x);
    }
  }

  lemma PrecedingTop<T(!new)>(less: Less<T>, s: set<T>, top: T, x: T)
    requires top in s && less(top, x)
    ensures |Preceding(less, s, x)| == |Preceding(less, s - {top}, x)| + 1
  {
    assert Preceding(less, s, x) == Preceding(less, s - {top}, x) + {top};
  }

  /** An unkept UTxO is swept exactly when it is ADA-only, below the threshold, and fewer than
      `MaxDustInputs` others come before it. */
  lemma SweptIff(config: Config, pool: set<Utxo>, kept: set<Utxo>, u: Utxo)
    requires UniqueRefs(pool) && AmountsNonNegative(pool) && kept != {} && u in pool && u !in kept
    ensures u in Swept(config, pool, kept) <==>
              && u.assets.None? && u.amount < config.dustThreshold
              && |Preceding(DustOrder(), Dust(config, pool, kept), u)| < config.maxDustInputs
  {
    var dust := Dust(config, pool, kept);
    DustTotal(pool);
    TotalSubset(DustOrder(), pool, dust);
    var order := Ascending(DustOrder(), dust);
    if u in dust && config.maxDustInputs > 0 {
      assert u in Elements(order);
      var i :| 0 <= i < |order| && order[i] == u;
      AscendingRank(DustOrder(), dust, i);
      MacsProperties.AscendingSorted(DustOrder(), dust);
      assert u in order[..Min(|order|, config.maxDustInputs)] <==> i < config.maxDustInputs;
    } else if u in Swept(config, pool, kept) {
      MacsProperties.SweptSound(config, pool, kept);
    }
  }

  /** So for a pick that pruning dropped. */
  lemma PrunedPickReturnsIff(config: Config, pool: set<Utxo>, target: Value, picks: seq<Pick>, p: Pick)
    requires UniqueRefs(pool) && AmountsNonNegative(pool) && p in picks
    requires MacsProperties.Picked(pool, Elements(PickedUtxos(picks)), picks)
    requires var kept := Prune(picks, TargetClasses(target), target); kept != {} && p.utxo !in kept
    ensures var kept := Prune(picks, TargetClasses(target), target);
            p.utxo in Swept(config, pool, kept) <==>
              && p.utxo.assets.None? && p.utxo.amount < config.dustThreshold
              && |Preceding(DustOrder(), Dust(config, pool, kept), p.utxo)| < config.maxDustInputs
  {
    var i :| 0 <= i < |picks| && picks[i] == p;
    assert PickedUtxos(picks)[i] in Elements(PickedUtxos(picks));
    SweptIff(config, pool, Prune(picks, TargetClasses(target), target), p.utxo);
  }

  // ----- a pick that returns -----

  /** A pool of three ADA-only UTxOs of 10, 11 and 11 lovelace under different references. */
  predicate Example(pool: set<Utxo>, small: Utxo, one: Utxo, other: Utxo) {
    && pool == {small, one, other} && UniqueRefs(pool)
    && small.amount == 10 && one.amount == 11 && other.amount == 11
    && small.assets.None? && one.assets.None? && other.assets.None?
    && small.txin != one.txin && small.txin != other.txin && one.txin != other.txin
  }

  const TARGET := SimpleValue(22)
  const CONFIG := Config(11, 1, 0)

  lemma PoolTotals(pool: set<Utxo>, small: Utxo, one: Utxo, other: Utxo)
    requires Example(pool, small, one, other)
    ensures Total({small}, Coin) == 10 && Total({one}, Coin) == 11 && Total({other}, Coin) == 11
    ensures Total({small, one}, Coin) == 21 && Total({one, other}, Coin) == 22 && Total(pool, Coin) == 32
  {
    TotalAdd({}, small, Coin);
    TotalAdd({}, one, Coin);
    TotalAdd({}, other, Coin);
    assert {} + {small} == {small} && {} + {one} == {one} && {} + {other} == {other};
    TotalAdd({small}, one, Coin);
    TotalAdd({one}, other, Coin);
    assert {small} + {one} == {small, one} && {one} + {other} == {one, other};
    TotalAdd({one, other}, small, Coin);
    assert {one, other} + {small} == pool;
  }

  lemma OnlyLovelaceWanted()
    ensures TargetClasses(TARGET) == [Coin]
  {
    assert PositiveAssets(TARGET) == {};
  }

  /** One round wants the lovelace the selection lacks. */
  lemma RoundPicks(pool: set<Utxo>, sel: set<Utxo>, u: Utxo)
    requires UniqueRefs(pool) && sel <= pool && Total(sel, Coin) < 22
    requires NextPick(pool - sel, Coin, Average(pool, Coin), 22 - Total(sel, Coin), None) == Some(u)
    ensures Decide(CONFIG, pool, TARGET, sel) ==
            Take(Pick(u, u.amount, Deviation(u, Coin, Average(pool, Coin))))
  {
    OnlyLovelaceWanted();
    assert TARGET.Get([Coin][0]) == 22;
    FirstDeficitIs([Coin], TARGET, sel, Some(0));
    DecideAt(CONFIG, pool, TARGET, sel, 0);
    assert Floor(CONFIG, Coin) == None && u.Amount(Coin) == u.amount;
  }

  /** The first pick is the small one: it alone sits at the pool's average. */
  lemma SmallIsPickedFirst(pool: set<Utxo>, small: Utxo, one: Utxo, other: Utxo)
    requires Example(pool, small, one, other)
    ensures Decide(CONFIG, pool, TARGET, {}) == Take(Pick(small, 10, 0))
  {
    PoolTotals(pool, small, one, other);
    assert pool - {} == pool && |pool| == 3 && Average(pool, Coin) == 10;
    assert Closers(pool, Coin, 22) == {} && CleanClosers(pool, Coin, 22, None) == {};
    assert small in Holders(pool, Coin);
    assert IsTop(PriorityOrder(Coin, 10), Holders(pool, Coin), small);
    PickUnique(pool, Coin, 10, 22, None, Some(small));
    RoundPicks(pool, {}, small);
  }

  /** Next comes one of the two others. */
  lemma ThenAnother(pool: set<Utxo>, small: Utxo, one: Utxo, other: Utxo) returns (x: Utxo)
    requires Example(pool, small, one, other)
    ensures x in {one, other}
    ensures Decide(CONFIG, pool, TARGET, {small}) == Take(Pick(x, 11, 1))
  {
    PoolTotals(pool, small, one, other);
    assert |pool| == 3 && Average(pool, Coin) == 10;
    var rest := pool - {small};
    assert rest == {one, other};
    assert Closers(rest, Coin, 12) == {} && CleanClosers(rest, Coin, 12, None) == {};
    assert one in Holders(rest, Coin);
    x := NextPick(rest, Coin, 10, 12, None).value;
    RoundPicks(pool, {small}, x);
  }

  /** Then the last, and the target is covered. */
  lemma ThenTheLast(pool: set<Utxo>, small: Utxo, x: Utxo, y: Utxo)
    requires Example(pool, small, x, y)
    ensures Decide(CONFIG, pool, TARGET, {small, x}) == Take(Pick(y, 11, 1))
    ensures Decide(CONFIG, pool, TARGET, pool) == Covered
  {
    PoolTotals(pool, small, x, y);
    OnlyLovelaceWanted();
    assert |pool| == 3 && Average(pool, Coin) == 10;
    var last := pool - {small, x};
    assert last == {y};
    assert y in CleanClosers(last, Coin, 1, None);
    assert NextPick(last, Coin, 10, 1, None).value in last;
    RoundPicks(pool, {small, x}, y);
  }

  lemma SmallIsPicked(pool: set<Utxo>, small: Utxo, one: Utxo, other: Utxo) returns (picks: seq<Pick>)
    requires Example(pool, small, one, other)
    ensures SelectFrom(CONFIG, pool, TARGET, {}, []) == Some(picks)
    ensures |picks| == 3 && picks[0].utxo == small
    ensures Elements(PickedUtxos(picks)) == pool && Distinct(PickedUtxos(picks))
  {
    SmallIsPickedFirst(pool, small, one, other);
    var x := ThenAnother(pool, small, one, other);
    var y := if x == one then other else one;
    assert {small, x, y} == pool && {x, y} == {one, other};
    ThenTheLast(pool, small, x, y);
    var p, q, r := Pick(small, 10, 0), Pick(x, 11, 1), Pick(y, 11, 1);
    picks := [p, q, r];
    ThreeRounds(pool, p, q, r);
    ThreePicks(p, q, r);
  }

  lemma ThreeRounds(pool: set<Utxo>, p: Pick, q: Pick, r: Pick)
    requires UniqueRefs(pool) && pool == {p.utxo, q.utxo, r.utxo}
    requires Decide(CONFIG, pool, TARGET, {}) == Take(p) && Decide(CONFIG, pool, TARGET, {p.utxo}) == Take(q)
    requires Decide(CONFIG, pool, TARGET, {p.utxo, q.utxo}) == Take(r) && Decide(CONFIG, pool, TARGET, pool) == Covered
    ensures SelectFrom(CONFIG, pool, TARGET, {}, []) == Some([p, q, r])
  {
    assert {} + {p.utxo} == {p.utxo} && {p.utxo} + {q.utxo} == {p.utxo, q.utxo};
    assert {p.utxo, q.utxo} + {r.utxo} == pool;
    assert [] + [p] == [p] && [p] + [q] == [p, q] && [p, q] + [r] == [p, q, r];
    RoundTakes(pool, {}, [], p);
    RoundTakes(pool, {p.utxo}, [p], q);
    RoundTakes(pool, {p.utxo, q.utxo}, [p, q], r);
    CoveredStops(pool, [p, q, r]);
  }

  lemma CoveredStops(pool: set<Utxo>, picks: seq<Pick>)
    requires UniqueRefs(pool) && Decide(CONFIG, pool, TARGET, pool) == Covered
    ensures SelectFrom(CONFIG, pool, TARGET, pool, picks) == Some(picks)
  {
  }

  lemma ThreePicks(p: Pick, q: Pick, r: Pick)
    requires p.utxo != q.utxo && p.utxo != r.utxo && q.utxo != r.utxo
    ensures Elements(PickedUtxos([p, q, r])) == {p.utxo, q.utxo, r.utxo} && Distinct(PickedUtxos([p, q, r]))
  {
    assert PickedUtxos([p, q, r]) == [p.utxo, q.utxo, r.utxo];
  }

  /** One round of the picking. */
  lemma RoundTakes(pool: set<Utxo>, sel: set<Utxo>, picks: seq<Pick>, p: Pick)
    requires UniqueRefs(pool) && sel <= pool && Decide(CONFIG, pool, TARGET, sel) == Take(p)
    ensures SelectFrom(CONFIG, pool, TARGET, sel, picks) ==
            SelectFrom(CONFIG, pool, TARGET, sel + {p.utxo}, picks + [p])
  {
  }

  /** Whatever covers the target covers it without the small one. */
  lemma SmallIsNeedless(pool: set<Utxo>, small: Utxo, one: Utxo, other: Utxo, kept: set<Utxo>)
    requires Example(pool, small, one, other) && kept <= pool && small in kept
    requires Total(kept, Coin) >= 22
    ensures Total(kept - {small}, Coin) == 22
  {
    PoolTotals(pool, small, one, other);
    TotalRemove(kept, small, Coin);
    assert one in kept by {
      if one !in kept { TotalMonotone(kept - {small}, {other}, Coin); }
    }
    assert other in kept by {
      if other !in kept { TotalMonotone(kept - {small}, {one}, Coin); }
    }
    assert kept - {small} == {one, other};
  }

  /** What is swept is part of the selection. */
  lemma SweptIsSelected(pool: set<Utxo>, picks: seq<Pick>, kept: set<Utxo>, u: Utxo)
    requires UniqueRefs(pool) && forall w :: w in pool ==> w.ValidAmount()
    requires SelectFrom(CONFIG, pool, TARGET, {}, []) == Some(picks)
    requires kept == Prune(picks, TargetClasses(TARGET), TARGET) && u in Swept(CONFIG, pool, kept)
    ensures Selection(CONFIG, pool, TARGET).Ok? && u in Selection(CONFIG, pool, TARGET).value
  {
    assert Selection(CONFIG, pool, TARGET) == Ok(Retain(picks, kept) + Swept(CONFIG, pool, kept));
  }

  lemma SmallIsSwept(pool: set<Utxo>, small: Utxo, one: Utxo, other: Utxo, kept: set<Utxo>)
    requires Example(pool, small, one, other) && kept != {} && small !in kept
    ensures small in Swept(CONFIG, pool, kept)
  {
    RefLessTotal(small.txin, small.txin, small.txin);
    assert Preceding(DustOrder(), Dust(CONFIG, pool, kept), small) == {};
    SweptIff(CONFIG, pool, kept, small);
  }

  lemma SmallIsPruned(pool: set<Utxo>, small: Utxo, one: Utxo, other: Utxo, picks: seq<Pick>) returns (kept: set<Utxo>)
    requires Example(pool, small, one, other)
    requires Elements(PickedUtxos(picks)) == pool && Distinct(PickedUtxos(picks))
    ensures kept == Prune(picks, TargetClasses(TARGET), TARGET) && kept != {} && small !in kept
  {
    OnlyLovelaceWanted();
    PoolTotals(pool, small, one, other);
    assert Coin in [Coin] && TARGET.Get(Coin) == 22 && Total({}, Coin) == 0;
    MacsProperties.PruneSound(picks, [Coin], TARGET);
    kept := Prune(picks, [Coin], TARGET);
    if small in kept {
      SmallIsNeedless(pool, small, one, other, kept);
    }
  }

  /** Pruning drops the small one, and the sweep finds it. */
  lemma SmallReturns(pool: set<Utxo>, small: Utxo, one: Utxo, other: Utxo, picks: seq<Pick>) returns (kept: set<Utxo>)
    requires Example(pool, small, one, other)
    requires Elements(PickedUtxos(picks)) == pool && Distinct(PickedUtxos(picks))
    ensures kept == Prune(picks, TargetClasses(TARGET), TARGET)
    ensures small !in kept && small in Swept(CONFIG, pool, kept)
  {
    kept := SmallIsPruned(pool, small, one, other, picks);
    SmallIsSwept(pool, small, one, other, kept);
  }

  lemma ExampleIsOrdinary(pool: set<Utxo>, small: Utxo, one: Utxo, other: Utxo)
    requires Example(pool, small, one, other)
    ensures UniqueRefs(pool) && forall u :: u in pool ==> u.ValidAmount()
  {
  }

  /** A pool and a target where it happens: 10 is picked first, 11 and 11 then cover 22 without
      it, pruning drops it, and the sweep appends it again. */
  lemma PrunedPickReturns(pool: set<Utxo>, small: Utxo, one: Utxo, other: Utxo) returns (picks: seq<Pick>)
    requires Example(pool, small, one, other)
    ensures SelectFrom(CONFIG, pool, TARGET, {}, []) == Some(picks)
    ensures |picks| == 3 && picks[0].utxo == small && small !in Prune(picks, TargetClasses(TARGET), TARGET)
    ensures Selection(CONFIG, pool, TARGET).Ok? && small in Selection(CONFIG, pool, TARGET).value
  {
    picks := SmallIsPicked(pool, small, one, other);
    var kept := SmallReturns(pool, small, one, other, picks);
    ExampleIsOrdinary(pool, small, one, other);
    SweptIsSelected(pool, picks, kept, small);
  }
}
