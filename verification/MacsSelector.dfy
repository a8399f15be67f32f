/** The MACS algorithm as it runs: cached per-class terms, orders built on demand, cursors
    that only move forward, a pruning pass over running sums, and the dust sweep (macs.go). */
module MacsSelector {
  import opened Orders
  import opened Wrappers
  import opened Ledger
  import opened MacsSpec

  ghost function Unselected(pool: seq<Utxo>, selected: seq<bool>): set<Utxo>
    requires |selected| == |pool|
  {
    set i | 0 <= i < |pool| && !selected[i] :: pool[i]
  }

  /** A newcomer either takes the top or leaves it where it is. */
  lemma TopExtend<T(!new)>(less: Less<T>, s: set<T>, x: T, y: T)
    requires TotalOn(less, s + {y}) && IsTop(less, s, x) && y !in s
    ensures IsTop(less, s + {y}, if less(y, x) then y else x)
  {
    if less(y, x) {
      forall z | z in s && z != x ensures less(y, z) {
        assert !less(z, x) && !less(x, y);
        assert !less(z, y);
      }
    }
  }

  /** `best` and `largest` are the answers over the candidates seen so far. */
  ghost predicate ScanState(c: Class, avg: int, deficit: int, floor: Option<nat>, seen: set<Utxo>,
                            best: Option<Utxo>, largest: Option<Utxo>)
  {
    && (if best.None? then CleanClosers(seen, c, deficit, floor) == {}
        else IsTop(PriorityOrder(c, avg), CleanClosers(seen, c, deficit, floor), best.value))
    && (if largest.None? then Closers(seen, c, deficit) == {}
        else IsTop(QuantityOrder(c), Closers(seen, c, deficit), largest.value))
  }

  lemma ScanStep(c: Class, avg: int, deficit: int, floor: Option<nat>, seen: set<Utxo>, best: Option<Utxo>,
                 largest: Option<Utxo>, u: Utxo, best': Option<Utxo>, largest': Option<Utxo>)
    requires ScanState(c, avg, deficit, floor, seen, best, largest)
    requires u !in seen && UniqueRefs(seen + {u})
    requires largest' == if u.Amount(c) < deficit then largest
                         else if largest.None? || QuantityOrder(c)(u, largest.value) then Some(u) else largest
    requires best' == if u.Amount(c) < deficit || !LeavesChange(u, c, deficit, floor) then best
                      else if best.None? || PriorityOrder(c, avg)(u, best.value) then Some(u) else best
    ensures ScanState(c, avg, deficit, floor, seen + {u}, best', largest')
  {
    var closers, clean := Closers(seen, c, deficit), CleanClosers(seen, c, deficit, floor);
    if u.Amount(c) < deficit {
      assert Closers(seen + {u}, c, deficit) == closers;
    } else {
      assert Closers(seen + {u}, c, deficit) == closers + {u};
      QuantityTotal(c, seen + {u});
      TotalSubset(QuantityOrder(c), seen + {u}, closers + {u});
      if largest.Some? {
        TopExtend(QuantityOrder(c), closers, largest.value, u);
      }
    }
    if u.Amount(c) < deficit || !LeavesChange(u, c, deficit, floor) {
      assert CleanClosers(seen + {u}, c, deficit, floor) == clean;
    } else {
      assert CleanClosers(seen + {u}, c, deficit, floor) == clean + {u};
      PriorityTotal(c, avg, seen + {u});
      TotalSubset(PriorityOrder(c, avg), seen + {u}, clean + {u});
      if best.Some? {
        TopExtend(PriorityOrder(c, avg), clean, best.value, u);
      }
    }
  }

  /** One asset class's view of the pool. */
  class ClassView {
    const pool: seq<Utxo>
    const cls: Class
    ghost const avg: int
    const vals: seq<nat>
    const devs: seq<nat>
    const held: seq<nat>
    const poolMax: nat
    var byPriority: Option<seq<nat>>
    var byValue: Option<seq<nat>>
    var prioCur: nat
    var valCur: nat

    /** The constant terms agree with the pool. */
    ghost predicate Terms() {
      && DistinctRefs(pool)
      && |vals| == |devs| == |pool|
      && (forall i :: 0 <= i < |pool| ==> vals[i] == pool[i].Amount(cls) && vals[i] <= poolMax)
      && (forall i :: 0 <= i < |pool| && vals[i] > 0 ==> devs[i] == Deviation(pool[i], cls, avg))
      && Distinct(held)
      && (forall k :: 0 <= k < |held| ==> held[k] < |pool| && vals[held[k]] > 0)
      && (forall i: nat :: i < |pool| && vals[i] > 0 ==> i in held)
    }

    function ByPriority(): Less<nat> {
      (x: nat, y: nat) =>
        x < |pool| && y < |pool| && |vals| == |devs| == |pool| &&
        Better(vals[x], devs[x], pool[x].txin, vals[y], devs[y], pool[y].txin)
    }

    function ByQuantity(): Less<nat> {
      (x: nat, y: nat) =>
        x < |pool| && y < |pool| && |vals| == |pool| &&
        (if vals[x] != vals[y] then vals[x] > vals[y] else RefLess(pool[x].txin, pool[y].txin))
    }

    ghost predicate OrderOfHeld(less: Less<nat>, order: seq<nat>) {
      Elements(order) == Elements(held) && StrictlySorted(less, order)
    }

    /** Cursors have passed selected candidates only, along orders that list every holder. */
    ghost predicate Valid(selected: seq<bool>)
      reads this
    {
      && Terms()
      && |selected| == |pool|
      && CursorValid(selected, ByPriority(), byPriority, prioCur)
      && CursorValid(selected, ByQuantity(), byValue, valCur)
    }

    ghost predicate CursorValid(selected: seq<bool>, less: Less<nat>, order: Option<seq<nat>>, cursor: nat) {
      if order.None? then cursor == 0
      else
        && OrderOfHeld(less, order.value)
        && cursor <= |order.value|
        && forall k :: 0 <= k < cursor ==> order.value[k] < |selected| && selected[order.value[k]]
    }

    /** Reads every amount of the class once (`macsClassViews`). */
    constructor (pool: seq<Utxo>, cls: Class)
      requires DistinctRefs(pool) && forall u :: u in pool ==> u.ValidAmount()
      ensures this.pool == pool && this.cls == cls && avg == Average(Elements(pool), cls)
      ensures forall selected: seq<bool> :: |selected| == |pool| ==> Valid(selected)
    {
      var vs, sum, max := Quantities(pool, cls);
      var mean: nat := if |pool| > 0 then sum / |pool| else 0;
      MeanIsAverage(pool, cls);
      var ds, hs := Deviations(vs, mean);
      this.pool, this.cls, this.avg := pool, cls, mean;
      this.vals, this.devs, this.held, this.poolMax := vs, ds, hs, max;
      byPriority, byValue, prioCur, valCur := None, None, 0, 0;
      new;
      forall k | 0 <= k < |held| ensures held[k] < |pool| && vals[held[k]] > 0 {
        assert held[k] in held;
      }
      assert Terms();
      NoOrderIsValid();
    }

    static lemma MeanIsAverage(pool: seq<Utxo>, cls: Class)
      requires DistinctRefs(pool)
      ensures Average(Elements(pool), cls) == if |pool| > 0 then Sum(pool, cls) / |pool| else 0
    {
      DistinctRefsUnique(pool);
      SumIsTotal(pool, cls);
      DistinctCount(pool);
    }

    lemma NoOrderIsValid()
      requires Terms() && byPriority.None? && byValue.None? && prioCur == valCur == 0
      ensures forall selected: seq<bool> :: |selected| == |pool| ==> Valid(selected)
    {
    }

    static method Quantities(pool: seq<Utxo>, cls: Class) returns (vs: seq<nat>, sum: nat, max: nat)
      requires forall u :: u in pool ==> u.ValidAmount()
      ensures |vs| == |pool| && sum == Sum(pool, cls)
      ensures forall i :: 0 <= i < |pool| ==> vs[i] == pool[i].Amount(cls) && vs[i] <= max
    {
      vs, sum, max := [], 0, 0;
      for j := 0 to |pool|
        invariant |vs| == j && sum == Sum(pool[..j], cls)
        invariant forall i :: 0 <= i < j ==> vs[i] == pool[i].Amount(cls) && vs[i] <= max
      {
        assert pool[..j + 1][..j] == pool[..j];
        assert pool[j] in pool;
        var v: nat := pool[j].Amount(cls);
        vs := vs + [v];
        sum := sum + v;
        if v > max {
          max := v;
        }
      }
      assert pool[..|pool|] == pool;
    }

    static method Deviations(vs: seq<nat>, mean: nat) returns (ds: seq<nat>, hs: seq<nat>)
      ensures |ds| == |vs| && Distinct(hs)
      ensures forall i :: 0 <= i < |vs| && vs[i] > 0 ==> ds[i] == if vs[i] >= mean then vs[i] - mean else mean - vs[i]
      ensures forall i: int :: i in hs <==> 0 <= i < |vs| && vs[i] > 0
    {
      ds, hs := [], [];
      for j := 0 to |vs|
        invariant |ds| == j && Distinct(hs)
        invariant forall i :: 0 <= i < j && vs[i] > 0 ==> ds[i] == if vs[i] >= mean then vs[i] - mean else mean - vs[i]
        invariant forall i: int :: i in hs <==> 0 <= i < j && vs[i] > 0
      {
        if vs[j] > 0 {
          ds := ds + [if vs[j] >= mean then vs[j] - mean else mean - vs[j]];
          hs := hs + [j];
        } else {
          ds := ds + [0];
        }
      }
    }

    lemma HeldTotal()
      requires Terms()
      ensures TotalOn(ByPriority(), Elements(held)) && TotalOn(ByQuantity(), Elements(held))
    {
      PriorityHeldTotal();
      QuantityHeldTotal();
    }

    lemma PriorityHeldTotal()
      requires Terms()
      ensures TotalOn(ByPriority(), Elements(held))
    {
      forall x, y, z | x in held && y in held && z in held
        ensures !(ByPriority()(x, y) && ByPriority()(y, x))
        ensures x != y ==> ByPriority()(x, y) || ByPriority()(y, x)
        ensures !ByPriority()(x, y) && !ByPriority()(y, z) ==> !ByPriority()(x, z)
      {
        HeldPriorities(x, y, z);
      }
    }

    lemma QuantityHeldTotal()
      requires Terms()
      ensures TotalOn(ByQuantity(), Elements(held))
    {
      forall x, y, z | x in held && y in held && z in held
        ensures !(ByQuantity()(x, y) && ByQuantity()(y, x))
        ensures x != y ==> ByQuantity()(x, y) || ByQuantity()(y, x)
        ensures !ByQuantity()(x, y) && !ByQuantity()(y, z) ==> !ByQuantity()(x, z)
      {
        HeldQuantities(x, y, z);
      }
    }

    lemma HeldPriorities(x: nat, y: nat, z: nat)
      requires Terms() && x in held && y in held && z in held
      ensures !(ByPriority()(x, y) && ByPriority()(y, x))
      ensures x != y ==> ByPriority()(x, y) || ByPriority()(y, x)
      ensures !ByPriority()(x, y) && !ByPriority()(y, z) ==> !ByPriority()(x, z)
    {
      assert x != y ==> pool[x].txin != pool[y].txin;
      BetterIsTotalOrder(vals[x], devs[x], pool[x].txin, vals[y], devs[y], pool[y].txin,
                         vals[z], devs[z], pool[z].txin);
    }

    lemma HeldQuantities(x: nat, y: nat, z: nat)
      requires Terms() && x in held && y in held && z in held
      ensures !(ByQuantity()(x, y) && ByQuantity()(y, x))
      ensures x != y ==> ByQuantity()(x, y) || ByQuantity()(y, x)
      ensures !ByQuantity()(x, y) && !ByQuantity()(y, z) ==> !ByQuantity()(x, z)
    {
      assert x != y ==> pool[x].txin != pool[y].txin;
      RefLessTotal(pool[x].txin, pool[y].txin, pool[z].txin);
    }

    /** `orderHeld`. */
    method OrderHeld(less: Less<nat>) returns (order: seq<nat>)
      requires Terms() && TotalOn(less, Elements(held))
      ensures OrderOfHeld(less, order)
    {
      order := SortBy(held, less);
      SortByStrict(held, less);
    }

    /** Moves a cursor past selected candidates. */
    method Advance(selected: seq<bool>, order: seq<nat>, cursor: nat, less: Less<nat>) returns (moved: nat)
      requires Terms() && |selected| == |pool| && CursorValid(selected, less, Some(order), cursor)
      ensures CursorValid(selected, less, Some(order), moved)
      ensures moved < |order| ==> order[moved] in held && !selected[order[moved]]
      ensures forall k :: moved < k < |order| ==> less(order[moved], order[k])
    {
      moved := cursor;
      assert forall k :: 0 <= k < |order| ==> order[k] in Elements(order);
      while moved < |order| && selected[order[moved]]
        invariant cursor <= moved <= |order|
        invariant forall k :: 0 <= k < moved ==> selected[order[k]]
      {
        moved := moved + 1;
      }
    }

    /** `availableMax`: an upper bound on what an unselected candidate holds, attained once
        the class has been ordered by quantity. */
    method AvailableMax(selected: seq<bool>) returns (m: nat)
      requires Valid(selected)
      modifies this`valCur
      ensures Valid(selected)
      ensures forall i :: 0 <= i < |pool| && !selected[i] ==> vals[i] <= m
      ensures byValue.Some? && m > 0 ==> exists i :: 0 <= i < |pool| && !selected[i] && vals[i] == m
    {
      if byValue.None? {
        return poolMax;
      }
      var order := byValue.value;
      var moved := Advance(selected, order, valCur, ByQuantity());
      valCur := moved;
      forall i | 0 <= i < |pool| && !selected[i] && vals[i] > 0
        ensures moved < |order| && vals[i] <= vals[order[moved]]
      {
        assert i in Elements(order);
        var k :| 0 <= k < |order| && order[k] == i;
        assert k >= moved;
      }
      if moved >= |order| {
        return 0;
      }
      m := vals[order[moved]];
    }

    ghost function At(r: Option<nat>): Option<Utxo> {
      if r.Some? && r.value < |pool| then Some(pool[r.value]) else None
    }

    /** The unselected candidates among the first `k` holders. */
    ghost function Seen(selected: seq<bool>, k: nat): set<Utxo>
      requires Terms() && |selected| == |pool| && k <= |held|
    {
      if k == 0 then {}
      else Seen(selected, k - 1) + if selected[held[k - 1]] then {} else {pool[held[k - 1]]}
    }

    lemma {:induction false} SeenMeaning(selected: seq<bool>, k: nat)
      requires Terms() && |selected| == |pool| && k <= |held|
      ensures forall u :: u in Seen(selected, k) <==> exists m :: 0 <= m < k && !selected[held[m]] && pool[held[m]] == u
    {
      if k > 0 {
        SeenMeaning(selected, k - 1);
      }
    }

    lemma SeenIsNew(selected: seq<bool>, k: nat)
      requires Terms() && |selected| == |pool| && k < |held|
      ensures pool[held[k]] !in Seen(selected, k) && Seen(selected, k) <= Elements(pool)
    {
      SeenMeaning(selected, k);
      assert forall m :: 0 <= m < k ==> held[m] != held[k];
    }

    /** The scan of `next`: the best closer that strands no change, and the largest closer. */
    method Scan(selected: seq<bool>, deficit: nat, floor: Option<nat>) returns (best: Option<nat>, largest: Option<nat>)
      requires Terms() && |selected| == |pool| && deficit > 0
      ensures forall r :: r == best || r == largest ==> r.Some? ==> r.value < |pool| && !selected[r.value]
      ensures ScanState(cls, avg, deficit, floor, Unselected(pool, selected), At(best), At(largest))
    {
      best, largest := None, None;
      for k := 0 to |held|
        invariant forall r :: r == best || r == largest ==> r.Some? ==>
                              r.value < |pool| && !selected[r.value] && vals[r.value] > 0
        invariant ScanState(cls, avg, deficit, floor, Seen(selected, k), At(best), At(largest))
      {
        if selected[held[k]] {
          assert Seen(selected, k + 1) == Seen(selected, k);
          continue;
        }
        SeenIsNew(selected, k);
        best, largest := Consider(held[k], deficit, floor, best, largest, Seen(selected, k));
      }
      ScanComplete(selected, deficit, floor);
    }

    /** One candidate of the scan. */
    method Consider(idx: nat, deficit: nat, floor: Option<nat>, best: Option<nat>, largest: Option<nat>,
                    ghost seen: set<Utxo>)
      returns (best': Option<nat>, largest': Option<nat>)
      requires Terms() && idx < |pool| && vals[idx] > 0 && pool[idx] !in seen && seen <= Elements(pool)
      requires forall r :: r == best || r == largest ==> r.Some? ==> r.value < |pool| && vals[r.value] > 0
      requires ScanState(cls, avg, deficit, floor, seen, At(best), At(largest))
      ensures best' == best || best' == Some(idx)
      ensures largest' == largest || largest' == Some(idx)
      ensures ScanState(cls, avg, deficit, floor, seen + {pool[idx]}, At(best'), At(largest'))
    {
      best', largest' := best, largest;
      if vals[idx] >= deficit {
        if largest.None? || ByQuantity()(idx, largest.value) {
          largest' := Some(idx);
        }
        if floor.None? || vals[idx] - deficit == 0 || vals[idx] - deficit >= floor.value {
          if best.None? || ByPriority()(idx, best.value) {
            best' := Some(idx);
          }
        }
      }
      DistinctRefsUnique(pool);
      assert seen + {pool[idx]} <= Elements(pool);
      ScanStep(cls, avg, deficit, floor, seen, At(best), At(largest), pool[idx], At(best'), At(largest'));
    }

    lemma ScanComplete(selected: seq<bool>, deficit: nat, floor: Option<nat>)
      requires Terms() && |selected| == |pool| && deficit > 0
      ensures forall best, largest ::
                ScanState(cls, avg, deficit, floor, Seen(selected, |held|), best, largest) ==>
                ScanState(cls, avg, deficit, floor, Unselected(pool, selected), best, largest)
    {
      SeenMeaning(selected, |held|);
      var seen, rest := Seen(selected, |held|), Unselected(pool, selected);
      forall u | u in rest && u.Amount(cls) >= deficit ensures u in seen {
        var i :| 0 <= i < |pool| && !selected[i] && pool[i] == u;
        assert i in held;
        var m :| 0 <= m < |held| && held[m] == i;
      }
      assert Closers(seen, cls, deficit) == Closers(rest, cls, deficit);
      assert CleanClosers(seen, cls, deficit, floor) == CleanClosers(rest, cls, deficit, floor);
    }

    /** The pick for this class: whatever was cached or skipped before, it is the one a
        stateless scan of the unselected candidates makes. */
    method Next(selected: seq<bool>, deficit: nat, floor: Option<nat>) returns (r: Option<nat>)
      requires Valid(selected) && deficit > 0
      modifies this
      ensures Valid(selected)
      ensures r.Some? ==> r.value < |pool| && !selected[r.value]
      ensures IsPick(Unselected(pool, selected), cls, avg, deficit, floor,
                     if r.None? then None else Some(pool[r.value]))
    {
      HeldTotal();
      var max := AvailableMax(selected);
      if max >= deficit {
        var best, largest := Scan(selected, deficit, floor);
        if best.Some? {
          return best;
        }
        if largest.Some? {
          return largest;
        }
        // The bound was stale, so the class had not been ordered by quantity yet.
        forall i | 0 <= i < |pool| && !selected[i] ensures vals[i] < deficit {
          assert pool[i] in Unselected(pool, selected) && pool[i] !in Closers(Unselected(pool, selected), cls, deficit);
        }
        assert byValue.None?;
        var order := OrderHeld(ByQuantity());
        byValue := Some(order);
      }
      assert Closers(Unselected(pool, selected), cls, deficit) == {};
      assert CleanClosers(Unselected(pool, selected), cls, deficit, floor) == {};
      if byPriority.None? {
        var order := OrderHeld(ByPriority());
        byPriority := Some(order);
      }
      var order := byPriority.value;
      var moved := Advance(selected, order, prioCur, ByPriority());
      prioCur := moved;
      HolderPosition(selected, order, moved);
      if moved >= |order| {
        return None;
      }
      return Some(order[moved]);
    }

    /** Every unselected holder sits at or after the cursor, so the entry there is the top one. */
    lemma HolderPosition(selected: seq<bool>, order: seq<nat>, cursor: nat)
      requires Terms() && |selected| == |pool| && CursorValid(selected, ByPriority(), Some(order), cursor)
      requires cursor < |order| ==> order[cursor] in held && !selected[order[cursor]]
      ensures var holders := Holders(Unselected(pool, selected), cls);
              if cursor >= |order| then holders == {}
              else IsTop(PriorityOrder(cls, avg), holders, pool[order[cursor]])
    {
      var holders := Holders(Unselected(pool, selected), cls);
      forall u | u in holders
        ensures cursor < |order| && (u == pool[order[cursor]] || PriorityOrder(cls, avg)(pool[order[cursor]], u))
      {
        var i :| 0 <= i < |pool| && !selected[i] && pool[i] == u;
        assert i in Elements(order);
        var k :| 0 <= k < |order| && order[k] == i;
        assert k >= cursor;
      }
    }

    /** Selecting more candidates keeps every cursor valid. */
    lemma ValidAfterSelecting(selected: seq<bool>, i: nat)
      requires Valid(selected) && i < |selected|
      ensures Valid(selected[i := true])
    {
    }
  }
}
