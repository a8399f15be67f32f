/** A build that is rejected because its fee reserve is still short after the last attempt (apollo.go). */
module ReserveExample {
  import opened Wrappers
  import opened Orders
  import opened Ledger
  import opened Reserves
  import opened Builder
  import opened PaymentExample

  const SECOND: Uint64 := BARE_PRICE + PER_INPUT
  const THIRD: Uint64 := SECOND + 100_000

  /** Four free UTxOs under one transaction id: each of the first three covers the payment and the
      reserve of its own attempt, and no more; the last covers the payment and the ceiling. */
  predicate ShortPool(us: seq<Utxo>) {
    && |us| == 4 && (forall i :: 0 <= i < 4 ==> us[i].txin.index == i)
    && us[0].amount == PAYMENT + BARE_PRICE && us[1].amount == PAYMENT + SECOND
    && us[2].amount == PAYMENT + THIRD && us[3].amount == PAYMENT + 1_000_000
  }

  ghost predicate Short(b: Builder, receiver: Address)
    reads b
  {
    Example(b, receiver) && ShortPool(b.utxos)
  }

  /** An attempt at this reserve selects the next UTxO, which costs this much. */
  lemma NextIsSelected(b: Builder, receiver: Address, reserve: Int64, i: nat)
    requires Short(b, receiver) && 0 <= reserve <= CEILING && i < 3
    requires b.utxos[i].amount == PAYMENT + reserve
    ensures b.SelectionAt(ExampleNeeds(), reserve) == Ok([b.utxos[i]])
    ensures b.CostOf([b.utxos[i]], ExampleNeeds().ceiling) == SECOND + 100_000 * i
  {
    SelectedAt(b, receiver, reserve, i);
    CostOfOne(b, receiver, b.utxos[i]);
  }

  lemma CostIs(b: Builder, receiver: Address, costs: Costs, reserve: Int64, i: nat)
    requires Short(b, receiver) && 0 <= reserve <= CEILING && i < 3
    requires b.utxos[i].amount == PAYMENT + reserve && b.Priced(costs, ExampleNeeds())
    ensures reserve in costs && costs[reserve] == SECOND + 100_000 * i
  {
    NextIsSelected(b, receiver, reserve, i);
  }

  /** Three reserves in a row, each the cost of what the one before selects. */
  lemma ThreeReserves(costs: Costs)
    requires BARE_PRICE in costs && SECOND in costs && THIRD in costs
    requires costs[BARE_PRICE] == SECOND && costs[SECOND] == THIRD
    ensures LastReserve(costs, CEILING, BARE_PRICE) == THIRD
  {
    assert LastFrom(costs, CEILING, SECOND, 1) == LastFrom(costs, CEILING, THIRD, 2);
  }

  /** From the price without inputs on, each attempt selects the next UTxO, which costs more than was
      reserved: the loop ends with the third, which costs more than its reserve too. */
  lemma LastAttemptFallsShort(b: Builder, receiver: Address)
    requires Short(b, receiver)
    ensures b.NeedsOfRequest(ExampleNeeds()) && b.FoundFor(ExampleNeeds()) == Ok([b.utxos[2]])
    ensures LastReserve(b.CostsFor(ExampleNeeds()), CEILING, b.FirstReserve(ExampleNeeds())) == THIRD
    ensures THIRD < b.CostOf([b.utxos[2]], CEILING) < CEILING
  {
    var costs := b.CostsFor(ExampleNeeds());
    b.CostsArePriced(ExampleNeeds());
    CostIs(b, receiver, costs, BARE_PRICE, 0);
    CostIs(b, receiver, costs, SECOND, 1);
    CostIs(b, receiver, costs, THIRD, 2);
    ThreeReserves(costs);
    FirstReserveIs(b, receiver);
    NextIsSelected(b, receiver, THIRD, 2);
    NeedsHold(b, receiver);
  }

  lemma ThirdIsFound(b: Builder, receiver: Address)
    requires Short(b, receiver)
    ensures b.FoundFor(ExampleNeeds()) == Ok([b.utxos[2]])
  {
    LastAttemptFallsShort(b, receiver);
  }

  /** So the build cannot be completed. */
  lemma ThirdIsShort(b: Builder, receiver: Address)
    requires Short(b, receiver)
    ensures !b.Completable()
  {
    LastAttemptFallsShort(b, receiver);
    CompletableOne(b, receiver, b.utxos[2]);
  }

  /** At the ceiling selection finds the fourth UTxO, which pays for everything. */
  lemma FourthPays(b: Builder, receiver: Address)
    requires Short(b, receiver)
    ensures b.SelectionAt(ExampleNeeds(), CEILING) == Ok([b.utxos[3]]) && b.Settleable([b.utxos[3]])
  {
    SelectedAt(b, receiver, CEILING, 3);
    SettleableIff(b, receiver, b.utxos[3]);
  }

  /** The loop runs on the needs gathered from the request, and keeps the third UTxO. */
  method ExampleFallsShort(b: Builder, receiver: Address) returns (r: Result<seq<Utxo>>)
    requires Short(b, receiver) && b.ReservationValid()
    modifies b`used, b`overlap
    ensures r == Ok([b.utxos[2]])
  {
    var needs := GatherNeeds(b, receiver);
    ThirdIsFound(b, receiver);
    ghost var reserve, attempts;
    r, reserve, attempts := b.ChooseInputs(needs);
  }

  method GatherNeeds(b: Builder, receiver: Address) returns (needs: Needs)
    requires Example(b, receiver)
    ensures needs == ExampleNeeds()
  {
    NeedsHold(b, receiver);
    var r := b.Gather();
    needs := r.value;
    b.NeedsUnique(needs, ExampleNeeds());
  }

  /** There is such a build, and it is rejected. */
  method ExampleIsRejected(id: TxId, holder: Address, receiver: Address, changeAddress: Address, evaluator: Evaluator)
    returns (r: Completion)
    ensures r.Rejected?
  {
    var pool := [Utxo(TxIn(id, 0), PAYMENT + BARE_PRICE, None, holder),
                 Utxo(TxIn(id, 1), PAYMENT + SECOND, None, holder),
                 Utxo(TxIn(id, 2), PAYMENT + THIRD, None, holder),
                 Utxo(TxIn(id, 3), PAYMENT + 1_000_000, None, holder)];
    var b := ExampleBuild(pool, receiver, changeAddress, evaluator);
    ThirdIsShort(b, receiver);
    r := Run(b, receiver);
  }
}
