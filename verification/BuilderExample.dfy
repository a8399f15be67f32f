/** A chain on which the estimates of ordinary builds stay within int64. */
module BuilderExample {
  import opened Wrappers
  import opened Orders
  import opened Ledger
  import opened MinUtxo
  import opened Balance
  import opened Redeemers
  import opened Fees
  import opened Obligations
  import opened Builder
  import Selection

  /** Output sizes grow with the bundle and with whatever is attached; sizes and prices are of the
      order of mainnet's. */
  function ExampleChain(): Chain {
    Chain(Selection.ExampleBase(), 4310, 44, 155_381, 876_277, 150,
          us => 200 + 150 * |us|, _ => 0, _ => Ok(0), _ => Ok(0))
  }

  const LIMIT := 0x1_0000_0000

  /** The assets of a pool, of the pins and of the mint are all known, and nothing is out of proportion. */
  ghost predicate InProportion(b: Builder, pool: seq<Utxo>, known: set<Asset>) {
    && |known| <= LIMIT && |b.preselected| + |pool| <= LIMIT && |b.req.outputs| < LIMIT
    && OutputsSize(b.chain.outputBase, b.req.outputs) <= LIMIT && 0 <= b.options.padding <= LIMIT
    && (forall u, a :: (u in b.preselected || u in pool) && u.assets.Some? && a in u.assets.value ==> a in known)
    && (forall m :: m in b.req.mint && m.asset.Some? ==> m.asset.value in known)
  }

  lemma {:induction false} HeldBySomeone(us: seq<Utxo>, a: Asset)
    requires Sum(us, Token(a)) > 0
    ensures exists u :: u in us && u.assets.Some? && a in u.assets.value
  {
    var n := |us| - 1;
    if us[n].Amount(Token(a)) > 0 {
      assert us[n] in us;
    } else {
      HeldBySomeone(us[..n], a);
    }
  }

  lemma {:induction false} MintedBySomeone(mint: seq<Unit>, a: Asset)
    requires Minted(mint, Token(a)) > 0
    ensures exists m :: m in mint && m.asset == Some(a)
  {
    var n := |mint| - 1;
    if mint[n].asset == Some(a) {
      assert mint[n] in mint;
    } else {
      MintedBySomeone(mint[..n], a);
    }
  }

  /** Change holds known assets only. */
  lemma ChangeIsSmall(b: Builder, pool: seq<Utxo>, known: set<Asset>, us: seq<Utxo>, o: Output)
    requires InProportion(b, pool, known) && b.Spendable(us, pool) && b.ChangeLike(us, o)
    ensures Selection.AssetCount(o.assets) <= LIMIT
  {
    if o.assets.Some? {
      forall a | a in o.assets.value ensures a in known {
        if Sum(us, Token(a)) > 0 {
          HeldBySomeone(us, a);
        } else {
          MintedBySomeone(b.req.mint, a);
        }
      }
      assert o.assets.value.Keys <= known;
      SubsetSize(o.assets.value.Keys, known);
    }
  }

  /** On this chain, whatever reference scripts cost within reason, every build in proportion meets the
      hypothesis of convergence. */
  lemma ExampleChainFits(b: Builder, pool: seq<Utxo>, known: set<Asset>)
    requires b.chain == ExampleChain().(referenceFee := b.chain.referenceFee) && InProportion(b, pool, known)
    requires forall us :: b.Spendable(us, pool) && b.chain.referenceFee(us).Ok? ==>
                            b.chain.referenceFee(us).value <= LIMIT * LIMIT / 16
    requires forall u :: u in b.preselected || u in pool ==> u.amount > 0
    requires forall o :: o in b.req.outputs ==> NothingNegative(o.ToValue())
    ensures forall address, assets, extra :: b.chain.outputBase(address, assets, extra) >= extra
    ensures b.EstimatesFit(pool)
  {
    forall us, o | b.Spendable(us, pool) && b.ChangeLike(us, o)
      ensures EstimateFits(b.chain, us, b.req.outputs + [o], b.options.padding)
    {
      ChangeIsSmall(b, pool, known, us, o);
      OutputsSizeAppend(b.chain.outputBase, b.req.outputs, o);
    }
    b.BoundedChangeFits(pool);
  }
}
