/** Redeemer indexing: budgets go out by (tag, index) and come back by registered name
    (apollo.go, dijkstra_guards.go). */
module Redeemers {
  import opened Orders
  import opened Wrappers
  import opened Ledger

  const UINT32_SPAN: nat := 0x1_0000_0000

  datatype Tag = Spend | Mint | Reward | Guarding | Unsupported

  datatype RedeemerKey = RedeemerKey(tag: Tag, index: nat)

  datatype ExUnits = ExUnits(memory: Int64, steps: Int64)

  /** An evaluator's budget and what the safety buffer makes of it. */
  datatype Evaluated = Evaluated(raw: ExUnits, buffered: ExUnits)

  datatype Entry = Entry(data: nat, units: ExUnits)

  type Table = map<string, Entry>

  // ----- positions -----

  /** The first position of a name, as the lookup loops find it. */
  function IndexOf(names: seq<string>, name: string): (r: Option<nat>)
    ensures r.Some? ==> r.value < |names| && names[r.value] == name
    ensures r.Some? ==> forall k :: 0 <= k < r.value ==> names[k] != name
    ensures r.None? <==> name !in names
  {
    Search(names, name, 0)
  }

  function Search(names: seq<string>, name: string, from: nat): (r: Option<nat>)
    requires from <= |names| && forall k :: 0 <= k < from ==> names[k] != name
    ensures r.Some? ==> r.value < |names| && names[r.value] == name
    ensures r.Some? ==> forall k :: 0 <= k < r.value ==> names[k] != name
    ensures r.None? <==> name !in names
    decreases |names| - from
  {
    if from == |names| then None
    else if names[from] == name then Some(from)
    else Search(names, name, from + 1)
  }

  lemma IndexOfDistinct(names: seq<string>, i: nat)
    requires Distinct(names) && i < |names|
    ensures IndexOf(names, names[i]) == Some(i)
  {
    var j := IndexOf(names, names[i]).value;
    assert !(i < j) && !(j < i);
  }

  /** Drops repeats, keeping first occurrences in order. */
  method Deduplicate(names: seq<string>) returns (r: seq<string>)
    ensures r == Deduplicated(names)
  {
    var seen: set<string> := {};
    r := [];
    for i := 0 to |names|
      invariant r == Deduplicated(names[..i]) && seen == Elements(r)
    {
      assert names[..i + 1][..i] == names[..i];
      if names[i] !in seen {
        assert Elements(r + [names[i]]) == Elements(r) + {names[i]};
        seen := seen + {names[i]};
        r := r + [names[i]];
      }
    }
    assert names[..|names|] == names;
  }

  function Deduplicated(names: seq<string>): (r: seq<string>)
    ensures Distinct(r) && Elements(r) == Elements(names)
  {
    if names == [] then []
    else
      var n := |names| - 1;
      var init := Deduplicated(names[..n]);
      assert names == names[..n] + [names[n]];
      assert names[n] in init <==> names[n] in Elements(init);
      assert Elements(init + [names[n]]) == Elements(init) + {names[n]};
      if names[n] in init then init else init + [names[n]]
  }

  /** First occurrences stay in order. */
  lemma {:induction false} DeduplicatedKeepsOrder(names: seq<string>, i: nat, j: nat)
    requires i < j < |Deduplicated(names)|
    ensures var r := Deduplicated(names);
            && r[i] in Elements(names) && r[j] in Elements(names)
            && IndexOf(names, r[i]).value < IndexOf(names, r[j]).value
  {
    var r, n := Deduplicated(names), |names| - 1;
    var init := Deduplicated(names[..n]);
    assert names == names[..n] + [names[n]];
    assert r[i] in Elements(r) && r[j] in Elements(r);
    assert init[i] in Elements(init);
    IndexOfPrefix(names, n, r[i]);
    if j < |init| {
      DeduplicatedKeepsOrder(names[..n], i, j);
      IndexOfPrefix(names, n, r[j]);
    } else {
      assert r[j] == names[n] && names[n] !in Elements(names[..n]);
    }
  }

  /** A name found within a prefix is found there. */
  lemma IndexOfPrefix(names: seq<string>, n: nat, name: string)
    requires n <= |names| && name in names[..n]
    ensures IndexOf(names, name) == IndexOf(names[..n], name)
  {
    var k := IndexOf(names[..n], name).value;
    var l := IndexOf(names, name).value;
    assert forall i :: 0 <= i <= k ==> names[..n][i] == names[i];
    assert !(l < k) && !(k < l);
  }

  function ByName(): Less<string> {
    (a: string, b: string) => LexLess(a, b)
  }

  /** `sortedMintPolicyIds`. */
  function SortedPolicies(mintPolicies: seq<string>): seq<string> {
    SortBy(Deduplicated(mintPolicies), ByName())
  }

  lemma SortedPoliciesDistinct(mintPolicies: seq<string>)
    ensures Distinct(SortedPolicies(mintPolicies))
    ensures StrictlySorted(ByName(), SortedPolicies(mintPolicies))
    ensures Elements(SortedPolicies(mintPolicies)) == Elements(mintPolicies)
  {
    var names := Deduplicated(mintPolicies);
    forall x, y, z | x in Elements(names) && y in Elements(names) && z in Elements(names)
      ensures !(ByName()(x, y) && ByName()(y, x))
      ensures x != y ==> ByName()(x, y) || ByName()(y, x)
      ensures !ByName()(x, y) && !ByName()(y, z) ==> !ByName()(x, z)
    {
      LexAsymmetric(x, y);
      LexTotal(x, y);
      if !LexLess(x, y) && !LexLess(y, z) {
        LexTransitive(x, y, z);
      }
    }
    SortByStrict(names, ByName());
  }

  // ----- guards -----

  /** `dijkstraGuardList` by credential key: required signers first, then guards, without
      repeats, and nothing at all when no guard was added. */
  function GuardList(signers: seq<string>, guards: seq<string>): seq<string> {
    if guards == [] then [] else Deduplicated(signers + guards)
  }

  /** `guardRedeemerIndex`, with its conversion of the position to uint32. */
  function GuardIndex(signers: seq<string>, guards: seq<string>, key: string): Option<nat> {
    match IndexOf(GuardList(signers, guards), key)
    case None => None
    case Some(i) => Some(i % UINT32_SPAN)
  }

  /** `guardRedeemerKeyAt`. */
  function GuardKeyAt(signers: seq<string>, guards: seq<string>, index: nat): Option<string> {
    if index >= |GuardList(signers, guards)| then None else Some(GuardList(signers, guards)[index])
  }

  /** Index and key lookups undo each other on every list whose positions fit uint32. */
  lemma GuardLookupsInverse(signers: seq<string>, guards: seq<string>, key: string, index: nat)
    requires |GuardList(signers, guards)| <= UINT32_SPAN
    ensures GuardIndex(signers, guards, key) == Some(index) <==> GuardKeyAt(signers, guards, index) == Some(key)
  {
    var list := GuardList(signers, guards);
    if index < |list| {
      IndexOfDistinct(list, index);
    }
  }

  // ----- budgets -----

  /** Where each tag's redeemers are counted: input references, sorted policies, stake
      hashes in withdrawal order, and guards. */
  datatype Positions = Positions(inputs: seq<string>, policies: seq<string>, stakes: seq<string>, guards: seq<string>) {
    function Of(tag: Tag): seq<string> {
      match tag
      case Spend => inputs
      case Mint => policies
      case Reward => stakes
      case Guarding => guards
      case Unsupported => []
    }

    /** The names the keys of a tag point at. */
    ghost function Hit(tag: Tag, keys: set<RedeemerKey>): set<string> {
      set key | key in keys && key.tag == tag && key.index < |Of(tag)| :: Of(tag)[key.index]
    }

    ghost function AllHit(keys: set<RedeemerKey>): Seen {
      Seen(Hit(Spend, keys), Hit(Mint, keys), Hit(Reward, keys), Hit(Guarding, keys))
    }

    lemma HitOneMore(keys: set<RedeemerKey>, key: RedeemerKey)
      requires key.index < |Of(key.tag)|
      ensures AllHit(keys + {key}) == AllHit(keys).With(key.tag, Of(key.tag)[key.index])
    {
      HitInTag(Spend, keys, key);
      HitInTag(Mint, keys, key);
      HitInTag(Reward, keys, key);
      HitInTag(Guarding, keys, key);
    }

    lemma HitInTag(tag: Tag, keys: set<RedeemerKey>, key: RedeemerKey)
      requires key.index < |Of(key.tag)|
      ensures Hit(tag, keys + {key}) == if tag == key.tag then Hit(tag, keys) + {Of(tag)[key.index]} else Hit(tag, keys)
    {
    }

    ghost predicate NoRepeats() {
      Distinct(inputs) && Distinct(policies) && Distinct(stakes) && Distinct(guards)
    }
  }

  /** The names seen so far of each tag. */
  datatype Seen = Seen(spend: set<string>, mint: set<string>, stake: set<string>, guard: set<string>) {
    function With(tag: Tag, name: string): Seen {
      match tag
      case Spend => this.(spend := spend + {name})
      case Mint => this.(mint := mint + {name})
      case Reward => this.(stake := stake + {name})
      case Guarding => this.(guard := guard + {name})
      case Unsupported => this
    }
  }

  datatype Limits = Limits(maxMemory: Option<Int64>, maxSteps: Option<Int64>)

  /** The budget is usable: positive as evaluated, within the limits once buffered. */
  predicate BudgetOk(e: Evaluated, limits: Limits) {
    && e.raw.memory > 0 && e.raw.steps > 0
    && (limits.maxMemory.Some? && limits.maxMemory.value > 0 ==> e.buffered.memory <= limits.maxMemory.value)
    && (limits.maxSteps.Some? && limits.maxSteps.value > 0 ==> e.buffered.steps <= limits.maxSteps.value)
  }

  /** The buffered budgets of some of a response's keys. */
  ghost function BufferedOf(response: map<RedeemerKey, Evaluated>, keys: set<RedeemerKey>): map<RedeemerKey, ExUnits> {
    map key | key in keys && key in response :: response[key].buffered
  }

  /** The registered redeemers of a builder, one table per tag. */
  class RedeemerBook {
    var spend: Table
    var mint: Table
    var stake: Table
    var guard: Table

    constructor ()
      ensures spend == map[] && mint == map[] && stake == map[] && guard == map[]
    {
      spend, mint, stake, guard := map[], map[], map[], map[];
    }

    function TableOf(tag: Tag): Table
      reads this
    {
      match tag
      case Spend => spend
      case Mint => mint
      case Reward => stake
      case Guarding => guard
      case Unsupported => map[]
    }

    /** The key names a registered redeemer. */
    predicate Points(key: RedeemerKey, at: Positions)
      reads this
    {
      key.index < |at.Of(key.tag)| && at.Of(key.tag)[key.index] in TableOf(key.tag)
    }

    /** A result is accepted when its key names a registered redeemer and its budget is usable. */
    predicate ResultOk(key: RedeemerKey, e: Evaluated, at: Positions, limits: Limits)
      reads this
    {
      BudgetOk(e, limits) && Points(key, at)
    }

    /** The response answers for every registered redeemer of a tag. */
    predicate Answered(tag: Tag, response: map<RedeemerKey, Evaluated>, at: Positions)
      reads this
    {
      forall name :: name in TableOf(tag) ==>
        exists key :: key in response && key.tag == tag && key.index < |at.Of(tag)| && at.Of(tag)[key.index] == name
    }

    /** Every result of a response is accepted. */
    predicate Accepted(response: map<RedeemerKey, Evaluated>, at: Positions, limits: Limits)
      reads this
    {
      forall key :: key in response ==> ResultOk(key, response[key], at, limits)
    }

    /** Every registered redeemer is answered for. */
    predicate NoneLeftOut(response: map<RedeemerKey, Evaluated>, at: Positions)
      reads this
    {
      && Answered(Spend, response, at) && Answered(Mint, response, at)
      && Answered(Reward, response, at) && Answered(Guarding, response, at)
    }

    /** `estimateExecutionUnits`, from the evaluator's response on. It succeeds exactly on a
        non-empty response whose every result is accepted and which leaves no redeemer out. */
    method Validate(response: map<RedeemerKey, Evaluated>, at: Positions, limits: Limits)
      returns (r: Result<map<RedeemerKey, ExUnits>>)
      ensures r.Ok? <==> response != map[] && Accepted(response, at, limits) && NoneLeftOut(response, at)
      ensures r.Ok? ==> r.value == map key | key in response :: response[key].buffered
    {
      if |response| == 0 {
        return Err(EvaluationFailed);
      }
      var validated, seen := ValidateResults(response, at, limits);
      if validated.Err? {
        return validated;
      }
      LeftOutWhenUnseen(response, at);
      if spend.Keys <= seen.spend && mint.Keys <= seen.mint && stake.Keys <= seen.stake && guard.Keys <= seen.guard {
        return validated;
      }
      r := Err(EvaluationFailed);
    }

    /** The loop over the results, noting which registered redeemers they answer for. */
    method ValidateResults(response: map<RedeemerKey, Evaluated>, at: Positions, limits: Limits)
      returns (r: Result<map<RedeemerKey, ExUnits>>, seen: Seen)
      ensures r.Ok? <==> Accepted(response, at, limits)
      ensures r.Ok? ==> r.value == map key | key in response :: response[key].buffered
      ensures r.Ok? ==> seen == at.AllHit(response.Keys)
    {
      var validated: map<RedeemerKey, ExUnits> := map[];
      seen := Seen({}, {}, {}, {});
      var todo := response.Keys;
      ghost var done: set<RedeemerKey> := {};
      while todo != {}
        invariant done + todo == response.Keys
        invariant validated == BufferedOf(response, done) && seen == at.AllHit(done)
        invariant forall key :: key in done ==> ResultOk(key, response[key], at, limits)
        decreases todo
      {
        var key :| key in todo;
        if !ResultOk(key, response[key], at, limits) {
          return Err(EvaluationFailed), seen;
        }
        at.HitOneMore(done, key);
        BufferedOneMore(response, done, key);
        seen := seen.With(key.tag, at.Of(key.tag)[key.index]);
        validated := validated[key := response[key].buffered];
        todo, done := todo - {key}, done + {key};
      }
      assert done == response.Keys;
      r := Ok(validated);
    }

    static lemma BufferedOneMore(response: map<RedeemerKey, Evaluated>, done: set<RedeemerKey>, key: RedeemerKey)
      requires key in response && done <= response.Keys
      ensures BufferedOf(response, done + {key}) == BufferedOf(response, done)[key := response[key].buffered]
    {
    }

    /** A redeemer left out is one not seen. */
    lemma LeftOutWhenUnseen(response: map<RedeemerKey, Evaluated>, at: Positions)
      ensures var seen := at.AllHit(response.Keys);
              NoneLeftOut(response, at) <==>
                && spend.Keys <= seen.spend && mint.Keys <= seen.mint
                && stake.Keys <= seen.stake && guard.Keys <= seen.guard
    {
      AnsweredWhenSeen(Spend, response, at);
      AnsweredWhenSeen(Mint, response, at);
      AnsweredWhenSeen(Reward, response, at);
      AnsweredWhenSeen(Guarding, response, at);
    }

    lemma AnsweredWhenSeen(tag: Tag, response: map<RedeemerKey, Evaluated>, at: Positions)
      ensures Answered(tag, response, at) <==> TableOf(tag).Keys <= at.Hit(tag, response.Keys)
    {
      if Answered(tag, response, at) {
        forall name | name in TableOf(tag) ensures name in at.Hit(tag, response.Keys) {
          var key :| key in response && key.tag == tag && key.index < |at.Of(tag)| && at.Of(tag)[key.index] == name;
        }
      }
    }

    function State(): Tables
      reads this
    {
      Tables(spend, mint, stake, guard)
    }

    /** `applyExecutionUnits`: writes each budget into the entry its key points at. */
    method Apply(units: map<RedeemerKey, ExUnits>, at: Positions)
      requires at.NoRepeats()
      requires forall key :: key in units ==> Points(key, at)
      modifies this
      ensures State() == AppliedAll(old(State()), units, at)
    {
      var todo := units.Keys;
      ghost var done: map<RedeemerKey, ExUnits> := map[];
      AppliedNothing(State(), at);
      while todo != {}
        invariant todo <= units.Keys && done == units - todo
        invariant forall key :: key in todo ==> Points(key, at)
        invariant State() == AppliedAll(old(State()), done, at)
        decreases todo
      {
        var key :| key in todo;
        AllOneMore(old(State()), done, key, units[key], at);
        ApplyOne(key, units[key], at);
        MovedOver(units, todo, key);
        todo := todo - {key};
        done := done[key := units[key]];
      }
      NothingLeft(units, todo);
    }

    static lemma NothingLeft(units: map<RedeemerKey, ExUnits>, todo: set<RedeemerKey>)
      requires todo == {}
      ensures units - todo == units
    {
    }

    static lemma MovedOver(units: map<RedeemerKey, ExUnits>, todo: set<RedeemerKey>, key: RedeemerKey)
      requires key in todo && todo <= units.Keys
      ensures units - (todo - {key}) == (units - todo)[key := units[key]]
    {
    }

    method ApplyOne(key: RedeemerKey, u: ExUnits, at: Positions)
      requires Points(key, at)
      modifies this
      ensures forall k :: old(Points(k, at)) ==> Points(k, at)
      ensures State() == old(State()).With(key, u, at)
    {
      var name := at.Of(key.tag)[key.index];
      match key.tag {
        case Spend => spend := spend[name := spend[name].(units := u)];
        case Mint => mint := mint[name := mint[name].(units := u)];
        case Reward => stake := stake[name := stake[name].(units := u)];
        case Guarding => guard := guard[name := guard[name].(units := u)];
      }
    }

    /** `buildRedeemerMap`. */
    function RedeemerMap(at: Positions): map<RedeemerKey, Entry>
      reads this
    {
      Joined(spend, mint, stake, guard, at)
    }

    lemma AnsweredHits(response: map<RedeemerKey, Evaluated>, at: Positions, limits: Limits,
                       units: map<RedeemerKey, ExUnits>)
      requires forall key :: key in response ==> ResultOk(key, response[key], at, limits)
      requires units.Keys == response.Keys
      ensures Answered(Spend, response, at) ==> Hits(spend, Spend, units, at.inputs)
      ensures Answered(Mint, response, at) ==> Hits(mint, Mint, units, at.policies)
      ensures Answered(Reward, response, at) ==> Hits(stake, Reward, units, at.stakes)
      ensures Answered(Guarding, response, at) ==> Hits(guard, Guarding, units, at.guards)
      ensures forall key :: key in units ==> key.tag != Unsupported
    {
      forall key | key in units
        ensures key.index < |at.Of(key.tag)| && at.Of(key.tag)[key.index] in TableOf(key.tag)
      {
        assert ResultOk(key, response[key], at, limits);
      }
      assert spend == TableOf(Spend) && mint == TableOf(Mint) && stake == TableOf(Reward) && guard == TableOf(Guarding);
    }

    /** One round of evaluation. When it succeeds, the rebuilt redeemer map carries exactly
        the buffered budgets at exactly the evaluated keys, one for each registered redeemer. */
    method EvaluationRound(response: map<RedeemerKey, Evaluated>, at: Positions, limits: Limits)
      returns (r: Result<map<RedeemerKey, Entry>>)
      requires at.NoRepeats()
      modifies this
      ensures r.Err? ==> unchanged(this)
      ensures r.Ok? ==>
                && r.value == RedeemerMap(at)
                && FaithfulMap(r.value, map key | key in response :: response[key].buffered,
                               |spend| + |mint| + |stake| + |guard|)
      ensures SameButUnits(spend, old(spend)) && SameButUnits(mint, old(mint))
      ensures SameButUnits(stake, old(stake)) && SameButUnits(guard, old(guard))
    {
      var validated := Validate(response, at, limits);
      if validated.Err? {
        return Err(validated.error);
      }
      var units := validated.value;
      AnsweredHits(response, at, limits, units);
      RoundTrip(spend, mint, stake, guard, units, at);
      Apply(units, at);
      r := Ok(RedeemerMap(at));
    }
  }

  /** The same redeemers with the same data. */
  ghost predicate SameButUnits(after: Table, before: Table) {
    after.Keys == before.Keys && forall name :: name in after ==> after[name].data == before[name].data
  }

  // ----- the tables as values -----

  /** A table after the budgets of one tag have been written into it. */
  function Applied(table: Table, tag: Tag, units: map<RedeemerKey, ExUnits>, names: seq<string>): (r: Table)
    ensures r.Keys == table.Keys
    ensures forall name :: name in r ==> r[name].data == table[name].data
  {
    map name | name in table ::
      match IndexOf(names, name)
      case None => table[name]
      case Some(i) =>
        if RedeemerKey(tag, i) in units then table[name].(units := units[RedeemerKey(tag, i)]) else table[name]
  }

  /** The four tables of a builder as one value. */
  datatype Tables = Tables(spend: Table, mint: Table, stake: Table, guard: Table) {
    function With(key: RedeemerKey, u: ExUnits, at: Positions): Tables {
      Tables(WithBudget(spend, Spend, key, u, at.inputs), WithBudget(mint, Mint, key, u, at.policies),
             WithBudget(stake, Reward, key, u, at.stakes), WithBudget(guard, Guarding, key, u, at.guards))
    }
  }

  function AppliedAll(t: Tables, units: map<RedeemerKey, ExUnits>, at: Positions): Tables {
    Tables(Applied(t.spend, Spend, units, at.inputs), Applied(t.mint, Mint, units, at.policies),
           Applied(t.stake, Reward, units, at.stakes), Applied(t.guard, Guarding, units, at.guards))
  }

  lemma AppliedNothing(t: Tables, at: Positions)
    ensures AppliedAll(t, map[], at) == t
  {
  }

  lemma AllOneMore(t: Tables, done: map<RedeemerKey, ExUnits>, key: RedeemerKey, u: ExUnits, at: Positions)
    requires at.NoRepeats() && key.index < |at.Of(key.tag)|
    requires at.Of(key.tag)[key.index] in
               match key.tag
               case Spend => t.spend
               case Mint => t.mint
               case Reward => t.stake
               case Guarding => t.guard
               case Unsupported => map[]
    ensures AppliedAll(t, done[key := u], at) == AppliedAll(t, done, at).With(key, u, at)
  {
    AppliedOneMore(t.spend, Spend, done, key, u, at.inputs);
    AppliedOneMore(t.mint, Mint, done, key, u, at.policies);
    AppliedOneMore(t.stake, Reward, done, key, u, at.stakes);
    AppliedOneMore(t.guard, Guarding, done, key, u, at.guards);
  }

  /** A table with one budget written, if the key is of its tag. */
  function WithBudget(table: Table, tag: Tag, key: RedeemerKey, u: ExUnits, names: seq<string>): Table {
    if key.tag == tag && key.index < |names| && names[key.index] in table then
      table[names[key.index] := table[names[key.index]].(units := u)]
    else table
  }

  lemma AppliedOneMore(table: Table, tag: Tag, units: map<RedeemerKey, ExUnits>, key: RedeemerKey, u: ExUnits,
                       names: seq<string>)
    requires key.tag == tag ==> Distinct(names) && key.index < |names| && names[key.index] in table
    ensures Applied(table, tag, units[key := u], names) ==
            WithBudget(Applied(table, tag, units, names), tag, key, u, names)
  {
    var left := Applied(table, tag, units[key := u], names);
    var right := WithBudget(Applied(table, tag, units, names), tag, key, u, names);
    forall name | name in table ensures left[name] == right[name] {
      if key.tag == tag && IndexOf(names, name) == Some(key.index) {
        assert name == names[key.index];
      } else if key.tag == tag {
        IndexOfDistinct(names, key.index);
        assert name != names[key.index];
      }
    }
  }

  /** The entries of a table under the index each name is found at. */
  function Indexed(table: Table, tag: Tag, names: seq<string>): map<RedeemerKey, Entry> {
    map i: nat | i < |names| && names[i] in table && IndexOf(names, names[i]) == Some(i)
      :: RedeemerKey(tag, i) := table[names[i]]
  }

  /** The budgets answer for a table: each of its names is hit, and nothing else is. */
  ghost predicate Hits(table: Table, tag: Tag, units: map<RedeemerKey, ExUnits>, names: seq<string>) {
    && (forall key :: key in units && key.tag == tag ==> key.index < |names| && names[key.index] in table)
    && (forall name :: name in table ==>
          exists key :: key in units && key.tag == tag && key.index < |names| && names[key.index] == name)
  }

  function KeysWith(units: map<RedeemerKey, ExUnits>, tag: Tag): set<RedeemerKey> {
    set key | key in units && key.tag == tag
  }

  ghost predicate Rebuilt(built: map<RedeemerKey, Entry>, size: nat, tag: Tag, units: map<RedeemerKey, ExUnits>) {
    && built.Keys == KeysWith(units, tag)
    && |built| == size
    && Agrees(built, units)
  }

  ghost predicate Agrees(m: map<RedeemerKey, Entry>, units: map<RedeemerKey, ExUnits>) {
    forall key :: key in m ==> key in units && m[key].units == units[key]
  }

  /** Rebuilding one tag's part of the redeemer map gives back the budgets written into it. */
  lemma RebuiltTable(table: Table, tag: Tag, units: map<RedeemerKey, ExUnits>, names: seq<string>)
    requires Distinct(names) && Hits(table, tag, units, names)
    ensures Rebuilt(Indexed(Applied(table, tag, units, names), tag, names), |table|, tag, units)
  {
    var built := Indexed(Applied(table, tag, units, names), tag, names);
    RebuiltKeys(table, tag, units, names);
    RebuiltBudgets(table, tag, units, names);
    IndexedKeys(Applied(table, tag, units, names), tag, names);
    OneKeyPerName(table.Keys, tag, names);
    assert |built| == |built.Keys|;
  }

  lemma RebuiltKeys(table: Table, tag: Tag, units: map<RedeemerKey, ExUnits>, names: seq<string>)
    requires Distinct(names) && Hits(table, tag, units, names)
    ensures KeysOf(table.Keys, tag, names) == KeysWith(units, tag)
  {
    forall key | key in KeysWith(units, tag) ensures key in KeysOf(table.Keys, tag, names) {
      IndexOfDistinct(names, key.index);
      assert key == RedeemerKey(tag, key.index);
    }
    forall key | key in KeysOf(table.Keys, tag, names) ensures key in KeysWith(units, tag) {
      var name := names[key.index];
      var hit :| hit in units && hit.tag == tag && hit.index < |names| && names[hit.index] == name;
      IndexOfDistinct(names, hit.index);
      assert hit == key;
    }
  }

  lemma RebuiltBudgets(table: Table, tag: Tag, units: map<RedeemerKey, ExUnits>, names: seq<string>)
    requires Distinct(names) && Hits(table, tag, units, names)
    ensures var built := Indexed(Applied(table, tag, units, names), tag, names);
            forall key :: key in built ==> key in units && built[key].units == units[key]
  {
    var after := Applied(table, tag, units, names);
    var built := Indexed(after, tag, names);
    RebuiltKeys(table, tag, units, names);
    IndexedKeys(after, tag, names);
    forall key | key in built ensures key in units && built[key].units == units[key] {
      assert key in KeysWith(units, tag);
      assert built[key] == after[names[key.index]];
    }
  }

  function KeysOf(s: set<string>, tag: Tag, names: seq<string>): set<RedeemerKey> {
    set i: nat | i < |names| && names[i] in s && IndexOf(names, names[i]) == Some(i) :: RedeemerKey(tag, i)
  }

  lemma IndexedKeys(table: Table, tag: Tag, names: seq<string>)
    ensures Indexed(table, tag, names).Keys == KeysOf(table.Keys, tag, names)
  {
  }

  lemma {:induction false} OneKeyPerName(s: set<string>, tag: Tag, names: seq<string>)
    requires forall name :: name in s ==> name in names
    ensures |KeysOf(s, tag, names)| == |s|
  {
    if s == {} {
      assert KeysOf(s, tag, names) == {};
    } else {
      var name :| name in s;
      OneKeyPerName(s - {name}, tag, names);
      KeysOfOneMore(s, name, tag, names);
    }
  }

  lemma KeysOfOneMore(s: set<string>, name: string, tag: Tag, names: seq<string>)
    requires name in s && name in names
    ensures var key := RedeemerKey(tag, IndexOf(names, name).value);
            key !in KeysOf(s - {name}, tag, names) && KeysOf(s, tag, names) == KeysOf(s - {name}, tag, names) + {key}
  {
  }

  function Joined(spend: Table, mint: Table, stake: Table, guard: Table, at: Positions): map<RedeemerKey, Entry> {
    Indexed(spend, Spend, at.inputs) + Indexed(mint, Mint, at.policies) +
    Indexed(stake, Reward, at.stakes) + Indexed(guard, Guarding, at.guards)
  }

  /** Budgets that answer for every registered redeemer survive the way into the tables and
      back out through the indexes: same keys, same budgets, one entry for each redeemer. */
  lemma RoundTrip(spend: Table, mint: Table, stake: Table, guard: Table, units: map<RedeemerKey, ExUnits>,
                  at: Positions)
    requires at.NoRepeats() && forall key :: key in units ==> key.tag != Unsupported
    requires Hits(spend, Spend, units, at.inputs) && Hits(mint, Mint, units, at.policies)
    requires Hits(stake, Reward, units, at.stakes) && Hits(guard, Guarding, units, at.guards)
    ensures FaithfulMap(Joined(Applied(spend, Spend, units, at.inputs), Applied(mint, Mint, units, at.policies),
                               Applied(stake, Reward, units, at.stakes),
                               Applied(guard, Guarding, units, at.guards), at),
                        units, |spend| + |mint| + |stake| + |guard|)
  {
    RebuiltTable(spend, Spend, units, at.inputs);
    RebuiltTable(mint, Mint, units, at.policies);
    RebuiltTable(stake, Reward, units, at.stakes);
    RebuiltTable(guard, Guarding, units, at.guards);
    JoinedParts(Applied(spend, Spend, units, at.inputs), Applied(mint, Mint, units, at.policies),
                Applied(stake, Reward, units, at.stakes), Applied(guard, Guarding, units, at.guards),
                |spend|, |mint|, |stake|, |guard|, units, at);
  }

  lemma JoinedParts(spend: Table, mint: Table, stake: Table, guard: Table, k: nat, l: nat, m: nat, n: nat,
                    units: map<RedeemerKey, ExUnits>, at: Positions)
    requires forall key :: key in units ==> key.tag != Unsupported
    requires Rebuilt(Indexed(spend, Spend, at.inputs), k, Spend, units)
    requires Rebuilt(Indexed(mint, Mint, at.policies), l, Mint, units)
    requires Rebuilt(Indexed(stake, Reward, at.stakes), m, Reward, units)
    requires Rebuilt(Indexed(guard, Guarding, at.guards), n, Guarding, units)
    ensures FaithfulMap(Joined(spend, mint, stake, guard, at), units, k + l + m + n)
  {
    UnionOfParts(units, Indexed(spend, Spend, at.inputs), Indexed(mint, Mint, at.policies),
                 Indexed(stake, Reward, at.stakes), Indexed(guard, Guarding, at.guards), k, l, m, n);
  }

  /** A redeemer map carries exactly these budgets, in this many entries. */
  ghost predicate FaithfulMap(m: map<RedeemerKey, Entry>, units: map<RedeemerKey, ExUnits>, size: nat) {
    && m.Keys == units.Keys
    && Agrees(m, units)
    && |m| == size
  }

  lemma UnionOfParts(units: map<RedeemerKey, ExUnits>, a: map<RedeemerKey, Entry>, b: map<RedeemerKey, Entry>,
                     c: map<RedeemerKey, Entry>, d: map<RedeemerKey, Entry>, k: nat, l: nat, m: nat, n: nat)
    requires Rebuilt(a, k, Spend, units) && Rebuilt(b, l, Mint, units)
    requires Rebuilt(c, m, Reward, units) && Rebuilt(d, n, Guarding, units)
    requires forall key :: key in units ==> key.tag != Unsupported
    ensures FaithfulMap(a + b + c + d, units, k + l + m + n)
  {
    AllKeys(units);
    var joined := a + b + c + d;
    assert joined.Keys == units.Keys by {
      assert joined.Keys == a.Keys + b.Keys + c.Keys + d.Keys;
    }
    PartsSize(units, k, l, m, n);
    UnionBudgets(units, a, b, c, d);
  }

  lemma UnionBudgets(units: map<RedeemerKey, ExUnits>, a: map<RedeemerKey, Entry>, b: map<RedeemerKey, Entry>,
                     c: map<RedeemerKey, Entry>, d: map<RedeemerKey, Entry>)
    requires Agrees(a, units) && Agrees(b, units) && Agrees(c, units) && Agrees(d, units)
    ensures Agrees(a + b + c + d, units)
  {
  }

  lemma PartsSize(units: map<RedeemerKey, ExUnits>, k: nat, l: nat, m: nat, n: nat)
    requires forall key :: key in units ==> key.tag != Unsupported
    requires |KeysWith(units, Spend)| == k && |KeysWith(units, Mint)| == l
    requires |KeysWith(units, Reward)| == m && |KeysWith(units, Guarding)| == n
    ensures |units| == k + l + m + n
  {
    AllKeys(units);
    DisjointSizes(KeysWith(units, Spend), KeysWith(units, Mint), KeysWith(units, Reward), KeysWith(units, Guarding));
    assert |units| == |units.Keys|;
  }

  lemma AllKeys(units: map<RedeemerKey, ExUnits>)
    requires forall key :: key in units ==> key.tag != Unsupported
    ensures KeysWith(units, Spend) + KeysWith(units, Mint) + KeysWith(units, Reward)
            + KeysWith(units, Guarding) == units.Keys
  {
  }

  lemma DisjointSizes<T>(a: set<T>, b: set<T>, c: set<T>, d: set<T>)
    requires a !! b && a !! c && a !! d && b !! c && b !! d && c !! d
    ensures |a + b + c + d| == |a| + |b| + |c| + |d|
  {
    assert (a + b) !! c && (a + b + c) !! d;
  }
}
