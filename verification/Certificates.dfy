/** Deposits and refunds of certificates (apollo.go). */
module Certificates {
  import opened Wrappers
  import opened Ledger

  /** A certificate, by what it means for deposits. `updated` marks a pool registration that
      the builder was told is an update; `amount` is carried by the certificate itself. */
  datatype Certificate =
    | StakeRegistration
    | StakeDeregistration
    | PoolRegistration(operator: string, updated: bool)
    | UntypedPoolRegistration
    | Registration(amount: Uint64)
    | Deregistration(amount: Uint64)
    | RegistrationDelegation(amount: Uint64)
    | DrepRegistration(amount: Uint64)
    | DrepDeregistration(amount: Uint64)
    | NoDeposit

  /** The certificate is the first registration of its pool. */
  predicate FirstOfPool(certs: seq<Certificate>, i: nat)
    requires i < |certs| && certs[i].PoolRegistration?
  {
    forall j :: 0 <= j < i ==> !(certs[j].PoolRegistration? && certs[j].operator == certs[i].operator)
  }

  /** A pool deposit is due for a first registration that is not an update. */
  predicate PoolDepositDue(certs: seq<Certificate>, i: nat)
    requires i < |certs|
  {
    certs[i].UntypedPoolRegistration? ||
    (certs[i].PoolRegistration? && !certs[i].updated && FirstOfPool(certs, i))
  }

  function DepositOf(certs: seq<Certificate>, i: nat, stake: nat, pool: nat): nat
    requires i < |certs|
  {
    match certs[i]
    case StakeRegistration => stake
    case PoolRegistration(_, _) => if PoolDepositDue(certs, i) then pool else 0
    case UntypedPoolRegistration => pool
    case Registration(amount) => amount
    case RegistrationDelegation(amount) => amount
    case DrepRegistration(amount) => amount
    case _ => 0
  }

  function RefundOf(cert: Certificate, stake: nat): nat {
    match cert
    case StakeDeregistration => stake
    case Deregistration(amount) => amount
    case DrepDeregistration(amount) => amount
    case _ => 0
  }

  /** Total deposits of the first `n` certificates. */
  function Deposits(certs: seq<Certificate>, n: nat, stake: nat, pool: nat): nat
    requires n <= |certs|
  {
    if n == 0 then 0 else Deposits(certs, n - 1, stake, pool) + DepositOf(certs, n - 1, stake, pool)
  }

  function Refunds(certs: seq<Certificate>, n: nat, stake: nat): nat
    requires n <= |certs|
  {
    if n == 0 then 0 else Refunds(certs, n - 1, stake) + RefundOf(certs[n - 1], stake)
  }

  lemma {:induction false} TotalsGrow(certs: seq<Certificate>, m: nat, n: nat, stake: nat, pool: nat)
    requires m <= n <= |certs|
    ensures Deposits(certs, m, stake, pool) <= Deposits(certs, n, stake, pool)
    ensures Refunds(certs, m, stake) <= Refunds(certs, n, stake)
  {
    if m < n {
      TotalsGrow(certs, m, n - 1, stake, pool);
    }
  }

  /** The net of deposits and refunds fits the ranges the code computes it in. */
  predicate NetFits(certs: seq<Certificate>, stake: nat, pool: nat) {
    var d, r := Deposits(certs, |certs|, stake, pool), Refunds(certs, |certs|, stake);
    d <= MAX_U64 && r <= MAX_U64 && -MAX_I64 <= d - r <= MAX_I64
  }

  /** `certificateDepositAdjustment`. */
  method Adjustment(certs: seq<Certificate>, stake: Int64, pool: Int64) returns (r: Result<Int64>)
    ensures r == AdjustmentOf(certs, stake, pool)
  {
    if stake < 0 || pool < 0 {
      return Err(CertificateOverflow);
    }
    var deposits, refunds := 0, 0;
    var seenPools: set<string> := {};
    for i := 0 to |certs|
      invariant deposits == Deposits(certs, i, stake, pool) <= MAX_U64
      invariant refunds == Refunds(certs, i, stake) <= MAX_U64
      invariant seenPools == set j | 0 <= j < i && certs[j].PoolRegistration? :: certs[j].operator
    {
      TotalsGrow(certs, i + 1, |certs|, stake, pool);
      var deposit, refund := 0, 0;
      match certs[i] {
        case StakeRegistration => deposit := stake;
        case PoolRegistration(operator, updated) =>
          assert FirstOfPool(certs, i) <==> operator !in seenPools;
          if !(updated || operator in seenPools) {
            deposit := pool;
          }
          seenPools := seenPools + {operator};
        case UntypedPoolRegistration => deposit := pool;
        case StakeDeregistration => refund := stake;
        case Deregistration(amount) => refund := amount;
        case Registration(amount) => deposit := amount;
        case RegistrationDelegation(amount) => deposit := amount;
        case DrepRegistration(amount) => deposit := amount;
        case DrepDeregistration(amount) => refund := amount;
        case NoDeposit =>
      }
      if deposit > MAX_U64 - deposits || refund > MAX_U64 - refunds {
        return Err(CertificateOverflow);
      }
      deposits, refunds := deposits + deposit, refunds + refund;
    }
    if deposits >= refunds {
      r := if deposits - refunds > MAX_I64 then Err(CertificateOverflow) else Ok(deposits - refunds);
    } else {
      r := if refunds - deposits > MAX_I64 then Err(CertificateOverflow) else Ok(-(refunds - deposits));
    }
  }

  function AdjustmentOf(certs: seq<Certificate>, stake: Int64, pool: Int64): Result<Int64> {
    if stake < 0 || pool < 0 || !NetFits(certs, stake, pool) then Err(CertificateOverflow)
    else Ok(Deposits(certs, |certs|, stake, pool) - Refunds(certs, |certs|, stake))
  }

  predicate Registers(certs: seq<Certificate>, i: int, operator: string) {
    0 <= i < |certs| && certs[i].PoolRegistration? && certs[i].operator == operator
  }

  /** A pool registered any number of times is charged through its first registration or not
      at all: later registrations, updates or not, never change what it costs. */
  lemma PoolChargedOnFirstRegistration(certs: seq<Certificate>, operator: string, some: nat) returns (first: nat)
    requires Registers(certs, some, operator)
    ensures Registers(certs, first, operator)
    ensures forall i :: Registers(certs, i, operator) ==>
                          (PoolDepositDue(certs, i) <==> i == first && !certs[first].updated)
  {
    first := some;
    while exists j :: 0 <= j < first && Registers(certs, j, operator)
      invariant Registers(certs, first, operator)
      decreases first
    {
      var j: nat :| j < first && Registers(certs, j, operator);
      first := j;
    }
    forall j | 0 <= j < first ensures !(certs[j].PoolRegistration? && certs[j].operator == operator) {
      assert !Registers(certs, j, operator);
    }
    forall i | Registers(certs, i, operator)
      ensures PoolDepositDue(certs, i) <==> i == first && !certs[first].updated
    {
      assert i < first ==> !Registers(certs, i, operator);
    }
  }
}
