/** Gas and fees on 64-bit unsigned integers that wrap around. */
module Fees {
  import opened Units

  const GAS_PER_TEMA: nat := 1000
  const GENERAL_TX_GAS: nat := 400

  type uint64 = x: nat | x < TWO64 witness 0

  function BuyGas(maxTxCost: uint64): (gas: uint64)
  {
    (maxTxCost * GAS_PER_TEMA) % TWO64
  }

  function CalculateCost(gasUsed: uint64): (cost: uint64)
  {
    var c := ((gasUsed + GAS_PER_TEMA / 2) % TWO64) / GAS_PER_TEMA;
    if c == 0 then 1 else c
  }

  function SafeAdd(a: uint64, b: uint64): (r: Option<uint64>)
  {
    if a + b < TWO64 then Some(a + b) else None
  }

  function SafeSub(a: uint64, b: uint64): (r: Option<uint64>)
  {
    if a >= b then Some(a - b) else None
  }

  /** Bought gas never exceeds what was paid for, however the multiplication wraps. */
  lemma GasIsCovered(maxTxCost: uint64)
    ensures BuyGas(maxTxCost) <= maxTxCost * GAS_PER_TEMA
  {
    var g := maxTxCost * GAS_PER_TEMA;
    assert g == TWO64 * (g / TWO64) + g % TWO64;
  }

  /** The fee is at least one and never above the maximum, whether or not the purchase or the rounding
      wrapped around. */
  lemma FeeBound(maxTxCost: uint64, used: uint64)
    requires GENERAL_TX_GAS <= used <= BuyGas(maxTxCost)
    ensures 1 <= CalculateCost(used) <= maxTxCost
  {
    GasIsCovered(maxTxCost);
    assert used <= maxTxCost * 1000;
    if used + 500 < TWO64 {
      assert (used + 500) % TWO64 == used + 500;
    } else {
      assert (used + 500) % TWO64 == used + 500 - TWO64;
    }
  }

  /** The gas is worth the cost, to the nearest unit of fee. */
  predicate IsNearest(used: nat, cost: nat)
  {
    GAS_PER_TEMA * cost - GAS_PER_TEMA / 2 <= used < GAS_PER_TEMA * cost + GAS_PER_TEMA / 2
  }

  /** The cost is never zero.  It is what the gas is worth, or one if that is less, exactly if the rounding does
      not wrap around; otherwise it is one. */
  lemma CostExactly(used: uint64)
    ensures CalculateCost(used) >= 1
    ensures IsNearest(used, CalculateCost(used)) || (used < GAS_PER_TEMA / 2 && CalculateCost(used) == 1) <==>
      used + GAS_PER_TEMA / 2 < TWO64
    ensures used + GAS_PER_TEMA / 2 >= TWO64 ==> CalculateCost(used) == 1
  {
    if used + 500 < TWO64 {
      assert (used + 500) % TWO64 == used + 500;
    } else {
      assert (used + 500) % TWO64 == used + 500 - TWO64;
    }
  }

  /** More gas never costs less. */
  lemma CostGrows(used: uint64, more: uint64)
    requires used <= more && more + GAS_PER_TEMA / 2 < TWO64
    ensures CalculateCost(used) <= CalculateCost(more)
  {
    assert (used + 500) % TWO64 == used + 500 && (more + 500) % TWO64 == more + 500;
  }

  /** All the gas that a fee buys costs that fee. */
  lemma GasWorth(fee: uint64)
    requires fee >= 1 && fee * GAS_PER_TEMA + GAS_PER_TEMA / 2 < TWO64
    ensures CalculateCost(BuyGas(fee)) == fee
  {
    assert (fee * 1000) % TWO64 == fee * 1000 && (fee * 1000 + 500) % TWO64 == fee * 1000 + 500;
  }

  // ----- execution_context.go -----

  class ExecutionContext {
    var initialGas: uint64
    var remainingGas: uint64

    ghost predicate Valid()
      reads this
    {
      remainingGas <= initialGas
    }

    constructor (maxCost: uint64)
      ensures Valid() && initialGas == BuyGas(maxCost) && remainingGas == initialGas
    {
      initialGas := BuyGas(maxCost);
      remainingGas := BuyGas(maxCost);
    }

    /** Spends gas, or all that is left when there is not enough. */
    method SpendGas(gas: uint64) returns (ok: bool)
      requires Valid()
      modifies this`remainingGas
      ensures Valid() && ok == (gas <= old(remainingGas))
      ensures remainingGas == if ok then old(remainingGas) - gas else 0
    {
      if gas > remainingGas {
        remainingGas := 0;
        return false;
      }
      remainingGas := remainingGas - gas;
      return true;
    }

    method Cost() returns (cost: uint64)
      requires Valid()
      ensures cost == CalculateCost(initialGas - remainingGas)
    {
      cost := CalculateCost(initialGas - remainingGas);
    }
  }

  /** A transaction with any sequence of gas charges after the general one.  When the general charge
      succeeds, the fee fits the maximum and the fee credit record can pay it. */
  method ChargeTransaction(maxFee: uint64, spends: seq<uint64>, balance: uint64)
    returns (charged: bool, fee: uint64, left: Option<uint64>)
    ensures charged <==> BuyGas(maxFee) >= GENERAL_TX_GAS
    ensures charged ==> 1 <= fee <= maxFee
    ensures charged && balance >= maxFee ==> left == Some(balance - fee)
  {
    var ctx := new ExecutionContext(maxFee);
    charged := ctx.SpendGas(GENERAL_TX_GAS);
    fee, left := 0, None;
    if !charged {
      return;
    }
    for i := 0 to |spends|
      invariant ctx.Valid() && fresh(ctx) && ctx.initialGas == BuyGas(maxFee)
      invariant ctx.remainingGas <= ctx.initialGas - GENERAL_TX_GAS
    {
      var ok := ctx.SpendGas(spends[i]);
    }
    FeeBound(maxFee, ctx.initialGas - ctx.remainingGas);
    fee := ctx.Cost();
    left := SafeSub(balance, fee);
  }

  // ----- adding and reclaiming fee credit -----

  /** The net value of a transfer, accepted only if it covers the fee of the transfer and the maximum fee
      of the present transaction. */
  function CheckFees(amount: uint64, paidFee: uint64, maxFee: uint64): (net: Option<uint64>)
  {
    match SafeAdd(maxFee, paidFee)
    case None => None
    case Some(limit) => if limit > amount then None else Some(Sub64(amount, paidFee))
  }

  /** Accepted exactly if the amount covers the fee that was paid and the highest that may come. */
  lemma ChecksExactly(amount: uint64, paidFee: uint64, maxFee: uint64)
    ensures CheckFees(amount, paidFee, maxFee).Some? <==> paidFee + maxFee <= amount
  {
  }

  /** Neither subtraction wraps: what is credited is exactly the amount less both fees. */
  lemma CreditIsExact(amount: uint64, paidFee: uint64, maxFee: uint64, used: uint64)
    requires GENERAL_TX_GAS <= used <= BuyGas(maxFee) && CheckFees(amount, paidFee, maxFee).Some?
    ensures var net := CheckFees(amount, paidFee, maxFee).value;
      var fee := CalculateCost(used);
      net == amount - paidFee && fee <= net && Sub64(net, fee) + fee + paidFee == amount
  {
    FeeBound(maxFee, used);
  }

  /** Balance, counter and lifetime of a credited record; refused on overflow. */
  function IncrCredit(d: Option<UnitData>, value: uint64, minLifetime: nat): (r: Option<Option<UnitData>>)
  {
    match d
    case Some(Fcr(balance, counter, life, owner)) =>
      var longer := if life > minLifetime then life else minLifetime;
      if balance + value < TWO64 then Some(Some(Fcr(balance + value, Add64(counter, 1), longer, owner))) else None
    case _ => None
  }

  /** Only the balance changes; refused when it does not cover the value. */
  function DecrCredit(d: Option<UnitData>, value: nat): (r: Option<Option<UnitData>>)
  {
    match d
    case Some(Fcr(balance, counter, life, owner)) =>
      if balance >= value then Some(Some(Fcr(balance - value, counter, life, owner))) else None
    case _ => None
  }

  /** The record has this balance, and is otherwise the same but for its counter and lifetime. */
  predicate HasBalance(d: Option<UnitData>, balance: int, d': Option<UnitData>)
  {
    && d.Some? && d'.Some? && d.value.Fcr? && d'.value.Fcr?
    && d'.value.balance == balance && d'.value.owner == d.value.owner
  }

  /** Crediting adds the value to the balance, exactly if it fits; the record then lives as long as both asked. */
  lemma CreditExactly(d: Option<UnitData>, value: uint64, life: nat)
    ensures var c := IncrCredit(d, value, life);
      && (c.Some? <==> d.Some? && d.value.Fcr? && d.value.balance + value < TWO64)
      && (c.Some? ==>
          HasBalance(d, d.value.balance + value, c.value) &&
          c.value.value.minLifetime >= life && c.value.value.minLifetime >= d.value.minLifetime)
  {
  }

  /** Debiting takes the value off, exactly if there is that much; counter and lifetime stay. */
  lemma DebitExactly(d: Option<UnitData>, value: nat)
    ensures var c := DecrCredit(d, value);
      && (c.Some? <==> d.Some? && d.value.Fcr? && value <= d.value.balance)
      && (c.Some? ==>
          HasBalance(d, d.value.balance - value, c.value) &&
          c.value.value.counter == d.value.counter && c.value.value.minLifetime == d.value.minLifetime)
  {
  }

  /** Crediting and then debiting the same value gives the balance back. */
  lemma CreditDebit(d: Option<UnitData>, value: uint64, life: nat)
    requires IncrCredit(d, value, life).Some?
    ensures var c := IncrCredit(d, value, life).value;
      c.Some? && c.value.Fcr? && DecrCredit(c, value).Some? &&
      DecrCredit(c, value).value.value.balance == d.value.balance
  {
  }
}
