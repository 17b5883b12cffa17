/** The 64-bit gas arithmetic of a successful transaction: when what is refunded and paid out is
    exactly what was prepaid. */
module Gas {
  const U64: nat := 0x1_0000_0000_0000_0000

  /** Unsigned 64-bit wrap-around, as in a release build. */
  function Wrap(n: int): nat {
    n % U64
  }

  function Refund(limit: nat, gas: nat, price: nat): nat {
    Wrap(Wrap(limit - gas) * (price % U64))
  }

  function Payment(gas: nat, price: nat): nat {
    Wrap(gas * (price % U64))
  }

  function CeilDiv(n: nat, d: nat): nat
    requires d > 0
  {
    (n + d - 1) / d
  }

  /** What a caller can check: the products fit 64 bits, or, for gas beyond the limit, the two
      wrap-arounds happen to cancel. */
  predicate Exact(limit: nat, gas: nat, price: nat) {
    && price < U64
    && if gas <= limit then (limit - gas) * price < U64 && gas * price < U64
       else gas * price / U64 == CeilDiv((gas - limit) * price, U64)
  }

  lemma DivMod(n: nat, m: nat)
    requires m > 0
    ensures n == m * (n / m) + n % m && n % m < m && n % m <= n
  {
  }

  /** Reducing either summand below the modulus loses exactly when it was not below it. */
  lemma WrapSum(a: nat, b: nat)
    ensures Wrap(a) + Wrap(b) <= a + b
    ensures Wrap(a) + Wrap(b) == a + b <==> a < U64 && b < U64
  {
    DivMod(a, U64);
    DivMod(b, U64);
  }

  lemma Distribute(x: nat, y: nat, p: nat)
    requires y <= x
    ensures (x - y) * p + y * p == x * p
    ensures (x - y) * p == x * p - y * p
  {
  }

  lemma WrapMinus(c: nat)
    ensures Wrap(0 - c) == U64 * CeilDiv(c, U64) - c
  {
  }

  lemma {:induction false} WrapShift(k: nat, n: int)
    ensures Wrap(U64 * k + n) == Wrap(n)
  {
    if k > 0 {
      WrapShift(k - 1, n);
      assert U64 * k + n == U64 * (k - 1) + n + U64;
    }
  }

  /** Wrapping a negative difference before multiplying changes nothing modulo 2^64. */
  lemma RefundOfDeficit(limit: nat, gas: nat, price: nat)
    requires limit < gas < U64 && price < U64
    ensures Refund(limit, gas, price) == Wrap(0 - (gas - limit) * price)
  {
    var d := gas - limit;
    assert price % U64 == price;
    assert Wrap(limit - gas) == U64 - d;
    assert (U64 - d) * price == U64 * price - d * price by { Distribute(U64, d, price); }
    WrapShift(price, 0 - d * price);
  }

  lemma PaymentOf(gas: nat, price: nat)
    requires price < U64
    ensures Payment(gas, price) == gas * price - U64 * (gas * price / U64)
  {
    assert price % U64 == price;
    DivMod(gas * price, U64);
  }

  /** Prepaid gas comes out whole exactly under `Exact`. */
  lemma GasIsExactIff(limit: nat, gas: nat, price: nat)
    requires 2 <= limit < U64 && gas < U64
    ensures Refund(limit, gas, price) + Payment(gas, price) == limit * price <==> Exact(limit, gas, price)
  {
    if price >= U64 {
      TooDear(limit, gas, price);
    } else if gas <= limit {
      ExactWithSurplus(limit, gas, price);
    } else {
      ExactWithDeficit(limit, gas, price);
    }
  }

  lemma ExactWithSurplus(limit: nat, gas: nat, price: nat)
    requires gas <= limit < U64 && price < U64
    ensures Refund(limit, gas, price) + Payment(gas, price) == limit * price
            <==> (limit - gas) * price < U64 && gas * price < U64
  {
    hide Refund, Payment, Wrap;
    RefundOfSurplus(limit, gas, price);
    WrapSum((limit - gas) * price, gas * price);
    Distribute(limit, gas, price);
    PaymentWraps(gas, price);
  }

  lemma ExactWithDeficit(limit: nat, gas: nat, price: nat)
    requires limit < gas < U64 && price < U64
    ensures Refund(limit, gas, price) + Payment(gas, price) == limit * price
            <==> gas * price / U64 == CeilDiv((gas - limit) * price, U64)
  {
    hide Refund, Payment, CeilDiv, Wrap;
    RefundOfDeficit(limit, gas, price);
    WrapMinus((gas - limit) * price);
    PaymentOf(gas, price);
    Distribute(gas, gas - limit, price);
    SameMultiple(limit * price, CeilDiv((gas - limit) * price, U64), gas * price / U64);
  }

  lemma SameMultiple(n: nat, x: nat, y: nat)
    ensures n + U64 * x - U64 * y == n <==> x == y
  {
  }

  lemma PaymentWraps(gas: nat, price: nat)
    requires price < U64
    ensures Payment(gas, price) == Wrap(gas * price)
  {
    assert price % U64 == price;
  }

  lemma RefundOfSurplus(limit: nat, gas: nat, price: nat)
    requires gas <= limit < U64 && price < U64
    ensures Refund(limit, gas, price) == Wrap((limit - gas) * price)
  {
    assert price % U64 == price;
    assert Wrap(limit - gas) == limit - gas;
  }

  lemma TooDear(limit: nat, gas: nat, price: nat)
    requires 2 <= limit && price >= U64
    ensures Refund(limit, gas, price) + Payment(gas, price) < limit * price
  {
    assert 2 * price <= limit * price;
  }

  /** With gas beyond the limit and products that fit 64 bits, 2^64 units come out of nowhere. */
  lemma DeficitMints(limit: nat, gas: nat, price: nat)
    requires limit < gas && 0 < gas * price < U64
    ensures Refund(limit, gas, price) + Payment(gas, price) == limit * price + U64
  {
    hide Refund, Payment, Wrap, CeilDiv;
    Factors(gas, price);
    var c, paid := (gas - limit) * price, gas * price;
    Distribute(gas, gas - limit, price);
    Positive(gas - limit, price);
    RefundOfDeficit(limit, gas, price);
    WrapMinus(c);
    PaymentOf(gas, price);
    Small(c);
    Small(paid);
  }

  lemma Small(n: nat)
    requires 0 < n < U64
    ensures CeilDiv(n, U64) == 1 && n / U64 == 0
  {
  }

  lemma Factors(x: nat, y: nat)
    requires x * y > 0
    ensures x > 0 && y > 0 && x <= x * y && y <= x * y
  {
  }

  lemma Positive(x: nat, y: nat)
    requires x > 0 && y > 0
    ensures x * y > 0
  {
  }

  /** A limit that covers the gas and whose whole cost fits 64 bits is enough. */
  lemma CoveredIsExact(limit: nat, gas: nat, price: nat)
    requires gas <= limit && 0 < limit && limit * price < U64
    ensures Exact(limit, gas, price)
  {
    Distribute(limit, gas, price);
    NotNegative(limit - gas, price);
    NotNegative(gas, price);
    AtLeastOnce(limit, price);
  }

  lemma NotNegative(x: nat, y: nat)
    ensures x * y >= 0
  {
  }

  lemma AtLeastOnce(x: nat, y: nat)
    requires x > 0
    ensures y <= x * y
  {
    assert x * y == y + (x - 1) * y;
  }
}
