/** A plain account of the native currency: free balances, an existential deposit, and burning by
    dropping a withdrawn imbalance. */
module Currency {
  import opened Types

  datatype Money = Money(free: map<AccountId, nat>, issuance: nat)

  function Free(m: Money, a: AccountId): nat {
    if a in m.free then m.free[a] else 0
  }

  /** `Currency::withdraw` with `KeepAlive`, followed by dropping the imbalance. */
  function Withdraw(m: Money, existential: nat, who: AccountId, value: nat): (r: Result<Money>)
  {
    if value == 0 then Ok(m)
    else if Free(m, who) < value + existential then Err(CurrencyError)
    else Ok(Money(m.free[who := Free(m, who) - value], if value <= m.issuance then m.issuance - value else 0))
  }

  /** `Currency::transfer` with `KeepAlive`. */
  function Pay(m: Money, existential: nat, from: AccountId, to: AccountId, value: nat): (r: Result<Money>)
  {
    if value == 0 || from == to then Ok(m)
    else if Free(m, from) < value + existential || Free(m, to) + value < existential then Err(CurrencyError)
    else Ok(m.(free := m.free[from := Free(m, from) - value][to := Free(m, to) + value]))
  }

  /** The protocol fee of a sale: a saturating 128-bit product, then a division. */
  function ProtocolFee(price: nat, bps: nat): nat {
    (if price * bps > MAX_U128 then MAX_U128 else price * bps) / 10_000
  }

  /** The sum of the values at the given keys. */
  ghost function SumOver<K>(m: map<K, nat>, keys: set<K>): nat
    requires keys <= m.Keys
    decreases |keys|
  {
    if keys == {} then 0
    else
      var a :| a in keys;
      m[a] + SumOver(m, keys - {a})
  }

  ghost function Total<K>(m: map<K, nat>): nat {
    SumOver(m, m.Keys)
  }

  /** Every balance unit that was issued is held by someone. */
  ghost predicate Balanced(m: Money) {
    m.issuance == Total(m.free)
  }

  lemma {:induction false} SumWithout<K>(m: map<K, nat>, keys: set<K>, a: K)
    requires a in keys && keys <= m.Keys
    ensures SumOver(m, keys) == m[a] + SumOver(m, keys - {a})
    decreases |keys|
  {
    var b :| b in keys && SumOver(m, keys) == m[b] + SumOver(m, keys - {b});
    if a != b {
      SumWithout(m, keys - {b}, a);
      SumWithout(m, keys - {a}, b);
      assert keys - {b} - {a} == keys - {a} - {b};
    }
  }

  lemma {:induction false} SumSame<K>(m: map<K, nat>, m': map<K, nat>, keys: set<K>)
    requires keys <= m.Keys && keys <= m'.Keys
    requires forall a :: a in keys ==> m[a] == m'[a]
    ensures SumOver(m, keys) == SumOver(m', keys)
    decreases |keys|
  {
    if keys != {} {
      var a :| a in keys;
      SumWithout(m, keys, a);
      SumWithout(m', keys, a);
      SumSame(m, m', keys - {a});
    }
  }

  lemma {:induction false} TotalUpdate<K>(m: map<K, nat>, a: K, v: nat)
    ensures Total(m[a := v]) == Total(m) - (if a in m then m[a] else 0) + v
  {
    var rest := m.Keys - {a};
    var m' := m[a := v];
    assert m'.Keys - {a} == rest;
    SumWithout(m', m'.Keys, a);
    SumSame(m, m', rest);
    if a in m {
      SumWithout(m, m.Keys, a);
    } else {
      assert rest == m.Keys;
    }
  }

  lemma {:induction false} TotalRemove<K>(m: map<K, nat>, a: K)
    requires a in m
    ensures Total(m - {a}) == Total(m) - m[a]
  {
    SumWithout(m, m.Keys, a);
    assert (m - {a}).Keys == m.Keys - {a};
    SumSame(m, m - {a}, m.Keys - {a});
  }

  /** No account holds more than the whole supply. */
  lemma FreeWithinTotal(m: Money, a: AccountId)
    requires Balanced(m)
    ensures Free(m, a) <= m.issuance
  {
    if a in m.free {
      SumWithout(m.free, m.free.Keys, a);
    }
  }

  /** A withdrawal takes exactly `value` from the payer and from the supply. */
  lemma {:induction false} WithdrawBurns(m: Money, existential: nat, who: AccountId, value: nat)
    requires Balanced(m)
    requires Withdraw(m, existential, who, value).Ok?
    ensures var m' := Withdraw(m, existential, who, value).value;
            && Balanced(m')
            && m'.issuance == m.issuance - value
            && Free(m', who) == Free(m, who) - value
            && forall b :: b != who ==> Free(m', b) == Free(m, b)
  {
    FreeWithinTotal(m, who);
    if value != 0 {
      TotalUpdate(m.free, who, Free(m, who) - value);
    }
  }

  /** A payment moves exactly `value` and leaves the supply alone. */
  lemma {:induction false} PayMoves(m: Money, existential: nat, from: AccountId, to: AccountId, value: nat)
    requires Balanced(m) && from != to
    requires Pay(m, existential, from, to, value).Ok?
    ensures var m' := Pay(m, existential, from, to, value).value;
            && Balanced(m')
            && m'.issuance == m.issuance
            && Free(m', from) == Free(m, from) - value
            && Free(m', to) == Free(m, to) + value
            && forall b :: b != from && b != to ==> Free(m', b) == Free(m, b)
  {
    if value != 0 {
      TotalUpdate(m.free, from, Free(m, from) - value);
      TotalUpdate(m.free[from := Free(m, from) - value], to, Free(m, to) + value);
    }
  }

  /** The fee never exceeds the stated share of the price, saturated or not, and equals its floor
      while the product fits in 128 bits. */
  lemma ProtocolFeeBounded(price: nat, bps: nat)
    ensures 10_000 * ProtocolFee(price, bps) <= price * bps
    ensures bps <= 10_000 ==> ProtocolFee(price, bps) <= price
    ensures price * bps <= MAX_U128 ==> ProtocolFee(price, bps) == price * bps / 10_000
  {
    var product := if price * bps > MAX_U128 then MAX_U128 else price * bps;
    assert product <= price * bps;
    if bps <= 10_000 {
      assert price * bps <= price * 10_000;
    }
  }
}
