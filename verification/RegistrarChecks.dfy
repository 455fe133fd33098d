/** The part of pns-registrar/src/registrar.rs that the registry calls back into: the `Registrar` trait and the
    payment that `register` passes to `mint_subname`. */
module RegistrarChecks {
  import opened Types
  import opened Currency
  import opened NameService
  import opened Storage

  predicate HasValidCanonicalName(c: Chain, account: AccountId)
    reads c
  {
    && account in c.ownerToPrimaryName
    && c.ownerToPrimaryName[account] in c.infos
    && c.env.now <= c.infos[c.ownerToPrimaryName[account]].expire + c.cfg.grace
  }

  function CheckExpiresRegistrable(c: Chain, node: Node): Check
    reads c
  {
    if node !in c.infos then Fail(NotExistOrOccupied)
    else Ensure(c.env.now > c.infos[node].expire + c.cfg.grace, Occupied)
  }

  function CheckExpiresRenewable(c: Chain, node: Node): Check
    reads c
  {
    if node !in c.infos then Fail(NotExistOrOccupied)
    else Ensure(c.env.now < c.infos[node].expire + c.cfg.grace, NotRenewable)
  }

  function CheckExpiresUseable(c: Chain, node: Node): Check
    reads c
  {
    if node !in c.infos then Fail(NotExistOrOccupied)
    else Ensure(c.env.now < c.infos[node].expire, NotUseable)
  }

  method ClearRegistrarInfo(c: Chain, node: Node)
    modifies c`infos
    ensures c.infos == old(c.infos) - {node}
  {
    c.infos := c.infos - {node};
  }

  /** `Currency::withdraw` with the imbalance dropped. */
  method WithdrawFee(c: Chain, who: AccountId, fee: nat) returns (r: Result<()>)
    modifies c`money
    ensures match Withdraw(old(c.money), c.cfg.existential, who, fee)
            case Ok(m) => r.Ok? && c.money == m
            case Err(e) => r == Err(e)
  {
    if fee == 0 {
      return Ok(());
    }
    :- Ensure(Free(c.money, who) >= fee + c.cfg.existential, CurrencyError);
    c.money := Money(c.money.free[who := Free(c.money, who) - fee],
                     if fee <= c.money.issuance then c.money.issuance - fee else 0);
    return Ok(());
  }

  /** The registration that a payment writes. */
  function PaidInfo(c: Chain, node: Node, fee: nat, expire: nat, labelLen: nat): RegistrarInfo
    reads c
  {
    RegistrarInfo(expire, if node in c.infos then c.infos[node].capacity else c.cfg.capacity, fee, labelLen,
                  c.env.block)
  }

  /** The closure of `register`: forget the previous owner's claim, take the fee, write the registration. */
  method DoPayments(c: Chain, preOwner: Option<AccountId>, caller: AccountId, node: Node, fee: nat, expire: nat,
                    labelLen: nat)
    returns (r: Result<()>)
    modifies c`ownerToPrimaryName, c`money, c`infos
    ensures match Withdraw(old(c.money), c.cfg.existential, caller, fee)
            case Ok(m) => r.Ok? && c.money == m
            case Err(e) => r == Err(e)
    ensures r.Ok? ==>
              && c.infos == old(c.infos)[node := old(PaidInfo(c, node, fee, expire, labelLen))]
              && c.ViewClaims() == if preOwner.Some? then ForgetPrimary(old(c.ViewClaims()), preOwner.value, node)
                                   else old(c.ViewClaims())
  {
    if preOwner.Some? && Lookup(c.ownerToPrimaryName, preOwner.value) == Some(node) {
      c.ownerToPrimaryName := c.ownerToPrimaryName - {preOwner.value};
    }
    var _ :- WithdrawFee(c, caller, fee);
    if node in c.infos {
      c.infos := c.infos[node := c.infos[node].(registerFee := fee, expire := expire, labelLen := labelLen,
                                                lastBlock := c.env.block)];
    } else {
      c.infos := c.infos[node := RegistrarInfo(expire, c.cfg.capacity, fee, labelLen, c.env.block)];
    }
    return Ok(());
  }
}
