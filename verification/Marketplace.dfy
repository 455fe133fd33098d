/** pns-marketplace/src/lib.rs */
module Marketplace {
  import opened Types
  import opened Labels
  import opened Currency
  import opened NameService
  import opened Storage
  import opened Indexes
  import opened RegistrarChecks
  import Registrar
  import Resolvers

  method CreateListing(c: Chain, who: AccountId, price: nat, expiresAt: nat) returns (r: Result<()>)
    requires c.Valid()
    modifies c`listings
    ensures r.Ok? ==> c.Valid()
    ensures c.Outcome(r) == DoList(old(c.View()), who, price, expiresAt)
  {
    hide TokensIndexed, RootsTraced, SubnamesIndexed, ChildrenCounted, TopRows, NamesOf;
    :- Ensure(expiresAt > c.env.now, ExpiryNotInFuture);
    var node :- OkOr(Lookup(c.ownerToPrimaryName, who), NoCanonicalName);
    :- Ensure(node !in c.listings, AlreadyListed);
    c.listings := c.listings[node := Listing(who, price, expiresAt)];
    return Ok(());
  }

  method CancelListing(c: Chain, who: AccountId) returns (r: Result<()>)
    requires c.Valid()
    modifies c`listings
    ensures r.Ok? ==> c.Valid()
    ensures c.Outcome(r) == DoCancel(old(c.View()), who)
  {
    hide TokensIndexed, RootsTraced, SubnamesIndexed, ChildrenCounted, TopRows, NamesOf;
    var node :- OkOr(Lookup(c.ownerToPrimaryName, who), NoCanonicalName);
    :- Ensure(node in c.listings, NotListed);
    c.listings := c.listings - {node};
    return Ok(());
  }

  /** `Currency::transfer` with `KeepAlive`. */
  method PayPrice(c: Chain, from: AccountId, to: AccountId, value: nat) returns (r: Result<()>)
    modifies c`money
    ensures match Pay(old(c.money), c.cfg.existential, from, to, value)
            case Ok(m) => r.Ok? && c.money == m
            case Err(e) => r == Err(e)
  {
    if value == 0 || from == to {
      return Ok(());
    }
    :- Ensure(Free(c.money, from) >= value + c.cfg.existential, CurrencyError);
    :- Ensure(Free(c.money, to) + value >= c.cfg.existential, CurrencyError);
    c.money := c.money.(free := c.money.free[from := Free(c.money, from) - value][to := Free(c.money, to) + value]);
    return Ok(());
  }

  function ListingChecks(c: Chain, buyer: AccountId, node: Node): Check
    reads c
  {
    if node !in c.listings then Fail(NotListed)
    else if buyer == c.listings[node].seller then Fail(BuyerIsSeller)
    else if c.listings[node].expiresAt <= c.env.now then Fail(ListingExpired)
    else Ensure(node in c.tokens && c.tokens[node].owner == c.listings[node].seller, SellerNoLongerOwns)
  }

  lemma ListingAgrees(c: Chain, buyer: AccountId, node: Node)
    requires c.Valid() && IsTop(node)
    ensures ListingChecks(c, buyer, node).Pass? ==> node in c.listings
    ensures OpenListing(c.View(), buyer, node) == match ListingChecks(c, buyer, node)
                                                  case Pass => Ok(c.listings[node])
                                                  case Fail(e) => Err(e)
  {
    hide TokensIndexed, RootsTraced, SubnamesIndexed, ChildrenCounted, TopRows, NamesOf;
    NamesAreInfos(c.tokens, c.infos, c.origins, c.official, node);
  }

  /** The buyer pays the price and the protocol fee is burned out of it. */
  method SettlePrice(c: Chain, buyer: AccountId, l: Listing) returns (r: Result<()>)
    requires c.Valid()
    modifies c`money
    ensures r.Ok? ==> c.Valid()
    ensures match Settle(old(c.View()), buyer, l)
            case Ok(m) => r.Ok? && c.View() == old(c.View()).(money := m)
            case Err(e) => r == Err(e)
  {
    hide TokensIndexed, RootsTraced, SubnamesIndexed, ChildrenCounted, TopRows, NamesOf, Pay, Withdraw, ProtocolFee;
    var _ :- PayPrice(c, buyer, l.seller, l.price);
    r := WithdrawFee(c, l.seller, ProtocolFee(l.price, c.cfg.feeBps));
  }

  /** An outcome with the balances replaced: the registrar does not look at them. */
  ghost function WithMoney(r: Result<State>, money: Money): Result<State> {
    match r
    case Ok(s) => Ok(s.(money := money))
    case Err(e) => Err(e)
  }

  lemma RegistrarIgnoresMoney(s: State, money: Money, seller: AccountId, buyer: AccountId, to: AccountId, node: Node)
    ensures SellName(s.(money := money), seller, to, node) == WithMoney(SellName(s, seller, to, node), money)
    ensures GiftName(s.(money := money), seller, buyer, to, node)
            == WithMoney(GiftName(s, seller, buyer, to, node), money)
  {
    hide Wipe, SubsUnder, KeepSs58, WriteAnchors, SetOwner, BlockedByRow, SetPrimary, ForgetPrimary, DropPrimary;
    assert HasValidName(s.(money := money), to) == HasValidName(s, to);
  }

  /** Clearing and anchoring a name again, right after it was handed to the same owner, changes nothing. */
  lemma AnchoredAlready(z: Zone, node: Node, to: AccountId, hash: int)
    ensures var done := WriteAnchors(KeepSs58(z, node), node, to, hash);
            WriteAnchors(KeepSs58(done, node), node, to, hash) == done
  {
    var done := WriteAnchors(KeepSs58(z, node), node, to, hash);
    assert WriteAnchors(KeepSs58(done, node), node, to, hash).records == done.records;
  }

  lemma SaleAnchors(s: State, seller: AccountId, buyer: AccountId, node: Node)
    requires SellName(s, seller, buyer, node).Ok?
    ensures var t := SellName(s, seller, buyer, node).value;
            WriteAnchors(KeepSs58(t.zone, node), node, buyer, s.sys.env.parentHash) == t.zone
  {
    hide Wipe, SubsUnder, KeepSs58, WriteAnchors, SetOwner, FreeReceiver, SetPrimary, ForgetPrimary, DropPrimary;
    AnchoredAlready(Wipe(s.zone, SubsUnder(s.dir.subs, node)), node, buyer, s.sys.env.parentHash);
  }

  method ReAnchor(c: Chain, node: Node, owner: AccountId)
    requires c.Valid()
    modifies c`records
    ensures c.Valid()
    ensures c.View() == old(c.View()).(zone := WriteAnchors(KeepSs58(old(c.View()).zone, node), node, owner,
                                                            c.env.parentHash))
  {
    hide TokensIndexed, RootsTraced, SubnamesIndexed, ChildrenCounted, TopRows, NamesOf, KeepSs58, PutRecord;
    Resolvers.ClearRecordsExceptSs58(c, node);
    Resolvers.SetSs58Record(c, node, owner);
    Resolvers.SetOriginRecord(c, node);
  }

  /** The last part of `buy_name`, for a purchase and for a gift. */
  ghost function Deliver(s: State, buyer: AccountId, recipient: Option<AccountId>, node: Node, l: Listing, fee: nat)
    : Result<State>
  {
    if recipient.Some? then
      :- Ensure(recipient.value != buyer, BuyerIsRecipient);
      :- Ensure(recipient.value != l.seller, SellerIsRecipient);
      var t :- GiftName(s, l.seller, buyer, recipient.value, node);
      Ok(t.(events := s.events + [NameBoughtForRecipient(node, l.seller, buyer, recipient.value, l.price, fee)]))
    else
      var t :- SellName(s, l.seller, buyer, node);
      Ok(t.(events := s.events + [Sold(node, l.seller, buyer, l.price, fee)]))
  }

  method DeliverName(c: Chain, buyer: AccountId, recipient: Option<AccountId>, node: Node, l: Listing, fee: nat)
    returns (r: Result<()>)
    requires c.Valid()
    modifies c`tokens, c`tokensByOwner, c`origins, c`subNames, c`accountToSubnames, c`subnameRecords,
             c`offeredToAccount, c`records, c`texts, c`ownerToPrimaryName, c`offeredNames, c`events
    ensures r.Ok? ==> c.Valid()
    ensures c.Outcome(r) == Deliver(old(c.View()), buyer, recipient, node, l, fee)
  {
    hide TokensIndexed, RootsTraced, SubnamesIndexed, ChildrenCounted, TopRows, NamesOf, KeepSs58, WriteAnchors,
      SellName, GiftName;
    if recipient.Some? {
      :- Ensure(recipient.value != buyer, BuyerIsRecipient);
      :- Ensure(recipient.value != l.seller, SellerIsRecipient);
      var _ :- Registrar.OfferBoughtName(c, l.seller, buyer, recipient.value, node);
      c.events := c.events + [NameBoughtForRecipient(node, l.seller, buyer, recipient.value, l.price, fee)];
    } else {
      var _ :- Registrar.TransferName(c, l.seller, buyer, node);
      SaleAnchors(old(c.View()), l.seller, buyer, node);
      ReAnchor(c, node, buyer);
      c.events := c.events + [Sold(node, l.seller, buyer, l.price, fee)];
    }
    return Ok(());
  }

  /** `buy_name` in terms of its parts. */
  lemma BuyByParts(s: State, buyer: AccountId, node: Node, recipient: Option<AccountId>)
    ensures DoBuy(s, buyer, Some(node), recipient)
            == match OpenListing(s, buyer, node)
               case Err(e) => Err(e)
               case Ok(l) =>
                 match Settle(s, buyer, l)
                 case Err(e) => Err(e)
                 case Ok(m) =>
                   Deliver(s.(money := m, claims := s.claims.(listings := s.claims.listings - {node})), buyer, recipient,
                           node, l, ProtocolFee(l.price, s.sys.cfg.feeBps))
  {
    hide OpenListing, Settle, ProtocolFee, SellName, GiftName;
    if OpenListing(s, buyer, node).Ok? && Settle(s, buyer, OpenListing(s, buyer, node).value).Ok? {
      var l := OpenListing(s, buyer, node).value;
      var s1 := s.(claims := s.claims.(listings := s.claims.listings - {node}));
      RegistrarIgnoresMoney(s1, Settle(s, buyer, l).value, l.seller, buyer,
                            if recipient.Some? then recipient.value else buyer, node);
    }
  }

  method BuyName(c: Chain, buyer: AccountId, name: Bytes, recipient: Option<AccountId>) returns (r: Result<()>)
    requires c.Valid()
    modifies c`tokens, c`tokensByOwner, c`origins, c`subNames, c`accountToSubnames, c`subnameRecords,
             c`offeredToAccount, c`records, c`texts, c`ownerToPrimaryName, c`offeredNames, c`events, c`money, c`listings
    ensures r.Ok? ==> c.Valid()
    ensures c.Outcome(r) == DoBuy(old(c.View()), buyer, Top(name), recipient)
  {
    hide TokensIndexed, RootsTraced, SubnamesIndexed, ChildrenCounted, TopRows, NamesOf, CheckLabel, Lower, Settle,
      Deliver, OpenListing, ProtocolFee, ListingChecks;
    var lab :- OkOr(NewLabel(name), InvalidName);
    var node := EncodeWithNode(lab, Base);
    BuyByParts(c.View(), buyer, node, recipient);
    ListingAgrees(c, buyer, node);
    :- ListingChecks(c, buyer, node);
    var l := c.listings[node];
    var _ :- SettlePrice(c, buyer, l);
    c.listings := c.listings - {node};
    r := DeliverName(c, buyer, recipient, node, l, ProtocolFee(l.price, c.cfg.feeBps));
  }
}
