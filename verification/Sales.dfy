/** What the marketplace does with names and money: listing, taking off the market, buying for oneself or for another. */
module Sales {
  import opened Types
  import opened Labels
  import opened NameParsing
  import opened Currency
  import opened NameService
  import opened Effects

  /** Everything but the listings is as it was. */
  ghost predicate OnlyListings(s: State, t: State) {
    && t.sys == s.sys && t.dir == s.dir && t.zone == s.zone && t.money == s.money && t.events == s.events
    && t.claims.primary == s.claims.primary && t.claims.offered == s.claims.offered
  }

  /** A claimant lists the claimed name at the price and until the time given. */
  lemma ListEffect(s: State, who: AccountId, price: nat, until: nat)
    ensures var x := Signed(who, CreateListing(price, until));
            && (Apply(s, x).Ok? <==>
                  && until > s.sys.env.now && who in s.claims.primary && s.claims.primary[who] !in s.claims.listings)
            && (Apply(s, x).Ok? ==>
                  var n, t := s.claims.primary[who], Step(s, x);
                  && n in t.claims.listings && t.claims.listings[n].seller == who
                  && t.claims.listings[n].price == price && t.claims.listings[n].expiresAt == until
                  && ListingsBut(s.claims, t.claims, n) && OnlyListings(s, t))
  {
  }

  /** A claimant takes the listing of the claimed name off the market. */
  lemma CancelEffect(s: State, who: AccountId)
    ensures var x := Signed(who, CancelListing);
            && (Apply(s, x).Ok? <==> who in s.claims.primary && s.claims.primary[who] in s.claims.listings)
            && (Apply(s, x).Ok? ==>
                  var n, t := s.claims.primary[who], Step(s, x);
                  n !in t.claims.listings && ListingsBut(s.claims, t.claims, n) && OnlyListings(s, t))
  {
  }

  /** The protocol fee: the share of the price in basis points, rounded down, of a product that stops at 128 bits. */
  ghost predicate IsShare(price: nat, bps: nat, fee: nat) {
    var product := if price * bps <= MAX_U128 then price * bps else MAX_U128;
    10_000 * fee <= product < 10_000 * (fee + 1)
  }

  lemma FeeIsShare(price: nat, bps: nat, fee: nat)
    ensures ProtocolFee(price, bps) == fee <==> IsShare(price, bps, fee)
  {
  }

  /** The buyer has the price, the seller the fee on top of what arrives, and both keep the existential deposit. */
  ghost predicate CanSettle(m: Money, existential: nat, buyer: AccountId, seller: AccountId, price: nat, fee: nat) {
    && (price == 0 || (Free(m, buyer) >= price + existential && Free(m, seller) + price >= existential))
    && (fee == 0 || Free(m, seller) + price >= fee + existential)
  }

  ghost predicate Settled(m: Money, m': Money, buyer: AccountId, seller: AccountId, price: nat, fee: nat) {
    && Free(m', buyer) == Free(m, buyer) - price
    && Free(m', seller) == Free(m, seller) + price - fee
    && (forall a :: a != buyer && a != seller ==> Free(m', a) == Free(m, a))
    && m'.issuance == m.issuance - fee
  }

  lemma SettleIs(s: State, buyer: AccountId, l: Listing, fee: nat)
    requires Balanced(s.money) && buyer != l.seller && IsShare(l.price, s.sys.cfg.feeBps, fee)
    ensures Settle(s, buyer, l).Ok? <==> CanSettle(s.money, s.sys.cfg.existential, buyer, l.seller, l.price, fee)
    ensures Settle(s, buyer, l).Ok? ==> Settled(s.money, Settle(s, buyer, l).value, buyer, l.seller, l.price, fee)
  {
    hide Balanced, IsShare, ProtocolFee;
    FeeIsShare(l.price, s.sys.cfg.feeBps, fee);
    var paid := Pay(s.money, s.sys.cfg.existential, buyer, l.seller, l.price);
    if paid.Ok? {
      PayMoves(s.money, s.sys.cfg.existential, buyer, l.seller, l.price);
      WithdrawExact(paid.value, s.sys.cfg.existential, l.seller, fee);
    }
  }

  /** The listing of `n` can be bought by `who`: it is open, the seller still owns the name, and the name is not past its
      grace period. */
  ghost predicate ForSaleTo(s: State, who: AccountId, n: Node) {
    && n in s.claims.listings && s.claims.listings[n].seller != who
    && s.claims.listings[n].expiresAt > s.sys.env.now
    && n in s.dir.names && s.dir.names[n].owner == s.claims.listings[n].seller
    && s.sys.env.now < s.dir.names[n].expire + s.sys.cfg.grace && n != Base
  }

  lemma OpenIs(s: State, who: AccountId, n: Node)
    ensures ForSaleTo(s, who, n) <==>
              OpenListing(s, who, n).Ok? && n != Base && s.sys.env.now < s.dir.names[n].expire + s.sys.cfg.grace
    ensures OpenListing(s, who, n).Ok? ==>
              && n in s.claims.listings && n in s.dir.names && OpenListing(s, who, n).value == s.claims.listings[n]
              && s.dir.names[n].owner == s.claims.listings[n].seller != who
  {
  }

  /** The seller's claim ends if it was to the name sold. */
  ghost predicate SellerLetsGo(c: Claims, c': Claims, seller: AccountId, n: Node) {
    Lookup(c'.primary, seller) == if Lookup(c.primary, seller) == Some(n) then None else Lookup(c.primary, seller)
  }

  lemma SameReceiver(s: State, s1: State, a: AccountId)
    requires s1.sys == s.sys && s1.dir == s.dir && s1.claims.primary == s.claims.primary
    ensures FreeReceiver(s1, a).Pass? <==> MayReceive(s, a)
  {
    ReceiverExact(s1, a);
  }

  lemma SellNameIs(s: State, seller: AccountId, buyer: AccountId, n: Node)
    requires seller != buyer && n in s.dir.names && s.dir.names[n].owner == seller
    ensures SellName(s, seller, buyer, n).Ok? <==>
              n != Base && s.sys.env.now < s.dir.names[n].expire + s.sys.cfg.grace && FreeReceiver(s, buyer).Pass?
    ensures SellName(s, seller, buyer, n).Ok? ==>
              var t := SellName(s, seller, buyer, n).value;
              && HandedOver(s, t, n, buyer)
              && t.claims.listings == s.claims.listings && t.claims.offered == s.claims.offered
              && buyer in t.claims.primary && t.claims.primary[buyer] == n
              && ClaimsBut(s.claims, t.claims, {buyer, seller}) && SellerLetsGo(s.claims, t.claims, seller, n)
  {
    hide FreeReceiver, TransferNode, HandedZone, NamesBut, SubsClearedBelow;
    TransferNodeIs(s, seller, buyer, n);
  }

  lemma GiftNameIs(s: State, seller: AccountId, buyer: AccountId, recipient: AccountId, n: Node)
    requires n in s.dir.names && s.dir.names[n].owner == seller
    ensures GiftName(s, seller, buyer, recipient, n).Ok? <==>
              && n != Base && s.sys.env.now < s.dir.names[n].expire + s.sys.cfg.grace && n !in s.claims.offered
              && FreeReceiver(s, recipient).Pass?
    ensures GiftName(s, seller, buyer, recipient, n).Ok? ==>
              var t := GiftName(s, seller, buyer, recipient, n).value;
              && HandedOver(s, t, n, recipient)
              && t.claims.listings == s.claims.listings && OffersBut(s.claims, t.claims, n)
              && n in t.claims.offered && t.claims.offered[n].buyer == buyer && t.claims.offered[n].recipient == recipient
              && ClaimsBut(s.claims, t.claims, {seller}) && SellerLetsGo(s.claims, t.claims, seller, n)
  {
    hide FreeReceiver, TransferNode, HandedZone, NamesBut, SubsClearedBelow;
    TransferNodeIs(s, seller, recipient, n);
  }

  /** The listing can be settled: `fee` is the share of its price. */
  ghost predicate Affords(s: State, who: AccountId, n: Node, fee: nat)
    requires n in s.claims.listings
  {
    CanSettle(s.money, s.sys.cfg.existential, who, s.claims.listings[n].seller, s.claims.listings[n].price, fee)
  }

  /** What a purchase of either kind does: the price and the fee move, the name is handed over, the listing is gone. */
  ghost predicate Bought(s: State, t: State, buyer: AccountId, receiver: AccountId, n: Node, fee: nat)
    requires n in s.claims.listings
  {
    var l := s.claims.listings[n];
    && Settled(s.money, t.money, buyer, l.seller, l.price, fee)
    && HandedOver(s, t, n, receiver)
    && n !in t.claims.listings && ListingsBut(s.claims, t.claims, n)
    && SellerLetsGo(s.claims, t.claims, l.seller, n)
  }

  /** Buying for oneself: the buyer claims the name. */
  lemma BuyEffect(s: State, who: AccountId, name: Bytes, fee: nat)
    requires Balanced(s.money)
    requires var n := Below(Base, name);
             n in s.claims.listings ==> IsShare(s.claims.listings[n].price, s.sys.cfg.feeBps, fee)
    ensures var x, n := Signed(who, BuyName(name, None)), Below(Base, name);
            && (Apply(s, x).Ok? <==>
                  CheckLabel(name) && ForSaleTo(s, who, n) && MayReceive(s, who) && Affords(s, who, n, fee))
            && (Apply(s, x).Ok? ==>
                  var t, l := Step(s, x), s.claims.listings[n];
                  && Bought(s, t, who, who, n, fee) && t.events == s.events + [Sold(n, l.seller, who, l.price, fee)]
                  && t.claims.offered == s.claims.offered
                  && who in t.claims.primary && t.claims.primary[who] == n
                  && ClaimsBut(s.claims, t.claims, {who, l.seller}))
  {
    hide Balanced, IsShare, CanSettle, Settled, Settle, OpenListing, CheckLabel, FreeReceiver, MayReceive,
      SellName, ProtocolFee, HandedZone, NamesBut, SubsClearedBelow, ParseNameToNode;
    var n := Below(Base, name);
    OpenIs(s, who, n);
    if OpenListing(s, who, n).Ok? {
      var l := s.claims.listings[n];
      FeeIsShare(l.price, s.sys.cfg.feeBps, fee);
      SettleIs(s, who, l, fee);
      var s1 := s.(claims := s.claims.(listings := s.claims.listings - {n}));
      SameReceiver(s, s1, who);
      SellNameIs(s1, l.seller, who, n);
    }
  }

  /** Buying for another: the recipient owns the name and has it offered, and claims nothing yet. */
  lemma GiftEffect(s: State, who: AccountId, name: Bytes, recipient: AccountId, fee: nat)
    requires Balanced(s.money)
    requires var n := Below(Base, name);
             n in s.claims.listings ==> IsShare(s.claims.listings[n].price, s.sys.cfg.feeBps, fee)
    ensures var x, n := Signed(who, BuyName(name, Some(recipient))), Below(Base, name);
            && (Apply(s, x).Ok? <==>
                  && CheckLabel(name) && ForSaleTo(s, who, n) && MayReceive(s, recipient) && Affords(s, who, n, fee)
                  && recipient != who && recipient != s.claims.listings[n].seller && n !in s.claims.offered)
            && (Apply(s, x).Ok? ==>
                  var t, l := Step(s, x), s.claims.listings[n];
                  && Bought(s, t, who, recipient, n, fee)
                  && t.events == s.events + [NameBoughtForRecipient(n, l.seller, who, recipient, l.price, fee)]
                  && n in t.claims.offered && t.claims.offered[n].buyer == who
                  && t.claims.offered[n].recipient == recipient && OffersBut(s.claims, t.claims, n)
                  && ClaimsBut(s.claims, t.claims, {l.seller}))
  {
    hide Balanced, IsShare, CanSettle, Settled, Settle, OpenListing, CheckLabel, FreeReceiver, MayReceive,
      GiftName, ProtocolFee, HandedZone, NamesBut, SubsClearedBelow, ParseNameToNode;
    var n := Below(Base, name);
    OpenIs(s, who, n);
    if OpenListing(s, who, n).Ok? {
      var l := s.claims.listings[n];
      FeeIsShare(l.price, s.sys.cfg.feeBps, fee);
      SettleIs(s, who, l, fee);
      var s1 := s.(claims := s.claims.(listings := s.claims.listings - {n}));
      SameReceiver(s, s1, recipient);
      GiftNameIs(s1, l.seller, who, recipient, n);
    }
  }

  /** A listing is honoured: whoever buys the name at once, for whomever, has exactly the listed price less, and the
      seller that price less the fee more. */
  lemma ListedPriceIsPaid(s: State, seller: AccountId, price: nat, until: nat, buyer: AccountId, name: Bytes,
                          recipient: Option<AccountId>)
    requires Balanced(s.money)
    requires var listed := Signed(seller, CreateListing(price, until));
             && Apply(s, listed).Ok? && s.claims.primary[seller] == Below(Base, name)
             && Apply(Step(s, listed), Signed(buyer, BuyName(name, recipient))).Ok?
    ensures var t := Step(Step(s, Signed(seller, CreateListing(price, until))), Signed(buyer, BuyName(name, recipient)));
            && buyer != seller
            && exists fee :: IsShare(price, s.sys.cfg.feeBps, fee) && Settled(s.money, t.money, buyer, seller, price, fee)
  {
    hide Balanced, IsShare, Settled, CanSettle, Apply, HandedOver, ListingsBut, SellerLetsGo, CheckLabel, MayReceive,
      ProtocolFee;
    ListEffect(s, seller, price, until);
    var s1 := Step(s, Signed(seller, CreateListing(price, until)));
    var fee := ProtocolFee(price, s.sys.cfg.feeBps);
    FeeIsShare(price, s.sys.cfg.feeBps, fee);
    if recipient.None? {
      BuyEffect(s1, buyer, name, fee);
    } else {
      GiftEffect(s1, buyer, name, recipient.value, fee);
    }
  }

  /** Taking a fresh listing off the market restores the state. */
  lemma ListThenCancel(s: State, who: AccountId, price: nat, until: nat)
    requires Apply(s, Signed(who, CreateListing(price, until))).Ok?
    ensures Step(Step(s, Signed(who, CreateListing(price, until))), Signed(who, CancelListing)) == s
  {
    hide ListingsBut;
    var n := s.claims.primary[who];
    var s1 := Step(s, Signed(who, CreateListing(price, until)));
    assert s1.claims.listings - {n} == s.claims.listings;
  }
}
