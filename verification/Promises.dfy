/** What the name service promises its users, drawn from the facts kept by every run. */
module Promises {
  import opened Types
  import opened Labels
  import opened NameParsing
  import opened Currency
  import opened NameService
  import opened AllRuns
  import opened CleanRuns

  // ---------------------------------------------------------------------------------------------
  // One name per account
  // ---------------------------------------------------------------------------------------------

  /** A live name that its owner has accepted. */
  ghost predicate Accepted(s: State, n: Node) {
    Live(s.sys, s.dir, n) && n !in s.claims.offered
  }

  /** No account owns two live accepted names, an account's claim is exactly the live accepted name it owns, and
      an account with such a name holds no subname. */
  lemma OneNameEach(s: State, n: Node, m: Node, a: AccountId)
    requires Consistent(s) && Accepted(s, n) && s.dir.names[n].owner == a
    ensures a in s.claims.primary && s.claims.primary[a] == n
    ensures Accepted(s, m) && s.dir.names[m].owner == a ==> n == m
    ensures !HoldsActiveSubname(s.dir, a)
  {
  }

  // ---------------------------------------------------------------------------------------------
  // Resolution: runtime/src/apis.rs
  // ---------------------------------------------------------------------------------------------

  datatype NameRecord = NameRecord(owner: AccountId, expire: nat, capacity: nat, registerFee: nat, forSale: bool,
                                   lastBlock: nat)

  function GetInfo(s: State, id: Node): Option<NameRecord> {
    if id in s.claims.offered then None
    else if id !in s.dir.names then None
    else
      var info := s.dir.names[id];
      if s.sys.env.now >= info.expire then None
      else Some(NameRecord(info.owner, info.expire, info.capacity, info.registerFee, id in s.claims.listings,
                           info.lastBlock))
  }

  function ResolveName(s: State, name: Bytes): Option<NameRecord> {
    match NewWithLen(name)
    case None => None
    case Some(l) => GetInfo(s, EncodeWithNode(l.0, Base))
  }

  /** Forward and reverse resolution agree: a name resolves to an account exactly when the account claims it and
      it has not expired. */
  lemma ForwardIffReverse(s: State, n: Node, a: AccountId)
    requires Consistent(s)
    ensures GetInfo(s, n).Some? && GetInfo(s, n).value.owner == a
            <==> a in s.claims.primary && s.claims.primary[a] == n && s.sys.env.now < s.dir.names[n].expire
  {
    if n in s.dir.names && s.sys.env.now < s.dir.names[n].expire {
      assert Live(s.sys, s.dir, n);
    }
  }

  /** On names without a dot, resolution reads the node that the shared parser computes. */
  lemma ResolveIsParse(s: State, name: Bytes)
    requires CountDots(name) == 0
    ensures ResolveName(s, name)
            == match ParseNameToNode(name, Base) case None => None case Some(n) => GetInfo(s, n)
  {
    hide GetInfo, Lower, CheckLabel, ParseNameToNode, CountDots;
    ParseAgreesWithLabels(name, Base);
  }

  // ---------------------------------------------------------------------------------------------
  // Gifts
  // ---------------------------------------------------------------------------------------------

  lemma RegisterKeepsOthersGifts(s: State, who: AccountId, a: Action, n: Node)
    requires a.ARegister? && Perform(s, who, a).Ok? && n in s.claims.offered
    ensures var c := Perform(s, who, a).value.claims;
            if a.reject == Some(Some(n)) then who == s.claims.offered[n].recipient
            else n in c.offered && c.offered[n] == s.claims.offered[n]
  {
    hide Wipe, FreeReceiver, Withdraw, RegistrationFee, SubsUnder, Mint, Remove, RegisterZone, FreshName, Live, DropSub;
  }

  lemma BuyKeepsGifts(s: State, who: AccountId, top: Option<Node>, recipient: Option<AccountId>, n: Node)
    requires DoBuy(s, who, top, recipient).Ok? && n in s.claims.offered
    ensures var c := DoBuy(s, who, top, recipient).value.claims;
            n in c.offered && c.offered[n] == s.claims.offered[n]
  {
    hide Settle, ProtocolFee, FreeReceiver, Wipe, SubsUnder, KeepSs58, WriteAnchors, SetOwner;
  }

  /** Only the recipient can take a gift out of the pending state, by accepting it or by turning it down. */
  lemma GiftEndsByRecipient(s: State, who: AccountId, a: Action, n: Node)
    requires Perform(s, who, a).Ok? && n in s.claims.offered
    ensures var c := Perform(s, who, a).value.claims;
            (n in c.offered && c.offered[n] == s.claims.offered[n])
            || (who == s.claims.offered[n].recipient
                && (a == AAcceptGift(Some(n)) || (a.ARegister? && a.reject == Some(Some(n)))))
  {
    hide DoRegister, DoBuy, FreeReceiver, Wipe, BlockedByRow, HasValidName, Withdraw, RegistrationFee, SubsUnder,
      PutRecord, WriteAnchors, KeepSs58, Remove, SetOwner, SetExpire, PutSub, DropSub, Live;
    if a.ARegister? {
      RegisterKeepsOthersGifts(s, who, a, n);
    } else if a.ABuy? {
      BuyKeepsGifts(s, who, a.top, a.recipient, n);
    }
  }

  ghost predicate GiftOf(s: State, n: Node, gift: OfferedName) {
    n in s.claims.offered && s.claims.offered[n] == gift
  }

  /** A step in which the recipient of a gift accepts it or turns it down. */
  ghost predicate AnsweredBy(s: State, x: Extrinsic, n: Node, recipient: AccountId) {
    && x.Signed? && x.who == recipient && Apply(s, x).Ok?
    && var a := Resolve(x.call);
       a == AAcceptGift(Some(n)) || (a.ARegister? && a.reject == Some(Some(n)))
  }

  /** Over every run: if a pending gift is no longer pending as it was, then at some step it still was and its
      recipient answered it. */
  lemma {:induction false} RunGifts(s: State, xs: seq<Extrinsic>, n: Node, gift: OfferedName)
    requires GiftOf(s, n, gift) && !GiftOf(Run(s, xs), n, gift)
    ensures exists i :: 0 <= i < |xs| && GiftOf(Run(s, xs[..i]), n, gift)
                        && AnsweredBy(Run(s, xs[..i]), xs[i], n, gift.recipient)
    decreases |xs|
  {
    hide Perform, Resolve, Top;
    if xs != [] {
      var k := |xs| - 1;
      var s1, x := Run(s, xs[..k]), xs[k];
      if GiftOf(s1, n, gift) {
        if x.Signed? && Apply(s1, x).Ok? {
          GiftEndsByRecipient(s1, x.who, Resolve(x.call), n);
        }
        assert AnsweredBy(Run(s, xs[..k]), xs[k], n, gift.recipient);
      } else {
        RunGifts(s, xs[..k], n, gift);
        var i :| 0 <= i < k && GiftOf(Run(s, xs[..k][..i]), n, gift)
                 && AnsweredBy(Run(s, xs[..k][..i]), xs[..k][i], n, gift.recipient);
        assert xs[..k][..i] == xs[..i] && xs[..k][i] == xs[i];
      }
    }
  }

  // ---------------------------------------------------------------------------------------------
  // Terms
  // ---------------------------------------------------------------------------------------------

  /** A renewal never shortens a registration. */
  lemma RenewalNeverShortens(s: State, who: AccountId)
    requires NoStacking(s.sys, s.dir) && DoRenew(s, who).Ok?
    ensures var n := s.claims.primary[who];
            && n in s.dir.names && n in DoRenew(s, who).value.dir.names
            && DoRenew(s, who).value.dir.names[n].expire >= s.dir.names[n].expire
  {
    hide Withdraw, RegistrationFee;
  }

  /** While the clock leaves room for one full period and its grace in 64 bits, the unchecked addition of the grace
      period to an expiry cannot overflow. */
  lemma GraceNeverOverflows(s: State, n: Node)
    requires NoStacking(s.sys, s.dir) && n in s.dir.names
    requires s.sys.env.now + s.sys.cfg.maxDuration + s.sys.cfg.grace <= MAX_U64
    ensures s.dir.names[n].expire + s.sys.cfg.grace <= MAX_U64
  {
  }

  // ---------------------------------------------------------------------------------------------
  // Clean slate
  // ---------------------------------------------------------------------------------------------

  /** A name just handed to `owner`: no subnames, no records but the two anchors. */
  ghost predicate CleanSlate(s: State, n: Node, owner: AccountId) {
    && n in s.dir.names
    && s.dir.names[n].owner == owner
    && SubsUnder(s.dir.subs, n) == {}
    && (forall k :: k in s.zone.records && k.0 == n ==> k.1 == SS58 || k.1 == ORIGIN)
    && (n, SS58) in s.zone.records && s.zone.records[(n, SS58)] == AccountBytes(owner)
    && (n, ORIGIN) in s.zone.records && s.zone.records[(n, ORIGIN)] == HashBytes(s.sys.env.parentHash)
  }

  lemma TransferNodeSlate(s: State, from: AccountId, to: AccountId, node: Node)
    requires TransferNode(s, from, to, node).Ok?
    ensures CleanSlate(TransferNode(s, from, to, node).value, node, to)
  {
  }

  lemma RegisterNodeSlate(s: State, caller: AccountId, node: Node, labelLen: nat, owner: AccountId)
    requires WellShaped(s.dir) && NoStrayRecords(s.dir, s.zone) && IsTop(node)
    requires RegisterNode(s, caller, node, labelLen, owner).Ok?
    ensures CleanSlate(RegisterNode(s, caller, node, labelLen, owner).value, node, owner)
  {
    hide RegisterClaims, FreeReceiver, Withdraw, RegistrationFee, Live;
  }

  /** Every extrinsic that gives a name a new owner gives it clean. */
  lemma NewOwnerStartsClean(s: State, who: AccountId, a: Action)
    requires Core(s) && TopsAreTop(a) && Perform(s, who, a).Ok?
    ensures a.ARegister? ==> CleanSlate(Perform(s, who, a).value, a.top.value, a.owner)
    ensures a.ATransfer? ==> CleanSlate(Perform(s, who, a).value, s.claims.primary[who], a.to)
    ensures a.ABuy? ==>
              CleanSlate(Perform(s, who, a).value, a.top.value,
                         if a.recipient.Some? then a.recipient.value else who)
  {
    hide NoStacking, Balanced, OneSubnameEach, WithinCapacity, WellShaped, NoStrayRecords, Anchored, TransferNode,
      RegisterNode, RejectOffer, FreeReceiver, Settle, ProtocolFee, SetPrimary, DropPrimary, ForgetPrimary;
    match a
    case ARegister(_, _, _, _, _) =>
      var s0 := s;
      if a.reject.Some? {
        RejectOfferCore(s, who, a.reject.value);
        s0 := RejectOffer(s, who, a.reject.value).value;
      }
      RegisterNodeSlate(s0, who, a.top.value, a.labelLen, a.owner);
    case ATransfer(to) => TransferNodeSlate(s, who, to, s.claims.primary[who]);
    case ABuy(top, recipient) =>
      var l := s.claims.listings[top.value];
      var s1 := s.(claims := s.claims.(listings := s.claims.listings - {top.value}));
      TransferNodeSlate(s1, l.seller, if recipient.Some? then recipient.value else who, top.value);
    case _ =>
  }

  // ---------------------------------------------------------------------------------------------
  // Spelling
  // ---------------------------------------------------------------------------------------------

  /** The label stored with a subname is a spelling of the label of its node. */
  ghost predicate SpellingsMatch(d: Directory) {
    forall n :: n in d.subs ==> n.Child? && NewLabel(d.subs[n].spelling) == Some(n.lab)
  }

  lemma RegisterSpellings(s: State, who: AccountId, a: Action)
    requires SpellingsMatch(s.dir) && a.ARegister? && Perform(s, who, a).Ok?
    ensures SpellingsMatch(Perform(s, who, a).value.dir)
  {
    hide NewLabel, FreeReceiver, Wipe, Withdraw, RegistrationFee, SubsUnder, FreshName, RegisterZone, RegisterClaims,
      Live;
  }

  lemma BuySpellings(s: State, who: AccountId, top: Option<Node>, recipient: Option<AccountId>)
    requires SpellingsMatch(s.dir) && DoBuy(s, who, top, recipient).Ok?
    ensures SpellingsMatch(DoBuy(s, who, top, recipient).value.dir)
  {
    hide NewLabel, FreeReceiver, Wipe, SubsUnder, WriteAnchors, KeepSs58, Settle, ProtocolFee, SetPrimary, DropPrimary,
      ForgetPrimary;
  }

  lemma PerformSpellings(s: State, who: AccountId, a: Action)
    requires SpellingsMatch(s.dir) && Perform(s, who, a).Ok?
    requires a.AOffer? ==> a.lab == NewLabel(a.spelling)
    ensures SpellingsMatch(Perform(s, who, a).value.dir)
  {
    hide NewLabel, DoRegister, DoBuy, FreeReceiver, Wipe, BlockedByRow, HasValidName, Withdraw, RegistrationFee,
      SubsUnder, PutRecord, WriteAnchors, KeepSs58, Live, SetPrimary, DropPrimary, ForgetPrimary;
    if a.ARegister? {
      RegisterSpellings(s, who, a);
    } else if a.ABuy? {
      BuySpellings(s, who, a.top, a.recipient);
    }
  }

  /** In every run the stored label of every subname is a valid spelling of the label its node was made from. */
  lemma {:induction false} RunSpellings(s: State, xs: seq<Extrinsic>)
    requires SpellingsMatch(s.dir)
    ensures SpellingsMatch(Run(s, xs).dir)
    decreases |xs|
  {
    hide SpellingsMatch, Perform, NewLabel, Top, Sub, ParseNameToNode, Lower;
    if xs != [] {
      var s1, x := Run(s, xs[..|xs| - 1]), xs[|xs| - 1];
      RunSpellings(s, xs[..|xs| - 1]);
      if x.Signed? && Apply(s1, x).Ok? {
        PerformSpellings(s1, x.who, Resolve(x.call));
      }
    }
  }

  // ---------------------------------------------------------------------------------------------
  // Money
  // ---------------------------------------------------------------------------------------------

  /** The fees that the events report as burned. */
  function Fees(events: seq<Event>): nat {
    if events == [] then 0 else Fees(events[..|events| - 1]) + events[|events| - 1].fee
  }

  /** A sale takes exactly the price from the buyer, credits the seller with the price less the fee, leaves
      everyone else alone and burns exactly the fee. */
  lemma SettleMoves(s: State, buyer: AccountId, l: Listing)
    requires Balanced(s.money) && buyer != l.seller && Settle(s, buyer, l).Ok?
    ensures var m, fee := Settle(s, buyer, l).value, ProtocolFee(l.price, s.sys.cfg.feeBps);
            && Free(m, buyer) == Free(s.money, buyer) - l.price
            && Free(m, l.seller) == Free(s.money, l.seller) + l.price - fee
            && (forall a :: a != buyer && a != l.seller ==> Free(m, a) == Free(s.money, a))
            && m.issuance == s.money.issuance - fee
  {
    hide Balanced, Pay, Withdraw, ProtocolFee, Free;
    var ed := s.sys.cfg.existential;
    PayMoves(s.money, ed, buyer, l.seller, l.price);
    WithdrawBurns(Pay(s.money, ed, buyer, l.seller, l.price).value, ed, l.seller,
                  ProtocolFee(l.price, s.sys.cfg.feeBps));
  }

  /** Burned fees account for every unit that left the supply. */
  ghost predicate Conserved(s: State, s': State) {
    s'.money.issuance + Fees(s'.events) == s.money.issuance + Fees(s.events)
  }

  lemma RegisterConserves(s: State, caller: AccountId, node: Node, labelLen: nat, owner: AccountId)
    requires Balanced(s.money) && RegisterNode(s, caller, node, labelLen, owner).Ok?
    ensures Conserved(s, RegisterNode(s, caller, node, labelLen, owner).value)
  {
    hide Balanced, Withdraw, RegistrationFee, RegisterClaims, RegisterZone, Mint, FreeReceiver, Live, FreshName;
    WithdrawBurns(s.money, s.sys.cfg.existential, caller, RegistrationFee(s.sys.env.prices, labelLen).value);
  }

  lemma RejectOfferMoney(s: State, caller: AccountId, parsed: Option<Node>)
    requires RejectOffer(s, caller, parsed).Ok?
    ensures var s' := RejectOffer(s, caller, parsed).value; s'.money == s.money && s'.events == s.events
  {
    hide Wipe, SubsUnder, Remove, DropSub;
  }

  lemma RenewConserves(s: State, who: AccountId)
    requires Balanced(s.money) && DoRenew(s, who).Ok?
    ensures Conserved(s, DoRenew(s, who).value)
  {
    hide Balanced, Withdraw, RegistrationFee, SetExpire, Live;
    WithdrawBurns(s.money, s.sys.cfg.existential, who,
                  RegistrationFee(s.sys.env.prices, s.dir.names[s.claims.primary[who]].labelLen).value);
  }

  lemma BuyConserves(s: State, who: AccountId, top: Option<Node>, recipient: Option<AccountId>)
    requires Balanced(s.money) && DoBuy(s, who, top, recipient).Ok?
    ensures Conserved(s, DoBuy(s, who, top, recipient).value)
  {
    hide Balanced, Settle, ProtocolFee, TransferNode, FreeReceiver, ForgetPrimary;
    SettleMoves(s, who, s.claims.listings[top.value]);
  }

  lemma PerformConserves(s: State, who: AccountId, a: Action)
    requires Balanced(s.money) && Perform(s, who, a).Ok?
    ensures Conserved(s, Perform(s, who, a).value)
  {
    hide Balanced, DoRenew, DoBuy, RegisterNode, RejectOffer, FreeReceiver, Wipe, BlockedByRow, HasValidName, SubsUnder,
      PutRecord, WriteAnchors, KeepSs58, Remove, SetOwner, PutSub, DropSub, Fees;
    match a
    case ARegister(_, _, _, _, _) =>
      var s0 := s;
      if a.reject.Some? {
        RejectOfferMoney(s, who, a.reject.value);
        s0 := RejectOffer(s, who, a.reject.value).value;
      }
      RegisterConserves(s0, who, a.top.value, a.labelLen, a.owner);
    case ARenew => RenewConserves(s, who);
    case ABuy(top, recipient) => BuyConserves(s, who, top, recipient);
    case _ =>
  }

  /** Over every run the supply shrinks by exactly the fees that the events report. */
  lemma {:induction false} RunConserves(s: State, xs: seq<Extrinsic>)
    requires Core(s)
    ensures Conserved(s, Run(s, xs))
    decreases |xs|
  {
    hide DirectoryOk, NoStacking, Recorded, Balanced, Perform, Resolve, Fees, Top;
    if xs != [] {
      var s1, x := Run(s, xs[..|xs| - 1]), xs[|xs| - 1];
      RunConserves(s, xs[..|xs| - 1]);
      RunCore(s, xs[..|xs| - 1]);
      if x.Signed? && Apply(s1, x).Ok? {
        PerformConserves(s1, x.who, Resolve(x.call));
      }
    }
  }
}
