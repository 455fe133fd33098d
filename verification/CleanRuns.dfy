/** The agreement between owners, claimed names, gifts, subnames and records, and the exact extrinsics that
    break it. */
module CleanRuns {
  import opened Types
  import opened Currency
  import opened NameService
  import opened AllRuns

  /** A claimed name, live or lapsed, is owned by the account that claims it and is not a pending gift. */
  ghost predicate ClaimsOwned(d: Directory, c: Claims) {
    forall a :: a in c.primary ==>
      c.primary[a] in d.names && d.names[c.primary[a]].owner == a && c.primary[a] !in c.offered
  }

  /** A live name that is not a pending gift is claimed by its owner. */
  ghost predicate OwnersClaim(y: System, d: Directory, c: Claims) {
    forall n :: Live(y, d, n) && n !in c.offered ==>
      d.names[n].owner in c.primary && c.primary[d.names[n].owner] == n
  }

  /** A pending gift is owned by its recipient, is not for sale and has no subnames. */
  ghost predicate GiftsPending(d: Directory, c: Claims) {
    && (forall n :: n in c.offered ==>
          n in d.names && d.names[n].owner == c.offered[n].recipient && n !in c.listings)
    && (forall n :: n in d.subs ==> d.subs[n].parent !in c.offered)
  }

  /** No account holds both a valid name of its own and a subname. */
  ghost predicate OneKindEach(y: System, d: Directory, c: Claims) {
    forall n :: n in d.subs && d.subs[n].state == Active && d.subs[n].target in c.primary ==>
      !Live(y, d, c.primary[d.subs[n].target])
  }

  ghost predicate Agreed(y: System, d: Directory, c: Claims) {
    && ClaimsOwned(d, c)
    && OwnersClaim(y, d, c)
    && GiftsPending(d, c)
    && OneKindEach(y, d, c)
  }

  /** The owner record of a name is its owner. */
  ghost predicate OwnersRecorded(d: Directory, z: Zone) {
    forall n :: n in d.names && (n, SS58) in z.records ==> z.records[(n, SS58)] == AccountBytes(d.names[n].owner)
  }

  ghost predicate Consistent(s: State) {
    Agreed(s.sys, s.dir, s.claims) && OwnersRecorded(s.dir, s.zone)
  }

  // Changes that keep the agreement

  lemma RemoveAgreed(y: System, d: Directory, c: Claims, c': Claims, node: Node)
    requires Agreed(y, d, c) && node in d.names
    requires c'.primary == ForgetPrimary(c, d.names[node].owner, node).primary
    requires c'.offered == c.offered - {node} && c'.listings == c.listings
    ensures Agreed(y, Remove(d, node), c')
  {
  }

  lemma HandOverAgreed(y: System, d: Directory, c: Claims, node: Node, from: AccountId, to: AccountId)
    requires Agreed(y, d, c) && Live(y, d, node) && d.names[node].owner == from && from != to
    requires node !in c.offered
    requires to in c.primary ==> !Live(y, d, c.primary[to])
    requires !HoldsActiveSubname(d, to)
    ensures Agreed(y, SetOwner(d, node, to), SetPrimary(DropPrimary(c, from), to, node))
  {
  }

  lemma GiftAgreed(y: System, d: Directory, c: Claims, node: Node, buyer: AccountId, to: AccountId)
    requires Agreed(y, d, c) && Live(y, d, node) && node !in c.offered && node !in c.listings
    requires d.names[node].owner != to
    ensures var c1 := ForgetPrimary(c, d.names[node].owner, node);
            Agreed(y, SetOwner(d, node, to), c1.(offered := c1.offered[node := OfferedName(buyer, to)]))
  {
  }

  lemma MintClaimsOwned(s: State, node: Node, name: Name)
    requires ClaimsOwned(s.dir, s.claims) && node !in s.claims.offered
    ensures ClaimsOwned(Mint(s.dir, node, name), RegisterClaims(s, node, name.owner))
  {
  }

  lemma MintOwnersClaim(s: State, node: Node, name: Name)
    requires OwnersClaim(s.sys, s.dir, s.claims) && !Live(s.sys, s.dir, node) && !HasValidName(s, name.owner)
    ensures OwnersClaim(s.sys, Mint(s.dir, node, name), RegisterClaims(s, node, name.owner))
  {
  }

  lemma MintGiftsPending(s: State, node: Node, name: Name)
    requires GiftsPending(s.dir, s.claims) && node !in s.claims.offered
    ensures GiftsPending(Mint(s.dir, node, name), RegisterClaims(s, node, name.owner))
  {
  }

  lemma MintOneKindEach(s: State, node: Node, name: Name)
    requires OneKindEach(s.sys, s.dir, s.claims) && ClaimsOwned(s.dir, s.claims)
    requires !HoldsActiveSubname(s.dir, name.owner)
    ensures OneKindEach(s.sys, Mint(s.dir, node, name), RegisterClaims(s, node, name.owner))
  {
  }

  lemma MintAgreed(s: State, node: Node, name: Name)
    requires Agreed(s.sys, s.dir, s.claims)
    requires !Live(s.sys, s.dir, node) && node !in s.claims.offered
    requires !HasValidName(s, name.owner) && !HoldsActiveSubname(s.dir, name.owner)
    ensures Agreed(s.sys, Mint(s.dir, node, name), RegisterClaims(s, node, name.owner))
  {
    hide ClaimsOwned, OwnersClaim, GiftsPending, OneKindEach, Mint, RegisterClaims;
    MintClaimsOwned(s, node, name);
    MintOwnersClaim(s, node, name);
    MintGiftsPending(s, node, name);
    MintOneKindEach(s, node, name);
  }

  lemma AcceptGiftAgreed(s: State, node: Node)
    requires Agreed(s.sys, s.dir, s.claims) && node in s.claims.offered
    requires var to := s.claims.offered[node].recipient; !HasValidName(s, to) && !HoldsActiveSubname(s.dir, to)
    ensures Agreed(s.sys, s.dir, SetPrimary(DropOffer(s.claims, node), s.claims.offered[node].recipient, node))
  {
  }

  lemma SetExpireAgreed(y: System, d: Directory, c: Claims, node: Node, expire: nat)
    requires Agreed(y, d, c) && Live(y, d, node)
    ensures Agreed(y, SetExpire(d, node, expire), c)
  {
  }

  lemma PutSubAgreed(y: System, d: Directory, c: Claims, node: Node, r: SubnameRecord)
    requires Agreed(y, d, c) && r.parent !in c.offered
    requires r.state == Active && r.target in c.primary ==> !Live(y, d, c.primary[r.target])
    ensures Agreed(y, PutSub(d, node, r), c)
  {
  }

  lemma DropSubAgreed(y: System, d: Directory, c: Claims, node: Node)
    requires Agreed(y, d, c)
    ensures Agreed(y, DropSub(d, node), c)
  {
  }

  lemma ListingsAgreed(y: System, d: Directory, c: Claims, listings: map<Node, Listing>)
    requires Agreed(y, d, c)
    requires forall n :: n in listings && n in c.offered ==> n in c.listings
    ensures Agreed(y, d, c.(listings := listings))
  {
  }

  /** Time only ever makes names lapse. */
  lemma TimeAgreed(y: System, y': System, d: Directory, c: Claims)
    requires Agreed(y, d, c) && y.cfg == y'.cfg && y.env.now <= y'.env.now
    ensures Agreed(y', d, c)
  {
  }

  // Changes that keep the owner records

  lemma RemoveOwnersRecorded(d: Directory, z: Zone, node: Node)
    requires OwnersRecorded(d, z) && node in d.names
    ensures OwnersRecorded(Remove(d, node), Wipe(z, SubsUnder(d.subs, node) + {node}))
  {
  }

  lemma SetOwnerOwnersRecorded(d: Directory, z: Zone, node: Node, to: AccountId, hash: int)
    requires OwnersRecorded(d, z) && node in d.names
    ensures OwnersRecorded(SetOwner(d, node, to),
                           WriteAnchors(KeepSs58(Wipe(z, SubsUnder(d.subs, node)), node), node, to, hash))
  {
  }

  lemma MintOwnersRecorded(d: Directory, z: Zone, node: Node, name: Name, hash: int)
    requires OwnersRecorded(d, z)
    ensures OwnersRecorded(Mint(d, node, name), WriteAnchors(Vacate(d, z, node), node, name.owner, hash))
  {
  }

  lemma AnchorsOwnersRecorded(d: Directory, z: Zone, node: Node, hash: int)
    requires OwnersRecorded(d, z) && node in d.names
    ensures OwnersRecorded(d, WriteAnchors(z, node, d.names[node].owner, hash))
  {
  }

  lemma PutRecordOwnersRecorded(d: Directory, z: Zone, node: Node, kind: RecordType, content: Content)
    requires OwnersRecorded(d, z) && (kind != SS58 || node !in d.names)
    ensures OwnersRecorded(d, PutRecord(z, node, kind, content))
  {
  }

  lemma SameNamesOwnersRecorded(d: Directory, d': Directory, z: Zone)
    requires OwnersRecorded(d, z)
    requires forall n :: n in d'.names ==> n in d.names && d'.names[n].owner == d.names[n].owner
    ensures OwnersRecorded(d', z) && (forall gone :: OwnersRecorded(d', Wipe(z, gone)))
  {
  }

  // Extrinsics that always keep the agreement

  /** Burning a name whose claim and offer are withdrawn in the same extrinsic. */
  lemma BurnNodeConsistent(s: State, claims: Claims, caller: AccountId, node: Node)
    requires Consistent(s)
    requires claims.primary == ForgetPrimary(s.claims, caller, node).primary
    requires claims.offered == s.claims.offered - {node} && claims.listings == s.claims.listings
    ensures var r := BurnNode(s.(claims := claims), caller, node); r.Ok? ==> Consistent(r.value)
  {
    hide Agreed, OwnersRecorded, Remove, Wipe, SubsUnder, ForgetPrimary;
    if BurnNode(s.(claims := claims), caller, node).Ok? {
      RemoveAgreed(s.sys, s.dir, s.claims, claims, node);
      RemoveOwnersRecorded(s.dir, s.zone, node);
    }
  }

  lemma RevokeNodeConsistent(s: State, parent: Node, node: Node)
    requires Consistent(s)
    ensures RevokeNode(s, parent, node).Ok? ==> Consistent(RevokeNode(s, parent, node).value)
  {
    hide Agreed, OwnersRecorded, Wipe;
    DropSubAgreed(s.sys, s.dir, s.claims, node);
    SameNamesOwnersRecorded(s.dir, DropSub(s.dir, node), s.zone);
  }

  lemma RejectOfferConsistent(s: State, caller: AccountId, parsed: Option<Node>)
    requires Consistent(s)
    ensures RejectOffer(s, caller, parsed).Ok? ==> Consistent(RejectOffer(s, caller, parsed).value)
  {
    hide OwnersClaim, OneKindEach, OwnersRecorded, BurnNode, RevokeNode, GiftsPending;
    if RejectOffer(s, caller, parsed).Ok? {
      var node := parsed.value;
      if node in s.claims.offered {
        assert ForgetPrimary(s.claims, caller, node) == s.claims;
        BurnNodeConsistent(s, DropOffer(s.claims, node), caller, node);
      } else {
        RevokeNodeConsistent(s, s.dir.subs[node].parent, node);
      }
    }
  }

  /** The recipient of a gift can always turn it down: the burn passes its ownership check. */
  lemma RecipientCanReject(s: State, node: Node)
    requires Consistent(s) && WellShaped(s.dir) && node in s.claims.offered
    ensures RejectOffer(s, s.claims.offered[node].recipient, Some(node)).Ok?
  {
    hide OwnersClaim, OneKindEach, OwnersRecorded, ClaimsOwned, Wipe, Remove;
  }

  lemma RegisterNodeConsistent(s: State, caller: AccountId, node: Node, labelLen: nat, owner: AccountId)
    requires Consistent(s) && node !in s.claims.offered
    ensures var r := RegisterNode(s, caller, node, labelLen, owner); r.Ok? ==> Consistent(r.value)
  {
    hide Agreed, OwnersRecorded, Mint, RegisterClaims, Vacate, WriteAnchors, Live, HasValidName, HoldsActiveSubname,
      HasHeldRow, RegistrationFee, Withdraw;
    var r := RegisterNode(s, caller, node, labelLen, owner);
    if r.Ok? {
      var fee := RegistrationFee(s.sys.env.prices, labelLen).value;
      var name := FreshName(s, node, owner, s.sys.env.now + s.sys.cfg.maxDuration, fee, labelLen);
      MintAgreed(s, node, name);
      MintOwnersRecorded(s.dir, s.zone, node, name, s.sys.env.parentHash);
    }
  }

  lemma RenewConsistent(s: State, who: AccountId)
    requires Consistent(s)
    ensures DoRenew(s, who).Ok? ==> Consistent(DoRenew(s, who).value)
  {
    hide Agreed, OwnersRecorded, RegistrationFee, Withdraw;
    if DoRenew(s, who).Ok? {
      var node, expire := s.claims.primary[who], s.sys.env.now + s.sys.cfg.maxDuration;
      SetExpireAgreed(s.sys, s.dir, s.claims, node, expire);
      SameNamesOwnersRecorded(s.dir, SetExpire(s.dir, node, expire), s.zone);
    }
  }

  /** What the registry's transfer leaves behind when the claims are moved with the token. */
  lemma HandOverConsistent(s: State, from: AccountId, to: AccountId, node: Node, claims: Claims)
    requires Consistent(s) && node in s.dir.names && node !in s.claims.offered && from != to
    requires claims == SetPrimary(DropPrimary(s.claims, from), to, node)
    requires !HasValidName(s, to) && !HoldsActiveSubname(s.dir, to)
    ensures var r := TransferNode(s, from, to, node); r.Ok? ==> Consistent(r.value.(claims := claims))
  {
    hide Agreed, OwnersRecorded, SetOwner, Wipe, KeepSs58, WriteAnchors, SubsUnder, HoldsActiveSubname, SetPrimary,
      DropPrimary;
    if TransferNode(s, from, to, node).Ok? {
      HandOverAgreed(s.sys, s.dir, s.claims, node, from, to);
      SetOwnerOwnersRecorded(s.dir, s.zone, node, to, s.sys.env.parentHash);
    }
  }

  lemma TransferConsistent(s: State, who: AccountId, to: AccountId)
    requires Consistent(s)
    ensures DoTransfer(s, who, to).Ok? ==> Consistent(DoTransfer(s, who, to).value)
  {
    hide OwnersClaim, OneKindEach, GiftsPending, OwnersRecorded, TransferNode, HoldsActiveSubname, HasHeldRow,
      SetPrimary, DropPrimary;
    if DoTransfer(s, who, to).Ok? {
      var node := s.claims.primary[who];
      assert who != to by {
        assert Live(s.sys, s.dir, node);
      }
      HandOverConsistent(s, who, to, node, SetPrimary(DropPrimary(s.claims, who), to, node));
    }
  }

  lemma ReleaseNameConsistent(s: State, who: AccountId)
    requires Consistent(s)
    ensures DoReleaseName(s, who).Ok? ==> Consistent(DoReleaseName(s, who).value)
  {
    hide OwnersClaim, OneKindEach, GiftsPending, OwnersRecorded, BurnNode;
    if DoReleaseName(s, who).Ok? {
      var node := s.claims.primary[who];
      assert s.claims.offered - {node} == s.claims.offered;
      BurnNodeConsistent(s, DropPrimary(s.claims, who), who, node);
    }
  }

  lemma OfferConsistent(s: State, who: AccountId, lab: Option<Bytes>, spelling: Bytes, target: AccountId)
    requires Consistent(s)
    ensures var r := DoOffer(s, who, lab, spelling, target); r.Ok? ==> Consistent(r.value)
  {
    hide OwnersClaim, OneKindEach, GiftsPending, OwnersRecorded, SubsUnder;
    if DoOffer(s, who, lab, spelling, target).Ok? {
      var parent := s.claims.primary[who];
      var node, r := Child(parent, lab.value), SubnameRecord(parent, spelling, target, Offered);
      PutSubAgreed(s.sys, s.dir, s.claims, node, r);
      SameNamesOwnersRecorded(s.dir, PutSub(s.dir, node, r), s.zone);
    }
  }

  lemma AcceptConsistent(s: State, who: AccountId, sub: Option<Node>)
    requires Consistent(s) && WellShaped(s.dir)
    ensures DoAccept(s, who, sub).Ok? ==> Consistent(DoAccept(s, who, sub).value)
  {
    hide OwnersClaim, OneKindEach, ClaimsOwned, OwnersRecorded, PutRecord, BlockedByRow;
    if DoAccept(s, who, sub).Ok? {
      var node := sub.value;
      var r := s.dir.subs[node].(state := Active);
      PutSubAgreed(s.sys, s.dir, s.claims, node, r);
      SameNamesOwnersRecorded(s.dir, PutSub(s.dir, node, r), s.zone);
      PutRecordOwnersRecorded(PutSub(s.dir, node, r), s.zone, node, SS58, AccountBytes(who));
    }
  }

  lemma RejectConsistent(s: State, who: AccountId, sub: Option<Node>)
    requires Consistent(s)
    ensures DoReject(s, who, sub).Ok? ==> Consistent(DoReject(s, who, sub).value)
  {
    hide OwnersClaim, OneKindEach, ClaimsOwned, OwnersRecorded;
    if DoReject(s, who, sub).Ok? {
      var node := sub.value;
      var r := s.dir.subs[node].(state := Rejected);
      PutSubAgreed(s.sys, s.dir, s.claims, node, r);
      SameNamesOwnersRecorded(s.dir, PutSub(s.dir, node, r), s.zone);
    }
  }

  lemma RevokeConsistent(s: State, who: AccountId, lab: Option<Bytes>)
    requires Consistent(s)
    ensures DoRevoke(s, who, lab).Ok? ==> Consistent(DoRevoke(s, who, lab).value)
  {
    hide Consistent, RevokeNode;
    if who in s.claims.primary && lab.Some? {
      RevokeNodeConsistent(s, s.claims.primary[who], Child(s.claims.primary[who], lab.value));
    }
  }

  lemma ReleaseSubConsistent(s: State, who: AccountId, sub: Option<Node>)
    requires Consistent(s)
    ensures DoReleaseSub(s, who, sub).Ok? ==> Consistent(DoReleaseSub(s, who, sub).value)
  {
    hide Agreed, OwnersRecorded, Wipe;
    if DoReleaseSub(s, who, sub).Ok? {
      DropSubAgreed(s.sys, s.dir, s.claims, sub.value);
      SameNamesOwnersRecorded(s.dir, DropSub(s.dir, sub.value), s.zone);
    }
  }

  lemma AcceptGiftConsistent(s: State, who: AccountId, top: Option<Node>)
    requires Consistent(s)
    ensures DoAcceptGift(s, who, top).Ok? ==> Consistent(DoAcceptGift(s, who, top).value)
  {
    hide OwnersClaim, OneKindEach, ClaimsOwned, OwnersRecorded, WriteAnchors, HasValidName, HoldsActiveSubname,
      HasHeldRow;
    if DoAcceptGift(s, who, top).Ok? {
      AcceptGiftAgreed(s, top.value);
      AnchorsOwnersRecorded(s.dir, s.zone, top.value, s.sys.env.parentHash);
    }
  }

  lemma ListingConsistent(s: State, who: AccountId, a: Action)
    requires Consistent(s) && (a.AList? || a.ACancel?)
    ensures Perform(s, who, a).Ok? ==> Consistent(Perform(s, who, a).value)
  {
    hide OwnersClaim, OneKindEach, GiftsPending, OwnersRecorded;
    var r := Perform(s, who, a);
    if r.Ok? {
      ListingsAgreed(s.sys, s.dir, s.claims, r.value.claims.listings);
    }
  }

  lemma EditConsistent(s: State, who: AccountId, a: Action)
    requires Consistent(s) && (a.ASetRecord? || a.ASetText?)
    ensures Perform(s, who, a).Ok? ==> Consistent(Perform(s, who, a).value)
  {
    hide Agreed;
  }

  lemma SellClaims(c: Claims, seller: AccountId, buyer: AccountId, node: Node)
    requires seller in c.primary && c.primary[seller] == node && seller != buyer
    ensures SetPrimary(ForgetPrimary(DropPrimary(c, buyer), seller, node), buyer, node)
            == SetPrimary(DropPrimary(c, seller), buyer, node)
  {
    assert (c.primary - {buyer} - {seller})[buyer := node] == (c.primary - {seller})[buyer := node];
  }

  lemma SellConsistent(s: State, seller: AccountId, buyer: AccountId, node: Node)
    requires Consistent(s) && node !in s.claims.offered && seller != buyer
    ensures SellName(s, seller, buyer, node).Ok? ==> Consistent(SellName(s, seller, buyer, node).value)
  {
    hide ClaimsOwned, OneKindEach, GiftsPending, OwnersRecorded, HoldsActiveSubname, HasHeldRow, SetPrimary,
      DropPrimary, ForgetPrimary, HasValidName, Wipe, KeepSs58, WriteAnchors, SubsUnder, SetOwner;
    if SellName(s, seller, buyer, node).Ok? {
      assert Live(s.sys, s.dir, node);
      SellClaims(s.claims, seller, buyer, node);
      HandOverConsistent(s, seller, buyer, node, SetPrimary(DropPrimary(s.claims, seller), buyer, node));
    }
  }

  lemma GiftConsistent(s: State, seller: AccountId, buyer: AccountId, to: AccountId, node: Node)
    requires Consistent(s) && node !in s.claims.listings && seller != to
    ensures GiftName(s, seller, buyer, to, node).Ok? ==> Consistent(GiftName(s, seller, buyer, to, node).value)
  {
    hide Agreed, OwnersRecorded, BlockedByRow, ForgetPrimary, HasValidName, Wipe, KeepSs58, WriteAnchors, SubsUnder,
      SetOwner;
    if GiftName(s, seller, buyer, to, node).Ok? {
      assert Live(s.sys, s.dir, node);
      GiftAgreed(s.sys, s.dir, s.claims, node, buyer, to);
      SetOwnerOwnersRecorded(s.dir, s.zone, node, to, s.sys.env.parentHash);
    }
  }

  lemma BuyConsistent(s: State, who: AccountId, top: Option<Node>, recipient: Option<AccountId>)
    requires Consistent(s)
    ensures DoBuy(s, who, top, recipient).Ok? ==> Consistent(DoBuy(s, who, top, recipient).value)
  {
    hide ClaimsOwned, OwnersClaim, OneKindEach, OwnersRecorded, SellName, GiftName, Settle, ProtocolFee;
    if DoBuy(s, who, top, recipient).Ok? {
      var node := top.value;
      var l := s.claims.listings[node];
      var s1 := s.(claims := s.claims.(listings := s.claims.listings - {node}));
      ListingsAgreed(s.sys, s.dir, s.claims, s1.claims.listings);
      if recipient.Some? {
        GiftConsistent(s1, l.seller, who, recipient.value, node);
      } else {
        SellConsistent(s1, l.seller, who, node);
      }
    }
  }

  // The two extrinsics that may break the agreement

  /** The bare registry `burn` does not withdraw the claim or the gift of the name it destroys, and `register`
      does not withdraw the gift of a lapsed name it takes over. A call is clean when it does neither. */
  ghost predicate Clean(s: State, who: AccountId, a: Action) {
    match a
    case ABurn(Some(n)) => n !in s.claims.offered && !(who in s.claims.primary && s.claims.primary[who] == n)
    case ARegister(_, Some(n), _, _, reject) => n in s.claims.offered ==> reject == Some(Some(n))
    case _ => true
  }

  lemma BurnExact(s: State, who: AccountId, parsed: Option<Node>)
    requires Consistent(s) && DoBurn(s, who, parsed).Ok?
    ensures Consistent(DoBurn(s, who, parsed).value) <==> Clean(s, who, ABurn(parsed))
  {
    hide OwnersClaim, OneKindEach, OwnersRecorded, Wipe, SubsUnder, SubsOutside;
    var node := parsed.value;
    if Clean(s, who, ABurn(parsed)) {
      assert s.claims.offered - {node} == s.claims.offered;
      BurnNodeConsistent(s, s.claims, who, node);
    }
  }

  lemma RegisterNodeExact(s: State, caller: AccountId, node: Node, labelLen: nat, owner: AccountId)
    requires Consistent(s) && RegisterNode(s, caller, node, labelLen, owner).Ok?
    ensures Consistent(RegisterNode(s, caller, node, labelLen, owner).value) <==> node !in s.claims.offered
  {
    hide OwnersClaim, OneKindEach, OwnersRecorded, GiftsPending, Mint, Vacate, WriteAnchors, RegistrationFee, Withdraw,
      FreeReceiver, Live;
    if node !in s.claims.offered {
      RegisterNodeConsistent(s, caller, node, labelLen, owner);
    } else {
      var claims := RegisterNode(s, caller, node, labelLen, owner).value.claims;
      assert owner in claims.primary && claims.primary[owner] == node && node in claims.offered;
    }
  }

  lemma RejectOfferClaims(s: State, caller: AccountId, parsed: Option<Node>)
    requires RejectOffer(s, caller, parsed).Ok?
    ensures parsed.Some? && RejectOffer(s, caller, parsed).value.claims.offered == s.claims.offered - {parsed.value}
  {
    hide Remove, Wipe, SubsUnder, DropSub;
    assert parsed.value !in s.claims.offered ==> s.claims.offered - {parsed.value} == s.claims.offered;
  }

  lemma RegisterExact(s: State, who: AccountId, a: Action)
    requires Consistent(s) && a.ARegister? && Perform(s, who, a).Ok?
    ensures Consistent(Perform(s, who, a).value) <==> Clean(s, who, a)
  {
    hide Consistent, RejectOffer, RegisterNode;
    var s0 := s;
    if a.reject.Some? {
      RejectOfferConsistent(s, who, a.reject.value);
      RejectOfferClaims(s, who, a.reject.value);
      s0 := RejectOffer(s, who, a.reject.value).value;
    }
    RegisterNodeExact(s0, who, a.top.value, a.labelLen, a.owner);
  }

  lemma {:induction false} PerformExact(s: State, who: AccountId, a: Action)
    requires Core(s) && Consistent(s) && Perform(s, who, a).Ok?
    ensures Consistent(Perform(s, who, a).value) <==> Clean(s, who, a)
  {
    hide WellShaped, OneSubnameEach, WithinCapacity, NoStacking, Recorded, Balanced, Consistent, DoRegister, DoRenew,
      DoTransfer, DoReleaseName, DoOffer, DoAccept, DoReject, DoRevoke, DoReleaseSub, DoAcceptGift, DoBurn, DoList,
      DoCancel, DoBuy, DoSetRecord, DoSetText;
    match a
    case ARegister(_, _, _, _, _) => RegisterExact(s, who, a);
    case ARenew => RenewConsistent(s, who);
    case ATransfer(to) => TransferConsistent(s, who, to);
    case AReleaseName => ReleaseNameConsistent(s, who);
    case AOffer(lab, spelling, target) => OfferConsistent(s, who, lab, spelling, target);
    case AAccept(node) => AcceptConsistent(s, who, node);
    case AReject(node) => RejectConsistent(s, who, node);
    case ARevoke(lab) => RevokeConsistent(s, who, lab);
    case AReleaseSub(node) => ReleaseSubConsistent(s, who, node);
    case AAcceptGift(top) => AcceptGiftConsistent(s, who, top);
    case ABurn(node) => BurnExact(s, who, node);
    case AList(_, _) => ListingConsistent(s, who, a);
    case ACancel => ListingConsistent(s, who, a);
    case ABuy(top, recipient) => BuyConsistent(s, who, top, recipient);
    case ASetRecord(_, _, _) => EditConsistent(s, who, a);
    case ASetText(_, _, _) => EditConsistent(s, who, a);
  }

  ghost predicate CleanStep(s: State, x: Extrinsic) {
    x.Signed? && Apply(s, x).Ok? ==> Clean(s, x.who, Resolve(x.call))
  }

  /** A step from an agreeing state ends in one exactly when it is clean. */
  lemma StepExact(s: State, x: Extrinsic)
    requires Core(s) && Consistent(s)
    ensures Consistent(Step(s, x)) <==> CleanStep(s, x)
  {
    hide Agreed, OwnersRecorded, Perform, Resolve, Top, Clean, Core;
    match x
    case Signed(who, call) =>
      if Apply(s, x).Ok? {
        PerformExact(s, who, Resolve(call));
      }
    case Root(call) =>
      TimeAgreed(s.sys, Step(s, x).sys, s.dir, s.claims);
    case NewBlock(env) =>
      if s.sys.env.now <= env.now {
        TimeAgreed(s.sys, s.sys.(env := env), s.dir, s.claims);
      }
  }

  ghost predicate CleanRun(s: State, xs: seq<Extrinsic>)
    decreases |xs|
  {
    xs == [] || (CleanRun(s, xs[..|xs| - 1]) && CleanStep(Run(s, xs[..|xs| - 1]), xs[|xs| - 1]))
  }

  /** Every clean run keeps the agreement. */
  lemma {:induction false} RunConsistent(s: State, xs: seq<Extrinsic>)
    requires Core(s) && Consistent(s) && CleanRun(s, xs)
    ensures Core(Run(s, xs)) && Consistent(Run(s, xs))
    decreases |xs|
  {
    hide Core, Consistent, CleanStep, Step;
    RunCore(s, xs);
    if xs != [] {
      RunConsistent(s, xs[..|xs| - 1]);
      StepExact(Run(s, xs[..|xs| - 1]), xs[|xs| - 1]);
    }
  }

  /** A run passes only through agreeing states exactly when it is clean. */
  lemma {:induction false} RunExact(s: State, xs: seq<Extrinsic>)
    requires Core(s) && Consistent(s)
    ensures (forall i :: 0 <= i <= |xs| ==> Consistent(Run(s, xs[..i]))) <==> CleanRun(s, xs)
    decreases |xs|
  {
    hide Core, Consistent, CleanStep, Step;
    if xs == [] {
      assert xs[..0] == xs;
    } else {
      var k := |xs| - 1;
      var rest := xs[..k];
      RunExact(s, rest);
      RunCore(s, rest);
      assert forall i :: 0 <= i <= k ==> rest[..i] == xs[..i];
      assert xs[..k + 1] == xs && rest[..k] == rest;
      if Consistent(Run(s, rest)) {
        StepExact(Run(s, rest), xs[k]);
      }
    }
  }

  lemma GenesisConsistent(cfg: Config, env: Env, official: AccountId, reserved: set<Node>, money: Money)
    ensures Consistent(Genesis(cfg, env, official, reserved, money))
  {
  }
}
