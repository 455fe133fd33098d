/** pns-registrar/src/registrar.rs: the extrinsics, and what the marketplace asks of the registrar. */
module Registrar {
  import opened Types
  import opened Labels
  import opened NameParsing
  import opened Currency
  import opened NameService
  import opened Storage
  import opened Indexes
  import opened RegistrarChecks
  import opened Subnames
  import Registry
  import Resolvers

  /** An outcome with the claims replaced: neither a transfer nor a burn in the registry looks at them. */
  ghost function WithClaims(r: Result<State>, claims: Claims): Result<State> {
    match r
    case Ok(s) => Ok(s.(claims := claims))
    case Err(e) => Err(e)
  }

  lemma RegistryIgnoresClaims(s: State, claims: Claims, from: AccountId, to: AccountId, node: Node)
    ensures TransferNode(s.(claims := claims), from, to, node) == WithClaims(TransferNode(s, from, to, node), claims)
    ensures BurnNode(s.(claims := claims), from, node) == WithClaims(BurnNode(s, from, node), claims)
  {
    hide Wipe, SubsUnder, KeepSs58, WriteAnchors, SetOwner, Remove;
  }

  /** Admits an account that holds no name, and forgets a claim of it that has lapsed. */
  method AdmitReceiver(c: Chain, account: AccountId) returns (r: Result<()>)
    requires c.Valid()
    modifies c`ownerToPrimaryName
    ensures match FreeReceiver(old(c.View()), account)
            case Pass =>
              && r.Ok? && c.Valid()
              && c.View() == old(c.View()).(claims := DropPrimary(old(c.ViewClaims()), account))
            case Fail(e) => r == Err(e)
  {
    hide TokensIndexed, RootsTraced, SubnamesIndexed, ChildrenCounted, TopRows, NamesOf, HasActiveSubname, BlockedByRow,
      HasValidName;
    ChecksAgree(c, account);
    if account in c.ownerToPrimaryName {
      :- Ensure(!HasValidCanonicalName(c, account), AlreadyHasCanonicalName);
      c.ownerToPrimaryName := c.ownerToPrimaryName - {account};
    }
    :- Ensure(!HasActiveSubname(c, account), AlreadyHoldsSubdomain);
    assert c.ownerToPrimaryName == old(c.ownerToPrimaryName) - {account};
    return Ok(());
  }

  method AddReserved(c: Chain, name: Bytes) returns (r: Result<()>)
    requires c.Valid()
    modifies c`reservedList
    ensures r.Ok? ==> c.Valid()
    ensures c.Outcome(r) == DoReserve(old(c.View()), Top(name), true)
  {
    hide TokensIndexed, RootsTraced, SubnamesIndexed, ChildrenCounted, TopRows, NamesOf, NewWithLen;
    var l :- OkOr(NewWithLen(name), ParseLabelFailed);
    c.reservedList := c.reservedList + {EncodeWithNode(l.0, Base)};
    return Ok(());
  }

  method RemoveReserved(c: Chain, name: Bytes) returns (r: Result<()>)
    requires c.Valid()
    modifies c`reservedList
    ensures r.Ok? ==> c.Valid()
    ensures c.Outcome(r) == DoReserve(old(c.View()), Top(name), false)
  {
    hide TokensIndexed, RootsTraced, SubnamesIndexed, ChildrenCounted, TopRows, NamesOf, NewWithLen;
    var l :- OkOr(NewWithLen(name), ParseLabelFailed);
    c.reservedList := c.reservedList - {EncodeWithNode(l.0, Base)};
    return Ok(());
  }

  // `register`

  lemma RejectIsRevoke(s: State, caller: AccountId, node: Node)
    requires node !in s.claims.offered
    ensures RejectOffer(s, caller, Some(node)) == match RevokePendingSpec(s, node, caller)
                                                  case Ok(s') => Ok(s')
                                                  case Err(_) => Err(OfferedNameNotFound)
  {
    hide DropSub, Wipe;
  }

  /** The optional first part of `register`. */
  method RejectPending(c: Chain, caller: AccountId, name: Bytes) returns (r: Result<()>)
    requires c.Valid()
    modifies c`tokens, c`tokensByOwner, c`totalIssuance, c`origins, c`subNames, c`accountToSubnames, c`subnameRecords,
             c`offeredToAccount, c`infos, c`records, c`texts, c`offeredNames
    ensures r.Ok? ==> c.Valid()
    ensures c.Outcome(r) == RejectOffer(old(c.View()), caller, ParseNameToNode(name, Base))
  {
    hide TokensIndexed, RootsTraced, SubnamesIndexed, ChildrenCounted, TopRows, NamesOf, BurnNode, RevokePendingSpec,
      ParseNameToNode, RevokeNode;
    var node :- OkOr(ParseNameToNode(name, Base), ParseLabelFailed);
    if node in c.offeredNames {
      var offer := c.offeredNames[node];
      c.offeredNames := c.offeredNames - {node};
      :- Ensure(offer.recipient == caller, NotOfferedNameRecipient);
      r := Registry.DoBurn(c, caller, node);
    } else {
      RejectIsRevoke(c.View(), caller, node);
      var revoked := RevokePendingOfferForTarget(c, node, caller);
      r := if revoked.Ok? then Ok(()) else Err(OfferedNameNotFound);
    }
  }

  /** `register` in terms of `mint_subname`. */
  lemma RegisterByMint(s: State, caller: AccountId, node: Node, labelLen: nat, owner: AccountId, fee: nat)
    requires RegistrationFee(s.sys.env.prices, labelLen) == Some(fee)
    requires s.sys.env.now + s.sys.cfg.maxDuration <= MAX_U64 && node !in s.sys.reserved && FreeReceiver(s, owner).Pass?
    ensures var expire := s.sys.env.now + s.sys.cfg.maxDuration;
            RegisterNode(s, caller, node, labelLen, owner)
            == match Registry.MintSpec(s.(claims := DropPrimary(s.claims, owner)), caller, node, owner, fee, expire,
                                       labelLen)
               case Ok(t) =>
                 Ok(t.(claims := SetPrimary(t.claims, owner, node),
                       zone := WriteAnchors(t.zone, node, owner, s.sys.env.parentHash),
                       events := s.events + [NameRegistered(node, owner, expire, fee)]))
               case Err(e) => Err(e)
  {
    hide RegistrationFee, FreeReceiver, Withdraw, Wipe, WriteAnchors, Vacate, SetPrimary, ForgetPrimary, Mint,
      DropPrimary, Live;
  }

  function RegisterChecks(c: Chain, node: Node): Check
    reads c
  {
    if c.env.now + c.cfg.maxDuration > MAX_U64 then Fail(Overflow)
    else Ensure(node !in c.reservedList, Frozen)
  }

  /** Makes the owner's claim and writes the two protected records. */
  method Install(c: Chain, node: Node, owner: AccountId)
    requires c.Valid()
    modifies c`ownerToPrimaryName, c`records
    ensures c.Valid()
    ensures c.View() == old(c.View()).(claims := SetPrimary(old(c.ViewClaims()), owner, node),
                                       zone := WriteAnchors(old(Zone(c.records, c.texts)), node, owner, c.env.parentHash))
  {
    hide TokensIndexed, RootsTraced, SubnamesIndexed, ChildrenCounted, TopRows, NamesOf, PutRecord;
    c.ownerToPrimaryName := c.ownerToPrimaryName[owner := node];
    Resolvers.SetSs58Record(c, node, owner);
    Resolvers.SetOriginRecord(c, node);
  }

  /** The rest of `register`, once the label is read. */
  method RegisterTop(c: Chain, caller: AccountId, node: Node, labelLen: nat, owner: AccountId) returns (r: Result<()>)
    requires c.Valid() && IsTop(node)
    modifies c`tokens, c`tokensByOwner, c`totalIssuance, c`origins, c`subNames, c`accountToSubnames, c`subnameRecords,
             c`offeredToAccount, c`records, c`texts, c`ownerToPrimaryName, c`money, c`infos, c`events
    ensures r.Ok? ==> c.Valid()
    ensures c.Outcome(r) == RegisterNode(old(c.View()), caller, node, labelLen, owner)
  {
    hide TokensIndexed, RootsTraced, SubnamesIndexed, ChildrenCounted, TopRows, NamesOf, RegistrationFee, FreeReceiver,
      Withdraw, WriteAnchors, RegisterZone, RegisterClaims, Mint, Live, Registry.MintSpec, DropPrimary, SetPrimary;
    :- RegisterChecks(c, node);
    var expire := c.env.now + c.cfg.maxDuration;
    var _ :- AdmitReceiver(c, owner);
    var fee :- OkOr(RegistrationFee(c.env.prices, labelLen), Overflow);
    RegisterByMint(old(c.View()), caller, node, labelLen, owner, fee);
    BaseIsOfficial(c.tokens, c.infos, c.origins, c.official);
    var official := c.official.value;
    var _ :- Registry.MintSubname(c, official, Base, node, owner, 0, caller, fee, expire, labelLen);
    Install(c, node, owner);
    c.events := c.events + [NameRegistered(node, owner, expire, fee)];
    return Ok(());
  }

  /** The argument of `register` that names an offer to turn down, read. */
  ghost function ParsedReject(reject: Option<Bytes>): Option<Option<Node>> {
    if reject.Some? then Some(ParseNameToNode(reject.value, Base)) else None
  }

  method Register(c: Chain, caller: AccountId, name: Bytes, owner: AccountId, reject: Option<Bytes>)
    returns (r: Result<()>)
    requires c.Valid()
    modifies c`tokens, c`tokensByOwner, c`totalIssuance, c`origins, c`subNames, c`accountToSubnames, c`subnameRecords,
             c`offeredToAccount, c`records, c`texts, c`ownerToPrimaryName, c`money, c`infos, c`events,
             c`offeredNames
    ensures r.Ok? ==> c.Valid()
    ensures c.Outcome(r)
            == DoRegister(old(c.View()), caller, name == [], Top(name), |Lower(name)|, owner, ParsedReject(reject))
  {
    hide TokensIndexed, RootsTraced, SubnamesIndexed, ChildrenCounted, TopRows, NamesOf, RejectOffer, RegisterNode,
      CheckLabel, Lower, ParseNameToNode;
    if reject.Some? {
      var _ :- RejectPending(c, caller, reject.value);
    }
    :- Ensure(name != [], LabelInvalid);
    :- Ensure(c.cfg.open, RegistrarClosed);
    var l :- OkOr(NewWithLen(name), ParseLabelFailed);
    if l.1 < MIN_REGISTRABLE_LEN {
      assert false; // every valid label is long enough
    }
    r := RegisterTop(c, caller, EncodeWithNode(l.0, Base), l.1, owner);
  }

  // `renew`

  function RenewChecks(c: Chain, caller: AccountId): Check
    reads c
  {
    if !c.cfg.open then Fail(RegistrarClosed)
    else if caller !in c.ownerToPrimaryName then Fail(NoCanonicalName)
    else if c.ownerToPrimaryName[caller] !in c.infos then Fail(NotExistOrOccupied)
    else Ensure(c.env.now <= c.infos[c.ownerToPrimaryName[caller]].expire + c.cfg.grace, NotRenewable)
  }

  /** What renewal does once its checks have passed. */
  ghost function RenewSpec(s: State, caller: AccountId, node: Node, labelLen: nat): Result<State>
    requires node in s.dir.names
  {
    var fee :- OkOr(RegistrationFee(s.sys.env.prices, labelLen), Overflow);
    var money :- Withdraw(s.money, s.sys.cfg.existential, caller, fee);
    var expire := s.sys.env.now + s.sys.cfg.maxDuration;
    :- Ensure(expire <= MAX_U64, Overflow);
    Ok(s.(dir := SetExpire(s.dir, node, expire), money := money,
          events := s.events + [NameRenewed(node, caller, expire, fee)]))
  }

  lemma RenewAgrees(c: Chain, caller: AccountId)
    requires c.Valid()
    ensures RenewChecks(c, caller).Pass? ==>
              && caller in c.ownerToPrimaryName && c.ownerToPrimaryName[caller] in c.infos
              && c.ownerToPrimaryName[caller] in c.View().dir.names && c.ownerToPrimaryName[caller] in c.tokens
    ensures DoRenew(c.View(), caller)
            == match RenewChecks(c, caller)
               case Pass =>
                 var node := c.ownerToPrimaryName[caller];
                 RenewSpec(c.View(), caller, node, c.infos[node].labelLen)
               case Fail(e) => Err(e)
  {
    hide SetExpire, RegistrationFee, Withdraw, TokensIndexed, RootsTraced, SubnamesIndexed, ChildrenCounted, TopRows,
      NamesOf;
    if caller in c.ownerToPrimaryName {
      NamesAreInfos(c.tokens, c.infos, c.origins, c.official, c.ownerToPrimaryName[caller]);
    }
  }

  method Prolong(c: Chain, node: Node, expire: nat)
    requires c.Valid() && node in c.infos && node in c.View().dir.names
    modifies c`infos
    ensures c.Valid()
    ensures c.View() == old(c.View()).(dir := SetExpire(old(c.ViewDirectory()), node, expire))
  {
    hide TokensIndexed, RootsTraced, SubnamesIndexed, ChildrenCounted, TopRows, NamesOf;
    ghost var info := c.infos[node].(expire := expire);
    NamesAreInfos(c.tokens, c.infos, c.origins, c.official, node);
    RewrittenInfo(c.tokens, c.infos, c.origins, c.official, node, info);
    RewrittenInfoSubs(c.tokens, c.infos, c.subnameRecords, c.subNames, c.offeredToAccount, c.accountToSubnames, node,
                      info);
    c.infos := c.infos[node := c.infos[node].(expire := expire)];
  }

  method Renew(c: Chain, caller: AccountId) returns (r: Result<()>)
    requires c.Valid()
    modifies c`infos, c`money, c`events
    ensures r.Ok? ==> c.Valid()
    ensures c.Outcome(r) == DoRenew(old(c.View()), caller)
  {
    hide TokensIndexed, RootsTraced, SubnamesIndexed, ChildrenCounted, TopRows, NamesOf, RegistrationFee, Withdraw,
      SetExpire, DoRenew, RenewChecks;
    RenewAgrees(c, caller);
    :- RenewChecks(c, caller);
    var node := c.ownerToPrimaryName[caller];
    var fee :- OkOr(RegistrationFee(c.env.prices, c.infos[node].labelLen), Overflow);
    var _ :- WithdrawFee(c, caller, fee);
    var expire := c.env.now + c.cfg.maxDuration;
    :- Ensure(expire <= MAX_U64, Overflow);
    Prolong(c, node, expire);
    c.events := c.events + [NameRenewed(node, caller, expire, fee)];
    return Ok(());
  }

  // `transfer`, `release_name` and what the marketplace calls

  function TransferChecks(c: Chain, who: AccountId): Check
    reads c
  {
    if !c.cfg.open then Fail(RegistrarClosed)
    else if who !in c.ownerToPrimaryName then Fail(NoCanonicalName)
    else
      var node := c.ownerToPrimaryName[who];
      Ensure(node in c.infos ==> c.infos[node].expire + c.cfg.grace > c.env.now, NotOwned)
  }

  lemma TransferAgrees(c: Chain, who: AccountId, to: AccountId)
    requires c.Valid()
    ensures TransferChecks(c, who).Pass? ==> who in c.ownerToPrimaryName
    ensures DoTransfer(c.View(), who, to)
            == match TransferChecks(c, who)
               case Fail(e) => Err(e)
               case Pass =>
                 match FreeReceiver(c.View(), to)
                 case Fail(e) => Err(e)
                 case Pass =>
                   var node := c.ownerToPrimaryName[who];
                   WithClaims(TransferNode(c.View(), who, to, node),
                              SetPrimary(DropPrimary(c.ViewClaims(), who), to, node))
  {
    hide FreeReceiver, TransferNode, DropPrimary, SetPrimary, TokensIndexed, RootsTraced, SubnamesIndexed,
      ChildrenCounted, TopRows, NamesOf;
    if who in c.ownerToPrimaryName {
      NamesAreInfos(c.tokens, c.infos, c.origins, c.official, c.ownerToPrimaryName[who]);
    }
  }

  /** Hands the token on. The claims may have changed since the caller's state `s`. */
  method MoveToken(c: Chain, from: AccountId, to: AccountId, node: Node, ghost s: State) returns (r: Result<()>)
    requires c.Valid() && c.View() == s.(claims := c.ViewClaims())
    modifies c`tokens, c`tokensByOwner, c`origins, c`subNames, c`accountToSubnames, c`subnameRecords,
             c`offeredToAccount, c`records, c`texts
    ensures r.Ok? ==> c.Valid()
    ensures c.Outcome(r) == WithClaims(TransferNode(s, from, to, node), c.ViewClaims())
  {
    hide TokensIndexed, RootsTraced, SubnamesIndexed, ChildrenCounted, TopRows, NamesOf, TransferNode;
    RegistryIgnoresClaims(s, c.ViewClaims(), from, to, node);
    r := Registry.DoTransfer(c, from, to, node);
  }

  method Transfer(c: Chain, who: AccountId, to: AccountId) returns (r: Result<()>)
    requires c.Valid()
    modifies c`tokens, c`tokensByOwner, c`origins, c`subNames, c`accountToSubnames, c`subnameRecords,
             c`offeredToAccount, c`records, c`texts, c`ownerToPrimaryName
    ensures r.Ok? ==> c.Valid()
    ensures c.Outcome(r) == DoTransfer(old(c.View()), who, to)
  {
    hide TokensIndexed, RootsTraced, SubnamesIndexed, ChildrenCounted, TopRows, NamesOf, FreeReceiver, TransferNode,
      DoTransfer, TransferChecks;
    TransferAgrees(c, who, to);
    :- TransferChecks(c, who);
    var node := c.ownerToPrimaryName[who];
    var _ :- AdmitReceiver(c, to);
    var _ :- MoveToken(c, who, to, node, old(c.View()));
    c.ownerToPrimaryName := (c.ownerToPrimaryName - {who})[to := node];
    assert c.ownerToPrimaryName == (old(c.ownerToPrimaryName) - {who})[to := node];
    return Ok(());
  }

  method ReleaseName(c: Chain, caller: AccountId) returns (r: Result<()>)
    requires c.Valid()
    modifies c`tokens, c`tokensByOwner, c`totalIssuance, c`origins, c`subNames, c`accountToSubnames, c`subnameRecords,
             c`offeredToAccount, c`infos, c`records, c`texts, c`ownerToPrimaryName
    ensures r.Ok? ==> c.Valid()
    ensures c.Outcome(r) == DoReleaseName(old(c.View()), caller)
  {
    hide TokensIndexed, RootsTraced, SubnamesIndexed, ChildrenCounted, TopRows, NamesOf, BurnNode;
    var node :- OkOr(Lookup(c.ownerToPrimaryName, caller), NoCanonicalName);
    c.ownerToPrimaryName := c.ownerToPrimaryName - {caller};
    r := Registry.DoBurn(c, caller, node);
  }

  /** Forgets an account's claim to a given name. */
  method ForgetClaim(c: Chain, account: AccountId, node: Node)
    requires c.Valid()
    modifies c`ownerToPrimaryName
    ensures c.Valid()
    ensures c.View() == old(c.View()).(claims := ForgetPrimary(old(c.ViewClaims()), account, node))
  {
    hide TokensIndexed, RootsTraced, SubnamesIndexed, ChildrenCounted, TopRows, NamesOf;
    if Lookup(c.ownerToPrimaryName, account) == Some(node) {
      c.ownerToPrimaryName := c.ownerToPrimaryName - {account};
    }
  }

  /** `transfer_name`. */
  method TransferName(c: Chain, from: AccountId, to: AccountId, node: Node) returns (r: Result<()>)
    requires c.Valid()
    modifies c`tokens, c`tokensByOwner, c`origins, c`subNames, c`accountToSubnames, c`subnameRecords,
             c`offeredToAccount, c`records, c`texts, c`ownerToPrimaryName
    ensures r.Ok? ==> c.Valid()
    ensures c.Outcome(r) == SellName(old(c.View()), from, to, node)
  {
    hide TokensIndexed, RootsTraced, SubnamesIndexed, ChildrenCounted, TopRows, NamesOf, FreeReceiver, TransferNode,
      ForgetPrimary, DropPrimary;
    var _ :- AdmitReceiver(c, to);
    var _ :- MoveToken(c, from, to, node, old(c.View()));
    ForgetClaim(c, from, node);
    c.ownerToPrimaryName := c.ownerToPrimaryName[to := node];
    return Ok(());
  }

  /** The recipient of a gift must hold no name. A lapsed claim of theirs stays until they accept. */
  function GiftChecks(c: Chain, recipient: AccountId, node: Node): Check
    reads c
  {
    if node in c.offeredNames then Fail(NameAlreadyOffered)
    else if HasValidCanonicalName(c, recipient) then Fail(AlreadyHasCanonicalName)
    else Ensure(!HasActiveSubname(c, recipient), AlreadyHoldsSubdomain)
  }

  /** `offer_bought_name`. */
  method OfferBoughtName(c: Chain, seller: AccountId, buyer: AccountId, recipient: AccountId, node: Node)
    returns (r: Result<()>)
    requires c.Valid()
    modifies c`tokens, c`tokensByOwner, c`origins, c`subNames, c`accountToSubnames, c`subnameRecords,
             c`offeredToAccount, c`records, c`texts, c`ownerToPrimaryName, c`offeredNames
    ensures r.Ok? ==> c.Valid()
    ensures c.Outcome(r) == GiftName(old(c.View()), seller, buyer, recipient, node)
  {
    hide TokensIndexed, RootsTraced, SubnamesIndexed, ChildrenCounted, TopRows, NamesOf, HasActiveSubname, BlockedByRow,
      HasValidName, HasValidCanonicalName, TransferNode, ForgetPrimary;
    ChecksAgree(c, recipient);
    :- GiftChecks(c, recipient, node);
    var _ :- MoveToken(c, seller, recipient, node, c.View());
    ForgetClaim(c, seller, node);
    c.offeredNames := c.offeredNames[node := OfferedName(buyer, recipient)];
    return Ok(());
  }

  // Subnames

  function OfferChecks(c: Chain, caller: AccountId): Check
    reads c
  {
    if !c.cfg.open then Fail(RegistrarClosed)
    else if caller !in c.ownerToPrimaryName then Fail(NoCanonicalName)
    else CheckExpiresUseable(c, c.ownerToPrimaryName[caller])
  }

  lemma OfferAgrees(c: Chain, caller: AccountId, lab: Option<Bytes>, spelling: Bytes, target: AccountId)
    requires c.Valid()
    ensures OfferChecks(c, caller).Pass? ==>
              caller in c.ownerToPrimaryName && c.ownerToPrimaryName[caller] in c.infos
    ensures DoOffer(c.View(), caller, lab, spelling, target)
            == match OfferChecks(c, caller)
               case Fail(e) => Err(e)
               case Pass =>
                 match lab
                 case None => Err(ParseLabelFailed)
                 case Some(l) =>
                   var parent := c.ownerToPrimaryName[caller];
                   OfferSpec(c.View(), parent, EncodeWithNode(l, parent), spelling, target, c.infos[parent].capacity)
  {
    hide SubsUnder, PutSub, TokensIndexed, RootsTraced, SubnamesIndexed, ChildrenCounted, TopRows, NamesOf;
    if caller in c.ownerToPrimaryName {
      NamesAreInfos(c.tokens, c.infos, c.origins, c.official, c.ownerToPrimaryName[caller]);
    }
  }

  method OfferSubdomain(c: Chain, caller: AccountId, lab: Bytes, target: AccountId) returns (r: Result<()>)
    requires c.Valid()
    modifies c`tokens, c`subnameRecords, c`offeredToAccount, c`subNames
    ensures r.Ok? ==> c.Valid()
    ensures c.Outcome(r) == DoOffer(old(c.View()), caller, NewLabel(lab), lab, target)
  {
    hide TokensIndexed, RootsTraced, SubnamesIndexed, ChildrenCounted, TopRows, NamesOf, OfferSpec, OfferChecks,
      DoOffer, Lower;
    OfferAgrees(c, caller, NewLabel(lab), lab, target);
    :- OfferChecks(c, caller);
    var parent := c.ownerToPrimaryName[caller];
    var l :- OkOr(NewWithLen(lab), ParseLabelFailed);
    if |lab| > LABEL_MAX_LEN {
      assert false; // a valid label fits the bounded vector
    }
    r := OfferSubname(c, parent, EncodeWithNode(l.0, parent), lab, target, c.infos[parent].capacity);
  }

  method AcceptSubdomain(c: Chain, caller: AccountId, parent: Bytes, lab: Bytes) returns (r: Result<()>)
    requires c.Valid()
    modifies c`subnameRecords, c`offeredToAccount, c`accountToSubnames, c`records
    ensures r.Ok? ==> c.Valid()
    ensures c.Outcome(r) == DoAccept(old(c.View()), caller, Sub(parent, lab))
  {
    hide TokensIndexed, RootsTraced, SubnamesIndexed, ChildrenCounted, TopRows, NamesOf, NewWithLen, HasValidName,
      BlockedByRow, PendingOffer, PutSub, PutRecord;
    var p :- OkOr(NewWithLen(parent), ParseLabelFailed);
    var parentNode := EncodeWithNode(p.0, Base);
    var l :- OkOr(NewWithLen(lab), ParseLabelFailed);
    var node := EncodeWithNode(l.0, parentNode);
    NamesAreInfos(c.tokens, c.infos, c.origins, c.official, parentNode);
    :- CheckExpiresUseable(c, parentNode);
    var _ :- AcceptSubnameOffer(c, node, caller);
    Resolvers.SetSs58Record(c, node, caller);
    return Ok(());
  }

  method RejectSubdomain(c: Chain, caller: AccountId, parent: Bytes, lab: Bytes) returns (r: Result<()>)
    requires c.Valid()
    modifies c`subnameRecords, c`offeredToAccount, c`accountToSubnames
    ensures r.Ok? ==> c.Valid()
    ensures c.Outcome(r) == DoReject(old(c.View()), caller, Sub(parent, lab))
  {
    hide TokensIndexed, RootsTraced, SubnamesIndexed, ChildrenCounted, TopRows, NamesOf, NewWithLen, PendingOffer,
      PutSub;
    var p :- OkOr(NewWithLen(parent), ParseLabelFailed);
    var l :- OkOr(NewWithLen(lab), ParseLabelFailed);
    r := RejectSubnameOffer(c, EncodeWithNode(l.0, EncodeWithNode(p.0, Base)), caller);
  }

  method RevokeSubdomain(c: Chain, caller: AccountId, lab: Bytes) returns (r: Result<()>)
    requires c.Valid()
    modifies c`tokens, c`subnameRecords, c`offeredToAccount, c`accountToSubnames, c`subNames, c`records, c`texts
    ensures r.Ok? ==> c.Valid()
    ensures c.Outcome(r) == DoRevoke(old(c.View()), caller, NewLabel(lab))
  {
    hide TokensIndexed, RootsTraced, SubnamesIndexed, ChildrenCounted, TopRows, NamesOf, CheckLabel, Lower, RevokeNode;
    var parent :- OkOr(Lookup(c.ownerToPrimaryName, caller), NoCanonicalName);
    var l :- OkOr(NewWithLen(lab), ParseLabelFailed);
    r := RevokeSubname(c, parent, EncodeWithNode(l.0, parent));
  }

  method ReleaseSubdomain(c: Chain, caller: AccountId, parent: Bytes, lab: Bytes) returns (r: Result<()>)
    requires c.Valid()
    modifies c`tokens, c`subnameRecords, c`offeredToAccount, c`accountToSubnames, c`subNames, c`records, c`texts
    ensures r.Ok? ==> c.Valid()
    ensures c.Outcome(r) == DoReleaseSub(old(c.View()), caller, Sub(parent, lab))
  {
    hide TokensIndexed, RootsTraced, SubnamesIndexed, ChildrenCounted, TopRows, NamesOf, NewWithLen, DropSub, Wipe;
    var p :- OkOr(NewWithLen(parent), ParseLabelFailed);
    var l :- OkOr(NewWithLen(lab), ParseLabelFailed);
    r := ReleaseSubname(c, EncodeWithNode(l.0, EncodeWithNode(p.0, Base)), caller);
  }

  // Gifts

  function AcceptChecks(c: Chain, caller: AccountId, node: Node): Check
    reads c
  {
    if node !in c.offeredNames then Fail(OfferedNameNotFound)
    else if c.offeredNames[node].recipient != caller then Fail(NotOfferedNameRecipient)
    else CheckExpiresUseable(c, node)
  }

  lemma AcceptAgrees(c: Chain, caller: AccountId, node: Node)
    requires c.Valid()
    ensures DoAcceptGift(c.View(), caller, None) == Err(ParseLabelFailed)
    ensures DoAcceptGift(c.View(), caller, Some(node))
            == match AcceptChecks(c, caller, node)
               case Fail(e) => Err(e)
               case Pass =>
                 match FreeReceiver(c.View(), caller)
                 case Fail(e) => Err(e)
                 case Pass =>
                   Ok(c.View().(claims := SetPrimary(DropOffer(c.ViewClaims(), node), caller, node),
                                zone := WriteAnchors(c.View().zone, node, caller, c.env.parentHash)))
  {
    hide FreeReceiver, DropOffer, SetPrimary, WriteAnchors, TokensIndexed, RootsTraced, SubnamesIndexed,
      ChildrenCounted, TopRows, NamesOf;
    NamesAreInfos(c.tokens, c.infos, c.origins, c.official, node);
  }

  lemma PendingOffersIrrelevant(s: State, offered: map<Node, OfferedName>, a: AccountId)
    ensures FreeReceiver(s.(claims := s.claims.(offered := offered)), a) == FreeReceiver(s, a)
  {
    hide BlockedByRow;
  }

  method AcceptOfferedName(c: Chain, caller: AccountId, name: Bytes) returns (r: Result<()>)
    requires c.Valid()
    modifies c`offeredNames, c`ownerToPrimaryName, c`records
    ensures r.Ok? ==> c.Valid()
    ensures c.Outcome(r) == DoAcceptGift(old(c.View()), caller, Top(name))
  {
    hide TokensIndexed, RootsTraced, SubnamesIndexed, ChildrenCounted, TopRows, NamesOf, NewWithLen, FreeReceiver,
      WriteAnchors, DoAcceptGift, AcceptChecks;
    AcceptAgrees(c, caller, if Top(name).Some? then Top(name).value else Base);
    var l :- OkOr(NewWithLen(name), ParseLabelFailed);
    var node := EncodeWithNode(l.0, Base);
    PendingOffersIrrelevant(c.View(), c.offeredNames - {node}, caller);
    :- AcceptChecks(c, caller, node);
    c.offeredNames := c.offeredNames - {node};
    var _ :- AdmitReceiver(c, caller);
    Install(c, node, caller);
    assert c.ownerToPrimaryName == old(c.ownerToPrimaryName)[caller := node];
    return Ok(());
  }
}
