/** The name service as a state machine over the facts it promises to keep. The chain stores many of
    these facts several times over; here each is stored once. Every extrinsic of the registrar, registry,
    marketplace and resolver pallets is a function from a state to a new state or an error. */
module NameService {
  import opened Types
  import opened Labels
  import opened NameParsing
  import opened Currency

  /** A registered top-level name: the owner of its token and its registration. */
  datatype Name = Name(owner: AccountId, expire: nat, capacity: nat, registerFee: nat, labelLen: nat,
                       lastBlock: nat)

  /** What is registered. `held` is the part of the account-to-subnames index that lists top-level names:
      a row is written when a name is minted to an account and it is not moved by transfers. */
  datatype Directory = Directory(names: map<Node, Name>, subs: map<Node, SubnameRecord>, held: set<(AccountId, Node)>)

  /** Which name an account claims as its own, which names wait for a recipient, which are for sale. */
  datatype Claims = Claims(primary: map<AccountId, Node>, offered: map<Node, OfferedName>,
                           listings: map<Node, Listing>)

  datatype Zone = Zone(records: map<(Node, RecordType), Content>, texts: map<(Node, TextKind), Content>)

  datatype System = System(cfg: Config, env: Env, official: AccountId, reserved: set<Node>)

  datatype State = State(sys: System, dir: Directory, claims: Claims, zone: Zone, money: Money, events: seq<Event>)

  datatype Call =
    | Register(name: Bytes, owner: AccountId, rejectOffer: Option<Bytes>)
    | Renew
    | Transfer(to: AccountId)
    | ReleaseName
    | OfferSubdomain(sub: Bytes, target: AccountId)
    | AcceptSubdomain(parent: Bytes, sub: Bytes)
    | RejectSubdomain(parent: Bytes, sub: Bytes)
    | RevokeSubdomain(sub: Bytes)
    | ReleaseSubdomain(parent: Bytes, sub: Bytes)
    | AcceptOfferedName(name: Bytes)
    | AddReserved(name: Bytes)
    | RemoveReserved(name: Bytes)
    | Burn(name: Bytes)
    | SetOfficial(official: AccountId)
    | CreateListing(price: nat, expiresAt: nat)
    | CancelListing
    | BuyName(name: Bytes, recipient: Option<AccountId>)
    | SetRecord(name: Bytes, kind: RecordType, content: Content)
    | SetText(name: Bytes, text: TextKind, content: Content)

  datatype Extrinsic = Signed(who: AccountId, call: Call) | Root(call: Call) | NewBlock(env: Env)

  /** A signed call whose name arguments have been read. `None` stands for a name that does not parse. */
  datatype Action =
    | ARegister(blank: bool, top: Option<Node>, labelLen: nat, owner: AccountId, reject: Option<Option<Node>>)
    | ARenew
    | ATransfer(to: AccountId)
    | AReleaseName
    | AOffer(lab: Option<Bytes>, spelling: Bytes, target: AccountId)
    | AAccept(node: Option<Node>)
    | AReject(node: Option<Node>)
    | ARevoke(lab: Option<Bytes>)
    | AReleaseSub(node: Option<Node>)
    | AAcceptGift(top: Option<Node>)
    | ABurn(node: Option<Node>)
    | AList(price: nat, expiresAt: nat)
    | ACancel
    | ABuy(top: Option<Node>, recipient: Option<AccountId>)
    | ASetRecord(node: Option<Node>, kind: RecordType, content: Content)
    | ASetText(node: Option<Node>, text: TextKind, content: Content)
    | AForbidden

  function Top(name: Bytes): Option<Node> {
    match NewWithLen(name)
    case None => None
    case Some(l) => Some(EncodeWithNode(l.0, Base))
  }

  /** The node of subname `sub` under top-level name `parent`. */
  function Sub(parent: Bytes, sub: Bytes): Option<Node> {
    match (NewWithLen(parent), NewWithLen(sub))
    case (Some(p), Some(l)) => Some(EncodeWithNode(l.0, EncodeWithNode(p.0, Base)))
    case _ => None
  }

  function Resolve(call: Call): Action {
    match call
    case Register(name, owner, reject) =>
      ARegister(name == [], Top(name), |Lower(name)|, owner,
                if reject.Some? then Some(ParseNameToNode(reject.value, Base)) else None)
    case Renew => ARenew
    case Transfer(to) => ATransfer(to)
    case ReleaseName => AReleaseName
    case OfferSubdomain(sub, target) => AOffer(NewLabel(sub), sub, target)
    case AcceptSubdomain(parent, sub) => AAccept(Sub(parent, sub))
    case RejectSubdomain(parent, sub) => AReject(Sub(parent, sub))
    case RevokeSubdomain(sub) => ARevoke(NewLabel(sub))
    case ReleaseSubdomain(parent, sub) => AReleaseSub(Sub(parent, sub))
    case AcceptOfferedName(name) => AAcceptGift(Top(name))
    case Burn(name) => ABurn(ParseNameToNode(name, Base))
    case CreateListing(price, expiresAt) => AList(price, expiresAt)
    case CancelListing => ACancel
    case BuyName(name, recipient) => ABuy(Top(name), recipient)
    case SetRecord(name, kind, content) => ASetRecord(ParseNameToNode(name, Base), kind, content)
    case SetText(name, text, content) => ASetText(ParseNameToNode(name, Base), text, content)
    case AddReserved(_) => AForbidden
    case RemoveReserved(_) => AForbidden
    case SetOfficial(_) => AForbidden
  }

  // ---------------------------------------------------------------------------------------------
  // What the pallets ask of a state
  // ---------------------------------------------------------------------------------------------

  /** Registered and not past the end of its grace period. */
  predicate Live(y: System, d: Directory, n: Node) {
    n in d.names && y.env.now <= d.names[n].expire + y.cfg.grace
  }

  predicate HasValidName(s: State, a: AccountId) {
    a in s.claims.primary && Live(s.sys, s.dir, s.claims.primary[a])
  }

  predicate HoldsActiveSubname(d: Directory, a: AccountId) {
    exists n :: n in d.subs && d.subs[n].state == Active && d.subs[n].target == a
  }

  predicate HasHeldRow(d: Directory, a: AccountId) {
    exists row :: row in d.held && row.0 == a
  }

  /** `has_active_subname`: any row of the account-to-subnames index. */
  predicate BlockedByRow(d: Directory, a: AccountId) {
    HasHeldRow(d, a) || HoldsActiveSubname(d, a)
  }

  function RegistrationFee(prices: seq<nat>, labelLen: nat): Option<nat> {
    if labelLen == 0 || |prices| == 0 then None
    else Some(prices[if labelLen - 1 < |prices| - 1 then labelLen - 1 else |prices| - 1])
  }

  function SubsUnder(subs: map<Node, SubnameRecord>, p: Node): set<Node> {
    set n | n in subs && subs[n].parent == p
  }

  // ---------------------------------------------------------------------------------------------
  // Changes to the directory
  // ---------------------------------------------------------------------------------------------

  function SubsOutside(subs: map<Node, SubnameRecord>, p: Node): map<Node, SubnameRecord> {
    map n | n in subs && subs[n].parent != p :: subs[n]
  }

  /** Takes a name, its subnames and its owner's row away. */
  function Remove(d: Directory, node: Node): Directory
    requires node in d.names
  {
    Directory(d.names - {node}, SubsOutside(d.subs, node), d.held - {(d.names[node].owner, node)})
  }

  /** Hands a name on. The row of the account it was minted to stays behind. */
  function SetOwner(d: Directory, node: Node, to: AccountId): Directory
    requires node in d.names
  {
    d.(names := d.names[node := d.names[node].(owner := to)], subs := SubsOutside(d.subs, node))
  }

  /** Registers a fresh name, or one taken over from its previous owner. */
  function Mint(d: Directory, node: Node, name: Name): Directory {
    if node in d.names then
      Directory(d.names[node := name], SubsOutside(d.subs, node),
                d.held - {(d.names[node].owner, node)} + {(name.owner, node)})
    else
      d.(names := d.names[node := name], held := d.held + {(name.owner, node)})
  }

  function SetExpire(d: Directory, node: Node, expire: nat): Directory
    requires node in d.names
  {
    d.(names := d.names[node := d.names[node].(expire := expire)])
  }

  function PutSub(d: Directory, node: Node, r: SubnameRecord): Directory {
    d.(subs := d.subs[node := r])
  }

  function DropSub(d: Directory, node: Node): Directory {
    d.(subs := d.subs - {node})
  }

  // ---------------------------------------------------------------------------------------------
  // Changes to the records
  // ---------------------------------------------------------------------------------------------

  /** Drops everything stored under the given nodes. */
  function Wipe(z: Zone, gone: set<Node>): Zone {
    Zone(map k | k in z.records && k.0 !in gone :: z.records[k], map k | k in z.texts && k.0 !in gone :: z.texts[k])
  }

  /** Clears a name that is about to be taken over, and its subnames. */
  function Vacate(d: Directory, z: Zone, node: Node): Zone {
    if node in d.names then Wipe(z, SubsUnder(d.subs, node) + {node}) else z
  }

  function KeepSs58(z: Zone, node: Node): Zone {
    z.(records := map k | k in z.records && (k.0 != node || k.1 == SS58) :: z.records[k])
  }

  function PutRecord(z: Zone, node: Node, kind: RecordType, content: Content): Zone {
    z.(records := z.records[(node, kind) := content])
  }

  function WriteAnchors(z: Zone, node: Node, owner: AccountId, hash: int): Zone {
    PutRecord(PutRecord(z, node, SS58, AccountBytes(owner)), node, ORIGIN, HashBytes(hash))
  }

  // ---------------------------------------------------------------------------------------------
  // Changes to the claims
  // ---------------------------------------------------------------------------------------------

  function DropPrimary(c: Claims, a: AccountId): Claims {
    c.(primary := c.primary - {a})
  }

  function ForgetPrimary(c: Claims, a: AccountId, node: Node): Claims {
    if a in c.primary && c.primary[a] == node then DropPrimary(c, a) else c
  }

  function SetPrimary(c: Claims, a: AccountId, node: Node): Claims {
    c.(primary := c.primary[a := node])
  }

  function DropOffer(c: Claims, node: Node): Claims {
    c.(offered := c.offered - {node})
  }

  // ---------------------------------------------------------------------------------------------
  // Shared pieces of the extrinsics
  // ---------------------------------------------------------------------------------------------

  /** Registry `do_burn`. */
  function BurnNode(s: State, caller: AccountId, node: Node): Result<State> {
    if node == Base then
      Err(if caller == s.sys.official then BanBurnBaseNode else NoPermission)
    else
      :- Ensure(node in s.dir.names, NotExist);
      :- Ensure(caller == s.dir.names[node].owner, NoPermission);
      Ok(s.(dir := Remove(s.dir, node), zone := Wipe(s.zone, SubsUnder(s.dir.subs, node) + {node})))
  }

  /** Registry `do_transfer`. */
  function TransferNode(s: State, from: AccountId, to: AccountId, node: Node): Result<State> {
    if node == Base then
      Err(if from == s.sys.official then NotExist else NoPermission)
    else
      :- Ensure(node in s.dir.names, NotExist);
      :- Ensure(from == s.dir.names[node].owner, NoPermission);
      :- Ensure(s.sys.env.now < s.dir.names[node].expire + s.sys.cfg.grace, NotRenewable);
      var cleared := Wipe(s.zone, SubsUnder(s.dir.subs, node));
      Ok(s.(dir := SetOwner(s.dir, node, to),
            zone := WriteAnchors(KeepSs58(cleared, node), node, to, s.sys.env.parentHash)))
  }

  /** The receiver of a name must hold none. */
  function FreeReceiver(s: State, to: AccountId): Check {
    if HasValidName(s, to) then Fail(AlreadyHasCanonicalName)
    else Ensure(!BlockedByRow(s.dir, to), AlreadyHoldsSubdomain)
  }

  /** Registry `revoke_subname`. */
  function RevokeNode(s: State, parent: Node, node: Node): Result<State> {
    var subs := s.dir.subs;
    :- Ensure(node in subs, SubnameNotFound);
    :- Ensure(subs[node].parent == parent, NotSubnameOfferer);
    Ok(s.(dir := DropSub(s.dir, node),
          zone := if subs[node].state == Active then Wipe(s.zone, {node}) else s.zone))
  }

  /** The optional first part of `register`: turn down a gift or a subname offer. */
  function RejectOffer(s: State, caller: AccountId, parsed: Option<Node>): Result<State> {
    var node :- OkOr(parsed, ParseLabelFailed);
    if node in s.claims.offered then
      :- Ensure(s.claims.offered[node].recipient == caller, NotOfferedNameRecipient);
      BurnNode(s.(claims := DropOffer(s.claims, node)), caller, node)
    else
      :- Ensure(node in s.dir.subs && s.dir.subs[node].state == Offered && s.dir.subs[node].target == caller,
                OfferedNameNotFound);
      RevokeNode(s, s.dir.subs[node].parent, node)
  }

  // ---------------------------------------------------------------------------------------------
  // Registrar
  // ---------------------------------------------------------------------------------------------

  function DoRegister(s: State, caller: AccountId, blank: bool, top: Option<Node>, labelLen: nat, owner: AccountId,
                      reject: Option<Option<Node>>)
    : Result<State>
  {
    var s0 :- if reject.Some? then RejectOffer(s, caller, reject.value) else Ok(s);
    :- Ensure(!blank, LabelInvalid);
    :- Ensure(s0.sys.cfg.open, RegistrarClosed);
    var node :- OkOr(top, ParseLabelFailed);
    :- Ensure(labelLen >= MIN_REGISTRABLE_LEN, LabelInvalid);
    RegisterNode(s0, caller, node, labelLen, owner)
  }

  /** The rest of `register` with registry `mint_subname` under the base node: a fresh name, or the takeover
      of one whose grace period is over. */
  function RegisterNode(s: State, caller: AccountId, node: Node, labelLen: nat, owner: AccountId): Result<State> {
    var expire := s.sys.env.now + s.sys.cfg.maxDuration;
    :- Ensure(expire <= MAX_U64, Overflow);
    :- Ensure(node !in s.sys.reserved, Frozen);
    :- FreeReceiver(s, owner);
    var fee :- OkOr(RegistrationFee(s.sys.env.prices, labelLen), Overflow);
    :- Ensure(owner != s.sys.official, CannotOwnSubnameUnderOwnDomain);
    :- Ensure(!Live(s.sys, s.dir, node), Occupied);
    var money :- Withdraw(s.money, s.sys.cfg.existential, caller, fee);
    Ok(s.(dir := Mint(s.dir, node, FreshName(s, node, owner, expire, fee, labelLen)),
          claims := RegisterClaims(s, node, owner),
          zone := RegisterZone(s, node, owner),
          money := money,
          events := s.events + [NameRegistered(node, owner, expire, fee)]))
  }

  function FreshName(s: State, node: Node, owner: AccountId, expire: nat, fee: nat, labelLen: nat): Name {
    Name(owner, expire, if node in s.dir.names then s.dir.names[node].capacity else s.sys.cfg.capacity, fee, labelLen,
         s.sys.env.block)
  }

  function RegisterClaims(s: State, node: Node, owner: AccountId): Claims {
    var c := DropPrimary(s.claims, owner);
    SetPrimary(if node in s.dir.names then ForgetPrimary(c, s.dir.names[node].owner, node) else c, owner, node)
  }

  function RegisterZone(s: State, node: Node, owner: AccountId): Zone {
    WriteAnchors(Vacate(s.dir, s.zone, node), node, owner, s.sys.env.parentHash)
  }

  function DoRenew(s: State, caller: AccountId): Result<State> {
    var cfg, env := s.sys.cfg, s.sys.env;
    :- Ensure(cfg.open, RegistrarClosed);
    var node :- OkOr(Lookup(s.claims.primary, caller), NoCanonicalName);
    :- Ensure(node in s.dir.names, NotExistOrOccupied);
    :- Ensure(Live(s.sys, s.dir, node), NotRenewable);
    var fee :- OkOr(RegistrationFee(env.prices, s.dir.names[node].labelLen), Overflow);
    var money :- Withdraw(s.money, cfg.existential, caller, fee);
    var expire := env.now + cfg.maxDuration;
    :- Ensure(expire <= MAX_U64, Overflow);
    Ok(s.(dir := SetExpire(s.dir, node, expire), money := money,
          events := s.events + [NameRenewed(node, caller, expire, fee)]))
  }

  function DoTransfer(s: State, who: AccountId, to: AccountId): Result<State> {
    var cfg, env := s.sys.cfg, s.sys.env;
    :- Ensure(cfg.open, RegistrarClosed);
    var node :- OkOr(Lookup(s.claims.primary, who), NoCanonicalName);
    :- Ensure(node in s.dir.names ==> s.dir.names[node].expire + cfg.grace > env.now, NotOwned);
    :- FreeReceiver(s, to);
    var s1 :- TransferNode(s, who, to, node);
    Ok(s1.(claims := SetPrimary(DropPrimary(s.claims, who), to, node)))
  }

  function DoReleaseName(s: State, caller: AccountId): Result<State> {
    var node :- OkOr(Lookup(s.claims.primary, caller), NoCanonicalName);
    BurnNode(s.(claims := DropPrimary(s.claims, caller)), caller, node)
  }

  function DoOffer(s: State, caller: AccountId, lab: Option<Bytes>, spelling: Bytes, target: AccountId): Result<State> {
    var y := s.sys;
    :- Ensure(y.cfg.open, RegistrarClosed);
    var parent :- OkOr(Lookup(s.claims.primary, caller), NoCanonicalName);
    var name :- OkOr(Lookup(s.dir.names, parent), NotExistOrOccupied);
    :- Ensure(y.env.now < name.expire, NotUseable);
    var l :- OkOr(lab, ParseLabelFailed);
    var node := EncodeWithNode(l, parent);
    :- Ensure(target != name.owner, CannotOwnSubnameUnderOwnDomain);
    :- Ensure(node !in s.dir.subs, SubnameAlreadyExists);
    :- Ensure(|SubsUnder(s.dir.subs, parent)| < name.capacity, CapacityNotEnough);
    Ok(s.(dir := PutSub(s.dir, node, SubnameRecord(parent, spelling, target, Offered))))
  }

  /** The record of an offer that `caller` may answer. */
  function PendingOffer(d: Directory, node: Node, caller: AccountId): Result<SubnameRecord> {
    var r :- OkOr(Lookup(d.subs, node), SubnameNotFound);
    :- Ensure(r.state == Offered, SubnameNotOffered);
    :- Ensure(r.target == caller, NotSubnameTarget);
    Ok(r)
  }

  function DoAccept(s: State, caller: AccountId, sub: Option<Node>): Result<State> {
    var node :- OkOr(sub, ParseLabelFailed);
    var name :- OkOr(if node.Child? then Lookup(s.dir.names, node.parent) else None, NotExistOrOccupied);
    :- Ensure(s.sys.env.now < name.expire, NotUseable);
    :- Ensure(!HasValidName(s, caller), TargetAlreadyOwnsName);
    :- Ensure(!BlockedByRow(s.dir, caller), TargetAlreadyOwnsName);
    var r :- PendingOffer(s.dir, node, caller);
    Ok(s.(dir := PutSub(s.dir, node, r.(state := Active)),
          zone := PutRecord(s.zone, node, SS58, AccountBytes(caller))))
  }

  function DoReject(s: State, caller: AccountId, sub: Option<Node>): Result<State> {
    var node :- OkOr(sub, ParseLabelFailed);
    var r :- PendingOffer(s.dir, node, caller);
    Ok(s.(dir := PutSub(s.dir, node, r.(state := Rejected))))
  }

  function DoRevoke(s: State, caller: AccountId, lab: Option<Bytes>): Result<State> {
    var parent :- OkOr(Lookup(s.claims.primary, caller), NoCanonicalName);
    var l :- OkOr(lab, ParseLabelFailed);
    RevokeNode(s, parent, EncodeWithNode(l, parent))
  }

  function DoReleaseSub(s: State, caller: AccountId, sub: Option<Node>): Result<State> {
    var node :- OkOr(sub, ParseLabelFailed);
    var r :- OkOr(Lookup(s.dir.subs, node), SubnameNotFound);
    :- Ensure(r.state == Active, SubnameNotActive);
    :- Ensure(r.target == caller, NotSubnameTarget);
    Ok(s.(dir := DropSub(s.dir, node), zone := Wipe(s.zone, {node})))
  }

  function DoAcceptGift(s: State, caller: AccountId, top: Option<Node>): Result<State> {
    var node :- OkOr(top, ParseLabelFailed);
    var offer :- OkOr(Lookup(s.claims.offered, node), OfferedNameNotFound);
    :- Ensure(offer.recipient == caller, NotOfferedNameRecipient);
    var info :- OkOr(Lookup(s.dir.names, node), NotExistOrOccupied);
    :- Ensure(s.sys.env.now < info.expire, NotUseable);
    :- FreeReceiver(s, caller);
    Ok(s.(claims := SetPrimary(DropOffer(s.claims, node), caller, node),
          zone := WriteAnchors(s.zone, node, caller, s.sys.env.parentHash)))
  }

  function DoReserve(s: State, top: Option<Node>, reserve: bool): Result<State> {
    var node :- OkOr(top, ParseLabelFailed);
    Ok(s.(sys := s.sys.(reserved := if reserve then s.sys.reserved + {node} else s.sys.reserved - {node})))
  }

  // ---------------------------------------------------------------------------------------------
  // Registry, marketplace, resolvers
  // ---------------------------------------------------------------------------------------------

  function DoBurn(s: State, caller: AccountId, parsed: Option<Node>): Result<State> {
    var node :- OkOr(parsed, InvalidName);
    BurnNode(s, caller, node)
  }

  function DoList(s: State, who: AccountId, price: nat, expiresAt: nat): Result<State> {
    var c := s.claims;
    :- Ensure(expiresAt > s.sys.env.now, ExpiryNotInFuture);
    var node :- OkOr(Lookup(c.primary, who), NoCanonicalName);
    :- Ensure(node !in c.listings, AlreadyListed);
    Ok(s.(claims := c.(listings := c.listings[node := Listing(who, price, expiresAt)])))
  }

  function DoCancel(s: State, who: AccountId): Result<State> {
    var node :- OkOr(Lookup(s.claims.primary, who), NoCanonicalName);
    :- Ensure(node in s.claims.listings, NotListed);
    Ok(s.(claims := s.claims.(listings := s.claims.listings - {node})))
  }

  /** `transfer_name`: a direct sale. */
  function SellName(s: State, seller: AccountId, buyer: AccountId, node: Node): Result<State> {
    var c := DropPrimary(s.claims, buyer);
    :- FreeReceiver(s, buyer);
    var s1 :- TransferNode(s, seller, buyer, node);
    Ok(s1.(claims := SetPrimary(ForgetPrimary(c, seller, node), buyer, node)))
  }

  /** `offer_bought_name`: a sale as a gift, pending acceptance. */
  function GiftName(s: State, seller: AccountId, buyer: AccountId, recipient: AccountId, node: Node)
    : Result<State>
  {
    var c := ForgetPrimary(s.claims, seller, node);
    :- Ensure(node !in s.claims.offered, NameAlreadyOffered);
    :- FreeReceiver(s, recipient);
    var s1 :- TransferNode(s, seller, recipient, node);
    Ok(s1.(claims := c.(offered := c.offered[node := OfferedName(buyer, recipient)])))
  }

  /** The listing that `buyer` may buy. */
  function OpenListing(s: State, buyer: AccountId, node: Node): Result<Listing> {
    var l :- OkOr(Lookup(s.claims.listings, node), NotListed);
    :- Ensure(buyer != l.seller, BuyerIsSeller);
    :- Ensure(l.expiresAt > s.sys.env.now, ListingExpired);
    :- Ensure(node in s.dir.names && s.dir.names[node].owner == l.seller, SellerNoLongerOwns);
    Ok(l)
  }

  /** The buyer pays the price to the seller, who pays the protocol fee out of it. */
  function Settle(s: State, buyer: AccountId, l: Listing): Result<Money> {
    var m :- Pay(s.money, s.sys.cfg.existential, buyer, l.seller, l.price);
    Withdraw(m, s.sys.cfg.existential, l.seller, ProtocolFee(l.price, s.sys.cfg.feeBps))
  }

  function DoBuy(s: State, buyer: AccountId, top: Option<Node>, recipient: Option<AccountId>): Result<State> {
    var node :- OkOr(top, InvalidName);
    var l :- OpenListing(s, buyer, node);
    var fee := ProtocolFee(l.price, s.sys.cfg.feeBps);
    var money :- Settle(s, buyer, l);
    var s1 := s.(claims := s.claims.(listings := s.claims.listings - {node}));
    if recipient.Some? then
      :- Ensure(recipient.value != buyer, BuyerIsRecipient);
      :- Ensure(recipient.value != l.seller, SellerIsRecipient);
      var s2 :- GiftName(s1, l.seller, buyer, recipient.value, node);
      Ok(s2.(money := money,
             events := s.events + [NameBoughtForRecipient(node, l.seller, buyer, recipient.value, l.price, fee)]))
    else
      var s2 :- SellName(s1, l.seller, buyer, node);
      Ok(s2.(money := money, events := s.events + [Sold(node, l.seller, buyer, l.price, fee)]))
  }

  /** Only the owner of a name that has not expired may edit its records. A subname has no token of its
      own, so nobody may edit its records. */
  predicate Editable(s: State, node: Node, who: AccountId) {
    node in s.dir.names && s.dir.names[node].owner == who && s.sys.env.now < s.dir.names[node].expire
  }

  /** The records that the chain writes itself. */
  predicate Protected(kind: RecordType) {
    kind == SS58 || kind == ORIGIN
  }

  function DoSetRecord(s: State, who: AccountId, parsed: Option<Node>, kind: RecordType, content: Content)
    : Result<State>
  {
    var z := s.zone;
    :- Ensure(!Protected(kind), Ss58RecordProtected);
    var node :- OkOr(parsed, InvalidName);
    :- Ensure(Editable(s, node, who), InvalidPermission);
    Ok(s.(zone := PutRecord(z, node, kind, content)))
  }

  function DoSetText(s: State, who: AccountId, parsed: Option<Node>, kind: TextKind, content: Content)
    : Result<State>
  {
    var node :- OkOr(parsed, InvalidName);
    :- Ensure(Editable(s, node, who), InvalidPermission);
    Ok(s.(zone := s.zone.(texts := s.zone.texts[(node, kind) := content])))
  }

  // ---------------------------------------------------------------------------------------------
  // Runs
  // ---------------------------------------------------------------------------------------------

  function Perform(s: State, who: AccountId, action: Action): Result<State> {
    match action
    case ARegister(blank, top, labelLen, owner, reject) => DoRegister(s, who, blank, top, labelLen, owner, reject)
    case ARenew => DoRenew(s, who)
    case ATransfer(to) => DoTransfer(s, who, to)
    case AReleaseName => DoReleaseName(s, who)
    case AOffer(lab, spelling, target) => DoOffer(s, who, lab, spelling, target)
    case AAccept(node) => DoAccept(s, who, node)
    case AReject(node) => DoReject(s, who, node)
    case ARevoke(lab) => DoRevoke(s, who, lab)
    case AReleaseSub(node) => DoReleaseSub(s, who, node)
    case AAcceptGift(top) => DoAcceptGift(s, who, top)
    case ABurn(node) => DoBurn(s, who, node)
    case AList(price, expiresAt) => DoList(s, who, price, expiresAt)
    case ACancel => DoCancel(s, who)
    case ABuy(top, recipient) => DoBuy(s, who, top, recipient)
    case ASetRecord(node, kind, content) => DoSetRecord(s, who, node, kind, content)
    case ASetText(node, text, content) => DoSetText(s, who, node, text, content)
    case AForbidden => Err(BadOrigin)
  }

  function ApplyRoot(s: State, call: Call): Result<State> {
    match call
    case AddReserved(name) => DoReserve(s, Top(name), true)
    case RemoveReserved(name) => DoReserve(s, Top(name), false)
    case SetOfficial(official) => Ok(s.(sys := s.sys.(official := official)))
    case _ => Err(BadOrigin)
  }

  /** One extrinsic, or the start of a block. The clock never goes back. */
  function Apply(s: State, x: Extrinsic): Result<State> {
    match x
    case Signed(who, call) => Perform(s, who, Resolve(call))
    case Root(call) => ApplyRoot(s, call)
    case NewBlock(env) =>
      if s.sys.env.now <= env.now then Ok(s.(sys := s.sys.(env := env))) else Err(TimeWentBack)
  }

  /** Extrinsics are transactional: a failed one changes nothing. */
  function Step(s: State, x: Extrinsic): State {
    match Apply(s, x)
    case Ok(s') => s'
    case Err(_) => s
  }

  function Run(s: State, xs: seq<Extrinsic>): State
    decreases |xs|
  {
    if xs == [] then s else Step(Run(s, xs[..|xs| - 1]), xs[|xs| - 1])
  }

  /** The state a chain starts from: the base token belongs to the official account, nothing is registered. */
  function Genesis(cfg: Config, env: Env, official: AccountId, reserved: set<Node>, money: Money): State {
    State(System(cfg, env, official, reserved), Directory(map[], map[], {}), Claims(map[], map[], map[]),
          Zone(map[], map[]), money, [])
  }
}
