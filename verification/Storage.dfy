/** The storage of the chain, with every index the pallets keep, and what ties the indexes together. */
module Storage {
  import opened Types
  import opened Currency
  import opened NameService

  /** An NFT and the number of subname slots in use under it. */
  datatype Token = Token(owner: AccountId, children: nat)

  /** `DomainTracing`: a top-level name, or a subname of the given root. */
  datatype Tracing = RuntimeOrigin(root: Node) | TracedRoot

  datatype RegistrarInfo = RegistrarInfo(expire: nat, capacity: nat, registerFee: nat, labelLen: nat, lastBlock: nat)

  /** Everything that a failed extrinsic puts back, pallet by pallet. */
  datatype Snapshot = Snapshot(env: Env, nft: NftStore, registry: RegistryStore, registrar: RegistrarStore,
                               market: map<Node, Listing>, zone: Zone, money: Money, events: seq<Event>)

  datatype NftStore = NftStore(tokens: map<Node, Token>, tokensByOwner: set<(AccountId, Node)>, totalIssuance: nat,
                               classOwner: AccountId)

  datatype RegistryStore = RegistryStore(origins: map<Node, Tracing>, subNames: set<(Node, Node)>,
                                         accountToSubnames: set<(AccountId, Node)>,
                                         subnameRecords: map<Node, SubnameRecord>,
                                         offeredToAccount: set<(AccountId, Node)>, official: Option<AccountId>)

  datatype RegistrarStore = RegistrarStore(infos: map<Node, RegistrarInfo>, reservedList: set<Node>,
                                           ownerToPrimaryName: map<AccountId, Node>,
                                           offeredNames: map<Node, OfferedName>)

  // What ties the indexes together. Each tie is named, so that a contract can speak of all of them at once.

  ghost predicate OwnersInverted(tokens: map<Node, Token>, byOwner: set<(AccountId, Node)>) {
    forall p :: p in byOwner <==> p.1 in tokens && tokens[p.1].owner == p.0
  }

  ghost predicate IssuanceCounted(tokens: map<Node, Token>, issuance: nat) {
    issuance == |tokens|
  }

  /** `TokensByOwner` is the inverse of `Tokens` and the issuance counts the tokens. */
  ghost predicate TokensIndexed(tokens: map<Node, Token>, byOwner: set<(AccountId, Node)>, issuance: nat) {
    OwnersInverted(tokens, byOwner) && IssuanceCounted(tokens, issuance)
  }

  ghost predicate BaseOwned(tokens: map<Node, Token>, official: Option<AccountId>) {
    Base in tokens && official == Some(tokens[Base].owner)
  }

  ghost predicate SameNames(tokens: map<Node, Token>, infos: map<Node, RegistrarInfo>, origins: map<Node, Tracing>) {
    tokens.Keys == infos.Keys + {Base} && origins.Keys == infos.Keys
  }

  ghost predicate AllRoots(infos: map<Node, RegistrarInfo>, origins: map<Node, Tracing>) {
    && (forall n :: n in origins ==> origins[n] == TracedRoot)
    && (forall n :: n in infos ==> IsTop(n))
  }

  /** Tokens other than the base, registrations and traces are the same names, all of them roots, and the base
      token belongs to the official account. */
  ghost predicate RootsTraced(tokens: map<Node, Token>, infos: map<Node, RegistrarInfo>, origins: map<Node, Tracing>,
                              official: Option<AccountId>)
  {
    BaseOwned(tokens, official) && SameNames(tokens, infos, origins) && AllRoots(infos, origins)
  }

  ghost predicate SubsBelowNames(subs: map<Node, SubnameRecord>, infos: map<Node, RegistrarInfo>) {
    forall n :: n in subs ==> n.Child? && n.parent == subs[n].parent && n.parent in infos
  }

  ghost predicate ParentsListed(subs: map<Node, SubnameRecord>, subNames: set<(Node, Node)>) {
    forall p :: p in subNames <==> p.1 in subs && subs[p.1].parent == p.0
  }

  ghost predicate OffersListed(subs: map<Node, SubnameRecord>, offeredTo: set<(AccountId, Node)>) {
    forall p :: p in offeredTo <==> p.1 in subs && subs[p.1].state == Offered && subs[p.1].target == p.0
  }

  ghost predicate HoldersListed(subs: map<Node, SubnameRecord>, rows: set<(AccountId, Node)>) {
    forall p :: p in rows && !IsTop(p.1) <==> p.1 in subs && subs[p.1].state == Active && subs[p.1].target == p.0
  }

  /** The three subname indexes are views of the subname records, whose nodes sit one level below a registered
      name. */
  ghost predicate SubnamesIndexed(subs: map<Node, SubnameRecord>, infos: map<Node, RegistrarInfo>,
                                  subNames: set<(Node, Node)>, offeredTo: set<(AccountId, Node)>,
                                  rows: set<(AccountId, Node)>)
  {
    && SubsBelowNames(subs, infos)
    && ParentsListed(subs, subNames)
    && OffersListed(subs, offeredTo)
    && HoldersListed(subs, rows)
  }

  ghost predicate CountedAt(tokens: map<Node, Token>, subs: map<Node, SubnameRecord>, n: Node) {
    n in tokens ==> tokens[n].children == |SubsUnder(subs, n)|
  }

  /** The counter on a name's token is the number of its subname records. */
  ghost predicate ChildrenCounted(tokens: map<Node, Token>, infos: map<Node, RegistrarInfo>,
                                  subs: map<Node, SubnameRecord>)
  {
    forall n :: n in infos ==> CountedAt(tokens, subs, n)
  }

  ghost function NamesOf(tokens: map<Node, Token>, infos: map<Node, RegistrarInfo>): map<Node, Name> {
    map n | n in infos && n in tokens ::
      Name(tokens[n].owner, infos[n].expire, infos[n].capacity, infos[n].registerFee, infos[n].labelLen,
           infos[n].lastBlock)
  }

  ghost function OfficialOf(official: Option<AccountId>): AccountId {
    match official
    case Some(a) => a
    case None => AccountId(0)
  }

  ghost function TopRows(rows: set<(AccountId, Node)>): set<(AccountId, Node)> {
    set p | p in rows && IsTop(p.1)
  }

  class Chain {
    const cfg: Config
    var env: Env

    // pns-registrar/src/nft.rs
    var tokens: map<Node, Token>
    var tokensByOwner: set<(AccountId, Node)>
    var totalIssuance: nat
    var classOwner: AccountId

    // pns-registrar/src/registry.rs
    var origins: map<Node, Tracing>
    var subNames: set<(Node, Node)>
    var accountToSubnames: set<(AccountId, Node)>
    var subnameRecords: map<Node, SubnameRecord>
    var offeredToAccount: set<(AccountId, Node)>
    var official: Option<AccountId>

    // pns-registrar/src/registrar.rs
    var infos: map<Node, RegistrarInfo>
    var reservedList: set<Node>
    var ownerToPrimaryName: map<AccountId, Node>
    var offeredNames: map<Node, OfferedName>

    // pns-marketplace/src/lib.rs
    var listings: map<Node, Listing>

    // pns-resolvers/src/resolvers.rs
    var records: map<(Node, RecordType), Content>
    var texts: map<(Node, TextKind), Content>

    // balances and events
    var money: Money
    var events: seq<Event>

    /** Every index agrees with the maps it follows, for the given registrations. */
    ghost predicate ValidFor(infos: map<Node, RegistrarInfo>)
      reads this
    {
      && TokensIndexed(tokens, tokensByOwner, totalIssuance)
      && RootsTraced(tokens, infos, origins, official)
      && SubnamesIndexed(subnameRecords, infos, subNames, offeredToAccount, accountToSubnames)
      && ChildrenCounted(tokens, infos, subnameRecords)
    }

    ghost predicate Valid()
      reads this
    {
      ValidFor(infos)
    }

    ghost function ViewSystem(): System
      reads this
    {
      System(cfg, env, OfficialOf(official), reservedList)
    }

    ghost function ViewDirectory(): Directory
      reads this
    {
      Directory(NamesOf(tokens, infos), subnameRecords, TopRows(accountToSubnames))
    }

    ghost function ViewClaims(): Claims
      reads this
    {
      Claims(ownerToPrimaryName, offeredNames, listings)
    }

    /** The facts that the storage represents, each stated once. */
    ghost function View(): State
      reads this
    {
      State(ViewSystem(), ViewDirectory(), ViewClaims(), Zone(records, texts), money, events)
    }

    /** What an extrinsic that returned `r` did, as a step of the name service: it failed with an error, or it left
        the current state. What a failed one leaves behind is put back by the dispatcher. */
    ghost function Outcome(r: Result<()>): Result<State>
      reads this
    {
      match r
      case Ok(_) => Ok(View())
      case Err(e) => Err(e)
    }

    /** The genesis state: one class, the base token, an official account. */
    constructor (cfg: Config, env: Env, root: AccountId, reserved: set<Node>, money: Money)
      ensures Valid() && this.cfg == cfg
      ensures View() == Genesis(cfg, env, root, reserved, money)
    {
      this.cfg := cfg;
      this.env := env;
      tokens := map[Base := Token(root, 0)];
      tokensByOwner := {(root, Base)};
      totalIssuance := 1;
      classOwner := root;
      origins, subNames, accountToSubnames, subnameRecords, offeredToAccount := map[], {}, {}, map[], {};
      official := Some(root);
      infos, reservedList, ownerToPrimaryName, offeredNames := map[], reserved, map[], map[];
      listings, records, texts := map[], map[], map[];
      this.money := money;
      events := [];
      new;
      assert NamesOf(tokens, infos) == map[];
      assert TopRows(accountToSubnames) == {};
    }

    function SaveNft(): NftStore
      reads `tokens, `tokensByOwner, `totalIssuance, `classOwner
    {
      NftStore(tokens, tokensByOwner, totalIssuance, classOwner)
    }

    function SaveRegistry(): RegistryStore
      reads `origins, `subNames, `accountToSubnames, `subnameRecords, `offeredToAccount, `official
    {
      RegistryStore(origins, subNames, accountToSubnames, subnameRecords, offeredToAccount, official)
    }

    function SaveRegistrar(): RegistrarStore
      reads `infos, `reservedList, `ownerToPrimaryName, `offeredNames
    {
      RegistrarStore(infos, reservedList, ownerToPrimaryName, offeredNames)
    }

    function Save(): Snapshot
      reads this
    {
      Snapshot(env, SaveNft(), SaveRegistry(), SaveRegistrar(), listings, Zone(records, texts), money, events)
    }

    method Restore(saved: Snapshot)
      modifies this
      ensures Save() == saved
    {
      hide SaveNft, SaveRegistry, SaveRegistrar;
      RestoreNft(saved.nft);
      RestoreRegistry(saved.registry);
      RestoreRegistrar(saved.registrar);
      RestoreRest(saved);
    }

    method RestoreRest(saved: Snapshot)
      modifies `env, `listings, `records, `texts, `money, `events
      ensures env == saved.env && listings == saved.market && Zone(records, texts) == saved.zone
      ensures money == saved.money && events == saved.events
    {
      env, listings, records, texts := saved.env, saved.market, saved.zone.records, saved.zone.texts;
      money, events := saved.money, saved.events;
    }

    method RestoreNft(saved: NftStore)
      modifies `tokens, `tokensByOwner, `totalIssuance, `classOwner
      ensures SaveNft() == saved
    {
      tokens, tokensByOwner := saved.tokens, saved.tokensByOwner;
      totalIssuance, classOwner := saved.totalIssuance, saved.classOwner;
    }

    method RestoreRegistry(saved: RegistryStore)
      modifies `origins, `subNames, `accountToSubnames, `subnameRecords, `offeredToAccount, `official
      ensures SaveRegistry() == saved
    {
      origins, subNames, accountToSubnames := saved.origins, saved.subNames, saved.accountToSubnames;
      subnameRecords, offeredToAccount := saved.subnameRecords, saved.offeredToAccount;
      official := saved.official;
    }

    method RestoreRegistrar(saved: RegistrarStore)
      modifies `infos, `reservedList, `ownerToPrimaryName, `offeredNames
      ensures SaveRegistrar() == saved
    {
      infos, reservedList := saved.infos, saved.reservedList;
      ownerToPrimaryName, offeredNames := saved.ownerToPrimaryName, saved.offeredNames;
    }
  }
}
