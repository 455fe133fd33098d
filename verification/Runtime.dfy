/** The runtime: extrinsics dispatched to the pallets inside a storage transaction, and blocks. */
module Runtime {
  import opened Types
  import opened Labels
  import opened NameParsing
  import opened NameService
  import opened Currency
  import opened Storage
  import opened AllRuns
  import opened CleanRuns
  import opened Rows
  import opened LockOut
  import opened OneName
  import Registry
  import Registrar
  import Marketplace
  import Resolvers

  predicate IsRegistrarCall(call: Call) {
    call.Register? || call.Renew? || call.Transfer? || call.ReleaseName? || call.OfferSubdomain?
    || call.AcceptSubdomain? || call.RejectSubdomain? || call.RevokeSubdomain? || call.ReleaseSubdomain?
    || call.AcceptOfferedName?
  }

  method CallRegistrar(c: Chain, who: AccountId, call: Call) returns (r: Result<()>)
    requires c.Valid() && IsRegistrarCall(call)
    modifies c
    ensures r.Ok? ==> c.Valid()
    ensures c.Outcome(r) == Perform(old(c.View()), who, Resolve(call))
  {
    hide TokensIndexed, RootsTraced, SubnamesIndexed, ChildrenCounted, TopRows, NamesOf, Top, Sub, NewLabel, Lower,
      ParseNameToNode, DoRegister, DoRenew, DoTransfer, DoReleaseName, DoOffer, DoAccept, DoReject, DoRevoke,
      DoReleaseSub, DoAcceptGift, DoBurn, DoList, DoCancel, DoBuy, DoSetRecord, DoSetText;
    match call {
      case Register(name, owner, reject) => r := Registrar.Register(c, who, name, owner, reject);
      case Renew => r := Registrar.Renew(c, who);
      case Transfer(to) => r := Registrar.Transfer(c, who, to);
      case ReleaseName => r := Registrar.ReleaseName(c, who);
      case OfferSubdomain(sub, target) => r := Registrar.OfferSubdomain(c, who, sub, target);
      case AcceptSubdomain(parent, sub) => r := Registrar.AcceptSubdomain(c, who, parent, sub);
      case RejectSubdomain(parent, sub) => r := Registrar.RejectSubdomain(c, who, parent, sub);
      case RevokeSubdomain(sub) => r := Registrar.RevokeSubdomain(c, who, sub);
      case ReleaseSubdomain(parent, sub) => r := Registrar.ReleaseSubdomain(c, who, parent, sub);
      case AcceptOfferedName(name) => r := Registrar.AcceptOfferedName(c, who, name);
    }
  }

  predicate IsMarketCall(call: Call) {
    call.CreateListing? || call.CancelListing? || call.BuyName?
  }

  method CallMarket(c: Chain, who: AccountId, call: Call) returns (r: Result<()>)
    requires c.Valid() && IsMarketCall(call)
    modifies c
    ensures r.Ok? ==> c.Valid()
    ensures c.Outcome(r) == Perform(old(c.View()), who, Resolve(call))
  {
    hide TokensIndexed, RootsTraced, SubnamesIndexed, ChildrenCounted, TopRows, NamesOf, Top, DoList, DoCancel, DoBuy;
    match call {
      case CreateListing(price, expiresAt) => r := Marketplace.CreateListing(c, who, price, expiresAt);
      case CancelListing => r := Marketplace.CancelListing(c, who);
      case BuyName(name, recipient) => r := Marketplace.BuyName(c, who, name, recipient);
    }
  }

  method CallAsAccount(c: Chain, who: AccountId, call: Call) returns (r: Result<()>)
    requires c.Valid()
    modifies c
    ensures r.Ok? ==> c.Valid()
    ensures c.Outcome(r) == Perform(old(c.View()), who, Resolve(call))
  {
    hide TokensIndexed, RootsTraced, SubnamesIndexed, ChildrenCounted, TopRows, NamesOf, Top, Sub, NewLabel, Lower,
      ParseNameToNode, DoBurn, DoList, DoCancel, DoBuy, DoSetRecord, DoSetText, DoRegister, DoRenew, DoTransfer,
      DoReleaseName, DoOffer, DoAccept, DoReject, DoRevoke, DoReleaseSub, DoAcceptGift;
    if IsRegistrarCall(call) {
      r := CallRegistrar(c, who, call);
    } else if IsMarketCall(call) {
      r := CallMarket(c, who, call);
    } else {
      match call {
        case Burn(name) => r := Registry.Burn(c, who, name);
        case SetRecord(name, kind, content) => r := Resolvers.SetRecord(c, who, name, kind, content);
        case SetText(name, text, content) => r := Resolvers.SetText(c, who, name, text, content);
        case AddReserved(_) => r := Err(BadOrigin);
        case RemoveReserved(_) => r := Err(BadOrigin);
        case SetOfficial(_) => r := Err(BadOrigin);
      }
    }
  }

  method CallAsManager(c: Chain, call: Call) returns (r: Result<()>)
    requires c.Valid()
    modifies c
    ensures r.Ok? ==> c.Valid()
    ensures c.Outcome(r) == ApplyRoot(old(c.View()), call)
  {
    hide TokensIndexed, RootsTraced, SubnamesIndexed, ChildrenCounted, TopRows, NamesOf, Top, DoReserve;
    match call {
      case AddReserved(name) => r := Registrar.AddReserved(c, name);
      case RemoveReserved(name) => r := Registrar.RemoveReserved(c, name);
      case SetOfficial(official) => r := Registry.SetOfficial(c, official);
      case _ => r := Err(BadOrigin);
    }
  }

  method BeginBlock(c: Chain, env: Env) returns (r: Result<()>)
    requires c.Valid()
    modifies c`env
    ensures r.Ok? ==> c.Valid()
    ensures c.Outcome(r) == Apply(old(c.View()), NewBlock(env))
  {
    hide TokensIndexed, RootsTraced, SubnamesIndexed, ChildrenCounted, TopRows, NamesOf;
    :- Ensure(c.env.now <= env.now, TimeWentBack);
    c.env := env;
    return Ok(());
  }

  /** Puts a failed extrinsic's changes back. */
  method RollBack(c: Chain, saved: Snapshot, ghost s: State, ghost cfg: Config)
    requires Restores(saved, s, cfg) && c.cfg == cfg
    modifies c
    ensures c.Valid() && c.View() == s
  {
    hide TokensIndexed, RootsTraced, SubnamesIndexed, ChildrenCounted, TopRows, NamesOf;
    c.Restore(saved);
  }

  /** A snapshot of a valid storage that represents `s`. */
  ghost predicate Restores(saved: Snapshot, s: State, cfg: Config) {
    var nft, registry, registrar := saved.nft, saved.registry, saved.registrar;
    && TokensIndexed(nft.tokens, nft.tokensByOwner, nft.totalIssuance)
    && RootsTraced(nft.tokens, registrar.infos, registry.origins, registry.official)
    && SubnamesIndexed(registry.subnameRecords, registrar.infos, registry.subNames, registry.offeredToAccount,
                       registry.accountToSubnames)
    && ChildrenCounted(nft.tokens, registrar.infos, registry.subnameRecords)
    && s == State(System(cfg, saved.env, OfficialOf(registry.official), registrar.reservedList),
                  Directory(NamesOf(nft.tokens, registrar.infos), registry.subnameRecords,
                            TopRows(registry.accountToSubnames)),
                  Claims(registrar.ownerToPrimaryName, registrar.offeredNames, saved.market), saved.zone, saved.money,
                  saved.events)
  }

  /** One extrinsic, in a storage transaction. */
  method Dispatch(c: Chain, x: Extrinsic) returns (r: Result<()>)
    requires c.Valid()
    modifies c
    ensures c.Valid()
    ensures c.View() == Step(old(c.View()), x)
    ensures match Apply(old(c.View()), x)
            case Ok(_) => r.Ok?
            case Err(e) => r == Err(e)
  {
    hide TokensIndexed, RootsTraced, SubnamesIndexed, ChildrenCounted, TopRows, NamesOf, Perform, ApplyRoot, Resolve;
    var saved := c.Save();
    match x {
      case Signed(who, call) => r := CallAsAccount(c, who, call);
      case Root(call) => r := CallAsManager(c, call);
      case NewBlock(env) => r := BeginBlock(c, env);
    }
    if r.Err? {
      RollBack(c, saved, old(c.View()), c.cfg);
    }
  }

  /** A run of the chain. */
  method Execute(c: Chain, xs: seq<Extrinsic>)
    requires c.Valid()
    modifies c
    ensures c.Valid()
    ensures c.View() == Run(old(c.View()), xs)
  {
    hide Step, Apply;
    for i := 0 to |xs|
      invariant c.Valid()
      invariant c.View() == Run(old(c.View()), xs[..i])
    {
      assert xs[..i + 1][..i] == xs[..i];
      var _ := Dispatch(c, xs[i]);
    }
    assert xs[..|xs|] == xs;
  }

  /** A chain started from genesis, after any extrinsics and blocks whatsoever: every index agrees with the maps it
      follows, the name service is well formed, has at most one row and one settled name per account and nothing that
      cannot be spelled, and if the run was clean then claims, gifts and owner records agree with the tokens. */
  method Launch(cfg: Config, env: Env, root: AccountId, reserved: set<Node>, money: Money, xs: seq<Extrinsic>)
    returns (c: Chain)
    requires Balanced(money)
    ensures fresh(c) && c.Valid()
    ensures c.View() == Run(Genesis(cfg, env, root, reserved, money), xs)
    ensures Core(c.View())
    ensures RowsOk(c.View()) && Spellable(c.View().dir) && ClaimedByOwner(c.View())
    ensures CleanRun(Genesis(cfg, env, root, reserved, money), xs) ==> Consistent(c.View())
  {
    hide Core, Consistent, CleanRun, Run, Balanced, RowsOk, Spellable, ClaimedByOwner;
    ghost var s := Genesis(cfg, env, root, reserved, money);
    c := new Chain(cfg, env, root, reserved, money);
    GenesisCore(cfg, env, root, reserved, money);
    RunCore(s, xs);
    GenesisRows(cfg, env, root, reserved, money);
    RunRows(s, xs);
    GenesisSpellable(cfg, env, root, reserved, money);
    RunSpellable(s, xs);
    GenesisOne(cfg, env, root, reserved, money);
    RunOne(s, xs);
    if CleanRun(s, xs) {
      GenesisConsistent(cfg, env, root, reserved, money);
      RunConsistent(s, xs);
    }
    Execute(c, xs);
  }
}
