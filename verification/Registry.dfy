/** pns-registrar/src/registry.rs */
module Registry {
  import opened Types
  import opened NameParsing
  import opened Currency
  import opened NameService
  import opened Storage
  import opened Indexes
  import opened RegistrarChecks
  import opened Subnames
  import Nft
  import Resolvers

  /** One turn of the loop of `clear_subnames`. */
  method ClearChild(c: Chain, child: Node)
    requires child in c.subnameRecords && child !in c.tokens && child !in c.origins
    requires forall p :: p in c.offeredToAccount && p.1 == child ==>
                           c.subnameRecords[child].state == Offered && c.subnameRecords[child].target == p.0
    requires forall p :: p in c.accountToSubnames && p.1 == child ==>
                           c.subnameRecords[child].state == Active && c.subnameRecords[child].target == p.0
    modifies c`origins, c`subnameRecords, c`offeredToAccount, c`accountToSubnames, c`records, c`texts
    ensures c.origins == old(c.origins)
    ensures c.subnameRecords == old(c.subnameRecords) - {child}
    ensures c.offeredToAccount == NotAbout(old(c.offeredToAccount), {child})
    ensures c.accountToSubnames == NotAbout(old(c.accountToSubnames), {child})
    ensures Zone(c.records, c.texts) == Wipe(old(Zone(c.records, c.texts)), {child})
  {
    Resolvers.ClearAllRecords(c, child);
    c.origins := c.origins - {child};
    var record := c.subnameRecords[child];
    c.subnameRecords := c.subnameRecords - {child};
    match record.state {
      case Offered => c.offeredToAccount := c.offeredToAccount - {(record.target, child)};
      case Rejected => c.offeredToAccount := c.offeredToAccount - {(record.target, child)};
      case Active => c.accountToSubnames := c.accountToSubnames - {(record.target, child)};
    }
    if child in c.tokens {
      assert false; // no subname has a token: the legacy branch is dead
    }
  }

  /** The loop of `clear_subnames`, over the collected children in any order. */
  method ClearChildren(c: Chain, children: set<Node>)
    requires children <= c.subnameRecords.Keys
    requires RootsTraced(c.tokens, c.infos, c.origins, c.official)
    requires SubnamesIndexed(c.subnameRecords, c.infos, c.subNames, c.offeredToAccount, c.accountToSubnames)
    modifies c`origins, c`subnameRecords, c`offeredToAccount, c`accountToSubnames, c`records, c`texts
    ensures c.origins == old(c.origins)
    ensures c.subnameRecords == old(c.subnameRecords) - children
    ensures c.offeredToAccount == NotAbout(old(c.offeredToAccount), children)
    ensures c.accountToSubnames == NotAbout(old(c.accountToSubnames), children)
    ensures Zone(c.records, c.texts) == Wipe(old(Zone(c.records, c.texts)), children)
  {
    hide Wipe;
    WipeNothing(Zone(c.records, c.texts));
    var todo, done := children, {};
    while todo != {}
      invariant todo + done == children && todo !! done
      invariant c.origins == old(c.origins)
      invariant c.subnameRecords == old(c.subnameRecords) - done
      invariant c.offeredToAccount == NotAbout(old(c.offeredToAccount), done)
      invariant c.accountToSubnames == NotAbout(old(c.accountToSubnames), done)
      invariant Zone(c.records, c.texts) == Wipe(old(Zone(c.records, c.texts)), done)
      decreases todo
    {
      var child :| child in todo;
      assert child in old(c.subnameRecords) && !IsTop(child);
      ClearChild(c, child);
      WipeTwice(old(Zone(c.records, c.texts)), done, {child});
      todo, done := todo - {child}, done + {child};
    }
    assert done == children;
  }

  /** Bulk-deletes every subname of `root`. */
  method ClearSubnames(c: Chain, root: Node)
    requires c.Valid()
    modifies c`origins, c`subNames, c`subnameRecords, c`offeredToAccount, c`accountToSubnames, c`tokens, c`records,
             c`texts
    ensures c.Valid()
    ensures c.origins == old(c.origins)
    ensures c.subnameRecords == SubsOutside(old(c.subnameRecords), root)
    ensures TopRows(c.accountToSubnames) == TopRows(old(c.accountToSubnames))
    ensures Zone(c.records, c.texts) == Wipe(old(Zone(c.records, c.texts)), SubsUnder(old(c.subnameRecords), root))
    ensures c.tokens == if root in old(c.tokens) then old(c.tokens)[root := old(c.tokens)[root].(children := 0)]
                        else old(c.tokens)
  {
    hide Wipe, NotAbout, NotUnder, SubsOutside, SubsUnder, TokensIndexed, RootsTraced, SubnamesIndexed, ChildrenCounted,
      TopRows, NamesOf;
    var children := set p | p in c.subNames && p.0 == root :: p.1;
    CollectedChildren(c.subnameRecords, c.infos, c.subNames, c.offeredToAccount, c.accountToSubnames, root);
    UnderAreRecords(c.subnameRecords, root);
    ClearChildren(c, children);
    ClearedIndexes(c.tokens, c.origins, c.official, old(c.subnameRecords), c.infos, old(c.subNames),
                   old(c.offeredToAccount), old(c.accountToSubnames), root);
    c.subNames := NotUnder(c.subNames, root);
    ClearedCounts(old(c.tokens), c.infos, old(c.subnameRecords), root);
    if root in c.tokens {
      ChildrenIrrelevant(c.tokens, c.tokensByOwner, c.totalIssuance, c.infos, c.origins, c.official, root, 0);
      c.tokens := c.tokens[root := c.tokens[root].(children := 0)];
    }
  }

  /** Takes a name without subnames out of every map of the registry. */
  method EraseRoot(c: Chain, owner: AccountId, token: Node)
    requires c.Valid() && token in c.infos && token in c.tokens && c.tokens[token].owner == owner && IsTop(token)
    requires SubsUnder(c.subnameRecords, token) == {}
    modifies c`tokens, c`tokensByOwner, c`totalIssuance, c`origins, c`accountToSubnames, c`infos
    ensures c.Valid()
    ensures NamesOf(c.tokens, c.infos) == old(NamesOf(c.tokens, c.infos)) - {token}
    ensures TopRows(c.accountToSubnames) == TopRows(old(c.accountToSubnames)) - {(owner, token)}
  {
    hide SubsUnder, TokensIndexed, RootsTraced, SubnamesIndexed, ChildrenCounted, TopRows, NamesOf;
    RemovedRoot(c.tokens, c.infos, c.origins, c.official, token);
    RemovedRow(c.subnameRecords, c.infos, c.subNames, c.offeredToAccount, c.accountToSubnames, token, owner);
    RemovedCount(c.tokens, c.infos, c.subnameRecords, token);
    ClearRegistrarInfo(c, token);
    c.accountToSubnames := c.accountToSubnames - {(owner, token)};
    c.origins := c.origins - {token};
    var burned := Nft.Burn(c, owner, token);
  }

  /** The effect of `do_burn` once its checks have passed. */
  method BurnRoot(c: Chain, owner: AccountId, token: Node)
    requires c.Valid() && token in c.infos && token in c.tokens && c.tokens[token].owner == owner && IsTop(token)
    requires token in c.ViewDirectory().names
    modifies c`tokens, c`tokensByOwner, c`totalIssuance, c`origins, c`subNames, c`accountToSubnames, c`subnameRecords,
             c`offeredToAccount, c`infos, c`records, c`texts
    ensures c.Valid()
    ensures c.ViewDirectory() == Remove(old(c.ViewDirectory()), token)
    ensures Zone(c.records, c.texts)
            == Wipe(old(Zone(c.records, c.texts)), SubsUnder(old(c.subnameRecords), token) + {token})
  {
    hide Wipe, SubsOutside, SubsUnder, TokensIndexed, RootsTraced, SubnamesIndexed, ChildrenCounted, TopRows, NamesOf;
    NothingUnder(c.subnameRecords, token);
    CounterFree(c.tokens, c.infos, token, 0);
    WipeTwice(Zone(c.records, c.texts), SubsUnder(c.subnameRecords, token), {token});
    OwnerOf(c.tokens, c.infos, token);
    ClearSubnames(c, token);
    EraseRoot(c, owner, token);
    Resolvers.ClearAllRecords(c, token);
  }

  /** The checks of `do_burn`, in order. */
  function BurnChecks(c: Chain, caller: AccountId, token: Node): Check
    reads c
  {
    if token !in c.tokens then Fail(NotExist)
    else if caller != c.tokens[token].owner then Fail(NoPermission)
    else Ensure(token in c.origins, BanBurnBaseNode)
  }

  lemma BurnAgrees(c: Chain, caller: AccountId, token: Node)
    requires c.Valid()
    ensures BurnChecks(c, caller, token).Pass? ==>
              && token in c.infos && token in c.tokens && c.tokens[token].owner == caller && IsTop(token)
              && token in c.ViewDirectory().names && token in c.origins && c.origins[token].TracedRoot?
    ensures BurnNode(c.View(), caller, token)
            == match BurnChecks(c, caller, token)
               case Pass => Ok(c.View().(dir := Remove(c.View().dir, token),
                                         zone := Wipe(c.View().zone, SubsUnder(c.subnameRecords, token) + {token})))
               case Fail(e) => Err(e)
  {
    hide Wipe, Remove, SubsUnder, SubnamesIndexed, ChildrenCounted, TopRows, TokensIndexed, RootsTraced, NamesOf;
    NamesAreInfos(c.tokens, c.infos, c.origins, c.official, token);
    BaseIsOfficial(c.tokens, c.infos, c.origins, c.official);
  }

  /** Destroys a name, with its subnames, registration, row and records. */
  method DoBurn(c: Chain, caller: AccountId, token: Node) returns (r: Result<()>)
    requires c.Valid()
    modifies c`tokens, c`tokensByOwner, c`totalIssuance, c`origins, c`subNames, c`accountToSubnames, c`subnameRecords,
             c`offeredToAccount, c`infos, c`records, c`texts
    ensures r.Ok? ==> c.Valid()
    ensures c.Outcome(r) == BurnNode(old(c.View()), caller, token)
  {
    hide Wipe, Remove, SubsUnder, TokensIndexed, RootsTraced, SubnamesIndexed, ChildrenCounted, TopRows, NamesOf,
      BurnNode, BurnChecks;
    BurnAgrees(c, caller, token);
    :- BurnChecks(c, caller, token);
    if c.origins[token].RuntimeOrigin? {
      assert false; // every traced name is a root: the legacy branch is dead
    }
    BurnRoot(c, caller, token);
    return Ok(());
  }

  /** The effect of `do_transfer` once its checks have passed. */
  method TransferRoot(c: Chain, owner: AccountId, to: AccountId, token: Node)
    requires c.Valid() && token in c.infos && token in c.tokens && c.tokens[token].owner == owner
    requires token in c.ViewDirectory().names
    modifies c`tokens, c`tokensByOwner, c`origins, c`subNames, c`accountToSubnames, c`subnameRecords,
             c`offeredToAccount, c`records, c`texts
    ensures c.Valid()
    ensures c.ViewDirectory() == SetOwner(old(c.ViewDirectory()), token, to)
    ensures Zone(c.records, c.texts)
            == WriteAnchors(KeepSs58(Wipe(old(Zone(c.records, c.texts)), SubsUnder(old(c.subnameRecords), token)),
                                     token), token, to, c.env.parentHash)
  {
    hide Wipe, SubsOutside, SubsUnder, KeepSs58, PutRecord, TokensIndexed, RootsTraced, SubnamesIndexed, ChildrenCounted,
      TopRows, NamesOf;
    ClearSubnames(c, token);
    CounterFree(old(c.tokens), c.infos, token, 0);
    NewOwner(c.tokens, c.infos, c.origins, c.official, c.subnameRecords, token, to);
    var moved := Nft.Transfer(c, owner, to, token);
    Resolvers.ClearRecordsExceptSs58(c, token);
    Resolvers.SetSs58Record(c, token, to);
    Resolvers.SetOriginRecord(c, token);
  }

  /** The checks of `do_transfer`, in order. */
  function TransferChecks(c: Chain, from: AccountId, token: Node): Check
    reads c
  {
    if token !in c.tokens then Fail(NotExist)
    else if from != c.tokens[token].owner then Fail(NoPermission)
    else if token !in c.origins then Fail(NotExist)
    else CheckExpiresRenewable(c, token)
  }

  lemma TransferAgrees(c: Chain, from: AccountId, to: AccountId, token: Node)
    requires c.Valid()
    ensures TransferChecks(c, from, token).Pass? ==>
              && token in c.infos && token in c.tokens && c.tokens[token].owner == from
              && token in c.ViewDirectory().names && token in c.origins && c.origins[token].TracedRoot?
    ensures TransferNode(c.View(), from, to, token)
            == match TransferChecks(c, from, token)
               case Pass =>
                 Ok(c.View().(dir := SetOwner(c.View().dir, token, to),
                              zone := WriteAnchors(KeepSs58(Wipe(c.View().zone, SubsUnder(c.subnameRecords, token)),
                                                            token), token, to, c.env.parentHash)))
               case Fail(e) => Err(e)
  {
    hide Wipe, KeepSs58, WriteAnchors, SetOwner, SubsUnder, SubnamesIndexed, ChildrenCounted, TopRows, TokensIndexed,
      RootsTraced, NamesOf;
    NamesAreInfos(c.tokens, c.infos, c.origins, c.official, token);
    BaseIsOfficial(c.tokens, c.infos, c.origins, c.official);
  }

  /** Hands a root name on with a clean slate. */
  method DoTransfer(c: Chain, from: AccountId, to: AccountId, token: Node) returns (r: Result<()>)
    requires c.Valid()
    modifies c`tokens, c`tokensByOwner, c`origins, c`subNames, c`accountToSubnames, c`subnameRecords,
             c`offeredToAccount, c`records, c`texts
    ensures r.Ok? ==> c.Valid()
    ensures c.Outcome(r) == TransferNode(old(c.View()), from, to, token)
  {
    hide Wipe, SubsUnder, KeepSs58, WriteAnchors, SetOwner, TokensIndexed, RootsTraced, SubnamesIndexed,
      ChildrenCounted, TopRows, NamesOf, TransferNode, TransferChecks;
    TransferAgrees(c, from, to, token);
    :- TransferChecks(c, from, token);
    if c.origins[token].RuntimeOrigin? {
      assert false; // every traced name is a root: the legacy branch is dead
    }
    TransferRoot(c, from, to, token);
    return Ok(());
  }

  /** The branch of `mint_subname` for a name whose grace period is over: its subnames and records go, the token
      changes hands and so does its row. */
  method TakeOver(c: Chain, from: AccountId, to: AccountId, node: Node)
    requires c.Valid() && node in c.infos && node in c.tokens && c.tokens[node].owner == from && IsTop(node)
    requires node in c.ViewDirectory().names
    modifies c`tokens, c`tokensByOwner, c`origins, c`subNames, c`accountToSubnames, c`subnameRecords,
             c`offeredToAccount, c`records, c`texts
    ensures c.Valid()
    ensures NamesOf(c.tokens, c.infos)
            == old(c.ViewDirectory()).names[node := old(c.ViewDirectory()).names[node].(owner := to)]
    ensures c.subnameRecords == SubsOutside(old(c.subnameRecords), node)
    ensures TopRows(c.accountToSubnames) == TopRows(old(c.accountToSubnames)) - {(from, node)} + {(to, node)}
    ensures Zone(c.records, c.texts)
            == Wipe(old(Zone(c.records, c.texts)), SubsUnder(old(c.subnameRecords), node) + {node})
  {
    hide Wipe, SubsOutside, SubsUnder, TokensIndexed, RootsTraced, SubnamesIndexed, ChildrenCounted, TopRows, NamesOf;
    CounterFree(c.tokens, c.infos, node, 0);
    WipeTwice(Zone(c.records, c.texts), SubsUnder(c.subnameRecords, node), {node});
    ClearSubnames(c, node);
    Resolvers.ClearAllRecords(c, node);
    TopRowsFree(c.subnameRecords, c.infos, c.subNames, c.offeredToAccount, c.accountToSubnames, node, from, to);
    NewOwner(c.tokens, c.infos, c.origins, c.official, c.subnameRecords, node, to);
    c.accountToSubnames := c.accountToSubnames - {(from, node)};
    var moved := Nft.Transfer(c, from, to, node);
    c.accountToSubnames := c.accountToSubnames + {(to, node)};
  }

  method AddChildren(c: Chain, node: Node) returns (r: Result<()>)
    modifies c`tokens
    ensures r.Ok? <==> node in old(c.tokens)
    ensures r.Ok? ==>
              c.tokens == old(c.tokens)[node := old(c.tokens)[node].(children := old(c.tokens)[node].children + 1)]
    ensures r.Err? ==> r == Err(NotExist)
  {
    if node !in c.tokens {
      return Err(NotExist);
    }
    var info := c.tokens[node];
    c.tokens := c.tokens[node := info.(children := info.children + 1)];
    return Ok(());
  }

  /** The branch of `mint_subname` for a name without a token. The payment has already written its
      registration. */
  method MintFresh(c: Chain, to: AccountId, node: Node, ghost infos: map<Node, RegistrarInfo>)
    requires c.ValidFor(infos)
    requires node in c.infos && c.infos == infos[node := c.infos[node]] && node !in infos && node !in c.tokens
    requires IsTop(node)
    modifies c`tokens, c`tokensByOwner, c`totalIssuance, c`origins, c`accountToSubnames
    ensures c.Valid()
    ensures NamesOf(c.tokens, c.infos) == old(NamesOf(c.tokens, infos))[node := NameOf(to, c.infos[node])]
    ensures TopRows(c.accountToSubnames) == TopRows(old(c.accountToSubnames)) + {(to, node)}
  {
    hide SubsUnder, TokensIndexed, RootsTraced, SubnamesIndexed, ChildrenCounted, TopRows, NamesOf, NameOf;
    ghost var info := c.infos[node];
    FreshRoot(c.tokens, infos, c.origins, c.official, node, to, info);
    FreshSubs(c.tokens, infos, c.subnameRecords, c.subNames, c.offeredToAccount, c.accountToSubnames, node, to, info);
    TopRowsFree(c.subnameRecords, c.infos, c.subNames, c.offeredToAccount, c.accountToSubnames, node, to, to);
    Nft.Mint(c, to, node);
    c.accountToSubnames := c.accountToSubnames + {(to, node)};
    ghost var origins := c.origins[node := TracedRoot];
    BaseIsOfficial(c.tokens, c.infos, origins, c.official);
    ChildrenIrrelevant(c.tokens, c.tokensByOwner, c.totalIssuance, c.infos, origins, c.official, Base,
                       c.tokens[Base].children + 1);
    BaseCounterFree(c.tokens, c.infos, c.subnameRecords, c.tokens[Base].children + 1);
    var added := AddChildren(c, Base);
    c.origins := c.origins[node := TracedRoot];
  }

  /** What `mint_subname` under the base node does to the name service. */
  ghost function MintSpec(s: State, caller: AccountId, node: Node, to: AccountId, fee: nat, expire: nat, labelLen: nat)
    : Result<State>
  {
    var y := s.sys;
    :- Ensure(to != y.official, CannotOwnSubnameUnderOwnDomain);
    :- Ensure(!Live(y, s.dir, node), Occupied);
    var money :- Withdraw(s.money, y.cfg.existential, caller, fee);
    Ok(s.(dir := Mint(s.dir, node, FreshName(s, node, to, expire, fee, labelLen)),
          claims := if node in s.dir.names then ForgetPrimary(s.claims, s.dir.names[node].owner, node) else s.claims,
          zone := Vacate(s.dir, s.zone, node),
          money := money))
  }

  lemma MintOverAgrees(c: Chain, caller: AccountId, node: Node, to: AccountId, fee: nat, expire: nat, labelLen: nat)
    requires c.Valid() && node in c.infos && node in c.tokens && to != c.ViewSystem().official
    requires CheckExpiresRegistrable(c, node).Pass?
    ensures node in c.ViewDirectory().names
    ensures MintSpec(c.View(), caller, node, to, fee, expire, labelLen)
            == match Withdraw(c.money, c.cfg.existential, caller, fee)
               case Ok(m) =>
                 Ok(c.View().(dir := Directory(c.View().dir.names[node := NameOf(to, PaidInfo(c, node, fee, expire,
                                                                                              labelLen))],
                                               SubsOutside(c.subnameRecords, node),
                                               c.View().dir.held - {(c.tokens[node].owner, node)} + {(to, node)}),
                              claims := ForgetPrimary(c.View().claims, c.tokens[node].owner, node),
                              zone := Wipe(c.View().zone, SubsUnder(c.subnameRecords, node) + {node}),
                              money := m))
               case Err(e) => Err(e)
  {
    hide Wipe, SubsOutside, SubsUnder, TokensIndexed, RootsTraced, SubnamesIndexed, ChildrenCounted, TopRows, NamesOf,
      Withdraw, ForgetPrimary;
    NamesAreInfos(c.tokens, c.infos, c.origins, c.official, node);
  }

  method MintOver(c: Chain, caller: AccountId, node: Node, to: AccountId, fee: nat, expire: nat, labelLen: nat)
    returns (r: Result<()>)
    requires c.Valid() && IsTop(node) && node in c.infos && node in c.tokens && to != c.ViewSystem().official
    requires CheckExpiresRegistrable(c, node).Pass?
    modifies c`tokens, c`tokensByOwner, c`origins, c`subNames, c`accountToSubnames, c`subnameRecords,
             c`offeredToAccount, c`records, c`texts, c`ownerToPrimaryName, c`money, c`infos
    ensures r.Ok? ==> c.Valid()
    ensures c.Outcome(r) == MintSpec(old(c.View()), caller, node, to, fee, expire, labelLen)
  {
    hide Wipe, SubsOutside, SubsUnder, TokensIndexed, RootsTraced, SubnamesIndexed, ChildrenCounted, TopRows, NamesOf,
      Withdraw, MintSpec, CheckExpiresRegistrable, ForgetPrimary;
    MintOverAgrees(c, caller, node, to, fee, expire, labelLen);
    var from := c.tokens[node].owner;
    ghost var info := PaidInfo(c, node, fee, expire, labelLen);
    RewrittenInfo(c.tokens, c.infos, c.origins, c.official, node, info);
    RewrittenInfoSubs(c.tokens, c.infos, c.subnameRecords, c.subNames, c.offeredToAccount, c.accountToSubnames, node,
                      info);
    var _ :- DoPayments(c, Some(from), caller, node, fee, expire, labelLen);
    TakeOver(c, from, to, node);
    ghost var names := old(NamesOf(c.tokens, c.infos));
    assert names[node := NameOf(from, info)][node := NameOf(to, info)] == names[node := NameOf(to, info)];
    return Ok(());
  }

  lemma MintNewAgrees(c: Chain, caller: AccountId, node: Node, to: AccountId, fee: nat, expire: nat, labelLen: nat)
    requires c.Valid() && node !in c.tokens && to != c.ViewSystem().official
    ensures node !in c.infos
    ensures MintSpec(c.View(), caller, node, to, fee, expire, labelLen)
            == match Withdraw(c.money, c.cfg.existential, caller, fee)
               case Ok(m) =>
                 Ok(c.View().(dir := Directory(c.View().dir.names[node := NameOf(to, PaidInfo(c, node, fee, expire,
                                                                                              labelLen))],
                                               c.subnameRecords, c.View().dir.held + {(to, node)}),
                              money := m))
               case Err(e) => Err(e)
  {
    hide TokensIndexed, RootsTraced, SubnamesIndexed, ChildrenCounted, TopRows, NamesOf, Withdraw;
    NamesAreInfos(c.tokens, c.infos, c.origins, c.official, node);
  }

  method MintNew(c: Chain, caller: AccountId, node: Node, to: AccountId, fee: nat, expire: nat, labelLen: nat)
    returns (r: Result<()>)
    requires c.Valid() && IsTop(node) && node !in c.tokens && to != c.ViewSystem().official
    modifies c`tokens, c`tokensByOwner, c`totalIssuance, c`origins, c`accountToSubnames, c`ownerToPrimaryName, c`money,
             c`infos
    ensures r.Ok? ==> c.Valid()
    ensures c.Outcome(r) == MintSpec(old(c.View()), caller, node, to, fee, expire, labelLen)
  {
    hide TokensIndexed, RootsTraced, SubnamesIndexed, ChildrenCounted, TopRows, NamesOf, Withdraw, MintSpec, NameOf;
    MintNewAgrees(c, caller, node, to, fee, expire, labelLen);
    var _ :- DoPayments(c, None, caller, node, fee, expire, labelLen);
    MintFresh(c, to, node, old(c.infos));
    return Ok(());
  }

  /** `mint_subname` under the base node: mints a fresh name, or takes a lapsed one over. */
  method MintUnderBase(c: Chain, caller: AccountId, node: Node, to: AccountId, fee: nat, expire: nat, labelLen: nat)
    returns (r: Result<()>)
    requires c.Valid() && IsTop(node)
    modifies c`tokens, c`tokensByOwner, c`totalIssuance, c`origins, c`subNames, c`accountToSubnames, c`subnameRecords,
             c`offeredToAccount, c`records, c`texts, c`ownerToPrimaryName, c`money, c`infos
    ensures r.Ok? ==> c.Valid()
    ensures c.Outcome(r) == MintSpec(old(c.View()), caller, node, to, fee, expire, labelLen)
  {
    hide Vacate, Mint, FreshName, ForgetPrimary, TokensIndexed, RootsTraced, SubnamesIndexed, ChildrenCounted, TopRows,
      NamesOf, Withdraw;
    BaseIsOfficial(c.tokens, c.infos, c.origins, c.official);
    NamesAreInfos(c.tokens, c.infos, c.origins, c.official, node);
    :- Ensure(to != c.tokens[Base].owner, CannotOwnSubnameUnderOwnDomain);
    if node in c.tokens {
      :- CheckExpiresRegistrable(c, node);
      r := MintOver(c, caller, node, to, fee, expire, labelLen);
    } else {
      r := MintNew(c, caller, node, to, fee, expire, labelLen);
    }
  }

  /** What minting below a registered name writes: a token, a row, a trace to the root, an entry of the subname index and
      a slot of the counter. No subname record is written, so the indexes no longer agree. */
  ghost predicate EnteredBelow(parent: Node, node: Node, to: AccountId, nft: NftStore, nft': NftStore,
                               registry: RegistryStore, registry': RegistryStore)
    requires parent in nft.tokens
  {
    && nft'.tokens == nft.tokens[node := Token(to, 0)]
                                [parent := nft.tokens[parent].(children := nft.tokens[parent].children + 1)]
    && TokensIndexed(nft'.tokens, nft'.tokensByOwner, nft'.totalIssuance) && nft'.classOwner == nft.classOwner
    && registry' == registry.(origins := registry.origins[node := RuntimeOrigin(parent)],
                              subNames := registry.subNames + {(parent, node)},
                              accountToSubnames := registry.accountToSubnames + {(to, node)})
  }

  /** The branch of `mint_subname` below a registered name, which no extrinsic reaches. */
  method MintBelow(c: Chain, parent: Node, node: Node, to: AccountId, capacity: nat, caller: AccountId, fee: nat,
                   expire: nat, labelLen: nat)
    returns (r: Result<()>)
    requires c.Valid() && parent in c.tokens && parent != Base && node.Child? && node.parent == parent
    modifies c`tokens, c`tokensByOwner, c`totalIssuance, c`origins, c`subNames, c`accountToSubnames,
             c`ownerToPrimaryName, c`money, c`infos
    ensures match Withdraw(old(c.money), c.cfg.existential, caller, fee)
            case Err(e) => r == Err(e)
            case Ok(m) =>
              if old(c.tokens)[parent].children >= capacity then r == Err(CapacityNotEnough)
              else
                && r.Ok? && c.money == m && c.ViewClaims() == old(c.ViewClaims())
                && c.infos == old(c.infos)[node := old(PaidInfo(c, node, fee, expire, labelLen))]
                && EnteredBelow(parent, node, to, old(c.SaveNft()), c.SaveNft(), old(c.SaveRegistry()), c.SaveRegistry())
  {
    hide TopRows, NamesOf, Withdraw, SubnamesIndexed, ChildrenCounted, TokensIndexed, RootsTraced, PaidInfo,
      EnteredBelow;
    NamesAreInfos(c.tokens, c.infos, c.origins, c.official, parent);
    NamesAreInfos(c.tokens, c.infos, c.origins, c.official, node);
    var _ :- DoPayments(c, None, caller, node, fee, expire, labelLen);
    r := EnterBelow(c, parent, node, to, capacity);
  }

  method EnterBelow(c: Chain, parent: Node, node: Node, to: AccountId, capacity: nat) returns (r: Result<()>)
    requires TokensIndexed(c.tokens, c.tokensByOwner, c.totalIssuance) && parent in c.tokens && node !in c.tokens
    requires parent in c.origins && c.origins[parent].TracedRoot?
    modifies c`tokens, c`tokensByOwner, c`totalIssuance, c`origins, c`subNames, c`accountToSubnames
    ensures if old(c.tokens)[parent].children >= capacity then r == Err(CapacityNotEnough)
            else
              r.Ok?
              && EnteredBelow(parent, node, to, old(c.SaveNft()), c.SaveNft(), old(c.SaveRegistry()), c.SaveRegistry())
  {
    hide TokensIndexed;
    Nft.Mint(c, to, node);
    c.accountToSubnames := c.accountToSubnames + {(to, node)};
    if c.origins[parent].RuntimeOrigin? {
      assert false; // every traced name is a root
    }
    CounterIndexed(c.tokens, c.tokensByOwner, c.totalIssuance, parent, c.tokens[parent].children + 1);
    var _ :- AddChildrenWithCheck(c, parent, capacity);
    c.origins := c.origins[node := RuntimeOrigin(parent)];
    c.subNames := c.subNames + {(parent, node)};
    return Ok(());
  }

  lemma CounterIndexed(tokens: map<Node, Token>, byOwner: set<(AccountId, Node)>, issuance: nat, id: Node, children: nat)
    requires TokensIndexed(tokens, byOwner, issuance) && id in tokens
    ensures TokensIndexed(tokens[id := tokens[id].(children := children)], byOwner, issuance)
  {
    assert tokens[id := tokens[id].(children := children)].Keys == tokens.Keys;
  }

  /** `mint_subname`: the owner of the parent mints a node below it for somebody else. The registrar calls it with the
      base node and the official account. */
  method MintSubname(c: Chain, owner: AccountId, parent: Node, node: Node, to: AccountId, capacity: nat,
                     caller: AccountId, fee: nat, expire: nat, labelLen: nat)
    returns (r: Result<()>)
    requires c.Valid() && node.Child? && node.parent == parent
    modifies c`tokens, c`tokensByOwner, c`totalIssuance, c`origins, c`subNames, c`accountToSubnames, c`subnameRecords,
             c`offeredToAccount, c`records, c`texts, c`ownerToPrimaryName, c`money, c`infos
    ensures parent !in old(c.tokens) ==> r == Err(NotExist)
    ensures parent in old(c.tokens) && owner != old(c.tokens)[parent].owner ==> r == Err(NoPermission)
    ensures parent == Base && owner == old(c.ViewSystem()).official ==>
              && (r.Ok? ==> c.Valid())
              && c.Outcome(r) == MintSpec(old(c.View()), caller, node, to, fee, expire, labelLen)
    ensures parent != Base && parent in old(c.tokens) && owner == old(c.tokens)[parent].owner ==>
              if to == owner then r == Err(CannotOwnSubnameUnderOwnDomain)
              else
                match Withdraw(old(c.money), c.cfg.existential, caller, fee)
                case Err(e) => r == Err(e)
                case Ok(m) =>
                  if old(c.tokens)[parent].children >= capacity then r == Err(CapacityNotEnough)
                  else
                    && r.Ok? && c.money == m && c.ViewClaims() == old(c.ViewClaims())
                    && c.infos == old(c.infos)[node := old(PaidInfo(c, node, fee, expire, labelLen))]
                    && EnteredBelow(parent, node, to, old(c.SaveNft()), c.SaveNft(), old(c.SaveRegistry()),
                                    c.SaveRegistry())
  {
    hide TokensIndexed, RootsTraced, SubnamesIndexed, ChildrenCounted, TopRows, NamesOf, Withdraw, MintSpec,
      EnteredBelow, PaidInfo;
    BaseIsOfficial(c.tokens, c.infos, c.origins, c.official);
    NamesAreInfos(c.tokens, c.infos, c.origins, c.official, parent);
    NamesAreInfos(c.tokens, c.infos, c.origins, c.official, node);
    if parent !in c.tokens {
      return Err(NotExist);
    }
    :- Ensure(owner == c.tokens[parent].owner, NoPermission);
    if parent == Base {
      r := MintUnderBase(c, caller, node, to, fee, expire, labelLen);
    } else {
      :- Ensure(to != c.tokens[parent].owner, CannotOwnSubnameUnderOwnDomain);
      if node in c.tokens {
        assert false; // no subname has a token
      }
      r := MintBelow(c, parent, node, to, capacity, caller, fee, expire, labelLen);
    }
  }

  // Extrinsics

  method Burn(c: Chain, caller: AccountId, name: Bytes) returns (r: Result<()>)
    requires c.Valid()
    modifies c`tokens, c`tokensByOwner, c`totalIssuance, c`origins, c`subNames, c`accountToSubnames, c`subnameRecords,
             c`offeredToAccount, c`infos, c`records, c`texts
    ensures r.Ok? ==> c.Valid()
    ensures c.Outcome(r) == NameService.DoBurn(old(c.View()), caller, ParseNameToNode(name, Base))
  {
    hide TokensIndexed, RootsTraced, SubnamesIndexed, ChildrenCounted, TopRows, NamesOf, BurnNode, ParseNameToNode;
    var node :- OkOr(ParseNameToNode(name, Base), InvalidName);
    r := DoBurn(c, caller, node);
  }

  method SetOfficial(c: Chain, official: AccountId) returns (r: Result<()>)
    requires c.Valid()
    modifies c`official, c`tokens, c`tokensByOwner, c`classOwner
    ensures r.Ok? && c.Valid() && c.classOwner == official
    ensures c.View() == old(c.View()).(sys := old(c.ViewSystem()).(official := official))
  {
    hide TokensIndexed, RootsTraced, SubnamesIndexed, ChildrenCounted, TopRows, NamesOf;
    BaseIsOfficial(c.tokens, c.infos, c.origins, c.official);
    NewOfficial(c.tokens, c.infos, c.origins, c.official, c.subnameRecords, official);
    var previous := c.official.value;
    c.official := Some(official);
    var moved := Nft.Transfer(c, previous, official, Base);
    c.classOwner := official;
    return Ok(());
  }
}
