/** The delegation of subnames in pns-registrar/src/registry.rs: offer, accept, reject, revoke, release. */
module Subnames {
  import opened Types
  import opened NameService
  import opened Storage
  import opened Indexes
  import opened RegistrarChecks
  import Resolvers

  predicate HasActiveSubname(c: Chain, account: AccountId)
    reads c`accountToSubnames
  {
    exists p :: p in c.accountToSubnames && p.0 == account
  }

  method AddChildrenWithCheck(c: Chain, node: Node, capacity: nat) returns (r: Result<()>)
    modifies c`tokens
    ensures r.Ok? <==> node in old(c.tokens) && old(c.tokens)[node].children < capacity
    ensures r.Ok? ==>
              c.tokens == old(c.tokens)[node := old(c.tokens)[node].(children := old(c.tokens)[node].children + 1)]
    ensures r.Err? ==> r == Err(if node in old(c.tokens) then CapacityNotEnough else NotExist)
  {
    if node !in c.tokens {
      return Err(NotExist);
    }
    var info := c.tokens[node];
    :- Ensure(info.children < capacity, CapacityNotEnough);
    c.tokens := c.tokens[node := info.(children := info.children + 1)];
    return Ok(());
  }

  method SubChildren(c: Chain, node: Node) returns (r: Result<()>)
    modifies c`tokens
    ensures r.Ok? <==> node in old(c.tokens) && old(c.tokens)[node].children > 0
    ensures r.Ok? ==>
              c.tokens == old(c.tokens)[node := old(c.tokens)[node].(children := old(c.tokens)[node].children - 1)]
    ensures r.Err? ==> r == Err(if node in old(c.tokens) then Overflow else NotExist)
  {
    if node !in c.tokens {
      return Err(NotExist);
    }
    var info := c.tokens[node];
    :- Ensure(info.children >= 1, Overflow);
    c.tokens := c.tokens[node := info.(children := info.children - 1)];
    return Ok(());
  }

  /** What `offer_subname` does to the name service. */
  ghost function OfferSpec(s: State, parent: Node, node: Node, spelling: Bytes, to: AccountId, capacity: nat)
    : Result<State>
  {
    var d := s.dir;
    :- Ensure(parent in d.names, SubnameDepthExceeded);
    :- Ensure(to != d.names[parent].owner, CannotOwnSubnameUnderOwnDomain);
    :- Ensure(node !in d.subs, SubnameAlreadyExists);
    :- Ensure(|SubsUnder(d.subs, parent)| < capacity, CapacityNotEnough);
    Ok(s.(dir := PutSub(d, node, SubnameRecord(parent, spelling, to, Offered))))
  }

  function OfferChecks(c: Chain, parent: Node, node: Node, to: AccountId): Check
    reads c
  {
    if parent !in c.origins || !c.origins[parent].TracedRoot? then Fail(SubnameDepthExceeded)
    else if parent in c.tokens && to == c.tokens[parent].owner then Fail(CannotOwnSubnameUnderOwnDomain)
    else Ensure(node !in c.subnameRecords, SubnameAlreadyExists)
  }

  /** The check of the counter is the check of the number of subnames. */
  lemma OfferAgrees(c: Chain, parent: Node, node: Node, spelling: Bytes, to: AccountId, capacity: nat)
    requires c.Valid()
    ensures OfferChecks(c, parent, node, to).Pass? ==>
              parent in c.tokens && parent in c.infos && node !in c.subnameRecords
    ensures OfferSpec(c.View(), parent, node, spelling, to, capacity)
            == match OfferChecks(c, parent, node, to)
               case Pass =>
                 if c.tokens[parent].children < capacity
                 then Ok(c.View().(dir := PutSub(c.View().dir, node, SubnameRecord(parent, spelling, to, Offered))))
                 else Err(CapacityNotEnough)
               case Fail(e) => Err(e)
  {
    hide SubsUnder, PutSub, TokensIndexed, RootsTraced, SubnamesIndexed, ChildrenCounted, TopRows, NamesOf;
    NamesAreInfos(c.tokens, c.infos, c.origins, c.official, parent);
    if parent in c.infos {
      CounterIsCount(c.tokens, c.infos, c.subnameRecords, parent);
    }
  }

  /** Enters an offer in the records and the indexes. */
  method PutOffer(c: Chain, node: Node, record: SubnameRecord, ghost tokens: map<Node, Token>)
    requires record.parent in tokens && record.parent in c.infos && node !in c.subnameRecords && record.state == Offered
    requires node.Child? && node.parent == record.parent
    requires c.tokens == tokens[record.parent := tokens[record.parent].(children := tokens[record.parent].children + 1)]
    requires TokensIndexed(tokens, c.tokensByOwner, c.totalIssuance)
    requires RootsTraced(tokens, c.infos, c.origins, c.official)
    requires SubnamesIndexed(c.subnameRecords, c.infos, c.subNames, c.offeredToAccount, c.accountToSubnames)
    requires ChildrenCounted(tokens, c.infos, c.subnameRecords)
    modifies c`subnameRecords, c`offeredToAccount, c`subNames
    ensures c.Valid()
    ensures c.subnameRecords == old(c.subnameRecords)[node := record]
    ensures NamesOf(c.tokens, c.infos) == NamesOf(tokens, c.infos)
  {
    hide SubsUnder, TokensIndexed, RootsTraced, SubnamesIndexed, ChildrenCounted, TopRows, NamesOf;
    ChildrenIrrelevant(tokens, c.tokensByOwner, c.totalIssuance, c.infos, c.origins, c.official, record.parent,
                       tokens[record.parent].children + 1);
    OfferedIndexes(c.subnameRecords, c.infos, c.subNames, c.offeredToAccount, c.accountToSubnames, node, record);
    OfferedCount(tokens, c.infos, c.subnameRecords, node, record);
    c.subnameRecords := c.subnameRecords[node := record];
    c.offeredToAccount := c.offeredToAccount + {(record.target, node)};
    c.subNames := c.subNames + {(record.parent, node)};
  }

  method OfferSubname(c: Chain, parent: Node, node: Node, spelling: Bytes, to: AccountId, capacity: nat)
    returns (r: Result<()>)
    requires c.Valid() && node.Child? && node.parent == parent
    modifies c`tokens, c`subnameRecords, c`offeredToAccount, c`subNames
    ensures r.Ok? ==> c.Valid()
    ensures c.Outcome(r) == OfferSpec(old(c.View()), parent, node, spelling, to, capacity)
  {
    hide SubsUnder, OfferSpec, OfferChecks, TokensIndexed, RootsTraced, SubnamesIndexed, ChildrenCounted, TopRows,
      NamesOf;
    OfferAgrees(c, parent, node, spelling, to, capacity);
    :- OfferChecks(c, parent, node, to);
    var _ :- AddChildrenWithCheck(c, parent, capacity);
    PutOffer(c, node, SubnameRecord(parent, spelling, to, Offered), old(c.tokens));
    return Ok(());
  }

  /** What `accept_subname_offer` does to the name service. */
  ghost function AcceptSpec(s: State, node: Node, acceptor: AccountId): Result<State> {
    var d := s.dir;
    :- Ensure(!HasValidName(s, acceptor), TargetAlreadyOwnsName);
    :- Ensure(!BlockedByRow(d, acceptor), TargetAlreadyOwnsName);
    var r :- PendingOffer(d, node, acceptor);
    Ok(s.(dir := PutSub(d, node, r.(state := Active))))
  }

  lemma ChecksAgree(c: Chain, account: AccountId)
    requires c.Valid()
    ensures HasValidCanonicalName(c, account) == HasValidName(c.View(), account)
    ensures HasActiveSubname(c, account) == BlockedByRow(c.View().dir, account)
  {
    hide TokensIndexed, RootsTraced, SubnamesIndexed, ChildrenCounted, TopRows, NamesOf, BlockedByRow;
    RowsBlock(c.ViewDirectory().names, c.subnameRecords, c.infos, c.subNames, c.offeredToAccount, c.accountToSubnames,
              account);
    if account in c.ownerToPrimaryName {
      NamesAreInfos(c.tokens, c.infos, c.origins, c.official, c.ownerToPrimaryName[account]);
    }
  }

  /** Answers an offer: the record changes state and the two account indexes follow. */
  method Answer(c: Chain, node: Node, state: SubnameState)
    requires c.Valid() && node in c.subnameRecords && c.subnameRecords[node].state == Offered && state != Offered
    modifies c`subnameRecords, c`offeredToAccount, c`accountToSubnames
    ensures c.Valid()
    ensures c.subnameRecords == old(c.subnameRecords)[node := old(c.subnameRecords)[node].(state := state)]
    ensures TopRows(c.accountToSubnames) == old(TopRows(c.accountToSubnames))
  {
    hide SubsUnder, TokensIndexed, RootsTraced, SubnamesIndexed, ChildrenCounted, TopRows, NamesOf;
    AnsweredIndexes(c.subnameRecords, c.infos, c.subNames, c.offeredToAccount, c.accountToSubnames, c.tokens, c.origins,
                    c.official, node);
    AnsweredCount(c.tokens, c.infos, c.subnameRecords, node, state);
    var record := c.subnameRecords[node];
    c.subnameRecords := c.subnameRecords[node := record.(state := state)];
    c.offeredToAccount := c.offeredToAccount - {(record.target, node)};
    if state == Active {
      c.accountToSubnames := c.accountToSubnames + {(record.target, node)};
    }
  }

  function AnswerChecks(c: Chain, node: Node, caller: AccountId): Check
    reads c
  {
    if node !in c.subnameRecords then Fail(SubnameNotFound)
    else if c.subnameRecords[node].state != Offered then Fail(SubnameNotOffered)
    else Ensure(c.subnameRecords[node].target == caller, NotSubnameTarget)
  }

  method AcceptSubnameOffer(c: Chain, node: Node, acceptor: AccountId) returns (r: Result<()>)
    requires c.Valid()
    modifies c`subnameRecords, c`offeredToAccount, c`accountToSubnames
    ensures r.Ok? ==> c.Valid()
    ensures c.Outcome(r) == AcceptSpec(old(c.View()), node, acceptor)
  {
    hide TokensIndexed, RootsTraced, SubnamesIndexed, ChildrenCounted, TopRows, NamesOf, HasActiveSubname, BlockedByRow,
      HasValidCanonicalName, HasValidName;
    ChecksAgree(c, acceptor);
    :- Ensure(!HasValidCanonicalName(c, acceptor), TargetAlreadyOwnsName);
    :- Ensure(!HasActiveSubname(c, acceptor), TargetAlreadyOwnsName);
    :- AnswerChecks(c, node, acceptor);
    Answer(c, node, Active);
    return Ok(());
  }

  method RejectSubnameOffer(c: Chain, node: Node, caller: AccountId) returns (r: Result<()>)
    requires c.Valid()
    modifies c`subnameRecords, c`offeredToAccount, c`accountToSubnames
    ensures r.Ok? ==> c.Valid()
    ensures c.Outcome(r) == DoReject(old(c.View()), caller, Some(node))
  {
    hide TokensIndexed, RootsTraced, SubnamesIndexed, ChildrenCounted, TopRows, NamesOf;
    :- AnswerChecks(c, node, caller);
    Answer(c, node, Rejected);
    return Ok(());
  }

  /** Takes a subname record out of every index and gives its slot back. */
  method RemoveSubname(c: Chain, node: Node)
    requires c.Valid() && node in c.subnameRecords
    modifies c`tokens, c`subnameRecords, c`offeredToAccount, c`accountToSubnames, c`subNames
    ensures c.Valid()
    ensures c.ViewDirectory() == DropSub(old(c.ViewDirectory()), node)
  {
    hide SubsUnder, TokensIndexed, RootsTraced, SubnamesIndexed, ChildrenCounted, TopRows, NamesOf;
    var record := c.subnameRecords[node];
    ParentOf(c.subnameRecords, c.infos, c.subNames, c.offeredToAccount, c.accountToSubnames, node);
    NamesAreInfos(c.tokens, c.infos, c.origins, c.official, record.parent);
    DroppedIndexes(c.subnameRecords, c.infos, c.subNames, c.offeredToAccount, c.accountToSubnames, c.tokens, c.origins,
                   c.official, node);
    DroppedCount(c.tokens, c.infos, c.subnameRecords, node);
    ghost var fewer := c.tokens[record.parent].children - 1;
    ChildrenIrrelevant(c.tokens, c.tokensByOwner, c.totalIssuance, c.infos, c.origins, c.official, record.parent,
                       fewer);
    c.subnameRecords := c.subnameRecords - {node};
    if record.state == Active {
      c.accountToSubnames := c.accountToSubnames - {(record.target, node)};
    } else {
      c.offeredToAccount := c.offeredToAccount - {(record.target, node)};
    }
    c.subNames := c.subNames - {(record.parent, node)};
    var given := SubChildren(c, record.parent);
    assert given.Ok?; // the counter of a name with a subname is not zero
  }

  function RevokeChecks(c: Chain, parent: Node, node: Node): Check
    reads c
  {
    if node !in c.subnameRecords then Fail(SubnameNotFound)
    else Ensure(c.subnameRecords[node].parent == parent, NotSubnameOfferer)
  }

  lemma RevokeAgrees(c: Chain, parent: Node, node: Node)
    ensures RevokeChecks(c, parent, node).Pass? ==> node in c.subnameRecords
    ensures RevokeNode(c.View(), parent, node)
            == match RevokeChecks(c, parent, node)
               case Pass => Ok(c.View().(dir := DropSub(c.View().dir, node),
                                         zone := if c.subnameRecords[node].state == Active
                                                 then Wipe(c.View().zone, {node}) else c.View().zone))
               case Fail(e) => Err(e)
  {
    hide Wipe, TopRows, NamesOf, DropSub;
  }

  method RevokeSubname(c: Chain, parent: Node, node: Node) returns (r: Result<()>)
    requires c.Valid()
    modifies c`tokens, c`subnameRecords, c`offeredToAccount, c`accountToSubnames, c`subNames, c`records, c`texts
    ensures r.Ok? ==> c.Valid()
    ensures c.Outcome(r) == RevokeNode(old(c.View()), parent, node)
  {
    hide Wipe, TokensIndexed, RootsTraced, SubnamesIndexed, ChildrenCounted, TopRows, NamesOf, DropSub,
      RevokeNode, RevokeChecks;
    RevokeAgrees(c, parent, node);
    :- RevokeChecks(c, parent, node);
    if c.subnameRecords[node].state == Active {
      Resolvers.ClearAllRecords(c, node);
    }
    RemoveSubname(c, node);
    return Ok(());
  }

  function ReleaseChecks(c: Chain, node: Node, holder: AccountId): Check
    reads c
  {
    if node !in c.subnameRecords then Fail(SubnameNotFound)
    else if c.subnameRecords[node].state != Active then Fail(SubnameNotActive)
    else Ensure(c.subnameRecords[node].target == holder, NotSubnameTarget)
  }

  lemma ReleaseAgrees(c: Chain, node: Node, holder: AccountId)
    ensures ReleaseChecks(c, node, holder).Pass? ==> node in c.subnameRecords
    ensures DoReleaseSub(c.View(), holder, Some(node))
            == match ReleaseChecks(c, node, holder)
               case Pass => Ok(c.View().(dir := DropSub(c.View().dir, node), zone := Wipe(c.View().zone, {node})))
               case Fail(e) => Err(e)
  {
    hide Wipe, TopRows, NamesOf, DropSub;
  }

  method ReleaseSubname(c: Chain, node: Node, holder: AccountId) returns (r: Result<()>)
    requires c.Valid()
    modifies c`tokens, c`subnameRecords, c`offeredToAccount, c`accountToSubnames, c`subNames, c`records, c`texts
    ensures r.Ok? ==> c.Valid()
    ensures c.Outcome(r) == DoReleaseSub(old(c.View()), holder, Some(node))
  {
    hide Wipe, TokensIndexed, RootsTraced, SubnamesIndexed, ChildrenCounted, TopRows, NamesOf, DropSub,
      DoReleaseSub, ReleaseChecks;
    ReleaseAgrees(c, node, holder);
    :- ReleaseChecks(c, node, holder);
    RemoveSubname(c, node);
    Resolvers.ClearAllRecords(c, node);
    return Ok(());
  }

  /** What `revoke_pending_offer_for_target` does to the name service. */
  ghost function RevokePendingSpec(s: State, node: Node, target: AccountId): Result<State> {
    var r :- PendingOffer(s.dir, node, target);
    RevokeNode(s, r.parent, node)
  }

  method RevokePendingOfferForTarget(c: Chain, node: Node, target: AccountId) returns (r: Result<()>)
    requires c.Valid()
    modifies c`tokens, c`subnameRecords, c`offeredToAccount, c`accountToSubnames, c`subNames, c`records, c`texts
    ensures r.Ok? ==> c.Valid()
    ensures c.Outcome(r) == RevokePendingSpec(old(c.View()), node, target)
  {
    hide TokensIndexed, RootsTraced, SubnamesIndexed, ChildrenCounted, TopRows, NamesOf, RevokeNode;
    :- AnswerChecks(c, node, target);
    r := RevokeSubname(c, c.subnameRecords[node].parent, node);
  }
}
