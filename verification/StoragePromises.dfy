/** What the promises of the name service mean for the storage maps of the pallets. */
module StoragePromises {
  import opened Types
  import opened NameService
  import opened AllRuns
  import opened Storage
  import opened Indexes
  import Promises
  import Rows

  /** The counter on the token of a name is the number of its subnames in any state, within the capacity of the
      name. */
  lemma CountersWithinCapacity(c: Chain, n: Node)
    requires c.Valid() && Core(c.View()) && n in c.infos
    ensures n in c.tokens && c.tokens[n].children == |SubsUnder(c.subnameRecords, n)| <= c.infos[n].capacity
  {
    hide TokensIndexed, RootsTraced, SubnamesIndexed, ChildrenCounted, TopRows, NamesOf, WellShaped, OneSubnameEach,
      NoStacking, Recorded, SubsUnder;
    NamesAreInfos(c.tokens, c.infos, c.origins, c.official, n);
    CounterIsCount(c.tokens, c.infos, c.subnameRecords, n);
  }

  /** Subnames sit at depth two below a registered name and have neither a token nor a trace, so the branches of the
      registry that deal with subname tokens are never taken. */
  lemma NoSubnameTokens(c: Chain, n: Node)
    requires c.Valid() && n in c.subnameRecords
    ensures n.Child? && IsTop(n.parent) && n.parent in c.infos
    ensures n !in c.tokens && n !in c.origins && n !in c.infos
  {
    hide TokensIndexed, RootsTraced, SubnamesIndexed, ChildrenCounted;
    ParentOf(c.subnameRecords, c.infos, c.subNames, c.offeredToAccount, c.accountToSubnames, n);
    NamesAreInfos(c.tokens, c.infos, c.origins, c.official, n);
    NamesAreInfos(c.tokens, c.infos, c.origins, c.official, n.parent);
  }

  /** A name that was just handed over has a zero counter and no row under it in any index. */
  lemma SlateInStorage(c: Chain, n: Node, owner: AccountId)
    requires c.Valid() && Promises.CleanSlate(c.View(), n, owner)
    ensures n in c.tokens && c.tokens[n].owner == owner && c.tokens[n].children == 0
    ensures forall m :: (n, m) !in c.subNames
    ensures forall p :: p in c.offeredToAccount && p.1.Child? ==> p.1.parent != n
    ensures forall p :: p in c.accountToSubnames && p.1.Child? ==> p.1.parent != n
  {
    hide TokensIndexed, RootsTraced, ChildrenCounted, TopRows, NamesOf;
    NamesAreInfos(c.tokens, c.infos, c.origins, c.official, n);
    CounterIsCount(c.tokens, c.infos, c.subnameRecords, n);
    forall m | m in c.subnameRecords ensures c.subnameRecords[m].parent != n {
      assert m !in SubsUnder(c.subnameRecords, n);
    }
  }

  /** `AccountToSubnames` has at most one row per account, of a name or of a subname. */
  lemma OneIndexRow(c: Chain, a: AccountId, n: Node, m: Node)
    requires c.Valid() && Core(c.View()) && Rows.RowsOk(c.View())
    requires (a, n) in c.accountToSubnames && (a, m) in c.accountToSubnames
    ensures n == m
  {
    hide TokensIndexed, RootsTraced, ChildrenCounted, NamesOf, WellShaped, WithinCapacity, NoStacking, Recorded,
      Rows.ListedAsClaimed;
    ListedUnder(c, a, n);
    ListedUnder(c, a, m);
  }

  lemma ListedUnder(c: Chain, a: AccountId, n: Node)
    requires c.Valid() && (a, n) in c.accountToSubnames
    ensures IsTop(n) ==> (a, n) in c.View().dir.held
    ensures !IsTop(n) ==>
              && n in c.View().dir.subs && c.View().dir.subs[n].state == Active && c.View().dir.subs[n].target == a
              && HoldsActiveSubname(c.View().dir, a)
  {
    hide TokensIndexed, RootsTraced, ChildrenCounted, NamesOf;
    assert (a, n).1 == n;
  }
}
