/** How each change to the subname records moves through the indexes that follow them. */
module Indexes {
  import opened Types
  import opened NameService
  import opened Storage

  /** Rows that mention none of the given nodes. */
  function NotAbout<K(==)>(rows: set<(K, Node)>, gone: set<Node>): set<(K, Node)> {
    set p | p in rows && p.1 !in gone
  }

  function NotUnder(subNames: set<(Node, Node)>, root: Node): set<(Node, Node)> {
    set p | p in subNames && p.0 != root
  }

  lemma WipeTwice(z: Zone, a: set<Node>, b: set<Node>)
    ensures Wipe(Wipe(z, a), b) == Wipe(z, a + b)
  {
    assert Wipe(Wipe(z, a), b).records == Wipe(z, a + b).records;
    assert Wipe(Wipe(z, a), b).texts == Wipe(z, a + b).texts;
  }

  lemma WipeNothing(z: Zone)
    ensures Wipe(z, {}) == z
  {
    assert Wipe(z, {}).records == z.records;
    assert Wipe(z, {}).texts == z.texts;
  }

  lemma ClearedIndexes(tokens: map<Node, Token>, origins: map<Node, Tracing>, official: Option<AccountId>,
                       subs: map<Node, SubnameRecord>, infos: map<Node, RegistrarInfo>, subNames: set<(Node, Node)>,
                       offeredTo: set<(AccountId, Node)>, rows: set<(AccountId, Node)>, root: Node)
    requires SubnamesIndexed(subs, infos, subNames, offeredTo, rows)
    requires RootsTraced(tokens, infos, origins, official)
    ensures var gone := SubsUnder(subs, root);
            && SubnamesIndexed(SubsOutside(subs, root), infos, NotUnder(subNames, root), NotAbout(offeredTo, gone),
                               NotAbout(rows, gone))
            && TopRows(NotAbout(rows, gone)) == TopRows(rows)
            && subs - gone == SubsOutside(subs, root)
  {
  }

  lemma ClearedCounts(tokens: map<Node, Token>, infos: map<Node, RegistrarInfo>, subs: map<Node, SubnameRecord>,
                      root: Node)
    requires ChildrenCounted(tokens, infos, subs)
    ensures var tokens' := if root in tokens then tokens[root := tokens[root].(children := 0)] else tokens;
            ChildrenCounted(tokens', infos, SubsOutside(subs, root))
  {
    var subs' := SubsOutside(subs, root);
    assert SubsUnder(subs', root) == {};
    forall n | n != root ensures SubsUnder(subs', n) == SubsUnder(subs, n) {
    }
  }

  /** The children that the index lists are those the records name. */
  lemma CollectedChildren(subs: map<Node, SubnameRecord>, infos: map<Node, RegistrarInfo>,
                          subNames: set<(Node, Node)>, offeredTo: set<(AccountId, Node)>,
                          rows: set<(AccountId, Node)>, root: Node)
    requires SubnamesIndexed(subs, infos, subNames, offeredTo, rows)
    ensures (set p | p in subNames && p.0 == root :: p.1) == SubsUnder(subs, root)
  {
    var children := set p | p in subNames && p.0 == root :: p.1;
    forall n | n in SubsUnder(subs, root) ensures n in children {
      assert (root, n) in subNames;
    }
  }

  lemma UnderAreRecords(subs: map<Node, SubnameRecord>, root: Node)
    ensures SubsUnder(subs, root) <= subs.Keys
  {
  }

  /** The counter of a token plays no part in the token indexes. */
  lemma ChildrenIrrelevant(tokens: map<Node, Token>, byOwner: set<(AccountId, Node)>, issuance: nat,
                           infos: map<Node, RegistrarInfo>, origins: map<Node, Tracing>, official: Option<AccountId>,
                           id: Node, children: nat)
    requires TokensIndexed(tokens, byOwner, issuance) && RootsTraced(tokens, infos, origins, official) && id in tokens
    ensures var tokens' := tokens[id := tokens[id].(children := children)];
            && TokensIndexed(tokens', byOwner, issuance)
            && RootsTraced(tokens', infos, origins, official)
            && NamesOf(tokens', infos) == NamesOf(tokens, infos)
  {
    var tokens' := tokens[id := tokens[id].(children := children)];
    assert tokens'.Keys == tokens.Keys;
  }

  /** Names are the registrations, with the owner that the token gives. */
  lemma NamesAreInfos(tokens: map<Node, Token>, infos: map<Node, RegistrarInfo>, origins: map<Node, Tracing>,
                      official: Option<AccountId>, n: Node)
    requires RootsTraced(tokens, infos, origins, official)
    ensures n in NamesOf(tokens, infos) <==> n in infos
    ensures n in infos ==> n in tokens && n in origins && IsTop(n) && origins[n] == TracedRoot
    ensures n in tokens <==> n in infos || n == Base
    ensures n in origins <==> n in infos
    ensures n in infos ==>
              NamesOf(tokens, infos)[n] == Name(tokens[n].owner, infos[n].expire, infos[n].capacity,
                                                infos[n].registerFee, infos[n].labelLen, infos[n].lastBlock)
  {
  }

  /** Removing a name without subnames from the tokens, the registrations and the traces. */
  lemma RemovedRoot(tokens: map<Node, Token>, infos: map<Node, RegistrarInfo>, origins: map<Node, Tracing>,
                    official: Option<AccountId>, node: Node)
    requires RootsTraced(tokens, infos, origins, official) && node in infos
    ensures RootsTraced(tokens - {node}, infos - {node}, origins - {node}, official)
    ensures NamesOf(tokens - {node}, infos - {node}) == NamesOf(tokens, infos) - {node}
  {
  }

  lemma RemovedRow(subs: map<Node, SubnameRecord>, infos: map<Node, RegistrarInfo>, subNames: set<(Node, Node)>,
                   offeredTo: set<(AccountId, Node)>, rows: set<(AccountId, Node)>, node: Node, owner: AccountId)
    requires SubnamesIndexed(subs, infos, subNames, offeredTo, rows) && IsTop(node)
    requires SubsUnder(subs, node) == {}
    ensures SubnamesIndexed(subs, infos - {node}, subNames, offeredTo, rows - {(owner, node)})
    ensures TopRows(rows - {(owner, node)}) == TopRows(rows) - {(owner, node)}
  {
    forall n | n in subs ensures n.parent != node {
      assert n !in SubsUnder(subs, node);
    }
  }

  lemma RemovedCount(tokens: map<Node, Token>, infos: map<Node, RegistrarInfo>, subs: map<Node, SubnameRecord>,
                     node: Node)
    requires ChildrenCounted(tokens, infos, subs)
    ensures ChildrenCounted(tokens - {node}, infos - {node}, subs)
  {
  }

  /** The owner of a token plays no part in the counters, and moves into the names. */
  lemma NewOwner(tokens: map<Node, Token>, infos: map<Node, RegistrarInfo>, origins: map<Node, Tracing>,
                 official: Option<AccountId>, subs: map<Node, SubnameRecord>, node: Node, to: AccountId)
    requires RootsTraced(tokens, infos, origins, official) && ChildrenCounted(tokens, infos, subs) && node in infos
    ensures var tokens' := tokens[node := tokens[node].(owner := to)];
            && RootsTraced(tokens', infos, origins, official)
            && ChildrenCounted(tokens', infos, subs)
            && node in NamesOf(tokens, infos)
            && NamesOf(tokens', infos) == NamesOf(tokens, infos)[node := NamesOf(tokens, infos)[node].(owner := to)]
  {
    var tokens' := tokens[node := tokens[node].(owner := to)];
    assert tokens'.Keys == tokens.Keys;
  }

  lemma BaseIsOfficial(tokens: map<Node, Token>, infos: map<Node, RegistrarInfo>, origins: map<Node, Tracing>,
                       official: Option<AccountId>)
    requires RootsTraced(tokens, infos, origins, official)
    ensures Base in tokens && official == Some(tokens[Base].owner) && Base !in origins && Base !in infos
  {
  }

  lemma NothingUnder(subs: map<Node, SubnameRecord>, root: Node)
    ensures SubsUnder(SubsOutside(subs, root), root) == {}
  {
  }

  lemma CounterFree(tokens: map<Node, Token>, infos: map<Node, RegistrarInfo>, id: Node, children: nat)
    requires id in tokens
    ensures NamesOf(tokens[id := tokens[id].(children := children)], infos) == NamesOf(tokens, infos)
  {
  }

  lemma OwnerOf(tokens: map<Node, Token>, infos: map<Node, RegistrarInfo>, node: Node)
    requires node in tokens && node in infos
    ensures node in NamesOf(tokens, infos) && NamesOf(tokens, infos)[node].owner == tokens[node].owner
  {
  }

  /** The name that a token and a registration make together. */
  ghost function NameOf(owner: AccountId, info: RegistrarInfo): Name {
    Name(owner, info.expire, info.capacity, info.registerFee, info.labelLen, info.lastBlock)
  }

  /** Rewriting the registration of a registered name. */
  lemma RewrittenInfo(tokens: map<Node, Token>, infos: map<Node, RegistrarInfo>, origins: map<Node, Tracing>,
                      official: Option<AccountId>, node: Node, info: RegistrarInfo)
    requires RootsTraced(tokens, infos, origins, official) && node in infos
    ensures RootsTraced(tokens, infos[node := info], origins, official)
    ensures node in tokens
    ensures NamesOf(tokens, infos[node := info]) == NamesOf(tokens, infos)[node := NameOf(tokens[node].owner, info)]
  {
    assert infos[node := info].Keys == infos.Keys;
  }

  lemma RewrittenInfoSubs(tokens: map<Node, Token>, infos: map<Node, RegistrarInfo>, subs: map<Node, SubnameRecord>,
                          subNames: set<(Node, Node)>, offeredTo: set<(AccountId, Node)>,
                          rows: set<(AccountId, Node)>, node: Node, info: RegistrarInfo)
    requires SubnamesIndexed(subs, infos, subNames, offeredTo, rows) && ChildrenCounted(tokens, infos, subs)
    requires node in infos
    ensures SubnamesIndexed(subs, infos[node := info], subNames, offeredTo, rows)
    ensures ChildrenCounted(tokens, infos[node := info], subs)
  {
  }

  /** Rows of top-level names play no part in the subname indexes. */
  lemma TopRowsFree(subs: map<Node, SubnameRecord>, infos: map<Node, RegistrarInfo>, subNames: set<(Node, Node)>,
                    offeredTo: set<(AccountId, Node)>, rows: set<(AccountId, Node)>, node: Node, from: AccountId,
                    to: AccountId)
    requires SubnamesIndexed(subs, infos, subNames, offeredTo, rows) && IsTop(node)
    ensures SubnamesIndexed(subs, infos, subNames, offeredTo, rows - {(from, node)} + {(to, node)})
    ensures TopRows(rows - {(from, node)} + {(to, node)}) == TopRows(rows) - {(from, node)} + {(to, node)}
    ensures SubnamesIndexed(subs, infos, subNames, offeredTo, rows + {(to, node)})
    ensures TopRows(rows + {(to, node)}) == TopRows(rows) + {(to, node)}
  {
  }

  /** A fresh name enters the tokens, the registrations and the traces together. */
  lemma FreshRoot(tokens: map<Node, Token>, infos: map<Node, RegistrarInfo>, origins: map<Node, Tracing>,
                  official: Option<AccountId>, node: Node, to: AccountId, info: RegistrarInfo)
    requires RootsTraced(tokens, infos, origins, official) && node !in infos && IsTop(node)
    ensures RootsTraced(tokens[node := Token(to, 0)], infos[node := info], origins[node := TracedRoot], official)
    ensures NamesOf(tokens[node := Token(to, 0)], infos[node := info])
            == NamesOf(tokens, infos)[node := NameOf(to, info)]
  {
  }

  lemma FreshSubs(tokens: map<Node, Token>, infos: map<Node, RegistrarInfo>, subs: map<Node, SubnameRecord>,
                  subNames: set<(Node, Node)>, offeredTo: set<(AccountId, Node)>, rows: set<(AccountId, Node)>,
                  node: Node, to: AccountId, info: RegistrarInfo)
    requires SubnamesIndexed(subs, infos, subNames, offeredTo, rows) && ChildrenCounted(tokens, infos, subs)
    requires node !in infos
    ensures SubnamesIndexed(subs, infos[node := info], subNames, offeredTo, rows)
    ensures ChildrenCounted(tokens[node := Token(to, 0)], infos[node := info], subs)
  {
    forall n | n in subs ensures n.parent != node {
    }
    assert SubsUnder(subs, node) == {};
  }

  /** The counter of the base token is not a count of subnames. */
  lemma BaseCounterFree(tokens: map<Node, Token>, infos: map<Node, RegistrarInfo>, subs: map<Node, SubnameRecord>,
                        children: nat)
    requires ChildrenCounted(tokens, infos, subs) && Base in tokens && Base !in infos
    ensures ChildrenCounted(tokens[Base := tokens[Base].(children := children)], infos, subs)
  {
  }

  /** The base token changes hands together with the office. */
  lemma NewOfficial(tokens: map<Node, Token>, infos: map<Node, RegistrarInfo>, origins: map<Node, Tracing>,
                    official: Option<AccountId>, subs: map<Node, SubnameRecord>, to: AccountId)
    requires RootsTraced(tokens, infos, origins, official) && ChildrenCounted(tokens, infos, subs) && Base in tokens
    ensures var tokens' := tokens[Base := tokens[Base].(owner := to)];
            && RootsTraced(tokens', infos, origins, Some(to))
            && ChildrenCounted(tokens', infos, subs)
            && NamesOf(tokens', infos) == NamesOf(tokens, infos)
  {
    var tokens' := tokens[Base := tokens[Base].(owner := to)];
    assert tokens'.Keys == tokens.Keys;
  }

  // The subname protocol

  lemma CounterIsCount(tokens: map<Node, Token>, infos: map<Node, RegistrarInfo>, subs: map<Node, SubnameRecord>,
                       node: Node)
    requires ChildrenCounted(tokens, infos, subs) && node in infos && node in tokens
    ensures tokens[node].children == |SubsUnder(subs, node)|
  {
    assert CountedAt(tokens, subs, node);
  }

  lemma ParentOf(subs: map<Node, SubnameRecord>, infos: map<Node, RegistrarInfo>, subNames: set<(Node, Node)>,
                 offeredTo: set<(AccountId, Node)>, rows: set<(AccountId, Node)>, node: Node)
    requires SubnamesIndexed(subs, infos, subNames, offeredTo, rows) && node in subs
    ensures node.Child? && node.parent == subs[node].parent && node.parent in infos
  {
  }

  lemma OfferedIndexes(subs: map<Node, SubnameRecord>, infos: map<Node, RegistrarInfo>, subNames: set<(Node, Node)>,
                       offeredTo: set<(AccountId, Node)>, rows: set<(AccountId, Node)>, node: Node, r: SubnameRecord)
    requires SubnamesIndexed(subs, infos, subNames, offeredTo, rows) && node !in subs && r.state == Offered
    requires node.Child? && node.parent == r.parent && r.parent in infos
    ensures SubnamesIndexed(subs[node := r], infos, subNames + {(r.parent, node)}, offeredTo + {(r.target, node)}, rows)
  {
  }

  lemma OfferedCount(tokens: map<Node, Token>, infos: map<Node, RegistrarInfo>, subs: map<Node, SubnameRecord>,
                     node: Node, r: SubnameRecord)
    requires ChildrenCounted(tokens, infos, subs) && node !in subs && r.parent in tokens
    ensures ChildrenCounted(tokens[r.parent := tokens[r.parent].(children := tokens[r.parent].children + 1)], infos,
                            subs[node := r])
  {
    assert SubsUnder(subs[node := r], r.parent) == SubsUnder(subs, r.parent) + {node};
    forall n | n != r.parent ensures SubsUnder(subs[node := r], n) == SubsUnder(subs, n) {
    }
  }

  /** An offer that is answered keeps its parent, so the listing of parents and the counters stand. */
  lemma AnsweredIndexes(subs: map<Node, SubnameRecord>, infos: map<Node, RegistrarInfo>, subNames: set<(Node, Node)>,
                        offeredTo: set<(AccountId, Node)>, rows: set<(AccountId, Node)>, tokens: map<Node, Token>,
                        origins: map<Node, Tracing>, official: Option<AccountId>, node: Node)
    requires SubnamesIndexed(subs, infos, subNames, offeredTo, rows) && RootsTraced(tokens, infos, origins, official)
    requires node in subs && subs[node].state == Offered
    ensures var a := subs[node].target;
            && SubnamesIndexed(subs[node := subs[node].(state := Active)], infos, subNames, offeredTo - {(a, node)},
                               rows + {(a, node)})
            && SubnamesIndexed(subs[node := subs[node].(state := Rejected)], infos, subNames, offeredTo - {(a, node)},
                               rows)
            && TopRows(rows + {(a, node)}) == TopRows(rows)
  {
  }

  lemma AnsweredCount(tokens: map<Node, Token>, infos: map<Node, RegistrarInfo>, subs: map<Node, SubnameRecord>,
                      node: Node, state: SubnameState)
    requires ChildrenCounted(tokens, infos, subs) && node in subs
    ensures ChildrenCounted(tokens, infos, subs[node := subs[node].(state := state)])
  {
    forall n ensures SubsUnder(subs[node := subs[node].(state := state)], n) == SubsUnder(subs, n) {
    }
  }

  lemma DroppedIndexes(subs: map<Node, SubnameRecord>, infos: map<Node, RegistrarInfo>, subNames: set<(Node, Node)>,
                       offeredTo: set<(AccountId, Node)>, rows: set<(AccountId, Node)>, tokens: map<Node, Token>,
                       origins: map<Node, Tracing>, official: Option<AccountId>, node: Node)
    requires SubnamesIndexed(subs, infos, subNames, offeredTo, rows) && RootsTraced(tokens, infos, origins, official)
    requires node in subs
    ensures var a := subs[node].target;
            && SubnamesIndexed(subs - {node}, infos, subNames - {(subs[node].parent, node)},
                               if subs[node].state == Active then offeredTo else offeredTo - {(a, node)},
                               if subs[node].state == Active then rows - {(a, node)} else rows)
            && TopRows(rows - {(a, node)}) == TopRows(rows)
  {
  }

  lemma DroppedCount(tokens: map<Node, Token>, infos: map<Node, RegistrarInfo>, subs: map<Node, SubnameRecord>,
                     node: Node)
    requires ChildrenCounted(tokens, infos, subs) && node in subs && subs[node].parent in tokens
    requires subs[node].parent in infos
    ensures var p := subs[node].parent;
            && tokens[p].children > 0
            && ChildrenCounted(tokens[p := tokens[p].(children := tokens[p].children - 1)], infos, subs - {node})
  {
    var p := subs[node].parent;
    assert CountedAt(tokens, subs, p);
    assert SubsUnder(subs, p) == SubsUnder(subs - {node}, p) + {node};
    forall n | n != p ensures SubsUnder(subs - {node}, n) == SubsUnder(subs, n) {
    }
  }

  /** The account-to-subnames index has a row for an account exactly when the name service says it is blocked. */
  lemma RowsBlock(names: map<Node, Name>, subs: map<Node, SubnameRecord>, infos: map<Node, RegistrarInfo>,
                  subNames: set<(Node, Node)>, offeredTo: set<(AccountId, Node)>, rows: set<(AccountId, Node)>,
                  a: AccountId)
    requires SubnamesIndexed(subs, infos, subNames, offeredTo, rows)
    ensures (exists p :: p in rows && p.0 == a) <==> BlockedByRow(Directory(names, subs, TopRows(rows)), a)
  {
    var d := Directory(names, subs, TopRows(rows));
    if p :| p in rows && p.0 == a {
      if IsTop(p.1) {
        assert p in d.held;
      } else {
        assert p.1 in d.subs;
      }
    }
    if HoldsActiveSubname(d, a) {
      var n :| n in d.subs && d.subs[n].state == Active && d.subs[n].target == a;
      assert (a, n) in rows && (a, n).0 == a;
    }
  }
}
