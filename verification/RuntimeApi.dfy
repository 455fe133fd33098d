/** The name queries of runtime/src/apis.rs, on the storage, and what they answer in every run. */
module RuntimeApi {
  import opened Types
  import opened Labels
  import opened NameParsing
  import opened Currency
  import opened NameService
  import opened Effects
  import opened AllRuns
  import opened CleanRuns
  import opened Storage
  import opened Indexes
  import Promises
  import opened Resolvers

  function GetInfo(c: Chain, id: Node): Option<Promises.NameRecord>
    reads c
  {
    if id in c.offeredNames || id !in c.infos || c.env.now >= c.infos[id].expire || id !in c.tokens then None
    else
      var info := c.infos[id];
      Some(Promises.NameRecord(c.tokens[id].owner, info.expire, info.capacity, info.registerFee, id in c.listings,
                               info.lastBlock))
  }

  function ResolveName(c: Chain, name: Bytes): Option<Promises.NameRecord>
    reads c
  {
    match NewWithLen(name)
    case None => None
    case Some(l) => GetInfo(c, EncodeWithNode(l.0, Base))
  }

  /** The queries read the storage as the name service describes it. */
  lemma QueriesAgree(c: Chain, id: Node, name: Bytes)
    requires c.Valid()
    ensures GetInfo(c, id) == Promises.GetInfo(c.View(), id)
    ensures ResolveName(c, name) == Promises.ResolveName(c.View(), name)
  {
    hide TokensIndexed, RootsTraced, SubnamesIndexed, ChildrenCounted, TopRows, NamesOf, CheckLabel, Lower;
    NamesAreInfos(c.tokens, c.infos, c.origins, c.official, id);
    if NewWithLen(name).Some? {
      NamesAreInfos(c.tokens, c.infos, c.origins, c.official, EncodeWithNode(NewWithLen(name).value.0, Base));
    }
  }

  /** `get_info` answers for a registered name that is no pending gift and has not expired, with the name's own fields. */
  lemma InfoExact(s: State, id: Node)
    ensures Promises.GetInfo(s, id).Some? <==>
              id in s.dir.names && id !in s.claims.offered && s.sys.env.now < s.dir.names[id].expire
    ensures Promises.GetInfo(s, id).Some? ==>
              var r, name := Promises.GetInfo(s, id).value, s.dir.names[id];
              && r.owner == name.owner && r.expire == name.expire && r.capacity == name.capacity
              && r.registerFee == name.registerFee && r.lastBlock == name.lastBlock
              && (r.forSale <==> id in s.claims.listings)
  {
  }

  /** A registered name resolves to what was registered: the owner, one period from now, the fee that the caller paid,
      this block; it is for sale only if it was listed before. */
  lemma RegistrationResolves(s: State, who: AccountId, name: Bytes, owner: AccountId)
    requires Balanced(s.money) && Apply(s, Signed(who, Register(name, owner, None))).Ok?
    requires s.sys.cfg.maxDuration > 0 && Below(Base, name) !in s.claims.offered
    ensures var n, t := Below(Base, name), Step(s, Signed(who, Register(name, owner, None)));
            && Promises.ResolveName(t, name).Some?
            && var r := Promises.ResolveName(t, name).value;
            && r.owner == owner && r.expire == s.sys.env.now + s.sys.cfg.maxDuration && r.lastBlock == s.sys.env.block
            && r.capacity == (if n in s.dir.names then s.dir.names[n].capacity else s.sys.cfg.capacity)
            && Charged(s.money, t.money, who, r.registerFee)
            && (r.forSale <==> n in s.claims.listings)
  {
    hide Apply, Balanced, Charged, Lower, CheckLabel, Promises.GetInfo, NamesBut, RowsBut, SubsClearedBelow;
    RegisterEffect(s, who, name, owner);
    RegisterClaimsEffect(s, who, name, owner);
    Effects.RegisterExact(s, who, name, owner);
    InfoExact(Step(s, Signed(who, Register(name, owner, None))), Below(Base, name));
  }

  /** The answer to a lookup: the two anchors, then the requested records. */
  function LookupAt(z: Zone, node: Node, types: seq<RecordType>): seq<(RecordType, Content)> {
    Answer(z, node, SS58) + Answer(z, node, ORIGIN) + Answers(z, node, types)
  }

  /** A name that does not parse is looked up at the all-zero node. */
  method LookupByName(c: Chain, name: Bytes, types: seq<RecordType>) returns (results: seq<(RecordType, Content)>)
    requires c.Valid() && Core(c.View())
    ensures match ParseNameToNode(name, Base)
            case Some(node) => results == LookupAt(c.View().zone, node, types)
            case None => results == []
  {
    hide TokensIndexed, RootsTraced, SubnamesIndexed, ChildrenCounted, TopRows, NamesOf, ParseNameToNode, Answer,
      Answers, Core;
    var parsed := ParseNameToNode(name, Base);
    results := LookupRecords(c, if parsed.Some? then parsed.value else Zero, types);
    LookupExact(c.View(), Zero, types);
    ZeroIsNoName(c.View());
  }

  lemma ZeroIsNoName(s: State)
    requires Core(s)
    ensures Zero !in s.dir.names && Zero !in s.dir.subs
  {
    hide OneSubnameEach, WithinCapacity, NoStacking, Recorded;
  }

  lemma {:induction false} NoAnswers(z: Zone, node: Node, types: seq<RecordType>)
    requires forall kind :: Stored(z, node, kind) ==> Blocked(kind)
    ensures Answers(z, node, types) == []
  {
    hide Blocked, Stored;
    if types != [] {
      NoAnswers(z, node, types[..|types| - 1]);
    }
  }

  /** What a lookup answers in every run. A registered name answers with its account and its block hash first; an
      active subname answers with its holder and nothing else, whatever is asked; everything else, a pending or
      rejected subname included, answers nothing. */
  lemma LookupExact(s: State, node: Node, types: seq<RecordType>)
    requires Core(s)
    ensures var r := LookupAt(s.zone, node, types);
            if node in s.dir.names then
              && |r| >= 2
              && r[0].0 == SS58 && r[0].1.AccountBytes? && r[1].0 == ORIGIN && r[1].1.HashBytes?
              && (Consistent(s) ==> r[0].1 == AccountBytes(s.dir.names[node].owner))
            else if node in s.dir.subs && s.dir.subs[node].state == Active then
              r == [(SS58, AccountBytes(s.dir.subs[node].target))]
            else
              r == []
  {
    hide DirectoryOk, NoStacking, Recorded, Answers, Answer, Agreed, OwnersRecorded;
    if node in s.dir.names {
      NameAnchors(s, node);
    } else {
      OtherRecords(s, node);
      NoAnswers(s.zone, node, types);
    }
  }

  /** `lookup` answers for a node that `get_info` does not answer for if and only if the node is a registered name that
      is a pending gift or has expired, or an active subname. */
  lemma LookupAgainstInfo(s: State, node: Node, types: seq<RecordType>)
    requires Core(s)
    ensures LookupAt(s.zone, node, types) != [] && Promises.GetInfo(s, node) == None <==>
              || (node in s.dir.names
                  && (node in s.claims.offered || s.sys.env.now >= s.dir.names[node].expire))
              || (node !in s.dir.names && node in s.dir.subs && s.dir.subs[node].state == Active)
    ensures Promises.GetInfo(s, node) != None ==> LookupAt(s.zone, node, types) != []
  {
    hide Core, LookupAt;
    LookupExact(s, node, types);
  }

  /** Where both answer, they name the same account if and only if the owner record of the name is its owner. */
  lemma SameAccountExact(s: State, node: Node, types: seq<RecordType>)
    requires Core(s) && Promises.GetInfo(s, node).Some?
    ensures |LookupAt(s.zone, node, types)| >= 2 && LookupAt(s.zone, node, types)[0].0 == SS58
    ensures LookupAt(s.zone, node, types)[0].1 == AccountBytes(Promises.GetInfo(s, node).value.owner)
            <==> Lookup(s.zone.records, (node, SS58)) == Some(AccountBytes(s.dir.names[node].owner))
  {
    hide Answers, Answer, DirectoryOk, NoStacking, Recorded;
    NameAnchors(s, node);
  }

  /** A pending gift resolves to nothing by `get_info`, and by `lookup` to the recipient who has not accepted it. */
  lemma PendingGiftLooksUp(s: State, node: Node, types: seq<RecordType>)
    requires Core(s) && Consistent(s) && node in s.claims.offered
    ensures Promises.GetInfo(s, node) == None
    ensures |LookupAt(s.zone, node, types)| >= 2
    ensures LookupAt(s.zone, node, types)[0] == (SS58, AccountBytes(s.claims.offered[node].recipient))
  {
    hide Core, LookupAt, OwnersRecorded, OwnersClaim, ClaimsOwned, OneKindEach;
    LookupExact(s, node, types);
  }

  lemma NameAnchors(s: State, node: Node)
    requires Core(s) && node in s.dir.names
    ensures HasAnchors(s.zone, node)
    ensures Answer(s.zone, node, SS58) == [(SS58, s.zone.records[(node, SS58)])]
    ensures Answer(s.zone, node, ORIGIN) == [(ORIGIN, s.zone.records[(node, ORIGIN)])]
    ensures Consistent(s) ==> s.zone.records[(node, SS58)] == AccountBytes(s.dir.names[node].owner)
  {
    hide DirectoryOk, NoStacking, NoStrayRecords, Agreed;
    assert HasAnchors(s.zone, node);
  }

  lemma OtherRecords(s: State, node: Node)
    requires Core(s) && node !in s.dir.names
    ensures forall kind :: Stored(s.zone, node, kind) ==> Blocked(kind)
    ensures Answer(s.zone, node, ORIGIN) == []
    ensures Answer(s.zone, node, SS58)
            == if node in s.dir.subs && s.dir.subs[node].state == Active
               then [(SS58, AccountBytes(s.dir.subs[node].target))] else []
  {
    assert Blocked(SS58);
    hide DirectoryOk, NoStacking, Blocked;
    forall kind | (node, kind) in s.zone.records ensures kind == SS58 {
      assert (node, kind).0 == node;
    }
  }

  /** What an owner stores is what a lookup returns: the anchors, then the stored bytes. */
  lemma StoredIsLookedUp(s: State, who: AccountId, name: Bytes, code: nat, content: Content)
    requires Core(s) && content != UserBytes([])
    requires Apply(s, Signed(who, SetRecord(name, Plain(code), content))).Ok?
    ensures ParseNameToNode(name, Base).Some?
    ensures var node, t := ParseNameToNode(name, Base).value, Step(s, Signed(who, SetRecord(name, Plain(code), content)));
            && HasAnchors(s.zone, node)
            && LookupAt(t.zone, node, [Plain(code)])
               == [(SS58, s.zone.records[(node, SS58)]), (ORIGIN, s.zone.records[(node, ORIGIN)]), (Plain(code), content)]
  {
    hide Core, Apply, Answer, Answers, ParseNameToNode;
    SetRecordEffect(s, who, name, Plain(code), content);
    var node, t := ParseNameToNode(name, Base).value, Step(s, Signed(who, SetRecord(name, Plain(code), content)));
    NameAnchors(s, node);
    AnswersOne(t.zone, node, Plain(code));
    SameAnswer(s.zone, t.zone, node, SS58);
    SameAnswer(s.zone, t.zone, node, ORIGIN);
  }

  lemma SameAnswer(z: Zone, z': Zone, node: Node, kind: RecordType)
    requires Lookup(z'.records, (node, kind)) == Lookup(z.records, (node, kind))
    ensures Answer(z', node, kind) == Answer(z, node, kind)
  {
  }

  /** A request for named types adds nothing to the anchors, wherever the types stand in it. */
  lemma {:induction false} NamedTypesAddNothing(z: Zone, node: Node, types: seq<RecordType>)
    requires forall kind :: kind in types ==> !kind.Plain?
    ensures LookupAt(z, node, types) == LookupAt(z, node, [])
    decreases |types|
  {
    hide Answer, Answers;
    if types != [] {
      var k := |types| - 1;
      NamedTypesAddNothing(z, node, types[..k]);
      AnswersConcat(z, node, types[..k], [types[k]]);
      AnswersOne(z, node, types[k]);
      assert types == types[..k] + [types[k]];
    }
  }

  /** Plain types that are stored are answered one for one, in the order and as often as they are asked. */
  lemma {:induction false} AnswersInOrder(z: Zone, node: Node, types: seq<RecordType>)
    requires forall i :: 0 <= i < |types| ==>
               types[i].Plain? && (node, types[i]) in z.records && z.records[(node, types[i])] != UserBytes([])
    ensures Answers(z, node, types)
            == seq(|types|, i requires 0 <= i < |types| => (types[i], z.records[(node, types[i])]))
    decreases |types|
  {
    hide Answers;
    if types == [] {
      AnswersLast(z, node, [], SS58);
    } else {
      var k := |types| - 1;
      AnswersInOrder(z, node, types[..k]);
      AnswersConcat(z, node, types[..k], [types[k]]);
      AnswersOne(z, node, types[k]);
      assert types == types[..k] + [types[k]];
    }
  }
}
