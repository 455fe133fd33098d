/** pns-resolvers/src/resolvers.rs */
module Resolvers {
  import opened Types
  import opened NameParsing
  import opened NameService
  import opened Storage
  import opened Indexes
  import opened RegistrarChecks

  /** `set_ss58_record`. */
  method SetSs58Record(c: Chain, node: Node, owner: AccountId)
    modifies c`records
    ensures Zone(c.records, c.texts) == PutRecord(old(Zone(c.records, c.texts)), node, SS58, AccountBytes(owner))
  {
    c.records := c.records[(node, SS58) := AccountBytes(owner)];
  }

  /** `set_origin_record`. */
  method SetOriginRecord(c: Chain, node: Node)
    modifies c`records
    ensures Zone(c.records, c.texts)
            == PutRecord(old(Zone(c.records, c.texts)), node, ORIGIN, HashBytes(c.env.parentHash))
  {
    c.records := c.records[(node, ORIGIN) := HashBytes(c.env.parentHash)];
  }

  method ClearRecordsExceptSs58(c: Chain, node: Node)
    modifies c`records
    ensures Zone(c.records, c.texts) == KeepSs58(old(Zone(c.records, c.texts)), node)
  {
    var toRemove := set k | k in c.records && k.0 == node && k.1 != SS58 :: k.1;
    while toRemove != {}
      invariant forall k :: k in c.records <==>
                              k in old(c.records) && (k.0 != node || k.1 == SS58 || k.1 in toRemove)
      invariant forall k :: k in c.records ==> c.records[k] == old(c.records)[k]
      decreases toRemove
    {
      var rt :| rt in toRemove;
      c.records := c.records - {(node, rt)};
      toRemove := toRemove - {rt};
    }
    assert c.records == KeepSs58(old(Zone(c.records, c.texts)), node).records;
  }

  method ClearAllRecords(c: Chain, node: Node)
    modifies c`records, c`texts
    ensures Zone(c.records, c.texts) == Wipe(old(Zone(c.records, c.texts)), {node})
  {
    c.records := map k | k in c.records && k.0 != node :: c.records[k];
    c.texts := map k | k in c.texts && k.0 != node :: c.texts[k];
    assert c.records == Wipe(old(Zone(c.records, c.texts)), {node}).records;
    assert c.texts == Wipe(old(Zone(c.records, c.texts)), {node}).texts;
  }

  /** `check_node_useable` of runtime/src/configs/mod.rs: the owner of the token, and for a registered name one that
      has not expired. */
  predicate CheckNodeUseable(c: Chain, node: Node, who: AccountId)
    reads c
  {
    node in c.tokens && c.tokens[node].owner == who && (node in c.infos ==> CheckExpiresUseable(c, node).Pass?)
  }

  lemma UseableAgrees(c: Chain, name: Bytes, who: AccountId)
    requires c.Valid()
    ensures var parsed := ParseNameToNode(name, Base);
            parsed.Some? ==> CheckNodeUseable(c, parsed.value, who) == Editable(c.View(), parsed.value, who)
  {
    hide TokensIndexed, RootsTraced, SubnamesIndexed, ChildrenCounted, TopRows, NamesOf, HashLabel;
    var parsed := ParseNameToNode(name, Base);
    if parsed.Some? {
      NamesAreInfos(c.tokens, c.infos, c.origins, c.official, parsed.value);
    }
  }

  function RecordChecks(c: Chain, who: AccountId, name: Bytes, kind: RecordType): Check
    reads c
  {
    if Protected(kind) then Fail(Ss58RecordProtected)
    else if ParseNameToNode(name, Base).None? then Fail(InvalidName)
    else Ensure(CheckNodeUseable(c, ParseNameToNode(name, Base).value, who), InvalidPermission)
  }

  lemma RecordAgrees(c: Chain, who: AccountId, name: Bytes, kind: RecordType, content: Content)
    requires c.Valid()
    ensures RecordChecks(c, who, name, kind).Pass? ==> ParseNameToNode(name, Base).Some?
    ensures DoSetRecord(c.View(), who, ParseNameToNode(name, Base), kind, content)
            == match RecordChecks(c, who, name, kind)
               case Pass =>
                 Ok(c.View().(zone := PutRecord(c.View().zone, ParseNameToNode(name, Base).value, kind, content)))
               case Fail(e) => Err(e)
  {
    hide TokensIndexed, RootsTraced, SubnamesIndexed, ChildrenCounted, TopRows, NamesOf, ParseNameToNode, Editable,
      CheckNodeUseable, Protected;
    UseableAgrees(c, name, who);
  }

  method SetRecord(c: Chain, who: AccountId, name: Bytes, kind: RecordType, content: Content) returns (r: Result<()>)
    requires c.Valid()
    modifies c`records
    ensures r.Ok? ==> c.Valid()
    ensures c.Outcome(r) == DoSetRecord(old(c.View()), who, ParseNameToNode(name, Base), kind, content)
  {
    hide TokensIndexed, RootsTraced, SubnamesIndexed, ChildrenCounted, TopRows, NamesOf, ParseNameToNode, RecordChecks,
      DoSetRecord;
    RecordAgrees(c, who, name, kind, content);
    :- RecordChecks(c, who, name, kind);
    var node := ParseNameToNode(name, Base).value;
    c.records := c.records[(node, kind) := content];
    return Ok(());
  }

  method SetText(c: Chain, who: AccountId, name: Bytes, kind: TextKind, content: Content) returns (r: Result<()>)
    requires c.Valid()
    modifies c`texts
    ensures r.Ok? ==> c.Valid()
    ensures c.Outcome(r) == DoSetText(old(c.View()), who, ParseNameToNode(name, Base), kind, content)
  {
    hide TokensIndexed, RootsTraced, SubnamesIndexed, ChildrenCounted, TopRows, NamesOf, ParseNameToNode, Editable,
      CheckNodeUseable;
    var node :- OkOr(ParseNameToNode(name, Base), InvalidName);
    UseableAgrees(c, name, who);
    :- Ensure(CheckNodeUseable(c, node, who), InvalidPermission);
    c.texts := c.texts[(node, kind) := content];
    return Ok(());
  }

  // `lookup`

  /** The types that a lookup never takes from the request. */
  predicate Blocked(kind: RecordType) {
    kind in [SS58, ORIGIN, ANY, AXFR, IXFR, OPT, TSIG, SIG, RRSIG, NSEC, NSEC3, NSEC3PARAM, DNSKEY, CDNSKEY, CDS, DS]
  }

  /** A record that a lookup may return: stored, and not empty. */
  predicate Stored(z: Zone, node: Node, kind: RecordType) {
    (node, kind) in z.records && !IsEmpty(z.records[(node, kind)])
  }

  function Answer(z: Zone, node: Node, kind: RecordType): seq<(RecordType, Content)> {
    if Stored(z, node, kind) then [(kind, z.records[(node, kind)])] else []
  }

  /** The answers to the requested types, in the order of the request. */
  function Answers(z: Zone, node: Node, types: seq<RecordType>): seq<(RecordType, Content)> {
    if types == [] then []
    else
      var kind := types[|types| - 1];
      Answers(z, node, types[..|types| - 1]) + if Blocked(kind) then [] else Answer(z, node, kind)
  }

  method Push(c: Chain, results: seq<(RecordType, Content)>, node: Node, kind: RecordType)
    returns (pushed: seq<(RecordType, Content)>)
    ensures pushed == results + Answer(Zone(c.records, c.texts), node, kind)
  {
    if (node, kind) in c.records && !IsEmpty(c.records[(node, kind)]) {
      return results + [(kind, c.records[(node, kind)])];
    }
    return results;
  }

  method LookupRecords(c: Chain, node: Node, types: seq<RecordType>) returns (results: seq<(RecordType, Content)>)
    ensures var z := Zone(c.records, c.texts);
            results == Answer(z, node, SS58) + Answer(z, node, ORIGIN) + Answers(z, node, types)
  {
    hide Blocked, Answer;
    ghost var z := Zone(c.records, c.texts);
    results := Push(c, [], node, SS58);
    results := Push(c, results, node, ORIGIN);
    ghost var anchors := results;
    for i := 0 to |types|
      invariant results == anchors + Answers(z, node, types[..i])
    {
      assert types[..i + 1][..i] == types[..i];
      if Blocked(types[i]) {
        continue;
      }
      results := Push(c, results, node, types[i]);
    }
    assert types[..|types|] == types;
  }

  /** A lookup returns the stored records of the requested types that are not blocked, and nothing else. */
  lemma {:induction false} AnswersExact(z: Zone, node: Node, types: seq<RecordType>, kind: RecordType, content: Content)
    ensures (kind, content) in Answers(z, node, types)
            <==> kind in types && !Blocked(kind) && Stored(z, node, kind) && z.records[(node, kind)] == content
  {
    hide Blocked, Stored;
    if types != [] {
      var rest := types[..|types| - 1];
      AnswersExact(z, node, rest, kind, content);
      assert types == rest + [types[|types| - 1]];
    }
  }

  lemma AnswersLast(z: Zone, node: Node, types: seq<RecordType>, kind: RecordType)
    ensures Answers(z, node, []) == []
    ensures Answers(z, node, types + [kind])
            == Answers(z, node, types) + if Blocked(kind) then [] else Answer(z, node, kind)
  {
    hide Blocked, Answer;
    assert (types + [kind])[..|types|] == types;
  }

  /** Answers follow the request: its order, its repetitions. */
  lemma {:induction false} AnswersConcat(z: Zone, node: Node, xs: seq<RecordType>, ys: seq<RecordType>)
    ensures Answers(z, node, xs + ys) == Answers(z, node, xs) + Answers(z, node, ys)
    decreases |ys|
  {
    hide Blocked, Answer, Answers;
    if ys == [] {
      AnswersLast(z, node, [], SS58);
      assert xs + ys == xs;
    } else {
      var front, kind := ys[..|ys| - 1], ys[|ys| - 1];
      AnswersConcat(z, node, xs, front);
      AnswersLast(z, node, front, kind);
      AnswersLast(z, node, xs + front, kind);
      assert ys == front + [kind];
      assert xs + ys == (xs + front) + [kind];
    }
  }

  /** A plain type is answered by what is stored for it unless that is empty, each of the sixteen named types by
      nothing. */
  lemma AnswersOne(z: Zone, node: Node, kind: RecordType)
    ensures Answers(z, node, [kind])
            == match kind
               case Plain(code) =>
                 if (node, kind) in z.records && z.records[(node, kind)] != UserBytes([])
                 then [(kind, z.records[(node, kind)])] else []
               case _ => []
  {
    assert [kind][..0] == [];
    PlainNotBlocked(kind);
    hide Blocked;
  }

  lemma PlainNotBlocked(kind: RecordType)
    ensures Blocked(kind) <==> !kind.Plain?
  {
  }
}
