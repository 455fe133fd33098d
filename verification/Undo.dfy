/** Calls that undo each other, and calls that overwrite each other. */
module Undo {
  import opened Types
  import opened Labels
  import opened NameParsing
  import opened NameService
  import opened Effects

  /** Revoking a fresh offer restores the state. */
  lemma OfferThenRevoke(s: State, who: AccountId, sub: Bytes, target: AccountId)
    requires Apply(s, Signed(who, OfferSubdomain(sub, target))).Ok?
    ensures Step(Step(s, Signed(who, OfferSubdomain(sub, target))), Signed(who, RevokeSubdomain(sub))) == s
  {
    hide CheckLabel, Wipe, SubsUnder;
    var n := Below(s.claims.primary[who], sub);
    var s1 := Step(s, Signed(who, OfferSubdomain(sub, target)));
    assert s1.dir.subs == s.dir.subs[n := s1.dir.subs[n]] && n !in s.dir.subs;
    assert s1.dir.subs - {n} == s.dir.subs;
  }

  /** Nothing was stored under the subname: offering it, accepting it and giving it up restores the state. */
  lemma OfferAcceptRelease(s: State, who: AccountId, parent: Bytes, sub: Bytes, target: AccountId)
    requires who in s.claims.primary && s.claims.primary[who] == Below(Base, parent)
    requires NothingStored(s.zone, {Below(Below(Base, parent), sub)})
    requires var offer, accept := Signed(who, OfferSubdomain(sub, target)), Signed(target, AcceptSubdomain(parent, sub));
             Apply(s, offer).Ok? && Apply(Step(s, offer), accept).Ok?
    ensures var offer, accept := Signed(who, OfferSubdomain(sub, target)), Signed(target, AcceptSubdomain(parent, sub));
            && Apply(Step(Step(s, offer), accept), Signed(target, ReleaseSubdomain(parent, sub))).Ok?
            && Step(Step(Step(s, offer), accept), Signed(target, ReleaseSubdomain(parent, sub))) == s
  {
    hide Apply, CheckLabel, MayReceive, Lower, SubsUnder;
    var n := Below(Below(Base, parent), sub);
    OfferEffect(s, who, sub, target);
    var s1 := Step(s, Signed(who, OfferSubdomain(sub, target)));
    AcceptEffect(s1, target, parent, sub);
    var s2 := Step(s1, Signed(target, AcceptSubdomain(parent, sub)));
    ReleaseSubEffect(s2, target, parent, sub);
    var s3 := Step(s2, Signed(target, ReleaseSubdomain(parent, sub)));
    BackAgain(s, s1, s2, s3, n);
  }

  lemma BackAgain(s: State, s1: State, s2: State, s3: State, n: Node)
    requires n !in s.dir.subs && SubsBut(s.dir, s1.dir, n) && OnlySubsAndRecords(s, s1) && s1.zone == s.zone
    requires Turned(s1, s2, n, Active) && RecordsBut(s1.zone, s2.zone, {n}) && s2.zone.texts == s1.zone.texts
    requires SubnameTaken(s2, s3, n) && NothingStored(s.zone, {n})
    ensures s3 == s
  {
    hide SubsUnder;
    assert s3.dir.subs == s.dir.subs;
    forall k ensures (k in s3.zone.records <==> k in s.zone.records)
    ensures k in s.zone.records ==> s3.zone.records[k] == s.zone.records[k]
    {
      assert k == (k.0, k.1);
    }
    assert s3.zone.records == s.zone.records;
    forall k ensures (k in s3.zone.texts <==> k in s.zone.texts)
    ensures k in s.zone.texts ==> s3.zone.texts[k] == s.zone.texts[k]
    {
      assert k == (k.0, k.1);
    }
    assert s3.zone.texts == s.zone.texts;
  }

  /** Freeing a name that was reserved and not before restores the state. */
  lemma ReserveThenFree(s: State, name: Bytes)
    requires Below(Base, name) !in s.sys.reserved
    ensures Step(Step(s, Root(AddReserved(name))), Root(RemoveReserved(name))) == s
  {
    hide Lower;
    assert s.sys.reserved + {Below(Base, name)} - {Below(Base, name)} == s.sys.reserved;
  }

  /** Of two records of one kind, the later one counts, as if the first had not been stored. */
  lemma LastRecordCounts(s: State, who: AccountId, name: Bytes, kind: RecordType, first: Content, second: Content)
    ensures Step(Step(s, Signed(who, SetRecord(name, kind, first))), Signed(who, SetRecord(name, kind, second)))
            == Step(s, Signed(who, SetRecord(name, kind, second)))
  {
    hide ParseNameToNode;
  }
}
