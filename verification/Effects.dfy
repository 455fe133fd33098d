/** What each call does, from the text of its arguments to the last account and record: when it succeeds, what it
    changes, and that it changes nothing else. */
module Effects {
  import opened Types
  import opened Labels
  import opened NameParsing
  import opened Currency
  import opened NameService

  // ---------------------------------------------------------------------------------------------
  // Parts of a state that stay as they were
  // ---------------------------------------------------------------------------------------------

  ghost predicate NamesBut(d: Directory, d': Directory, n: Node) {
    forall m :: m != n ==> (m in d'.names <==> m in d.names) && (m in d.names ==> d'.names[m] == d.names[m])
  }

  ghost predicate SubsBut(d: Directory, d': Directory, n: Node) {
    forall m :: m != n ==> (m in d'.subs <==> m in d.subs) && (m in d.subs ==> d'.subs[m] == d.subs[m])
  }

  /** The subnames of `p` are gone and all others as they were. */
  ghost predicate SubsClearedBelow(d: Directory, d': Directory, p: Node) {
    && (forall m :: m in d'.subs <==> m in d.subs && d.subs[m].parent != p)
    && (forall m :: m in d'.subs ==> d'.subs[m] == d.subs[m])
  }

  ghost predicate RowsBut(d: Directory, d': Directory, n: Node) {
    forall a, m :: m != n ==> ((a, m) in d'.held <==> (a, m) in d.held)
  }

  ghost predicate ClaimsBut(c: Claims, c': Claims, who: set<AccountId>) {
    forall a :: a !in who ==>
      (a in c'.primary <==> a in c.primary) && (a in c.primary ==> c'.primary[a] == c.primary[a])
  }

  ghost predicate OffersBut(c: Claims, c': Claims, n: Node) {
    forall m :: m != n ==> (m in c'.offered <==> m in c.offered) && (m in c.offered ==> c'.offered[m] == c.offered[m])
  }

  ghost predicate ListingsBut(c: Claims, c': Claims, n: Node) {
    forall m :: m != n ==>
      (m in c'.listings <==> m in c.listings) && (m in c.listings ==> c'.listings[m] == c.listings[m])
  }

  ghost predicate RecordsBut(z: Zone, z': Zone, nodes: set<Node>) {
    forall n, k :: n !in nodes ==>
      ((n, k) in z'.records <==> (n, k) in z.records) && ((n, k) in z.records ==> z'.records[(n, k)] == z.records[(n, k)])
  }

  ghost predicate TextsBut(z: Zone, z': Zone, nodes: set<Node>) {
    forall n, k :: n !in nodes ==>
      ((n, k) in z'.texts <==> (n, k) in z.texts) && ((n, k) in z.texts ==> z'.texts[(n, k)] == z.texts[(n, k)])
  }

  ghost predicate NothingStored(z: Zone, nodes: set<Node>) {
    forall n :: n in nodes ==> (forall k :: (n, k) !in z.records) && (forall k :: (n, k) !in z.texts)
  }

  /** `who` has `fee` less, nobody else more or less, and the fee is gone from the issuance. */
  ghost predicate Charged(m: Money, m': Money, who: AccountId, fee: nat) {
    && Free(m', who) == Free(m, who) - fee
    && (forall a :: a != who ==> Free(m', a) == Free(m, a))
    && m'.issuance == m.issuance - fee
  }

  ghost predicate Affordable(m: Money, existential: nat, who: AccountId, fee: nat) {
    fee == 0 || Free(m, who) >= fee + existential
  }

  lemma WithdrawExact(m: Money, existential: nat, who: AccountId, fee: nat)
    requires Balanced(m)
    ensures Withdraw(m, existential, who, fee).Ok? <==> Affordable(m, existential, who, fee)
    ensures Affordable(m, existential, who, fee) ==> Charged(m, Withdraw(m, existential, who, fee).value, who, fee)
  {
    hide Balanced;
    if Affordable(m, existential, who, fee) {
      WithdrawBurns(m, existential, who, fee);
    }
  }

  /** The price of a label: that of its length, and the last price for every longer one. */
  ghost predicate IsFee(prices: seq<nat>, len: nat, fee: nat) {
    1 <= len && prices != [] && fee == if len <= |prices| then prices[len - 1] else prices[|prices| - 1]
  }

  lemma FeeExact(prices: seq<nat>, len: nat, fee: nat)
    ensures RegistrationFee(prices, len) == Some(fee) <==> IsFee(prices, len, fee)
    ensures RegistrationFee(prices, len) == None <==> len == 0 || prices == []
  {
  }

  /** The node of a label below `p`. */
  function Below(p: Node, text: Bytes): Node {
    Child(p, Lower(text))
  }

  /** Claims no name that is registered and within its grace period, is listed under no name and holds no subname. */
  ghost predicate MayReceive(s: State, a: AccountId) {
    && (a in s.claims.primary && s.claims.primary[a] in s.dir.names ==>
          s.sys.env.now > s.dir.names[s.claims.primary[a]].expire + s.sys.cfg.grace)
    && (forall n :: (a, n) !in s.dir.held)
    && (forall n :: n in s.dir.subs && s.dir.subs[n].target == a ==> s.dir.subs[n].state != Active)
  }

  lemma ReceiverExact(s: State, a: AccountId)
    ensures FreeReceiver(s, a).Pass? <==> MayReceive(s, a)
    ensures HasValidName(s, a) || BlockedByRow(s.dir, a) <==> !MayReceive(s, a)
  {
    if HasHeldRow(s.dir, a) {
      var row :| row in s.dir.held && row.0 == a;
      assert (a, row.1) == row;
    }
    if n :| (a, n) in s.dir.held {
      assert (a, n).0 == a;
    }
  }

  // ---------------------------------------------------------------------------------------------
  // Registering and renewing
  // ---------------------------------------------------------------------------------------------

  ghost predicate MayRegister(s: State, who: AccountId, name: Bytes, owner: AccountId, fee: nat) {
    var n := Below(Base, name);
    && CheckLabel(name) && s.sys.cfg.open && n !in s.sys.reserved && owner != s.sys.official
    && s.sys.env.now + s.sys.cfg.maxDuration <= MAX_U64
    && MayReceive(s, owner)
    && IsFee(s.sys.env.prices, |name|, fee) && Affordable(s.money, s.sys.cfg.existential, who, fee)
    && (n in s.dir.names ==> s.sys.env.now > s.dir.names[n].expire + s.sys.cfg.grace)
  }

  lemma RegisterExact(s: State, who: AccountId, name: Bytes, owner: AccountId)
    requires Balanced(s.money)
    ensures Apply(s, Signed(who, Register(name, owner, None))).Ok?
            <==> exists fee :: MayRegister(s, who, name, owner, fee)
  {
    hide FreeReceiver, MayReceive, Mint, RegisterClaims, RegisterZone, Balanced, Free, Withdraw, RegistrationFee,
      ParseNameToNode;
    ReceiverExact(s, owner);
    var prices := s.sys.env.prices;
    if RegistrationFee(prices, |name|).Some? {
      var fee := RegistrationFee(prices, |name|).value;
      FeeExact(prices, |name|, fee);
      WithdrawExact(s.money, s.sys.cfg.existential, who, fee);
      if Apply(s, Signed(who, Register(name, owner, None))).Ok? {
        assert MayRegister(s, who, name, owner, fee);
      }
    } else {
      FeeExact(prices, |name|, 0);
    }
    if fee :| MayRegister(s, who, name, owner, fee) {
      FeeExact(prices, |name|, fee);
    }
  }

  /** The registered name: whose it is, until when, with which capacity, at which price. */
  ghost predicate Registered(s: State, t: State, n: Node, owner: AccountId, fee: nat, len: nat) {
    && n in t.dir.names
    && t.dir.names[n].owner == owner
    && t.dir.names[n].expire == s.sys.env.now + s.sys.cfg.maxDuration
    && t.dir.names[n].capacity == (if n in s.dir.names then s.dir.names[n].capacity else s.sys.cfg.capacity)
    && t.dir.names[n].registerFee == fee && t.dir.names[n].labelLen == len
    && t.dir.names[n].lastBlock == s.sys.env.block
  }

  ghost predicate AnchoredFor(hash: int, z: Zone, n: Node, owner: AccountId) {
    && (n, SS58) in z.records && z.records[(n, SS58)] == AccountBytes(owner)
    && (n, ORIGIN) in z.records && z.records[(n, ORIGIN)] == HashBytes(hash)
  }

  /** The caller pays, the owner gets the name and the claim, the previous owner loses row and claim, and the name starts
      with its two anchors and nothing below it. */
  lemma RegisterEffect(s: State, who: AccountId, name: Bytes, owner: AccountId)
    requires Balanced(s.money) && Apply(s, Signed(who, Register(name, owner, None))).Ok?
    ensures var n, t := Below(Base, name), Step(s, Signed(who, Register(name, owner, None)));
            exists fee ::
              && IsFee(s.sys.env.prices, |name|, fee)
              && Charged(s.money, t.money, who, fee)
              && t.events == s.events + [NameRegistered(n, owner, s.sys.env.now + s.sys.cfg.maxDuration, fee)]
              && Registered(s, t, n, owner, fee, |name|)
    ensures var n, t := Below(Base, name), Step(s, Signed(who, Register(name, owner, None)));
            && t.sys == s.sys && NamesBut(s.dir, t.dir, n) && RowsBut(s.dir, t.dir, n)
            && (owner, n) in t.dir.held
            && (forall a :: a != owner ==>
                  ((a, n) in t.dir.held
                   <==> (a, n) in s.dir.held && !(n in s.dir.names && s.dir.names[n].owner == a)))
            && (if n in s.dir.names then SubsClearedBelow(s.dir, t.dir, n) else t.dir.subs == s.dir.subs)
  {
    hide FreeReceiver, RegisterClaims, RegisterZone, Balanced, Free, Withdraw, RegistrationFee, ParseNameToNode, Live;
    var fee := RegistrationFee(s.sys.env.prices, |name|).value;
    FeeExact(s.sys.env.prices, |name|, fee);
    WithdrawExact(s.money, s.sys.cfg.existential, who, fee);
    var n, t := Below(Base, name), Step(s, Signed(who, Register(name, owner, None)));
    assert Registered(s, t, n, owner, fee, |name|);
  }

  lemma RegisterClaimsEffect(s: State, who: AccountId, name: Bytes, owner: AccountId)
    requires Apply(s, Signed(who, Register(name, owner, None))).Ok?
    ensures var n, t := Below(Base, name), Step(s, Signed(who, Register(name, owner, None)));
            && owner in t.claims.primary && t.claims.primary[owner] == n
            && t.claims.offered == s.claims.offered && t.claims.listings == s.claims.listings
            && (forall a :: a != owner ==>
                  (a in t.claims.primary
                   <==> a in s.claims.primary
                        && !(n in s.dir.names && s.dir.names[n].owner == a && s.claims.primary[a] == n)))
            && (forall a :: a != owner && a in t.claims.primary ==> t.claims.primary[a] == s.claims.primary[a])
  {
    hide FreeReceiver, Mint, RegisterZone, Withdraw, RegistrationFee, ParseNameToNode, Live;
  }

  lemma RegisterZoneIs(s: State, n: Node, owner: AccountId)
    ensures var z := RegisterZone(s, n, owner);
            var cleared := if n in s.dir.names then SubsUnder(s.dir.subs, n) else {};
            && AnchoredFor(s.sys.env.parentHash, z, n, owner)
            && RecordsBut(s.zone, z, cleared + {n}) && TextsBut(s.zone, z, cleared + {n})
            && (n !in cleared ==> NothingStored(z, cleared))
            && (n in s.dir.names ==>
                  && (forall k :: (n, k) in z.records ==> k == SS58 || k == ORIGIN)
                  && (forall k :: (n, k) !in z.texts))
  {
    hide SubsUnder;
  }

  /** The records of a registered name: two anchors, and nothing left of a previous registration or its subnames. */
  lemma RegisterZoneEffect(s: State, who: AccountId, name: Bytes, owner: AccountId)
    requires Apply(s, Signed(who, Register(name, owner, None))).Ok?
    ensures var n, z := Below(Base, name), Step(s, Signed(who, Register(name, owner, None))).zone;
            var cleared := if n in s.dir.names then SubsUnder(s.dir.subs, n) else {};
            && AnchoredFor(s.sys.env.parentHash, z, n, owner)
            && RecordsBut(s.zone, z, cleared + {n}) && TextsBut(s.zone, z, cleared + {n})
            && (n !in cleared ==> NothingStored(z, cleared))
            && (n in s.dir.names ==>
                  && (forall k :: (n, k) in z.records ==> k == SS58 || k == ORIGIN)
                  && (forall k :: (n, k) !in z.texts))
  {
    hide FreeReceiver, Mint, RegisterClaims, RegisterZone, Withdraw, RegistrationFee, ParseNameToNode, Live, SubsUnder,
      AnchoredFor, RecordsBut, TextsBut, NothingStored;
    RegisterZoneIs(s, Below(Base, name), owner);
  }

  ghost predicate MayRenew(s: State, who: AccountId, fee: nat) {
    && s.sys.cfg.open && who in s.claims.primary && s.claims.primary[who] in s.dir.names
    && s.sys.env.now <= s.dir.names[s.claims.primary[who]].expire + s.sys.cfg.grace
    && s.sys.env.now + s.sys.cfg.maxDuration <= MAX_U64
    && IsFee(s.sys.env.prices, s.dir.names[s.claims.primary[who]].labelLen, fee)
    && Affordable(s.money, s.sys.cfg.existential, who, fee)
  }

  lemma RenewExact(s: State, who: AccountId)
    requires Balanced(s.money)
    ensures Apply(s, Signed(who, Renew)).Ok? <==> exists fee :: MayRenew(s, who, fee)
  {
    hide Balanced, Free, Withdraw, RegistrationFee;
    if who in s.claims.primary && s.claims.primary[who] in s.dir.names {
      var prices, len := s.sys.env.prices, s.dir.names[s.claims.primary[who]].labelLen;
      if RegistrationFee(prices, len).Some? {
        var fee := RegistrationFee(prices, len).value;
        FeeExact(prices, len, fee);
        WithdrawExact(s.money, s.sys.cfg.existential, who, fee);
        if Apply(s, Signed(who, Renew)).Ok? {
          assert MayRenew(s, who, fee);
        }
      } else {
        FeeExact(prices, len, 0);
      }
      if fee :| MayRenew(s, who, fee) {
        FeeExact(prices, len, fee);
      }
    }
  }

  /** The caller pays the price of the length, and the expiry of the claimed name is one period from now. */
  lemma RenewEffect(s: State, who: AccountId)
    requires Balanced(s.money) && Apply(s, Signed(who, Renew)).Ok?
    ensures var n, t := s.claims.primary[who], Step(s, Signed(who, Renew));
            && n in s.dir.names && n in t.dir.names
            && t.dir.names[n].expire == s.sys.env.now + s.sys.cfg.maxDuration
            && t.dir.names[n].(expire := s.dir.names[n].expire) == s.dir.names[n]
            && NamesBut(s.dir, t.dir, n) && t.dir.subs == s.dir.subs && t.dir.held == s.dir.held
            && t.sys == s.sys && t.claims == s.claims && t.zone == s.zone
            && exists fee ::
                 && IsFee(s.sys.env.prices, s.dir.names[n].labelLen, fee)
                 && Charged(s.money, t.money, who, fee)
                 && t.events == s.events + [NameRenewed(n, who, s.sys.env.now + s.sys.cfg.maxDuration, fee)]
  {
    hide Balanced, Free, Withdraw, RegistrationFee;
    var prices, len := s.sys.env.prices, s.dir.names[s.claims.primary[who]].labelLen;
    var fee := RegistrationFee(prices, len).value;
    FeeExact(prices, len, fee);
    WithdrawExact(s.money, s.sys.cfg.existential, who, fee);
  }

  // ---------------------------------------------------------------------------------------------
  // Destroying names and handing them on
  // ---------------------------------------------------------------------------------------------

  /** A name is gone with its subnames, its owner's row and everything stored under it and them. */
  ghost predicate Destroyed(s: State, t: State, n: Node) {
    && n in s.dir.names && n !in t.dir.names && NamesBut(s.dir, t.dir, n) && SubsClearedBelow(s.dir, t.dir, n)
    && RowsBut(s.dir, t.dir, n)
    && (forall a :: (a, n) in t.dir.held <==> (a, n) in s.dir.held && a != s.dir.names[n].owner)
    && NothingStored(t.zone, SubsUnder(s.dir.subs, n) + {n})
    && RecordsBut(s.zone, t.zone, SubsUnder(s.dir.subs, n) + {n})
    && TextsBut(s.zone, t.zone, SubsUnder(s.dir.subs, n) + {n})
    && t.sys == s.sys && t.money == s.money && t.events == s.events
  }

  lemma BurnNodeIs(s: State, who: AccountId, n: Node)
    ensures BurnNode(s, who, n).Ok? <==> n != Base && n in s.dir.names && s.dir.names[n].owner == who
    ensures BurnNode(s, who, n).Ok? ==>
              Destroyed(s, BurnNode(s, who, n).value, n) && BurnNode(s, who, n).value.claims == s.claims
  {
    hide SubsUnder;
    BelowIsUnder(s.dir, n);
  }

  lemma BelowIsUnder(d: Directory, n: Node)
    ensures forall m :: m in SubsUnder(d.subs, n) <==> m in d.subs && d.subs[m].parent == n
  {
  }

  /** The owner, and nobody else, destroys a name; claims, offers and listings stay. */
  lemma BurnEffect(s: State, who: AccountId, name: Bytes)
    ensures var parsed, x := ParseNameToNode(name, Base), Signed(who, Burn(name));
            && (Apply(s, x).Ok? <==>
                  parsed.Some? && parsed.value != Base && parsed.value in s.dir.names
                  && s.dir.names[parsed.value].owner == who)
            && (Apply(s, x).Ok? ==> Destroyed(s, Step(s, x), parsed.value) && Step(s, x).claims == s.claims)
  {
    hide ParseNameToNode, BurnNode, Destroyed;
    if ParseNameToNode(name, Base).Some? {
      BurnNodeIs(s, who, ParseNameToNode(name, Base).value);
    }
  }

  /** The owner of the claimed name destroys it and gives the claim up. */
  lemma ReleaseNameEffect(s: State, who: AccountId)
    ensures var x := Signed(who, ReleaseName);
            && (Apply(s, x).Ok? <==>
                  && who in s.claims.primary && s.claims.primary[who] != Base && s.claims.primary[who] in s.dir.names
                  && s.dir.names[s.claims.primary[who]].owner == who)
            && (Apply(s, x).Ok? ==>
                  && Destroyed(s, Step(s, x), s.claims.primary[who])
                  && who !in Step(s, x).claims.primary && ClaimsBut(s.claims, Step(s, x).claims, {who})
                  && Step(s, x).claims.offered == s.claims.offered && Step(s, x).claims.listings == s.claims.listings)
  {
    hide BurnNode, SubsUnder, NamesBut, SubsClearedBelow, RowsBut, NothingStored, RecordsBut, TextsBut;
    if who in s.claims.primary {
      BurnNodeIs(s.(claims := DropPrimary(s.claims, who)), who, s.claims.primary[who]);
    }
  }

  /** A name has a new owner and is otherwise the same; its subnames are gone; of its records only the anchors are there,
      for the new owner; its texts stay. */
  ghost predicate HandedOver(s: State, t: State, n: Node, to: AccountId) {
    && n in s.dir.names && n in t.dir.names && t.dir.names[n].owner == to
    && t.dir.names[n].(owner := s.dir.names[n].owner) == s.dir.names[n]
    && NamesBut(s.dir, t.dir, n) && SubsClearedBelow(s.dir, t.dir, n) && t.dir.held == s.dir.held
    && t.sys == s.sys && HandedZone(s.sys.env.parentHash, s.dir.subs, s.zone, t.zone, n, to)
  }

  ghost predicate HandedZone(hash: int, subs: map<Node, SubnameRecord>, z: Zone, z': Zone, n: Node, to: AccountId) {
    var below := SubsUnder(subs, n);
    && AnchoredFor(hash, z', n, to)
    && (forall k :: (n, k) in z'.records ==> k == SS58 || k == ORIGIN)
    && RecordsBut(z, z', below + {n}) && TextsBut(z, z', below)
    && (n !in below ==> NothingStored(z', below))
  }

  lemma TransferZoneIs(s: State, n: Node, to: AccountId)
    ensures var z := WriteAnchors(KeepSs58(Wipe(s.zone, SubsUnder(s.dir.subs, n)), n), n, to, s.sys.env.parentHash);
            HandedZone(s.sys.env.parentHash, s.dir.subs, s.zone, z, n, to)
  {
    hide SubsUnder;
  }

  lemma TransferNodeIs(s: State, from: AccountId, to: AccountId, n: Node)
    ensures TransferNode(s, from, to, n).Ok? <==>
              && n != Base && n in s.dir.names && s.dir.names[n].owner == from
              && s.sys.env.now < s.dir.names[n].expire + s.sys.cfg.grace
    ensures TransferNode(s, from, to, n).Ok? ==>
              var t := TransferNode(s, from, to, n).value;
              HandedOver(s, t, n, to) && t.claims == s.claims && t.money == s.money && t.events == s.events
  {
    TransferZoneIs(s, n, to);
    hide HandedZone, Wipe, KeepSs58, WriteAnchors, SubsUnder;
  }

  /** The owner hands the claimed name on before its grace period ends, and the claim goes along. */
  lemma TransferEffect(s: State, who: AccountId, to: AccountId)
    ensures var x := Signed(who, Transfer(to));
            && (Apply(s, x).Ok? <==>
                  && s.sys.cfg.open && who in s.claims.primary && s.claims.primary[who] != Base
                  && s.claims.primary[who] in s.dir.names && s.dir.names[s.claims.primary[who]].owner == who
                  && s.sys.env.now < s.dir.names[s.claims.primary[who]].expire + s.sys.cfg.grace
                  && MayReceive(s, to))
            && (Apply(s, x).Ok? ==>
                  var n, t := s.claims.primary[who], Step(s, x);
                  && HandedOver(s, t, n, to) && t.money == s.money && t.events == s.events
                  && to in t.claims.primary && t.claims.primary[to] == n && (who != to ==> who !in t.claims.primary)
                  && ClaimsBut(s.claims, t.claims, {who, to})
                  && t.claims.offered == s.claims.offered && t.claims.listings == s.claims.listings)
  {
    hide TransferNode, FreeReceiver, MayReceive, NamesBut, SubsClearedBelow, HandedZone;
    ReceiverExact(s, to);
    if who in s.claims.primary {
      TransferNodeIs(s, who, to, s.claims.primary[who]);
    }
  }

  // ---------------------------------------------------------------------------------------------
  // Subnames
  // ---------------------------------------------------------------------------------------------

  /** The parts of a state that no call on a subname touches. */
  ghost predicate OnlySubsAndRecords(s: State, t: State) {
    && t.sys == s.sys && t.claims == s.claims && t.money == s.money && t.events == s.events
    && t.dir.names == s.dir.names && t.dir.held == s.dir.held
  }

  ghost predicate MayOffer(s: State, who: AccountId, sub: Bytes, target: AccountId) {
    && s.sys.cfg.open && CheckLabel(sub) && who in s.claims.primary && s.claims.primary[who] in s.dir.names
    && var p := s.claims.primary[who];
    && s.sys.env.now < s.dir.names[p].expire && target != s.dir.names[p].owner
    && Below(p, sub) !in s.dir.subs && |SubsUnder(s.dir.subs, p)| < s.dir.names[p].capacity
  }

  /** An offer adds one pending subname, in the spelling given, below the name that the caller claims. */
  lemma OfferEffect(s: State, who: AccountId, sub: Bytes, target: AccountId)
    ensures Apply(s, Signed(who, OfferSubdomain(sub, target))).Ok? <==> MayOffer(s, who, sub, target)
    ensures MayOffer(s, who, sub, target) ==>
              var p, t := s.claims.primary[who], Step(s, Signed(who, OfferSubdomain(sub, target)));
              var n := Below(p, sub);
              && n in t.dir.subs && t.dir.subs[n].state == Offered && t.dir.subs[n].target == target
              && t.dir.subs[n].parent == p && t.dir.subs[n].spelling == sub
              && SubsBut(s.dir, t.dir, n) && OnlySubsAndRecords(s, t) && t.zone == s.zone
              && |SubsUnder(t.dir.subs, p)| == |SubsUnder(s.dir.subs, p)| + 1
  {
    hide CheckLabel, SubsUnder;
    if MayOffer(s, who, sub, target) {
      AddedBelow(s.dir.subs, Below(s.claims.primary[who], sub),
                 SubnameRecord(s.claims.primary[who], sub, target, Offered));
    }
  }

  lemma AddedBelow(subs: map<Node, SubnameRecord>, n: Node, r: SubnameRecord)
    requires n !in subs
    ensures |SubsUnder(subs[n := r], r.parent)| == |SubsUnder(subs, r.parent)| + 1
  {
    assert SubsUnder(subs[n := r], r.parent) == SubsUnder(subs, r.parent) + {n};
  }

  lemma DroppedBelow(subs: map<Node, SubnameRecord>, n: Node)
    requires n in subs
    ensures |SubsUnder(subs - {n}, subs[n].parent)| == |SubsUnder(subs, subs[n].parent)| - 1
  {
    assert SubsUnder(subs - {n}, subs[n].parent) == SubsUnder(subs, subs[n].parent) - {n};
  }

  /** An offer to `who` that waits for an answer. */
  ghost predicate Pending(s: State, who: AccountId, n: Node) {
    n in s.dir.subs && s.dir.subs[n].state == Offered && s.dir.subs[n].target == who
  }

  /** The subname is in another state and otherwise the same. */
  ghost predicate Turned(s: State, t: State, n: Node, state: SubnameState) {
    && n in s.dir.subs && n in t.dir.subs && t.dir.subs[n].state == state
    && t.dir.subs[n].(state := s.dir.subs[n].state) == s.dir.subs[n]
    && SubsBut(s.dir, t.dir, n) && OnlySubsAndRecords(s, t)
  }

  /** The target of a pending offer who may receive a name takes it: the subname is active and its owner record names
      the caller. */
  lemma AcceptEffect(s: State, who: AccountId, parent: Bytes, sub: Bytes)
    ensures var x, p := Signed(who, AcceptSubdomain(parent, sub)), Below(Base, parent);
            && (Apply(s, x).Ok? <==>
                  && CheckLabel(parent) && CheckLabel(sub) && p in s.dir.names && s.sys.env.now < s.dir.names[p].expire
                  && MayReceive(s, who) && Pending(s, who, Below(p, sub)))
            && (Apply(s, x).Ok? ==>
                  var n, t := Below(p, sub), Step(s, x);
                  && Turned(s, t, n, Active) && RecordsBut(s.zone, t.zone, {n}) && t.zone.texts == s.zone.texts
                  && (n, SS58) in t.zone.records && t.zone.records[(n, SS58)] == AccountBytes(who)
                  && (forall k :: k != SS58 ==> Lookup(t.zone.records, (n, k)) == Lookup(s.zone.records, (n, k))))
  {
    hide CheckLabel, HasValidName, BlockedByRow, MayReceive;
    ReceiverExact(s, who);
  }

  /** The target of a pending offer turns it down: the subname stays as rejected and no record changes. */
  lemma RejectEffect(s: State, who: AccountId, parent: Bytes, sub: Bytes)
    ensures var x, n := Signed(who, RejectSubdomain(parent, sub)), Below(Below(Base, parent), sub);
            && (Apply(s, x).Ok? <==> CheckLabel(parent) && CheckLabel(sub) && Pending(s, who, n))
            && (Apply(s, x).Ok? ==> Turned(s, Step(s, x), n, Rejected) && Step(s, x).zone == s.zone)
  {
    hide CheckLabel;
  }

  /** The subname is gone with everything stored under it if it was active; the parent has one fewer. */
  ghost predicate SubnameTaken(s: State, t: State, n: Node) {
    && n in s.dir.subs && n !in t.dir.subs && SubsBut(s.dir, t.dir, n) && OnlySubsAndRecords(s, t)
    && |SubsUnder(t.dir.subs, s.dir.subs[n].parent)| == |SubsUnder(s.dir.subs, s.dir.subs[n].parent)| - 1
    && RecordsBut(s.zone, t.zone, {n}) && TextsBut(s.zone, t.zone, {n})
    && (if s.dir.subs[n].state == Active then NothingStored(t.zone, {n}) else t.zone == s.zone)
  }

  lemma DropSubIs(s: State, n: Node)
    requires n in s.dir.subs
    ensures SubnameTaken(s, s.(dir := DropSub(s.dir, n),
                               zone := if s.dir.subs[n].state == Active then Wipe(s.zone, {n}) else s.zone), n)
  {
    DroppedBelow(s.dir.subs, n);
    hide SubsUnder;
  }

  /** The account that claims the parent takes a subname away, whatever its state. */
  lemma RevokeEffect(s: State, who: AccountId, sub: Bytes)
    ensures var x := Signed(who, RevokeSubdomain(sub));
            && (Apply(s, x).Ok? <==>
                  && CheckLabel(sub) && who in s.claims.primary
                  && Below(s.claims.primary[who], sub) in s.dir.subs
                  && s.dir.subs[Below(s.claims.primary[who], sub)].parent == s.claims.primary[who])
            && (Apply(s, x).Ok? ==> SubnameTaken(s, Step(s, x), Below(s.claims.primary[who], sub)))
  {
    hide CheckLabel, SubnameTaken, Wipe;
    if who in s.claims.primary && Below(s.claims.primary[who], sub) in s.dir.subs {
      DropSubIs(s, Below(s.claims.primary[who], sub));
    }
  }

  /** The holder of an active subname gives it up. */
  lemma ReleaseSubEffect(s: State, who: AccountId, parent: Bytes, sub: Bytes)
    ensures var x, n := Signed(who, ReleaseSubdomain(parent, sub)), Below(Below(Base, parent), sub);
            && (Apply(s, x).Ok? <==>
                  && CheckLabel(parent) && CheckLabel(sub) && n in s.dir.subs
                  && s.dir.subs[n].state == Active && s.dir.subs[n].target == who)
            && (Apply(s, x).Ok? ==> SubnameTaken(s, Step(s, x), n))
  {
    hide CheckLabel, SubnameTaken, Wipe;
    if Below(Below(Base, parent), sub) in s.dir.subs {
      DropSubIs(s, Below(Below(Base, parent), sub));
    }
  }

  // ---------------------------------------------------------------------------------------------
  // Gifts
  // ---------------------------------------------------------------------------------------------

  /** The recipient accepts a gift that has not expired: claim and anchors are theirs, the offer is gone. */
  lemma AcceptGiftEffect(s: State, who: AccountId, name: Bytes)
    ensures var x, n := Signed(who, AcceptOfferedName(name)), Below(Base, name);
            && (Apply(s, x).Ok? <==>
                  && CheckLabel(name) && n in s.claims.offered && s.claims.offered[n].recipient == who
                  && n in s.dir.names && s.sys.env.now < s.dir.names[n].expire && MayReceive(s, who))
            && (Apply(s, x).Ok? ==>
                  var t := Step(s, x);
                  && who in t.claims.primary && t.claims.primary[who] == n && ClaimsBut(s.claims, t.claims, {who})
                  && n !in t.claims.offered && OffersBut(s.claims, t.claims, n)
                  && t.claims.listings == s.claims.listings && ReAnchored(s, t, n, who)
                  && t.sys == s.sys && t.dir == s.dir && t.money == s.money && t.events == s.events)
  {
    hide CheckLabel, FreeReceiver, MayReceive, WriteAnchors, ReAnchored;
    ReceiverExact(s, who);
    AnchorsIs(s, Step(s, Signed(who, AcceptOfferedName(name))), Below(Base, name), who);
  }

  /** The anchors of `n` are written anew and nothing else in the zone changes. */
  ghost predicate ReAnchored(s: State, t: State, n: Node, owner: AccountId) {
    && AnchoredFor(s.sys.env.parentHash, t.zone, n, owner) && t.zone.texts == s.zone.texts
    && (forall k :: k != (n, SS58) && k != (n, ORIGIN) ==> Lookup(t.zone.records, k) == Lookup(s.zone.records, k))
  }

  lemma AnchorsIs(s: State, t: State, n: Node, owner: AccountId)
    ensures t.zone == WriteAnchors(s.zone, n, owner, s.sys.env.parentHash) ==> ReAnchored(s, t, n, owner)
  {
  }

  /** Turning an offer down inside `register`: the recipient of a gift who owns it, or the target of a subname offer. */
  ghost predicate MayTurnDown(s: State, who: AccountId, n: Node) {
    if n in s.claims.offered then
      s.claims.offered[n].recipient == who && n != Base && n in s.dir.names && s.dir.names[n].owner == who
    else Pending(s, who, n)
  }

  /** A gift that is turned down is destroyed, a subname offer is withdrawn. */
  ghost predicate TurnedDown(s: State, t: State, n: Node) {
    if n in s.claims.offered then
      && Destroyed(s, t, n) && n !in t.claims.offered && OffersBut(s.claims, t.claims, n)
      && t.claims.primary == s.claims.primary && t.claims.listings == s.claims.listings
    else
      SubnameTaken(s, t, n)
  }

  lemma RejectOfferIs(s: State, who: AccountId, n: Node)
    ensures RejectOffer(s, who, Some(n)).Ok? <==> MayTurnDown(s, who, n)
    ensures MayTurnDown(s, who, n) ==> TurnedDown(s, RejectOffer(s, who, Some(n)).value, n)
  {
    hide BurnNode, SubnameTaken, Wipe, SubsUnder, NamesBut, SubsClearedBelow, RowsBut, NothingStored, RecordsBut,
      TextsBut;
    if n in s.claims.offered {
      BurnNodeIs(s.(claims := DropOffer(s.claims, n)), who, n);
    } else if n in s.dir.subs {
      DropSubIs(s, n);
    }
  }

  /** Registering with an offer to turn down is turning the offer down and then registering, with the same result; an
      offer that cannot be turned down fails the registration. */
  lemma RegisterRejecting(s: State, who: AccountId, name: Bytes, owner: AccountId, turned: Bytes)
    ensures var x, parsed := Signed(who, Register(name, owner, Some(turned))), ParseNameToNode(turned, Base);
            if parsed.Some? && MayTurnDown(s, who, parsed.value) then
              exists t ::
                && TurnedDown(s, t, parsed.value)
                && Apply(t, Signed(who, Register(name, owner, None))) == Apply(s, x)
            else
              Apply(s, x).Err?
  {
    hide RejectOffer, TurnedDown, MayTurnDown, RegisterNode, ParseNameToNode, CheckLabel;
    var parsed := ParseNameToNode(turned, Base);
    if parsed.Some? {
      RejectOfferIs(s, who, parsed.value);
      if MayTurnDown(s, who, parsed.value) {
        var t := RejectOffer(s, who, parsed).value;
        assert DoRegister(t, who, name == [], Top(name), |Lower(name)|, owner, None)
            == DoRegister(s, who, name == [], Top(name), |Lower(name)|, owner, Some(parsed));
      }
    } else {
      NoOfferToReject(s, who);
    }
  }

  lemma NoOfferToReject(s: State, who: AccountId)
    ensures RejectOffer(s, who, None).Err?
  {
  }

  /** Whoever the owner is and whatever is turned down, the signer of a registration pays exactly the fee it reports. */
  lemma RegistrationPaid(s: State, who: AccountId, name: Bytes, owner: AccountId, reject: Option<Bytes>)
    requires Balanced(s.money) && Apply(s, Signed(who, Register(name, owner, reject))).Ok?
    ensures var t := Step(s, Signed(who, Register(name, owner, reject)));
            exists fee, expire ::
              && t.events == s.events + [NameRegistered(Below(Base, name), owner, expire, fee)]
              && Charged(s.money, t.money, who, fee)
  {
    hide Balanced, Charged, Apply, ParseNameToNode, MayTurnDown, Lower, NamesBut, SubsClearedBelow, RowsBut, SubsBut,
      NothingStored, RecordsBut, TextsBut, SubsUnder;
    if reject == None {
      RegisterEffect(s, who, name, owner);
    } else {
      RegisterRejecting(s, who, name, owner, reject.value);
      var n := ParseNameToNode(reject.value, Base).value;
      var t :| && TurnedDown(s, t, n)
               && Apply(t, Signed(who, Register(name, owner, None)))
                  == Apply(s, Signed(who, Register(name, owner, reject)));
      RegisterEffect(t, who, name, owner);
    }
  }

  // ---------------------------------------------------------------------------------------------
  // Records, the manager and the clock
  // ---------------------------------------------------------------------------------------------

  /** Owns the name that the text names, before it expires. */
  ghost predicate MayEdit(s: State, who: AccountId, name: Bytes) {
    && ParseNameToNode(name, Base).Some? && ParseNameToNode(name, Base).value in s.dir.names
    && s.dir.names[ParseNameToNode(name, Base).value].owner == who
    && s.sys.env.now < s.dir.names[ParseNameToNode(name, Base).value].expire
  }

  /** Everything but the records and texts is as it was. */
  ghost predicate OnlyRecords(s: State, t: State) {
    && t.sys == s.sys && t.dir == s.dir && t.claims == s.claims && t.money == s.money && t.events == s.events
  }

  /** The owner stores any record but the two anchors, and only the one named. */
  lemma SetRecordEffect(s: State, who: AccountId, name: Bytes, kind: RecordType, content: Content)
    ensures var x := Signed(who, SetRecord(name, kind, content));
            && (Apply(s, x).Ok? <==> MayEdit(s, who, name) && kind != SS58 && kind != ORIGIN)
            && (Apply(s, x).Ok? ==>
                  var n, t := ParseNameToNode(name, Base).value, Step(s, x);
                  && Lookup(t.zone.records, (n, kind)) == Some(content)
                  && (forall k :: k != (n, kind) ==> Lookup(t.zone.records, k) == Lookup(s.zone.records, k))
                  && t.zone.texts == s.zone.texts && OnlyRecords(s, t))
  {
    hide ParseNameToNode;
  }

  lemma SetTextEffect(s: State, who: AccountId, name: Bytes, text: TextKind, content: Content)
    ensures var x := Signed(who, SetText(name, text, content));
            && (Apply(s, x).Ok? <==> MayEdit(s, who, name))
            && (Apply(s, x).Ok? ==>
                  var n, t := ParseNameToNode(name, Base).value, Step(s, x);
                  && Lookup(t.zone.texts, (n, text)) == Some(content)
                  && (forall k :: k != (n, text) ==> Lookup(t.zone.texts, k) == Lookup(s.zone.texts, k))
                  && t.zone.records == s.zone.records && OnlyRecords(s, t))
  {
    hide ParseNameToNode;
  }

  /** The manager reserves and frees names and appoints the official account, and nothing else; no account can. */
  lemma ManagerEffect(s: State, call: Call, who: AccountId)
    ensures Apply(s, Root(call)).Ok? <==>
              || (call.AddReserved? && CheckLabel(call.name)) || (call.RemoveReserved? && CheckLabel(call.name))
              || call.SetOfficial?
    ensures call.AddReserved? || call.RemoveReserved? || call.SetOfficial? ==>
              Apply(s, Signed(who, call)) == Err(BadOrigin)
    ensures Apply(s, Root(call)).Ok? ==>
              var t := Step(s, Root(call));
              && t.(sys := s.sys) == s && t.sys.cfg == s.sys.cfg && t.sys.env == s.sys.env
              && (t.sys.official == if call.SetOfficial? then call.official else s.sys.official)
              && (forall n :: n in t.sys.reserved <==>
                                || (call.AddReserved? && n == Below(Base, call.name))
                                || (n in s.sys.reserved && !(call.RemoveReserved? && n == Below(Base, call.name))))
  {
    hide CheckLabel, ParseNameToNode;
  }

  /** A block moves the clock forward and changes nothing else; a call that fails changes nothing. */
  lemma BlockEffect(s: State, env: Env, x: Extrinsic)
    ensures Apply(s, NewBlock(env)).Ok? <==> s.sys.env.now <= env.now
    ensures Apply(s, NewBlock(env)).Ok? ==>
              var t := Step(s, NewBlock(env));
              t.sys.env == env && t.(sys := s.sys) == s && t.sys.(env := s.sys.env) == s.sys
    ensures Apply(s, x).Err? ==> Step(s, x) == s
  {
    hide Perform, ApplyRoot;
  }
}
