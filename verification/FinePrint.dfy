/** Rules that the documentation states one way and the code another, each with the exact condition under which the
    code keeps it. */
module FinePrint {
  import opened Types
  import opened NameParsing
  import opened Currency
  import opened NameService
  import opened AllRuns
  import opened Ownership
  import opened LockOut

  // ---------------------------------------------------------------------------------------------
  // The target of a subname offer holds no name: checked when the offer is accepted
  // ---------------------------------------------------------------------------------------------

  ghost predicate ActiveFor(d: Directory, n: Node, t: AccountId) {
    n in d.subs && d.subs[n].state == Active && d.subs[n].target == t
  }

  /** The target of a pending offer below an unexpired name can accept it if and only if it may receive a name. */
  lemma AcceptExact(s: State, t: AccountId, n: Node)
    requires PendingOffer(s.dir, n, t).Ok?
    requires n.Child? && n.parent in s.dir.names && s.sys.env.now < s.dir.names[n.parent].expire
    ensures DoAccept(s, t, Some(n)).Ok? <==> FreeReceiver(s, t).Pass?
  {
    hide BlockedByRow, HasValidName;
  }

  /** The offer itself does not ask: it succeeds or fails whatever its target holds. */
  lemma OfferExact(s: State, a: AccountId, lab: Bytes, spelling: Bytes, t: AccountId)
    requires s.sys.cfg.open && a in s.claims.primary && s.claims.primary[a] in s.dir.names
    ensures var p := s.claims.primary[a];
            DoOffer(s, a, Some(lab), spelling, t).Ok? <==>
              && s.sys.env.now < s.dir.names[p].expire
              && t != s.dir.names[p].owner
              && Child(p, lab) !in s.dir.subs
              && |SubsUnder(s.dir.subs, p)| < s.dir.names[p].capacity
  {
    hide SubsUnder;
  }

  lemma RegisterActivates(s: State, who: AccountId, act: Action, n: Node, t: AccountId)
    requires act.ARegister? && Perform(s, who, act).Ok? && ActiveFor(Perform(s, who, act).value.dir, n, t)
    ensures ActiveFor(s.dir, n, t)
  {
    hide FreeReceiver, Wipe, Withdraw, RegistrationFee, SubsUnder, FreshName, RegisterZone, RegisterClaims, Live;
  }

  lemma BuyActivates(s: State, who: AccountId, top: Option<Node>, recipient: Option<AccountId>, n: Node, t: AccountId)
    requires DoBuy(s, who, top, recipient).Ok? && ActiveFor(DoBuy(s, who, top, recipient).value.dir, n, t)
    ensures ActiveFor(s.dir, n, t)
  {
    hide FreeReceiver, Settle, ProtocolFee, Wipe, SubsUnder, WriteAnchors, KeepSs58, SetPrimary, DropPrimary,
      ForgetPrimary;
  }

  lemma PerformActivates(s: State, who: AccountId, act: Action, n: Node, t: AccountId)
    requires Perform(s, who, act).Ok? && ActiveFor(Perform(s, who, act).value.dir, n, t) && !ActiveFor(s.dir, n, t)
    ensures who == t && act == AAccept(Some(n)) && FreeReceiver(s, t).Pass?
  {
    hide DoRegister, DoBuy, Wipe, BlockedByRow, HasValidName, Withdraw, RegistrationFee, SubsUnder, PutRecord,
      WriteAnchors, KeepSs58, SetPrimary, DropPrimary, ForgetPrimary, Live;
    if act.ARegister? {
      RegisterActivates(s, who, act, n, t);
    } else if act.ABuy? {
      BuyActivates(s, who, act.top, act.recipient, n, t);
    }
  }

  /** A step in which `t` accepts the subname `n` while it may receive a name. */
  ghost predicate AcceptedFreely(s: State, x: Extrinsic, n: Node, t: AccountId) {
    x.Signed? && x.who == t && Resolve(x.call) == AAccept(Some(n)) && FreeReceiver(s, t).Pass?
  }

  /** Whoever comes to hold a subname in the course of a run, offered at whatever time, held no name of any kind at
      the step that made the subname active. */
  lemma {:induction false} ActivationChecked(s: State, xs: seq<Extrinsic>, n: Node, t: AccountId)
    requires !ActiveFor(s.dir, n, t) && ActiveFor(Run(s, xs).dir, n, t)
    ensures exists i :: 0 <= i < |xs| && AcceptedFreely(Run(s, xs[..i]), xs[i], n, t)
    decreases |xs|
  {
    hide Perform, Resolve, Top, FreeReceiver, ActiveFor;
    if xs != [] {
      var k := |xs| - 1;
      var s1, x := Run(s, xs[..k]), xs[k];
      if ActiveFor(s1.dir, n, t) {
        ActivationChecked(s, xs[..k], n, t);
        var i :| 0 <= i < k && AcceptedFreely(Run(s, xs[..k][..i]), xs[..k][i], n, t);
        assert xs[..k][..i] == xs[..i] && xs[..k][i] == xs[i];
      } else {
        SameDirectory(s1, x);
        PerformActivates(s1, x.who, Resolve(x.call), n, t);
        assert AcceptedFreely(Run(s, xs[..k]), xs[k], n, t);
      }
    }
  }

  /** Only a signed call that succeeds changes the directory. */
  lemma SameDirectory(s: State, x: Extrinsic)
    ensures Step(s, x).dir == s.dir || (x.Signed? && Apply(s, x).Ok?)
  {
    hide Perform, Resolve, Top;
  }

  // ---------------------------------------------------------------------------------------------
  // Losing a subname
  // ---------------------------------------------------------------------------------------------

  /** A signed call that may take an active subname from its holder: the holder releases it, the claimant of the parent
      revokes it, or the parent itself is taken from its owner. */
  ghost predicate MayTake(s: State, who: AccountId, act: Action, n: Node, t: AccountId) {
    || (who == t && act == AReleaseSub(Some(n)))
    || (n.Child? && who in s.claims.primary && s.claims.primary[who] == n.parent && act == ARevoke(Some(n.lab)))
    || (n.Child? && n.parent in s.dir.names && Authorised(s, who, act, n.parent))
  }

  lemma RegisterTakes(s: State, who: AccountId, act: Action, n: Node, t: AccountId)
    requires WellShaped(s.dir) && act.ARegister? && Perform(s, who, act).Ok? && ActiveFor(s.dir, n, t)
    ensures ActiveFor(Perform(s, who, act).value.dir, n, t) || MayTake(s, who, act, n, t)
  {
    hide FreeReceiver, Wipe, Withdraw, RegistrationFee, SubsUnder, FreshName, RegisterZone, RegisterClaims;
  }

  lemma BuyTakes(s: State, who: AccountId, top: Option<Node>, recipient: Option<AccountId>, n: Node, t: AccountId)
    requires WellShaped(s.dir) && DoBuy(s, who, top, recipient).Ok? && ActiveFor(s.dir, n, t)
    ensures ActiveFor(DoBuy(s, who, top, recipient).value.dir, n, t) || MayTake(s, who, ABuy(top, recipient), n, t)
  {
    hide FreeReceiver, Settle, ProtocolFee, Wipe, SubsUnder, WriteAnchors, KeepSs58, SetPrimary, DropPrimary,
      ForgetPrimary;
  }

  lemma PerformTakes(s: State, who: AccountId, act: Action, n: Node, t: AccountId)
    requires WellShaped(s.dir) && Perform(s, who, act).Ok? && ActiveFor(s.dir, n, t)
    ensures ActiveFor(Perform(s, who, act).value.dir, n, t) || MayTake(s, who, act, n, t)
  {
    hide DoRegister, DoBuy, FreeReceiver, Wipe, BlockedByRow, HasValidName, Withdraw, RegistrationFee, SubsUnder,
      PutRecord, WriteAnchors, KeepSs58, SetPrimary, DropPrimary, ForgetPrimary;
    if act.ARegister? {
      RegisterTakes(s, who, act, n, t);
    } else if act.ABuy? {
      BuyTakes(s, who, act.top, act.recipient, n, t);
    }
  }

  ghost predicate TakingStep(s: State, x: Extrinsic, n: Node, t: AccountId) {
    x.Signed? && Apply(s, x).Ok? && MayTake(s, x.who, Resolve(x.call), n, t)
  }

  /** If after any run an account no longer holds a subname that it held, then at some step it still held it and the step
      was one that may take it. */
  lemma {:induction false} RunSubnames(s: State, xs: seq<Extrinsic>, n: Node, t: AccountId)
    requires Core(s) && ActiveFor(s.dir, n, t) && !ActiveFor(Run(s, xs).dir, n, t)
    ensures exists i :: 0 <= i < |xs| && ActiveFor(Run(s, xs[..i]).dir, n, t)
                        && TakingStep(Run(s, xs[..i]), xs[i], n, t)
    decreases |xs|
  {
    hide Perform, Resolve, Top, ActiveFor, MayTake, WellShaped, OneSubnameEach, WithinCapacity, NoStacking, Recorded,
      Balanced;
    if xs != [] {
      var k := |xs| - 1;
      var s1, x := Run(s, xs[..k]), xs[k];
      if ActiveFor(s1.dir, n, t) {
        RunCore(s, xs[..k]);
        SameDirectory(s1, x);
        PerformTakes(s1, x.who, Resolve(x.call), n, t);
        assert TakingStep(Run(s, xs[..k]), xs[k], n, t);
      } else {
        RunSubnames(s, xs[..k], n, t);
        var i :| 0 <= i < k && ActiveFor(Run(s, xs[..k][..i]).dir, n, t)
                 && TakingStep(Run(s, xs[..k][..i]), xs[..k][i], n, t);
        assert xs[..k][..i] == xs[..i] && xs[..k][i] == xs[i];
      }
    }
  }

  // ---------------------------------------------------------------------------------------------
  // Old listings
  // ---------------------------------------------------------------------------------------------

  ghost predicate ListedAs(s: State, n: Node, l: Listing) {
    n in s.claims.listings && s.claims.listings[n] == l
  }

  /** A listing, however old, is open to a buyer if and only if it has not expired, the buyer is not the seller, and the
      seller owns the name now. */
  lemma OpenExact(s: State, buyer: AccountId, n: Node, l: Listing)
    requires ListedAs(s, n, l)
    ensures OpenListing(s, buyer, n) == Ok(l)
            <==> buyer != l.seller && s.sys.env.now < l.expiresAt && Owns(s.dir, n, l.seller)
  {
  }

  /** A call that ends a listing: the claimant of the name cancels it, or somebody buys it. */
  ghost predicate Delists(s: State, who: AccountId, act: Action, n: Node) {
    || (act.ACancel? && who in s.claims.primary && s.claims.primary[who] == n)
    || (act.ABuy? && act.top == Some(n))
  }

  lemma RegisterKeepsListings(s: State, who: AccountId, act: Action)
    requires act.ARegister? && Perform(s, who, act).Ok?
    ensures Perform(s, who, act).value.claims.listings == s.claims.listings
  {
    hide FreeReceiver, Wipe, Withdraw, RegistrationFee, SubsUnder, Mint, Remove, DropSub, RegisterZone, FreshName, Live;
  }

  lemma BuyKeepsListings(s: State, who: AccountId, top: Option<Node>, recipient: Option<AccountId>)
    requires DoBuy(s, who, top, recipient).Ok?
    ensures top.Some?
    ensures DoBuy(s, who, top, recipient).value.claims.listings == s.claims.listings - {top.value}
  {
    hide FreeReceiver, Settle, ProtocolFee, TransferNode;
  }

  lemma PerformListings(s: State, who: AccountId, act: Action, n: Node, l: Listing)
    requires Perform(s, who, act).Ok? && ListedAs(s, n, l)
    ensures ListedAs(Perform(s, who, act).value, n, l) || Delists(s, who, act, n)
  {
    hide DoRegister, DoBuy, FreeReceiver, Wipe, BlockedByRow, HasValidName, Withdraw, RegistrationFee, SubsUnder,
      PutRecord, WriteAnchors, KeepSs58, Remove, SetOwner, Live;
    if act.ARegister? {
      RegisterKeepsListings(s, who, act);
    } else if act.ABuy? {
      BuyKeepsListings(s, who, act.top, act.recipient);
    }
  }

  ghost predicate DelistingStep(s: State, x: Extrinsic, n: Node) {
    x.Signed? && Apply(s, x).Ok? && Delists(s, x.who, Resolve(x.call), n)
  }

  /** Nothing but a cancellation and a purchase ends a listing: not the transfer, release, burn, lapse or new registration
      of the name. So it can be bought again whenever the seller comes to own the name again before it expires. */
  lemma {:induction false} RunListings(s: State, xs: seq<Extrinsic>, n: Node, l: Listing)
    requires ListedAs(s, n, l) && !ListedAs(Run(s, xs), n, l)
    ensures exists i :: 0 <= i < |xs| && ListedAs(Run(s, xs[..i]), n, l) && DelistingStep(Run(s, xs[..i]), xs[i], n)
    decreases |xs|
  {
    hide Perform, Resolve, Top, Delists;
    if xs != [] {
      var k := |xs| - 1;
      var s1, x := Run(s, xs[..k]), xs[k];
      if ListedAs(s1, n, l) {
        if x.Signed? && Apply(s1, x).Ok? {
          PerformListings(s1, x.who, Resolve(x.call), n, l);
        }
        assert DelistingStep(Run(s, xs[..k]), xs[k], n);
      } else {
        RunListings(s, xs[..k], n, l);
        var i :| 0 <= i < k && ListedAs(Run(s, xs[..k][..i]), n, l)
                 && DelistingStep(Run(s, xs[..k][..i]), xs[..k][i], n);
        assert xs[..k][..i] == xs[..i] && xs[..k][i] == xs[i];
      }
    }
  }

  // ---------------------------------------------------------------------------------------------
  // The instant at which the grace period ends
  // ---------------------------------------------------------------------------------------------

  /** Renewal is open up to and including the end of the grace period, transfer only before it, and the name can be
      registered anew only after it. So they differ exactly at that instant, when a name can be renewed and neither
      transferred nor registered. */
  lemma GraceEndExact(s: State, a: AccountId, to: AccountId)
    requires s.sys.cfg.open && a in s.claims.primary && s.claims.primary[a] in s.dir.names
    ensures var end := s.dir.names[s.claims.primary[a]].expire + s.sys.cfg.grace;
            && (DoRenew(s, a) == Err(NotRenewable) <==> s.sys.env.now > end)
            && (DoTransfer(s, a, to) == Err(NotOwned) <==> s.sys.env.now >= end)
            && (DoTransfer(s, a, to) == Err(NotOwned) && DoRenew(s, a) != Err(NotRenewable) <==> s.sys.env.now == end)
  {
    hide RegistrationFee, BlockedByRow, HasValidName, Wipe, SubsUnder, KeepSs58, WriteAnchors, SetOwner;
  }

  /** The other side: a registration that nothing else stands against is refused as occupied up to and including the
      end of the grace period. */
  lemma RegisterAfterGrace(s: State, caller: AccountId, n: Node, labelLen: nat, owner: AccountId)
    requires n in s.dir.names && n !in s.sys.reserved && owner != s.sys.official && FreeReceiver(s, owner).Pass?
    requires s.sys.env.now + s.sys.cfg.maxDuration <= MAX_U64
    requires RegistrationFee(s.sys.env.prices, labelLen).Some?
    ensures RegisterNode(s, caller, n, labelLen, owner) == Err(Occupied)
            <==> s.sys.env.now <= s.dir.names[n].expire + s.sys.cfg.grace
  {
    hide RegistrationFee, FreeReceiver, Mint, RegisterClaims, RegisterZone;
  }

  // ---------------------------------------------------------------------------------------------
  // Burning and releasing a name that has subnames
  // ---------------------------------------------------------------------------------------------

  /** The subnames of a name and nothing else are gone. */
  ghost predicate OnlySubsGone(d: Directory, d': Directory, n: Node) {
    && (forall m :: m in d'.subs <==> m in d.subs && m !in SubsUnder(d.subs, n))
    && (forall m :: m in d'.subs ==> d'.subs[m] == d.subs[m])
    && d'.names == d.names - {n}
  }

  /** The owner's burn and the release of a claimed name succeed whatever subnames there are, and take exactly those
      away. */
  lemma BurnTakesSubnames(s: State, a: AccountId, n: Node)
    requires n in s.dir.names && n != Base
    ensures DoBurn(s, a, Some(n)).Ok? <==> s.dir.names[n].owner == a
    ensures s.dir.names[n].owner == a ==> OnlySubsGone(s.dir, DoBurn(s, a, Some(n)).value.dir, n)
    ensures a in s.claims.primary && s.claims.primary[a] == n ==>
              (DoReleaseName(s, a).Ok? <==> s.dir.names[n].owner == a)
    ensures a in s.claims.primary && s.claims.primary[a] == n && s.dir.names[n].owner == a ==>
              OnlySubsGone(s.dir, DoReleaseName(s, a).value.dir, n)
  {
    hide Wipe;
  }

  // ---------------------------------------------------------------------------------------------
  // Buying a gift
  // ---------------------------------------------------------------------------------------------

  /** Whether a buyer holds a name plays no part when the name is bought for somebody else: an open listing that is paid
      for is delivered if and only if the one who is to own the name may receive it, the grace period has not ended, and,
      for a gift, the recipient is neither buyer nor seller and the name is not already a pending gift. */
  lemma BuyExact(s: State, buyer: AccountId, n: Node, l: Listing, recipient: Option<AccountId>)
    requires OpenListing(s, buyer, n) == Ok(l) && Settle(s, buyer, l).Ok? && n != Base
    ensures var receiver := if recipient.Some? then recipient.value else buyer;
            DoBuy(s, buyer, Some(n), recipient).Ok? <==>
              && FreeReceiver(s, receiver).Pass?
              && s.sys.env.now < s.dir.names[n].expire + s.sys.cfg.grace
              && (recipient.Some? ==> receiver != buyer && receiver != l.seller && n !in s.claims.offered)
  {
    hide Settle, ProtocolFee, BlockedByRow, Wipe, SubsUnder, KeepSs58, WriteAnchors, SetOwner, SetPrimary, DropPrimary,
      ForgetPrimary;
    var s1 := s.(claims := s.claims.(listings := s.claims.listings - {n}));
    var receiver := if recipient.Some? then recipient.value else buyer;
    assert HasValidName(s1, receiver) == HasValidName(s, receiver);
  }

  // ---------------------------------------------------------------------------------------------
  // What a renewal and a transfer record
  // ---------------------------------------------------------------------------------------------

  /** A renewal changes the expiry of the name and nothing else about it: the block recorded with it stays that of the
      registration, so it is the current block if and only if it was before. */
  lemma RenewOnlyExpiry(s: State, a: AccountId)
    requires DoRenew(s, a).Ok?
    ensures var n, t := s.claims.primary[a], DoRenew(s, a).value;
            && t.dir.names.Keys == s.dir.names.Keys && t.dir.subs == s.dir.subs && t.dir.held == s.dir.held
            && t.claims == s.claims && t.zone == s.zone
            && (forall m :: m in s.dir.names && m != n ==> t.dir.names[m] == s.dir.names[m])
            && t.dir.names[n].(expire := s.dir.names[n].expire) == s.dir.names[n]
            && (t.dir.names[n].lastBlock == s.sys.env.block <==> s.dir.names[n].lastBlock == s.sys.env.block)
  {
    hide Withdraw, RegistrationFee;
  }

  /** A transfer writes the block hash record anew, and leaves the texts of the name as they were. */
  lemma TransferRewrites(s: State, from: AccountId, to: AccountId, n: Node)
    requires TransferNode(s, from, to, n).Ok? && WellShaped(s.dir)
    ensures var z := TransferNode(s, from, to, n).value.zone;
            && (n, ORIGIN) in z.records && z.records[(n, ORIGIN)] == HashBytes(s.sys.env.parentHash)
            && forall kind :: ((n, kind) in z.texts <==> (n, kind) in s.zone.texts)
                              && ((n, kind) in z.texts ==> z.texts[(n, kind)] == s.zone.texts[(n, kind)])
  {
  }

  // ---------------------------------------------------------------------------------------------
  // Reserved names and short names
  // ---------------------------------------------------------------------------------------------

  lemma ReservedRefused(s: State, who: AccountId, act: Action, n: Node)
    requires act.ARegister? && act.top == Some(n) && n in s.sys.reserved
    ensures Perform(s, who, act).Err?
  {
    hide RejectOffer, FreeReceiver, Withdraw, RegistrationFee, Mint, RegisterClaims, RegisterZone, Live;
    if act.reject.Some? && RejectOffer(s, who, act.reject.value).Ok? {
      RejectOfferSystem(s, who, act.reject.value);
    }
  }

  /** A name that is not registered and stays reserved all through a run is not registered by it. A name that was
      registered before it was reserved is not affected. */
  lemma {:induction false} RunReserved(s: State, xs: seq<Extrinsic>, n: Node)
    requires n !in s.dir.names
    requires forall i :: 0 <= i < |xs| ==> n in Run(s, xs[..i]).sys.reserved
    ensures n !in Run(s, xs).dir.names
    decreases |xs|
  {
    hide Perform, Resolve, Top;
    if xs != [] {
      var k := |xs| - 1;
      forall i | 0 <= i < k ensures n in Run(s, xs[..k][..i]).sys.reserved {
        assert xs[..k][..i] == xs[..i];
      }
      RunReserved(s, xs[..k], n);
      var s1, x := Run(s, xs[..k]), xs[k];
      SameDirectory(s1, x);
      if x.Signed? && Apply(s1, x).Ok? && n in Step(s1, x).dir.names {
        var act := Resolve(x.call);
        PerformAddsTop(s1, x.who, act, n);
        ReservedRefused(s1, x.who, act, n);
      }
    }
  }

  /** No name is too short: a registration is refused for the length of its label if and only if there is no label. */
  lemma TooShortExact(s: State, who: AccountId, name: Bytes, owner: AccountId)
    ensures Apply(s, Signed(who, Register(name, owner, None))) == Err(LabelInvalid) <==> name == []
  {
    hide FreeReceiver, RegistrationFee, Mint, RegisterClaims, RegisterZone, Live, ParseNameToNode;
    assert FreeReceiver(s, owner) != Fail(LabelInvalid) by {
      ReceiverErrors(s, owner);
    }
  }

  lemma ReceiverErrors(s: State, a: AccountId)
    ensures FreeReceiver(s, a) in {Pass, Fail(AlreadyHasCanonicalName), Fail(AlreadyHoldsSubdomain)}
  {
  }

  // ---------------------------------------------------------------------------------------------
  // Names of subnames given to the record and burn calls
  // ---------------------------------------------------------------------------------------------

  lemma DottedIsNoName(s: State, name: Bytes)
    requires WellShaped(s.dir) && DOT in name
    ensures ParseNameToNode(name, Base).Some? ==> ParseNameToNode(name, Base).value !in s.dir.names
    ensures ParseNameToNode(name, Base) != Some(Base)
  {
    hide HashLabel;
  }

  /** The calls that write records or texts and the bare burn take the name of a subname, and refuse it from everyone: a
      subname has no token, so nobody owns it. */
  lemma DottedRefused(s: State, who: AccountId, name: Bytes, kind: RecordType, text: TextKind, content: Content)
    requires WellShaped(s.dir) && DOT in name
    ensures Apply(s, Signed(who, SetRecord(name, kind, content))).Err?
    ensures Apply(s, Signed(who, SetText(name, text, content))).Err?
    ensures Apply(s, Signed(who, Burn(name))).Err?
  {
    hide WellShaped, ParseNameToNode;
    DottedIsNoName(s, name);
  }
}
