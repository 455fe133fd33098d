/** Facts that hold after every run of the name service, whatever the extrinsics. */
module AllRuns {
  import opened Types
  import opened Labels
  import opened NameParsing
  import opened Currency
  import opened NameService

  /** Names sit directly under the base; a subname record sits one level below its registered parent and is
      never addressed to the owner of that parent. */
  ghost predicate WellShaped(d: Directory) {
    && (forall n :: n in d.names ==> IsTop(n))
    && (forall n :: n in d.subs ==>
          && n.Child?
          && n.parent == d.subs[n].parent
          && n.parent in d.names
          && d.subs[n].target != d.names[n.parent].owner)
  }

  /** No account holds two subnames. */
  ghost predicate OneSubnameEach(d: Directory) {
    forall n, m ::
      n in d.subs && m in d.subs && d.subs[n].state == Active && d.subs[m].state == Active
      && d.subs[n].target == d.subs[m].target
      ==> n == m
  }

  ghost predicate WithinCapacity(d: Directory) {
    forall n :: n in d.names ==> |SubsUnder(d.subs, n)| <= d.names[n].capacity
  }

  /** No registration reaches further than one full period from now. */
  ghost predicate NoStacking(y: System, d: Directory) {
    forall n :: n in d.names ==> d.names[n].expire <= y.env.now + y.cfg.maxDuration
  }

  /** Only registered names have records and texts, save that an active subname may have one record, the
      account that holds it. */
  ghost predicate NoStrayRecords(d: Directory, z: Zone) {
    && (forall k :: k in z.records && k.0 !in d.names ==>
          && k.1 == SS58
          && k.0 in d.subs
          && d.subs[k.0].state == Active
          && z.records[k] == AccountBytes(d.subs[k.0].target))
    && (forall k :: k in z.texts ==> k.0 in d.names)
  }

  /** The two records that the chain writes for a name: an account and a block hash. */
  ghost predicate HasAnchors(z: Zone, n: Node) {
    && (n, SS58) in z.records && z.records[(n, SS58)].AccountBytes?
    && (n, ORIGIN) in z.records && z.records[(n, ORIGIN)].HashBytes?
  }

  /** Every name has its two anchor records and every active subname its owner record. */
  ghost predicate Anchored(d: Directory, z: Zone) {
    && (forall n :: n in d.subs && d.subs[n].state == Active ==> (n, SS58) in z.records)
    && (forall n :: n in d.names ==> HasAnchors(z, n))
  }

  /** An active subname has exactly one record, a pending or rejected one has none, and nothing that is not
      registered has any. */
  ghost predicate Recorded(d: Directory, z: Zone) {
    NoStrayRecords(d, z) && Anchored(d, z)
  }

  // Size of the set of subnames

  lemma FewerSubs(d: Directory, d': Directory)
    requires WithinCapacity(d)
    requires forall n :: n in d'.subs ==> n in d.subs && d'.subs[n].parent == d.subs[n].parent
    requires forall n :: n in d'.names ==> n in d.names && d'.names[n].capacity == d.names[n].capacity
    ensures WithinCapacity(d')
  {
    forall n | n in d'.names ensures |SubsUnder(d'.subs, n)| <= d'.names[n].capacity {
      SubsetSize(SubsUnder(d'.subs, n), SubsUnder(d.subs, n));
    }
  }

  // The directory

  ghost predicate DirectoryOk(d: Directory) {
    WellShaped(d) && OneSubnameEach(d) && WithinCapacity(d)
  }

  lemma RemoveOk(d: Directory, node: Node)
    requires DirectoryOk(d) && node in d.names
    ensures DirectoryOk(Remove(d, node))
  {
    FewerSubs(d, Remove(d, node));
  }

  lemma SetOwnerOk(d: Directory, node: Node, to: AccountId)
    requires DirectoryOk(d) && node in d.names
    ensures DirectoryOk(SetOwner(d, node, to))
  {
    FewerSubs(d, SetOwner(d, node, to));
  }

  lemma MintOk(d: Directory, node: Node, name: Name)
    requires DirectoryOk(d) && IsTop(node)
    requires node in d.names ==> name.capacity == d.names[node].capacity
    ensures DirectoryOk(Mint(d, node, name))
  {
    if node in d.names {
      FewerSubs(d, Mint(d, node, name));
    } else {
      assert SubsUnder(d.subs, node) == {};
    }
  }

  lemma SetExpireOk(d: Directory, node: Node, expire: nat)
    requires DirectoryOk(d) && node in d.names
    ensures DirectoryOk(SetExpire(d, node, expire))
  {
    FewerSubs(d, SetExpire(d, node, expire));
  }

  lemma OneMoreSub(subs: map<Node, SubnameRecord>, node: Node, r: SubnameRecord, n: Node)
    requires node !in subs
    ensures SubsUnder(subs[node := r], n) == SubsUnder(subs, n) + if n == r.parent then {node} else {}
    ensures |SubsUnder(subs[node := r], n)| == |SubsUnder(subs, n)| + if n == r.parent then 1 else 0
  {
    if n == r.parent {
      assert SubsUnder(subs[node := r], n) == SubsUnder(subs, n) + {node};
    } else {
      assert SubsUnder(subs[node := r], n) == SubsUnder(subs, n);
    }
  }

  lemma OfferWithinCapacity(d: Directory, node: Node, r: SubnameRecord)
    requires WithinCapacity(d) && node !in d.subs && r.parent in d.names
    requires |SubsUnder(d.subs, r.parent)| < d.names[r.parent].capacity
    ensures WithinCapacity(PutSub(d, node, r))
  {
    hide SubsUnder;
    var d' := PutSub(d, node, r);
    forall n | n in d'.names ensures |SubsUnder(d'.subs, n)| <= d'.names[n].capacity {
      OneMoreSub(d.subs, node, r, n);
    }
  }

  /** A record that is not active, or is the only active one of its target, keeps subnames unique. */
  lemma PutSubUnique(d: Directory, node: Node, r: SubnameRecord)
    requires OneSubnameEach(d)
    requires r.state == Active ==> !HoldsActiveSubname(d, r.target)
    ensures OneSubnameEach(PutSub(d, node, r))
  {
  }

  lemma OfferOk(d: Directory, node: Node, r: SubnameRecord)
    requires DirectoryOk(d) && node !in d.subs
    requires node.Child? && node.parent == r.parent && r.parent in d.names && r.target != d.names[r.parent].owner
    requires r.state == Offered && |SubsUnder(d.subs, r.parent)| < d.names[r.parent].capacity
    ensures DirectoryOk(PutSub(d, node, r))
  {
    hide OneSubnameEach, WithinCapacity;
    PutSubUnique(d, node, r);
    OfferWithinCapacity(d, node, r);
  }

  lemma SetStateOk(d: Directory, node: Node, state: SubnameState)
    requires DirectoryOk(d) && node in d.subs
    requires state == Active ==> !HoldsActiveSubname(d, d.subs[node].target)
    ensures DirectoryOk(PutSub(d, node, d.subs[node].(state := state)))
  {
    hide OneSubnameEach, WithinCapacity;
    PutSubUnique(d, node, d.subs[node].(state := state));
    FewerSubs(d, PutSub(d, node, d.subs[node].(state := state)));
  }

  lemma DropSubOk(d: Directory, node: Node)
    requires DirectoryOk(d)
    ensures DirectoryOk(DropSub(d, node))
  {
    FewerSubs(d, DropSub(d, node));
  }

  // The records

  lemma RemoveNoStray(d: Directory, z: Zone, node: Node)
    requires NoStrayRecords(d, z) && node in d.names
    ensures NoStrayRecords(Remove(d, node), Wipe(z, SubsUnder(d.subs, node) + {node}))
  {
  }

  lemma RemoveAnchored(d: Directory, z: Zone, node: Node)
    requires WellShaped(d) && Anchored(d, z) && node in d.names
    ensures Anchored(Remove(d, node), Wipe(z, SubsUnder(d.subs, node) + {node}))
  {
  }

  lemma RemoveRecorded(d: Directory, z: Zone, node: Node)
    requires WellShaped(d) && Recorded(d, z) && node in d.names
    ensures Recorded(Remove(d, node), Wipe(z, SubsUnder(d.subs, node) + {node}))
  {
    hide NoStrayRecords, Anchored, WellShaped, Wipe, SubsUnder;
    RemoveNoStray(d, z, node);
    RemoveAnchored(d, z, node);
  }

  lemma AnchorsRecorded(d: Directory, z: Zone, node: Node, owner: AccountId, hash: int)
    requires Recorded(d, z) && node in d.names
    ensures Recorded(d, WriteAnchors(z, node, owner, hash))
  {
  }

  lemma SetOwnerNoStray(d: Directory, z: Zone, node: Node, to: AccountId, hash: int)
    requires NoStrayRecords(d, z) && node in d.names
    ensures NoStrayRecords(SetOwner(d, node, to),
                           WriteAnchors(KeepSs58(Wipe(z, SubsUnder(d.subs, node)), node), node, to, hash))
  {
  }

  lemma SetOwnerAnchored(d: Directory, z: Zone, node: Node, to: AccountId, hash: int)
    requires WellShaped(d) && Anchored(d, z) && node in d.names
    ensures Anchored(SetOwner(d, node, to),
                     WriteAnchors(KeepSs58(Wipe(z, SubsUnder(d.subs, node)), node), node, to, hash))
  {
  }

  lemma SetOwnerRecorded(d: Directory, z: Zone, node: Node, to: AccountId, hash: int)
    requires WellShaped(d) && Recorded(d, z) && node in d.names
    ensures Recorded(SetOwner(d, node, to),
                     WriteAnchors(KeepSs58(Wipe(z, SubsUnder(d.subs, node)), node), node, to, hash))
  {
    hide NoStrayRecords, Anchored, WellShaped;
    SetOwnerNoStray(d, z, node, to, hash);
    SetOwnerAnchored(d, z, node, to, hash);
  }

  lemma MintNoStray(d: Directory, z: Zone, node: Node, name: Name, hash: int)
    requires NoStrayRecords(d, z)
    ensures NoStrayRecords(Mint(d, node, name), WriteAnchors(Vacate(d, z, node), node, name.owner, hash))
  {
  }

  lemma MintAnchored(d: Directory, z: Zone, node: Node, name: Name, hash: int)
    requires WellShaped(d) && Anchored(d, z) && IsTop(node)
    ensures Anchored(Mint(d, node, name), WriteAnchors(Vacate(d, z, node), node, name.owner, hash))
  {
  }

  lemma MintRecorded(d: Directory, z: Zone, node: Node, name: Name, hash: int)
    requires WellShaped(d) && Recorded(d, z) && IsTop(node)
    ensures Recorded(Mint(d, node, name), WriteAnchors(Vacate(d, z, node), node, name.owner, hash))
  {
    hide NoStrayRecords, Anchored, WellShaped, Mint, Vacate, WriteAnchors;
    MintNoStray(d, z, node, name, hash);
    MintAnchored(d, z, node, name, hash);
  }

  lemma SetExpireRecorded(d: Directory, z: Zone, node: Node, expire: nat)
    requires Recorded(d, z) && node in d.names
    ensures Recorded(SetExpire(d, node, expire), z)
  {
  }

  lemma PutSubNoStacking(y: System, d: Directory, node: Node, r: SubnameRecord)
    requires NoStacking(y, d)
    ensures NoStacking(y, PutSub(d, node, r))
  {
  }

  lemma OfferRecorded(d: Directory, z: Zone, node: Node, r: SubnameRecord)
    requires Recorded(d, z) && node !in d.subs && r.state == Offered
    ensures Recorded(PutSub(d, node, r), z)
  {
  }

  lemma AcceptRecorded(d: Directory, z: Zone, node: Node)
    requires WellShaped(d) && Recorded(d, z) && node in d.subs && d.subs[node].state == Offered
    ensures Recorded(PutSub(d, node, d.subs[node].(state := Active)),
                     PutRecord(z, node, SS58, AccountBytes(d.subs[node].target)))
  {
  }

  lemma RejectRecorded(d: Directory, z: Zone, node: Node)
    requires Recorded(d, z) && node in d.subs && d.subs[node].state == Offered
    ensures Recorded(PutSub(d, node, d.subs[node].(state := Rejected)), z)
  {
  }

  lemma DropSubNoStray(d: Directory, z: Zone, node: Node)
    requires WellShaped(d) && NoStrayRecords(d, z) && node in d.subs
    ensures NoStrayRecords(DropSub(d, node), if d.subs[node].state == Active then Wipe(z, {node}) else z)
  {
  }

  lemma DropSubAnchored(d: Directory, z: Zone, node: Node)
    requires WellShaped(d) && Anchored(d, z) && node in d.subs
    ensures Anchored(DropSub(d, node), if d.subs[node].state == Active then Wipe(z, {node}) else z)
  {
  }

  lemma DropSubRecorded(d: Directory, z: Zone, node: Node)
    requires WellShaped(d) && Recorded(d, z) && node in d.subs
    ensures Recorded(DropSub(d, node), if d.subs[node].state == Active then Wipe(z, {node}) else z)
  {
    hide NoStrayRecords, Anchored, WellShaped, Wipe;
    DropSubNoStray(d, z, node);
    DropSubAnchored(d, z, node);
  }

  // Whole states

  ghost predicate Core(s: State) {
    && DirectoryOk(s.dir)
    && NoStacking(s.sys, s.dir)
    && Recorded(s.dir, s.zone)
    && Balanced(s.money)
  }

  lemma BurnNodeCore(s: State, caller: AccountId, node: Node)
    requires Core(s)
    ensures BurnNode(s, caller, node).Ok? ==> Core(BurnNode(s, caller, node).value)
  {
    hide WellShaped, OneSubnameEach, WithinCapacity, Recorded, Balanced, Wipe, SubsUnder, SubsOutside;
    if BurnNode(s, caller, node).Ok? {
      RemoveOk(s.dir, node);
      RemoveRecorded(s.dir, s.zone, node);
    }
  }

  lemma TransferNodeCore(s: State, from: AccountId, to: AccountId, node: Node)
    requires Core(s)
    ensures TransferNode(s, from, to, node).Ok? ==> Core(TransferNode(s, from, to, node).value)
  {
    hide WellShaped, OneSubnameEach, WithinCapacity, Recorded, Balanced, Wipe, SubsUnder, SubsOutside, KeepSs58,
      WriteAnchors;
    if TransferNode(s, from, to, node).Ok? {
      SetOwnerOk(s.dir, node, to);
      SetOwnerRecorded(s.dir, s.zone, node, to, s.sys.env.parentHash);
    }
  }

  lemma RevokeNodeCore(s: State, parent: Node, node: Node)
    requires Core(s)
    ensures RevokeNode(s, parent, node).Ok? ==> Core(RevokeNode(s, parent, node).value)
  {
    hide WellShaped, OneSubnameEach, WithinCapacity, Recorded, Balanced, Wipe;
    if RevokeNode(s, parent, node).Ok? {
      DropSubOk(s.dir, node);
      DropSubRecorded(s.dir, s.zone, node);
    }
  }

  lemma RegisterNodeCore(s: State, caller: AccountId, node: Node, labelLen: nat, owner: AccountId)
    requires Core(s) && IsTop(node)
    ensures var r := RegisterNode(s, caller, node, labelLen, owner); r.Ok? ==> Core(r.value)
  {
    hide WellShaped, OneSubnameEach, WithinCapacity, Recorded, Balanced, Vacate, WriteAnchors, SubsOutside,
      FreeReceiver, Live, RegistrationFee, Withdraw, RegisterClaims;
    var r := RegisterNode(s, caller, node, labelLen, owner);
    if r.Ok? {
      var fee := RegistrationFee(s.sys.env.prices, labelLen).value;
      var name := FreshName(s, node, owner, s.sys.env.now + s.sys.cfg.maxDuration, fee, labelLen);
      MintOk(s.dir, node, name);
      MintRecorded(s.dir, s.zone, node, name, s.sys.env.parentHash);
      WithdrawBurns(s.money, s.sys.cfg.existential, caller, fee);
    }
  }

  lemma RejectOfferCore(s: State, caller: AccountId, parsed: Option<Node>)
    requires Core(s)
    ensures RejectOffer(s, caller, parsed).Ok? ==> Core(RejectOffer(s, caller, parsed).value)
  {
    hide DirectoryOk, NoStacking, Recorded, Balanced, BurnNode, RevokeNode;
    if RejectOffer(s, caller, parsed).Ok? {
      var node := parsed.value;
      if node in s.claims.offered {
        BurnNodeCore(s.(claims := DropOffer(s.claims, node)), caller, node);
      } else {
        RevokeNodeCore(s, s.dir.subs[node].parent, node);
      }
    }
  }

  /** The top-level nodes of a resolved call are top-level. */
  predicate TopsAreTop(a: Action) {
    match a
    case ARegister(_, Some(n), _, _, _) => IsTop(n)
    case AAcceptGift(Some(n)) => IsTop(n)
    case ABuy(Some(n), _) => IsTop(n)
    case _ => true
  }

  lemma RegisterCore(s: State, who: AccountId, a: Action)
    requires Core(s) && a.ARegister? && TopsAreTop(a)
    ensures Perform(s, who, a).Ok? ==> Core(Perform(s, who, a).value)
  {
    hide Core, RejectOffer, RegisterNode;
    if Perform(s, who, a).Ok? {
      var s0 := s;
      if a.reject.Some? {
        RejectOfferCore(s, who, a.reject.value);
        s0 := RejectOffer(s, who, a.reject.value).value;
      }
      RegisterNodeCore(s0, who, a.top.value, a.labelLen, a.owner);
    }
  }

  lemma RenewCore(s: State, who: AccountId)
    requires Core(s)
    ensures DoRenew(s, who).Ok? ==> Core(DoRenew(s, who).value)
  {
    hide DirectoryOk, Recorded, Balanced, Withdraw, RegistrationFee;
    if DoRenew(s, who).Ok? {
      var node := s.claims.primary[who];
      var fee := RegistrationFee(s.sys.env.prices, s.dir.names[node].labelLen).value;
      SetExpireOk(s.dir, node, s.sys.env.now + s.sys.cfg.maxDuration);
      SetExpireRecorded(s.dir, s.zone, node, s.sys.env.now + s.sys.cfg.maxDuration);
      WithdrawBurns(s.money, s.sys.cfg.existential, who, fee);
    }
  }

  lemma TransferCore(s: State, who: AccountId, to: AccountId)
    requires Core(s)
    ensures DoTransfer(s, who, to).Ok? ==> Core(DoTransfer(s, who, to).value)
  {
    hide DirectoryOk, NoStacking, Recorded, Balanced, TransferNode, FreeReceiver;
    if DoTransfer(s, who, to).Ok? {
      TransferNodeCore(s, who, to, s.claims.primary[who]);
    }
  }

  lemma ReleaseNameCore(s: State, who: AccountId)
    requires Core(s)
    ensures DoReleaseName(s, who).Ok? ==> Core(DoReleaseName(s, who).value)
  {
    hide DirectoryOk, NoStacking, Recorded, Balanced, BurnNode;
    if DoReleaseName(s, who).Ok? {
      BurnNodeCore(s.(claims := DropPrimary(s.claims, who)), who, s.claims.primary[who]);
    }
  }

  lemma OfferCore(s: State, who: AccountId, lab: Option<Bytes>, spelling: Bytes, target: AccountId)
    requires Core(s)
    ensures var r := DoOffer(s, who, lab, spelling, target); r.Ok? ==> Core(r.value)
  {
    hide DirectoryOk, NoStacking, Recorded, Balanced, SubsUnder, PutSub;
    if DoOffer(s, who, lab, spelling, target).Ok? {
      var parent := s.claims.primary[who];
      var node, r := Child(parent, lab.value), SubnameRecord(parent, spelling, target, Offered);
      OfferOk(s.dir, node, r);
      OfferRecorded(s.dir, s.zone, node, r);
      PutSubNoStacking(s.sys, s.dir, node, r);
    }
  }

  lemma AcceptCore(s: State, who: AccountId, sub: Option<Node>)
    requires Core(s)
    ensures DoAccept(s, who, sub).Ok? ==> Core(DoAccept(s, who, sub).value)
  {
    hide WellShaped, OneSubnameEach, WithinCapacity, NoStacking, Recorded, Balanced, PutSub, PutRecord, HasValidName,
      HoldsActiveSubname, HasHeldRow;
    if DoAccept(s, who, sub).Ok? {
      var node := sub.value;
      SetStateOk(s.dir, node, Active);
      AcceptRecorded(s.dir, s.zone, node);
      PutSubNoStacking(s.sys, s.dir, node, s.dir.subs[node].(state := Active));
    }
  }

  lemma RejectCore(s: State, who: AccountId, sub: Option<Node>)
    requires Core(s)
    ensures DoReject(s, who, sub).Ok? ==> Core(DoReject(s, who, sub).value)
  {
    hide DirectoryOk, NoStacking, Recorded, Balanced, PutSub;
    if DoReject(s, who, sub).Ok? {
      var node := sub.value;
      SetStateOk(s.dir, node, Rejected);
      RejectRecorded(s.dir, s.zone, node);
      PutSubNoStacking(s.sys, s.dir, node, s.dir.subs[node].(state := Rejected));
    }
  }

  lemma ReleaseSubCore(s: State, who: AccountId, sub: Option<Node>)
    requires Core(s)
    ensures DoReleaseSub(s, who, sub).Ok? ==> Core(DoReleaseSub(s, who, sub).value)
  {
    hide WellShaped, OneSubnameEach, WithinCapacity, Recorded, Balanced, Wipe;
    if DoReleaseSub(s, who, sub).Ok? {
      DropSubOk(s.dir, sub.value);
      DropSubRecorded(s.dir, s.zone, sub.value);
    }
  }

  lemma AcceptGiftCore(s: State, who: AccountId, top: Option<Node>)
    requires Core(s)
    ensures DoAcceptGift(s, who, top).Ok? ==> Core(DoAcceptGift(s, who, top).value)
  {
    hide DirectoryOk, NoStacking, Recorded, Balanced, FreeReceiver, WriteAnchors;
    if DoAcceptGift(s, who, top).Ok? {
      AnchorsRecorded(s.dir, s.zone, top.value, who, s.sys.env.parentHash);
    }
  }

  lemma SettleBalanced(s: State, buyer: AccountId, l: Listing)
    requires Balanced(s.money) && buyer != l.seller
    ensures Settle(s, buyer, l).Ok? ==> Balanced(Settle(s, buyer, l).value)
  {
    hide Balanced, Pay, Withdraw, ProtocolFee;
    if Settle(s, buyer, l).Ok? {
      var ed := s.sys.cfg.existential;
      PayMoves(s.money, ed, buyer, l.seller, l.price);
      WithdrawBurns(Pay(s.money, ed, buyer, l.seller, l.price).value, ed, l.seller,
                    ProtocolFee(l.price, s.sys.cfg.feeBps));
    }
  }

  lemma BuyCore(s: State, who: AccountId, top: Option<Node>, recipient: Option<AccountId>)
    requires Core(s)
    ensures DoBuy(s, who, top, recipient).Ok? ==> Core(DoBuy(s, who, top, recipient).value)
  {
    hide DirectoryOk, NoStacking, Recorded, Balanced, TransferNode, FreeReceiver, Settle, ProtocolFee, ForgetPrimary;
    if DoBuy(s, who, top, recipient).Ok? {
      var node := top.value;
      var l := s.claims.listings[node];
      var s1 := s.(claims := s.claims.(listings := s.claims.listings - {node}));
      TransferNodeCore(s1, l.seller, if recipient.Some? then recipient.value else who, node);
      SettleBalanced(s, who, l);
    }
  }

  lemma EditCore(s: State, who: AccountId, a: Action)
    requires Core(s) && (a.ASetRecord? || a.ASetText?)
    ensures Perform(s, who, a).Ok? ==> Core(Perform(s, who, a).value)
  {
    hide DirectoryOk, NoStacking, Balanced;
  }

  lemma {:induction false} PerformCore(s: State, who: AccountId, a: Action)
    requires Core(s) && TopsAreTop(a)
    ensures Perform(s, who, a).Ok? ==> Core(Perform(s, who, a).value)
  {
    hide Core, DoRegister, DoRenew, DoTransfer, DoReleaseName, DoOffer, DoAccept, DoReject, DoRevoke, DoReleaseSub,
      DoAcceptGift, DoBurn, DoList, DoCancel, DoBuy, DoSetRecord, DoSetText;
    match a
    case ARegister(_, _, _, _, _) => RegisterCore(s, who, a);
    case ARenew => RenewCore(s, who);
    case ATransfer(to) => TransferCore(s, who, to);
    case AReleaseName => ReleaseNameCore(s, who);
    case AOffer(lab, spelling, target) => OfferCore(s, who, lab, spelling, target);
    case AAccept(node) => AcceptCore(s, who, node);
    case AReject(node) => RejectCore(s, who, node);
    case ARevoke(lab) => RevokeCore(s, who, lab);
    case AReleaseSub(node) => ReleaseSubCore(s, who, node);
    case AAcceptGift(top) => AcceptGiftCore(s, who, top);
    case ABurn(node) => BurnCore(s, who, node);
    case AList(price, expiresAt) => ListingCore(s, who, a);
    case ACancel => ListingCore(s, who, a);
    case ABuy(top, recipient) => BuyCore(s, who, top, recipient);
    case ASetRecord(_, _, _) => EditCore(s, who, a);
    case ASetText(_, _, _) => EditCore(s, who, a);
    case AForbidden =>
  }

  lemma RevokeCore(s: State, who: AccountId, lab: Option<Bytes>)
    requires Core(s)
    ensures DoRevoke(s, who, lab).Ok? ==> Core(DoRevoke(s, who, lab).value)
  {
    hide Core, RevokeNode;
    if who in s.claims.primary && lab.Some? {
      RevokeNodeCore(s, s.claims.primary[who], Child(s.claims.primary[who], lab.value));
    }
  }

  lemma BurnCore(s: State, who: AccountId, parsed: Option<Node>)
    requires Core(s)
    ensures DoBurn(s, who, parsed).Ok? ==> Core(DoBurn(s, who, parsed).value)
  {
    hide Core, BurnNode;
    if parsed.Some? {
      BurnNodeCore(s, who, parsed.value);
    }
  }

  lemma ListingCore(s: State, who: AccountId, a: Action)
    requires Core(s) && (a.AList? || a.ACancel?)
    ensures Perform(s, who, a).Ok? ==> Core(Perform(s, who, a).value)
  {
    hide DirectoryOk, NoStacking, Recorded, Balanced;
  }

  lemma ResolveTops(call: Call)
    ensures TopsAreTop(Resolve(call))
  {
    hide ParseNameToNode, CheckLabel, Lower;
  }

  /** Time may pass and the manager may act. */
  lemma ApplyCore(s: State, x: Extrinsic)
    requires Core(s)
    ensures Apply(s, x).Ok? ==> Core(Apply(s, x).value)
  {
    hide DirectoryOk, Recorded, Balanced, Perform, Resolve, Top;
    if x.Signed? {
      ResolveTops(x.call);
      PerformCore(s, x.who, Resolve(x.call));
    }
  }

  /** Every run from genesis ends in a state with all the facts above. */
  lemma {:induction false} RunCore(s: State, xs: seq<Extrinsic>)
    requires Core(s)
    ensures Core(Run(s, xs))
    decreases |xs|
  {
    hide Core, Apply;
    if xs != [] {
      RunCore(s, xs[..|xs| - 1]);
      ApplyCore(Run(s, xs[..|xs| - 1]), xs[|xs| - 1]);
    }
  }

  // Runs in pieces

  lemma {:induction false} RunAppend(s: State, xs: seq<Extrinsic>, x: Extrinsic)
    ensures Run(s, xs + [x]) == Step(Run(s, xs), x)
  {
    hide Step;
    assert (xs + [x])[..|xs|] == xs;
  }

  lemma {:induction false} RunConcat(s: State, xs: seq<Extrinsic>, ys: seq<Extrinsic>)
    ensures Run(s, xs + ys) == Run(Run(s, xs), ys)
    decreases |ys|
  {
    hide Step;
    if ys == [] {
      assert xs + ys == xs;
    } else {
      var k := |ys| - 1;
      RunConcat(s, xs, ys[..k]);
      assert (xs + ys)[..|xs| + k] == xs + ys[..k];
    }
  }

  lemma GenesisCore(cfg: Config, env: Env, official: AccountId, reserved: set<Node>, money: Money)
    requires Balanced(money)
    ensures Core(Genesis(cfg, env, official, reserved, money))
  {
    hide Balanced;
  }
}
